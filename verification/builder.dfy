/**
 The builder demo: a hamburger is assembled through a builder that starts
 with no toppings, has one chainable setter per topping, and copies its
 settings into an immutable hamburger on `build`.

 The builder is modelled as a value; a setter returns the updated builder.
 */
module Builder {

  import opened Optional

  /** The three toppings, as held by a builder in progress. */
  datatype Builder = Builder(cheese: bool, beef: bool, onions: bool)

  /** A finished hamburger. */
  datatype Hamburger = Hamburger(cheese: bool, beef: bool, onions: bool)

  /** A fresh builder: no cheese, no beef, no onions. */
  function NewBuilder(): (b: Builder)
    ensures !b.cheese && !b.beef && !b.onions
  {
    Builder(false, false, false)
  }

  /** `cheese(value)`: sets the cheese topping and nothing else. */
  function Cheese(b: Builder, value: bool): (r: Builder)
    ensures r.cheese == value
    ensures r.beef == b.beef && r.onions == b.onions
  {
    b.(cheese := value)
  }

  /** `beef(value)`: sets the beef topping and nothing else. */
  function Beef(b: Builder, value: bool): (r: Builder)
    ensures r.beef == value
    ensures r.cheese == b.cheese && r.onions == b.onions
  {
    b.(beef := value)
  }

  /** `onions(value)`: sets the onions topping and nothing else. */
  function Onions(b: Builder, value: bool): (r: Builder)
    ensures r.onions == value
    ensures r.cheese == b.cheese && r.beef == b.beef
  {
    b.(onions := value)
  }

  /** `build`: a hamburger with exactly the builder's current toppings. */
  function Build(b: Builder): (h: Hamburger)
    ensures h.cheese == b.cheese && h.beef == b.beef && h.onions == b.onions
  {
    Hamburger(b.cheese, b.beef, b.onions)
  }

  /** A second call to the same setter overrides the first. */
  lemma LastWriteWins(b: Builder, x: bool, y: bool)
    ensures Cheese(Cheese(b, x), y) == Cheese(b, y)
    ensures Beef(Beef(b, x), y) == Beef(b, y)
    ensures Onions(Onions(b, x), y) == Onions(b, y)
  {
  }

  /** Setters of different toppings can be called in either order. */
  lemma SettersCommute(b: Builder, x: bool, y: bool)
    ensures Beef(Cheese(b, x), y) == Cheese(Beef(b, y), x)
    ensures Onions(Cheese(b, x), y) == Cheese(Onions(b, y), x)
    ensures Onions(Beef(b, x), y) == Beef(Onions(b, y), x)
  {
  }

  /** Any hamburger can be built: setting each topping from a fresh builder
      reproduces it. */
  lemma EveryHamburgerBuildable(h: Hamburger)
    ensures Build(Onions(Beef(Cheese(NewBuilder(), h.cheese), h.beef), h.onions)) == h
  {
  }

  /** Kotlin's rendering of a Boolean. */
  function BoolText(b: bool): (text: string)
  {
    if b then "true" else "false"
  }

  /** `toString`: cheese, beef and onions, in that order, separated by single spaces. */
  function ToString(h: Hamburger): (text: string)
  {
    BoolText(h.cheese) + " " + BoolText(h.beef) + " " + BoolText(h.onions)
  }

  /** The rendering as the first field followed by the rest of the line. */
  lemma ToStringShape(h: Hamburger)
    ensures ToString(h)
         == BoolText(h.cheese) + (" " + BoolText(h.beef) + (" " + BoolText(h.onions) + []))
  {
    Associate(BoolText(h.cheese), " ", BoolText(h.beef), " ", BoolText(h.onions));
    assert BoolText(h.onions) + [] == BoolText(h.onions);
  }

  /** Regrouping a five-part concatenation; stated generically so that
      `ToStringShape` need not unfold the rendered literals. */
  lemma Associate<T>(a: seq<T>, b: seq<T>, c: seq<T>, d: seq<T>, e: seq<T>)
    ensures a + b + c + d + e == a + (b + c + (d + e))
  {
  }

  /** Reads one rendered Boolean off the front of `s`, with what follows it. */
  function ParseBool(s: string): (res: Option<(bool, string)>)
    ensures res.Some? ==> BoolText(res.value.0) + res.value.1 == s
  {
    if |s| >= 4 && s[..4] == "true" then
      assert s == s[..4] + s[4..];
      Some((true, s[4..]))
    else if |s| >= 5 && s[..5] == "false" then
      assert s == s[..5] + s[5..];
      Some((false, s[5..]))
    else None
  }

  /** Reads a single space and then one rendered Boolean off the front of `s`. */
  function ParseSpacedBool(s: string): (res: Option<(bool, string)>)
    ensures res.Some? ==> " " + BoolText(res.value.0) + res.value.1 == s
  {
    if |s| == 0 || s[0] != ' ' then None
    else
      match ParseBool(s[1..])
      case None => None
      case Some((b, rest)) =>
        assert s == " " + s[1..];
        Some((b, rest))
  }

  /** Reads back a rendered hamburger; `None` for any other text. */
  function Parse(s: string): (res: Option<Hamburger>)
    ensures res.Some? ==> ToString(res.value) == s
  {
    match ParseBool(s)
    case None => None
    case Some((cheese, r1)) =>
      match ParseSpacedBool(r1)
      case None => None
      case Some((beef, r2)) =>
        match ParseSpacedBool(r2)
        case None => None
        case Some((onions, r3)) =>
          if |r3| != 0 then None
          else
            assert r2 == " " + BoolText(onions) + r3 && r3 == [];
            ToStringShape(Hamburger(cheese, beef, onions));
            Some(Hamburger(cheese, beef, onions))
  }

  /** A rendered Boolean followed by anything is read back as that Boolean. */
  lemma ParseBoolText(b: bool, rest: string)
    ensures ParseBool(BoolText(b) + rest) == Some((b, rest))
  {
    var s := BoolText(b) + rest;
    if b {
      assert s[..4] == "true";
      assert s[4..] == rest;
    } else {
      assert s[0] == 'f';
      assert s[..5] == "false";
      assert s[5..] == rest;
    }
  }

  /** A space, a rendered Boolean and anything after are read back likewise. */
  lemma ParseSpacedBoolText(b: bool, rest: string)
    ensures ParseSpacedBool(" " + BoolText(b) + rest) == Some((b, rest))
  {
    var s := " " + BoolText(b) + rest;
    assert s[1..] == BoolText(b) + rest;
    ParseBoolText(b, rest);
  }

  /** `toString` loses nothing: the text reads back as the same hamburger. */
  lemma ParseToString(h: Hamburger)
    ensures Parse(ToString(h)) == Some(h)
  {
    var r2 := " " + BoolText(h.onions) + "";
    var r1 := " " + BoolText(h.beef) + r2;
    ToStringShape(h);
    ParseBoolText(h.cheese, r1);
    ParseSpacedBoolText(h.beef, r2);
    ParseSpacedBoolText(h.onions, "");
  }

  /** Two hamburgers print the same text only if they are the same hamburger. */
  lemma ToStringInjective(h1: Hamburger, h2: Hamburger)
    ensures ToString(h1) == ToString(h2) ==> h1 == h2
  {
    ParseToString(h1);
    ParseToString(h2);
  }

  /** The demo: cheese and onions, no beef, prints "true false true". */
  lemma DemoPrints()
    ensures ToString(Build(Onions(Cheese(NewBuilder(), true), true))) == "true false true"
  {
  }
}
