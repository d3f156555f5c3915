/**
 The strategy demo: every character carries one weapon, starting with a
 knife, which can be swapped at any time; fighting delegates to the weapon.

 Using a weapon and displaying a character print a single name; here each
 returns the name it would print.
 */
module Strategy {

  import opened Optional

  /** The weapons that exist. */
  datatype Weapon = Sword | Knife | Axe | Gun

  /** `useWeapon`: the line each weapon prints. */
  function UseWeapon(w: Weapon): (line: string)
  {
    match w
    case Sword => "Sword"
    case Knife => "Knife"
    case Axe => "Axe"
    case Gun => "Gun"
  }

  /** Reverse lookup of a printed weapon line. */
  function WeaponNamed(name: string): (w: Option<Weapon>)
    ensures w.Some? ==> UseWeapon(w.value) == name
  {
    if name == "Sword" then Some(Sword)
    else if name == "Knife" then Some(Knife)
    else if name == "Axe" then Some(Axe)
    else if name == "Gun" then Some(Gun)
    else None
  }

  /** Every weapon prints a line that names it and no other weapon. */
  lemma WeaponNamedUseWeapon(w: Weapon)
    ensures WeaponNamed(UseWeapon(w)) == Some(w)
  {
  }

  /** The concrete kinds of character. */
  datatype Kind = King | Queen | Knight

  /** A character: its kind, fixed at construction, and its current weapon. */
  datatype Character = Character(kind: Kind, weapon: Weapon)

  /** Constructing a character of a given kind: it starts with a knife. */
  function NewCharacter(k: Kind): (c: Character)
    ensures c.kind == k
    ensures Fight(c) == "Knife"
  {
    Character(k, Knife)
  }

  /** `fight`: the character uses whatever weapon it currently holds, so the
      printed line identifies exactly that weapon. */
  function Fight(c: Character): (line: string)
    ensures WeaponNamed(line) == Some(c.weapon)
  {
    WeaponNamedUseWeapon(c.weapon);
    UseWeapon(c.weapon)
  }

  /** `setWeapon`: the new weapon is the one the next fight uses; the kind stays. */
  function SetWeapon(c: Character, w: Weapon): (r: Character)
    ensures r.kind == c.kind
    ensures WeaponNamed(Fight(r)) == Some(w)
  {
    c.(weapon := w)
  }

  /** `display`: the line each kind of character prints. */
  function Display(c: Character): (line: string)
  {
    match c.kind
    case King => "King"
    case Queen => "Queen"
    case Knight => "Knight"
  }

  /** Display depends on the kind only, never on the weapon, and tells kinds apart. */
  lemma DisplayIsKindOnly(c1: Character, c2: Character)
    ensures Display(c1) == Display(c2) <==> c1.kind == c2.kind
  {
  }

  /** Setting a weapon twice: the last one wins. */
  lemma SetWeaponLastWins(c: Character, w1: Weapon, w2: Weapon)
    ensures SetWeapon(SetWeapon(c, w1), w2) == SetWeapon(c, w2)
  {
  }

  /** Changing one character's weapon leaves every other character as it was. */
  function SetWeaponOf(cast: seq<Character>, i: nat, w: Weapon): (r: seq<Character>)
    requires i < |cast|
    ensures |r| == |cast|
    ensures Fight(r[i]) == UseWeapon(w) && r[i].kind == cast[i].kind
    ensures forall j :: 0 <= j < |cast| && j != i ==> r[j] == cast[j]
  {
    cast[i := SetWeapon(cast[i], w)]
  }

  /** What a driver can do with a character. */
  datatype Action = Show | Attack | Arm(w: Weapon)

  /** Performing actions in order: the character afterwards and the lines printed. */
  function Perform(c: Character, actions: seq<Action>): (res: (Character, seq<string>))
    ensures res.0.kind == c.kind
    ensures |res.1| == |actions| - Arms(actions)
    decreases |actions|
  {
    if |actions| == 0 then (c, [])
    else
      var (c', lines) :=
        match actions[0]
        case Show => (c, [Display(c)])
        case Attack => (c, [Fight(c)])
        case Arm(w) => (SetWeapon(c, w), []);
      var (final, rest) := Perform(c', actions[1..]);
      (final, lines + rest)
  }

  /** Number of weapon changes among the actions. */
  function Arms(actions: seq<Action>): (n: nat)
    ensures n <= |actions|
  {
    if |actions| == 0 then 0
    else (if actions[0].Arm? then 1 else 0) + Arms(actions[1..])
  }

  /** Performing `first` and then `rest` is performing `first + rest` from
      the character `first` leaves behind. */
  lemma {:induction false} PerformAppend(c: Character, first: seq<Action>, rest: seq<Action>)
    ensures Perform(c, first + rest).0 == Perform(Perform(c, first).0, rest).0
    ensures Perform(c, first + rest).1 == Perform(c, first).1 + Perform(Perform(c, first).0, rest).1
    decreases |first|
  {
    if |first| == 0 {
      assert first + rest == rest;
    } else {
      var all := first + rest;
      assert all[0] == first[0];
      assert all[1..] == first[1..] + rest;
      var c' := match first[0]
        case Show => c
        case Attack => c
        case Arm(w) => SetWeapon(c, w);
      var lines := match first[0]
        case Show => [Display(c)]
        case Attack => [Fight(c)]
        case Arm(w) => [];
      PerformAppend(c', first[1..], rest);
      var (mid, lines1) := Perform(c', first[1..]);
      var (final, lines2) := Perform(mid, rest);
      assert Perform(c, first) == (mid, lines + lines1);
      assert Perform(c, all) == (final, lines + (lines1 + lines2));
      assert lines + (lines1 + lines2) == (lines + lines1) + lines2;
    }
  }

  /** Whatever the character did before, a fight straight after arming a
      weapon prints that weapon's line. */
  lemma AttackAfterArm(c: Character, before: seq<Action>, w: Weapon)
    ensures var lines := Perform(c, before + [Arm(w), Attack]).1;
            |lines| > 0 && lines[|lines| - 1] == UseWeapon(w)
  {
    PerformAppend(c, before, [Arm(w), Attack]);
    assert [Arm(w), Attack][1..] == [Attack];
    assert [Attack][1..] == [];
  }

  /** The queen of the demo: shown, fights with the default knife, takes an
      axe, fights with it. */
  lemma QueenScenario()
    ensures Perform(NewCharacter(Queen), [Show, Attack, Arm(Axe), Attack]).1
         == ["Queen", "Knife", "Axe"]
  {
    var acts := [Show, Attack, Arm(Axe), Attack];
    assert acts[1..] == [Attack, Arm(Axe), Attack];
    assert acts[1..][1..] == [Arm(Axe), Attack];
    assert acts[1..][1..][1..] == [Attack];
    assert acts[1..][1..][1..][1..] == [];
  }
}
