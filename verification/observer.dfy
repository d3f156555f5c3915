/**
 The observer demo: a YouTube channel keeps an ordered list of observer
 handles, appends on subscribe, drops the first equal handle on unsubscribe,
 and on a broadcast calls every registered observer in registration order.

 Observers are opaque values compared with `==` (Kotlin's `equals`); what an
 observer does when updated is not visible, so a broadcast is modelled as the
 trace of events it causes rather than as the calls themselves.
 */
module ObserverRegistry {

  /** One observable effect of the channel: an observer's `update` call, or
      the console line announcing a released video. */
  datatype Event<O> = Updated(observer: O) | Released(video: string)

  /** The channel's state: its observer list, oldest registration first. */
  type Registry<O> = seq<O>

  /** A freshly constructed channel has no observers. */
  function NewRegistry<O>(): (reg: Registry<O>)
    ensures |reg| == 0
  {
    []
  }

  /** `addObserver`: append, without checking for an existing equal handle. */
  function AddObserver<O>(reg: Registry<O>, o: O): (r: Registry<O>)
    ensures |r| == |reg| + 1
    ensures r[..|reg|] == reg && r[|reg|] == o
    ensures multiset(r)[o] == multiset(reg)[o] + 1
  {
    reg + [o]
  }

  /** The position `remove` searches out: the first equal handle, or -1. */
  function IndexOf<O(==)>(reg: Registry<O>, o: O): (i: int)
    ensures -1 <= i < |reg|
    ensures i == -1 <==> o !in reg
    ensures 0 <= i ==> reg[i] == o
    ensures forall k :: 0 <= k < i ==> reg[k] != o
  {
    if |reg| == 0 then -1
    else if reg[0] == o then 0
    else
      var j := IndexOf(reg[1..], o);
      if j < 0 then -1 else j + 1
  }

  /** `removeObserver`: drop the first handle equal to `o`; absent means no-op. */
  function RemoveObserver<O(==)>(reg: Registry<O>, o: O): (r: Registry<O>)
    ensures o !in reg ==> r == reg
    ensures o in reg ==> |r| == |reg| - 1
  {
    if |reg| == 0 then []
    else if reg[0] == o then reg[1..]
    else [reg[0]] + RemoveObserver(reg[1..], o)
  }

  /** Removal takes away exactly one registration of `o` when there is one,
      and no registration of any other handle. */
  lemma {:induction false} RemoveObserverCounts<O>(reg: Registry<O>, o: O)
    ensures multiset(RemoveObserver(reg, o)) == multiset(reg) - multiset{o}
  {
    if |reg| > 0 {
      assert reg == [reg[0]] + reg[1..];
      if reg[0] != o {
        RemoveObserverCounts(reg[1..], o);
      }
    }
  }

  /** `notifyObserver`: one `update` per list entry, in list order. */
  function NotifyObserver<O>(reg: Registry<O>): (trace: seq<Event<O>>)
    ensures |trace| == |reg|
    ensures forall i :: 0 <= i < |reg| ==> trace[i] == Updated(reg[i])
  {
    if |reg| == 0 then []
    else [Updated(reg[0])] + NotifyObserver(reg[1..])
  }

  /** `releaseNewVideo`: announce the video, then notify. */
  function ReleaseNewVideo<O>(reg: Registry<O>, video: string): (trace: seq<Event<O>>)
    ensures |trace| == |reg| + 1
    ensures trace[0] == Released(video)
    ensures forall i :: 0 <= i < |reg| ==> trace[i + 1] == Updated(reg[i])
  {
    [Released(video)] + NotifyObserver(reg)
  }

  /** Removing a handle splices out exactly the position `IndexOf` reports,
      so every other entry keeps its relative order. */
  lemma {:induction false} RemoveIsSpliceAtIndexOf<O>(reg: Registry<O>, o: O)
    requires o in reg
    ensures RemoveObserver(reg, o) == reg[..IndexOf(reg, o)] + reg[IndexOf(reg, o) + 1..]
  {
    if reg[0] == o {
      assert reg[..0] + reg[1..] == reg[1..];
    } else {
      var tail := reg[1..];
      assert o in tail by { assert reg == [reg[0]] + tail; }
      RemoveIsSpliceAtIndexOf(tail, o);
      var j := IndexOf(tail, o);
      assert IndexOf(reg, o) == j + 1;
      assert RemoveObserver(reg, o) == [reg[0]] + RemoveObserver(tail, o);
      ConsSplice(reg[0], tail, j);
      assert reg == [reg[0]] + tail;
    }
  }

  /** Putting `x` in front commutes with cutting out position `j` (shifted by one). */
  lemma ConsSplice<O>(x: O, tail: seq<O>, j: nat)
    requires j < |tail|
    ensures [x] + (tail[..j] + tail[j + 1..]) == ([x] + tail)[..j + 1] + ([x] + tail)[j + 2..]
  {
    assert ([x] + tail)[..j + 1] == [x] + tail[..j];
    assert ([x] + tail)[j + 2..] == tail[j + 1..];
  }

  /** Subscribing a handle that was not registered and then unsubscribing it
      gives back the original list. */
  lemma {:induction false} AddThenRemoveRestores<O>(reg: Registry<O>, o: O)
    requires o !in reg
    ensures RemoveObserver(AddObserver(reg, o), o) == reg
  {
    if |reg| == 0 {
      assert AddObserver(reg, o) == [o];
    } else {
      var tail := reg[1..];
      assert reg == [reg[0]] + tail;
      assert o !in tail;
      AddThenRemoveRestores(tail, o);
      var added := reg + [o];
      assert added[0] == reg[0] && added[0] != o;
      assert added[1..] == tail + [o];
      assert RemoveObserver(added, o) == [reg[0]] + RemoveObserver(tail + [o], o);
    }
  }

  /** Unsubscribing a handle that is already registered takes out its EARLIEST
      registration, so a fresh duplicate survives at the end of the list. */
  lemma {:induction false} AddThenRemoveHitsEarliest<O>(reg: Registry<O>, o: O)
    requires o in reg
    ensures RemoveObserver(AddObserver(reg, o), o) == AddObserver(RemoveObserver(reg, o), o)
  {
    assert reg == [reg[0]] + reg[1..];
    if reg[0] != o {
      assert (reg + [o])[1..] == reg[1..] + [o];
      AddThenRemoveHitsEarliest(reg[1..], o);
    }
  }

  /** Notifying a list made of two parts notifies the first part, then the second. */
  lemma {:induction false} NotifyAppend<O>(a: Registry<O>, b: Registry<O>)
    ensures NotifyObserver(a + b) == NotifyObserver(a) + NotifyObserver(b)
  {
    if |a| > 0 {
      assert (a + b)[1..] == a[1..] + b;
      NotifyAppend(a[1..], b);
    }
  }

  /** An observer registered k times is updated k times per broadcast. */
  lemma {:induction false} NotifyCountsOccurrences<O>(reg: Registry<O>, o: O)
    ensures multiset(NotifyObserver(reg))[Updated(o)] == multiset(reg)[o]
  {
    if |reg| > 0 {
      NotifyCountsOccurrences(reg[1..], o);
      assert reg == [reg[0]] + reg[1..];
      assert NotifyObserver(reg) == [Updated(reg[0])] + NotifyObserver(reg[1..]);
    }
  }

  /** A broadcast never announces a release by itself. */
  lemma NotifyHasNoRelease<O>(reg: Registry<O>, video: string)
    ensures Released(video) !in NotifyObserver(reg)
  {
  }

  /** One call on the channel's public interface. */
  datatype Call<O> = Add(o: O) | Remove(o: O) | Notify | Release(video: string)

  /** The list after a call, and the events the call caused. */
  function Step<O(==)>(reg: Registry<O>, call: Call<O>): (res: (Registry<O>, seq<Event<O>>))
    ensures call.Notify? || call.Release? ==> res.0 == reg
    ensures call.Add? || call.Remove? ==> res.1 == []
  {
    match call
    case Add(o) => (AddObserver(reg, o), [])
    case Remove(o) => (RemoveObserver(reg, o), [])
    case Notify => (reg, NotifyObserver(reg))
    case Release(v) => (reg, ReleaseNewVideo(reg, v))
  }

  /** A sequence of calls made one after another, with all their events in order. */
  function Run<O(==)>(reg: Registry<O>, calls: seq<Call<O>>): (res: (Registry<O>, seq<Event<O>>))
    decreases |calls|
  {
    if |calls| == 0 then (reg, [])
    else
      var (reg', events) := Step(reg, calls[0]);
      var (final, rest) := Run(reg', calls[1..]);
      (final, events + rest)
  }

  /** Number of `Add` calls. */
  function Adds<O>(calls: seq<Call<O>>): (n: nat)
  {
    if |calls| == 0 then 0
    else (if calls[0].Add? then 1 else 0) + Adds(calls[1..])
  }

  /** Number of `Remove` calls whose handle was registered at the time of the call. */
  function EffectiveRemoves<O(==)>(reg: Registry<O>, calls: seq<Call<O>>): (n: nat)
    decreases |calls|
  {
    if |calls| == 0 then 0
    else
      (if calls[0].Remove? && calls[0].o in reg then 1 else 0)
      + EffectiveRemoves(Step(reg, calls[0]).0, calls[1..])
  }

  /** After any run, the list holds its old entries plus one per add, minus
      one per remove that found its handle. */
  lemma {:induction false} RunLength<O>(reg: Registry<O>, calls: seq<Call<O>>)
    ensures |Run(reg, calls).0| == |reg| + Adds(calls) - EffectiveRemoves(reg, calls)
    decreases |calls|
  {
    if |calls| > 0 {
      RunLength(Step(reg, calls[0]).0, calls[1..]);
    }
  }

  /** A newly added observer is updated last in every later release. */
  lemma ReleaseAfterAdd<O>(reg: Registry<O>, o: O, video: string)
    ensures ReleaseNewVideo(AddObserver(reg, o), video) == ReleaseNewVideo(reg, video) + [Updated(o)]
  {
    NotifyAppend(reg, [o]);
    assert NotifyObserver([o]) == [Updated(o)];
  }

  /** Register A, B, C; remove B; broadcast: A and then C react, B does not. */
  lemma RemoveMiddleScenario<O>(a: O, b: O, c: O)
    requires a != b && b != c && a != c
    ensures var reg := AddObserver(AddObserver(AddObserver(NewRegistry(), a), b), c);
            NotifyObserver(RemoveObserver(reg, b)) == [Updated(a), Updated(c)]
  {
    var reg := AddObserver(AddObserver(AddObserver(NewRegistry(), a), b), c);
    assert reg == [a, b, c];
    assert reg[1..] == [b, c];
    assert RemoveObserver(reg, b) == [a, c];
  }

  /** Three subscribers and one inline observer registered in that order, then
      a release: the announcement comes first, then one update per observer in
      registration order. */
  lemma ReleaseScenario<O>(s1: O, s2: O, s3: O, inline: O)
    ensures ReleaseNewVideo(
              AddObserver(AddObserver(AddObserver(AddObserver(NewRegistry(), s1), s2), s3), inline),
              "Design Patterns : Observer pattern")
         == [Released("Design Patterns : Observer pattern"),
             Updated(s1), Updated(s2), Updated(s3), Updated(inline)]
  {
    var v := "Design Patterns : Observer pattern";
    var r1 := AddObserver(NewRegistry(), s1);
    var r2 := AddObserver(r1, s2);
    var r3 := AddObserver(r2, s3);
    ReleaseAfterAdd(NewRegistry(), s1, v);
    assert ReleaseNewVideo(r1, v) == [Released(v), Updated(s1)];
    ReleaseAfterAdd(r1, s2, v);
    assert ReleaseNewVideo(r2, v) == [Released(v), Updated(s1), Updated(s2)];
    ReleaseAfterAdd(r2, s3, v);
    assert ReleaseNewVideo(r3, v) == [Released(v), Updated(s1), Updated(s2), Updated(s3)];
    ReleaseAfterAdd(r3, inline, v);
  }
}
