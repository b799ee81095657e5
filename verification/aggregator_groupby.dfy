/**
 The online aggregator refines an offline group-by, conserves counts and emits each period at most once.
 */
module AggregationGroupBy {
  import opened Aggregation

  // ---- the offline view -----------------------------------------------------

  /** The latest bucket reached since the first entry; 0 before it. Ticks before the first entry do not count. */
  function Reached(period: int, h: seq<Event>): int {
    if h == [] then 0 else
    var before := Reached(period, h[..|h| - 1]);
    var e := h[|h| - 1];
    var at := BucketStart(period, TimeOf(e));
    if before == 0 then (if e.Entry? then at else 0) else if at > before then at else before
  }

  ghost predicate Started(h: seq<Event>, f: nat) {
    f < |h| && h[f].Entry? && forall i :: 0 <= i < f ==> h[i].Tick?
  }

  /** It is the running maximum: the largest bucket of any event from the first entry on. */
  lemma {:induction false} ReachedIsMaximum(period: int, h: seq<Event>, f: nat)
    requires Live(period, h) && Started(h, f)
    ensures Reached(period, h) > 0
    ensures forall i :: f <= i < |h| ==> BucketStart(period, TimeOf(h[i])) <= Reached(period, h)
    ensures exists i :: f <= i < |h| && BucketStart(period, TimeOf(h[i])) == Reached(period, h)
  {
    var before := h[..|h| - 1];
    if f < |before| {
      ReachedIsMaximum(period, before, f);
      var i :| f <= i < |before| && BucketStart(period, TimeOf(before[i])) == Reached(period, before);
      assert h[i] == before[i];
      assert h[|h| - 1] == h[|before|];
    } else {
      NotReached(period, before);
      assert BucketStart(period, TimeOf(h[f])) == Reached(period, h);
    }
  }

  lemma {:induction false} NotReached(period: int, h: seq<Event>)
    requires forall i :: 0 <= i < |h| ==> h[i].Tick?
    ensures Reached(period, h) == 0
  {
    if h != [] { NotReached(period, h[..|h| - 1]); }
  }

  /** How many entries belong to a period: those that arrived while it was the latest one reached. */
  function CountOf(period: int, h: seq<Event>, v: int): nat {
    if h == [] then 0 else
    CountOf(period, h[..|h| - 1], v) + if h[|h| - 1].Entry? && Reached(period, h) == v then 1 else 0
  }

  predicate HasKey(e: Event, k: string) { e.Entry? && e.env.gateway != "" && k == "gateway:" + e.env.gateway }

  /** The same for one breakdown key. */
  function KeyCountOf(period: int, h: seq<Event>, v: int, k: string): nat {
    if h == [] then 0 else
    KeyCountOf(period, h[..|h| - 1], v, k) + if HasKey(h[|h| - 1], k) && Reached(period, h) == v then 1 else 0
  }

  ghost predicate CountsKeys(period: int, h: seq<Event>, v: int, byKey: map<string, nat>) {
    forall k :: Get(byKey, k) == KeyCountOf(period, h, v, k) && (k in byKey ==> byKey[k] > 0)
  }

  ghost predicate Groups(period: int, h: seq<Event>, s: Summary) {
    s.count == CountOf(period, h, s.start) && CountsKeys(period, h, s.start, s.breakdown) && s.end == s.start + period
  }

  // ---- the online fold keeps up ---------------------------------------------

  /** The open bucket holds exactly the group of the latest period. */
  ghost predicate OpenOk(period: int, h: seq<Event>, b: Bucket) {
    && b.current == Reached(period, h) && b.count == CountOf(period, h, b.current)
    && CountsKeys(period, h, b.current, b.byKey) && (b.current == 0 ==> b == NEW)
  }

  /** Nothing belongs to a period later than the latest one reached. */
  lemma {:induction false} NothingAhead(period: int, h: seq<Event>, v: int)
    requires Live(period, h) && (v > Reached(period, h) || (v == 0 && Reached(period, h) == 0))
    ensures CountOf(period, h, v) == 0 && forall k :: KeyCountOf(period, h, v, k) == 0
  {
    if h != [] {
      NothingAhead(period, h[..|h| - 1], v);
    }
  }

  lemma KeysOneMore(period: int, h: seq<Event>, v: int, byKey: map<string, nat>)
    requires h != [] && h[|h| - 1].Entry? && Reached(period, h) == v && CountsKeys(period, h[..|h| - 1], v, byKey)
    ensures CountsKeys(period, h, v, Fold(Bucket(v, 0, byKey, false), h[|h| - 1].env).byKey)
  {
    var before := h[..|h| - 1];
    var env := h[|h| - 1].env;
    var after := Fold(Bucket(v, 0, byKey, false), env).byKey;
    forall k ensures Get(after, k) == KeyCountOf(period, h, v, k) && (k in after ==> after[k] > 0) {
      assert Get(byKey, k) == KeyCountOf(period, before, v, k);
    }
  }

  lemma KeysSame(period: int, h: seq<Event>, v: int, byKey: map<string, nat>)
    requires h != [] && (h[|h| - 1].Tick? || Reached(period, h) != v) && CountsKeys(period, h[..|h| - 1], v, byKey)
    ensures CountsKeys(period, h, v, byKey) && CountOf(period, h, v) == CountOf(period, h[..|h| - 1], v)
  {
    forall k ensures Get(byKey, k) == KeyCountOf(period, h, v, k) && (k in byKey ==> byKey[k] > 0) {
      assert Get(byKey, k) == KeyCountOf(period, h[..|h| - 1], v, k);
    }
  }

  lemma EmptyKeys(period: int, h: seq<Event>, v: int)
    requires Live(period, h) && (v > Reached(period, h) || (v == 0 && Reached(period, h) == 0))
    ensures CountsKeys(period, h, v, map[]) && CountOf(period, h, v) == 0
  {
    NothingAhead(period, h, v);
  }

  /** One event: the bucket that stays open, or the one that opens, is the group of the latest period. */
  lemma EntryKeepsOpen(period: int, h: seq<Event>, b: Bucket)
    requires h != [] && Live(period, h) && h[|h| - 1].Entry? && OpenOk(period, h[..|h| - 1], b)
    ensures OpenOk(period, h, StepSpec(period, b, h[|h| - 1]).0)
  {
    var before := h[..|h| - 1];
    var at := BucketStart(period, TimeOf(h[|h| - 1]));
    if b.current == 0 || at > b.current {
      EmptyKeys(period, before, at);
      KeysOneMore(period, h, at, map[]);
    } else {
      KeysOneMore(period, h, b.current, b.byKey);
    }
  }

  lemma TickKeepsOpen(period: int, h: seq<Event>, b: Bucket)
    requires h != [] && Live(period, h) && h[|h| - 1].Tick? && OpenOk(period, h[..|h| - 1], b)
    ensures OpenOk(period, h, StepSpec(period, b, h[|h| - 1]).0)
  {
    var before := h[..|h| - 1];
    var at := BucketStart(period, TimeOf(h[|h| - 1]));
    ReachedNonnegative(period, before);
    if b.current != 0 && at > b.current {
      EmptyKeys(period, before, at);
      KeysSame(period, h, at, map[]);
    } else {
      KeysSame(period, h, b.current, b.byKey);
    }
  }

  lemma {:induction false} OpenIsLatestGroup(period: int, h: seq<Event>)
    requires Live(period, h)
    ensures OpenOk(period, h, After(period, h))
  {
    if h == [] {
    } else {
      OpenIsLatestGroup(period, h[..|h| - 1]);
      if h[|h| - 1].Entry? {
        EntryKeepsOpen(period, h, After(period, h[..|h| - 1]));
      } else {
        TickKeepsOpen(period, h, After(period, h[..|h| - 1]));
      }
    }
  }

  /** What a closing event emits. */
  lemma ClosedIsOpen(period: int, b: Bucket, e: Event)
    ensures var (after, out) := StepSpec(period, b, e);
      && (out.Some? ==> b.current != 0 && out.value == Close(period, b, e.now))
      && (out.Some? ==> after.current > b.current && !after.partial)
      && (out.None? ==> after.partial == b.partial && (b.current != 0 ==> after.current == b.current))
  {
  }

  /** A period already closed gains nothing from later events. */
  lemma {:induction false} ClosedStaysGrouped(period: int, h: seq<Event>, s: Summary)
    requires h != [] && Live(period, h) && Groups(period, h[..|h| - 1], s) && 0 < s.start < Reached(period, h)
    ensures Groups(period, h, s)
  {
    KeysSame(period, h, s.start, s.breakdown);
  }

  /** Starts below the open period, strictly increasing, and only the first summary partial. */
  ghost predicate Climbs(out: seq<Summary>, b: Bucket) {
    && (forall i :: 0 <= i < |out| ==> 0 < out[i].start < b.current)
    && (forall i, j :: 0 <= i < j < |out| ==> out[i].start < out[j].start)
    && (forall i :: 0 <= i < |out| ==> out[i].partial == (i == 0))
    && b.partial == (out == [])
  }

  lemma ClimbsStep(period: int, out: seq<Summary>, b: Bucket, e: Event)
    requires Climbs(out, b) && b.current >= 0
    ensures var (after, closed) := StepSpec(period, b, e);
      Climbs(out + (if closed.Some? then [closed.value] else []), after)
  {
    ClosedIsOpen(period, b, e);
    var (after, closed) := StepSpec(period, b, e);
    if closed.None? {
      assert out + [] == out;
      ClimbsOn(out, b, after);
    } else {
      ClimbsUp(out, b, closed.value, after);
    }
  }

  lemma ClimbsOn(out: seq<Summary>, b: Bucket, after: Bucket)
    requires Climbs(out, b) && after.partial == b.partial && (b.current != 0 ==> after.current == b.current)
    ensures Climbs(out, after)
  {
    assert out != [] ==> out[0].start < b.current;
  }

  lemma ClimbsUp(out: seq<Summary>, b: Bucket, s: Summary, after: Bucket)
    requires Climbs(out, b) && s.start == b.current > 0 && s.partial == b.partial
    requires after.current > b.current && !after.partial
    ensures Climbs(out + [s], after)
  {
  }

  /**
   Over any history the emitted periods strictly increase, so none is emitted twice, and only the first is partial.
   */
  lemma {:induction false} StartsIncrease(period: int, h: seq<Event>)
    requires Live(period, h)
    ensures Climbs(Emitted(period, h), After(period, h))
  {
    if h != [] {
      var before := h[..|h| - 1];
      StartsIncrease(period, before);
      OpenIsLatestGroup(period, before);
      ReachedNonnegative(period, before);
      ClimbsStep(period, Emitted(period, before), After(period, before), h[|h| - 1]);
    }
  }

  lemma {:induction false} ReachedNonnegative(period: int, h: seq<Event>)
    requires Live(period, h)
    ensures Reached(period, h) >= 0
  {
    if h != [] { ReachedNonnegative(period, h[..|h| - 1]); }
  }

  /**
   The refinement. Every summary emitted by any history counts, in total and per gateway, exactly the entries whose
   running-maximum bucket is its period.
   */
  lemma {:induction false} EmittedIsGroupBy(period: int, h: seq<Event>, i: nat)
    requires Live(period, h) && i < |Emitted(period, h)|
    ensures Groups(period, h, Emitted(period, h)[i])
  {
    var before := h[..|h| - 1];
    var s := Emitted(period, h)[i];
    OpenIsLatestGroup(period, h);
    OpenIsLatestGroup(period, before);
    StartsIncrease(period, h);
    if i < |Emitted(period, before)| {
      EmittedIsGroupBy(period, before, i);
    } else {
      ClosedIsOpen(period, After(period, before), h[|h| - 1]);
    }
    ClosedStaysGrouped(period, h, s);
  }

  /** A summary is made by the first event past its period, at the time of that event. */
  lemma {:induction false} EmittedWhenPassed(period: int, h: seq<Event>, i: nat) returns (j: nat)
    requires Live(period, h) && i < |Emitted(period, h)|
    ensures var s := Emitted(period, h)[i];
      && j < |h| && s.generatedAt == h[j].now && s.end == s.start + period
      && Reached(period, h[..j]) == s.start < Reached(period, h[..j + 1])
  {
    var before := h[..|h| - 1];
    if i < |Emitted(period, before)| {
      j := EmittedWhenPassed(period, before, i);
      assert before[..j] == h[..j] && before[..j + 1] == h[..j + 1];
    } else {
      j := |before|;
      OpenIsLatestGroup(period, before);
      OpenIsLatestGroup(period, h);
      ClosedIsOpen(period, After(period, before), h[j]);
      assert h[..j + 1] == h;
    }
  }

  /** The period is open, or has been emitted. */
  ghost predicate Covered(period: int, h: seq<Event>, v: int) {
    v == After(period, h).current || exists j :: 0 <= j < |Emitted(period, h)| && Emitted(period, h)[j].start == v
  }

  lemma CoveredStays(period: int, h: seq<Event>, v: int)
    requires h != [] && v != 0 && Covered(period, h[..|h| - 1], v)
    ensures Covered(period, h, v)
  {
    var outs := Emitted(period, h[..|h| - 1]);
    ClosedIsOpen(period, After(period, h[..|h| - 1]), h[|h| - 1]);
    if v != After(period, h[..|h| - 1]).current {
      var j :| 0 <= j < |outs| && outs[j].start == v;
      assert Emitted(period, h)[j].start == v;
    } else if v != After(period, h).current {
      assert Emitted(period, h)[|outs|].start == v;
    }
  }

  /** Nothing is left out: the period of every entry has been emitted or is the open one. */
  lemma {:induction false} EveryEntryIsGrouped(period: int, h: seq<Event>, i: nat)
    requires Live(period, h) && i < |h| && h[i].Entry?
    ensures Covered(period, h, Reached(period, h[..i + 1]))
  {
    var before := h[..|h| - 1];
    if i == |before| {
      assert h[..i + 1] == h;
      OpenIsLatestGroup(period, h);
    } else {
      EveryEntryIsGrouped(period, before, i);
      assert before[..i + 1] == h[..i + 1];
      EntryReached(period, h, i);
      CoveredStays(period, h, Reached(period, h[..i + 1]));
    }
  }

  lemma EntryReached(period: int, h: seq<Event>, i: nat)
    requires Live(period, h) && i < |h| && h[i].Entry?
    ensures Reached(period, h[..i + 1]) > 0
  {
    ReachedNonnegative(period, h[..i]);
    assert h[..i + 1][..i] == h[..i];
  }
}
