/**
 Totals, clock alignment and gaps of the emitted periods.
 */
module AggregationTotals {
  import opened Aggregation
  import opened AggregationGroupBy

  // ---- conservation ---------------------------------------------------------

  function Entries(h: seq<Event>): nat {
    if h == [] then 0 else Entries(h[..|h| - 1]) + if h[|h| - 1].Entry? then 1 else 0
  }

  function TotalCount(out: seq<Summary>): nat {
    if out == [] then 0 else TotalCount(out[..|out| - 1]) + out[|out| - 1].count
  }

  /** Every entry is in exactly one count: an emitted one or the open one. */
  lemma {:induction false} CountsAreConserved(period: int, h: seq<Event>)
    ensures TotalCount(Emitted(period, h)) + After(period, h).count == Entries(h)
  {
    if h != [] {
      var before := h[..|h| - 1];
      CountsAreConserved(period, before);
      var out := StepSpec(period, After(period, before), h[|h| - 1]).1;
      if out.Some? {
        assert (Emitted(period, before) + [out.value])[..|Emitted(period, before)|] == Emitted(period, before);
      } else {
        assert Emitted(period, h) == Emitted(period, before);
      }
    }
  }

  /** The sum of a map's values. */
  ghost function Total(m: map<string, nat>): nat {
    if m == map[] then 0 else var k :| k in m; m[k] + Total(m - {k})
  }

  lemma {:induction false} TotalWithout(m: map<string, nat>, k: string)
    requires k in m
    ensures Total(m) == m[k] + Total(m - {k})
    decreases |m|
  {
    var j :| j in m && Total(m) == m[j] + Total(m - {j});
    if j != k {
      TotalWithout(m - {j}, k);
      TotalWithout(m - {k}, j);
      assert (m - {j}) - {k} == (m - {k}) - {j};
    }
  }

  lemma TotalBump(m: map<string, nat>, k: string)
    ensures Total(Bump(m, k)) == Total(m) + 1
  {
    var n := Bump(m, k);
    TotalWithout(n, k);
    if k in m {
      TotalWithout(m, k);
      assert n - {k} == m - {k};
    } else {
      assert n - {k} == m;
    }
  }

  /** Every entry carries a gateway, as parsed envelopes do. */
  predicate Named(h: seq<Event>) {
    h == [] || (Named(h[..|h| - 1]) && (h[|h| - 1].Entry? ==> h[|h| - 1].env.gateway != ""))
  }

  lemma StepTotals(period: int, b: Bucket, e: Event)
    requires Total(b.byKey) == b.count && (e.Entry? ==> e.env.gateway != "")
    ensures var (after, out) := StepSpec(period, b, e);
      Total(after.byKey) == after.count && (out.Some? ==> Total(out.value.breakdown) == out.value.count)
  {
    if e.Entry? {
      TotalBump(b.byKey, KeyOf(e.env));
      TotalBump(map[], KeyOf(e.env));
    }
  }

  /** The breakdown of every summary, and of the open bucket, adds up to its count. */
  lemma {:induction false} BreakdownAddsUp(period: int, h: seq<Event>)
    requires Named(h)
    ensures Total(After(period, h).byKey) == After(period, h).count
    ensures forall s :: s in Emitted(period, h) ==> Total(s.breakdown) == s.count
  {
    if h != [] {
      BreakdownAddsUp(period, h[..|h| - 1]);
      StepTotals(period, After(period, h[..|h| - 1]), h[|h| - 1]);
    }
  }

  // ---- clock alignment ------------------------------------------------------

  ghost predicate Aligned(period: int, t: int)
    requires period > 0
  {
    t % period == 0
  }

  lemma SmallMultiple(d: int, p: int)
    requires p > 0 && -p < d * p < p
    ensures d == 0
  {
  }

  /** Aligned times less than a period apart are the same. */
  lemma AlignedApart(period: int, a: int, b: int)
    requires period > 0 && Aligned(period, a) && Aligned(period, b) && -period < a - b < period
    ensures a == b
  {
    var i, j := a / period, b / period;
    assert a == i * period && b == j * period;
    assert (i - j) * period == a - b;
    SmallMultiple(i - j, period);
  }

  lemma BucketStartAligned(period: int, t: int)
    requires period > 0
    ensures Aligned(period, BucketStart(period, t)) && BucketStart(period, t) <= t < BucketStart(period, t) + period
  {
    var q := t / period;
    assert BucketStart(period, t) == q * period;
    MultipleAligned(q, period);
  }

  lemma {:induction false} MultipleAligned(q: int, p: int)
    requires p > 0
    ensures (q * p) % p == 0
  {
    var r := (q * p) % p;
    var d := (q * p) / p;
    assert q * p == d * p + r;
    assert (q - d) * p == r;
    SmallMultiple(q - d, p);
  }

  /** The bucket of a time is the one aligned period that contains it. */
  lemma BucketExactly(period: int, t: int, v: int)
    requires period > 0 && Aligned(period, v)
    ensures BucketStart(period, t) == v <==> v <= t < v + period
  {
    BucketStartAligned(period, t);
    if v <= t < v + period {
      AlignedApart(period, BucketStart(period, t), v);
    }
  }

  lemma BucketMonotone(period: int, s: int, t: int)
    requires s <= t
    ensures BucketStart(period, s) <= BucketStart(period, t)
  {
    if period > 0 {
      BucketStartAligned(period, s);
      BucketStartAligned(period, t);
      if BucketStart(period, s) > BucketStart(period, t) {
        AlignedApart(period, BucketStart(period, s), BucketStart(period, t));
      }
    }
  }

  lemma {:induction false} ReachedAligned(period: int, h: seq<Event>)
    requires period > 0
    ensures Aligned(period, Reached(period, h))
  {
    if h != [] {
      ReachedAligned(period, h[..|h| - 1]);
      BucketStartAligned(period, TimeOf(h[|h| - 1]));
    }
  }

  /** Every emitted period starts on the clock grid. */
  lemma {:induction false} EmittedAligned(period: int, h: seq<Event>)
    requires period > 0 && Live(period, h)
    ensures forall i :: 0 <= i < |Emitted(period, h)| ==> Aligned(period, Emitted(period, h)[i].start)
  {
    if h != [] {
      var before := h[..|h| - 1];
      EmittedAligned(period, before);
      OpenIsLatestGroup(period, before);
      ReachedAligned(period, before);
      ClosedIsOpen(period, After(period, before), h[|h| - 1]);
    }
  }

  // ---- time-ordered input ---------------------------------------------------

  ghost predicate InTimeOrder(h: seq<Event>) {
    forall i, j :: 0 <= i < j < |h| ==> TimeOf(h[i]) <= TimeOf(h[j])
  }

  /** The entry was received in [lo, hi); without a time of its own, it was drained then. */
  predicate ReceivedIn(e: Event, lo: int, hi: int) {
    e.Entry? && if e.env.receivedAt != 0 then lo <= e.env.receivedAt < hi else lo <= e.now < hi
  }

  /** An entry counts at the time it was received, and at the time it is drained only when it says none. */
  lemma TimeOfExactly(e: Event, t: int)
    ensures TimeOf(e) == t <==> if e.Entry? && e.env.receivedAt != 0 then t == e.env.receivedAt else t == e.now
    ensures e.Entry? ==> (ReceivedIn(e, t, t + 1) <==> TimeOf(e) == t)
  {
  }

  /** How many entries were received in [lo, hi). */
  function ReceivedCount(h: seq<Event>, lo: int, hi: int): nat {
    if h == [] then 0 else
    ReceivedCount(h[..|h| - 1], lo, hi) + if ReceivedIn(h[|h| - 1], lo, hi) then 1 else 0
  }

  lemma {:induction false} OrderedReached(period: int, h: seq<Event>)
    requires InTimeOrder(h) && Live(period, h) && h != []
    ensures Reached(period, h) == 0 || Reached(period, h) == BucketStart(period, TimeOf(h[|h| - 1]))
  {
    var before := h[..|h| - 1];
    if before != [] {
      OrderedReached(period, before);
      BucketMonotone(period, TimeOf(before[|before| - 1]), TimeOf(h[|h| - 1]));
    }
  }

  /** For input in time order a period's group is exactly the entries received inside it. */
  lemma {:induction false} OrderedGroupIsPeriod(period: int, h: seq<Event>, v: int)
    requires period > 0 && InTimeOrder(h) && Live(period, h) && v > 0 && Aligned(period, v)
    ensures CountOf(period, h, v) == ReceivedCount(h, v, v + period)
  {
    if h != [] {
      OrderedGroupIsPeriod(period, h[..|h| - 1], v);
      if h[|h| - 1].Entry? {
        OrderedReached(period, h);
        EntryReached(period, h, |h| - 1);
        assert h[..|h|] == h;
        BucketExactly(period, TimeOf(h[|h| - 1]), v);
      }
    }
  }

  /** How many of those have a breakdown key. */
  function ReceivedKeyCount(h: seq<Event>, lo: int, hi: int, k: string): nat {
    if h == [] then 0 else
    ReceivedKeyCount(h[..|h| - 1], lo, hi, k) +
    if HasKey(h[|h| - 1], k) && ReceivedIn(h[|h| - 1], lo, hi) then 1 else 0
  }

  lemma {:induction false} OrderedKeyGroupIsPeriod(period: int, h: seq<Event>, v: int, k: string)
    requires period > 0 && InTimeOrder(h) && Live(period, h) && v > 0 && Aligned(period, v)
    ensures KeyCountOf(period, h, v, k) == ReceivedKeyCount(h, v, v + period, k)
  {
    if h != [] {
      OrderedKeyGroupIsPeriod(period, h[..|h| - 1], v, k);
      if h[|h| - 1].Entry? {
        OrderedReached(period, h);
        EntryReached(period, h, |h| - 1);
        assert h[..|h|] == h;
        BucketExactly(period, TimeOf(h[|h| - 1]), v);
      }
    }
  }

  /**
   So for input in time order every summary counts exactly the entries received in its period, in all and per gateway.
   */
  lemma OrderedSummariesAreExact(period: int, h: seq<Event>, i: nat)
    requires period > 0 && InTimeOrder(h) && Live(period, h) && i < |Emitted(period, h)|
    ensures var s := Emitted(period, h)[i];
      && s.count == ReceivedCount(h, s.start, s.end)
      && forall k :: Get(s.breakdown, k) == ReceivedKeyCount(h, s.start, s.end, k)
  {
    forall k ensures var s := Emitted(period, h)[i]; Get(s.breakdown, k) == ReceivedKeyCount(h, s.start, s.end, k) {
      OrderedBreakdownIsExact(period, h, i, k);
    }
    EmittedIsGroupBy(period, h, i);
    EmittedAligned(period, h);
    StartsIncrease(period, h);
    OrderedGroupIsPeriod(period, h, Emitted(period, h)[i].start);
  }

  lemma OrderedBreakdownIsExact(period: int, h: seq<Event>, i: nat, k: string)
    requires period > 0 && InTimeOrder(h) && Live(period, h) && i < |Emitted(period, h)|
    ensures var s := Emitted(period, h)[i]; Get(s.breakdown, k) == ReceivedKeyCount(h, s.start, s.end, k)
  {
    EmittedIsGroupBy(period, h, i);
    EmittedAligned(period, h);
    StartsIncrease(period, h);
    OrderedKeyGroupIsPeriod(period, h, Emitted(period, h)[i].start, k);
  }

  // ---- gaps -----------------------------------------------------------------

  /** Once counting has begun, no event is more than a period later than the one before it. */
  ghost predicate Paced(period: int, h: seq<Event>) {
    forall i :: 0 < i < |h| && Reached(period, h[..i]) != 0 ==> TimeOf(h[i]) <= TimeOf(h[i - 1]) + period
  }

  lemma PacedReach(period: int, h: seq<Event>)
    requires period > 0 && Live(period, h) && Paced(period, h) && |h| >= 1 && Reached(period, h[..|h| - 1]) != 0
    ensures var r := Reached(period, h[..|h| - 1]); Reached(period, h) == r || Reached(period, h) == r + period
  {
    var before := h[..|h| - 1];
    var r, at := Reached(period, before), BucketStart(period, TimeOf(h[|h| - 1]));
    ReachedAligned(period, before);
    BucketStartAligned(period, TimeOf(h[|h| - 1]));
    if at > r {
      BucketStartAligned(period, TimeOf(before[|before| - 1]));
      LastAtMostReached(period, before);
      assert TimeOf(h[|h| - 1]) <= TimeOf(h[|h| - 2]) + period;
      NextMultiple(period, r);
      AlignedApart(period, at, if at < r + period then r else r + period);
    }
  }

  lemma NextMultiple(period: int, r: int)
    requires period > 0 && Aligned(period, r)
    ensures Aligned(period, r + period)
  {
    var k := r / period;
    assert r == k * period;
    assert (k + 1) * period == r + period;
    MultipleAligned(k + 1, period);
  }

  lemma LastAtMostReached(period: int, h: seq<Event>)
    requires Reached(period, h) != 0
    ensures h != [] && BucketStart(period, TimeOf(h[|h| - 1])) <= Reached(period, h)
  {
  }

  ghost predicate Gapless(period: int, out: seq<Summary>, current: int) {
    && (forall i :: 0 < i < |out| ==> out[i].start == out[i - 1].start + period)
    && (out != [] ==> current == out[|out| - 1].start + period)
  }

  lemma PacedBefore(period: int, h: seq<Event>)
    requires Paced(period, h) && h != []
    ensures Paced(period, h[..|h| - 1])
  {
    var before := h[..|h| - 1];
    forall i | 0 < i < |before| && Reached(period, before[..i]) != 0
      ensures TimeOf(before[i]) <= TimeOf(before[i - 1]) + period {
      assert before[..i] == h[..i];
    }
  }

  lemma GaplessStep(period: int, out: seq<Summary>, b: Bucket, e: Event)
    requires Gapless(period, out, b.current) && (b.current == 0 ==> out == [])
    requires var at := StepSpec(period, b, e).0.current; b.current != 0 ==> at == b.current || at == b.current + period
    ensures var (after, closed) := StepSpec(period, b, e);
      Gapless(period, out + (if closed.Some? then [closed.value] else []), after.current)
  {
    ClosedIsOpen(period, b, e);
  }

  /** Then the emitted periods follow one another without a gap, up to the open one. */
  lemma {:induction false} NoPeriodSkipped(period: int, h: seq<Event>)
    requires period > 0 && Live(period, h) && Paced(period, h)
    ensures Gapless(period, Emitted(period, h), After(period, h).current)
  {
    if h != [] {
      var before := h[..|h| - 1];
      PacedBefore(period, h);
      NoPeriodSkipped(period, before);
      OpenIsLatestGroup(period, before);
      OpenIsLatestGroup(period, h);
      if Reached(period, before) != 0 { PacedReach(period, h); }
      NoneBeforeStart(period, before);
      GaplessStep(period, Emitted(period, before), After(period, before), h[|h| - 1]);
    }
  }

  lemma NoneBeforeStart(period: int, h: seq<Event>)
    requires Live(period, h)
    ensures After(period, h).current == 0 ==> Emitted(period, h) == []
  {
    StartsIncrease(period, h);
    if Emitted(period, h) != [] { assert Emitted(period, h)[0].start < After(period, h).current; }
  }
}
