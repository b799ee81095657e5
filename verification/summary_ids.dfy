/**
 The identity a summary travels under: its period's start, as a timestamp to the second.
 */
module SummaryIds {
  import opened Prelude
  import opened Aggregation
  import opened AggregationGroupBy
  import opened AggregationTotals
  import Rfc3339

  function SummaryId(s: Summary): string
    requires s.start >= 0
  {
    "summary:" + Rfc3339.Format(s.start / SECOND)
  }

  /** Two summaries share an id exactly when their periods start within the same second. */
  lemma SameIdExactly(a: Summary, b: Summary)
    requires a.start >= 0 && b.start >= 0
    ensures SummaryId(a) == SummaryId(b) <==> a.start / SECOND == b.start / SECOND
  {
    Rfc3339.RoundTrip(a.start / SECOND);
    Rfc3339.RoundTrip(b.start / SECOND);
    assert SummaryId(a)[8..] == Rfc3339.Format(a.start / SECOND);
    assert SummaryId(b)[8..] == Rfc3339.Format(b.start / SECOND);
  }

  /** No two of the summaries share an id. */
  ghost predicate Distinct(out: seq<Summary>)
    requires forall i :: 0 <= i < |out| ==> out[i].start >= 0
  {
    forall i, j :: 0 <= i < j < |out| ==> SummaryId(out[i]) != SummaryId(out[j])
  }

  ghost predicate DistinctIds(period: int, h: seq<Event>)
    requires Live(period, h)
  {
    StartsIncrease(period, h);
    Distinct(Emitted(period, h))
  }

  lemma LongPeriods(period: int, h: seq<Event>)
    requires period >= SECOND && Live(period, h)
    ensures DistinctIds(period, h)
  {
    StartsIncrease(period, h);
    EmittedAligned(period, h);
    var out := Emitted(period, h);
    forall i, j | 0 <= i < j < |out| ensures SummaryId(out[i]) != SummaryId(out[j]) {
      if out[j].start - out[i].start < period {
        AlignedApart(period, out[i].start, out[j].start);
      }
      SameIdExactly(out[i], out[j]);
      FarApart(out[i].start, out[j].start);
    }
  }

  lemma FarApart(a: int, b: int)
    requires a + SECOND <= b
    ensures a / SECOND != b / SECOND
  {
  }

  /** The smallest distance between two period starts. */
  function Grain(period: int): int { if period <= 0 then 1 else period }

  /** A start on a whole second. */
  function Whole(period: int): int { Grain(period) * SECOND }

  function TwoPeriods(period: int): seq<Event> {
    var s := Whole(period);
    [Entry(Envelope("g", s), s)] + [Tick(s + Grain(period))] + [Tick(s + 2 * Grain(period))]
  }

  lemma WholeStarts(period: int, k: int)
    ensures Whole(period) > 0
    ensures BucketStart(period, Whole(period) + k * Grain(period)) == Whole(period) + k * Grain(period)
  {
    if period > 0 {
      MultipleAligned(SECOND + k, period);
      assert (SECOND + k) * period == Whole(period) + k * period;
    }
  }

  /** An entry at `s` and ticks one and two periods later emit two summaries. */
  lemma TwoEmitted(period: int, s: int, g: int)
    requires 0 < s && 0 < g && BucketStart(period, s) == s
    requires BucketStart(period, s + g) == s + g && BucketStart(period, s + 2 * g) == s + 2 * g
    ensures var out := Emitted(period, [Entry(Envelope("g", s), s)] + [Tick(s + g)] + [Tick(s + 2 * g)]);
      |out| == 2 && out[0].start == s && out[1].start == s + g
  {
    var h := [Entry(Envelope("g", s), s)];
    OneEntry(period, s);
    TickCloses(period, h, s, s + g);
    TickCloses(period, h + [Tick(s + g)], s + g, s + 2 * g);
  }

  lemma OneEntry(period: int, s: int)
    requires 0 < s && BucketStart(period, s) == s
    ensures var h := [Entry(Envelope("g", s), s)]; After(period, h).current == s && Emitted(period, h) == []
  {
    var first := Entry(Envelope("g", s), s);
    AfterSnoc(period, [], first);
    assert [] + [first] == [first];
  }

  /** A tick at the start of a later period closes the open one. */
  lemma TickCloses(period: int, h: seq<Event>, at: int, now: int)
    requires After(period, h).current == at && 0 < at < now && BucketStart(period, now) == now
    ensures After(period, h + [Tick(now)]).current == now
    ensures Emitted(period, h + [Tick(now)]) == Emitted(period, h) + [Close(period, After(period, h), now)]
  {
    AfterSnoc(period, h, Tick(now));
  }

  /** Both summaries share an id when the two periods start in the same second. */
  lemma TwoShare(period: int, s: int, g: int, h: seq<Event>)
    requires 0 < s && 0 < g && BucketStart(period, s) == s
    requires BucketStart(period, s + g) == s + g && BucketStart(period, s + 2 * g) == s + 2 * g
    requires s / SECOND == (s + g) / SECOND
    requires h == [Entry(Envelope("g", s), s)] + [Tick(s + g)] + [Tick(s + 2 * g)]
    ensures Live(period, h) && !DistinctIds(period, h)
  {
    TwoEmitted(period, s, g);
    var out := Emitted(period, h);
    SameIdExactly(out[0], out[1]);
    SharedId(period, h, out);
  }

  lemma SharedId(period: int, h: seq<Event>, out: seq<Summary>)
    requires Live(period, h) && out == Emitted(period, h) && |out| == 2
    requires 0 <= out[0].start && 0 <= out[1].start && SummaryId(out[0]) == SummaryId(out[1])
    ensures !DistinctIds(period, h)
  {
  }

  lemma ShortPeriods(period: int)
    requires period < SECOND
    ensures Live(period, TwoPeriods(period)) && !DistinctIds(period, TwoPeriods(period))
  {
    WholeStarts(period, 0);
    WholeStarts(period, 1);
    WholeStarts(period, 2);
    SameSecond(Grain(period), Grain(period));
    TwoShare(period, Whole(period), Grain(period), TwoPeriods(period));
  }

  lemma SameSecond(whole: int, more: int)
    requires 0 <= more < SECOND
    ensures whole * SECOND / SECOND == (whole * SECOND + more) / SECOND
  {
  }

  /** Summary ids are pairwise distinct in every history exactly when the period is at least a second. */
  lemma IdsDistinctExactly(period: int)
    ensures period >= SECOND <==> forall h | Live(period, h) :: DistinctIds(period, h)
  {
    if period >= SECOND {
      forall h | Live(period, h) ensures DistinctIds(period, h) {
        LongPeriods(period, h);
      }
    } else {
      ShortPeriods(period);
    }
  }
}
