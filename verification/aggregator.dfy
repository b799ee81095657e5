/**
 The log aggregator: entries folded into clock-aligned periods, one summary per closed period.

 A time is a number of nanoseconds after Go's zero time, which is 0 here and which IsZero tests for.
 */
module Aggregation {
  import opened Prelude

  datatype Envelope = Envelope(gateway: string, receivedAt: int)

  /** An entry drained at `now`, or a tick of the clock. */
  datatype Event = Entry(env: Envelope, now: int) | Tick(now: int)

  datatype Summary = Summary(start: int, end: int, count: nat, breakdown: map<string, nat>, generatedAt: int,
                             partial: bool)

  /** The open bucket; `current` is 0 until the first entry. */
  datatype Bucket = Bucket(current: int, count: nat, byKey: map<string, nat>, partial: bool)

  const NEW := Bucket(0, 0, map[], true)

  /**
   time.Truncate: down to a multiple of the period since the zero time; a period that is not positive leaves the time
   alone.
   */
  function BucketStart(period: int, t: int): int {
    if period <= 0 then t else t - t % period
  }

  function Stamp(env: Envelope, now: int): int { if env.receivedAt == 0 then now else env.receivedAt }

  function TimeOf(e: Event): int { if e.Entry? then Stamp(e.env, e.now) else e.now }

  function KeyOf(env: Envelope): string { "gateway:" + env.gateway }

  function Get(m: map<string, nat>, k: string): nat { if k in m then m[k] else 0 }

  function Bump(m: map<string, nat>, k: string): map<string, nat> { m[k := Get(m, k) + 1] }

  function Close(period: int, b: Bucket, now: int): Summary {
    Summary(b.current, b.current + period, b.count, b.byKey, now, b.partial)
  }

  function Reopened(at: int): Bucket { Bucket(at, 0, map[], false) }

  function Fold(b: Bucket, env: Envelope): Bucket {
    b.(count := b.count + 1, byKey := if env.gateway != "" then Bump(b.byKey, KeyOf(env)) else b.byKey)
  }

  function StepSpec(period: int, b: Bucket, e: Event): (Bucket, Option<Summary>) {
    var at := BucketStart(period, TimeOf(e));
    match e
    case Entry(env, now) =>
      var ready := if b.current == 0 then b.(current := at) else b;
      if at > ready.current then (Fold(Reopened(at), env), Some(Close(period, ready, now)))
      else (Fold(ready, env), None)
    case Tick(now) =>
      if b.current == 0 || at <= b.current then (b, None)
      else (Reopened(at), Some(Close(period, b, now)))
  }

  // ---- the object -----------------------------------------------------------

  /** A Go map: shared by whoever holds a reference to it. */
  class Counts {
    var m: map<string, nat>

    constructor ()
      ensures m == map[]
    {
      m := map[];
    }
  }

  /** A summary as it is handed out, its breakdown still a reference. */
  datatype Handed = Handed(start: int, end: int, count: nat, breakdown: Counts, generatedAt: int, partial: bool) {
    function Value(): Summary
      reads breakdown
    {
      Summary(start, end, count, breakdown.m, generatedAt, partial)
    }
  }

  class Aggregator {
    const period: int
    var current: int
    var count: nat
    var byKey: Counts
    var partial: bool
    ghost var published: set<Counts>

    /** The map being counted into is never one that was handed out. */
    ghost predicate Valid()
      reads this
    {
      byKey !in published
    }

    function State(): Bucket
      reads this, byKey
    {
      Bucket(current, count, byKey.m, partial)
    }

    constructor (period: int)
      ensures Valid() && this.period == period && State() == NEW && published == {} && fresh(byKey)
    {
      this.period, current, count, partial, published := period, 0, 0, true, {};
      byKey := new Counts();
    }

    method CloseLocked(now: int) returns (s: Handed)
      requires Valid()
      modifies this
      ensures Valid() && fresh(byKey) && published == old(published) + {s.breakdown} && s.breakdown == old(byKey)
      ensures s.Value() == Close(period, old(State()), now)
      ensures State() == Reopened(old(current))
    {
      s := Handed(current, current + period, count, byKey, now, partial);
      published := published + {byKey};
      count := 0;
      byKey := new Counts();
      partial := false;
    }

    /** Folds one envelope in; a later period closes the open one. No map handed out before is touched. */
    method Observe(env: Envelope, now: int) returns (closed: Option<Handed>)
      requires Valid()
      modifies this, byKey
      ensures Valid() && (byKey == old(byKey) || fresh(byKey))
      ensures var (after, out) := StepSpec(period, old(State()), Entry(env, now));
        State() == after && closed.Some? == out.Some? && (closed.Some? ==> closed.value.Value() == out.value)
      ensures published == old(published) + if closed.Some? then {closed.value.breakdown} else {}
      ensures closed.Some? ==> closed.value.breakdown == old(byKey)
      ensures forall c :: c in old(published) ==> c.m == old(c.m)
    {
      var bucket := BucketStart(period, Stamp(env, now));
      if current == 0 {
        current := bucket;
      }
      closed := None;
      if bucket > current {
        var s := CloseLocked(now);
        closed := Some(s);
        current := bucket;
      }
      count := count + 1;
      if env.gateway != "" {
        byKey.m := Bump(byKey.m, KeyOf(env));
      }
    }

    /** Closes the open period if the clock has moved past it. */
    method OnTick(now: int) returns (closed: Option<Handed>)
      requires Valid()
      modifies this
      ensures Valid() && (byKey == old(byKey) || fresh(byKey))
      ensures var (after, out) := StepSpec(period, old(State()), Tick(now));
        State() == after && closed.Some? == out.Some? && (closed.Some? ==> closed.value.Value() == out.value)
      ensures published == old(published) + if closed.Some? then {closed.value.breakdown} else {}
      ensures closed.Some? ==> closed.value.breakdown == old(byKey)
    {
      if current == 0 || BucketStart(period, now) <= current {
        return None;
      }
      var s := CloseLocked(now);
      current := BucketStart(period, now);
      return Some(s);
    }
  }

  // ---- whole histories ------------------------------------------------------

  function After(period: int, h: seq<Event>): Bucket {
    if h == [] then NEW else StepSpec(period, After(period, h[..|h| - 1]), h[|h| - 1]).0
  }

  /** The summaries a history produced, in order. */
  function Emitted(period: int, h: seq<Event>): seq<Summary> {
    if h == [] then [] else
    var out := StepSpec(period, After(period, h[..|h| - 1]), h[|h| - 1]).1;
    Emitted(period, h[..|h| - 1]) + if out.Some? then [out.value] else []
  }

  lemma AfterSnoc(period: int, h: seq<Event>, e: Event)
    ensures var (after, out) := StepSpec(period, After(period, h), e);
      && After(period, h + [e]) == after
      && Emitted(period, h + [e]) == Emitted(period, h) + if out.Some? then [out.value] else []
  {
    assert (h + [e])[..|h|] == h;
  }

  /** No entry is stamped inside the very first period after the zero time. */
  ghost predicate Live(period: int, h: seq<Event>) {
    forall i :: 0 <= i < |h| && h[i].Entry? ==> BucketStart(period, TimeOf(h[i])) > 0
  }
}
