/**
 The log-drain agent: a loop over ticks and reads that feeds the aggregator, across any number of restarts.
 */
module LogDrain {
  import opened Prelude
  import opened Aggregation
  import opened AggregationTotals
  import opened EnvelopeParsing

  /** A drained list element, the time it is handled, and whether dispatching a summary that it closes would panic. */
  datatype Delivery = Delivery(raw: Raw, now: int, panics: bool)

  /** What the aggregator sees of a delivery: an entry if it parses. */
  function EventOf(d: Delivery): seq<Event> {
    var parsed := Parse(d.raw);
    if parsed.Ok? then [Entry(parsed.env, d.now)] else []
  }

  /**
   One turn of the loop. `Cancelled` is seen before anything is read and ends the run; `Broken` is a read error,
   which ends it with that error unless the context was cancelled by then. `panics` is about a summary the tick closes.
   */
  datatype Turn =
    | Cancelled
    | Broken(tick: Option<int>, panics: bool, cancelled: bool)
    | Got(tick: Option<int>, panics: bool, deliveries: seq<Delivery>)

  /** The parsed deliveries, as the aggregator sees them. */
  function EventsOf(ds: seq<Delivery>): seq<Event> {
    if ds == [] then [] else
    EventsOf(ds[..|ds| - 1]) + EventOf(ds[|ds| - 1])
  }

  class LogDrainAgent {
    const period: int
    const agg: Aggregator
    const dispatching: bool
    var handled: nat
    var processed: nat
    var unprocessable: nat
    ghost var interrupted: nat
    var summaries: seq<Handed>
    var dispatched: nat
    ghost var history: seq<Event>

    /**
     The aggregator has seen exactly `history`, every entry of which names its gateway. The summaries handed out so far
     still read as they did when they were emitted, and went to the dispatcher if there is one.
     */
    ghost predicate Books()
      reads this, agg, agg.byKey, set s | s in summaries :: s.breakdown
    {
      && agg.period == period && agg.Valid() && agg.State() == After(period, history)
      && |summaries| == |Emitted(period, history)|
      && (forall i :: 0 <= i < |summaries| ==>
          summaries[i].Value() == Emitted(period, history)[i] && summaries[i].breakdown in agg.published)
      && Named(history) && dispatched == (if dispatching then |summaries| else 0)
    }

    /**
     The counters agree with the books, but for `interrupted` entries: folded in, and not counted because the dispatch
     of the summary they closed panicked.
     */
    ghost predicate Valid()
      reads this, agg, agg.byKey, set s | s in summaries :: s.breakdown
    {
      && Books()
      && processed + interrupted == Entries(history) && handled == processed + unprocessable + interrupted
    }

    constructor (period: int, dispatching: bool)
      ensures Valid() && history == [] && this.period == period && this.dispatching == dispatching
      ensures handled == 0 && interrupted == 0
      ensures fresh(agg) && fresh(agg.byKey)
    {
      this.period, this.dispatching, dispatched := period, dispatching, 0;
      agg := new Aggregator(period);
      handled, processed, unprocessable, interrupted, summaries, history := 0, 0, 0, 0, [], [];
    }

    lemma Snoc(h: seq<Event>, e: Event)
      ensures var (after, out) := StepSpec(period, After(period, h), e);
        && After(period, h + [e]) == after
        && Emitted(period, h + [e]) == Emitted(period, h) + (if out.Some? then [out.value] else [])
        && Entries(h + [e]) == Entries(h) + (if e.Entry? then 1 else 0)
        && (Named(h + [e]) <==> Named(h) && (e.Entry? ==> e.env.gateway != ""))
    {
      AfterSnoc(period, h, e);
      assert (h + [e])[..|h|] == h;
    }

    /** Closes a quiet period and emits its summary, if it is time; the counters are left as they are. */
    method TickIn(now: int) returns (emitted: bool)
      requires Books()
      modifies this`summaries, this`dispatched, this`history, agg
      ensures Books() && history == old(history) + [Tick(now)] && Entries(history) == Entries(old(history))
      ensures emitted <==> Emits(period, old(history), [Tick(now)])
      ensures agg.byKey == old(agg.byKey) || fresh(agg.byKey)
    {
      var closed := agg.OnTick(now);
      Snoc(history, Tick(now));
      history := history + [Tick(now)];
      emitted := closed.Some?;
      if closed.Some? {
        summaries := summaries + [closed.value];
        dispatched := if dispatching then dispatched + 1 else dispatched;
      }
    }

    method OnTick(now: int, panics: bool) returns (panicked: bool)
      requires Valid()
      modifies this, agg
      ensures Valid() && history == old(history) + [Tick(now)]
      ensures handled == old(handled) && interrupted == old(interrupted)
      ensures panicked <==> panics && dispatching && Emits(period, old(history), [Tick(now)])
      ensures agg.byKey == old(agg.byKey) || fresh(agg.byKey)
    {
      var emitted := TickIn(now);
      panicked := emitted && dispatching && panics;
    }

    method Poll(tick: Option<int>, panics: bool) returns (panicked: bool)
      requires Valid()
      modifies this, agg
      ensures Valid() && history == old(history) + TickOf(tick)
      ensures handled == old(handled) && interrupted == old(interrupted)
      ensures panicked <==> panics && dispatching && Emits(period, old(history), TickOf(tick))
      ensures agg.byKey == old(agg.byKey) || fresh(agg.byKey)
    {
      panicked := false;
      if tick.Some? {
        panicked := OnTick(tick.value, panics);
      }
    }

    /** Folds an entry in and emits the summary it closes, if any; the counters are left as they are. */
    method FoldIn(env: Envelope, now: int) returns (emitted: bool)
      requires Books() && env.gateway != ""
      modifies this`summaries, this`dispatched, this`history, agg, agg.byKey
      ensures Books() && history == old(history) + [Entry(env, now)]
      ensures Entries(history) == Entries(old(history)) + 1
      ensures emitted <==> Emits(period, old(history), [Entry(env, now)])
      ensures agg.byKey == old(agg.byKey) || fresh(agg.byKey)
    {
      var closed := agg.Observe(env, now);
      Snoc(history, Entry(env, now));
      history := history + [Entry(env, now)];
      emitted := closed.Some?;
      if closed.Some? {
        summaries := summaries + [closed.value];
        dispatched := if dispatching then dispatched + 1 else dispatched;
      }
    }

    method OnEntry(env: Envelope, now: int, panics: bool) returns (panicked: bool)
      requires Valid() && env.gateway != ""
      modifies this, agg, agg.byKey
      ensures Valid() && history == old(history) + [Entry(env, now)] && handled == old(handled) + 1
      ensures interrupted == old(interrupted) + (if panicked then 1 else 0)
      ensures panicked <==> panics && dispatching && Emits(period, old(history), [Entry(env, now)])
      ensures agg.byKey == old(agg.byKey) || fresh(agg.byKey)
    {
      var emitted := FoldIn(env, now);
      panicked := emitted && dispatching && panics;
      Count(panicked);
    }

    /** Counts the entry folded in last, as processed unless a panic kept it from that. */
    method Count(panicked: bool)
      requires Books() && processed + interrupted + 1 == Entries(history)
      requires handled == processed + unprocessable + interrupted
      modifies this`handled, this`processed, this`interrupted
      ensures Valid() && handled == old(handled) + 1
      ensures interrupted == old(interrupted) + (if panicked then 1 else 0)
    {
      handled := handled + 1;
      if panicked {
        interrupted := interrupted + 1;
      } else {
        processed := processed + 1;
      }
    }

    method OnDelivery(d: Delivery) returns (panicked: bool)
      requires Valid()
      modifies this, agg, agg.byKey
      ensures Valid() && history == old(history) + EventOf(d) && handled == old(handled) + 1
      ensures interrupted == old(interrupted) + (if panicked then 1 else 0)
      ensures panicked <==> d.panics && dispatching && Emits(period, old(history), EventOf(d))
      ensures agg.byKey == old(agg.byKey) || fresh(agg.byKey)
    {
      panicked := false;
      var parsed := Parse(d.raw);
      if parsed.Unprocessable? {
        unprocessable := unprocessable + 1;
        handled := handled + 1;
      } else {
        ParsedExactly(d.raw);
        panicked := OnEntry(parsed.env, d.now, d.panics);
      }
    }

    /**
     Every delivery is recorded as unprocessable or counted by the aggregator, up to one whose summary's dispatch
     panics: `n` of them.
     */
    method Drain(ds: seq<Delivery>) returns (n: nat, panicked: bool)
      requires Valid()
      modifies this, agg, agg.byKey
      ensures Valid() && n <= |ds| && history == old(history) + EventsOf(ds[..n]) && handled == old(handled) + n
      ensures interrupted == old(interrupted) + (if panicked then 1 else 0)
      ensures if panicked then 0 < n && ds[n - 1].panics && dispatching else n == |ds|
      ensures DrainTrips(period, dispatching, old(history), ds, n, panicked)
      ensures agg.byKey == old(agg.byKey) || fresh(agg.byKey)
    {
      ghost var before := history;
      n, panicked := 0, false;
      while n < |ds| && !panicked
        invariant n <= |ds| && Valid() && history == before + EventsOf(ds[..n]) && handled == old(handled) + n
        invariant interrupted == old(interrupted) + if panicked then 1 else 0
        invariant panicked ==> 0 < n && ds[n - 1].panics && dispatching
        invariant DrainTrips(period, dispatching, before, ds, n, panicked)
        invariant agg.byKey == old(agg.byKey) || fresh(agg.byKey)
        decreases |ds| - n, !panicked
      {
        EventsSnoc(before, ds, n);
        panicked := OnDelivery(ds[n]);
        TripsSnoc(period, dispatching, before, ds, n, panicked);
        n := n + 1;
      }
    }

    lemma EventsSnoc(before: seq<Event>, ds: seq<Delivery>, i: nat)
      requires i < |ds|
      ensures before + EventsOf(ds[..i + 1]) ==
        before + EventsOf(ds[..i]) + EventOf(ds[i])
    {
      assert ds[..i + 1][..i] == ds[..i];
    }

    /** One turn, as far as it goes: `done` is the turn, cut short if a dispatch panics. */
    method OnTurn(t: Turn) returns (ghost done: Turn, panicked: bool)
      requires Valid() && !t.Cancelled?
      modifies this, agg, agg.byKey
      ensures Valid() && history == old(history) + TurnEvents(done)
      ensures handled == old(handled) + |TurnDeliveries(done)| && AsFar(done, t)
      ensures old(interrupted) <= interrupted <= old(interrupted) + if panicked then 1 else 0
      ensures if panicked then Risky(t) && dispatching else done == t
      ensures TurnTrips(period, dispatching, old(history), t, |TurnDeliveries(done)|, panicked)
      ensures agg.byKey == old(agg.byKey) || fresh(agg.byKey)
    {
      ghost var before := history;
      panicked := Poll(t.tick, t.panics);
      var n := 0;
      if !panicked {
        n, panicked := Drain(TurnDeliveries(t));
      }
      done := Cut(t, n);
      CutEvents(before, t, n);
    }

    /** One more turn of a run that has taken n of them. */
    method NextTurn(turns: seq<Turn>, n: nat, ghost before: seq<Event>, ghost was: seq<Turn>)
      returns (panicked: bool, failed: bool, broken: bool, ghost done: seq<Turn>)
      requires Valid() && n < |turns| && Going(turns, n, was, false, false, false) && !turns[n].Cancelled?
      requires history == before + EventsIn(was)
      modifies this, agg, agg.byKey
      ensures Valid() && (panicked ==> dispatching)
      ensures Going(turns, n + 1, done, panicked, failed, broken)
      ensures history == before + EventsIn(done) && handled + DrainedIn(was) == old(handled) + DrainedIn(done)
      ensures old(interrupted) <= interrupted <= old(interrupted) + if panicked then 1 else 0
      ensures agg.byKey == old(agg.byKey) || fresh(agg.byKey)
    {
      ghost var d;
      d, panicked := OnTurn(turns[n]);
      TurnsSnoc(before, was, d);
      TurnGoes(turns, n, was, d, panicked);
      done := was + [d];
      broken := turns[n].Broken?;
      failed := panicked || (broken && !turns[n].cancelled);
    }

    /**
     One run of the loop: turns until it is cancelled, breaks, a dispatch panics, or there are no more. `n` of them are
     taken, as far as `done` says. The aggregator outlives the run.
     */
    method Run(turns: seq<Turn>) returns (n: nat, failed: bool, panicked: bool, ghost done: seq<Turn>)
      requires Valid()
      modifies this, agg, agg.byKey
      ensures Valid() && Ended(turns, n, done, panicked, failed) && (panicked ==> dispatching)
      ensures history == old(history) + EventsIn(done) && handled == old(handled) + DrainedIn(done)
      ensures old(interrupted) <= interrupted <= old(interrupted) + if panicked then 1 else 0
      ensures agg.byKey == old(agg.byKey) || fresh(agg.byKey)
    {
      ghost var before, was, drained := history, interrupted, handled;
      n, failed, panicked, done := 0, false, false, [];
      var broken := false;
      GoingStarts(before, turns);
      while n < |turns| && !broken && !panicked && !turns[n].Cancelled?
        invariant n <= |turns| && Going(turns, n, done, panicked, failed, broken)
        invariant Valid() && (panicked ==> dispatching)
        invariant history == before + EventsIn(done) && handled == drained + DrainedIn(done)
        invariant was <= interrupted <= was + if panicked then 1 else 0
        invariant agg.byKey == old(agg.byKey) || fresh(agg.byKey)
        decreases |turns| - n
      {
        panicked, failed, broken, done := NextTurn(turns, n, before, done);
        n := n + 1;
      }
      GoingEnds(turns, n, done, panicked, failed, broken);
    }

    /**
     Any number of runs, each restarted after the last one ended. What was read is accounted for throughout: every
     delivery drained is unprocessable, processed, or one of the at most one per run that a panicking dispatch kept from
     being counted; and every processed or interrupted one is in an emitted count or the open one. Where no dispatch
     panics, every run takes all its turns whole and nothing is interrupted.
     */
    method Restarting(runs: seq<seq<Turn>>) returns (ghost done: seq<seq<Turn>>)
      requires Valid()
      modifies this, agg, agg.byKey
      ensures Valid() && AllPlayed(done, runs) && history == old(history) + Seen(done)
      ensures old(handled) + Drained(done) == handled == processed + unprocessable + interrupted
      ensures TotalCount(Emitted(period, history)) + agg.count == processed + interrupted
      ensures processed + interrupted == old(processed + interrupted) + WellFormedOver(done)
      ensures forall i :: 0 <= i < |summaries| ==> Total(summaries[i].Value().breakdown) == summaries[i].count
      ensures interrupted <= old(interrupted) + |runs|
      ensures !dispatching || AllCalm(runs) ==> interrupted == old(interrupted) && AllWhole(done, runs)
    {
      ghost var before := history;
      done := [];
      for i := 0 to |runs|
        invariant Valid() && AllPlayed(done, runs[..i])
        invariant history == before + Seen(done) && handled == old(handled) + Drained(done)
        invariant old(interrupted) <= interrupted <= old(interrupted) + i
        invariant !dispatching || AllCalm(runs) ==> interrupted == old(interrupted) && AllWhole(done, runs[..i])
        invariant agg.byKey == old(agg.byKey) || fresh(agg.byKey)
      {
        var n, failed, panicked;
        ghost var d;
        n, failed, panicked, d := Run(runs[i]);
        SeenSnoc(before, done, d);
        RunSnoc(done, runs, i, d, n, panicked, failed, dispatching);
        done := done + [d];
      }
      assert runs[..|runs|] == runs;
      AllSeenOver(done);
      EntriesConcat(before, Seen(done));
      CountsAreConserved(period, history);
      BreakdownAddsUp(period, history);
    }
  }

  // ---- where a dispatch panics -------------------------------------------------------

  /** These events after that history emit a summary. */
  predicate Emits(period: int, h: seq<Event>, es: seq<Event>) {
    |Emitted(period, h + es)| > |Emitted(period, h)|
  }

  /** The i-th delivery closes a period whose summary is dispatched and panics. */
  ghost predicate TripsAt(period: int, dispatching: bool, h: seq<Event>, ds: seq<Delivery>, i: nat)
    requires i < |ds|
  {
    ds[i].panics && dispatching && Emits(period, h + EventsOf(ds[..i]), EventOf(ds[i]))
  }

  /** Of the first n deliveries none panics but the last, and that exactly if the draining does. */
  ghost predicate DrainTrips(period: int, dispatching: bool, h: seq<Event>, ds: seq<Delivery>, n: nat, panicked: bool) {
    n <= |ds| && forall i :: 0 <= i < n ==> (TripsAt(period, dispatching, h, ds, i) <==> panicked && i == n - 1)
  }

  lemma TripsSnoc(period: int, dispatching: bool, h: seq<Event>, ds: seq<Delivery>, n: nat, panicked: bool)
    requires n < |ds| && DrainTrips(period, dispatching, h, ds, n, false)
    requires panicked <==> TripsAt(period, dispatching, h, ds, n)
    ensures DrainTrips(period, dispatching, h, ds, n + 1, panicked)
  {
  }

  /** A turn ends in a panic at its tick, before any delivery, or at the last delivery it gets to, or not at all. */
  ghost predicate TurnTrips(period: int, dispatching: bool, h: seq<Event>, t: Turn, n: nat, panicked: bool)
    requires !t.Cancelled?
  {
    if t.panics && dispatching && Emits(period, h, TickOf(t.tick)) then panicked && n == 0
    else DrainTrips(period, dispatching, h + TickOf(t.tick), TurnDeliveries(t), n, panicked) && (panicked ==> n > 0)
  }

  // ---- turns as far as they go -----------------------------------------------------

  /** The turn with its first n deliveries. */
  function Cut(t: Turn, n: nat): Turn
    requires n <= |TurnDeliveries(t)|
  {
    if t.Got? then t.(deliveries := t.deliveries[..n]) else t
  }

  lemma CutEvents(before: seq<Event>, t: Turn, n: nat)
    requires !t.Cancelled? && n <= |TurnDeliveries(t)|
    ensures before + TickOf(t.tick) + EventsOf(TurnDeliveries(t)[..n]) == before + TurnEvents(Cut(t, n))
    ensures n == 0 ==> before + TickOf(t.tick) == before + TurnEvents(Cut(t, n))
    ensures |TurnDeliveries(Cut(t, n))| == n && AsFar(Cut(t, n), t)
    ensures n == |TurnDeliveries(t)| ==> Cut(t, n) == t
  {
    assert AsFar(Cut(t, n), t);
  }

  ghost predicate AsFar(done: Turn, t: Turn) {
    exists n: nat :: n <= |TurnDeliveries(t)| && done == Cut(t, n)
  }

  /** Something dispatched in the turn would panic. */
  ghost predicate Risky(t: Turn) {
    !t.Cancelled? && (t.panics || exists i :: 0 <= i < |TurnDeliveries(t)| && TurnDeliveries(t)[i].panics)
  }

  /** The first n turns as far as they went: whole, but for the last if a dispatch in it panicked. */
  ghost predicate Played(done: seq<Turn>, turns: seq<Turn>, n: nat, panicked: bool)
    requires n <= |turns|
  {
    && |done| == n && (panicked ==> n > 0 && Risky(turns[n - 1]) && AsFar(done[n - 1], turns[n - 1]))
    && forall i :: 0 <= i < n && (panicked ==> i < n - 1) ==> done[i] == turns[i]
  }

  /** Where a run stands after n turns. */
  ghost predicate Going(turns: seq<Turn>, n: nat, done: seq<Turn>, panicked: bool, failed: bool, broken: bool)
    requires n <= |turns|
  {
    && Taken(turns, n) && Played(done, turns, n, panicked)
    && (failed <==> panicked || Fails(turns, n)) && (broken <==> n > 0 && turns[n - 1].Broken?)
  }

  lemma TurnGoes(turns: seq<Turn>, n: nat, done: seq<Turn>, d: Turn, panicked: bool)
    requires n < |turns| && Going(turns, n, done, false, false, false) && !turns[n].Cancelled? && AsFar(d, turns[n])
    requires if panicked then Risky(turns[n]) else d == turns[n]
    ensures var broken := turns[n].Broken?;
      Going(turns, n + 1, done + [d], panicked, panicked || (broken && !turns[n].cancelled), broken)
  {
    TakenSnoc(turns, n);
    PlayedSnoc(done, turns, n, d, panicked);
  }

  lemma GoingStarts(before: seq<Event>, turns: seq<Turn>)
    ensures Going(turns, 0, [], false, false, false) && before + EventsIn([]) == before && DrainedIn([]) == 0
  {
  }

  /**
   A run that took n turns, as far as they went, ends before the turns do only for a panic, a cancellation or a broken
   read, and with an error exactly for a panic or a read that breaks uncancelled.
   */
  ghost predicate Ended(turns: seq<Turn>, n: nat, done: seq<Turn>, panicked: bool, failed: bool) {
    && n <= |turns| && Taken(turns, n) && Played(done, turns, n, panicked)
    && (failed <==> panicked || Fails(turns, n))
    && (n < |turns| ==> panicked || turns[n].Cancelled? || (n > 0 && turns[n - 1].Broken?))
  }

  lemma GoingEnds(turns: seq<Turn>, n: nat, done: seq<Turn>, panicked: bool, failed: bool, broken: bool)
    requires n <= |turns| && Going(turns, n, done, panicked, failed, broken)
    requires n < |turns| ==> broken || panicked || turns[n].Cancelled?
    ensures Ended(turns, n, done, panicked, failed)
  {
  }

  lemma PlayedSnoc(done: seq<Turn>, turns: seq<Turn>, n: nat, d: Turn, panicked: bool)
    requires n < |turns| && Played(done, turns, n, false) && AsFar(d, turns[n])
    requires if panicked then Risky(turns[n]) else d == turns[n]
    ensures Played(done + [d], turns, n + 1, panicked)
  {
  }

  ghost predicate Calm(turns: seq<Turn>) { forall i :: 0 <= i < |turns| ==> !Risky(turns[i]) }

  ghost predicate AllCalm(runs: seq<seq<Turn>>) { forall i :: 0 <= i < |runs| ==> Calm(runs[i]) }

  ghost predicate AllWhole(done: seq<seq<Turn>>, runs: seq<seq<Turn>>) {
    |done| == |runs| && forall i :: 0 <= i < |runs| ==> done[i] == OneRun(runs[i])
  }

  ghost predicate PlayedRun(done: seq<Turn>, turns: seq<Turn>) {
    exists panicked :: |done| <= |turns| && Played(done, turns, |done|, panicked)
  }

  ghost predicate AllPlayed(done: seq<seq<Turn>>, runs: seq<seq<Turn>>) {
    |done| == |runs| && forall i :: 0 <= i < |runs| ==> PlayedRun(done[i], runs[i])
  }

  lemma RunSnoc(done: seq<seq<Turn>>, runs: seq<seq<Turn>>, i: nat, d: seq<Turn>, n: nat, panicked: bool,
                failed: bool, dispatching: bool)
    requires i < |runs| && AllPlayed(done, runs[..i])
    requires Ended(runs[i], n, d, panicked, failed) && (panicked ==> dispatching)
    ensures AllPlayed(done + [d], runs[..i + 1])
    ensures !dispatching || AllCalm(runs) ==> !panicked
    ensures (!dispatching || AllCalm(runs)) && AllWhole(done, runs[..i]) ==> AllWhole(done + [d], runs[..i + 1])
  {
    assert runs[..i + 1] == runs[..i] + [runs[i]];
    assert PlayedRun(d, runs[i]);
    if !dispatching || AllCalm(runs) {
      assert AllCalm(runs) ==> Calm(runs[i]);
      SpanIsTaken(runs[i], n);
      assert d == runs[i][..n];
    }
  }

  // ---- what turns bring --------------------------------------------------------------

  function TickOf(t: Option<int>): seq<Event> { if t.Some? then [Tick(t.value)] else [] }

  function TurnDeliveries(t: Turn): seq<Delivery> { if t.Got? then t.deliveries else [] }

  function TurnEvents(t: Turn): seq<Event> {
    if t.Cancelled? then [] else TickOf(t.tick) + EventsOf(TurnDeliveries(t))
  }

  /** What the aggregator sees of some turns. */
  function EventsIn(turns: seq<Turn>): seq<Event> {
    if turns == [] then [] else EventsIn(turns[..|turns| - 1]) + TurnEvents(turns[|turns| - 1])
  }

  function DrainedIn(turns: seq<Turn>): nat {
    if turns == [] then 0 else DrainedIn(turns[..|turns| - 1]) + |TurnDeliveries(turns[|turns| - 1])|
  }

  /** The first `n` turns are one run's: only the last may have broken, and none was cancelled outright. */
  ghost predicate Taken(turns: seq<Turn>, n: nat)
    requires n <= |turns|
  {
    forall i :: 0 <= i < n ==> turns[i].Got? || (i == n - 1 && turns[i].Broken?)
  }

  /** How many turns a run takes: up to and including the first that breaks, or up to the first cancellation. */
  function Span(turns: seq<Turn>): (n: nat)
    ensures n <= |turns| && Taken(turns, n)
    ensures n < |turns| ==> turns[n].Cancelled? || (n > 0 && turns[n - 1].Broken?)
  {
    if turns == [] || turns[0].Cancelled? then 0
    else if turns[0].Broken? then 1
    else
      var n := 1 + Span(turns[1..]);
      assert forall i :: 1 <= i < n ==> turns[i] == turns[1..][i - 1];
      n
  }

  lemma SpanIsTaken(turns: seq<Turn>, n: nat)
    requires n <= |turns| && Taken(turns, n)
    requires n < |turns| ==> turns[n].Cancelled? || (n > 0 && turns[n - 1].Broken?)
    ensures n == Span(turns)
  {
  }

  /** The turns one run takes, and what all the runs see and drain. */
  function OneRun(turns: seq<Turn>): seq<Turn> { turns[..Span(turns)] }

  function Seen(done: seq<seq<Turn>>): seq<Event> {
    if done == [] then [] else Seen(done[..|done| - 1]) + EventsIn(done[|done| - 1])
  }

  function Drained(done: seq<seq<Turn>>): nat {
    if done == [] then 0 else Drained(done[..|done| - 1]) + DrainedIn(done[|done| - 1])
  }

  lemma SeenSnoc(before: seq<Event>, done: seq<seq<Turn>>, d: seq<Turn>)
    ensures before + Seen(done + [d]) == before + Seen(done) + EventsIn(d)
    ensures Drained(done + [d]) == Drained(done) + DrainedIn(d)
  {
    assert (done + [d])[..|done|] == done;
  }

  /** The run of the first `n` turns returns an error. */
  predicate Fails(turns: seq<Turn>, n: nat)
    requires n <= |turns|
  {
    n > 0 && turns[n - 1].Broken? && !turns[n - 1].cancelled
  }

  lemma TakenSnoc(turns: seq<Turn>, n: nat)
    requires n < |turns| && Taken(turns, n) && !turns[n].Cancelled? && (n > 0 ==> !turns[n - 1].Broken?)
    ensures Taken(turns, n + 1)
  {
  }

  lemma TurnsSnoc(before: seq<Event>, done: seq<Turn>, d: Turn)
    ensures before + EventsIn(done + [d]) == before + EventsIn(done) + TurnEvents(d)
    ensures DrainedIn(done + [d]) == DrainedIn(done) + |TurnDeliveries(d)|
  {
    var all := done + [d];
    assert all[..|done|] == done && all[|all| - 1] == d;
    Assoc(before, EventsIn(done), TurnEvents(d));
  }

  lemma Assoc(a: seq<Event>, b: seq<Event>, c: seq<Event>)
    ensures a + (b + c) == a + b + c
  {
  }

  // ---- nothing that was read is passed over --------------------------------------------

  /** Every required field is there. */
  predicate WellFormed(r: Raw) {
    r.Decoded? && r.eventId != "" && r.gateway != "" && r.payload != "" && r.payload != "null"
  }

  lemma EventOfExactly(d: Delivery)
    ensures EventOf(d) ==
      if WellFormed(d.raw) then [Entry(Envelope(d.raw.gateway, d.raw.receivedAt), d.now)] else []
  {
    ParsedExactly(d.raw);
  }

  lemma {:induction false} EntriesConcat(a: seq<Event>, b: seq<Event>)
    ensures Entries(a + b) == Entries(a) + Entries(b)
  {
    if b == [] {
      assert a + b == a;
    } else {
      EntriesConcat(a, b[..|b| - 1]);
      assert (a + b)[..|a + b| - 1] == a + b[..|b| - 1];
    }
  }

  /** How many of the turns' deliveries have every required field. */
  function WellFormedOf(ds: seq<Delivery>): nat {
    if ds == [] then 0 else WellFormedOf(ds[..|ds| - 1]) + if WellFormed(ds[|ds| - 1].raw) then 1 else 0
  }

  function WellFormedIn(turns: seq<Turn>): nat {
    if turns == [] then 0 else WellFormedIn(turns[..|turns| - 1]) + WellFormedOf(TurnDeliveries(turns[|turns| - 1]))
  }

  lemma {:induction false} EntriesOfDeliveries(ds: seq<Delivery>)
    ensures Entries(EventsOf(ds)) == WellFormedOf(ds)
  {
    if ds != [] {
      EntriesOfDeliveries(ds[..|ds| - 1]);
      EventOfExactly(ds[|ds| - 1]);
      EntriesConcat(EventsOf(ds[..|ds| - 1]), EventOf(ds[|ds| - 1]));
      assert WellFormed(ds[|ds| - 1].raw) ==> EventOf(ds[|ds| - 1])[..0] == [];
    }
  }

  lemma EntriesOfTurn(t: Turn)
    ensures Entries(TurnEvents(t)) == WellFormedOf(TurnDeliveries(t))
    ensures !t.Cancelled? && t.tick.Some? ==> TurnEvents(t) != [] && TurnEvents(t)[0] == Tick(t.tick.value)
  {
    if !t.Cancelled? {
      EntriesOfDeliveries(TurnDeliveries(t));
      EntriesConcat(TickOf(t.tick), EventsOf(TurnDeliveries(t)));
      assert t.tick.Some? ==> TickOf(t.tick)[..0] == [];
    }
  }

  /** Every tick of the turns is among the events. */
  ghost predicate TicksIn(turns: seq<Turn>, es: seq<Event>) {
    forall i :: 0 <= i < |turns| && !turns[i].Cancelled? && turns[i].tick.Some? ==> Tick(turns[i].tick.value) in es
  }

  lemma TicksSnoc(before: seq<Turn>, t: Turn, es: seq<Event>)
    requires TicksIn(before, es)
    ensures TicksIn(before + [t], es + TurnEvents(t))
  {
    EntriesOfTurn(t);
    assert forall e :: e in es ==> e in es + TurnEvents(t);
  }

  lemma EntriesSnoc(before: seq<Turn>, t: Turn)
    requires Entries(EventsIn(before)) == WellFormedIn(before)
    ensures Entries(EventsIn(before) + TurnEvents(t)) == WellFormedIn(before) + WellFormedOf(TurnDeliveries(t))
  {
    EntriesOfTurn(t);
    EntriesConcat(EventsIn(before), TurnEvents(t));
  }

  /**
   The aggregator sees every delivery that has its required fields, and no other, and every tick: so what a run counts
   as unprocessable is what lacks a field.
   */
  lemma {:induction false} AllSeen(turns: seq<Turn>)
    ensures Entries(EventsIn(turns)) == WellFormedIn(turns) && TicksIn(turns, EventsIn(turns))
  {
    if turns != [] {
      var before, last := turns[..|turns| - 1], turns[|turns| - 1];
      AllSeen(before);
      EntriesSnoc(before, last);
      TicksSnoc(before, last, EventsIn(before));
      assert before + [last] == turns;
    }
  }

  function WellFormedOver(done: seq<seq<Turn>>): nat {
    if done == [] then 0 else WellFormedOver(done[..|done| - 1]) + WellFormedIn(done[|done| - 1])
  }

  lemma {:induction false} AllSeenOver(done: seq<seq<Turn>>)
    ensures Entries(Seen(done)) == WellFormedOver(done)
  {
    if done != [] {
      AllSeenOver(done[..|done| - 1]);
      AllSeen(done[|done| - 1]);
      EntriesConcat(Seen(done[..|done| - 1]), EventsIn(done[|done| - 1]));
    }
  }
}
