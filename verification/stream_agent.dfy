/**
 The continuous agent: handle one delivery, handle a batch until cancelled, and how both are steps of the
 consumer-group protocol.
 */
module StreamAgents {
  import CG = ConsumerGroup
  import D = Dispatch
  import Retry

  /** How the world answers one delivery: its dispatches, and whether XACK took effect and replied. */
  datatype Script = Script(plays: seq<Retry.Play>, ackApplied: bool, ackFailed: bool)

  datatype Tally = Tally(processed: nat, unprocessable: nat, dropped: nat) {
    function Plus(t: Tally): Tally {
      Tally(processed + t.processed, unprocessable + t.unprocessable, dropped + t.dropped)
    }
  }

  function EventOf(id: CG.EntryId, o: D.Outcome): CG.Event {
    CG.Outcome(id, o.dest, if o.delivered then CG.Delivered else CG.Dropped)
  }

  function EventsOf(id: CG.EntryId, outcomes: seq<D.Outcome>): (es: seq<CG.Event>)
    ensures |es| == |outcomes| && forall i :: 0 <= i < |es| ==> es[i] == EventOf(id, outcomes[i])
  {
    seq(|outcomes|, i requires 0 <= i < |outcomes| => EventOf(id, outcomes[i]))
  }

  predicate AnyDelivered(outcomes: seq<D.Outcome>) { exists o :: o in outcomes && o.delivered }

  function DroppedIn(outcomes: seq<D.Outcome>): nat {
    if outcomes == [] then 0 else
    DroppedIn(outcomes[..|outcomes| - 1]) + if outcomes[|outcomes| - 1].delivered then 0 else 1
  }

  /** What handling one delivery leaves: its record, whether XACK was applied, the counters, a panic. */
  datatype Effect = Effect(events: seq<CG.Event>, acked: bool, tally: Tally, panicked: bool)

  function EffectOf(d: CG.Entry, p: Retry.Policy, dests: seq<string>, s: Script): Effect
    requires |s.plays| == |dests|
  {
    if !d.processable then
      Effect([CG.Unprocessable(d.id), CG.Acked(d.id)], s.ackApplied, Tally(0, 1, 0), false)
    else
      var sent := D.SendTo(p, dests, s.plays);
      var outcomes := sent.outcomes;
      var events := EventsOf(d.id, outcomes);
      if sent.panicked then Effect(events, false, Tally(0, 0, DroppedIn(outcomes)), true)
      else Effect(events + [CG.Acked(d.id)], s.ackApplied, SentTally(outcomes, s.ackFailed), false)
  }

  /** An event is processed when some destination took it and its acknowledgement went through. */
  function SentTally(outcomes: seq<D.Outcome>, ackFailed: bool): Tally {
    Tally(if !ackFailed && AnyDelivered(outcomes) then 1 else 0, 0, DroppedIn(outcomes))
  }

  /** Everything an agent run changes. */
  datatype Memory = Memory(ledger: CG.Ledger, trace: seq<CG.Event>, tally: Tally)

  function HandleSpec(m: Memory, d: CG.Entry, p: Retry.Policy, dests: seq<string>, s: Script): Memory
    requires |s.plays| == |dests|
  {
    var e := EffectOf(d, p, dests, s);
    Memory(if e.acked then CG.XAck(m.ledger, d.id) else m.ledger, m.trace + e.events, m.tally.Plus(e.tally))
  }

  /** One round of the read loop: the batch it got and where, if anywhere, cancellation is noticed. */
  datatype Round = Round(batch: seq<CG.Entry>, scripts: seq<Script>, cancelAt: nat)

  predicate RoundOk(r: Round, dests: seq<string>) {
    |r.scripts| == |r.batch| && forall i :: 0 <= i < |r.scripts| ==> |r.scripts[i].plays| == |dests|
  }

  /** How many deliveries are begun from the i-th on: the loop leaves where it is cancelled, and after a panic. */
  function Stop(r: Round, p: Retry.Policy, dests: seq<string>, i: nat := 0): (n: nat)
    requires RoundOk(r, dests) && i <= |r.batch|
    ensures i <= n <= |r.batch|
    decreases |r.batch| - i
  {
    if i == |r.batch| || r.cancelAt <= i then i
    else if EffectOf(r.batch[i], p, dests, r.scripts[i]).panicked then i + 1
    else Stop(r, p, dests, i + 1)
  }

  function BatchSpec(m: Memory, r: Round, p: Retry.Policy, dests: seq<string>, n: nat): Memory
    requires RoundOk(r, dests) && n <= |r.batch|
  {
    if n == 0 then m
    else HandleSpec(BatchSpec(m, r, p, dests, n - 1), r.batch[n - 1], p, dests, r.scripts[n - 1])
  }

  /** Whether the batch loop is left early, from the i-th delivery on: cancelled before one, or a panic in one. */
  predicate Leaves(r: Round, p: Retry.Policy, dests: seq<string>, i: nat := 0)
    requires RoundOk(r, dests) && i <= |r.batch|
    decreases |r.batch| - i
  {
    && i < |r.batch|
    && (r.cancelAt <= i || EffectOf(r.batch[i], p, dests, r.scripts[i]).panicked || Leaves(r, p, dests, i + 1))
  }

  /** The loop gets to the end of the batch: no cancellation is seen in it and no delivery panics. */
  ghost predicate Whole(r: Round, p: Retry.Policy, dests: seq<string>)
    requires RoundOk(r, dests)
  {
    r.cancelAt >= |r.batch| && forall i :: 0 <= i < |r.batch| ==> !EffectOf(r.batch[i], p, dests, r.scripts[i]).panicked
  }

  /**
   The loop ends after n deliveries: none of them is at or after the cancellation, none before the last panics, and it
   ends before the batch does only for one of the two.
   */
  ghost predicate EndsAt(r: Round, p: Retry.Policy, dests: seq<string>, n: nat)
    requires RoundOk(r, dests)
  {
    && n <= |r.batch| && n <= r.cancelAt
    && (forall k :: 0 <= k < n - 1 ==> !EffectOf(r.batch[k], p, dests, r.scripts[k]).panicked)
    && (n < |r.batch| ==> n == r.cancelAt || (n > 0 && EffectOf(r.batch[n - 1], p, dests, r.scripts[n - 1]).panicked))
  }

  /** Where the loop stops, from a delivery on that it gets to. */
  lemma {:induction false} StopExactly(r: Round, p: Retry.Policy, dests: seq<string>, i: nat)
    requires RoundOk(r, dests) && i <= |r.batch| && i <= r.cancelAt
    requires forall k :: 0 <= k < i ==> !EffectOf(r.batch[k], p, dests, r.scripts[k]).panicked
    ensures EndsAt(r, p, dests, Stop(r, p, dests, i))
    ensures Leaves(r, p, dests, i) <==> !Whole(r, p, dests)
    decreases |r.batch| - i
  {
    if i < |r.batch| && i < r.cancelAt && !EffectOf(r.batch[i], p, dests, r.scripts[i]).panicked {
      StopExactly(r, p, dests, i + 1);
    }
  }

  predicate Distinct(batch: seq<CG.Entry>) {
    forall i, j :: 0 <= i < j < |batch| ==> batch[i].id != batch[j].id
  }

  /** Nothing was recorded of the id, and it is pending as it was. */
  ghost predicate Untouched(was: Memory, m: Memory, id: CG.EntryId) {
    && was.trace <= m.trace && (forall j :: |was.trace| <= j < |m.trace| ==> m.trace[j].id != id)
    && (id in was.ledger.pending <==> id in m.ledger.pending)
    && (id in was.ledger.pending ==> was.ledger.pending[id] == m.ledger.pending[id])
  }

  lemma HandleUntouched(m: Memory, d: CG.Entry, p: Retry.Policy, dests: seq<string>, s: Script, id: CG.EntryId)
    requires |s.plays| == |dests| && d.id != id
    ensures Untouched(m, HandleSpec(m, d, p, dests, s), id)
  {
  }

  lemma UntouchedOn(a: Memory, b: Memory, c: Memory, id: CG.EntryId)
    requires Untouched(a, b, id) && Untouched(b, c, id)
    ensures Untouched(a, c, id)
  {
    forall j | |a.trace| <= j < |c.trace| ensures c.trace[j].id != id {
      assert j < |b.trace| ==> c.trace[j] == b.trace[j];
    }
  }

  lemma {:induction false} BatchUntouched(m: Memory, r: Round, p: Retry.Policy, dests: seq<string>, n: nat,
                                          id: CG.EntryId)
    requires RoundOk(r, dests) && n <= |r.batch| && forall i :: 0 <= i < n ==> r.batch[i].id != id
    ensures Untouched(m, BatchSpec(m, r, p, dests, n), id)
  {
    if n > 0 {
      BatchUntouched(m, r, p, dests, n - 1, id);
      HandleUntouched(BatchSpec(m, r, p, dests, n - 1), r.batch[n - 1], p, dests, r.scripts[n - 1], id);
      UntouchedOn(m, BatchSpec(m, r, p, dests, n - 1), BatchSpec(m, r, p, dests, n), id);
    }
  }

  /** The entries of a batch from the n-th on are untouched: none is recorded or acknowledged. */
  ghost predicate RestUntouched(was: Memory, m: Memory, batch: seq<CG.Entry>, n: nat) {
    Distinct(batch) ==> forall k :: n <= k < |batch| ==> Untouched(was, m, batch[k].id)
  }

  lemma RestIsUntouched(m: Memory, r: Round, p: Retry.Policy, dests: seq<string>, n: nat)
    requires RoundOk(r, dests) && n <= |r.batch|
    ensures RestUntouched(m, BatchSpec(m, r, p, dests, n), r.batch, n)
  {
    if Distinct(r.batch) {
      forall k | n <= k < |r.batch| ensures Untouched(m, BatchSpec(m, r, p, dests, n), r.batch[k].id) {
        BatchUntouched(m, r, p, dests, n, r.batch[k].id);
      }
    }
  }

  /** One turn of the read loop: cancelled before it, a read that failed, or a batch. */
  datatype Turn = Cancelled | ReadFailed(cancelled: bool) | Got(round: Round)

  predicate TurnsOk(turns: seq<Turn>, dests: seq<string>) {
    forall i :: 0 <= i < |turns| && turns[i].Got? ==> RoundOk(turns[i].round, dests)
  }

  predicate EndsRun(t: Turn, p: Retry.Policy, dests: seq<string>)
    requires t.Got? ==> RoundOk(t.round, dests)
  {
    !t.Got? || Leaves(t.round, p, dests)
  }

  /** How many turns a run takes, from the i-th on. */
  function Span(turns: seq<Turn>, p: Retry.Policy, dests: seq<string>, i: nat := 0): (k: nat)
    requires TurnsOk(turns, dests) && i <= |turns|
    ensures i <= k <= |turns|
    decreases |turns| - i
  {
    if i == |turns| || turns[i].Cancelled? then i
    else if EndsRun(turns[i], p, dests) then i + 1
    else Span(turns, p, dests, i + 1)
  }

  /** The turn reads a batch and handles all of it. */
  ghost predicate Complete(t: Turn, p: Retry.Policy, dests: seq<string>)
    requires t.Got? ==> RoundOk(t.round, dests)
  {
    t.Got? && Whole(t.round, p, dests)
  }

  /** A run of k turns: all but the last are complete, and it ends before the turns do for one of these reasons. */
  ghost predicate RunEnds(turns: seq<Turn>, p: Retry.Policy, dests: seq<string>, k: nat)
    requires TurnsOk(turns, dests)
  {
    && k <= |turns| && (forall j :: 0 <= j < k ==> !turns[j].Cancelled?)
    && (forall j :: 0 <= j < k - 1 ==> Complete(turns[j], p, dests))
    && (k < |turns| ==> turns[k].Cancelled? || (k > 0 && !Complete(turns[k - 1], p, dests)))
  }

  lemma {:induction false} SpanExactly(turns: seq<Turn>, p: Retry.Policy, dests: seq<string>, i: nat)
    requires TurnsOk(turns, dests) && i <= |turns| && forall j :: 0 <= j < i ==> Complete(turns[j], p, dests)
    ensures RunEnds(turns, p, dests, Span(turns, p, dests, i))
    decreases |turns| - i
  {
    if i < |turns| && !turns[i].Cancelled? {
      if turns[i].Got? {
        StopExactly(turns[i].round, p, dests, 0);
      }
      if !EndsRun(turns[i], p, dests) {
        SpanExactly(turns, p, dests, i + 1);
      }
    }
  }

  function TurnSpec(m: Memory, t: Turn, p: Retry.Policy, dests: seq<string>): Memory
    requires t.Got? ==> RoundOk(t.round, dests)
  {
    if t.Got? then BatchSpec(m, t.round, p, dests, Stop(t.round, p, dests)) else m
  }

  function RunSpec(m: Memory, turns: seq<Turn>, p: Retry.Policy, dests: seq<string>, k: nat): Memory
    requires TurnsOk(turns, dests) && k <= |turns|
  {
    if k == 0 then m else TurnSpec(RunSpec(m, turns, p, dests, k - 1), turns[k - 1], p, dests)
  }

  class StreamAgent {
    const dests: seq<string>
    const policy: Retry.Policy
    var mem: Memory

    constructor (dests: seq<string>, policy: Retry.Policy, ledger: CG.Ledger)
      ensures this.dests == dests && this.policy == policy && mem == Memory(ledger, [], Tally(0, 0, 0))
    {
      this.dests, this.policy, mem := dests, policy, Memory(ledger, [], Tally(0, 0, 0));
    }

    method Record(events: seq<CG.Event>, tally: Tally)
      modifies this
      ensures mem == old(mem).(trace := old(mem).trace + events, tally := old(mem).tally.Plus(tally))
    {
      mem := mem.(trace := mem.trace + events, tally := mem.tally.Plus(tally));
    }

    method Ack(id: CG.EntryId, s: Script)
      modifies this
      ensures mem == old(mem).(trace := old(mem).trace + [CG.Acked(id)],
                               ledger := if s.ackApplied then CG.XAck(old(mem).ledger, id) else old(mem).ledger)
    {
      mem := mem.(trace := mem.trace + [CG.Acked(id)]);
      if s.ackApplied {
        mem := mem.(ledger := CG.XAck(mem.ledger, id));
      }
    }

    /** Resolves one delivery: record it, or send it everywhere, and only then acknowledge. */
    method Handle(d: CG.Entry, s: Script) returns (panicked: bool)
      requires |s.plays| == |dests|
      modifies this
      ensures mem == HandleSpec(old(mem), d, policy, dests, s)
      ensures panicked == EffectOf(d, policy, dests, s).panicked
    {
      panicked := false;
      ghost var before := mem.trace;
      if !d.processable {
        Record([CG.Unprocessable(d.id)], Tally(0, 1, 0));
        Ack(d.id, s);
        assert mem.trace == before + [CG.Unprocessable(d.id), CG.Acked(d.id)];
        return;
      }
      var outcomes, dropped, elapsed, aborted := D.Send(policy, dests, s.plays);
      if aborted {
        Record(EventsOf(d.id, outcomes), Tally(0, 0, DroppedIn(outcomes)));
        return true;
      }
      Resolve(d.id, outcomes, s);
    }

    /** Every destination has its outcome: acknowledge, and count. */
    method Resolve(id: CG.EntryId, outcomes: seq<D.Outcome>, s: Script)
      modifies this
      ensures mem == Memory(if s.ackApplied then CG.XAck(old(mem).ledger, id) else old(mem).ledger,
                            old(mem).trace + (EventsOf(id, outcomes) + [CG.Acked(id)]),
                            old(mem).tally.Plus(SentTally(outcomes, s.ackFailed)))
    {
      ghost var before := mem.trace;
      Record(EventsOf(id, outcomes), Tally(0, 0, DroppedIn(outcomes)));
      Ack(id, s);
      assert mem.trace == before + (EventsOf(id, outcomes) + [CG.Acked(id)]);
      if s.ackFailed {
        return;
      }
      var delivered := AnyOf(outcomes);
      if delivered {
        Record([], Tally(1, 0, 0));
      }
    }

    /**
     The batch loop of Run. It handles the deliveries in order, none at or after the point where cancellation is seen
     and none after one that panics, and every one before. It is left early exactly when there is such a point in the
     batch. Entries that it does not get to stay as they were.
     */
    method HandleBatch(r: Round) returns (n: nat, left: bool)
      requires RoundOk(r, dests)
      modifies this
      ensures n == Stop(r, policy, dests) && left == Leaves(r, policy, dests)
      ensures mem == BatchSpec(old(mem), r, policy, dests, n)
      ensures EndsAt(r, policy, dests, n) && (left <==> !Whole(r, policy, dests))
      ensures RestUntouched(old(mem), mem, r.batch, n)
    {
      StopExactly(r, policy, dests, 0);
      RestIsUntouched(mem, r, policy, dests, Stop(r, policy, dests));
      n, left := Deliveries(r);
    }

    /** The loop itself. */
    method Deliveries(r: Round) returns (n: nat, left: bool)
      requires RoundOk(r, dests)
      modifies this
      ensures n == Stop(r, policy, dests) && left == Leaves(r, policy, dests)
      ensures mem == BatchSpec(old(mem), r, policy, dests, n)
    {
      n, left := 0, false;
      while n < |r.batch|
        invariant n <= |r.batch| && !left && mem == BatchSpec(old(mem), r, policy, dests, n)
        invariant Stop(r, policy, dests) == Stop(r, policy, dests, n)
        invariant Leaves(r, policy, dests) == Leaves(r, policy, dests, n)
      {
        if r.cancelAt <= n {
          left := true;
          return;
        }
        ghost var before := mem;
        var panicked := Handle(r.batch[n], r.scripts[n]);
        assert mem == HandleSpec(before, r.batch[n], policy, dests, r.scripts[n]);
        n := n + 1;
        assert mem == BatchSpec(old(mem), r, policy, dests, n);
        if panicked {
          left := true;
          return;
        }
      }
    }

    /** The read loop: batch after batch until it is cancelled, a read fails or a batch is left. `k` turns are taken. */
    method Run(turns: seq<Turn>) returns (k: nat, failed: bool)
      requires TurnsOk(turns, dests)
      modifies this
      ensures k == Span(turns, policy, dests) && failed == (k > 0 && turns[k - 1] == ReadFailed(false))
      ensures mem == RunSpec(old(mem), turns, policy, dests, k)
      ensures RunEnds(turns, policy, dests, k)
    {
      SpanExactly(turns, policy, dests, 0);
      k, failed := 0, false;
      var over := false;
      while k < |turns| && !over && !turns[k].Cancelled?
        invariant k <= |turns| && mem == RunSpec(old(mem), turns, policy, dests, k)
        invariant failed == (k > 0 && turns[k - 1] == ReadFailed(false)) && (failed ==> over)
        invariant Span(turns, policy, dests) == if over then k else Span(turns, policy, dests, k)
        decreases |turns| - k
      {
        failed := turns[k] == ReadFailed(false);
        over := OneTurn(turns[k]);
        k := k + 1;
      }
    }

    /** One turn of it; `over` when it ends the run. */
    method OneTurn(t: Turn) returns (over: bool)
      requires !t.Cancelled? && (t.Got? ==> RoundOk(t.round, dests))
      modifies this
      ensures over == EndsRun(t, policy, dests) && mem == TurnSpec(old(mem), t, policy, dests)
    {
      over := true;
      if t.Got? {
        var n;
        n, over := HandleBatch(t.round);
      }
    }

    method AnyOf(outcomes: seq<D.Outcome>) returns (delivered: bool)
      ensures delivered == AnyDelivered(outcomes)
    {
      delivered := false;
      for i := 0 to |outcomes|
        invariant delivered <==> exists j :: 0 <= j < i && outcomes[j].delivered
      {
        if outcomes[i].delivered {
          delivered := true;
        }
      }
    }
  }

  // ---- handling is a sequence of protocol steps -----------------------------

  function ResultOf(o: D.Outcome): CG.Result { if o.delivered then CG.Delivered else CG.Dropped }

  /** Take the next delivery and resolve its first k destinations in order. */
  function SendOps(c: string, outcomes: seq<D.Outcome>, k: nat): seq<CG.Op>
    requires k <= |outcomes|
  {
    if k == 0 then [CG.Next(c)] else SendOps(c, outcomes, k - 1) + [CG.Resolve(c, ResultOf(outcomes[k - 1]))]
  }

  /** Take the delivery, resolve its destinations in order, acknowledge. */
  function HandleOps(d: CG.Entry, c: string, outcomes: seq<D.Outcome>, s: Script): seq<CG.Op> {
    SendOps(c, outcomes, if d.processable then |outcomes| else 0) + [CG.Ack(c, s.ackApplied)]
  }

  ghost predicate Ready(g: CG.Group, c: string) {
    c in g.agents && g.agents[c].phase == CG.Idle && !g.agents[c].cancelled && g.agents[c].inbox != []
  }

  /** The group with one agent's state replaced. */
  function With(g: CG.Group, c: string, a: CG.Agent): CG.Group { g.(agents := g.agents[c := a]) }

  lemma NextStep(log: seq<CG.Entry>, first: nat, g: CG.Group, c: string)
    requires first <= |log| && Ready(g, c)
    ensures CG.GroupStep(log, first, g, CG.Next(c)) == With(g, c, CG.TakeNext(g.agents[c]))
  {
  }

  /** The agent with one more destination resolved. */
  function OneMore(a: CG.Agent, e: CG.Event): CG.Agent
    requires a.phase.Sending?
  {
    CG.Record(a, e, CG.Sending(a.phase.id, a.phase.done + 1))
  }

  lemma ResolveStep(log: seq<CG.Entry>, first: nat, g: CG.Group, c: string, a: CG.Agent, result: CG.Result)
    requires first <= |log| && a.phase.Sending? && a.phase.done < |g.dests|
    ensures CG.GroupStep(log, first, With(g, c, a), CG.Resolve(c, result)) ==
      With(g, c, OneMore(a, CG.Outcome(a.phase.id, g.dests[a.phase.done], result)))
  {
    var b := OneMore(a, CG.Outcome(a.phase.id, g.dests[a.phase.done], result));
    assert g.agents[c := a][c := b] == g.agents[c := b];
  }

  lemma AckStep(log: seq<CG.Entry>, first: nat, g: CG.Group, c: string, a: CG.Agent, applied: bool)
    requires first <= |log| && CG.AckReady(g, a)
    ensures CG.GroupStep(log, first, With(g, c, a), CG.Ack(c, applied)) ==
      With(g, c, CG.Record(a, CG.Acked(a.phase.id), CG.Idle)).(
        ledger := if applied then CG.XAck(g.ledger, a.phase.id) else g.ledger)
  {
    var b := CG.Record(a, CG.Acked(a.phase.id), CG.Idle);
    assert g.agents[c := a][c := b] == g.agents[c := b];
  }

  lemma EventsSnoc(before: seq<CG.Event>, id: CG.EntryId, outcomes: seq<D.Outcome>, k: nat)
    requires 0 < k <= |outcomes|
    ensures (before + EventsOf(id, outcomes[..k - 1])) + [EventOf(id, outcomes[k - 1])] ==
      before + EventsOf(id, outcomes[..k])
  {
  }

  /** The agent after taking its delivery and resolving the first k destinations. */
  function Midway(a: CG.Agent, outcomes: seq<D.Outcome>, k: nat): CG.Agent
    requires a.inbox != [] && k <= |outcomes|
  {
    a.(inbox := a.inbox[1..], phase := CG.Sending(a.inbox[0].id, k),
       trace := a.trace + EventsOf(a.inbox[0].id, outcomes[..k]))
  }

  lemma SendStart(log: seq<CG.Entry>, first: nat, g: CG.Group, c: string, outcomes: seq<D.Outcome>)
    requires first <= |log| && Ready(g, c) && g.agents[c].inbox[0].processable
    ensures CG.GroupStep(log, first, g, CG.Next(c)) == With(g, c, Midway(g.agents[c], outcomes, 0))
  {
    NextStep(log, first, g, c);
    assert g.agents[c].trace + EventsOf(g.agents[c].inbox[0].id, []) == g.agents[c].trace;
  }

  lemma SendOne(log: seq<CG.Entry>, first: nat, g: CG.Group, c: string, a: CG.Agent, outcomes: seq<D.Outcome>, k: nat)
    requires first <= |log| && a.inbox != [] && 0 < k <= |outcomes| <= |g.dests|
    requires outcomes[k - 1].dest == g.dests[k - 1]
    ensures CG.GroupStep(log, first, With(g, c, Midway(a, outcomes, k - 1)), CG.Resolve(c, ResultOf(outcomes[k - 1])))
         == With(g, c, Midway(a, outcomes, k))
  {
    ResolveStep(log, first, g, c, Midway(a, outcomes, k - 1), ResultOf(outcomes[k - 1]));
    EventsSnoc(a.trace, a.inbox[0].id, outcomes, k);
  }

  /** The group after handling its next delivery. */
  function Handled(g: CG.Group, c: string, p: Retry.Policy, s: Script): CG.Group
    requires c in g.agents && g.agents[c].inbox != [] && |s.plays| == |g.dests|
  {
    var a := g.agents[c];
    var after := HandleSpec(Memory(g.ledger, a.trace, Tally(0, 0, 0)), a.inbox[0], p, g.dests, s);
    With(g, c, a.(inbox := a.inbox[1..], trace := after.trace)).(ledger := after.ledger)
  }

  lemma LastStep(log: seq<CG.Entry>, first: nat, g: CG.Group, c: string, p: Retry.Policy, s: Script)
    requires first <= |log| && Ready(g, c) && |s.plays| == |g.dests| && g.agents[c].inbox[0].processable
    requires !D.SendTo(p, g.dests, s.plays).panicked
    ensures var outcomes := D.SendTo(p, g.dests, s.plays).outcomes;
      CG.GroupStep(log, first, With(g, c, Midway(g.agents[c], outcomes, |outcomes|)), CG.Ack(c, s.ackApplied)) ==
        Handled(g, c, p, s)
  {
    var a := g.agents[c];
    var id := a.inbox[0].id;
    var outcomes := D.SendTo(p, g.dests, s.plays).outcomes;
    assert outcomes[..|outcomes|] == outcomes;
    AckStep(log, first, g, c, Midway(a, outcomes, |outcomes|), s.ackApplied);
    assert (a.trace + EventsOf(id, outcomes)) + [CG.Acked(id)] == a.trace + (EventsOf(id, outcomes) + [CG.Acked(id)]);
  }

  lemma UnprocessableIsSteps(log: seq<CG.Entry>, first: nat, g: CG.Group, c: string, p: Retry.Policy, s: Script)
    requires first <= |log| && Ready(g, c) && |s.plays| == |g.dests| && !g.agents[c].inbox[0].processable
    ensures var b := With(g, c, CG.TakeNext(g.agents[c]));
      && CG.GroupStep(log, first, g, CG.Next(c)) == b
      && CG.GroupStep(log, first, b, CG.Ack(c, s.ackApplied)) == Handled(g, c, p, s)
  {
    var a := g.agents[c];
    var b := CG.TakeNext(a);
    NextStep(log, first, g, c);
    AckStep(log, first, g, c, b, s.ackApplied);
    assert b.trace + [CG.Acked(a.inbox[0].id)] == a.trace + [CG.Unprocessable(a.inbox[0].id), CG.Acked(a.inbox[0].id)];
  }

  lemma {:induction false} SendRun(log: seq<CG.Entry>, first: nat, g: CG.Group, c: string, outcomes: seq<D.Outcome>,
                                   k: nat)
    requires first <= |log| && Ready(g, c) && g.agents[c].inbox[0].processable && k <= |outcomes| <= |g.dests|
    requires forall i :: 0 <= i < |outcomes| ==> outcomes[i].dest == g.dests[i]
    ensures CG.GroupRun(log, first, g, SendOps(c, outcomes, k)) == With(g, c, Midway(g.agents[c], outcomes, k))
  {
    if k == 0 {
      SendStart(log, first, g, c, outcomes);
      CG.GroupRunSnoc(log, first, g, [], CG.Next(c));
      assert [] + [CG.Next(c)] == [CG.Next(c)];
    } else {
      SendRun(log, first, g, c, outcomes, k - 1);
      CG.GroupRunSnoc(log, first, g, SendOps(c, outcomes, k - 1), CG.Resolve(c, ResultOf(outcomes[k - 1])));
      SendOne(log, first, g, c, g.agents[c], outcomes, k);
    }
  }

  lemma OutcomesNamed(p: Retry.Policy, dests: seq<string>, plays: seq<Retry.Play>)
    requires |plays| == |dests|
    ensures forall k :: 0 <= k < |D.SendTo(p, dests, plays).outcomes| ==>
      D.SendTo(p, dests, plays).outcomes[k].dest == dests[k]
  {
    forall k | 0 <= k < |D.SendTo(p, dests, plays).outcomes|
      ensures D.SendTo(p, dests, plays).outcomes[k].dest == dests[k]
    {
      D.OutcomesIndependent(p, dests, plays, k);
    }
  }

  /**
   Handling a delivery to the end is exactly the protocol's Next, one Resolve per destination and Ack, so
   what holds of every run of the protocol holds of this agent.
   */
  lemma HandleIsSteps(log: seq<CG.Entry>, first: nat, g: CG.Group, c: string, p: Retry.Policy, s: Script)
    requires first <= |log| && Ready(g, c) && |s.plays| == |g.dests|
    requires !EffectOf(g.agents[c].inbox[0], p, g.dests, s).panicked
    ensures CG.GroupRun(log, first, g, HandleOps(g.agents[c].inbox[0], c, D.SendTo(p, g.dests, s.plays).outcomes, s))
         == Handled(g, c, p, s)
  {
    var outcomes := D.SendTo(p, g.dests, s.plays).outcomes;
    if g.agents[c].inbox[0].processable {
      OutcomesNamed(p, g.dests, s.plays);
      SendRun(log, first, g, c, outcomes, |outcomes|);
      CG.GroupRunSnoc(log, first, g, SendOps(c, outcomes, |outcomes|), CG.Ack(c, s.ackApplied));
      LastStep(log, first, g, c, p, s);
    } else {
      UnprocessableIsSteps(log, first, g, c, p, s);
      CG.GroupRunSnoc(log, first, g, [], CG.Next(c));
      assert [] + [CG.Next(c)] == SendOps(c, outcomes, 0);
      CG.GroupRunSnoc(log, first, g, SendOps(c, outcomes, 0), CG.Ack(c, s.ackApplied));
    }
  }

  // ---- the counters ---------------------------------------------------------

  /** How many of the outcomes were not delivered. */
  lemma {:induction false} DroppedCount(outcomes: seq<D.Outcome>)
    ensures DroppedIn(outcomes) == |Undelivered(outcomes)|
  {
    if outcomes != [] {
      var n := |outcomes| - 1;
      DroppedCount(outcomes[..n]);
      assert Undelivered(outcomes) == Undelivered(outcomes[..n]) + if outcomes[n].delivered then {} else {n};
    }
  }

  ghost function Undelivered(outcomes: seq<D.Outcome>): set<nat> {
    set i: nat | i < |outcomes| && !outcomes[i].delivered
  }

  /**
   What one delivery counts, from its dispatches alone: unprocessable exactly when it could not be parsed, processed
   exactly when some destination's last attempt was accepted and the acknowledgement went through, and dropped once
   for each destination whose last attempt was not accepted. After a panic nothing is processed.
   */
  lemma TallyExactly(d: CG.Entry, p: Retry.Policy, dests: seq<string>, s: Script)
    requires |s.plays| == |dests|
    ensures var t := EffectOf(d, p, dests, s).tally;
      && t.unprocessable == (if d.processable then 0 else 1)
      && (!d.processable ==> t.processed == 0 && t.dropped == 0)
      && (EffectOf(d, p, dests, s).panicked ==> t.processed == 0)
      && (d.processable && !EffectOf(d, p, dests, s).panicked ==>
          && t.processed == (if !s.ackFailed && AnyAccepts(p, s.plays) then 1 else 0)
          && t.dropped == |NotAccepted(p, s.plays)|)
  {
    if d.processable && !EffectOf(d, p, dests, s).panicked {
      D.OutcomesTellAttempts(p, dests, s.plays);
      SentTallyExactly(p, dests, s.plays, D.SendTo(p, dests, s.plays).outcomes);
    }
  }

  /** A delivery panics exactly when it is dispatched and the dispatch to some destination does. */
  lemma PanicsExactly(d: CG.Entry, p: Retry.Policy, dests: seq<string>, s: Script)
    requires |s.plays| == |dests|
    ensures EffectOf(d, p, dests, s).panicked <==>
      d.processable && exists i :: 0 <= i < |dests| && Retry.VerdictOf(p, s.plays[i]).Panicked?
  {
    D.SendingEnds(p, dests, s.plays);
  }

  /** The dispatch ends on an accepted attempt. */
  predicate Accepts(p: Retry.Policy, play: Retry.Play) {
    var n := |Retry.Observed(p, play)|;
    n > 0 && play.reply(n - 1) == Retry.Accepted
  }

  ghost predicate AnyAccepts(p: Retry.Policy, plays: seq<Retry.Play>) {
    exists i :: 0 <= i < |plays| && Accepts(p, plays[i])
  }

  ghost function NotAccepted(p: Retry.Policy, plays: seq<Retry.Play>): set<nat> {
    set i: nat | i < |plays| && !Accepts(p, plays[i])
  }

  lemma SentTallyExactly(p: Retry.Policy, dests: seq<string>, plays: seq<Retry.Play>, outcomes: seq<D.Outcome>)
    requires |outcomes| == |plays| == |dests|
    requires forall i :: 0 <= i < |outcomes| ==> D.Tells(outcomes[i], p, dests[i], plays[i])
    ensures AnyDelivered(outcomes) <==> AnyAccepts(p, plays)
    ensures DroppedIn(outcomes) == |NotAccepted(p, plays)|
  {
    forall i | 0 <= i < |outcomes| ensures outcomes[i].delivered <==> Accepts(p, plays[i]) {
      assert D.Tells(outcomes[i], p, dests[i], plays[i]);
    }
    DroppedCount(outcomes);
    assert Undelivered(outcomes) == NotAccepted(p, plays);
    DeliveredSome(outcomes);
  }

  /**
   What one delivery leaves on record: for each destination, in order, whether its dispatch ended on an accepted
   attempt, up to the first that panics; then, without a panic, the acknowledgement.
   */
  lemma RecordExactly(d: CG.Entry, p: Retry.Policy, dests: seq<string>, s: Script)
    requires |s.plays| == |dests|
    ensures var e := EffectOf(d, p, dests, s);
      && (!d.processable ==> e.events == [CG.Unprocessable(d.id), CG.Acked(d.id)])
      && (e.acked <==> !e.panicked && s.ackApplied)
      && (d.processable ==>
          var n := if e.panicked then |e.events| else |e.events| - 1;
          && 0 <= n <= |dests| && (n < |dests| <==> e.panicked)
          && (e.panicked ==> Retry.VerdictOf(p, s.plays[n]).Panicked?)
          && (!e.panicked ==> e.events[n] == CG.Acked(d.id))
          && (forall i :: 0 <= i < n ==>
              e.events[i] == CG.Outcome(d.id, dests[i], if Accepts(p, s.plays[i]) then CG.Delivered else CG.Dropped)))
  {
    D.OutcomesTellAttempts(p, dests, s.plays);
  }

  lemma DeliveredSome(outcomes: seq<D.Outcome>)
    ensures AnyDelivered(outcomes) <==> exists i :: 0 <= i < |outcomes| && outcomes[i].delivered
  {
  }

  /**
   Delivered but its acknowledgement failed, or given up in a panic: neither processed nor dropped in the counters.
   */
  predicate Uncounted(d: CG.Entry, p: Retry.Policy, dests: seq<string>, s: Script)
    requires |s.plays| == |dests|
  {
    || EffectOf(d, p, dests, s).panicked
    || (d.processable && s.ackFailed && AnyDelivered(D.SendTo(p, dests, s.plays).outcomes))
  }

  function UncountedIn(r: Round, p: Retry.Policy, dests: seq<string>, n: nat): nat
    requires RoundOk(r, dests) && n <= |r.batch|
  {
    if n == 0 then 0
    else UncountedIn(r, p, dests, n - 1) + if Uncounted(r.batch[n - 1], p, dests, r.scripts[n - 1]) then 1 else 0
  }

  lemma OneOutcome(outcomes: seq<D.Outcome>, ackFailed: bool)
    requires |outcomes| == 1
    ensures var t := SentTally(outcomes, ackFailed);
      t.unprocessable == 0 && t.processed + t.dropped + (if ackFailed && AnyDelivered(outcomes) then 1 else 0) == 1
  {
    assert outcomes[..0] == [];
    assert AnyDelivered(outcomes) <==> outcomes[0].delivered;
    assert DroppedIn(outcomes) == if outcomes[0].delivered then 0 else 1;
  }

  lemma OneDestinationTally(d: CG.Entry, p: Retry.Policy, dests: seq<string>, s: Script)
    requires |s.plays| == |dests| == 1
    ensures var t := EffectOf(d, p, dests, s).tally;
      t.processed + t.unprocessable + t.dropped + (if Uncounted(d, p, dests, s) then 1 else 0) == 1
  {
    if d.processable && !D.SendTo(p, dests, s.plays).panicked {
      OneOutcome(D.SendTo(p, dests, s.plays).outcomes, s.ackFailed);
    }
  }

  /**
   With one destination every delivery handled is counted once, except those delivered whose ack failed and one lost
   in a panic.
   */
  lemma {:induction false} CountersAddUp(m: Memory, r: Round, p: Retry.Policy, dests: seq<string>, n: nat)
    requires RoundOk(r, dests) && n <= |r.batch| && |dests| == 1
    ensures var t := BatchSpec(m, r, p, dests, n).tally;
      t.processed + t.unprocessable + t.dropped + UncountedIn(r, p, dests, n)
        == m.tally.processed + m.tally.unprocessable + m.tally.dropped + n
  {
    if n > 0 {
      CountersAddUp(m, r, p, dests, n - 1);
      OneDestinationTally(r.batch[n - 1], p, dests, r.scripts[n - 1]);
    }
  }

  /** How many deliveries a run handled, and how many of them no counter shows. */
  function HandledIn(turns: seq<Turn>, p: Retry.Policy, dests: seq<string>, k: nat): nat
    requires TurnsOk(turns, dests) && k <= |turns|
  {
    if k == 0 then 0 else
    HandledIn(turns, p, dests, k - 1) + if turns[k - 1].Got? then Stop(turns[k - 1].round, p, dests) else 0
  }

  function UncountedOver(turns: seq<Turn>, p: Retry.Policy, dests: seq<string>, k: nat): nat
    requires TurnsOk(turns, dests) && k <= |turns|
  {
    if k == 0 then 0 else
    var t := turns[k - 1];
    UncountedOver(turns, p, dests, k - 1) +
    if t.Got? then UncountedIn(t.round, p, dests, Stop(t.round, p, dests)) else 0
  }

  function Sum(t: Tally): nat { t.processed + t.unprocessable + t.dropped }

  lemma TurnAddsUp(m: Memory, t: Turn, p: Retry.Policy, dests: seq<string>)
    requires t.Got? && RoundOk(t.round, dests) && |dests| == 1
    ensures var n := Stop(t.round, p, dests);
      Sum(TurnSpec(m, t, p, dests).tally) + UncountedIn(t.round, p, dests, n) == Sum(m.tally) + n
  {
    CountersAddUp(m, t.round, p, dests, Stop(t.round, p, dests));
  }

  /** The same over any number of turns, mid-batch cancellation included. */
  lemma {:induction false} RunCountersAddUp(m: Memory, turns: seq<Turn>, p: Retry.Policy, dests: seq<string>, k: nat)
    requires TurnsOk(turns, dests) && k <= |turns| && |dests| == 1
    ensures Sum(RunSpec(m, turns, p, dests, k).tally) + UncountedOver(turns, p, dests, k)
         == Sum(m.tally) + HandledIn(turns, p, dests, k)
  {
    if k > 0 {
      RunCountersAddUp(m, turns, p, dests, k - 1);
      if turns[k - 1].Got? {
        TurnAddsUp(RunSpec(m, turns, p, dests, k - 1), turns[k - 1], p, dests);
      }
    }
  }
}
