/**
 Consumers over whole runs: retiring one never orphans an entry, and a cancelled agent takes up nothing new.
 */
module ConsumerGroupLifecycle {
  import opened ConsumerGroup

  // ---- retirement -----------------------------------------------------------

  /** Every pending entry belongs to a consumer the group still has. */
  ghost predicate Owned(g: Group) {
    forall id :: id in g.ledger.pending ==> g.ledger.pending[id].owner in g.consumers
  }

  lemma DeliverOwned(g: Group, batch: seq<Entry>, c: string, now: int)
    requires Owned(g)
    ensures Owned(g.(ledger := Deliver(g.ledger, batch, c, now), consumers := g.consumers[c := now]))
  {
  }

  lemma PageOwned(g: Group, page: Page, c: string, now: int)
    requires Owned(g)
    ensures Owned(g.(ledger := ApplyPage(g.ledger, page, c, now), consumers := g.consumers[c := now]))
  {
  }

  lemma GroupStepOwned(log: seq<Entry>, first: nat, g: Group, op: Op)
    requires first <= |log| && Owned(g)
    ensures Owned(GroupStep(log, first, g, op))
  {
    match op {
      case Read(c, count, now, _) =>
        DeliverOwned(g, Batch(log, first, g.ledger.cursor, count), c, now);
      case ClaimPage(c, from, minIdle, count, now) =>
        PageOwned(g, AutoClaim(log, first, g.ledger.pending, from, minIdle, now, count), c, now);
      case _ =>
    }
  }

  ghost predicate AllOwned(w: World) {
    forall name :: name in w.groups ==> Owned(w.groups[name])
  }

  lemma StepOwned(w: World, step: Step)
    requires w.first <= |w.log| && AllOwned(w)
    ensures AllOwned(Apply(w, step))
  {
    if step.At? && step.group in w.groups {
      GroupStepOwned(w.log, w.first, w.groups[step.group], step.op);
    }
  }

  /** However consumers come, read, claim and are retired, no pending entry is ever left without its consumer. */
  lemma {:induction false} NoOrphans(w: World, steps: seq<Step>)
    requires Initial(w)
    ensures AllOwned(Run(w, steps))
  {
    if steps != [] {
      NoOrphans(w, steps[..|steps| - 1]);
      StepOwned(Run(w, steps[..|steps| - 1]), steps[|steps| - 1]);
    }
  }

  // ---- cancellation ---------------------------------------------------------

  /**
   A consumer leaves its group exactly when it is retired holding nothing, idle since its last read or claim for long
   enough; and those are the operations that make it known or active.
   */
  lemma ConsumersExactly(log: seq<Entry>, first: nat, g: Group, op: Op, c: string)
    requires first <= |log|
    ensures var h := GroupStep(log, first, g, op);
      && (c in g.consumers && c !in h.consumers <==>
          && op.Retire? && op.consumer == c && c in g.consumers && op.now - g.consumers[c] >= op.retireIdle
          && forall id :: id in g.ledger.pending ==> g.ledger.pending[id].owner != c)
      && (c in h.consumers && (c in g.consumers ==> h.consumers[c] != g.consumers[c]) ==>
          (op.Read? || op.ClaimPage?) && op.consumer == c && h.consumers[c] == op.now)
  {
  }

  /** The agent is cancelled, has nothing in hand, and its record is `trace`. */
  ghost predicate Quiet(w: World, name: string, c: string, trace: seq<Event>) {
    && w.first <= |w.log| && name in w.groups && c in w.groups[name].agents
    && w.groups[name].agents[c].cancelled && w.groups[name].agents[c].phase == Idle
    && w.groups[name].agents[c].trace == trace
  }

  lemma QuietGroupStep(log: seq<Entry>, first: nat, g: Group, op: Op, c: string)
    requires first <= |log| && c in g.agents && g.agents[c].cancelled && g.agents[c].phase == Idle && op != Start(c)
    ensures var h := GroupStep(log, first, g, op);
      c in h.agents && h.agents[c].cancelled && h.agents[c].phase == Idle && h.agents[c].trace == g.agents[c].trace
  {
  }

  lemma QuietStep(w: World, step: Step, name: string, c: string, trace: seq<Event>)
    requires Quiet(w, name, c, trace) && step != At(name, Start(c))
    ensures Quiet(Apply(w, step), name, c, trace)
  {
    if step.At? && step.group == name {
      QuietGroupStep(w.log, w.first, w.groups[name], step.op, c);
    }
  }

  /**
   Once cancelled between two deliveries, an agent records nothing more, so it acknowledges nothing more, whatever
   else happens, until it is started again. What it had not resolved by then it has not acknowledged.
   */
  lemma {:induction false} CancelledTakesNothingUp(w: World, steps: seq<Step>, name: string, c: string,
                                                   trace: seq<Event>)
    requires Quiet(w, name, c, trace) && At(name, Start(c)) !in steps
    ensures Quiet(Run(w, steps), name, c, trace)
  {
    if steps != [] {
      var before, last := steps[..|steps| - 1], steps[|steps| - 1];
      assert last in steps && forall s :: s in before ==> s in steps;
      CancelledTakesNothingUp(w, before, name, c, trace);
      QuietStep(Run(w, before), last, name, c, trace);
    }
  }
}
