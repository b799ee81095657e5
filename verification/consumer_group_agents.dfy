/**
 The client side of a group: what the record a stream agent leaves says about each id it acknowledged.
 */
module ConsumerGroupAgents {
  import opened ConsumerGroup
  import opened ConsumerGroupSafety

  /** The destinations that resolved `id`, in the order they did. */
  function DestsOf(trace: seq<Event>, id: EntryId): seq<string> {
    if trace == [] then [] else
    var e := trace[|trace| - 1];
    DestsOf(trace[..|trace| - 1], id) + (if e.Outcome? && e.id == id then [e.dest] else [])
  }

  lemma DestsOfSnoc(trace: seq<Event>, e: Event, id: EntryId)
    ensures DestsOf(trace + [e], id) == DestsOf(trace, id) + (if e.Outcome? && e.id == id then [e.dest] else [])
  {
    assert (trace + [e])[..|trace|] == trace;
  }

  /** No destination saw `id` beyond what the record mentions. */
  lemma {:induction false} DestsOfUnmentioned(trace: seq<Event>, id: EntryId)
    requires forall e :: e in trace ==> e.id != id
    ensures DestsOf(trace, id) == []
  {
    if trace != [] {
      DestsOfUnmentioned(trace[..|trace| - 1], id);
    }
  }

  /** An entry is resolved when it is on record as unprocessable, or every destination answered, in order. */
  ghost predicate Resolved(trace: seq<Event>, id: EntryId, dests: seq<string>) {
    if Unprocessable(id) in trace then DestsOf(trace, id) == [] else DestsOf(trace, id) == dests
  }

  /** Acknowledgements come after the resolution, once, and nothing about the id follows. */
  ghost predicate AcksFollow(trace: seq<Event>, dests: seq<string>) {
    && (forall k :: 0 <= k < |trace| && trace[k].Acked? ==>
          Resolved(trace[..k], trace[k].id, dests) && forall m :: k < m < |trace| ==> trace[m].id != trace[k].id)
    && (forall id :: DestsOf(trace, id) <= dests)
  }

  ghost predicate PhaseOk(a: Agent, dests: seq<string>) {
    match a.phase
    case Idle => true
    case Rejected(id) =>
      && Unprocessable(id) in a.trace && DestsOf(a.trace, id) == [] && Acked(id) !in a.trace
    case Sending(id, done) =>
      && done <= |dests| && DestsOf(a.trace, id) == dests[..done]
      && Unprocessable(id) !in a.trace && Acked(id) !in a.trace
  }

  ghost predicate InOrder(a: Agent) {
    && Increasing(Ids(a.inbox))
    && (forall e, m :: e in a.trace && m in a.inbox ==> e.id < m.id)
    && (!a.phase.Idle? ==> forall m :: m in a.inbox ==> a.phase.id < m.id)
    && (forall e :: e in a.trace ==> e.id in a.got)
    && (forall m :: m in a.inbox ==> m.id in a.got)
    && (!a.phase.Idle? ==> a.phase.id in a.got)
  }

  ghost predicate AgentOk(a: Agent, dests: seq<string>) {
    AcksFollow(a.trace, dests) && PhaseOk(a, dests) && InOrder(a)
  }

  ghost predicate GroupOk(log: seq<Entry>, first: nat, g: Group) {
    && LedgerOk(log, first, g.ledger)
    && (forall c :: c in g.agents ==> AgentOk(g.agents[c], g.dests))
    && (forall c, id :: c in g.agents && id in g.agents[c].got ==> id in g.ledger.delivered)
    && (forall c, d :: c in g.agents && d in g.agents && c != d ==> g.agents[c].got !! g.agents[d].got)
  }

  // ---- how the record grows -------------------------------------------------

  /** Recording one more event about an id that is not acknowledged yet. */
  lemma RecordKeeps(trace: seq<Event>, e: Event, dests: seq<string>)
    requires AcksFollow(trace, dests) && Acked(e.id) !in trace
    requires e.Outcome? ==> DestsOf(trace, e.id) + [e.dest] <= dests
    requires e.Acked? ==> Resolved(trace, e.id, dests)
    ensures AcksFollow(trace + [e], dests)
  {
    var longer := trace + [e];
    forall id ensures DestsOf(longer, id) <= dests {
      DestsOfSnoc(trace, e, id);
    }
    forall k | 0 <= k < |longer| && longer[k].Acked?
      ensures Resolved(longer[..k], longer[k].id, dests)
      ensures forall m :: k < m < |longer| ==> longer[m].id != longer[k].id
    {
      if k < |trace| {
        assert longer[..k] == trace[..k] && trace[k] in trace;
        assert trace[k] == Acked(trace[k].id);
      } else {
        assert longer[..k] == trace;
      }
    }
  }

  lemma StartKeeps(a: Agent, dests: seq<string>)
    requires AgentOk(a, dests)
    ensures AgentOk(NEW_AGENT.(trace := a.trace, got := a.got), dests)
  {
  }

  lemma ReadKeeps(a: Agent, dests: seq<string>, batch: seq<Entry>, cursor: EntryId)
    requires AgentOk(a, dests) && a.phase.Idle? && a.inbox == []
    requires Increasing(Ids(batch)) && forall id :: id in Ids(batch) ==> id > cursor
    requires forall id :: id in a.got ==> id <= cursor
    ensures AgentOk(a.(inbox := batch, got := a.got + (set id | id in Ids(batch))), dests)
  {
    forall m | m in batch ensures m.id in Ids(batch) {
      var k :| 0 <= k < |batch| && batch[k] == m;
      assert Ids(batch)[k] == m.id;
    }
  }

  lemma PopKeeps(a: Agent)
    requires InOrder(a) && a.phase.Idle? && a.inbox != []
    ensures var e := a.inbox[0];
      && (forall x :: x in a.trace ==> x.id < e.id)
      && e.id in a.got
      && (forall m :: m in a.inbox[1..] ==> m in a.inbox && e.id < m.id)
      && Increasing(Ids(a.inbox[1..]))
  {
    var e := a.inbox[0];
    assert e in a.inbox;
    assert forall k :: 0 <= k < |a.inbox| - 1 ==> Ids(a.inbox[1..])[k] == Ids(a.inbox)[k + 1];
    forall m | m in a.inbox[1..] ensures m in a.inbox && e.id < m.id {
      var k :| 0 <= k < |a.inbox[1..]| && a.inbox[1..][k] == m;
      assert Ids(a.inbox)[0] < Ids(a.inbox)[k + 1];
    }
  }

  lemma NextKeeps(g: Group, a: Agent)
    requires AgentOk(a, g.dests) && a.phase.Idle? && a.inbox != []
    ensures AgentOk(TakeNext(a), g.dests) && TakeNext(a).got == a.got
  {
    var e := a.inbox[0];
    PopKeeps(a);
    assert Acked(e.id) !in a.trace && Unprocessable(e.id) !in a.trace;
    DestsOfUnmentioned(a.trace, e.id);
    if !a.cancelled && !e.processable {
      RecordKeeps(a.trace, Unprocessable(e.id), g.dests);
      DestsOfSnoc(a.trace, Unprocessable(e.id), e.id);
    }
  }

  lemma ResolveKeeps(a: Agent, dests: seq<string>, result: Result)
    requires AgentOk(a, dests) && a.phase.Sending? && a.phase.done < |dests|
    ensures var e := Outcome(a.phase.id, dests[a.phase.done], result);
      AgentOk(Record(a, e, Sending(a.phase.id, a.phase.done + 1)), dests)
  {
    var e := Outcome(a.phase.id, dests[a.phase.done], result);
    assert dests[..a.phase.done] + [e.dest] == dests[..a.phase.done + 1];
    DestsOfSnoc(a.trace, e, a.phase.id);
    RecordKeeps(a.trace, e, dests);
  }

  lemma AckRecordKeeps(g: Group, a: Agent)
    requires AgentOk(a, g.dests) && AckReady(g, a)
    ensures AgentOk(Record(a, Acked(a.phase.id), Idle), g.dests)
  {
    assert g.dests[..|g.dests|] == g.dests;
    RecordKeeps(a.trace, Acked(a.phase.id), g.dests);
  }

  // ---- every step -----------------------------------------------------------

  /** Replacing one agent's state by one with the same ids in hand. */
  lemma AgentUpdate(log: seq<Entry>, first: nat, g: Group, l: Ledger, c: string, a: Agent, seen: map<string, int>)
    requires GroupOk(log, first, g) && LedgerOk(log, first, l) && l.delivered == g.ledger.delivered
    requires AgentOk(a, g.dests) && a.got == (if c in g.agents then g.agents[c].got else {})
    ensures GroupOk(log, first, g.(ledger := l, agents := g.agents[c := a], consumers := seen))
  {
  }

  /** Handing fresh ids to one agent, or to nobody when the reply is lost. */
  lemma GroupRead(log: seq<Entry>, first: nat, g: Group, l: Ledger, c: string, a: Agent, fresh': set<EntryId>,
                  seen: map<string, int>)
    requires GroupOk(log, first, g) && LedgerOk(log, first, l) && c in g.agents
    requires forall id :: id in g.ledger.delivered ==> id in l.delivered && id !in fresh'
    requires forall id :: id in fresh' ==> id in l.delivered
    requires AgentOk(a, g.dests) && a.got == g.agents[c].got + fresh'
    ensures GroupOk(log, first, g.(ledger := l, agents := g.agents[c := a], consumers := seen))
    ensures GroupOk(log, first, g.(ledger := l, consumers := seen))
  {
  }

  lemma ReadStepKeeps(log: seq<Entry>, first: nat, g: Group, c: string, j: nat, batch: seq<Entry>, now: int)
    requires Sorted(log) && first <= |log| && GroupOk(log, first, g) && c in g.agents
    requires IsNext(log, first, g.ledger.cursor, j, batch)
    requires g.agents[c].phase == Idle && g.agents[c].inbox == []
    ensures var a := g.agents[c];
      var l := Deliver(g.ledger, batch, c, now);
      var seen := g.consumers[c := now];
      && GroupOk(log, first, g.(ledger := l, consumers := seen))
      && GroupOk(log, first, g.(ledger := l, consumers := seen,
                                agents := g.agents[c := a.(inbox := batch,
                                  got := a.got + (set id | id in Ids(batch)))]))
  {
    var l := g.ledger;
    NextIds(log, first, l.cursor, j, batch);
    DeliverNext(log, first, l, j, batch, c, now);
    forall id | id in g.agents[c].got ensures id <= l.cursor {
      assert id in l.delivered;
    }
    ReadKeeps(g.agents[c], g.dests, batch, l.cursor);
    var fresh' := set id | id in Ids(batch);
    GroupRead(log, first, g, Deliver(l, batch, c, now), c,
              g.agents[c].(inbox := batch, got := g.agents[c].got + fresh'), fresh', g.consumers[c := now]);
  }

  lemma ReadOpKeeps(log: seq<Entry>, first: nat, g: Group, op: Op)
    requires Sorted(log) && first <= |log| && GroupOk(log, first, g) && op.Read?
    ensures GroupOk(log, first, GroupStep(log, first, g, op))
  {
    var c := op.consumer;
    if c in g.agents && g.agents[c].phase == Idle && g.agents[c].inbox == [] && !g.agents[c].cancelled {
      var j := BatchIsNext(log, first, g.ledger.cursor, op.count);
      var batch := Batch(log, first, g.ledger.cursor, op.count);
      ReadStepKeeps(log, first, g, c, j, batch, op.now);
    }
  }

  lemma StartOpKeeps(log: seq<Entry>, first: nat, g: Group, op: Op)
    requires first <= |log| && GroupOk(log, first, g) && (op.Start? || op.Cancel?)
    ensures GroupOk(log, first, GroupStep(log, first, g, op))
  {
    var c := op.consumer;
    var h := GroupStep(log, first, g, op);
    if op.Start? {
      assert DestsOf([], 0) == [];
      StartKeeps(if c in g.agents then g.agents[c] else NEW_AGENT, g.dests);
      AgentUpdate(log, first, g, g.ledger, c, h.agents[c], g.consumers);
    } else if c in g.agents {
      AgentUpdate(log, first, g, g.ledger, c, h.agents[c], g.consumers);
    }
  }

  lemma HandleOpKeeps(log: seq<Entry>, first: nat, g: Group, op: Op)
    requires first <= |log| && GroupOk(log, first, g) && (op.Next? || op.Resolve?)
    ensures GroupOk(log, first, GroupStep(log, first, g, op))
  {
    var c := op.consumer;
    var h := GroupStep(log, first, g, op);
    if c in g.agents && h != g {
      if op.Next? {
        NextKeeps(g, g.agents[c]);
      } else {
        ResolveKeeps(g.agents[c], g.dests, op.result);
      }
      AgentUpdate(log, first, g, g.ledger, c, h.agents[c], g.consumers);
    }
  }

  lemma AckOpKeeps(log: seq<Entry>, first: nat, g: Group, op: Op)
    requires first <= |log| && GroupOk(log, first, g) && (op.Ack? || op.ReclaimAck?)
    ensures GroupOk(log, first, GroupStep(log, first, g, op))
  {
    var c := op.consumer;
    var h := GroupStep(log, first, g, op);
    if c in g.agents && h != g {
      var id := if op.Ack? then g.agents[c].phase.id else op.id;
      if op.Ack? { AckRecordKeeps(g, g.agents[c]); }
      AckKeeps(log, first, g.ledger, id);
      AgentUpdate(log, first, g, h.ledger, c, h.agents[c], h.consumers);
    }
  }

  lemma ClaimOpKeeps(log: seq<Entry>, first: nat, g: Group, op: Op)
    requires Sorted(log) && first <= |log| && GroupOk(log, first, g) && op.ClaimPage?
    ensures GroupOk(log, first, GroupStep(log, first, g, op))
  {
    var c := op.consumer;
    var h := GroupStep(log, first, g, op);
    if c in g.agents {
      PageKeeps(log, first, g.ledger, op.from, op.minIdle, op.now, op.count, c);
      AgentUpdate(log, first, g, h.ledger, c, h.agents[c], h.consumers);
    }
  }

  lemma GroupStepKeeps(log: seq<Entry>, first: nat, g: Group, op: Op)
    requires Sorted(log) && first <= |log| && GroupOk(log, first, g)
    ensures GroupOk(log, first, GroupStep(log, first, g, op))
  {
    match op {
      case Start(_) => StartOpKeeps(log, first, g, op);
      case Cancel(_) => StartOpKeeps(log, first, g, op);
      case Read(_, _, _, _) => ReadOpKeeps(log, first, g, op);
      case Next(_) => HandleOpKeeps(log, first, g, op);
      case Resolve(_, _) => HandleOpKeeps(log, first, g, op);
      case Ack(_, _) => AckOpKeeps(log, first, g, op);
      case ReclaimAck(_, _, _) => AckOpKeeps(log, first, g, op);
      case ClaimPage(_, _, _, _, _) => ClaimOpKeeps(log, first, g, op);
      case Retire(_, _, _) =>
    }
  }
}
