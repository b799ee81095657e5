/**
 What the server's acknowledgements say about the agents' records: an acknowledged entry was resolved by an agent,
 unless a reclaim pass acknowledged it.
 */
module ConsumerGroupResolution {
  import opened ConsumerGroup
  import opened ConsumerGroupAgents
  import opened ConsumerGroupTheorems

  /** Some agent of the group has recorded that it acknowledges the id. */
  ghost predicate OnRecord(g: Group, id: EntryId) {
    exists c :: c in g.agents && Acked(id) in g.agents[c].trace
  }

  /** Some agent of the group has on record both the resolution of the id and its acknowledgement. */
  ghost predicate Settled(g: Group, id: EntryId) {
    exists c :: c in g.agents && Acked(id) in g.agents[c].trace && Resolved(g.agents[c].trace, id, g.dests)
  }

  /** A reclaim pass acknowledges the id, and the server carries it out. */
  predicate Reclaims(s: Step, name: string, id: EntryId) {
    s.At? && s.group == name && s.op.ReclaimAck? && s.op.id == id && s.op.applied
  }

  ghost predicate Reclaimed(steps: seq<Step>, name: string, id: EntryId) {
    exists k :: 0 <= k < |steps| && Reclaims(steps[k], name, id)
  }

  // ---- where acknowledgements come from ---------------------------------------

  /** Records only grow, a restart included. */
  lemma RecordStays(log: seq<Entry>, first: nat, g: Group, op: Op, id: EntryId)
    requires first <= |log| && OnRecord(g, id)
    ensures OnRecord(GroupStep(log, first, g, op), id)
  {
    var c :| c in g.agents && Acked(id) in g.agents[c].trace;
    var h := GroupStep(log, first, g, op);
    assert c in h.agents && Acked(id) in h.agents[c].trace;
  }

  /** One step acknowledges an id only as the agent's own, which it records, or as reclaim's. */
  lemma StepAcks(log: seq<Entry>, first: nat, g: Group, op: Op, id: EntryId)
    requires first <= |log| && id in GroupStep(log, first, g, op).ledger.acked && id !in g.ledger.acked
    ensures OnRecord(GroupStep(log, first, g, op), id) || (op.ReclaimAck? && op.id == id && op.applied)
  {
    var h := GroupStep(log, first, g, op);
    if op.Ack? {
      assert h.agents[op.consumer].trace == g.agents[op.consumer].trace + [Acked(id)];
    }
  }

  /** The group has recorded every acknowledgement the server shows, but for those that the steps reclaimed. */
  ghost predicate Backed(w: World, steps: seq<Step>, name: string) {
    name in w.groups ==>
      forall id :: id in w.groups[name].ledger.acked ==> OnRecord(w.groups[name], id) || Reclaimed(steps, name, id)
  }

  lemma ReclaimedSnoc(steps: seq<Step>, s: Step, name: string, id: EntryId)
    ensures Reclaimed(steps + [s], name, id) <==> Reclaimed(steps, name, id) || Reclaims(s, name, id)
  {
    var all := steps + [s];
    if Reclaimed(steps, name, id) {
      var k :| 0 <= k < |steps| && Reclaims(steps[k], name, id);
      assert Reclaims(all[k], name, id);
    }
    if Reclaims(s, name, id) {
      assert Reclaims(all[|steps|], name, id);
    }
  }

  lemma OpBacked(w: World, steps: seq<Step>, name: string, op: Op, id: EntryId)
    requires w.first <= |w.log| && name in w.groups && Backed(w, steps, name)
    requires id in GroupStep(w.log, w.first, w.groups[name], op).ledger.acked
    ensures OnRecord(GroupStep(w.log, w.first, w.groups[name], op), id) || Reclaimed(steps + [At(name, op)], name, id)
  {
    ReclaimedSnoc(steps, At(name, op), name, id);
    if id in w.groups[name].ledger.acked {
      if OnRecord(w.groups[name], id) {
        RecordStays(w.log, w.first, w.groups[name], op, id);
      }
    } else {
      StepAcks(w.log, w.first, w.groups[name], op, id);
    }
  }

  lemma StepBacked(w: World, steps: seq<Step>, s: Step, name: string)
    requires w.first <= |w.log| && Backed(w, steps, name)
    ensures Backed(Apply(w, s), steps + [s], name)
  {
    var v := Apply(w, s);
    if name in v.groups {
      forall id | id in v.groups[name].ledger.acked
        ensures OnRecord(v.groups[name], id) || Reclaimed(steps + [s], name, id)
      {
        if s.At? && s.group == name {
          OpBacked(w, steps, name, s.op, id);
        } else {
          OtherBacked(w, steps, s, name, id);
        }
      }
    }
  }

  lemma OtherBacked(w: World, steps: seq<Step>, s: Step, name: string, id: EntryId)
    requires w.first <= |w.log| && Backed(w, steps, name) && !(s.At? && s.group == name)
    requires name in Apply(w, s).groups && id in Apply(w, s).groups[name].ledger.acked
    ensures OnRecord(Apply(w, s).groups[name], id) || Reclaimed(steps + [s], name, id)
  {
    ReclaimedSnoc(steps, s, name, id);
    var g, h := w.groups[name], Apply(w, s).groups[name];
    assert h.agents == g.agents && id in g.ledger.acked;
    if OnRecord(g, id) {
      var c :| c in g.agents && Acked(id) in g.agents[c].trace;
      assert c in h.agents;
    }
  }

  lemma {:induction false} RunBacked(w: World, steps: seq<Step>, name: string)
    requires Initial(w)
    ensures Backed(Run(w, steps), steps, name)
  {
    if steps != [] {
      var before, last := steps[..|steps| - 1], steps[|steps| - 1];
      RunBacked(w, before, name);
      StepBacked(Run(w, before), before, last, name);
      assert before + [last] == steps;
    }
  }

  // ---- acknowledged is resolved --------------------------------------------------

  /** An id whose acknowledgement an agent recorded is resolved on that record, and only such an id is settled. */
  lemma SettledIsRecorded(w: World, steps: seq<Step>, name: string, id: EntryId)
    requires Initial(w) && name in Run(w, steps).groups
    ensures Settled(Run(w, steps).groups[name], id) <==> OnRecord(Run(w, steps).groups[name], id)
  {
    var g := Run(w, steps).groups[name];
    if OnRecord(g, id) {
      var c :| c in g.agents && Acked(id) in g.agents[c].trace;
      var k :| 0 <= k < |g.agents[c].trace| && g.agents[c].trace[k] == Acked(id);
      AcknowledgedWasResolved(w, steps, name, c, k);
      RunKeeps(w, steps);
      ResolvedStays(g.agents[c].trace, g.dests, k);
    }
  }

  lemma ResolvedStays(trace: seq<Event>, dests: seq<string>, k: nat)
    requires k < |trace| && trace[k].Acked? && Resolved(trace[..k], trace[k].id, dests)
    requires DestsOf(trace, trace[k].id) == DestsOf(trace[..k], trace[k].id)
    requires AcksFollow(trace, dests)
    ensures Resolved(trace, trace[k].id, dests)
  {
    var id := trace[k].id;
    if Unprocessable(id) in trace {
      var m :| 0 <= m < |trace| && trace[m] == Unprocessable(id);
      assert m < k && trace[..k][m] == Unprocessable(id);
    }
  }

  /** Every entry the server shows as acknowledged was resolved and recorded by an agent, or reclaimed. */
  lemma AcknowledgedIsSettled(w: World, steps: seq<Step>, name: string, id: EntryId)
    requires Initial(w) && name in Run(w, steps).groups && id in Run(w, steps).groups[name].ledger.acked
    ensures Settled(Run(w, steps).groups[name], id) || Reclaimed(steps, name, id)
  {
    RunBacked(w, steps, name);
    SettledIsRecorded(w, steps, name, id);
  }

  ghost predicate AllSettled(g: Group) {
    forall id :: id in g.ledger.acked ==> Settled(g, id)
  }

  // ---- exactly where -------------------------------------------------------------

  /** Reclaim passes acknowledge entries of these groups only. */
  ghost predicate Serves(steps: seq<Step>, served: set<string>) {
    forall k :: 0 <= k < |steps| && steps[k].At? && steps[k].op.ReclaimAck? && steps[k].op.applied ==>
      steps[k].group in served
  }

  const STOLEN: Entry := Entry(1, true)

  /** An agent reads an entry and is cancelled before it begins; a reclaimer claims the entry and acknowledges it. */
  function StolenOps(): seq<Op> {
    [Start("a"), Read("a", 0, 0, false), Cancel("a"),
     Start("r"), ClaimPage("r", 0, 10, 1, 10), ReclaimAck("r", 1, true)]
  }

  /** The entry is pending for the agent, and nothing is on record or acknowledged. */
  ghost predicate Holding(g: Group, agents: set<string>) {
    && g.ledger.pending == map[1 := Claim("a", 0)] && g.ledger.acked == {} && g.agents.Keys == agents
    && forall c :: c in g.agents ==> g.agents[c].trace == [] && g.agents[c].claimed == {}
  }

  /** The agent is started on a group that has seen nothing. */
  ghost predicate Begun(g: Group) {
    g.ledger == NewGroup([], ["d"]).ledger && g.agents.Keys == {"a"} && g.agents["a"] == NEW_AGENT
  }

  lemma StartBegins(log: seq<Entry>, g: Group)
    requires g == NewGroup([], ["d"])
    ensures Begun(GroupStep(log, 0, g, Start("a")))
  {
  }

  lemma ReadHolds(log: seq<Entry>, g: Group)
    requires log == [STOLEN] && Begun(g)
    ensures Holding(GroupStep(log, 0, g, Read("a", 0, 0, false)), {"a"})
  {
    FirstBatch(log, Deliver(g.ledger, Batch(log, 0, g.ledger.cursor, 0), "a", 0), g.ledger);
  }

  lemma AfterRead(log: seq<Entry>, g: Group)
    requires log == [STOLEN] && g == NewGroup([], ["d"])
    ensures Holding(GroupRun(log, 0, g, StolenOps()[..2]), {"a"})
  {
    var g1 := OneOp(log, g, StolenOps(), 0);
    StartBegins(log, g);
    var g2 := OneOp(log, g, StolenOps(), 1);
    ReadHolds(log, g1);
  }

  lemma CancelHolds(log: seq<Entry>, g: Group)
    requires Holding(g, {"a"})
    ensures Holding(GroupStep(log, 0, g, Cancel("a")), {"a"})
  {
  }

  lemma StartHolds(log: seq<Entry>, g: Group)
    requires Holding(g, {"a"})
    ensures Holding(GroupStep(log, 0, g, Start("r")), {"a", "r"})
  {
  }

  /** The group just before the claim. */
  lemma BeforeClaim(log: seq<Entry>, g: Group) returns (h: Group)
    requires log == [STOLEN] && g == NewGroup([], ["d"])
    ensures h == GroupRun(log, 0, g, StolenOps()[..4]) && Holding(h, {"a", "r"})
  {
    AfterCancel(log, g);
    h := OneOp(log, g, StolenOps(), 3);
    StartHolds(log, GroupRun(log, 0, g, StolenOps()[..3]));
  }

  lemma AfterCancel(log: seq<Entry>, g: Group)
    requires log == [STOLEN] && g == NewGroup([], ["d"])
    ensures Holding(GroupRun(log, 0, g, StolenOps()[..3]), {"a"})
  {
    AfterRead(log, g);
    var h := OneOp(log, g, StolenOps(), 2);
    CancelHolds(log, GroupRun(log, 0, g, StolenOps()[..2]));
  }

  lemma FirstBatch(log: seq<Entry>, after: Ledger, before: Ledger)
    requires log == [STOLEN] && before == NewGroup([], ["d"]).ledger
    requires after == Deliver(before, Batch(log, 0, before.cursor, 0), "a", 0)
    ensures after.pending == map[1 := Claim("a", 0)] && after.acked == {}
  {
    assert Batch(log, 0, 0, 0) == log[0..] == [STOLEN];
    assert Ids([STOLEN]) == [1];
  }

  lemma OneOp(log: seq<Entry>, g: Group, ops: seq<Op>, i: nat) returns (h: Group)
    requires i < |ops|
    ensures h == GroupRun(log, 0, g, ops[..i + 1]) == GroupStep(log, 0, GroupRun(log, 0, g, ops[..i]), ops[i])
  {
    GroupRunSnoc(log, 0, g, ops[..i], ops[i]);
    assert ops[..i] + [ops[i]] == ops[..i + 1];
    h := GroupRun(log, 0, g, ops[..i + 1]);
  }

  /** The claim takes the entry, and the acknowledgement follows. */
  ghost predicate Taken(g: Group) {
    && g.ledger.pending.Keys == {1} && g.agents.Keys == {"a", "r"} && 1 in g.agents["r"].claimed
    && forall c :: c in g.agents ==> g.agents[c].trace == []
  }

  lemma ClaimTakes(log: seq<Entry>, g: Group)
    requires log == [STOLEN] && Holding(g, {"a", "r"})
    ensures Taken(GroupStep(log, 0, g, ClaimPage("r", 0, 10, 1, 10)))
  {
    ClaimsIt(log, g.ledger.pending);
  }

  lemma ClaimsIt(log: seq<Entry>, pending: map<EntryId, Claim>)
    requires log == [STOLEN] && pending == map[1 := Claim("a", 0)]
    ensures AutoClaim(log, 0, pending, 0, 10, 10, 1) == Page([1], {}, 0)
  {
    assert log[0].id == 1;
    assert Scan(log, 0, 1, pending, 0, 10, 10, 0, 9) == Page([], {}, 0);
    assert [1] + [] == [1];
  }

  lemma AckTakes(log: seq<Entry>, g: Group)
    requires Taken(g)
    ensures var h := GroupStep(log, 0, g, ReclaimAck("r", 1, true)); 1 in h.ledger.acked && !OnRecord(h, 1)
  {
  }

  lemma Stolen(log: seq<Entry>, g: Group)
    requires log == [STOLEN] && g == NewGroup([], ["d"])
    ensures var h := GroupRun(log, 0, g, StolenOps()); 1 in h.ledger.acked && !OnRecord(h, 1)
  {
    var ops := StolenOps();
    var h := BeforeClaim(log, g);
    ClaimTakes(log, h);
    var g5 := OneOp(log, g, ops, 4);
    AckTakes(log, g5);
    var g6 := OneOp(log, g, ops, 5);
    assert ops[..6] == ops;
  }

  /** The run of the stream that it takes, for a group of any name. */
  lemma StolenRun(name: string) returns (w: World, steps: seq<Step>)
    ensures Initial(w) && Serves(steps, {name}) && name in Run(w, steps).groups
    ensures 1 in Run(w, steps).groups[name].ledger.acked && !OnRecord(Run(w, steps).groups[name], 1)
  {
    w := World([], 0, map[]);
    var make: seq<Step> := [Create(name, ["d"])] + [Append(STOLEN)];
    var g := NewGroup([], ["d"]);
    RunAppend(w, [Create(name, ["d"])], [Append(STOLEN)]);
    OneStep(w, Create(name, ["d"]));
    OneStep(Apply(w, Create(name, ["d"])), Append(STOLEN));
    var v := Run(w, make);
    assert v.log == [STOLEN] && v.first == 0 && v.groups == map[name := g];
    RunAppend(w, make, AtAll(name, StolenOps()));
    GroupRunIsRun(v, name, StolenOps());
    Stolen(v.log, g);
    steps := make + AtAll(name, StolenOps());
  }

  /** In every run of a deployment, what the server acknowledged in this group an agent had settled. */
  ghost predicate AlwaysSettled(name: string, served: set<string>) {
    forall w, steps :: Initial(w) && Serves(steps, served) && name in Run(w, steps).groups ==>
      AllSettled(Run(w, steps).groups[name])
  }

  /** That holds exactly for the groups that no reclaim task is given. */
  lemma SettledExactly(name: string, served: set<string>)
    ensures AlwaysSettled(name, served) <==> name !in served
  {
    if name in served {
      var w, steps := StolenRun(name);
      ServesMore(steps, {name}, served);
      assert !Settled(Run(w, steps).groups[name], 1);
    } else {
      forall w, steps | Initial(w) && Serves(steps, served) && name in Run(w, steps).groups
        ensures AllSettled(Run(w, steps).groups[name])
      {
        UnservedSettled(w, steps, name, served);
      }
    }
  }

  lemma ServesMore(steps: seq<Step>, few: set<string>, many: set<string>)
    requires Serves(steps, few) && few <= many
    ensures Serves(steps, many)
  {
  }

  lemma UnservedSettled(w: World, steps: seq<Step>, name: string, served: set<string>)
    requires Initial(w) && Serves(steps, served) && name !in served && name in Run(w, steps).groups
    ensures AllSettled(Run(w, steps).groups[name])
  {
    forall id | id in Run(w, steps).groups[name].ledger.acked ensures Settled(Run(w, steps).groups[name], id) {
      AcknowledgedIsSettled(w, steps, name, id);
    }
  }
}
