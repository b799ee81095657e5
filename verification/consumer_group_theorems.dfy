/**
 The consumer-group protocol over whole runs.
 */
module ConsumerGroupTheorems {
  import opened ConsumerGroup
  import opened ConsumerGroupSafety
  import opened ConsumerGroupAgents

  // ---- reachable states -----------------------------------------------------

  ghost predicate WorldOk(w: World) {
    && w.first <= |w.log| && Sorted(w.log)
    && forall name :: name in w.groups ==> GroupOk(w.log, w.first, w.groups[name])
  }

  lemma NewGroupOk(log: seq<Entry>, first: nat, dests: seq<string>)
    requires Sorted(log)
    ensures GroupOk(log, first, NewGroup(log, dests))
  {
    assert forall i :: 0 <= i < |log| ==> log[i].id <= LastId(log);
  }

  lemma AppendStepKeeps(w: World, e: Entry)
    requires WorldOk(w) && CanAppend(w.log, e)
    ensures WorldOk(w.(log := w.log + [e]))
  {
    assert Sorted(w.log + [e]);
    forall name | name in w.groups ensures GroupOk(w.log + [e], w.first, w.groups[name]) {
      AppendKeeps(w.log, w.first, e, w.groups[name].ledger);
    }
  }

  lemma TrimStepKeeps(w: World, upTo: nat)
    requires WorldOk(w) && CanTrim(w.log, w.first, upTo)
    ensures WorldOk(Apply(w, Trim(upTo)))
  {
    var v := Apply(w, Trim(upTo));
    forall name | name in v.groups ensures GroupOk(v.log, v.first, v.groups[name]) {
      TrimKeeps(w.log, w.first, upTo, w.groups[name].ledger);
      assert GroupOk(w.log, w.first, w.groups[name]);
    }
  }

  lemma StepKeeps(w: World, step: Step)
    requires WorldOk(w)
    ensures WorldOk(Apply(w, step))
  {
    match step {
      case Append(e) => if CanAppend(w.log, e) { AppendStepKeeps(w, e); }
      case Trim(upTo) => if CanTrim(w.log, w.first, upTo) { TrimStepKeeps(w, upTo); }
      case Create(name, dests) => NewGroupOk(w.log, w.first, dests);
      case At(name, op) => if name in w.groups { GroupStepKeeps(w.log, w.first, w.groups[name], op); }
    }
  }

  lemma {:induction false} RunKeeps(w: World, steps: seq<Step>)
    requires Initial(w) || WorldOk(w)
    ensures WorldOk(Run(w, steps))
  {
    if steps != [] {
      RunKeeps(w, steps[..|steps| - 1]);
      StepKeeps(Run(w, steps[..|steps| - 1]), steps[|steps| - 1]);
    }
  }

  /** Taking a and then b is taking both. */
  ghost predicate Goes(w: World, a: seq<Step>, b: seq<Step>)
    requires w.first <= |w.log|
  {
    Run(w, a + b) == Run(Run(w, a), b)
  }

  lemma GoesSnoc(w: World, a: seq<Step>, b: seq<Step>, s: Step)
    requires w.first <= |w.log| && Goes(w, a, b)
    ensures Goes(w, a, b + [s])
  {
    RunSnoc(w, a + b, s);
    RunSnoc(Run(w, a), b, s);
    assert a + b + [s] == a + (b + [s]);
  }

  lemma {:induction false} RunAppend(w: World, a: seq<Step>, b: seq<Step>)
    requires w.first <= |w.log|
    ensures Goes(w, a, b)
  {
    if b == [] {
      assert a + b == a;
    } else {
      var before, last := b[..|b| - 1], b[|b| - 1];
      RunAppend(w, a, before);
      GoesSnoc(w, a, before, last);
      assert before + [last] == b;
    }
  }

  lemma OneStep(w: World, s: Step)
    requires w.first <= |w.log|
    ensures Run(w, [s]) == Apply(w, s)
  {
    assert [s][..0] == [];
  }

  /** A group's own steps as steps of the stream. */
  function AtAll(name: string, ops: seq<Op>): (steps: seq<Step>)
    ensures |steps| == |ops| && forall i :: 0 <= i < |ops| ==> steps[i] == At(name, ops[i])
  {
    seq(|ops|, i requires 0 <= i < |ops| => At(name, ops[i]))
  }

  /** What a group does on its own is a run of the stream, so whatever holds of all runs holds of it. */
  lemma {:induction false} GroupRunIsRun(w: World, name: string, ops: seq<Op>)
    requires w.first <= |w.log| && name in w.groups
    ensures Run(w, AtAll(name, ops)) ==
      w.(groups := w.groups[name := GroupRun(w.log, w.first, w.groups[name], ops)])
  {
    if ops == [] {
      assert w.groups[name := w.groups[name]] == w.groups;
    } else {
      var before, steps := ops[..|ops| - 1], AtAll(name, ops);
      GroupRunIsRun(w, name, before);
      assert steps[..|ops| - 1] == AtAll(name, before);
      var g := GroupRun(w.log, w.first, w.groups[name], before);
      var h := GroupStep(w.log, w.first, g, ops[|ops| - 1]);
      assert w.groups[name := g][name := h] == w.groups[name := h];
    }
  }

  // ---- every entry is accounted for -----------------------------------------

  /** What an entry is to a group. `Cleared` is an entry trimmed while pending and dropped by a claim scan. */
  datatype Class = Unread | LostUnread | Pending | Acknowledged | Cleared

  ghost predicate InClass(log: seq<Entry>, first: nat, l: Ledger, i: nat, c: Class)
    requires i < |log|
  {
    var id := log[i].id;
    match c
    case Unread => first <= i && id > l.cursor
    case LostUnread => i < first && id in l.lost
    case Pending => id in l.pending
    case Acknowledged => id in l.acked
    case Cleared => id in l.purged
  }

  lemma FindClass(log: seq<Entry>, first: nat, l: Ledger, i: nat) returns (c: Class)
    requires LedgerOk(log, first, l) && i < |log| && log[i].id > l.start
    ensures InClass(log, first, l, i, c) && forall d :: InClass(log, first, l, i, d) ==> d == c
  {
    var id := log[i].id;
    assert id in l.delivered <==> id in l.pending || id in l.acked || id in l.purged;
    assert id in l.delivered ==> id <= l.cursor && id !in l.lost;
    c := if id in l.pending then Pending else if id in l.acked then Acknowledged
         else if id in l.purged then Cleared else if id in l.lost then LostUnread else Unread;
  }

  /** In every reachable state an entry appended after the group's start is in exactly one class. */
  lemma ExactlyOneClass(w: World, steps: seq<Step>, name: string, i: nat) returns (c: Class)
    requires Initial(w)
    requires var v := Run(w, steps); name in v.groups && i < |v.log| && v.log[i].id > v.groups[name].ledger.start
    ensures var v := Run(w, steps);
      var l := v.groups[name].ledger;
      InClass(v.log, v.first, l, i, c) && forall d :: InClass(v.log, v.first, l, i, d) ==> d == c
  {
    RunKeeps(w, steps);
    var v := Run(w, steps);
    assert GroupOk(v.log, v.first, v.groups[name]);
    c := FindClass(v.log, v.first, v.groups[name].ledger, i);
  }

  /** The moves one step can make: an entry is read or lost, then acknowledged or cleared, and never returns. */
  predicate Moves(c: Class, d: Class) {
    || c == d
    || (c == Unread && (d == Pending || d == LostUnread))
    || (c == Pending && (d == Acknowledged || d == Cleared))
  }

  /** What a group step does to an entry: it stays, is read, or leaves pending by an ack or a claim scan. */
  lemma StepMoves(log: seq<Entry>, first: nat, g: Group, op: Op, i: nat, c: Class, d: Class)
    requires Sorted(log) && first <= |log| && GroupOk(log, first, g) && i < |log| && log[i].id > g.ledger.start
    requires InClass(log, first, g.ledger, i, c)
    requires InClass(log, first, GroupStep(log, first, g, op).ledger, i, d)
    ensures Moves(c, d) && (c != d ==> d != LostUnread)
    ensures c == Unread && d == Pending ==> op.Read?
    ensures c == Pending && d == Cleared ==> op.ClaimPage? && i < first
    ensures c == Pending && d == Acknowledged ==> Acknowledges(g, op, log[i].id)
  {
    var l := g.ledger;
    var id := log[i].id;
    assert id in l.delivered <==> id in l.pending || id in l.acked || id in l.purged;
    assert id in l.delivered ==> id <= l.cursor && id !in l.lost;
    if op.Read? {
      ReadMoves(log, first, g, op, i);
    } else if op.ClaimPage? {
      ClaimMoves(log, first, g, op, i);
    } else {
      OtherMoves(log, first, g, op);
    }
  }

  /** A stream agent at the end of `handle`, or a reclaim pass over an entry it has claimed. */
  ghost predicate Acknowledges(g: Group, op: Op, id: EntryId) {
    && (op.Ack? || op.ReclaimAck?) && op.consumer in g.agents
    && (if op.Ack? then AckReady(g, g.agents[op.consumer]) && g.agents[op.consumer].phase.id == id
        else op.id == id && id in g.agents[op.consumer].claimed)
  }

  lemma OtherMoves(log: seq<Entry>, first: nat, g: Group, op: Op)
    requires first <= |log| && !op.Read? && !op.ClaimPage?
    ensures var m := GroupStep(log, first, g, op).ledger;
      m == g.ledger || exists id :: Acknowledges(g, op, id) && m == XAck(g.ledger, id)
  {
    var m := GroupStep(log, first, g, op).ledger;
    if m != g.ledger {
      var id := if op.Ack? then g.agents[op.consumer].phase.id else op.id;
      assert Acknowledges(g, op, id) && m == XAck(g.ledger, id);
    }
  }

  lemma NextMoves(log: seq<Entry>, first: nat, l: Ledger, j: nat, batch: seq<Entry>, c: string, now: int, i: nat)
    requires Sorted(log) && first <= |log| && i < |log| && IsNext(log, first, l.cursor, j, batch)
    ensures var m := Deliver(l, batch, c, now);
      && m.acked == l.acked && m.purged == l.purged && m.lost == l.lost && m.cursor >= l.cursor
      && (log[i].id in l.pending ==> log[i].id in m.pending)
      && (log[i].id in m.pending && log[i].id !in l.pending ==> first <= i && log[i].id > l.cursor)
  {
    NextIds(log, first, l.cursor, j, batch);
    if batch != [] {
      assert Ids(batch)[|batch| - 1] in Ids(batch);
    }
  }

  lemma ReadMoves(log: seq<Entry>, first: nat, g: Group, op: Op, i: nat)
    requires Sorted(log) && first <= |log| && i < |log| && op.Read?
    ensures var l := g.ledger;
      var m := GroupStep(log, first, g, op).ledger;
      && m.acked == l.acked && m.purged == l.purged && m.lost == l.lost && m.cursor >= l.cursor
      && (log[i].id in l.pending ==> log[i].id in m.pending)
      && (log[i].id in m.pending && log[i].id !in l.pending ==> first <= i && log[i].id > l.cursor)
  {
    var j := BatchIsNext(log, first, g.ledger.cursor, op.count);
    NextMoves(log, first, g.ledger, j, Batch(log, first, g.ledger.cursor, op.count), op.consumer, op.now, i);
  }

  lemma ClaimMoves(log: seq<Entry>, first: nat, g: Group, op: Op, i: nat)
    requires Sorted(log) && first <= |log| && GroupOk(log, first, g) && i < |log| && op.ClaimPage?
    ensures var l := g.ledger;
      var m := GroupStep(log, first, g, op).ledger;
      && m.acked == l.acked && m.lost == l.lost && m.cursor == l.cursor
      && (log[i].id in m.pending ==> log[i].id in l.pending)
      && (log[i].id in l.pending && log[i].id !in m.pending ==> log[i].id in m.purged && i < first)
      && (log[i].id in m.purged && log[i].id !in l.purged ==> log[i].id in l.pending && i < first)
  {
    ScanExact(log, first, 0, g.ledger.pending, op.from, op.minIdle, op.now, PageSize(op.count),
              10 * PageSize(op.count), i);
  }

  lemma TrimMoves(log: seq<Entry>, first: nat, upTo: nat, l: Ledger, i: nat, c: Class, d: Class)
    requires Sorted(log) && CanTrim(log, first, upTo) && LedgerOk(log, first, l) && i < |log| && log[i].id > l.start
    requires InClass(log, first, l, i, c) && InClass(log, upTo, NoteTrim(log, first, upTo, l), i, d)
    ensures Moves(c, d) && (c != d ==> c == Unread && first <= i < upTo)
  {
    var id := log[i].id;
    assert id in l.delivered <==> id in l.pending || id in l.acked || id in l.purged;
    assert id in l.delivered ==> id <= l.cursor && id !in l.lost;
  }

  ghost predicate ViewInClass(v: View, i: nat, c: Class) {
    v.group.Some? && i < |v.log| && InClass(v.log, v.first, v.group.value.ledger, i, c)
  }

  /** Any step of the stream moves an entry forward in the eyes of a group. */
  lemma SoloStepMoves(v: View, name: string, step: Step, i: nat, c: Class, d: Class)
    requires v.first <= |v.log| && Sorted(v.log) && v.group.Some? && GroupOk(v.log, v.first, v.group.value)
    requires ViewInClass(v, i, c) && ViewInClass(SoloStep(v, name, step), i, d)
    requires v.log[i].id > v.group.value.ledger.start
    ensures Moves(c, d)
  {
    var l := v.group.value.ledger;
    match step {
      case Append(e) => ClassIsUnique(v.log, v.first, l, i, c, d);
      case Trim(upTo) =>
        if CanTrim(v.log, v.first, upTo) { TrimMoves(v.log, v.first, upTo, l, i, c, d); }
        else { ClassIsUnique(v.log, v.first, l, i, c, d); }
      case Create(_, _) => ClassIsUnique(v.log, v.first, l, i, c, d);
      case At(other, op) =>
        if other == name { StepMoves(v.log, v.first, v.group.value, op, i, c, d); }
        else { ClassIsUnique(v.log, v.first, l, i, c, d); }
    }
  }

  lemma ClassIsUnique(log: seq<Entry>, first: nat, l: Ledger, i: nat, c: Class, d: Class)
    requires LedgerOk(log, first, l) && i < |log| && log[i].id > l.start
    requires InClass(log, first, l, i, c) && InClass(log, first, l, i, d)
    ensures c == d
  {
    var e := FindClass(log, first, l, i);
  }

  lemma KeepsGroup(w: World, step: Step, name: string)
    requires w.first <= |w.log| && name in w.groups
    ensures var v := Apply(w, step);
      name in v.groups && w.log <= v.log && v.groups[name].ledger.start == w.groups[name].ledger.start
  {
  }

  ghost predicate Follows(w: World, name: string, i: nat) {
    WorldOk(w) && name in w.groups && i < |w.log| && w.log[i].id > w.groups[name].ledger.start
  }

  lemma WorldStepMoves(w: World, step: Step, name: string, i: nat, c: Class, d: Class)
    requires Follows(w, name, i)
    requires ViewInClass(Project(w, name), i, c) && ViewInClass(Project(Apply(w, step), name), i, d)
    ensures Moves(c, d)
  {
    StepProjects(w, name, step);
    assert GroupOk(w.log, w.first, w.groups[name]);
    if Concerns(step, name) {
      SoloStepMoves(Project(w, name), name, step, i, c, d);
    } else {
      ClassIsUnique(w.log, w.first, w.groups[name].ledger, i, c, d);
    }
  }

  /** Where an entry can be later, given where it is now. */
  predicate Leads(c: Class, d: Class) { c == Unread || Moves(c, d) }

  lemma StepFollows(w: World, step: Step, name: string, i: nat)
    requires Follows(w, name, i)
    ensures Follows(Apply(w, step), name, i)
  {
    StepKeeps(w, step);
    KeepsGroup(w, step, name);
  }

  lemma StepAdvances(w: World, step: Step, name: string, i: nat, c: Class, d: Class)
    requires Follows(w, name, i) && forall e :: ViewInClass(Project(w, name), i, e) ==> Leads(c, e)
    ensures ViewInClass(Project(Apply(w, step), name), i, d) ==> Leads(c, d)
  {
    if ViewInClass(Project(Apply(w, step), name), i, d) {
      assert GroupOk(w.log, w.first, w.groups[name]);
      var e := FindClass(w.log, w.first, w.groups[name].ledger, i);
      assert ViewInClass(Project(w, name), i, e);
      WorldStepMoves(w, step, name, i, e, d);
    }
  }

  /** From any reachable state on, an entry only moves forward: acknowledged, lost and cleared are final. */
  lemma {:induction false} ClassesOnlyAdvance(w: World, steps: seq<Step>, name: string, i: nat, c: Class)
    requires Follows(w, name, i) && ViewInClass(Project(w, name), i, c)
    ensures Follows(Run(w, steps), name, i)
    ensures forall d :: ViewInClass(Project(Run(w, steps), name), i, d) ==> Leads(c, d)
  {
    if steps == [] {
      forall d | ViewInClass(Project(w, name), i, d) ensures c == d {
        ClassIsUnique(w.log, w.first, w.groups[name].ledger, i, c, d);
      }
    } else {
      var u := Run(w, steps[..|steps| - 1]);
      var last := steps[|steps| - 1];
      ClassesOnlyAdvance(w, steps[..|steps| - 1], name, i, c);
      StepFollows(u, last, name, i);
      forall d ensures ViewInClass(Project(Apply(u, last), name), i, d) ==> Leads(c, d) {
        StepAdvances(u, last, name, i, c, d);
      }
    }
  }

  // ---- each entry is handed out once, in order ------------------------------

  /** `>` reads give a group every entry after its start that was not trimmed first: once each, in id order. */
  lemma DeliveredOnceInOrder(w: World, steps: seq<Step>, name: string)
    requires Initial(w) && name in Run(w, steps).groups
    ensures var v := Run(w, steps);
      var l := v.groups[name].ledger;
      && Increasing(l.delivered)
      && (forall i :: 0 <= i < |v.log| && l.start < v.log[i].id <= l.cursor ==>
            (v.log[i].id in l.delivered <==> v.log[i].id !in l.lost))
      && (forall id :: id in l.delivered ==> l.start < id <= l.cursor && InLog(v.log, id))
  {
    RunKeeps(w, steps);
    assert GroupOk(Run(w, steps).log, Run(w, steps).first, Run(w, steps).groups[name]);
  }

  /** No entry is in the record of two consumers of one group. */
  lemma OneConsumerPerEntry(w: World, steps: seq<Step>, name: string, c: string, d: string, e: Event, f: Event)
    requires Initial(w) && name in Run(w, steps).groups
    requires var g := Run(w, steps).groups[name];
      c in g.agents && d in g.agents && c != d && e in g.agents[c].trace && f in g.agents[d].trace
    ensures e.id != f.id
  {
    RunKeeps(w, steps);
    var v := Run(w, steps);
    assert GroupOk(v.log, v.first, v.groups[name]);
    var g := v.groups[name];
    assert AgentOk(g.agents[c], g.dests) && AgentOk(g.agents[d], g.dests);
  }

  // ---- nothing is acknowledged unresolved -----------------------------------

  /**
   Whenever a stream agent acknowledged an id, its record up to then shows the entry as unprocessable, or
   one outcome from each configured destination in order; nothing about that id follows, so over
   the whole run these are all the outcomes it ever has. What an agent had not taken up when it was cancelled, or had
   not resolved when it crashed, it has not acknowledged.
   */
  lemma AcknowledgedWasResolved(w: World, steps: seq<Step>, name: string, c: string, k: nat)
    requires Initial(w) && name in Run(w, steps).groups
    requires var g := Run(w, steps).groups[name];
      c in g.agents && k < |g.agents[c].trace| && g.agents[c].trace[k].Acked?
    ensures var g := Run(w, steps).groups[name];
      var trace := g.agents[c].trace;
      var id := trace[k].id;
      && Resolved(trace[..k], id, g.dests)
      && DestsOf(trace, id) == DestsOf(trace[..k], id)
      && (forall m :: 0 <= m < |trace| && trace[m] == trace[k] ==> m == k)
  {
    RunKeeps(w, steps);
    var v := Run(w, steps);
    var g := v.groups[name];
    assert GroupOk(v.log, v.first, g) && AgentOk(g.agents[c], g.dests);
    var trace := g.agents[c].trace;
    DestsOfSuffix(trace, k, trace[k].id);
  }

  lemma {:induction false} DestsOfSuffix(trace: seq<Event>, k: nat, id: EntryId)
    requires k < |trace| && trace[k].Acked? && forall m :: k < m < |trace| ==> trace[m].id != id
    ensures DestsOf(trace, id) == DestsOf(trace[..k], id)
  {
    var before := trace[..|trace| - 1];
    if k < |before| {
      DestsOfSuffix(before, k, id);
      assert before[..k] == trace[..k];
    } else {
      assert before == trace[..k];
    }
  }

  // ---- groups do not interfere ----------------------------------------------

  lemma StepProjects(w: World, name: string, step: Step)
    requires w.first <= |w.log|
    ensures Project(Apply(w, step), name) ==
            if Concerns(step, name) then SoloStep(Project(w, name), name, step) else Project(w, name)
  {
  }

  /**
   Any interleaved run, seen from one group, is that group's own run over the same appends and
   trims: what the other groups did leaves no mark on its log, its books or its agents.
   */
  lemma {:induction false} GroupsDoNotInterfere(w: World, name: string, steps: seq<Step>)
    requires w.first <= |w.log|
    ensures Project(Run(w, steps), name) == SoloRun(Project(w, name), name, Concerning(steps, name))
  {
    if steps != [] {
      var before := steps[..|steps| - 1];
      var last := steps[|steps| - 1];
      GroupsDoNotInterfere(w, name, before);
      StepProjects(Run(w, before), name, last);
      var mine := Concerning(before, name);
      if Concerns(last, name) {
        assert (mine + [last])[..|mine|] == mine;
      }
    }
  }
}
