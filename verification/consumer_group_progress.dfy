/**
 What a read hands out, in number too, and that reading gets a group through its backlog.
 */
module ConsumerGroupProgress {
  import opened Prelude
  import opened ConsumerGroup
  import opened ConsumerGroupSafety
  import opened ConsumerGroupTheorems

  // ---- how many entries a read returns --------------------------------------------

  /** The surviving positions of the log above a cursor. */
  ghost function UnreadAt(log: seq<Entry>, first: nat, cursor: EntryId): set<nat> {
    set k: nat | first <= k < |log| && log[k].id > cursor
  }

  ghost function Unread(log: seq<Entry>, first: nat, cursor: EntryId): nat { |UnreadAt(log, first, cursor)| }

  /** How many of `u` entries a read asks for. */
  function Asked(count: int, u: nat): nat { if 0 < count < u then count else u }

  function Between(i: nat, j: nat): (s: set<nat>)
    requires i <= j
    ensures |s| == j - i && forall k :: k in s <==> i <= k < j
  {
    if i == j then {} else Between(i, j - 1) + {j - 1}
  }

  /** From the first unread position on, everything is unread. */
  lemma UnreadFrom(log: seq<Entry>, first: nat, cursor: EntryId, j: nat)
    requires Sorted(log) && first <= j <= |log| && (forall k :: first <= k < j ==> log[k].id <= cursor)
    requires j < |log| ==> log[j].id > cursor
    ensures UnreadAt(log, first, cursor) == Between(j, |log|) && Unread(log, first, cursor) == |log| - j
  {
    forall k | j <= k < |log| ensures log[k].id > cursor {
      assert log[j].id <= log[k].id;
    }
  }

  lemma BatchLength(log: seq<Entry>, first: nat, cursor: EntryId, count: int)
    requires first <= |log|
    ensures |Batch(log, first, cursor, count)| == Asked(count, |log| - FirstAbove(log, first, cursor))
  {
  }

  /**
   A read returns the entries above the cursor, in order and from the first one that survives, and as many of them as it
   asks for: all of them without a positive count, and no more than the count with one.
   */
  lemma BatchExactly(log: seq<Entry>, first: nat, cursor: EntryId, count: int) returns (j: nat)
    requires Sorted(log) && first <= |log|
    ensures IsNext(log, first, cursor, j, Batch(log, first, cursor, count))
    ensures |Batch(log, first, cursor, count)| == Asked(count, Unread(log, first, cursor))
  {
    j := BatchIsNext(log, first, cursor, count);
    UnreadFrom(log, first, cursor, FirstAbove(log, first, cursor));
    BatchLength(log, first, cursor, count);
  }

  // ---- one read ---------------------------------------------------------------------

  /** The agent's loop is at its read. */
  ghost predicate AtRead(g: Group, c: string) {
    c in g.agents && g.agents[c].phase == Idle && g.agents[c].inbox == [] && !g.agents[c].cancelled
  }

  /** What is unread above the last entry of the next stretch of the log. */
  lemma UnreadPast(log: seq<Entry>, first: nat, cursor: EntryId, j: nat, batch: seq<Entry>)
    requires Sorted(log) && first <= |log| && IsNext(log, first, cursor, j, batch) && batch != []
    ensures var last := batch[|batch| - 1].id;
      last > cursor && Unread(log, first, last) == Unread(log, first, cursor) - |batch|
  {
    var i := j + |batch|;
    assert batch[|batch| - 1] == log[i - 1];
    UnreadFrom(log, first, cursor, j);
    forall k | first <= k < i ensures log[k].id <= log[i - 1].id {
    }
    UnreadFrom(log, first, log[i - 1].id, i);
  }

  lemma DeliverAdvances(log: seq<Entry>, first: nat, l: Ledger, j: nat, batch: seq<Entry>, c: string, now: int)
    requires Sorted(log) && first <= |log| && IsNext(log, first, l.cursor, j, batch)
    ensures var m := Deliver(l, batch, c, now);
      && Unread(log, first, m.cursor) == Unread(log, first, l.cursor) - |batch|
      && (batch != [] ==> m.cursor > l.cursor)
  {
    if batch != [] {
      UnreadPast(log, first, l.cursor, j, batch);
    }
  }

  /** The batch is delivered: pending for the reader since now, and in its inbox unless the reply was lost. */
  ghost predicate HandedOut(g: Group, h: Group, c: string, now: int, lost: bool, batch: seq<Entry>) {
    && DeliveredTo(g.ledger, h.ledger, c, now, Ids(batch))
    && c in h.agents && h.agents[c].inbox == if lost then [] else batch
  }

  ghost predicate DeliveredTo(l: Ledger, m: Ledger, c: string, now: int, ids: seq<EntryId>) {
    && m.delivered == l.delivered + ids
    && (forall id :: id in m.pending <==> id in l.pending || id in ids)
    && (forall id :: id in m.pending ==> m.pending[id] == if id in ids then Claim(c, now) else l.pending[id])
  }

  /** A read takes the next unread entries, as many as it asks for, and leaves the others unread. */
  ghost predicate Took(log: seq<Entry>, first: nat, g: Group, h: Group, count: int, j: nat, batch: seq<Entry>) {
    var u := Unread(log, first, g.ledger.cursor);
    && IsNext(log, first, g.ledger.cursor, j, batch) && |batch| == Asked(count, u)
    && Unread(log, first, h.ledger.cursor) == u - Asked(count, u)
    && (u > 0 ==> h.ledger.cursor > g.ledger.cursor)
  }

  lemma ReadTakes(log: seq<Entry>, first: nat, g: Group, c: string, count: int, now: int, lost: bool)
    returns (j: nat, batch: seq<Entry>)
    requires Sorted(log) && first <= |log| && AtRead(g, c)
    ensures var h := GroupStep(log, first, g, Read(c, count, now, lost));
      Took(log, first, g, h, count, j, batch) && HandedOut(g, h, c, now, lost, batch)
  {
    j := BatchExactly(log, first, g.ledger.cursor, count);
    batch := Batch(log, first, g.ledger.cursor, count);
    DeliverAdvances(log, first, g.ledger, j, batch, c, now);
    Delivers(g.ledger, batch, c, now);
    ReadIs(log, first, g, c, count, now, lost, batch);
  }

  lemma ReadIs(log: seq<Entry>, first: nat, g: Group, c: string, count: int, now: int, lost: bool, batch: seq<Entry>)
    requires first <= |log| && AtRead(g, c) && batch == Batch(log, first, g.ledger.cursor, count)
    ensures var h := GroupStep(log, first, g, Read(c, count, now, lost));
      && h.ledger == Deliver(g.ledger, batch, c, now)
      && c in h.agents && h.agents[c].inbox == if lost then [] else batch
  {
  }

  lemma Delivers(l: Ledger, batch: seq<Entry>, c: string, now: int)
    ensures DeliveredTo(l, Deliver(l, batch, c, now), c, now, Ids(batch))
  {
    assert batch == [] ==> l.delivered + Ids(batch) == l.delivered;
  }

  // ---- in a world ---------------------------------------------------------------------

  ghost function UnreadIn(w: World, name: string): nat
    requires name in w.groups
  {
    Unread(w.log, w.first, w.groups[name].ledger.cursor)
  }

  /** The read of one world that leaves another. */
  ghost predicate ReadBetween(v: World, u: World, name: string, c: string, count: int, now: int, lost: bool, j: nat,
                              batch: seq<Entry>) {
    && name in v.groups && name in u.groups && u.log == v.log && u.first == v.first
    && Took(v.log, v.first, v.groups[name], u.groups[name], count, j, batch)
    && HandedOut(v.groups[name], u.groups[name], c, now, lost, batch)
  }

  lemma WorldRead(v: World, name: string, c: string, count: int, now: int, lost: bool)
    returns (j: nat, batch: seq<Entry>)
    requires v.first <= |v.log| && Sorted(v.log) && name in v.groups && AtRead(v.groups[name], c)
    ensures ReadBetween(v, Apply(v, At(name, Read(c, count, now, lost))), name, c, count, now, lost, j, batch)
  {
    j, batch := ReadTakes(v.log, v.first, v.groups[name], c, count, now, lost);
    StepAt(v, name, Read(c, count, now, lost));
  }

  lemma StepAt(v: World, name: string, op: Op)
    requires v.first <= |v.log| && name in v.groups
    ensures var u := Apply(v, At(name, op));
      && u.log == v.log && u.first == v.first && name in u.groups
      && u.groups[name] == GroupStep(v.log, v.first, v.groups[name], op)
  {
  }

  /**
   From any reachable state a read by an agent that is at its read takes as many unread entries as it asks for, answered
   or not: they become pending for the agent, the cursor moves past them, and no others.
   */
  lemma ReadMakesProgress(w: World, steps: seq<Step>, name: string, c: string, count: int, now: int, lost: bool)
    returns (j: nat, batch: seq<Entry>)
    requires Initial(w) && name in Run(w, steps).groups && AtRead(Run(w, steps).groups[name], c)
    ensures var v, u := Run(w, steps), Run(w, steps + [At(name, Read(c, count, now, lost))]);
      ReadBetween(v, u, name, c, count, now, lost, j, batch)
  {
    RunKeeps(w, steps);
    RunSnoc(w, steps, At(name, Read(c, count, now, lost)));
    j, batch := WorldRead(Run(w, steps), name, c, count, now, lost);
  }

  // ---- what does not add to the backlog -----------------------------------------------

  lemma CursorGrows(log: seq<Entry>, first: nat, g: Group, op: Op)
    requires Sorted(log) && first <= |log|
    ensures GroupStep(log, first, g, op).ledger.cursor >= g.ledger.cursor
  {
    if op.Read? {
      var j := BatchIsNext(log, first, g.ledger.cursor, op.count);
      var batch := Batch(log, first, g.ledger.cursor, op.count);
      if batch != [] {
        assert batch[|batch| - 1] == log[j + |batch| - 1];
      }
    }
  }

  lemma FewerUnread(log: seq<Entry>, first: nat, cursor: EntryId, later: nat, above: EntryId)
    requires first <= later && cursor <= above
    ensures Unread(log, later, above) <= Unread(log, first, cursor)
  {
    Fewer(UnreadAt(log, later, above), UnreadAt(log, first, cursor));
  }

  ghost predicate NoAppend(steps: seq<Step>) { forall i :: 0 <= i < |steps| ==> !steps[i].Append? }

  lemma StepAddsNone(w: World, s: Step, name: string)
    requires WorldOk(w) && name in w.groups && !s.Append?
    ensures name in Apply(w, s).groups && UnreadIn(Apply(w, s), name) <= UnreadIn(w, name)
  {
    if s.At? && s.group == name {
      CursorGrows(w.log, w.first, w.groups[name], s.op);
    }
    var v := Apply(w, s);
    FewerUnread(w.log, w.first, w.groups[name].ledger.cursor, v.first, v.groups[name].ledger.cursor);
  }

  /** Only appends add to what a group has not read. */
  lemma {:induction false} RunAddsNone(w: World, steps: seq<Step>, name: string)
    requires WorldOk(w) && name in w.groups && NoAppend(steps)
    ensures name in Run(w, steps).groups && UnreadIn(Run(w, steps), name) <= UnreadIn(w, name)
  {
    if steps != [] {
      var before := steps[..|steps| - 1];
      RunAddsNone(w, before, name);
      RunKeeps(w, before);
      StepAddsNone(Run(w, before), steps[|steps| - 1], name);
    }
  }
}
