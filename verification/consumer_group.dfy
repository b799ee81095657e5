/**
 One Redis stream read through consumer groups, as a step system.

 The server side is an append-only log with prefix trimming and, for each group,
 a cursor and a pending list. The client side of a group is one program state
 per consumer: the batch still to handle and the delivery being resolved. Every
 step is a total function, a step whose guard fails changes nothing, so a run is
 any sequence of steps.

 An entry id is the rank of its `<ms>-<seq>` text (module StreamIds); 0 is "0-0".
 */
module ConsumerGroup {
  import opened Prelude

  type EntryId = nat

  datatype Entry = Entry(id: EntryId, processable: bool)

  datatype Result = Delivered | Dropped

  /** What a stream agent leaves on record, in order. */
  datatype Event =
    | Unprocessable(id: EntryId)
    | Outcome(id: EntryId, dest: string, result: Result)
    | Acked(id: EntryId)

  /** Where `handle` stands: nothing in hand, an unprocessable entry recorded, or `done` destinations resolved. */
  datatype Phase = Idle | Rejected(id: EntryId) | Sending(id: EntryId, done: nat)

  datatype Agent = Agent(
    inbox: seq<Entry>,
    phase: Phase,
    cancelled: bool,
    trace: seq<Event>,
    got: set<EntryId>,        // history: every id a read handed to this consumer
    claimed: set<EntryId>)    // entries a reclaim pass holds and has not acknowledged yet

  datatype Claim = Claim(owner: string, since: int)

  /** `delivered`, `acked`, `purged` and `lost` are history; the server keeps only the rest. */
  datatype Ledger = Ledger(
    start: EntryId,
    cursor: EntryId,
    pending: map<EntryId, Claim>,
    delivered: seq<EntryId>,
    acked: set<EntryId>,
    purged: set<EntryId>,
    lost: set<EntryId>)

  datatype Group = Group(ledger: Ledger, dests: seq<string>, agents: map<string, Agent>, consumers: map<string, int>)

  datatype World = World(log: seq<Entry>, first: nat, groups: map<string, Group>)

  /** What one group can see of the world. */
  datatype View = View(log: seq<Entry>, first: nat, group: Option<Group>)

  datatype Op =
    | Start(consumer: string)
    | Read(consumer: string, count: int, now: int, replyLost: bool)
    | Next(consumer: string)
    | Resolve(consumer: string, result: Result)
    | Ack(consumer: string, applied: bool)
    | Cancel(consumer: string)
    | ClaimPage(consumer: string, from: EntryId, minIdle: int, count: int, now: int)
    | ReclaimAck(consumer: string, id: EntryId, applied: bool)
    | Retire(consumer: string, retireIdle: int, now: int)

  datatype Step =
    | Append(entry: Entry)
    | Trim(upTo: nat)
    | Create(group: string, dests: seq<string>)
    | At(group: string, op: Op)

  // ---- server commands ------------------------------------------------------

  function LastId(log: seq<Entry>): EntryId {
    if log == [] then 0 else log[|log| - 1].id
  }

  /** First position at or after `i` whose id is above the cursor. */
  function FirstAbove(log: seq<Entry>, i: nat, cursor: EntryId): (j: nat)
    requires i <= |log|
    ensures i <= j <= |log|
    ensures forall k :: i <= k < j ==> log[k].id <= cursor
    ensures j < |log| ==> log[j].id > cursor
    decreases |log| - i
  {
    if i == |log| || log[i].id > cursor then i else FirstAbove(log, i + 1, cursor)
  }

  /**
   The reply to XREADGROUP `>`: the next surviving entries above the cursor. Without a positive count no COUNT is
   sent.
   */
  function Batch(log: seq<Entry>, first: nat, cursor: EntryId, count: int): seq<Entry>
    requires first <= |log|
  {
    var j := FirstAbove(log, first, cursor);
    if count <= 0 || |log| - j <= count then log[j..] else log[j..j + count]
  }

  function Ids(entries: seq<Entry>): (ids: seq<EntryId>)
    ensures |ids| == |entries| && forall k :: 0 <= k < |ids| ==> ids[k] == entries[k].id
  {
    seq(|entries|, k requires 0 <= k < |entries| => entries[k].id)
  }

  function Deliver(l: Ledger, batch: seq<Entry>, consumer: string, now: int): Ledger {
    if batch == [] then l else
    l.(cursor := batch[|batch| - 1].id,
       pending := l.pending + map id | id in Ids(batch) :: Claim(consumer, now),
       delivered := l.delivered + Ids(batch))
  }

  /** XACK: drops the entry from the pending list, whoever owns it; an entry not pending is left alone. */
  function XAck(l: Ledger, id: EntryId): Ledger {
    if id in l.pending then l.(pending := l.pending - {id}, acked := l.acked + {id}) else l
  }

  datatype Page = Page(claimed: seq<EntryId>, purged: set<EntryId>, next: EntryId)

  /**
   XAUTOCLAIM: walks the pending entries from `from` in id order. An entry whose stream entry is
   gone is cleared from the pending list, one idle for less than `minIdle` is passed over, any
   other is claimed. The walk stops after `count` claims or clears, or after `attempts` entries, and
   `next` is where it would continue; 0 means that it reached the end.
   */
  function Scan(log: seq<Entry>, first: nat, i: nat, pending: map<EntryId, Claim>, from: EntryId,
                minIdle: int, now: int, count: nat, attempts: nat): Page
    requires i <= |log|
    decreases |log| - i
  {
    if i == |log| then Page([], {}, 0) else
    var id := log[i].id;
    if id !in pending || id < from then Scan(log, first, i + 1, pending, from, minIdle, now, count, attempts)
    else if count == 0 || attempts == 0 then Page([], {}, id)
    else if i < first then
      var rest := Scan(log, first, i + 1, pending, from, minIdle, now, count - 1, attempts - 1);
      rest.(purged := rest.purged + {id})
    else if now - pending[id].since < minIdle then
      Scan(log, first, i + 1, pending, from, minIdle, now, count, attempts - 1)
    else
      var rest := Scan(log, first, i + 1, pending, from, minIdle, now, count - 1, attempts - 1);
      rest.(claimed := [id] + rest.claimed)
  }

  /**
   How many entries one XAUTOCLAIM may claim or clear: without a positive count no COUNT is sent, and Redis takes 100.
   */
  function PageSize(count: int): (size: nat)
    ensures size >= 1
  {
    if count > 0 then count else 100
  }

  function AutoClaim(log: seq<Entry>, first: nat, pending: map<EntryId, Claim>, from: EntryId,
                     minIdle: int, now: int, count: int): Page
  {
    Scan(log, first, 0, pending, from, minIdle, now, PageSize(count), 10 * PageSize(count))
  }

  function ApplyPage(l: Ledger, page: Page, consumer: string, now: int): Ledger {
    l.(pending := (l.pending + map id | id in page.claimed :: Claim(consumer, now)) - page.purged,
       purged := l.purged + page.purged)
  }

  /** Trimming moves the first surviving position; what a group had not read by then is lost to it. */
  function NoteTrim(log: seq<Entry>, first: nat, upTo: nat, l: Ledger): Ledger
    requires first <= upTo <= |log|
  {
    l.(lost := l.lost + set i | first <= i < upTo && log[i].id > l.cursor :: log[i].id)
  }

  predicate Holds(l: Ledger, consumer: string) {
    exists id :: id in l.pending && l.pending[id].owner == consumer
  }

  // ---- one group's steps ----------------------------------------------------

  const NEW_AGENT := Agent([], Idle, false, [], {}, {})

  function Record(a: Agent, e: Event, phase: Phase): Agent {
    a.(trace := a.trace + [e], phase := phase)
  }

  predicate AckReady(g: Group, a: Agent) {
    a.phase.Rejected? || (a.phase.Sending? && a.phase.done == |g.dests|)
  }

  function TakeNext(a: Agent): Agent
    requires a.inbox != []
  {
    var e := a.inbox[0];
    var rest := a.(inbox := a.inbox[1..]);
    if a.cancelled then a.(inbox := [])
    else if e.processable then rest.(phase := Sending(e.id, 0))
    else Record(rest, Unprocessable(e.id), Rejected(e.id))
  }

  function GroupStep(log: seq<Entry>, first: nat, g: Group, op: Op): Group
    requires first <= |log|
  {
    var c := op.consumer;
    var known := c in g.agents;
    var a := if known then g.agents[c] else NEW_AGENT;
    match op
    case Start(_) =>
      g.(agents := g.agents[c := NEW_AGENT.(trace := a.trace, got := a.got)])
    case Read(_, count, now, replyLost) =>
      if !known || a.phase != Idle || a.inbox != [] || a.cancelled then g else
      var batch := Batch(log, first, g.ledger.cursor, count);
      g.(ledger := Deliver(g.ledger, batch, c, now),
         consumers := g.consumers[c := now],
         agents := if replyLost then g.agents
                   else g.agents[c := a.(inbox := batch, got := a.got + (set id | id in Ids(batch)))])
    case Next(_) =>
      if !known || a.phase != Idle || a.inbox == [] then g else
      g.(agents := g.agents[c := TakeNext(a)])
    case Resolve(_, result) =>
      if !known || !a.phase.Sending? || a.phase.done >= |g.dests| then g else
      g.(agents := g.agents[c := Record(a, Outcome(a.phase.id, g.dests[a.phase.done], result),
                                           Sending(a.phase.id, a.phase.done + 1))])
    case Ack(_, applied) =>
      if !known || !AckReady(g, a) then g else
      g.(ledger := if applied then XAck(g.ledger, a.phase.id) else g.ledger,
         agents := g.agents[c := Record(a, Acked(a.phase.id), Idle)])
    case Cancel(_) =>
      if !known then g else g.(agents := g.agents[c := a.(cancelled := true)])
    case ClaimPage(_, from, minIdle, count, now) =>
      if !known then g else
      var page := AutoClaim(log, first, g.ledger.pending, from, minIdle, now, count);
      g.(ledger := ApplyPage(g.ledger, page, c, now),
         consumers := g.consumers[c := now],
         agents := g.agents[c := a.(claimed := a.claimed + (set id | id in page.claimed))])
    case ReclaimAck(_, id, applied) =>
      if !known || id !in a.claimed then g else
      g.(ledger := if applied then XAck(g.ledger, id) else g.ledger,
         agents := g.agents[c := a.(claimed := a.claimed - {id})])
    case Retire(_, retireIdle, now) =>
      if c !in g.consumers || Holds(g.ledger, c) || now - g.consumers[c] < retireIdle then g else
      g.(consumers := g.consumers - {c})
  }

  /** A group after some of its own steps, with the log as it is. */
  function GroupRun(log: seq<Entry>, first: nat, g: Group, ops: seq<Op>): Group
    requires first <= |log|
  {
    if ops == [] then g else GroupStep(log, first, GroupRun(log, first, g, ops[..|ops| - 1]), ops[|ops| - 1])
  }

  lemma GroupRunSnoc(log: seq<Entry>, first: nat, g: Group, ops: seq<Op>, op: Op)
    requires first <= |log|
    ensures GroupRun(log, first, g, ops + [op]) == GroupStep(log, first, GroupRun(log, first, g, ops), op)
  {
    assert (ops + [op])[..|ops|] == ops;
  }

  // ---- the whole stream -----------------------------------------------------

  function NewGroup(log: seq<Entry>, dests: seq<string>): Group {
    Group(Ledger(LastId(log), LastId(log), map[], [], {}, {}, {}), dests, map[], map[])
  }

  predicate CanAppend(log: seq<Entry>, e: Entry) { e.id > LastId(log) }

  predicate CanTrim(log: seq<Entry>, first: nat, upTo: nat) { first <= upTo <= |log| }

  function Apply(w: World, step: Step): World
    requires w.first <= |w.log|
  {
    match step
    case Append(e) => if CanAppend(w.log, e) then w.(log := w.log + [e]) else w
    case Trim(upTo) =>
      if !CanTrim(w.log, w.first, upTo) then w else
      w.(first := upTo,
         groups := map name | name in w.groups ::
           w.groups[name].(ledger := NoteTrim(w.log, w.first, upTo, w.groups[name].ledger)))
    case Create(name, dests) =>
      if name in w.groups then w else w.(groups := w.groups[name := NewGroup(w.log, dests)])
    case At(name, op) =>
      if name !in w.groups then w else
      w.(groups := w.groups[name := GroupStep(w.log, w.first, w.groups[name], op)])
  }

  function Run(w: World, steps: seq<Step>): (r: World)
    requires w.first <= |w.log|
    ensures r.first <= |r.log|
  {
    if steps == [] then w else Apply(Run(w, steps[..|steps| - 1]), steps[|steps| - 1])
  }

  lemma RunSnoc(w: World, steps: seq<Step>, last: Step)
    requires w.first <= |w.log|
    ensures Run(w, steps + [last]) == Apply(Run(w, steps), last)
  {
    assert (steps + [last])[..|steps|] == steps;
  }

  /** A stream that may already hold entries, before this service created any group on it. */
  predicate Initial(w: World) {
    w.groups == map[] && w.first <= |w.log| && Sorted(w.log)
  }

  predicate Sorted(log: seq<Entry>) {
    (forall i :: 0 <= i < |log| ==> log[i].id > 0) &&
    forall i, j :: 0 <= i < j < |log| ==> log[i].id < log[j].id
  }

  // ---- a group on its own ---------------------------------------------------

  function Project(w: World, name: string): View {
    View(w.log, w.first, if name in w.groups then Some(w.groups[name]) else None)
  }

  /** One step as a single group sees it: appends, trims and its own steps. */
  function SoloStep(v: View, name: string, step: Step): View
    requires v.first <= |v.log|
  {
    match step
    case Append(e) => if CanAppend(v.log, e) then v.(log := v.log + [e]) else v
    case Trim(upTo) =>
      if !CanTrim(v.log, v.first, upTo) then v else
      v.(first := upTo,
         group := if v.group.None? then None
                  else Some(v.group.value.(ledger := NoteTrim(v.log, v.first, upTo, v.group.value.ledger))))
    case Create(other, dests) =>
      if other != name || v.group.Some? then v else v.(group := Some(NewGroup(v.log, dests)))
    case At(other, op) =>
      if other != name || v.group.None? then v
      else v.(group := Some(GroupStep(v.log, v.first, v.group.value, op)))
  }

  function SoloRun(v: View, name: string, steps: seq<Step>): (r: View)
    requires v.first <= |v.log|
    ensures r.first <= |r.log|
  {
    if steps == [] then v else SoloStep(SoloRun(v, name, steps[..|steps| - 1]), name, steps[|steps| - 1])
  }

  /** The steps of a run that concern one group. */
  predicate Concerns(step: Step, name: string) {
    match step
    case Append(_) => true
    case Trim(_) => true
    case Create(other, _) => other == name
    case At(other, _) => other == name
  }

  function Concerning(steps: seq<Step>, name: string): (r: seq<Step>)
    ensures forall s :: s in r ==> Concerns(s, name)
  {
    if steps == [] then [] else
    var before := Concerning(steps[..|steps| - 1], name);
    if Concerns(steps[|steps| - 1], name) then before + [steps[|steps| - 1]] else before
  }
}
