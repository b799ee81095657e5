/**
 The lag reading of a stream source and what its Approximate flag tells about lost entries.
 */
module Lag {
  import opened Prelude
  import opened ConsumerGroup
  import opened ConsumerGroupSafety
  import opened ConsumerGroupAgents
  import opened ConsumerGroupTheorems
  import StreamIds

  datatype GroupInfo = GroupInfo(name: string, lastDelivered: string, lag: int, entriesRead: int)

  datatype StreamInfo = StreamInfo(length: nat, firstEntry: string)

  datatype LagReading = LagReading(entries: int, approximate: bool)

  predicate TrimmedPastGroup(lastDelivered: string, s: StreamInfo) {
    s.length != 0 && s.firstEntry != "" && StreamIds.CompareIds(lastDelivered, s.firstEntry) < 0
  }

  /** What a NULL lag looks like in the reply. */
  predicate NullLag(g: GroupInfo) { g.lag == 0 && g.entriesRead == 0 && g.lastDelivered != "0-0" }

  /** A group's lag and the flag; without a lag, the length of the stream, flagged. */
  function Reading(g: GroupInfo, s: StreamInfo, length: Option<nat>): (r: Option<LagReading>)
    ensures r.Some? && !r.value.approximate ==> !TrimmedPastGroup(g.lastDelivered, s) && !NullLag(g)
  {
    if !NullLag(g) then Some(LagReading(g.lag, TrimmedPastGroup(g.lastDelivered, s)))
    else if length.Some? then Some(LagReading(length.value, true))
    else None
  }

  /**
   What a reading says. The group's own lag is exact unless the first entry left compares above what it last read; a lag
   that XINFO GROUPS gives as null, which only a group that has read something can have, becomes the length of the
   stream, never exact, and an error if XLEN fails too.
   */
  ghost predicate Tells(g: GroupInfo, s: StreamInfo, length: Option<nat>, r: Option<LagReading>) {
    if g.lag == 0 && g.entriesRead == 0 && g.lastDelivered != "0-0" then
      (r.Some? <==> length.Some?) && (r.Some? ==> r.value.entries == length.value && r.value.approximate)
    else
      && r.Some? && r.value.entries == g.lag
      && (r.value.approximate <==>
          s.length > 0 && s.firstEntry != "" && StreamIds.CompareIds(g.lastDelivered, s.firstEntry) == -1)
  }

  ghost predicate FirstNamed(groups: seq<GroupInfo>, group: string, i: nat) {
    i < |groups| && groups[i].name == group && forall k :: 0 <= k < i ==> groups[k].name != group
  }

  /**
   Finds the group by name and reports its lag. The inputs are the replies to XINFO GROUPS, XINFO STREAM and XLEN,
   None for a command that fails; the result is None for an error.
   */
  method ReadLag(groups: Option<seq<GroupInfo>>, stream: Option<StreamInfo>, length: Option<nat>, group: string)
    returns (r: Option<LagReading>)
    ensures groups.None? || stream.None? ==> r.None?
    ensures groups.Some? && (forall i :: 0 <= i < |groups.value| ==> groups.value[i].name != group) ==> r.None?
    ensures groups.Some? && stream.Some? ==>
      forall i: nat :: FirstNamed(groups.value, group, i) ==> r == Reading(groups.value[i], stream.value, length)
    ensures groups.Some? && stream.Some? ==>
      forall i: nat :: FirstNamed(groups.value, group, i) ==> Tells(groups.value[i], stream.value, length, r)
  {
    if groups.None? {
      return None;
    }
    for i := 0 to |groups.value|
      invariant forall k :: 0 <= k < i ==> groups.value[k].name != group
    {
      var g := groups.value[i];
      if g.name == group {
        if stream.None? {
          return None;
        }
        var trimmedPast := TrimmedPastGroup(g.lastDelivered, stream.value);
        assert FirstNamed(groups.value, group, i);
        if NullLag(g) {
          return if length.Some? then Some(LagReading(length.value, true)) else None;
        }
        return Some(LagReading(g.lag, trimmedPast));
      }
    }
    return None;
  }

  function IdText(id: EntryId): string { StreamIds.Print(StreamIds.OfRank(id)) }

  /** The flag as the server state determines it. */
  predicate Approximate(log: seq<Entry>, first: nat, l: Ledger)
    requires first <= |log|
  {
    TrimmedPastGroup(IdText(l.cursor), StreamInfo(|log| - first, if first < |log| then IdText(log[first].id) else ""))
  }

  /** The first surviving entry is above the cursor, but does not compare so; or below it, but compares above. */
  predicate Hidden(log: seq<Entry>, first: nat, l: Ledger) {
    first < |log| && StreamIds.Hidden(StreamIds.OfRank(l.cursor), StreamIds.OfRank(log[first].id))
  }

  predicate Reversed(log: seq<Entry>, first: nat, l: Ledger) {
    first < |log| && StreamIds.Reversed(StreamIds.OfRank(l.cursor), StreamIds.OfRank(log[first].id))
  }

  lemma FlagIs(log: seq<Entry>, first: nat, l: Ledger)
    requires first <= |log|
    ensures Approximate(log, first, l) <==>
      (first < |log| && l.cursor < log[first].id && !Hidden(log, first, l)) || Reversed(log, first, l)
    ensures Hidden(log, first, l) ==> l.cursor < log[first].id
    ensures Reversed(log, first, l) ==> l.cursor > log[first].id
  {
    if first < |log| {
      var a := StreamIds.OfRank(l.cursor);
      var b := StreamIds.OfRank(log[first].id);
      StreamIds.BelowExactly(a, b);
      StreamIds.RankIsLex(a, b);
    }
  }

  /**
   On a non-empty stream the flag says that the group has read no surviving entry, exactly for ids the clamp spares.
   */
  lemma FlagExactly(log: seq<Entry>, first: nat, l: Ledger)
    requires Sorted(log) && first < |log|
    ensures (Approximate(log, first, l) <==> forall i :: first <= i < |log| ==> log[i].id > l.cursor)
      <==> !Hidden(log, first, l) && !Reversed(log, first, l)
  {
    NoneReadExactly(log, first, l.cursor);
    FlagIs(log, first, l);
  }

  lemma NoneReadExactly(log: seq<Entry>, first: nat, cursor: EntryId)
    requires Sorted(log) && first < |log|
    ensures (forall i :: first <= i < |log| ==> log[i].id > cursor) <==> cursor < log[first].id
  {
  }

  // ---- the flag and what was lost --------------------------------------------

  /** The last entry trimmed is above the cursor. */
  predicate TrimmedAhead(log: seq<Entry>, first: nat, l: Ledger)
    requires first <= |log|
  {
    first > 0 && log[first - 1].id > l.cursor
  }

  /** Something the group had not read when it was trimmed is still ahead of its cursor. */
  ghost predicate LossAhead(l: Ledger) { exists id :: id in l.lost && id > l.cursor }

  lemma LossIsTrimmedAhead(log: seq<Entry>, first: nat, l: Ledger)
    requires Sorted(log) && first <= |log| && LedgerOk(log, first, l)
    ensures LossAhead(l) <==> TrimmedAhead(log, first, l)
    ensures TrimmedAhead(log, first, l) <==> exists i :: 0 <= i < first && log[i].id > l.cursor
  {
    if TrimmedAhead(log, first, l) {
      assert log[first - 1].id in l.lost;
    }
    if LossAhead(l) {
      var id :| id in l.lost && id > l.cursor;
      assert InLog(log, id);
      var i :| 0 <= i < |log| && log[i].id == id;
    }
  }

  /**
   The ids for which the flag tells loss: with the first surviving entry above the cursor, either something was trimmed
   in between and the clamp does not hide it, or nothing was and the clamp keeps the flag down; otherwise the clamp does
   not reverse the two.
   */
  predicate Telling(log: seq<Entry>, first: nat, l: Ledger)
    requires first < |log|
  {
    if l.cursor < log[first].id then TrimmedAhead(log, first, l) != Hidden(log, first, l) else !Reversed(log, first, l)
  }

  /**
   In every reachable state with a non-empty stream, the flag agrees with whether unread entries were lost ahead of
   the cursor exactly for telling ids. For ids below the clamp it errs only with the cursor between the last trimmed
   entry and the first surviving one, and then by a false alarm.
   */
  lemma FlagTellsLossExactly(w: World, steps: seq<Step>, name: string)
    requires Initial(w)
    requires var v := Run(w, steps); name in v.groups && v.first < |v.log|
    ensures var v := Run(w, steps);
      var l := v.groups[name].ledger;
      && ((Approximate(v.log, v.first, l) <==> LossAhead(l)) <==> Telling(v.log, v.first, l))
      && (Ordinary(l) ==> (Telling(v.log, v.first, l) <==> !AtTheGap(v.log, v.first, l)))
  {
    RunKeeps(w, steps);
    var v := Run(w, steps);
    var l := v.groups[name].ledger;
    assert GroupOk(v.log, v.first, v.groups[name]);
    TellsLoss(v.log, v.first, l);
  }

  lemma TellsLoss(log: seq<Entry>, first: nat, l: Ledger)
    requires Sorted(log) && first < |log| && LedgerOk(log, first, l)
    ensures (Approximate(log, first, l) <==> LossAhead(l)) <==> Telling(log, first, l)
    ensures Ordinary(l) ==> (Telling(log, first, l) <==> !AtTheGap(log, first, l))
  {
    FlagIs(log, first, l);
    LossIsTrimmedAhead(log, first, l);
    if Ordinary(l) {
      StreamIds.OrdinaryIds(StreamIds.OfRank(l.cursor), StreamIds.OfRank(log[first].id));
    }
  }

  /** The cursor lies between the last trimmed entry and the first surviving one. */
  predicate AtTheGap(log: seq<Entry>, first: nat, l: Ledger)
    requires first < |log|
  {
    l.cursor < log[first].id && !TrimmedAhead(log, first, l)
  }

  /** Both halves of the cursor are below the clamp. */
  predicate Ordinary(l: Ledger) {
    StreamIds.OfRank(l.cursor).ms < MAX_INT64 && StreamIds.OfRank(l.cursor).seqNo < MAX_INT64
  }

  /** Every entry above the cursor survives. */
  ghost predicate NothingMissing(log: seq<Entry>, first: nat, l: Ledger) {
    forall i :: 0 <= i < |log| && log[i].id > l.cursor ==> first <= i
  }

  /**
   In every reachable state with a non-empty stream, an exact reading means that every entry above the cursor still
   survives, unless something was trimmed ahead of the cursor and the clamp hides it. Below the clamp it always does.
   */
  lemma ExactMeansNothingMissingExactly(w: World, steps: seq<Step>, name: string)
    requires Initial(w)
    requires var v := Run(w, steps); name in v.groups && v.first < |v.log|
    ensures var v := Run(w, steps);
      var l := v.groups[name].ledger;
      && ((!Approximate(v.log, v.first, l) ==> NothingMissing(v.log, v.first, l) && !LossAhead(l))
          <==> !(TrimmedAhead(v.log, v.first, l) && Hidden(v.log, v.first, l)))
      && (Ordinary(l) ==> !Hidden(v.log, v.first, l))
  {
    RunKeeps(w, steps);
    var v := Run(w, steps);
    var l := v.groups[name].ledger;
    assert GroupOk(v.log, v.first, v.groups[name]);
    NothingMissingExactly(v.log, v.first, l);
  }

  lemma NothingMissingExactly(log: seq<Entry>, first: nat, l: Ledger)
    requires Sorted(log) && first < |log| && LedgerOk(log, first, l)
    ensures (!Approximate(log, first, l) ==> NothingMissing(log, first, l) && !LossAhead(l))
      <==> !(TrimmedAhead(log, first, l) && Hidden(log, first, l))
    ensures Ordinary(l) ==> !Hidden(log, first, l)
  {
    FlagIs(log, first, l);
    LossIsTrimmedAhead(log, first, l);
    if Ordinary(l) {
      StreamIds.OrdinaryIds(StreamIds.OfRank(l.cursor), StreamIds.OfRank(log[first].id));
    }
  }

  /** A read that returns anything takes the flag down, unless the clamp reverses, and keeps the loss on the books. */
  lemma ReadClearsFlag(log: seq<Entry>, first: nat, g: Group, op: Op)
    requires Sorted(log) && first <= |log| && GroupOk(log, first, g) && op.Read?
    requires GroupStep(log, first, g, op).ledger.delivered != g.ledger.delivered
    ensures var h := GroupStep(log, first, g, op);
      (Approximate(log, first, h.ledger) <==> Reversed(log, first, h.ledger)) && h.ledger.lost == g.ledger.lost
  {
    ReadMovesPast(log, first, g, op);
    FlagIs(log, first, GroupStep(log, first, g, op).ledger);
  }

  lemma ReadMovesPast(log: seq<Entry>, first: nat, g: Group, op: Op)
    requires Sorted(log) && first <= |log| && op.Read?
    requires GroupStep(log, first, g, op).ledger.delivered != g.ledger.delivered
    ensures var l := GroupStep(log, first, g, op).ledger;
      first < |log| && l.cursor >= log[first].id && l.lost == g.ledger.lost
  {
    var batch := Batch(log, first, g.ledger.cursor, op.count);
    var j := BatchIsNext(log, first, g.ledger.cursor, op.count);
    assert batch != [] && batch[|batch| - 1] == log[j + |batch| - 1];
  }

  // ---- runs that show it -------------------------------------------------------

  const EMPTY := World([], 0, map[])

  /** A new group on a new stream is flagged at the first entry, with nothing lost. */
  lemma FreshGroupIsFlagged()
    ensures var v := Run(EMPTY, [Create("g", []), Append(Entry(7, true))]);
      "g" in v.groups && v.groups["g"].ledger.lost == {} && Approximate(v.log, v.first, v.groups["g"].ledger)
  {
    var steps := [Create("g", [])];
    RunSnoc(EMPTY, [], Create("g", []));
    RunSnoc(EMPTY, steps, Append(Entry(7, true)));
    assert [] + [Create("g", [])] == steps;
    assert steps + [Append(Entry(7, true))] == [Create("g", []), Append(Entry(7, true))];
    var v := Run(EMPTY, steps + [Append(Entry(7, true))]);
    assert v.log == [Entry(7, true)] && v.groups["g"].ledger.cursor == 0;
    FlagIs(v.log, v.first, v.groups["g"].ledger);
    StreamIds.OrdinaryIds(StreamIds.OfRank(0), StreamIds.OfRank(7));
  }

  /** A stream trimmed to nothing is not flagged, although an unread entry was lost. */
  lemma EmptyStreamIsNotFlagged()
    ensures var v := Run(EMPTY, [Create("g", []), Append(Entry(7, true)), Trim(1)]);
      "g" in v.groups && v.groups["g"].ledger.lost == {7} && !Approximate(v.log, v.first, v.groups["g"].ledger)
  {
    var s1 := [Create("g", []), Append(Entry(7, true))];
    RunSnoc(EMPTY, s1, Trim(1));
    assert s1 + [Trim(1)] == [Create("g", []), Append(Entry(7, true)), Trim(1)];
    var v := OneUnread();
    TrimLoses(v, v.groups["g"]);
  }

  /** A new group on a new stream, with one entry that it has not read. */
  lemma OneUnread() returns (v: World)
    ensures v == Run(EMPTY, [Create("g", []), Append(Entry(7, true))])
    ensures v == World([Entry(7, true)], 0, map["g" := NewGroup([], [])])
  {
    RunTwo(EMPTY, Create("g", []), Append(Entry(7, true)));
    v := Run(EMPTY, [Create("g", []), Append(Entry(7, true))]);
  }

  lemma TrimLoses(v: World, g: Group)
    requires v == World([Entry(7, true)], 0, map["g" := g]) && g == NewGroup([], [])
    ensures var u := Apply(v, Trim(1));
      "g" in u.groups && u.groups["g"].ledger.lost == {7} && !Approximate(u.log, u.first, u.groups["g"].ledger)
  {
    assert v.log[0].id == 7;
    assert NoteTrim(v.log, 0, 1, g.ledger).lost == {7};
  }

  /** The group has lost an entry ahead of its cursor on a non-empty stream, and its reading is exact. */
  ghost predicate Deceived(v: World, name: string) {
    && name in v.groups && v.first < |v.log| && LossAhead(v.groups[name].ledger)
    && !Approximate(v.log, v.first, v.groups[name].ledger)
  }

  /**
   A run to such a state: one entry before the group is created, two after it, all but the last trimmed. The clamp
   merges the sequence numbers of the cursor and of the first entry.
   */
  lemma HiddenLoss() returns (w: World, steps: seq<Step>)
    ensures Initial(w) && Deceived(Run(w, steps), "g")
  {
    var x: EntryId := MAX_INT64;
    w := World([Entry(x, true)], 0, map[]);
    steps := HidingSteps(w, x);
  }

  lemma HidingSteps(w: World, x: EntryId) returns (steps: seq<Step>)
    requires x == MAX_INT64 && w == World([Entry(x, true)], 0, map[])
    ensures Deceived(Run(w, steps), "g")
  {
    var a, b, c, d := Create("g", []), Append(Entry(x + 1, true)), Append(Entry(x + 2, true)), Trim(2);
    steps := [a, b, c, d];
    RunFour(w, a, b, c, d);
    RunTwo(w, a, b);
    RunTwo(Run(w, [a, b]), c, d);
    var u := ThreeSteps(w, x);
    LastTrim(u, w.log, x);
  }

  lemma LastTrim(u: World, before: seq<Entry>, x: EntryId)
    requires x == MAX_INT64 && before == [Entry(x, true)]
    requires u == World([Entry(x, true), Entry(x + 1, true), Entry(x + 2, true)], 0, map["g" := NewGroup(before, [])])
    ensures Deceived(Apply(u, Trim(2)), "g")
  {
    HidingTrim(u.log, u.groups["g"].ledger, x);
  }

  lemma ThreeSteps(w: World, x: EntryId) returns (u: World)
    requires x > 0 && w == World([Entry(x, true)], 0, map[])
    ensures u == Apply(Apply(Apply(w, Create("g", [])), Append(Entry(x + 1, true))), Append(Entry(x + 2, true)))
    ensures u == World([Entry(x, true), Entry(x + 1, true), Entry(x + 2, true)], 0, map["g" := NewGroup(w.log, [])])
  {
    var v := Apply(w, Create("g", []));
    assert v == World(w.log, 0, map["g" := NewGroup(w.log, [])]);
    v := Apply(v, Append(Entry(x + 1, true)));
    assert v.log == [Entry(x, true), Entry(x + 1, true)];
    u := Apply(v, Append(Entry(x + 2, true)));
    assert u.log == [Entry(x, true), Entry(x + 1, true), Entry(x + 2, true)];
  }

  lemma RunTwo(w: World, a: Step, b: Step)
    requires w.first <= |w.log|
    ensures var u := Apply(w, a); u.first <= |u.log| && Run(w, [a, b]) == Apply(u, b)
  {
    OneStep(w, a);
    RunSnoc(w, [a], b);
    assert [a] + [b] == [a, b];
  }

  lemma RunFour(w: World, a: Step, b: Step, c: Step, d: Step)
    requires w.first <= |w.log|
    ensures Run(w, [a, b, c, d]) == Run(Run(w, [a, b]), [c, d])
  {
    RunAppend(w, [a, b], [c, d]);
    assert [a, b] + [c, d] == [a, b, c, d];
  }

  lemma HidingTrim(log: seq<Entry>, l: Ledger, x: EntryId)
    requires x == MAX_INT64
    requires log == [Entry(x, true), Entry(x + 1, true), Entry(x + 2, true)] && l.cursor == x && l.lost == {}
    ensures var m := NoteTrim(log, 0, 2, l); LossAhead(m) && !Approximate(log, 2, m)
  {
    var m := NoteTrim(log, 0, 2, l);
    assert log[1].id in m.lost;
    SmallRank(x);
    SmallRank(x + 2);
    FlagIs(log, 2, m);
  }

  lemma SmallRank(r: nat)
    requires r < StreamIds.SEQ_SPAN
    ensures StreamIds.OfRank(r) == StreamIds.Id(0, r)
  {
  }
}
