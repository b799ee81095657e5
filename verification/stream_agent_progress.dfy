/**
 That the read loop of the stream agent gets its group through any backlog, and in how many rounds.
 */
module StreamAgentProgress {
  import opened ConsumerGroup
  import opened ConsumerGroupTheorems
  import opened ConsumerGroupProgress
  import opened StreamAgents
  import opened StreamAgentRuns
  import Retry

  // ---- the loop as it runs ----------------------------------------------------------

  /** Nothing is appended around the turn or in it, and its read, which is answered, asks for `count`. */
  ghost predicate Reading(t: Turn, b: Between, count: nat) {
    t.Got? && b.count == count && NoAppend(b.steps) && NoAppend(b.during)
  }

  function Less(u: nat, n: nat): nat { if u < n then 0 else u - n }

  /** What `i` reads of `count` entries leave of `u`. */
  function LessBy(u: nat, i: nat, count: nat): nat { if i == 0 then u else Less(LessBy(u, i - 1, count), count) }

  lemma {:induction false} LessByIs(u: nat, i: nat, count: nat)
    ensures LessBy(u, i, count) == Less(u, i * count)
  {
    if i > 0 {
      LessByIs(u, i - 1, count);
      assert i * count == (i - 1) * count + count;
    }
  }

  lemma PoisedReads(w: World, name: string, c: string, dests: seq<string>, trace: seq<Event>)
    requires PoisedIn(w, name, c, dests, [], trace)
    ensures AtRead(w.groups[name], c)
  {
  }

  /** Before its batch a turn has taken as many entries as it asks for. */
  lemma ReadTakesCount(w: World, b: Between, name: string, c: string, dests: seq<string>, trace: seq<Event>, count: nat)
    requires WorldOk(w) && PoisedIn(w, name, c, dests, [], trace) && AllForeign(b.steps, name, c)
    requires 0 < count == b.count && NoAppend(b.steps)
    ensures var v := Run(w, BeforeBatch(b, name, c));
      WorldOk(v) && name in v.groups && UnreadIn(v, name) <= Less(UnreadIn(w, name), count)
  {
    var s := At(name, Read(c, b.count, b.now, false));
    ForeignRun(w, b.steps, name, c, dests, [], trace);
    RunAddsNone(w, b.steps, name);
    RunKeeps(w, b.steps);
    PoisedReads(Run(w, b.steps), name, c, dests, trace);
    var j, batch := WorldRead(Run(w, b.steps), name, c, b.count, b.now, false);
    RunSnoc(w, b.steps, s);
    RunKeeps(w, BeforeBatch(b, name, c));
  }

  lemma TurnReads(w: World, t: Turn, b: Between, name: string, c: string, dests: seq<string>, trace: seq<Event>,
                  count: nat)
    requires WorldOk(w) && PoisedIn(w, name, c, dests, [], trace) && AllForeign(b.steps, name, c)
    requires 0 < count && Reading(t, b, count)
    ensures var u := Run(w, TurnSteps(t, b, name, c));
      WorldOk(u) && name in u.groups && UnreadIn(u, name) <= Less(UnreadIn(w, name), count)
  {
    ReadTakesCount(w, b, name, c, dests, trace, count);
    RunAppend(w, BeforeBatch(b, name, c), b.during);
    RunAddsNone(Run(w, BeforeBatch(b, name, c)), b.during, name);
    RunKeeps(w, TurnSteps(t, b, name, c));
  }

  /** What is left unread in a world. */
  ghost predicate AtMost(w: World, name: string, n: nat) { name in w.groups && UnreadIn(w, name) <= n }

  ghost predicate AllReading(turns: seq<Turn>, bs: seq<Between>, k: nat, count: nat) {
    k <= |turns| == |bs| && forall j :: 0 <= j < k ==> Reading(turns[j], bs[j], count)
  }

  /** None of the first i turns but the last ends the run. */
  ghost predicate GoesOnBefore(turns: seq<Turn>, p: Retry.Policy, dests: seq<string>, i: nat)
    requires TurnsOk(turns, dests) && i <= |turns|
  {
    i > 0 ==> GoesOn(turns, p, dests, i - 1)
  }

  ghost predicate ReadUpTo(w: World, name: string, n: nat) { WorldOk(w) && AtMost(w, name, n) }

  lemma OneTurnReads(worlds: seq<World>, mems: seq<Memory>, turns: seq<Turn>, bs: seq<Between>, name: string,
                     c: string, p: Retry.Policy, dests: seq<string>, k: nat, count: nat, u: nat, i: nat)
    requires TurnsOk(turns, dests) && i < k <= |turns| == |bs| && Story(worlds, mems, turns, bs, name, c, p, dests, k)
    requires PoisedIn(worlds[0], name, c, dests, [], mems[0].trace) && GoesOn(turns, p, dests, i)
    requires 0 < count && AllReading(turns, bs, k, count) && ReadUpTo(worlds[i], name, u)
    ensures ReadUpTo(worlds[i + 1], name, Less(u, count))
  {
    OngoingRun(worlds, mems, turns, bs, name, c, p, dests, k, i);
    assert Turned(worlds[i], worlds[i + 1], mems[i], mems[i + 1], turns[i], bs[i], name, c, p, dests);
    assert Reading(turns[i], bs[i], count);
    TurnReads(worlds[i], turns[i], bs[i], name, c, dests, mems[i].trace, count);
  }

  lemma {:induction false} RoundsRead(worlds: seq<World>, mems: seq<Memory>, turns: seq<Turn>, bs: seq<Between>,
                                      name: string, c: string, p: Retry.Policy, dests: seq<string>, k: nat,
                                      count: nat, u: nat, i: nat)
    requires TurnsOk(turns, dests) && i <= k <= |turns| == |bs| && Story(worlds, mems, turns, bs, name, c, p, dests, k)
    requires PoisedIn(worlds[0], name, c, dests, [], mems[0].trace) && GoesOnBefore(turns, p, dests, i)
    requires 0 < count && AllReading(turns, bs, k, count) && ReadUpTo(worlds[0], name, u)
    ensures ReadUpTo(worlds[i], name, LessBy(u, i, count))
  {
    if i > 0 {
      RoundsRead(worlds, mems, turns, bs, name, c, p, dests, k, count, u, i - 1);
      OneTurnReads(worlds, mems, turns, bs, name, c, p, dests, k, count, LessBy(u, i - 1, count), i - 1);
    }
  }

  /**
   Turns that read `count` entries each, with nothing appended meanwhile and none of them the last of the run before the
   k-th, leave k * count fewer unread, and none once that is the whole backlog.
   */
  lemma BacklogIsRead(w: World, past: seq<Step>, worlds: seq<World>, mems: seq<Memory>, turns: seq<Turn>,
                      bs: seq<Between>, name: string, c: string, p: Retry.Policy, dests: seq<string>, k: nat,
                      count: nat)
    requires Initial(w) && TurnsOk(turns, dests) && k <= |turns| == |bs|
    requires Story(worlds, mems, turns, bs, name, c, p, dests, k) && worlds[0] == Run(w, past)
    requires PoisedIn(worlds[0], name, c, dests, [], mems[0].trace)
    requires 0 < count && AllReading(turns, bs, k, count) && GoesOnBefore(turns, p, dests, k)
    ensures AtMost(worlds[k], name, Less(UnreadIn(worlds[0], name), k * count))
  {
    RunKeeps(w, past);
    RoundsRead(worlds, mems, turns, bs, name, c, p, dests, k, count, UnreadIn(worlds[0], name), k);
    LessByIs(UnreadIn(worlds[0], name), k, count);
  }

  // ---- that it can ------------------------------------------------------------------

  /** How many rounds `u` entries take: u / count, rounded up. */
  function Rounds(u: nat, count: nat): (n: nat)
    requires count > 0
    ensures n * count >= u && (n > 0 ==> (n - 1) * count < u)
  {
    if u == 0 then 0 else
    var n := Rounds(Less(u, count), count);
    assert (n + 1) * count == n * count + count;
    n + 1
  }

  /** One read of `count` entries, and what follows up to the next: the agent's own steps, of which none is a read. */
  ghost predicate IsRound(steps: seq<Step>, name: string, c: string, count: nat) {
    && steps != [] && steps[0] == At(name, Read(c, count, 0, false))
    && forall i :: 0 < i < |steps| ==>
      steps[i].At? && steps[i].group == name && steps[i].op.consumer == c && !steps[i].op.Read?
  }

  function Flat(rounds: seq<seq<Step>>): seq<Step> {
    if rounds == [] then [] else rounds[0] + Flat(rounds[1..])
  }

  const ONCE := Retry.Policy(1, 0, 0, 0)

  const TAKEN := Retry.Play(_ => Retry.Accepted, _ => 0, _ => 0, _ => false)

  /** Everything is accepted and acknowledged at once, and nobody cancels. */
  function Quiet(batch: seq<Entry>, dests: seq<string>): (r: Round)
    ensures RoundOk(r, dests) && r.batch == batch
  {
    Round(batch, seq(|batch|, _ => Script(seq(|dests|, _ => TAKEN), true, false)), |batch|)
  }

  lemma QuietIsWhole(batch: seq<Entry>, dests: seq<string>)
    ensures !Leaves(Quiet(batch, dests), ONCE, dests)
  {
    var r := Quiet(batch, dests);
    StopExactly(r, ONCE, dests, 0);
    forall i | 0 <= i < |batch| ensures !EffectOf(batch[i], ONCE, dests, r.scripts[i]).panicked {
      PanicsExactly(batch[i], ONCE, dests, r.scripts[i]);
      forall k | 0 <= k < |dests| ensures !Retry.VerdictOf(ONCE, r.scripts[i].plays[k]).Panicked? {
        Retry.NeverPanics(ONCE, r.scripts[i].plays[k]);
      }
    }
  }

  lemma QuietRound(w: World, name: string, c: string, dests: seq<string>, batch: seq<Entry>, trace: seq<Event>)
    returns (ops: seq<Op>, after: seq<Event>)
    requires PoisedIn(w, name, c, dests, batch, trace)
    ensures PoisedIn(Run(w, AtAll(name, ops)), name, c, dests, [], after) && Handles(ops, c)
  {
    var r := Quiet(batch, dests);
    var m := Memory(w.groups[name].ledger, trace, Tally(0, 0, 0));
    ops := RoundOps(r, c, ONCE, dests);
    after := TraceAt(m, ONCE, dests, r, Stop(r, ONCE, dests));
    QuietIsWhole(batch, dests);
    RoundHandles(r, c, ONCE, dests);
    RoundSteps(w.log, w.first, w.groups[name], c, ONCE, dests, m, r);
    GroupRunIsRun(w, name, ops);
  }

  /** One round from where the agent is at its read to where it is again. */
  lemma NextRound(w: World, name: string, c: string, dests: seq<string>, trace: seq<Event>, count: nat)
    returns (steps: seq<Step>, after: seq<Event>)
    requires WorldOk(w) && PoisedIn(w, name, c, dests, [], trace) && count > 0
    ensures IsRound(steps, name, c, count)
    ensures var u := Run(w, steps);
      && WorldOk(u) && PoisedIn(u, name, c, dests, [], after)
      && UnreadIn(u, name) <= Less(UnreadIn(w, name), count)
  {
    var read := At(name, Read(c, count, 0, false));
    var b := StreamAgentRuns.Between([], count, 0, false, []);
    assert BeforeBatch(b, name, c) == [read];
    ReadTakesCount(w, b, name, c, dests, trace, count);
    OneStep(w, read);
    ReadStep(w, name, c, dests, trace, count, 0);
    var v := Run(w, [read]);
    var ops;
    ops, after := QuietRound(v, name, c, dests, v.groups[name].agents[c].inbox, trace);
    RunAppend(w, [read], AtAll(name, ops));
    RunAddsNone(v, AtAll(name, ops), name);
    steps := [read] + AtAll(name, ops);
    RunKeeps(w, steps);
  }

  lemma FlatCons(first: seq<Step>, rest: seq<seq<Step>>)
    ensures Flat([first] + rest) == first + Flat(rest)
  {
    assert ([first] + rest)[1..] == rest;
  }

  ghost predicate AllRounds(rounds: seq<seq<Step>>, name: string, c: string, count: nat) {
    forall i :: 0 <= i < |rounds| ==> IsRound(rounds[i], name, c, count)
  }

  /** Some rounds, as many as `u` entries take, leave nothing unread. */
  ghost predicate Caught(w: World, rounds: seq<seq<Step>>, name: string, c: string, count: nat, u: nat) {
    && w.first <= |w.log| && count > 0 && |rounds| == Rounds(u, count) && AllRounds(rounds, name, c, count)
    && AtMost(Run(w, Flat(rounds)), name, 0)
  }

  lemma RoundFirst(w: World, first: seq<Step>, rest: seq<seq<Step>>, name: string, c: string, count: nat, u: nat)
    requires w.first <= |w.log| && IsRound(first, name, c, count) && u > 0 && count > 0
    requires Caught(Run(w, first), rest, name, c, count, Less(u, count))
    ensures Caught(w, [first] + rest, name, c, count, u)
  {
    FlatCons(first, rest);
    RunAppend(w, first, Flat(rest));
  }

  /** The agent is at its read, and at most `u` entries are unread. */
  ghost predicate Behind(w: World, name: string, c: string, dests: seq<string>, trace: seq<Event>, u: nat) {
    WorldOk(w) && PoisedIn(w, name, c, dests, [], trace) && UnreadIn(w, name) <= u
  }

  lemma BehindLess(w: World, name: string, c: string, dests: seq<string>, trace: seq<Event>, count: nat, u: nat)
    returns (steps: seq<Step>, after: seq<Event>)
    requires Behind(w, name, c, dests, trace, u) && count > 0
    ensures w.first <= |w.log| && IsRound(steps, name, c, count)
    ensures Behind(Run(w, steps), name, c, dests, after, Less(u, count))
  {
    steps, after := NextRound(w, name, c, dests, trace, count);
  }

  lemma NotBehind(w: World, name: string, c: string, dests: seq<string>, trace: seq<Event>, count: nat)
    requires Behind(w, name, c, dests, trace, 0) && count > 0
    ensures Caught(w, [], name, c, count, 0)
  {
  }

  lemma {:induction false} CatchUp(w: World, name: string, c: string, dests: seq<string>, trace: seq<Event>,
                                   count: nat, u: nat)
    returns (rounds: seq<seq<Step>>)
    requires Behind(w, name, c, dests, trace, u) && count > 0
    ensures Caught(w, rounds, name, c, count, u)
    decreases u
  {
    if u == 0 {
      NotBehind(w, name, c, dests, trace, count);
      rounds := [];
    } else {
      var steps, after := BehindLess(w, name, c, dests, trace, count, u);
      var rest := CatchUp(Run(w, steps), name, c, dests, after, count, Less(u, count));
      RoundFirst(w, steps, rest, name, c, count, u);
      rounds := [steps] + rest;
    }
  }

  /**
   From any reachable state in which an agent is at its read, u / count rounds of reading and handling, rounded up,
   leave its group with nothing unread.
   */
  lemma BacklogCanBeRead(w: World, past: seq<Step>, name: string, c: string, count: nat)
    returns (rounds: seq<seq<Step>>)
    requires Initial(w) && count > 0 && name in Run(w, past).groups && AtRead(Run(w, past).groups[name], c)
    ensures |rounds| == Rounds(UnreadIn(Run(w, past), name), count) && AllRounds(rounds, name, c, count)
    ensures AtMost(Run(w, past + Flat(rounds)), name, 0)
  {
    var v := Run(w, past);
    RunKeeps(w, past);
    var g := v.groups[name];
    rounds := CatchUp(v, name, c, g.dests, g.agents[c].trace, count, UnreadIn(v, name));
    RunAppend(w, past, Flat(rounds));
  }
}
