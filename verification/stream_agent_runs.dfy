/**
 A whole run of the stream agent as a run of the protocol: reads, batches, cancellation and panics, with anything the
 rest of the world does in between.
 */
module StreamAgentRuns {
  import opened ConsumerGroup
  import opened ConsumerGroupAgents
  import opened ConsumerGroupTheorems
  import opened StreamAgents
  import D = Dispatch
  import Retry

  // ---- one delivery -----------------------------------------------------------

  /** The agent has nothing in hand, is not cancelled, and has this inbox and this record. */
  ghost predicate Poised(g: Group, c: string, dests: seq<string>, inbox: seq<Entry>, trace: seq<Event>) {
    && g.dests == dests && c in g.agents
    && g.agents[c].inbox == inbox && g.agents[c].trace == trace && g.agents[c].phase == Idle && !g.agents[c].cancelled
  }

  function OutcomesOf(p: Retry.Policy, dests: seq<string>, s: Script): seq<D.Outcome>
    requires |s.plays| == |dests|
  {
    D.SendTo(p, dests, s.plays).outcomes
  }

  /** Handled to the end; or, after a panic, as far as it got, and the agent started again. */
  function DeliveryOps(d: Entry, c: string, p: Retry.Policy, dests: seq<string>, s: Script): seq<Op>
    requires |s.plays| == |dests|
  {
    var outcomes := OutcomesOf(p, dests, s);
    if EffectOf(d, p, dests, s).panicked then SendOps(c, outcomes, |outcomes|) + [Start(c)]
    else HandleOps(d, c, outcomes, s)
  }

  lemma PanicSteps(log: seq<Entry>, first: nat, g: Group, c: string, p: Retry.Policy, s: Script)
    requires first <= |log| && Ready(g, c) && |s.plays| == |g.dests|
    requires EffectOf(g.agents[c].inbox[0], p, g.dests, s).panicked
    ensures Poised(GroupRun(log, first, g, DeliveryOps(g.agents[c].inbox[0], c, p, g.dests, s)), c, g.dests, [],
                   g.agents[c].trace + EffectOf(g.agents[c].inbox[0], p, g.dests, s).events)
  {
    var outcomes := OutcomesOf(p, g.dests, s);
    OutcomesNamed(p, g.dests, s.plays);
    SendRun(log, first, g, c, outcomes, |outcomes|);
    GroupRunSnoc(log, first, g, SendOps(c, outcomes, |outcomes|), Start(c));
    assert outcomes[..|outcomes|] == outcomes;
  }

  /** One delivery: the record grows by what `Handle` records, and the inbox by one less, or is gone after a panic. */
  lemma DeliverySteps(log: seq<Entry>, first: nat, g: Group, c: string, p: Retry.Policy, dests: seq<string>, s: Script,
                      inbox: seq<Entry>, trace: seq<Event>)
    requires first <= |log| && Poised(g, c, dests, inbox, trace) && inbox != [] && |s.plays| == |dests|
    ensures var e := EffectOf(inbox[0], p, dests, s);
      Poised(GroupRun(log, first, g, DeliveryOps(inbox[0], c, p, dests, s)), c, dests,
             if e.panicked then [] else inbox[1..], trace + e.events)
  {
    if EffectOf(inbox[0], p, dests, s).panicked {
      PanicSteps(log, first, g, c, p, s);
    } else {
      HandleIsSteps(log, first, g, c, p, s);
    }
  }

  // ---- one batch --------------------------------------------------------------

  function OpsUpTo(r: Round, c: string, p: Retry.Policy, dests: seq<string>, n: nat): seq<Op>
    requires RoundOk(r, dests) && n <= |r.batch|
  {
    if n == 0 then [] else OpsUpTo(r, c, p, dests, n - 1) + DeliveryOps(r.batch[n - 1], c, p, dests, r.scripts[n - 1])
  }

  predicate Panics(r: Round, p: Retry.Policy, dests: seq<string>, i: nat)
    requires RoundOk(r, dests) && i < |r.batch|
  {
    EffectOf(r.batch[i], p, dests, r.scripts[i]).panicked
  }

  /** None of the first n deliveries panics. */
  ghost predicate Smooth(r: Round, p: Retry.Policy, dests: seq<string>, n: nat)
    requires RoundOk(r, dests) && n <= |r.batch|
  {
    forall i :: 0 <= i < n ==> !Panics(r, p, dests, i)
  }

  /** Running a and then b is running both. */
  ghost predicate Appends(log: seq<Entry>, first: nat, g: Group, a: seq<Op>, b: seq<Op>)
    requires first <= |log|
  {
    GroupRun(log, first, g, a + b) == GroupRun(log, first, GroupRun(log, first, g, a), b)
  }

  lemma AppendsSnoc(log: seq<Entry>, first: nat, g: Group, a: seq<Op>, b: seq<Op>, op: Op)
    requires first <= |log| && Appends(log, first, g, a, b)
    ensures Appends(log, first, g, a, b + [op])
  {
    SnocSame(log, first, g, a + b, GroupRun(log, first, g, a), b, op);
    assert a + b + [op] == a + (b + [op]);
  }

  lemma SnocSame(log: seq<Entry>, first: nat, g: Group, a: seq<Op>, h: Group, b: seq<Op>, op: Op)
    requires first <= |log| && GroupRun(log, first, g, a) == GroupRun(log, first, h, b)
    ensures GroupRun(log, first, g, a + [op]) == GroupRun(log, first, h, b + [op])
  {
    GroupRunSnoc(log, first, g, a, op);
    GroupRunSnoc(log, first, h, b, op);
  }

  lemma {:induction false} GroupRunAppend(log: seq<Entry>, first: nat, g: Group, a: seq<Op>, b: seq<Op>)
    requires first <= |log|
    ensures Appends(log, first, g, a, b)
  {
    if b == [] {
      assert a + b == a;
    } else {
      var before, last := b[..|b| - 1], b[|b| - 1];
      GroupRunAppend(log, first, g, a, before);
      AppendsSnoc(log, first, g, a, before, last);
      assert before + [last] == b;
    }
  }

  /** The group and the memory of the agent after the first n deliveries of a batch. */
  ghost function GroupAt(log: seq<Entry>, first: nat, g: Group, c: string, p: Retry.Policy, dests: seq<string>,
                         r: Round, n: nat): Group
    requires first <= |log| && RoundOk(r, dests) && n <= |r.batch|
  {
    GroupRun(log, first, g, OpsUpTo(r, c, p, dests, n))
  }

  ghost function TraceAt(m: Memory, p: Retry.Policy, dests: seq<string>, r: Round, n: nat): seq<Event>
    requires RoundOk(r, dests) && n <= |r.batch|
  {
    BatchSpec(m, r, p, dests, n).trace
  }

  lemma TraceSnoc(m: Memory, p: Retry.Policy, dests: seq<string>, r: Round, n: nat)
    requires RoundOk(r, dests) && n < |r.batch|
    ensures TraceAt(m, p, dests, r, n + 1) ==
      TraceAt(m, p, dests, r, n) + EffectOf(r.batch[n], p, dests, r.scripts[n]).events
  {
  }

  lemma NextDelivery(log: seq<Entry>, first: nat, g: Group, c: string, p: Retry.Policy, dests: seq<string>, m: Memory,
                     r: Round, n: nat)
    requires first <= |log| && RoundOk(r, dests) && n < |r.batch|
    requires Poised(GroupAt(log, first, g, c, p, dests, r, n), c, dests, r.batch[n..], TraceAt(m, p, dests, r, n))
    ensures Poised(GroupAt(log, first, g, c, p, dests, r, n + 1), c, dests,
                   if Panics(r, p, dests, n) then [] else r.batch[n + 1..], TraceAt(m, p, dests, r, n + 1))
  {
    var h := GroupAt(log, first, g, c, p, dests, r, n);
    DeliverySteps(log, first, h, c, p, dests, r.scripts[n], r.batch[n..], TraceAt(m, p, dests, r, n));
    GroupRunAppend(log, first, g, OpsUpTo(r, c, p, dests, n), DeliveryOps(r.batch[n], c, p, dests, r.scripts[n]));
    TraceSnoc(m, p, dests, r, n);
    assert r.batch[n..][1..] == r.batch[n + 1..];
  }

  lemma SmoothTo(r: Round, p: Retry.Policy, dests: seq<string>, n: nat)
    requires RoundOk(r, dests) && n < |r.batch| && Smooth(r, p, dests, n + 1)
    ensures Smooth(r, p, dests, n) && !Panics(r, p, dests, n)
  {
  }

  lemma {:induction false} BatchSteps(log: seq<Entry>, first: nat, g: Group, c: string, p: Retry.Policy,
                                      dests: seq<string>, m: Memory, r: Round, n: nat)
    requires first <= |log| && RoundOk(r, dests) && n <= |r.batch| && Smooth(r, p, dests, n)
    requires Poised(g, c, dests, r.batch, m.trace)
    ensures PoisedAt(log, first, g, c, p, dests, m, r, n)
  {
    if n > 0 {
      SmoothTo(r, p, dests, n - 1);
      BatchSteps(log, first, g, c, p, dests, m, r, n - 1);
      SmoothDelivery(log, first, g, c, p, dests, m, r, n - 1);
    } else {
      BatchStart(log, first, g, c, p, dests, m, r);
    }
  }

  /** After n deliveries the agent is poised on the rest of the batch, with the record its memory shows. */
  ghost predicate PoisedAt(log: seq<Entry>, first: nat, g: Group, c: string, p: Retry.Policy, dests: seq<string>,
                           m: Memory, r: Round, n: nat)
    requires first <= |log| && RoundOk(r, dests) && n <= |r.batch|
  {
    Poised(GroupAt(log, first, g, c, p, dests, r, n), c, dests, r.batch[n..], TraceAt(m, p, dests, r, n))
  }

  lemma SmoothDelivery(log: seq<Entry>, first: nat, g: Group, c: string, p: Retry.Policy, dests: seq<string>, m: Memory,
                       r: Round, n: nat)
    requires first <= |log| && RoundOk(r, dests) && n < |r.batch| && !Panics(r, p, dests, n)
    requires PoisedAt(log, first, g, c, p, dests, m, r, n)
    ensures PoisedAt(log, first, g, c, p, dests, m, r, n + 1)
  {
    NextDelivery(log, first, g, c, p, dests, m, r, n);
  }

  lemma BatchStart(log: seq<Entry>, first: nat, g: Group, c: string, p: Retry.Policy, dests: seq<string>, m: Memory,
                   r: Round)
    requires first <= |log| && RoundOk(r, dests) && Poised(g, c, dests, r.batch, m.trace)
    ensures PoisedAt(log, first, g, c, p, dests, m, r, 0)
  {
    assert r.batch[0..] == r.batch;
  }

  /** Where the loop stops: after a smooth stretch, of which only the last delivery may have panicked. */
  ghost predicate StopsWell(r: Round, p: Retry.Policy, dests: seq<string>, n: nat)
    requires RoundOk(r, dests) && n <= |r.batch|
  {
    Smooth(r, p, dests, n) || (n > 0 && Smooth(r, p, dests, n - 1) && Panics(r, p, dests, n - 1))
  }

  lemma {:induction false} StopIs(r: Round, p: Retry.Policy, dests: seq<string>, i: nat)
    requires RoundOk(r, dests) && i <= |r.batch| && Smooth(r, p, dests, i)
    ensures StopsWell(r, p, dests, Stop(r, p, dests, i))
    ensures !Leaves(r, p, dests, i) ==> Stop(r, p, dests, i) == |r.batch| && Smooth(r, p, dests, |r.batch|)
    decreases |r.batch| - i
  {
    if i < |r.batch| && r.cancelAt > i {
      if Panics(r, p, dests, i) {
        assert Stop(r, p, dests, i) == i + 1;
      } else {
        StopIs(r, p, dests, i + 1);
      }
    }
  }

  /** The first delivery that panics, or the length of the batch. */
  function FirstPanic(r: Round, p: Retry.Policy, dests: seq<string>, i: nat := 0): (k: nat)
    requires RoundOk(r, dests) && i <= |r.batch|
    ensures i <= k <= |r.batch| && (forall j :: i <= j < k ==> !Panics(r, p, dests, j))
    ensures k < |r.batch| ==> Panics(r, p, dests, k)
    decreases |r.batch| - i
  {
    if i == |r.batch| || Panics(r, p, dests, i) then i else FirstPanic(r, p, dests, i + 1)
  }

  /** The context is cancelled before a delivery of the batch, and no delivery panics before that. */
  predicate Noticed(r: Round, p: Retry.Policy, dests: seq<string>)
    requires RoundOk(r, dests)
  {
    r.cancelAt < |r.batch| && r.cancelAt <= FirstPanic(r, p, dests)
  }

  /** How many deliveries the world lets the agent begin: those before the cancellation, up to one that panics. */
  function Begun(r: Round, p: Retry.Policy, dests: seq<string>): (n: nat)
    requires RoundOk(r, dests)
    ensures n <= |r.batch|
  {
    var k := FirstPanic(r, p, dests);
    if Noticed(r, p, dests) then r.cancelAt else if k < |r.batch| then k + 1 else k
  }

  /**
   The ops of a batch. A cancellation is a step of its own, after which the agent asks for the next delivery as before,
   so that it is the protocol that drops the rest.
   */
  function RoundOps(r: Round, c: string, p: Retry.Policy, dests: seq<string>): seq<Op>
    requires RoundOk(r, dests)
  {
    OpsUpTo(r, c, p, dests, Begun(r, p, dests)) + if Noticed(r, p, dests) then [Cancel(c)] + [Next(c)] else []
  }

  lemma WholeIsSmooth(r: Round, p: Retry.Policy, dests: seq<string>)
    requires RoundOk(r, dests)
    ensures Whole(r, p, dests) <==> r.cancelAt >= |r.batch| && Smooth(r, p, dests, |r.batch|)
  {
    if Whole(r, p, dests) {
      forall i | 0 <= i < |r.batch| ensures !Panics(r, p, dests, i) {
      }
    } else if r.cancelAt >= |r.batch| {
      var i :| 0 <= i < |r.batch| && EffectOf(r.batch[i], p, dests, r.scripts[i]).panicked;
      assert Panics(r, p, dests, i);
    }
  }

  /** The loop of the agent begins exactly those, and leaves for the cancellation or for the panic. */
  lemma StopIsBegun(r: Round, p: Retry.Policy, dests: seq<string>)
    requires RoundOk(r, dests)
    ensures Stop(r, p, dests) == Begun(r, p, dests)
    ensures Leaves(r, p, dests) <==> Noticed(r, p, dests) || FirstPanic(r, p, dests) < |r.batch|
    ensures Noticed(r, p, dests) ==> Smooth(r, p, dests, Begun(r, p, dests))
  {
    StopExactly(r, p, dests, 0);
    var n := Stop(r, p, dests);
    var k := FirstPanic(r, p, dests);
    assert n > 0 && n < |r.batch| && n != r.cancelAt ==> Panics(r, p, dests, n - 1);
    assert k >= n - 1;
    WholeIsSmooth(r, p, dests);
  }

  /** The agent is in the group, and its record is `trace`. */
  ghost predicate Recorded(g: Group, c: string, dests: seq<string>, trace: seq<Event>) {
    g.dests == dests && c in g.agents && g.agents[c].trace == trace
  }

  lemma StoppedSteps(log: seq<Entry>, first: nat, g: Group, c: string, p: Retry.Policy, dests: seq<string>, m: Memory,
                     r: Round, n: nat)
    requires first <= |log| && RoundOk(r, dests) && Poised(g, c, dests, r.batch, m.trace) && n == Stop(r, p, dests)
    ensures Recorded(GroupAt(log, first, g, c, p, dests, r, n), c, dests, TraceAt(m, p, dests, r, n))
    ensures Smooth(r, p, dests, n) ==> PoisedAt(log, first, g, c, p, dests, m, r, n)
    ensures !Leaves(r, p, dests) ==>
      Poised(GroupAt(log, first, g, c, p, dests, r, n), c, dests, [], TraceAt(m, p, dests, r, n))
  {
    StopIs(r, p, dests, 0);
    if Smooth(r, p, dests, n) {
      BatchSteps(log, first, g, c, p, dests, m, r, n);
    } else {
      BatchSteps(log, first, g, c, p, dests, m, r, n - 1);
      NextDelivery(log, first, g, c, p, dests, m, r, n - 1);
    }
  }

  /** Once cancelled, the agent drops what it has not begun, and leaves its record and the books alone. */
  lemma CancelDrops(log: seq<Entry>, first: nat, g: Group, c: string, dests: seq<string>, inbox: seq<Entry>,
                    trace: seq<Event>)
    requires first <= |log| && Poised(g, c, dests, inbox, trace) && inbox != []
    ensures var h := GroupStep(log, first, GroupStep(log, first, g, Cancel(c)), Next(c));
      && Recorded(h, c, dests, trace) && h.agents[c].inbox == [] && h.agents[c].cancelled && h.ledger == g.ledger
  {
  }

  lemma RoundRun(log: seq<Entry>, first: nat, g: Group, c: string, p: Retry.Policy, dests: seq<string>, r: Round,
                 n: nat)
    requires first <= |log| && RoundOk(r, dests) && n == Begun(r, p, dests)
    ensures var h := GroupAt(log, first, g, c, p, dests, r, n);
      GroupRun(log, first, g, RoundOps(r, c, p, dests)) ==
        if Noticed(r, p, dests) then GroupStep(log, first, GroupStep(log, first, h, Cancel(c)), Next(c)) else h
  {
    var ops := OpsUpTo(r, c, p, dests, n);
    TwoMore(log, first, g, ops, Cancel(c), Next(c));
    assert ops + [] == ops;
  }

  lemma TwoMore(log: seq<Entry>, first: nat, g: Group, ops: seq<Op>, a: Op, b: Op)
    requires first <= |log|
    ensures GroupRun(log, first, g, ops + ([a] + [b])) ==
      GroupStep(log, first, GroupStep(log, first, GroupRun(log, first, g, ops), a), b)
  {
    GroupRunSnoc(log, first, g, ops, a);
    GroupRunSnoc(log, first, g, ops + [a], b);
    assert ops + [a] + [b] == ops + ([a] + [b]);
  }

  /**
   One batch of the agent is a run of the protocol with the same record, ready for the next read unless it was left.
   */
  lemma RoundSteps(log: seq<Entry>, first: nat, g: Group, c: string, p: Retry.Policy, dests: seq<string>, m: Memory,
                   r: Round)
    requires first <= |log| && RoundOk(r, dests) && Poised(g, c, dests, r.batch, m.trace)
    ensures var h := GroupRun(log, first, g, RoundOps(r, c, p, dests));
      var trace := TraceAt(m, p, dests, r, Stop(r, p, dests));
      Recorded(h, c, dests, trace) && (!Leaves(r, p, dests) ==> Poised(h, c, dests, [], trace))
  {
    var n := Stop(r, p, dests);
    StopIsBegun(r, p, dests);
    StoppedSteps(log, first, g, c, p, dests, m, r, n);
    RoundRun(log, first, g, c, p, dests, r, n);
    if Noticed(r, p, dests) {
      CancelDrops(log, first, GroupAt(log, first, g, c, p, dests, r, n), c, dests, r.batch[n..],
                  TraceAt(m, p, dests, r, n));
    }
  }

  // ---- the books of a batch -----------------------------------------------------

  lemma DeliveryBooks(log: seq<Entry>, first: nat, g: Group, c: string, p: Retry.Policy, dests: seq<string>, s: Script,
                      inbox: seq<Entry>, trace: seq<Event>)
    requires first <= |log| && Poised(g, c, dests, inbox, trace) && inbox != [] && |s.plays| == |dests|
    ensures GroupRun(log, first, g, DeliveryOps(inbox[0], c, p, dests, s)).ledger ==
      if EffectOf(inbox[0], p, dests, s).acked then XAck(g.ledger, inbox[0].id) else g.ledger
  {
    if EffectOf(inbox[0], p, dests, s).panicked {
      var outcomes := OutcomesOf(p, dests, s);
      OutcomesNamed(p, dests, s.plays);
      SendRun(log, first, g, c, outcomes, |outcomes|);
      GroupRunSnoc(log, first, g, SendOps(c, outcomes, |outcomes|), Start(c));
    } else {
      HandleIsSteps(log, first, g, c, p, s);
    }
  }

  /** After n deliveries the group's books are those of the agent's memory. */
  ghost predicate BookedAt(log: seq<Entry>, first: nat, g: Group, c: string, p: Retry.Policy, dests: seq<string>,
                           m: Memory, r: Round, n: nat)
    requires first <= |log| && RoundOk(r, dests) && n <= |r.batch|
  {
    GroupAt(log, first, g, c, p, dests, r, n).ledger == BatchSpec(m, r, p, dests, n).ledger
  }

  lemma NextBooks(log: seq<Entry>, first: nat, g: Group, c: string, p: Retry.Policy, dests: seq<string>, m: Memory,
                  r: Round, n: nat)
    requires first <= |log| && RoundOk(r, dests) && n < |r.batch|
    requires PoisedAt(log, first, g, c, p, dests, m, r, n) && BookedAt(log, first, g, c, p, dests, m, r, n)
    ensures BookedAt(log, first, g, c, p, dests, m, r, n + 1)
  {
    var h := GroupAt(log, first, g, c, p, dests, r, n);
    DeliveryBooks(log, first, h, c, p, dests, r.scripts[n], r.batch[n..], TraceAt(m, p, dests, r, n));
    GroupRunAppend(log, first, g, OpsUpTo(r, c, p, dests, n), DeliveryOps(r.batch[n], c, p, dests, r.scripts[n]));
  }

  /** None of the deliveries before the n-th panics. */
  ghost predicate SmoothBefore(r: Round, p: Retry.Policy, dests: seq<string>, n: nat)
    requires RoundOk(r, dests) && n <= |r.batch|
  {
    n > 0 ==> Smooth(r, p, dests, n - 1)
  }

  lemma SmoothPrefix(r: Round, p: Retry.Policy, dests: seq<string>, n: nat)
    requires RoundOk(r, dests) && 0 < n <= |r.batch| && SmoothBefore(r, p, dests, n)
    ensures SmoothBefore(r, p, dests, n - 1) && Smooth(r, p, dests, n - 1)
  {
  }

  lemma {:induction false} BatchBooks(log: seq<Entry>, first: nat, g: Group, c: string, p: Retry.Policy,
                                      dests: seq<string>, m: Memory, r: Round, n: nat)
    requires first <= |log| && RoundOk(r, dests) && n <= |r.batch| && SmoothBefore(r, p, dests, n)
    requires Poised(g, c, dests, r.batch, m.trace) && m.ledger == g.ledger
    ensures BookedAt(log, first, g, c, p, dests, m, r, n)
  {
    if n == 0 {
      NoBooks(log, first, g, c, p, dests, m, r);
    } else {
      SmoothPrefix(r, p, dests, n);
      BatchBooks(log, first, g, c, p, dests, m, r, n - 1);
      BooksGoOn(log, first, g, c, p, dests, m, r, n - 1);
    }
  }

  lemma NoBooks(log: seq<Entry>, first: nat, g: Group, c: string, p: Retry.Policy, dests: seq<string>, m: Memory,
                r: Round)
    requires first <= |log| && RoundOk(r, dests) && m.ledger == g.ledger
    ensures BookedAt(log, first, g, c, p, dests, m, r, 0)
  {
  }

  lemma BooksGoOn(log: seq<Entry>, first: nat, g: Group, c: string, p: Retry.Policy, dests: seq<string>, m: Memory,
                  r: Round, n: nat)
    requires first <= |log| && RoundOk(r, dests) && n < |r.batch| && Smooth(r, p, dests, n)
    requires Poised(g, c, dests, r.batch, m.trace) && BookedAt(log, first, g, c, p, dests, m, r, n)
    ensures BookedAt(log, first, g, c, p, dests, m, r, n + 1)
  {
    BatchSteps(log, first, g, c, p, dests, m, r, n);
    NextBooks(log, first, g, c, p, dests, m, r, n);
  }

  /** One batch leaves the group's books as it leaves the agent's memory. */
  lemma RoundBooks(log: seq<Entry>, first: nat, g: Group, c: string, p: Retry.Policy, dests: seq<string>, m: Memory,
                   r: Round)
    requires first <= |log| && RoundOk(r, dests) && Poised(g, c, dests, r.batch, m.trace) && m.ledger == g.ledger
    ensures GroupRun(log, first, g, RoundOps(r, c, p, dests)).ledger ==
      BatchSpec(m, r, p, dests, Stop(r, p, dests)).ledger
  {
    var n := Stop(r, p, dests);
    StopIs(r, p, dests, 0);
    StopIsBegun(r, p, dests);
    BatchBooks(log, first, g, c, p, dests, m, r, n);
    RoundRun(log, first, g, c, p, dests, r, n);
    StoppedSteps(log, first, g, c, p, dests, m, r, n);
    if Noticed(r, p, dests) {
      CancelDrops(log, first, GroupAt(log, first, g, c, p, dests, r, n), c, dests, r.batch[n..],
                  TraceAt(m, p, dests, r, n));
    }
  }

  // ---- a run ------------------------------------------------------------------

  /**
   What happens in the world before a turn, how many entries its read asks for and when, whether a read that fails was
   carried out with its answer lost, and what happens while the batch is handled, the agent's own steps among it.
   */
  datatype Between = Between(steps: seq<Step>, count: int, now: int, replyLost: bool, during: seq<Step>)

  /** A step that is not the agent's own: any of the stream, of another group or consumer, or of housekeeping. */
  predicate Foreign(s: Step, name: string, c: string) {
    !s.At? || s.group != name || s.op.consumer != c || s.op.Retire? || s.op.ClaimPage? || s.op.ReclaimAck?
  }

  ghost predicate AllForeign(steps: seq<Step>, name: string, c: string) {
    forall i :: 0 <= i < |steps| ==> Foreign(steps[i], name, c)
  }

  /** The group of a world in which the agent is poised. */
  ghost predicate PoisedIn(w: World, name: string, c: string, dests: seq<string>, inbox: seq<Entry>,
                           trace: seq<Event>) {
    w.first <= |w.log| && name in w.groups && Poised(w.groups[name], c, dests, inbox, trace)
  }

  lemma ForeignGroupStep(log: seq<Entry>, first: nat, g: Group, op: Op, name: string, c: string, dests: seq<string>,
                         inbox: seq<Entry>, trace: seq<Event>)
    requires first <= |log| && Poised(g, c, dests, inbox, trace) && Foreign(At(name, op), name, c)
    ensures Poised(GroupStep(log, first, g, op), c, dests, inbox, trace)
  {
  }

  lemma ForeignStep(w: World, s: Step, name: string, c: string, dests: seq<string>, inbox: seq<Entry>,
                    trace: seq<Event>)
    requires PoisedIn(w, name, c, dests, inbox, trace) && Foreign(s, name, c)
    ensures PoisedIn(Apply(w, s), name, c, dests, inbox, trace)
  {
    if s.At? && s.group == name {
      ForeignGroupStep(w.log, w.first, w.groups[name], s.op, name, c, dests, inbox, trace);
    }
  }

  lemma {:induction false} ForeignRun(w: World, steps: seq<Step>, name: string, c: string, dests: seq<string>,
                                      inbox: seq<Entry>, trace: seq<Event>)
    requires PoisedIn(w, name, c, dests, inbox, trace) && AllForeign(steps, name, c)
    ensures PoisedIn(Run(w, steps), name, c, dests, inbox, trace)
  {
    if steps != [] {
      ForeignRun(w, steps[..|steps| - 1], name, c, dests, inbox, trace);
      ForeignStep(Run(w, steps[..|steps| - 1]), steps[|steps| - 1], name, c, dests, inbox, trace);
    }
  }

  // ---- the agent's own steps among others -----------------------------------------

  /** What the agent itself does in some steps. */
  function OwnOps(steps: seq<Step>, name: string, c: string): seq<Op> {
    if steps == [] then [] else
    var last := steps[|steps| - 1];
    OwnOps(steps[..|steps| - 1], name, c) + if Foreign(last, name, c) then [] else [last.op]
  }

  /** The agent is the same in both groups, but for what it has claimed to acknowledge without handling. */
  ghost predicate Alike(g: Group, h: Group, c: string) {
    && c in g.agents && c in h.agents && g.dests == h.dests
    && g.agents[c].(claimed := {}) == h.agents[c].(claimed := {})
  }

  /** Neither the log nor the books matter to the agent's own step, unless it reads. */
  lemma OwnStep(log: seq<Entry>, first: nat, g: Group, other: seq<Entry>, from: nat, h: Group, op: Op, name: string)
    requires first <= |log| && from <= |other| && Alike(g, h, op.consumer)
    requires !op.Read? && !Foreign(At(name, op), name, op.consumer)
    ensures Alike(GroupStep(log, first, g, op), GroupStep(other, from, h, op), op.consumer)
  {
  }

  lemma OtherStep(log: seq<Entry>, first: nat, g: Group, h: Group, op: Op, name: string, c: string)
    requires first <= |log| && Alike(g, h, c) && Foreign(At(name, op), name, c)
    ensures Alike(GroupStep(log, first, g, op), h, c)
  {
  }

  ghost predicate NoRead(ops: seq<Op>) {
    forall i :: 0 <= i < |ops| ==> !ops[i].Read?
  }

  /** The agent in the world is as it is in the group. */
  ghost predicate AlikeIn(w: World, name: string, h: Group, c: string) {
    w.first <= |w.log| && name in w.groups && Alike(w.groups[name], h, c)
  }

  lemma NextAlike(w: World, s: Step, other: seq<Entry>, from: nat, g: Group, own: seq<Op>, name: string, c: string)
    requires from <= |other| && AlikeIn(w, name, GroupRun(other, from, g, own), c)
    requires Foreign(s, name, c) || !s.op.Read?
    ensures var all := own + if Foreign(s, name, c) then [] else [s.op];
      AlikeIn(Apply(w, s), name, GroupRun(other, from, g, all), c)
  {
    if !Foreign(s, name, c) {
      GroupRunSnoc(other, from, g, own, s.op);
      OwnStep(w.log, w.first, w.groups[name], other, from, GroupRun(other, from, g, own), s.op, name);
    } else {
      assert own + [] == own;
      if s.At? && s.group == name {
        OtherStep(w.log, w.first, w.groups[name], GroupRun(other, from, g, own), s.op, name, c);
      }
    }
  }

  lemma {:induction false} Interleaved(w: World, steps: seq<Step>, name: string, c: string)
    requires w.first <= |w.log| && name in w.groups && c in w.groups[name].agents && NoRead(OwnOps(steps, name, c))
    ensures AlikeIn(Run(w, steps), name, GroupRun(w.log, w.first, w.groups[name], OwnOps(steps, name, c)), c)
  {
    if steps != [] {
      var before, last := steps[..|steps| - 1], steps[|steps| - 1];
      var own := OwnOps(before, name, c);
      assert OwnOps(steps, name, c) == own + if Foreign(last, name, c) then [] else [last.op];
      assert forall i :: 0 <= i < |own| ==> own[i] == OwnOps(steps, name, c)[i];
      assert Foreign(last, name, c) || last.op == OwnOps(steps, name, c)[|own|];
      Interleaved(w, before, name, c);
      NextAlike(Run(w, before), last, w.log, w.first, w.groups[name], own, name, c);
    }
  }

  lemma ReadStep(w: World, name: string, c: string, dests: seq<string>, trace: seq<Event>, count: int, now: int)
    requires PoisedIn(w, name, c, dests, [], trace)
    ensures PoisedIn(Apply(w, At(name, Read(c, count, now, false))), name, c, dests,
                     Batch(w.log, w.first, w.groups[name].ledger.cursor, count), trace)
  {
  }

  /** The steps of one turn: what came before it, its read, and its batch among what else happened meanwhile. */
  function TurnSteps(t: Turn, b: Between, name: string, c: string): seq<Step> {
    if t.Got? then BeforeBatch(b, name, c) + b.during
    else if t.ReadFailed? && b.replyLost then b.steps + [At(name, Read(c, b.count, b.now, true))]
    else b.steps
  }

  function BeforeBatch(b: Between, name: string, c: string): seq<Step> {
    b.steps + [At(name, Read(c, b.count, b.now, false))]
  }

  /**
   The turn's batch is what its read returns after what came before, and while it is handled the agent's own steps are
   those of the batch, in that order, with any others among them.
   */
  ghost predicate Fed(w: World, t: Turn, b: Between, name: string, c: string, p: Retry.Policy, dests: seq<string>)
    requires w.first <= |w.log| && (t.Got? ==> RoundOk(t.round, dests))
  {
    && AllForeign(b.steps, name, c)
    && (t.Got? ==>
        var v := Run(w, b.steps);
        && name in v.groups && t.round.batch == Batch(v.log, v.first, v.groups[name].ledger.cursor, b.count)
        && OwnOps(b.during, name, c) == RoundOps(t.round, c, p, dests))
  }

  /** Nothing but the batch happens while it is handled. */
  ghost predicate Undisturbed(t: Turn, b: Between, name: string, c: string, p: Retry.Policy, dests: seq<string>)
    requires t.Got? ==> RoundOk(t.round, dests)
  {
    t.Got? && b.during == AtAll(name, RoundOps(t.round, c, p, dests))
  }

  /** Steps of one agent, of which none is a read. */
  ghost predicate Handles(ops: seq<Op>, c: string) {
    forall i :: 0 <= i < |ops| ==> ops[i].consumer == c && !ops[i].Read?
  }

  lemma {:induction false} SendHandles(c: string, outcomes: seq<D.Outcome>, k: nat)
    requires k <= |outcomes|
    ensures Handles(SendOps(c, outcomes, k), c)
  {
    if k > 0 {
      SendHandles(c, outcomes, k - 1);
    }
  }

  lemma BothHandle(a: seq<Op>, b: seq<Op>, c: string)
    requires Handles(a, c) && Handles(b, c)
    ensures Handles(a + b, c)
  {
  }

  lemma DeliveryHandles(d: Entry, c: string, p: Retry.Policy, dests: seq<string>, s: Script)
    requires |s.plays| == |dests|
    ensures Handles(DeliveryOps(d, c, p, dests, s), c)
  {
    var outcomes := OutcomesOf(p, dests, s);
    SendHandles(c, outcomes, |outcomes|);
    SendHandles(c, outcomes, 0);
  }

  ghost predicate HandlesUpTo(r: Round, c: string, p: Retry.Policy, dests: seq<string>, n: nat)
    requires RoundOk(r, dests) && n <= |r.batch|
  {
    Handles(OpsUpTo(r, c, p, dests, n), c)
  }

  lemma NextHandles(r: Round, c: string, p: Retry.Policy, dests: seq<string>, n: nat)
    requires RoundOk(r, dests) && n < |r.batch| && HandlesUpTo(r, c, p, dests, n)
    ensures HandlesUpTo(r, c, p, dests, n + 1)
  {
    DeliveryHandles(r.batch[n], c, p, dests, r.scripts[n]);
    BothHandle(OpsUpTo(r, c, p, dests, n), DeliveryOps(r.batch[n], c, p, dests, r.scripts[n]), c);
  }

  lemma NoneHandled(r: Round, c: string, p: Retry.Policy, dests: seq<string>)
    requires RoundOk(r, dests)
    ensures HandlesUpTo(r, c, p, dests, 0)
  {
  }

  lemma {:induction false} BatchHandles(r: Round, c: string, p: Retry.Policy, dests: seq<string>, n: nat)
    requires RoundOk(r, dests) && n <= |r.batch|
    ensures HandlesUpTo(r, c, p, dests, n)
  {
    if n == 0 {
      NoneHandled(r, c, p, dests);
    } else {
      BatchHandles(r, c, p, dests, n - 1);
      NextHandles(r, c, p, dests, n - 1);
    }
  }

  lemma RoundHandles(r: Round, c: string, p: Retry.Policy, dests: seq<string>)
    requires RoundOk(r, dests)
    ensures Handles(RoundOps(r, c, p, dests), c) && NoRead(RoundOps(r, c, p, dests))
  {
    BatchHandles(r, c, p, dests, Begun(r, p, dests));
  }

  /** The agent's record in a world. */
  ghost predicate RecordedIn(w: World, name: string, c: string, dests: seq<string>, trace: seq<Event>) {
    w.first <= |w.log| && name in w.groups && Recorded(w.groups[name], c, dests, trace)
  }

  lemma LostReadStep(w: World, name: string, c: string, dests: seq<string>, trace: seq<Event>, count: int, now: int)
    requires PoisedIn(w, name, c, dests, [], trace)
    ensures PoisedIn(Apply(w, At(name, Read(c, count, now, true))), name, c, dests, [], trace)
  {
  }

  /** The turn's acknowledgements are what it does to the group's books, from its read on. */
  ghost predicate Booked(w: World, t: Turn, b: Between, name: string, c: string, p: Retry.Policy, dests: seq<string>,
                         m: Memory)
    requires t.Got? && RoundOk(t.round, dests)
  {
    w.first <= |w.log| &&
    var v, u := Run(w, BeforeBatch(b, name, c)), Run(w, TurnSteps(t, b, name, c));
    && name in v.groups && name in u.groups
    && u.groups[name].ledger ==
       BatchSpec(m.(ledger := v.groups[name].ledger), t.round, p, dests, Stop(t.round, p, dests)).ledger
  }

  /** The agent is poised on the batch that its read returned. */
  lemma BatchRead(w: World, b: Between, r: Round, name: string, c: string, p: Retry.Policy, dests: seq<string>,
                  trace: seq<Event>)
    requires RoundOk(r, dests) && PoisedIn(w, name, c, dests, [], trace) && Fed(w, Got(r), b, name, c, p, dests)
    ensures PoisedIn(Run(w, BeforeBatch(b, name, c)), name, c, dests, r.batch, trace)
  {
    ForeignRun(w, b.steps, name, c, dests, [], trace);
    ReadStep(Run(w, b.steps), name, c, dests, trace, b.count, b.now);
    RunSnoc(w, b.steps, At(name, Read(c, b.count, b.now, false)));
  }

  lemma BatchRun(w: World, b: Between, r: Round, name: string, c: string, p: Retry.Policy, dests: seq<string>)
    requires RoundOk(r, dests) && w.first <= |w.log| && name in Run(w, BeforeBatch(b, name, c)).groups
    requires Undisturbed(Got(r), b, name, c, p, dests)
    ensures var v := Run(w, BeforeBatch(b, name, c));
      Run(w, TurnSteps(Got(r), b, name, c)) ==
        v.(groups := v.groups[name := GroupRun(v.log, v.first, v.groups[name], RoundOps(r, c, p, dests))])
  {
    RunAppend(w, BeforeBatch(b, name, c), AtAll(name, RoundOps(r, c, p, dests)));
    GroupRunIsRun(Run(w, BeforeBatch(b, name, c)), name, RoundOps(r, c, p, dests));
  }

  lemma GotSteps(w: World, b: Between, r: Round, name: string, c: string, p: Retry.Policy, dests: seq<string>,
                 m: Memory)
    requires RoundOk(r, dests) && PoisedIn(w, name, c, dests, [], m.trace) && Fed(w, Got(r), b, name, c, p, dests)
    ensures var u := Run(w, TurnSteps(Got(r), b, name, c));
      var trace := TraceAt(m, p, dests, r, Stop(r, p, dests));
      RecordedIn(u, name, c, dests, trace) && (!Leaves(r, p, dests) ==> PoisedIn(u, name, c, dests, [], trace))
  {
    BatchRead(w, b, r, name, c, p, dests, m.trace);
    RoundHandles(r, c, p, dests);
    RunAppend(w, BeforeBatch(b, name, c), b.during);
    var v := Run(w, BeforeBatch(b, name, c));
    Interleaved(v, b.during, name, c);
    RoundSteps(v.log, v.first, v.groups[name], c, p, dests, m, r);
  }

  lemma GotBooks(w: World, b: Between, r: Round, name: string, c: string, p: Retry.Policy, dests: seq<string>,
                 m: Memory)
    requires RoundOk(r, dests) && PoisedIn(w, name, c, dests, [], m.trace) && Fed(w, Got(r), b, name, c, p, dests)
    requires Undisturbed(Got(r), b, name, c, p, dests)
    ensures Booked(w, Got(r), b, name, c, p, dests, m)
  {
    BatchRead(w, b, r, name, c, p, dests, m.trace);
    BatchRun(w, b, r, name, c, p, dests);
    var v := Run(w, BeforeBatch(b, name, c));
    RoundBooks(v.log, v.first, v.groups[name], c, p, dests, m.(ledger := v.groups[name].ledger), r);
  }

  lemma TurnIsSteps(w: World, t: Turn, b: Between, name: string, c: string, p: Retry.Policy, dests: seq<string>,
                    m: Memory)
    requires (t.Got? ==> RoundOk(t.round, dests)) && PoisedIn(w, name, c, dests, [], m.trace)
    requires Fed(w, t, b, name, c, p, dests)
    ensures var u := Run(w, TurnSteps(t, b, name, c));
      var trace := TurnSpec(m, t, p, dests).trace;
      && RecordedIn(u, name, c, dests, trace)
      && (!EndsRun(t, p, dests) ==> PoisedIn(u, name, c, dests, [], trace))
    ensures Undisturbed(t, b, name, c, p, dests) ==> Booked(w, t, b, name, c, p, dests, m)
  {
    if t.Got? {
      GotSteps(w, b, t.round, name, c, p, dests, m);
      if Undisturbed(t, b, name, c, p, dests) {
        GotBooks(w, b, t.round, name, c, p, dests, m);
      }
    } else {
      ForeignRun(w, b.steps, name, c, dests, [], m.trace);
      LostReadStep(Run(w, b.steps), name, c, dests, m.trace, b.count, b.now);
      RunSnoc(w, b.steps, At(name, Read(c, b.count, b.now, true)));
    }
  }

  /** One turn as the world and the agent's memory go through it. */
  ghost predicate Turned(w: World, u: World, m: Memory, n: Memory, t: Turn, b: Between, name: string, c: string,
                         p: Retry.Policy, dests: seq<string>)
    requires t.Got? ==> RoundOk(t.round, dests)
  {
    && w.first <= |w.log| && Fed(w, t, b, name, c, p, dests)
    && u == Run(w, TurnSteps(t, b, name, c)) && n == TurnSpec(m, t, p, dests)
  }

  /** The worlds and the memories between the first k turns of a run. */
  ghost predicate Story(worlds: seq<World>, mems: seq<Memory>, turns: seq<Turn>, bs: seq<Between>, name: string,
                        c: string, p: Retry.Policy, dests: seq<string>, k: nat)
    requires TurnsOk(turns, dests) && k <= |turns| == |bs|
  {
    && |worlds| == |mems| == k + 1
    && forall i :: 0 <= i < k ==>
      Turned(worlds[i], worlds[i + 1], mems[i], mems[i + 1], turns[i], bs[i], name, c, p, dests)
  }

  lemma TurnedWell(w: World, u: World, m: Memory, n: Memory, t: Turn, b: Between, name: string, c: string,
                   p: Retry.Policy, dests: seq<string>)
    requires (t.Got? ==> RoundOk(t.round, dests)) && PoisedIn(w, name, c, dests, [], m.trace)
    requires Turned(w, u, m, n, t, b, name, c, p, dests)
    ensures RecordedIn(u, name, c, dests, n.trace)
    ensures !EndsRun(t, p, dests) ==> PoisedIn(u, name, c, dests, [], n.trace)
    ensures Undisturbed(t, b, name, c, p, dests) ==> Booked(w, t, b, name, c, p, dests, m)
  {
    TurnIsSteps(w, t, b, name, c, p, dests, m);
  }

  /** The turns before the k-th do not end the run. */
  ghost predicate GoesOn(turns: seq<Turn>, p: Retry.Policy, dests: seq<string>, k: nat)
    requires TurnsOk(turns, dests) && k <= |turns|
  {
    forall i :: 0 <= i < k ==> !EndsRun(turns[i], p, dests)
  }

  lemma {:induction false} OngoingRun(worlds: seq<World>, mems: seq<Memory>, turns: seq<Turn>, bs: seq<Between>,
                                      name: string, c: string, p: Retry.Policy, dests: seq<string>, k: nat, i: nat)
    requires TurnsOk(turns, dests) && i <= k <= |turns| == |bs| && Story(worlds, mems, turns, bs, name, c, p, dests, k)
    requires PoisedIn(worlds[0], name, c, dests, [], mems[0].trace) && GoesOn(turns, p, dests, i)
    ensures PoisedIn(worlds[i], name, c, dests, [], mems[i].trace)
  {
    if i > 0 {
      OngoingRun(worlds, mems, turns, bs, name, c, p, dests, k, i - 1);
      StoryTurn(worlds, mems, turns, bs, name, c, p, dests, k, i - 1);
      assert !EndsRun(turns[i - 1], p, dests);
    }
  }

  lemma StoryTurn(worlds: seq<World>, mems: seq<Memory>, turns: seq<Turn>, bs: seq<Between>, name: string, c: string,
                  p: Retry.Policy, dests: seq<string>, k: nat, i: nat)
    requires TurnsOk(turns, dests) && i < k <= |turns| == |bs| && Story(worlds, mems, turns, bs, name, c, p, dests, k)
    requires PoisedIn(worlds[i], name, c, dests, [], mems[i].trace)
    ensures RecordedIn(worlds[i + 1], name, c, dests, mems[i + 1].trace)
    ensures !EndsRun(turns[i], p, dests) ==> PoisedIn(worlds[i + 1], name, c, dests, [], mems[i + 1].trace)
    ensures Undisturbed(turns[i], bs[i], name, c, p, dests) ==>
      Booked(worlds[i], turns[i], bs[i], name, c, p, dests, mems[i])
  {
    TurnedWell(worlds[i], worlds[i + 1], mems[i], mems[i + 1], turns[i], bs[i], name, c, p, dests);
  }

  lemma {:induction false} SpanIs(turns: seq<Turn>, p: Retry.Policy, dests: seq<string>, i: nat)
    requires TurnsOk(turns, dests) && i <= |turns| && GoesOn(turns, p, dests, i)
    ensures var k := Span(turns, p, dests, i);
      GoesOn(turns, p, dests, k) || (k > 0 && GoesOn(turns, p, dests, k - 1))
    decreases |turns| - i
  {
    if i < |turns| && !turns[i].Cancelled? && !EndsRun(turns[i], p, dests) {
      SpanIs(turns, p, dests, i + 1);
    }
  }

  /** The memories of a story are those of `StreamAgent.Run`. */
  lemma {:induction false} StoryMemory(worlds: seq<World>, mems: seq<Memory>, turns: seq<Turn>, bs: seq<Between>,
                                       name: string, c: string, p: Retry.Policy, dests: seq<string>, k: nat, i: nat)
    requires TurnsOk(turns, dests) && i <= k <= |turns| == |bs| && Story(worlds, mems, turns, bs, name, c, p, dests, k)
    ensures mems[i] == RunSpec(mems[0], turns, p, dests, i)
  {
    if i > 0 {
      StoryMemory(worlds, mems, turns, bs, name, c, p, dests, k, i - 1);
      assert Turned(worlds[i - 1], worlds[i], mems[i - 1], mems[i], turns[i - 1], bs[i - 1], name, c, p, dests);
    }
  }

  /** The worlds of a story are those of a run of the protocol. */
  lemma {:induction false} StoryWorld(worlds: seq<World>, mems: seq<Memory>, turns: seq<Turn>, bs: seq<Between>,
                                      name: string, c: string, p: Retry.Policy, dests: seq<string>, k: nat, i: nat)
    returns (steps: seq<Step>)
    requires TurnsOk(turns, dests) && i <= k <= |turns| == |bs| && Story(worlds, mems, turns, bs, name, c, p, dests, k)
    requires worlds[0].first <= |worlds[0].log|
    ensures worlds[i] == Run(worlds[0], steps)
  {
    if i == 0 {
      steps := [];
    } else {
      var before := StoryWorld(worlds, mems, turns, bs, name, c, p, dests, k, i - 1);
      assert Turned(worlds[i - 1], worlds[i], mems[i - 1], mems[i], turns[i - 1], bs[i - 1], name, c, p, dests);
      var more := TurnSteps(turns[i - 1], bs[i - 1], name, c);
      RunAppend(worlds[0], before, more);
      steps := before + more;
    }
  }

  lemma GoesBefore(turns: seq<Turn>, p: Retry.Policy, dests: seq<string>, i: nat)
    requires TurnsOk(turns, dests) && i < Span(turns, p, dests)
    ensures GoesOn(turns, p, dests, i)
  {
    SpanIs(turns, p, dests, 0);
  }

  /** Each undisturbed batch of a run changes the group's books, from its read on, as it changes the agent's memory. */
  lemma TurnBooks(worlds: seq<World>, mems: seq<Memory>, turns: seq<Turn>, bs: seq<Between>, name: string, c: string,
                  p: Retry.Policy, dests: seq<string>, k: nat, i: nat)
    requires TurnsOk(turns, dests) && |turns| == |bs| && k == Span(turns, p, dests) && i < k
    requires Undisturbed(turns[i], bs[i], name, c, p, dests)
    requires Story(worlds, mems, turns, bs, name, c, p, dests, k)
    requires PoisedIn(worlds[0], name, c, dests, [], mems[0].trace)
    ensures Booked(worlds[i], turns[i], bs[i], name, c, p, dests, mems[i])
  {
    GoesBefore(turns, p, dests, i);
    OngoingRun(worlds, mems, turns, bs, name, c, p, dests, k, i);
    StoryTurn(worlds, mems, turns, bs, name, c, p, dests, k, i);
  }

  /**
   Whatever the world does between the turns and while a batch is handled, the record that `StreamAgent.Run` leaves,
   through failed reads, cancellation in a batch and panics, is the one the agent has after a run of the protocol.
   */
  lemma RunIsSteps(worlds: seq<World>, mems: seq<Memory>, turns: seq<Turn>, bs: seq<Between>, name: string, c: string,
                   p: Retry.Policy, dests: seq<string>, k: nat)
    returns (steps: seq<Step>)
    requires TurnsOk(turns, dests) && |turns| == |bs| && k == Span(turns, p, dests)
    requires Story(worlds, mems, turns, bs, name, c, p, dests, k)
    requires PoisedIn(worlds[0], name, c, dests, [], mems[0].trace)
    ensures RecordedIn(Run(worlds[0], steps), name, c, dests, RunSpec(mems[0], turns, p, dests, k).trace)
  {
    SpanIs(turns, p, dests, 0);
    if GoesOn(turns, p, dests, k) {
      OngoingRun(worlds, mems, turns, bs, name, c, p, dests, k, k);
    } else {
      OngoingRun(worlds, mems, turns, bs, name, c, p, dests, k, k - 1);
      StoryTurn(worlds, mems, turns, bs, name, c, p, dests, k, k - 1);
    }
    StoryMemory(worlds, mems, turns, bs, name, c, p, dests, k, k);
    steps := StoryWorld(worlds, mems, turns, bs, name, c, p, dests, k, k);
  }

  /** Acknowledgement j of a record follows its resolution, which is all the record ever says of that id. */
  ghost predicate WellAcked(trace: seq<Event>, dests: seq<string>, j: nat)
    requires j < |trace|
  {
    && Resolved(trace[..j], trace[j].id, dests)
    && DestsOf(trace, trace[j].id) == DestsOf(trace[..j], trace[j].id)
    && (forall i :: 0 <= i < |trace| && trace[i] == trace[j] ==> i == j)
  }

  lemma ReachedAcks(w: World, steps: seq<Step>, name: string, c: string, dests: seq<string>, trace: seq<Event>, j: nat)
    requires Initial(w) && RecordedIn(Run(w, steps), name, c, dests, trace) && j < |trace| && trace[j].Acked?
    ensures WellAcked(trace, dests, j)
  {
    AcknowledgedWasResolved(w, steps, name, c, j);
  }

  /** So whatever `StreamAgent.Run` acknowledged, from any reachable state on, it had resolved and acknowledged once. */
  lemma RunAcksAreResolved(w: World, past: seq<Step>, worlds: seq<World>, mems: seq<Memory>, turns: seq<Turn>,
                           bs: seq<Between>, name: string, c: string, p: Retry.Policy, dests: seq<string>, j: nat)
    requires Initial(w) && TurnsOk(turns, dests) && |turns| == |bs|
    requires Story(worlds, mems, turns, bs, name, c, p, dests, Span(turns, p, dests)) && worlds[0] == Run(w, past)
    requires PoisedIn(worlds[0], name, c, dests, [], mems[0].trace)
    requires var trace := RunSpec(mems[0], turns, p, dests, Span(turns, p, dests)).trace;
      j < |trace| && trace[j].Acked?
    ensures WellAcked(RunSpec(mems[0], turns, p, dests, Span(turns, p, dests)).trace, dests, j)
  {
    var k := Span(turns, p, dests);
    var steps := RunIsSteps(worlds, mems, turns, bs, name, c, p, dests, k);
    RunAppend(w, past, steps);
    ReachedAcks(w, past + steps, name, c, dests, RunSpec(mems[0], turns, p, dests, k).trace, j);
  }
}
