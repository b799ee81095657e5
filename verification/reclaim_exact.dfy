/**
 The exact condition under which a reclaim pass can be relied on, over the states that runs of the stream reach.
 */
module ReclaimExact {
  import opened ConsumerGroup
  import opened ConsumerGroupTheorems
  import opened Reclaim
  import opened ReclaimComplete

  // ---- runs that leave a pass stuck ---------------------------------------------

  const NAME: string := "g"

  /** The steps that append n entries. */
  function Appends(n: nat): seq<Step> {
    if n == 0 then [] else Appends(n - 1) + [Append(Entry(n, true))]
  }

  function Fresh(n: nat): World { World(Numbers(n), 0, map[NAME := NewGroup([], [])]) }

  lemma FreshAppend(n: nat)
    ensures Apply(Fresh(n), Append(Entry(n + 1, true))) == Fresh(n + 1)
  {
    assert n > 0 ==> LastId(Numbers(n)) == n;
    assert Numbers(n) + [Entry(n + 1, true)] == Numbers(n + 1);
  }

  lemma AppendsOne(n: nat)
    requires Run(Fresh(0), Appends(n)) == Fresh(n)
    ensures Run(Fresh(0), Appends(n + 1)) == Fresh(n + 1)
  {
    RunAppend(Fresh(0), Appends(n), [Append(Entry(n + 1, true))]);
    OneStep(Fresh(n), Append(Entry(n + 1, true)));
    FreshAppend(n);
  }

  lemma {:induction false} AppendsRun(n: nat)
    ensures Run(Fresh(0), Appends(n)) == Fresh(n)
  {
    if n > 0 {
      AppendsRun(n - 1);
      AppendsOne(n - 1);
    }
  }

  /** A worker reads everything, and takes the first `young` anew at time 0. */
  function WorkerOps(young: nat, minIdle: int): seq<Op> {
    [Start("worker"), Read("worker", 0, LongAgo(minIdle), false)] +
    if young > 0 then [ClaimPage("worker", 0, 0, young, 0)] else []
  }

  lemma WholeBatch(log: seq<Entry>, m: nat)
    requires log == Numbers(m + 1)
    ensures Batch(log, 0, 0, 0) == log
  {
    assert log[0].id > 0;
    assert log[0..] == log;
  }

  lemma NumberIds(log: seq<Entry>, m: nat)
    requires log == Numbers(m + 1)
    ensures Ids(log) == seq(m + 1, i requires 0 <= i => i + 1)
    ensures forall id :: id in Ids(log) <==> id in Upto(m + 1)
  {
    var ids := Ids(log);
    forall id | id in Upto(m + 1) ensures id in ids {
      assert ids[id - 1] == id;
    }
  }

  lemma AllPending(ids: seq<EntryId>, k: nat, minIdle: int)
    requires forall id :: id in ids <==> id in Upto(k)
    ensures (map id | id in ids :: Claim("worker", LongAgo(minIdle))) == PendingUpTo(k, 0, minIdle)
  {
  }

  lemma DeliverAll(log: seq<Entry>, ids: seq<EntryId>, m: nat, since: int, pending: map<EntryId, Claim>)
    requires log == Numbers(m + 1) && ids == Ids(log)
    requires (map id | id in ids :: Claim("worker", since)) == pending
    ensures Deliver(NewGroup([], []).ledger, log, "worker", since) == Ledger(0, m + 1, pending, ids, {}, {}, {})
  {
    DeliverNew(NewGroup([], []).ledger, log, since, pending);
    assert log[m].id == m + 1;
  }

  lemma DeliverNew(l: Ledger, batch: seq<Entry>, since: int, pending: map<EntryId, Claim>)
    requires batch != [] && l.pending == map[] && l.delivered == []
    requires (map id | id in Ids(batch) :: Claim("worker", since)) == pending
    ensures Deliver(l, batch, "worker", since) ==
      l.(cursor := batch[|batch| - 1].id, pending := pending, delivered := Ids(batch))
  {
    var added := map id | id in Ids(batch) :: Claim("worker", since);
    assert l.pending + added == pending;
    assert l.delivered + Ids(batch) == Ids(batch);
  }

  lemma ReadAll(log: seq<Entry>, m: nat, minIdle: int)
    requires log == Numbers(m + 1)
    ensures var l := NewGroup([], []).ledger;
      Deliver(l, Batch(log, 0, l.cursor, 0), "worker", LongAgo(minIdle)) == BooksUpTo(m, 0, minIdle)
  {
    WholeBatch(log, m);
    NumberIds(log, m);
    AllPending(Ids(log), m + 1, minIdle);
    DeliverAll(log, Ids(log), m, LongAgo(minIdle), PendingUpTo(m + 1, 0, minIdle));
  }

  /** All idle enough for a claim without a minimum, which takes the first of them. */
  lemma {:induction false} ScanFirst(log: seq<Entry>, pending: map<EntryId, Claim>, m: nat, i: nat, count: nat,
                                     attempts: nat)
    requires log == Numbers(m + 1) && i <= i + count <= m && count <= attempts
    requires forall id :: id in pending <==> 1 <= id <= m + 1
    requires forall id :: id in pending ==> pending[id].since <= 0
    ensures var p := Scan(log, 0, i, pending, 0, 0, 0, count, attempts);
      p.purged == {} && forall id :: id in p.claimed <==> i + 1 <= id <= i + count
    decreases count
  {
    assert log[i].id == i + 1;
    if count > 0 {
      ScanFirst(log, pending, m, i + 1, count - 1, attempts - 1);
    }
  }

  /** The first claims anew. */
  function Anew(young: nat): map<EntryId, Claim> { map id | id in Upto(young) :: Claim("worker", 0) }

  lemma MarkFirst(k: nat, young: nat, minIdle: int)
    requires young < k
    ensures PendingUpTo(k, 0, minIdle) + Anew(young) == PendingUpTo(k, young, minIdle)
  {
  }

  lemma ClaimAnew(log: seq<Entry>, l: Ledger, m: nat, young: nat)
    requires log == Numbers(m + 1) && 0 < young <= m && AllHeld(l, m)
    ensures ApplyPage(l, AutoClaim(log, 0, l.pending, 0, 0, 0, young), "worker", 0)
      == l.(pending := l.pending + Anew(young))
  {
    ScanFirst(log, l.pending, m, 0, young, 10 * young);
    PageIs(l, AutoClaim(log, 0, l.pending, 0, 0, 0, young), young);
  }

  lemma PageIs(l: Ledger, page: Page, young: nat)
    requires page.purged == {} && l.purged == {} && forall id :: id in page.claimed <==> 1 <= id <= young
    ensures ApplyPage(l, page, "worker", 0) == l.(pending := l.pending + Anew(young))
  {
    assert (map id | id in page.claimed :: Claim("worker", 0)) == Anew(young);
    assert l.pending + Anew(young) - {} == l.pending + Anew(young);
  }

  lemma MarkBooks(l: Ledger, m: nat, young: nat, minIdle: int)
    requires young <= m && l == BooksUpTo(m, 0, minIdle)
    ensures l.(pending := l.pending + Anew(young)) == BooksUpTo(m, young, minIdle)
  {
    MarkFirst(m + 1, young, minIdle);
  }

  /** Everything is pending, since time 0 or before, and nothing was cleared. */
  ghost predicate AllHeld(l: Ledger, m: nat) {
    && l.purged == {} && (forall id :: id in l.pending <==> 1 <= id <= m + 1)
    && (forall id :: id in l.pending ==> l.pending[id].since <= 0)
  }

  lemma BooksHeld(l: Ledger, m: nat, minIdle: int)
    requires l == BooksUpTo(m, 0, minIdle)
    ensures AllHeld(l, m)
  {
  }

  /** The group has these books, and the worker is ready to read. */
  ghost predicate Working(g: Group, l: Ledger) {
    g.ledger == l && "worker" in g.agents && g.agents["worker"] == NEW_AGENT
  }

  lemma StartWorks(log: seq<Entry>, g: Group)
    requires "worker" !in g.agents
    ensures Working(GroupStep(log, 0, g, Start("worker")), g.ledger)
  {
  }

  lemma ReadWorks(log: seq<Entry>, g: Group, m: nat, minIdle: int)
    requires log == Numbers(m + 1) && Working(g, NewGroup([], []).ledger)
    ensures var h := GroupStep(log, 0, g, Read("worker", 0, LongAgo(minIdle), false));
      h.ledger == BooksUpTo(m, 0, minIdle) && "worker" in h.agents
  {
    ReadAll(log, m, minIdle);
  }

  lemma TwoOps(log: seq<Entry>, m: nat, minIdle: int) returns (h: Group)
    requires log == Numbers(m + 1)
    ensures h == GroupRun(log, 0, NewGroup([], []), WorkerOps(0, minIdle))
    ensures h.ledger == BooksUpTo(m, 0, minIdle) && "worker" in h.agents
  {
    var g := NewGroup([], []);
    var start, read := Start("worker"), Read("worker", 0, LongAgo(minIdle), false);
    GroupRunSnoc(log, 0, g, [], start);
    GroupRunSnoc(log, 0, g, [start], read);
    assert [] + [start] == [start] && [start] + [read] == WorkerOps(0, minIdle);
    StartWorks(log, g);
    ReadWorks(log, GroupRun(log, 0, g, [start]), m, minIdle);
    h := GroupRun(log, 0, g, WorkerOps(0, minIdle));
  }

  lemma ClaimBooks(log: seq<Entry>, g: Group, m: nat, young: nat)
    requires log == Numbers(m + 1) && 0 < young <= m && AllHeld(g.ledger, m) && "worker" in g.agents
    ensures GroupStep(log, 0, g, ClaimPage("worker", 0, 0, young, 0)).ledger
      == g.ledger.(pending := g.ledger.pending + Anew(young))
  {
    PageLinks(log, 0, g, "worker", 0, 0, young, 0);
    ClaimAnew(log, g.ledger, m, young);
  }

  lemma ThirdOp(log: seq<Entry>, young: nat, minIdle: int)
    requires young > 0
    ensures GroupRun(log, 0, NewGroup([], []), WorkerOps(young, minIdle)) ==
      GroupStep(log, 0, GroupRun(log, 0, NewGroup([], []), WorkerOps(0, minIdle)), ClaimPage("worker", 0, 0, young, 0))
  {
    var claim := ClaimPage("worker", 0, 0, young, 0);
    GroupRunSnoc(log, 0, NewGroup([], []), WorkerOps(0, minIdle), claim);
    assert WorkerOps(0, minIdle) + [claim] == WorkerOps(young, minIdle);
  }

  /** The worker's steps leave the books of a stuck pass. */
  lemma WorkerBooks(log: seq<Entry>, m: nat, young: nat, minIdle: int)
    requires log == Numbers(m + 1) && young <= m
    ensures GroupRun(log, 0, NewGroup([], []), WorkerOps(young, minIdle)).ledger == BooksUpTo(m, young, minIdle)
  {
    var h := TwoOps(log, m, minIdle);
    if young > 0 {
      ThirdOp(log, young, minIdle);
      BooksHeld(h.ledger, m, minIdle);
      ClaimBooks(log, h, m, young);
      MarkBooks(h.ledger, m, young, minIdle);
    }
  }

  lemma TrimAfter(w: World, m: nat, first: nat, young: nat, minIdle: int)
    requires w.log == Numbers(m + 1) && w.first == 0 && first <= m && NAME in w.groups
    requires w.groups[NAME].ledger == BooksUpTo(m, young, minIdle)
    ensures var v := Apply(w, Trim(first));
      v.log == w.log && v.first == first && NAME in v.groups && v.groups[NAME].ledger == w.groups[NAME].ledger
  {
    var l := w.groups[NAME].ledger;
    assert forall i :: 0 <= i < first ==> w.log[i].id <= l.cursor;
    assert NoteTrim(w.log, 0, first, l).lost == {};
  }

  /** The state a pass finds is that of a group after a run of the stream. */
  ghost predicate After(s: Setting, w: World, steps: seq<Step>, name: string) {
    && Initial(w)
    && var v := Run(w, steps);
      name in v.groups && v.log == s.log && v.first == s.first && v.groups[name].ledger == s.ledger
  }

  ghost predicate Reachable(s: Setting) {
    exists w, steps, name :: After(s, w, steps, name)
  }

  /** The stream with its entries and the group on it. */
  lemma Filled(m: nat) returns (steps: seq<Step>)
    ensures Run(World([], 0, map[]), steps) == Fresh(m)
  {
    var w := World([], 0, map[]);
    OneStep(w, Create(NAME, []));
    assert Run(w, [Create(NAME, [])]) == Fresh(0);
    AppendsRun(m);
    RunAppend(w, [Create(NAME, [])], Appends(m));
    steps := [Create(NAME, [])] + Appends(m);
  }

  /** From there, the worker's steps and the trim. */
  lemma Worked(m: nat, first: nat, young: nat, minIdle: int) returns (steps: seq<Step>)
    requires first <= m && young <= m
    ensures var v := Run(Fresh(m + 1), steps);
      && NAME in v.groups && v.log == Numbers(m + 1) && v.first == first
      && v.groups[NAME].ledger == BooksUpTo(m, young, minIdle)
  {
    var v := Fresh(m + 1);
    var ops := AtAll(NAME, WorkerOps(young, minIdle));
    GroupRunIsRun(v, NAME, WorkerOps(young, minIdle));
    WorkerBooks(v.log, m, young, minIdle);
    TrimAfter(Run(v, ops), m, first, young, minIdle);
    OneStep(Run(v, ops), Trim(first));
    RunAppend(v, ops, [Trim(first)]);
    steps := ops + [Trim(first)];
  }

  lemma IsReachable(s: Setting, w: World, steps: seq<Step>, name: string)
    requires After(s, w, steps, name)
    ensures Reachable(s)
  {
  }

  /** The states that leave a pass stuck are reached by reading, claiming and trimming. */
  lemma StuckReachable(m: nat, first: nat, young: nat, batch: int, minIdle: int)
    requires first <= m && young <= m
    ensures Reachable(Stuck(m, first, young, batch, minIdle))
  {
    var w := World([], 0, map[]);
    var filled := Filled(m + 1);
    var worked := Worked(m, first, young, minIdle);
    RunAppend(w, filled, worked);
    var s := Stuck(m, first, young, batch, minIdle);
    assert s.log == Numbers(m + 1);
    IsReachable(s, w, filled + worked, NAME);
  }

  // ---- exactly -----------------------------------------------------------------

  /**
   Every pass that is answered throughout, in every reachable state with at most `n` entries pending and at most `t` of
   them trimmed, acknowledges every surviving entry that was idle enough, exactly when there is room.
   */
  lemma ReclaimCompleteExactly(batch: int, minIdle: int, n: nat, t: nat)
    ensures Room(batch, minIdle, n, t) <==>
      forall s | Fits(s, batch, minIdle, n, t) && Reachable(s) :: Complete(s)
  {
    if Room(batch, minIdle, n, t) {
      forall s | Fits(s, batch, minIdle, n, t) && Reachable(s) ensures Complete(s) {
        RoomIsEnough(s, batch, minIdle, n, t);
      }
    } else if minIdle > 0 && n > 10 * PageSize(batch) {
      var m := 10 * PageSize(batch);
      TooManyFresh(batch, minIdle);
      StuckFits(m, 0, m, batch, minIdle, n, t);
      StuckReachable(m, 0, m, batch, minIdle);
    } else {
      var m := PageSize(batch);
      TooManyTrimmed(batch, minIdle);
      StuckFits(m, m, 0, batch, minIdle, n, t);
      StuckReachable(m, m, 0, batch, minIdle);
    }
  }
}
