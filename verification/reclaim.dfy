/**
 The reclaim pass: claim what has been idle too long page by page, acknowledge it, retire consumers that
 hold nothing. Nothing else touches the group while a pass runs.
 */
module Reclaim {
  import opened ConsumerGroup
  import opened ConsumerGroupSafety
  import opened ConsumerGroupTheorems
  import opened ConsumerGroupLifecycle

  ghost predicate Nondecreasing(clock: nat -> int) {
    forall i, j :: 0 <= i <= j ==> clock(i) <= clock(j)
  }

  /**
   How a pass that has walked every id below `cursor` (all of them when it is 0) leaves the pending list
   it found: trimmed entries are cleared, entries idle at the start are taken, nothing younger than `minIdle`
   at the end is, and whatever is not taken keeps its owner.
   */
  ghost predicate PassWalked(log: seq<Entry>, first: nat, was: Ledger, l: Ledger, out: seq<EntryId>, cursor: EntryId,
                         c: string, minIdle: int, from: int, to: int)
  {
    && l == was.(pending := l.pending, purged := l.purged)
    && (forall m :: 0 <= m < |log| ==> EntryWalked(log, first, was, l, out, cursor, c, minIdle, from, to, m))
  }

  ghost predicate EntryWalked(log: seq<Entry>, first: nat, was: Ledger, l: Ledger, out: seq<EntryId>, cursor: EntryId,
                              c: string, minIdle: int, from: int, to: int, m: nat)
    requires m < |log|
  {
    var id := log[m].id;
    var passed := id in was.pending && (cursor == 0 || id < cursor);
    && (id in l.pending <==> id in was.pending && !(passed && m < first))
    && (id in l.purged <==> id in was.purged || (passed && m < first))
    && (id in out ==> passed && first <= m && to - was.pending[id].since >= minIdle)
    && (id in out ==> id in l.pending && l.pending[id].owner == c)
    && (passed && first <= m && from - was.pending[id].since >= minIdle ==> id in out)
    && (id in l.pending && id !in out ==> l.pending[id] == was.pending[id])
  }

  /** Where a pass stands when its next page starts at `start`: all ids are above 0, so "0-0" is the same as 1. */
  function Frontier(start: EntryId): EntryId { if start == 0 then 1 else start }

  lemma PageWalks(log: seq<Entry>, first: nat, was: Ledger, l: Ledger, out: seq<EntryId>, start: EntryId,
                  c: string, minIdle: int, from: int, to: int, now: int, count: int, m: nat)
    requires Sorted(log) && m < |log| && from <= to <= now
    requires EntryWalked(log, first, was, l, out, Frontier(start), c, minIdle, from, to, m)
    ensures var page := AutoClaim(log, first, l.pending, start, minIdle, now, count);
      EntryWalked(log, first, was, ApplyPage(l, page, c, now), out + page.claimed, page.next, c, minIdle, from, now, m)
  {
    ScanExact(log, first, 0, l.pending, start, minIdle, now, PageSize(count), 10 * PageSize(count), m);
    PageAdvances(log, first, l.pending, start, minIdle, now, count);
  }

  /** A page that claims anything moves the cursor on. */
  lemma PageAdvances(log: seq<Entry>, first: nat, pending: map<EntryId, Claim>, start: EntryId, minIdle: int, now: int,
                     count: int)
    requires Sorted(log)
    ensures var page := AutoClaim(log, first, pending, start, minIdle, now, count);
      && (page.next != 0 ==> page.next >= start && InLog(log, page.next) && page.next <= LastId(log))
      && (page.next != 0 && page.claimed != [] ==> page.next > start)
      && Increasing(page.claimed)
      && (forall id :: id in page.claimed ==> start <= id && (page.next == 0 || id < page.next))
  {
    var page := AutoClaim(log, first, pending, start, minIdle, now, count);
    ScanOrder(log, first, 0, pending, start, minIdle, now, PageSize(count), 10 * PageSize(count));
    forall id | id in page.claimed ensures start <= id && (page.next == 0 || id < page.next) {
      var m :| 0 <= m < |log| && log[m].id == id;
      ScanExact(log, first, 0, pending, start, minIdle, now, PageSize(count), 10 * PageSize(count), m);
    }
    if page.claimed != [] {
      assert page.claimed[0] in page.claimed;
    }
  }

  /** One page takes a pass from its frontier to where the page stopped. */
  lemma PassStep(log: seq<Entry>, first: nat, was: Ledger, l: Ledger, out: seq<EntryId>, start: EntryId,
                 c: string, minIdle: int, from: int, to: int, now: int, later: int, count: int)
    requires Sorted(log) && from <= to <= now <= later
    requires PassWalked(log, first, was, l, out, Frontier(start), c, minIdle, from, to)
    requires Increasing(out) && forall id :: id in out ==> id < Frontier(start)
    ensures var page := AutoClaim(log, first, l.pending, start, minIdle, now, count);
      && PassWalked(log, first, was, ApplyPage(l, page, c, now), out + page.claimed, page.next, c, minIdle, from, later)
      && Increasing(out + page.claimed)
      && (page.next != 0 ==> forall id :: id in out + page.claimed ==> id < page.next)
  {
    var page := AutoClaim(log, first, l.pending, start, minIdle, now, count);
    var out2 := out + page.claimed;
    var l2 := ApplyPage(l, page, c, now);
    PageAdvances(log, first, l.pending, start, minIdle, now, count);
    if page.next != 0 { PositiveIds(log, page.next); }
    forall m: nat | m < |log| ensures EntryWalked(log, first, was, l2, out2, page.next, c, minIdle, from, later, m) {
      assert EntryWalked(log, first, was, l, out, Frontier(start), c, minIdle, from, to, m);
      PageWalks(log, first, was, l, out, start, c, minIdle, from, to, now, count, m);
    }
    PositiveClaims(log, first, l.pending, start, minIdle, now, count);
    ConcatIncreasing(out, page.claimed, Frontier(start));
  }

  lemma PositiveIds(log: seq<Entry>, id: EntryId)
    requires Sorted(log) && InLog(log, id)
    ensures id > 0
  {
  }

  lemma PositiveClaims(log: seq<Entry>, first: nat, pending: map<EntryId, Claim>, start: EntryId, minIdle: int,
                       now: int, count: int)
    requires Sorted(log)
    ensures forall id :: id in AutoClaim(log, first, pending, start, minIdle, now, count).claimed ==>
      id >= Frontier(start)
  {
    ScanOrder(log, first, 0, pending, start, minIdle, now, PageSize(count), 10 * PageSize(count));
    PageAdvances(log, first, pending, start, minIdle, now, count);
  }

  lemma ConcatIncreasing(a: seq<EntryId>, b: seq<EntryId>, mid: EntryId)
    requires Increasing(a) && Increasing(b)
    requires (forall id :: id in a ==> id < mid) && (forall id :: id in b ==> mid <= id)
    ensures Increasing(a + b)
  {
    var all := a + b;
    forall i, j | 0 <= i < j < |all| ensures all[i] < all[j] {
      if i < |a| <= j {
        assert all[i] in a && all[j] in b;
      }
    }
  }

  // ---- the pass as a function -----------------------------------------------

  /** What became of a command: answered, carried out though its answer was lost, or not carried out. */
  datatype Reply = Heard | Unheard | Refused

  /** Who claims what, when each page runs and how it is answered. */
  datatype Pass = Pass(consumer: string, minIdle: int, batch: int, clock: nat -> int, reply: nat -> Reply)

  /**
   What the cursor loop leaves: the books, the ids it returns, those claimed by a page whose answer was lost, whether it
   failed, where it stopped and how many pages were carried out.
   */
  datatype Claims = Claims(ledger: Ledger, out: seq<EntryId>, missed: seq<EntryId>, failed: bool, next: EntryId,
                           pages: nat)

  predicate CursorOk(log: seq<Entry>, cursor: EntryId) { Frontier(cursor) <= LastId(log) + 1 }

  /** The cursor loop from page k on. It ends at the wrapped cursor, on an empty page and on a failure. */
  function ClaimFrom(log: seq<Entry>, first: nat, l: Ledger, cursor: EntryId, p: Pass, k: nat): (r: Claims)
    requires Sorted(log) && CursorOk(log, cursor)
    ensures r.pages >= k
    decreases LastId(log) + 1 - Frontier(cursor), if cursor == 0 then 1 else 0
  {
    if p.reply(k) == Refused then Claims(l, [], [], true, Frontier(cursor), k) else
    var page := AutoClaim(log, first, l.pending, cursor, p.minIdle, p.clock(k), p.batch);
    var m := ApplyPage(l, page, p.consumer, p.clock(k));
    PageAdvances(log, first, l.pending, cursor, p.minIdle, p.clock(k), p.batch);
    if p.reply(k) == Unheard then Claims(m, [], page.claimed, true, page.next, k + 1)
    else if page.next == 0 || page.claimed == [] then Claims(m, page.claimed, [], false, page.next, k + 1)
    else
      var rest := ClaimFrom(log, first, m, page.next, p, k + 1);
      rest.(out := page.claimed + rest.out)
  }

  /** A loop that has `out` in hand and goes on as `rest`. */
  ghost predicate Continues(all: Claims, out: seq<EntryId>, rest: Claims) { all == rest.(out := out + rest.out) }

  /** A loop on its way: what it has, and whether it is over. */
  datatype Stage = Stage(claims: Claims, over: bool)

  /** One page of a loop that has `out` in hand. */
  function Turn(log: seq<Entry>, first: nat, l: Ledger, out: seq<EntryId>, cursor: EntryId, p: Pass, k: nat): Stage {
    if p.reply(k) == Refused then Stage(Claims(l, out, [], true, Frontier(cursor), k), true) else
    var page := AutoClaim(log, first, l.pending, cursor, p.minIdle, p.clock(k), p.batch);
    var m := ApplyPage(l, page, p.consumer, p.clock(k));
    if p.reply(k) == Unheard then Stage(Claims(m, out, page.claimed, true, page.next, k + 1), true)
    else Stage(Claims(m, out + page.claimed, [], false, page.next, k + 1), page.next == 0 || page.claimed == [])
  }

  /** Where the loop `all` is: at its end, or with the rest of it still to come. */
  ghost predicate Reaches(all: Claims, log: seq<Entry>, first: nat, t: Stage, p: Pass)
    requires Sorted(log)
  {
    var c := t.claims;
    if t.over then all == c
    else CursorOk(log, c.next) && Continues(all, c.out, ClaimFrom(log, first, c.ledger, c.next, p, c.pages))
  }

  lemma ClaimStep(all: Claims, log: seq<Entry>, first: nat, l: Ledger, out: seq<EntryId>, cursor: EntryId, p: Pass,
                  k: nat)
    requires Sorted(log) && CursorOk(log, cursor) && Continues(all, out, ClaimFrom(log, first, l, cursor, p, k))
    ensures var t := Turn(log, first, l, out, cursor, p, k);
      && Reaches(all, log, first, t, p)
      && (!t.over ==> t.claims.next > cursor && (cursor == 0 || Frontier(t.claims.next) > Frontier(cursor)))
  {
    PageAdvances(log, first, l.pending, cursor, p.minIdle, p.clock(k), p.batch);
    var page := AutoClaim(log, first, l.pending, cursor, p.minIdle, p.clock(k), p.batch);
    if p.reply(k) == Refused || p.reply(k) == Unheard {
      assert out + [] == out;
    } else if page.next != 0 && page.claimed != [] {
      var rest := ClaimFrom(log, first, ApplyPage(l, page, p.consumer, p.clock(k)), page.next, p, k + 1);
      assert out + (page.claimed + rest.out) == out + page.claimed + rest.out;
    }
  }

  /** What a loop that has taken `out` so far goes on to take fits what it took, all the way to where it stops. */
  lemma {:induction false} ClaimsWalk(log: seq<Entry>, first: nat, was: Ledger, l: Ledger, out: seq<EntryId>,
                                      cursor: EntryId,
                                      p: Pass, k: nat)
    requires Sorted(log) && CursorOk(log, cursor) && Nondecreasing(p.clock)
    requires PassWalked(log, first, was, l, out, Frontier(cursor), p.consumer, p.minIdle, p.clock(0), p.clock(k))
    requires Increasing(out) && forall id :: id in out ==> id < Frontier(cursor)
    ensures var r := ClaimFrom(log, first, l, cursor, p, k);
      && PassWalked(log, first, was, r.ledger, out + r.out + r.missed, r.next, p.consumer, p.minIdle, p.clock(0),
          p.clock(r.pages))
      && Increasing(out + r.out + r.missed)
    decreases LastId(log) + 1 - Frontier(cursor), if cursor == 0 then 1 else 0
  {
    if p.reply(k) == Refused {
      assert out + [] + [] == out;
    } else {
      PassStep(log, first, was, l, out, cursor, p.consumer, p.minIdle, p.clock(0), p.clock(k), p.clock(k),
               p.clock(k + 1), p.batch);
      PageAdvances(log, first, l.pending, cursor, p.minIdle, p.clock(k), p.batch);
      var page := AutoClaim(log, first, l.pending, cursor, p.minIdle, p.clock(k), p.batch);
      if p.reply(k) == Unheard {
        assert out + [] + page.claimed == out + page.claimed;
      } else if page.next == 0 || page.claimed == [] {
        assert out + page.claimed + [] == out + page.claimed;
      } else {
        var m := ApplyPage(l, page, p.consumer, p.clock(k));
        var rest := ClaimFrom(log, first, m, page.next, p, k + 1);
        ClaimsWalk(log, first, was, m, out + page.claimed, page.next, p, k + 1);
        Regroup(out, page.claimed, rest.out, rest.missed);
      }
    }
  }

  lemma Regroup(a: seq<EntryId>, b: seq<EntryId>, c: seq<EntryId>, d: seq<EntryId>)
    ensures a + b + c + d == a + (b + c) + d
  {
  }

  lemma NothingWalked(log: seq<Entry>, first: nat, l: Ledger, p: Pass)
    requires Sorted(log)
    ensures PassWalked(log, first, l, l, [], Frontier(0), p.consumer, p.minIdle, p.clock(0), p.clock(0))
  {
  }

  /** The whole loop: what it takes is strictly increasing and fits the books it found, page by page. */
  lemma LoopWalks(log: seq<Entry>, first: nat, l: Ledger, p: Pass)
    requires Sorted(log) && Nondecreasing(p.clock)
    ensures CursorOk(log, 0)
    ensures var r := ClaimFrom(log, first, l, 0, p, 0);
      && PassWalked(log, first, l, r.ledger, r.out + r.missed, r.next, p.consumer, p.minIdle, p.clock(0),
          p.clock(r.pages))
      && Increasing(r.out + r.missed) && (!r.failed ==> r.missed == [])
  {
    NothingWalked(log, first, l, p);
    ClaimsWalk(log, first, l, l, [], 0, p, 0);
    var r := ClaimFrom(log, first, l, 0, p, 0);
    assert [] + r.out + r.missed == r.out + r.missed;
    OnlyFailuresMiss(log, first, l, 0, p, 0);
  }

  lemma {:induction false} OnlyFailuresMiss(log: seq<Entry>, first: nat, l: Ledger, cursor: EntryId, p: Pass, k: nat)
    requires Sorted(log) && CursorOk(log, cursor)
    ensures var r := ClaimFrom(log, first, l, cursor, p, k); !r.failed ==> r.missed == []
    decreases LastId(log) + 1 - Frontier(cursor), if cursor == 0 then 1 else 0
  {
    if p.reply(k) == Heard {
      var page := AutoClaim(log, first, l.pending, cursor, p.minIdle, p.clock(k), p.batch);
      PageAdvances(log, first, l.pending, cursor, p.minIdle, p.clock(k), p.batch);
      if page.next != 0 && page.claimed != [] {
        OnlyFailuresMiss(log, first, ApplyPage(l, page, p.consumer, p.clock(k)), page.next, p, k + 1);
      }
    }
  }

  /** The first k ids acknowledged, in order. */
  function AckAll(l: Ledger, ids: seq<EntryId>, k: nat): Ledger
    requires k <= |ids|
  {
    if k == 0 then l else XAck(AckAll(l, ids, k - 1), ids[k - 1])
  }

  lemma {:induction false} AckAllFacts(l: Ledger, ids: seq<EntryId>, k: nat)
    requires k <= |ids|
    ensures var m := AckAll(l, ids, k);
      && m == l.(pending := m.pending, acked := m.acked)
      && (forall id :: id in m.pending <==> id in l.pending && id !in ids[..k])
      && (forall id :: id in m.pending ==> m.pending[id] == l.pending[id])
      && (forall id :: id in m.acked <==> id in l.acked || (id in l.pending && id in ids[..k]))
  {
    if k > 0 {
      AckAllFacts(l, ids, k - 1);
      assert ids[..k] == ids[..k - 1] + [ids[k - 1]];
    }
  }

  /**
   What a pass may do to an entry: acknowledge it only if it still exists and had been idle for `minIdle`, clear
   it only if it was trimmed, hold it without acknowledging it only after claiming it for the same reason.
   */
  ghost predicate EntryAfter(log: seq<Entry>, first: nat, was: Ledger, l: Ledger, c: string, minIdle: int, to: int,
                             m: nat)
    requires m < |log|
  {
    var id := log[m].id;
    var takeable := id in was.pending && first <= m && to - was.pending[id].since >= minIdle;
    && (id in l.acked && id !in was.acked ==> takeable)
    && (id in l.purged && id !in was.purged ==> id in was.pending && m < first)
    && (id in was.pending && id !in l.pending ==> id in l.acked || id in l.purged)
    && (id in l.pending ==> id in was.pending)
    && (id in l.pending ==> l.pending[id] == was.pending[id] || (takeable && l.pending[id].owner == c))
  }

  lemma PassThenAcks(log: seq<Entry>, first: nat, was: Ledger, l: Ledger, out: seq<EntryId>, k: nat, cursor: EntryId,
                     c: string, minIdle: int, from: int, to: int, m: nat)
    requires m < |log| && k <= |out| && EntryWalked(log, first, was, l, out, cursor, c, minIdle, from, to, m)
    requires l.acked == was.acked
    ensures EntryAfter(log, first, was, AckAll(l, out, k), c, minIdle, to, m)
    ensures cursor == 0 && k == |out| && first <= m && IdleEnough(was.pending, log[m].id, minIdle, from)
      ==> log[m].id in AckAll(l, out, k).acked
  {
    AckAllFacts(l, out, k);
    assert out[..|out|] == out;
    if log[m].id in out[..k] { assert log[m].id in out; }
  }

  ghost predicate PassAfter(log: seq<Entry>, first: nat, was: Ledger, l: Ledger, c: string, minIdle: int, to: int) {
    && l == was.(pending := l.pending, acked := l.acked, purged := l.purged)
    && forall m :: 0 <= m < |log| ==> EntryAfter(log, first, was, l, c, minIdle, to, m)
  }

  /** Every surviving entry that was idle enough at `from` is acknowledged. */
  ghost predicate AllIdleAcked(log: seq<Entry>, first: nat, was: Ledger, l: Ledger, minIdle: int, from: int) {
    forall m :: first <= m < |log| && IdleEnough(was.pending, log[m].id, minIdle, from) ==> log[m].id in l.acked
  }

  lemma PassResult(log: seq<Entry>, first: nat, was: Ledger, l: Ledger, out: seq<EntryId>, k: nat, cursor: EntryId,
                   c: string, minIdle: int, from: int, to: int)
    requires k <= |out| && PassWalked(log, first, was, l, out, cursor, c, minIdle, from, to)
    ensures PassAfter(log, first, was, AckAll(l, out, k), c, minIdle, to)
    ensures cursor == 0 && k == |out| ==> AllIdleAcked(log, first, was, AckAll(l, out, k), minIdle, from)
  {
    AckAllFacts(l, out, k);
    var after := AckAll(l, out, k);
    forall m: nat | m < |log|
      ensures EntryAfter(log, first, was, after, c, minIdle, to, m)
      ensures cursor == 0 && k == |out| && first <= m && IdleEnough(was.pending, log[m].id, minIdle, from) ==>
        log[m].id in after.acked
    {
      PassThenAcks(log, first, was, l, out, k, cursor, c, minIdle, from, to, m);
    }
  }

  /** The books after a loop that met no failure and the acknowledgement of everything it took. */
  function PassLedger(log: seq<Entry>, first: nat, l: Ledger, p: Pass): Ledger
    requires Sorted(log)
  {
    var r := ClaimFrom(log, first, l, 0, p, 0);
    AckAll(r.ledger, r.out, |r.out|)
  }

  /** A pass that wraps has acknowledged every surviving entry that was idle enough when it began. */
  lemma PassEffect(log: seq<Entry>, first: nat, l: Ledger, p: Pass)
    requires Sorted(log) && Nondecreasing(p.clock)
    ensures var r := ClaimFrom(log, first, l, 0, p, 0);
      && PassAfter(log, first, l, r.ledger, p.consumer, p.minIdle, p.clock(r.pages))
      && (!r.failed ==> forall k: nat :: k <= |r.out| ==>
          PassAfter(log, first, l, AckAll(r.ledger, r.out, k), p.consumer, p.minIdle, p.clock(r.pages)))
      && (!r.failed && r.next == 0 ==> AllIdleAcked(log, first, l, PassLedger(log, first, l, p), p.minIdle, p.clock(0)))
  {
    LoopWalks(log, first, l, p);
    var r := ClaimFrom(log, first, l, 0, p, 0);
    var all := r.out + r.missed;
    PassResult(log, first, l, r.ledger, all, 0, r.next, p.consumer, p.minIdle, p.clock(0), p.clock(r.pages));
    if !r.failed {
      assert all == r.out;
      forall k: nat | k <= |r.out|
        ensures PassAfter(log, first, l, AckAll(r.ledger, r.out, k), p.consumer, p.minIdle, p.clock(r.pages))
      {
        PassResult(log, first, l, r.ledger, r.out, k, r.next, p.consumer, p.minIdle, p.clock(0), p.clock(r.pages));
      }
      PassResult(log, first, l, r.ledger, r.out, |r.out|, r.next, p.consumer, p.minIdle, p.clock(0), p.clock(r.pages));
    }
  }

  // ---- the task --------------------------------------------------------------

  predicate Retirable(l: Ledger, consumers: map<string, int>, name: string, retireIdle: int, now: int) {
    name in consumers && !Holds(l, name) && now - consumers[name] >= retireIdle
  }

  ghost predicate NoneDenied(reply: string -> Reply) { forall n :: reply(n) == Heard }

  ghost predicate AllHeard(reply: nat -> Reply) { forall i :: reply(i) == Heard }

  /** How many of the acknowledgements were answered before the first that was not, and how many were carried out. */
  function Answered(reply: nat -> Reply, n: nat): (k: nat)
    ensures k <= n && (forall i :: 0 <= i < k ==> reply(i) == Heard) && (k < n ==> reply(k) != Heard)
  {
    if n == 0 then 0 else
    var k := Answered(reply, n - 1);
    if k < n - 1 || reply(n - 1) != Heard then k else n
  }

  function CarriedOut(reply: nat -> Reply, n: nat): (k: nat)
    ensures Answered(reply, n) <= k <= n
  {
    var k := Answered(reply, n);
    if k < n && reply(k) == Unheard then k + 1 else k
  }

  ghost predicate HeardUpTo(reply: nat -> Reply, k: nat) { forall i :: 0 <= i < k ==> reply(i) == Heard }

  lemma AnsweredIs(reply: nat -> Reply, n: nat, k: nat)
    requires k <= n && HeardUpTo(reply, k) && (k < n ==> reply(k) != Heard)
    ensures Answered(reply, n) == k
    ensures CarriedOut(reply, n) == if k < n && reply(k) == Unheard then k + 1 else k
  {
  }

  lemma RestHeld(out: seq<EntryId>, k: nat, held: set<EntryId>)
    requires Increasing(out) && k < |out| && forall id :: id in out[k..] ==> id in held
    ensures out[k] in held && forall id :: id in out[k + 1..] ==> id in held - {out[k]}
  {
    assert out[k..][0] == out[k];
    forall id | id in out[k + 1..] ensures id in out[k..] && id != out[k] {
      var j :| 0 <= j < |out[k + 1..]| && out[k + 1..][j] == id;
      assert out[k..][j + 1] == id;
    }
  }

  lemma HoldsMore(out: seq<EntryId>, more: seq<EntryId>, held: set<EntryId>)
    requires forall id :: id in out ==> id in held
    ensures forall id :: id in out + more ==> id in held + set m | m in more
  {
  }

  predicate AllHousekeeping(ops: seq<Op>) {
    ops == [] || (AllHousekeeping(ops[..|ops| - 1]) && Housekeeping(ops[|ops| - 1]))
  }

  predicate Housekeeping(op: Op) { op.ClaimPage? || op.ReclaimAck? || op.Retire? }

  lemma HousekeepingSnoc(ops: seq<Op>, op: Op)
    requires AllHousekeeping(ops) && Housekeeping(op)
    ensures AllHousekeeping(ops + [op])
  {
    assert (ops + [op])[..|ops|] == ops;
  }

  /** The group has these books and these consumers, and knows `c`. */
  ghost predicate Linked(g: Group, l: Ledger, consumers: map<string, int>, c: string) {
    g.ledger == l && g.consumers == consumers && c in g.agents
  }

  lemma PageLinks(log: seq<Entry>, first: nat, g: Group, c: string, cursor: EntryId, minIdle: int, batch: int, now: int)
    requires first <= |log| && c in g.agents
    ensures var h := GroupStep(log, first, g, ClaimPage(c, cursor, minIdle, batch, now));
      var page := AutoClaim(log, first, g.ledger.pending, cursor, minIdle, now, batch);
      && Linked(h, ApplyPage(g.ledger, page, c, now), g.consumers[c := now], c)
      && h.agents[c].claimed == g.agents[c].claimed + set id | id in page.claimed
  {
  }

  lemma AckLinks(log: seq<Entry>, first: nat, g: Group, c: string, id: EntryId)
    requires first <= |log| && c in g.agents && id in g.agents[c].claimed
    ensures var h := GroupStep(log, first, g, ReclaimAck(c, id, true));
      Linked(h, XAck(g.ledger, id), g.consumers, c) && h.agents[c].claimed == g.agents[c].claimed - {id}
  {
  }

  lemma RetireLinks(log: seq<Entry>, first: nat, g: Group, c: string, n: string, retireIdle: int, now: int)
    requires first <= |log| && c in g.agents && Retirable(g.ledger, g.consumers, n, retireIdle, now)
    ensures Linked(GroupStep(log, first, g, Retire(n, retireIdle, now)), g.ledger, g.consumers - {n}, c)
  {
  }

  /**
   The task on one stream, alone with its group while it runs. `ops` are the steps of the protocol it has taken
   since the group was as in `start`.
   */
  class ReclaimTask {
    const log: seq<Entry>
    const first: nat
    const consumer: string
    const minIdle: int
    const batch: int
    const retireIdle: int
    var ledger: Ledger
    var consumers: map<string, int>
    ghost const start: Group
    ghost var ops: seq<Op>

    /** The group, by the steps taken. */
    ghost function Protocol(): Group
      requires first <= |log|
      reads this
    {
      GroupRun(log, first, start, ops)
    }

    /** What the task does to the server is a run of the protocol's claims, reclaim acknowledgements and retirements. */
    ghost predicate Valid()
      reads this
    {
      && first <= |log| && Sorted(log)
      && Linked(Protocol(), ledger, consumers, consumer) && AllHousekeeping(ops)
    }

    constructor (log: seq<Entry>, first: nat, group: Group, consumer: string, minIdle: int, batch: int, retireIdle: int)
      requires first <= |log| && Sorted(log) && consumer in group.agents
      ensures Valid() && this.log == log && this.first == first && start == group && ops == []
      ensures this.consumer == consumer && this.minIdle == minIdle && this.batch == batch
      ensures this.retireIdle == retireIdle
    {
      this.log, this.first, this.consumer := log, first, consumer;
      this.minIdle, this.batch, this.retireIdle := minIdle, batch, retireIdle;
      ledger, consumers := group.ledger, group.consumers;
      start, ops := group, [];
    }

    /**
     One XAUTOCLAIM that is carried out. It makes the claiming consumer known to the group and counts as its activity.
     */
    method ClaimPage(cursor: EntryId, now: int) returns (page: Page)
      requires Valid()
      modifies this`ledger, this`consumers, this`ops
      ensures Valid() && ops == old(ops) + [ConsumerGroup.ClaimPage(consumer, cursor, minIdle, batch, now)]
      ensures page == AutoClaim(log, first, old(ledger).pending, cursor, minIdle, now, batch)
      ensures ledger == ApplyPage(old(ledger), page, consumer, now) && consumers == old(consumers)[consumer := now]
      ensures Protocol().agents[consumer].claimed ==
        old(Protocol()).agents[consumer].claimed + set id | id in page.claimed
    {
      page := AutoClaim(log, first, ledger.pending, cursor, minIdle, now, batch);
      ghost var op := ConsumerGroup.ClaimPage(consumer, cursor, minIdle, batch, now);
      GroupRunSnoc(log, first, start, ops, op);
      HousekeepingSnoc(ops, op);
      PageLinks(log, first, Protocol(), consumer, cursor, minIdle, batch, now);
      ops := ops + [op];
      ledger := ApplyPage(ledger, page, consumer, now);
      consumers := consumers[consumer := now];
    }

    /** Everything taken is held by the consumer, as the protocol sees it. */
    ghost predicate Has(out: seq<EntryId>)
      requires Valid()
      reads this
    {
      forall id :: id in out ==> id in Protocol().agents[consumer].claimed
    }

    ghost function Loop(clock: nat -> int, reply: nat -> Reply): Pass { Pass(consumer, minIdle, batch, clock, reply) }

    /** The consumers as a loop of some pages leaves them: the claimer was last seen at the last page. */
    function Seen(was: map<string, int>, clock: nat -> int, pages: nat): map<string, int> {
      if pages == 0 then was else was[consumer := clock(pages - 1)]
    }

    lemma SeenNext(was: map<string, int>, clock: nat -> int, k: nat)
      ensures Seen(was, clock, k)[consumer := clock(k)] == Seen(was, clock, k + 1)
    {
    }

    /** The cursor loop. Page k runs at `clock(k)` and is answered by `reply(k)`. */
    method Reclaim(clock: nat -> int, reply: nat -> Reply)
      returns (out: seq<EntryId>, failed: bool, next: EntryId, pages: nat, ghost missed: seq<EntryId>)
      requires Valid()
      modifies this`ledger, this`consumers, this`ops
      ensures Valid() && old(ops) <= ops && Has(out)
      ensures Claims(ledger, out, missed, failed, next, pages) ==
        ClaimFrom(log, first, old(ledger), 0, Loop(clock, reply), 0)
      ensures consumers == Seen(old(consumers), clock, pages)
    {
      out, missed, failed, next, pages := [], [], false, 0, 0;
      ghost var p := Loop(clock, reply);
      ghost var all := ClaimFrom(log, first, ledger, 0, p, 0);
      assert Continues(all, out, all);
      var over := false;
      while !over
        invariant Valid() && old(ops) <= ops && Has(out) && consumers == Seen(old(consumers), clock, pages)
        invariant Reaches(all, log, first, Stage(Claims(ledger, out, missed, failed, next, pages), over), p)
        decreases !over, LastId(log) + 1 - Frontier(next), if next == 0 then 1 else 0
      {
        ClaimStep(all, log, first, ledger, out, next, p, pages);
        out, missed, failed, next, pages, over := NextPage(old(consumers), out, next, pages, clock, reply);
      }
    }

    /** One page of the loop; `over` when it is the last. */
    method NextPage(ghost was: map<string, int>, out: seq<EntryId>, cursor: EntryId, k: nat,
                    clock: nat -> int, reply: nat -> Reply)
      returns (out': seq<EntryId>, ghost missed: seq<EntryId>, failed: bool, next: EntryId, pages: nat, over: bool)
      requires Valid() && Has(out) && consumers == Seen(was, clock, k)
      modifies this`ledger, this`consumers, this`ops
      ensures Valid() && old(ops) <= ops && Has(out') && consumers == Seen(was, clock, pages)
      ensures Stage(Claims(ledger, out', missed, failed, next, pages), over) ==
        Turn(log, first, old(ledger), out, cursor, Loop(clock, reply), k)
    {
      out', missed, failed, next, pages, over := out, [], true, Frontier(cursor), k, true;
      if reply(k) == Refused {
        return;
      }
      ghost var held := Protocol().agents[consumer].claimed;
      var page := ClaimPage(cursor, clock(k));
      HoldsMore(out, page.claimed, held);
      SeenNext(was, clock, k);
      next, pages, failed := page.next, k + 1, reply(k) == Unheard;
      missed := if failed then page.claimed else [];
      out' := if failed then out else out + page.claimed;
      over := failed || page.next == 0 || page.claimed == [];
    }

    /** Acknowledges the claimed entries in order, up to the first that is not answered. */
    method AckClaimed(out: seq<EntryId>, reply: nat -> Reply) returns (k: nat, failed: bool)
      requires Valid() && Increasing(out) && Has(out)
      modifies this`ledger, this`ops
      ensures Valid() && old(ops) <= ops && k == Answered(reply, |out|) && (failed <==> k < |out|)
      ensures ledger == AckAll(old(ledger), out, CarriedOut(reply, |out|))
    {
      k, failed := 0, false;
      while k < |out|
        invariant Valid() && old(ops) <= ops && k <= |out| && Has(out[k..]) && ledger == AckAll(old(ledger), out, k)
        invariant HeardUpTo(reply, k)
      {
        RestHeld(out, k, Protocol().agents[consumer].claimed);
        if reply(k) != Refused {
          Ack(out[k]);
        }
        if reply(k) != Heard {
          AnsweredIs(reply, |out|, k);
          failed := true;
          return;
        }
        k := k + 1;
      }
      AnsweredIs(reply, |out|, k);
    }

    /** One XACK that is carried out. */
    method Ack(id: EntryId)
      requires Valid() && Has([id])
      modifies this`ledger, this`ops
      ensures Valid() && ops == old(ops) + [ReclaimAck(consumer, id, true)] && ledger == XAck(old(ledger), id)
      ensures Protocol().agents[consumer].claimed == old(Protocol()).agents[consumer].claimed - {id}
    {
      assert id in [id];
      ghost var op := ReclaimAck(consumer, id, true);
      GroupRunSnoc(log, first, start, ops, op);
      HousekeepingSnoc(ops, op);
      AckLinks(log, first, Protocol(), consumer, id);
      ops := ops + [op];
      ledger := XAck(ledger, id);
    }

    /**
     Deletes the consumers that hold nothing and have been idle long enough, in any order, up to the first deletion that
     is not answered. `reply(n)` is what happens to the deletion of `n`.
     */
    method RetireConsumers(now: int, reply: string -> Reply) returns (retired: nat, failed: bool)
      requires Valid()
      modifies this`consumers, this`ops
      ensures Valid() && old(ops) <= ops
      ensures failed <==> exists n :: Retirable(ledger, old(consumers), n, retireIdle, now) && reply(n) != Heard
      ensures forall n :: n in consumers ==> n in old(consumers) && consumers[n] == old(consumers)[n]
      ensures forall n :: n in old(consumers) && n !in consumers ==>
        Retirable(ledger, old(consumers), n, retireIdle, now) && reply(n) != Refused
      ensures !failed ==> forall n :: Retirable(ledger, old(consumers), n, retireIdle, now) ==> n !in consumers
      ensures |consumers| + retired <= |old(consumers)| <= |consumers| + retired + if failed then 1 else 0
    {
      retired, failed := 0, false;
      var rest := consumers.Keys;
      while rest != {}
        invariant Valid() && old(ops) <= ops && rest <= consumers.Keys && !failed
        invariant forall n :: n in consumers ==> n in old(consumers) && consumers[n] == old(consumers)[n]
        invariant forall n :: n in old(consumers) && n !in consumers ==>
          Retirable(ledger, old(consumers), n, retireIdle, now) && reply(n) == Heard
        invariant forall n :: n in consumers && Retirable(ledger, old(consumers), n, retireIdle, now) ==> n in rest
        invariant |consumers| + retired == |old(consumers)|
        decreases |rest|
      {
        var n :| n in rest;
        rest := rest - {n};
        if Retirable(ledger, consumers, n, retireIdle, now) {
          if reply(n) != Refused {
            Delete(n, now);
          }
          if reply(n) != Heard {
            failed := true;
            return;
          }
          retired := retired + 1;
        }
      }
    }

    /** One XGROUP DELCONSUMER that is carried out. */
    method Delete(n: string, now: int)
      requires Valid() && Retirable(ledger, consumers, n, retireIdle, now)
      modifies this`consumers, this`ops
      ensures Valid() && ops == old(ops) + [Retire(n, retireIdle, now)] && consumers == old(consumers) - {n}
    {
      ghost var op := Retire(n, retireIdle, now);
      GroupRunSnoc(log, first, start, ops, op);
      HousekeepingSnoc(ops, op);
      RetireLinks(log, first, Protocol(), consumer, n, retireIdle, now);
      ops := ops + [op];
      consumers := consumers - {n};
    }

    /** The deletion of a consumer that may be retired is not answered. */
    ghost predicate SomeDenied(deletes: string -> Reply, seen: map<string, int>, now: int)
      reads this
    {
      exists n :: Retirable(ledger, seen, n, retireIdle, now) && deletes(n) != Heard
    }

    /** Every page was answered, and every acknowledgement of what they returned. */
    ghost predicate LoopHeard(was: Ledger, p: Pass, acks: nat -> Reply)
      requires Sorted(log)
    {
      var r := ClaimFrom(log, first, was, 0, p, 0);
      !r.failed && HeardUpTo(acks, |r.out|)
    }

    /**
     Claims and acknowledges. It acknowledges only entries that survive and had been idle for `minIdle`, clears only
     trimmed ones, and leaves every other pending entry with its owner. Without a failure the books are `PassLedger`'s.
     */
    method ClaimAndAck(clock: nat -> int, claims: nat -> Reply, acks: nat -> Reply)
      returns (failed: bool, next: EntryId, pages: nat)
      requires Valid() && Nondecreasing(clock)
      modifies this`ledger, this`consumers, this`ops
      ensures Valid() && old(ops) <= ops && consumers == Seen(old(consumers), clock, pages)
      ensures PassAfter(log, first, old(ledger), ledger, consumer, minIdle, clock(pages))
      ensures !failed ==> ledger == PassLedger(log, first, old(ledger), Loop(clock, claims))
      ensures !failed && next == 0 ==> AllIdleAcked(log, first, old(ledger), ledger, minIdle, clock(0))
      ensures AllHeard(claims) && AllHeard(acks) ==> !failed
      ensures failed <==> !LoopHeard(old(ledger), Loop(clock, claims), acks)
    {
      ghost var p := Loop(clock, claims);
      PassEffect(log, first, ledger, p);
      LoopWalks(log, first, ledger, p);
      if AllHeard(claims) {
        AnsweredLoop(log, first, ledger, 0, p, 0);
      }
      var out;
      ghost var missed;
      out, failed, next, pages, missed := Reclaim(clock, claims);
      if !failed {
        assert out + [] == out;
        var k;
        k, failed := AckClaimed(out, acks);
      }
    }

    /**
     A whole pass, given how XPENDING, every page, every acknowledgement, XINFO CONSUMERS and every deletion are
     answered. It deletes only consumers that hold nothing and were idle, the claimer's last activity being its last
     page, and without a failure it deletes all of those.
     */
    method ReclaimOne(clock: nat -> int, pendingFails: bool, claims: nat -> Reply, acks: nat -> Reply, infoFails: bool,
                      deletes: string -> Reply)
      returns (failed: bool, next: EntryId, pages: nat)
      requires Valid() && Nondecreasing(clock)
      modifies this`ledger, this`consumers, this`ops
      ensures Valid() && old(ops) <= ops
      ensures PassAfter(log, first, old(ledger), ledger, consumer, minIdle, clock(pages))
      ensures !failed && old(ledger).pending != map[] ==>
        ledger == PassLedger(log, first, old(ledger), Loop(clock, claims))
      ensures !failed && next == 0 ==> AllIdleAcked(log, first, old(ledger), ledger, minIdle, clock(0))
      ensures Trimmed(old(consumers), clock, pages)
      ensures !failed && old(ledger).pending != map[] ==>
        forall n :: Retirable(ledger, Seen(old(consumers), clock, pages), n, retireIdle, clock(pages)) ==>
          n !in consumers
      ensures pendingFails ==> failed
      ensures !pendingFails && old(ledger).pending == map[] ==>
        !failed && ledger == old(ledger) && consumers == old(consumers)
      ensures !pendingFails && !infoFails && AllHeard(claims) && AllHeard(acks) && NoneDenied(deletes) ==> !failed
      ensures !pendingFails && old(ledger).pending != map[] ==>
        (failed <==>
          || infoFails || !LoopHeard(old(ledger), Loop(clock, claims), acks)
          || SomeDenied(deletes, Seen(old(consumers), clock, pages), clock(pages)))
    {
      failed, next, pages := pendingFails, 0, 0;
      if failed || |ledger.pending| == 0 {
        NoPass(log, first, ledger, consumer, minIdle, clock);
        return;
      }
      failed, next, pages := ClaimAndAck(clock, claims, acks);
      if failed {
        return;
      }
      if infoFails {
        failed := true;
        return;
      }
      var retired;
      retired, failed := RetireConsumers(clock(pages), deletes);
    }

    /**
     Which of the consumers a pass saw may be gone: idle ones that hold nothing, so not a claimer that is still busy.
     */
    ghost predicate Trimmed(was: map<string, int>, clock: nat -> int, pages: nat)
      reads this
    {
      var seen := Seen(was, clock, pages);
      && (forall n :: n in consumers ==> n in seen && consumers[n] == seen[n])
      && (forall n :: n in seen && n !in consumers ==> Retirable(ledger, seen, n, retireIdle, clock(pages)))
      && (pages > 0 && clock(pages) - clock(pages - 1) < retireIdle ==> consumer in consumers)
    }
  }

  lemma NoPass(log: seq<Entry>, first: nat, l: Ledger, c: string, minIdle: int, clock: nat -> int)
    ensures PassAfter(log, first, l, l, c, minIdle, clock(0))
  {
  }

  lemma {:induction false} AnsweredLoop(log: seq<Entry>, first: nat, l: Ledger, cursor: EntryId, p: Pass, k: nat)
    requires Sorted(log) && CursorOk(log, cursor) && forall i :: p.reply(i) == Heard
    ensures !ClaimFrom(log, first, l, cursor, p, k).failed
    decreases LastId(log) + 1 - Frontier(cursor), if cursor == 0 then 1 else 0
  {
    var page := AutoClaim(log, first, l.pending, cursor, p.minIdle, p.clock(k), p.batch);
    PageAdvances(log, first, l.pending, cursor, p.minIdle, p.clock(k), p.batch);
    if page.next != 0 && page.claimed != [] {
      AnsweredLoop(log, first, ApplyPage(l, page, p.consumer, p.clock(k)), page.next, p, k + 1);
    }
  }

  // ---- a pass is a run -------------------------------------------------------

  /**
   From any reachable state, what a task has done is a run of the stream that leaves the group with the task's books and
   consumers: every entry is still in exactly one class, and no pending entry has lost its consumer.
   */
  lemma TaskIsRun(w: World, steps: seq<Step>, name: string, t: ReclaimTask)
    requires Initial(w) && name in Run(w, steps).groups && t.Valid()
    requires var v := Run(w, steps); t.log == v.log && t.first == v.first && t.start == v.groups[name]
    ensures var u := Run(w, steps + AtAll(name, t.ops));
      && name in u.groups && u.groups[name].ledger == t.ledger && u.groups[name].consumers == t.consumers
      && WorldOk(u) && AllOwned(u)
  {
    RunAppend(w, steps, AtAll(name, t.ops));
    GroupRunIsRun(Run(w, steps), name, t.ops);
    RunKeeps(w, steps + AtAll(name, t.ops));
    NoOrphans(w, steps + AtAll(name, t.ops));
  }
}
