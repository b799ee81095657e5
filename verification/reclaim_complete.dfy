/**
 Exactly when a reclaim pass can be relied on to take everything that has been idle too long.

 The loop takes an empty page for the end of the scan. A page is empty before the end when ten times its size of fresh
 entries use up the scan, or when its whole size is spent on clearing trimmed entries.
 */
module ReclaimComplete {
  import opened Prelude
  import opened ConsumerGroup
  import opened ConsumerGroupSafety
  import opened Reclaim

  // ---- counting what a scan has before it -----------------------------------

  /** The pending entries from position `i` and id `from` on, and those of them that were trimmed. */
  function Ahead(log: seq<Entry>, i: nat, pending: map<EntryId, Claim>, from: EntryId): nat
    requires i <= |log|
    decreases |log| - i
  {
    if i == |log| then 0
    else Ahead(log, i + 1, pending, from) + if log[i].id in pending && log[i].id >= from then 1 else 0
  }

  function Gone(log: seq<Entry>, first: nat, i: nat, pending: map<EntryId, Claim>, from: EntryId): nat
    requires i <= |log|
    decreases |log| - i
  {
    if i == |log| then 0
    else Gone(log, first, i + 1, pending, from) + if log[i].id in pending && log[i].id >= from && i < first then 1 else
      0
  }

  ghost predicate NoneFresh(pending: map<EntryId, Claim>, minIdle: int, now: int) {
    forall id :: id in pending ==> now - pending[id].since >= minIdle
  }

  /** A scan with attempts enough stops early only after `count` claims and clears, with more still ahead. */
  lemma {:induction false} ScanStops(log: seq<Entry>, first: nat, i: nat, pending: map<EntryId, Claim>, from: EntryId,
                                     minIdle: int, now: int, count: nat, attempts: nat)
    requires i <= |log|
    requires Ahead(log, i, pending, from) <= attempts || (NoneFresh(pending, minIdle, now) && count <= attempts)
    ensures var p := Scan(log, first, i, pending, from, minIdle, now, count, attempts);
      p.next != 0 ==> count <= |p.claimed| + Gone(log, first, i, pending, from) && count < Ahead(log, i, pending, from)
    decreases |log| - i
  {
    if i < |log| {
      var id := log[i].id;
      if id !in pending || id < from {
        ScanStops(log, first, i + 1, pending, from, minIdle, now, count, attempts);
      } else if count > 0 && attempts > 0 {
        if first <= i && now - pending[id].since < minIdle {
          ScanStops(log, first, i + 1, pending, from, minIdle, now, count, attempts - 1);
        } else {
          ScanStops(log, first, i + 1, pending, from, minIdle, now, count - 1, attempts - 1);
        }
      }
    }
  }

  ghost function AheadIds(log: seq<Entry>, i: nat, pending: map<EntryId, Claim>, from: EntryId): set<EntryId> {
    set j | i <= j < |log| && log[j].id in pending && log[j].id >= from :: log[j].id
  }

  ghost function GoneIds(log: seq<Entry>, first: nat, i: nat, pending: map<EntryId, Claim>,
                         from: EntryId): set<EntryId> {
    set j | i <= j < |log| && log[j].id in pending && log[j].id >= from && j < first :: log[j].id
  }

  lemma {:induction false} AheadCounts(log: seq<Entry>, i: nat, pending: map<EntryId, Claim>, from: EntryId)
    requires Sorted(log) && i <= |log|
    ensures |AheadIds(log, i, pending, from)| == Ahead(log, i, pending, from)
    decreases |log| - i
  {
    if i < |log| {
      AheadCounts(log, i + 1, pending, from);
      var rest := AheadIds(log, i + 1, pending, from);
      assert log[i].id !in rest;
      assert AheadIds(log, i, pending, from) ==
        if log[i].id in pending && log[i].id >= from then rest + {log[i].id} else rest;
    }
  }

  lemma {:induction false} GoneCounts(log: seq<Entry>, first: nat, i: nat, pending: map<EntryId, Claim>, from: EntryId)
    requires Sorted(log) && i <= |log|
    ensures |GoneIds(log, first, i, pending, from)| == Gone(log, first, i, pending, from)
    decreases |log| - i
  {
    if i < |log| {
      GoneCounts(log, first, i + 1, pending, from);
      GoneOne(log, first, i, pending, from);
    }
  }

  lemma GoneOne(log: seq<Entry>, first: nat, i: nat, pending: map<EntryId, Claim>, from: EntryId)
    requires Sorted(log) && i < |log|
    ensures var rest := GoneIds(log, first, i + 1, pending, from);
      && log[i].id !in rest
      && GoneIds(log, first, i, pending, from) ==
         if log[i].id in pending && log[i].id >= from && i < first then rest + {log[i].id} else rest
  {
  }

  /** The pending entries that were trimmed from the stream. */
  ghost function TrimmedPending(log: seq<Entry>, first: nat, pending: map<EntryId, Claim>): set<EntryId> {
    GoneIds(log, first, 0, pending, 0)
  }

  lemma AheadAtMost(log: seq<Entry>, first: nat, pending: map<EntryId, Claim>, from: EntryId)
    requires Sorted(log)
    ensures Ahead(log, 0, pending, from) <= |pending|
    ensures Gone(log, first, 0, pending, from) <= |TrimmedPending(log, first, pending)|
  {
    AheadCounts(log, 0, pending, from);
    GoneCounts(log, first, 0, pending, from);
    Fewer(AheadIds(log, 0, pending, from), pending.Keys);
    Fewer(GoneIds(log, first, 0, pending, from), TrimmedPending(log, first, pending));
  }

  // ---- enough room ------------------------------------------------------------

  /** At most `n` entries pending, at most `t` of them trimmed, none claimed in the future. */
  ghost predicate Within(log: seq<Entry>, first: nat, pending: map<EntryId, Claim>, n: nat, t: nat, now: int) {
    && |pending| <= n && |TrimmedPending(log, first, pending)| <= t
    && (forall id :: id in pending ==> pending[id].since <= now)
  }

  /**
   Fresh entries cannot use up the scan, and trimmed ones cannot fill a page unless everything fits in one. XPENDING,
   which the pass asks first, gives `n`; no more than a page of entries is always enough. A page is as large as the
   configured batch, or 100 without one.
   */
  predicate Room(batch: int, minIdle: int, n: nat, t: nat) {
    var page := if batch > 0 then batch else 100;
    (minIdle <= 0 || n <= 10 * page) && (t < page || n <= page)
  }

  /** With room, a page that stops before the end has claimed something. */
  lemma PageClaims(log: seq<Entry>, first: nat, pending: map<EntryId, Claim>, from: EntryId, minIdle: int, now: int,
                   batch: int, n: nat, t: nat)
    requires Sorted(log) && Room(batch, minIdle, n, t) && Within(log, first, pending, n, t, now)
    ensures var page := AutoClaim(log, first, pending, from, minIdle, now, batch); page.next != 0 ==> page.claimed != []
  {
    AheadAtMost(log, first, pending, from);
    ScanStops(log, first, 0, pending, from, minIdle, now, PageSize(batch), 10 * PageSize(batch));
  }

  lemma PageShrinks(log: seq<Entry>, first: nat, l: Ledger, from: EntryId, minIdle: int, now: int, batch: int,
                    c: string)
    requires Sorted(log)
    ensures var page := AutoClaim(log, first, l.pending, from, minIdle, now, batch);
      var m := ApplyPage(l, page, c, now);
      && m.pending.Keys <= l.pending.Keys
      && forall id :: id in m.pending ==> m.pending[id].since == l.pending[id].since || m.pending[id].since == now
  {
    var page := AutoClaim(log, first, l.pending, from, minIdle, now, batch);
    ScanOrder(log, first, 0, l.pending, from, minIdle, now, PageSize(batch), 10 * PageSize(batch));
    forall id | id in page.claimed ensures id in l.pending {
      var m :| 0 <= m < |log| && log[m].id == id;
      ScanExact(log, first, 0, l.pending, from, minIdle, now, PageSize(batch), 10 * PageSize(batch), m);
    }
  }

  lemma WithinStays(log: seq<Entry>, first: nat, a: map<EntryId, Claim>, b: map<EntryId, Claim>, n: nat, t: nat,
                    now: int, later: int)
    requires Within(log, first, a, n, t, now) && now <= later && b.Keys <= a.Keys
    requires forall id :: id in b ==> b[id].since == a[id].since || b[id].since == now
    ensures Within(log, first, b, n, t, later)
  {
    Fewer(b.Keys, a.Keys);
    Fewer(TrimmedPending(log, first, b), TrimmedPending(log, first, a));
  }

  lemma PageKeepsRoom(log: seq<Entry>, first: nat, l: Ledger, cursor: EntryId, p: Pass, k: nat, n: nat, t: nat)
    requires Sorted(log) && Nondecreasing(p.clock)
    requires Room(p.batch, p.minIdle, n, t) && Within(log, first, l.pending, n, t, p.clock(k))
    ensures var page := AutoClaim(log, first, l.pending, cursor, p.minIdle, p.clock(k), p.batch);
      && (page.next != 0 ==> page.claimed != [])
      && Within(log, first, ApplyPage(l, page, p.consumer, p.clock(k)).pending, n, t, p.clock(k + 1))
  {
    PageClaims(log, first, l.pending, cursor, p.minIdle, p.clock(k), p.batch, n, t);
    var page := AutoClaim(log, first, l.pending, cursor, p.minIdle, p.clock(k), p.batch);
    PageShrinks(log, first, l, cursor, p.minIdle, p.clock(k), p.batch, p.consumer);
    WithinStays(log, first, l.pending, ApplyPage(l, page, p.consumer, p.clock(k)).pending, n, t, p.clock(k),
                p.clock(k + 1));
  }

  /** Where an answered loop stops, after one page. */
  lemma HeardPage(log: seq<Entry>, first: nat, l: Ledger, cursor: EntryId, p: Pass, k: nat)
    requires Sorted(log) && CursorOk(log, cursor) && p.reply(k) == Heard
    ensures var page := PageAt(log, first, l, cursor, p, k);
      var m := ApplyPage(l, page, p.consumer, p.clock(k));
      && (page.next == 0 || page.claimed == [] ==> ClaimFrom(log, first, l, cursor, p, k).next == page.next)
      && (page.next != 0 && page.claimed != [] ==>
          && CursorOk(log, page.next) && page.next > cursor
          && (cursor == 0 || Frontier(page.next) > Frontier(cursor))
          && ClaimFrom(log, first, l, cursor, p, k).next == ClaimFrom(log, first, m, page.next, p, k + 1).next)
  {
    PageAdvances(log, first, l.pending, cursor, p.minIdle, p.clock(k), p.batch);
  }

  /** The page a loop asks for. */
  function PageAt(log: seq<Entry>, first: nat, l: Ledger, cursor: EntryId, p: Pass, k: nat): Page {
    AutoClaim(log, first, l.pending, cursor, p.minIdle, p.clock(k), p.batch)
  }

  /** The books and the cursor before each page of a loop. */
  datatype Before = Before(ledger: Ledger, cursor: EntryId)

  /** One page after another, each from where the one before stopped. */
  ghost predicate Follow(log: seq<Entry>, first: nat, a: Before, b: Before, p: Pass, k: nat) {
    var page := PageAt(log, first, a.ledger, a.cursor, p, k);
    b == Before(ApplyPage(a.ledger, page, p.consumer, p.clock(k)), page.next)
  }

  lemma Prepend(log: seq<Entry>, first: nat, a: Before, rest: seq<Before>, p: Pass, k: nat)
    requires rest != [] && Follow(log, first, a, rest[0], p, k)
    requires forall i :: 0 <= i < |rest| - 1 ==> Follow(log, first, rest[i], rest[i + 1], p, k + 1 + i)
    ensures var pages := [a] + rest;
      forall i :: 0 <= i < |pages| - 1 ==> Follow(log, first, pages[i], pages[i + 1], p, k + i)
  {
    var pages := [a] + rest;
    forall i | 0 <= i < |pages| - 1 ensures Follow(log, first, pages[i], pages[i + 1], p, k + i) {
      if i > 0 {
        assert Follow(log, first, rest[i - 1], rest[i], p, k + 1 + (i - 1));
      }
    }
  }

  /** The pages of an answered loop; the last one is empty or wraps, and the loop stops where it did. */
  lemma {:induction false} Pages(log: seq<Entry>, first: nat, l: Ledger, cursor: EntryId, p: Pass, k: nat)
    returns (pages: seq<Before>)
    requires Sorted(log) && CursorOk(log, cursor) && AllHeard(p.reply)
    ensures pages != [] && pages[0] == Before(l, cursor)
    ensures forall i :: 0 <= i < |pages| - 1 ==> Follow(log, first, pages[i], pages[i + 1], p, k + i)
    ensures var last := pages[|pages| - 1];
      var page := PageAt(log, first, last.ledger, last.cursor, p, k + |pages| - 1);
      (page.next == 0 || page.claimed == []) && ClaimFrom(log, first, l, cursor, p, k).next == page.next
    decreases LastId(log) + 1 - Frontier(cursor), if cursor == 0 then 1 else 0
  {
    HeardPage(log, first, l, cursor, p, k);
    var page := PageAt(log, first, l, cursor, p, k);
    if page.next == 0 || page.claimed == [] {
      pages := [Before(l, cursor)];
    } else {
      var m := ApplyPage(l, page, p.consumer, p.clock(k));
      var rest := Pages(log, first, m, page.next, p, k + 1);
      Prepend(log, first, Before(l, cursor), rest, p, k);
      pages := [Before(l, cursor)] + rest;
    }
  }

  /** What is pending before a page. */
  ghost predicate WithinAt(log: seq<Entry>, first: nat, b: Before, p: Pass, n: nat, t: nat, k: nat) {
    Within(log, first, b.ledger.pending, n, t, p.clock(k))
  }

  lemma RoomNext(log: seq<Entry>, first: nat, a: Before, b: Before, p: Pass, n: nat, t: nat, k: nat)
    requires Sorted(log) && Nondecreasing(p.clock) && Room(p.batch, p.minIdle, n, t)
    requires WithinAt(log, first, a, p, n, t, k) && Follow(log, first, a, b, p, k)
    ensures WithinAt(log, first, b, p, n, t, k + 1)
  {
    PageKeepsRoom(log, first, a.ledger, a.cursor, p, k, n, t);
  }

  /** Room is kept from page to page. */
  lemma {:induction false} RoomStays(log: seq<Entry>, first: nat, pages: seq<Before>, p: Pass, n: nat, t: nat, i: nat)
    requires Sorted(log) && Nondecreasing(p.clock) && Room(p.batch, p.minIdle, n, t) && i < |pages|
    requires WithinAt(log, first, pages[0], p, n, t, 0)
    requires forall j :: 0 <= j < |pages| - 1 ==> Follow(log, first, pages[j], pages[j + 1], p, j)
    ensures WithinAt(log, first, pages[i], p, n, t, i)
  {
    if i > 0 {
      RoomStays(log, first, pages, p, n, t, i - 1);
      assert Follow(log, first, pages[i - 1], pages[i], p, i - 1);
      RoomNext(log, first, pages[i - 1], pages[i], p, n, t, i - 1);
    }
  }

  /** With room the loop goes on to the end of the pending list. */
  lemma LoopWraps(log: seq<Entry>, first: nat, l: Ledger, p: Pass, n: nat, t: nat)
    requires Sorted(log) && Nondecreasing(p.clock) && AllHeard(p.reply)
    requires Room(p.batch, p.minIdle, n, t) && Within(log, first, l.pending, n, t, p.clock(0))
    ensures ClaimFrom(log, first, l, 0, p, 0).next == 0
  {
    var pages := Pages(log, first, l, 0, p, 0);
    var k := |pages| - 1;
    RoomStays(log, first, pages, p, n, t, k);
    PageKeepsRoom(log, first, pages[k].ledger, pages[k].cursor, p, k, n, t);
  }

  // ---- every pass -------------------------------------------------------------

  /** A stream, a group's books and a pass over them in which every command is answered. */
  datatype Setting = Setting(log: seq<Entry>, first: nat, ledger: Ledger, pass: Pass)

  ghost predicate Fits(s: Setting, batch: int, minIdle: int, n: nat, t: nat) {
    && s.first <= |s.log| && Sorted(s.log) && LedgerOk(s.log, s.first, s.ledger)
    && s.pass.batch == batch && s.pass.minIdle == minIdle && Nondecreasing(s.pass.clock) && AllHeard(s.pass.reply)
    && Within(s.log, s.first, s.ledger.pending, n, t, s.pass.clock(0))
  }

  /** The pass acknowledges every surviving entry that was idle enough when it began. */
  ghost predicate Complete(s: Setting)
    requires Sorted(s.log)
  {
    var after := PassLedger(s.log, s.first, s.ledger, s.pass);
    AllIdleAcked(s.log, s.first, s.ledger, after, s.pass.minIdle, s.pass.clock(0))
  }

  lemma RoomIsEnough(s: Setting, batch: int, minIdle: int, n: nat, t: nat)
    requires Fits(s, batch, minIdle, n, t) && Room(batch, minIdle, n, t)
    ensures Complete(s)
  {
    LoopWraps(s.log, s.first, s.ledger, s.pass, n, t);
    AnsweredLoop(s.log, s.first, s.ledger, 0, s.pass, 0);
    PassEffect(s.log, s.first, s.ledger, s.pass);
  }

  /**
   A page whose answer is lost has been carried out, and one that is refused has not. When everything pending fits in a
   page, the first leaves all that was idle enough with the claimer, although the loop fails and returns nothing.
   */
  lemma LostPageClaims(log: seq<Entry>, first: nat, l: Ledger, p: Pass)
    requires Sorted(log) && CursorOk(log, 0) && p.reply(0) != Heard
    requires |l.pending| <= if p.batch > 0 then p.batch else 100
    ensures var r := ClaimFrom(log, first, l, 0, p, 0);
      && r.failed && r.out == [] && r.ledger.acked == l.acked
      && (p.reply(0) == Refused ==> r.ledger == l && r.missed == [])
      && (p.reply(0) == Unheard ==> forall m :: first <= m < |log| ==> TakenUnheard(log, l, r, p, m))
  {
    var size := PageSize(p.batch);
    var page := AutoClaim(log, first, l.pending, 0, p.minIdle, p.clock(0), p.batch);
    AheadAtMost(log, first, l.pending, 0);
    ScanStops(log, first, 0, l.pending, 0, p.minIdle, p.clock(0), size, 10 * size);
    if p.reply(0) == Unheard {
      forall m: nat | first <= m < |log|
        ensures TakenUnheard(log, l, ClaimFrom(log, first, l, 0, p, 0), p, m)
      {
        ScanExact(log, first, 0, l.pending, 0, p.minIdle, p.clock(0), size, 10 * size, m);
        NotCleared(log, first, l, p, m);
      }
    }
  }

  /** An entry that survives is not cleared. */
  lemma NotCleared(log: seq<Entry>, first: nat, l: Ledger, p: Pass, m: nat)
    requires Sorted(log) && first <= m < |log|
    ensures log[m].id !in AutoClaim(log, first, l.pending, 0, p.minIdle, p.clock(0), p.batch).purged
  {
    var size := PageSize(p.batch);
    ScanExact(log, first, 0, l.pending, 0, p.minIdle, p.clock(0), size, 10 * size, m);
  }

  /** The claimer holds the entry exactly if it was idle enough; else it is as it was. */
  ghost predicate TakenUnheard(log: seq<Entry>, l: Ledger, r: Claims, p: Pass, m: nat)
    requires m < |log|
  {
    var id := log[m].id;
    && (id in r.missed <==> IdleEnough(l.pending, id, p.minIdle, p.clock(0)))
    && (id in r.ledger.pending <==> id in l.pending)
    && (id in l.pending ==>
        r.ledger.pending[id] == if id in r.missed then Claim(p.consumer, p.clock(0)) else l.pending[id])
  }

  // ---- without room ------------------------------------------------------------

  /** Entries 1, 2, ... n. */
  function Numbers(n: nat): (log: seq<Entry>)
    ensures |log| == n && Sorted(log) && forall i :: 0 <= i < n ==> log[i].id == i + 1
  {
    seq(n, i requires 0 <= i => Entry(i + 1, true))
  }

  /** A time long enough before 0. */
  function LongAgo(minIdle: int): int { if minIdle > 0 then -minIdle else 0 }

  function Upto(m: nat): (ids: set<EntryId>)
    ensures |ids| == m && forall id :: id in ids <==> 1 <= id <= m
  {
    if m == 0 then {} else Upto(m - 1) + {m}
  }

  /** The first `k` of them pending, of which the first `young` since 0 and the others for long enough. */
  function PendingUpTo(k: nat, young: nat, minIdle: int): (pending: map<EntryId, Claim>)
    ensures pending.Keys == Upto(k)
    ensures forall id :: id in pending ==>
      pending[id] == Claim("worker", if id <= young then 0 else LongAgo(minIdle))
  {
    if k == 0 then map[] else
    PendingUpTo(k - 1, young, minIdle)[k := Claim("worker", if k <= young then 0 else LongAgo(minIdle))]
  }

  function BooksUpTo(m: nat, young: nat, minIdle: int): Ledger {
    Ledger(0, m + 1, PendingUpTo(m + 1, young, minIdle), seq(m + 1, i requires 0 <= i => i + 1), {}, {}, {})
  }

  /** Everything was delivered, in order, and is still pending. */
  ghost predicate AllOut(log: seq<Entry>, l: Ledger) {
    && l.start == 0 && l.cursor == LastId(log) && l.acked == {} && l.purged == {} && l.lost == {}
    && Increasing(l.delivered)
    && (forall id :: id in l.delivered <==> id in l.pending)
    && (forall id :: id in l.delivered ==> InLog(log, id) && 0 < id <= l.cursor)
    && (forall i :: 0 <= i < |log| ==> log[i].id in l.delivered)
  }

  lemma AllDelivered(log: seq<Entry>, l: Ledger, m: nat, young: nat, minIdle: int)
    requires log == Numbers(m + 1) && l == BooksUpTo(m, young, minIdle)
    ensures AllOut(log, l)
  {
    forall id | id in l.delivered ensures InLog(log, id) && id in l.pending {
      assert log[id - 1].id == id;
    }
    forall id | id in l.pending ensures id in l.delivered {
      assert l.delivered[id - 1] == id;
    }
    forall i | 0 <= i < |log| ensures log[i].id in l.delivered {
      assert l.delivered[i] == log[i].id;
    }
  }

  lemma OutIsOk(log: seq<Entry>, first: nat, l: Ledger)
    requires Sorted(log) && AllOut(log, l)
    ensures LedgerOk(log, first, l)
  {
    assert forall i :: 0 <= i < |log| ==> log[i].id in l.delivered && log[i].id <= l.cursor;
  }

  lemma BooksOk(m: nat, first: nat, young: nat, minIdle: int)
    ensures LedgerOk(Numbers(m + 1), first, BooksUpTo(m, young, minIdle))
  {
    AllDelivered(Numbers(m + 1), BooksUpTo(m, young, minIdle), m, young, minIdle);
    OutIsOk(Numbers(m + 1), first, BooksUpTo(m, young, minIdle));
  }

  /** The first `first` entries trimmed; one pass at time 0. */
  function Stuck(m: nat, first: nat, young: nat, batch: int, minIdle: int): Setting {
    Setting(Numbers(m + 1), first, BooksUpTo(m, young, minIdle), Pass("reclaimer", minIdle, batch, _ => 0, _ => Heard))
  }

  lemma StuckWithin(m: nat, first: nat, young: nat, minIdle: int, n: nat, t: nat)
    requires first <= m < n && first <= t
    ensures Within(Numbers(m + 1), first, PendingUpTo(m + 1, young, minIdle), n, t, 0)
  {
    var log, pending := Numbers(m + 1), PendingUpTo(m + 1, young, minIdle);
    assert |pending| == |pending.Keys|;
    var trimmed := TrimmedPending(log, first, pending);
    forall id | id in trimmed ensures id in Upto(first) {
    }
    Fewer(trimmed, Upto(first));
  }

  lemma StuckFits(m: nat, first: nat, young: nat, batch: int, minIdle: int, n: nat, t: nat)
    requires first <= m < n && first <= t
    ensures Fits(Stuck(m, first, young, batch, minIdle), batch, minIdle, n, t)
  {
    BooksOk(m, first, young, minIdle);
    StuckWithin(m, first, young, minIdle, n, t);
  }

  /** Entries 1 to m + 1, all pending, the first `young` since 0 and the others for long enough. */
  ghost predicate Line(log: seq<Entry>, pending: map<EntryId, Claim>, m: nat, young: nat, minIdle: int) {
    && |log| == m + 1 && (forall i :: 0 <= i <= m ==> log[i].id == i + 1)
    && (forall i :: 0 <= i <= m ==> log[i].id in pending)
    && (forall id :: id in pending ==> pending[id].since == if id <= young then 0 else LongAgo(minIdle))
  }

  /** Fresh entries use up the scan. */
  lemma {:induction false} FreshScan(log: seq<Entry>, pending: map<EntryId, Claim>, m: nat, i: nat, minIdle: int,
                                     count: nat)
    requires Line(log, pending, m, m, minIdle) && i <= m && count > 0 && minIdle > 0
    ensures Scan(log, 0, i, pending, 0, minIdle, 0, count, m - i) == Page([], {}, m + 1)
    decreases m - i
  {
    if i < m {
      FreshScan(log, pending, m, i + 1, minIdle, count);
    }
  }

  /** Clearing trimmed entries uses up the page. */
  lemma {:induction false} TrimmedScan(log: seq<Entry>, pending: map<EntryId, Claim>, m: nat, i: nat, minIdle: int,
                                       attempts: nat)
    requires Line(log, pending, m, 0, minIdle) && i <= m && m - i <= attempts
    ensures var p := Scan(log, m, i, pending, 0, minIdle, 0, m - i, attempts); p.claimed == [] && p.next == m + 1
    decreases m - i
  {
    if i < m {
      TrimmedScan(log, pending, m, i + 1, minIdle, attempts - 1);
    }
  }

  /** A pass whose first page is empty ends there and acknowledges nothing. */
  lemma EmptyPass(log: seq<Entry>, first: nat, l: Ledger, p: Pass)
    requires Sorted(log) && p.reply(0) == Heard
    requires AutoClaim(log, first, l.pending, 0, p.minIdle, p.clock(0), p.batch).claimed == []
    ensures PassLedger(log, first, l, p).acked == l.acked
  {
    assert ClaimFrom(log, first, l, 0, p, 0).out == [];
  }

  /** It leaves the last entry, which is idle, as it was. */
  lemma EmptyPageEnds(m: nat, first: nat, young: nat, batch: int, minIdle: int)
    requires first <= m && young <= m
    requires AutoClaim(Numbers(m + 1), first, PendingUpTo(m + 1, young, minIdle), 0, minIdle, 0, batch).claimed == []
    ensures !Complete(Stuck(m, first, young, batch, minIdle))
  {
    var s := Stuck(m, first, young, batch, minIdle);
    EmptyPass(s.log, s.first, s.ledger, s.pass);
    assert s.log[m].id == m + 1;
    assert IdleEnough(s.ledger.pending, s.log[m].id, minIdle, 0);
  }

  lemma TooManyFresh(batch: int, minIdle: int)
    requires minIdle > 0
    ensures var m := 10 * PageSize(batch); !Complete(Stuck(m, 0, m, batch, minIdle))
  {
    var m := 10 * PageSize(batch);
    FreshScan(Numbers(m + 1), PendingUpTo(m + 1, m, minIdle), m, 0, minIdle, PageSize(batch));
    EmptyPageEnds(m, 0, m, batch, minIdle);
  }

  lemma TooManyTrimmed(batch: int, minIdle: int)
    ensures var m := PageSize(batch); !Complete(Stuck(m, m, 0, batch, minIdle))
  {
    var m := PageSize(batch);
    TrimmedScan(Numbers(m + 1), PendingUpTo(m + 1, 0, minIdle), m, 0, minIdle, 10 * m);
    EmptyPageEnds(m, m, 0, batch, minIdle);
  }
}
