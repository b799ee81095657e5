/**
 What every interleaving of the steps of module ConsumerGroup keeps: each entry is accounted for
 once, nothing is acknowledged unresolved, and groups do not disturb each other.
 */
module ConsumerGroupSafety {
  import opened ConsumerGroup

  // ---- the server's books ---------------------------------------------------

  ghost predicate Increasing(ids: seq<EntryId>) {
    forall i, j :: 0 <= i < j < |ids| ==> ids[i] < ids[j]
  }

  ghost predicate InLog(log: seq<Entry>, id: EntryId) {
    exists i :: 0 <= i < |log| && log[i].id == id
  }

  /** The history of a group: which ids were handed out, and what became of each. */
  ghost predicate Books(l: Ledger) {
    && l.start <= l.cursor
    && Increasing(l.delivered)
    && (forall id :: id in l.delivered ==> l.start < id <= l.cursor)
    && (forall id :: id in l.delivered <==> id in l.pending || id in l.acked || id in l.purged)
    && l.acked !! l.purged && l.pending.Keys !! l.acked && l.pending.Keys !! l.purged
    && (forall id :: id in l.lost ==> l.start < id && id !in l.delivered)
  }

  /** How the history covers the log. */
  ghost predicate Covers(log: seq<Entry>, first: nat, l: Ledger) {
    && l.cursor <= LastId(log) && (forall id :: id in l.lost ==> InLog(log, id))
    && (forall id :: id in l.delivered ==> InLog(log, id))
    && (forall i :: 0 <= i < |log| && log[i].id in l.lost ==> i < first)
    && (forall i :: 0 <= i < |log| && l.start < log[i].id <= l.cursor
                    ==> log[i].id in l.delivered || log[i].id in l.lost)
    && (forall i :: 0 <= i < |log| && i < first && log[i].id > l.cursor ==> log[i].id in l.lost)
  }

  ghost predicate LedgerOk(log: seq<Entry>, first: nat, l: Ledger) {
    Books(l) && Covers(log, first, l)
  }

  /** `batch` is the stretch of the log that starts at `j`, the first surviving position above the cursor. */
  ghost predicate IsNext(log: seq<Entry>, first: nat, cursor: EntryId, j: nat, batch: seq<Entry>) {
    && first <= j && j + |batch| <= |log|
    && (forall k :: first <= k < j ==> log[k].id <= cursor)
    && (forall k :: j <= k < j + |batch| ==> log[k].id > cursor && log[k] == batch[k - j])
  }

  lemma BatchIsNext(log: seq<Entry>, first: nat, cursor: EntryId, count: int) returns (j: nat)
    requires Sorted(log) && first <= |log|
    ensures IsNext(log, first, cursor, j, Batch(log, first, cursor, count))
  {
    j := FirstAbove(log, first, cursor);
  }

  lemma NextIds(log: seq<Entry>, first: nat, cursor: EntryId, j: nat, batch: seq<Entry>)
    requires Sorted(log) && first <= |log| && IsNext(log, first, cursor, j, batch)
    ensures Increasing(Ids(batch))
    ensures forall id :: id in Ids(batch) ==> id > cursor && exists k :: j <= k < j + |batch| && log[k].id == id
    ensures forall k :: j <= k < j + |batch| ==> log[k].id in Ids(batch)
  {
    var ids := Ids(batch);
    assert forall k :: 0 <= k < |ids| ==> ids[k] == log[j + k].id;
    forall k | j <= k < j + |batch| ensures log[k].id in ids { assert ids[k - j] == log[k].id; }
  }

  lemma DeliverBooks(l: Ledger, batch: seq<Entry>, consumer: string, now: int)
    requires Books(l) && Increasing(Ids(batch)) && (forall id :: id in Ids(batch) ==> id > l.cursor)
    requires forall id :: id in Ids(batch) ==> id !in l.lost
    ensures Books(Deliver(l, batch, consumer, now))
    ensures forall id :: id in Deliver(l, batch, consumer, now).delivered <==> id in l.delivered || id in Ids(batch)
  {
    var ids := Ids(batch);
    var m := Deliver(l, batch, consumer, now);
    if batch != [] {
      assert m.cursor == ids[|ids| - 1] && m.cursor in ids;
      forall i, k | 0 <= i < k < |m.delivered| ensures m.delivered[i] < m.delivered[k] {
        assert i < |l.delivered| ==> m.delivered[i] in l.delivered;
        assert |l.delivered| <= k ==> m.delivered[k] in ids;
      }
      assert m.pending.Keys == l.pending.Keys + (set id | id in ids);
      assert forall id :: id in l.delivered ==> id <= l.cursor;
      assert forall id :: id in ids ==> id <= m.cursor;
    }
  }

  /** Moving the cursor to the end of the slice it hands out leaves no gap. */
  lemma NextCovers(log: seq<Entry>, first: nat, l: Ledger, m: Ledger, j: nat, batch: seq<Entry>)
    requires Sorted(log) && first <= |log| && Covers(log, first, l) && batch != []
    requires IsNext(log, first, l.cursor, j, batch)
    requires m.cursor == batch[|batch| - 1].id && m.start == l.start && m.lost == l.lost
    requires forall k :: j <= k < j + |batch| ==> log[k].id in m.delivered
    requires forall id :: id in l.delivered ==> id in m.delivered
    requires forall id :: id in m.delivered ==> InLog(log, id)
    ensures Covers(log, first, m)
  {
    assert m.cursor == log[j + |batch| - 1].id;
  }

  lemma DeliverNext(log: seq<Entry>, first: nat, l: Ledger, j: nat, batch: seq<Entry>, consumer: string, now: int)
    requires Sorted(log) && first <= |log| && LedgerOk(log, first, l)
    requires IsNext(log, first, l.cursor, j, batch)
    ensures LedgerOk(log, first, Deliver(l, batch, consumer, now))
  {
    NextIds(log, first, l.cursor, j, batch);
    DeliverBooks(l, batch, consumer, now);
    if batch != [] {
      NextCovers(log, first, l, Deliver(l, batch, consumer, now), j, batch);
    }
  }

  lemma AckKeeps(log: seq<Entry>, first: nat, l: Ledger, id: EntryId)
    requires LedgerOk(log, first, l)
    ensures LedgerOk(log, first, XAck(l, id))
  {
  }

  ghost predicate FromPosition(log: seq<Entry>, i: nat, id: EntryId) {
    exists m :: i <= m < |log| && log[m].id == id
  }

  /** The page picks its ids from position `i` on, in order. */
  lemma {:induction false} ScanOrder(log: seq<Entry>, first: nat, i: nat, pending: map<EntryId, Claim>, from: EntryId,
                                     minIdle: int, now: int, count: nat, attempts: nat)
    requires Sorted(log) && i <= |log|
    ensures var p := Scan(log, first, i, pending, from, minIdle, now, count, attempts);
      && Increasing(p.claimed)
      && (forall id :: id in p.claimed || id in p.purged ==> FromPosition(log, i, id))
      && (p.next != 0 ==> FromPosition(log, i, p.next) && p.next in pending && from <= p.next)
    decreases |log| - i
  {
    if i < |log| {
      var id := log[i].id;
      if id !in pending || id < from {
        ScanOrder(log, first, i + 1, pending, from, minIdle, now, count, attempts);
      } else if count == 0 || attempts == 0 {
        assert FromPosition(log, i, id);
      } else if first <= i && now - pending[id].since < minIdle {
        ScanOrder(log, first, i + 1, pending, from, minIdle, now, count, attempts - 1);
      } else {
        ScanOrder(log, first, i + 1, pending, from, minIdle, now, count - 1, attempts - 1);
        var rest := Scan(log, first, i + 1, pending, from, minIdle, now, count - 1, attempts - 1);
        assert FromPosition(log, i, id);
        ConsIncreasing(id, rest.claimed);
      }
    }
  }

  lemma ConsIncreasing(id: EntryId, ids: seq<EntryId>)
    requires Increasing(ids) && forall k :: k in ids ==> id < k
    ensures Increasing([id] + ids)
  {
    var all := [id] + ids;
    forall i, j | 0 <= i < j < |all| ensures all[i] < all[j] {
      assert all[j] == ids[j - 1] && all[j] in ids;
    }
  }

  /** An id the walk passed: pending, at or above `from`, and below where it stopped. */
  ghost predicate Walked(pending: map<EntryId, Claim>, from: EntryId, next: EntryId, id: EntryId) {
    id in pending && from <= id && (next == 0 || id < next)
  }

  ghost predicate IdleEnough(pending: map<EntryId, Claim>, id: EntryId, minIdle: int, now: int) {
    id in pending && now - pending[id].since >= minIdle
  }

  /** Exactly what a page takes and clears among the entries it walked. */
  lemma {:induction false} ScanExact(log: seq<Entry>, first: nat, i: nat, pending: map<EntryId, Claim>, from: EntryId,
                                     minIdle: int, now: int, count: nat, attempts: nat, m: nat)
    requires Sorted(log) && i <= m < |log|
    ensures var p := Scan(log, first, i, pending, from, minIdle, now, count, attempts);
      var id := log[m].id;
      && (id in p.claimed <==> Walked(pending, from, p.next, id) && first <= m && IdleEnough(pending, id, minIdle, now))
      && (id in p.purged <==> Walked(pending, from, p.next, id) && m < first)
    decreases |log| - i
  {
    var id := log[i].id;
    var p := Scan(log, first, i, pending, from, minIdle, now, count, attempts);
    if id !in pending || id < from {
      Below(log, first, i, pending, from, minIdle, now, count, attempts);
      if i < m { ScanExact(log, first, i + 1, pending, from, minIdle, now, count, attempts, m); }
    } else if count == 0 || attempts == 0 {
    } else if first <= i && now - pending[id].since < minIdle {
      Below(log, first, i, pending, from, minIdle, now, count, attempts - 1);
      if i < m { ScanExact(log, first, i + 1, pending, from, minIdle, now, count, attempts - 1, m); }
    } else {
      Below(log, first, i, pending, from, minIdle, now, count - 1, attempts - 1);
      if i < m { ScanExact(log, first, i + 1, pending, from, minIdle, now, count - 1, attempts - 1, m); }
    }
  }

  /** What the rest of the walk reports lies above the entry at `i`. */
  lemma Below(log: seq<Entry>, first: nat, i: nat, pending: map<EntryId, Claim>, from: EntryId,
              minIdle: int, now: int, count: nat, attempts: nat)
    requires Sorted(log) && i < |log|
    ensures var rest := Scan(log, first, i + 1, pending, from, minIdle, now, count, attempts);
      && (forall id :: id in rest.claimed || id in rest.purged ==> log[i].id < id)
      && (rest.next != 0 ==> log[i].id < rest.next)
  {
    ScanOrder(log, first, i + 1, pending, from, minIdle, now, count, attempts);
    var rest := Scan(log, first, i + 1, pending, from, minIdle, now, count, attempts);
    assert forall id :: id in rest.claimed || id in rest.purged ==> FromPosition(log, i + 1, id);
  }

  lemma PageKeeps(log: seq<Entry>, first: nat, l: Ledger, from: EntryId, minIdle: int, now: int, count: int,
                  consumer: string)
    requires Sorted(log) && LedgerOk(log, first, l)
    ensures var page := AutoClaim(log, first, l.pending, from, minIdle, now, count);
            LedgerOk(log, first, ApplyPage(l, page, consumer, now))
  {
    var page := AutoClaim(log, first, l.pending, from, minIdle, now, count);
    ScanOrder(log, first, 0, l.pending, from, minIdle, now, PageSize(count), 10 * PageSize(count));
    forall id | id in page.claimed || id in page.purged ensures id in l.pending {
      var m :| 0 <= m < |log| && log[m].id == id;
      ScanExact(log, first, 0, l.pending, from, minIdle, now, PageSize(count), 10 * PageSize(count), m);
    }
    assert ApplyPage(l, page, consumer, now).pending.Keys == l.pending.Keys - page.purged;
  }

  lemma TrimKeeps(log: seq<Entry>, first: nat, upTo: nat, l: Ledger)
    requires Sorted(log) && first <= upTo <= |log| && LedgerOk(log, first, l)
    ensures LedgerOk(log, upTo, NoteTrim(log, first, upTo, l))
  {
    var m := NoteTrim(log, first, upTo, l);
    forall i | 0 <= i < |log| && log[i].id in m.lost ensures i < upTo {
      if log[i].id !in l.lost {
        var k :| first <= k < upTo && log[k].id > l.cursor && log[k].id == log[i].id;
        assert k == i;
      }
    }
  }

  lemma AppendKeeps(log: seq<Entry>, first: nat, e: Entry, l: Ledger)
    requires Sorted(log) && first <= |log| && LedgerOk(log, first, l) && CanAppend(log, e)
    ensures LedgerOk(log + [e], first, l)
  {
    var longer := log + [e];
    assert forall i :: 0 <= i < |log| ==> longer[i] == log[i];
    forall id | InLog(log, id) ensures InLog(longer, id) && id != e.id {
      var i :| 0 <= i < |log| && log[i].id == id;
      assert longer[i].id == id;
    }
    assert e.id !in l.lost;
  }
}
