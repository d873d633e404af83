/**
 * The deliveries table: what one delivery is, what each SQL statement does to the rows, and
 * the repository that runs the statements.
 *
 * A statement is one atomic step. What a worker holds between two statements is a copy.
 */
module Deliveries {
  import opened Basics
  import opened Ordering
  import opened Paging

  datatype Status = PENDING | SENT | FAILED {
    predicate IsSettled() {
      this == SENT || this == FAILED
    }

    predicate CanTransitionTo(next: Status) {
      this == PENDING && next.IsSettled()
    }
  }

  datatype Reason = EXPIRED | MAX_ATTEMPTS | PERMANENT | NO_SENDER | NOT_REACHABLE

  datatype Recipient = Recipient(channel: string, address: string)

  datatype Row = Row(
    notification: Id,
    recipient: Recipient,
    senderName: string,
    status: Status,
    attempts: nat,
    lastError: string,
    reason: Option<Reason>,
    providerId: string,
    notifiedAt: Option<Time>,
    claimedAt: Option<Time>,
    updatedAt: Time)

  type Table = map<Id, Row>

  datatype Entry = Entry(id: Id, row: Row)

  /** A delivery as it is opened: pending, never attempted, held by nobody, not announced. */
  function NewRow(notification: Id, recipient: Recipient, senderName: string, now: Time): Row {
    Row(notification, recipient, senderName, PENDING, 0, "", None, "", None, None, now)
  }

  // --- the outcome of an attempt ---------------------------------------------

  datatype Outcome = Accepted(providerId: string) | Refused(reason: Reason, detail: string)

  /** MarkSent and MarkFailed on a copy. None is the refused transition. */
  function Mark(d: Row, o: Outcome, attempts: nat, now: Time): Option<Row> {
    match o
    case Accepted(providerId) =>
      if d.status.CanTransitionTo(SENT) then
        Some(d.(status := SENT, updatedAt := now, providerId := providerId, attempts := attempts,
                lastError := "", reason := None))
      else
        None
    case Refused(reason, detail) =>
      if d.status.CanTransitionTo(FAILED) then
        Some(d.(status := FAILED, updatedAt := now, reason := Some(reason), lastError := detail,
                attempts := attempts))
      else
        None
  }

  // --- the statements --------------------------------------------------------

  predicate IsPending(t: Table, id: Id) {
    id in t && t[id].status == PENDING
  }

  /** UpdateDelivery: records an outcome, on a row that is still pending and nowhere else. */
  function UpdateDelivery(t: Table, id: Id, d: Row): Table {
    if IsPending(t, id) then
      t[id := t[id].(status := d.status, attempts := d.attempts, lastError := d.lastError,
                     reason := d.reason, providerId := d.providerId, updatedAt := d.updatedAt)]
    else
      t
  }

  /** Six columns of one pending row, and nothing else. */
  lemma UpdateWritesTheOutcome(t: Table, id: Id, d: Row)
    ensures var t' := UpdateDelivery(t, id, d);
            && t'.Keys == t.Keys
            && (forall x :: x in t && (x != id || t[x].status != PENDING) ==> t'[x] == t[x])
            && (id in t && t[id].status == PENDING ==>
                  var was, now := t[id], t'[id];
                  && now.status == d.status && now.attempts == d.attempts && now.lastError == d.lastError
                  && now.reason == d.reason && now.providerId == d.providerId && now.updatedAt == d.updatedAt
                  && now.notification == was.notification && now.recipient == was.recipient
                  && now.senderName == was.senderName
                  && now.notifiedAt == was.notifiedAt && now.claimedAt == was.claimedAt)
  {
  }

  /** ReleaseDeliveryClaim: by id alone, whoever holds the claim. */
  function ReleaseClaim(t: Table, id: Id): Table {
    if IsPending(t, id) then t[id := t[id].(claimedAt := None)] else t
  }

  predicate Unannounced(t: Table, n: Id) {
    exists d :: d in t && t[d].notification == n && t[d].notifiedAt.None?
  }

  /** ClaimNotificationAnnouncement: stamps every row of the message that has no stamp. */
  function StampAnnounced(t: Table, n: Id, now: Time): Table {
    map d | d in t ::
      if t[d].notification == n && t[d].notifiedAt.None? then t[d].(notifiedAt := Some(now)) else t[d]
  }

  function RowsOf(t: Table, n: Id): set<Id> {
    set d | d in t && t[d].notification == n
  }

  function Entries(t: Table, ids: seq<Id>): (r: seq<Entry>)
    requires forall x :: x in ids ==> x in t
    ensures |r| == |ids|
    ensures forall i :: 0 <= i < |ids| ==> r[i] == Entry(ids[i], t[ids[i]])
  {
    if ids == [] then [] else [Entry(ids[0], t[ids[0]])] + Entries(t, ids[1..])
  }

  /** ListDeliveriesByNotificationID: `ORDER BY id`. */
  function ListByNotification(t: Table, n: Id): seq<Entry> {
    InOrderLists(false, RowsOf(t, n));
    Entries(t, InOrder(false, RowsOf(t, n)))
  }

  predicate Lists(ds: seq<Entry>, d: Id) {
    exists k :: 0 <= k < |ds| && ds[k].id == d
  }

  lemma {:induction false} EntriesList(t: Table, ids: seq<Id>, d: Id)
    requires forall x :: x in ids ==> x in t
    ensures Lists(Entries(t, ids), d) <==> d in ids
  {
    var ds := Entries(t, ids);
    if d in ids {
      var k :| 0 <= k < |ids| && ids[k] == d;
      assert ds[k].id == d;
    }
  }

  /** The list has exactly the rows of the message, as they stand. */
  lemma ListHasEveryRow(t: Table, n: Id)
    ensures var ds := ListByNotification(t, n);
            && (forall d :: Lists(ds, d) <==> d in RowsOf(t, n))
            && (forall k :: 0 <= k < |ds| ==> ds[k].id in t && ds[k].row == t[ds[k].id] && ds[k].row.notification == n)
  {
    var ids := InOrder(false, RowsOf(t, n));
    InOrderLists(false, RowsOf(t, n));
    var ds := Entries(t, ids);
    forall d
      ensures Lists(ds, d) <==> d in RowsOf(t, n)
    {
      EntriesList(t, ids, d);
    }
    forall k | 0 <= k < |ds|
      ensures ds[k].id in t && ds[k].row == t[ds[k].id] && ds[k].row.notification == n
    {
      assert ids[k] in ids;
    }
  }

  // --- claiming stale rows ---------------------------------------------------

  /** The WHERE clause of ClaimStaleDeliveries. */
  predicate Claimable(r: Row, olderThan: Time, claimExpiredBefore: Time) {
    && r.status == PENDING
    && r.updatedAt < olderThan
    && (r.claimedAt.None? || r.claimedAt.value < claimExpiredBefore)
  }

  function AllClaimable(t: Table, olderThan: Time, claimExpiredBefore: Time): set<Id> {
    set d | d in t && Claimable(t[d], olderThan, claimExpiredBefore)
  }

  /** `ORDER BY updated_at, id`. */
  predicate Older(t: Table, a: Id, b: Id)
    requires a in t && b in t
  {
    t[a].updatedAt < t[b].updatedAt || (t[a].updatedAt == t[b].updatedAt && a < b)
  }

  ghost predicate IsOldest(t: Table, m: Id, s: set<Id>) {
    s <= t.Keys && m in s && forall x | x in s :: x == m || Older(t, m, x)
  }

  lemma {:induction false} OldestExists(t: Table, s: set<Id>)
    requires s <= t.Keys && s != {}
    ensures exists m :: IsOldest(t, m, s)
  {
    var y :| y in s;
    if s == {y} {
      assert IsOldest(t, y, s);
    } else {
      var rest := s - {y};
      OldestExists(t, rest);
      var m :| IsOldest(t, m, rest);
      var oldest := if Older(t, m, y) then m else y;
      forall x | x in s
        ensures x == oldest || Older(t, oldest, x)
      {
        assert x == y || x in rest;
      }
      assert IsOldest(t, oldest, s);
    }
  }

  function Oldest(t: Table, s: set<Id>): (m: Id)
    requires s <= t.Keys && s != {}
    ensures m in s && forall x | x in s :: x == m || Older(t, m, x)
  {
    assert exists m :: m in s && forall x | x in s :: x == m || Older(t, m, x) by {
      OldestExists(t, s);
      var m :| IsOldest(t, m, s);
    }
    var m :| m in s && forall x | x in s :: x == m || Older(t, m, x);
    m
  }

  /** `LIMIT n` of a set of rows, oldest first. */
  function TakeOldest(t: Table, s: set<Id>, limit: nat): (taken: set<Id>)
    requires s <= t.Keys
    ensures taken <= s
    decreases limit
  {
    if limit == 0 || s == {} then
      {}
    else
      var m := Oldest(t, s);
      {m} + TakeOldest(t, s - {m}, limit - 1)
  }

  /** The limit is used up or nothing is left, and every row taken is older than every row left. */
  lemma {:induction false} TakesTheOldest(t: Table, s: set<Id>, limit: nat)
    requires s <= t.Keys
    ensures var taken := TakeOldest(t, s, limit);
            && |taken| == (if |s| < limit then |s| else limit)
            && (forall a, b | a in taken && b in s - taken :: Older(t, a, b))
    decreases limit
  {
    if limit > 0 && s != {} {
      var m := Oldest(t, s);
      TakesTheOldest(t, s - {m}, limit - 1);
      var rest := TakeOldest(t, s - {m}, limit - 1);
      assert TakeOldest(t, s, limit) == {m} + rest;
      assert forall b | b in s - ({m} + rest) :: b in (s - {m}) - rest;
    }
  }

  /** ClaimStaleDeliveries: which rows it takes. */
  function ClaimedBy(t: Table, now: Time, olderThan: Time, claimExpiredBefore: Time, limit: nat): (ids: set<Id>)
    ensures ids <= AllClaimable(t, olderThan, claimExpiredBefore)
  {
    TakeOldest(t, AllClaimable(t, olderThan, claimExpiredBefore), limit)
  }

  /** ClaimStaleDeliveries: what it writes. `updated_at` is not touched. */
  function StampClaimed(t: Table, ids: set<Id>, now: Time): Table {
    map d | d in t :: if d in ids then t[d].(claimedAt := Some(now)) else t[d]
  }

  function ClaimedEntries(t: Table, ids: set<Id>, now: Time): seq<Entry>
    requires ids <= t.Keys
  {
    InOrderLists(false, ids);
    Entries(StampClaimed(t, ids, now), InOrder(false, ids))
  }

  /** Every row claimed is on the list the claim returns, as the claim left it, and no other row is. */
  lemma ClaimedAreListed(rows: Table, ids: set<Id>, at: Time)
    requires ids <= rows.Keys
    ensures var es := ClaimedEntries(rows, ids, at);
            && |es| == |ids|
            && (forall d :: Lists(es, d) <==> d in ids)
            && (forall k :: 0 <= k < |es| ==> es[k].id in ids && es[k].row == rows[es[k].id].(claimedAt := Some(at)))
  {
    InOrderLists(false, ids);
    var order := InOrder(false, ids);
    var es := ClaimedEntries(rows, ids, at);
    forall k | 0 <= k < |es|
      ensures es[k].id in ids && es[k].row == rows[es[k].id].(claimedAt := Some(at))
    {
      assert order[k] in order;
    }
    forall d
      ensures Lists(es, d) <==> d in ids
    {
      EntriesList(StampClaimed(rows, ids, at), order, d);
    }
  }

  lemma WhereItIsListed(rows: Table, ids: set<Id>, at: Time, e: Id) returns (i: nat)
    requires ids <= rows.Keys && e in ids
    ensures var es := ClaimedEntries(rows, ids, at);
            i < |es| && es[i].id == e && es[i].row.updatedAt == rows[e].updatedAt
  {
    ClaimedAreListed(rows, ids, at);
    var es := ClaimedEntries(rows, ids, at);
    assert Lists(es, e);
    i :| 0 <= i < |es| && es[i].id == e;
  }

  /** Pending, older than this age, and not claimed within the lease. */
  predicate IsStale(r: Row, now: Time, olderThan: Time, lease: Time) {
    && r.status == PENDING && r.updatedAt < now - olderThan
    && (r.claimedAt.Some? ==> r.claimedAt.value < now - lease)
  }

  /** The claim takes stale rows alone, up to the limit; one it leaves is younger than all of them. */
  lemma TakesTheStale(t: Table, now: Time, olderThan: Time, lease: Time, limit: nat)
    ensures var ids := ClaimedBy(t, now, now - olderThan, now - lease, limit);
            && |ids| <= limit
            && (forall d :: d in ids ==> d in t && IsStale(t[d], now, olderThan, lease))
            && (forall d :: d in t && IsStale(t[d], now, olderThan, lease) && d !in ids ==>
                  |ids| == limit && forall e :: e in ids ==> Older(t, e, d))
  {
    var all := AllClaimable(t, now - olderThan, now - lease);
    var ids := ClaimedBy(t, now, now - olderThan, now - lease, limit);
    TakesTheOldest(t, all, limit);
    if |ids| == |all| {
      SameSizeIsAll(ids, all);
    }
  }

  /** And so it is of the list that the claim returns, and of the rows it leaves. */
  lemma ClaimTakesTheStale(t: Table, now: Time, olderThan: Time, lease: Time, limit: nat)
    ensures var ids := ClaimedBy(t, now, now - olderThan, now - lease, limit);
            var es := ClaimedEntries(t, ids, now);
            && |es| <= limit
            && (forall k :: 0 <= k < |es| ==>
                  && es[k].id in t && es[k].row == t[es[k].id].(claimedAt := Some(now))
                  && IsStale(t[es[k].id], now, olderThan, lease))
            && (forall d :: d in t && IsStale(t[d], now, olderThan, lease) && !Lists(es, d) ==>
                  |es| == limit && forall k :: 0 <= k < |es| ==> Older(t, es[k].id, d))
            && (forall d :: d in t ==>
                  StampClaimed(t, ids, now)[d] == if Lists(es, d) then t[d].(claimedAt := Some(now)) else t[d])
  {
    TakesTheStale(t, now, olderThan, lease, limit);
    ClaimedAreListed(t, ClaimedBy(t, now, now - olderThan, now - lease, limit), now);
  }

  lemma SameSizeIsAll(a: set<Id>, b: set<Id>)
    requires a <= b && |a| == |b|
    ensures a == b
  {
    assert b == a + (b - a);
  }

  // --- the repository --------------------------------------------------------

  /** How a statement ended. One that failed may still have been applied before the answer was lost. */
  datatype Db = Fine | Fault(applied: bool) {
    predicate Applies() {
      Fine? || applied
    }
  }

  datatype StoreError = NotFound | AlreadySettled | ShortWrite | Failure

  /** DeliveryRepository. Its rows are the table every process shares. */
  class DeliveryRepository {
    var rows: Table

    constructor ()
      ensures rows == map[]
    {
      rows := map[];
    }

    /**
     * One copy of the whole set. A copy reports how many rows it wrote; fewer than were given
     * is an error, and so is an id or a recipient that is already there.
     */
    method CreateByList(ds: seq<Entry>, written: nat, db: Db) returns (error: Option<StoreError>)
      requires written <= |ds|
      modifies this
      ensures ds == [] ==> error.None? && rows == old(rows)
      ensures error.None? <==> ds == [] || (Insertable(old(rows), ds) && db.Fine? && written == |ds|)
      ensures error.None? ==> rows == Insert(old(rows), ds)
      ensures error == Some(ShortWrite) ==> rows == Insert(old(rows), ds[..written])
    {
      if |ds| == 0 {
        return None;
      }
      if !Insertable(rows, ds) {
        return Some(Failure);
      }
      assert ds[..|ds|] == ds;
      if db.Applies() {
        rows := Insert(rows, ds[..written]);
      }
      if db.Fault? {
        return Some(Failure);
      }
      return if written != |ds| then Some(ShortWrite) else None;
    }

    method ReadByID(id: Id, db: Db) returns (r: Result<Row, StoreError>)
      ensures r == if db.Fault? then Err(Failure) else if id in rows then Ok(rows[id]) else Err(NotFound)
    {
      if db.Fault? {
        return Err(Failure);
      }
      return if id in rows then Ok(rows[id]) else Err(NotFound);
    }

    method ListByNotificationID(n: Id, db: Db) returns (r: Result<seq<Entry>, StoreError>)
      ensures r == if db.Fault? then Err(Failure) else Ok(ListByNotification(rows, n))
    {
      if db.Fault? {
        return Err(Failure);
      }
      return Ok(ListByNotification(rows, n));
    }

    /** Takes the oldest claimable rows, exclusively. Ages become moments here. */
    method ClaimStale(now: Time, olderThan: Time, lease: Time, limit: nat, db: Db)
      returns (r: Result<seq<Entry>, StoreError>)
      modifies this
      ensures var ids := ClaimedBy(old(rows), now, now - olderThan, now - lease, limit);
              && rows == (if db.Applies() then StampClaimed(old(rows), ids, now) else old(rows))
              && r == if db.Fault? then Err(Failure) else Ok(ClaimedEntries(old(rows), ids, now))
    {
      var ids := ClaimedBy(rows, now, now - olderThan, now - lease, limit);
      var taken := ClaimedEntries(rows, ids, now);
      if db.Applies() {
        rows := StampClaimed(rows, ids, now);
      }
      return if db.Fault? then Err(Failure) else Ok(taken);
    }

    /** Stamps the message, and answers whether there was anything left to stamp. */
    method ClaimAnnouncement(n: Id, now: Time, db: Db) returns (r: Result<bool, StoreError>)
      modifies this
      ensures rows == if db.Applies() then StampAnnounced(old(rows), n, now) else old(rows)
      ensures r == if db.Fault? then Err(Failure) else Ok(Unannounced(old(rows), n))
      ensures r.Ok? ==>
                (r.value <==>
                 exists d :: d in old(rows) && old(rows)[d].notification == n && old(rows)[d].notifiedAt.None?)
      ensures rows.Keys == old(rows).Keys
      ensures forall d :: d in rows ==>
                rows[d] == if db.Applies() && old(rows)[d].notification == n && old(rows)[d].notifiedAt.None?
                           then old(rows)[d].(notifiedAt := Some(now))
                           else old(rows)[d]
    {
      var mine := exists d :: d in rows && rows[d].notification == n && rows[d].notifiedAt.None?;
      if db.Applies() {
        rows := StampAnnounced(rows, n, now);
      }
      return if db.Fault? then Err(Failure) else Ok(mine);
    }

    /** Takes the claim off, if the row is still pending; if it is not, that is no failure either. */
    method Release(id: Id, db: Db) returns (error: Option<StoreError>)
      modifies this
      ensures rows == if db.Applies() then ReleaseClaim(old(rows), id) else old(rows)
      ensures error.None? <==> db.Fine?
      ensures rows.Keys == old(rows).Keys
      ensures forall d :: d in rows ==>
                rows[d] == if db.Applies() && d == id && old(rows)[d].status == PENDING
                           then old(rows)[d].(claimedAt := None)
                           else old(rows)[d]
    {
      if db.Applies() {
        rows := ReleaseClaim(rows, id);
      }
      return if db.Fault? then Some(Failure) else None;
    }

    /** Writes an outcome, and says when somebody else had already written one. */
    method Update(id: Id, d: Row, db: Db) returns (error: Option<StoreError>)
      modifies this
      ensures rows == if db.Applies() then UpdateDelivery(old(rows), id, d) else old(rows)
      ensures error == if db.Fault? then Some(Failure)
                       else if IsPending(old(rows), id) then None
                       else Some(AlreadySettled)
    {
      var matched := IsPending(rows, id);
      if db.Applies() {
        rows := UpdateDelivery(rows, id, d);
      }
      if db.Fault? {
        return Some(Failure);
      }
      return if matched then None else Some(AlreadySettled);
    }

    /** One page of a message's deliveries: trims the extra row and turns rows into entities. */
    method PageByNotificationID(n: Id, c: Cursor, db: Db) returns (r: Result<Page<Entry>, StoreError>)
      ensures db.Fault? <==> r.Err?
      ensures r.Ok? ==>
                var page := PageOf(false, RowsOf(rows, n), c);
                && r.value.next == page.next
                && |r.value.items| == |page.items|
                && forall k :: 0 <= k < |page.items| ==>
                     page.items[k] in rows && r.value.items[k] == Entry(page.items[k], rows[page.items[k]])
    {
      if db.Fault? {
        return Err(Failure);
      }
      var limit: nat := c.Normalize().limit;
      var selected := Select(false, RowsOf(rows, n), c.after, limit + 1);
      InOrderLists(false, Beyond(false, RowsOf(rows, n), c.after));
      assert forall x :: x in selected ==> x in InOrder(false, Beyond(false, RowsOf(rows, n), c.after));
      var next: Option<Id> := None;
      if |selected| > limit {
        selected := selected[..limit];
        next := Some(selected[limit - 1]);
      }
      var items: seq<Entry> := [];
      for k := 0 to |selected|
        invariant |items| == k
        invariant forall i :: 0 <= i < k ==> selected[i] in rows && items[i] == Entry(selected[i], rows[selected[i]])
      {
        assert selected[k] in InOrder(false, Beyond(false, RowsOf(rows, n), c.after));
        items := items + [Entry(selected[k], rows[selected[k]])];
      }
      return Ok(Page(items, next));
    }
  }

  // --- creating deliveries ---------------------------------------------------

  predicate SameDelivery(a: Row, b: Row) {
    a.notification == b.notification && a.recipient == b.recipient
  }

  /** The primary key, and one row per recipient of a message. */
  predicate Insertable(t: Table, ds: seq<Entry>) {
    && (forall i :: 0 <= i < |ds| ==> ds[i].id !in t)
    && (forall i, d :: 0 <= i < |ds| && d in t ==> !SameDelivery(ds[i].row, t[d]))
    && (forall i, j :: 0 <= i < j < |ds| ==> ds[i].id != ds[j].id && !SameDelivery(ds[i].row, ds[j].row))
  }

  function Insert(t: Table, ds: seq<Entry>): Table {
    if ds == [] then t else Insert(t, ds[1..])[ds[0].id := ds[0].row]
  }

  /** Inserting leaves every old row as it is and adds each new one, and nothing else. */
  lemma {:induction false} InsertAdds(t: Table, ds: seq<Entry>)
    requires Insertable(t, ds)
    ensures forall d :: d in Insert(t, ds) <==> d in t || Lists(ds, d)
    ensures forall d :: d in t ==> Insert(t, ds)[d] == t[d]
    ensures forall i :: 0 <= i < |ds| ==> ds[i].id in Insert(t, ds) && Insert(t, ds)[ds[i].id] == ds[i].row
  {
    if ds != [] {
      var tail := ds[1..];
      assert forall i :: 0 <= i < |tail| ==> tail[i] == ds[i + 1];
      InsertAdds(t, tail);
      forall d
        ensures Lists(ds, d) <==> d == ds[0].id || Lists(tail, d)
      {
        if Lists(ds, d) {
          var k :| 0 <= k < |ds| && ds[k].id == d;
          assert k == 0 || tail[k - 1].id == d;
        }
        if Lists(tail, d) {
          var k :| 0 <= k < |tail| && tail[k].id == d;
          assert ds[k + 1].id == d;
        }
        assert ds[0].id == d ==> Lists(ds, d);
      }
      forall i | 0 <= i < |ds|
        ensures ds[i].id in Insert(t, ds) && Insert(t, ds)[ds[i].id] == ds[i].row
      {
        assert i > 0 ==> ds[i] == tail[i - 1];
        assert Lists(ds, ds[i].id);
      }
    }
  }
}
