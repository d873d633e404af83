/**
 * The delivery protocol: any number of workers, each at any of its steps, over one set of
 * rows, while messages are accepted and purged, time passes and workers die.
 *
 * A run is a sequence of actions; an action that is not enabled changes nothing. So "for
 * every action sequence" is every interleaving, and every state `Run(cfg, Start(), acts)`
 * is every reachable state.
 */
module Protocol {
  import opened Basics
  import opened Deliveries
  import opened Worker
  import opened Ordering

  datatype State = State(
    now: Time,
    messages: Messages,
    rows: Table,
    workers: map<Id, Worker>,
    sent: seq<Batch>,          // every callback attempted, in order
    // history
    issued: set<Id>,           // message ids ever used
    openedIds: set<Id>,          // delivery ids ever used
    taken: map<Id, Id>,        // which worker's claim stamped the message
    holder: map<Id, Id>,       // which worker claimed the row last
    mishaps: set<Id>)          // messages whose announcement failed, was cut short or had no callback

  datatype Action =
    | Tick(to: Time)
    | Accept(message: Message, added: Table)
    | Purge(n: Id)
    | Offer(w: Id, delivery: Id, attempt: nat)
    | StartSweep(w: Id)
    | Crash(w: Id)
    | Act(w: Id, input: Input)

  function Start(): State {
    State(0, map[], map[], map[], [], {}, {}, map[], map[], {})
  }

  /** A committed submit: a new message and its new rows. */
  predicate Acceptable(s: State, n: Message, added: Table) {
    && n.id !in s.issued
    && added.Keys !! s.openedIds
    && forall d :: d in added ==>
         && added[d].updatedAt <= s.now
         && added[d] == NewRow(n.id, added[d].recipient, added[d].senderName, added[d].updatedAt)
  }

  function WithoutRowsOf(rows: Table, n: Id): Table {
    map d | d in rows && rows[d].notification != n :: rows[d]
  }

  /** This step claims the announcement of this message: its stamp is applied to unstamped rows. */
  predicate TakesAnnouncement(s: State, w: Worker, input: Input) {
    w.phase.Claiming? && input.db.Applies() && Unannounced(s.rows, w.phase.n.id)
  }

  function ClaimsRows(cfg: Config, s: State, w: Worker, input: Input): set<Id> {
    if w.phase.Sweeping? && input.db.Applies() then SweptRows(cfg, s.rows, input.at) else {}
  }

  function Held(holder: map<Id, Id>, ids: set<Id>, w: Id): map<Id, Id> {
    map d | d in holder.Keys + ids :: if d in ids then w else holder[d]
  }

  /** Every row of the message has settled. */
  predicate MessageSettled(rows: Table, n: Id) {
    forall d :: d in rows && rows[d].notification == n ==> rows[d].status.IsSettled()
  }

  /**
   * The message whose announcement this step may keep from happening. A write that settled
   * its row and was not acknowledged; a list that failed once all had settled; no active
   * callback; a claim that failed while it was there to take. Nothing else counts.
   */
  function MishapOf(rows: Table, w: Worker, input: Input): set<Id> {
    match w.phase
    case Writing(cur, _, _) =>
      if input.db == Fault(true) && IsPending(rows, cur.id) then {cur.copy.notification} else {}
    case Listing(_, n) => if input.db.Fault? && MessageSettled(rows, n.id) then {n.id} else {}
    case Hooking(_, n, _) => if input.hook.Absent? then {n.id} else {}
    case Claiming(_, n, _) => if input.db.Fault? && Unannounced(rows, n.id) then {n.id} else {}
    case _ => {}
  }

  /** A crash matters to the message the worker is announcing, if it is announcing one. */
  function CrashMishapOf(w: Worker): set<Id> {
    match w.phase
    case Listing(_, n) => {n.id}
    case Hooking(_, n, _) => {n.id}
    case Claiming(_, n, _) => {n.id}
    case Notifying(_, n, _) => {n.id}
    case _ => {}
  }

  function WorkerStep(cfg: Config, s: State, wid: Id, input: Input): State
    requires wid in s.workers
  {
    var w := s.workers[wid];
    s.(rows := RowsAfter(cfg, s.rows, w, input),
       workers := s.workers[wid := WorkerAfter(cfg, s.messages, s.rows, w, input)],
       sent := SentAfter(s.sent, w),
       taken := if TakesAnnouncement(s, w, input) then s.taken[w.phase.n.id := wid] else s.taken,
       holder := Held(s.holder, ClaimsRows(cfg, s, w, input), wid),
       mishaps := s.mishaps + MishapOf(s.rows, w, input))
  }

  function Apply(cfg: Config, s: State, a: Action): State {
    match a
    case Tick(to) => if s.now <= to then s.(now := to) else s
    case Accept(n, added) =>
      if Acceptable(s, n, added) then
        s.(messages := s.messages[n.id := n], rows := s.rows + added,
           issued := s.issued + {n.id}, openedIds := s.openedIds + added.Keys)
      else
        s
    case Purge(n) => s.(messages := s.messages - {n}, rows := WithoutRowsOf(s.rows, n))
    case Offer(w, delivery, attempt) =>
      if w !in s.workers && delivery in s.openedIds then
        s.(workers := s.workers[w := Handling(delivery, attempt)])
      else
        s
    case StartSweep(w) =>
      if w !in s.workers then s.(workers := s.workers[w := Recovering()]) else s
    case Crash(w) =>
      if w in s.workers then
        s.(workers := s.workers[w := Goto(s.workers[w], Finished(false))],
           mishaps := s.mishaps + CrashMishapOf(s.workers[w]))
      else
        s
    case Act(w, input) =>
      if w in s.workers && input.at <= s.now then WorkerStep(cfg, s, w, input) else s
  }

  function Run(cfg: Config, s: State, acts: seq<Action>): State
    decreases |acts|
  {
    if acts == [] then s else Run(cfg, Apply(cfg, s, acts[0]), acts[1..])
  }

  // --- what a worker knows ---------------------------------------------------

  /** Everything of a row that is fixed once it has settled. */
  predicate SameOutcome(a: Row, b: Row) {
    a.(notifiedAt := None, claimedAt := None) == b.(notifiedAt := None, claimedAt := None)
  }

  predicate SettledOrGone(s: State, d: Id) {
    d in s.openedIds && (d in s.rows ==> s.rows[d].status.IsSettled())
  }

  predicate KnowsRow(s: State, id: Id, copy: Row) {
    && id in s.openedIds
    && copy.status == PENDING
    && copy.notification in s.issued
    && (id in s.rows ==> s.rows[id].notification == copy.notification)
  }

  predicate KnowsMessage(s: State, cur: Current, n: Message) {
    && KnowsRow(s, cur.id, cur.copy)
    && n.id == cur.copy.notification
  }

  /** A list that still tells the truth: all settled, all of the message's rows, as they stand. */
  predicate Faithful(s: State, n: Id, ds: seq<Entry>) {
    && (forall k :: 0 <= k < |ds| ==>
          && ds[k].id in s.openedIds
          && ds[k].row.status.IsSettled()
          && ds[k].row.notification == n
          && (ds[k].id in s.rows ==> SameOutcome(ds[k].row, s.rows[ds[k].id])))
    && (forall d :: d in s.rows && s.rows[d].notification == n ==> Lists(ds, d))
  }

  predicate Announcing(w: Worker, n: Id) {
    || (w.phase.Listing? && w.phase.n.id == n)
    || (w.phase.Hooking? && w.phase.n.id == n)
    || (w.phase.Claiming? && w.phase.n.id == n)
  }

  predicate AboutToNotify(w: Worker, n: Id) {
    w.phase.Notifying? && w.phase.n.id == n
  }

  predicate WasTold(s: State, n: Id) {
    exists i :: 0 <= i < |s.sent| && s.sent[i].notification == n
  }

  ghost predicate PhaseInv(s: State, wid: Id, w: Worker) {
    match w.phase
    case Reading => w.job.Event?
    case Sweeping => w.job.Sweep?
    case Clocking => w.job.Sweep?
    case Idle => w.job.Sweep?
    case Loaded(cur) => KnowsRow(s, cur.id, cur.copy)
    case NeedsSender(cur, n) => KnowsMessage(s, cur, n)
    case Sending(cur, n) => KnowsMessage(s, cur, n)
    case Writing(cur, told, o) =>
      && KnowsRow(s, cur.id, cur.copy)
      && (told.Some? ==> told.value.id == cur.copy.notification)
      && (told.None? ==> cur.copy.notification !in s.messages)
    case Releasing(cur) => KnowsRow(s, cur.id, cur.copy) && !cur.lastChance
    case Listing(cur, n) => KnowsMessage(s, cur, n) && SettledOrGone(s, cur.id)
    case Hooking(cur, n, ds) => KnowsMessage(s, cur, n) && SettledOrGone(s, cur.id) && Faithful(s, n.id, ds)
    case Claiming(cur, n, ds) => KnowsMessage(s, cur, n) && SettledOrGone(s, cur.id) && Faithful(s, n.id, ds)
    case Notifying(cur, n, ds) =>
      && KnowsMessage(s, cur, n) && SettledOrGone(s, cur.id) && Faithful(s, n.id, ds)
      && n.id in s.taken && s.taken[n.id] == wid
      && !WasTold(s, n.id)
    case Finished(ok) => true
  }

  /** What the record of an attempt vouches for. */
  predicate AttemptInv(s: State, a: Attempt) {
    && (a.ok ==> SettledOrGone(s, a.delivery))
    && (a.clean && a.lastChance ==> a.ok)
  }

  ghost predicate WorkerInv(s: State, wid: Id, w: Worker) {
    && (w.job.Event? ==> w.job.delivery in s.openedIds)
    && (forall e :: e in w.todo ==> KnowsRow(s, e.id, e.row))
    && (forall a :: a in w.attempts ==> AttemptInv(s, a))
    && PhaseInv(s, wid, w)
  }

  // --- what the tables keep --------------------------------------------------

  ghost predicate TableInv(s: State) {
    && (forall d :: d in s.rows ==> d in s.openedIds && s.rows[d].notification in s.messages)
    && (forall n :: n in s.messages ==> n in s.issued && s.messages[n].id == n)
    // a message is stamped whole, by whoever took its announcement, once all of it has settled
    && (forall n :: n in s.taken ==> n in s.issued)
    && (forall d :: d in s.rows ==> (s.rows[d].notifiedAt.Some? <==> s.rows[d].notification in s.taken))
    && (forall d :: d in s.rows && s.rows[d].notification in s.taken ==> s.rows[d].status.IsSettled())
    && (forall d :: d in s.rows ==> s.rows[d].updatedAt <= s.now)
    && (forall d :: d in s.rows && s.rows[d].claimedAt.Some? ==> s.rows[d].claimedAt.value <= s.now)
  }

  predicate Truthful(s: State, b: Batch) {
    && (forall k :: 0 <= k < |b.results| ==>
          var id := b.results[k].delivery;
          && b.results[k].status.IsSettled()
          && id in s.openedIds
          && (id in s.rows ==> Says(b.results[k], id, s.rows[id])))
    && (forall d :: d in s.rows && s.rows[d].notification == b.notification ==>
          exists k :: 0 <= k < |b.results| && b.results[k].delivery == d)
  }

  ghost predicate SentInv(s: State) {
    && (forall i :: 0 <= i < |s.sent| ==> s.sent[i].notification in s.taken && Truthful(s, s.sent[i]))
    && (forall i, j :: 0 <= i < j < |s.sent| ==> s.sent[i].notification != s.sent[j].notification)
  }

  ghost predicate Inv(s: State) {
    && TableInv(s)
    && SentInv(s)
    && (forall w :: w in s.workers ==> WorkerInv(s, w, s.workers[w]))
  }

  ghost predicate SomebodyAnnouncing(s: State, n: Id) {
    exists w :: w in s.workers && Announcing(s.workers[w], n)
  }

  ghost predicate SomebodyNotifying(s: State, n: Id) {
    exists w :: w in s.workers && AboutToNotify(s.workers[w], n)
  }

  /**
   * No callback is lost but by a mishap of its own message: a settled message is claimed, or
   * somebody is on the way to claim it; and a claimed one is told, or somebody is about to.
   */
  ghost predicate NoneLost(s: State) {
    && (forall d :: d in s.rows && MessageSettled(s.rows, s.rows[d].notification) ==>
          || s.rows[d].notification in s.mishaps
          || s.rows[d].notification in s.taken || SomebodyAnnouncing(s, s.rows[d].notification))
    && (forall n :: n in s.taken ==> n in s.mishaps || WasTold(s, n) || SomebodyNotifying(s, n))
  }

  // --- how states evolve -----------------------------------------------------

  predicate RowEvolves(r: Row, r': Row) {
    && r'.notification == r.notification
    && (r.status.IsSettled() ==> SameOutcome(r, r'))
  }

  /** What any action, of anybody, leaves others able to rely on. */
  ghost predicate Evolves(s: State, s': State) {
    && s.issued <= s'.issued
    && s.openedIds <= s'.openedIds
    && (forall d :: d in s'.rows ==>
          || (d in s.rows && RowEvolves(s.rows[d], s'.rows[d]))
          || (d !in s.openedIds && s'.rows[d].notification !in s.issued))
    && (forall n :: n in s'.messages ==> n in s.messages || n !in s.issued)
    && (forall n :: n in s.taken ==> n in s'.taken && s'.taken[n] == s.taken[n])
  }

  lemma FaithfulStays(s: State, s': State, n: Id, ds: seq<Entry>)
    requires Evolves(s, s') && Faithful(s, n, ds) && n in s.issued
    ensures Faithful(s', n, ds)
  {
  }

  /** A worker that is not acting keeps what it knows, whatever the action was. */
  lemma WorkerStays(s: State, s': State, wid: Id, w: Worker)
    requires Evolves(s, s') && WorkerInv(s, wid, w)
    requires w.phase.Notifying? ==> !WasTold(s', w.phase.n.id)
    ensures WorkerInv(s', wid, w)
  {
    match w.phase
    case Hooking(cur, n, ds) => FaithfulStays(s, s', n.id, ds);
    case Claiming(cur, n, ds) => FaithfulStays(s, s', n.id, ds);
    case Notifying(cur, n, ds) => FaithfulStays(s, s', n.id, ds);
    case _ =>
  }

  // --- one step keeps the invariant ------------------------------------------

  /** What any step of a worker does to one row, when the announcement of the messages in `taking` is taken. */
  predicate RowMoves(now: Time, r: Row, r': Row, taking: bool) {
    && RowEvolves(r, r')
    && (r'.updatedAt == r.updatedAt || r'.updatedAt <= now)
    && (r'.claimedAt == r.claimedAt || r'.claimedAt.None? || r'.claimedAt.value <= now)
    && (r'.notifiedAt.Some? <==> r.notifiedAt.Some? || taking)
    && (r'.status == r.status || r'.status.IsSettled())
  }

  predicate TakesFor(s: State, w: Worker, input: Input, r: Row) {
    TakesAnnouncement(s, w, input) && r.notification == w.phase.n.id
  }

  lemma StepMovesRows(cfg: Config, s: State, w: Worker, input: Input)
    requires input.at <= s.now
    ensures var rows' := RowsAfter(cfg, s.rows, w, input);
            && rows'.Keys == s.rows.Keys
            && forall d :: d in s.rows ==> RowMoves(s.now, s.rows[d], rows'[d], TakesFor(s, w, input, s.rows[d]))
  {
  }

  /** The tables after a step that takes the announcement of `n`, or of nothing. */
  ghost predicate TablesMove(s: State, s': State, n: Option<Id>, wid: Id) {
    && s'.now == s.now && s'.messages == s.messages && s'.issued == s.issued && s'.openedIds == s.openedIds
    && s'.taken == (if n.Some? then s.taken[n.value := wid] else s.taken)
    && s'.rows.Keys == s.rows.Keys
    && (forall d :: d in s.rows ==> RowMoves(s.now, s.rows[d], s'.rows[d], n == Some(s.rows[d].notification)))
  }

  lemma MovesKeepTables(s: State, s': State, n: Option<Id>, wid: Id)
    requires TableInv(s) && TablesMove(s, s', n, wid)
    requires n.Some? ==> n.value in s.issued && MessageSettled(s.rows, n.value)
    ensures TableInv(s')
  {
  }

  lemma MovesEvolve(s: State, s': State, n: Option<Id>, wid: Id)
    requires TableInv(s) && TablesMove(s, s', n, wid)
    requires n.Some? ==> Unannounced(s.rows, n.value)
    ensures Evolves(s, s')
  {
  }

  function TakenBy(s: State, w: Worker, input: Input): Option<Id> {
    if TakesAnnouncement(s, w, input) then Some(w.phase.n.id) else None
  }

  lemma StepKeepsTables(cfg: Config, s: State, wid: Id, input: Input)
    requires TableInv(s) && wid in s.workers && input.at <= s.now
    requires WorkerInv(s, wid, s.workers[wid])
    ensures var s' := WorkerStep(cfg, s, wid, input);
            TableInv(s') && Evolves(s, s')
  {
    var w := s.workers[wid];
    var n := TakenBy(s, w, input);
    StepMovesRows(cfg, s, w, input);
    if n.Some? {
      ClaimsSettled(s, wid, w);
    }
    var s' := WorkerStep(cfg, s, wid, input);
    assert TablesMove(s, s', n, wid);
    MovesKeepTables(s, s', n, wid);
    MovesEvolve(s, s', n, wid);
  }

  /** A worker that claims does so for a message whose every row has settled. */
  lemma ClaimsSettled(s: State, wid: Id, w: Worker)
    requires WorkerInv(s, wid, w) && w.phase.Claiming?
    ensures w.phase.n.id in s.issued && MessageSettled(s.rows, w.phase.n.id)
  {
    var n, ds := w.phase.n.id, w.phase.ds;
    forall d | d in s.rows && s.rows[d].notification == n
      ensures s.rows[d].status.IsSettled()
    {
      assert Lists(ds, d);
    }
  }

  /** What the steps that end an item record. */
  lemma StopKeeps(s: State, wid: Id, w: Worker, cur: Current, ok: bool, clean: bool)
    requires WorkerInv(s, wid, w)
    requires AttemptInv(s, Attempt(cur.id, Some(cur.copy.updatedAt), cur.lastChance, ok, clean))
    ensures WorkerInv(s, wid, Stop(w, cur, ok, clean))
  {
  }

  /** The stepping worker's own knowledge, in the phases that only look something up. */
  lemma ReadKeepsWorker(cfg: Config, s: State, wid: Id, w: Worker, input: Input)
    requires TableInv(s) && WorkerInv(s, wid, w) && w.phase.Reading?
    ensures WorkerInv(s, wid, WorkerAfter(cfg, s.messages, s.rows, w, input))
  {
  }

  lemma NextKeepsWorker(cfg: Config, s: State, wid: Id, w: Worker, input: Input)
    requires WorkerInv(s, wid, w) && (w.phase.Idle? || w.phase.Clocking?)
    ensures WorkerInv(s, wid, WorkerAfter(cfg, s.messages, s.rows, w, input))
  {
    assert w.todo != [] ==> w.todo[0] in w.todo;
  }

  lemma LookupKeepsWorker(cfg: Config, s: State, wid: Id, input: Input)
    requires TableInv(s) && wid in s.workers
    requires var w := s.workers[wid];
             && WorkerInv(s, wid, w)
             && (w.phase.Reading? || w.phase.Clocking? || w.phase.Idle? || w.phase.Loaded?
                 || w.phase.NeedsSender? || w.phase.Sending? || w.phase.Finished?)
    ensures WorkerInv(s, wid, WorkerAfter(cfg, s.messages, s.rows, s.workers[wid], input))
  {
    var w := s.workers[wid];
    match w.phase
    case Reading => ReadKeepsWorker(cfg, s, wid, w, input);
    case Idle => NextKeepsWorker(cfg, s, wid, w, input);
    case Clocking => NextKeepsWorker(cfg, s, wid, w, input);
    case Loaded(_) => LoadKeepsWorker(cfg, s, wid, w, input);
    case NeedsSender(_, _) => KnowKeepsWorker(cfg, s, wid, w, input);
    case Sending(_, _) => KnowKeepsWorker(cfg, s, wid, w, input);
    case _ =>
  }

  lemma LoadKeepsWorker(cfg: Config, s: State, wid: Id, w: Worker, input: Input)
    requires TableInv(s) && WorkerInv(s, wid, w) && w.phase.Loaded?
    ensures WorkerInv(s, wid, WorkerAfter(cfg, s.messages, s.rows, w, input))
  {
  }

  lemma KnowKeepsWorker(cfg: Config, s: State, wid: Id, w: Worker, input: Input)
    requires TableInv(s) && WorkerInv(s, wid, w) && (w.phase.NeedsSender? || w.phase.Sending?)
    ensures WorkerInv(s, wid, WorkerAfter(cfg, s.messages, s.rows, w, input))
  {
  }

  lemma SweepEntries(cfg: Config, rows: Table, at: Time, e: Entry)
    requires e in ClaimedEntries(rows, SweptRows(cfg, rows, at), at)
    ensures e.id in SweptRows(cfg, rows, at) && e.row == rows[e.id].(claimedAt := Some(at))
  {
    var ids := SweptRows(cfg, rows, at);
    var entries := ClaimedEntries(rows, ids, at);
    InOrderLists(false, ids);
    var k :| 0 <= k < |entries| && entries[k] == e;
    assert InOrder(false, ids)[k] in InOrder(false, ids);
  }

  /** After the sweep's claim: every claimed row is pending, and known. */
  lemma SweepKeepsWorker(cfg: Config, s: State, s': State, wid: Id, w: Worker, input: Input)
    requires TableInv(s) && w.phase.Sweeping? && WorkerInv(s, wid, w)
    requires Evolves(s, s')
    ensures WorkerInv(s', wid, WorkerAfter(cfg, s.messages, s.rows, w, input))
  {
    forall e | e in ClaimedEntries(s.rows, SweptRows(cfg, s.rows, input.at), input.at)
      ensures KnowsRow(s', e.id, e.row)
    {
      SweepEntries(cfg, s.rows, input.at, e);
    }
    assert forall a :: a in w.attempts ==> AttemptInv(s', a);
  }

  /** After the write the row has settled, by this worker or by another, or is gone. */
  lemma WriteSettles(s: State, s': State, cur: Current, o: Outcome, at: Time)
    requires KnowsRow(s, cur.id, cur.copy) && s.openedIds <= s'.openedIds && s'.rows == Written(s.rows, cur, o, at)
    ensures SettledOrGone(s', cur.id)
  {
  }

  lemma WriteKeepsWorker(cfg: Config, s: State, s': State, wid: Id, w: Worker, input: Input)
    requires TableInv(s) && w.phase.Writing? && WorkerInv(s, wid, w)
    requires Evolves(s, s') && s'.rows == RowsAfter(cfg, s.rows, w, input)
    ensures WorkerInv(s', wid, WorkerAfter(cfg, s.messages, s.rows, w, input))
  {
    var cur := w.phase.cur;
    WorkerStays(s, s', wid, w);
    PendingIsMarked(cur.copy, w.phase.outcome, input.at);
    if input.db.Fault? {
      StopKeeps(s', wid, w, cur, false, false);
    } else {
      WriteSettles(s, s', cur, w.phase.outcome, input.at);
      if w.phase.told.None? {
        StopKeeps(s', wid, w, cur, true, true);
      }
    }
  }

  lemma PendingIsMarked(r: Row, o: Outcome, at: Time)
    requires r.status == PENDING
    ensures Mark(r, o, r.attempts + 1, at).Some?
  {
  }

  lemma ReleaseKeepsWorker(cfg: Config, s: State, s': State, wid: Id, w: Worker, input: Input)
    requires TableInv(s) && w.phase.Releasing? && WorkerInv(s, wid, w)
    requires Evolves(s, s')
    ensures WorkerInv(s', wid, WorkerAfter(cfg, s.messages, s.rows, w, input))
  {
    WorkerStays(s, s', wid, w);
    StopKeeps(s', wid, w, w.phase.cur, false, true);
  }

  /** The list of a message in which everything has settled tells the truth. */
  lemma SettledListIsFaithful(s: State, n: Id)
    requires TableInv(s)
    requires forall e :: e in ListByNotification(s.rows, n) ==> e.row.status.IsSettled()
    ensures Faithful(s, n, ListByNotification(s.rows, n))
  {
    ListHasEveryRow(s.rows, n);
    var ds := ListByNotification(s.rows, n);
    forall k | 0 <= k < |ds|
      ensures ds[k].row.status.IsSettled() && ds[k].id in s.rows && ds[k].row == s.rows[ds[k].id]
    {
      assert ds[k] in ds;
    }
  }

  /** After the list: if all of it has settled, it is what the callback will say. */
  lemma ListKeepsWorker(cfg: Config, s: State, wid: Id, w: Worker, input: Input)
    requires TableInv(s) && w.phase.Listing? && WorkerInv(s, wid, w)
    ensures WorkerInv(s, wid, WorkerAfter(cfg, s.messages, s.rows, w, input))
  {
    if w.phase.Listing? && AllSettled(ListByNotification(s.rows, w.phase.n.id)) {
      SettledListIsFaithful(s, w.phase.n.id);
    }
  }

  lemma HookKeepsWorker(cfg: Config, s: State, wid: Id, w: Worker, input: Input)
    requires TableInv(s) && w.phase.Hooking? && WorkerInv(s, wid, w)
    ensures WorkerInv(s, wid, WorkerAfter(cfg, s.messages, s.rows, w, input))
  {
  }

  /** After the claim: whoever is about to notify is the one on record, and nobody has before. */
  lemma ClaimKeepsWorker(cfg: Config, s: State, s': State, wid: Id, w: Worker, input: Input)
    requires TableInv(s) && SentInv(s) && w.phase.Claiming? && WorkerInv(s, wid, w)
    requires Evolves(s, s') && s'.sent == s.sent
    requires TakesAnnouncement(s, w, input) ==> w.phase.n.id in s'.taken && s'.taken[w.phase.n.id] == wid
    ensures WorkerInv(s', wid, WorkerAfter(cfg, s.messages, s.rows, w, input))
  {
    WorkerStays(s, s', wid, w);
    if TakesAnnouncement(s, w, input) {
      assert w.phase.n.id !in s.taken;
      assert !WasTold(s', w.phase.n.id);
    }
  }

  lemma NotifyKeepsWorker(cfg: Config, s: State, s': State, wid: Id, w: Worker, input: Input)
    requires w.phase.Notifying? && WorkerInv(s, wid, w)
    requires Evolves(s, s')
    ensures WorkerInv(s', wid, WorkerAfter(cfg, s.messages, s.rows, w, input))
  {
    assert forall a :: a in w.attempts ==> AttemptInv(s', a);
    var cur := w.phase.cur;
    assert AttemptInv(s', Attempt(cur.id, Some(cur.copy.updatedAt), cur.lastChance, true, true));
  }

  predicate Writes(w: Worker) {
    w.phase.Sweeping? || w.phase.Writing? || w.phase.Releasing? || w.phase.Claiming? || w.phase.Notifying?
  }

  lemma WriterKeepsOwn(cfg: Config, s: State, s': State, wid: Id, w: Worker, input: Input)
    requires TableInv(s) && SentInv(s) && WorkerInv(s, wid, w) && Writes(w)
    requires Evolves(s, s') && s'.rows == RowsAfter(cfg, s.rows, w, input)
    requires w.phase.Claiming? ==> s'.sent == s.sent
    requires TakesAnnouncement(s, w, input) ==> w.phase.n.id in s'.taken && s'.taken[w.phase.n.id] == wid
    ensures WorkerInv(s', wid, WorkerAfter(cfg, s.messages, s.rows, w, input))
  {
    if w.phase.Sweeping? {
      SweepKeepsWorker(cfg, s, s', wid, w, input);
    } else if w.phase.Writing? {
      WriteKeepsWorker(cfg, s, s', wid, w, input);
    } else if w.phase.Releasing? {
      ReleaseKeepsWorker(cfg, s, s', wid, w, input);
    } else if w.phase.Claiming? {
      ClaimKeepsWorker(cfg, s, s', wid, w, input);
    } else {
      NotifyKeepsWorker(cfg, s, s', wid, w, input);
    }
  }

  lemma ReaderKeepsOwn(cfg: Config, s: State, wid: Id, input: Input)
    requires TableInv(s) && wid in s.workers
    requires WorkerInv(s, wid, s.workers[wid]) && !Writes(s.workers[wid])
    ensures WorkerInv(s, wid, WorkerAfter(cfg, s.messages, s.rows, s.workers[wid], input))
  {
    var w := s.workers[wid];
    if w.phase.Listing? {
      ListKeepsWorker(cfg, s, wid, w, input);
    } else if w.phase.Hooking? {
      HookKeepsWorker(cfg, s, wid, w, input);
    } else {
      LookupKeepsWorker(cfg, s, wid, input);
    }
  }

  lemma ReaderIsNotNotifying(cfg: Config, s: State, w: Worker, input: Input)
    requires !Writes(w)
    ensures !WorkerAfter(cfg, s.messages, s.rows, w, input).phase.Notifying?
  {
  }

  /** The stepping worker keeps its invariant. */
  lemma StepKeepsOwn(cfg: Config, s: State, wid: Id, input: Input)
    requires Inv(s) && wid in s.workers && input.at <= s.now
    ensures var s' := WorkerStep(cfg, s, wid, input);
            WorkerInv(s', wid, s'.workers[wid])
  {
    var w := s.workers[wid];
    var s' := WorkerStep(cfg, s, wid, input);
    StepKeepsTables(cfg, s, wid, input);
    if Writes(w) {
      WriterKeepsOwn(cfg, s, s', wid, w, input);
    } else {
      ReaderKeepsOwn(cfg, s, wid, input);
      ReaderIsNotNotifying(cfg, s, w, input);
      WorkerStays(s, s', wid, WorkerAfter(cfg, s.messages, s.rows, w, input));
    }
  }

  lemma TruthStays(s: State, s': State, b: Batch)
    requires Evolves(s, s') && Truthful(s, b) && b.notification in s.issued
    ensures Truthful(s', b)
  {
    forall k | 0 <= k < |b.results| && b.results[k].delivery in s'.rows
      ensures Says(b.results[k], b.results[k].delivery, s'.rows[b.results[k].delivery])
    {
      var id := b.results[k].delivery;
      assert SameOutcome(s.rows[id], s'.rows[id]);
    }
  }

  /** Callbacks already attempted stay true, and stay the only ones of their messages. */
  lemma SentStays(s: State, s': State)
    requires TableInv(s) && SentInv(s) && Evolves(s, s') && s'.sent == s.sent
    ensures SentInv(s')
  {
    forall i | 0 <= i < |s.sent|
      ensures s'.sent[i].notification in s'.taken && Truthful(s', s'.sent[i])
    {
      TruthStays(s, s', s.sent[i]);
    }
  }

  /** A faithful list makes a truthful callback. */
  lemma FaithfulIsTruthful(s: State, n: Id, ds: seq<Entry>)
    requires Faithful(s, n, ds)
    ensures Truthful(s, Batch(n, Results(ds)))
  {
    var b := Batch(n, Results(ds));
    forall k | 0 <= k < |ds|
      ensures var id := b.results[k].delivery;
              id == ds[k].id && b.results[k].status == ds[k].row.status
              && (id in s.rows ==> Says(b.results[k], id, s.rows[id]))
    {
      if ds[k].id in s.rows {
        assert SameOutcome(ds[k].row, s.rows[ds[k].id]);
      }
    }
    forall d | d in s.rows && s.rows[d].notification == n
      ensures exists k :: 0 <= k < |b.results| && b.results[k].delivery == d
    {
      assert Lists(ds, d);
      var k :| 0 <= k < |ds| && ds[k].id == d;
      assert b.results[k].delivery == d;
    }
  }

  /** The callback just attempted is true, and the first of its message. */
  lemma NotifyKeepsSent(s: State, s': State, wid: Id, w: Worker)
    requires TableInv(s) && SentInv(s) && w.phase.Notifying? && WorkerInv(s, wid, w)
    requires Evolves(s, s') && s'.rows == s.rows && s'.sent == SentAfter(s.sent, w)
    ensures SentInv(s')
  {
    var b := Batch(w.phase.n.id, Results(w.phase.ds));
    SentStays(s, s'.(sent := s.sent));
    FaithfulStays(s, s', w.phase.n.id, w.phase.ds);
    FaithfulIsTruthful(s', w.phase.n.id, w.phase.ds);
    assert s'.sent == s.sent + [b];
    forall i | 0 <= i < |s'.sent|
      ensures s'.sent[i].notification in s'.taken && Truthful(s', s'.sent[i])
    {
      if i < |s.sent| {
        TruthStays(s, s', s.sent[i]);
      }
    }
  }

  lemma StepKeepsSent(cfg: Config, s: State, wid: Id, input: Input)
    requires Inv(s) && wid in s.workers && input.at <= s.now
    ensures SentInv(WorkerStep(cfg, s, wid, input))
  {
    var w := s.workers[wid];
    StepKeepsTables(cfg, s, wid, input);
    if w.phase.Notifying? {
      NotifyKeepsSent(s, WorkerStep(cfg, s, wid, input), wid, w);
    } else {
      SentStays(s, WorkerStep(cfg, s, wid, input));
    }
  }

  /** No step takes away the announcement another worker is about to make. */
  lemma StepLeavesNotifier(cfg: Config, s: State, wid: Id, input: Input, other: Id)
    requires Inv(s) && wid in s.workers && other in s.workers && other != wid
    requires s.workers[other].phase.Notifying?
    ensures !WasTold(WorkerStep(cfg, s, wid, input), s.workers[other].phase.n.id)
  {
    var w, o := s.workers[wid], s.workers[other];
    assert WorkerInv(s, wid, w) && WorkerInv(s, other, o);
    var sent' := SentAfter(s.sent, w);
    forall i | 0 <= i < |sent'|
      ensures sent'[i].notification != o.phase.n.id
    {
      if i < |s.sent| {
        assert sent'[i] == s.sent[i];
      }
    }
  }

  lemma StepKeepsInv(cfg: Config, s: State, wid: Id, input: Input)
    requires Inv(s) && wid in s.workers && input.at <= s.now
    ensures Inv(WorkerStep(cfg, s, wid, input))
    ensures Evolves(s, WorkerStep(cfg, s, wid, input))
  {
    var s' := WorkerStep(cfg, s, wid, input);
    StepKeepsTables(cfg, s, wid, input);
    StepKeepsSent(cfg, s, wid, input);
    forall x | x in s'.workers
      ensures WorkerInv(s', x, s'.workers[x])
    {
      if x == wid {
        StepKeepsOwn(cfg, s, wid, input);
      } else {
        if s.workers[x].phase.Notifying? {
          StepLeavesNotifier(cfg, s, wid, input, x);
        }
        WorkerStays(s, s', x, s.workers[x]);
      }
    }
  }

  // --- every action keeps the invariant --------------------------------------

  /** An action of nobody's: the workers and the callbacks are as they were. */
  lemma EnvironmentKeepsInv(s: State, s': State)
    requires Inv(s) && Evolves(s, s') && TableInv(s') && s'.workers == s.workers && s'.sent == s.sent
    ensures Inv(s')
  {
    SentStays(s, s');
    forall w | w in s'.workers
      ensures WorkerInv(s', w, s'.workers[w])
    {
      assert WorkerInv(s, w, s.workers[w]);
      assert s.workers[w].phase.Notifying? ==> !WasTold(s', s.workers[w].phase.n.id);
      WorkerStays(s, s', w, s.workers[w]);
    }
  }

  predicate AcceptedRow(s: State, n: Message, added: Table, d: Id)
    requires d in s.rows + added
  {
    var r := (s.rows + added)[d];
    if d in added then
      && d !in s.openedIds && r.notification == n.id && r.status == PENDING
      && r.notifiedAt.None? && r.claimedAt.None? && r.updatedAt <= s.now
    else
      d in s.rows && r == s.rows[d] && r.notification != n.id
  }

  lemma AcceptedRows(s: State, n: Message, added: Table)
    requires TableInv(s) && Acceptable(s, n, added)
    ensures forall d :: d in s.rows + added ==> AcceptedRow(s, n, added, d)
  {
  }

  lemma AcceptKeepsTables(cfg: Config, s: State, n: Message, added: Table)
    requires TableInv(s) && Acceptable(s, n, added)
    ensures TableInv(Apply(cfg, s, Accept(n, added)))
  {
    AcceptedRows(s, n, added);
    var s' := Apply(cfg, s, Accept(n, added));
    forall d | d in s'.rows
      ensures d in s'.openedIds && s'.rows[d].notification in s'.messages
      ensures s'.rows[d].notifiedAt.Some? <==> s'.rows[d].notification in s'.taken
    {
      assert AcceptedRow(s, n, added, d);
    }
  }

  lemma AcceptKeepsInv(cfg: Config, s: State, n: Message, added: Table)
    requires Inv(s) && Acceptable(s, n, added)
    ensures Inv(Apply(cfg, s, Accept(n, added))) && Evolves(s, Apply(cfg, s, Accept(n, added)))
  {
    var s' := Apply(cfg, s, Accept(n, added));
    AcceptKeepsTables(cfg, s, n, added);
    AcceptedRows(s, n, added);
    assert Evolves(s, s');
    EnvironmentKeepsInv(s, s');
  }

  lemma PurgeKeepsInv(cfg: Config, s: State, n: Id)
    requires Inv(s)
    ensures Inv(Apply(cfg, s, Purge(n))) && Evolves(s, Apply(cfg, s, Purge(n)))
  {
    EnvironmentKeepsInv(s, Apply(cfg, s, Purge(n)));
  }

  /** Adding a worker, or stopping one, is nothing to the others. */
  lemma WorkersKeepInv(s: State, s': State, wid: Id)
    requires Inv(s) && Evolves(s, s') && s'.rows == s.rows && s'.messages == s.messages
    requires s'.issued == s.issued && s'.openedIds == s.openedIds && s'.taken == s.taken
    requires s'.now == s.now && s'.sent == s.sent
    requires wid in s'.workers && s'.workers == s.workers[wid := s'.workers[wid]]
    requires WorkerInv(s', wid, s'.workers[wid])
    ensures Inv(s')
  {
    SentStays(s, s');
    forall w | w in s'.workers && w != wid
      ensures WorkerInv(s', w, s'.workers[w])
    {
      assert WorkerInv(s, w, s.workers[w]);
      assert s.workers[w].phase.Notifying? ==> !WasTold(s', s.workers[w].phase.n.id);
      WorkerStays(s, s', w, s.workers[w]);
    }
  }

  predicate IsStaffing(a: Action) {
    a.Offer? || a.StartSweep? || a.Crash?
  }

  lemma StaffingKeepsInv(cfg: Config, s: State, a: Action)
    requires Inv(s) && IsStaffing(a)
    ensures Inv(Apply(cfg, s, a)) && Evolves(s, Apply(cfg, s, a))
  {
    var s' := Apply(cfg, s, a);
    if s' != s {
      assert a.Crash? ==> WorkerInv(s, a.w, s.workers[a.w]);
      WorkersKeepInv(s, s', a.w);
    }
  }

  lemma NothingHappens(s: State)
    ensures Evolves(s, s)
  {
  }

  lemma TickKeepsInv(cfg: Config, s: State, to: Time)
    requires Inv(s)
    ensures Inv(Apply(cfg, s, Tick(to))) && Evolves(s, Apply(cfg, s, Tick(to)))
  {
    NothingHappens(s);
    if s.now <= to {
      var s' := s.(now := to);
      assert Evolves(s, s') && TableInv(s');
      EnvironmentKeepsInv(s, s');
    }
  }

  /** The invariant of the protocol, kept by every action of anybody. */
  lemma ApplyKeepsInv(cfg: Config, s: State, a: Action)
    requires Inv(s)
    ensures Inv(Apply(cfg, s, a)) && Evolves(s, Apply(cfg, s, a))
  {
    NothingHappens(s);
    if IsStaffing(a) {
      StaffingKeepsInv(cfg, s, a);
    } else if a.Tick? {
      TickKeepsInv(cfg, s, a.to);
    } else if a.Purge? {
      PurgeKeepsInv(cfg, s, a.n);
    } else if a.Accept? {
      if Acceptable(s, a.message, a.added) {
        AcceptKeepsInv(cfg, s, a.message, a.added);
      }
    } else if a.w in s.workers && a.input.at <= s.now {
      StepKeepsInv(cfg, s, a.w, a.input);
    }
  }

  // --- no callback is lost ---------------------------------------------------

  /** The row that completes a message was written by a worker that now announces it. */
  lemma WhoSettles(cfg: Config, s: State, wid: Id, input: Input, d: Id)
    requires TableInv(s) && wid in s.workers && WorkerInv(s, wid, s.workers[wid])
    requires d in s.rows && s.rows[d].notification !in MishapOf(s.rows, s.workers[wid], input)
    requires !s.rows[d].status.IsSettled() && RowsAfter(cfg, s.rows, s.workers[wid], input)[d].status.IsSettled()
    ensures Announcing(WorkerAfter(cfg, s.messages, s.rows, s.workers[wid], input), s.rows[d].notification)
  {
    var w := s.workers[wid];
    assert w.phase.Writing?;
    var cur := w.phase.cur;
    assert d == cur.id && w.phase.told.Some?;
  }

  /** A worker on its way to claim gets there, or the announcement is already taken. */
  lemma AnnouncerGoesOn(cfg: Config, s: State, wid: Id, input: Input, d: Id)
    requires TableInv(s) && wid in s.workers
    requires d in s.rows && MessageSettled(s.rows, s.rows[d].notification)
    requires Announcing(s.workers[wid], s.rows[d].notification)
    requires s.rows[d].notification !in MishapOf(s.rows, s.workers[wid], input)
    ensures var w := s.workers[wid];
            || Announcing(WorkerAfter(cfg, s.messages, s.rows, w, input), s.rows[d].notification)
            || TakesAnnouncement(s, w, input)
            || s.rows[d].notification in s.taken
  {
    var w := s.workers[wid];
    var n := s.rows[d].notification;
    if w.phase.Listing? {
      ListHasEveryRow(s.rows, n);
      var ds := ListByNotification(s.rows, n);
      forall k | 0 <= k < |ds|
        ensures ds[k].row.status.IsSettled()
      {
        assert ds[k].id in s.rows && s.rows[ds[k].id].notification == n;
      }
    }
  }

  /** A message that had settled before the step still has its announcer, or is taken. */
  lemma StepKeepsAnnouncer(cfg: Config, s: State, wid: Id, input: Input, d: Id)
    requires Inv(s) && NoneLost(s) && wid in s.workers
    requires d in s.rows && s.rows[d].notification !in WorkerStep(cfg, s, wid, input).mishaps
    requires MessageSettled(s.rows, s.rows[d].notification)
    ensures var s' := WorkerStep(cfg, s, wid, input);
            s.rows[d].notification in s'.taken || SomebodyAnnouncing(s', s.rows[d].notification)
  {
    var n := s.rows[d].notification;
    var s' := WorkerStep(cfg, s, wid, input);
    if n !in s.taken {
      var x :| x in s.workers && Announcing(s.workers[x], n);
      if x == wid {
        AnnouncerGoesOn(cfg, s, wid, input, d);
        assert s'.workers[wid] == WorkerAfter(cfg, s.messages, s.rows, s.workers[wid], input);
      } else {
        assert s'.workers[x] == s.workers[x];
      }
    }
  }

  /** What settles on this step, or had settled, is taken or has somebody on the way to announce it. */
  lemma StepLosesNoMessage(cfg: Config, s: State, wid: Id, input: Input, d: Id)
    requires Inv(s) && NoneLost(s) && wid in s.workers && input.at <= s.now
    requires d in s.rows && s.rows[d].notification !in WorkerStep(cfg, s, wid, input).mishaps
    requires MessageSettled(RowsAfter(cfg, s.rows, s.workers[wid], input), s.rows[d].notification)
    ensures var s' := WorkerStep(cfg, s, wid, input);
            s.rows[d].notification in s'.taken || SomebodyAnnouncing(s', s.rows[d].notification)
  {
    var w := s.workers[wid];
    assert WorkerInv(s, wid, w);
    var n := s.rows[d].notification;
    var s' := WorkerStep(cfg, s, wid, input);
    if MessageSettled(s.rows, n) {
      StepKeepsAnnouncer(cfg, s, wid, input, d);
    } else {
      StepMovesRows(cfg, s, w, input);
      var e :| e in s.rows && s.rows[e].notification == n && !s.rows[e].status.IsSettled();
      assert s'.rows[e].notification == n;
      WhoSettles(cfg, s, wid, input, e);
      assert Announcing(s'.workers[wid], n);
    }
  }

  lemma StepLosesNoClaim(cfg: Config, s: State, wid: Id, input: Input, n: Id)
    requires Inv(s) && NoneLost(s) && wid in s.workers
    requires n in WorkerStep(cfg, s, wid, input).taken && n !in WorkerStep(cfg, s, wid, input).mishaps
    ensures var s' := WorkerStep(cfg, s, wid, input);
            WasTold(s', n) || SomebodyNotifying(s', n)
  {
    var w := s.workers[wid];
    var s' := WorkerStep(cfg, s, wid, input);
    var w' := WorkerAfter(cfg, s.messages, s.rows, w, input);
    assert s'.workers[wid] == w';
    if n in s.taken {
      if WasTold(s, n) {
        var i :| 0 <= i < |s.sent| && s.sent[i].notification == n;
        assert s'.sent[i] == s.sent[i];
      } else {
        var x :| x in s.workers && AboutToNotify(s.workers[x], n);
        if x == wid {
          assert s'.sent[|s.sent|].notification == n;
        } else {
          assert s'.workers[x] == s.workers[x];
        }
      }
    } else {
      assert AboutToNotify(w', n);
    }
  }

  lemma StepLosesNone(cfg: Config, s: State, wid: Id, input: Input)
    requires Inv(s) && NoneLost(s) && wid in s.workers && input.at <= s.now
    ensures NoneLost(WorkerStep(cfg, s, wid, input))
  {
    var s' := WorkerStep(cfg, s, wid, input);
    StepMovesRows(cfg, s, s.workers[wid], input);
    forall d | d in s'.rows && MessageSettled(s'.rows, s'.rows[d].notification)
               && s'.rows[d].notification !in s'.mishaps
      ensures s'.rows[d].notification in s'.taken || SomebodyAnnouncing(s', s'.rows[d].notification)
    {
      assert s'.rows[d].notification == s.rows[d].notification;
      StepLosesNoMessage(cfg, s, wid, input, d);
    }
    forall n | n in s'.taken && n !in s'.mishaps
      ensures WasTold(s', n) || SomebodyNotifying(s', n)
    {
      StepLosesNoClaim(cfg, s, wid, input, n);
    }
  }

  /** Nobody stops announcing or notifying, except of messages put down as mishaps. */
  lemma OthersGoOn(s: State, s': State)
    requires NoneLost(s)
    requires s.workers.Keys <= s'.workers.Keys
    requires forall w :: w in s.workers ==> s'.workers[w] == s.workers[w] || CrashMishapOf(s.workers[w]) <= s'.mishaps
    requires s'.taken == s.taken && s'.sent == s.sent && s.mishaps <= s'.mishaps
    requires forall d :: d in s'.rows && MessageSettled(s'.rows, s'.rows[d].notification) ==>
               d in s.rows && s.rows[d].notification == s'.rows[d].notification
               && MessageSettled(s.rows, s.rows[d].notification)
    ensures NoneLost(s')
  {
    forall n | SomebodyAnnouncing(s, n) && n !in s'.mishaps
      ensures SomebodyAnnouncing(s', n)
    {
      var w :| w in s.workers && Announcing(s.workers[w], n);
      assert s'.workers[w] == s.workers[w];
    }
    forall n | SomebodyNotifying(s, n) && n !in s'.mishaps
      ensures SomebodyNotifying(s', n)
    {
      var w :| w in s.workers && AboutToNotify(s.workers[w], n);
      assert s'.workers[w] == s.workers[w];
    }
  }

  lemma AcceptLosesNone(cfg: Config, s: State, n: Message, added: Table)
    requires Inv(s) && NoneLost(s) && Acceptable(s, n, added)
    ensures NoneLost(Apply(cfg, s, Accept(n, added)))
  {
    var s' := Apply(cfg, s, Accept(n, added));
    AcceptedRows(s, n, added);
    forall d | d in s'.rows && MessageSettled(s'.rows, s'.rows[d].notification)
      ensures d in s.rows && s.rows[d].notification == s'.rows[d].notification
              && MessageSettled(s.rows, s.rows[d].notification)
    {
      assert AcceptedRow(s, n, added, d);
      forall e | e in s.rows && s.rows[e].notification == s'.rows[d].notification
        ensures s.rows[e].status.IsSettled()
      {
        assert AcceptedRow(s, n, added, e);
      }
    }
    OthersGoOn(s, s');
  }

  lemma PurgeLosesNone(cfg: Config, s: State, n: Id)
    requires Inv(s) && NoneLost(s)
    ensures NoneLost(Apply(cfg, s, Purge(n)))
  {
    var s' := Apply(cfg, s, Purge(n));
    forall d | d in s'.rows && MessageSettled(s'.rows, s'.rows[d].notification)
      ensures MessageSettled(s.rows, s.rows[d].notification)
    {
      forall e | e in s.rows && s.rows[e].notification == s.rows[d].notification
        ensures s.rows[e].status.IsSettled()
      {
        assert e in s'.rows;
      }
    }
    OthersGoOn(s, s');
  }

  lemma TickLosesNone(cfg: Config, s: State, to: Time)
    requires NoneLost(s)
    ensures NoneLost(Apply(cfg, s, Tick(to)))
  {
    OthersGoOn(s, Apply(cfg, s, Tick(to)));
  }

  lemma CrashLosesNone(cfg: Config, s: State, w: Id)
    requires NoneLost(s)
    ensures NoneLost(Apply(cfg, s, Crash(w)))
  {
    OthersGoOn(s, Apply(cfg, s, Crash(w)));
  }

  lemma JoiningLosesNone(cfg: Config, s: State, a: Action)
    requires NoneLost(s) && (a.Offer? || a.StartSweep?)
    ensures NoneLost(Apply(cfg, s, a))
  {
    OthersGoOn(s, Apply(cfg, s, a));
  }

  lemma ApplyLosesNone(cfg: Config, s: State, a: Action)
    requires Inv(s) && NoneLost(s)
    ensures NoneLost(Apply(cfg, s, a))
  {
    match a
    case Act(w, input) =>
      if w in s.workers && input.at <= s.now {
        StepLosesNone(cfg, s, w, input);
      }
    case Accept(n, added) =>
      if Acceptable(s, n, added) {
        AcceptLosesNone(cfg, s, n, added);
      }
    case Purge(n) => PurgeLosesNone(cfg, s, n);
    case Tick(to) => TickLosesNone(cfg, s, to);
    case Crash(w) => CrashLosesNone(cfg, s, w);
    case _ => JoiningLosesNone(cfg, s, a);
  }
}
