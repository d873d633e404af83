/**
 * One dispatch worker as a program of atomic steps.
 *
 * A worker is either handling one broker event or sweeping for stale rows. Each step makes
 * one call -- a statement, a lookup, a send -- and what the call answers is the step's
 * input. Between two steps anything may happen to the tables, so all a worker knows is what
 * its phase carries: the copy of the row it loaded, the message, the list it read.
 */
module Worker {
  import opened Basics
  import opened Deliveries

  datatype Config = Config(maxAttempts: nat, after: Time, giveUp: Time, lease: Time, batch: nat)

  /** What dispatch needs of a notification. */
  datatype Message = Message(id: Id, source: Id, expireAt: Option<Time>) {
    predicate IsExpired(now: Time) {
      expireAt.Some? && expireAt.value <= now
    }
  }

  type Messages = map<Id, Message>

  // --- what calls answer -----------------------------------------------------

  datatype SendKind = Transient | Permanent | Unreachable

  datatype SendAnswer = Sent(providerId: string) | NotSent(kind: SendKind, detail: string)

  datatype SenderAnswer = Found | BadConfiguration(detail: string) | LookupFailed

  /** webhooks.Get: a callback that is switched on, or anything else. */
  datatype HookAnswer = Active | Absent

  /** The answer to one call. `at` is the clock reading the step uses, some moment not after now. */
  datatype Input = Input(db: Db, at: Time, sender: SenderAnswer, send: SendAnswer, hook: HookAnswer)

  // --- the worker ------------------------------------------------------------

  datatype Job = Event(delivery: Id, attempt: nat) | Sweep

  /** The delivery being worked on: the copy as it was loaded, and whether this is its last chance. */
  datatype Current = Current(id: Id, copy: Row, lastChance: bool)

  datatype Phase =
    | Reading                                                    // Handle, before deliveries.Get
    | Sweeping                                                   // Recover, before ClaimStale
    | Clocking                                                   // Recover, before it reads the clock
    | Idle                                                       // Recover, between two rows
    | Loaded(cur: Current)                                       // deliver, before notifs.Get
    | NeedsSender(cur: Current, n: Message)                      // before senders.For
    | Sending(cur: Current, n: Message)                          // before sender.Send
    | Writing(cur: Current, told: Option<Message>, outcome: Outcome) // before the outcome is written
    | Releasing(cur: Current)                                    // before Release
    | Listing(cur: Current, n: Message)                          // announce, before the list is read
    | Hooking(cur: Current, n: Message, ds: seq<Entry>)          // before webhooks.Get
    | Claiming(cur: Current, n: Message, ds: seq<Entry>)         // before ClaimAnnouncement
    | Notifying(cur: Current, n: Message, ds: seq<Entry>)        // announcement taken, before Notify
    | Finished(ok: bool)

  /**
   * How the attempt at one delivery ended: when the copy it was made with was last updated, if
   * it got as far as loading one; what deliver (or Handle) returned; and whether it was free of
   * store errors and failed sender lookups.
   */
  datatype Attempt = Attempt(delivery: Id, loaded: Option<Time>, lastChance: bool, ok: bool, clean: bool)

  datatype Worker = Worker(
    job: Job,
    phase: Phase,
    todo: seq<Entry>,      // rows claimed and not started
    claimedAt: Time,       // the clock reading the claim was made with
    sweptAt: Time,         // the clock reading ages are measured against
    attempts: seq<Attempt>)

  function Handling(delivery: Id, attempt: nat): Worker {
    Worker(Event(delivery, attempt), Reading, [], 0, 0, [])
  }

  function Recovering(): Worker {
    Worker(Sweep, Sweeping, [], 0, 0, [])
  }

  // --- the callback ----------------------------------------------------------

  datatype Told = Told(
    delivery: Id, channel: string, address: string, status: Status,
    reason: Option<Reason>, providerId: string, settledAt: Time)

  datatype Batch = Batch(notification: Id, results: seq<Told>)

  function ToldOf(e: Entry): Told {
    Told(e.id, e.row.recipient.channel, e.row.recipient.address, e.row.status,
         e.row.reason, e.row.providerId, e.row.updatedAt)
  }

  /** A result says of a delivery what its row says, column by column. */
  predicate Says(t: Told, id: Id, r: Row) {
    && t.delivery == id
    && t.channel == r.recipient.channel && t.address == r.recipient.address
    && t.status == r.status && t.reason == r.reason
    && t.providerId == r.providerId && t.settledAt == r.updatedAt
  }

  function Results(ds: seq<Entry>): (r: seq<Told>)
    ensures |r| == |ds|
    ensures forall k :: 0 <= k < |ds| ==> Says(r[k], ds[k].id, ds[k].row)
  {
    seq(|ds|, k requires 0 <= k < |ds| => ToldOf(ds[k]))
  }

  predicate AllSettled(ds: seq<Entry>) {
    forall k :: 0 <= k < |ds| ==> ds[k].row.status.IsSettled()
  }

  // --- one step --------------------------------------------------------------

  function Goto(w: Worker, phase: Phase): Worker {
    w.(phase := phase)
  }

  /** The end of one delivery: an event is over, a sweep goes on to its next row. */
  function EndItem(w: Worker, a: Attempt): Worker {
    w.(attempts := w.attempts + [a], phase := if w.job.Event? then Finished(a.ok) else Idle)
  }

  function Stop(w: Worker, cur: Current, ok: bool, clean: bool): Worker {
    EndItem(w, Attempt(cur.id, Some(cur.copy.updatedAt), cur.lastChance, ok, clean))
  }

  /** Handle: a row that is absent or settled needs nothing; anything else is delivered. */
  function AfterRead(cfg: Config, w: Worker, rows: Table, db: Db): Worker
    requires w.job.Event?
  {
    var id := w.job.delivery;
    var lastChance := w.job.attempt >= cfg.maxAttempts;
    if db.Fault? then
      EndItem(w, Attempt(id, None, lastChance, false, false))
    else if id !in rows || rows[id].status.IsSettled() then
      EndItem(w, Attempt(id, None, lastChance, true, true))
    else
      Goto(w, Loaded(Current(id, rows[id], lastChance)))
  }

  /** deliver, up to the message: gone and expired are outcomes, a failed read is not. */
  function AfterMessage(w: Worker, cur: Current, messages: Messages, db: Db, at: Time): Worker {
    if db.Fault? then
      Stop(w, cur, false, false)
    else if cur.copy.notification !in messages then
      Goto(w, Writing(cur, None, Refused(PERMANENT, "message is gone")))
    else
      var n := messages[cur.copy.notification];
      if n.IsExpired(at) then
        Goto(w, Writing(cur, Some(n), Refused(EXPIRED, "")))
      else
        Goto(w, NeedsSender(cur, n))
  }

  function AfterSender(w: Worker, cur: Current, n: Message, answer: SenderAnswer): Worker {
    match answer
    case Found => Goto(w, Sending(cur, n))
    case BadConfiguration(detail) => Goto(w, Writing(cur, Some(n), Refused(NO_SENDER, detail)))
    case LookupFailed => Stop(w, cur, false, false)
  }

  /** sendFailed: only a transient refusal with time left writes nothing. */
  function AfterSend(w: Worker, cur: Current, n: Message, answer: SendAnswer): Worker {
    match answer
    case Sent(providerId) => Goto(w, Writing(cur, Some(n), Accepted(providerId)))
    case NotSent(Unreachable, detail) => Goto(w, Writing(cur, Some(n), Refused(NOT_REACHABLE, detail)))
    case NotSent(Permanent, detail) => Goto(w, Writing(cur, Some(n), Refused(PERMANENT, detail)))
    case NotSent(Transient, detail) =>
      if cur.lastChance then
        Goto(w, Writing(cur, Some(n), Refused(MAX_ATTEMPTS, detail)))
      else
        Goto(w, Releasing(cur))
  }

  function Written(rows: Table, cur: Current, o: Outcome, at: Time): Table {
    match Mark(cur.copy, o, cur.copy.attempts + 1, at)
    case None => rows
    case Some(d) => UpdateDelivery(rows, cur.id, d)
  }

  /** settled, then announce: losing the row to another worker counts as having settled it. */
  function AfterWrite(w: Worker, cur: Current, told: Option<Message>, o: Outcome, db: Db, at: Time): Worker {
    if db.Fault? && Mark(cur.copy, o, cur.copy.attempts + 1, at).Some? then Stop(w, cur, false, false)
    else if told.None? then Stop(w, cur, true, true)
    else Goto(w, Listing(cur, told.value))
  }

  function AfterList(w: Worker, cur: Current, n: Message, rows: Table, db: Db): Worker {
    if db.Fault? then
      Stop(w, cur, true, false)
    else
      var ds := ListByNotification(rows, n.id);
      if AllSettled(ds) then Goto(w, Hooking(cur, n, ds)) else Stop(w, cur, true, true)
  }

  function AfterClaim(w: Worker, cur: Current, n: Message, ds: seq<Entry>, rows: Table, db: Db): Worker {
    if db.Fault? then Stop(w, cur, true, false)
    else if Unannounced(rows, n.id) then Goto(w, Notifying(cur, n, ds))
    else Stop(w, cur, true, true)
  }

  function SweptRows(cfg: Config, rows: Table, at: Time): set<Id> {
    ClaimedBy(rows, at, at - cfg.after, at - cfg.lease, cfg.batch)
  }

  /** Recover takes its next row: one old enough gets its last chance. */
  function NextRow(cfg: Config, w: Worker): Worker {
    if w.todo == [] then
      Goto(w, Finished(true))
    else
      var e := w.todo[0];
      w.(todo := w.todo[1..], phase := Loaded(Current(e.id, e.row, w.sweptAt - e.row.updatedAt >= cfg.giveUp)))
  }

  /** The rows after the step: only four phases write any. */
  function RowsAfter(cfg: Config, rows: Table, w: Worker, input: Input): Table {
    if !input.db.Applies() then rows else
    match w.phase
    case Sweeping => StampClaimed(rows, SweptRows(cfg, rows, input.at), input.at)
    case Writing(cur, told, o) => Written(rows, cur, o, input.at)
    case Releasing(cur) => ReleaseClaim(rows, cur.id)
    case Claiming(cur, n, ds) => StampAnnounced(rows, n.id, input.at)
    case _ => rows
  }

  function AfterSweep(cfg: Config, w: Worker, rows: Table, db: Db, at: Time): Worker {
    if db.Fault? then
      Goto(w, Finished(false))
    else
      w.(phase := Clocking, todo := ClaimedEntries(rows, SweptRows(cfg, rows, at), at), claimedAt := at)
  }

  /** The worker after the step. */
  function WorkerAfter(cfg: Config, messages: Messages, rows: Table, w: Worker, input: Input): Worker {
    match w.phase
    case Reading => if w.job.Event? then AfterRead(cfg, w, rows, input.db) else w
    case Sweeping => AfterSweep(cfg, w, rows, input.db, input.at)
    case Clocking => w.(phase := Idle, sweptAt := input.at)
    case Idle => NextRow(cfg, w)
    case Loaded(cur) => AfterMessage(w, cur, messages, input.db, input.at)
    case NeedsSender(cur, n) => AfterSender(w, cur, n, input.sender)
    case Sending(cur, n) => AfterSend(w, cur, n, input.send)
    case Writing(cur, told, o) => AfterWrite(w, cur, told, o, input.db, input.at)
    case Releasing(cur) => Stop(w, cur, false, true)
    case Listing(cur, n) => AfterList(w, cur, n, rows, input.db)
    case Hooking(cur, n, ds) =>
      if input.hook.Active? then Goto(w, Claiming(cur, n, ds)) else Stop(w, cur, true, true)
    case Claiming(cur, n, ds) => AfterClaim(w, cur, n, ds, rows, input.db)
    case Notifying(cur, n, ds) => Stop(w, cur, true, true)
    case Finished(_) => w
  }

  /** The callbacks attempted so far: only a worker that took the announcement adds one. */
  function SentAfter(sent: seq<Batch>, w: Worker): seq<Batch> {
    if w.phase.Notifying? then sent + [Batch(w.phase.n.id, Results(w.phase.ds))] else sent
  }
}
