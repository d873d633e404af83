/**
 * Accepting a message, by any number of callers at once: look the key up, prepare, write the
 * message and its deliveries in one transaction, and publish once they are committed.
 *
 * A step is one statement or one answer. What a transaction has written and not committed
 * stands in the phase of its call, where only that call sees it -- except that a unique index
 * makes others wait for it.
 */
module Submit {
  import opened Basics
  import opened Runs
  import opened Ordering
  import opened Deliveries
  import C = Credentials

  const HIGHEST: int := 2

  datatype Command = Command(
    source: string, key: string, body: string, priority: int, expireAt: Option<Time>, senders: map<string, string>)

  datatype Note = Note(source: string, key: string, requested: int, effective: int)

  type Notes = map<Id, Note>

  datatype Store = Store(notes: Notes, ds: Table)

  datatype Event = Event(delivery: Id, source: string, channel: string, priority: int)

  datatype Receipt = Receipt(id: Id, effective: int, downgraded: bool, duplicate: bool)

  datatype Refusal = NotAdmitted | NotResolved | BadSender(cause: C.CredentialError) | Invalid | KeyTaken | Unavailable

  /** What checking the named identities came to: all resolve, or the first that does not, or that could not be read. */
  datatype SenderCheck = AllResolve | Unresolved(cause: C.CredentialError) | CannotLook

  // --- building --------------------------------------------------------------

  function Clamp(priority: int, ceiling: int): (p: int)
    ensures p <= priority && p <= ceiling && (p == priority || p == ceiling)
  {
    if priority > ceiling then ceiling else priority
  }

  predicate IsValid(cmd: Command, now: Time) {
    && cmd.body != ""
    && 0 <= cmd.priority <= HIGHEST
    && (cmd.expireAt.Some? ==> cmd.expireAt.value > now)
  }

  function NewNote(cmd: Command, ceiling: int): Note {
    Note(cmd.source, cmd.key, cmd.priority, Clamp(cmd.priority, ceiling))
  }

  function AnswerFor(id: Id, n: Note, duplicate: bool): Receipt {
    Receipt(id, n.effective, n.effective != n.requested, duplicate)
  }

  /** What the broker is told of a delivery. */
  function EventOf(n: Note, d: Entry): Event {
    Event(d.id, n.source, d.row.recipient.channel, n.effective)
  }

  function EventsOf(n: Note, ds: seq<Entry>): set<Event> {
    set k | 0 <= k < |ds| :: EventOf(n, ds[k])
  }

  function SenderFor(senders: map<string, string>, channel: string): string {
    if channel in senders then senders[channel] else ""
  }

  function Opened(n: Id, rs: seq<Recipient>, senders: map<string, string>, ids: seq<Id>, now: Time): seq<Entry>
    requires |rs| <= |ids|
  {
    seq(|rs|, k requires 0 <= k < |rs| => Entry(ids[k], NewRow(n, rs[k], SenderFor(senders, rs[k].channel), now)))
  }

  predicate NoRepeats(rs: seq<Recipient>) {
    forall i, j :: 0 <= i < j < |rs| ==> rs[i] != rs[j]
  }

  /** The two rules about a whole set, and the one about each of its members. */
  predicate MayBeOpened(rs: seq<Recipient>, valid: set<Recipient>) {
    rs != [] && NoRepeats(rs) && forall i :: 0 <= i < |rs| ==> rs[i] in valid
  }

  /** Opens one delivery per recipient. */
  method NewSet(n: Id, rs: seq<Recipient>, valid: set<Recipient>, senders: map<string, string>, ids: seq<Id>, now: Time)
    returns (r: Result<seq<Entry>, Refusal>)
    requires |rs| <= |ids|
    ensures r == if MayBeOpened(rs, valid) then Ok(Opened(n, rs, senders, ids, now)) else Err(Invalid)
  {
    if |rs| == 0 {
      return Err(Invalid);
    }
    var out: seq<Entry> := [];
    var seen: set<Recipient> := {};
    for k := 0 to |rs|
      invariant out == Opened(n, rs, senders, ids, now)[..k]
      invariant forall x :: x in seen <==> x in rs[..k]
      invariant NoRepeats(rs[..k]) && forall i :: 0 <= i < k ==> rs[i] in valid
    {
      if rs[k] !in valid {
        return Err(Invalid);
      }
      if rs[k] in seen {
        var i :| 0 <= i < k && rs[..k][i] == rs[k];
        assert rs[i] == rs[k];
        return Err(Invalid);
      }
      seen := seen + {rs[k]};
      out := out + [Entry(ids[k], NewRow(n, rs[k], SenderFor(senders, rs[k].channel), now))];
      assert rs[..k + 1] == rs[..k] + [rs[k]];
    }
    assert rs[..|rs|] == rs;
    assert out == Opened(n, rs, senders, ids, now);
    assert forall i :: 0 <= i < |rs| ==> rs[i] in valid;
    return Ok(out);
  }

  // --- the statements --------------------------------------------------------

  predicate Bears(n: Note, source: string, key: string) {
    key != "" && n.source == source && n.key == key
  }

  function Bearers(t: Notes, source: string, key: string): set<Id> {
    set id | id in t && Bears(t[id], source, key)
  }

  /** ReadNotificationByIdempotencyKey. */
  function FindByKey(t: Notes, source: string, key: string): Option<Id> {
    var found := Bearers(t, source, key);
    if found == {} then None else Some(First(false, found))
  }

  function Purged(st: Store, ids: set<Id>): Store {
    Store(st.notes - ids, map d | d in st.ds && st.ds[d].notification !in ids :: st.ds[d])
  }

  // --- the calls -------------------------------------------------------------

  datatype Phase =
    | Checking(cmd: Command, ceiling: int)
    | Preparing(cmd: Command, ceiling: int)
    | Writing(cmd: Command, ceiling: int, recipients: seq<Recipient>)
    | Noted(cmd: Command, id: Id, note: Note, recipients: seq<Recipient>)
    | Delivered(cmd: Command, id: Id, note: Note, recipients: seq<Recipient>, ds: seq<Entry>)
    | Racing(cmd: Command)
    | Publishing(cmd: Command, id: Id, note: Note, left: seq<Entry>)
    | Answered(cmd: Command, answer: Result<Receipt, Refusal>)

  type Calls = map<nat, Phase>

  /**
   * `wanted` and `stored` are history: the recipients each committed message was accepted
   * for, and what is true of every delivery ever committed.
   */
  datatype State = State(store: Store, calls: Calls, events: seq<Event>, wanted: map<Id, seq<Recipient>>,
                         stored: set<Event>)

  datatype Action =
    | Admit(call: nat, cmd: Command, admitted: Option<int>)
    | Check(call: nat, db: Db)
    | Prepare(call: nat, resolved: Option<seq<Recipient>>, senders: SenderCheck, begun: bool)
    | WriteNote(call: nat, id: Id, now: Time, db: Db)
    | WriteDeliveries(call: nat, valid: set<Recipient>, ids: seq<Id>, now: Time, written: nat, db: Db)
    | Commit(call: nat, db: Db)
    | ReadBack(call: nat, db: Db)
    | Publish(call: nat, heard: bool)
    | Purge(gone: set<Id>)

  predicate Holds(p: Phase) {
    p.Noted? || p.Delivered?
  }

  /** Another transaction has inserted this id or this key and has not ended. */
  predicate MustWaitForNote(s: State, call: nat, id: Id, cmd: Command) {
    exists j :: j in s.calls && j != call && Holds(s.calls[j]) &&
                (s.calls[j].id == id || Bears(s.calls[j].note, cmd.source, cmd.key))
  }

  predicate MustWaitForDeliveries(s: State, call: nat, ids: seq<Id>) {
    exists j :: j in s.calls && j != call && s.calls[j].Delivered? &&
                exists k :: 0 <= k < |s.calls[j].ds| && s.calls[j].ds[k].id in ids
  }

  function AfterAdmit(cmd: Command, admitted: Option<int>): Phase {
    match admitted
    case None => Answered(cmd, Err(NotAdmitted))
    case Some(ceiling) => if cmd.key == "" then Preparing(cmd, ceiling) else Checking(cmd, ceiling)
  }

  function AfterCheck(t: Notes, p: Phase, db: Db): Phase
    requires p.Checking?
  {
    if db.Fault? then Answered(p.cmd, Err(Unavailable))
    else match FindByKey(t, p.cmd.source, p.cmd.key) {
      case Some(id) => AnswerDuplicate(t, p.cmd, id)
      case None => Preparing(p.cmd, p.ceiling)
    }
  }

  function AnswerDuplicate(t: Notes, cmd: Command, id: Id): Phase {
    if id in t then Answered(cmd, Ok(AnswerFor(id, t[id], true))) else Answered(cmd, Err(KeyTaken))
  }

  function AfterPrepare(p: Phase, resolved: Option<seq<Recipient>>, senders: SenderCheck, begun: bool): Phase
    requires p.Preparing?
  {
    if resolved.None? then Answered(p.cmd, Err(NotResolved))
    else if senders.Unresolved? then Answered(p.cmd, Err(BadSender(senders.cause)))
    else if senders.CannotLook? then Answered(p.cmd, Err(Unavailable))
    else if !begun then Answered(p.cmd, Err(Unavailable))
    else Writing(p.cmd, p.ceiling, resolved.value)
  }

  function AfterNote(t: Notes, p: Phase, id: Id, now: Time, db: Db): Phase
    requires p.Writing?
  {
    if !IsValid(p.cmd, now) then Answered(p.cmd, Err(Invalid))
    else if db.Fault? then Answered(p.cmd, Err(Unavailable))
    else if Bearers(t, p.cmd.source, p.cmd.key) != {} then Racing(p.cmd)
    else if id in t then Answered(p.cmd, Err(Unavailable))
    else Noted(p.cmd, id, NewNote(p.cmd, p.ceiling), p.recipients)
  }

  function AfterDeliveries(t: Table, p: Phase, valid: set<Recipient>, ids: seq<Id>, now: Time, written: nat,
                           db: Db): Phase
    requires p.Noted? && |p.recipients| <= |ids|
  {
    var ds := Opened(p.id, p.recipients, p.cmd.senders, ids, now);
    if !MayBeOpened(p.recipients, valid) then Answered(p.cmd, Err(Invalid))
    else if !Insertable(t, ds) || db.Fault? || written != |ds| then Answered(p.cmd, Err(Unavailable))
    else Delivered(p.cmd, p.id, p.note, p.recipients, ds)
  }

  /** The loser of a race answers with the winner, or with the conflict if it cannot be read back. */
  function AfterReadBack(t: Notes, p: Phase, db: Db): Phase
    requires p.Racing?
  {
    var found := FindByKey(t, p.cmd.source, p.cmd.key);
    if db.Fault? || found.None? then Answered(p.cmd, Err(KeyTaken)) else AnswerDuplicate(t, p.cmd, found.value)
  }

  function AfterPublish(p: Phase): Phase
    requires p.Publishing?
  {
    if p.left == [] then Answered(p.cmd, Ok(AnswerFor(p.id, p.note, false))) else p.(left := p.left[1..])
  }

  function Move(s: State, call: nat, p: Phase): State {
    s.(calls := s.calls[call := p])
  }

  function Committed(st: Store, p: Phase): Store
    requires p.Delivered?
  {
    Store(st.notes[p.id := p.note], Insert(st.ds, p.ds))
  }

  function Ids(ds: seq<Entry>): set<Id> {
    set k | 0 <= k < |ds| :: ds[k].id
  }

  function AfterCommit(s: State, call: nat, db: Db): State
    requires call in s.calls && s.calls[call].Delivered?
  {
    var p := s.calls[call];
    var s1 := if db.Applies() then
                s.(store := Committed(s.store, p), wanted := s.wanted[p.id := p.recipients],
                  stored := s.stored + EventsOf(p.note, p.ds))
              else
                s;
    Move(s1, call, if db.Fine? then Publishing(p.cmd, p.id, p.note, p.ds) else Answered(p.cmd, Err(Unavailable)))
  }

  /** An action that is not enabled changes nothing. */
  function Apply(s: State, a: Action): State {
    match a
    case Admit(i, cmd, admitted) =>
      if i in s.calls then s else Move(s, i, AfterAdmit(cmd, admitted))
    case Check(i, db) =>
      if i in s.calls && s.calls[i].Checking? then Move(s, i, AfterCheck(s.store.notes, s.calls[i], db)) else s
    case Prepare(i, resolved, senders, begun) =>
      if i in s.calls && s.calls[i].Preparing? then
        Move(s, i, AfterPrepare(s.calls[i], resolved, senders, begun))
      else
        s
    case WriteNote(i, id, now, db) =>
      if i in s.calls && s.calls[i].Writing? && !MustWaitForNote(s, i, id, s.calls[i].cmd) then
        Move(s, i, AfterNote(s.store.notes, s.calls[i], id, now, db))
      else
        s
    case WriteDeliveries(i, valid, ids, now, written, db) =>
      if i in s.calls && s.calls[i].Noted? && |s.calls[i].recipients| <= |ids| && !MustWaitForDeliveries(s, i, ids) then
        Move(s, i, AfterDeliveries(s.store.ds, s.calls[i], valid, ids, now, written, db))
      else
        s
    case Commit(i, db) =>
      if i in s.calls && s.calls[i].Delivered? then AfterCommit(s, i, db) else s
    case ReadBack(i, db) =>
      if i in s.calls && s.calls[i].Racing? then Move(s, i, AfterReadBack(s.store.notes, s.calls[i], db)) else s
    case Publish(i, heard) =>
      if i in s.calls && s.calls[i].Publishing? then
        var p := s.calls[i];
        var s1 := if p.left != [] && heard then s.(events := s.events + [EventOf(p.note, p.left[0])]) else s;
        Move(s1, i, AfterPublish(p))
      else
        s
    case Purge(gone) => s.(store := Purged(s.store, gone))
  }

  function Run(s: State, acts: seq<Action>): State {
    RunOf(Apply, s, acts)
  }

  function Start(): State {
    State(Store(map[], map[]), map[], [], map[], {})
  }
}
