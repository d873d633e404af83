/**
 * The submitter as written. Left alone it is one of the runs of module Submit, step for step;
 * so whatever holds of every run holds of this program.
 */
module Submitter {
  import opened Basics
  import opened Deliveries
  import opened Submit
  import opened SubmitSafety
  import W = Worker

  /** What the list of identities of a channel reads as; None is a read that failed. */
  type SenderLists = map<string, Option<seq<C.Listed>>>

  /** What the calls of one request answer, and the order in which the map of senders is walked. */
  datatype Answers = Answers(
    admitted: Option<int>, check: Db, resolved: Option<seq<Recipient>>, lists: SenderLists, order: seq<string>,
    begun: bool, id: Id, notedAt: Time, note: Db, valid: set<Recipient>, ids: seq<Id>, openedAt: Time, written: nat,
    deliveries: Db, commit: Db, readBack: Db, heard: seq<bool>)

  /**
   * An id for every delivery, a broker's answer for every publication, and a copy that writes
   * no more than it was given.
   */
  predicate Suffices(cmd: Command, a: Answers) {
    var rs := if a.resolved.Some? then a.resolved.value else [];
    && |a.ids| >= |rs| && |a.heard| > |rs| && a.written <= |rs|
    && (forall c | c in a.order :: c in cmd.senders)
    && (forall c | c in cmd.senders :: c in a.order)
  }

  /** One entry of the senders: an empty name asks for nothing. */
  function Resolve(lists: SenderLists, channel: string, name: string): SenderCheck {
    if name == "" then AllResolve
    else if channel !in lists || lists[channel].None? then CannotLook
    else match C.PickOf(lists[channel].value, name) {
      case Ok(_) => AllResolve
      case Err(cause) => Unresolved(cause)
    }
  }

  /** The first refusal, in the order the senders are walked. */
  function ResolveAll(senders: map<string, string>, lists: SenderLists, order: seq<string>): SenderCheck {
    if order == [] then AllResolve
    else if order[0] !in senders then ResolveAll(senders, lists, order[1..])
    else
      var first := Resolve(lists, order[0], senders[order[0]]);
      if first.AllResolve? then ResolveAll(senders, lists, order[1..]) else first
  }

  /** The actions of one request, in order; the ones that do not come to pass are not enabled. */
  function Script(cmd: Command, a: Answers): seq<Action> {
    [Admit(0, cmd, a.admitted), Check(0, a.check),
     Prepare(0, a.resolved, ResolveAll(cmd.senders, a.lists, a.order), a.begun),
     WriteNote(0, a.id, a.notedAt, a.note),
     WriteDeliveries(0, a.valid, a.ids, a.openedAt, a.written, a.deliveries),
     Commit(0, a.commit), ReadBack(0, a.readBack)]
    + seq(|a.heard|, k requires 0 <= k < |a.heard| => Publish(0, a.heard[k]))
  }

  predicate AreOfCall(acts: seq<Action>, i: nat) {
    forall k :: 0 <= k < |acts| ==> !acts[k].Purge? && acts[k].call == i
  }

  lemma {:induction false} AnsweredIsFinal(s: State, i: nat, acts: seq<Action>)
    requires i in s.calls && s.calls[i].Answered? && AreOfCall(acts, i)
    ensures Run(s, acts) == s
    decreases |acts|
  {
    if acts != [] {
      assert Apply(s, acts[0]) == s;
      AnsweredIsFinal(s, i, acts[1..]);
    }
  }

  lemma OneStep(s: State, acts: seq<Action>, k: nat)
    requires k < |acts|
    ensures Run(s, acts[k..]) == Run(Apply(s, acts[k]), acts[k + 1..])
  {
    assert acts[k..][0] == acts[k] && acts[k..][1..] == acts[k + 1..];
  }

  /** The k-th action takes s to s', or is not enabled. */
  ghost predicate IsAt(s0: State, acts: seq<Action>, s: State, k: nat) {
    k <= |acts| && Run(s0, acts) == Run(s, acts[k..])
  }

  lemma Advance(s0: State, acts: seq<Action>, s: State, k: nat, s': State)
    requires IsAt(s0, acts, s, k) && k < |acts| && Apply(s, acts[k]) == s'
    ensures IsAt(s0, acts, s', k + 1)
  {
    OneStep(s, acts, k);
  }

  lemma Ends(s0: State, cmd: Command, a: Answers, s: State, k: nat)
    requires IsAt(s0, Script(cmd, a), s, k) && 0 in s.calls && s.calls[0].Answered?
    ensures Run(s0, Script(cmd, a)) == s
  {
    AnsweredIsFinal(s, 0, Script(cmd, a)[k..]);
  }

  datatype Wrote = Wrote(store: Store, result: Result<seq<Entry>, Refusal>)

  /** What the transaction of one request comes to. KeyTaken is the conflict. */
  function WriteOf(st: Store, cmd: Command, ceiling: int, rs: seq<Recipient>, a: Answers): Wrote
    requires |rs| <= |a.ids|
  {
    var p := AfterNote(st.notes, Writing(cmd, ceiling, rs), a.id, a.notedAt, a.note);
    if p.Racing? then Wrote(st, Err(KeyTaken))
    else if p.Answered? && p.answer.Err? then Wrote(st, Err(p.answer.error))
    else if !p.Noted? then Wrote(st, Err(Invalid))
    else
      var q := AfterDeliveries(st.ds, p, a.valid, a.ids, a.openedAt, a.written, a.deliveries);
      if !q.Delivered? then Wrote(st, Err(if q.Answered? && q.answer.Err? then q.answer.error else Invalid))
      else Wrote(if a.commit.Applies() then Committed(st, q) else st,
                 if a.commit.Fine? then Ok(q.ds) else Err(Unavailable))
  }

  /** Only the call and the events move. */
  predicate Moves(s: State, s': State, p: Phase, events: seq<Event>) {
    s'.store == s.store && s'.calls == map[0 := p] && s'.events == events
  }

  lemma PublishesOne(s0: State, acts: seq<Action>, s: State, i: nat, cmd: Command, id: Id, n: Note, out: seq<Entry>,
                     k: nat, heard: bool) returns (s': State)
    requires IsAt(s0, acts, s, i) && i < |acts| && acts[i] == Publish(0, heard) && k < |out|
    requires s.calls == map[0 := Publishing(cmd, id, n, out[k..])]
    ensures Moves(s, s', Publishing(cmd, id, n, out[k + 1..]),
                  if heard then s.events + [EventOf(n, out[k])] else s.events)
    ensures IsAt(s0, acts, s', i + 1)
  {
    assert out[k..][1..] == out[k + 1..];
    s' := Apply(s, acts[i]);
    Advance(s0, acts, s, i, s');
  }

  lemma PublishingEnds(s0: State, acts: seq<Action>, s: State, i: nat, cmd: Command, id: Id, n: Note, heard: bool)
    returns (s': State)
    requires IsAt(s0, acts, s, i) && i < |acts| && acts[i] == Publish(0, heard)
    requires s.calls == map[0 := Publishing(cmd, id, n, [])]
    ensures Moves(s, s', Answered(cmd, Ok(AnswerFor(id, n, false))), s.events) && IsAt(s0, acts, s', i + 1)
  {
    s' := Apply(s, acts[i]);
    Advance(s0, acts, s, i, s');
  }

  lemma RacedIsARun(s0: State, cmd: Command, a: Answers, s: State)
    requires IsAt(s0, Script(cmd, a), s, 4) && |a.heard| > 0 && s.calls == map[0 := Racing(cmd)]
    ensures Run(s0, Script(cmd, a)) == Move(s, 0, AfterReadBack(s.store.notes, Racing(cmd), a.readBack))
  {
    var acts := Script(cmd, a);
    Advance(s0, acts, s, 4, s);
    Advance(s0, acts, s, 5, s);
    var s' := Move(s, 0, AfterReadBack(s.store.notes, Racing(cmd), a.readBack));
    Advance(s0, acts, s, 6, s');
    Ends(s0, cmd, a, s', 7);
  }

  lemma WrittenIsAll(st: Store, cmd: Command, ceiling: int, rs: seq<Recipient>, a: Answers)
    requires |rs| <= |a.ids|
    ensures var w := WriteOf(st, cmd, ceiling, rs, a);
            && (w.result.Ok? ==> |w.result.value| == |rs|)
            && (w.result == Err(KeyTaken) ==> w.store == st)
  {
  }

  /** The state once the write is over: refused, lost to another, or about to publish. */
  function AfterWrite(s: State, cmd: Command, a: Answers, n: Note, rs: seq<Recipient>, w: Wrote): State {
    match w.result
    case Err(KeyTaken) => s.(calls := map[0 := Racing(cmd)])
    case Err(e) => s.(calls := map[0 := Answered(cmd, Err(e))], store := w.store)
    case Ok(out) => s.(calls := map[0 := Publishing(cmd, a.id, n, out)], store := w.store)
  }

  ghost predicate SameButHistory(s: State, s': State) {
    s.store == s'.store && s.calls == s'.calls && s.events == s'.events
  }

  lemma NoteIsARun(cmd: Command, a: Answers, ceiling: int, rs: seq<Recipient>, s0: State, s: State)
    requires Suffices(cmd, a) && IsAt(s0, Script(cmd, a), s, 3) && s.calls == map[0 := Writing(cmd, ceiling, rs)]
    ensures var p := AfterNote(s.store.notes, Writing(cmd, ceiling, rs), a.id, a.notedAt, a.note);
            && IsAt(s0, Script(cmd, a), s.(calls := map[0 := p]), 4)
            && (p.Answered? ==> Run(s0, Script(cmd, a)) == s.(calls := map[0 := p]))
  {
    var p := AfterNote(s.store.notes, Writing(cmd, ceiling, rs), a.id, a.notedAt, a.note);
    var s' := s.(calls := map[0 := p]);
    assert !MustWaitForNote(s, 0, a.id, cmd);
    Advance(s0, Script(cmd, a), s, 3, s');
    if p.Answered? {
      Ends(s0, cmd, a, s', 4);
    }
  }

  /** The write is the three steps it is made of, or the ones it came to. */
  lemma WriteIsARun(cmd: Command, a: Answers, ceiling: int, rs: seq<Recipient>, s0: State, s: State) returns (s': State)
    requires Suffices(cmd, a) && a.resolved == Some(rs) && IsAt(s0, Script(cmd, a), s, 3)
    requires s.calls == map[0 := Writing(cmd, ceiling, rs)]
    ensures var w := WriteOf(s.store, cmd, ceiling, rs, a);
            && SameButHistory(s', AfterWrite(s, cmd, a, NewNote(cmd, ceiling), rs, w))
            && (w.result == Err(KeyTaken) ==> IsAt(s0, Script(cmd, a), s', 4))
            && (w.result.Err? && w.result != Err(KeyTaken) ==> Run(s0, Script(cmd, a)) == s')
            && (w.result.Ok? ==> IsAt(s0, Script(cmd, a), s', 6))
  {
    NoteIsARun(cmd, a, ceiling, rs, s0, s);
    var p := AfterNote(s.store.notes, Writing(cmd, ceiling, rs), a.id, a.notedAt, a.note);
    if p.Noted? {
      s' := NotedIsARun(cmd, a, ceiling, rs, s0, s, p);
    } else {
      s' := s.(calls := map[0 := p]);
      assert p.Racing? || (p.Answered? && p.answer.Err? && p.answer.error != KeyTaken);
    }
  }

  lemma NotedIsARun(cmd: Command, a: Answers, ceiling: int, rs: seq<Recipient>, s0: State, s: State, p: Phase)
    returns (s': State)
    requires Suffices(cmd, a) && a.resolved == Some(rs) && p.Noted?
    requires p == AfterNote(s.store.notes, Writing(cmd, ceiling, rs), a.id, a.notedAt, a.note)
    requires IsAt(s0, Script(cmd, a), s.(calls := map[0 := p]), 4)
    ensures var w := WriteOf(s.store, cmd, ceiling, rs, a);
            && SameButHistory(s', AfterWrite(s, cmd, a, NewNote(cmd, ceiling), rs, w))
            && w.result != Err(KeyTaken)
            && (if w.result.Ok? then IsAt(s0, Script(cmd, a), s', 6) else Run(s0, Script(cmd, a)) == s')
  {
    s' := DeliveriesAreARun(cmd, a, rs, s0, s.(calls := map[0 := p]), p);
  }

  lemma DeliveriesAreARun(cmd: Command, a: Answers, rs: seq<Recipient>, s0: State, s: State, p: Phase)
    returns (s': State)
    requires Suffices(cmd, a) && a.resolved == Some(rs) && IsAt(s0, Script(cmd, a), s, 4)
    requires p.Noted? && p.cmd == cmd && p.recipients == rs && s.calls == map[0 := p]
    ensures var q := AfterDeliveries(s.store.ds, p, a.valid, a.ids, a.openedAt, a.written, a.deliveries);
            && (!q.Delivered? ==> s' == s.(calls := map[0 := q]) && Run(s0, Script(cmd, a)) == s')
            && (q.Delivered? ==>
                  && s'.store == (if a.commit.Applies() then Committed(s.store, q) else s.store)
                  && s'.events == s.events
                  && s'.calls == map[0 := AfterAnswer(cmd, q, a.commit)]
                  && if a.commit.Fine? then IsAt(s0, Script(cmd, a), s', 6) else Run(s0, Script(cmd, a)) == s')
  {
    var q := AfterDeliveries(s.store.ds, p, a.valid, a.ids, a.openedAt, a.written, a.deliveries);
    var s1 := s.(calls := map[0 := q]);
    assert !MustWaitForDeliveries(s, 0, a.ids);
    Advance(s0, Script(cmd, a), s, 4, s1);
    if q.Answered? {
      Ends(s0, cmd, a, s1, 5);
      s' := s1;
    } else {
      s' := CommitIsARun(cmd, a, s0, s1, q);
    }
  }

  /** Where the call goes on once the commit has been answered. */
  function AfterAnswer(cmd: Command, q: Phase, commit: Db): Phase
    requires q.Delivered?
  {
    if commit.Fine? then Publishing(cmd, q.id, q.note, q.ds) else Answered(cmd, Err(Unavailable))
  }

  lemma CommitIsARun(cmd: Command, a: Answers, s0: State, s: State, q: Phase) returns (s': State)
    requires IsAt(s0, Script(cmd, a), s, 5) && q.Delivered? && q.cmd == cmd && s.calls == map[0 := q]
    ensures s'.store == (if a.commit.Applies() then Committed(s.store, q) else s.store)
    ensures s'.events == s.events
    ensures s'.calls == map[0 := AfterAnswer(cmd, q, a.commit)]
    ensures if a.commit.Fine? then IsAt(s0, Script(cmd, a), s', 6) else Run(s0, Script(cmd, a)) == s'
  {
    s' := AfterCommit(s, 0, a.commit);
    Advance(s0, Script(cmd, a), s, 5, s');
    if a.commit.Fault? {
      Ends(s0, cmd, a, s', 6);
    }
  }

  // --- what a request comes to -----------------------------------------------

  predicate KeyIsFree(notes: Notes, cmd: Command) {
    cmd.key != "" ==> forall n :: n in notes ==> !(notes[n].source == cmd.source && notes[n].key == cmd.key)
  }

  /** The message is in order, and nothing that is stored is in its way. */
  predicate NoteFits(st: Store, cmd: Command, a: Answers) {
    && cmd.body != "" && 0 <= cmd.priority <= 2 && (cmd.expireAt.Some? ==> a.notedAt < cmd.expireAt.value)
    && a.note.Fine? && KeyIsFree(st.notes, cmd) && a.id !in st.notes
  }

  /**
   * The expiry rule of a request and that of a dispatched message are one: what is let in at a
   * moment is not expired at that moment, and what is kept out for its expiry alone is.
   */
  lemma ValidMeansNotExpired(cmd: Command, now: Time, m: W.Message)
    requires m.expireAt == cmd.expireAt
    ensures IsValid(cmd, now) <==>
            && cmd.body != "" && 0 <= cmd.priority <= 2
            && !(m.expireAt.Some? && m.expireAt.value <= now)
    ensures cmd.body != "" && 0 <= cmd.priority <= 2 ==> (IsValid(cmd, now) <==> !m.IsExpired(now))
  {
  }

  /** Somebody to send to, nobody twice, everybody valid; ids and rows that are new; and a copy that is whole. */
  predicate DeliveriesFit(st: Store, rs: seq<Recipient>, a: Answers)
    requires |rs| <= |a.ids|
  {
    && rs != []
    && (forall i, j :: 0 <= i < j < |rs| ==> rs[i] != rs[j] && a.ids[i] != a.ids[j])
    && (forall k :: 0 <= k < |rs| ==> rs[k] in a.valid && a.ids[k] !in st.ds)
    && (forall d :: d in st.ds && st.ds[d].notification == a.id ==> st.ds[d].recipient !in rs)
    && a.deliveries.Fine? && a.written == |rs|
  }

  predicate Stores(st: Store, cmd: Command, rs: seq<Recipient>, a: Answers)
    requires |rs| <= |a.ids|
  {
    NoteFits(st, cmd, a) && DeliveriesFit(st, rs, a)
  }

  /** The smaller of the priority asked for and the ceiling. */
  function Effective(cmd: Command, ceiling: int): int {
    if cmd.priority <= ceiling then cmd.priority else ceiling
  }

  function NameFor(cmd: Command, channel: string): string {
    if channel in cmd.senders then cmd.senders[channel] else ""
  }

  /** The message, and a row for each recipient, beside everything that was there. */
  ghost predicate IsStored(st: Store, st': Store, cmd: Command, ceiling: int, rs: seq<Recipient>, a: Answers)
    requires |rs| <= |a.ids|
  {
    && st'.notes == st.notes[a.id := Note(cmd.source, cmd.key, cmd.priority, Effective(cmd, ceiling))]
    && (forall d :: d in st'.ds <==> d in st.ds || d in a.ids[..|rs|])
    && (forall d :: d in st.ds ==> st'.ds[d] == st.ds[d])
    && (forall k :: 0 <= k < |rs| ==>
          && a.ids[k] in st'.ds
          && st'.ds[a.ids[k]] == Row(a.id, rs[k], NameFor(cmd, rs[k].channel), PENDING, 0, "", None, "", None, None,
                                     a.openedAt))
  }

  /** What the broker hears from the k-th delivery on: the channel of each, and the message's source and priority. */
  function Published(source: string, priority: int, ids: seq<Id>, rs: seq<Recipient>, heard: seq<bool>,
                     k: nat): seq<Event>
    requires |ids| >= |rs| && |heard| >= |rs|
    decreases |rs| - k
  {
    if k >= |rs| then
      []
    else
      (if heard[k] then [Event(ids[k], source, rs[k].channel, priority)] else [])
      + Published(source, priority, ids, rs, heard, k + 1)
  }

  /** The same, of the rows as they were written. */
  function Heard(n: Note, out: seq<Entry>, heard: seq<bool>, k: nat): seq<Event>
    requires |heard| >= |out|
    decreases |out| - k
  {
    if k >= |out| then [] else (if heard[k] then [EventOf(n, out[k])] else []) + Heard(n, out, heard, k + 1)
  }

  lemma HeardNext(events: seq<Event>, n: Note, out: seq<Entry>, heard: seq<bool>, k: nat)
    requires k < |out| <= |heard|
    ensures events + Heard(n, out, heard, k)
            == (if heard[k] then events + [EventOf(n, out[k])] else events) + Heard(n, out, heard, k + 1)
  {
    if !heard[k] {
      assert [] + Heard(n, out, heard, k + 1) == Heard(n, out, heard, k + 1);
    }
  }

  lemma {:induction false} HeardIs(note: Note, n: Id, rs: seq<Recipient>, senders: map<string, string>, ids: seq<Id>,
                                   now: Time, heard: seq<bool>, k: nat)
    requires |rs| <= |ids| && |rs| <= |heard|
    ensures Heard(note, Opened(n, rs, senders, ids, now), heard, k)
            == Published(note.source, note.effective, ids, rs, heard, k)
    decreases |rs| - k
  {
    if k < |rs| {
      HeardIs(note, n, rs, senders, ids, now, heard, k + 1);
    }
  }

  predicate IsNew(r: Result<Receipt, Refusal>) {
    r.Ok? && !r.value.duplicate
  }

  /** A duplicate is answered with the stored message that has the key, as it was accepted. */
  predicate NamesTheBearer(notes: Notes, cmd: Command, r: Receipt) {
    && cmd.key != "" && r.id in notes
    && var n := notes[r.id];
       && n.source == cmd.source && n.key == cmd.key
       && r.effective == n.effective && (r.downgraded <==> n.effective != n.requested)
  }

  /** From the transaction on. */
  ghost predicate ComesTo(st: Store, events: seq<Event>, st': Store, events': seq<Event>, cmd: Command, ceiling: int,
                          rs: seq<Recipient>, a: Answers, r: Result<Receipt, Refusal>)
    requires |rs| <= |a.ids| && |rs| <= |a.heard|
  {
    && (IsNew(r) <==> Stores(st, cmd, rs, a) && a.commit.Fine?)
    && (IsNew(r) ==>
          && r.value == Receipt(a.id, Effective(cmd, ceiling), cmd.priority > ceiling, false)
          && IsStored(st, st', cmd, ceiling, rs, a)
          && events' == events + Published(cmd.source, Effective(cmd, ceiling), a.ids, rs, a.heard, 0))
    && (r.Ok? && r.value.duplicate ==> st' == st && events' == events && NamesTheBearer(st.notes, cmd, r.value))
    && (r.Err? ==>
          && events' == events
          && (st' == st
              || (a.commit == Fault(true) && Stores(st, cmd, rs, a) && IsStored(st, st', cmd, ceiling, rs, a))))
  }

  lemma OpenedFit(t: Table, cmd: Command, rs: seq<Recipient>, a: Answers)
    requires |rs| <= |a.ids|
    ensures var ds := Opened(a.id, rs, cmd.senders, a.ids, a.openedAt);
            MayBeOpened(rs, a.valid) ==>
              (Insertable(t, ds) <==>
               && (forall i, j :: 0 <= i < j < |rs| ==> a.ids[i] != a.ids[j])
               && (forall k :: 0 <= k < |rs| ==> a.ids[k] !in t)
               && (forall d :: d in t && t[d].notification == a.id ==> t[d].recipient !in rs))
  {
    var ds := Opened(a.id, rs, cmd.senders, a.ids, a.openedAt);
    if Insertable(t, ds) {
      forall i, j | 0 <= i < j < |rs|
        ensures a.ids[i] != a.ids[j]
      {
        assert ds[i].id != ds[j].id;
      }
      forall k | 0 <= k < |rs|
        ensures a.ids[k] !in t
      {
        assert ds[k].id !in t;
      }
      forall d | d in t && t[d].notification == a.id
        ensures t[d].recipient !in rs
      {
        forall k | 0 <= k < |rs|
          ensures rs[k] != t[d].recipient
        {
          assert !SameDelivery(ds[k].row, t[d]);
        }
      }
    }
  }

  lemma OpenedAreListed(n: Id, rs: seq<Recipient>, senders: map<string, string>, ids: seq<Id>, now: Time, d: Id)
    requires |rs| <= |ids|
    ensures Lists(Opened(n, rs, senders, ids, now), d) <==> d in ids[..|rs|]
  {
    var ds := Opened(n, rs, senders, ids, now);
    if d in ids[..|rs|] {
      var k :| 0 <= k < |rs| && ids[..|rs|][k] == d;
      assert ds[k].id == d;
    }
  }

  lemma {:induction false} OpenedAreInserted(t: Table, cmd: Command, rs: seq<Recipient>, a: Answers, k: nat)
    requires k < |rs| <= |a.ids| && Insertable(t, Opened(a.id, rs, cmd.senders, a.ids, a.openedAt))
    ensures var t' := Insert(t, Opened(a.id, rs, cmd.senders, a.ids, a.openedAt));
            && a.ids[k] in t'
            && t'[a.ids[k]] == Row(a.id, rs[k], NameFor(cmd, rs[k].channel), PENDING, 0, "", None, "", None, None,
                                   a.openedAt)
  {
    var ds := Opened(a.id, rs, cmd.senders, a.ids, a.openedAt);
    InsertAdds(t, ds);
    assert ds[k].id == a.ids[k];
  }

  lemma OpenedAreStored(st: Store, q: Phase, cmd: Command, ceiling: int, rs: seq<Recipient>, a: Answers)
    requires |rs| <= |a.ids| && q.Delivered? && q.id == a.id && q.note == NewNote(cmd, ceiling)
    requires q.ds == Opened(a.id, rs, cmd.senders, a.ids, a.openedAt) && Insertable(st.ds, q.ds)
    ensures IsStored(st, Committed(st, q), cmd, ceiling, rs, a)
  {
    var st' := Committed(st, q);
    InsertAdds(st.ds, q.ds);
    forall d
      ensures d in st'.ds <==> d in st.ds || d in a.ids[..|rs|]
    {
      OpenedAreListed(a.id, rs, cmd.senders, a.ids, a.openedAt, d);
    }
    forall k | 0 <= k < |rs|
      ensures a.ids[k] in st'.ds
      ensures st'.ds[a.ids[k]] == Row(a.id, rs[k], NameFor(cmd, rs[k].channel), PENDING, 0, "", None, "", None, None,
                                      a.openedAt)
    {
      OpenedAreInserted(st.ds, cmd, rs, a, k);
    }
  }

  lemma FreeKeyHasNoBearer(notes: Notes, cmd: Command)
    ensures KeyIsFree(notes, cmd) <==> Bearers(notes, cmd.source, cmd.key) == {}
  {
    if Bearers(notes, cmd.source, cmd.key) == {} {
      forall n | n in notes
        ensures cmd.key != "" ==> !(notes[n].source == cmd.source && notes[n].key == cmd.key)
      {
        assert n !in Bearers(notes, cmd.source, cmd.key);
      }
    }
  }

  /** The transaction succeeds exactly when everything fits, and stores all of it or nothing. */
  lemma WriteIs(st: Store, cmd: Command, ceiling: int, rs: seq<Recipient>, a: Answers)
    requires |rs| <= |a.ids|
    ensures var w := WriteOf(st, cmd, ceiling, rs, a);
            && (w.result.Ok? <==> Stores(st, cmd, rs, a) && a.commit.Fine?)
            && (w.result.Ok? ==> w.result.value == Opened(a.id, rs, cmd.senders, a.ids, a.openedAt))
            && (if Stores(st, cmd, rs, a) && a.commit.Applies() then IsStored(st, w.store, cmd, ceiling, rs, a)
                else w.store == st)
            && (w.result == Err(KeyTaken) ==> !Stores(st, cmd, rs, a))
  {
    FreeKeyHasNoBearer(st.notes, cmd);
    OpenedFit(st.ds, cmd, rs, a);
    var p := AfterNote(st.notes, Writing(cmd, ceiling, rs), a.id, a.notedAt, a.note);
    if p.Noted? {
      var q := AfterDeliveries(st.ds, p, a.valid, a.ids, a.openedAt, a.written, a.deliveries);
      if q.Delivered? {
        OpenedAreStored(st, q, cmd, ceiling, rs, a);
      }
    }
  }

  /** The answer after the transaction, and what is published. */
  ghost predicate Concludes(cmd: Command, ceiling: int, a: Answers, notes: Notes, out: Result<seq<Entry>, Refusal>,
                            events: seq<Event>, events': seq<Event>, r: Result<Receipt, Refusal>)
    requires out.Ok? ==> |out.value| <= |a.heard|
  {
    match out
    case Ok(ds) =>
      && r == Ok(AnswerFor(a.id, NewNote(cmd, ceiling), false))
      && events' == events + Heard(NewNote(cmd, ceiling), ds, a.heard, 0)
    case Err(e) =>
      && events' == events
      && (if e == KeyTaken then AfterReadBack(notes, Racing(cmd), a.readBack) == Answered(cmd, r) else r == Err(e))
  }

  lemma ReadBackNamesTheBearer(notes: Notes, cmd: Command, db: Db, r: Result<Receipt, Refusal>)
    requires AfterReadBack(notes, Racing(cmd), db) == Answered(cmd, r)
    ensures r.Ok? ==> r.value.duplicate && NamesTheBearer(notes, cmd, r.value)
  {
    FoundBears(notes, cmd.source, cmd.key);
  }

  lemma ConcludedComesTo(st: Store, events: seq<Event>, events': seq<Event>, cmd: Command, ceiling: int,
                         rs: seq<Recipient>, a: Answers, r: Result<Receipt, Refusal>)
    requires |rs| <= |a.ids| && |rs| <= |a.heard|
    requires var w := WriteOf(st, cmd, ceiling, rs, a);
             && (w.result.Ok? ==> |w.result.value| == |rs|)
             && Concludes(cmd, ceiling, a, w.store.notes, w.result, events, events', r)
    ensures ComesTo(st, events, WriteOf(st, cmd, ceiling, rs, a).store, events', cmd, ceiling, rs, a, r)
  {
    var w := WriteOf(st, cmd, ceiling, rs, a);
    WriteIs(st, cmd, ceiling, rs, a);
    match w.result
    case Ok(_) => HeardIs(NewNote(cmd, ceiling), a.id, rs, cmd.senders, a.ids, a.openedAt, a.heard, 0);
    case Err(KeyTaken) => ReadBackNamesTheBearer(w.store.notes, cmd, a.readBack, r);
    case Err(_) =>
  }

  /** Who to send to and as whom is settled, and the transaction has begun. */
  predicate Prepares(cmd: Command, a: Answers) {
    && a.resolved.Some? && a.begun
    && forall c :: c in cmd.senders ==> Resolve(a.lists, c, cmd.senders[c]).AllResolve?
  }

  lemma PreparingIsARun(cmd: Command, ceiling: int, a: Answers, s0: State, s: State) returns (s': State)
    requires Suffices(cmd, a) && IsAt(s0, Script(cmd, a), s, 2) && s.calls == map[0 := Preparing(cmd, ceiling)]
    ensures var check := ResolveAll(cmd.senders, a.lists, a.order);
            s' == s.(calls := map[0 := AfterPrepare(s.calls[0], a.resolved, check, a.begun)])
    ensures if s'.calls[0].Answered? then Run(s0, Script(cmd, a)) == s' else IsAt(s0, Script(cmd, a), s', 3)
  {
    var check := ResolveAll(cmd.senders, a.lists, a.order);
    s' := s.(calls := map[0 := AfterPrepare(s.calls[0], a.resolved, check, a.begun)]);
    Advance(s0, Script(cmd, a), s, 2, s');
    if s'.calls[0].Answered? {
      Ends(s0, cmd, a, s', 3);
    }
  }

  class Submitter {
    var notes: Notes
    var ds: Table
    var events: seq<Event>

    constructor ()
      ensures notes == map[] && ds == map[] && events == []
    {
      notes, ds, events := map[], map[], [];
    }

    /** The tables, with these calls in progress. */
    ghost function Standing(calls: Calls): State
      reads this
    {
      State(Store(notes, ds), calls, events, map[], {})
    }

    /** What everybody else can see of a state is what is stored here. */
    ghost predicate Agrees(s: State)
      reads this
    {
      s.store == Store(notes, ds) && s.events == events
    }

    method GetByIdempotencyKey(source: string, key: string, db: Db) returns (r: Result<Option<Id>, Refusal>)
      ensures r == if db.Fault? then Err(Unavailable) else Ok(FindByKey(notes, source, key))
    {
      if db.Fault? {
        return Err(Unavailable);
      }
      return Ok(FindByKey(notes, source, key));
    }

    /** Refuses an identity that does not resolve, and tells it from a list that could not be read. */
    method CheckSenders(senders: map<string, string>, lists: SenderLists, order: seq<string>) returns (r: SenderCheck)
      requires forall c :: c in order <==> c in senders
      ensures r == ResolveAll(senders, lists, order)
      ensures r.AllResolve? <==> forall c :: c in senders ==> Resolve(lists, c, senders[c]).AllResolve?
      ensures !r.AllResolve? ==> exists c :: c in senders && Resolve(lists, c, senders[c]) == r
    {
      for k := 0 to |order|
        invariant ResolveAll(senders, lists, order) == ResolveAll(senders, lists, order[k..])
        invariant forall i :: 0 <= i < k ==> Resolve(lists, order[i], senders[order[i]]).AllResolve?
      {
        var c := order[k];
        assert order[k..][0] == c && order[k..][1..] == order[k + 1..];
        if senders[c] == "" {
          continue;
        }
        if c !in lists || lists[c].None? {
          return CannotLook;
        }
        var picked := C.Pick(lists[c].value, senders[c]);
        if picked.Err? {
          return Unresolved(picked.error);
        }
      }
      forall c | c in senders
        ensures Resolve(lists, c, senders[c]).AllResolve?
      {
        var i :| 0 <= i < |order| && order[i] == c;
      }
      return AllResolve;
    }

    /** The transaction: the message, its deliveries, the commit. KeyTaken is the conflict. */
    method Write(cmd: Command, ceiling: int, rs: seq<Recipient>, a: Answers)
      returns (r: Result<seq<Entry>, Refusal>)
      requires |rs| <= |a.ids| && a.written <= |rs|
      modifies this
      ensures Wrote(Store(notes, ds), r) == WriteOf(Store(old(notes), old(ds)), cmd, ceiling, rs, a)
      ensures events == old(events)
    {
      if !IsValid(cmd, a.notedAt) {
        return Err(Invalid);
      }
      if a.note.Fault? {
        return Err(Unavailable);
      }
      if Bearers(notes, cmd.source, cmd.key) != {} {
        return Err(KeyTaken);
      }
      if a.id in notes {
        return Err(Unavailable);
      }
      var set_ := NewSet(a.id, rs, a.valid, cmd.senders, a.ids, a.openedAt);
      if set_.Err? {
        return Err(Invalid);
      }
      if !Insertable(ds, set_.value) || a.deliveries.Fault? || a.written != |set_.value| {
        return Err(Unavailable);
      }
      if a.commit.Applies() {
        notes, ds := notes[a.id := NewNote(cmd, ceiling)], Insert(ds, set_.value);
      }
      return if a.commit.Fine? then Ok(set_.value) else Err(Unavailable);
    }

    /** Publishes what was committed; what the broker does not hear is left to the sweep. */
    method PublishEach(cmd: Command, id: Id, n: Note, out: seq<Entry>, heard: seq<bool>,
                       ghost s0: State, ghost acts: seq<Action>, ghost s: State)
      returns (ghost s': State)
      requires |heard| > |out| && |acts| == 7 + |heard| && IsAt(s0, acts, s, 7) && Agrees(s)
      requires forall k :: 0 <= k < |heard| ==> acts[7 + k] == Publish(0, heard[k])
      requires s.calls == map[0 := Publishing(cmd, id, n, out)]
      modifies this`events
      ensures Agrees(s') && IsAt(s0, acts, s', 8 + |out|)
      ensures s'.calls == map[0 := Answered(cmd, Ok(AnswerFor(id, n, false)))]
      ensures events == old(events) + Heard(n, out, heard, 0)
    {
      s' := s;
      for k := 0 to |out|
        invariant Agrees(s') && IsAt(s0, acts, s', 7 + k)
        invariant s'.calls == map[0 := Publishing(cmd, id, n, out[k..])]
        invariant events + Heard(n, out, heard, k) == old(events) + Heard(n, out, heard, 0)
      {
        HeardNext(events, n, out, heard, k);
        if heard[k] {
          events := events + [EventOf(n, out[k])];
        }
        s' := PublishesOne(s0, acts, s', 7 + k, cmd, id, n, out, k, heard[k]);
      }
      assert out[|out|..] == [];
      s' := PublishingEnds(s0, acts, s', 7 + |out|, cmd, id, n, heard[|out|]);
    }

    /** Reads the winner back, and answers with the conflict when it cannot. */
    method Raced(cmd: Command, db: Db) returns (r: Result<Receipt, Refusal>)
      ensures AfterReadBack(notes, Racing(cmd), db) == Answered(cmd, r)
    {
      var existing := GetByIdempotencyKey(cmd.source, cmd.key, db);
      FoundBears(notes, cmd.source, cmd.key);
      if existing.Err? || existing.value.None? {
        return Err(KeyTaken);
      }
      return Ok(AnswerFor(existing.value.value, notes[existing.value.value], true));
    }

    /** From the end of the transaction on. */
    method Conclude(cmd: Command, ceiling: int, a: Answers, out: Result<seq<Entry>, Refusal>, ghost s0: State,
                    ghost s: State)
      returns (r: Result<Receipt, Refusal>)
      requires Suffices(cmd, a) && Agrees(s)
      requires out == Err(KeyTaken) ==> IsAt(s0, Script(cmd, a), s, 4) && s.calls == map[0 := Racing(cmd)]
      requires out.Err? && out != Err(KeyTaken) ==>
                Run(s0, Script(cmd, a)) == s && s.calls == map[0 := Answered(cmd, Err(out.error))]
      requires out.Ok? ==> IsAt(s0, Script(cmd, a), s, 6) && |out.value| < |a.heard|
                           && s.calls == map[0 := Publishing(cmd, a.id, NewNote(cmd, ceiling), out.value)]
      modifies this`events
      ensures var s' := Run(s0, Script(cmd, a)); Agrees(s') && s'.calls == map[0 := Answered(cmd, r)]
      ensures Concludes(cmd, ceiling, a, notes, out, old(events), events, r)
    {
      if out == Err(KeyTaken) {
        r := Raced(cmd, a.readBack);
        RacedIsARun(s0, cmd, a, s);
        return;
      }
      if out.Err? {
        return Err(out.error);
      }
      ghost var acts := Script(cmd, a);
      Advance(s0, acts, s, 6, s);
      var n := NewNote(cmd, ceiling);
      ghost var s2 := PublishEach(cmd, a.id, n, out.value, a.heard, s0, acts, s);
      Ends(s0, cmd, a, s2, 8 + |out.value|);
      return Ok(AnswerFor(a.id, n, false));
    }

    /** From the transaction on. */
    method AfterPreparing(cmd: Command, ceiling: int, rs: seq<Recipient>, a: Answers, ghost s0: State, ghost s: State)
      returns (r: Result<Receipt, Refusal>)
      requires Suffices(cmd, a) && a.resolved == Some(rs) && IsAt(s0, Script(cmd, a), s, 3)
      requires Agrees(s) && s.calls == map[0 := Writing(cmd, ceiling, rs)]
      modifies this
      ensures var s' := Run(s0, Script(cmd, a)); Agrees(s') && s'.calls == map[0 := Answered(cmd, r)]
      ensures ComesTo(Store(old(notes), old(ds)), old(events), Store(notes, ds), events, cmd, ceiling, rs, a, r)
    {
      ghost var st := Store(notes, ds);
      ghost var s1 := WriteIsARun(cmd, a, ceiling, rs, s0, s);
      WrittenIsAll(s.store, cmd, ceiling, rs, a);
      var out := Write(cmd, ceiling, rs, a);
      r := Conclude(cmd, ceiling, a, out, s0, s1);
      ConcludedComesTo(st, old(events), events, cmd, ceiling, rs, a, r);
    }

    /** From the lookup of the key on: who to send to and as whom, then the transaction. */
    method Prepared(cmd: Command, ceiling: int, a: Answers, ghost s0: State, ghost s: State)
      returns (r: Result<Receipt, Refusal>)
      requires Suffices(cmd, a) && IsAt(s0, Script(cmd, a), s, 2)
      requires Agrees(s) && s.calls == map[0 := Preparing(cmd, ceiling)]
      modifies this
      ensures var s' := Run(s0, Script(cmd, a)); Agrees(s') && s'.calls == map[0 := Answered(cmd, r)]
      ensures Prepares(cmd, a) ==>
                ComesTo(Store(old(notes), old(ds)), old(events), Store(notes, ds), events, cmd, ceiling,
                        a.resolved.value, a, r)
      ensures !Prepares(cmd, a) ==> r.Err? && notes == old(notes) && ds == old(ds) && events == old(events)
    {
      ghost var s1 := PreparingIsARun(cmd, ceiling, a, s0, s);
      if a.resolved.None? {
        return Err(NotResolved);
      }
      var senders := CheckSenders(cmd.senders, a.lists, a.order);
      if senders.Unresolved? {
        return Err(BadSender(senders.cause));
      }
      if senders.CannotLook? {
        return Err(Unavailable);
      }
      if !a.begun {
        return Err(Unavailable);
      }
      r := AfterPreparing(cmd, ceiling, a.resolved.value, a, s0, s1);
    }

    /**
     * Accepts a message, alone: the answer, the tables and the events are those of one run. It
     * is new exactly when the source was admitted, the key is free, and all that has to be
     * looked up, checked and written succeeds; then it goes out with the smaller of its
     * priority and the source's ceiling, and the answer says when that was less than asked for.
     */
    method Submit(cmd: Command, a: Answers) returns (r: Result<Receipt, Refusal>)
      requires Suffices(cmd, a)
      modifies this
      ensures var s := Run(old(Standing(map[])), Script(cmd, a));
              Agrees(s) && s.calls == map[0 := Answered(cmd, r)]
      ensures IsNew(r) <==>
              && a.admitted.Some? && (cmd.key != "" ==> a.check.Fine?) && KeyIsFree(old(notes), cmd) && Prepares(cmd, a)
              && Stores(Store(old(notes), old(ds)), cmd, a.resolved.value, a) && a.commit.Fine?
      ensures IsNew(r) ==>
                var p := a.admitted.value;
                && r.value.id == a.id
                && r.value.effective == (if cmd.priority <= p then cmd.priority else p)
                && (r.value.downgraded <==> cmd.priority > p)
                && a.id in notes && notes[a.id].requested == cmd.priority && notes[a.id].effective == r.value.effective
                && IsStored(Store(old(notes), old(ds)), Store(notes, ds), cmd, p, a.resolved.value, a)
                && events == old(events) + Published(cmd.source, r.value.effective, a.ids, a.resolved.value, a.heard, 0)
      ensures r.Ok? && r.value.duplicate ==>
                && notes == old(notes) && ds == old(ds) && events == old(events)
                && NamesTheBearer(old(notes), cmd, r.value)
      ensures r.Err? ==> events == old(events)
      ensures r.Err? && a.commit != Fault(true) ==> notes == old(notes) && ds == old(ds)
    {
      ghost var s0 := Standing(map[]);
      ghost var acts := Script(cmd, a);
      assert acts[0..] == acts;
      ghost var s := Move(s0, 0, AfterAdmit(cmd, a.admitted));
      Advance(s0, acts, s0, 0, s);
      if a.admitted.None? {
        Ends(s0, cmd, a, s, 1);
        return Err(NotAdmitted);
      }
      if cmd.key != "" {
        var existing := GetByIdempotencyKey(cmd.source, cmd.key, a.check);
        s := Move(s0, 0, AfterCheck(notes, s.calls[0], a.check));
        Advance(s0, acts, Move(s0, 0, AfterAdmit(cmd, a.admitted)), 1, s);
        FoundBears(notes, cmd.source, cmd.key);
        FreeKeyHasNoBearer(notes, cmd);
        if existing.Err? {
          Ends(s0, cmd, a, s, 2);
          return Err(Unavailable);
        }
        if existing.value.Some? {
          Ends(s0, cmd, a, s, 2);
          return Ok(AnswerFor(existing.value.value, notes[existing.value.value], true));
        }
      } else {
        Advance(s0, acts, s, 1, s);
      }
      assert s == Standing(map[0 := Preparing(cmd, a.admitted.value)]);
      r := Prepared(cmd, a.admitted.value, a, s0, s);
    }
  }
}
