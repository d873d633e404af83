/**
 * What holds of every run of module Submit: one message for a key, one answer that is not a
 * duplicate, every answer naming that message; and, with or without purges, a message is
 * stored together with its deliveries or not at all.
 */
module SubmitSafety {
  import opened Basics
  import opened Runs
  import opened Deliveries
  import opened Submit

  // --- open transactions and keys --------------------------------------------

  ghost predicate KeysAreUnique(t: Notes) {
    forall a, b :: a in t && b in t && Bears(t[a], t[b].source, t[b].key) ==> a == b
  }

  predicate IsFor(n: Note, cmd: Command) {
    n.source == cmd.source && n.key == cmd.key
  }

  /** What a transaction that has written a message, and has not ended, relies on. */
  predicate HolderOk(t: Notes, p: Phase) {
    match p
    case Noted(cmd, id, note, _) => id !in t && IsFor(note, cmd) && Bearers(t, cmd.source, cmd.key) == {}
    case Delivered(cmd, id, note, _, _) => id !in t && IsFor(note, cmd) && Bearers(t, cmd.source, cmd.key) == {}
    case Checking(cmd, _) => cmd.key != ""
    case Racing(cmd) => cmd.key != ""
    case _ => true
  }

  /** Two such transactions write other ids and other keys. */
  predicate HoldersApart(p: Phase, q: Phase) {
    Holds(p) && Holds(q) ==> p.id != q.id && !Bears(p.note, q.note.source, q.note.key)
  }

  ghost predicate HoldInv(s: State) {
    && KeysAreUnique(s.store.notes)
    && (forall i :: i in s.calls ==> HolderOk(s.store.notes, s.calls[i]))
    && (forall i, j :: i in s.calls && j in s.calls && i != j ==> HoldersApart(s.calls[i], s.calls[j]))
  }

  /** A step that moves one call and writes nothing. */
  lemma MoveKeepsHold(s: State, s': State, i: nat, p: Phase)
    requires HoldInv(s) && s'.store.notes == s.store.notes && s'.calls == s.calls[i := p]
    requires HolderOk(s.store.notes, p)
    requires forall j :: j in s.calls && j != i ==> HoldersApart(p, s.calls[j])
    ensures HoldInv(s')
  {
  }

  lemma FoundBears(t: Notes, source: string, key: string)
    ensures FindByKey(t, source, key).None? <==> Bearers(t, source, key) == {}
    ensures var id := FindByKey(t, source, key); id.Some? ==> id.value in t && Bears(t[id.value], source, key)
  {
  }

  lemma QuietKeepsHold(s: State, a: Action)
    requires HoldInv(s) && (a.Admit? || a.Check? || a.Prepare? || a.ReadBack? || a.Publish?)
    ensures HoldInv(Apply(s, a))
  {
    var s' := Apply(s, a);
    if s' != s {
      MoveKeepsHold(s, s', a.call, s'.calls[a.call]);
    }
  }

  lemma WriteKeepsHold(s: State, a: Action)
    requires HoldInv(s) && (a.WriteNote? || a.WriteDeliveries?)
    ensures HoldInv(Apply(s, a))
  {
    var s' := Apply(s, a);
    if s' != s {
      var p := s'.calls[a.call];
      forall j | j in s.calls && j != a.call
        ensures HoldersApart(p, s.calls[j])
      {
        assert HoldersApart(s.calls[a.call], s.calls[j]);
        assert HolderOk(s.store.notes, s.calls[j]);
        assert a.WriteNote? && p.Noted? && Holds(s.calls[j]) ==>
                 s.calls[j].id != p.id && !Bears(s.calls[j].note, p.cmd.source, p.cmd.key);
      }
      assert HolderOk(s.store.notes, s.calls[a.call]);
      MoveKeepsHold(s, s', a.call, p);
    }
  }

  /** A commit leaves other open transactions what they rely on, because the index kept their keys apart. */
  lemma CommitLeavesOthers(t: Notes, p: Phase, q: Phase)
    requires p.Delivered? && HolderOk(t, p) && HolderOk(t, q) && HoldersApart(p, q)
    ensures HolderOk(t[p.id := p.note], q)
  {
    var t' := t[p.id := p.note];
    if Holds(q) {
      assert forall x :: x in t' && x != p.id && Bears(t'[x], q.cmd.source, q.cmd.key) ==>
                           x in Bearers(t, q.cmd.source, q.cmd.key);
      assert !Bears(p.note, q.cmd.source, q.cmd.key);
    }
  }

  lemma CommitKeepsUnique(t: Notes, id: Id, n: Note)
    requires KeysAreUnique(t) && id !in t && Bearers(t, n.source, n.key) == {}
    ensures KeysAreUnique(t[id := n])
  {
    forall x | x in t
      ensures !Bears(t[x], n.source, n.key) && !Bears(n, t[x].source, t[x].key)
    {
      assert x in Bearers(t, n.source, n.key) <==> Bears(t[x], n.source, n.key);
    }
  }

  lemma CommitKeepsHold(s: State, a: Action)
    requires HoldInv(s) && a.Commit?
    ensures HoldInv(Apply(s, a))
  {
    var s' := Apply(s, a);
    if a.call in s.calls && s.calls[a.call].Delivered? {
      var p := s.calls[a.call];
      assert HolderOk(s.store.notes, p);
      if a.db.Applies() {
        CommitKeepsUnique(s.store.notes, p.id, p.note);
        forall j | j in s'.calls
          ensures HolderOk(s'.store.notes, s'.calls[j])
        {
          if j != a.call {
            CommitLeavesOthers(s.store.notes, p, s.calls[j]);
          }
        }
      } else {
        MoveKeepsHold(s, s', a.call, s'.calls[a.call]);
      }
    }
  }

  lemma PurgeKeepsHold(s: State, a: Action)
    requires HoldInv(s) && a.Purge?
    ensures HoldInv(Apply(s, a))
  {
    var t, t' := s.store.notes, Apply(s, a).store.notes;
    forall i | i in s.calls
      ensures HolderOk(t', s.calls[i])
    {
      var cmd := s.calls[i].cmd;
      assert Bearers(t', cmd.source, cmd.key) <= Bearers(t, cmd.source, cmd.key);
      assert HolderOk(t, s.calls[i]);
    }
  }

  lemma ApplyKeepsHold(s: State, a: Action)
    requires HoldInv(s)
    ensures HoldInv(Apply(s, a))
  {
    if a.WriteNote? || a.WriteDeliveries? {
      WriteKeepsHold(s, a);
    } else if a.Commit? {
      CommitKeepsHold(s, a);
    } else if a.Purge? {
      PurgeKeepsHold(s, a);
    } else {
      QuietKeepsHold(s, a);
    }
  }

  /** In every run, purges included: keys are unique, and what is being written is in nobody's way. */
  lemma {:induction false} RunKeepsHold(s: State, acts: seq<Action>)
    requires HoldInv(s)
    ensures HoldInv(Run(s, acts))
    decreases |acts|
  {
    if acts != [] {
      ApplyKeepsHold(s, acts[0]);
      RunKeepsHold(Apply(s, acts[0]), acts[1..]);
    }
  }

  // --- one message for a key -------------------------------------------------

  /** The request is for this key of this source. */
  predicate Asks(p: Phase, source: string, key: string) {
    p.cmd.source == source && p.cmd.key == key
  }

  predicate BothAsk(p: Phase, q: Phase, source: string, key: string) {
    Asks(p, source, key) && Asks(q, source, key)
  }

  /** The id a call brought into being, or is about to. */
  function Made(p: Phase): Option<Id> {
    match p
    case Noted(_, id, _, _) => Some(id)
    case Delivered(_, id, _, _, _) => Some(id)
    case Publishing(_, id, _, _) => Some(id)
    case Answered(_, Ok(a)) => if a.duplicate then None else Some(a.id)
    case _ => None
  }

  /** What a call has learnt of the message that has its key. */
  predicate AnswerOk(t: Notes, p: Phase) {
    match p
    case Racing(cmd) => Bearers(t, cmd.source, cmd.key) != {}
    case Publishing(cmd, id, note, _) => id in t && t[id] == note && IsFor(note, cmd)
    case Answered(cmd, Ok(a)) => a.id in t && IsFor(t[a.id], cmd) && a == AnswerFor(a.id, t[a.id], a.duplicate)
    case _ => true
  }

  predicate MadeApart(p: Phase, q: Phase) {
    Made(p).Some? ==> Made(p) != Made(q)
  }

  ghost predicate KeyInv(s: State, source: string, key: string) {
    && HoldInv(s)
    && (forall i :: i in s.calls && Asks(s.calls[i], source, key) ==> AnswerOk(s.store.notes, s.calls[i]))
    && (forall i, j :: i in s.calls && j in s.calls && i != j && BothAsk(s.calls[i], s.calls[j], source, key) ==>
          MadeApart(s.calls[i], s.calls[j]))
  }

  /** This action purges no message that has this key. */
  predicate SparesTheKey(s: State, a: Action, source: string, key: string) {
    a.Purge? ==> a.gone !! Bearers(s.store.notes, source, key)
  }

  predicate AllSpareTheKey(s: State, acts: seq<Action>, source: string, key: string)
    decreases |acts|
  {
    acts != [] ==> SparesTheKey(s, acts[0], source, key) && AllSpareTheKey(Apply(s, acts[0]), acts[1..], source, key)
  }

  /** A step that moves one call and writes nothing. */
  lemma MoveKeepsKey(s: State, s': State, i: nat, p: Phase, source: string, key: string)
    requires KeyInv(s, source, key) && HoldInv(s') && s'.store.notes == s.store.notes && s'.calls == s.calls[i := p]
    requires Asks(p, source, key) ==> AnswerOk(s.store.notes, p)
    requires forall j :: j in s.calls && j != i && Asks(p, source, key) && Asks(s.calls[j], source, key) ==>
               MadeApart(p, s.calls[j])
    ensures KeyInv(s', source, key)
  {
    forall j, k | j in s'.calls && k in s'.calls && j != k && Asks(s'.calls[j], source, key)
                  && Asks(s'.calls[k], source, key)
      ensures MadeApart(s'.calls[j], s'.calls[k])
    {
      assert k == i ==> MadeApart(p, s.calls[j]);
    }
  }

  /** The same, when the call makes no more than it had made. */
  lemma PassKeepsKey(s: State, s': State, i: nat, p: Phase, source: string, key: string)
    requires KeyInv(s, source, key) && HoldInv(s') && s'.store.notes == s.store.notes && s'.calls == s.calls[i := p]
    requires Asks(p, source, key) ==> AnswerOk(s.store.notes, p)
    requires Made(p).Some? ==> i in s.calls && Made(p) == Made(s.calls[i]) && p.cmd == s.calls[i].cmd
    ensures KeyInv(s', source, key)
  {
    forall j | j in s.calls && j != i && Asks(p, source, key) && Asks(s.calls[j], source, key)
      ensures MadeApart(p, s.calls[j])
    {
      assert Made(p).Some? ==> MadeApart(s.calls[i], s.calls[j]);
    }
    MoveKeepsKey(s, s', i, p, source, key);
  }

  /** What is found by a key bears it, so a duplicate is answered truthfully. */
  lemma FoundIsAnswered(t: Notes, p: Phase, db: Db)
    ensures p.Checking? ==> AnswerOk(t, AfterCheck(t, p, db))
    ensures p.Racing? ==> AnswerOk(t, AfterReadBack(t, p, db))
  {
    FoundBears(t, p.cmd.source, p.cmd.key);
  }

  lemma ReadingKeepsKey(s: State, a: Action, source: string, key: string)
    requires KeyInv(s, source, key) && (a.Check? || a.ReadBack?)
    ensures KeyInv(Apply(s, a), source, key)
  {
    var s' := Apply(s, a);
    if s' != s {
      ApplyKeepsHold(s, a);
      var p := s'.calls[a.call];
      FoundIsAnswered(s.store.notes, s.calls[a.call], a.db);
      assert AnswerOk(s.store.notes, p) && Made(p).None?;
      PassKeepsKey(s, s', a.call, p, source, key);
    }
  }

  lemma PreparingKeepsKey(s: State, a: Action, source: string, key: string)
    requires KeyInv(s, source, key) && (a.Admit? || a.Prepare?)
    ensures KeyInv(Apply(s, a), source, key)
  {
    var s' := Apply(s, a);
    if s' != s {
      ApplyKeepsHold(s, a);
      PassKeepsKey(s, s', a.call, s'.calls[a.call], source, key);
    }
  }

  lemma PublishingKeepsKey(s: State, a: Action, source: string, key: string)
    requires KeyInv(s, source, key) && (a.Publish? || a.WriteDeliveries?)
    ensures KeyInv(Apply(s, a), source, key)
  {
    var s' := Apply(s, a);
    if s' != s {
      ApplyKeepsHold(s, a);
      assert Asks(s.calls[a.call], source, key) ==> AnswerOk(s.store.notes, s.calls[a.call]);
      PassKeepsKey(s, s', a.call, s'.calls[a.call], source, key);
    }
  }

  lemma WriteNoteKeepsKey(s: State, a: Action, source: string, key: string)
    requires KeyInv(s, source, key) && a.WriteNote?
    ensures KeyInv(Apply(s, a), source, key)
  {
    var s' := Apply(s, a);
    if s' != s {
      ApplyKeepsHold(s, a);
      var p := s'.calls[a.call];
      if p.Noted? {
        forall j | j in s.calls && j != a.call && Asks(s.calls[j], source, key)
          ensures MadeApart(p, s.calls[j])
        {
          assert AnswerOk(s.store.notes, s.calls[j]);
          assert Holds(s.calls[j]) ==> s.calls[j].id != p.id;
        }
        MoveKeepsKey(s, s', a.call, p, source, key);
      } else {
        PassKeepsKey(s, s', a.call, p, source, key);
      }
    }
  }

  lemma CommitKeepsKey(s: State, a: Action, source: string, key: string)
    requires KeyInv(s, source, key) && a.Commit?
    ensures KeyInv(Apply(s, a), source, key)
  {
    ApplyKeepsHold(s, a);
    if a.call in s.calls && s.calls[a.call].Delivered? {
      assert HolderOk(s.store.notes, s.calls[a.call]);
      CommittedKeepsKey(s, Apply(s, a), a.call, source, key);
    }
  }

  /** Whether or not the commit was applied: the messages grew at most, and the call made no more than it had. */
  lemma CommittedKeepsKey(s: State, s': State, i: nat, source: string, key: string)
    requires KeyInv(s, source, key) && HoldInv(s') && i in s.calls && i in s'.calls
    requires s'.calls == s.calls[i := s'.calls[i]] && s'.calls[i].cmd == s.calls[i].cmd
    requires AnswerOk(s'.store.notes, s'.calls[i])
    requires Made(s'.calls[i]).Some? ==> Made(s'.calls[i]) == Made(s.calls[i])
    requires forall x :: x in s.store.notes ==> x in s'.store.notes && s'.store.notes[x] == s.store.notes[x]
    ensures KeyInv(s', source, key)
  {
    forall j | j in s'.calls && Asks(s'.calls[j], source, key)
      ensures AnswerOk(s'.store.notes, s'.calls[j])
    {
      if j != i {
        MoreKeepsAnswer(s.store.notes, s'.store.notes, s.calls[j]);
      }
    }
    forall j, k | j in s'.calls && k in s'.calls && j != k && BothAsk(s'.calls[j], s'.calls[k], source, key)
      ensures MadeApart(s'.calls[j], s'.calls[k])
    {
      assert MadeApart(s.calls[j], s.calls[k]);
    }
  }

  /** What a call has learnt stays true when messages are added. */
  lemma MoreKeepsAnswer(t: Notes, t': Notes, p: Phase)
    requires AnswerOk(t, p) && forall x :: x in t ==> x in t' && t'[x] == t[x]
    ensures AnswerOk(t', p)
  {
    if p.Racing? {
      var x :| x in Bearers(t, p.cmd.source, p.cmd.key);
      assert x in Bearers(t', p.cmd.source, p.cmd.key);
    }
  }

  lemma PurgeKeepsKey(s: State, a: Action, source: string, key: string)
    requires KeyInv(s, source, key) && a.Purge? && key != "" && SparesTheKey(s, a, source, key)
    ensures KeyInv(Apply(s, a), source, key)
  {
    ApplyKeepsHold(s, a);
    var t, t' := s.store.notes, Apply(s, a).store.notes;
    assert Bearers(t', source, key) == Bearers(t, source, key);
    forall i | i in s.calls && Asks(s.calls[i], source, key)
      ensures AnswerOk(t', s.calls[i])
    {
      assert AnswerOk(t, s.calls[i]);
      assert forall x :: x in t && Bears(t[x], source, key) ==> x in Bearers(t, source, key);
    }
  }

  lemma ApplyKeepsKey(s: State, a: Action, source: string, key: string)
    requires KeyInv(s, source, key) && key != "" && SparesTheKey(s, a, source, key)
    ensures KeyInv(Apply(s, a), source, key)
  {
    if a.WriteNote? {
      WriteNoteKeepsKey(s, a, source, key);
    } else if a.Commit? {
      CommitKeepsKey(s, a, source, key);
    } else if a.Purge? {
      PurgeKeepsKey(s, a, source, key);
    } else if a.Publish? || a.WriteDeliveries? {
      PublishingKeepsKey(s, a, source, key);
    } else if a.Check? || a.ReadBack? {
      ReadingKeepsKey(s, a, source, key);
    } else {
      PreparingKeepsKey(s, a, source, key);
    }
  }

  lemma {:induction false} RunKeepsKey(s: State, acts: seq<Action>, source: string, key: string)
    requires KeyInv(s, source, key) && key != "" && AllSpareTheKey(s, acts, source, key)
    ensures KeyInv(Run(s, acts), source, key)
    decreases |acts|
  {
    if acts != [] {
      ApplyKeepsKey(s, acts[0], source, key);
      RunKeepsKey(Apply(s, acts[0]), acts[1..], source, key);
    }
  }

  predicate AnsweredFor(p: Phase, source: string, key: string) {
    p.Answered? && p.answer.Ok? && Asks(p, source, key)
  }

  /** Answered, and not as a duplicate. */
  predicate TookIt(p: Phase, source: string, key: string) {
    AnsweredFor(p, source, key) && !p.answer.value.duplicate
  }

  predicate BothTookIt(s: State, i: nat, j: nat, source: string, key: string)
    requires i in s.calls && j in s.calls
  {
    TookIt(s.calls[i], source, key) && TookIt(s.calls[j], source, key)
  }

  /**
   * However many requests with one key race and retry, and whatever else is purged: at most
   * one message is committed for it, every answer that succeeds names that message,
   * truthfully, and at most one of them says it is not a duplicate.
   */
  lemma {:induction false} OneMessagePerKey(acts: seq<Action>, source: string, key: string)
    requires key != "" && AllSpareTheKey(Start(), acts, source, key)
    ensures var s := Run(Start(), acts);
            var bearers := Bearers(s.store.notes, source, key);
            && (forall a, b :: a in bearers && b in bearers ==> a == b)
            && (forall i :: i in s.calls && AnsweredFor(s.calls[i], source, key) ==>
                  var r := s.calls[i].answer.value;
                  && r.id in bearers && r.effective == s.store.notes[r.id].effective
                  && (r.downgraded <==> s.store.notes[r.id].effective != s.store.notes[r.id].requested))
            && (forall i, j :: i in s.calls && j in s.calls && BothTookIt(s, i, j, source, key) ==> i == j)
  {
    RunKeepsKey(Start(), acts, source, key);
    var s := Run(Start(), acts);
    forall i, j | i in s.calls && j in s.calls && BothTookIt(s, i, j, source, key)
      ensures i == j
    {
      assert AnswerOk(s.store.notes, s.calls[i]) && AnswerOk(s.store.notes, s.calls[j]);
      assert MadeApart(s.calls[i], s.calls[j]) || i == j;
    }
  }

  /** The loser of a race reads the winner back, whatever happened since: it is never told less than that. */
  lemma {:induction false} LoserFindsTheWinner(acts: seq<Action>, i: nat)
    requires i in Run(Start(), acts).calls && Run(Start(), acts).calls[i].Racing?
    requires var cmd := Run(Start(), acts).calls[i].cmd; AllSpareTheKey(Start(), acts, cmd.source, cmd.key)
    ensures var s := Run(Start(), acts);
            var s' := Apply(s, ReadBack(i, Fine));
            && AnsweredFor(s'.calls[i], s.calls[i].cmd.source, s.calls[i].cmd.key)
            && s'.calls[i].answer.value.duplicate
            && Bearers(s.store.notes, s.calls[i].cmd.source, s.calls[i].cmd.key) == {s'.calls[i].answer.value.id}
  {
    RunKeepsHold(Start(), acts);
    var s := Run(Start(), acts);
    var cmd := s.calls[i].cmd;
    assert HolderOk(s.store.notes, s.calls[i]);
    RunKeepsKey(Start(), acts, cmd.source, cmd.key);
    FoundBears(s.store.notes, cmd.source, cmd.key);
    var id := FindByKey(s.store.notes, cmd.source, cmd.key).value;
    assert Bearers(s.store.notes, cmd.source, cmd.key) == {id};
  }

  /** No read back of a call for this key fails. */
  predicate ReadsBack(s: State, a: Action, source: string, key: string) {
    a.ReadBack? && a.call in s.calls && Asks(s.calls[a.call], source, key) ==> a.db.Fine?
  }

  predicate AllReadBack(s: State, acts: seq<Action>, source: string, key: string)
    decreases |acts|
  {
    acts != [] ==> ReadsBack(s, acts[0], source, key) && AllReadBack(Apply(s, acts[0]), acts[1..], source, key)
  }

  predicate NobodyRefused(calls: Calls, source: string, key: string) {
    forall i :: i in calls && calls[i].Answered? && Asks(calls[i], source, key) ==> calls[i].answer != Err(KeyTaken)
  }

  /** Who reads back finds a bearer, if the read does not fail. */
  lemma ReadBackRefusesNobody(s: State, i: nat, db: Db, source: string, key: string)
    requires KeyInv(s, source, key) && NobodyRefused(s.calls, source, key) && ReadsBack(s, ReadBack(i, db), source, key)
    ensures NobodyRefused(Apply(s, ReadBack(i, db)).calls, source, key)
  {
    if i in s.calls {
      var p := s.calls[i];
      assert Asks(p, source, key) ==> AnswerOk(s.store.notes, p);
      FoundBears(s.store.notes, p.cmd.source, p.cmd.key);
    }
  }

  lemma NextRefusesNobody(s: State, a: Action, source: string, key: string)
    requires KeyInv(s, source, key) && NobodyRefused(s.calls, source, key) && ReadsBack(s, a, source, key)
    ensures NobodyRefused(Apply(s, a).calls, source, key)
  {
    if a.ReadBack? {
      ReadBackRefusesNobody(s, a.call, a.db, source, key);
    }
  }

  /** A used key is never an error: only a read back that failed leaves the caller with the conflict. */
  lemma {:induction false} RetriesAreNotRefused(s: State, acts: seq<Action>, source: string, key: string)
    requires KeyInv(s, source, key) && NobodyRefused(s.calls, source, key) && key != ""
    requires AllSpareTheKey(s, acts, source, key) && AllReadBack(s, acts, source, key)
    ensures NobodyRefused(Run(s, acts).calls, source, key)
    decreases |acts|
  {
    if acts != [] {
      NextRefusesNobody(s, acts[0], source, key);
      ApplyKeepsKey(s, acts[0], source, key);
      RetriesAreNotRefused(Apply(s, acts[0]), acts[1..], source, key);
    }
  }

  // --- what it takes to be accepted twice ------------------------------------

  /** The call is past its commit, and the commit was acknowledged. */
  predicate IsPastCommit(p: Phase, source: string, key: string) {
    (p.Publishing? && Asks(p, source, key)) || TookIt(p, source, key)
  }

  lemma SparedKeyStays(s: State, a: Action, source: string, key: string)
    requires HoldInv(s) && Bearers(s.store.notes, source, key) != {} && SparesTheKey(s, a, source, key)
    ensures Bearers(Apply(s, a).store.notes, source, key) != {}
  {
    var x :| x in Bearers(s.store.notes, source, key);
    if a.Commit? && a.call in s.calls && s.calls[a.call].Delivered? {
      assert HolderOk(s.store.notes, s.calls[a.call]);
    }
    assert x in Bearers(Apply(s, a).store.notes, source, key);
  }

  /** An open transaction for a key that a message has cannot be there to commit. */
  lemma CommitTakesNothing(s: State, i: nat, db: Db, source: string, key: string, j: nat)
    requires HoldInv(s) && Bearers(s.store.notes, source, key) != {}
    requires j in s.calls ==> !IsPastCommit(s.calls[j], source, key)
    ensures var s' := Apply(s, Commit(i, db)); j in s'.calls ==> !IsPastCommit(s'.calls[j], source, key)
  {
    if i in s.calls && s.calls[i].Delivered? {
      assert HolderOk(s.store.notes, s.calls[i]);
    }
  }

  lemma NextTakesNothing(s: State, a: Action, source: string, key: string, j: nat)
    requires HoldInv(s) && key != "" && Bearers(s.store.notes, source, key) != {} && SparesTheKey(s, a, source, key)
    requires j in s.calls ==> !IsPastCommit(s.calls[j], source, key)
    ensures var s' := Apply(s, a);
            && Bearers(s'.store.notes, source, key) != {}
            && (j in s'.calls ==> !IsPastCommit(s'.calls[j], source, key))
  {
    SparedKeyStays(s, a, source, key);
    if a.Commit? {
      CommitTakesNothing(s, a.call, a.db, source, key, j);
    }
  }

  lemma {:induction false} SparingTakesNothing(s: State, acts: seq<Action>, source: string, key: string, j: nat)
    requires HoldInv(s) && key != "" && Bearers(s.store.notes, source, key) != {}
    requires AllSpareTheKey(s, acts, source, key)
    requires j in s.calls ==> !IsPastCommit(s.calls[j], source, key)
    ensures var s' := Run(s, acts); j in s'.calls ==> !IsPastCommit(s'.calls[j], source, key)
    decreases |acts|
  {
    if acts != [] {
      NextTakesNothing(s, acts[0], source, key, j);
      ApplyKeepsHold(s, acts[0]);
      SparingTakesNothing(Apply(s, acts[0]), acts[1..], source, key, j);
    }
  }

  /**
   * After any run, purges included, and once a message has the key: a call that was not past
   * its own commit by then is answered as new only if that very message is purged first.
   */
  lemma {:induction false} SecondAcceptanceNeedsItsPurge(acts: seq<Action>, more: seq<Action>, source: string,
                                                         key: string, j: nat)
    requires var s := Run(Start(), acts);
             && key != "" && Bearers(s.store.notes, source, key) != {}
             && (j in s.calls ==> !IsPastCommit(s.calls[j], source, key))
    ensures var s := Run(Start(), acts);
            var s' := Run(s, more);
            j in s'.calls && TookIt(s'.calls[j], source, key) ==> !AllSpareTheKey(s, more, source, key)
  {
    var s := Run(Start(), acts);
    RunKeepsHold(Start(), acts);
    if AllSpareTheKey(s, more, source, key) {
      SparingTakesNothing(s, more, source, key, j);
    }
  }

  // --- what a purge takes away -----------------------------------------------

  /** One whole request that wins its key. */
  function Whole(i: nat, cmd: Command, id: Id, r: Recipient): seq<Action> {
    [Admit(i, cmd, Some(0)), Check(i, Fine), Prepare(i, Some([r]), AllResolve, true), WriteNote(i, id, 0, Fine),
     WriteDeliveries(i, {r}, [id], 0, 1, Fine), Commit(i, Fine), Publish(i, true), Publish(i, true)]
  }

  predicate AllAnswered(calls: Calls) {
    forall j :: j in calls ==> calls[j].Answered?
  }

  lemma WholeUpToTheWrite(s: State, i: nat, cmd: Command, id: Id, r: Recipient)
    requires AllAnswered(s.calls) && i !in s.calls && id !in s.store.notes
    requires cmd.key != "" && IsValid(cmd, 0) && Bearers(s.store.notes, cmd.source, cmd.key) == {}
    ensures Run(s, Whole(i, cmd, id, r)[..4]) == Move(s, i, Noted(cmd, id, NewNote(cmd, 0), [r]))
  {
    var acts := Whole(i, cmd, id, r)[..4];
    var s1 := Apply(s, acts[0]);
    var s2 := Apply(s1, acts[1]);
    var s3 := Apply(s2, acts[2]);
    var s4 := Apply(s3, acts[3]);
    assert s3.calls[i] == Writing(cmd, 0, [r]);
    assert s4.calls == s.calls[i := Noted(cmd, id, NewNote(cmd, 0), [r])];
    FourSteps(s, acts);
  }

  function OneEntry(cmd: Command, id: Id, r: Recipient): Entry {
    Entry(id, NewRow(id, r, SenderFor(cmd.senders, r.channel), 0))
  }

  lemma {:induction false} OneIsOpened(t: Table, cmd: Command, id: Id, r: Recipient)
    requires id !in t && forall d :: d in t ==> t[d].notification != id
    ensures Opened(id, [r], cmd.senders, [id], 0) == [OneEntry(cmd, id, r)] && MayBeOpened([r], {r})
    ensures Insertable(t, [OneEntry(cmd, id, r)])
    ensures Insert(t, [OneEntry(cmd, id, r)]) == t[id := OneEntry(cmd, id, r).row]
  {
    var ds := [OneEntry(cmd, id, r)];
    assert ds[1..] == [];
    assert Insert(t, []) == t;
  }

  lemma DeliveriesGetWritten(s: State, i: nat, cmd: Command, id: Id, r: Recipient)
    requires i in s.calls && s.calls[i] == Noted(cmd, id, NewNote(cmd, 0), [r])
    requires forall j :: j in s.calls && j != i ==> s.calls[j].Answered?
    requires id !in s.store.ds && forall d :: d in s.store.ds ==> s.store.ds[d].notification != id
    ensures Apply(s, WriteDeliveries(i, {r}, [id], 0, 1, Fine))
            == Move(s, i, Delivered(cmd, id, NewNote(cmd, 0), [r], [OneEntry(cmd, id, r)]))
  {
    OneIsOpened(s.store.ds, cmd, id, r);
    assert !MustWaitForDeliveries(s, i, [id]);
  }

  lemma CommitAndPublish(s: State, i: nat, cmd: Command, id: Id, n: Note, r: Recipient)
    requires i in s.calls && s.calls[i] == Delivered(cmd, id, n, [r], [OneEntry(cmd, id, r)])
    ensures var s' := Apply(Apply(Apply(s, Commit(i, Fine)), Publish(i, true)), Publish(i, true));
            && s'.store == Committed(s.store, s.calls[i])
            && s'.calls == s.calls[i := Answered(cmd, Ok(AnswerFor(id, n, false)))]
  {
    assert [OneEntry(cmd, id, r)][1..] == [];
  }

  lemma WholeFromTheWrite(s: State, i: nat, cmd: Command, id: Id, r: Recipient)
    requires i in s.calls && s.calls[i] == Noted(cmd, id, NewNote(cmd, 0), [r])
    requires forall j :: j in s.calls && j != i ==> s.calls[j].Answered?
    requires id !in s.store.ds && forall d :: d in s.store.ds ==> s.store.ds[d].notification != id
    ensures var s' := Run(s, Whole(i, cmd, id, r)[4..]);
            && s'.store.notes == s.store.notes[id := NewNote(cmd, 0)]
            && s'.store.ds == s.store.ds[id := NewRow(id, r, SenderFor(cmd.senders, r.channel), 0)]
            && s'.calls == s.calls[i := Answered(cmd, Ok(AnswerFor(id, NewNote(cmd, 0), false)))]
  {
    DeliveriesGetWritten(s, i, cmd, id, r);
    var s1 := Apply(s, WriteDeliveries(i, {r}, [id], 0, 1, Fine));
    CommitAndPublish(s1, i, cmd, id, NewNote(cmd, 0), r);
    OneIsOpened(s.store.ds, cmd, id, r);
    FourSteps(s, Whole(i, cmd, id, r)[4..]);
  }

  lemma FourSteps(s: State, acts: seq<Action>)
    requires |acts| == 4
    ensures Run(s, acts) == Apply(Apply(Apply(Apply(s, acts[0]), acts[1]), acts[2]), acts[3])
  {
    RunInParts(Apply, s, acts[..1], acts[1..]);
    RunInParts(Apply, Run(s, acts[..1]), acts[1..2], acts[2..]);
    RunInParts(Apply, Run(Run(s, acts[..1]), acts[1..2]), acts[2..3], acts[3..]);
    assert acts == acts[..1] + acts[1..] && acts[1..] == acts[1..2] + acts[2..] && acts[2..] == acts[2..3] + acts[3..];
    assert acts[..1] == [acts[0]] && acts[1..2] == [acts[1]] && acts[2..3] == [acts[2]] && acts[3..] == [acts[3]];
  }

  lemma WholeWins(s: State, i: nat, cmd: Command, id: Id, r: Recipient)
    requires AllAnswered(s.calls) && i !in s.calls && id !in s.store.notes
    requires cmd.key != "" && IsValid(cmd, 0) && Bearers(s.store.notes, cmd.source, cmd.key) == {}
    requires id !in s.store.ds && forall d :: d in s.store.ds ==> s.store.ds[d].notification != id
    ensures var s' := Run(s, Whole(i, cmd, id, r));
            && s'.store.notes == s.store.notes[id := NewNote(cmd, 0)]
            && s'.store.ds == s.store.ds[id := NewRow(id, r, SenderFor(cmd.senders, r.channel), 0)]
            && s'.calls == s.calls[i := Answered(cmd, Ok(AnswerFor(id, NewNote(cmd, 0), false)))]
  {
    var acts := Whole(i, cmd, id, r);
    WholeUpToTheWrite(s, i, cmd, id, r);
    WholeFromTheWrite(Run(s, acts[..4]), i, cmd, id, r);
    RunInParts(Apply, s, acts[..4], acts[4..]);
    assert acts[..4] + acts[4..] == acts;
  }

  /**
   * A purge ends the promise: for any request with a key there is a run in which the same
   * request, sent again after the message was purged, is accepted as new.
   */
  lemma PurgeForgetsTheKey(cmd: Command, r: Recipient)
    requires cmd.key != "" && IsValid(cmd, 0)
    ensures var s := Run(Start(), Whole(0, cmd, 1, r) + [Purge({1})] + Whole(1, cmd, 2, r));
            && 0 in s.calls && TookIt(s.calls[0], cmd.source, cmd.key) && s.calls[0].answer.value.id == 1
            && 1 in s.calls && TookIt(s.calls[1], cmd.source, cmd.key) && s.calls[1].answer.value.id == 2
  {
    var first := Whole(0, cmd, 1, r);
    RunInParts(Apply, Start(), first + [Purge({1})], Whole(1, cmd, 2, r));
    RunInParts(Apply, Start(), first, [Purge({1})]);
    WholeWins(Start(), 0, cmd, 1, r);
    var s1 := Run(Start(), first);
    var s2 := Apply(s1, Purge({1}));
    assert Run(s1, [Purge({1})]) == s2;
    assert s2.store.notes == map[] && s2.store.ds == map[];
    WholeWins(s2, 1, cmd, 2, r);
  }

  // --- a message is stored whole ---------------------------------------------

  predicate GoesTo(t: Table, d: Id, n: Id, r: Recipient) {
    d in t && t[d].notification == n && t[d].recipient == r
  }

  ghost predicate IsReached(t: Table, n: Id, r: Recipient) {
    exists d :: GoesTo(t, d, n, r)
  }

  ghost predicate NoneTwice(t: Table, n: Id) {
    forall d, e :: d in t && e in t && t[d].notification == n && SameDelivery(t[d], t[e]) ==> d == e
  }

  /** One row for each recipient the message was accepted for, opened and not yet tried, and no other. */
  ghost predicate OneForEach(t: Table, n: Id, rs: seq<Recipient>) {
    && NoRepeats(rs)
    && (forall r :: r in rs ==> IsReached(t, n, r))
    && (forall d :: d in t && t[d].notification == n ==> t[d].recipient in rs && t[d].status == PENDING)
    && NoneTwice(t, n)
  }

  predicate NoOrphans(t: Table, notes: set<Id>) {
    forall d :: d in t ==> t[d].notification in notes
  }

  ghost predicate AllWhole(t: Table, notes: set<Id>, wanted: map<Id, seq<Recipient>>) {
    forall n :: n in notes ==> n in wanted && OneForEach(t, n, wanted[n])
  }

  ghost predicate StoreOk(st: Store, wanted: map<Id, seq<Recipient>>) {
    NoOrphans(st.ds, st.notes.Keys) && AllWhole(st.ds, st.notes.Keys, wanted)
  }

  /** The deliveries a transaction has written: one opened row per recipient, in order. */
  predicate WrittenFor(ds: seq<Entry>, n: Id, rs: seq<Recipient>) {
    && |ds| == |rs| && NoRepeats(rs)
    && forall k :: 0 <= k < |ds| ==>
      ds[k].row.notification == n && ds[k].row.recipient == rs[k] && ds[k].row.status == PENDING
  }

  predicate CallFits(s: State, p: Phase) {
    match p
    case Noted(_, id, _, _) => id !in s.store.notes
    case Delivered(_, id, _, rs, ds) => id !in s.store.notes && WrittenFor(ds, id, rs) && Insertable(s.store.ds, ds)
    case Publishing(_, _, note, left) => forall k :: 0 <= k < |left| ==> EventOf(note, left[k]) in s.stored
    case _ => true
  }

  /** Two open transactions touch different rows. */
  predicate Disjoint(p: Phase, q: Phase) {
    && (Holds(p) && Holds(q) ==> p.id != q.id)
    && (p.Delivered? && q.Delivered? ==> Ids(p.ds) !! Ids(q.ds))
  }

  /** The history has what is true of every stored delivery. */
  predicate AllOnRecord(st: Store, stored: set<Event>) {
    forall d :: d in st.ds && st.ds[d].notification in st.notes ==>
      EventOf(st.notes[st.ds[d].notification], Entry(d, st.ds[d])) in stored
  }

  ghost predicate WholeInv(s: State) {
    && StoreOk(s.store, s.wanted)
    && AllOnRecord(s.store, s.stored)
    && (forall i :: i in s.calls ==> CallFits(s, s.calls[i]))
    && (forall i, j :: i in s.calls && j in s.calls && i != j ==> Disjoint(s.calls[i], s.calls[j]))
    && (forall k :: 0 <= k < |s.events| ==> s.events[k] in s.stored)
  }

  lemma MoveKeepsWhole(s: State, s': State, i: nat, p: Phase)
    requires WholeInv(s) && s'.store == s.store && s'.wanted == s.wanted && s'.stored == s.stored
    requires s'.calls == s.calls[i := p] && CallFits(s, p)
    requires forall j :: j in s.calls && j != i ==> Disjoint(p, s.calls[j])
    requires forall k :: 0 <= k < |s'.events| ==> s'.events[k] in s.stored
    ensures WholeInv(s')
  {
    forall j | j in s'.calls
      ensures CallFits(s', s'.calls[j])
    {
      assert j != i ==> CallFits(s, s.calls[j]);
    }
  }

  lemma ReadingKeepsWhole(s: State, a: Action)
    requires WholeInv(s) && (a.Admit? || a.Check? || a.Prepare? || a.ReadBack?)
    ensures WholeInv(Apply(s, a))
  {
    var s' := Apply(s, a);
    if s' != s {
      MoveKeepsWhole(s, s', a.call, s'.calls[a.call]);
    }
  }

  lemma WriteNoteKeepsWhole(s: State, a: Action)
    requires WholeInv(s) && a.WriteNote?
    ensures WholeInv(Apply(s, a))
  {
    var s' := Apply(s, a);
    if s' != s {
      var p := s'.calls[a.call];
      forall j | j in s.calls && j != a.call
        ensures Disjoint(p, s.calls[j])
      {
        assert p.Noted? && Holds(s.calls[j]) ==> s.calls[j].id != p.id;
      }
      MoveKeepsWhole(s, s', a.call, p);
    }
  }

  lemma OpenedIsWritten(n: Id, rs: seq<Recipient>, senders: map<string, string>, ids: seq<Id>, now: Time)
    requires |rs| <= |ids| && NoRepeats(rs)
    ensures WrittenFor(Opened(n, rs, senders, ids, now), n, rs)
    ensures forall k :: 0 <= k < |rs| ==> Opened(n, rs, senders, ids, now)[k].id in ids
  {
  }

  lemma WriteDeliveriesKeepsWhole(s: State, a: Action)
    requires WholeInv(s) && a.WriteDeliveries?
    ensures WholeInv(Apply(s, a))
  {
    var s' := Apply(s, a);
    if s' != s {
      var was, p := s.calls[a.call], s'.calls[a.call];
      assert CallFits(s, was);
      if p.Delivered? {
        OpenedIsWritten(was.id, was.recipients, was.cmd.senders, a.ids, a.now);
      }
      forall j | j in s.calls && j != a.call
        ensures Disjoint(p, s.calls[j])
      {
        assert Disjoint(was, s.calls[j]);
      }
      MoveKeepsWhole(s, s', a.call, p);
    }
  }

  lemma PublishKeepsWhole(s: State, a: Action)
    requires WholeInv(s) && a.Publish?
    ensures WholeInv(Apply(s, a))
  {
    var s' := Apply(s, a);
    if s' != s {
      assert CallFits(s, s.calls[a.call]);
      MoveKeepsWhole(s, s', a.call, s'.calls[a.call]);
    }
  }

  /** A row that was not there is one of the rows written. */
  lemma {:induction false} InsertedAt(t: Table, ds: seq<Entry>, n: Id, rs: seq<Recipient>, d: Id)
    requires WrittenFor(ds, n, rs) && Insertable(t, ds) && d in Insert(t, ds) && d !in t
    ensures exists k :: 0 <= k < |ds| && ds[k].id == d && Insert(t, ds)[d] == ds[k].row
    ensures Insert(t, ds)[d].notification == n
  {
    InsertAdds(t, ds);
    assert Lists(ds, d);
    var k :| 0 <= k < |ds| && ds[k].id == d;
    assert Insert(t, ds)[d] == ds[k].row;
  }

  lemma {:induction false} InsertedBelongs(t: Table, ds: seq<Entry>, n: Id, rs: seq<Recipient>)
    requires WrittenFor(ds, n, rs) && Insertable(t, ds)
    ensures forall d :: d in Insert(t, ds) ==>
              if d in t then Insert(t, ds)[d] == t[d] else Insert(t, ds)[d].notification == n
    ensures forall d :: d in t ==> d in Insert(t, ds)
  {
    InsertAdds(t, ds);
    forall d | d in Insert(t, ds) && d !in t
      ensures Insert(t, ds)[d].notification == n
    {
      InsertedAt(t, ds, n, rs, d);
    }
  }

  lemma {:induction false} InsertedKeepsWhole(t: Table, notes: set<Id>, wanted: map<Id, seq<Recipient>>,
                                              ds: seq<Entry>, n: Id, rs: seq<Recipient>)
    requires AllWhole(t, notes, wanted) && NoOrphans(t, notes) && n !in notes
    requires WrittenFor(ds, n, rs) && Insertable(t, ds)
    ensures AllWhole(Insert(t, ds), notes + {n}, wanted[n := rs])
  {
    NewIsOneForEach(t, ds, n, rs);
    forall m | m in notes
      ensures m in wanted && OneForEach(Insert(t, ds), m, wanted[m])
    {
      OldIsOneForEach(t, ds, n, rs, m, wanted[m]);
    }
  }

  /** Committing one message whole keeps every message whole. */
  lemma CommittedIsWhole(st: Store, wanted: map<Id, seq<Recipient>>, p: Phase)
    requires StoreOk(st, wanted) && p.Delivered? && p.id !in st.notes
    requires WrittenFor(p.ds, p.id, p.recipients) && Insertable(st.ds, p.ds)
    ensures StoreOk(Committed(st, p), wanted[p.id := p.recipients])
  {
    InsertedBelongs(st.ds, p.ds, p.id, p.recipients);
    InsertedKeepsWhole(st.ds, st.notes.Keys, wanted, p.ds, p.id, p.recipients);
    assert Committed(st, p).notes.Keys == st.notes.Keys + {p.id};
  }

  lemma {:induction false} NewIsOneForEach(t: Table, ds: seq<Entry>, n: Id, rs: seq<Recipient>)
    requires WrittenFor(ds, n, rs) && Insertable(t, ds) && forall d :: d in t ==> t[d].notification != n
    ensures OneForEach(Insert(t, ds), n, rs)
  {
    var t' := Insert(t, ds);
    InsertedBelongs(t, ds, n, rs);
    forall r | r in rs
      ensures IsReached(t', n, r)
    {
      InsertAdds(t, ds);
      var k :| 0 <= k < |rs| && rs[k] == r;
      assert GoesTo(t', ds[k].id, n, r);
    }
    forall d | d in t' && t'[d].notification == n
      ensures t'[d].recipient in rs && t'[d].status == PENDING
    {
      InsertedAt(t, ds, n, rs, d);
    }
    forall d, e | d in t' && e in t' && t'[d].notification == n && SameDelivery(t'[d], t'[e])
      ensures d == e
    {
      InsertedAt(t, ds, n, rs, d);
      InsertedAt(t, ds, n, rs, e);
    }
  }

  lemma {:induction false} OldIsOneForEach(t: Table, ds: seq<Entry>, m: Id, rs: seq<Recipient>, n: Id,
                                           wanted: seq<Recipient>)
    requires WrittenFor(ds, m, rs) && Insertable(t, ds) && n != m && OneForEach(t, n, wanted)
    ensures OneForEach(Insert(t, ds), n, wanted)
  {
    var t' := Insert(t, ds);
    InsertedBelongs(t, ds, m, rs);
    forall r | r in wanted
      ensures IsReached(t', n, r)
    {
      assert IsReached(t, n, r);
      var d :| GoesTo(t, d, n, r);
      assert GoesTo(t', d, n, r);
    }
  }

  /** Nothing one transaction commits is in the way of what another has written. */
  lemma CommitLeavesFit(s: State, s': State, p: Phase, q: Phase)
    requires p.Delivered? && CallFits(s, p) && CallFits(s, q) && Disjoint(p, q)
    requires s'.store == Committed(s.store, p) && s.stored <= s'.stored
    ensures CallFits(s', q)
  {
    if q.Delivered? {
      InsertAdds(s.store.ds, p.ds);
      StaysInsertable(s.store.ds, p.ds, p.id, p.recipients, q.ds, q.id, q.recipients);
    }
  }

  lemma {:induction false} StaysInsertable(t: Table, ds: seq<Entry>, n: Id, rs: seq<Recipient>, es: seq<Entry>, m: Id,
                                           qs: seq<Recipient>)
    requires WrittenFor(ds, n, rs) && Insertable(t, ds) && WrittenFor(es, m, qs) && Insertable(t, es)
    requires n != m && Ids(ds) !! Ids(es)
    ensures Insertable(Insert(t, ds), es)
  {
    var t' := Insert(t, ds);
    InsertAdds(t, ds);
    forall k | 0 <= k < |es|
      ensures es[k].id !in t'
    {
      assert es[k].id in Ids(es);
      assert Lists(ds, es[k].id) <==> es[k].id in Ids(ds);
    }
    forall k, d | 0 <= k < |es| && d in t'
      ensures !SameDelivery(es[k].row, t'[d])
    {
      if d !in t {
        assert Lists(ds, d);
        var j :| 0 <= j < |ds| && ds[j].id == d;
        assert t'[d] == ds[j].row;
      }
    }
  }

  lemma CommittedIsOnRecord(st: Store, stored: set<Event>, p: Phase)
    requires NoOrphans(st.ds, st.notes.Keys) && AllOnRecord(st, stored) && p.Delivered? && p.id !in st.notes
    requires WrittenFor(p.ds, p.id, p.recipients) && Insertable(st.ds, p.ds)
    ensures AllOnRecord(Committed(st, p), stored + EventsOf(p.note, p.ds))
  {
    var st' := Committed(st, p);
    InsertAdds(st.ds, p.ds);
    forall d | d in st'.ds && st'.ds[d].notification in st'.notes
      ensures EventOf(st'.notes[st'.ds[d].notification], Entry(d, st'.ds[d])) in stored + EventsOf(p.note, p.ds)
    {
      if d !in st.ds {
        InsertedAt(st.ds, p.ds, p.id, p.recipients, d);
        var k :| 0 <= k < |p.ds| && p.ds[k].id == d && st'.ds[d] == p.ds[k].row;
        assert EventOf(p.note, p.ds[k]) in EventsOf(p.note, p.ds);
      }
    }
  }

  lemma AppliedKeepsWhole(s: State, i: nat, db: Db)
    requires WholeInv(s) && i in s.calls && s.calls[i].Delivered? && db.Applies()
    ensures WholeInv(AfterCommit(s, i, db))
  {
    var p := s.calls[i];
    assert CallFits(s, p);
    CommittedIsWhole(s.store, s.wanted, p);
    CommittedIsOnRecord(s.store, s.stored, p);
    CallsFitAfterCommit(s, AfterCommit(s, i, db), i);
  }

  lemma CommitKeepsWhole(s: State, a: Action)
    requires WholeInv(s) && a.Commit?
    ensures WholeInv(Apply(s, a))
  {
    if a.call in s.calls && s.calls[a.call].Delivered? {
      if a.db.Applies() {
        AppliedKeepsWhole(s, a.call, a.db);
      } else {
        assert CallFits(s, s.calls[a.call]);
        MoveKeepsWhole(s, Apply(s, a), a.call, Apply(s, a).calls[a.call]);
      }
    }
  }

  lemma CallsFitAfterCommit(s: State, s': State, i: nat)
    requires WholeInv(s) && i in s.calls && s.calls[i].Delivered? && i in s'.calls
    requires s'.store == Committed(s.store, s.calls[i])
    requires s'.stored == s.stored + EventsOf(s.calls[i].note, s.calls[i].ds)
    requires s'.calls == s.calls[i := s'.calls[i]]
    requires s'.calls[i].Answered? ||
             (s'.calls[i].Publishing? && s'.calls[i].left == s.calls[i].ds && s'.calls[i].note == s.calls[i].note)
    ensures forall j :: j in s'.calls ==> CallFits(s', s'.calls[j])
    ensures forall j, k :: j in s'.calls && k in s'.calls && j != k ==> Disjoint(s'.calls[j], s'.calls[k])
  {
    forall j | j in s'.calls
      ensures CallFits(s', s'.calls[j])
    {
      if j == i {
        forall k | 0 <= k < |s.calls[i].ds|
          ensures EventOf(s.calls[i].note, s.calls[i].ds[k]) in s'.stored
        {
          assert EventOf(s.calls[i].note, s.calls[i].ds[k]) in EventsOf(s.calls[i].note, s.calls[i].ds);
        }
      } else {
        CommitLeavesFit(s, s', s.calls[i], s.calls[j]);
      }
    }
  }

  lemma PurgeKeepsWhole(s: State, a: Action)
    requires WholeInv(s) && a.Purge?
    ensures WholeInv(Apply(s, a))
  {
    var s' := Apply(s, a);
    forall n | n in s'.store.notes
      ensures n in s.wanted && OneForEach(s'.store.ds, n, s.wanted[n])
    {
      forall r | r in s.wanted[n]
        ensures IsReached(s'.store.ds, n, r)
      {
        assert IsReached(s.store.ds, n, r);
        var d :| GoesTo(s.store.ds, d, n, r);
        assert GoesTo(s'.store.ds, d, n, r);
      }
    }
    forall j | j in s'.calls
      ensures CallFits(s', s'.calls[j])
    {
      assert CallFits(s, s.calls[j]);
    }
  }

  lemma {:induction false} RunKeepsWhole(s: State, acts: seq<Action>)
    requires WholeInv(s)
    ensures WholeInv(Run(s, acts))
    decreases |acts|
  {
    if acts != [] {
      var a := acts[0];
      if a.WriteNote? {
        WriteNoteKeepsWhole(s, a);
      } else if a.WriteDeliveries? {
        WriteDeliveriesKeepsWhole(s, a);
      } else if a.Commit? {
        CommitKeepsWhole(s, a);
      } else if a.Publish? {
        PublishKeepsWhole(s, a);
      } else if a.Purge? {
        PurgeKeepsWhole(s, a);
      } else {
        ReadingKeepsWhole(s, a);
      }
      RunKeepsWhole(Apply(s, a), acts[1..]);
    }
  }

  /**
   * Whatever failed and wherever, purges and lost commits included: every message that is
   * stored has exactly one delivery for each recipient it was accepted for, every delivery
   * belongs to a stored message, and every event published says what was true of a delivery
   * once committed.
   */
  lemma StoredWholeOrNotAtAll(acts: seq<Action>)
    ensures var s := Run(Start(), acts);
            && (forall n :: n in s.store.notes ==> n in s.wanted && OneForEach(s.store.ds, n, s.wanted[n]))
            && (forall d :: d in s.store.ds ==> s.store.ds[d].notification in s.store.notes)
            && (forall d :: d in s.store.ds ==>
                  EventOf(s.store.notes[s.store.ds[d].notification], Entry(d, s.store.ds[d])) in s.stored)
            && (forall k :: 0 <= k < |s.events| ==> s.events[k] in s.stored)
  {
    RunKeepsWhole(Start(), acts);
  }
}
