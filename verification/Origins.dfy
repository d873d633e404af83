/**
 * Where what is stored comes from: every message, delivery and event of a run goes back to the
 * request that some call was admitted with, to its source's ceiling and to its recipients.
 */
module Origins {
  import opened Basics
  import opened Runs
  import opened Deliveries
  import opened Submit
  import opened SubmitSafety

  // --- the request of a call -------------------------------------------------

  /** A request, and the ceiling its source had when it was admitted. */
  datatype Admission = Admission(cmd: Command, ceiling: int)

  predicate IsAdmit(a: Action, i: nat) {
    a.Admit? && a.call == i
  }

  /** The first admission of a call is the one that counts; the others find it under way. */
  function AdmittedAs(acts: seq<Action>, i: nat): Option<Admission> {
    if acts == [] then None
    else if IsAdmit(acts[0], i) then
      if acts[0].admitted.Some? then Some(Admission(acts[0].cmd, acts[0].admitted.value)) else None
    else AdmittedAs(acts[1..], i)
  }

  predicate WasOffered(acts: seq<Action>, i: nat) {
    exists k :: 0 <= k < |acts| && IsAdmit(acts[k], i)
  }

  lemma {:induction false} AdmissionStays(acts: seq<Action>, a: Action, i: nat)
    ensures AdmittedAs(acts + [a], i) == if WasOffered(acts, i) then AdmittedAs(acts, i) else AdmittedAs([a], i)
    ensures WasOffered(acts + [a], i) <==> WasOffered(acts, i) || IsAdmit(a, i)
    decreases |acts|
  {
    OfferedStays(acts, a, i);
    if acts == [] {
      assert acts + [a] == [a];
    } else {
      assert (acts + [a])[0] == acts[0] && (acts + [a])[1..] == acts[1..] + [a];
      AdmissionStays(acts[1..], a, i);
      OfferedFirstOrLater(acts, i);
    }
  }

  lemma OfferedStays(acts: seq<Action>, a: Action, i: nat)
    ensures WasOffered(acts + [a], i) <==> WasOffered(acts, i) || IsAdmit(a, i)
  {
    assert (acts + [a])[|acts|] == a;
    if k :| 0 <= k < |acts| && IsAdmit(acts[k], i) {
      assert (acts + [a])[k] == acts[k];
    }
  }

  lemma OfferedFirstOrLater(acts: seq<Action>, i: nat)
    requires acts != []
    ensures WasOffered(acts, i) <==> IsAdmit(acts[0], i) || WasOffered(acts[1..], i)
  {
    if k :| 0 <= k < |acts| && IsAdmit(acts[k], i) {
      assert k == 0 || acts[1..][k - 1] == acts[k];
    }
    if k :| 0 <= k < |acts[1..]| && IsAdmit(acts[1..][k], i) {
      assert acts[k + 1] == acts[1..][k];
    }
  }

  /** These are the recipients that the call's routes resolved to. */
  predicate Resolved(acts: seq<Action>, i: nat, rs: seq<Recipient>) {
    exists k :: 0 <= k < |acts| && acts[k].Prepare? && acts[k].call == i && acts[k].resolved == Some(rs)
  }

  lemma ResolvedStays(acts: seq<Action>, a: Action, i: nat, rs: seq<Recipient>)
    ensures Resolved(acts, i, rs) ==> Resolved(acts + [a], i, rs)
    ensures a.Prepare? && a.call == i && a.resolved == Some(rs) ==> Resolved(acts + [a], i, rs)
  {
    assert (acts + [a])[|acts|] == a;
    if k :| 0 <= k < |acts| && acts[k].Prepare? && acts[k].call == i && acts[k].resolved == Some(rs) {
      assert (acts + [a])[k] == acts[k];
    }
  }

  /** The call wrote its message under this id, at a moment before the expiry that was asked for. */
  predicate WrittenInTime(acts: seq<Action>, i: nat, id: Id, expireAt: Option<Time>) {
    exists k :: 0 <= k < |acts| && IsTimely(acts[k], i, id, expireAt)
  }

  predicate IsTimely(a: Action, i: nat, id: Id, expireAt: Option<Time>) {
    a.WriteNote? && a.call == i && a.id == id && (expireAt.Some? ==> a.now < expireAt.value)
  }

  lemma WrittenStays(acts: seq<Action>, a: Action, i: nat, id: Id, expireAt: Option<Time>)
    ensures WrittenInTime(acts, i, id, expireAt) || IsTimely(a, i, id, expireAt) ==>
              WrittenInTime(acts + [a], i, id, expireAt)
  {
    assert (acts + [a])[|acts|] == a;
    if k :| 0 <= k < |acts| && IsTimely(acts[k], i, id, expireAt) {
      assert (acts + [a])[k] == acts[k];
    }
  }

  // --- what is made of it ----------------------------------------------------

  /** What may be accepted at all: a body, and a priority there is. */
  predicate IsInOrder(cmd: Command) {
    cmd.body != "" && 0 <= cmd.priority <= 2
  }

  /** The message keeps the priority that was asked for, and goes out with no more than the ceiling. */
  predicate NoteIs(n: Note, t: Admission) {
    && n.source == t.cmd.source && n.key == t.cmd.key
    && n.requested == t.cmd.priority
    && n.effective == (if t.cmd.priority <= t.ceiling then t.cmd.priority else t.ceiling)
    && IsInOrder(t.cmd)
  }

  /** A delivery as it is opened: under the name its channel was given, never tried, nothing else set. */
  predicate RowIs(r: Row, n: Id, t: Admission) {
    && r.notification == n
    && r.senderName == (if r.recipient.channel in t.cmd.senders then t.cmd.senders[r.recipient.channel] else "")
    && r.status == PENDING && r.attempts == 0 && r.lastError == "" && r.reason.None? && r.providerId == ""
    && r.notifiedAt.None? && r.claimedAt.None?
  }

  predicate ReceiptIs(r: Receipt, t: Admission) {
    && r.effective == (if t.cmd.priority <= t.ceiling then t.cmd.priority else t.ceiling)
    && (r.downgraded <==> t.cmd.priority > t.ceiling)
  }

  predicate PhaseIs(acts: seq<Action>, i: nat, p: Phase, t: Admission) {
    p.cmd == t.cmd &&
    match p
    case Checking(_, ceiling) => ceiling == t.ceiling
    case Preparing(_, ceiling) => ceiling == t.ceiling
    case Writing(_, ceiling, rs) => ceiling == t.ceiling && Resolved(acts, i, rs)
    case Noted(_, id, note, rs) =>
      NoteIs(note, t) && Resolved(acts, i, rs) && WrittenInTime(acts, i, id, t.cmd.expireAt)
    case Delivered(_, id, note, rs, ds) =>
      && NoteIs(note, t) && Resolved(acts, i, rs) && WrittenInTime(acts, i, id, t.cmd.expireAt)
      && forall k :: 0 <= k < |ds| ==> RowIs(ds[k].row, id, t)
    case Racing(_) => true
    case Publishing(_, id, note, left) => NoteIs(note, t)
    case Answered(_, answer) => answer.Ok? && !answer.value.duplicate ==> ReceiptIs(answer.value, t)
  }

  ghost predicate CallIs(acts: seq<Action>, i: nat, p: Phase) {
    && WasOffered(acts, i)
    && (AdmittedAs(acts, i).Some? ==> PhaseIs(acts, i, p, AdmittedAs(acts, i).value))
    && (AdmittedAs(acts, i).None? ==> p.Answered? && p.answer.Err?)
  }

  /** The message and its deliveries come from the request of this call. */
  predicate ComesFrom(acts: seq<Action>, st: Store, rs: seq<Recipient>, n: Id, i: nat)
    requires n in st.notes
  {
    && AdmittedAs(acts, i).Some? && WasOffered(acts, i)
    && NoteIs(st.notes[n], AdmittedAs(acts, i).value)
    && Resolved(acts, i, rs) && WrittenInTime(acts, i, n, AdmittedAs(acts, i).value.cmd.expireAt)
    && forall d :: d in st.ds && st.ds[d].notification == n ==> RowIs(st.ds[d], n, AdmittedAs(acts, i).value)
  }

  ghost predicate OriginInv(acts: seq<Action>, s: State) {
    && (forall i :: i in s.calls ==> CallIs(acts, i, s.calls[i]))
    && (forall i :: WasOffered(acts, i) ==> i in s.calls)
    && (forall n :: n in s.store.notes ==>
          n in s.wanted && exists i :: ComesFrom(acts, s.store, s.wanted[n], n, i))
  }

  // --- every step ------------------------------------------------------------

  lemma CallStays(acts: seq<Action>, a: Action, i: nat, p: Phase)
    requires CallIs(acts, i, p)
    ensures CallIs(acts + [a], i, p)
  {
    AdmissionStays(acts, a, i);
    match p
    case Writing(_, _, rs) => ResolvedStays(acts, a, i, rs);
    case Noted(_, id, _, rs) =>
      ResolvedStays(acts, a, i, rs);
      WrittenStays(acts, a, i, id, p.cmd.expireAt);
    case Delivered(_, id, _, rs, _) =>
      ResolvedStays(acts, a, i, rs);
      WrittenStays(acts, a, i, id, p.cmd.expireAt);
    case _ =>
  }

  /** A message stays what it was, while its rows are at most fewer. */
  lemma OriginStays(acts: seq<Action>, a: Action, st: Store, st': Store, rs: seq<Recipient>, n: Id, i: nat)
    requires n in st.notes && n in st'.notes && st'.notes[n] == st.notes[n] && ComesFrom(acts, st, rs, n, i)
    requires forall d :: d in st'.ds && st'.ds[d].notification == n ==> d in st.ds && st'.ds[d] == st.ds[d]
    ensures ComesFrom(acts + [a], st', rs, n, i)
  {
    AdmissionStays(acts, a, i);
    ResolvedStays(acts, a, i, rs);
    WrittenStays(acts, a, i, n, AdmittedAs(acts, i).value.cmd.expireAt);
  }

  /** An action that moves one call and stores nothing. */
  lemma MoveKeepsOrigins(acts: seq<Action>, a: Action, s: State, s': State, i: nat, p: Phase)
    requires OriginInv(acts, s) && s'.store == s.store && s'.wanted == s.wanted && s'.calls == s.calls[i := p]
    requires CallIs(acts + [a], i, p)
    requires forall j :: IsAdmit(a, j) ==> j == i
    ensures OriginInv(acts + [a], s')
  {
    forall j | j in s'.calls
      ensures CallIs(acts + [a], j, s'.calls[j])
    {
      if j != i {
        CallStays(acts, a, j, s.calls[j]);
      }
    }
    forall j | WasOffered(acts + [a], j)
      ensures j in s'.calls
    {
      OfferedStays(acts, a, j);
    }
    forall n | n in s'.store.notes
      ensures n in s'.wanted && exists j :: ComesFrom(acts + [a], s'.store, s'.wanted[n], n, j)
    {
      var j :| ComesFrom(acts, s.store, s.wanted[n], n, j);
      OriginStays(acts, a, s.store, s'.store, s.wanted[n], n, j);
    }
  }

  lemma AdmitKeepsOrigins(acts: seq<Action>, a: Action, s: State)
    requires OriginInv(acts, s) && a.Admit? && a.call !in s.calls
    ensures OriginInv(acts + [a], Apply(s, a))
  {
    var s' := Apply(s, a);
    AdmissionStays(acts, a, a.call);
    assert !WasOffered(acts, a.call);
    assert [a][1..] == [];
    MoveKeepsOrigins(acts, a, s, s', a.call, s'.calls[a.call]);
  }

  predicate Reads(a: Action) {
    a.Check? || a.ReadBack?
  }

  lemma ReadingKeepsCall(acts: seq<Action>, a: Action, s: State)
    requires OriginInv(acts, s) && Reads(a) && a.call in s.calls
    ensures CallIs(acts + [a], a.call, Apply(s, a).calls[a.call])
  {
    CallStays(acts, a, a.call, s.calls[a.call]);
    FoundBears(s.store.notes, s.calls[a.call].cmd.source, s.calls[a.call].cmd.key);
  }

  lemma PreparingKeepsCall(acts: seq<Action>, a: Action, s: State)
    requires OriginInv(acts, s) && (a.Prepare? || a.Publish?) && a.call in s.calls
    ensures CallIs(acts + [a], a.call, Apply(s, a).calls[a.call])
  {
    CallStays(acts, a, a.call, s.calls[a.call]);
    if a.Prepare? && a.resolved.Some? {
      ResolvedStays(acts, a, a.call, a.resolved.value);
    }
  }

  lemma WritingKeepsCall(acts: seq<Action>, a: Action, s: State)
    requires OriginInv(acts, s) && a.WriteNote? && a.call in s.calls
    ensures CallIs(acts + [a], a.call, Apply(s, a).calls[a.call])
  {
    CallStays(acts, a, a.call, s.calls[a.call]);
    WrittenStays(acts, a, a.call, a.id, s.calls[a.call].cmd.expireAt);
  }

  lemma OpeningKeepsCall(acts: seq<Action>, a: Action, s: State)
    requires OriginInv(acts, s) && a.WriteDeliveries? && a.call in s.calls
    ensures CallIs(acts + [a], a.call, Apply(s, a).calls[a.call])
  {
    CallStays(acts, a, a.call, s.calls[a.call]);
  }

  /** The steps of a call that is under way, but for its commit. */
  predicate IsStep(a: Action) {
    !a.Admit? && !a.Purge? && !a.Commit?
  }

  lemma StepKeepsCall(acts: seq<Action>, a: Action, s: State)
    requires OriginInv(acts, s) && IsStep(a) && a.call in s.calls
    ensures CallIs(acts + [a], a.call, Apply(s, a).calls[a.call])
  {
    if Reads(a) {
      ReadingKeepsCall(acts, a, s);
    } else if a.WriteNote? {
      WritingKeepsCall(acts, a, s);
    } else if a.WriteDeliveries? {
      OpeningKeepsCall(acts, a, s);
    } else {
      PreparingKeepsCall(acts, a, s);
    }
  }

  lemma StepMovesOne(s: State, a: Action)
    requires IsStep(a) && a.call in s.calls
    ensures var s' := Apply(s, a);
            && s'.store == s.store && s'.wanted == s.wanted
            && a.call in s'.calls && s'.calls == s.calls[a.call := s'.calls[a.call]]
  {
    assert s.calls[a.call := s.calls[a.call]] == s.calls;
  }

  lemma StepKeepsOrigins(acts: seq<Action>, a: Action, s: State)
    requires OriginInv(acts, s) && IsStep(a) && a.call in s.calls
    ensures OriginInv(acts + [a], Apply(s, a))
  {
    var s' := Apply(s, a);
    StepKeepsCall(acts, a, s);
    StepMovesOne(s, a);
    MoveKeepsOrigins(acts, a, s, s', a.call, s'.calls[a.call]);
  }

  /** An action that finds nobody to act on. */
  lemma IdleKeepsOrigins(acts: seq<Action>, a: Action, s: State)
    requires OriginInv(acts, s) && (a.Admit? ==> a.call in s.calls)
    ensures OriginInv(acts + [a], s)
  {
    forall j | j in s.calls
      ensures CallIs(acts + [a], j, s.calls[j])
    {
      CallStays(acts, a, j, s.calls[j]);
    }
    forall j | WasOffered(acts + [a], j)
      ensures j in s.calls
    {
      OfferedStays(acts, a, j);
    }
    forall n | n in s.store.notes
      ensures exists j :: ComesFrom(acts + [a], s.store, s.wanted[n], n, j)
    {
      var j :| ComesFrom(acts, s.store, s.wanted[n], n, j);
      OriginStays(acts, a, s.store, s.store, s.wanted[n], n, j);
    }
  }

  lemma PurgeKeepsOrigins(acts: seq<Action>, a: Action, s: State)
    requires OriginInv(acts, s) && a.Purge?
    ensures OriginInv(acts + [a], Apply(s, a))
  {
    var s' := Apply(s, a);
    IdleKeepsOrigins(acts, a, s);
    forall n | n in s'.store.notes
      ensures exists j :: ComesFrom(acts + [a], s'.store, s'.wanted[n], n, j)
    {
      var j :| ComesFrom(acts, s.store, s.wanted[n], n, j);
      OriginStays(acts, a, s.store, s'.store, s.wanted[n], n, j);
    }
  }

  /** What a commit stores comes from the request of its call. */
  lemma {:induction false} CommittedComesFrom(acts: seq<Action>, st: Store, i: nat, p: Phase)
    requires p.Delivered? && CallIs(acts, i, p) && AdmittedAs(acts, i).Some?
    requires Insertable(st.ds, p.ds) && forall d :: d in st.ds ==> st.ds[d].notification != p.id
    ensures ComesFrom(acts, Committed(st, p), p.recipients, p.id, i)
  {
    InsertAdds(st.ds, p.ds);
    var ds' := Insert(st.ds, p.ds);
    forall d | d in ds' && ds'[d].notification == p.id
      ensures RowIs(ds'[d], p.id, AdmittedAs(acts, i).value)
    {
      var k :| 0 <= k < |p.ds| && p.ds[k].id == d;
    }
  }

  lemma CommitKeepsOthers(acts: seq<Action>, a: Action, s: State, p: Phase, n: Id)
    requires OriginInv(acts, s) && p.Delivered? && Insertable(s.store.ds, p.ds) && n in s.store.notes && n != p.id
    requires forall k :: 0 <= k < |p.ds| ==> p.ds[k].row.notification == p.id
    ensures exists j :: ComesFrom(acts + [a], Committed(s.store, p), s.wanted[n], n, j)
  {
    InsertAdds(s.store.ds, p.ds);
    var j :| ComesFrom(acts, s.store, s.wanted[n], n, j);
    var st' := Committed(s.store, p);
    forall d | d in st'.ds && st'.ds[d].notification == n
      ensures d in s.store.ds && st'.ds[d] == s.store.ds[d]
    {
      assert d in s.store.ds || Lists(p.ds, d);
    }
    OriginStays(acts, a, s.store, st', s.wanted[n], n, j);
  }

  /** An applied commit: the new message comes from its call, and the others from theirs. */
  lemma CommitKeepsStored(acts: seq<Action>, a: Action, s: State, i: nat, n: Id)
    requires OriginInv(acts, s) && WholeInv(s) && i in s.calls && s.calls[i].Delivered?
    requires n in Committed(s.store, s.calls[i]).notes
    ensures var p := s.calls[i];
            if n == p.id then
              ComesFrom(acts + [a], Committed(s.store, p), p.recipients, n, i)
            else
              n in s.wanted && exists j :: ComesFrom(acts + [a], Committed(s.store, p), s.wanted[n], n, j)
  {
    var p := s.calls[i];
    assert CallFits(s, p);
    if n == p.id {
      assert NoOrphans(s.store.ds, s.store.notes.Keys);
      CallStays(acts, a, i, p);
      CommittedComesFrom(acts + [a], s.store, i, p);
    } else {
      CommitKeepsOthers(acts, a, s, p, n);
    }
  }

  lemma CommitKeepsCalls(acts: seq<Action>, a: Action, s: State, j: nat)
    requires OriginInv(acts, s) && a.Commit? && a.call in s.calls && s.calls[a.call].Delivered?
    requires j in Apply(s, a).calls
    ensures CallIs(acts + [a], j, Apply(s, a).calls[j])
  {
    CallStays(acts, a, j, s.calls[j]);
  }

  lemma CommitKeepsOrigins(acts: seq<Action>, a: Action, s: State)
    requires OriginInv(acts, s) && WholeInv(s) && a.Commit? && a.call in s.calls && s.calls[a.call].Delivered?
    ensures OriginInv(acts + [a], Apply(s, a))
  {
    var s', p := Apply(s, a), s.calls[a.call];
    IdleKeepsOrigins(acts, a, s);
    forall j | j in s'.calls
      ensures CallIs(acts + [a], j, s'.calls[j])
    {
      CommitKeepsCalls(acts, a, s, j);
    }
    if a.db.Applies() {
      assert s'.store == Committed(s.store, p) && s'.wanted == s.wanted[p.id := p.recipients];
      forall n | n in s'.store.notes
        ensures n in s'.wanted && exists j :: ComesFrom(acts + [a], s'.store, s'.wanted[n], n, j)
      {
        CommitKeepsStored(acts, a, s, a.call, n);
      }
    } else {
      assert s'.store == s.store && s'.wanted == s.wanted;
    }
  }

  lemma ApplyKeepsOrigins(acts: seq<Action>, a: Action, s: State)
    requires OriginInv(acts, s) && WholeInv(s)
    ensures OriginInv(acts + [a], Apply(s, a))
  {
    if a.Purge? {
      PurgeKeepsOrigins(acts, a, s);
    } else if a.Admit? {
      if a.call in s.calls {
        IdleKeepsOrigins(acts, a, s);
      } else {
        AdmitKeepsOrigins(acts, a, s);
      }
    } else if a.call !in s.calls {
      IdleKeepsOrigins(acts, a, s);
    } else if a.Commit? {
      if s.calls[a.call].Delivered? {
        CommitKeepsOrigins(acts, a, s);
      } else {
        IdleKeepsOrigins(acts, a, s);
      }
    } else {
      StepKeepsOrigins(acts, a, s);
    }
  }

  lemma LastApplied(acts: seq<Action>)
    requires acts != []
    ensures var n := |acts| - 1;
            acts == acts[..n] + [acts[n]] && Run(Start(), acts) == Apply(Run(Start(), acts[..n]), acts[n])
  {
    var n := |acts| - 1;
    assert acts == acts[..n] + [acts[n]];
    RunInParts(Apply, Start(), acts[..n], [acts[n]]);
    assert Run(Run(Start(), acts[..n]), [acts[n]]) == Apply(Run(Start(), acts[..n]), acts[n]);
  }

  lemma {:induction false} RunKeepsOrigins(acts: seq<Action>)
    ensures OriginInv(acts, Run(Start(), acts)) && WholeInv(Run(Start(), acts))
    decreases |acts|
  {
    RunKeepsWhole(Start(), acts);
    if acts != [] {
      var n := |acts| - 1;
      RunKeepsOrigins(acts[..n]);
      ApplyKeepsOrigins(acts[..n], acts[n], Run(Start(), acts[..n]));
      LastApplied(acts);
    }
  }

  /**
   * In every run each stored message goes back to a call: it has that request's source, key and
   * priority, it goes out with the smaller of that priority and the ceiling the call was
   * admitted with, it was written before it expired, and it has one delivery for each recipient
   * its routes resolved to, under the sender name its channel was given.
   */
  lemma {:induction false} StoredAsAdmitted(acts: seq<Action>, n: Id)
    requires n in Run(Start(), acts).store.notes
    ensures var st := Run(Start(), acts).store;
            exists i, rs ::
              && AdmittedAs(acts, i).Some? && Resolved(acts, i, rs) && OneForEach(st.ds, n, rs)
              && var t := AdmittedAs(acts, i).value;
                 && NoteIs(st.notes[n], t) && WrittenInTime(acts, i, n, t.cmd.expireAt)
                 && forall d :: d in st.ds && st.ds[d].notification == n ==> RowIs(st.ds[d], n, t)
  {
    RunKeepsOrigins(acts);
    var s := Run(Start(), acts);
    var i :| ComesFrom(acts, s.store, s.wanted[n], n, i);
    assert OneForEach(s.store.ds, n, s.wanted[n]);
    assert AdmittedAs(acts, i).Some? && Resolved(acts, i, s.wanted[n]);
  }

  /** In every run a call answered as new is told the smaller of its priority and its ceiling, and which it was. */
  lemma {:induction false} AnsweredAsAdmitted(acts: seq<Action>, i: nat)
    requires var s := Run(Start(), acts);
             i in s.calls && s.calls[i].Answered? && s.calls[i].answer.Ok? && !s.calls[i].answer.value.duplicate
    ensures AdmittedAs(acts, i).Some? && ReceiptIs(Run(Start(), acts).calls[i].answer.value, AdmittedAs(acts, i).value)
  {
    RunKeepsOrigins(acts);
    assert CallIs(acts, i, Run(Start(), acts).calls[i]);
  }

  // --- what is published -----------------------------------------------------

  /** The event says what the store says: the delivery's channel, and its message's source and effective priority. */
  predicate IsTrueOf(st: Store, e: Event) {
    && e.delivery in st.ds
    && var r := st.ds[e.delivery];
       && r.notification in st.notes
       && e.channel == r.recipient.channel
       && e.source == st.notes[r.notification].source
       && e.priority == st.notes[r.notification].effective
  }

  /** It did at some moment of the run. */
  ghost predicate WasTrue(acts: seq<Action>, e: Event) {
    exists n :: 0 <= n <= |acts| && IsTrueOf(Run(Start(), acts[..n]).store, e)
  }

  lemma TruthGoesOn(acts: seq<Action>, a: Action, e: Event)
    requires WasTrue(acts, e) || IsTrueOf(Run(Start(), acts + [a]).store, e)
    ensures WasTrue(acts + [a], e)
  {
    if WasTrue(acts, e) {
      var n :| 0 <= n <= |acts| && IsTrueOf(Run(Start(), acts[..n]).store, e);
      assert (acts + [a])[..n] == acts[..n];
    } else {
      assert (acts + [a])[..|acts| + 1] == acts + [a];
    }
  }

  /** What a commit puts on record is true of what it stores. */
  lemma CommittedIsTrue(st: Store, p: Phase, e: Event)
    requires p.Delivered? && Insertable(st.ds, p.ds) && e in EventsOf(p.note, p.ds)
    requires forall k :: 0 <= k < |p.ds| ==> p.ds[k].row.notification == p.id
    ensures IsTrueOf(Committed(st, p), e)
  {
    InsertAdds(st.ds, p.ds);
    var k :| 0 <= k < |p.ds| && EventOf(p.note, p.ds[k]) == e;
    assert Committed(st, p).ds[p.ds[k].id] == p.ds[k].row;
  }

  lemma {:induction false} OnRecordWasTrue(acts: seq<Action>)
    ensures forall e :: e in Run(Start(), acts).stored ==> WasTrue(acts, e)
    decreases |acts|
  {
    if acts != [] {
      var n := |acts| - 1;
      var s := Run(Start(), acts[..n]);
      LastApplied(acts);
      OnRecordWasTrue(acts[..n]);
      RunKeepsWhole(Start(), acts[..n]);
      forall e | e in Run(Start(), acts).stored
        ensures WasTrue(acts, e)
      {
        if e !in s.stored {
          var p := s.calls[acts[n].call];
          assert CallFits(s, p);
          CommittedIsTrue(s.store, p, e);
        }
        TruthGoesOn(acts[..n], acts[n], e);
      }
    }
  }

  /**
   * Every event published carries the channel of its delivery, and the source and the effective
   * priority of its message, as they were stored at some moment of the run.
   */
  lemma PublishedAsStored(acts: seq<Action>, k: nat)
    requires k < |Run(Start(), acts).events|
    ensures WasTrue(acts, Run(Start(), acts).events[k])
  {
    RunKeepsWhole(Start(), acts);
    OnRecordWasTrue(acts);
  }
}
