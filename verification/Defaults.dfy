/**
 * Registering, moving the default and switching identities, by any number of callers at once:
 * at every moment a channel has at most one default and it is active, and a move never leaves
 * a channel without one.
 *
 * Moving the default is two statements in one transaction. What the first one cleared is seen
 * by nobody else until the commit, and its rows are locked until then: who needs one waits.
 */
module Defaults {
  import opened Basics
  import opened Deliveries
  import opened Credentials

  /** The entity: a copy of a row that a use case changes before it writes. */
  class Identity {
    var isDefault: bool
    var isActive: bool
    var updatedAt: Time

    ghost predicate Valid()
      reads this
    {
      isDefault ==> isActive
    }

    /** A new identity is switched on. */
    constructor (isDefault: bool, now: Time)
      ensures Valid() && this.isDefault == isDefault && isActive && updatedAt == now
    {
      this.isDefault, isActive, updatedAt := isDefault, true, now;
    }

    constructor Restore(isDefault: bool, isActive: bool, updatedAt: Time)
      ensures this.isDefault == isDefault && this.isActive == isActive && this.updatedAt == updatedAt
    {
      this.isDefault, this.isActive, this.updatedAt := isDefault, isActive, updatedAt;
    }

    method MakeDefault(now: Time) returns (error: Option<CredentialError>)
      modifies this
      ensures old(Valid()) ==> Valid()
      ensures error == if old(isActive) then None else Some(DefaultUnusable)
      ensures isActive == old(isActive) && isDefault == (old(isDefault) || old(isActive))
      ensures updatedAt == if error.None? then now else old(updatedAt)
    {
      if !isActive {
        return Some(DefaultUnusable);
      }
      isDefault, updatedAt := true, now;
      return None;
    }

    /** Off, and with it the default: the two never contradict. */
    method Deactivate(now: Time)
      modifies this
      ensures Valid() && !isActive && !isDefault && updatedAt == now
    {
      isActive, isDefault, updatedAt := false, false, now;
    }

    /** On again, and not the default again. */
    method Activate(now: Time)
      modifies this
      ensures Valid() && isActive && isDefault == old(isDefault) && updatedAt == now
    {
      isActive, updatedAt := true, now;
    }
  }

  // --- the statements --------------------------------------------------------

  /** ClearDefaultCredential, on the rows it matched. */
  function Cleared(t: Credentials, ids: set<Id>): Credentials {
    map x | x in t :: if x in ids then t[x].(isDefault := false) else t[x]
  }

  /** SetCredentialActive: off takes the default with it, on does not bring it back. */
  function Switched(t: Credentials, source: string, id: Id, active: bool): Credentials {
    if id in t && t[id].source == source && t[id].isActive != active then
      t[id := t[id].(isActive := active, isDefault := if active then t[id].isDefault else false)]
    else
      t
  }

  /** The unique indexes let this be. */
  predicate Indexed(t: Credentials) {
    NamesAreUnique(t) && OneDefault(t)
  }

  /** The second half of a move: MakeDefault on the copy, then SetCredentialDefault. */
  function Moved(t: Credentials, cleared: set<Id>, source: string, id: Id,
                 copy: Credential): Result<Credentials, CredentialError> {
    var t1 := Cleared(t, cleared);
    if !copy.isActive then Err(DefaultUnusable)
    else if !(id in t1 && t1[id].source == source && t1[id].isActive) then Err(DefaultUnusable)
    else
      var t2 := t1[id := t1[id].(isDefault := true)];
      if Indexed(t2) then Ok(t2) else Err(Unavailable)
  }

  /** The second half of a registration. */
  function Registered(t: Credentials, cleared: set<Id>, id: Id, c: Credential): Result<Credentials, CredentialError> {
    var t1 := Cleared(t, cleared);
    if id in t1 then Err(Duplicate)
    else
      var t2 := t1[id := c];
      if Indexed(t2) then Ok(t2) else Err(Duplicate)
  }

  // --- the calls -------------------------------------------------------------

  datatype Phase =
    | Loaded(source: string, id: Id, copy: Credential)
    | Moving(source: string, id: Id, copy: Credential, cleared: set<Id>)
    | Registering(id: Id, c: Credential, cleared: set<Id>)
    | Ended(error: Option<CredentialError>)

  type Calls = map<nat, Phase>

  datatype State = State(rows: Credentials, calls: Calls)

  datatype Action =
    | Load(call: nat, source: string, id: Id, db: Db)
    | Clear(call: nat, matched: set<Id>, db: Db)
    | FinishMove(call: nat, db: Db)
    | Register(call: nat, id: Id, source: string, channel: string, name: string, asDefault: bool, matched: set<Id>,
               db: Db)
    | FinishRegister(call: nat, db: Db)
    | Switch(source: string, id: Id, active: bool, db: Db)

  function ClearedBy(p: Phase): set<Id> {
    match p
    case Moving(_, _, _, cleared) => cleared
    case Registering(_, _, cleared) => cleared
    case _ => {}
  }

  /** Another transaction holds one of these rows. */
  predicate Locked(calls: Calls, call: nat, ids: set<Id>) {
    exists j :: j in calls && j != call && ClearedBy(calls[j]) * ids != {}
  }

  /** The commit, when the second half succeeded; nothing at all when it did not. */
  function Finish(s: State, call: nat, r: Result<Credentials, CredentialError>, db: Db): State {
    match r
    case Err(e) => s.(calls := s.calls[call := Ended(Some(e))])
    case Ok(t) => State(if db.Applies() then t else s.rows,
                        s.calls[call := Ended(if db.Fine? then None else Some(Unavailable))])
  }

  /**
   * An action that is not enabled, or has to wait for a lock, changes nothing. A clear matches
   * the defaults it saw when it began and, if it waited, those of them that are still defaults:
   * one that was set meanwhile is missed.
   */
  function Apply(s: State, a: Action): State {
    match a
    case Load(i, source, id, db) =>
      if i in s.calls then s
      else if db.Fault? then s.(calls := s.calls[i := Ended(Some(Unavailable))])
      else if id in s.rows && s.rows[id].source == source then s.(calls := s.calls[i := Loaded(source, id, s.rows[id])])
      else s.(calls := s.calls[i := Ended(Some(UnknownName))])
    case Clear(i, matched, db) =>
      if i in s.calls && s.calls[i].Loaded? then
        var p := s.calls[i];
        if !(matched <= DefaultsOn(s.rows, p.source, p.copy.channel)) || Locked(s.calls, i, matched) then s
        else if db.Fault? then s.(calls := s.calls[i := Ended(Some(Unavailable))])
        else s.(calls := s.calls[i := Moving(p.source, p.id, p.copy, matched)])
      else
        s
    case FinishMove(i, db) =>
      if i in s.calls && s.calls[i].Moving? && !Locked(s.calls, i, {s.calls[i].id}) then
        var p := s.calls[i];
        Finish(s, i, Moved(s.rows, p.cleared, p.source, p.id, p.copy), db)
      else
        s
    case Register(i, id, source, channel, name, asDefault, matched, db) =>
      var ids := if asDefault then DefaultsOn(s.rows, source, channel) else {};
      if i in s.calls || !(matched <= ids) || Locked(s.calls, i, matched) then s
      else if db.Fault? then s.(calls := s.calls[i := Ended(Some(Unavailable))])
      else s.(calls := s.calls[i := Registering(id, Credential(source, channel, name, asDefault, true), matched)])
    case FinishRegister(i, db) =>
      if i in s.calls && s.calls[i].Registering? then
        var p := s.calls[i];
        Finish(s, i, Registered(s.rows, p.cleared, p.id, p.c), db)
      else
        s
    case Switch(source, id, active, db) =>
      if exists j :: j in s.calls && id in ClearedBy(s.calls[j]) then s
      else s.(rows := if db.Applies() then Switched(s.rows, source, id, active) else s.rows)
  }

  function Run(s: State, acts: seq<Action>): State
    decreases |acts|
  {
    if acts == [] then s else Run(Apply(s, acts[0]), acts[1..])
  }

  function Start(): State {
    State(map[], map[])
  }

  // --- what every step keeps -------------------------------------------------

  /** What a call knows: rows stay on their channel, and what it cleared is still the default, for everybody else. */
  predicate CallOk(t: Credentials, p: Phase) {
    match p
    case Loaded(source, id, copy) => id in t && OnChannel(t[id], source, copy.channel)
    case Moving(source, id, copy, cleared) =>
      id in t && OnChannel(t[id], source, copy.channel) && cleared <= DefaultsOn(t, source, copy.channel)
    case Registering(_, c, cleared) =>
      cleared <= DefaultsOn(t, c.source, c.channel) && c.isActive && (cleared != {} ==> c.isDefault)
    case Ended(_) => true
  }

  ghost predicate AllCallsOk(t: Credentials, calls: Calls) {
    forall i :: i in calls ==> CallOk(t, calls[i])
  }

  /** Two transactions never hold the same row. */
  ghost predicate LocksAreExclusive(calls: Calls) {
    forall i, j :: i in calls && j in calls && i != j ==> ClearedBy(calls[i]) !! ClearedBy(calls[j])
  }

  ghost predicate Inv(s: State) {
    TableOk(s.rows) && AllCallsOk(s.rows, s.calls) && LocksAreExclusive(s.calls)
  }

  /** Rows are never deleted and never leave their channel; a default goes only if it is among these. */
  predicate Keeps(t: Credentials, t': Credentials, turnedOff: set<Id>) {
    forall x :: x in t ==>
      x in t' && SameChannel(t[x], t'[x]) && (t[x].isDefault && x !in turnedOff ==> t'[x].isDefault)
  }

  lemma CallStaysOk(t: Credentials, t': Credentials, gone: set<Id>, p: Phase)
    requires Keeps(t, t', gone) && CallOk(t, p) && ClearedBy(p) !! gone
    ensures CallOk(t', p)
  {
    forall x | x in ClearedBy(p)
      ensures x in t' && t'[x].isDefault && SameChannel(t[x], t'[x])
    {
    }
  }

  lemma MovedIsOk(t: Credentials, cleared: set<Id>, source: string, id: Id, copy: Credential)
    requires TableOk(t) && Moved(t, cleared, source, id, copy).Ok?
    ensures TableOk(Moved(t, cleared, source, id, copy).value)
    ensures Keeps(t, Moved(t, cleared, source, id, copy).value, cleared)
  {
  }

  lemma RegisteredIsOk(t: Credentials, cleared: set<Id>, id: Id, c: Credential)
    requires TableOk(t) && c.isActive && Registered(t, cleared, id, c).Ok?
    ensures TableOk(Registered(t, cleared, id, c).value)
    ensures Keeps(t, Registered(t, cleared, id, c).value, cleared)
  {
  }

  lemma SwitchedIsOk(t: Credentials, source: string, id: Id, active: bool)
    requires TableOk(t)
    ensures TableOk(Switched(t, source, id, active)) && Keeps(t, Switched(t, source, id, active), {id})
  {
  }

  /** Ending a call, with or without its write. */
  lemma EndKeepsInv(s: State, s': State, i: nat)
    requires Inv(s) && i in s.calls && TableOk(s'.rows) && Keeps(s.rows, s'.rows, ClearedBy(s.calls[i]))
    requires s'.calls.Keys == s.calls.Keys && s'.calls[i].Ended?
    requires forall j :: j in s.calls && j != i ==> s'.calls[j] == s.calls[j]
    ensures Inv(s')
  {
    forall j | j in s'.calls
      ensures CallOk(s'.rows, s'.calls[j])
    {
      if j != i {
        CallStaysOk(s.rows, s'.rows, ClearedBy(s.calls[i]), s.calls[j]);
      }
    }
  }

  /** The second half may leave these rows, if it is applied. */
  lemma FinishKeepsInv(s: State, i: nat, r: Result<Credentials, CredentialError>, t: Credentials, db: Db)
    requires Inv(s) && i in s.calls && (r.Ok? ==> r.value == t)
    requires TableOk(t) && Keeps(s.rows, t, ClearedBy(s.calls[i]))
    ensures Inv(Finish(s, i, r, db))
  {
    EndKeepsInv(s, Finish(s, i, r, db), i);
  }

  lemma FinishMoveKeepsInv(s: State, i: nat, db: Db)
    requires Inv(s) && i in s.calls && s.calls[i].Moving?
    ensures var p := s.calls[i]; Inv(Finish(s, i, Moved(s.rows, p.cleared, p.source, p.id, p.copy), db))
  {
    var p := s.calls[i];
    var r := Moved(s.rows, p.cleared, p.source, p.id, p.copy);
    if r.Ok? {
      MovedIsOk(s.rows, p.cleared, p.source, p.id, p.copy);
      FinishKeepsInv(s, i, r, r.value, db);
    } else {
      FinishKeepsInv(s, i, r, s.rows, db);
    }
  }

  lemma FinishRegisterKeepsInv(s: State, i: nat, db: Db)
    requires Inv(s) && i in s.calls && s.calls[i].Registering?
    ensures var p := s.calls[i]; Inv(Finish(s, i, Registered(s.rows, p.cleared, p.id, p.c), db))
  {
    var p := s.calls[i];
    var r := Registered(s.rows, p.cleared, p.id, p.c);
    assert CallOk(s.rows, p);
    if r.Ok? {
      RegisteredIsOk(s.rows, p.cleared, p.id, p.c);
      FinishKeepsInv(s, i, r, r.value, db);
    } else {
      FinishKeepsInv(s, i, r, s.rows, db);
    }
  }

  /** A call that begins, or goes on, without touching a row. */
  lemma StepKeepsInv(s: State, i: nat, p: Phase)
    requires Inv(s) && CallOk(s.rows, p)
    requires ClearedBy(p) == {} || !Locked(s.calls, i, ClearedBy(p))
    ensures Inv(s.(calls := s.calls[i := p]))
  {
    forall j | j in s.calls && j != i
      ensures ClearedBy(p) !! ClearedBy(s.calls[j])
    {
      forall x | x in ClearedBy(p)
        ensures x !in ClearedBy(s.calls[j])
      {
        assert x !in ClearedBy(s.calls[j]) * ClearedBy(p);
      }
    }
  }

  lemma BeginKeepsInv(s: State, a: Action)
    requires Inv(s) && (a.Load? || a.Clear? || a.Register?)
    ensures Inv(Apply(s, a))
  {
    var s' := Apply(s, a);
    if s' != s {
      assert a.call in s.calls ==> CallOk(s.rows, s.calls[a.call]);
      StepKeepsInv(s, a.call, s'.calls[a.call]);
    }
  }

  lemma SwitchKeepsInv(s: State, a: Action)
    requires Inv(s) && a.Switch?
    ensures Inv(Apply(s, a))
  {
    var s' := Apply(s, a);
    if s' != s {
      SwitchedIsOk(s.rows, a.source, a.id, a.active);
      forall j | j in s.calls
        ensures CallOk(s'.rows, s.calls[j])
      {
        CallStaysOk(s.rows, s'.rows, {a.id}, s.calls[j]);
      }
    }
  }

  lemma ApplyKeepsInv(s: State, a: Action)
    requires Inv(s)
    ensures Inv(Apply(s, a))
  {
    if a.Switch? {
      SwitchKeepsInv(s, a);
    } else if a.FinishMove? {
      if a.call in s.calls && s.calls[a.call].Moving? {
        FinishMoveKeepsInv(s, a.call, a.db);
      }
    } else if a.FinishRegister? {
      if a.call in s.calls && s.calls[a.call].Registering? {
        FinishRegisterKeepsInv(s, a.call, a.db);
      }
    } else {
      BeginKeepsInv(s, a);
    }
  }

  /**
   * At every moment of every run: names are unique on a channel, it has at most one default,
   * and that one is active.
   */
  lemma {:induction false} AtMostOneDefault(s: State, acts: seq<Action>)
    requires Inv(s)
    ensures Inv(Run(s, acts))
    decreases |acts|
  {
    if acts != [] {
      ApplyKeepsInv(s, acts[0]);
      AtMostOneDefault(Apply(s, acts[0]), acts[1..]);
    }
  }

  predicate HasDefault(t: Credentials, source: string, channel: string) {
    DefaultsOn(t, source, channel) != {}
  }

  lemma DefaultIsFound(t: Credentials, source: string, channel: string, x: Id)
    requires x in t && OnChannel(t[x], source, channel) && t[x].isDefault
    ensures HasDefault(t, source, channel)
  {
    assert x in DefaultsOn(t, source, channel);
  }

  lemma MovedHasDefault(t: Credentials, p: Phase, source: string, channel: string)
    requires TableOk(t) && p.Moving? && CallOk(t, p) && Moved(t, p.cleared, p.source, p.id, p.copy).Ok?
    requires HasDefault(t, source, channel)
    ensures HasDefault(Moved(t, p.cleared, p.source, p.id, p.copy).value, source, channel)
  {
    var t' := Moved(t, p.cleared, p.source, p.id, p.copy).value;
    var x :| x in DefaultsOn(t, source, channel);
    if x in p.cleared {
      DefaultIsFound(t', source, channel, p.id);
    } else {
      DefaultIsFound(t', source, channel, x);
    }
  }

  lemma RegisteredHasDefault(t: Credentials, p: Phase, source: string, channel: string)
    requires TableOk(t) && p.Registering? && CallOk(t, p) && Registered(t, p.cleared, p.id, p.c).Ok?
    requires HasDefault(t, source, channel)
    ensures HasDefault(Registered(t, p.cleared, p.id, p.c).value, source, channel)
  {
    var t' := Registered(t, p.cleared, p.id, p.c).value;
    var x :| x in DefaultsOn(t, source, channel);
    if x in p.cleared {
      DefaultIsFound(t', source, channel, p.id);
    } else {
      DefaultIsFound(t', source, channel, x);
    }
  }

  /** The action switches the channel's default off, and gets to. */
  predicate SwitchesDefaultOff(s: State, a: Action, source: string, channel: string) {
    && a.Switch? && !a.active && a.db.Applies() && a.source == source && a.id in DefaultsOn(s.rows, source, channel)
    && !(exists j :: j in s.calls && a.id in ClearedBy(s.calls[j]))
  }

  lemma OtherwiseKeepsADefault(s: State, a: Action, source: string, channel: string)
    requires Inv(s) && !a.Switch? && HasDefault(s.rows, source, channel)
    ensures HasDefault(Apply(s, a).rows, source, channel)
  {
    var s' := Apply(s, a);
    if s'.rows != s.rows {
      assert CallOk(s.rows, s.calls[a.call]);
      if a.FinishMove? {
        MovedHasDefault(s.rows, s.calls[a.call], source, channel);
      } else {
        RegisteredHasDefault(s.rows, s.calls[a.call], source, channel);
      }
    }
  }

  /** One action takes a channel's default away if and only if it switches that very identity off. */
  lemma LosesTheDefaultExactlyWhen(s: State, a: Action, source: string, channel: string)
    requires Inv(s) && HasDefault(s.rows, source, channel)
    ensures !HasDefault(Apply(s, a).rows, source, channel) <==> SwitchesDefaultOff(s, a, source, channel)
  {
    var rows' := Apply(s, a).rows;
    if !a.Switch? {
      OtherwiseKeepsADefault(s, a, source, channel);
    } else if SwitchesDefaultOff(s, a, source, channel) {
      forall x | x in DefaultsOn(rows', source, channel)
        ensures false
      {
        assert SameChannel(s.rows[x], s.rows[a.id]);
      }
    } else {
      var x :| x in DefaultsOn(s.rows, source, channel);
      DefaultIsFound(rows', source, channel, x);
    }
  }

  predicate NeverSwitchesDefaultOff(s: State, acts: seq<Action>, source: string, channel: string)
    decreases |acts|
  {
    acts != [] ==>
      && !SwitchesDefaultOff(s, acts[0], source, channel)
      && NeverSwitchesDefaultOff(Apply(s, acts[0]), acts[1..], source, channel)
  }

  /**
   * A channel that has a default keeps one, at every moment, through registrations and moves,
   * failed and successful, of any number of callers, and through switches of everything else.
   */
  lemma {:induction false} NoMoveLosesTheDefault(s: State, acts: seq<Action>, source: string, channel: string)
    requires Inv(s) && NeverSwitchesDefaultOff(s, acts, source, channel) && HasDefault(s.rows, source, channel)
    ensures HasDefault(Run(s, acts).rows, source, channel)
    decreases |acts|
  {
    if acts != [] {
      LosesTheDefaultExactlyWhen(s, acts[0], source, channel);
      ApplyKeepsInv(s, acts[0]);
      NoMoveLosesTheDefault(Apply(s, acts[0]), acts[1..], source, channel);
    }
  }

  /** What a second half leaves: the channel's only default is the new one, and nothing else moved. */
  lemma MoveTakesOver(t: Credentials, p: Phase)
    requires TableOk(t) && p.Moving? && CallOk(t, p) && Moved(t, p.cleared, p.source, p.id, p.copy).Ok?
    ensures var t' := Moved(t, p.cleared, p.source, p.id, p.copy).value;
            && t'.Keys == t.Keys
            && DefaultsOn(t', p.source, p.copy.channel) == {p.id}
            && (forall x :: x in t && x != p.id && x !in DefaultsOn(t, p.source, p.copy.channel) ==> t'[x] == t[x])
  {
    var t' := Moved(t, p.cleared, p.source, p.id, p.copy).value;
    assert p.id in DefaultsOn(t', p.source, p.copy.channel);
    forall x | x in DefaultsOn(t', p.source, p.copy.channel)
      ensures x == p.id
    {
      assert SameChannel(t'[x], t'[p.id]);
    }
  }

  // --- the use case ----------------------------------------------------------

  predicate NameIsFree(t: Credentials, c: Credential) {
    forall x :: x in t && SameChannel(t[x], c) ==> t[x].name != c.name
  }

  /** The channel's default was cleared first, if it is not the new one itself. */
  predicate NoneLeft(t: Credentials, cleared: set<Id>, source: string, channel: string, id: Id) {
    DefaultsOn(t, source, channel) <= cleared + {id}
  }

  /**
   * A registration's insert succeeds exactly when its id and its name are free and, if it is to
   * be the default, nobody became the default that its clear has missed.
   */
  lemma RegistersExactlyWhen(t: Credentials, p: Phase)
    requires TableOk(t) && p.Registering? && CallOk(t, p)
    ensures Registered(t, p.cleared, p.id, p.c).Ok? <==>
            && p.id !in t && NameIsFree(t, p.c)
            && (p.c.isDefault ==> NoneLeft(t, p.cleared, p.c.source, p.c.channel, p.id))
  {
    var t1 := Cleared(t, p.cleared);
    if p.id !in t {
      var t2 := t1[p.id := p.c];
      NewNameIsUnique(t, t2, p.id);
      if OneDefault(t2) && p.c.isDefault {
        forall x | x in DefaultsOn(t, p.c.source, p.c.channel)
          ensures x in p.cleared
        {
          assert SameChannel(t2[x], t2[p.id]);
        }
      }
    }
  }

  lemma NewNameIsUnique(t: Credentials, t': Credentials, id: Id)
    requires NamesAreUnique(t) && id !in t && t'.Keys == t.Keys + {id}
    requires forall x :: x in t ==> SameChannel(t[x], t'[x]) && t[x].name == t'[x].name
    ensures NamesAreUnique(t') <==> NameIsFree(t, t'[id])
  {
    if NamesAreUnique(t') {
      forall x | x in t && SameChannel(t[x], t'[id])
        ensures t[x].name != t'[id].name
      {
        assert SameChannel(t'[x], t'[id]);
      }
    }
  }

  /**
   * The second half of a move succeeds exactly when the identity was active as loaded, still is,
   * and nobody became the default that the clear has missed.
   */
  lemma MovesExactlyWhen(t: Credentials, p: Phase)
    requires TableOk(t) && p.Moving? && CallOk(t, p)
    ensures Moved(t, p.cleared, p.source, p.id, p.copy).Ok? <==>
            p.copy.isActive && t[p.id].isActive && NoneLeft(t, p.cleared, p.source, p.copy.channel, p.id)
  {
    var t1 := Cleared(t, p.cleared);
    NewDefaultIsIndexed(t, t1[p.id := t1[p.id].(isDefault := true)], p.cleared, p.id);
  }

  /** The rows as they were, but for the flag: off where it was cleared, on for the new default. */
  predicate FlagMoves(t: Credentials, t': Credentials, cleared: set<Id>, id: Id) {
    && t'.Keys == t.Keys
    && forall x :: x in t ==>
         && SameChannel(t[x], t'[x]) && t'[x].name == t[x].name
         && (t'[x].isDefault <==> x == id || (t[x].isDefault && x !in cleared))
  }

  lemma NewDefaultIsIndexed(t: Credentials, t': Credentials, cleared: set<Id>, id: Id)
    requires NamesAreUnique(t) && OneDefault(t) && id in t && FlagMoves(t, t', cleared, id)
    ensures Indexed(t') <==> NoneLeft(t, cleared, t[id].source, t[id].channel, id)
  {
    assert NamesAreUnique(t');
    if OneDefault(t') {
      forall x | x in DefaultsOn(t, t[id].source, t[id].channel)
        ensures x in cleared + {id}
      {
        assert SameChannel(t'[x], t'[id]);
      }
    }
    if NoneLeft(t, cleared, t[id].source, t[id].channel, id) {
      forall x | x in t' && SameChannel(t'[x], t'[id]) && t'[x].isDefault
        ensures x == id
      {
        assert t[x].isDefault ==> x in DefaultsOn(t, t[id].source, t[id].channel);
      }
    }
  }

  lemma {:induction false} ThreeSteps(s: State, a: Action, b: Action, c: Action)
    ensures Run(s, [a, b, c]) == Apply(Apply(Apply(s, a), b), c)
  {
    assert [a, b, c][1..] == [b, c] && [b, c][1..] == [c] && [c][1..] == [];
    assert Run(Apply(Apply(s, a), b), [c]) == Apply(Apply(Apply(s, a), b), c);
    assert Run(Apply(s, a), [b, c]) == Run(Apply(Apply(s, a), b), [c]);
  }

  lemma {:induction false} TwoSteps(s: State, a: Action, b: Action)
    ensures Run(s, [a, b]) == Apply(Apply(s, a), b)
  {
    assert [a, b][1..] == [b] && [b][1..] == [];
    assert Run(Apply(s, a), [b]) == Apply(Apply(s, a), b);
  }

  datatype Stored = Stored(rows: Credentials, error: Option<CredentialError>)

  function ErrorOf(r: Result<Credentials, CredentialError>): Option<CredentialError> {
    match r
    case Ok(_) => None
    case Err(e) => Some(e)
  }

  /** What a registration's clear matches when nobody is in its way. */
  function ToClear(t: Credentials, c: Credential): set<Id> {
    if c.isDefault then DefaultsOn(t, c.source, c.channel) else {}
  }

  /** And a move's. */
  function ToClearFor(t: Credentials, id: Id): set<Id> {
    if id in t then DefaultsOn(t, t[id].source, t[id].channel) else {}
  }

  function RegistrationOf(t: Credentials, id: Id, c: Credential, clear: Db, finish: Db): Stored {
    var w := Registered(t, ToClear(t, c), id, c);
    if clear.Fault? then Stored(t, Some(Unavailable))
    else match w {
      case Err(e) => Stored(t, Some(e))
      case Ok(t') => Stored(if finish.Applies() then t' else t, if finish.Fine? then None else Some(Unavailable))
    }
  }

  lemma RegistrationIsARun(t: Credentials, id: Id, c: Credential, clear: Db, finish: Db)
    requires c.isActive
    ensures var r := RegistrationOf(t, id, c, clear, finish);
            State(r.rows, map[0 := Ended(r.error)]) ==
            Run(State(t, map[]),
                [Register(0, id, c.source, c.channel, c.name, c.isDefault, ToClear(t, c), clear),
                 FinishRegister(0, finish)])
  {
    var s := State(t, map[]);
    var a := Register(0, id, c.source, c.channel, c.name, c.isDefault, ToClear(t, c), clear);
    var b := FinishRegister(0, finish);
    TwoSteps(s, a, b);
    var s1 := Apply(s, a);
    assert clear.Fine? ==> s1.calls[0] == Registering(id, c, ToClear(t, c));
    assert Apply(s1, b).calls == map[0 := Apply(s1, b).calls[0]];
  }

  /** The new row is there, active; if it takes the default over it is the channel's only one; nothing else moved. */
  predicate RegistrationTakesOver(t: Credentials, t': Credentials, id: Id, c: Credential) {
    && t'.Keys == t.Keys + {id} && t'[id] == c
    && (c.isDefault ==> DefaultsOn(t', c.source, c.channel) == {id})
    && forall x :: x in t && !(c.isDefault && x in DefaultsOn(t, c.source, c.channel)) ==> t'[x] == t[x]
  }

  lemma RegistrationIs(t: Credentials, id: Id, c: Credential, clear: Db, finish: Db)
    requires TableOk(t) && c.isActive
    ensures var r := RegistrationOf(t, id, c, clear, finish);
            && TableOk(r.rows)
            && (r.error.None? <==> clear.Fine? && finish.Fine? && id !in t && NameIsFree(t, c))
            && (r.error.None? ==> RegistrationTakesOver(t, r.rows, id, c))
            && (r.error.Some? && finish != Fault(true) ==> r.rows == t)
  {
    var cleared := ToClear(t, c);
    RegistersExactlyWhen(t, Registering(id, c, cleared));
    var w := Registered(t, cleared, id, c);
    if w.Ok? {
      RegisteredIsOk(t, cleared, id, c);
      if c.isDefault {
        NewDefaultIsAlone(t, cleared, id, c);
      }
    }
  }

  lemma NewDefaultIsAlone(t: Credentials, cleared: set<Id>, id: Id, c: Credential)
    requires Registered(t, cleared, id, c).Ok? && c.isDefault
    ensures DefaultsOn(Registered(t, cleared, id, c).value, c.source, c.channel) == {id}
  {
    var t' := Registered(t, cleared, id, c).value;
    assert id in DefaultsOn(t', c.source, c.channel);
    forall x | x in DefaultsOn(t', c.source, c.channel)
      ensures x == id
    {
      assert SameChannel(t'[x], t'[id]);
    }
  }

  class CredentialUseCase {
    var rows: Credentials

    constructor ()
      ensures rows == map[]
    {
      rows := map[];
    }

    /** The transaction of a registration: the clear, if it takes the default over, and the insert. */
    method Write(id: Id, c: Credential, clear: Db, finish: Db) returns (error: Option<CredentialError>)
      modifies this
      ensures Stored(rows, error) == RegistrationOf(old(rows), id, c, clear, finish)
    {
      if clear.Fault? {
        return Some(Unavailable);
      }
      var cleared: set<Id> := {};
      if c.isDefault {
        cleared := DefaultsOn(rows, c.source, c.channel);
      }
      var written := Registered(rows, cleared, id, c);
      if written.Err? {
        return Some(written.error);
      }
      if finish.Applies() {
        rows := written.value;
      }
      return if finish.Fine? then None else Some(Unavailable);
    }

    /** Opens an identity, taking the default over when asked to. */
    method Register(id: Id, source: string, channel: string, name: string, asDefault: bool, clear: Db, finish: Db)
      returns (error: Option<CredentialError>)
      requires TableOk(rows)
      modifies this
      ensures TableOk(rows)
      ensures error.None? <==>
              && NameIsUsable(name) && clear.Fine? && finish.Fine?
              && id !in old(rows) && NameIsFree(old(rows), Credential(source, channel, name, asDefault, true))
      ensures error.None? ==>
                RegistrationTakesOver(old(rows), rows, id, Credential(source, channel, name, asDefault, true))
      ensures error.Some? && finish != Fault(true) ==> rows == old(rows)
      ensures NameIsUsable(name) ==>
              State(rows, map[0 := Ended(error)]) ==
              Run(State(old(rows), map[]),
                  [Action.Register(0, id, source, channel, name, asDefault,
                                   ToClear(old(rows), Credential(source, channel, name, asDefault, true)), clear),
                   FinishRegister(0, finish)])
    {
      var bad := ValidateName(name);
      if bad.Some? {
        return bad;
      }
      var c := Credential(source, channel, name, asDefault, true);
      RegistrationIsARun(rows, id, c, clear, finish);
      RegistrationIs(rows, id, c, clear, finish);
      error := Write(id, c, clear, finish);
    }

    /** Makes this the channel's default in place of whichever is. */
    method SetDefault(source: string, id: Id, now: Time, load: Db, clear: Db, finish: Db)
      returns (error: Option<CredentialError>)
      requires TableOk(rows)
      modifies this
      ensures TableOk(rows)
      ensures error.None? <==>
              && id in old(rows) && old(rows)[id].source == source && old(rows)[id].isActive
              && load.Fine? && clear.Fine? && finish.Fine?
      ensures error.None? ==> DefaultsOn(rows, source, old(rows)[id].channel) == {id}
      ensures error.Some? && finish != Fault(true) ==> rows == old(rows)
      ensures State(rows, map[0 := Ended(error)]) ==
              Run(State(old(rows), map[]),
                  [Load(0, source, id, load), Clear(0, ToClearFor(old(rows), id), clear), FinishMove(0, finish)])
    {
      ghost var s0 := State(rows, map[]);
      ThreeSteps(s0, Load(0, source, id, load), Clear(0, ToClearFor(rows, id), clear), FinishMove(0, finish));
      if load.Fault? {
        return Some(Unavailable);
      }
      if id !in rows || rows[id].source != source {
        return Some(UnknownName);
      }
      var copy := rows[id];
      if clear.Fault? {
        return Some(Unavailable);
      }
      var cleared := DefaultsOn(rows, source, copy.channel);
      MovesExactlyWhen(rows, Moving(source, id, copy, cleared));
      var entity := new Identity.Restore(copy.isDefault, copy.isActive, 0);
      var refused := entity.MakeDefault(now);
      if refused.Some? {
        return refused;
      }
      var written := Moved(rows, cleared, source, id, copy);
      if ErrorOf(written).Some? {
        return ErrorOf(written);
      }
      MovedIsOk(rows, cleared, source, id, copy);
      MoveTakesOver(rows, Moving(source, id, copy, cleared));
      if finish.Applies() {
        rows := written.value;
      }
      return if finish.Fine? then None else Some(Unavailable);
    }

    /** Switches an identity off, or on. Finding it in the asked-for state already is no error. */
    method SetActive(source: string, id: Id, active: bool, load: Db, write: Db) returns (error: Option<CredentialError>)
      requires TableOk(rows)
      modifies this
      ensures TableOk(rows)
      ensures error.None? <==> id in old(rows) && old(rows)[id].source == source && load.Fine? && write.Fine?
      ensures error.None? ==>
                id in rows && rows[id].isActive == active && (rows[id].isDefault <==> active && old(rows)[id].isDefault)
      ensures forall x :: x in old(rows) && x != id ==> x in rows && rows[x] == old(rows)[x]
      ensures error.Some? && write != Fault(true) ==> rows == old(rows)
      ensures rows == old(rows) || rows == Apply(State(old(rows), map[]), Switch(source, id, active, write)).rows
    {
      if load.Fault? {
        return Some(Unavailable);
      }
      if id !in rows || rows[id].source != source {
        return Some(UnknownName);
      }
      SwitchedIsOk(rows, source, id, active);
      if write.Applies() {
        rows := Switched(rows, source, id, active);
      }
      return if write.Fine? then None else Some(Unavailable);
    }
  }
}
