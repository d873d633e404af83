/**
 * The recovery claim: while a claim's lease is running, no other sweep holds the row.
 *
 * The claim is released by delivery id alone, and the broker's workers release too. So the
 * guarantee rests on the releases: it holds in every run in which none opens a row that
 * somebody else holds live, and after any release that does the next sweeps can break it.
 */
module Leases {
  import opened Basics
  import opened Ordering
  import opened Deliveries
  import opened Worker
  import opened Protocol
  import opened DispatchSafety

  /** The delivery a worker has in hand: loaded, and its outcome not written yet. */
  function InHand(p: Phase): Option<Id> {
    match p
    case Loaded(cur) => Some(cur.id)
    case NeedsSender(cur, n) => Some(cur.id)
    case Sending(cur, n) => Some(cur.id)
    case Writing(cur, told, o) => Some(cur.id)
    case Releasing(cur) => Some(cur.id)
    case _ => None
  }

  /** A sweep holds the rows it claimed and has not dealt with. */
  predicate Holds(w: Worker, d: Id) {
    w.job.Sweep? && !w.phase.Finished? && (Lists(w.todo, d) || InHand(w.phase) == Some(d))
  }

  /** ... and holds it live until the lease its claim was made with is over. */
  predicate Live(cfg: Config, s: State, w: Id, d: Id) {
    w in s.workers && Holds(s.workers[w], d) && s.now <= s.workers[w].claimedAt + cfg.lease
  }

  /** At most one sweep holds a pending row live. */
  ghost predicate Exclusive(cfg: Config, s: State) {
    forall d, a, b :: IsPending(s.rows, d) && Live(cfg, s, a, d) && Live(cfg, s, b, d) ==> a == b
  }

  /** A live claim is the one on the row, and its holder the last to have claimed it. */
  ghost predicate Marked(cfg: Config, s: State) {
    forall d, w :: IsPending(s.rows, d) && Live(cfg, s, w, d) ==>
      && s.rows[d].claimedAt == Some(s.workers[w].claimedAt)
      && d in s.holder && s.holder[d] == w
  }

  lemma MarkedIsExclusive(cfg: Config, s: State)
    requires Marked(cfg, s)
    ensures Exclusive(cfg, s)
  {
  }

  // --- a sweep has a row once ------------------------------------------------

  predicate OnceEach(w: Worker) {
    && (w.job.Event? ==> w.todo == [] && !w.phase.Sweeping?)
    && (forall i, j :: 0 <= i < j < |w.todo| ==> w.todo[i].id != w.todo[j].id)
    && (InHand(w.phase).Some? ==> !Lists(w.todo, InHand(w.phase).value))
  }

  lemma ClaimedOnce(rows: Table, ids: set<Id>, at: Time)
    requires ids <= rows.Keys
    ensures var es := ClaimedEntries(rows, ids, at);
            forall i, j :: 0 <= i < j < |es| ==> es[i].id != es[j].id
  {
    InOrderLists(false, ids);
  }

  lemma StepKeepsOnceEach(cfg: Config, messages: Messages, rows: Table, w: Worker, input: Input)
    requires OnceEach(w)
    ensures OnceEach(WorkerAfter(cfg, messages, rows, w, input))
  {
    if w.phase.Sweeping? {
      ClaimedOnce(rows, SweptRows(cfg, rows, input.at), input.at);
    } else if w.phase.Idle? && w.todo != [] {
      var rest := w.todo[1..];
      assert forall k :: 0 <= k < |rest| ==> rest[k] == w.todo[k + 1];
    }
  }

  predicate AllOnceEach(s: State) {
    forall w :: w in s.workers ==> OnceEach(s.workers[w])
  }

  lemma ApplyKeepsOnceEach(cfg: Config, s: State, a: Action)
    requires AllOnceEach(s)
    ensures AllOnceEach(Apply(cfg, s, a))
  {
    if a.Act? && a.w in s.workers && a.input.at <= s.now {
      StepKeepsOnceEach(cfg, s.messages, s.rows, s.workers[a.w], a.input);
    }
  }

  // --- one step --------------------------------------------------------------

  /** The action is a release that takes the claim off a pending row. */
  predicate Unclaims(s: State, a: Action) {
    && a.Act? && a.w in s.workers && a.input.at <= s.now && a.input.db.Applies()
    && s.workers[a.w].phase.Releasing? && IsPending(s.rows, s.workers[a.w].phase.cur.id)
  }

  /** ... and nobody else holds that row live. */
  predicate ReleasesAlone(cfg: Config, s: State, a: Action) {
    Unclaims(s, a) ==>
      forall x :: x in s.workers && Live(cfg, s, x, s.workers[a.w].phase.cur.id) ==> x == a.w
  }

  /** A release by whoever claimed the row last is one such. */
  lemma LastClaimerReleasesAlone(cfg: Config, s: State, a: Action)
    requires Marked(cfg, s) && Unclaims(s, a)
    requires var d := s.workers[a.w].phase.cur.id; d in s.holder && s.holder[d] == a.w
    ensures ReleasesAlone(cfg, s, a)
  {
  }

  /** No step adds a row to what a worker holds, except a sweep's claim. */
  lemma StepHoldsNoMore(cfg: Config, messages: Messages, rows: Table, w: Worker, input: Input, d: Id)
    requires Holds(WorkerAfter(cfg, messages, rows, w, input), d)
    ensures || (w.phase.Sweeping? && d in SweptRows(cfg, rows, input.at))
            || (Holds(w, d) && WorkerAfter(cfg, messages, rows, w, input).claimedAt == w.claimedAt)
  {
    var w' := WorkerAfter(cfg, messages, rows, w, input);
    if w.phase.Sweeping? {
      var k :| 0 <= k < |w'.todo| && w'.todo[k].id == d;
      SweepEntries(cfg, rows, input.at, w'.todo[k]);
    } else if w.phase.Idle? {
      if Lists(w'.todo, d) {
        var k :| 0 <= k < |w'.todo| && w'.todo[k].id == d;
        assert w.todo[k + 1].id == d;
      } else {
        assert w.todo[0].id == d;
      }
    }
  }

  /** What a step that is not a sweep's claim does to the claim of a row it leaves pending. */
  lemma StepLeavesClaim(cfg: Config, s: State, w: Worker, input: Input, d: Id)
    requires d in s.rows && !w.phase.Sweeping?
    requires IsPending(RowsAfter(cfg, s.rows, w, input), d)
    ensures IsPending(s.rows, d)
    ensures RowsAfter(cfg, s.rows, w, input)[d].claimedAt == s.rows[d].claimedAt
            || (w.phase.Releasing? && w.phase.cur.id == d)
  {
  }

  lemma SweepKeepsMarked(cfg: Config, s: State, wid: Id, input: Input, x: Id, d: Id)
    requires Marked(cfg, s) && wid in s.workers && input.at <= s.now && s.workers[wid].phase.Sweeping?
    requires var s' := WorkerStep(cfg, s, wid, input);
             IsPending(s'.rows, d) && Live(cfg, s', x, d)
    ensures var s' := WorkerStep(cfg, s, wid, input);
            && s'.rows[d].claimedAt == Some(s'.workers[x].claimedAt)
            && d in s'.holder && s'.holder[d] == x
  {
    var w := s.workers[wid];
    var s' := WorkerStep(cfg, s, wid, input);
    var ids := SweptRows(cfg, s.rows, input.at);
    if x == wid {
      assert s'.workers[x] == WorkerAfter(cfg, s.messages, s.rows, w, input);
      StepHoldsNoMore(cfg, s.messages, s.rows, w, input, d);
    } else {
      assert Live(cfg, s, x, d);
      assert d !in ids;
    }
  }

  lemma OtherStepKeepsMarked(cfg: Config, s: State, wid: Id, input: Input, x: Id, d: Id)
    requires Marked(cfg, s) && wid in s.workers && input.at <= s.now && !s.workers[wid].phase.Sweeping?
    requires OnceEach(s.workers[wid]) && !Unclaims(s, Act(wid, input))
    requires var s' := WorkerStep(cfg, s, wid, input);
             d in s.rows && IsPending(s'.rows, d) && Live(cfg, s', x, d)
    ensures var s' := WorkerStep(cfg, s, wid, input);
            && s'.rows[d].claimedAt == Some(s'.workers[x].claimedAt)
            && d in s'.holder && s'.holder[d] == x
  {
    var w := s.workers[wid];
    var s' := WorkerStep(cfg, s, wid, input);
    StepLeavesClaim(cfg, s, w, input, d);
    if x == wid {
      assert s'.workers[x] == WorkerAfter(cfg, s.messages, s.rows, w, input);
      StepHoldsNoMore(cfg, s.messages, s.rows, w, input, d);
    }
    assert Live(cfg, s, x, d);
  }

  lemma StepKeepsMarked(cfg: Config, s: State, wid: Id, input: Input)
    requires Inv(s) && Marked(cfg, s) && AllOnceEach(s) && wid in s.workers && input.at <= s.now
    requires !Unclaims(s, Act(wid, input))
    ensures Marked(cfg, WorkerStep(cfg, s, wid, input))
  {
    var s' := WorkerStep(cfg, s, wid, input);
    StepMovesRows(cfg, s, s.workers[wid], input);
    forall d, x | IsPending(s'.rows, d) && Live(cfg, s', x, d)
      ensures s'.rows[d].claimedAt == Some(s'.workers[x].claimedAt) && d in s'.holder && s'.holder[d] == x
    {
      if s.workers[wid].phase.Sweeping? {
        SweepKeepsMarked(cfg, s, wid, input, x, d);
      } else {
        OtherStepKeepsMarked(cfg, s, wid, input, x, d);
      }
    }
  }

  lemma HeldIsKnown(s: State, w: Id, d: Id)
    requires Inv(s) && w in s.workers && Holds(s.workers[w], d)
    ensures d in s.openedIds
  {
    var x := s.workers[w];
    assert WorkerInv(s, w, x);
    if Lists(x.todo, d) {
      var k :| 0 <= k < |x.todo| && x.todo[k].id == d;
      assert x.todo[k] in x.todo;
    }
  }

  lemma EnvironmentKeepsMarked(cfg: Config, s: State, a: Action)
    requires Inv(s) && Marked(cfg, s) && !a.Act?
    ensures Marked(cfg, Apply(cfg, s, a))
  {
    EnvironmentLeavesHolders(cfg, s, a);
    LeftAloneKeepsMarked(cfg, s, Apply(cfg, s, a));
  }

  /** Nobody comes to hold anything, and a row that somebody may hold stays as it is. */
  ghost predicate HoldersLeftAlone(s: State, s': State) {
    && s'.now >= s.now && s'.holder == s.holder
    && (forall w, d :: w in s'.workers && Holds(s'.workers[w], d) ==> w in s.workers && s'.workers[w] == s.workers[w])
    && (forall d :: d in s'.rows && d in s.openedIds ==> d in s.rows && s'.rows[d] == s.rows[d])
  }

  lemma StaffingLeavesHolders(cfg: Config, s: State, a: Action)
    requires IsStaffing(a)
    ensures HoldersLeftAlone(s, Apply(cfg, s, a))
  {
  }

  lemma TablesLeaveHolders(cfg: Config, s: State, a: Action)
    requires a.Tick? || a.Accept? || a.Purge?
    ensures HoldersLeftAlone(s, Apply(cfg, s, a))
  {
  }

  lemma EnvironmentLeavesHolders(cfg: Config, s: State, a: Action)
    requires !a.Act?
    ensures HoldersLeftAlone(s, Apply(cfg, s, a))
  {
    if IsStaffing(a) {
      StaffingLeavesHolders(cfg, s, a);
    } else {
      TablesLeaveHolders(cfg, s, a);
    }
  }

  lemma LeftAloneKeepsMarked(cfg: Config, s: State, s': State)
    requires Inv(s) && Marked(cfg, s) && HoldersLeftAlone(s, s')
    ensures Marked(cfg, s')
  {
    forall d, w | IsPending(s'.rows, d) && Live(cfg, s', w, d)
      ensures s'.rows[d].claimedAt == Some(s'.workers[w].claimedAt) && d in s'.holder && s'.holder[d] == w
    {
      HeldIsKnown(s, w, d);
      assert Live(cfg, s, w, d);
    }
  }

  // --- when a release is safe ------------------------------------------------

  /**
   * A release that reaches a pending row leaves the claims marked exactly when nobody else
   * holds the row live, whichever path it came by.
   */
  lemma ReleaseIsSafeExactlyWhenAlone(cfg: Config, s: State, a: Action)
    requires Inv(s) && Marked(cfg, s) && AllOnceEach(s) && Unclaims(s, a)
    ensures Marked(cfg, Apply(cfg, s, a)) <==> ReleasesAlone(cfg, s, a)
  {
    var w := s.workers[a.w];
    var d := w.phase.cur.id;
    var s' := WorkerStep(cfg, s, a.w, a.input);
    assert s'.rows == ReleaseClaim(s.rows, d) && s'.rows[d].claimedAt.None? && IsPending(s'.rows, d);
    if x :| x in s.workers && Live(cfg, s, x, d) && x != a.w {
      assert s'.workers[x] == s.workers[x];
      assert Live(cfg, s', x, d);
    } else {
      AloneKeepsMarked(cfg, s, a);
    }
  }

  lemma AloneKeepsMarked(cfg: Config, s: State, a: Action)
    requires Inv(s) && Marked(cfg, s) && AllOnceEach(s) && Unclaims(s, a) && ReleasesAlone(cfg, s, a)
    ensures Marked(cfg, WorkerStep(cfg, s, a.w, a.input))
  {
    var w := s.workers[a.w];
    var s' := WorkerStep(cfg, s, a.w, a.input);
    forall e, x | IsPending(s'.rows, e) && Live(cfg, s', x, e)
      ensures s'.rows[e].claimedAt == Some(s'.workers[x].claimedAt) && e in s'.holder && s'.holder[e] == x
    {
      if x == a.w {
        assert s'.workers[x] == WorkerAfter(cfg, s.messages, s.rows, w, a.input);
        StepHoldsNoMore(cfg, s.messages, s.rows, w, a.input, e);
      }
      assert Live(cfg, s, x, e);
      assert e != w.phase.cur.id;
    }
  }

  // --- every run -------------------------------------------------------------

  lemma ApplyMarksExactlyWhen(cfg: Config, s: State, a: Action)
    requires Inv(s) && Marked(cfg, s) && AllOnceEach(s)
    ensures Marked(cfg, Apply(cfg, s, a)) <==> ReleasesAlone(cfg, s, a)
  {
    if Unclaims(s, a) {
      ReleaseIsSafeExactlyWhenAlone(cfg, s, a);
    } else if !a.Act? {
      EnvironmentKeepsMarked(cfg, s, a);
    } else if a.w in s.workers && a.input.at <= s.now {
      StepKeepsMarked(cfg, s, a.w, a.input);
    }
  }

  /** Whenever a release takes the claim off a pending row, nobody else holds that row live. */
  predicate AllReleaseAlone(cfg: Config, s: State, acts: seq<Action>)
    decreases |acts|
  {
    acts != [] ==> ReleasesAlone(cfg, s, acts[0]) && AllReleaseAlone(cfg, Apply(cfg, s, acts[0]), acts[1..])
  }

  /** Marked now and after every action of the run. */
  ghost predicate StaysMarked(cfg: Config, s: State, acts: seq<Action>)
    decreases |acts|
  {
    Marked(cfg, s) && (acts != [] ==> StaysMarked(cfg, Apply(cfg, s, acts[0]), acts[1..]))
  }

  /** The claims on the rows stay true through a run if and only if every release in it is alone. */
  lemma {:induction false} StaysMarkedExactlyWhenAlone(cfg: Config, s: State, acts: seq<Action>)
    requires Inv(s) && Marked(cfg, s) && AllOnceEach(s)
    ensures StaysMarked(cfg, s, acts) <==> AllReleaseAlone(cfg, s, acts)
    ensures AllReleaseAlone(cfg, s, acts) ==> Marked(cfg, Run(cfg, s, acts))
    decreases |acts|
  {
    if acts != [] {
      ApplyMarksExactlyWhen(cfg, s, acts[0]);
      if ReleasesAlone(cfg, s, acts[0]) {
        ApplyKeepsInv(cfg, s, acts[0]);
        ApplyKeepsOnceEach(cfg, s, acts[0]);
        StaysMarkedExactlyWhenAlone(cfg, Apply(cfg, s, acts[0]), acts[1..]);
      }
    }
  }

  /** Every release that takes a claim off a pending row is by whoever claimed that row last. */
  predicate OnlyLastClaimersRelease(cfg: Config, s: State, acts: seq<Action>)
    decreases |acts|
  {
    acts != [] ==>
      && (Unclaims(s, acts[0]) ==>
            var d := s.workers[acts[0].w].phase.cur.id; d in s.holder && s.holder[d] == acts[0].w)
      && OnlyLastClaimersRelease(cfg, Apply(cfg, s, acts[0]), acts[1..])
  }

  /** One way to get there, which a releasing worker could see to by itself. */
  lemma {:induction false} LastClaimersReleaseAlone(cfg: Config, s: State, acts: seq<Action>)
    requires Inv(s) && Marked(cfg, s) && AllOnceEach(s) && OnlyLastClaimersRelease(cfg, s, acts)
    ensures AllReleaseAlone(cfg, s, acts)
    decreases |acts|
  {
    if acts != [] {
      if Unclaims(s, acts[0]) {
        LastClaimerReleasesAlone(cfg, s, acts[0]);
      }
      ApplyMarksExactlyWhen(cfg, s, acts[0]);
      ApplyKeepsInv(cfg, s, acts[0]);
      ApplyKeepsOnceEach(cfg, s, acts[0]);
      LastClaimersReleaseAlone(cfg, Apply(cfg, s, acts[0]), acts[1..]);
    }
  }

  /**
   * Two sweeps never hold one pending row inside a lease, in any run in which no release opens
   * a row that somebody else holds live -- on the broker's path or on recovery's.
   */
  lemma {:induction false} LeaseIsExclusive(cfg: Config, acts: seq<Action>)
    requires AllReleaseAlone(cfg, Start(), acts)
    ensures Exclusive(cfg, Run(cfg, Start(), acts))
  {
    StaysMarkedExactlyWhenAlone(cfg, Start(), acts);
    MarkedIsExclusive(cfg, Run(cfg, Start(), acts));
  }

  // --- the run that breaks it ------------------------------------------------

  function TryLater(at: Time): Input {
    Input(Fine, at, Found, NotSent(Transient, "try later"), Active)
  }

  /**
   * A broker worker loads delivery 0. A sweep claims it. The broker worker's send fails
   * transiently and it releases the claim it never had. A second sweep claims it at once.
   */
  function Trespass(): seq<Action> {
    [ Accept(Message(0, 0, None), map[0 := NewRow(0, Recipient("email", "a@b"), "", 0)]),
      Offer(1, 0, 1),
      Act(1, TryLater(0)),   // reads the row
      Act(1, TryLater(0)),   // reads the message
      Act(1, TryLater(0)),   // resolves the sender
      Tick(5),
      StartSweep(2),
      Act(2, TryLater(5)),   // claims the row
      Act(1, TryLater(5)),   // the send fails
      Act(1, TryLater(5)),   // releases by id
      StartSweep(3),
      Act(3, TryLater(5)) ]  // claims the row again
  }

  lemma OnlyRowIsSwept(cfg: Config, rows: Table, at: Time)
    requires rows.Keys == {0} && cfg.batch > 0 && Claimable(rows[0], at - cfg.after, at - cfg.lease)
    ensures SweptRows(cfg, rows, at) == {0}
    ensures ClaimedEntries(rows, {0}, at) == [Entry(0, rows[0].(claimedAt := Some(at)))]
  {
    var all := AllClaimable(rows, at - cfg.after, at - cfg.lease);
    assert all == {0};
    TakesTheOldest(rows, all, cfg.batch);
    var swept := SweptRows(cfg, rows, at);
    assert |swept| == 1 && swept <= {0};
    SameSizeIsAll(swept, {0});
    InOrderLists(false, {0});
    var ids := InOrder(false, {0});
    assert |ids| == 1 && ids[0] in ids;
    assert ids == [0];
  }

  /** A step that writes no row changes its worker and nothing else. */
  lemma LookupStep(cfg: Config, s: State, wid: Id, input: Input)
    requires wid in s.workers && input.at <= s.now
    requires !Writes(s.workers[wid]) && MishapOf(s.rows, s.workers[wid], input) == {}
    ensures Apply(cfg, s, Act(wid, input)) ==
            s.(workers := s.workers[wid := WorkerAfter(cfg, s.messages, s.rows, s.workers[wid], input)])
  {
    assert Held(s.holder, {}, wid) == s.holder;
  }

  const TIGHT: Config := Config(5, 1, 100, 10, 10)
  const MAIL: Row := NewRow(0, Recipient("email", "a@b"), "", 0)
  const CLAIMED: Row := MAIL.(claimedAt := Some(5))

  function BrokerAt(phase: Phase): Worker {
    Handling(0, 1).(phase := phase)
  }

  function BrokerDone(): Worker {
    BrokerAt(Finished(false)).(attempts := [Attempt(0, Some(0), false, false, true)])
  }

  function SweepWith(rows: seq<Entry>): Worker {
    Recovering().(phase := Clocking, todo := rows, claimedAt := 5)
  }

  function Scene(now: Time, row: Row, workers: map<Id, Worker>, holder: map<Id, Id>): State {
    State(now, map[0 := Message(0, 0, None)], map[0 := row], workers, [], {0}, {0}, map[], holder, {})
  }

  lemma BrokerIsOffered()
    ensures var a := Trespass();
            Apply(TIGHT, Apply(TIGHT, Start(), a[0]), a[1]) == Scene(0, MAIL, map[1 := Handling(0, 1)], map[])
  {
    var a := Trespass();
    var s1 := Apply(TIGHT, Start(), a[0]);
    assert s1 == Scene(0, MAIL, map[], map[]);
  }

  lemma BrokerReads(s: State)
    requires s == Scene(0, MAIL, map[1 := Handling(0, 1)], map[])
    ensures Apply(TIGHT, s, Act(1, TryLater(0))) ==
            Scene(0, MAIL, map[1 := BrokerAt(Loaded(Current(0, MAIL, false)))], map[])
  {
    LookupStep(TIGHT, s, 1, TryLater(0));
    assert s.workers[1 := BrokerAt(Loaded(Current(0, MAIL, false)))]
        == map[1 := BrokerAt(Loaded(Current(0, MAIL, false)))];
  }

  lemma BrokerFindsTheMessage(s: State)
    requires s == Scene(0, MAIL, map[1 := BrokerAt(Loaded(Current(0, MAIL, false)))], map[])
    ensures Apply(TIGHT, s, Act(1, TryLater(0))) ==
            Scene(0, MAIL, map[1 := BrokerAt(NeedsSender(Current(0, MAIL, false), Message(0, 0, None)))], map[])
  {
    LookupStep(TIGHT, s, 1, TryLater(0));
    assert s.workers[1 := BrokerAt(NeedsSender(Current(0, MAIL, false), Message(0, 0, None)))]
        == map[1 := BrokerAt(NeedsSender(Current(0, MAIL, false), Message(0, 0, None)))];
  }

  lemma BrokerLoads()
    ensures var a := Trespass();
            Apply(TIGHT, Apply(TIGHT, Apply(TIGHT, Apply(TIGHT, Start(), a[0]), a[1]), a[2]), a[3])
            == Scene(0, MAIL, map[1 := BrokerAt(NeedsSender(Current(0, MAIL, false), Message(0, 0, None)))], map[])
  {
    BrokerIsOffered();
    BrokerReads(Scene(0, MAIL, map[1 := Handling(0, 1)], map[]));
    BrokerFindsTheMessage(Scene(0, MAIL, map[1 := BrokerAt(Loaded(Current(0, MAIL, false)))], map[]));
  }

  lemma SweepTakesTheRow(rows: Table)
    requires rows == map[0 := MAIL]
    ensures SweptRows(TIGHT, rows, 5) == {0}
    ensures RowsAfter(TIGHT, rows, Recovering(), TryLater(5)) == map[0 := CLAIMED]
    ensures AfterSweep(TIGHT, Recovering(), rows, Fine, 5) == SweepWith([Entry(0, CLAIMED)])
  {
    OnlyRowIsSwept(TIGHT, rows, 5);
    assert StampClaimed(rows, {0}, 5) == map[0 := CLAIMED];
  }

  lemma SweepClaims(s: State, w: Id, others: map<Id, Worker>, holder: map<Id, Id>)
    requires s == Scene(5, MAIL, others[w := Recovering()], holder)
    ensures Apply(TIGHT, s, Act(w, TryLater(5))) ==
            Scene(5, CLAIMED, others[w := SweepWith([Entry(0, CLAIMED)])], holder[0 := w])
  {
    SweepTakesTheRow(s.rows);
    assert Held(holder, {0}, w) == holder[0 := w];
  }

  lemma FirstSweepClaims(s: State)
    requires s == Scene(0, MAIL, map[1 := BrokerAt(NeedsSender(Current(0, MAIL, false), Message(0, 0, None)))], map[])
    ensures var a := Trespass();
            var sending := BrokerAt(Sending(Current(0, MAIL, false), Message(0, 0, None)));
            Apply(TIGHT, Apply(TIGHT, Apply(TIGHT, Apply(TIGHT, s, a[4]), a[5]), a[6]), a[7])
            == Scene(5, CLAIMED, map[1 := sending, 2 := SweepWith([Entry(0, CLAIMED)])], map[0 := 2])
  {
    var a := Trespass();
    var sending := BrokerAt(Sending(Current(0, MAIL, false), Message(0, 0, None)));
    LookupStep(TIGHT, s, 1, TryLater(0));
    var s7 := Apply(TIGHT, Apply(TIGHT, Apply(TIGHT, s, a[4]), a[5]), a[6]);
    assert s7 == Scene(5, MAIL, map[1 := sending][2 := Recovering()], map[]);
    SweepClaims(s7, 2, map[1 := sending], map[]);
  }

  lemma BrokerFails(s: State, sweep: Worker)
    requires s == Scene(5, CLAIMED,
                        map[1 := BrokerAt(Sending(Current(0, MAIL, false), Message(0, 0, None))), 2 := sweep],
                        map[0 := 2])
    ensures Apply(TIGHT, s, Act(1, TryLater(5))) ==
            Scene(5, CLAIMED, map[1 := BrokerAt(Releasing(Current(0, MAIL, false))), 2 := sweep], map[0 := 2])
  {
    LookupStep(TIGHT, s, 1, TryLater(5));
  }

  lemma BrokerReleases(s: State, sweep: Worker)
    requires s == Scene(5, CLAIMED, map[1 := BrokerAt(Releasing(Current(0, MAIL, false))), 2 := sweep], map[0 := 2])
    ensures Apply(TIGHT, s, Act(1, TryLater(5))) ==
            Scene(5, MAIL, map[1 := BrokerDone(), 2 := sweep], map[0 := 2])
  {
    assert ReleaseClaim(s.rows, 0) == map[0 := MAIL];
    assert Held(s.holder, {}, 1) == s.holder;
    assert WorkerAfter(TIGHT, s.messages, s.rows, s.workers[1], TryLater(5)) == BrokerDone();
  }

  function BothHold(): State {
    var sweep := SweepWith([Entry(0, CLAIMED)]);
    Scene(5, CLAIMED, map[1 := BrokerDone(), 2 := sweep][3 := sweep], map[0 := 2][0 := 3])
  }

  lemma TrespassEnds()
    ensures Run(TIGHT, Start(), Trespass()) == BothHold()
  {
    var a := Trespass();
    var sweep := SweepWith([Entry(0, CLAIMED)]);
    BrokerLoads();
    var s4 := Apply(TIGHT, Apply(TIGHT, Apply(TIGHT, Apply(TIGHT, Start(), a[0]), a[1]), a[2]), a[3]);
    FirstSweepClaims(s4);
    var s8 := Apply(TIGHT, Apply(TIGHT, Apply(TIGHT, Apply(TIGHT, s4, a[4]), a[5]), a[6]), a[7]);
    BrokerFails(s8, sweep);
    var s9 := Apply(TIGHT, s8, a[8]);
    BrokerReleases(s9, sweep);
    var s10 := Apply(TIGHT, s9, a[9]);
    SecondSweepClaims(s10, sweep);
    RunTwelve(TIGHT, Start(), a);
  }

  lemma SecondSweepClaims(s: State, sweep: Worker)
    requires s == Scene(5, MAIL, map[1 := BrokerDone(), 2 := sweep], map[0 := 2])
    ensures var a := Trespass();
            Apply(TIGHT, Apply(TIGHT, s, a[10]), a[11])
            == Scene(5, CLAIMED, map[1 := BrokerDone(), 2 := sweep][3 := SweepWith([Entry(0, CLAIMED)])],
                     map[0 := 2][0 := 3])
  {
    var a := Trespass();
    SweepClaims(Apply(TIGHT, s, a[10]), 3, map[1 := BrokerDone(), 2 := sweep], map[0 := 2]);
  }

  /** The broker path makes the assumption necessary: this run has two sweeps holding one row live. */
  lemma BrokerReleaseBreaksTheLease()
    ensures var s := Run(TIGHT, Start(), Trespass());
            IsPending(s.rows, 0) && Live(TIGHT, s, 2, 0) && Live(TIGHT, s, 3, 0) && !Exclusive(TIGHT, s)
  {
    TrespassEnds();
    var s := BothHold();
    assert s.workers[2].todo[0].id == 0 && s.workers[3].todo[0].id == 0;
    assert Live(TIGHT, s, 2, 0) && Live(TIGHT, s, 3, 0);
  }

  lemma {:induction false} RunTwelve(cfg: Config, s: State, acts: seq<Action>)
    requires |acts| == 12
    ensures Run(cfg, s, acts) ==
            var s4 := Apply(cfg, Apply(cfg, Apply(cfg, Apply(cfg, s, acts[0]), acts[1]), acts[2]), acts[3]);
            var s8 := Apply(cfg, Apply(cfg, Apply(cfg, Apply(cfg, s4, acts[4]), acts[5]), acts[6]), acts[7]);
            Apply(cfg, Apply(cfg, Apply(cfg, Apply(cfg, s8, acts[8]), acts[9]), acts[10]), acts[11])
  {
    RunFour(cfg, s, acts);
    var s4 := Apply(cfg, Apply(cfg, Apply(cfg, Apply(cfg, s, acts[0]), acts[1]), acts[2]), acts[3]);
    RunFour(cfg, s4, acts[4..]);
    var s8 := Apply(cfg, Apply(cfg, Apply(cfg, Apply(cfg, s4, acts[4]), acts[5]), acts[6]), acts[7]);
    assert acts[4..][4..] == acts[8..];
    RunFour(cfg, s8, acts[8..]);
    assert acts[8..][4..] == [];
  }

  lemma {:induction false} RunOne(cfg: Config, s: State, acts: seq<Action>, next: State)
    requires acts != [] && Apply(cfg, s, acts[0]) == next
    ensures Run(cfg, s, acts) == Run(cfg, next, acts[1..])
  {
  }

  lemma {:induction false} RunFour(cfg: Config, s: State, acts: seq<Action>)
    requires |acts| >= 4
    ensures Run(cfg, s, acts) ==
            Run(cfg, Apply(cfg, Apply(cfg, Apply(cfg, Apply(cfg, s, acts[0]), acts[1]), acts[2]), acts[3]), acts[4..])
  {
    var s1 := Apply(cfg, s, acts[0]);
    var s2 := Apply(cfg, s1, acts[1]);
    var s3 := Apply(cfg, s2, acts[2]);
    RunOne(cfg, s, acts, s1);
    RunOne(cfg, s1, acts[1..], s2);
    assert acts[1..][1..] == acts[2..];
    RunOne(cfg, s2, acts[2..], s3);
    assert acts[2..][1..] == acts[3..];
    RunOne(cfg, s3, acts[3..], Apply(cfg, s3, acts[3]));
    assert acts[3..][1..] == acts[4..];
  }

  // --- what a release that is not alone leads to -----------------------------

  /** A pending row that is held was old enough when it was claimed, and that was not in the future. */
  ghost predicate Aged(cfg: Config, s: State) {
    forall w, d :: w in s.workers && Holds(s.workers[w], d) && IsPending(s.rows, d) ==>
      s.rows[d].updatedAt < s.workers[w].claimedAt - cfg.after && s.workers[w].claimedAt <= s.now
  }

  lemma PendingKeepsAge(cfg: Config, rows: Table, w: Worker, input: Input, d: Id)
    requires d in rows && IsPending(RowsAfter(cfg, rows, w, input), d)
    ensures IsPending(rows, d) && RowsAfter(cfg, rows, w, input)[d].updatedAt == rows[d].updatedAt
  {
  }

  lemma StepKeepsAged(cfg: Config, s: State, wid: Id, input: Input)
    requires Aged(cfg, s) && wid in s.workers && input.at <= s.now
    ensures Aged(cfg, WorkerStep(cfg, s, wid, input))
  {
    var w := s.workers[wid];
    var s' := WorkerStep(cfg, s, wid, input);
    StepMovesRows(cfg, s, w, input);
    forall x, d | x in s'.workers && Holds(s'.workers[x], d) && IsPending(s'.rows, d)
      ensures s'.rows[d].updatedAt < s'.workers[x].claimedAt - cfg.after && s'.workers[x].claimedAt <= s'.now
    {
      PendingKeepsAge(cfg, s.rows, w, input, d);
      if x == wid {
        assert s'.workers[x] == WorkerAfter(cfg, s.messages, s.rows, w, input);
        StepHoldsNoMore(cfg, s.messages, s.rows, w, input, d);
      }
    }
  }

  lemma EnvironmentKeepsAged(cfg: Config, s: State, a: Action)
    requires Inv(s) && Aged(cfg, s) && !a.Act?
    ensures Aged(cfg, Apply(cfg, s, a))
  {
    EnvironmentLeavesHolders(cfg, s, a);
    LeftAloneKeepsAged(cfg, s, Apply(cfg, s, a));
  }

  lemma LeftAloneKeepsAged(cfg: Config, s: State, s': State)
    requires Inv(s) && Aged(cfg, s) && HoldersLeftAlone(s, s')
    ensures Aged(cfg, s')
  {
    forall w, d | w in s'.workers && Holds(s'.workers[w], d) && IsPending(s'.rows, d)
      ensures s'.rows[d].updatedAt < s'.workers[w].claimedAt - cfg.after && s'.workers[w].claimedAt <= s'.now
    {
      HeldIsKnown(s, w, d);
      assert s'.workers[w] == s.workers[w] && s'.rows[d] == s.rows[d];
    }
  }

  lemma ApplyKeepsAged(cfg: Config, s: State, a: Action)
    requires Inv(s) && Aged(cfg, s)
    ensures Aged(cfg, Apply(cfg, s, a))
  {
    if !a.Act? {
      EnvironmentKeepsAged(cfg, s, a);
    } else if a.w in s.workers && a.input.at <= s.now {
      StepKeepsAged(cfg, s, a.w, a.input);
    }
  }

  lemma {:induction false} RunKeepsAged(cfg: Config, s: State, acts: seq<Action>)
    requires Inv(s) && Aged(cfg, s)
    ensures Aged(cfg, Run(cfg, s, acts))
    decreases |acts|
  {
    if acts != [] {
      ApplyKeepsAged(cfg, s, acts[0]);
      ApplyKeepsInv(cfg, s, acts[0]);
      RunKeepsAged(cfg, Apply(cfg, s, acts[0]), acts[1..]);
    }
  }

  lemma {:induction false} FreshWorker(ids: set<Id>) returns (w: Id)
    ensures forall x :: x in ids ==> x < w
    decreases |ids|
  {
    if ids == {} {
      w := 0;
    } else {
      var x :| x in ids;
      w := FreshWorker(ids - {x});
      assert forall y :: y in ids ==> y == x || y in ids - {x};
      if w <= x {
        w := x + 1;
      }
    }
  }

  function Claimables(cfg: Config, s: State): set<Id> {
    AllClaimable(s.rows, s.now - cfg.after, s.now - cfg.lease)
  }

  /** A new sweep that claims at once. */
  function AfterSweepNow(cfg: Config, s: State, w: Id): State {
    Apply(cfg, Apply(cfg, s, StartSweep(w)), Act(w, TryLater(s.now)))
  }

  lemma SweepNowClaims(cfg: Config, s: State, w: Id)
    requires w !in s.workers
    ensures var ids := SweptRows(cfg, s.rows, s.now);
            AfterSweepNow(cfg, s, w) ==
            s.(rows := StampClaimed(s.rows, ids, s.now), holder := Held(s.holder, ids, w),
               workers := s.workers[w := AfterSweep(cfg, Recovering(), s.rows, Fine, s.now)])
  {
  }

  lemma StampedIsNotClaimable(rows: Table, ids: set<Id>, now: Time, olderThan: Time, expired: Time)
    requires expired <= now
    ensures AllClaimable(StampClaimed(rows, ids, now), olderThan, expired)
            == AllClaimable(rows, olderThan, expired) - ids
  {
  }

  lemma SweepNowLeaves(cfg: Config, s: State, w: Id)
    requires w !in s.workers
    ensures var next := AfterSweepNow(cfg, s, w);
            && next.now == s.now && next.rows == StampClaimed(s.rows, SweptRows(cfg, s.rows, s.now), s.now)
            && forall x :: x in s.workers ==> x in next.workers && next.workers[x] == s.workers[x]
  {
    SweepNowClaims(cfg, s, w);
  }

  /** What is claimed is not claimable again while its lease runs, and something is. */
  lemma FewerClaimable(rows: Table, d: Id, now: Time, olderThan: Time, expired: Time, limit: nat)
    requires limit > 0 && expired <= now
    requires d in AllClaimable(rows, olderThan, expired) && d !in ClaimedBy(rows, now, olderThan, expired, limit)
    ensures var rows' := StampClaimed(rows, ClaimedBy(rows, now, olderThan, expired, limit), now);
            && d in AllClaimable(rows', olderThan, expired)
            && |AllClaimable(rows', olderThan, expired)| < |AllClaimable(rows, olderThan, expired)|
  {
    var ids := ClaimedBy(rows, now, olderThan, expired, limit);
    var all := AllClaimable(rows, olderThan, expired);
    StampedIsNotClaimable(rows, ids, now, olderThan, expired);
    ClaimedOrFull(rows, all, limit, d);
    var x :| x in ids;
    SubsetIsSmaller(all - ids, all - {x});
  }

  /** The sweep holds what it claimed, beside whoever held it before. */
  lemma SweepNowHolds(cfg: Config, s: State, w: Id, d: Id, x: Id)
    requires w !in s.workers && Live(cfg, s, x, d) && s.workers[x].claimedAt <= s.now
    requires d in SweptRows(cfg, s.rows, s.now)
    ensures !Exclusive(cfg, AfterSweepNow(cfg, s, w))
  {
    var s' := AfterSweepNow(cfg, s, w);
    SweepNowClaims(cfg, s, w);
    var i := WhereItIsListed(s.rows, SweptRows(cfg, s.rows, s.now), s.now, d);
    assert s'.workers[w].todo[i].id == d;
    assert Live(cfg, s', w, d) && Live(cfg, s', x, d) && IsPending(s'.rows, d);
  }

  lemma StillLive(cfg: Config, s: State, s': State, x: Id, d: Id)
    requires Live(cfg, s, x, d) && s'.now == s.now && x in s'.workers && s'.workers[x] == s.workers[x]
    ensures Live(cfg, s', x, d)
  {
  }

  predicate OnlySweeps(acts: seq<Action>) {
    forall k :: 0 <= k < |acts| ==> acts[k].StartSweep? || acts[k].Act?
  }

  lemma {:induction false} TwoFirst(cfg: Config, s: State, w: Id, rest: seq<Action>)
    requires w !in s.workers
    ensures var acts := [StartSweep(w), Act(w, TryLater(s.now))] + rest;
            && Run(cfg, s, acts) == Run(cfg, AfterSweepNow(cfg, s, w), rest)
            && (AllReleaseAlone(cfg, s, acts) <==> AllReleaseAlone(cfg, AfterSweepNow(cfg, s, w), rest))
  {
    var acts := [StartSweep(w), Act(w, TryLater(s.now))] + rest;
    assert acts[1..] == [Act(w, TryLater(s.now))] + rest;
    assert acts[1..][1..] == rest;
  }

  /** A claimable row that somebody holds live gets a second holder, once the sweeps are through with older ones. */
  lemma {:induction false} SweepsGetThere(cfg: Config, s: State, d: Id, x: Id) returns (more: seq<Action>)
    requires cfg.batch > 0 && d in Claimables(cfg, s) && Live(cfg, s, x, d) && s.workers[x].claimedAt <= s.now
    ensures OnlySweeps(more) && AllReleaseAlone(cfg, s, more) && !Exclusive(cfg, Run(cfg, s, more))
    decreases |Claimables(cfg, s)|
  {
    var w := FreshWorker(s.workers.Keys);
    var next := AfterSweepNow(cfg, s, w);
    SweepNowLeaves(cfg, s, w);
    var rest: seq<Action> := [];
    if d in SweptRows(cfg, s.rows, s.now) {
      SweepNowHolds(cfg, s, w, d, x);
    } else {
      FewerClaimable(s.rows, d, s.now, s.now - cfg.after, s.now - cfg.lease, cfg.batch);
      StillLive(cfg, s, next, x, d);
      rest := SweepsGetThere(cfg, next, d, x);
    }
    TwoFirst(cfg, s, w, rest);
    more := [StartSweep(w), Act(w, TryLater(s.now))] + rest;
  }

  /** Whoever else held the row live still does, and the row can be claimed again at once. */
  lemma ReleasedIsClaimable(cfg: Config, s: State, a: Action, x: Id)
    requires Aged(cfg, s) && Unclaims(s, a) && x != a.w && Live(cfg, s, x, s.workers[a.w].phase.cur.id)
    ensures var d, s' := s.workers[a.w].phase.cur.id, Apply(cfg, s, a);
            d in Claimables(cfg, s') && Live(cfg, s', x, d) && s'.workers[x].claimedAt <= s'.now
  {
    var d := s.workers[a.w].phase.cur.id;
    var s' := Apply(cfg, s, a);
    assert Holds(s.workers[x], d);
    assert s'.rows == ReleaseClaim(s.rows, d) && s'.workers[x] == s.workers[x] && s'.now == s.now;
    assert s'.rows[d] == s.rows[d].(claimedAt := None);
  }

  /** After a release that is not alone, sweeps at the very same moment can come to share a row. */
  lemma TrespassBreaksTheLease(cfg: Config, acts: seq<Action>, a: Action) returns (more: seq<Action>)
    requires cfg.batch > 0 && !ReleasesAlone(cfg, Run(cfg, Start(), acts), a)
    ensures var s' := Apply(cfg, Run(cfg, Start(), acts), a);
            OnlySweeps(more) && AllReleaseAlone(cfg, s', more) && !Exclusive(cfg, Run(cfg, s', more))
  {
    var s := Run(cfg, Start(), acts);
    RunKeepsAged(cfg, Start(), acts);
    var d := s.workers[a.w].phase.cur.id;
    var x :| x in s.workers && Live(cfg, s, x, d) && x != a.w;
    ReleasedIsClaimable(cfg, s, a, x);
    more := SweepsGetThere(cfg, Apply(cfg, s, a), d, x);
  }

  /**
   * After a run whose releases were alone the lease stays exclusive, whatever follows whose
   * releases are alone too, if and only if the next action is not a release of a row that
   * somebody else holds live.
   */
  lemma {:induction false} LeaseOutlivesExactlyWhenAlone(cfg: Config, acts: seq<Action>, a: Action)
    requires cfg.batch > 0 && AllReleaseAlone(cfg, Start(), acts)
    ensures var s := Run(cfg, Start(), acts);
            var s' := Apply(cfg, s, a);
            ReleasesAlone(cfg, s, a) <==>
            forall more :: AllReleaseAlone(cfg, s', more) ==> Exclusive(cfg, Run(cfg, s', more))
  {
    var s := Run(cfg, Start(), acts);
    var s' := Apply(cfg, s, a);
    if ReleasesAlone(cfg, s, a) {
      ReachableInv(cfg, acts);
      StaysMarkedExactlyWhenAlone(cfg, Start(), acts);
      RunKeepsOnceEach(cfg, Start(), acts);
      ApplyMarksExactlyWhen(cfg, s, a);
      ApplyKeepsInv(cfg, s, a);
      ApplyKeepsOnceEach(cfg, s, a);
      forall more | AllReleaseAlone(cfg, s', more)
        ensures Exclusive(cfg, Run(cfg, s', more))
      {
        StaysMarkedExactlyWhenAlone(cfg, s', more);
        MarkedIsExclusive(cfg, Run(cfg, s', more));
      }
    } else {
      var more := TrespassBreaksTheLease(cfg, acts, a);
    }
  }

  lemma {:induction false} RunKeepsOnceEach(cfg: Config, s: State, acts: seq<Action>)
    requires AllOnceEach(s)
    ensures AllOnceEach(Run(cfg, s, acts))
    decreases |acts|
  {
    if acts != [] {
      ApplyKeepsOnceEach(cfg, s, acts[0]);
      RunKeepsOnceEach(cfg, Apply(cfg, s, acts[0]), acts[1..]);
    }
  }
}
