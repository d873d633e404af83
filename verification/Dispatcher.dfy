/**
 * The dispatcher as written: Handle, Recover and the one path out they share.
 *
 * Each method does to the tables exactly what the worker of module Worker does when it is
 * left alone from where the method starts; and a worker left alone is one of the runs of
 * module Protocol. So whatever holds of every run holds of this program.
 */
module Dispatcher {
  import opened Basics
  import opened Deliveries
  import opened Worker
  import opened Protocol
  import opened DispatchSafety

  /** What the calls of one attempt answer. */
  datatype Answers = Answers(
    read: Db, message: Db, checkedAt: Time, sender: SenderAnswer, send: SendAnswer,
    write: Db, writtenAt: Time, release: Db, list: Db, hook: HookAnswer, claim: Db, claimedAt: Time)

  function InputFor(a: Answers, p: Phase): Input {
    var in0 := Input(Fine, a.checkedAt, a.sender, a.send, a.hook);
    match p
    case Reading => in0.(db := a.read)
    case Loaded(_) => in0.(db := a.message)
    case Writing(_, _, _) => in0.(db := a.write, at := a.writtenAt)
    case Releasing(_) => in0.(db := a.release)
    case Listing(_, _) => in0.(db := a.list)
    case Claiming(_, _, _) => in0.(db := a.claim, at := a.claimedAt)
    case _ => in0
  }

  // --- a worker left alone ---------------------------------------------------

  datatype World = World(w: Worker, rows: Table, sent: seq<Batch>)

  /** A worker between two rows, or at its end, waits; before that it has so many steps to go. */
  function StepsLeft(p: Phase): nat {
    match p
    case Reading => 8
    case Loaded(_) => 7
    case NeedsSender(_, _) => 6
    case Sending(_, _) => 5
    case Writing(_, _, _) => 4
    case Releasing(_) => 4
    case Listing(_, _) => 3
    case Hooking(_, _, _) => 2
    case Claiming(_, _, _) => 1
    case Notifying(_, _, _) => 1
    case _ => 0
  }

  predicate Waits(w: Worker) {
    StepsLeft(w.phase) == 0 || (w.phase.Reading? && w.job.Sweep?)
  }

  function OneStep(cfg: Config, messages: Messages, x: World, a: Answers): World {
    var input := InputFor(a, x.w.phase);
    World(WorkerAfter(cfg, messages, x.rows, x.w, input), RowsAfter(cfg, x.rows, x.w, input), SentAfter(x.sent, x.w))
  }

  /** Notifying comes after Claiming; both are counted 1, so the claim counts for more. */
  function Effort(w: Worker): nat {
    if w.phase.Notifying? then 1 else 2 * StepsLeft(w.phase)
  }

  lemma StepIsProgress(cfg: Config, messages: Messages, x: World, a: Answers)
    requires !Waits(x.w)
    ensures Effort(OneStep(cfg, messages, x, a).w) < Effort(x.w)
  {
  }

  /** The steps of a worker nobody interferes with, until it waits. */
  function Alone(cfg: Config, messages: Messages, x: World, a: Answers): World
    decreases Effort(x.w)
  {
    if Waits(x.w) then
      x
    else
      StepIsProgress(cfg, messages, x, a);
      Alone(cfg, messages, OneStep(cfg, messages, x, a), a)
  }

  lemma {:induction false} OneStepThenAlone(cfg: Config, messages: Messages, x: World, a: Answers)
    requires !Waits(x.w)
    ensures var next := OneStep(cfg, messages, x, a);
            && Alone(cfg, messages, x, a) == Alone(cfg, messages, next, a)
            && (Waits(next.w) ==> Alone(cfg, messages, x, a) == next)
  {
    StepIsProgress(cfg, messages, x, a);
  }

  /** The same steps as actions of the protocol. */
  function AloneActs(cfg: Config, messages: Messages, x: World, a: Answers, wid: Id): seq<Action>
    decreases Effort(x.w)
  {
    if Waits(x.w) then
      []
    else
      StepIsProgress(cfg, messages, x, a);
      [Act(wid, InputFor(a, x.w.phase))] + AloneActs(cfg, messages, OneStep(cfg, messages, x, a), a, wid)
  }

  predicate ReadsThePast(a: Answers, now: Time) {
    a.checkedAt <= now && a.writtenAt <= now && a.claimedAt <= now
  }

  /** A worker left alone is a run of the protocol. */
  lemma {:induction false} AloneIsARun(cfg: Config, s: State, wid: Id, a: Answers)
    requires wid in s.workers && ReadsThePast(a, s.now)
    ensures var x := World(s.workers[wid], s.rows, s.sent);
            var end := Alone(cfg, s.messages, x, a);
            var s' := Run(cfg, s, AloneActs(cfg, s.messages, x, a, wid));
            && s'.rows == end.rows && s'.sent == end.sent
            && wid in s'.workers && s'.workers[wid] == end.w
    decreases Effort(s.workers[wid])
  {
    var x := World(s.workers[wid], s.rows, s.sent);
    if !Waits(x.w) {
      StepIsProgress(cfg, s.messages, x, a);
      var input := InputFor(a, x.w.phase);
      var next := Apply(cfg, s, Act(wid, input));
      assert next == WorkerStep(cfg, s, wid, input);
      assert World(next.workers[wid], next.rows, next.sent) == OneStep(cfg, s.messages, x, a);
      AloneIsARun(cfg, next, wid, a);
      var rest := AloneActs(cfg, s.messages, OneStep(cfg, s.messages, x, a), a, wid);
      assert ([Act(wid, input)] + rest)[1..] == rest;
    }
  }

  // --- a sweep left alone ----------------------------------------------------

  /** A step of an attempt keeps the attempt's delivery, or ends the attempt. */
  predicate GoesOnInASweep(w: Worker, next: Worker, cur: Current) {
    && next.job == w.job && next.todo == w.todo && next.sweptAt == w.sweptAt
    && if next.phase == Idle then
         && |next.attempts| == |w.attempts| + 1 && w.attempts <= next.attempts
         && next.attempts[|w.attempts|].delivery == cur.id
         && next.attempts[|w.attempts|].lastChance == cur.lastChance
       else
         next.attempts == w.attempts && CurrentOf(next.phase) == Some(cur)
  }

  lemma WriterGoesOn(cfg: Config, messages: Messages, rows: Table, w: Worker, input: Input)
    requires w.job.Sweep? && CurrentOf(w.phase).Some? && Writes(w)
    ensures GoesOnInASweep(w, WorkerAfter(cfg, messages, rows, w, input), CurrentOf(w.phase).value)
  {
  }

  lemma ReaderGoesOn(cfg: Config, messages: Messages, rows: Table, w: Worker, input: Input)
    requires w.job.Sweep? && CurrentOf(w.phase).Some? && !Writes(w)
    ensures GoesOnInASweep(w, WorkerAfter(cfg, messages, rows, w, input), CurrentOf(w.phase).value)
  {
  }

  lemma OneStepInASweep(cfg: Config, messages: Messages, x: World, a: Answers)
    requires x.w.job.Sweep? && CurrentOf(x.w.phase).Some?
    ensures GoesOnInASweep(x.w, OneStep(cfg, messages, x, a).w, CurrentOf(x.w.phase).value)
  {
    if Writes(x.w) {
      WriterGoesOn(cfg, messages, x.rows, x.w, InputFor(a, x.w.phase));
    } else {
      ReaderGoesOn(cfg, messages, x.rows, x.w, InputFor(a, x.w.phase));
    }
  }

  /** One attempt of a sweep ends between two rows, with one more attempt on record. */
  lemma {:induction false} AloneInASweep(cfg: Config, messages: Messages, x: World, a: Answers)
    requires x.w.job.Sweep? && CurrentOf(x.w.phase).Some?
    ensures var end := Alone(cfg, messages, x, a).w;
            var cur := CurrentOf(x.w.phase).value;
            && end.phase == Idle && end.job == x.w.job && end.todo == x.w.todo && end.sweptAt == x.w.sweptAt
            && |end.attempts| == |x.w.attempts| + 1 && x.w.attempts <= end.attempts
            && end.attempts[|x.w.attempts|].delivery == cur.id
            && end.attempts[|x.w.attempts|].lastChance == cur.lastChance
    decreases Effort(x.w)
  {
    StepIsProgress(cfg, messages, x, a);
    OneStepThenAlone(cfg, messages, x, a);
    OneStepInASweep(cfg, messages, x, a);
    var next := OneStep(cfg, messages, x, a);
    if next.w.phase != Idle {
      AloneInASweep(cfg, messages, next, a);
    }
  }

  /** The rest of a sweep: every row left to it, one attempt each, whatever became of the ones before. */
  function Drain(cfg: Config, messages: Messages, x: World, answers: nat -> Answers, k: nat): World
    requires x.w.job.Sweep? && x.w.phase == Idle
    decreases |x.w.todo|
  {
    var next := x.(w := NextRow(cfg, x.w));
    if x.w.todo == [] then
      next
    else
      AloneInASweep(cfg, messages, next, answers(k));
      Drain(cfg, messages, Alone(cfg, messages, next, answers(k)), answers, k + 1)
  }

  /** A whole recovery run: claim at `at`, measure ages against `now`, then row by row. */
  function Swept(cfg: Config, messages: Messages, rows: Table, sent: seq<Batch>,
                 claim: Db, at: Time, now: Time, answers: nat -> Answers): World
  {
    var w := AfterSweep(cfg, Recovering(), rows, claim, at);
    var rows' := RowsAfter(cfg, rows, Recovering(), Input(claim, at, Found, Sent(""), Absent));
    if claim.Fault? then
      World(w, rows', sent)
    else
      Drain(cfg, messages, World(w.(phase := Idle, sweptAt := now), rows', sent), answers, 0)
  }

  // --- a sweep is a run ------------------------------------------------------

  /** What two states of the protocol have in common with where a lone worker stands. */
  predicate StandsAt(s: State, wid: Id, x: World) {
    wid in s.workers && s.workers[wid] == x.w && s.rows == x.rows && s.sent == x.sent
  }

  predicate AllReadThePast(answers: nat -> Answers, now: Time, from: nat, to: nat) {
    forall k :: from <= k < to ==> ReadsThePast(answers(k), now)
  }

  /** The rest of a sweep, done by the protocol's own steps. */
  lemma {:induction false} DrainIsARun(cfg: Config, s: State, wid: Id, answers: nat -> Answers, k: nat)
    returns (acts: seq<Action>)
    requires wid in s.workers && s.workers[wid].job.Sweep? && s.workers[wid].phase == Idle
    requires AllReadThePast(answers, s.now, k, k + |s.workers[wid].todo|)
    ensures StandsAt(Run(cfg, s, acts), wid,
                     Drain(cfg, s.messages, World(s.workers[wid], s.rows, s.sent), answers, k))
    decreases |s.workers[wid].todo|
  {
    var w := s.workers[wid];
    var next := Act(wid, Input(Fine, s.now, Found, Sent(""), Absent));
    var s1 := Apply(cfg, s, next);
    assert s1.workers[wid] == NextRow(cfg, w) && s1.rows == s.rows && s1.sent == s.sent;
    if w.todo == [] {
      acts := [next];
      assert Run(cfg, s1, []) == s1;
    } else {
      var x := World(s1.workers[wid], s1.rows, s1.sent);
      AloneInASweep(cfg, s.messages, x, answers(k));
      AloneIsARun(cfg, s1, wid, answers(k));
      var attempt := AloneActs(cfg, s.messages, x, answers(k), wid);
      var s2 := Run(cfg, s1, attempt);
      AloneActsAreItsOwn(cfg, s.messages, x, answers(k), wid);
      WorkersKeepMessages(cfg, s1, attempt, wid);
      var rest := DrainIsARun(cfg, s2, wid, answers, k + 1);
      acts := [next] + (attempt + rest);
      assert acts[1..] == attempt + rest;
      RunInTwo(cfg, s1, attempt, rest);
    }
  }

  predicate AreActsOf(acts: seq<Action>, wid: Id) {
    forall k :: 0 <= k < |acts| ==> acts[k].Act? && acts[k].w == wid
  }

  lemma {:induction false} AloneActsAreItsOwn(cfg: Config, messages: Messages, x: World, a: Answers, wid: Id)
    ensures AreActsOf(AloneActs(cfg, messages, x, a, wid), wid)
    decreases Effort(x.w)
  {
    if !Waits(x.w) {
      StepIsProgress(cfg, messages, x, a);
      AloneActsAreItsOwn(cfg, messages, OneStep(cfg, messages, x, a), a, wid);
    }
  }

  lemma {:induction false} WorkersKeepMessages(cfg: Config, s: State, acts: seq<Action>, wid: Id)
    requires AreActsOf(acts, wid)
    ensures Run(cfg, s, acts).messages == s.messages && Run(cfg, s, acts).now == s.now
    decreases |acts|
  {
    if acts != [] {
      WorkersKeepMessages(cfg, Apply(cfg, s, acts[0]), acts[1..], wid);
    }
  }

  /** A whole recovery run left alone is a run of the protocol: same rows, same callbacks, same worker. */
  lemma {:induction false} SweptIsARun(cfg: Config, s: State, wid: Id, claim: Db, at: Time, now: Time,
                                       answers: nat -> Answers) returns (acts: seq<Action>)
    requires wid in s.workers && s.workers[wid] == Recovering() && at <= s.now && now <= s.now
    requires forall k: nat :: ReadsThePast(answers(k), s.now)
    ensures StandsAt(Run(cfg, s, acts), wid,
                     Swept(cfg, s.messages, s.rows, s.sent, claim, at, now, answers))
  {
    var first := Act(wid, Input(claim, at, Found, Sent(""), Absent));
    var s1 := Apply(cfg, s, first);
    ClaimIsAStep(cfg, s, wid, claim, at);
    if claim.Fault? {
      acts := [first];
      assert Run(cfg, s1, []) == s1;
    } else {
      var clock := Act(wid, Input(Fine, now, Found, Sent(""), Absent));
      ClockIsAStep(cfg, s1, wid, now);
      var rest := DrainIsARun(cfg, Apply(cfg, s1, clock), wid, answers, 0);
      acts := [first] + ([clock] + rest);
      assert acts[1..] == [clock] + rest && ([clock] + rest)[1..] == rest;
    }
  }

  lemma ClaimIsAStep(cfg: Config, s: State, wid: Id, claim: Db, at: Time)
    requires wid in s.workers && s.workers[wid] == Recovering() && at <= s.now
    ensures var input := Input(claim, at, Found, Sent(""), Absent);
            var s' := Apply(cfg, s, Act(wid, input));
            && StandsAt(s', wid, World(AfterSweep(cfg, Recovering(), s.rows, claim, at),
                                       RowsAfter(cfg, s.rows, Recovering(), input), s.sent))
            && s'.messages == s.messages && s'.now == s.now
  {
  }

  lemma ClockIsAStep(cfg: Config, s: State, wid: Id, now: Time)
    requires wid in s.workers && s.workers[wid].phase.Clocking? && now <= s.now
    ensures var s' := Apply(cfg, s, Act(wid, Input(Fine, now, Found, Sent(""), Absent)));
            && StandsAt(s', wid, World(s.workers[wid].(phase := Idle, sweptAt := now), s.rows, s.sent))
            && s'.messages == s.messages && s'.now == s.now
  {
  }

  /** It ends finished, and well exactly when its claim was answered. */
  lemma {:induction false} DrainFinishes(cfg: Config, messages: Messages, x: World, answers: nat -> Answers, k: nat)
    requires x.w.job.Sweep? && x.w.phase == Idle
    ensures Drain(cfg, messages, x, answers, k).w.phase == Finished(true)
    ensures |Drain(cfg, messages, x, answers, k).w.attempts| == |x.w.attempts| + |x.w.todo|
    decreases |x.w.todo|
  {
    if x.w.todo != [] {
      var next := x.(w := NextRow(cfg, x.w));
      AloneInASweep(cfg, messages, next, answers(k));
      DrainFinishes(cfg, messages, Alone(cfg, messages, next, answers(k)), answers, k + 1);
    }
  }

  lemma SweptFinishes(cfg: Config, messages: Messages, rows: Table, sent: seq<Batch>, claim: Db, at: Time, now: Time,
                      answers: nat -> Answers)
    ensures var end := Swept(cfg, messages, rows, sent, claim, at, now, answers);
            && end.w.phase == Finished(claim.Fine?)
            && |end.w.attempts| == if claim.Fine? then |SweptRows(cfg, rows, at)| else 0
  {
    if claim.Fine? {
      var ids := SweptRows(cfg, rows, at);
      ClaimedAreListed(rows, ids, at);
      var w := AfterSweep(cfg, Recovering(), rows, Fine, at).(phase := Idle, sweptAt := now);
      DrainFinishes(cfg, messages, World(w, StampClaimed(rows, ids, at), sent), answers, 0);
    }
  }

  // --- a sweep settles what is past give-up ----------------------------------

  /** No store error on the way to the outcome, and no failed sender lookup. */
  predicate Undisturbed(a: Answers) {
    a.message.Fine? && a.write.Fine? && !a.sender.LookupFailed?
  }

  predicate SettledIn(rows: Table, d: Id) {
    d in rows ==> rows[d].status.IsSettled()
  }

  lemma {:induction false} AloneKeepsSettled(cfg: Config, messages: Messages, x: World, a: Answers, d: Id)
    requires SettledIn(x.rows, d)
    ensures SettledIn(Alone(cfg, messages, x, a).rows, d)
    decreases Effort(x.w)
  {
    if !Waits(x.w) {
      StepIsProgress(cfg, messages, x, a);
      AloneKeepsSettled(cfg, messages, OneStep(cfg, messages, x, a), a, d);
    }
  }

  lemma {:induction false} DrainKeepsSettled(cfg: Config, messages: Messages, x: World, answers: nat -> Answers,
                                             k: nat, d: Id)
    requires x.w.job.Sweep? && x.w.phase == Idle && SettledIn(x.rows, d)
    ensures SettledIn(Drain(cfg, messages, x, answers, k).rows, d)
    decreases |x.w.todo|
  {
    if x.w.todo != [] {
      var next := x.(w := NextRow(cfg, x.w));
      AloneInASweep(cfg, messages, next, answers(k));
      AloneKeepsSettled(cfg, messages, next, answers(k), d);
      DrainKeepsSettled(cfg, messages, Alone(cfg, messages, next, answers(k)), answers, k + 1, d);
    }
  }

  /** Up to the write: an undisturbed last chance always gets there. */
  lemma {:induction false} LastChanceIsWritten(cfg: Config, messages: Messages, x: World, a: Answers)
    requires Undisturbed(a) && CurrentOf(x.w.phase).Some?
    requires var cur := CurrentOf(x.w.phase).value; cur.lastChance && cur.copy.status == PENDING
    requires x.w.phase.Loaded? || x.w.phase.NeedsSender? || x.w.phase.Sending? || x.w.phase.Writing?
    ensures SettledIn(Alone(cfg, messages, x, a).rows, CurrentOf(x.w.phase).value.id)
    decreases Effort(x.w)
  {
    StepIsProgress(cfg, messages, x, a);
    var next := OneStep(cfg, messages, x, a);
    if x.w.phase.Writing? {
      AloneKeepsSettled(cfg, messages, next, a, x.w.phase.cur.id);
    } else {
      LastChanceIsWritten(cfg, messages, next, a);
    }
  }

  /** Every row of the sweep old enough to give up on has settled at its end, whatever the providers said. */
  lemma {:induction false} DrainGivesUp(cfg: Config, messages: Messages, x: World, answers: nat -> Answers, k: nat,
                                        i: nat)
    requires x.w.job.Sweep? && x.w.phase == Idle && i < |x.w.todo|
    requires x.w.todo[i].row.status == PENDING && x.w.sweptAt - x.w.todo[i].row.updatedAt >= cfg.giveUp
    requires Undisturbed(answers(k + i))
    ensures SettledIn(Drain(cfg, messages, x, answers, k).rows, x.w.todo[i].id)
    decreases |x.w.todo|
  {
    var next := x.(w := NextRow(cfg, x.w));
    AloneInASweep(cfg, messages, next, answers(k));
    var end := Alone(cfg, messages, next, answers(k));
    if i == 0 {
      LastChanceIsWritten(cfg, messages, next, answers(k));
      DrainKeepsSettled(cfg, messages, end, answers, k + 1, x.w.todo[0].id);
    } else {
      DrainGivesUp(cfg, messages, end, answers, k + 1, i - 1);
    }
  }

  // --- what an attempt left alone answers ------------------------------------

  predicate PastWriting(p: Phase) {
    p.Listing? || p.Hooking? || p.Claiming? || p.Notifying?
  }

  function LastAttempt(w: Worker): Option<Attempt> {
    if w.attempts == [] then None else Some(w.attempts[|w.attempts| - 1])
  }

  /** Ok is only answered for a settled row; and an undisturbed last chance always answers ok. */
  lemma {:induction false} AloneVouches(cfg: Config, messages: Messages, x: World, a: Answers)
    requires CurrentOf(x.w.phase).Some?
    requires var cur := CurrentOf(x.w.phase).value;
             && cur.copy.status == PENDING
             && (PastWriting(x.w.phase) ==> SettledIn(x.rows, cur.id))
             && (x.w.phase.Releasing? ==> !cur.lastChance)
    ensures var cur := CurrentOf(x.w.phase).value;
            var end := Alone(cfg, messages, x, a);
            && LastAttempt(end.w).Some?
            && (LastAttempt(end.w).value.ok ==> SettledIn(end.rows, cur.id))
            && (Undisturbed(a) && cur.lastChance ==> LastAttempt(end.w).value.ok)
    decreases Effort(x.w)
  {
    StepIsProgress(cfg, messages, x, a);
    OneStepThenAlone(cfg, messages, x, a);
    StepVouches(cfg, messages, x, a, CurrentOf(x.w.phase).value);
    var next := OneStep(cfg, messages, x, a);
    if !Waits(next.w) {
      AloneVouches(cfg, messages, next, a);
    }
  }

  /** What AloneVouches asks of where an attempt stands. */
  predicate Standing(x: World, cur: Current) {
    && CurrentOf(x.w.phase) == Some(cur)
    && (PastWriting(x.w.phase) ==> SettledIn(x.rows, cur.id))
    && (x.w.phase.Releasing? ==> !cur.lastChance)
  }

  predicate Vouched(x: World, a: Answers, cur: Current) {
    && LastAttempt(x.w).Some?
    && (LastAttempt(x.w).value.ok ==> SettledIn(x.rows, cur.id))
    && (Undisturbed(a) && cur.lastChance ==> LastAttempt(x.w).value.ok)
  }

  lemma LookingVouches(cfg: Config, messages: Messages, x: World, a: Answers, cur: Current)
    requires Standing(x, cur) && (x.w.phase.Loaded? || x.w.phase.NeedsSender? || x.w.phase.Sending?)
    ensures var next := OneStep(cfg, messages, x, a);
            if Waits(next.w) then Vouched(next, a, cur) else Standing(next, cur)
  {
  }

  lemma WritingVouches(cfg: Config, messages: Messages, x: World, a: Answers, cur: Current)
    requires Standing(x, cur) && cur.copy.status == PENDING && x.w.phase.Writing?
    ensures var next := OneStep(cfg, messages, x, a);
            if Waits(next.w) then Vouched(next, a, cur) else Standing(next, cur)
  {
  }

  lemma AnnouncingVouches(cfg: Config, messages: Messages, x: World, a: Answers, cur: Current)
    requires Standing(x, cur) && (x.w.phase.Releasing? || PastWriting(x.w.phase))
    ensures var next := OneStep(cfg, messages, x, a);
            if Waits(next.w) then Vouched(next, a, cur) else Standing(next, cur)
  {
  }

  lemma StepVouches(cfg: Config, messages: Messages, x: World, a: Answers, cur: Current)
    requires Standing(x, cur) && cur.copy.status == PENDING
    ensures var next := OneStep(cfg, messages, x, a);
            if Waits(next.w) then Vouched(next, a, cur) else Standing(next, cur)
  {
    if x.w.phase.Writing? {
      WritingVouches(cfg, messages, x, a, cur);
    } else if x.w.phase.Releasing? || PastWriting(x.w.phase) {
      AnnouncingVouches(cfg, messages, x, a, cur);
    } else {
      LookingVouches(cfg, messages, x, a, cur);
    }
  }

  /** The attempt that has just ended answered `ok`; and so does the event, if it was for one. */
  predicate Answered(w: Worker, ok: bool) {
    && |w.attempts| > 0 && w.attempts[|w.attempts| - 1].ok == ok
    && (w.job.Event? ==> w.phase == Finished(ok))
  }

  /** A write that fails ends the attempt; any other goes on to the announcement, if there is anybody to tell. */
  lemma WritingEnds(cfg: Config, messages: Messages, x: World, a: Answers)
    requires x.w.phase.Writing?
    ensures var cur, told, o := x.w.phase.cur, x.w.phase.told, x.w.phase.outcome;
            var rows := if a.write.Applies() then Written(x.rows, cur, o, a.writtenAt) else x.rows;
            var end := Alone(cfg, messages, x, a);
            if a.write.Fault? && cur.copy.status == PENDING then
              end.rows == rows && end.sent == x.sent && Answered(end.w, false)
            else if told.None? then
              end.rows == rows && end.sent == x.sent && Answered(end.w, true)
            else
              end == Alone(cfg, messages, World(Goto(x.w, Listing(cur, told.value)), rows, x.sent), a)
  {
    OneStepThenAlone(cfg, messages, x, a);
  }

  /** An announcement stops where it is, or goes on to the claim of a message that has settled. */
  lemma {:induction false} AnnouncingEnds(cfg: Config, messages: Messages, x: World, a: Answers)
    requires x.w.phase.Listing?
    ensures var cur, n := x.w.phase.cur, x.w.phase.n;
            var ds := ListByNotification(x.rows, n.id);
            var end := Alone(cfg, messages, x, a);
            if a.list.Fine? && AllSettled(ds) && a.hook.Active? then
              end == Alone(cfg, messages, x.(w := Goto(x.w, Claiming(cur, n, ds))), a)
            else
              end.rows == x.rows && end.sent == x.sent && Answered(end.w, true)
  {
    var y := OneStep(cfg, messages, x, a);
    OneStepThenAlone(cfg, messages, x, a);
    if y.w.phase.Hooking? {
      HookingEnds(cfg, messages, y, a);
    }
  }

  lemma {:induction false} HookingEnds(cfg: Config, messages: Messages, x: World, a: Answers)
    requires x.w.phase.Hooking?
    ensures var cur, n, ds := x.w.phase.cur, x.w.phase.n, x.w.phase.ds;
            var end := Alone(cfg, messages, x, a);
            if a.hook.Active? then
              end == Alone(cfg, messages, x.(w := Goto(x.w, Claiming(cur, n, ds))), a)
            else
              end.rows == x.rows && end.sent == x.sent && Answered(end.w, true)
  {
    OneStepThenAlone(cfg, messages, x, a);
  }

  // --- what an attempt left alone writes down --------------------------------

  /** The outcome an undisturbed attempt comes to; None is a transient refusal with time left. */
  function Verdict(messages: Messages, copy: Row, lastChance: bool, a: Answers): Option<Outcome> {
    if copy.notification !in messages then Some(Refused(PERMANENT, "message is gone"))
    else if messages[copy.notification].expireAt.Some? && messages[copy.notification].expireAt.value <= a.checkedAt then
      Some(Refused(EXPIRED, ""))
    else match a.sender {
      case LookupFailed => None
      case BadConfiguration(detail) => Some(Refused(NO_SENDER, detail))
      case Found =>
        match a.send {
          case Sent(providerId) => Some(Accepted(providerId))
          case NotSent(Unreachable, detail) => Some(Refused(NOT_REACHABLE, detail))
          case NotSent(Permanent, detail) => Some(Refused(PERMANENT, detail))
          case NotSent(Transient, detail) => if lastChance then Some(Refused(MAX_ATTEMPTS, detail)) else None
        }
    }
  }

  /** The row says so: what happened, how often it was tried and when; or it is pending as before, held by nobody. */
  predicate Records(was: Row, now: Row, copy: Row, verdict: Option<Outcome>, a: Answers) {
    match verdict
    case None => now == was.(claimedAt := if a.release.Applies() then None else was.claimedAt)
    case Some(o) =>
      && now.notification == was.notification && now.recipient == was.recipient && now.senderName == was.senderName
      && now.attempts == copy.attempts + 1 && now.updatedAt == a.writtenAt && now.claimedAt == was.claimedAt
      && (o.Accepted? ==>
            now.status == SENT && now.providerId == o.providerId && now.lastError == "" && now.reason == None)
      && (o.Refused? ==>
            && now.status == FAILED && now.reason == Some(o.reason) && now.lastError == o.detail
            && now.providerId == copy.providerId)
  }

  /** After the write the attempt only announces: no row changes in anything but its stamp. */
  lemma {:induction false} AnnouncingOnlyStamps(cfg: Config, messages: Messages, x: World, a: Answers, d: Id)
    requires d in x.rows && (PastWriting(x.w.phase) || Waits(x.w))
    ensures var end := Alone(cfg, messages, x, a).rows;
            d in end && end[d].(notifiedAt := None) == x.rows[d].(notifiedAt := None)
    ensures PastWriting(x.w.phase) ==> Answered(Alone(cfg, messages, x, a).w, true)
    ensures Waits(x.w) ==> Alone(cfg, messages, x, a).w == x.w
    decreases Effort(x.w)
  {
    if !Waits(x.w) {
      StepIsProgress(cfg, messages, x, a);
      AnnouncingOnlyStamps(cfg, messages, OneStep(cfg, messages, x, a), a, d);
    }
  }

  lemma {:induction false} WritingRecords(cfg: Config, messages: Messages, x: World, a: Answers, d: Id)
    requires x.w.phase.Writing? && x.w.phase.cur.id == d && x.w.phase.cur.copy.status == PENDING
    requires IsPending(x.rows, d) && a.write.Fine?
    ensures var end := Alone(cfg, messages, x, a).rows;
            d in end && Records(x.rows[d], end[d], x.w.phase.cur.copy, Some(x.w.phase.outcome), a)
    ensures Answered(Alone(cfg, messages, x, a).w, true)
  {
    OneStepThenAlone(cfg, messages, x, a);
    AnnouncingOnlyStamps(cfg, messages, OneStep(cfg, messages, x, a), a, d);
  }

  lemma {:induction false} SendingRecords(cfg: Config, messages: Messages, x: World, a: Answers, d: Id,
                                          verdict: Option<Outcome>)
    requires x.w.phase.Sending? && x.w.phase.cur.id == d && x.w.phase.cur.copy.status == PENDING
    requires IsPending(x.rows, d) && Undisturbed(a) && a.sender.Found?
    requires x.w.phase.cur.copy.notification in messages
    requires !messages[x.w.phase.cur.copy.notification].IsExpired(a.checkedAt)
    requires verdict == Verdict(messages, x.w.phase.cur.copy, x.w.phase.cur.lastChance, a)
    ensures var end := Alone(cfg, messages, x, a).rows;
            d in end && Records(x.rows[d], end[d], x.w.phase.cur.copy, verdict, a)
    ensures Answered(Alone(cfg, messages, x, a).w, verdict.Some?)
  {
    var cur := x.w.phase.cur;
    OneStepThenAlone(cfg, messages, x, a);
    var next := OneStep(cfg, messages, x, a);
    if next.w.phase.Writing? {
      WritingRecords(cfg, messages, next, a, d);
    } else {
      OneStepThenAlone(cfg, messages, next, a);
    }
  }

  /**
   * From the loaded copy to the stored row: an undisturbed attempt at a row that is still
   * pending writes down exactly what happened, and answers ok exactly when it wrote.
   */
  lemma {:induction false} AttemptRecordsTheVerdict(cfg: Config, messages: Messages, x: World, a: Answers, d: Id)
    requires x.w.phase.Loaded? && x.w.phase.cur.id == d && x.w.phase.cur.copy.status == PENDING
    requires IsPending(x.rows, d) && Undisturbed(a)
    ensures var cur := x.w.phase.cur;
            var end := Alone(cfg, messages, x, a).rows;
            d in end && Records(x.rows[d], end[d], cur.copy, Verdict(messages, cur.copy, cur.lastChance, a), a)
    ensures Answered(Alone(cfg, messages, x, a).w,
                     Verdict(messages, x.w.phase.cur.copy, x.w.phase.cur.lastChance, a).Some?)
  {
    var cur := x.w.phase.cur;
    OneStepThenAlone(cfg, messages, x, a);
    var y := OneStep(cfg, messages, x, a);
    if y.w.phase.Writing? {
      WritingRecords(cfg, messages, y, a, d);
    } else {
      OneStepThenAlone(cfg, messages, y, a);
      var z := OneStep(cfg, messages, y, a);
      if z.w.phase.Writing? {
        WritingRecords(cfg, messages, z, a, d);
      } else {
        SendingRecords(cfg, messages, z, a, d, Verdict(messages, cur.copy, cur.lastChance, a));
      }
    }
  }

  predicate Keyed(messages: Messages) {
    forall n :: n in messages ==> messages[n].id == n
  }

  /** The message a worker has in hand is the one of its delivery. */
  predicate KeepsTo(p: Phase) {
    match p
    case NeedsSender(cur, n) => n.id == cur.copy.notification
    case Sending(cur, n) => n.id == cur.copy.notification
    case Writing(cur, told, _) => told.Some? ==> told.value.id == cur.copy.notification
    case Listing(cur, n) => n.id == cur.copy.notification
    case Hooking(cur, n, _) => n.id == cur.copy.notification
    case Claiming(cur, n, _) => n.id == cur.copy.notification
    case Notifying(cur, n, _) => n.id == cur.copy.notification
    case _ => true
  }

  /** No row appears or goes; other deliveries are as they were, but for the stamp of the same message. */
  predicate OthersAreAsTheyWere(rows: Table, rows': Table, d: Id, n: Id) {
    && rows'.Keys == rows.Keys
    && forall e :: e in rows && e != d ==>
         rows'[e] == if rows[e].notification == n then rows[e].(notifiedAt := rows'[e].notifiedAt) else rows[e]
  }

  lemma StepLeavesOthers(cfg: Config, rows: Table, w: Worker, input: Input)
    requires CurrentOf(w.phase).Some? && KeepsTo(w.phase)
    ensures var cur := CurrentOf(w.phase).value;
            OthersAreAsTheyWere(rows, RowsAfter(cfg, rows, w, input), cur.id, cur.copy.notification)
  {
  }

  lemma StepKeepsTo(cfg: Config, messages: Messages, x: World, a: Answers)
    requires CurrentOf(x.w.phase).Some? && KeepsTo(x.w.phase)
    requires var n := CurrentOf(x.w.phase).value.copy.notification; n in messages ==> messages[n].id == n
    ensures var next := OneStep(cfg, messages, x, a);
            !Waits(next.w) ==> CurrentOf(next.w.phase) == CurrentOf(x.w.phase) && KeepsTo(next.w.phase)
  {
  }

  lemma LeftOn(a: Table, b: Table, c: Table, d: Id, n: Id)
    requires OthersAreAsTheyWere(a, b, d, n) && OthersAreAsTheyWere(b, c, d, n)
    ensures OthersAreAsTheyWere(a, c, d, n)
  {
  }

  /** An attempt, whatever its calls answer, writes to its own row, and stamps the rows of its message. */
  lemma {:induction false} AttemptLeavesOthers(cfg: Config, messages: Messages, x: World, a: Answers)
    requires CurrentOf(x.w.phase).Some? && KeepsTo(x.w.phase)
    requires var n := CurrentOf(x.w.phase).value.copy.notification; n in messages ==> messages[n].id == n
    ensures var cur := CurrentOf(x.w.phase).value;
            OthersAreAsTheyWere(x.rows, Alone(cfg, messages, x, a).rows, cur.id, cur.copy.notification)
    decreases Effort(x.w)
  {
    var cur := CurrentOf(x.w.phase).value;
    StepIsProgress(cfg, messages, x, a);
    StepLeavesOthers(cfg, x.rows, x.w, InputFor(a, x.w.phase));
    StepKeepsTo(cfg, messages, x, a);
    var next := OneStep(cfg, messages, x, a);
    if !Waits(next.w) {
      AttemptLeavesOthers(cfg, messages, next, a);
      LeftOn(x.rows, next.rows, Alone(cfg, messages, next, a).rows, cur.id, cur.copy.notification);
    }
  }

  lemma NotInTheRest(ds: seq<Entry>, e: Id)
    requires ds != [] && !Lists(ds, e)
    ensures ds[0].id != e && !Lists(ds[1..], e)
  {
    forall k | 0 <= k < |ds[1..]|
      ensures ds[1..][k].id != e
    {
      assert ds[1..][k] == ds[k + 1];
    }
  }

  /** A sweep's attempts leave every row that is not on its list as it was, but for stamps. */
  lemma {:induction false} DrainLeavesOthers(cfg: Config, messages: Messages, x: World, answers: nat -> Answers, k: nat)
    requires x.w.job.Sweep? && x.w.phase == Idle && Keyed(messages)
    ensures var rows' := Drain(cfg, messages, x, answers, k).rows;
            && rows'.Keys == x.rows.Keys
            && forall e :: e in x.rows && !Lists(x.w.todo, e) ==>
                 rows'[e] == x.rows[e].(notifiedAt := rows'[e].notifiedAt)
    decreases |x.w.todo|
  {
    if x.w.todo != [] {
      var next := x.(w := NextRow(cfg, x.w));
      var end := Alone(cfg, messages, next, answers(k));
      AloneInASweep(cfg, messages, next, answers(k));
      AttemptLeavesOthers(cfg, messages, next, answers(k));
      DrainLeavesOthers(cfg, messages, end, answers, k + 1);
      forall e | e in x.rows && !Lists(x.w.todo, e)
        ensures e != x.w.todo[0].id && !Lists(x.w.todo[1..], e)
      {
        NotInTheRest(x.w.todo, e);
      }
    }
  }

  /** What keeps an attempt from coming to an outcome at all. */
  predicate IsCutShort(messages: Messages, copy: Row, a: Answers) {
    || a.message.Fault?
    || (a.sender.LookupFailed? && copy.notification in messages
        && var m := messages[copy.notification]; m.expireAt.Some? ==> m.expireAt.value > a.checkedAt)
  }

  /** An attempt that is cut short leaves every row as it was, tells nobody, and fails. */
  lemma {:induction false} CutShortDoesNothing(cfg: Config, messages: Messages, x: World, a: Answers)
    requires x.w.phase.Loaded? && IsCutShort(messages, x.w.phase.cur.copy, a)
    ensures var end := Alone(cfg, messages, x, a);
            end.rows == x.rows && end.sent == x.sent && Answered(end.w, false)
  {
    OneStepThenAlone(cfg, messages, x, a);
    var y := OneStep(cfg, messages, x, a);
    if !Waits(y.w) {
      OneStepThenAlone(cfg, messages, y, a);
    }
  }

  /** About to write this outcome, and the rows and callbacks as they were. */
  predicate IsAtTheWrite(x: World, y: World, cur: Current, told: Option<Message>, o: Outcome) {
    y == x.(w := Goto(x.w, Writing(cur, told, o)))
  }

  lemma SendingComesToTheWrite(cfg: Config, messages: Messages, x: World, a: Answers) returns (y: World)
    requires x.w.phase.Sending?
    requires a.send.NotSent? && a.send.kind.Transient? ==> x.w.phase.cur.lastChance
    ensures IsAtTheWrite(x, y, x.w.phase.cur, Some(x.w.phase.n), OutcomeOf(a.send))
    ensures Alone(cfg, messages, x, a) == Alone(cfg, messages, y, a)
  {
    OneStepThenAlone(cfg, messages, x, a);
    y := OneStep(cfg, messages, x, a);
  }

  /** What a provider's answer is written down as, if it is. */
  function OutcomeOf(send: SendAnswer): Outcome {
    match send
    case Sent(providerId) => Accepted(providerId)
    case NotSent(Unreachable, detail) => Refused(NOT_REACHABLE, detail)
    case NotSent(Permanent, detail) => Refused(PERMANENT, detail)
    case NotSent(Transient, detail) => Refused(MAX_ATTEMPTS, detail)
  }

  lemma ResolvingComesToTheWrite(cfg: Config, messages: Messages, x: World, a: Answers) returns (y: World)
    requires x.w.phase.NeedsSender? && !a.sender.LookupFailed?
    requires a.sender.Found? && a.send.NotSent? && a.send.kind.Transient? ==> x.w.phase.cur.lastChance
    ensures var o := if a.sender.Found? then OutcomeOf(a.send) else Refused(NO_SENDER, a.sender.detail);
            IsAtTheWrite(x, y, x.w.phase.cur, Some(x.w.phase.n), o)
    ensures Alone(cfg, messages, x, a) == Alone(cfg, messages, y, a)
  {
    OneStepThenAlone(cfg, messages, x, a);
    y := OneStep(cfg, messages, x, a);
    if a.sender.Found? {
      y := SendingComesToTheWrite(cfg, messages, y, a);
    }
  }

  /** Up to its write an attempt changes nothing; then comes the outcome. */
  lemma ComesToTheWrite(cfg: Config, messages: Messages, x: World, a: Answers) returns (y: World)
    requires x.w.phase.Loaded? && !IsCutShort(messages, x.w.phase.cur.copy, a)
    requires Verdict(messages, x.w.phase.cur.copy, x.w.phase.cur.lastChance, a).Some?
    ensures var cur := x.w.phase.cur;
            var n := cur.copy.notification;
            IsAtTheWrite(x, y, cur, if n in messages then Some(messages[n]) else None,
                         Verdict(messages, cur.copy, cur.lastChance, a).value)
    ensures Alone(cfg, messages, x, a) == Alone(cfg, messages, y, a)
  {
    OneStepThenAlone(cfg, messages, x, a);
    y := OneStep(cfg, messages, x, a);
    if !y.w.phase.Writing? {
      y := ResolvingComesToTheWrite(cfg, messages, y, a);
    }
  }

  /** A write that fails tells nobody; if it was applied all the same the row says what happened. */
  lemma {:induction false} FailedWriteTellsNobody(cfg: Config, messages: Messages, x: World, a: Answers, d: Id)
    requires x.w.phase.Loaded? && x.w.phase.cur.id == d && x.w.phase.cur.copy.status == PENDING
    requires IsPending(x.rows, d) && !IsCutShort(messages, x.w.phase.cur.copy, a) && a.write.Fault?
    requires Verdict(messages, x.w.phase.cur.copy, x.w.phase.cur.lastChance, a).Some?
    ensures var cur := x.w.phase.cur;
            var end := Alone(cfg, messages, x, a);
            && end.sent == x.sent && Answered(end.w, false)
            && (if a.write.applied then
                  d in end.rows
                  && Records(x.rows[d], end.rows[d], cur.copy, Verdict(messages, cur.copy, cur.lastChance, a), a)
                else
                  end.rows == x.rows)
  {
    var y := ComesToTheWrite(cfg, messages, x, a);
    OneStepThenAlone(cfg, messages, y, a);
  }

  /** An attempt that came to an outcome tells the source exactly then. */
  predicate Tells(messages: Messages, rows: Table, rows': Table, copy: Row, a: Answers) {
    && copy.notification in messages
    && a.list.Fine? && a.hook.Active? && a.claim.Fine?
    && (forall e :: e in rows' && rows'[e].notification == copy.notification ==> rows'[e].status.IsSettled())
    && (exists e :: e in rows && rows[e].notification == copy.notification && rows[e].notifiedAt.None?)
  }

  /** The callback lists each row of the message, as it stands. */
  predicate Reports(rows: Table, n: Id, b: Batch) {
    && b.notification == n
    && (forall e :: e in rows && rows[e].notification == n ==>
          exists k :: 0 <= k < |b.results| && b.results[k].delivery == e)
    && (forall k :: 0 <= k < |b.results| ==>
          var e := b.results[k].delivery; e in rows && rows[e].notification == n && Says(b.results[k], e, rows[e]))
  }

  /** What an announcement that got to its claim comes to. */
  lemma {:induction false} ClaimingEnds(cfg: Config, messages: Messages, x: World, a: Answers)
    requires x.w.phase.Claiming?
    ensures var n, ds := x.w.phase.n.id, x.w.phase.ds;
            var end := Alone(cfg, messages, x, a);
            && end.rows == (if a.claim.Applies() then StampAnnounced(x.rows, n, a.claimedAt) else x.rows)
            && Answered(end.w, true)
            && end.sent == if a.claim.Fine? && Unannounced(x.rows, n) then x.sent + [Batch(n, Results(ds))] else x.sent
  {
    OneStepThenAlone(cfg, messages, x, a);
    var y := OneStep(cfg, messages, x, a);
    if !Waits(y.w) {
      NotifyingEnds(cfg, messages, y, a);
    }
  }

  lemma {:induction false} NotifyingEnds(cfg: Config, messages: Messages, x: World, a: Answers)
    requires x.w.phase.Notifying?
    ensures var end := Alone(cfg, messages, x, a);
            && Answered(end.w, true) && end.rows == x.rows
            && end.sent == x.sent + [Batch(x.w.phase.n.id, Results(x.w.phase.ds))]
  {
    OneStepThenAlone(cfg, messages, x, a);
  }

  lemma ListSettled(rows: Table, n: Id)
    ensures AllSettled(ListByNotification(rows, n))
            <==> forall e :: e in rows && rows[e].notification == n ==> rows[e].status.IsSettled()
  {
    ListHasEveryRow(rows, n);
    var ds := ListByNotification(rows, n);
    if AllSettled(ds) {
      forall e | e in rows && rows[e].notification == n
        ensures rows[e].status.IsSettled()
      {
        assert Lists(ds, e);
      }
    }
  }

  predicate SameButStamps(rows: Table, rows': Table) {
    rows'.Keys == rows.Keys && forall e :: e in rows ==> rows'[e].(notifiedAt := None) == rows[e].(notifiedAt := None)
  }

  lemma EveryRowIsReported(rows: Table, rows': Table, n: Id, e: Id)
    requires SameButStamps(rows, rows') && e in rows' && rows'[e].notification == n
    ensures var rs := Results(ListByNotification(rows, n)); exists k :: 0 <= k < |rs| && rs[k].delivery == e
  {
    ListHasEveryRow(rows, n);
    var ds := ListByNotification(rows, n);
    assert rows[e].(notifiedAt := None) == rows'[e].(notifiedAt := None);
    assert Lists(ds, e);
    var k :| 0 <= k < |ds| && ds[k].id == e;
    assert Results(ds)[k].delivery == e;
  }

  /** The list as it was read reports the rows as they stand once they are stamped. */
  lemma ListReports(rows: Table, rows': Table, n: Id)
    requires SameButStamps(rows, rows')
    ensures Reports(rows', n, Batch(n, Results(ListByNotification(rows, n))))
  {
    ListHasEveryRow(rows, n);
    var b := Batch(n, Results(ListByNotification(rows, n)));
    forall e | e in rows' && rows'[e].notification == n
      ensures exists k :: 0 <= k < |b.results| && b.results[k].delivery == e
    {
      EveryRowIsReported(rows, rows', n, e);
    }
    forall k | 0 <= k < |b.results|
      ensures var e := b.results[k].delivery;
              e in rows' && rows'[e].notification == n && Says(b.results[k], e, rows'[e])
    {
      var e := b.results[k].delivery;
      assert rows[e].(notifiedAt := None) == rows'[e].(notifiedAt := None);
    }
  }

  lemma {:induction false} AnnouncementEnds(cfg: Config, messages: Messages, x: World, a: Answers)
    requires x.w.phase.Listing?
    ensures var n := x.w.phase.n.id;
            var end := Alone(cfg, messages, x, a);
            && SameButStamps(x.rows, end.rows)
            && end.sent == if a.list.Fine? && AllSettled(ListByNotification(x.rows, n)) && a.hook.Active?
                              && a.claim.Fine? && Unannounced(x.rows, n)
                           then x.sent + [Batch(n, Results(ListByNotification(x.rows, n)))] else x.sent
  {
    var cur, n := x.w.phase.cur, x.w.phase.n;
    var ds := ListByNotification(x.rows, n.id);
    AnnouncingEnds(cfg, messages, x, a);
    if a.list.Fine? && AllSettled(ds) && a.hook.Active? {
      ClaimingEnds(cfg, messages, x.(w := Goto(x.w, Claiming(cur, n, ds))), a);
    }
  }

  /** The write of an outcome over a pending row leaves every message's stamps as they were. */
  lemma WrittenKeepsStamps(rows: Table, cur: Current, o: Outcome, at: Time)
    ensures var rows' := Written(rows, cur, o, at);
            && rows'.Keys == rows.Keys
            && forall e :: e in rows ==>
                 rows'[e].notification == rows[e].notification && rows'[e].notifiedAt == rows[e].notifiedAt
  {
  }

  /**
   * An undisturbed attempt at a pending row that comes to an outcome attempts one callback,
   * which reports every row of the message as it stands, if and only if that outcome completes
   * the message, its webhook is active, and nobody has announced it; and none otherwise.
   */
  lemma {:induction false} TellsExactlyWhen(cfg: Config, messages: Messages, x: World, a: Answers, d: Id)
    requires x.w.phase.Loaded? && x.w.phase.cur.id == d && x.w.phase.cur.copy.status == PENDING
    requires IsPending(x.rows, d) && Undisturbed(a)
    requires var n := x.w.phase.cur.copy.notification; n in messages ==> messages[n].id == n
    requires Verdict(messages, x.w.phase.cur.copy, x.w.phase.cur.lastChance, a).Some?
    ensures var copy := x.w.phase.cur.copy;
            var end := Alone(cfg, messages, x, a);
            if Tells(messages, x.rows, end.rows, copy, a) then
              exists b :: end.sent == x.sent + [b] && Reports(end.rows, copy.notification, b)
            else
              end.sent == x.sent
  {
    var copy := x.w.phase.cur.copy;
    var cur := x.w.phase.cur;
    var y := ComesToTheWrite(cfg, messages, x, a);
    WritingEnds(cfg, messages, y, a);
    var rows := Written(x.rows, cur, y.w.phase.outcome, a.writtenAt);
    WrittenKeepsStamps(x.rows, cur, y.w.phase.outcome, a.writtenAt);
    if copy.notification in messages {
      var z := World(Goto(y.w, Listing(cur, messages[copy.notification])), rows, x.sent);
      UnannouncedAlike(x.rows, rows, copy.notification);
      ListingTells(cfg, messages, z, a, copy);
    }
  }

  lemma {:induction false} ListingTells(cfg: Config, messages: Messages, x: World, a: Answers, copy: Row)
    requires x.w.phase.Listing? && x.w.phase.n.id == copy.notification && copy.notification in messages
    ensures var end := Alone(cfg, messages, x, a);
            if Tells(messages, x.rows, end.rows, copy, a) then
              exists b :: end.sent == x.sent + [b] && Reports(end.rows, copy.notification, b)
            else
              end.sent == x.sent
  {
    var n := copy.notification;
    var end := Alone(cfg, messages, x, a);
    AnnouncementEnds(cfg, messages, x, a);
    ListSettled(x.rows, n);
    SettledAlike(x.rows, end.rows, n);
    ListReports(x.rows, end.rows, n);
  }

  lemma SettledAlike(rows: Table, rows': Table, n: Id)
    requires SameButStamps(rows, rows')
    ensures (forall e :: e in rows && rows[e].notification == n ==> rows[e].status.IsSettled())
            <==> (forall e :: e in rows' && rows'[e].notification == n ==> rows'[e].status.IsSettled())
  {
    forall e | e in rows
      ensures rows'[e].notification == rows[e].notification && rows'[e].status == rows[e].status
    {
      assert rows[e].(notifiedAt := None) == rows'[e].(notifiedAt := None);
    }
  }

  lemma UnannouncedAlike(rows: Table, rows': Table, n: Id)
    requires rows'.Keys == rows.Keys
    requires forall e :: e in rows ==>
               rows'[e].notification == rows[e].notification && rows'[e].notifiedAt == rows[e].notifiedAt
    ensures Unannounced(rows', n) <==> Unannounced(rows, n)
  {
    if e :| e in rows && rows[e].notification == n && rows[e].notifiedAt.None? {
      assert rows'[e].notifiedAt.None?;
    }
    if e :| e in rows' && rows'[e].notification == n && rows'[e].notifiedAt.None? {
      assert rows[e].notifiedAt.None?;
    }
  }

  /** All of it, of an attempt at a pending row. */
  lemma {:induction false} AttemptComesTo(cfg: Config, messages: Messages, x: World, a: Answers, d: Id)
    requires x.w.phase.Loaded? && x.w.phase.cur.id == d && IsPending(x.rows, d) && x.w.phase.cur.copy == x.rows[d]
    ensures var end := Alone(cfg, messages, x, a);
            var verdict := Verdict(messages, x.rows[d], x.w.phase.cur.lastChance, a);
            && (IsCutShort(messages, x.rows[d], a) ==>
                  end.rows == x.rows && end.sent == x.sent && Answered(end.w, false))
            && (Undisturbed(a) ==>
                  && d in end.rows && Records(x.rows[d], end.rows[d], x.rows[d], verdict, a)
                  && Answered(end.w, verdict.Some?))
            && (Keyed(messages) ==> OthersAreAsTheyWere(x.rows, end.rows, d, x.rows[d].notification))
            && (Keyed(messages) && Undisturbed(a) && verdict.Some? ==>
                  if Tells(messages, x.rows, end.rows, x.rows[d], a) then
                    exists b :: end.sent == x.sent + [b] && Reports(end.rows, x.rows[d].notification, b)
                  else
                    end.sent == x.sent)
  {
    if IsCutShort(messages, x.rows[d], a) {
      CutShortDoesNothing(cfg, messages, x, a);
    }
    if Keyed(messages) {
      AttemptLeavesOthers(cfg, messages, x, a);
    }
    if Undisturbed(a) {
      AttemptRecordsTheVerdict(cfg, messages, x, a, d);
      if Keyed(messages) && Verdict(messages, x.rows[d], x.w.phase.cur.lastChance, a).Some? {
        TellsExactlyWhen(cfg, messages, x, a, d);
      }
    }
  }

  // --- the program -----------------------------------------------------------

  class Dispatcher {
    const cfg: Config
    const deliveries: DeliveryRepository
    var notifications: Messages
    var callbacks: seq<Batch>       // attempted, in order

    constructor (cfg: Config, deliveries: DeliveryRepository, notifications: Messages)
      ensures this.cfg == cfg && this.deliveries == deliveries
      ensures this.notifications == notifications && callbacks == []
    {
      this.cfg, this.deliveries, this.notifications, callbacks := cfg, deliveries, notifications, [];
    }

    ghost function Ends(w: Worker, a: Answers): World
      reads this, deliveries
    {
      Alone(cfg, notifications, World(w, deliveries.rows, callbacks), a)
    }

    /**
     * One sweep over what it can claim. A row whose attempt fails does not stop the
     * rest; a row past give-up whose attempt is undisturbed has settled at the end.
     */
    method Recover(at: Time, claim: Db, now: Time, answers: nat -> Answers) returns (ok: bool)
      modifies this`callbacks, deliveries
      ensures ok == claim.Fine?
      ensures var end := old(Swept(cfg, notifications, deliveries.rows, callbacks, claim, at, now, answers));
              deliveries.rows == end.rows && callbacks == end.sent
      ensures var stale := old(ClaimedEntries(deliveries.rows, SweptRows(cfg, deliveries.rows, at), at));
              ok ==>
                forall i | 0 <= i < |stale| && now - stale[i].row.updatedAt >= cfg.giveUp && Undisturbed(answers(i)) ::
                  SettledIn(deliveries.rows, stale[i].id)
    {
      ghost var before := deliveries.rows;
      SweepGivesUp(cfg, notifications, before, callbacks, at, now, answers);
      var got := deliveries.ClaimStale(at, cfg.after, cfg.lease, cfg.batch, claim);
      if got.Err? {
        return false;
      }
      ghost var w := AfterSweep(cfg, Recovering(), before, claim, at).(phase := Idle, sweptAt := now);
      DeliverEach(got.value, now, answers, w);
      return true;
    }

    /** The loop of Recover: every row gets its attempt, and its last one when it is old enough. */
    method DeliverEach(stale: seq<Entry>, now: Time, answers: nat -> Answers, ghost w0: Worker)
      requires w0.job.Sweep? && w0.phase == Idle && w0.todo == stale && w0.sweptAt == now
      modifies this`callbacks, deliveries
      ensures var end := Drain(cfg, notifications, World(w0, old(deliveries.rows), old(callbacks)), answers, 0);
              deliveries.rows == end.rows && callbacks == end.sent
    {
      ghost var end := Drain(cfg, notifications, World(w0, deliveries.rows, callbacks), answers, 0);
      ghost var w := w0;
      for i := 0 to |stale|
        invariant w.job.Sweep? && w.phase == Idle && w.todo == stale[i..] && w.sweptAt == now
        invariant end == Drain(cfg, notifications, World(w, deliveries.rows, callbacks), answers, i)
      {
        var e := stale[i];
        var cur := Current(e.id, e.row, now - e.row.updatedAt >= cfg.giveUp);
        ghost var x := World(NextRow(cfg, w), deliveries.rows, callbacks);
        AloneInASweep(cfg, notifications, x, answers(i));
        var delivered := Deliver(cur, answers(i), x.w);
        w := Alone(cfg, notifications, x, answers(i)).w;
      }
    }

    /**
     * One event, from the broker's message to the answer it gets. True is nil,
     * which ends the event, and is only said of a delivery that has settled or is gone; at the
     * delivery limit it is said whatever the provider answers.
     */
    method Handle(id: Id, attempt: nat, a: Answers) returns (ok: bool)
      modifies this`callbacks, deliveries
      ensures deliveries.rows == old(Ends(Handling(id, attempt), a)).rows
      ensures callbacks == old(Ends(Handling(id, attempt), a)).sent
      ensures Answered(old(Ends(Handling(id, attempt), a)).w, ok)
      ensures ok ==> SettledIn(deliveries.rows, id)
      ensures attempt >= cfg.maxAttempts && a.read.Fine? && Undisturbed(a) ==> ok
      ensures IsPending(old(deliveries.rows), id) && a.read.Fine? && Undisturbed(a) ==>
                var was := old(deliveries.rows)[id];
                id in deliveries.rows
                && Records(was, deliveries.rows[id], was, Verdict(notifications, was, attempt >= cfg.maxAttempts, a), a)
                && ok == Verdict(notifications, was, attempt >= cfg.maxAttempts, a).Some?
      ensures IsPending(old(deliveries.rows), id) && a.read.Fine? && Undisturbed(a)
              && old(deliveries.rows)[id].notification in notifications ==>
                var m := notifications[old(deliveries.rows)[id].notification];
                id in deliveries.rows
                && (deliveries.rows[id].status == FAILED && deliveries.rows[id].reason == Some(EXPIRED)
                    <==> m.expireAt.Some? && m.expireAt.value <= a.checkedAt)
      ensures a.read.Fault? ==> !ok && deliveries.rows == old(deliveries.rows) && callbacks == old(callbacks)
      ensures a.read.Fine? && !IsPending(old(deliveries.rows), id) ==>
                ok && deliveries.rows == old(deliveries.rows) && callbacks == old(callbacks)
      ensures a.read.Fine? && IsPending(old(deliveries.rows), id)
              && IsCutShort(notifications, old(deliveries.rows)[id], a) ==>
                !ok && deliveries.rows == old(deliveries.rows) && callbacks == old(callbacks)
      ensures IsPending(old(deliveries.rows), id) && a.read.Fine? && Keyed(notifications) ==>
                OthersAreAsTheyWere(old(deliveries.rows), deliveries.rows, id, old(deliveries.rows)[id].notification)
      ensures IsPending(old(deliveries.rows), id) && a.read.Fine? && Keyed(notifications) && Undisturbed(a) && ok ==>
                var was := old(deliveries.rows)[id];
                if Tells(notifications, old(deliveries.rows), deliveries.rows, was, a) then
                  exists b :: callbacks == old(callbacks) + [b] && Reports(deliveries.rows, was.notification, b)
                else
                  callbacks == old(callbacks)
    {
      ghost var w := Handling(id, attempt);
      ghost var x := OneStep(cfg, notifications, World(w, deliveries.rows, callbacks), a);
      OneStepThenAlone(cfg, notifications, World(w, deliveries.rows, callbacks), a);
      var got := deliveries.ReadByID(id, a.read);
      if got.Err? {
        return got.error == NotFound;
      }
      var del := got.value;
      if del.status.IsSettled() {
        return true;
      }
      var cur := Current(id, del, attempt >= cfg.maxAttempts);
      AloneVouches(cfg, notifications, x, a);
      AttemptComesTo(cfg, notifications, x, a, id);
      ok := Deliver(cur, a, x.w);
    }

    /** The one path out, for a delivery loaded by either way in. */
    method Deliver(cur: Current, a: Answers, ghost w: Worker) returns (ok: bool)
      requires w.phase == Loaded(cur)
      modifies this`callbacks, deliveries
      ensures deliveries.rows == old(Ends(w, a)).rows && callbacks == old(Ends(w, a)).sent
      ensures Answered(old(Ends(w, a)).w, ok)
    {
      ghost var x := OneStep(cfg, notifications, World(w, deliveries.rows, callbacks), a);
      OneStepThenAlone(cfg, notifications, World(w, deliveries.rows, callbacks), a);
      if a.message.Fault? {
        return false;
      }
      if cur.copy.notification !in notifications {
        ok := Record(cur, None, Refused(PERMANENT, "message is gone"), a, x.w);
        return;
      }
      var n := notifications[cur.copy.notification];
      if n.IsExpired(a.checkedAt) {
        ok := Record(cur, Some(n), Refused(EXPIRED, ""), a, x.w);
        return;
      }
      ghost var y := OneStep(cfg, notifications, x, a);
      OneStepThenAlone(cfg, notifications, x, a);
      match a.sender {
        case LookupFailed => return false;
        case BadConfiguration(detail) => ok := Record(cur, Some(n), Refused(NO_SENDER, detail), a, y.w);
        case Found => ok := Send(cur, n, a, y.w);
      }
    }

    /** Sends, and decides what the provider's answer costs. */
    method Send(cur: Current, n: Message, a: Answers, ghost w: Worker) returns (ok: bool)
      requires w.phase == Sending(cur, n)
      modifies this`callbacks, deliveries
      ensures deliveries.rows == old(Ends(w, a)).rows && callbacks == old(Ends(w, a)).sent
      ensures Answered(old(Ends(w, a)).w, ok)
    {
      ghost var x := OneStep(cfg, notifications, World(w, deliveries.rows, callbacks), a);
      OneStepThenAlone(cfg, notifications, World(w, deliveries.rows, callbacks), a);
      match a.send {
        case Sent(providerId) => ok := Record(cur, Some(n), Accepted(providerId), a, x.w);
        case NotSent(kind, detail) => ok := SendFailed(cur, n, kind, detail, a, x.w);
      }
    }

    method SendFailed(cur: Current, n: Message, kind: SendKind, detail: string, a: Answers, ghost w: Worker)
      returns (ok: bool)
      requires w == AfterSend(w.(phase := Sending(cur, n)), cur, n, NotSent(kind, detail))
      modifies this`callbacks, deliveries
      ensures deliveries.rows == old(Ends(w, a)).rows && callbacks == old(Ends(w, a)).sent
      ensures Answered(old(Ends(w, a)).w, ok)
    {
      match kind {
        case Unreachable =>
          ok := Record(cur, Some(n), Refused(NOT_REACHABLE, detail), a, w);
          return;
        case Permanent =>
          ok := Record(cur, Some(n), Refused(PERMANENT, detail), a, w);
          return;
        case Transient =>
      }
      if cur.lastChance {
        ok := Record(cur, Some(n), Refused(MAX_ATTEMPTS, detail), a, w);
        return;
      }
      ghost var x := OneStep(cfg, notifications, World(w, deliveries.rows, callbacks), a);
      OneStepThenAlone(cfg, notifications, World(w, deliveries.rows, callbacks), a);
      var unreleased := deliveries.Release(cur.id, a.release);
      ok := false;
    }

    /** Marks the copy and writes it; a copy or a row that had settled already is no failure. */
    method Settle(cur: Current, o: Outcome, a: Answers) returns (settled: bool)
      modifies deliveries
      ensures deliveries.rows == if a.write.Applies() then Written(old(deliveries.rows), cur, o, a.writtenAt)
                                 else old(deliveries.rows)
      ensures settled <==> a.write.Fine? || cur.copy.status != PENDING
    {
      var marked := Mark(cur.copy, o, cur.copy.attempts + 1, a.writtenAt);
      if marked.None? {
        return true;
      }
      var error := deliveries.Update(cur.id, marked.value, a.write);
      return error.None? || error.value == AlreadySettled;
    }

    /** Writes the outcome down; a row somebody else settled is no failure. Then tells the source. */
    method Record(cur: Current, told: Option<Message>, o: Outcome, a: Answers, ghost w: Worker) returns (ok: bool)
      requires w.phase == Writing(cur, told, o)
      modifies this`callbacks, deliveries
      ensures deliveries.rows == old(Ends(w, a)).rows && callbacks == old(Ends(w, a)).sent
      ensures Answered(old(Ends(w, a)).w, ok)
    {
      WritingEnds(cfg, notifications, World(w, deliveries.rows, callbacks), a);
      var settled := Settle(cur, o, a);
      if !settled {
        return false;
      }
      if told.Some? {
        Announce(cur, told.value, a, Goto(w, Listing(cur, told.value)));
      }
      ok := true;
    }

    /** Tells the source, once the whole message has settled and nobody else has. Best effort. */
    method Announce(cur: Current, n: Message, a: Answers, ghost w: Worker)
      requires w.phase == Listing(cur, n)
      modifies this`callbacks, deliveries
      ensures deliveries.rows == old(Ends(w, a)).rows && callbacks == old(Ends(w, a)).sent
      ensures Answered(old(Ends(w, a)).w, true)
    {
      AnnouncingEnds(cfg, notifications, World(w, deliveries.rows, callbacks), a);
      var got := deliveries.ListByNotificationID(n.id, a.list);
      if got.Err? {
        return;
      }
      var ds := got.value;
      for i := 0 to |ds|
        invariant forall k :: 0 <= k < i ==> ds[k].row.status.IsSettled()
        invariant deliveries.rows == old(deliveries.rows) && callbacks == old(callbacks)
      {
        if !ds[i].row.status.IsSettled() {
          return;
        }
      }
      if a.hook.Absent? {
        return;
      }
      Claim(cur, n, ds, a, Goto(w, Claiming(cur, n, ds)));
    }

    method Claim(cur: Current, n: Message, ds: seq<Entry>, a: Answers, ghost w: Worker)
      requires w.phase == Claiming(cur, n, ds)
      modifies this`callbacks, deliveries
      ensures deliveries.rows == old(Ends(w, a)).rows && callbacks == old(Ends(w, a)).sent
      ensures Answered(old(Ends(w, a)).w, true)
    {
      ClaimingEnds(cfg, notifications, World(w, deliveries.rows, callbacks), a);
      var mine := deliveries.ClaimAnnouncement(n.id, a.claimedAt, a.claim);
      if mine.Err? || !mine.value {
        return;
      }
      var told := ResultsOf(ds);
      callbacks := callbacks + [Batch(n.id, told)];
    }
  }

  /** Every row of a sweep that is past give-up and whose attempt is undisturbed has settled at its end. */
  lemma SweepGivesUp(cfg: Config, messages: Messages, rows: Table, sent: seq<Batch>, at: Time, now: Time,
                     answers: nat -> Answers)
    ensures var stale := ClaimedEntries(rows, SweptRows(cfg, rows, at), at);
            var end := Swept(cfg, messages, rows, sent, Fine, at, now, answers);
            forall i | 0 <= i < |stale| && now - stale[i].row.updatedAt >= cfg.giveUp && Undisturbed(answers(i)) ::
              SettledIn(end.rows, stale[i].id)
  {
    var stale := ClaimedEntries(rows, SweptRows(cfg, rows, at), at);
    var w := AfterSweep(cfg, Recovering(), rows, Fine, at).(phase := Idle, sweptAt := now);
    var start := World(w, StampClaimed(rows, SweptRows(cfg, rows, at), at), sent);
    SweptPending(cfg, rows, at, stale);
    forall i | 0 <= i < |stale| && now - stale[i].row.updatedAt >= cfg.giveUp && Undisturbed(answers(i))
      ensures SettledIn(Drain(cfg, messages, start, answers, 0).rows, stale[i].id)
    {
      DrainGivesUp(cfg, messages, start, answers, 0, i);
    }
  }

  /** A whole recovery run, likewise. */
  lemma SweepLeavesOthers(cfg: Config, messages: Messages, rows: Table, sent: seq<Batch>, claim: Db, at: Time,
                          now: Time, answers: nat -> Answers)
    requires Keyed(messages)
    ensures var stale := ClaimedEntries(rows, SweptRows(cfg, rows, at), at);
            var rows' := Swept(cfg, messages, rows, sent, claim, at, now, answers).rows;
            && rows'.Keys == rows.Keys
            && forall e :: e in rows && !Lists(stale, e) ==> rows'[e] == rows[e].(notifiedAt := rows'[e].notifiedAt)
  {
    var ids := SweptRows(cfg, rows, at);
    ClaimedAreListed(rows, ids, at);
    if claim.Fine? {
      var w := AfterSweep(cfg, Recovering(), rows, Fine, at).(phase := Idle, sweptAt := now);
      DrainLeavesOthers(cfg, messages, World(w, StampClaimed(rows, ids, at), sent), answers, 0);
    }
  }

  lemma SweptPending(cfg: Config, rows: Table, at: Time, stale: seq<Entry>)
    requires stale == ClaimedEntries(rows, SweptRows(cfg, rows, at), at)
    ensures forall i :: 0 <= i < |stale| ==> stale[i].row.status == PENDING
  {
    forall i | 0 <= i < |stale|
      ensures stale[i].row.status == PENDING
    {
      SweepEntries(cfg, rows, at, stale[i]);
    }
  }

  /** One result per delivery of the list, in its order. */
  method ResultsOf(ds: seq<Entry>) returns (out: seq<Told>)
    ensures out == Results(ds)
    ensures |out| == |ds|
    ensures forall k :: 0 <= k < |ds| ==>
              && out[k].delivery == ds[k].id
              && out[k].channel == ds[k].row.recipient.channel && out[k].address == ds[k].row.recipient.address
              && out[k].status == ds[k].row.status && out[k].reason == ds[k].row.reason
              && out[k].providerId == ds[k].row.providerId && out[k].settledAt == ds[k].row.updatedAt
  {
    out := [];
    for i := 0 to |ds|
      invariant out == Results(ds)[..i]
    {
      out := out + [ToldOf(ds[i])];
    }
  }
}
