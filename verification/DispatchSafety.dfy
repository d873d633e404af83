/** What holds in every run of the delivery protocol. */
module DispatchSafety {
  import opened Basics
  import opened Deliveries
  import opened Worker
  import opened Protocol

  // --- every reachable state -------------------------------------------------

  lemma EvolvesOn(a: State, b: State, c: State)
    requires Evolves(a, b) && Evolves(b, c)
    ensures Evolves(a, c)
  {
    forall d | d in c.rows
      ensures || (d in a.rows && RowEvolves(a.rows[d], c.rows[d]))
              || (d !in a.openedIds && c.rows[d].notification !in a.issued)
    {
    }
  }

  /** A callback attempted stays attempted. */
  lemma ApplyKeepsSent(cfg: Config, s: State, a: Action)
    ensures s.sent <= Apply(cfg, s, a).sent
  {
  }

  lemma {:induction false} RunKeepsInv(cfg: Config, s: State, acts: seq<Action>)
    requires Inv(s)
    ensures var s' := Run(cfg, s, acts);
            Inv(s') && Evolves(s, s') && s.sent <= s'.sent
    decreases |acts|
  {
    if acts == [] {
      NothingHappens(s);
    } else {
      var next := Apply(cfg, s, acts[0]);
      ApplyKeepsInv(cfg, s, acts[0]);
      ApplyKeepsSent(cfg, s, acts[0]);
      RunKeepsInv(cfg, next, acts[1..]);
      EvolvesOn(s, next, Run(cfg, next, acts[1..]));
    }
  }

  lemma {:induction false} ReachableInv(cfg: Config, acts: seq<Action>)
    ensures Inv(Run(cfg, Start(), acts))
  {
    RunKeepsInv(cfg, Start(), acts);
  }

  // --- first outcome wins ----------------------------------------------------

  /**
   * A delivery leaves PENDING once. In every later state of every run it is the same outcome
   * -- status, attempts, reason, provider id, time -- or the message has been purged; and a
   * delivery that is gone never comes back.
   */
  lemma {:induction false} FirstOutcomeWins(cfg: Config, acts: seq<Action>, more: seq<Action>, d: Id)
    ensures var s := Run(cfg, Start(), acts);
            var later := Run(cfg, s, more);
            && (d in s.rows && s.rows[d].status.IsSettled() && d in later.rows ==>
                  SameOutcome(s.rows[d], later.rows[d]))
            && (d in s.openedIds && d !in s.rows ==> d !in later.rows)
  {
    ReachableInv(cfg, acts);
    RunKeepsInv(cfg, Run(cfg, Start(), acts), more);
  }

  // --- one callback, and a true one ------------------------------------------

  /**
   * At most one callback is attempted per message, whoever settles what and when. From then
   * on, in every later state: the message's deliveries have all settled, the callback names
   * every one that is still stored, and says of each what its row says.
   */
  lemma {:induction false} OneTrueCallback(cfg: Config, acts: seq<Action>, more: seq<Action>, i: nat, j: nat)
    requires i < |Run(cfg, Start(), acts).sent|
    ensures var later := Run(cfg, Run(cfg, Start(), acts), more);
            var b := Run(cfg, Start(), acts).sent[i];
            && i < |later.sent| && later.sent[i] == b
            && (forall d :: d in later.rows && later.rows[d].notification == b.notification ==>
                  later.rows[d].status.IsSettled() && exists k :: 0 <= k < |b.results| && b.results[k].delivery == d)
            && (forall k :: 0 <= k < |b.results| && b.results[k].delivery in later.rows ==>
                  var t, r := b.results[k], later.rows[b.results[k].delivery];
                  && t.channel == r.recipient.channel && t.address == r.recipient.address
                  && t.status == r.status && t.status.IsSettled() && t.reason == r.reason
                  && t.providerId == r.providerId && t.settledAt == r.updatedAt)
            && (j < |later.sent| && later.sent[j].notification == b.notification ==> i == j)
  {
    var s := Run(cfg, Start(), acts);
    ReachableInv(cfg, acts);
    RunKeepsInv(cfg, s, more);
    var later := Run(cfg, s, more);
    assert later.sent[i] == s.sent[i];
  }

  // --- no callback is lost ---------------------------------------------------

  lemma {:induction false} RunLosesNone(cfg: Config, s: State, acts: seq<Action>)
    requires Inv(s) && NoneLost(s)
    ensures NoneLost(Run(cfg, s, acts))
    decreases |acts|
  {
    if acts != [] {
      ApplyKeepsInv(cfg, s, acts[0]);
      ApplyLosesNone(cfg, s, acts[0]);
      RunLosesNone(cfg, Apply(cfg, s, acts[0]), acts[1..]);
    }
  }

  /**
   * In every run, whatever fails and whoever crashes elsewhere: once every delivery of a
   * message has settled, its announcement is taken or some worker is between its settling
   * write and its claim -- unless the message is one whose own announcement met a mishap.
   */
  lemma {:induction false} NoCallbackIsLost(cfg: Config, acts: seq<Action>, d: Id)
    requires var s := Run(cfg, Start(), acts);
             d in s.rows && MessageSettled(s.rows, s.rows[d].notification) && s.rows[d].notification !in s.mishaps
    ensures var s := Run(cfg, Start(), acts);
            s.rows[d].notifiedAt.Some? || SomebodyAnnouncing(s, s.rows[d].notification)
  {
    ReachableInv(cfg, acts);
    RunLosesNone(cfg, Start(), acts);
  }

  /**
   * The action kept this message's announcement from happening: a settling write that was
   * applied and not acknowledged, a list that failed when all had settled, a webhook that is
   * not active, a claim that failed while there was something to claim, or the crash of a
   * worker that was announcing it.
   */
  predicate Foils(s: State, a: Action, n: Id) {
    if a.Crash? then
      a.w in s.workers && (Announcing(s.workers[a.w], n) || AboutToNotify(s.workers[a.w], n))
    else
      && a.Act? && a.w in s.workers && a.input.at <= s.now
      && match s.workers[a.w].phase {
           case Writing(cur, _, _) =>
             cur.copy.notification == n && IsPending(s.rows, cur.id) && a.input.db == Fault(true)
           case Listing(_, m) => m.id == n && a.input.db.Fault? && MessageSettled(s.rows, n)
           case Hooking(_, m, _) => m.id == n && a.input.hook.Absent?
           case Claiming(_, m, _) => m.id == n && a.input.db.Fault? && Unannounced(s.rows, n)
           case _ => false
         }
  }

  ghost predicate WasFoiled(cfg: Config, acts: seq<Action>, n: Id) {
    exists k :: 0 <= k < |acts| && Foils(Run(cfg, Start(), acts[..k]), acts[k], n)
  }

  lemma ApplyAddsMishaps(cfg: Config, s: State, a: Action, n: Id)
    ensures n in Apply(cfg, s, a).mishaps <==> n in s.mishaps || Foils(s, a, n)
  {
  }

  lemma {:induction false} RunInTwo(cfg: Config, s: State, a: seq<Action>, b: seq<Action>)
    ensures Run(cfg, s, a + b) == Run(cfg, Run(cfg, s, a), b)
    decreases |a|
  {
    if a == [] {
      assert a + b == b;
    } else {
      assert (a + b)[0] == a[0] && (a + b)[1..] == a[1..] + b;
      RunInTwo(cfg, Apply(cfg, s, a[0]), a[1..], b);
    }
  }

  /** The messages that the guarantees leave out are exactly those with such an action in the run. */
  lemma {:induction false} MishapsAreTheirOwn(cfg: Config, acts: seq<Action>, n: Id)
    ensures n in Run(cfg, Start(), acts).mishaps <==> WasFoiled(cfg, acts, n)
    decreases |acts|
  {
    if acts != [] {
      var m := |acts| - 1;
      var init, a := acts[..m], acts[m];
      assert acts == init + [a];
      RunInTwo(cfg, Start(), init, [a]);
      assert Run(cfg, Run(cfg, Start(), init), [a]) == Apply(cfg, Run(cfg, Start(), init), a);
      ApplyAddsMishaps(cfg, Run(cfg, Start(), init), a, n);
      MishapsAreTheirOwn(cfg, init, n);
      assert forall k :: 0 <= k < m ==> acts[..k] == init[..k] && acts[k] == init[k];
      if k :| 0 <= k < |acts| && Foils(Run(cfg, Start(), acts[..k]), acts[k], n) {
        assert k < m ==> Foils(Run(cfg, Start(), init[..k]), init[k], n);
      }
      if k :| 0 <= k < |init| && Foils(Run(cfg, Start(), init[..k]), init[k], n) {
        assert Foils(Run(cfg, Start(), acts[..k]), acts[k], n);
      }
    }
  }

  predicate IsOnlyCallback(s: State, n: Id, i: nat) {
    && i < |s.sent| && s.sent[i].notification == n
    && forall j :: 0 <= j < |s.sent| && s.sent[j].notification == n ==> j == i
  }

  lemma ClaimedIsTold(s: State, n: Id)
    requires SentInv(s) && NoneLost(s) && n in s.taken && n !in s.mishaps && !SomebodyNotifying(s, n)
    ensures exists i :: IsOnlyCallback(s, n, i)
  {
    var i: nat :| 0 <= i < |s.sent| && s.sent[i].notification == n;
    assert IsOnlyCallback(s, n, i);
  }

  /** Nobody is on the way to announce this message, or about to. */
  ghost predicate NobodyIsAt(s: State, n: Id) {
    !SomebodyAnnouncing(s, n) && !SomebodyNotifying(s, n)
  }

  /** So once nobody is left announcing it, exactly one callback has been attempted for it. */
  lemma {:induction false} ExactlyOneCallback(cfg: Config, acts: seq<Action>, d: Id)
    requires var s := Run(cfg, Start(), acts);
             && d in s.rows && MessageSettled(s.rows, s.rows[d].notification)
             && s.rows[d].notification !in s.mishaps && NobodyIsAt(s, s.rows[d].notification)
    ensures var s := Run(cfg, Start(), acts);
            exists i :: IsOnlyCallback(s, s.rows[d].notification, i)
  {
    var s := Run(cfg, Start(), acts);
    NoCallbackIsLost(cfg, acts, d);
    ReachableInv(cfg, acts);
    RunLosesNone(cfg, Start(), acts);
    ClaimedIsTold(s, s.rows[d].notification);
  }

  // --- what an attempt answers -----------------------------------------------

  function CurrentOf(p: Phase): Option<Current> {
    match p
    case Loaded(cur) => Some(cur)
    case NeedsSender(cur, n) => Some(cur)
    case Sending(cur, n) => Some(cur)
    case Writing(cur, told, o) => Some(cur)
    case Releasing(cur) => Some(cur)
    case Listing(cur, n) => Some(cur)
    case Hooking(cur, n, ds) => Some(cur)
    case Claiming(cur, n, ds) => Some(cur)
    case Notifying(cur, n, ds) => Some(cur)
    case _ => None
  }

  /** An event worker works on its own delivery, once, with the last chance its count gives it. */
  predicate EventShape(cfg: Config, w: Worker) {
    w.job.Event? ==>
      var lastChance := w.job.attempt >= cfg.maxAttempts;
      && w.todo == []
      && !w.phase.Sweeping? && !w.phase.Clocking? && !w.phase.Idle?
      && (CurrentOf(w.phase).Some? ==>
            CurrentOf(w.phase).value.id == w.job.delivery && CurrentOf(w.phase).value.lastChance == lastChance)
      && (!w.phase.Finished? ==> w.attempts == [])
      && (w.phase == Finished(true) ==> |w.attempts| == 1 && w.attempts[0].ok)
      && (forall a :: a in w.attempts ==> a.delivery == w.job.delivery && a.lastChance == lastChance)
  }

  /** In a sweep the last chance is a matter of age: the copy's, at the moment the sweep read the clock. */
  predicate SweepShape(cfg: Config, w: Worker) {
    w.job.Sweep? ==>
      && !w.phase.Reading?
      && (w.phase.Sweeping? || w.phase.Clocking? ==> w.attempts == [])
      && (CurrentOf(w.phase).Some? ==>
            var cur := CurrentOf(w.phase).value;
            cur.lastChance == (w.sweptAt - cur.copy.updatedAt >= cfg.giveUp))
      && (forall a :: a in w.attempts ==>
            a.loaded.Some? && a.lastChance == (w.sweptAt - a.loaded.value >= cfg.giveUp))
  }

  predicate AllShaped(cfg: Config, s: State) {
    forall w :: w in s.workers ==> EventShape(cfg, s.workers[w]) && SweepShape(cfg, s.workers[w])
  }

  lemma WriterKeepsShape(cfg: Config, messages: Messages, rows: Table, w: Worker, input: Input)
    requires EventShape(cfg, w) && Writes(w)
    ensures EventShape(cfg, WorkerAfter(cfg, messages, rows, w, input))
  {
  }

  /** The phases before anything is sent. */
  predicate LooksUp(w: Worker) {
    w.phase.Reading? || w.phase.Clocking? || w.phase.Idle? || w.phase.Loaded? || w.phase.NeedsSender?
  }

  lemma LookupKeepsShape(cfg: Config, messages: Messages, rows: Table, w: Worker, input: Input)
    requires EventShape(cfg, w) && LooksUp(w)
    ensures EventShape(cfg, WorkerAfter(cfg, messages, rows, w, input))
  {
  }

  lemma ReaderKeepsShape(cfg: Config, messages: Messages, rows: Table, w: Worker, input: Input)
    requires EventShape(cfg, w) && !Writes(w) && !LooksUp(w)
    ensures EventShape(cfg, WorkerAfter(cfg, messages, rows, w, input))
  {
  }

  lemma WriterKeepsSweepShape(cfg: Config, messages: Messages, rows: Table, w: Worker, input: Input)
    requires SweepShape(cfg, w) && Writes(w)
    ensures SweepShape(cfg, WorkerAfter(cfg, messages, rows, w, input))
  {
  }

  lemma LookupKeepsSweepShape(cfg: Config, messages: Messages, rows: Table, w: Worker, input: Input)
    requires SweepShape(cfg, w) && LooksUp(w)
    ensures SweepShape(cfg, WorkerAfter(cfg, messages, rows, w, input))
  {
  }

  lemma ReaderKeepsSweepShape(cfg: Config, messages: Messages, rows: Table, w: Worker, input: Input)
    requires SweepShape(cfg, w) && !Writes(w) && !LooksUp(w)
    ensures SweepShape(cfg, WorkerAfter(cfg, messages, rows, w, input))
  {
  }

  lemma StepKeepsShape(cfg: Config, messages: Messages, rows: Table, w: Worker, input: Input)
    requires EventShape(cfg, w) && SweepShape(cfg, w)
    ensures var w' := WorkerAfter(cfg, messages, rows, w, input);
            EventShape(cfg, w') && SweepShape(cfg, w')
  {
    if Writes(w) {
      WriterKeepsSweepShape(cfg, messages, rows, w, input);
      WriterKeepsShape(cfg, messages, rows, w, input);
    } else if LooksUp(w) {
      LookupKeepsSweepShape(cfg, messages, rows, w, input);
      LookupKeepsShape(cfg, messages, rows, w, input);
    } else {
      ReaderKeepsSweepShape(cfg, messages, rows, w, input);
      ReaderKeepsShape(cfg, messages, rows, w, input);
    }
  }

  lemma ApplyKeepsShape(cfg: Config, s: State, a: Action, x: Id)
    requires AllShaped(cfg, s)
    requires x in Apply(cfg, s, a).workers
    ensures EventShape(cfg, Apply(cfg, s, a).workers[x]) && SweepShape(cfg, Apply(cfg, s, a).workers[x])
  {
    if a.Act? {
      if x in s.workers {
        StepKeepsShape(cfg, s.messages, s.rows, s.workers[x], a.input);
      }
    } else {
      StaffingKeepsShape(cfg, s, a, x);
    }
  }

  lemma StaffingKeepsShape(cfg: Config, s: State, a: Action, x: Id)
    requires AllShaped(cfg, s) && !a.Act? && x in Apply(cfg, s, a).workers
    ensures EventShape(cfg, Apply(cfg, s, a).workers[x]) && SweepShape(cfg, Apply(cfg, s, a).workers[x])
  {
  }

  lemma {:induction false} RunKeepsShape(cfg: Config, s: State, acts: seq<Action>)
    requires AllShaped(cfg, s)
    ensures AllShaped(cfg, Run(cfg, s, acts))
    decreases |acts|
  {
    if acts != [] {
      var next := Apply(cfg, s, acts[0]);
      forall x | x in next.workers
        ensures EventShape(cfg, next.workers[x]) && SweepShape(cfg, next.workers[x])
      {
        ApplyKeepsShape(cfg, s, acts[0], x);
      }
      RunKeepsShape(cfg, next, acts[1..]);
    }
  }

  /**
   * Handle answers truthfully: it returns nil -- so the event is acknowledged -- only when the
   * delivery has settled or is gone, and that is so in every later state too.
   */
  lemma {:induction false} NilMeansSettled(cfg: Config, acts: seq<Action>, more: seq<Action>, w: Id)
    requires var s := Run(cfg, Start(), acts);
             w in s.workers && s.workers[w].job.Event? && s.workers[w].phase == Finished(true)
    ensures var s := Run(cfg, Start(), acts);
            SettledOrGone(Run(cfg, s, more), s.workers[w].job.delivery)
  {
    var s := Run(cfg, Start(), acts);
    ReachableInv(cfg, acts);
    RunKeepsShape(cfg, Start(), acts);
    assert WorkerInv(s, w, s.workers[w]);
    assert AttemptInv(s, s.workers[w].attempts[0]);
    RunKeepsInv(cfg, s, more);
  }

  /** This step's call failed in a way that counts: a lookup, a load, the write, the list or the claim. */
  predicate MeetsAnError(w: Worker, input: Input) {
    match w.phase
    case Reading => input.db.Fault?
    case Loaded(_) => input.db.Fault?
    case NeedsSender(_, _) => input.sender.LookupFailed?
    case Writing(cur, _, _) => input.db.Fault? && cur.copy.status == PENDING
    case Listing(_, _) => input.db.Fault?
    case Claiming(_, _, _) => input.db.Fault?
    case _ => false
  }

  /**
   * What the record of an attempt says: whose it was, when its copy was from, and that it was
   * clean exactly when the step that ended it met no error -- and an error always ends it.
   */
  lemma RecordIs(cfg: Config, messages: Messages, rows: Table, w: Worker, input: Input)
    requires w.phase.Reading? ==> w.job.Event?
    ensures var w' := WorkerAfter(cfg, messages, rows, w, input);
            && (MeetsAnError(w, input) ==> |w'.attempts| == |w.attempts| + 1)
            && (w'.attempts != w.attempts ==>
                  && |w'.attempts| == |w.attempts| + 1 && w'.attempts[..|w.attempts|] == w.attempts
                  && var a := w'.attempts[|w.attempts|];
                     && (a.clean <==> !MeetsAnError(w, input))
                     && (w.phase.Reading? ==>
                           a.delivery == w.job.delivery && a.loaded.None?
                           && a.lastChance == (w.job.attempt >= cfg.maxAttempts))
                     && (!w.phase.Reading? ==>
                           && CurrentOf(w.phase).Some?
                           && var cur := CurrentOf(w.phase).value;
                              a.delivery == cur.id && a.loaded == Some(cur.copy.updatedAt)
                              && a.lastChance == cur.lastChance))
  {
    if w.phase.Writing? {
      MarkedExactlyWhen(w.phase.cur.copy, w.phase.outcome, input.at);
    }
  }

  lemma MarkedExactlyWhen(r: Row, o: Outcome, at: Time)
    ensures Mark(r, o, r.attempts + 1, at).Some? <==> r.status == PENDING
  {
  }

  /**
   * An attempt that is a delivery's last chance, and meets no store error and no failed sender
   * lookup, leaves it settled -- whatever the provider answered. For an event the last chance
   * is the broker's delivery limit; for a sweep it is a copy older than give-up.
   */
  lemma {:induction false} LastChanceSettles(cfg: Config, acts: seq<Action>, w: Id, k: nat)
    requires var s := Run(cfg, Start(), acts);
             w in s.workers && k < |s.workers[w].attempts|
    ensures var s := Run(cfg, Start(), acts);
            var a := s.workers[w].attempts[k];
            && (a.clean && a.lastChance ==> a.ok && SettledOrGone(s, a.delivery))
            && (s.workers[w].job.Event? ==>
                  a.delivery == s.workers[w].job.delivery
                  && a.lastChance == (s.workers[w].job.attempt >= cfg.maxAttempts))
            && (s.workers[w].job.Sweep? ==>
                  a.loaded.Some? && a.lastChance == (s.workers[w].sweptAt - a.loaded.value >= cfg.giveUp))
  {
    var s := Run(cfg, Start(), acts);
    ReachableInv(cfg, acts);
    RunKeepsShape(cfg, Start(), acts);
    assert WorkerInv(s, w, s.workers[w]);
    assert s.workers[w].attempts[k] in s.workers[w].attempts;
  }

  // --- nothing pending is stuck ----------------------------------------------

  lemma {:induction false} ClaimedOrFull(t: Table, all: set<Id>, limit: nat, d: Id)
    requires all <= t.Keys && d in all
    ensures var taken := TakeOldest(t, all, limit);
            d in taken || (|taken| == limit && forall x :: x in taken ==> x in t && Older(t, x, d))
  {
    var taken := TakeOldest(t, all, limit);
    TakesTheOldest(t, all, limit);
    if d !in taken {
      assert d in all - taken;
      if |taken| == |all| {
        SameSizeIsAll(taken, all);
      }
    }
  }

  lemma TakenOrFull(t: Table, d: Id, at: Time, olderThan: Time, expired: Time, limit: nat)
    requires d in t && Claimable(t[d], olderThan, expired)
    ensures var taken := ClaimedBy(t, at, olderThan, expired, limit);
            d in taken || (|taken| == limit && forall x :: x in taken ==> x in t && Older(t, x, d))
  {
    ClaimedOrFull(t, AllClaimable(t, olderThan, expired), limit, d);
  }

  lemma SweptOrFull(cfg: Config, s: State, d: Id, t: Time)
    requires TableInv(s) && IsPending(s.rows, d)
    requires t > s.rows[d].updatedAt + cfg.after && t > s.now + cfg.lease
    ensures var swept := SweptRows(cfg, s.rows, t);
            d in swept || (|swept| == cfg.batch && forall x :: x in swept ==> x in s.rows && Older(s.rows, x, d))
  {
    var r := s.rows[d];
    assert r.claimedAt.Some? ==> r.claimedAt.value <= s.now;
    assert Claimable(r, t - cfg.after, t - cfg.lease);
    TakenOrFull(s.rows, d, t, t - cfg.after, t - cfg.lease, cfg.batch);
  }

  /**
   * Whatever has happened to it, a pending delivery is taken by any sweep whose clock is past
   * its age and past a lease from now -- or that sweep is full of deliveries older than it.
   */
  lemma {:induction false} NothingIsStuck(cfg: Config, acts: seq<Action>, d: Id, t: Time)
    requires IsPending(Run(cfg, Start(), acts).rows, d)
    requires t > Run(cfg, Start(), acts).rows[d].updatedAt + cfg.after
    requires t > Run(cfg, Start(), acts).now + cfg.lease
    ensures var s := Run(cfg, Start(), acts);
            var swept := SweptRows(cfg, s.rows, t);
            d in swept || (|swept| == cfg.batch && forall x :: x in swept ==> x in s.rows && Older(s.rows, x, d))
  {
    ReachableInv(cfg, acts);
    SweptOrFull(cfg, Run(cfg, Start(), acts), d, t);
  }

  lemma {:induction false} SubsetIsSmaller(a: set<Id>, b: set<Id>)
    requires a <= b
    ensures |a| <= |b|
  {
    if a != {} {
      var x :| x in a;
      SubsetIsSmaller(a - {x}, b - {x});
    }
  }
}
