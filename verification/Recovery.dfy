/**
 * Recovery in the long run: one sweep may be full of older deliveries, but it settles those, so
 * enough sweeps get to every delivery.
 */
module Recovery {
  import opened Basics
  import opened Deliveries
  import opened Worker
  import opened DispatchSafety
  import opened Dispatcher

  /** One recovery run: when it claimed, the clock it measured ages against, and what its attempts met. */
  datatype SweepRun = SweepRun(at: Time, now: Time, answers: nat -> Answers)

  function AfterRun(cfg: Config, messages: Messages, rows: Table, sent: seq<Batch>, r: SweepRun): World {
    Swept(cfg, messages, rows, sent, Fine, r.at, r.now, r.answers)
  }

  function AfterSweeps(cfg: Config, messages: Messages, rows: Table, sent: seq<Batch>, runs: seq<SweepRun>): Table
    decreases |runs|
  {
    if runs == [] then
      rows
    else
      var x := AfterRun(cfg, messages, rows, sent, runs[0]);
      AfterSweeps(cfg, messages, x.rows, x.sent, runs[1..])
  }

  // --- what attempts leave of the rows ---------------------------------------

  /** Rows settle and stay settled; a row still pending is as old as it was, and claimed no later. */
  predicate Quiet(rows: Table, rows': Table) {
    && rows'.Keys == rows.Keys
    && (forall e :: e in rows && rows[e].status.IsSettled() ==> rows'[e].status.IsSettled())
    && (forall e :: e in rows && rows'[e].status == PENDING ==>
          && rows'[e].updatedAt == rows[e].updatedAt
          && (rows'[e].claimedAt.None? || rows'[e].claimedAt == rows[e].claimedAt))
  }

  lemma QuietOn(a: Table, b: Table, c: Table)
    requires Quiet(a, b) && Quiet(b, c)
    ensures Quiet(a, c)
  {
    assert forall e :: e in a && b[e].status != PENDING ==> b[e].status.IsSettled();
  }

  lemma StepIsQuiet(cfg: Config, rows: Table, w: Worker, input: Input)
    requires !w.phase.Sweeping?
    ensures Quiet(rows, RowsAfter(cfg, rows, w, input))
  {
  }

  lemma NobodySweepsAgain(cfg: Config, messages: Messages, x: World, a: Answers)
    requires !x.w.phase.Sweeping?
    ensures !OneStep(cfg, messages, x, a).w.phase.Sweeping?
  {
  }

  lemma {:induction false} AloneIsQuiet(cfg: Config, messages: Messages, x: World, a: Answers)
    requires !x.w.phase.Sweeping?
    ensures Quiet(x.rows, Alone(cfg, messages, x, a).rows)
    decreases Effort(x.w)
  {
    if !Waits(x.w) {
      StepIsProgress(cfg, messages, x, a);
      StepIsQuiet(cfg, x.rows, x.w, InputFor(a, x.w.phase));
      NobodySweepsAgain(cfg, messages, x, a);
      var next := OneStep(cfg, messages, x, a);
      AloneIsQuiet(cfg, messages, next, a);
      QuietOn(x.rows, next.rows, Alone(cfg, messages, next, a).rows);
    }
  }

  lemma {:induction false} DrainIsQuiet(cfg: Config, messages: Messages, x: World, answers: nat -> Answers, k: nat)
    requires x.w.job.Sweep? && x.w.phase == Idle
    ensures Quiet(x.rows, Drain(cfg, messages, x, answers, k).rows)
    decreases |x.w.todo|
  {
    if x.w.todo != [] {
      var next := x.(w := NextRow(cfg, x.w));
      AloneInASweep(cfg, messages, next, answers(k));
      AloneIsQuiet(cfg, messages, next, answers(k));
      var end := Alone(cfg, messages, next, answers(k));
      DrainIsQuiet(cfg, messages, end, answers, k + 1);
      QuietOn(x.rows, end.rows, Drain(cfg, messages, end, answers, k + 1).rows);
    }
  }

  // --- one sweep -------------------------------------------------------------

  ghost predicate AllUndisturbed(r: SweepRun) {
    forall k: nat :: Undisturbed(r.answers(k))
  }

  lemma SweepIsQuiet(cfg: Config, messages: Messages, rows: Table, sent: seq<Batch>, r: SweepRun)
    ensures var ids := SweptRows(cfg, rows, r.at);
            Quiet(StampClaimed(rows, ids, r.at), AfterRun(cfg, messages, rows, sent, r).rows)
  {
    var w := AfterSweep(cfg, Recovering(), rows, Fine, r.at).(phase := Idle, sweptAt := r.now);
    var ids := SweptRows(cfg, rows, r.at);
    DrainIsQuiet(cfg, messages, World(w, StampClaimed(rows, ids, r.at), sent), r.answers, 0);
  }

  /** An undisturbed sweep settles each row it takes that is past give-up. */
  lemma SweepSettles(cfg: Config, messages: Messages, rows: Table, sent: seq<Batch>, r: SweepRun, e: Id)
    requires AllUndisturbed(r) && e in SweptRows(cfg, rows, r.at) && r.now - rows[e].updatedAt >= cfg.giveUp
    ensures SettledIn(AfterRun(cfg, messages, rows, sent, r).rows, e)
  {
    var ids := SweptRows(cfg, rows, r.at);
    var w := AfterSweep(cfg, Recovering(), rows, Fine, r.at).(phase := Idle, sweptAt := r.now);
    var x := World(w, StampClaimed(rows, ids, r.at), sent);
    var i := WhereItIsListed(rows, ids, r.at, e);
    SweptPending(cfg, rows, r.at, w.todo);
    DrainGivesUp(cfg, messages, x, r.answers, 0, i);
  }

  // --- enough sweeps ---------------------------------------------------------

  /** The pending rows that a sweep would take before this one, and itself. */
  function NotYounger(rows: Table, d: Id): set<Id>
    requires d in rows
  {
    set e | e in rows && rows[e].status == PENDING && (e == d || Older(rows, e, d))
  }

  /** No claim on a pending row is later than this. */
  predicate NoClaimAfter(rows: Table, t: Time) {
    forall e :: e in rows && rows[e].status == PENDING && rows[e].claimedAt.Some? ==> rows[e].claimedAt.value <= t
  }

  /** Each run claims more than a lease after the one before. */
  predicate ALeaseApart(cfg: Config, runs: seq<SweepRun>, last: Time)
    decreases |runs|
  {
    runs != [] ==> runs[0].at - cfg.lease > last && ALeaseApart(cfg, runs[1..], runs[0].at)
  }

  /** Undisturbed, and at an age of this row past give-up. */
  ghost predicate GivesUpOn(cfg: Config, r: SweepRun, updatedAt: Time) {
    AllUndisturbed(r) && r.at - cfg.after > updatedAt && r.now - updatedAt >= cfg.giveUp
  }

  lemma {:induction false} SettledStays(cfg: Config, messages: Messages, rows: Table, sent: seq<Batch>,
                                        runs: seq<SweepRun>, d: Id)
    requires d in rows && rows[d].status.IsSettled()
    ensures SettledIn(AfterSweeps(cfg, messages, rows, sent, runs), d)
    decreases |runs|
  {
    if runs != [] {
      SweepIsQuiet(cfg, messages, rows, sent, runs[0]);
      var x := AfterRun(cfg, messages, rows, sent, runs[0]);
      SettledStays(cfg, messages, x.rows, x.sent, runs[1..], d);
    }
  }

  /** A pending row after a run was pending before it, as old, and claimed by the run at the latest. */
  predicate RunLeaves(rows: Table, rows': Table, at: Time) {
    && rows'.Keys == rows.Keys
    && forall e :: e in rows && rows'[e].status == PENDING ==>
         && rows[e].status == PENDING && rows'[e].updatedAt == rows[e].updatedAt
         && (rows'[e].claimedAt.None? || rows'[e].claimedAt == rows[e].claimedAt || rows'[e].claimedAt == Some(at))
  }

  lemma RunIsQuiet(cfg: Config, messages: Messages, rows: Table, sent: seq<Batch>, r: SweepRun)
    ensures RunLeaves(rows, AfterRun(cfg, messages, rows, sent, r).rows, r.at)
  {
    SweepIsQuiet(cfg, messages, rows, sent, r);
    StampedIsLeft(rows, SweptRows(cfg, rows, r.at), r.at, AfterRun(cfg, messages, rows, sent, r).rows);
  }

  lemma StampedIsLeft(rows: Table, ids: set<Id>, at: Time, rows': Table)
    requires Quiet(StampClaimed(rows, ids, at), rows')
    ensures RunLeaves(rows, rows', at)
  {
    assert StampClaimed(rows, ids, at).Keys == rows.Keys;
    assert forall e :: e in rows ==> rows[e].status != PENDING ==> rows[e].status.IsSettled();
  }

  /** It is claimed by the run, or the run's batch is full of older ones, which it all settles. */
  lemma TakenOrBatch(cfg: Config, messages: Messages, rows: Table, sent: seq<Batch>, r: SweepRun, d: Id, t: Time)
    requires IsPending(rows, d) && NoClaimAfter(rows, t) && r.at - cfg.lease > t
    requires GivesUpOn(cfg, r, rows[d].updatedAt) && d !in SweptRows(cfg, rows, r.at)
    ensures var ids := SweptRows(cfg, rows, r.at);
            && |ids| == cfg.batch && ids <= NotYounger(rows, d)
            && forall e :: e in ids ==> SettledIn(AfterRun(cfg, messages, rows, sent, r).rows, e)
  {
    var ids := SweptRows(cfg, rows, r.at);
    OlderOnes(cfg, rows, d, r.at, t);
    forall e | e in ids
      ensures SettledIn(AfterRun(cfg, messages, rows, sent, r).rows, e)
    {
      SweepSettles(cfg, messages, rows, sent, r, e);
    }
  }

  lemma OlderOnes(cfg: Config, rows: Table, d: Id, at: Time, t: Time)
    requires IsPending(rows, d) && NoClaimAfter(rows, t) && at - cfg.lease > t && at - cfg.after > rows[d].updatedAt
    requires d !in SweptRows(cfg, rows, at)
    ensures |SweptRows(cfg, rows, at)| == cfg.batch && SweptRows(cfg, rows, at) <= NotYounger(rows, d)
    ensures forall e :: e in SweptRows(cfg, rows, at) ==> rows[e].updatedAt <= rows[d].updatedAt
  {
    TakenOrFull(rows, d, at, at - cfg.after, at - cfg.lease, cfg.batch);
  }

  /** What one run does for a delivery it gives up on: settles it, or a whole batch before it. */
  lemma OneRunHelps(cfg: Config, messages: Messages, rows: Table, sent: seq<Batch>, r: SweepRun, d: Id, t: Time)
    requires IsPending(rows, d) && NoClaimAfter(rows, t) && r.at - cfg.lease > t
    requires GivesUpOn(cfg, r, rows[d].updatedAt) && RunLeaves(rows, AfterRun(cfg, messages, rows, sent, r).rows, r.at)
    ensures var rows' := AfterRun(cfg, messages, rows, sent, r).rows;
            IsPending(rows', d) ==> |NotYounger(rows', d)| + cfg.batch <= |NotYounger(rows, d)|
  {
    var ids := SweptRows(cfg, rows, r.at);
    var rows' := AfterRun(cfg, messages, rows, sent, r).rows;
    if d in ids {
      SweepSettles(cfg, messages, rows, sent, r, d);
    } else {
      TakenOrBatch(cfg, messages, rows, sent, r, d, t);
      if IsPending(rows', d) {
        FewerNotYounger(rows, rows', ids, d);
      }
    }
  }

  lemma FewerNotYounger(rows: Table, rows': Table, ids: set<Id>, d: Id)
    requires d in rows && rows'.Keys == rows.Keys && IsPending(rows', d) && ids <= NotYounger(rows, d)
    requires forall e :: e in rows && rows'[e].status == PENDING ==>
               rows[e].status == PENDING && rows'[e].updatedAt == rows[e].updatedAt
    requires forall e :: e in ids ==> SettledIn(rows', e)
    ensures |NotYounger(rows', d)| + |ids| <= |NotYounger(rows, d)|
  {
    assert NotYounger(rows', d) <= NotYounger(rows, d) - ids;
    SubsetIsSmaller(NotYounger(rows', d), NotYounger(rows, d) - ids);
  }

  lemma OneFewer(n: nat, batch: nat)
    requires n > 0
    ensures n * batch == (n - 1) * batch + batch
    ensures batch * 0 == 0
  {
  }

  /**
   * So no delivery waits for ever: with n pending deliveries that are not younger than it,
   * n / batch sweeps that give up on it, undisturbed and a lease apart, settle it whatever the
   * providers answer.
   */
  lemma {:induction false} EnoughSweepsSettle(cfg: Config, messages: Messages, rows: Table, sent: seq<Batch>,
                                              runs: seq<SweepRun>, d: Id, t: Time)
    requires d in rows && NoClaimAfter(rows, t) && cfg.lease >= 0 && ALeaseApart(cfg, runs, t)
    requires forall k :: 0 <= k < |runs| ==> GivesUpOn(cfg, runs[k], rows[d].updatedAt)
    requires |NotYounger(rows, d)| <= |runs| * cfg.batch
    ensures SettledIn(AfterSweeps(cfg, messages, rows, sent, runs), d)
    decreases |runs|
  {
    if rows[d].status.IsSettled() {
      SettledStays(cfg, messages, rows, sent, runs, d);
    } else {
      assert d in NotYounger(rows, d);
      assert runs != [];
      RunIsQuiet(cfg, messages, rows, sent, runs[0]);
      OneRunHelps(cfg, messages, rows, sent, runs[0], d, t);
      var x := AfterRun(cfg, messages, rows, sent, runs[0]);
      if IsPending(x.rows, d) {
        OneFewer(|runs|, cfg.batch);
        EnoughSweepsSettle(cfg, messages, x.rows, x.sent, runs[1..], d, runs[0].at);
      } else {
        SettledStays(cfg, messages, x.rows, x.sent, runs[1..], d);
      }
    }
  }
}
