/**
 * Closing what was opened: highest tier first, newest first within a tier, past every failure.
 */
module Shutdown {
  import opened Basics
  import opened Ordering

  const STORE: int := 0
  const BROKER: int := 1
  const CLIENT: int := 2
  const SERVER: int := 3
  const HIGHEST: int := SERVER

  /** How a step closes: it may have nothing to call, and a call may fail. */
  datatype Closing = NoFunction | Function(failure: Option<string>)

  datatype Step = Step(name: string, tier: int, closing: Closing)

  datatype Failure = Failure(name: string, cause: string)

  // --- the order -------------------------------------------------------------

  /** The steps of one tier among the first n, newest first, by where they stand. */
  function TierDown(steps: seq<Step>, t: int, n: nat): seq<nat>
    requires n <= |steps|
  {
    if n == 0 then []
    else if steps[n - 1].tier == t then [n - 1] + TierDown(steps, t, n - 1)
    else TierDown(steps, t, n - 1)
  }

  function FromTier(steps: seq<Step>, t: int): seq<nat>
    decreases t - STORE + 1
  {
    if t < STORE then [] else TierDown(steps, t, |steps|) + FromTier(steps, t - 1)
  }

  function CloseOrder(steps: seq<Step>): seq<nat> {
    FromTier(steps, HIGHEST)
  }

  /** A higher tier before a lower one, and within a tier the newer before the older. */
  predicate Before(steps: seq<Step>, i: nat, j: nat)
    requires i < |steps| && j < |steps|
  {
    steps[i].tier > steps[j].tier || (steps[i].tier == steps[j].tier && i > j)
  }

  predicate InCloseOrder(steps: seq<Step>, order: seq<nat>) {
    && (forall k :: 0 <= k < |order| ==> order[k] < |steps|)
    && (forall k, l :: 0 <= k < l < |order| ==> Before(steps, order[k], order[l]))
  }

  lemma {:induction false} TierDownIs(steps: seq<Step>, t: int, n: nat)
    requires n <= |steps|
    ensures InCloseOrder(steps, TierDown(steps, t, n))
    ensures forall i :: i in TierDown(steps, t, n) <==> 0 <= i < n && steps[i].tier == t
  {
    if n > 0 {
      TierDownIs(steps, t, n - 1);
      var rest := TierDown(steps, t, n - 1);
      if steps[n - 1].tier == t {
        assert forall k :: 0 <= k < |rest| ==> rest[k] in rest;
      }
    }
  }

  lemma {:induction false} FromTierIs(steps: seq<Step>, t: int)
    ensures InCloseOrder(steps, FromTier(steps, t))
    ensures forall i :: i in FromTier(steps, t) <==> 0 <= i < |steps| && STORE <= steps[i].tier <= t
    decreases t - STORE + 1
  {
    if t >= STORE {
      TierDownIs(steps, t, |steps|);
      FromTierIs(steps, t - 1);
      var first, rest := TierDown(steps, t, |steps|), FromTier(steps, t - 1);
      assert forall k :: 0 <= k < |first| ==> first[k] in first;
      assert forall k :: 0 <= k < |rest| ==> rest[k] in rest;
    }
  }

  /** Every step of a known tier, each exactly once, in the order promised. */
  lemma CloseOrderIs(steps: seq<Step>)
    ensures InCloseOrder(steps, CloseOrder(steps))
    ensures forall i :: i in CloseOrder(steps) <==> 0 <= i < |steps| && STORE <= steps[i].tier <= HIGHEST
    ensures forall k, l :: 0 <= k < l < |CloseOrder(steps)| ==> CloseOrder(steps)[k] != CloseOrder(steps)[l]
    ensures forall i :: 0 <= i < |steps| && (steps[i].tier == STORE || steps[i].tier == BROKER
                                             || steps[i].tier == CLIENT || steps[i].tier == SERVER) ==>
              i in CloseOrder(steps)
    ensures SERVER > CLIENT > BROKER > STORE
  {
    FromTierIs(steps, HIGHEST);
    var order := CloseOrder(steps);
    forall k, l | 0 <= k < l < |order|
      ensures order[k] != order[l]
    {
      assert Before(steps, order[k], order[l]);
    }
  }

  /** And there is only one such order. */
  lemma {:induction false} OrderIsUnique(steps: seq<Step>, a: seq<nat>, b: seq<nat>)
    requires InCloseOrder(steps, a) && InCloseOrder(steps, b)
    requires forall i :: i in a <==> i in b
    ensures a == b
    decreases |a|
  {
    if a == [] {
      if b != [] {
        HasAnElement(b);
      }
    } else if b == [] {
      HasAnElement(a);
    } else {
      assert a[0] in b && b[0] in a;
      assert a[0] == b[0];
      forall i
        ensures i in a[1..] <==> i in b[1..]
      {
        assert i in a <==> i == a[0] || i in a[1..];
        assert i in b <==> i == b[0] || i in b[1..];
        assert a[0] !in a[1..] && b[0] !in b[1..];
      }
      OrderIsUnique(steps, a[1..], b[1..]);
      assert a == [a[0]] + a[1..] && b == [b[0]] + b[1..];
    }
  }

  // --- what a close comes to -------------------------------------------------

  function Taken(steps: seq<Step>, order: seq<nat>): seq<Step>
    requires forall k :: 0 <= k < |order| ==> order[k] < |steps|
  {
    seq(|order|, k requires 0 <= k < |order| => steps[order[k]])
  }

  /** Exactly the failures, in the order of the steps. */
  function Failures(closed: seq<Step>): seq<Failure> {
    if closed == [] then []
    else
      var last := closed[|closed| - 1];
      var fails := last.closing.Function? && last.closing.failure.Some?;
      Failures(closed[..|closed| - 1]) + if fails then [Failure(last.name, last.closing.failure.value)] else []
  }

  predicate Failed(s: Step, f: Failure) {
    s.closing == Function(Some(f.cause)) && s.name == f.name
  }

  /** Every failure of a step is reported, and nothing that was not one. */
  lemma {:induction false} FailuresAre(closed: seq<Step>, f: Failure)
    ensures f in Failures(closed) <==> exists k :: 0 <= k < |closed| && Failed(closed[k], f)
  {
    if closed != [] {
      var init, last := closed[..|closed| - 1], closed[|closed| - 1];
      FailuresAre(init, f);
      assert forall k :: 0 <= k < |init| ==> closed[k] == init[k];
      assert (exists k :: 0 <= k < |closed| && Failed(closed[k], f)) <==>
             (Failed(last, f) || exists k :: 0 <= k < |init| && Failed(init[k], f));
    }
  }

  /** And in the order of the steps: what an earlier part reports comes before what a later part does. */
  lemma {:induction false} FailuresKeepOrder(a: seq<Step>, b: seq<Step>)
    ensures Failures(a + b) == Failures(a) + Failures(b)
    decreases |b|
  {
    if b == [] {
      assert a + b == a;
    } else {
      var n := |b| - 1;
      FailuresKeepOrder(a, b[..n]);
      assert (a + b)[..|a + b| - 1] == a + b[..n];
      assert (a + b)[|a + b| - 1] == b[n];
    }
  }

  predicate AllClose(steps: seq<Step>) {
    forall k :: 0 <= k < |steps| && STORE <= steps[k].tier <= HIGHEST ==> steps[k].closing.Function?
  }

  predicate InRange(steps: seq<Step>, order: seq<nat>) {
    forall k :: 0 <= k < |order| ==> order[k] < |steps|
  }

  /** The first n of the order have been closed, and their failures collected. */
  ghost predicate UpTo(steps: seq<Step>, order: seq<nat>, n: nat, before: seq<Step>, closed: seq<Step>,
                       failures: seq<Failure>) {
    && InRange(steps, order) && n <= |order|
    && closed == before + Taken(steps, order[..n])
    && failures == Failures(Taken(steps, order[..n]))
    && forall k :: 0 <= k < n ==> steps[order[k]].closing.Function?
  }

  lemma OneMore(steps: seq<Step>, order: seq<nat>, n: nat, before: seq<Step>, closed: seq<Step>,
                failures: seq<Failure>, s: Step)
    requires UpTo(steps, order, n, before, closed, failures)
    requires n < |order| && s == steps[order[n]] && s.closing.Function?
    ensures UpTo(steps, order, n + 1, before, closed + [s],
                 failures + if s.closing.failure.Some? then [Failure(s.name, s.closing.failure.value)] else [])
  {
    var taken := Taken(steps, order[..n]);
    assert Taken(steps, order[..n + 1]) == taken + [s];
    assert (taken + [s])[..|taken|] == taken;
    assert closed + [s] == before + (taken + [s]);
  }

  lemma NoFunctionIsNotAll(steps: seq<Step>, order: seq<nat>, n: nat)
    requires order == CloseOrder(steps) && n < |order| && order[n] < |steps| && steps[order[n]].closing.NoFunction?
    ensures !AllClose(steps)
  {
    CloseOrderIs(steps);
    assert order[n] in order;
  }

  lemma AllTaken(steps: seq<Step>, before: seq<Step>, closed: seq<Step>, failures: seq<Failure>)
    requires UpTo(steps, CloseOrder(steps), |CloseOrder(steps)|, before, closed, failures)
    ensures AllClose(steps)
  {
    CloseOrderIs(steps);
    forall i | 0 <= i < |steps| && STORE <= steps[i].tier <= HIGHEST
      ensures steps[i].closing.Function?
    {
      assert i in CloseOrder(steps);
    }
  }

  /** Where a shutdown came to its end: past every step, or at the first one that has nothing to call. */
  ghost predicate Stopped(steps: seq<Step>, n: nat, panicked: bool) {
    var order := CloseOrder(steps);
    && InRange(steps, order)
    && if panicked then n < |order| && steps[order[n]].closing.NoFunction? else n == |order|
  }

  lemma {:induction false} NothingYet(steps: seq<Step>, closed: seq<Step>)
    ensures UpTo(steps, CloseOrder(steps), 0, closed, closed, [])
    ensures CloseOrder(steps)[0..] == FromTier(steps, HIGHEST)
  {
    CloseOrderIs(steps);
    assert forall k :: 0 <= k < |CloseOrder(steps)| ==> CloseOrder(steps)[k] in CloseOrder(steps);
    assert closed + [] == closed;
  }

  /** One step down within a tier, seen from the whole order. */
  lemma OneDown(steps: seq<Step>, t: int, n: nat, tail: seq<nat>, order: seq<nat>, done: nat)
    requires n < |steps| && done <= |order| && order[done..] == TierDown(steps, t, n + 1) + tail
    ensures steps[n].tier == t ==>
              done < |order| && order[done] == n && order[done + 1..] == TierDown(steps, t, n) + tail
    ensures steps[n].tier != t ==> order[done..] == TierDown(steps, t, n) + tail
  {
    if steps[n].tier == t {
      assert order[done] == order[done..][0];
      assert order[done + 1..] == order[done..][1..];
    }
  }

  /**
   * A close that started with these steps on record, and what it left: the steps closed, in
   * order and past failures, all of them or up to one that has nothing to call; the failures
   * of exactly those; and no step on record, or every one.
   */
  ghost predicate Closes(steps: seq<Step>, before: seq<Step>, left: seq<Step>, closed: seq<Step>,
                         failures: seq<Failure>, panicked: bool, n: nat)
  {
    && (panicked <==> !AllClose(steps))
    && left == (if panicked then steps else [])
    && Stopped(steps, n, panicked)
    && UpTo(steps, CloseOrder(steps), n, before, closed, failures)
  }

  /** Where the loops leave off, all closed or stuck at a step that has nothing to call. */
  lemma LoopsClose(steps: seq<Step>, before: seq<Step>, closed: seq<Step>, failures: seq<Failure>,
                   panicked: bool, n: nat)
    requires UpTo(steps, CloseOrder(steps), n, before, closed, failures) && Stopped(steps, n, panicked)
    ensures Closes(steps, before, if panicked then steps else [], closed, failures, panicked, n)
  {
    if panicked {
      NoFunctionIsNotAll(steps, CloseOrder(steps), n);
    } else {
      AllTaken(steps, before, closed, failures);
    }
  }

  class Resources {
    var steps: seq<Step>
    /** What has been closed so far, in order: a call per entry. */
    var closed: seq<Step>

    constructor ()
      ensures steps == [] && closed == []
    {
      steps, closed := [], [];
    }

    method Add(s: Step)
      modifies this`steps
      ensures steps == old(steps) + [s]
    {
      steps := steps + [s];
    }

    /** The inner loop: one tier, newest first. */
    method CloseTier(t: int, failures: seq<Failure>, ghost done: nat, ghost before: seq<Step>)
      returns (after: seq<Failure>, panicked: bool, ghost done': nat)
      requires UpTo(steps, CloseOrder(steps), done, before, closed, failures)
      requires CloseOrder(steps)[done..] == TierDown(steps, t, |steps|) + FromTier(steps, t - 1)
      modifies this`closed
      ensures UpTo(steps, CloseOrder(steps), done', before, closed, after)
      ensures panicked ==> Stopped(steps, done', true)
      ensures !panicked ==> done' <= |CloseOrder(steps)| && CloseOrder(steps)[done'..] == FromTier(steps, t - 1)
    {
      ghost var order := CloseOrder(steps);
      after, done' := failures, done;
      var n := |steps|;
      while n > 0
        invariant 0 <= n <= |steps| && UpTo(steps, order, done', before, closed, after)
        invariant done' <= |order| && order[done'..] == TierDown(steps, t, n) + FromTier(steps, t - 1)
      {
        n := n - 1;
        var s := steps[n];
        OneDown(steps, t, n, FromTier(steps, t - 1), order, done');
        if s.tier != t {
          continue;
        }
        if s.closing.NoFunction? {
          return after, true, done';
        }
        OneMore(steps, order, done', before, closed, after, s);
        closed := closed + [s];
        after := after + if s.closing.failure.Some? then [Failure(s.name, s.closing.failure.value)] else [];
        done' := done' + 1;
      }
      return after, false, done';
    }

    /**
     * Closes everything, past failures, and reports them. A step with nothing to call stops it
     * there: what comes before it in the order has been closed, nothing after it has, and the
     * steps are all still on record.
     */
    method Close() returns (failures: seq<Failure>, panicked: bool, ghost n: nat)
      modifies this
      ensures Closes(old(steps), old(closed), steps, closed, failures, panicked, n)
    {
      failures, n := [], 0;
      NothingYet(steps, closed);
      var t := HIGHEST;
      while t >= STORE
        invariant STORE - 1 <= t <= HIGHEST && steps == old(steps)
        invariant UpTo(steps, CloseOrder(steps), n, old(closed), closed, failures)
        invariant n <= |CloseOrder(steps)| && CloseOrder(steps)[n..] == FromTier(steps, t)
        decreases t - STORE + 1
      {
        var after, stuck, reached := CloseTier(t, failures, n, old(closed));
        failures, n := after, reached;
        if stuck {
          LoopsClose(steps, old(closed), closed, failures, true, n);
          return failures, true, n;
        }
        t := t - 1;
      }
      LoopsClose(steps, old(closed), closed, failures, false, n);
      steps := [];
      return failures, false, n;
    }
  }

  lemma WhatIsClosedHasAFunction(steps: seq<Step>, order: seq<nat>, n: nat, before: seq<Step>, closed: seq<Step>,
                                 failures: seq<Failure>, k: nat)
    requires UpTo(steps, order, n, before, closed, failures)
    ensures k < n ==> k < |order| && order[k] < |steps| && steps[order[k]].closing.Function?
  {
  }

  /** A close after one that got to its end closes nothing, reports nothing, and gets to its end. */
  lemma SecondCloseDoesNothing(steps: seq<Step>, before: seq<Step>, left: seq<Step>, closed: seq<Step>,
                               failures: seq<Failure>, n: nat,
                               left': seq<Step>, closed': seq<Step>, failures': seq<Failure>, panicked': bool, n': nat)
    requires Closes(steps, before, left, closed, failures, false, n)
    requires Closes(left, closed, left', closed', failures', panicked', n')
    ensures closed' == closed && failures' == [] && !panicked' && left' == []
  {
    CloseOrderIs([]);
    if CloseOrder([]) != [] {
      HasAnElement(CloseOrder([]));
    }
    assert closed + [] == closed;
  }

  /** Closing again after a panic closes the same steps a second time, and panics at the same one. */
  lemma SecondCloseRepeatsAPanic(steps: seq<Step>, before: seq<Step>, left: seq<Step>, closed: seq<Step>,
                                 failures: seq<Failure>, n: nat,
                                 left': seq<Step>, closed': seq<Step>, failures': seq<Failure>,
                                 panicked': bool, n': nat)
    requires Closes(steps, before, left, closed, failures, true, n)
    requires Closes(left, closed, left', closed', failures', panicked', n')
    ensures panicked' && n' == n && left' == steps
    ensures closed' == closed + Taken(steps, CloseOrder(steps)[..n]) && failures' == failures
  {
    var order := CloseOrder(steps);
    WhatIsClosedHasAFunction(steps, order, n, before, closed, failures, n');
    WhatIsClosedHasAFunction(steps, order, n', closed, closed', failures', n);
  }

  /**
   * The registry's own "schema" step has nothing to call. With it open, whatever else is, a
   * close panics; every step is still on record; and no step that comes after it in the order
   * -- in particular the pool opened just before it -- has been closed.
   */
  lemma SchemaStopsTheShutdown(steps: seq<Step>, k: nat, before: seq<Step>, left: seq<Step>, closed: seq<Step>,
                               failures: seq<Failure>, panicked: bool, n: nat)
    requires k < |steps| && steps[k] == Step("schema", STORE, NoFunction)
    requires Closes(steps, before, left, closed, failures, panicked, n)
    ensures panicked && left == steps
    ensures forall l :: 0 <= l < n ==> CloseOrder(steps)[l] != k && !Before(steps, k, CloseOrder(steps)[l])
  {
    var order := CloseOrder(steps);
    CloseOrderIs(steps);
    assert k in order;
    var m :| 0 <= m < |order| && order[m] == k;
    WhatIsClosedHasAFunction(steps, order, n, before, closed, failures, m);
    forall l | 0 <= l < n
      ensures order[l] != k && !Before(steps, k, order[l])
    {
      assert Before(steps, order[l], order[m]);
    }
  }
}
