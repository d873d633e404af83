/**
 * Units of work: what runs inside one is stored whole or not at all, and one that is already
 * running is joined, not nested.
 *
 * A statement finds the transaction through the context it is handed. So a context is either
 * none or the transaction that travels in it, and the programs below are what a use case can
 * do with one: run statements, fail, go on or not after a failure, and open a unit of work.
 */
module Transactions {
  import opened Basics
  import opened Deliveries

  /** Which rows a statement touches does not matter here; that it was run, and in what order, does. */
  type Statement = nat

  datatype Error = CannotBegin | StatementFailed | Aborted | RuleBroken | CannotCommit

  datatype Program =
    | Return
    | Raise
    | Execute(statement: Statement, db: Db)
    | Then(first: Program, next: Program)
    | Despite(first: Program, next: Program)
    | Atomically(body: Program, begun: bool, commit: Db)

  /** What a running transaction has written. After a statement of it failed, it accepts nothing more. */
  datatype Tx = Tx(written: seq<Statement>, aborted: bool)

  datatype World = World(stored: seq<Statement>, tx: Option<Tx>)

  datatype Ran = Ran(world: World, error: Option<Error>)

  /** One statement, in the transaction if there is one and on its own otherwise. */
  function ExecuteOne(w: World, statement: Statement, db: Db): Ran {
    match w.tx
    case None =>
      Ran(if db.Applies() then w.(stored := w.stored + [statement]) else w,
          if db.Fine? then None else Some(StatementFailed))
    case Some(t) =>
      if t.aborted then Ran(w, Some(Aborted))
      else if db.Fine? then Ran(w.(tx := Some(t.(written := t.written + [statement]))), None)
      else Ran(w.(tx := Some(t.(aborted := true))), Some(StatementFailed))
  }

  /** The end of a unit of work that was begun here. A rollback is dropping what was written. */
  function Finish(stored: seq<Statement>, inside: Ran, commit: Db): Ran
    requires inside.world.tx.Some?
  {
    var t := inside.world.tx.value;
    if inside.error.Some? then Ran(World(stored, None), inside.error)
    else if t.aborted then Ran(World(stored, None), Some(CannotCommit))
    else Ran(World(if commit.Applies() then stored + t.written else stored, None),
             if commit.Fine? then None else Some(CannotCommit))
  }

  function Exec(p: Program, w: World): (r: Ran)
    ensures r.world.tx.Some? <==> w.tx.Some?
    ensures w.tx.Some? ==> r.world.stored == w.stored
  {
    match p
    case Return => Ran(w, None)
    case Raise => Ran(w, Some(RuleBroken))
    case Execute(statement, db) => ExecuteOne(w, statement, db)
    case Then(first, next) =>
      var r := Exec(first, w);
      if r.error.Some? then r else Exec(next, r.world)
    case Despite(first, next) => Exec(next, Exec(first, w).world)
    case Atomically(body, begun, commit) =>
      if w.tx.Some? then Exec(body, w)
      else if !begun then Ran(w, Some(CannotBegin))
      else Finish(w.stored, Exec(body, w.(tx := Some(Tx([], false)))), commit)
  }

  // --- references ------------------------------------------------------------

  /** The statements of a program, in order, whatever units of work they stand in. */
  function Statements(p: Program): seq<Statement> {
    match p
    case Execute(statement, _) => [statement]
    case Then(first, next) => Statements(first) + Statements(next)
    case Despite(first, next) => Statements(first) + Statements(next)
    case Atomically(body, _, _) => Statements(body)
    case _ => []
  }

  /** No error is dropped anywhere. */
  predicate PassesErrorsOn(p: Program) {
    match p
    case Then(first, next) => PassesErrorsOn(first) && PassesErrorsOn(next)
    case Despite(_, _) => false
    case Atomically(body, _, _) => PassesErrorsOn(body)
    case _ => true
  }

  /** The same program with no unit of work in it. */
  function Flat(p: Program): Program {
    match p
    case Then(first, next) => Then(Flat(first), Flat(next))
    case Despite(first, next) => Despite(Flat(first), Flat(next))
    case Atomically(body, _, _) => Flat(body)
    case _ => p
  }

  // --- what holds ------------------------------------------------------------

  /** Inside a unit of work every further one makes no difference: it is joined. */
  lemma {:induction false} JoinedIsErased(p: Program, w: World)
    requires w.tx.Some?
    ensures Exec(p, w) == Exec(Flat(p), w)
  {
    match p
    case Then(first, next) =>
      JoinedIsErased(first, w);
      JoinedIsErased(next, Exec(first, w).world);
    case Despite(first, next) =>
      JoinedIsErased(first, w);
      JoinedIsErased(next, Exec(first, w).world);
    case Atomically(body, _, _) => JoinedIsErased(body, w);
    case _ =>
  }

  /** Inside, nothing is ever undone, also not when a joined unit of work fails; and an abort is for good. */
  lemma {:induction false} NothingIsUndoneInside(p: Program, w: World)
    requires w.tx.Some?
    ensures var t, t' := w.tx.value, Exec(p, w).world.tx.value;
            && t.written <= t'.written
            && (t.aborted ==> t' == t)
  {
    match p
    case Then(first, next) =>
      NothingIsUndoneInside(first, w);
      NothingIsUndoneInside(next, Exec(first, w).world);
    case Despite(first, next) =>
      NothingIsUndoneInside(first, w);
      NothingIsUndoneInside(next, Exec(first, w).world);
    case Atomically(body, _, _) => NothingIsUndoneInside(body, w);
    case _ =>
  }

  /** A program that passes errors on and ends without one has run every statement it has, in order. */
  lemma {:induction false} NoErrorIsEverything(p: Program, w: World)
    requires w.tx.Some? && PassesErrorsOn(p) && Exec(p, w).error.None?
    ensures var t, t' := w.tx.value, Exec(p, w).world.tx.value;
            t'.written == t.written + Statements(p) && t'.aborted == t.aborted
  {
    match p
    case Then(first, next) =>
      NoErrorIsEverything(first, w);
      NoErrorIsEverything(next, Exec(first, w).world);
    case Atomically(body, _, _) => NoErrorIsEverything(body, w);
    case _ =>
  }

  /**
   * All or nothing, however many units of work are joined inside. When the answer is nil,
   * every statement was stored, in order; when it is an error, none was -- except that a
   * commit whose answer was lost may have stored them all.
   */
  lemma {:induction false} AllOrNothing(body: Program, begun: bool, commit: Db, w: World)
    requires w.tx.None? && PassesErrorsOn(body)
    ensures var r := Exec(Atomically(body, begun, commit), w);
            && r.world.tx.None?
            && (r.error.None? ==> r.world.stored == w.stored + Statements(body))
            && (r.error.Some? ==>
                  || r.world.stored == w.stored
                  || (r.world.stored == w.stored + Statements(body) && commit == Fault(true)))
  {
    var begins := w.(tx := Some(Tx([], false)));
    if Exec(body, begins).error.None? {
      NoErrorIsEverything(body, begins);
      assert [] + Statements(body) == Statements(body);
    }
  }

  /** Whether the program ends with an error, in a transaction in which all its statements succeed. */
  predicate EndsBadly(p: Program) {
    match p
    case Return => false
    case Raise => true
    case Execute(_, _) => false
    case Then(first, next) => EndsBadly(first) || EndsBadly(next)
    case Despite(_, next) => EndsBadly(next)
    case Atomically(body, _, _) => EndsBadly(body)
  }

  /** A statement that fails is reached: nothing before it was, and no error stopped the program earlier. */
  predicate RunsAFailure(p: Program) {
    match p
    case Execute(_, db) => db.Fault?
    case Then(first, next) => RunsAFailure(first) || (!EndsBadly(first) && RunsAFailure(next))
    case Despite(first, next) => RunsAFailure(first) || RunsAFailure(next)
    case Atomically(body, _, _) => RunsAFailure(body)
    case _ => false
  }

  /** A transaction is aborted exactly by a statement that fails, and then for good. */
  lemma {:induction false} AbortsExactlyWhen(p: Program, w: World)
    requires w.tx.Some? && !w.tx.value.aborted
    ensures var r := Exec(p, w);
            && (r.world.tx.value.aborted <==> RunsAFailure(p))
            && (!RunsAFailure(p) ==> (r.error.Some? <==> EndsBadly(p)))
    decreases p, 0
  {
    match p
    case Then(first, next) =>
      AbortsExactlyWhen(first, w);
      GoesOnExactlyWhen(next, Exec(first, w).world, RunsAFailure(first));
    case Despite(first, next) =>
      AbortsExactlyWhen(first, w);
      GoesOnExactlyWhen(next, Exec(first, w).world, RunsAFailure(first));
    case Atomically(body, _, _) => AbortsExactlyWhen(body, w);
    case _ =>
  }

  lemma {:induction false} GoesOnExactlyWhen(p: Program, w: World, failed: bool)
    requires w.tx.Some? && (w.tx.value.aborted <==> failed)
    ensures Exec(p, w).world.tx.value.aborted <==> failed || RunsAFailure(p)
    ensures !failed && !RunsAFailure(p) ==> (Exec(p, w).error.Some? <==> EndsBadly(p))
    decreases p, 1
  {
    if failed {
      NothingIsUndoneInside(p, w);
    } else {
      AbortsExactlyWhen(p, w);
    }
  }

  /**
   * A statement that failed dooms the whole unit of work, wherever it stands in it and whether
   * or not its error was passed on: the answer is an error and nothing is stored.
   */
  lemma {:induction false} FailedStatementDoomsAll(body: Program, commit: Db, w: World)
    requires w.tx.None? && RunsAFailure(body)
    ensures var r := Exec(Atomically(body, true, commit), w);
            r.error.Some? && r.world == w
  {
    AbortsExactlyWhen(body, w.(tx := Some(Tx([], false))));
  }

  /** A unit of work answers nil exactly when none of its statements failed, it came to no error, and it committed. */
  lemma {:induction false} SucceedsExactlyWhen(body: Program, begun: bool, commit: Db, w: World)
    requires w.tx.None?
    ensures Exec(Atomically(body, begun, commit), w).error.None? <==>
            begun && !RunsAFailure(body) && !EndsBadly(body) && commit.Fine?
  {
    AbortsExactlyWhen(body, w.(tx := Some(Tx([], false))));
  }

  /**
   * A failure of a joined unit of work undoes nothing by itself. If its caller drops the error
   * and then commits, what it wrote is stored -- unless it wrote nothing, or the failure came
   * from the database, which refuses the commit.
   */
  lemma {:induction false} DroppedFailureIsUndoneExactlyWhen(inner: Program, begun: bool, commit: Db, w: World)
    requires w.tx.None? && Exec(inner, w.(tx := Some(Tx([], false)))).error.Some?
    ensures var t := Exec(inner, w.(tx := Some(Tx([], false)))).world.tx.value;
            var r := Exec(Atomically(Despite(Atomically(inner, begun, commit), Return), true, Fine), w);
            r.world.stored == w.stored <==> t.aborted || t.written == []
  {
    var begins := w.(tx := Some(Tx([], false)));
    var t := Exec(inner, begins).world.tx.value;
    assert Exec(Atomically(inner, begun, commit), begins) == Exec(inner, begins);
    assert Exec(Despite(Atomically(inner, begun, commit), Return), begins) == Ran(Exec(inner, begins).world, None);
    if t.written != [] {
      assert |w.stored + t.written| > |w.stored|;
    } else {
      assert w.stored + [] == w.stored;
    }
  }

  /** What a program that passes its errors on does, in order, until one of them fails. */
  function Leaves(p: Program): seq<Program> {
    match p
    case Return => []
    case Then(first, next) => Leaves(first) + Leaves(next)
    case Despite(first, next) => Leaves(first) + Leaves(next)
    case Atomically(body, _, _) => Leaves(body)
    case _ => [p]
  }

  predicate Fails(leaf: Program) {
    leaf.Raise? || (leaf.Execute? && leaf.db.Fault?)
  }

  function FirstToFail(leaves: seq<Program>): (k: nat)
    ensures k <= |leaves|
  {
    if leaves == [] || Fails(leaves[0]) then 0 else 1 + FirstToFail(leaves[1..])
  }

  function Executed(leaves: seq<Program>): seq<Statement> {
    if leaves == [] then []
    else (if leaves[0].Execute? then [leaves[0].statement] else []) + Executed(leaves[1..])
  }

  lemma {:induction false} ExecutedInTwo(a: seq<Program>, b: seq<Program>)
    ensures Executed(a + b) == Executed(a) + Executed(b)
    decreases |a|
  {
    if a == [] {
      assert a + b == b;
    } else {
      assert (a + b)[0] == a[0] && (a + b)[1..] == a[1..] + b;
      ExecutedInTwo(a[1..], b);
    }
  }

  lemma {:induction false} FirstInTwo(a: seq<Program>, b: seq<Program>)
    ensures var k := FirstToFail(a); FirstToFail(a + b) == if k < |a| then k else |a| + FirstToFail(b)
    decreases |a|
  {
    if a == [] {
      assert a + b == b;
    } else {
      assert (a + b)[0] == a[0] && (a + b)[1..] == a[1..] + b;
      FirstInTwo(a[1..], b);
    }
  }

  lemma {:induction false} FailsInFirst(a: seq<Program>, b: seq<Program>, k: nat)
    requires k == FirstToFail(a) && k < |a|
    ensures FirstToFail(a + b) == k && (a + b)[..k] == a[..k] && (a + b)[k] == a[k]
  {
    FirstInTwo(a, b);
  }

  lemma {:induction false} FailsInNext(a: seq<Program>, b: seq<Program>, l: nat)
    requires FirstToFail(a) == |a| && l == FirstToFail(b)
    ensures FirstToFail(a + b) == |a| + l && (a + b)[..|a| + l] == a + b[..l]
    ensures Executed(a + b[..l]) == Executed(a) + Executed(b[..l])
    ensures l < |b| ==> (a + b)[|a| + l] == b[l]
  {
    FirstInTwo(a, b);
    ExecutedInTwo(a, b[..l]);
  }

  /** From a transaction that is not aborted: what is written, and how it ends, read off the program. */
  lemma {:induction false} RunsUpToTheFailure(p: Program, w: World)
    requires PassesErrorsOn(p) && w.tx.Some? && !w.tx.value.aborted
    ensures var ls := Leaves(p);
            var k := FirstToFail(ls);
            var r := Exec(p, w);
            && (r.error.Some? <==> k < |ls|)
            && r.world.tx.value.written == w.tx.value.written + Executed(ls[..k])
            && (r.world.tx.value.aborted <==> k < |ls| && ls[k].Execute?)
  {
    match p
    case Then(first, next) =>
      var a, b := Leaves(first), Leaves(next);
      RunsUpToTheFailure(first, w);
      if FirstToFail(a) < |a| {
        FailsInFirst(a, b, FirstToFail(a));
      } else {
        assert a[..|a|] == a;
        RunsUpToTheFailure(next, Exec(first, w).world);
        FailsInNext(a, b, FirstToFail(b));
      }
    case Atomically(body, _, _) => RunsUpToTheFailure(body, w);
    case Execute(statement, _) =>
      assert [p][..1] == [p] && [p][1..] == [];
      assert Executed([p]) == [statement];
    case _ =>
  }

  /** There is no unit of work in it. */
  predicate HasNoUnit(p: Program) {
    match p
    case Then(first, next) => HasNoUnit(first) && HasNoUnit(next)
    case Despite(first, next) => HasNoUnit(first) && HasNoUnit(next)
    case Atomically(_, _, _) => false
    case _ => true
  }

  /** Each statement up to the first failure, and the failed one if its answer alone was lost. */
  function Standing(leaves: seq<Program>): seq<Statement> {
    if leaves == [] || leaves[0].Raise? then []
    else if Fails(leaves[0]) then if leaves[0].db == Fault(true) then [leaves[0].statement] else []
    else (if leaves[0].Execute? then [leaves[0].statement] else []) + Standing(leaves[1..])
  }

  lemma {:induction false} StandingInTwo(a: seq<Program>, b: seq<Program>)
    ensures Standing(a + b) == if FirstToFail(a) < |a| then Standing(a) else Standing(a) + Standing(b)
    decreases |a|
  {
    if a == [] {
      assert a + b == b && [] + Standing(b) == Standing(b);
    } else {
      assert (a + b)[0] == a[0] && (a + b)[1..] == a[1..] + b;
      StandingInTwo(a[1..], b);
    }
  }

  predicate IsStanding(leaves: seq<Program>, w: World, r: Ran) {
    && r.world == World(w.stored + Standing(leaves), None)
    && (r.error.Some? <==> FirstToFail(leaves) < |leaves|)
  }

  lemma StandsOn(a: seq<Program>, b: seq<Program>, w: World, first: Ran, next: Ran)
    requires IsStanding(a, w, first) && (first.error.None? ==> IsStanding(b, first.world, next))
    ensures IsStanding(a + b, w, if first.error.Some? then first else next)
  {
    StandingInTwo(a, b);
    FirstInTwo(a, b);
    assert (w.stored + Standing(a)) + Standing(b) == w.stored + (Standing(a) + Standing(b));
  }

  lemma {:induction false} OneStandsAlone(p: Program, w: World)
    requires w.tx.None? && (p.Return? || p.Raise? || p.Execute?)
    ensures IsStanding(Leaves(p), w, Exec(p, w))
  {
    assert w.stored + [] == w.stored;
    if p.Execute? {
      assert Leaves(p) == [p] && [p][1..] == [];
      assert Standing([p][1..]) == [] && FirstToFail([p][1..]) == 0;
    }
  }

  /** With no unit of work each statement stands by itself, for good. */
  lemma {:induction false} OutsideEachStandsAlone(p: Program, w: World)
    requires w.tx.None? && PassesErrorsOn(p) && HasNoUnit(p)
    ensures Exec(p, w).world == World(w.stored + Standing(Leaves(p)), None)
    ensures Exec(p, w).error.Some? <==> FirstToFail(Leaves(p)) < |Leaves(p)|
  {
    if p.Then? {
      var r := Exec(p.first, w);
      OutsideEachStandsAlone(p.first, w);
      if r.error.None? {
        OutsideEachStandsAlone(p.next, r.world);
      }
      StandsOn(Leaves(p.first), Leaves(p.next), w, r, Exec(p.next, r.world));
    } else {
      OneStandsAlone(p, w);
    }
  }

  /**
   * The same, told from the program: of a joined unit of work that passes its errors on and
   * fails, nothing is left behind if and only if what failed was a statement, or none came
   * before it.
   */
  lemma {:induction false} DroppedFailureLeavesNothingExactlyWhen(inner: Program, begun: bool, commit: Db, w: World)
    requires w.tx.None? && PassesErrorsOn(inner) && FirstToFail(Leaves(inner)) < |Leaves(inner)|
    ensures var ls := Leaves(inner);
            var k := FirstToFail(ls);
            Exec(Atomically(Despite(Atomically(inner, begun, commit), Return), true, Fine), w).world.stored == w.stored
            <==> ls[k].Execute? || Executed(ls[..k]) == []
  {
    RunsUpToTheFailure(inner, w.(tx := Some(Tx([], false))));
    DroppedFailureIsUndoneExactlyWhen(inner, begun, commit, w);
  }

  /** One that wrote and then failed by the core's own rule, under a caller that drops the error. */
  lemma {:induction false} DroppedFailureCanStore(statement: Statement, w: World)
    requires w.tx.None?
    ensures var inner := Atomically(Then(Execute(statement, Fine), Raise), true, Fine);
            && Exec(inner, w) == Ran(w, Some(RuleBroken))
            && Exec(Atomically(Despite(inner, Return), true, Fine), w)
               == Ran(w.(stored := w.stored + [statement]), None)
  {
    var begins := w.(tx := Some(Tx([], false)));
    var inside := Then(Execute(statement, Fine), Raise);
    var wrote := Ran(w.(tx := Some(Tx([statement], false))), None);
    assert Exec(Execute(statement, Fine), begins) == wrote by {
      assert [] + [statement] == [statement];
    }
    assert Exec(inside, begins) == Exec(Raise, wrote.world);
    assert Exec(inside, begins) == Ran(wrote.world, Some(RuleBroken));
    var inner := Atomically(inside, true, Fine);
    assert Exec(inner, begins) == Exec(inside, begins);
    assert Exec(Despite(inner, Return), begins) == Ran(wrote.world, None);
  }

  // --- the unit of work ------------------------------------------------------

  class Transaction {
    var written: seq<Statement>
    var aborted: bool

    constructor ()
      ensures written == [] && !aborted
    {
      written, aborted := [], false;
    }
  }

  class Database {
    var stored: seq<Statement>

    constructor ()
      ensures stored == []
    {
      stored := [];
    }

    ghost function Seen(ctx: Transaction?): World
      reads this, ctx
    {
      World(stored, if ctx == null then None else Some(Tx(ctx.written, ctx.aborted)))
    }

    /** Runs the statement in the transaction the context carries, if it carries one. */
    method Statement(ctx: Transaction?, statement: Statement, db: Db) returns (error: Option<Error>)
      modifies this, ctx
      ensures Ran(Seen(ctx), error) == ExecuteOne(old(Seen(ctx)), statement, db)
    {
      if ctx != null {
        if ctx.aborted {
          return Some(Aborted);
        }
        if db.Fault? {
          ctx.aborted := true;
          return Some(StatementFailed);
        }
        ctx.written := ctx.written + [statement];
        return None;
      }
      if db.Applies() {
        stored := stored + [statement];
      }
      return if db.Fine? then None else Some(StatementFailed);
    }

    /** Runs a program under a context. */
    method Run(ctx: Transaction?, p: Program) returns (error: Option<Error>)
      modifies this, ctx
      ensures Ran(Seen(ctx), error) == Exec(p, old(Seen(ctx)))
      decreases p, 0
    {
      match p {
        case Return => return None;
        case Raise => return Some(RuleBroken);
        case Execute(statement, db) => error := Statement(ctx, statement, db);
        case Then(first, next) =>
          error := Run(ctx, first);
          if error.None? {
            error := Run(ctx, next);
          }
        case Despite(first, next) =>
          var dropped := Run(ctx, first);
          error := Run(ctx, next);
        case Atomically(body, begun, commit) => error := Begin(ctx, body, begun, commit);
      }
    }

    /** A unit of work: the body under a transaction of its own, or under the one the context has. */
    method Begin(ctx: Transaction?, body: Program, begun: bool, commit: Db) returns (error: Option<Error>)
      modifies this, ctx
      ensures Ran(Seen(ctx), error) == Exec(Atomically(body, begun, commit), old(Seen(ctx)))
      decreases body, 1
    {
      if ctx != null {
        error := Run(ctx, body);
        return;
      }
      if !begun {
        return Some(CannotBegin);
      }
      var tx := new Transaction();
      error := Run(tx, body);
      if error.Some? {
        return;
      }
      if tx.aborted {
        return Some(CannotCommit);
      }
      if commit.Applies() {
        stored := stored + tx.written;
      }
      return if commit.Fine? then None else Some(CannotCommit);
    }
  }
}
