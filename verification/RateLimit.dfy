/**
 * One token bucket per source, and the sweep that forgets full ones.
 *
 * A bucket is ideal: `quota` tokens at most, refilled evenly over a minute. To stay in whole
 * numbers a level is kept in token-nanoseconds: one token is MINUTE, a full bucket is
 * quota * MINUTE, and each nanosecond adds `quota`.
 */
module RateLimit {
  import opened Basics

  const MINUTE: Time := 60_000_000_000
  const SWEEP_EVERY: Time := 300_000_000_000

  type Source = string

  datatype Bucket = Bucket(level: int, last: Time)

  function Full(quota: nat): int {
    quota * MINUTE
  }

  /** What the bucket holds at a moment. A clock behind the bucket's own adds nothing. */
  function LevelAt(quota: nat, b: Bucket, t: Time): int {
    var gained := if t > b.last then quota * (t - b.last) else 0;
    if b.level + gained > Full(quota) then Full(quota) else b.level + gained
  }

  /** Takes a token if there is one; a refusal leaves the bucket as it is. */
  function Take(quota: nat, b: Bucket, now: Time): (Bucket, bool) {
    var level := LevelAt(quota, b, now);
    if level >= MINUTE then (Bucket(level - MINUTE, now), true) else (b, false)
  }

  type Buckets = map<Source, Bucket>

  function BucketOf(quota: nat, buckets: Buckets, source: Source, now: Time): Bucket {
    if source in buckets then buckets[source] else Bucket(Full(quota), now)
  }

  // --- the limiter -----------------------------------------------------------

  datatype Limiter = Limiter(buckets: Buckets, lastSweep: Time)

  function WithoutFull(quota: nat, buckets: Buckets, now: Time): Buckets {
    map s | s in buckets && LevelAt(quota, buckets[s], now) < Full(quota) :: buckets[s]
  }

  function Sweep(quota: nat, l: Limiter, now: Time): Limiter {
    if now - l.lastSweep < SWEEP_EVERY then l else Limiter(WithoutFull(quota, l.buckets, now), now)
  }

  /** Spends a token of one source, out of buckets that are never dropped. */
  function Spend(quota: nat, buckets: Buckets, source: Source, now: Time): (Buckets, bool) {
    var (b, ok) := Take(quota, BucketOf(quota, buckets, source, now), now);
    (buckets[source := b], ok)
  }

  function Admit(quota: nat, l: Limiter, source: Source, now: Time): (Limiter, bool) {
    var swept := Sweep(quota, l, now);
    var (buckets, ok) := Spend(quota, swept.buckets, source, now);
    (Limiter(buckets, swept.lastSweep), ok)
  }

  /** The limiter as it runs: buckets and the last sweep are its fields, changed under its lock. */
  class Memory {
    const quota: nat
    var buckets: Buckets
    var lastSweep: Time

    /** A quota of zero is refused before this is called: see NewMemory. */
    constructor (quota: nat, now: Time)
      requires quota > 0
      ensures this.quota == quota && State() == Limiter(map[], now)
    {
      this.quota, buckets, lastSweep := quota, map[], now;
    }

    function State(): Limiter
      reads this
    {
      Limiter(buckets, lastSweep)
    }

    method Allow(source: Source, now: Time) returns (ok: bool)
      modifies this
      ensures (State(), ok) == Admit(quota, old(State()), source, now)
    {
      SweepFull(now);
      ghost var swept := buckets;
      if source !in buckets {
        buckets := buckets[source := Bucket(Full(quota), now)];
      }
      var (b, taken) := Take(quota, buckets[source], now);
      buckets := buckets[source := b];
      assert buckets == swept[source := b];
      ok := taken;
    }

    /** The garbage collection: every five minutes at most, and only of full buckets. */
    method SweepFull(now: Time)
      modifies this
      ensures State() == Sweep(quota, old(State()), now)
    {
      if now - lastSweep < SWEEP_EVERY {
        return;
      }
      lastSweep := now;
      ghost var all := buckets;
      var todo := buckets.Keys;
      while todo != {}
        invariant todo <= all.Keys
        invariant forall s :: s in buckets <==> s in all && (s in todo || LevelAt(quota, all[s], now) < Full(quota))
        invariant forall s :: s in buckets ==> buckets[s] == all[s]
        invariant lastSweep == now
        decreases todo
      {
        var s :| s in todo;
        if LevelAt(quota, buckets[s], now) >= Full(quota) {
          buckets := buckets - {s};
        }
        todo := todo - {s};
      }
      assert buckets == WithoutFull(quota, all, now);
    }
  }

  method NewMemory(perMinute: int, now: Time) returns (m: Option<Memory>)
    ensures m.None? <==> perMinute <= 0
    ensures m.Some? ==> fresh(m.value) && m.value.quota == perMinute && m.value.State() == Limiter(map[], now)
  {
    if perMinute <= 0 {
      return None;
    }
    var made := new Memory(perMinute, now);
    return Some(made);
  }

  // --- call sequences --------------------------------------------------------

  datatype Call = Call(source: Source, at: Time)

  predicate InTime(calls: seq<Call>) {
    forall i, j :: 0 <= i < j < |calls| ==> calls[i].at <= calls[j].at
  }

  /** What the limiter answers. */
  function Answers(quota: nat, l: Limiter, calls: seq<Call>): (r: seq<bool>)
    ensures |r| == |calls|
    decreases |calls|
  {
    if calls == [] then
      []
    else
      var (l', ok) := Admit(quota, l, calls[0].source, calls[0].at);
      [ok] + Answers(quota, l', calls[1..])
  }

  /** What it would answer if it never dropped a bucket. */
  function AnswersKept(quota: nat, kept: Buckets, calls: seq<Call>): (r: seq<bool>)
    ensures |r| == |calls|
    decreases |calls|
  {
    if calls == [] then
      []
    else
      var (kept', ok) := Spend(quota, kept, calls[0].source, calls[0].at);
      [ok] + AnswersKept(quota, kept', calls[1..])
  }

  // --- sweeping is invisible -------------------------------------------------

  lemma GainsAdd(quota: nat, a: Time, b: Time, c: Time)
    ensures quota * (b - a) + quota * (c - b) == quota * (c - a)
    ensures a <= b ==> 0 <= quota * (b - a)
  {
  }

  /** A full bucket stays full while nothing is taken. */
  lemma FullStaysFull(quota: nat, b: Bucket, t: Time, t': Time)
    requires t <= t' && LevelAt(quota, b, t) >= Full(quota)
    ensures LevelAt(quota, b, t') == Full(quota)
  {
    GainsAdd(quota, b.last, t, t');
    GainsAdd(quota, t, t', t');
    GainsAdd(quota, b.last, t', t');
  }

  /** The swept buckets are the kept ones, but for some that are full by `t`. */
  predicate SameButFull(quota: nat, swept: Buckets, kept: Buckets, t: Time) {
    && (forall s :: s in swept ==> s in kept && swept[s] == kept[s])
    && (forall s :: s in kept && s !in swept ==> LevelAt(quota, kept[s], t) >= Full(quota))
  }

  lemma SameLater(quota: nat, swept: Buckets, kept: Buckets, t: Time, t': Time)
    requires SameButFull(quota, swept, kept, t) && t <= t'
    ensures SameButFull(quota, swept, kept, t')
  {
    forall s | s in kept && s !in swept
      ensures LevelAt(quota, kept[s], t') >= Full(quota)
    {
      FullStaysFull(quota, kept[s], t, t');
    }
  }

  /** One call: the same answer, and the buckets are the same but for full ones again. */
  lemma SameCall(quota: nat, l: Limiter, kept: Buckets, source: Source, now: Time)
    requires quota > 0 && SameButFull(quota, l.buckets, kept, now)
    ensures var (l', ok) := Admit(quota, l, source, now);
            var (kept', ok') := Spend(quota, kept, source, now);
            ok == ok' && SameButFull(quota, l'.buckets, kept', now)
  {
    var swept := Sweep(quota, l, now).buckets;
    assert SameButFull(quota, swept, kept, now);
    if source !in swept {
      assert LevelAt(quota, Bucket(Full(quota), now), now) == Full(quota);
      if source in kept {
        FullStaysFull(quota, kept[source], now, now);
      }
    }
  }

  // --- readings that fall behind a sweep -------------------------------------

  /** The limiter's own record of its last sweep, which starts at the moment it was made. */
  function LastSweep(was: Time, now: Time): Time {
    if now - was < SWEEP_EVERY then was else now
  }

  /** When the limiter last swept, if it ever did. */
  function SweptAt(lastSweep: Time, was: Option<Time>, now: Time): Option<Time> {
    if now - lastSweep < SWEEP_EVERY then was else Some(now)
  }

  /** No reading is older than the sweep before it. Readings may go back as long as they stay this side of it. */
  predicate NoneBehind(lastSweep: Time, swept: Option<Time>, calls: seq<Call>)
    decreases |calls|
  {
    calls != [] ==>
      var now := calls[0].at;
      && (swept.Some? ==> swept.value <= now)
      && NoneBehind(LastSweep(lastSweep, now), SweptAt(lastSweep, swept, now), calls[1..])
  }

  /** Nothing was ever dropped, or only buckets that were full at the last sweep. */
  predicate SameSince(quota: nat, swept: Buckets, kept: Buckets, at: Option<Time>) {
    match at
    case None => swept == kept
    case Some(t) => SameButFull(quota, swept, kept, t)
  }

  lemma SameCallSince(quota: nat, l: Limiter, kept: Buckets, at: Option<Time>, source: Source, now: Time)
    requires quota > 0 && SameSince(quota, l.buckets, kept, at) && (at.Some? ==> at.value <= now)
    ensures var (l', ok) := Admit(quota, l, source, now);
            var (kept', ok') := Spend(quota, kept, source, now);
            ok == ok' && SameSince(quota, l'.buckets, kept', SweptAt(l.lastSweep, at, now))
  {
    if at.Some? {
      SameLater(quota, l.buckets, kept, at.value, now);
    }
    SameCall(quota, l, kept, source, now);
  }

  lemma {:induction false} SweepingIsInvisibleFrom(quota: nat, l: Limiter, kept: Buckets, at: Option<Time>,
                                                   calls: seq<Call>)
    requires quota > 0 && SameSince(quota, l.buckets, kept, at) && NoneBehind(l.lastSweep, at, calls)
    ensures Answers(quota, l, calls) == AnswersKept(quota, kept, calls)
    decreases |calls|
  {
    if calls != [] {
      var c := calls[0];
      SameCallSince(quota, l, kept, at, c.source, c.at);
      SweepingIsInvisibleFrom(quota, Admit(quota, l, c.source, c.at).0, Spend(quota, kept, c.source, c.at).0,
                              SweptAt(l.lastSweep, at, c.at), calls[1..]);
    }
  }

  /** Dropping full buckets changes no answer, for any calls of which none is behind the sweep before it. */
  lemma {:induction false} SweepingIsInvisible(quota: nat, start: Time, calls: seq<Call>)
    requires quota > 0 && NoneBehind(start, None, calls)
    ensures Answers(quota, Limiter(map[], start), calls) == AnswersKept(quota, map[], calls)
  {
    SweepingIsInvisibleFrom(quota, Limiter(map[], start), map[], None, calls);
  }

  lemma {:induction false} InTimeIsNotBehind(lastSweep: Time, swept: Option<Time>, calls: seq<Call>)
    requires InTime(calls) && (swept.Some? && calls != [] ==> swept.value <= calls[0].at)
    ensures NoneBehind(lastSweep, swept, calls)
    decreases |calls|
  {
    if calls != [] {
      var now := calls[0].at;
      InTimeIsNotBehind(LastSweep(lastSweep, now), SweptAt(lastSweep, swept, now), calls[1..]);
    }
  }

  /** So for any calls whose clock readings do not go back. */
  lemma {:induction false} SweepingIsInvisibleInTime(quota: nat, start: Time, calls: seq<Call>)
    requires quota > 0 && InTime(calls)
    ensures Answers(quota, Limiter(map[], start), calls) == AnswersKept(quota, map[], calls)
  {
    InTimeIsNotBehind(start, None, calls);
    SweepingIsInvisible(quota, start, calls);
  }

  /**
   * The first reading behind a sweep shows exactly when its source was dropped then and, by
   * that older reading, its bucket would not yet have held a token.
   */
  lemma FirstBehindShowsExactlyWhen(quota: nat, l: Limiter, kept: Buckets, at: Option<Time>, source: Source, now: Time)
    requires quota > 0 && SameSince(quota, l.buckets, kept, at)
    ensures var shows := Admit(quota, l, source, now).1 != Spend(quota, kept, source, now).1;
            && (shows <==> source in kept && source !in Sweep(quota, l, now).buckets
                           && LevelAt(quota, kept[source], now) < MINUTE)
            && (shows ==> at.Some? && now < at.value)
  {
    if at.None? || at.value <= now {
      SameCallSince(quota, l, kept, at, source, now);
    }
    assert MINUTE <= Full(quota);
    assert LevelAt(quota, Bucket(Full(quota), now), now) == Full(quota);
  }

  /**
   * The clock is read before the lock is taken, so a call can arrive with a reading older than
   * the sweep before it; then the sweep can show: a spent bucket looks new.
   */
  lemma SweepingShowsWhenTheClockGoesBack()
    ensures var calls := [Call("a", 0), Call("b", SWEEP_EVERY), Call("a", 0)];
            && Answers(1, Limiter(map[], 0), calls) == [true, true, true]
            && AnswersKept(1, map[], calls) == [true, true, false]
  {
    var calls := [Call("a", 0), Call("b", SWEEP_EVERY), Call("a", 0)];
    var (l1, ok1) := Admit(1, Limiter(map[], 0), "a", 0);
    assert ok1 && l1 == Limiter(map["a" := Bucket(0, 0)], 0);
    var (l2, ok2) := Admit(1, l1, "b", SWEEP_EVERY);
    assert WithoutFull(1, l1.buckets, SWEEP_EVERY) == map[];
    assert ok2 && l2 == Limiter(map["b" := Bucket(0, SWEEP_EVERY)], SWEEP_EVERY);
    assert Admit(1, l2, "a", 0).1;
    assert calls[1..] == [Call("b", SWEEP_EVERY), Call("a", 0)];
    assert calls[1..][1..] == [Call("a", 0)];
    assert Answers(1, l2, [Call("a", 0)]) == [true];
    var (k1, _) := Spend(1, map[], "a", 0);
    var (k2, _) := Spend(1, k1, "b", SWEEP_EVERY);
    assert k2["a"] == Bucket(0, 0);
    assert AnswersKept(1, k2, [Call("a", 0)]) == [false];
  }

  // --- the bound -------------------------------------------------------------

  /** The readings of the calls that one source was granted, in the order of the calls. */
  function GrantedAt(answers: seq<bool>, calls: seq<Call>, source: Source): seq<Time>
    requires |answers| == |calls|
  {
    if calls == [] then
      []
    else
      (if answers[0] && calls[0].source == source then [calls[0].at] else [])
      + GrantedAt(answers[1..], calls[1..], source)
  }

  function Granted(answers: seq<bool>, calls: seq<Call>, source: Source): nat
    requires |answers| == |calls|
  {
    |GrantedAt(answers, calls, source)|
  }

  function Ahead(a: Time, b: Time): Time {
    if b > a then b - a else 0
  }

  /** How far readings go forward in all, from each to the next. */
  function Rise(rs: seq<Time>): Time {
    if |rs| < 2 then 0 else Ahead(rs[0], rs[1]) + Rise(rs[1..])
  }

  /** And how far back. */
  function Back(rs: seq<Time>): Time {
    if |rs| < 2 then 0 else Ahead(rs[1], rs[0]) + Back(rs[1..])
  }

  lemma {:induction false} RiseIs(rs: seq<Time>)
    requires rs != []
    ensures Rise(rs) == rs[|rs| - 1] - rs[0] + Back(rs)
  {
    if |rs| > 1 {
      RiseIs(rs[1..]);
    }
  }

  lemma {:induction false} RiseOfOneMore(rs: seq<Time>, t: Time)
    requires rs != []
    ensures Rise(rs + [t]) == Rise(rs) + Ahead(rs[|rs| - 1], t)
  {
    if |rs| == 1 {
      assert (rs + [t])[1..] == [t];
    } else {
      assert (rs + [t])[1..] == rs[1..] + [t];
      RiseOfOneMore(rs[1..], t);
    }
  }

  lemma Distribute(quota: nat, a: Time, b: Time)
    ensures quota * (a + b) == quota * a + quota * b
    ensures 0 <= a ==> 0 <= quota * a
    ensures a <= b ==> quota * a <= quota * b
  {
  }

  predicate LevelsOk(quota: nat, buckets: Buckets) {
    forall s :: s in buckets ==> 0 <= buckets[s].level <= Full(quota)
  }

  /** A grant leaves the level at that moment less one token; a refusal leaves all buckets alone. */
  lemma SpendIs(quota: nat, buckets: Buckets, source: Source, now: Time)
    requires quota > 0 && LevelsOk(quota, buckets)
    ensures var (buckets', ok) := Spend(quota, buckets, source, now);
            var level := LevelAt(quota, BucketOf(quota, buckets, source, now), now);
            && LevelsOk(quota, buckets')
            && (ok <==> level >= MINUTE)
            && buckets' == if ok then buckets[source := Bucket(level - MINUTE, now)] else buckets
    ensures source in buckets ==>
              var level := buckets[source].level + quota * Ahead(buckets[source].last, now);
              LevelAt(quota, buckets[source], now) == if level > Full(quota) then Full(quota) else level
    ensures source !in buckets ==> LevelAt(quota, BucketOf(quota, buckets, source, now), now) == Full(quota) >= MINUTE
  {
    assert MINUTE <= Full(quota);
    if source in buckets {
      Distribute(quota, Ahead(buckets[source].last, now), 0);
    }
    if !Spend(quota, buckets, source, now).1 {
      RefusalKeeps(quota, buckets, source, now);
    }
  }

  lemma RefusalKeeps(quota: nat, kept: Buckets, source: Source, at: Time)
    requires quota > 0 && !Spend(quota, kept, source, at).1
    ensures Spend(quota, kept, source, at).0 == kept
  {
    assert source in kept by {
      assert MINUTE <= Full(quota);
      assert LevelAt(quota, Bucket(Full(quota), at), at) == Full(quota);
    }
  }

  lemma {:induction false} GrantedOfTheFirst(quota: nat, buckets: Buckets, calls: seq<Call>, source: Source)
    requires calls != []
    ensures var c := calls[0];
            var (buckets', ok) := Spend(quota, buckets, c.source, c.at);
            GrantedAt(AnswersKept(quota, buckets, calls), calls, source)
            == (if ok && c.source == source then [c.at] else [])
               + GrantedAt(AnswersKept(quota, buckets', calls[1..]), calls[1..], source)
  {
    var (buckets', ok) := Spend(quota, buckets, calls[0].source, calls[0].at);
    assert ([ok] + AnswersKept(quota, buckets', calls[1..]))[1..] == AnswersKept(quota, buckets', calls[1..]);
  }

  /** From a bucket on record: what it holds, and what the readings of its own grants have earned since. */
  lemma {:induction false} GrantedFromBucket(quota: nat, buckets: Buckets, calls: seq<Call>, source: Source)
    requires quota > 0 && LevelsOk(quota, buckets) && source in buckets
    ensures var rs := GrantedAt(AnswersKept(quota, buckets, calls), calls, source);
            var b := buckets[source];
            |rs| * MINUTE <= b.level + quota * Rise([b.last] + rs)
    decreases |calls|
  {
    if calls == [] {
      assert Rise([buckets[source].last] + []) == 0;
    } else {
      var c := calls[0];
      var (buckets', ok) := Spend(quota, buckets, c.source, c.at);
      SpendIs(quota, buckets, c.source, c.at);
      GrantedOfTheFirst(quota, buckets, calls, source);
      GrantedFromBucket(quota, buckets', calls[1..], source);
      var rs := GrantedAt(AnswersKept(quota, buckets', calls[1..]), calls[1..], source);
      if ok && c.source == source {
        var last := buckets[source].last;
        assert ([last] + ([c.at] + rs))[1..] == [c.at] + rs;
        assert Rise([last] + ([c.at] + rs)) == Ahead(last, c.at) + Rise([c.at] + rs);
        Distribute(quota, Ahead(last, c.at), Rise([c.at] + rs));
      } else {
        assert [] + rs == rs;
      }
    }
  }

  /** From wherever the buckets stand: a full one, and what its own grants have earned since the first of them. */
  lemma {:induction false} GrantedFrom(quota: nat, buckets: Buckets, calls: seq<Call>, source: Source)
    requires quota > 0 && LevelsOk(quota, buckets)
    ensures var rs := GrantedAt(AnswersKept(quota, buckets, calls), calls, source);
            |rs| * MINUTE <= Full(quota) + quota * Rise(rs)
    decreases |calls|
  {
    if calls != [] {
      var c := calls[0];
      var (buckets', ok) := Spend(quota, buckets, c.source, c.at);
      SpendIs(quota, buckets, c.source, c.at);
      GrantedOfTheFirst(quota, buckets, calls, source);
      if ok && c.source == source {
        GrantedFromBucket(quota, buckets', calls[1..], source);
      } else {
        assert [] + GrantedAt(AnswersKept(quota, buckets', calls[1..]), calls[1..], source)
            == GrantedAt(AnswersKept(quota, buckets', calls[1..]), calls[1..], source);
        GrantedFrom(quota, buckets', calls[1..], source);
      }
    }
  }

  /** The buckets after some calls. */
  function KeptAfter(quota: nat, kept: Buckets, calls: seq<Call>): Buckets
    decreases |calls|
  {
    if calls == [] then kept else KeptAfter(quota, Spend(quota, kept, calls[0].source, calls[0].at).0, calls[1..])
  }

  lemma {:induction false} AnswersInTwo(quota: nat, kept: Buckets, a: seq<Call>, b: seq<Call>)
    ensures AnswersKept(quota, kept, a + b)
            == AnswersKept(quota, kept, a) + AnswersKept(quota, KeptAfter(quota, kept, a), b)
    decreases |a|
  {
    if a == [] {
      assert a + b == b;
    } else {
      assert (a + b)[0] == a[0] && (a + b)[1..] == a[1..] + b;
      AnswersInTwo(quota, Spend(quota, kept, a[0].source, a[0].at).0, a[1..], b);
    }
  }

  lemma {:induction false} KeptLevelsOk(quota: nat, kept: Buckets, calls: seq<Call>)
    requires quota > 0 && LevelsOk(quota, kept)
    ensures LevelsOk(quota, KeptAfter(quota, kept, calls))
    decreases |calls|
  {
    if calls != [] {
      SpendIs(quota, kept, calls[0].source, calls[0].at);
      KeptLevelsOk(quota, Spend(quota, kept, calls[0].source, calls[0].at).0, calls[1..]);
    }
  }

  lemma {:induction false} GrantedWithin(answers: seq<bool>, calls: seq<Call>, source: Source, from: Time, to: Time)
    requires |answers| == |calls| && forall i :: 0 <= i < |calls| ==> from <= calls[i].at <= to
    ensures forall r :: r in GrantedAt(answers, calls, source) ==> from <= r <= to
  {
    if calls != [] {
      GrantedWithin(answers[1..], calls[1..], source, from, to);
    }
  }

  /** What is granted after `before` is what the kept buckets grant from where they stand then. */
  lemma {:induction false} GrantedAfter(quota: nat, start: Time, before: seq<Call>, window: seq<Call>)
    requires quota > 0 && NoneBehind(start, None, before + window)
    ensures Answers(quota, Limiter(map[], start), before + window)[|before|..]
            == AnswersKept(quota, KeptAfter(quota, map[], before), window)
  {
    SweepingIsInvisible(quota, start, before + window);
    AnswersInTwo(quota, map[], before, window);
  }

  /**
   * Whatever came before and whoever else calls, one source is granted at most
   * quota + quota * (T + B) / minute calls whose readings are in a window of length T: B is how
   * far each of its granted readings falls behind the granted one before it, in all.
   */
  lemma {:induction false} WindowBound(quota: nat, start: Time, before: seq<Call>, window: seq<Call>, source: Source,
                                       from: Time, length: Time)
    requires quota > 0 && 0 <= length && NoneBehind(start, None, before + window)
    requires forall i :: 0 <= i < |window| ==> from <= window[i].at <= from + length
    ensures var answers := Answers(quota, Limiter(map[], start), before + window);
            var rs := GrantedAt(answers[|before|..], window, source);
            |rs| * MINUTE <= quota * MINUTE + quota * (length + Back(rs))
  {
    var kept := KeptAfter(quota, map[], before);
    GrantedAfter(quota, start, before, window);
    KeptLevelsOk(quota, map[], before);
    GrantedFrom(quota, kept, window, source);
    var answers := AnswersKept(quota, kept, window);
    var rs := GrantedAt(answers, window, source);
    if rs != [] {
      GrantedWithin(answers, window, source, from, from + length);
      assert rs[0] in rs && rs[|rs| - 1] in rs;
      RiseIs(rs);
      Distribute(quota, Rise(rs), length + Back(rs));
    } else {
      Distribute(quota, length, 0);
    }
  }

  predicate Ascending(rs: seq<Time>) {
    forall i, j :: 0 <= i < j < |rs| ==> rs[i] <= rs[j]
  }

  lemma {:induction false} GrantedInOrder(answers: seq<bool>, calls: seq<Call>, source: Source)
    requires |answers| == |calls| && InTime(calls)
    ensures Ascending(GrantedAt(answers, calls, source))
  {
    if calls != [] {
      GrantedInOrder(answers[1..], calls[1..], source);
      var rest := GrantedAt(answers[1..], calls[1..], source);
      GrantedWithin(answers[1..], calls[1..], source, calls[0].at, calls[|calls| - 1].at);
      forall j | 0 <= j < |rest|
        ensures calls[0].at <= rest[j]
      {
        assert rest[j] in rest;
      }
    }
  }

  lemma {:induction false} AscendingHasNoBack(rs: seq<Time>)
    requires Ascending(rs)
    ensures Back(rs) == 0
  {
    if |rs| > 1 {
      AscendingHasNoBack(rs[1..]);
    }
  }

  /** Readings that do not go back: at most quota + quota * T / minute. */
  lemma {:induction false} WindowBoundInTime(quota: nat, start: Time, before: seq<Call>, window: seq<Call>,
                                             source: Source, from: Time, length: Time)
    requires quota > 0 && 0 <= length && NoneBehind(start, None, before + window) && InTime(window)
    requires forall i :: 0 <= i < |window| ==> from <= window[i].at <= from + length
    ensures var answers := Answers(quota, Limiter(map[], start), before + window);
            Granted(answers[|before|..], window, source) * MINUTE <= quota * MINUTE + quota * length
  {
    WindowBound(quota, start, before, window, source, from, length);
    var answers := Answers(quota, Limiter(map[], start), before + window);
    GrantedInOrder(answers[|before|..], window, source);
    AscendingHasNoBack(GrantedAt(answers[|before|..], window, source));
  }

  // --- readings that go back -------------------------------------------------

  const SECOND: Time := 1_000_000_000

  /** Readings half a minute apart, forth and back, `n` of them. */
  function Seesaw(n: nat, forth: bool): (calls: seq<Call>)
    ensures |calls| == n
  {
    if n == 0 then [] else [Call("a", if forth then 60 * SECOND else 30 * SECOND)] + Seesaw(n - 1, !forth)
  }

  /** Two tokens spent and two earned, each time round. */
  lemma {:induction false} SeesawGoesOn(l: Limiter, n: nat, forth: bool)
    requires l.lastSweep == 0
    requires l.buckets == map["a" := if forth then Bucket(2 * MINUTE, 30 * SECOND) else Bucket(3 * MINUTE, 60 * SECOND)]
    ensures var calls := Seesaw(n, forth); Granted(Answers(4, l, calls), calls, "a") == n
    decreases n
  {
    if n > 0 {
      var c := Seesaw(n, forth)[0];
      var (l', ok) := Admit(4, l, c.source, c.at);
      assert ok && l' == Limiter(l.buckets["a" := l'.buckets["a"]], 0);
      SeesawGoesOn(l', n - 1, !forth);
    }
  }

  lemma {:induction false} SeesawIsNotBehind(n: nat, forth: bool)
    ensures NoneBehind(0, None, Seesaw(n, forth))
    ensures forall c :: c in Seesaw(n, forth) ==> 30 * SECOND <= c.at <= 60 * SECOND
  {
    if n > 0 {
      SeesawIsNotBehind(n - 1, !forth);
      assert Seesaw(n, forth)[1..] == Seesaw(n - 1, !forth);
    }
  }

  /**
   * The clock is read before the lock is taken, so readings can arrive out of order, and then
   * the same half minute is earned again and again: with a quota of four any number of calls
   * is granted inside it.
   */
  lemma {:induction false} NoBoundWhenReadingsGoBack(n: nat)
    ensures var calls := Seesaw(n, true);
            && NoneBehind(0, None, calls)
            && (forall c :: c in calls ==> 30 * SECOND <= c.at <= 60 * SECOND)
            && Granted(Answers(4, Limiter(map[], 0), calls), calls, "a") == n
  {
    SeesawIsNotBehind(n, true);
    if n > 0 {
      var (l, ok) := Admit(4, Limiter(map[], 0), "a", 60 * SECOND);
      assert ok && l == Limiter(map["a" := Bucket(3 * MINUTE, 60 * SECOND)], 0);
      SeesawGoesOn(l, n - 1, false);
    }
  }

  // --- exactly when a call is granted ----------------------------------------

  /** Counting from the j-th call, one grant more at this moment keeps to what was there and what was earned. */
  predicate Fits(quota: nat, answers: seq<bool>, before: seq<Call>, source: Source, at: Time, j: nat)
    requires |answers| == |before| && j <= |before|
  {
    var rs := GrantedAt(answers[j..], before[j..], source);
    (|rs| + 1) * MINUTE <= Full(quota) + quota * Rise(rs + [at])
  }

  lemma {:induction false} GrantedOneMore(answers: seq<bool>, calls: seq<Call>, ok: bool, c: Call, source: Source)
    requires |answers| == |calls|
    ensures GrantedAt(answers + [ok], calls + [c], source)
            == GrantedAt(answers, calls, source) + if ok && c.source == source then [c.at] else []
    decreases |calls|
  {
    if calls == [] {
      assert answers + [ok] == [ok] && calls + [c] == [c];
    } else {
      GrantedOneMore(answers[1..], calls[1..], ok, c, source);
      assert (answers + [ok])[1..] == answers[1..] + [ok] && (calls + [c])[1..] == calls[1..] + [c];
    }
  }

  /** The answer to one call more, and to those before it from the j-th on. */
  lemma {:induction false} OneMoreAnswer(quota: nat, before: seq<Call>, c: Call, j: nat)
    requires j <= |before|
    ensures var answers := AnswersKept(quota, map[], before);
            var ok := Spend(quota, KeptAfter(quota, map[], before), c.source, c.at).1;
            && AnswersKept(quota, map[], before + [c]) == answers + [ok]
            && (answers + [ok])[j..] == answers[j..] + [ok] && (before + [c])[j..] == before[j..] + [c]
  {
    AnswersInTwo(quota, map[], before, [c]);
    assert AnswersKept(quota, KeptAfter(quota, map[], before), [c])
        == [Spend(quota, KeptAfter(quota, map[], before), c.source, c.at).1];
  }

  lemma {:induction false} AnswersFrom(quota: nat, before: seq<Call>, j: nat)
    requires j <= |before|
    ensures AnswersKept(quota, map[], before)[j..]
            == AnswersKept(quota, KeptAfter(quota, map[], before[..j]), before[j..])
  {
    AnswersInTwo(quota, map[], before[..j], before[j..]);
    assert before == before[..j] + before[j..];
  }

  /** What is granted fits, from whichever call one counts. */
  lemma {:induction false} GrantFits(quota: nat, before: seq<Call>, source: Source, at: Time, j: nat)
    requires quota > 0 && j <= |before| && Spend(quota, KeptAfter(quota, map[], before), source, at).1
    ensures Fits(quota, AnswersKept(quota, map[], before), before, source, at, j)
  {
    var c := Call(source, at);
    var answers := AnswersKept(quota, map[], before);
    var kept := KeptAfter(quota, map[], before[..j]);
    KeptLevelsOk(quota, map[], before[..j]);
    AnswersFrom(quota, before, j);
    AnswersInTwo(quota, kept, before[j..], [c]);
    KeptInTwo(quota, map[], before[..j], before[j..]);
    assert before == before[..j] + before[j..];
    assert AnswersKept(quota, KeptAfter(quota, map[], before), [c]) == [true];
    GrantedFrom(quota, kept, before[j..] + [c], source);
    GrantedOneMore(answers[j..], before[j..], true, c, source);
  }

  lemma {:induction false} KeptInTwo(quota: nat, kept: Buckets, a: seq<Call>, b: seq<Call>)
    ensures KeptAfter(quota, kept, a + b) == KeptAfter(quota, KeptAfter(quota, kept, a), b)
    decreases |a|
  {
    if a == [] {
      assert a + b == b;
    } else {
      assert (a + b)[0] == a[0] && (a + b)[1..] == a[1..] + b;
      KeptInTwo(quota, Spend(quota, kept, a[0].source, a[0].at).0, a[1..], b);
    }
  }

  /** The bucket was last full at the j-th call, which was granted, and holds what that left and the rest earned. */
  ghost predicate FullAt(quota: nat, before: seq<Call>, source: Source, j: nat) {
    var kept := KeptAfter(quota, map[], before);
    && j < |before| && source in kept
    && var rs := GrantedAt(AnswersKept(quota, map[], before)[j..], before[j..], source);
       && rs != [] && rs[0] == before[j].at && kept[source].last == rs[|rs| - 1]
       && kept[source].level == Full(quota) - |rs| * MINUTE + quota * Rise(rs)
  }

  /** One grant more: still counting from the same call, or full at this one. */
  lemma {:induction false} FullAtAfterGrant(quota: nat, before: seq<Call>, c: Call, j: nat)
    requires quota > 0 && FullAt(quota, before, c.source, j)
    requires Spend(quota, KeptAfter(quota, map[], before), c.source, c.at).1
    ensures FullAt(quota, before + [c], c.source, j) || FullAt(quota, before + [c], c.source, |before|)
  {
    var kept := KeptAfter(quota, map[], before);
    var answers := AnswersKept(quota, map[], before);
    var rs := GrantedAt(answers[j..], before[j..], c.source);
    KeptLevelsOk(quota, map[], before);
    KeptInTwo(quota, map[], before, [c]);
    SpendIs(quota, kept, c.source, c.at);
    OneMoreAnswer(quota, before, c, j);
    GrantedOneMore(answers[j..], before[j..], true, c, c.source);
    RiseOfOneMore(rs, c.at);
    Distribute(quota, Rise(rs), Ahead(rs[|rs| - 1], c.at));
    if kept[c.source].level + quota * Ahead(kept[c.source].last, c.at) > Full(quota) {
      FullAtThisCall(quota, before, c);
    }
  }

  lemma {:induction false} FullAtThisCall(quota: nat, before: seq<Call>, c: Call)
    requires quota > 0 && LevelsOk(quota, KeptAfter(quota, map[], before))
    requires var kept := KeptAfter(quota, map[], before);
             LevelAt(quota, BucketOf(quota, kept, c.source, c.at), c.at) == Full(quota)
    ensures FullAt(quota, before + [c], c.source, |before|)
  {
    var kept := KeptAfter(quota, map[], before);
    KeptInTwo(quota, map[], before, [c]);
    assert KeptAfter(quota, kept, [c]) == Spend(quota, kept, c.source, c.at).0;
    SpendIs(quota, kept, c.source, c.at);
    assert MINUTE <= Full(quota);
    OneMoreAnswer(quota, before, c, |before|);
    assert (before + [c])[|before|..] == [c];
    assert GrantedAt([true], [c], c.source) == [c.at];
  }

  /** A call of another source, or a refused one, changes nothing here. */
  lemma {:induction false} FullAtAfterOther(quota: nat, before: seq<Call>, c: Call, source: Source, j: nat)
    requires quota > 0 && FullAt(quota, before, source, j)
    requires c.source != source || !Spend(quota, KeptAfter(quota, map[], before), c.source, c.at).1
    ensures FullAt(quota, before + [c], source, j)
  {
    var kept := KeptAfter(quota, map[], before);
    var answers := AnswersKept(quota, map[], before);
    var ok := Spend(quota, kept, c.source, c.at).1;
    KeptLevelsOk(quota, map[], before);
    KeptInTwo(quota, map[], before, [c]);
    assert KeptAfter(quota, kept, [c]) == Spend(quota, kept, c.source, c.at).0;
    SpendIs(quota, kept, c.source, c.at);
    OneMoreAnswer(quota, before, c, j);
    GrantedOneMore(answers[j..], before[j..], ok, c, source);
    var rs := GrantedAt(answers[j..], before[j..], source);
    assert rs + [] == rs;
  }

  /** Every bucket on record was full once. */
  lemma {:induction false} WasFullAt(quota: nat, before: seq<Call>, source: Source) returns (j: nat)
    requires quota > 0 && source in KeptAfter(quota, map[], before)
    ensures FullAt(quota, before, source, j)
    decreases |before|
  {
    var n := |before| - 1;
    var init, c := before[..n], before[n];
    assert before == init + [c];
    var kept := KeptAfter(quota, map[], init);
    KeptInTwo(quota, map[], init, [c]);
    assert KeptAfter(quota, kept, [c]) == Spend(quota, kept, c.source, c.at).0;
    KeptLevelsOk(quota, map[], init);
    SpendIs(quota, kept, c.source, c.at);
    if source !in kept {
      FullAtThisCall(quota, init, c);
      j := n;
    } else {
      j := WasFullAt(quota, init, source);
      if c.source == source && Spend(quota, kept, c.source, c.at).1 {
        FullAtAfterGrant(quota, init, c, j);
        if !FullAt(quota, before, source, j) {
          j := n;
        }
      } else {
        FullAtAfterOther(quota, init, c, source, j);
      }
    }
  }

  /** What is refused does not fit, counting from the call at which its bucket was last full. */
  lemma RefusalDoesNotFit(quota: nat, before: seq<Call>, source: Source, at: Time) returns (j: nat)
    requires quota > 0 && !Spend(quota, KeptAfter(quota, map[], before), source, at).1
    ensures FullAt(quota, before, source, j)
    ensures !Fits(quota, AnswersKept(quota, map[], before), before, source, at, j)
  {
    var kept := KeptAfter(quota, map[], before);
    KeptLevelsOk(quota, map[], before);
    SpendIs(quota, kept, source, at);
    j := WasFullAt(quota, before, source);
    assert MINUTE <= Full(quota);
    var rs := GrantedAt(AnswersKept(quota, map[], before)[j..], before[j..], source);
    RiseOfOneMore(rs, at);
    Distribute(quota, Rise(rs), Ahead(rs[|rs| - 1], at));
  }

  lemma {:induction false} NoneBehindAtFirst(lastSweep: Time, swept: Option<Time>, a: seq<Call>, b: seq<Call>)
    requires NoneBehind(lastSweep, swept, a + b)
    ensures NoneBehind(lastSweep, swept, a)
    decreases |a|
  {
    if a != [] {
      assert (a + b)[0] == a[0] && (a + b)[1..] == a[1..] + b;
      NoneBehindAtFirst(LastSweep(lastSweep, a[0].at), SweptAt(lastSweep, swept, a[0].at), a[1..], b);
    }
  }

  lemma {:induction false} AnswersNext(quota: nat, start: Time, before: seq<Call>, c: Call)
    requires quota > 0 && NoneBehind(start, None, before + [c])
    ensures Answers(quota, Limiter(map[], start), before) == AnswersKept(quota, map[], before)
    ensures Answers(quota, Limiter(map[], start), before + [c])[|before|]
            == Spend(quota, KeptAfter(quota, map[], before), c.source, c.at).1
  {
    SweepingIsInvisible(quota, start, before + [c]);
    NoneBehindAtFirst(start, None, before, [c]);
    SweepingIsInvisible(quota, start, before);
    OneMoreAnswer(quota, before, c, 0);
  }

  /**
   * A call is granted if and only if, from whichever earlier call one counts, its source's
   * grants with this one are no more than a full bucket and what their own readings earned.
   */
  lemma {:induction false} GrantedExactlyWhen(quota: nat, start: Time, before: seq<Call>, source: Source, at: Time)
    requires quota > 0 && NoneBehind(start, None, before + [Call(source, at)])
    ensures var answers := Answers(quota, Limiter(map[], start), before);
            Answers(quota, Limiter(map[], start), before + [Call(source, at)])[|before|] <==>
            forall j :: 0 <= j <= |before| ==> Fits(quota, answers, before, source, at, j)
  {
    AnswersNext(quota, start, before, Call(source, at));
    if Spend(quota, KeptAfter(quota, map[], before), source, at).1 {
      forall j | 0 <= j <= |before|
        ensures Fits(quota, AnswersKept(quota, map[], before), before, source, at, j)
      {
        GrantFits(quota, before, source, at, j);
      }
    } else {
      var j := RefusalDoesNotFit(quota, before, source, at);
    }
  }

  /** One grant more keeps the bound in the window from `from` to now, which holds these calls. */
  predicate KeepsTheBound(quota: nat, answers: seq<bool>, before: seq<Call>, source: Source, at: Time, j: nat,
                          from: Time)
    requires |answers| == |before| && j <= |before|
  {
    from <= at && (forall i :: j <= i < |before| ==> from <= before[i].at) ==>
      (Granted(answers[j..], before[j..], source) + 1) * MINUTE <= quota * MINUTE + quota * (at - from)
  }

  /** In order, what the readings of a window's grants earn is no more than its length. */
  lemma FittingKeepsTheBound(quota: nat, answers: seq<bool>, before: seq<Call>, source: Source, at: Time, j: nat,
                             from: Time)
    requires |answers| == |before| && j <= |before| && InTime(before + [Call(source, at)])
    requires Fits(quota, answers, before, source, at, j)
    ensures KeepsTheBound(quota, answers, before, source, at, j, from)
  {
    if from <= at && forall i :: j <= i < |before| ==> from <= before[i].at {
      var c := Call(source, at);
      var rs := GrantedAt(answers[j..], before[j..], source);
      assert before[j..] + [c] == (before + [c])[j..];
      RiseInTime(answers[j..], before[j..], c);
      forall i | j <= i < |before|
        ensures from <= before[i].at <= at
      {
        assert (before + [c])[i] == before[i] && (before + [c])[|before|] == c;
      }
      GrantedWithin(answers[j..], before[j..], source, from, at);
      assert rs != [] ==> rs[0] in rs;
      Distribute(quota, Rise(rs + [at]), at - from);
    }
  }

  /** In order the readings of grants rise from the first of them to now, and no further. */
  lemma {:induction false} RiseInTime(answers: seq<bool>, calls: seq<Call>, c: Call)
    requires |answers| == |calls| && InTime(calls + [c])
    ensures var rs := GrantedAt(answers, calls, c.source) + [c.at]; Rise(rs) == c.at - rs[0]
  {
    var rs := GrantedAt(answers, calls, c.source) + [c.at];
    GrantedOneMore(answers, calls, true, c, c.source);
    GrantedInOrder(answers + [true], calls + [c], c.source);
    AscendingHasNoBack(rs);
    RiseIs(rs);
  }

  /**
   * With readings that do not go back, a call is granted if and only if granting it keeps the
   * bound in every window that ends with it: whoever keeps to the quota is never refused.
   */
  lemma {:induction false} GrantedExactlyWithinTheBound(quota: nat, start: Time, before: seq<Call>, source: Source,
                                                        at: Time)
    requires quota > 0 && InTime(before + [Call(source, at)])
    ensures var answers := Answers(quota, Limiter(map[], start), before);
            Answers(quota, Limiter(map[], start), before + [Call(source, at)])[|before|] <==>
            forall j, from :: 0 <= j <= |before| ==> KeepsTheBound(quota, answers, before, source, at, j, from)
  {
    var c := Call(source, at);
    var answers := AnswersKept(quota, map[], before);
    InTimeIsNotBehind(start, None, before + [c]);
    AnswersNext(quota, start, before, c);
    if Spend(quota, KeptAfter(quota, map[], before), source, at).1 {
      forall j: nat, from | j <= |before|
        ensures KeepsTheBound(quota, answers, before, source, at, j, from)
      {
        GrantFits(quota, before, source, at, j);
        FittingKeepsTheBound(quota, answers, before, source, at, j, from);
      }
    } else {
      var j := RefusalDoesNotFit(quota, before, source, at);
      BreaksTheBound(quota, before, source, at, j);
    }
  }

  lemma {:induction false} BreaksTheBound(quota: nat, before: seq<Call>, source: Source, at: Time, j: nat)
    requires InTime(before + [Call(source, at)]) && FullAt(quota, before, source, j)
    requires !Fits(quota, AnswersKept(quota, map[], before), before, source, at, j)
    ensures !KeepsTheBound(quota, AnswersKept(quota, map[], before), before, source, at, j, before[j].at)
  {
    var c := Call(source, at);
    var answers := AnswersKept(quota, map[], before);
    forall i | j <= i < |before|
      ensures before[j].at <= before[i].at <= at
    {
      assert (before + [c])[i] == before[i] && (before + [c])[j] == before[j] && (before + [c])[|before|] == c;
    }
    assert InTime(before[j..] + [c]) by {
      assert before[j..] + [c] == (before + [c])[j..];
    }
    RiseInTime(answers[j..], before[j..], c);
  }

  // --- refusals and other sources --------------------------------------------

  /** A refused call may be left out: every other answer is the same. */
  lemma {:induction false} RefusalSpendsNothing(quota: nat, start: Time, calls: seq<Call>, i: nat)
    requires quota > 0 && i < |calls| && !Answers(quota, Limiter(map[], start), calls)[i]
    requires NoneBehind(start, None, calls) && NoneBehind(start, None, calls[..i] + calls[i + 1..])
    ensures var answers := Answers(quota, Limiter(map[], start), calls);
            Answers(quota, Limiter(map[], start), calls[..i] + calls[i + 1..]) == answers[..i] + answers[i + 1..]
  {
    SweepingIsInvisible(quota, start, calls);
    SweepingIsInvisible(quota, start, calls[..i] + calls[i + 1..]);
    RefusedIsLeftOut(quota, calls, i);
  }

  /** Which readings that do not go back always allow. */
  lemma {:induction false} RefusalSpendsNothingInTime(quota: nat, start: Time, calls: seq<Call>, i: nat)
    requires quota > 0 && i < |calls| && !Answers(quota, Limiter(map[], start), calls)[i] && InTime(calls)
    ensures var answers := Answers(quota, Limiter(map[], start), calls);
            Answers(quota, Limiter(map[], start), calls[..i] + calls[i + 1..]) == answers[..i] + answers[i + 1..]
  {
    InTimeIsNotBehind(start, None, calls);
    assert InTime(calls[..i] + calls[i + 1..]);
    InTimeIsNotBehind(start, None, calls[..i] + calls[i + 1..]);
    RefusalSpendsNothing(quota, start, calls, i);
  }

  lemma {:induction false} RefusedIsLeftOut(quota: nat, calls: seq<Call>, i: nat)
    requires quota > 0 && i < |calls| && !AnswersKept(quota, map[], calls)[i]
    ensures var answers := AnswersKept(quota, map[], calls);
            AnswersKept(quota, map[], calls[..i] + calls[i + 1..]) == answers[..i] + answers[i + 1..]
  {
    AnswersInTwo(quota, map[], calls[..i], calls[i..]);
    AnswersInTwo(quota, map[], calls[..i], calls[i + 1..]);
    assert calls == calls[..i] + calls[i..];
    var kept := KeptAfter(quota, map[], calls[..i]);
    assert calls[i..][1..] == calls[i + 1..];
    RefusalKeeps(quota, kept, calls[i].source, calls[i].at);
  }

  function Own(calls: seq<Call>, source: Source): seq<Call> {
    if calls == [] then
      []
    else
      (if calls[0].source == source then [calls[0]] else []) + Own(calls[1..], source)
  }

  function OwnAnswers(answers: seq<bool>, calls: seq<Call>, source: Source): seq<bool>
    requires |answers| == |calls|
  {
    if calls == [] then
      []
    else
      (if calls[0].source == source then [answers[0]] else []) + OwnAnswers(answers[1..], calls[1..], source)
  }

  lemma {:induction false} OwnIsInTime(calls: seq<Call>, source: Source)
    requires InTime(calls)
    ensures InTime(Own(calls, source))
    ensures forall c :: c in Own(calls, source) ==> c in calls
  {
    if calls != [] {
      OwnIsInTime(calls[1..], source);
      var rest := Own(calls[1..], source);
      forall j | 0 <= j < |rest|
        ensures calls[0].at <= rest[j].at
      {
        assert rest[j] in calls[1..];
      }
    }
  }

  predicate SameFor(a: Buckets, b: Buckets, source: Source) {
    (source in a <==> source in b) && (source in a ==> a[source] == b[source])
  }

  lemma {:induction false} KeptAlone(quota: nat, kept: Buckets, own: Buckets, calls: seq<Call>, source: Source)
    requires SameFor(kept, own, source)
    ensures OwnAnswers(AnswersKept(quota, kept, calls), calls, source) == AnswersKept(quota, own, Own(calls, source))
    decreases |calls|
  {
    if calls != [] {
      var c := calls[0];
      var kept' := Spend(quota, kept, c.source, c.at).0;
      if c.source == source {
        var own' := Spend(quota, own, c.source, c.at).0;
        KeptAlone(quota, kept', own', calls[1..], source);
        assert Own(calls, source) == [c] + Own(calls[1..], source);
      } else {
        KeptAlone(quota, kept', own, calls[1..], source);
        assert Own(calls, source) == Own(calls[1..], source);
      }
    }
  }

  /** A source gets the answers it would get if nobody else ever called. */
  lemma {:induction false} SourcesAreIndependent(quota: nat, start: Time, calls: seq<Call>, source: Source)
    requires quota > 0 && NoneBehind(start, None, calls) && NoneBehind(start, None, Own(calls, source))
    ensures OwnAnswers(Answers(quota, Limiter(map[], start), calls), calls, source)
            == Answers(quota, Limiter(map[], start), Own(calls, source))
  {
    SweepingIsInvisible(quota, start, calls);
    SweepingIsInvisible(quota, start, Own(calls, source));
    KeptAlone(quota, map[], map[], calls, source);
  }

  lemma {:induction false} SourcesAreIndependentInTime(quota: nat, start: Time, calls: seq<Call>, source: Source)
    requires quota > 0 && InTime(calls)
    ensures OwnAnswers(Answers(quota, Limiter(map[], start), calls), calls, source)
            == Answers(quota, Limiter(map[], start), Own(calls, source))
  {
    OwnIsInTime(calls, source);
    InTimeIsNotBehind(start, None, calls);
    InTimeIsNotBehind(start, None, Own(calls, source));
    SourcesAreIndependent(quota, start, calls, source);
  }
}
