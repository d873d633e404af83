/**
 * Provider tokens: signed here, kept and handed out again for three quarters of an hour, from
 * one source per identity -- for as long as the cache of sources remembers it.
 */
module AppleTokens {
  import opened Basics
  import opened Runs

  const LIFETIME: Time := 45 * 60 * 1_000_000_000
  const MAX_CACHED: nat := 1024

  /** Which key signs and for whom: the digest the cache goes by. */
  type Identity = nat

  // --- one source ------------------------------------------------------------

  class Source {
    const id: Identity
    var minted: Option<Time>
    /** When this source has signed, in order. */
    var signings: seq<Time>

    constructor (id: Identity)
      ensures this.id == id && minted.None? && signings == []
    {
      this.id, minted, signings := id, None, [];
    }

    ghost predicate Valid()
      reads this
    {
      minted.Some? ==> signings != [] && signings[|signings| - 1] == minted.value
    }

    /** The token in hand while it is fresh, a new one otherwise; told by when it was signed. */
    method Token(now: Time, signs: bool) returns (r: Option<Time>)
      requires Valid()
      modifies this
      ensures Valid()
      ensures (minted, signings, r) == AfterToken(old(minted), old(signings), now, signs)
      ensures r.Some? ==> now - r.value < LIFETIME
      ensures var isFresh := old(minted).Some? && now - old(minted).value < 45 * 60 * 1_000_000_000;
              && (isFresh ==> r == old(minted) && signings == old(signings))
              && (!isFresh && signs ==> r == Some(now) && signings == old(signings) + [now])
              && (!isFresh && !signs ==> r.None? && minted == old(minted) && signings == old(signings))
    {
      if minted.Some? && now - minted.value < LIFETIME {
        return minted;
      }
      if !signs {
        return None;
      }
      minted, signings := Some(now), signings + [now];
      return minted;
    }

    method Expire()
      modifies this`minted
      ensures Valid() && minted.None?
    {
      minted := None;
    }
  }

  /** There is no token in hand, or it has aged out. */
  predicate MustSign(minted: Option<Time>, now: Time) {
    minted.None? || now - minted.value >= LIFETIME
  }

  function AfterToken(minted: Option<Time>, signings: seq<Time>, now: Time, signs: bool)
    : (Option<Time>, seq<Time>, Option<Time>)
  {
    if !MustSign(minted, now) then (minted, signings, minted)
    else if !signs then (minted, signings, None)
    else (Some(now), signings + [now], Some(now))
  }

  // --- every source of a cache -----------------------------------------------

  datatype Held = Held(id: Identity, minted: Option<Time>)

  datatype Signing = Signing(source: nat, id: Identity, at: Time)

  /** `cached` says which source an identity has now; `known` and `signings` are history. */
  datatype State = State(cached: map<Identity, nat>, sources: seq<Held>, known: set<Identity>,
                         signings: seq<Signing>, now: Time)

  datatype Action =
    | Open(id: Identity)
    | Token(source: nat, at: Time, signs: bool)
    | Expire(source: nat)

  function Start(): State {
    State(map[], [], {}, [], 0)
  }

  function AfterOpen(s: State, id: Identity): State {
    if id in s.cached then
      s
    else
      var room := if |s.cached| >= MAX_CACHED then map[] else s.cached;
      s.(cached := room[id := |s.sources|], sources := s.sources + [Held(id, None)], known := s.known + {id})
  }

  /** A token asked for in the past, or of a source that is not there, changes nothing. */
  function Apply(s: State, a: Action): State {
    match a
    case Open(id) => AfterOpen(s, id)
    case Token(n, at, signs) =>
      if n < |s.sources| && at >= s.now then
        var h := s.sources[n];
        var (minted, signed, _) := AfterToken(h.minted, [], at, signs);
        s.(now := at, sources := s.sources[n := h.(minted := minted)],
           signings := s.signings + if signed == [] then [] else [Signing(n, h.id, at)])
      else
        s
    case Expire(n) => if n < |s.sources| then s.(sources := s.sources[n := s.sources[n].(minted := None)]) else s
  }

  function Run(s: State, acts: seq<Action>): State {
    RunOf(Apply, s, acts)
  }

  /** Nobody throws away the token of this source. */
  predicate NeverExpires(acts: seq<Action>, n: nat) {
    forall k :: 0 <= k < |acts| ==> acts[k] != Expire(n)
  }

  /** What the source holds is its latest signing, and its signings are a lifetime apart. */
  predicate Spaced(s: State, n: nat) {
    && (forall k :: 0 <= k < |s.signings| && s.signings[k].source == n ==>
          var x := s.signings[k];
          && n < |s.sources| && s.sources[n].minted.Some? && x.at <= s.sources[n].minted.value)
    && (forall j, k :: 0 <= j < k < |s.signings| && s.signings[j].source == n && s.signings[k].source == n ==>
          s.signings[k].at - s.signings[j].at >= LIFETIME)
  }

  /** Each signing is on record under the identity of its source. */
  predicate Recorded(s: State) {
    forall k :: 0 <= k < |s.signings| ==>
      s.signings[k].source < |s.sources| && s.sources[s.signings[k].source].id == s.signings[k].id
  }

  /** The cache knows its sources, and keeps to its size. */
  predicate CacheOk(s: State) {
    && |s.cached| <= MAX_CACHED
    && s.cached.Keys <= s.known
    && forall id :: id in s.cached ==> s.cached[id] < |s.sources| && s.sources[s.cached[id]].id == id
  }

  lemma ApplyKeepsSpaced(s: State, a: Action, n: nat)
    requires Spaced(s, n) && Recorded(s) && a != Expire(n)
    ensures Spaced(Apply(s, a), n) && Recorded(Apply(s, a))
  {
    var s' := Apply(s, a);
    if |s'.signings| > |s.signings| && a.source == n {
      forall j | 0 <= j < |s.signings| && s.signings[j].source == n
        ensures a.at - s.signings[j].at >= LIFETIME
      {
        assert s.sources[n].minted.Some?;
      }
    }
  }

  lemma ApplyKeepsCache(s: State, a: Action)
    requires CacheOk(s)
    ensures CacheOk(Apply(s, a))
  {
  }

  /** The cache never outgrows its cap, whatever is opened, asked for and expired. */
  lemma {:induction false} CacheIsBounded(s: State, acts: seq<Action>)
    requires CacheOk(s)
    ensures CacheOk(Run(s, acts))
    ensures var s' := Run(s, acts);
            && |s'.cached| <= 1024
            && forall id :: id in s'.cached ==> s'.cached[id] < |s'.sources| && s'.sources[s'.cached[id]].id == id
    decreases |acts|
  {
    if acts != [] {
      ApplyKeepsCache(s, acts[0]);
      CacheIsBounded(Apply(s, acts[0]), acts[1..]);
    }
  }

  /** Signings are on record in the order of their moments, and none is in the future. */
  predicate InTime(s: State) {
    && (forall k :: 0 <= k < |s.signings| ==> s.signings[k].at <= s.now)
    && (forall j, k :: 0 <= j < k < |s.signings| ==> s.signings[j].at <= s.signings[k].at)
  }

  /** The clock of a run does not go back, so neither do its signings. */
  lemma {:induction false} SigningsAreInOrder(s: State, acts: seq<Action>)
    requires InTime(s)
    ensures InTime(Run(s, acts)) && s.now <= Run(s, acts).now
    decreases |acts|
  {
    if acts != [] {
      assert InTime(Apply(s, acts[0]));
      SigningsAreInOrder(Apply(s, acts[0]), acts[1..]);
    }
  }

  lemma {:induction false} RunKeepsSpaced(s: State, acts: seq<Action>, n: nat)
    requires Spaced(s, n) && Recorded(s) && NeverExpires(acts, n)
    ensures Spaced(Run(s, acts), n) && Recorded(Run(s, acts))
    decreases |acts|
  {
    if acts != [] {
      ApplyKeepsSpaced(s, acts[0], n);
      RunKeepsSpaced(Apply(s, acts[0]), acts[1..], n);
    }
  }

  lemma {:induction false} RunKeepsRecorded(s: State, acts: seq<Action>)
    requires Recorded(s)
    ensures Recorded(Run(s, acts))
    decreases |acts|
  {
    if acts != [] {
      RunKeepsRecorded(Apply(s, acts[0]), acts[1..]);
    }
  }

  /**
   * One source, whatever is asked of it and of others and whatever tokens of others are thrown
   * away, signs no sooner than a lifetime after it last did, unless its own token is.
   */
  lemma OneSourceSignsRarely(acts: seq<Action>, n: nat, j: nat, k: nat)
    requires NeverExpires(acts, n) && j < k < |Run(Start(), acts).signings|
    requires Run(Start(), acts).signings[j].source == n && Run(Start(), acts).signings[k].source == n
    ensures Run(Start(), acts).signings[k].at - Run(Start(), acts).signings[j].at >= LIFETIME
  {
    RunKeepsSpaced(Start(), acts, n);
  }

  // --- one identity ----------------------------------------------------------

  /** Opening `a.id` empties a full cache, and `id` was in it. */
  predicate Drops(s: State, a: Action, id: Identity) {
    a.Open? && a.id !in s.cached && |s.cached| >= MAX_CACHED && id in s.cached
  }

  predicate NeverDrops(s: State, acts: seq<Action>, id: Identity)
    decreases |acts|
  {
    acts != [] ==> !Drops(s, acts[0], id) && NeverDrops(Apply(s, acts[0]), acts[1..], id)
  }

  /** Every source the identity has had is the one the cache knows. */
  predicate OneSource(s: State, id: Identity) {
    forall n :: 0 <= n < |s.sources| && s.sources[n].id == id ==> id in s.cached && s.cached[id] == n
  }

  lemma {:induction false} RunKeepsOneSource(s: State, acts: seq<Action>, id: Identity)
    requires OneSource(s, id) && NeverDrops(s, acts, id)
    ensures OneSource(Run(s, acts), id)
    decreases |acts|
  {
    if acts != [] {
      assert OneSource(Apply(s, acts[0]), id);
      RunKeepsOneSource(Apply(s, acts[0]), acts[1..], id);
    }
  }

  /** No token of a source of this identity is thrown away, by the sources as they end up. */
  predicate NeverExpiresFor(acts: seq<Action>, sources: seq<Held>, id: Identity) {
    forall n :: 0 <= n < |sources| && sources[n].id == id ==> NeverExpires(acts, n)
  }

  /** An identity that is never dropped signs no sooner than a lifetime after it last did, whoever else comes. */
  lemma {:induction false} OneIdentitySignsRarely(acts: seq<Action>, id: Identity, j: nat, k: nat)
    requires NeverDrops(Start(), acts, id) && NeverExpiresFor(acts, Run(Start(), acts).sources, id)
    requires j < k < |Run(Start(), acts).signings|
    requires Run(Start(), acts).signings[j].id == id && Run(Start(), acts).signings[k].id == id
    ensures Run(Start(), acts).signings[k].at - Run(Start(), acts).signings[j].at >= LIFETIME
  {
    RunKeepsRecorded(Start(), acts);
    RunKeepsOneSource(Start(), acts, id);
    var s := Run(Start(), acts);
    var x, y := s.signings[j], s.signings[k];
    assert s.sources[x.source].id == s.sources[y.source].id;
    assert NeverExpires(acts, x.source);
    OneSourceSignsRarely(acts, x.source, j, k);
  }

  /** The identity has lost the source it had: a later one can only be another. */
  predicate HasLost(s: State, n: nat, id: Identity) {
    n < |s.sources| && (id in s.cached ==> n < s.cached[id])
  }

  lemma {:induction false} LostStaysLost(s: State, acts: seq<Action>, n: nat, id: Identity)
    requires HasLost(s, n, id)
    ensures HasLost(Run(s, acts), n, id)
    decreases |acts|
  {
    if acts != [] {
      LostStaysLost(Apply(s, acts[0]), acts[1..], n, id);
    }
  }

  /** Through a run an identity keeps the source it has if and only if no action of it drops that identity. */
  lemma {:induction false} KeepsItsSourceExactlyWhen(s: State, acts: seq<Action>, id: Identity)
    requires CacheOk(s) && id in s.cached
    ensures var s' := Run(s, acts);
            (id in s'.cached && s'.cached[id] == s.cached[id]) <==> NeverDrops(s, acts, id)
    decreases |acts|
  {
    if acts != [] {
      var s1 := Apply(s, acts[0]);
      ApplyKeepsCache(s, acts[0]);
      if Drops(s, acts[0], id) {
        LostStaysLost(s1, acts[1..], s.cached[id], id);
      } else {
        KeepsItsSourceExactlyWhen(s1, acts[1..], id);
      }
    }
  }

  /** Whoever asks for the identity now, at one moment: the cache is asked for its source, and that for a token. */
  function AfterAsking(s: State, id: Identity, at: Time): State {
    var open := AfterOpen(s, id);
    Apply(open, Token(open.cached[id], at, true))
  }

  /**
   * An identity with a fresh token is opened again after one action of anybody. It signs again
   * if and only if that action dropped it or threw its token away.
   */
  lemma SignsAgainExactlyWhen(s: State, a: Action, id: Identity, at: Time)
    requires CacheOk(s) && id in s.cached && s.now <= at && !MustSign(s.sources[s.cached[id]].minted, at)
    ensures var s' := Apply(s, a);
            AfterAsking(s', id, at).signings != s'.signings <==> Drops(s, a, id) || a == Expire(s.cached[id])
  {
    var s' := Apply(s, a);
    ApplyKeepsCache(s, a);
    if Drops(s, a, id) {
      assert AfterOpen(s', id).sources[AfterOpen(s', id).cached[id]].minted.None?;
    } else {
      assert AfterOpen(s', id) == s' && s'.cached[id] == s.cached[id];
    }
  }

  // --- as long as everybody fits ---------------------------------------------

  /** Nothing was dropped yet, as long as no more identities were opened than fit. */
  predicate AllFit(s: State) {
    |s.known| <= MAX_CACHED ==> s.cached.Keys == s.known
  }

  lemma KnownGrows(s: State, acts: seq<Action>)
    ensures s.known <= Run(s, acts).known
    decreases |acts|
  {
    if acts != [] {
      KnownGrows(Apply(s, acts[0]), acts[1..]);
    }
  }

  lemma NobodyIsDropped(s: State, a: Action, id: Identity)
    requires AllFit(s) && |Apply(s, a).known| <= MAX_CACHED
    ensures !Drops(s, a, id) && AllFit(Apply(s, a))
  {
    if a.Open? && a.id !in s.cached {
      OneMore(s.known, a.id);
      assert |s.cached| == |s.cached.Keys| == |s.known|;
    }
  }

  lemma OneMore(ids: set<Identity>, id: Identity)
    ensures |ids| <= |ids + {id}|
    ensures id !in ids ==> |ids + {id}| == |ids| + 1
  {
    assert id in ids ==> ids + {id} == ids;
  }

  lemma MoreAreMore(a: set<Identity>, b: set<Identity>)
    requires a <= b
    ensures |a| <= |b|
  {
    assert b == a + (b - a);
  }

  /** While the identities opened fit the cache, nobody is dropped. */
  lemma {:induction false} NeverDropsWhoFits(s: State, acts: seq<Action>, id: Identity)
    requires AllFit(s) && |Run(s, acts).known| <= MAX_CACHED
    ensures NeverDrops(s, acts, id)
    decreases |acts|
  {
    if acts != [] {
      var s1 := Apply(s, acts[0]);
      KnownGrows(s1, acts[1..]);
      MoreAreMore(s1.known, Run(s1, acts[1..]).known);
      NobodyIsDropped(s, acts[0], id);
      NeverDropsWhoFits(s1, acts[1..], id);
    }
  }

  /** So while the identities opened fit the cache, each of them signs rarely. */
  lemma FewIdentitiesSignRarely(acts: seq<Action>, id: Identity, j: nat, k: nat)
    requires |Run(Start(), acts).known| <= MAX_CACHED && NeverExpiresFor(acts, Run(Start(), acts).sources, id)
    requires j < k < |Run(Start(), acts).signings|
    requires Run(Start(), acts).signings[j].id == id && Run(Start(), acts).signings[k].id == id
    ensures Run(Start(), acts).signings[k].at - Run(Start(), acts).signings[j].at >= LIFETIME
  {
    NeverDropsWhoFits(Start(), acts, id);
    OneIdentitySignsRarely(acts, id, j, k);
  }

  // --- one too many ----------------------------------------------------------

  /** Opens the identities 1 to n. */
  function Crowd(n: nat): seq<Action> {
    if n == 0 then [] else Crowd(n - 1) + [Open(n)]
  }

  predicate FilledTo(s: State, n: nat) {
    0 in s.cached && |s.cached| == n + 1 && forall k :: k in s.cached ==> k <= n
  }

  lemma OpeningFills(s: State, n: nat)
    requires FilledTo(s, n)
    ensures n + 1 < MAX_CACHED ==> FilledTo(AfterOpen(s, n + 1), n + 1)
    ensures n + 1 == MAX_CACHED ==> 0 !in AfterOpen(s, n + 1).cached
  {
    assert n + 1 !in s.cached;
  }

  lemma {:induction false} CrowdFillsTheCache(s: State, n: nat)
    requires FilledTo(s, 0) && n < MAX_CACHED
    ensures var s' := Run(s, Crowd(n)); FilledTo(s', n) && s'.signings == s.signings && s'.now == s.now
  {
    if n > 0 {
      CrowdFillsTheCache(s, n - 1);
      var s1 := Run(s, Crowd(n - 1));
      RunInParts(Apply, s, Crowd(n - 1), [Open(n)]);
      assert Run(s1, [Open(n)]) == AfterOpen(s1, n);
      OpeningFills(s1, n - 1);
    }
  }

  /** One identity, then as many others as there is room for, then the first again. */
  function Thrash(): seq<Action> {
    [Open(0), Token(0, 0, true)] + (Crowd(MAX_CACHED - 1) + [Open(MAX_CACHED)])
  }

  lemma ThrashForgets()
    ensures var s := Run(Start(), Thrash()); 0 !in s.cached && s.signings == [Signing(0, 0, 0)] && s.now == 0
  {
    var acts := [Open(0), Token(0, 0, true)];
    var s1 := Apply(Apply(Start(), acts[0]), acts[1]);
    assert acts[1..] == [acts[1]] && acts[1..][1..] == [];
    assert Run(s1, []) == s1;
    assert Run(Apply(Start(), acts[0]), acts[1..]) == Run(s1, []);
    RunInParts(Apply, Start(), acts, Crowd(MAX_CACHED - 1) + [Open(MAX_CACHED)]);
    RunInParts(Apply, s1, Crowd(MAX_CACHED - 1), [Open(MAX_CACHED)]);
    CrowdFillsTheCache(s1, MAX_CACHED - 1);
    var s2 := Run(s1, Crowd(MAX_CACHED - 1));
    OpeningFills(s2, MAX_CACHED - 1);
    assert Run(s2, [Open(MAX_CACHED)]) == AfterOpen(s2, MAX_CACHED);
  }

  /** With one identity too many the first is forgotten, and signs again at once. */
  lemma ForgottenIdentitySignsAtOnce()
    ensures forall n: nat :: NeverExpires(Thrash(), n)
    ensures var s := Run(Start(), Thrash());
            var n := |s.sources|;
            Apply(Apply(s, Open(0)), Token(n, 0, true)).signings == [Signing(0, 0, 0), Signing(n, 0, 0)]
  {
    ThrashForgets();
    CrowdOnlyOpens(MAX_CACHED - 1);
  }

  lemma {:induction false} CrowdOnlyOpens(n: nat)
    ensures forall k :: 0 <= k < |Crowd(n)| ==> Crowd(n)[k].Open?
  {
    if n > 0 {
      CrowdOnlyOpens(n - 1);
    }
  }
}
