/**
 * Stored secrets: sealed rows, read with a reseal under the current key and rotated at will,
 * by any number of processes at once.
 *
 * Go strings are bytes, so names and secrets are bytes here; a sealed value is text.
 */
module Keeper {
  import opened Basics
  import opened Base64Url
  import opened Cuts
  import opened Keyring
  import Deliveries

  const BAR: Byte := 124

  /** The parts of a credential that a seal is bound to; none of them ever changes. */
  datatype Identity = Identity(source: Bytes, channel: Bytes, id: Bytes)

  function Bind(who: Identity): Bytes {
    who.source + [BAR] + who.channel + [BAR] + who.id
  }

  predicate Bindable(who: Identity) {
    BAR !in who.source && BAR !in who.channel && BAR !in who.id
  }

  /** One binding, one identity: a sealed value can only be bound to the row it was made for. */
  lemma BindIsInjective(a: Identity, b: Identity)
    requires Bindable(a) && Bindable(b) && Bind(a) == Bind(b)
    ensures a == b
  {
    assert Bind(a) == a.source + [BAR] + (a.channel + [BAR] + a.id);
    assert Bind(b) == b.source + [BAR] + (b.channel + [BAR] + b.id);
    CutOnce(BAR, a.source, a.channel + [BAR] + a.id, b.source, b.channel + [BAR] + b.id);
    CutOnce(BAR, a.channel, a.id, b.channel, b.id);
  }

  // --- the rows --------------------------------------------------------------

  /** The columns of a credential that matter here. No secret is the empty text. */
  datatype SecretRow = SecretRow(who: Identity, active: bool, config: Bytes, secret: string)

  type Secrets = map<Bytes, SecretRow>

  predicate IsActive(t: Secrets, id: Bytes) {
    id in t && t[id].active
  }

  function CreateRow(t: Secrets, who: Identity, config: Bytes, sealed: string): Secrets {
    if who.id in t then t else t[who.id := SecretRow(who, true, config, sealed)]
  }

  /** ResealCredentialSecret: only over the value that was read. */
  function ResealRow(t: Secrets, id: Bytes, previous: string, next: string): Secrets {
    if id in t && t[id].secret != "" && t[id].secret == previous then t[id := t[id].(secret := next)] else t
  }

  /** RotateCredentialSecret: over whatever is there, on an active row of that source. */
  function RotateRow(t: Secrets, source: Bytes, id: Bytes, sealed: string): Secrets {
    if IsActive(t, id) && t[id].who.source == source then t[id := t[id].(secret := sealed)] else t
  }

  function SetActiveRow(t: Secrets, id: Bytes, active: bool): Secrets {
    if id in t then t[id := t[id].(active := active)] else t
  }

  /** Sealed, or nothing at all for a secret that is empty. */
  function Sealed(r: Ring, c: Cipher, nonce: Bytes, secret: Bytes, who: Identity): string
    requires r.active in r.keys
  {
    if secret == [] then "" else Seal(r, c, nonce, secret, Bind(who))
  }

  // --- what the rows mean ----------------------------------------------------

  /** The rings of the processes: valid, and each holding whatever key another seals with. */
  ghost predicate Family(rings: seq<Ring>) {
    && AllValid(rings)
    && (forall p, q :: 0 <= p < |rings| && 0 <= q < |rings| ==>
          rings[p].active in rings[q].keys && rings[q].keys[rings[p].active] == rings[p].keys[rings[p].active])
  }

  /** Every process that opens this value for this identity gets this secret. */
  ghost predicate OpensTo(rings: seq<Ring>, c: Cipher, sealed: string, who: Identity, secret: Bytes) {
    if sealed == "" then
      secret == []
    else
      secret != [] && forall p :: 0 <= p < |rings| ==> Open(rings[p], c, sealed, Bind(who)) == Ok(secret)
  }

  /** The sealed store stands for a plain map from id to secret. */
  ghost predicate StandsFor(rings: seq<Ring>, c: Cipher, t: Secrets, plain: map<Bytes, Bytes>) {
    && t.Keys == plain.Keys
    && forall id :: id in t ==> t[id].who.id == id && OpensTo(rings, c, t[id].secret, t[id].who, plain[id])
  }

  predicate NonceFits(c: Cipher, nonce: Bytes) {
    |nonce| == c.nonceSize
  }

  predicate AllValid(rings: seq<Ring>) {
    forall p :: 0 <= p < |rings| ==> Valid(rings[p])
  }

  lemma EmptyNeedsNoReseal(r: Ring)
    ensures !NeedsReseal(r, "")
  {
    assert |Split("")| == 1;
  }

  lemma SealedOpens(rings: seq<Ring>, c: Cipher, p: nat, nonce: Bytes, secret: Bytes, who: Identity)
    requires Lawful(c) && Family(rings) && p < |rings| && |nonce| == c.nonceSize
    ensures OpensTo(rings, c, Sealed(rings[p], c, nonce, secret, who), who, secret)
  {
    if secret != [] {
      var sealed := Seal(rings[p], c, nonce, secret, Bind(who));
      forall q | 0 <= q < |rings|
        ensures Open(rings[q], c, sealed, Bind(who)) == Ok(secret)
      {
        OpensWhereverTheKeyIs(rings[p], rings[q], c, nonce, secret, Bind(who));
      }
    }
  }

  /** Writing a row that opens to the secret is assigning to the plain map. */
  lemma WriteStandsFor(rings: seq<Ring>, c: Cipher, t: Secrets, plain: map<Bytes, Bytes>, row: SecretRow, secret: Bytes)
    requires StandsFor(rings, c, t, plain) && OpensTo(rings, c, row.secret, row.who, secret)
    ensures StandsFor(rings, c, t[row.who.id := row], plain[row.who.id := secret])
  {
  }

  // --- the keeper ------------------------------------------------------------

  datatype KeeperError = NotFound | Duplicate | Unreadable(cause: OpenError) | NoRandomness | Unavailable

  /** What one read hands over: the settings column untouched, and the opened secret. */
  datatype Opened = Opened(config: Bytes, secret: Bytes)

  /** What a read answers: nothing of a row that is missing or off, else what the stored value opens to. */
  function MaterialOf(r: Ring, c: Cipher, t: Secrets, who: Identity): Result<Bytes, KeeperError> {
    if !IsActive(t, who.id) then Err(NotFound)
    else if t[who.id].secret == "" then Ok([])
    else match Open(r, c, t[who.id].secret, Bind(who)) {
      case Err(cause) => Err(Unreadable(cause))
      case Ok(secret) => Ok(secret)
    }
  }

  /** The settings go with the secret, and neither without the other. */
  function WithSettings(t: Secrets, id: Bytes, r: Result<Bytes, KeeperError>): Result<Opened, KeeperError> {
    match r
    case Err(error) => Err(error)
    case Ok(secret) => Ok(Opened(if id in t then t[id].config else [], secret))
  }

  /** The rows once a read has resealed what it opened, if it could. */
  function RowsAfterRead(r: Ring, c: Cipher, t: Secrets, who: Identity, nonce: Option<Bytes>, reached: bool): Secrets
    requires Valid(r)
  {
    var answer := MaterialOf(r, c, t, who);
    if answer.Ok? && NeedsReseal(r, t[who.id].secret) && nonce.Some? && reached then
      ResealRow(t, who.id, t[who.id].secret, Seal(r, c, nonce.value, answer.value, Bind(who)))
    else
      t
  }

  /** A read there hands over these settings and this secret. */
  predicate HandsOver(r: Ring, c: Cipher, t: Secrets, who: Identity, config: Bytes, secret: Bytes) {
    WithSettings(t, who.id, MaterialOf(r, c, t, who)) == Ok(Opened(config, secret))
  }

  lemma ActiveRowHandsOver(rings: seq<Ring>, c: Cipher, t: Secrets, who: Identity, secret: Bytes)
    requires IsActive(t, who.id) && t[who.id].who == who && OpensTo(rings, c, t[who.id].secret, who, secret)
    ensures forall q :: 0 <= q < |rings| ==> HandsOver(rings[q], c, t, who, t[who.id].config, secret)
  {
  }

  /** In a store that stands for a plain map, a read answers what the map holds. */
  lemma MaterialIsWhatStands(rings: seq<Ring>, c: Cipher, p: nat, t: Secrets, plain: map<Bytes, Bytes>, who: Identity)
    requires p < |rings| && StandsFor(rings, c, t, plain) && IsActive(t, who.id) && t[who.id].who == who
    ensures MaterialOf(rings[p], c, t, who) == Ok(plain[who.id])
  {
    assert OpensTo(rings, c, t[who.id].secret, who, plain[who.id]);
  }

  class Store {
    var rows: Secrets

    constructor ()
      ensures rows == map[]
    {
      rows := map[];
    }
  }

  class Keeper {
    const store: Store
    const ring: Ring
    const cipher: Cipher

    constructor (store: Store, ring: Ring, cipher: Cipher)
      ensures this.store == store && this.ring == ring && this.cipher == cipher
    {
      this.store, this.ring, this.cipher := store, ring, cipher;
    }

    /** This keeper is the p-th of a family of processes. */
    ghost predicate Works(rings: seq<Ring>, p: nat) {
      Lawful(cipher) && Family(rings) && p < |rings| && rings[p] == ring
    }

    /** No nonce is a random generator that failed; an empty secret needs none. */
    method SealFor(who: Identity, secret: Bytes, nonce: Option<Bytes>, ghost rings: seq<Ring>, ghost p: nat)
      returns (sealed: Option<string>)
      requires Works(rings, p) && (nonce.Some? ==> NonceFits(cipher, nonce.value))
      ensures sealed.Some? <==> secret == [] || nonce.Some?
      ensures sealed.Some? ==> OpensTo(rings, cipher, sealed.value, who, secret)
    {
      if secret == [] {
        return Some("");
      }
      if nonce.None? {
        return None;
      }
      SealedOpens(rings, cipher, p, nonce.value, secret, who);
      assert Valid(rings[p]);
      return Some(Seal(ring, cipher, nonce.value, secret, Bind(who)));
    }

    /** A new row, with its secret under this keeper's key. */
    method Add(who: Identity, config: Bytes, secret: Bytes, nonce: Option<Bytes>, write: Deliveries.Db,
               ghost rings: seq<Ring>, ghost p: nat, ghost plain: map<Bytes, Bytes>)
      returns (error: Option<KeeperError>)
      requires Works(rings, p) && StandsFor(rings, cipher, store.rows, plain)
      requires nonce.Some? ==> NonceFits(cipher, nonce.value)
      modifies store
      ensures var writes := (secret == [] || nonce.Some?) && who.id !in plain;
              && (error.None? <==> writes && write.Fine?)
              && StandsFor(rings, cipher, store.rows,
                           if writes && write.Applies() then plain[who.id := secret] else plain)
              && (!writes || !write.Applies() ==> store.rows == old(store.rows))
      ensures error.None? ==> IsActive(store.rows, who.id) && store.rows[who.id].who == who
      ensures error.None? ==> store.rows[who.id].config == config
      ensures forall id :: id in store.rows ==> id in old(store.rows) || id == who.id
      ensures forall id :: id in old(store.rows) ==> id in store.rows && store.rows[id] == old(store.rows)[id]
      ensures error.None? ==>
                forall q :: 0 <= q < |rings| ==> HandsOver(rings[q], cipher, store.rows, who, config, secret)
    {
      var sealed := SealFor(who, secret, nonce, rings, p);
      if sealed.None? {
        return Some(NoRandomness);
      }
      if who.id in store.rows {
        return Some(if write.Fine? then Duplicate else Unavailable);
      }
      WriteStandsFor(rings, cipher, store.rows, plain, SecretRow(who, true, config, sealed.value), secret);
      if write.Applies() {
        store.rows := CreateRow(store.rows, who, config, sealed.value);
        ActiveRowHandsOver(rings, cipher, store.rows, who, secret);
      }
      return if write.Fine? then None else Some(Unavailable);
    }

    /** Another secret in the row of an identity the caller has read. */
    method Replace(who: Identity, secret: Bytes, nonce: Option<Bytes>, write: Deliveries.Db,
                   ghost rings: seq<Ring>, ghost p: nat, ghost plain: map<Bytes, Bytes>)
      returns (error: Option<KeeperError>)
      requires Works(rings, p) && StandsFor(rings, cipher, store.rows, plain)
      requires who.id in store.rows ==> store.rows[who.id].who == who
      requires nonce.Some? ==> NonceFits(cipher, nonce.value)
      modifies store
      ensures var writes := (secret == [] || nonce.Some?) && IsActive(old(store.rows), who.id);
              && (error.None? <==> writes && write.Fine?)
              && StandsFor(rings, cipher, store.rows,
                           if writes && write.Applies() then plain[who.id := secret] else plain)
              && (!writes || !write.Applies() ==> store.rows == old(store.rows))
      ensures store.rows.Keys == old(store.rows).Keys
      ensures forall id :: id in store.rows && id != who.id ==> store.rows[id] == old(store.rows)[id]
      ensures who.id in store.rows ==>
                store.rows[who.id] == old(store.rows)[who.id].(secret := store.rows[who.id].secret)
      ensures error.None? ==>
                who.id in old(store.rows)
                && forall q :: 0 <= q < |rings| ==>
                     HandsOver(rings[q], cipher, store.rows, who, old(store.rows)[who.id].config, secret)
    {
      var sealed := SealFor(who, secret, nonce, rings, p);
      if sealed.None? {
        return Some(NoRandomness);
      }
      if !IsActive(store.rows, who.id) || store.rows[who.id].who.source != who.source {
        return Some(if write.Fine? then NotFound else Unavailable);
      }
      WriteStandsFor(rings, cipher, store.rows, plain, store.rows[who.id].(secret := sealed.value), secret);
      if write.Applies() {
        store.rows := RotateRow(store.rows, who.source, who.id, sealed.value);
        ActiveRowHandsOver(rings, cipher, store.rows, who, secret);
      }
      return if write.Fine? then None else Some(Unavailable);
    }

    /** Best effort: without a nonce, or when the store is not reached, the value stays as it was. */
    method Reseal(who: Identity, sealed: string, plain: Bytes, nonce: Option<Bytes>, reached: bool)
      requires Lawful(cipher) && Valid(ring) && (nonce.Some? ==> NonceFits(cipher, nonce.value))
      modifies store
      ensures var next := if nonce.Some? then Seal(ring, cipher, nonce.value, plain, Bind(who)) else sealed;
              store.rows == if NeedsReseal(ring, sealed) && nonce.Some? && reached
                            then ResealRow(old(store.rows), who.id, sealed, next)
                            else old(store.rows)
    {
      if !NeedsReseal(ring, sealed) || nonce.None? {
        return;
      }
      var next := Seal(ring, cipher, nonce.value, plain, Bind(who));
      if reached {
        store.rows := ResealRow(store.rows, who.id, sealed, next);
      }
    }

    /**
     * Hands over what one send needs. What was read is afterwards under the current key,
     * unless drawing a nonce or reaching the store failed, which fails nothing else; and no
     * other row moves, nor anything of this one but its sealed value.
     */
    method Material(who: Identity, nonce: Option<Bytes>, read: Deliveries.Db, reached: bool)
      returns (r: Result<Opened, KeeperError>)
      requires Lawful(cipher) && Valid(ring) && (nonce.Some? ==> NonceFits(cipher, nonce.value))
      modifies store
      ensures read.Fault? ==> r == Err(Unavailable) && store.rows == old(store.rows)
      ensures read.Fine? ==>
                && r == WithSettings(old(store.rows), who.id, MaterialOf(ring, cipher, old(store.rows), who))
                && store.rows == RowsAfterRead(ring, cipher, old(store.rows), who, nonce, reached)
                && MaterialOf(ring, cipher, store.rows, who) == MaterialOf(ring, cipher, old(store.rows), who)
      ensures read.Fine? && (who.id in old(store.rows) ==> !old(store.rows)[who.id].active) ==> r == Err(NotFound)
      ensures read.Fine? && who.id in old(store.rows) && old(store.rows)[who.id].active ==>
                var row := old(store.rows)[who.id];
                if row.secret == "" then r == Ok(Opened(row.config, []))
                else match Open(ring, cipher, row.secret, Bind(who)) {
                  case Ok(secret) => r == Ok(Opened(row.config, secret))
                  case Err(cause) => r == Err(Unreadable(cause))
                }
      ensures r.Ok? && nonce.Some? && reached ==> !NeedsReseal(ring, store.rows[who.id].secret)
      ensures store.rows.Keys == old(store.rows).Keys
      ensures forall id :: id in store.rows && id != who.id ==> store.rows[id] == old(store.rows)[id]
      ensures who.id in store.rows ==>
                store.rows[who.id] == old(store.rows)[who.id].(secret := store.rows[who.id].secret)
    {
      if read.Fault? {
        return Err(Unavailable);
      }
      if !IsActive(store.rows, who.id) {
        return Err(NotFound);
      }
      var config, sealed := store.rows[who.id].config, store.rows[who.id].secret;
      if sealed == "" {
        EmptyNeedsNoReseal(ring);
        return Ok(Opened(config, []));
      }
      var plain := Open(ring, cipher, sealed, Bind(who));
      if plain.Err? {
        return Err(Unreadable(plain.error));
      }
      if nonce.Some? {
        OpensWhereverTheKeyIs(ring, ring, cipher, nonce.value, plain.value, Bind(who));
      }
      Reseal(who, sealed, plain.value, nonce, reached);
      return Ok(Opened(config, plain.value));
    }
  }

  // --- every interleaving ----------------------------------------------------

  /** A read in progress, with what the store stood for when it read the row. */
  datatype Reader =
    | HasSealed(process: nat, who: Identity, sealed: string, stoodFor: Bytes)
    | Resealing(who: Identity, previous: string, next: string, secret: Bytes, stoodFor: Bytes)
    | Answered(answer: Result<Bytes, KeeperError>, stoodFor: Bytes)

  datatype State = State(rows: Secrets, plain: map<Bytes, Bytes>, readers: map<nat, Reader>)

  datatype Action =
    | Add(process: nat, who: Identity, config: Bytes, secret: Bytes, nonce: Bytes)
    | Rotate(process: nat, who: Identity, secret: Bytes, nonce: Bytes)
    | SetActive(id: Bytes, active: bool)
    | Read(reader: nat, process: nat, who: Identity)
    | OpenRead(reader: nat, drawn: Option<Bytes>)
    | StoreResealed(reader: nat, reached: bool)

  function AfterOpen(rings: seq<Ring>, c: Cipher, r: Reader, nonce: Option<Bytes>): Reader
    requires r.HasSealed? && r.process < |rings| && rings[r.process].active in rings[r.process].keys
  {
    var ring := rings[r.process];
    match Open(ring, c, r.sealed, Bind(r.who))
    case Err(cause) => Answered(Err(Unreadable(cause)), r.stoodFor)
    case Ok(secret) =>
      if NeedsReseal(ring, r.sealed) && nonce.Some? then
        Resealing(r.who, r.sealed, Seal(ring, c, nonce.value, secret, Bind(r.who)), secret, r.stoodFor)
      else
        Answered(Ok(secret), r.stoodFor)
  }

  /** An action that is not enabled changes nothing. The plain map moves with Add and Rotate alone. */
  function Apply(rings: seq<Ring>, c: Cipher, s: State, a: Action): State
    requires AllValid(rings)
  {
    match a
    case Add(p, who, config, secret, nonce) =>
      if p < |rings| && NonceFits(c, nonce) && who.id !in s.rows then
        assert Valid(rings[p]);
        s.(rows := CreateRow(s.rows, who, config, Sealed(rings[p], c, nonce, secret, who)),
           plain := s.plain[who.id := secret])
      else
        s
    case Rotate(p, who, secret, nonce) =>
      if p < |rings| && NonceFits(c, nonce) && IsActive(s.rows, who.id) && s.rows[who.id].who == who then
        assert Valid(rings[p]);
        s.(rows := RotateRow(s.rows, who.source, who.id, Sealed(rings[p], c, nonce, secret, who)),
           plain := s.plain[who.id := secret])
      else
        s
    case SetActive(id, active) => s.(rows := SetActiveRow(s.rows, id, active))
    case Read(r, p, who) =>
      if r !in s.readers && p < |rings| && IsActive(s.rows, who.id) && s.rows[who.id].who == who
         && who.id in s.plain then
        var sealed := s.rows[who.id].secret;
        var stoodFor := s.plain[who.id];
        var reader := if sealed == "" then Answered(Ok([]), stoodFor) else HasSealed(p, who, sealed, stoodFor);
        s.(readers := s.readers[r := reader])
      else
        s
    case OpenRead(r, nonce) =>
      if r in s.readers && s.readers[r].HasSealed? && s.readers[r].process < |rings|
         && (nonce.Some? ==> NonceFits(c, nonce.value)) then
        assert Valid(rings[s.readers[r].process]);
        s.(readers := s.readers[r := AfterOpen(rings, c, s.readers[r], nonce)])
      else
        s
    case StoreResealed(r, reached) =>
      if r in s.readers && s.readers[r].Resealing? then
        var x := s.readers[r];
        s.(rows := if reached then ResealRow(s.rows, x.who.id, x.previous, x.next) else s.rows,
           readers := s.readers[r := Answered(Ok(x.secret), x.stoodFor)])
      else
        s
  }

  function Run(rings: seq<Ring>, c: Cipher, s: State, acts: seq<Action>): State
    requires AllValid(rings)
    decreases |acts|
  {
    if acts == [] then s else Run(rings, c, Apply(rings, c, s, acts[0]), acts[1..])
  }

  /** A keeper that reads with nobody else about is one run of this machine, with the same answer and rows. */
  lemma {:induction false} ReadAloneIsARun(rings: seq<Ring>, c: Cipher, s: State, p: nat, r: nat, who: Identity,
                                           nonce: Option<Bytes>, reached: bool)
    requires AllValid(rings) && p < |rings| && r !in s.readers && (nonce.Some? ==> NonceFits(c, nonce.value))
    requires IsActive(s.rows, who.id) && s.rows[who.id].who == who && who.id in s.plain
    ensures var s' := Run(rings, c, s, [Read(r, p, who), OpenRead(r, nonce), StoreResealed(r, reached)]);
            && s'.rows == RowsAfterRead(rings[p], c, s.rows, who, nonce, reached)
            && r in s'.readers
            && s'.readers[r] == Answered(MaterialOf(rings[p], c, s.rows, who), s.plain[who.id])
  {
    assert Valid(rings[p]);
    EmptyNeedsNoReseal(rings[p]);
    var acts := [Read(r, p, who), OpenRead(r, nonce), StoreResealed(r, reached)];
    var s1 := Apply(rings, c, s, acts[0]);
    var s2 := Apply(rings, c, s1, acts[1]);
    assert acts[1..] == [acts[1], acts[2]] && acts[1..][1..] == [acts[2]];
    assert Run(rings, c, s2, [acts[2]]) == Apply(rings, c, s2, acts[2]);
    assert Run(rings, c, s1, acts[1..]) == Run(rings, c, s2, [acts[2]]);
  }

  predicate KnowsIdentity(s: State, who: Identity) {
    who.id in s.rows && s.rows[who.id].who == who
  }

  ghost predicate ReaderInv(rings: seq<Ring>, c: Cipher, s: State, r: Reader) {
    match r
    case HasSealed(p, who, sealed, stoodFor) =>
      p < |rings| && sealed != "" && KnowsIdentity(s, who) && OpensTo(rings, c, sealed, who, stoodFor)
    case Resealing(who, previous, next, secret, stoodFor) =>
      && previous != "" && next != "" && secret == stoodFor && KnowsIdentity(s, who)
      && OpensTo(rings, c, previous, who, secret) && OpensTo(rings, c, next, who, secret)
    case Answered(answer, stoodFor) => answer == Ok(stoodFor)
  }

  ghost predicate ReadersInv(rings: seq<Ring>, c: Cipher, s: State) {
    forall r :: r in s.readers ==> ReaderInv(rings, c, s, s.readers[r])
  }

  ghost predicate Inv(rings: seq<Ring>, c: Cipher, s: State) {
    StandsFor(rings, c, s.rows, s.plain) && ReadersInv(rings, c, s)
  }

  /** Nobody's identity changes, so readers keep what they know whatever happens to the rows. */
  lemma ReadersStay(rings: seq<Ring>, c: Cipher, s: State, s': State)
    requires ReadersInv(rings, c, s)
    requires forall id :: id in s.rows ==> id in s'.rows && s'.rows[id].who == s.rows[id].who
    requires forall r :: r in s'.readers ==>
               (r in s.readers && s'.readers[r] == s.readers[r]) || ReaderInv(rings, c, s', s'.readers[r])
    ensures ReadersInv(rings, c, s')
  {
    forall r | r in s'.readers && r in s.readers && s'.readers[r] == s.readers[r]
      ensures ReaderInv(rings, c, s', s'.readers[r])
    {
      assert ReaderInv(rings, c, s, s.readers[r]);
    }
  }

  /** The store stands for the same secrets after a reseal: it wrote over the very value it had opened. */
  lemma ResealStandsForTheSame(rings: seq<Ring>, c: Cipher, s: State, r: Reader)
    requires StandsFor(rings, c, s.rows, s.plain) && |rings| > 0
    requires r.Resealing? && ReaderInv(rings, c, s, r)
    ensures StandsFor(rings, c, ResealRow(s.rows, r.who.id, r.previous, r.next), s.plain)
  {
    var id := r.who.id;
    if s.rows[id].secret == r.previous {
      assert Open(rings[0], c, r.previous, Bind(r.who)) == Ok(r.secret);
      assert Open(rings[0], c, r.previous, Bind(s.rows[id].who)) == Ok(s.plain[id]);
    }
  }

  lemma SealIsNotEmpty(r: Ring, c: Cipher, nonce: Bytes, plain: Bytes, aad: Bytes)
    requires r.active in r.keys
    ensures Seal(r, c, nonce, plain, aad) != ""
  {
  }

  lemma OpenKeepsReader(rings: seq<Ring>, c: Cipher, s: State, r: Reader, nonce: Option<Bytes>)
    requires Lawful(c) && Family(rings) && r.HasSealed? && ReaderInv(rings, c, s, r)
    requires nonce.Some? ==> NonceFits(c, nonce.value)
    ensures ReaderInv(rings, c, s, AfterOpen(rings, c, r, nonce))
  {
    var ring := rings[r.process];
    assert Open(ring, c, r.sealed, Bind(r.who)) == Ok(r.stoodFor);
    if NeedsReseal(ring, r.sealed) && nonce.Some? {
      SealIsNotEmpty(ring, c, nonce.value, r.stoodFor, Bind(r.who));
      SealedOpens(rings, c, r.process, nonce.value, r.stoodFor, r.who);
    }
  }

  lemma WriteKeepsInv(rings: seq<Ring>, c: Cipher, s: State, a: Action)
    requires Lawful(c) && Family(rings) && Inv(rings, c, s)
    requires a.Add? || a.Rotate? || a.SetActive?
    ensures Inv(rings, c, Apply(rings, c, s, a))
  {
    var s' := Apply(rings, c, s, a);
    if !a.SetActive? {
      WriteKeepsStanding(rings, c, s, a);
    }
    ReadersStay(rings, c, s, s');
  }

  lemma WriteKeepsStanding(rings: seq<Ring>, c: Cipher, s: State, a: Action)
    requires Lawful(c) && Family(rings) && StandsFor(rings, c, s.rows, s.plain) && (a.Add? || a.Rotate?)
    ensures var s' := Apply(rings, c, s, a); StandsFor(rings, c, s'.rows, s'.plain)
  {
    if a.process < |rings| && NonceFits(c, a.nonce) {
      SealedOpens(rings, c, a.process, a.nonce, a.secret, a.who);
    }
  }

  lemma ReadKeepsInv(rings: seq<Ring>, c: Cipher, s: State, a: Action)
    requires Lawful(c) && Family(rings) && Inv(rings, c, s)
    requires a.Read? || a.OpenRead?
    ensures Inv(rings, c, Apply(rings, c, s, a))
  {
    var s' := Apply(rings, c, s, a);
    if s' != s {
      if a.OpenRead? {
        OpenKeepsReader(rings, c, s, s.readers[a.reader], a.drawn);
      }
      assert ReaderInv(rings, c, s', s'.readers[a.reader]);
      ReadersStay(rings, c, s, s');
    }
  }

  lemma ResealKeepsInv(rings: seq<Ring>, c: Cipher, s: State, a: Action)
    requires Lawful(c) && Family(rings) && |rings| > 0 && Inv(rings, c, s) && a.StoreResealed?
    ensures Inv(rings, c, Apply(rings, c, s, a))
  {
    var s' := Apply(rings, c, s, a);
    if a.reader in s.readers && s.readers[a.reader].Resealing? {
      ResealStandsForTheSame(rings, c, s, s.readers[a.reader]);
      assert ReaderInv(rings, c, s', s'.readers[a.reader]);
      ReadersStay(rings, c, s, s');
    }
  }

  lemma {:induction false} RunKeepsInv(rings: seq<Ring>, c: Cipher, s: State, acts: seq<Action>)
    requires Lawful(c) && Family(rings) && |rings| > 0 && Inv(rings, c, s)
    ensures Inv(rings, c, Run(rings, c, s, acts))
    decreases |acts|
  {
    if acts != [] {
      var a := acts[0];
      if a.StoreResealed? {
        ResealKeepsInv(rings, c, s, a);
      } else if a.Read? || a.OpenRead? {
        ReadKeepsInv(rings, c, s, a);
      } else {
        WriteKeepsInv(rings, c, s, a);
      }
      RunKeepsInv(rings, c, Apply(rings, c, s, a), acts[1..]);
    }
  }

  /**
   * What one action does to the columns: an identity and its settings stay as they were added,
   * it is switched by SetActive alone, and its sealed value moves only in a rotation or a
   * reseal of that very row.
   */
  lemma ActionMovesOnly(rings: seq<Ring>, c: Cipher, s: State, a: Action, id: Bytes)
    requires AllValid(rings)
    ensures var s' := Apply(rings, c, s, a);
            && (id in s.rows ==>
                  && id in s'.rows && s'.rows[id].who == s.rows[id].who && s'.rows[id].config == s.rows[id].config
                  && s'.rows[id].active == (if a.SetActive? && a.id == id then a.active else s.rows[id].active)
                  && (s'.rows[id].secret != s.rows[id].secret ==>
                        || (a.Rotate? && a.who.id == id && s.rows[id].active)
                        || (a.StoreResealed? && a.reader in s.readers && s.readers[a.reader].Resealing?
                            && s.readers[a.reader].who.id == id && s.readers[a.reader].previous == s.rows[id].secret)))
            && (id !in s.rows && id in s'.rows ==>
                  a.Add? && a.who.id == id && s'.rows[id].who == a.who && s'.rows[id].config == a.config
                  && s'.rows[id].active)
  {
  }

  /** What the last switch of this id said, if there was one. */
  function LastSwitch(acts: seq<Action>, id: Bytes): Option<bool> {
    if acts == [] then None
    else
      var last := acts[|acts| - 1];
      if last.SetActive? && last.id == id then Some(last.active) else LastSwitch(acts[..|acts| - 1], id)
  }

  lemma {:induction false} FirstSwitch(a: Action, acts: seq<Action>, id: Bytes)
    ensures LastSwitch([a] + acts, id) ==
            if LastSwitch(acts, id).Some? then LastSwitch(acts, id)
            else if a.SetActive? && a.id == id then Some(a.active) else None
    decreases |acts|
  {
    if acts == [] {
      assert [a] + [] == [a] && [a][..0] == [];
    } else {
      assert ([a] + acts)[..|acts|] == [a] + acts[..|acts| - 1];
      FirstSwitch(a, acts[..|acts| - 1], id);
    }
  }

  /** Through any run: the same identity, the same settings, and switched as the last switch of it said. */
  lemma {:induction false} RunMovesOnly(rings: seq<Ring>, c: Cipher, s: State, acts: seq<Action>, id: Bytes)
    requires AllValid(rings) && id in s.rows
    ensures var s' := Run(rings, c, s, acts);
            && id in s'.rows && s'.rows[id].who == s.rows[id].who && s'.rows[id].config == s.rows[id].config
            && s'.rows[id].active == match LastSwitch(acts, id) { case Some(b) => b case None => s.rows[id].active }
    decreases |acts|
  {
    if acts != [] {
      ActionMovesOnly(rings, c, s, acts[0], id);
      RunMovesOnly(rings, c, Apply(rings, c, s, acts[0]), acts[1..], id);
      FirstSwitch(acts[0], acts[1..], id);
      assert acts == [acts[0]] + acts[1..];
    }
  }

  function Start(): State {
    State(map[], map[], map[])
  }

  /**
   * After any interleaving of reads that reseal, rotations and switches by any processes, the
   * row opens, in every process, to the last secret added or replaced; and every read that
   * has answered gave the secret that stood when it read the row.
   */
  lemma {:induction false} StoreIsAPlainMap(rings: seq<Ring>, c: Cipher, acts: seq<Action>)
    requires Lawful(c) && Family(rings) && |rings| > 0
    ensures var s := Run(rings, c, Start(), acts);
            && StandsFor(rings, c, s.rows, s.plain)
            && forall r :: r in s.readers && s.readers[r].Answered? ==> s.readers[r].answer == Ok(s.readers[r].stoodFor)
  {
    RunKeepsInv(rings, c, Start(), acts);
    var s := Run(rings, c, Start(), acts);
    assert forall r :: r in s.readers ==> ReaderInv(rings, c, s, s.readers[r]);
  }

  /** The action writes a secret of this id. */
  predicate WritesSecretOf(a: Action, id: Bytes) {
    (a.Add? || a.Rotate?) && a.who.id == id
  }

  lemma {:induction false} PlainStays(rings: seq<Ring>, c: Cipher, s: State, acts: seq<Action>, id: Bytes)
    requires AllValid(rings) && forall i :: 0 <= i < |acts| ==> !WritesSecretOf(acts[i], id)
    ensures id in s.plain <==> id in Run(rings, c, s, acts).plain
    ensures id in s.plain ==> Run(rings, c, s, acts).plain[id] == s.plain[id]
    decreases |acts|
  {
    if acts != [] {
      PlainStays(rings, c, Apply(rings, c, s, acts[0]), acts[1..], id);
    }
  }

  /** An Add that finds the id free, or a Rotate that finds the identity active. */
  predicate TakesEffect(rings: seq<Ring>, c: Cipher, s: State, a: Action) {
    && (a.Add? || a.Rotate?) && a.process < |rings| && NonceFits(c, a.nonce)
    && if a.Add? then a.who.id !in s.rows else IsActive(s.rows, a.who.id) && s.rows[a.who.id].who == a.who
  }

  /**
   * The last write wins: in any run, however many reads were under way and whatever they
   * reseal afterwards, the row opens in every process to the secret that was last added or
   * rotated in.
   */
  lemma {:induction false} LastRotationStands(rings: seq<Ring>, c: Cipher, before: seq<Action>, a: Action,
                                              after: seq<Action>)
    requires Lawful(c) && Family(rings) && |rings| > 0 && TakesEffect(rings, c, Run(rings, c, Start(), before), a)
    requires forall i :: 0 <= i < |after| ==> !WritesSecretOf(after[i], a.who.id)
    ensures var s := Run(rings, c, Apply(rings, c, Run(rings, c, Start(), before), a), after);
            a.who.id in s.rows && OpensTo(rings, c, s.rows[a.who.id].secret, s.rows[a.who.id].who, a.secret)
  {
    RunKeepsInv(rings, c, Start(), before);
    var s := Run(rings, c, Start(), before);
    var s' := Apply(rings, c, s, a);
    WriteKeepsInv(rings, c, s, a);
    RunKeepsInv(rings, c, s', after);
    PlainStays(rings, c, s', after, a.who.id);
  }
}
