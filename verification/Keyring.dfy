/**
 * Values sealed under one of several keys. A sealed value says which key sealed it:
 * version, key id, nonce and ciphertext, joined by dots.
 *
 * The cipher itself is a parameter: all that is asked of it is that what it seals under a
 * key, a nonce and some bound data, it opens again under the same three.
 */
module Keyring {
  import opened Basics
  import opened Base64Url

  const KEY_SIZE: nat := 32
  const VERSION: string := "v1"
  const SEPARATOR: char := '.'
  const FIELDS: nat := 4

  type Key = Bytes

  datatype Cipher = Cipher(
    nonceSize: nat,
    seal: (Key, Bytes, Bytes, Bytes) -> Bytes,
    open: (Key, Bytes, Bytes, Bytes) -> Option<Bytes>)

  ghost predicate Lawful(c: Cipher) {
    forall key, nonce, plain, aad :: |nonce| == c.nonceSize ==>
      c.open(key, nonce, c.seal(key, nonce, plain, aad), aad) == Some(plain)
  }

  // --- joining and splitting -------------------------------------------------

  predicate HasNo(s: string, c: char) {
    forall i :: 0 <= i < |s| ==> s[i] != c
  }

  function Join(parts: seq<string>): string
    requires parts != []
  {
    if |parts| == 1 then parts[0] else parts[0] + [SEPARATOR] + Join(parts[1..])
  }

  /** Always at least one part; a separator always ends one and begins another. */
  function Split(s: string): (parts: seq<string>)
    ensures parts != []
  {
    if s == [] then [[]]
    else
      var rest := Split(s[1..]);
      if s[0] == SEPARATOR then [[]] + rest else [[s[0]] + rest[0]] + rest[1..]
  }

  lemma {:induction false} SplitAfter(head: string, tail: string)
    requires HasNo(head, SEPARATOR)
    ensures Split(head + [SEPARATOR] + tail) == [head] + Split(tail)
  {
    var s := head + [SEPARATOR] + tail;
    if head == [] {
      assert s[1..] == tail;
    } else {
      assert s[1..] == head[1..] + [SEPARATOR] + tail;
      SplitAfter(head[1..], tail);
      assert [head[0]] + head[1..] == head;
    }
  }

  lemma {:induction false} SplitWhole(s: string)
    requires HasNo(s, SEPARATOR)
    ensures Split(s) == [s]
  {
    if s != [] {
      SplitWhole(s[1..]);
      assert [s[0]] + s[1..] == s;
    }
  }

  /** Fields without a separator come back as they were joined. */
  lemma {:induction false} SplitUndoesJoin(parts: seq<string>)
    requires parts != [] && forall i :: 0 <= i < |parts| ==> HasNo(parts[i], SEPARATOR)
    ensures Split(Join(parts)) == parts
  {
    if |parts| == 1 {
      SplitWhole(parts[0]);
    } else {
      SplitUndoesJoin(parts[1..]);
      SplitAfter(parts[0], Join(parts[1..]));
    }
  }

  // --- the keyring -----------------------------------------------------------

  datatype Ring = Ring(keys: map<string, Key>, active: string)

  predicate UsableId(id: string) {
    id != "" && HasNo(id, SEPARATOR)
  }

  /** What NewKeyring lets through. */
  predicate Valid(r: Ring) {
    && r.active in r.keys
    && forall id :: id in r.keys ==> UsableId(id) && |r.keys[id]| == KEY_SIZE
  }

  datatype RingError = NoKeys | KeyId | KeySize | NoActiveKey

  /** Every key is checked up front; which of two bad keys is named depends on the map's order. */
  method NewKeyring(keys: map<string, Key>, activeId: string) returns (r: Result<Ring, RingError>)
    ensures r.Ok? <==> Valid(Ring(keys, activeId))
    ensures r.Ok? ==> r.value == Ring(keys, activeId)
    ensures r == Err(NoKeys) <==> keys == map[]
    ensures r == Err(KeyId) ==> exists id :: id in keys && !UsableId(id)
    ensures r == Err(KeySize) ==> exists id :: id in keys && UsableId(id) && |keys[id]| != KEY_SIZE
    ensures r == Err(NoActiveKey) ==>
              activeId !in keys && forall id :: id in keys ==> UsableId(id) && |keys[id]| == KEY_SIZE
  {
    if |keys| == 0 {
      return Err(NoKeys);
    }
    var ring: map<string, Key> := map[];
    var todo := keys.Keys;
    while todo != {}
      invariant todo <= keys.Keys
      invariant ring == map id | id in keys && id !in todo :: keys[id]
      invariant forall id :: id in ring ==> UsableId(id) && |ring[id]| == KEY_SIZE
      decreases todo
    {
      var id :| id in todo;
      if id == "" || SEPARATOR in id {
        return Err(KeyId);
      }
      if |keys[id]| != KEY_SIZE {
        return Err(KeySize);
      }
      ring := ring[id := keys[id]];
      todo := todo - {id};
    }
    assert ring == keys;
    if activeId !in ring {
      return Err(NoActiveKey);
    }
    return Ok(Ring(ring, activeId));
  }

  /** The value to store. The nonce is drawn afresh by the caller. */
  function Seal(r: Ring, c: Cipher, nonce: Bytes, plain: Bytes, aad: Bytes): string
    requires r.active in r.keys
  {
    Join([VERSION, r.active, Encode(nonce), Encode(c.seal(r.keys[r.active], nonce, plain, aad))])
  }

  datatype OpenError = Malformed | OldVersion | UnknownKey | CannotOpen

  datatype Parts = Parts(version: string, id: string, nonce: Bytes, ciphertext: Bytes)

  function SplitValue(value: string): Result<Parts, OpenError> {
    var parts := Split(value);
    if |parts| != FIELDS then
      Err(Malformed)
    else
      var nonce, ciphertext := Decode(parts[2]), Decode(parts[3]);
      if nonce.None? || ciphertext.None? then
        Err(Malformed)
      else
        Ok(Parts(parts[0], parts[1], nonce.value, ciphertext.value))
  }

  /** Opens a value under the key whose id stands in it. */
  function Open(r: Ring, c: Cipher, value: string, aad: Bytes): Result<Bytes, OpenError> {
    match SplitValue(value)
    case Err(error) => Err(error)
    case Ok(parts) =>
      if parts.version != VERSION then Err(OldVersion)
      else if parts.id !in r.keys then Err(UnknownKey)
      else if |parts.nonce| != c.nonceSize then Err(Malformed)
      else match c.open(r.keys[parts.id], parts.nonce, parts.ciphertext, aad) {
        case None => Err(CannotOpen)
        case Some(plain) => Ok(plain)
      }
  }

  predicate NeedsReseal(r: Ring, value: string) {
    match SplitValue(value)
    case Err(_) => false
    case Ok(parts) => parts.id != r.active
  }

  lemma LettersAreNotDots(s: string)
    requires forall i :: 0 <= i < |s| ==> IsLetter(s[i])
    ensures HasNo(s, SEPARATOR)
  {
    assert Value(SEPARATOR).None?;
  }

  /** A sealed value is read back as exactly the four fields it was printed from. */
  lemma SealedIsReadBack(r: Ring, c: Cipher, nonce: Bytes, plain: Bytes, aad: Bytes)
    requires Valid(r)
    ensures SplitValue(Seal(r, c, nonce, plain, aad)) ==
            Ok(Parts(VERSION, r.active, nonce, c.seal(r.keys[r.active], nonce, plain, aad)))
  {
    var ciphertext := c.seal(r.keys[r.active], nonce, plain, aad);
    EncodedIsLetters(nonce);
    EncodedIsLetters(ciphertext);
    LettersAreNotDots(Encode(nonce));
    LettersAreNotDots(Encode(ciphertext));
    SplitUndoesJoin([VERSION, r.active, Encode(nonce), Encode(ciphertext)]);
    RoundTrip(nonce);
    RoundTrip(ciphertext);
  }

  /**
   * Sealed by one ring, a value opens to its plaintext in any ring that still holds the key,
   * whichever key is active there; in a ring without the key it is refused by name; and it
   * needs resealing exactly where another key is the active one -- so never where it was sealed.
   */
  lemma OpensWhereverTheKeyIs(r: Ring, reader: Ring, c: Cipher, nonce: Bytes, plain: Bytes, aad: Bytes)
    requires Lawful(c) && Valid(r) && |nonce| == c.nonceSize
    requires r.active in reader.keys ==> reader.keys[r.active] == r.keys[r.active]
    ensures var value := Seal(r, c, nonce, plain, aad);
            && Open(reader, c, value, aad) == (if r.active in reader.keys then Ok(plain) else Err(UnknownKey))
            && (NeedsReseal(reader, value) <==> reader.active != r.active)
  {
    SealedIsReadBack(r, c, nonce, plain, aad);
  }

  // --- the text of a value ---------------------------------------------------

  lemma JoinOfFour(a: string, b: string, x: string, y: string)
    ensures Join([a, b, x, y]) == a + "." + b + "." + x + "." + y
  {
    var parts := [a, b, x, y];
    assert parts[1..] == [b, x, y] && [b, x, y][1..] == [x, y] && [x, y][1..] == [y];
    assert Join([x, y]) == x + "." + y;
    assert Join([b, x, y]) == b + "." + (x + "." + y);
  }

  /** A value is stored as version, key id, nonce and ciphertext, in that order, with dots in between. */
  lemma {:induction false} SealedText(r: Ring, c: Cipher, nonce: Bytes, plain: Bytes, aad: Bytes)
    requires r.active in r.keys
    ensures Seal(r, c, nonce, plain, aad) ==
            "v1" + "." + r.active + "." + Encode(nonce) + "." + Encode(c.seal(r.keys[r.active], nonce, plain, aad))
  {
    JoinOfFour(VERSION, r.active, Encode(nonce), Encode(c.seal(r.keys[r.active], nonce, plain, aad)));
  }

  /**
   * Of any four fields, whoever wrote them: opened if and only if the version is this one, the
   * key is in the ring, both last fields decode, the nonce has its size, and the cipher opens
   * them; and which refusal it is otherwise.
   */
  lemma OpensExactlyWhen(r: Ring, c: Cipher, version: string, id: string, n: string, ct: string, aad: Bytes)
    requires HasNo(version, '.') && HasNo(id, '.') && HasNo(n, '.') && HasNo(ct, '.')
    ensures var got := Open(r, c, version + "." + id + "." + n + "." + ct, aad);
            if Decode(n).None? || Decode(ct).None? then got == Err(Malformed)
            else if version != "v1" then got == Err(OldVersion)
            else if id !in r.keys then got == Err(UnknownKey)
            else if |Decode(n).value| != c.nonceSize then got == Err(Malformed)
            else
              var plain := c.open(r.keys[id], Decode(n).value, Decode(ct).value, aad);
              got == if plain.Some? then Ok(plain.value) else Err(CannotOpen)
  {
    JoinOfFour(version, id, n, ct);
    SplitUndoesJoin([version, id, n, ct]);
  }
}
