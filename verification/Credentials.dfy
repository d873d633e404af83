/**
 * The sending identities of a source: their names, the table they stand in, and choosing one
 * to send with. Registering them and moving a channel's default is in module Defaults.
 */
module Credentials {
  import opened Basics
  import opened Ordering

  const MAX_NAME: nat := 32

  datatype Credential = Credential(source: string, channel: string, name: string, isDefault: bool, isActive: bool)

  type Credentials = map<Id, Credential>

  datatype Listed = Listed(id: Id, c: Credential)

  datatype CredentialError =
    | EmptyName | InvalidName | UnknownName | Inactive | NoCredentials | NoDefault
    | DefaultUnusable | Duplicate | Unavailable

  // --- names -----------------------------------------------------------------

  predicate NameChar(c: char) {
    'a' <= c <= 'z' || '0' <= c <= '9' || c == '-'
  }

  predicate NameIsUsable(name: string) {
    0 < |name| <= MAX_NAME && forall c :: c in name ==> NameChar(c)
  }

  /** Scans the name up to the first character it may not have. */
  method ValidateName(name: string) returns (error: Option<CredentialError>)
    ensures error.None? <==> NameIsUsable(name)
    ensures error.None? <==>
            1 <= |name| <= 32 && forall c :: c in name ==> 'a' <= c <= 'z' || '0' <= c <= '9' || c == '-'
    ensures error == Some(EmptyName) <==> name == ""
  {
    if name == "" {
      return Some(EmptyName);
    }
    if |name| > MAX_NAME {
      return Some(InvalidName);
    }
    for k := 0 to |name|
      invariant forall i :: 0 <= i < k ==> NameChar(name[i])
    {
      if !NameChar(name[k]) {
        assert name[k] in name;
        return Some(InvalidName);
      }
    }
    return None;
  }

  // --- choosing --------------------------------------------------------------

  /** What the lists of one channel are like: one entry per id and per name, and one default. */
  predicate IsChannel(creds: seq<Listed>) {
    && (forall i, j :: 0 <= i < j < |creds| ==> creds[i].id != creds[j].id && creds[i].c.name != creds[j].c.name)
    && (forall i, j :: 0 <= i < j < |creds| ==> !(creds[i].c.isDefault && creds[j].c.isDefault))
  }

  predicate Takes(c: Credential, name: string) {
    if name != "" then c.name == name else c.isDefault && c.isActive
  }

  /** Goes by the name if there is one, and by the two flags otherwise. */
  method Pick(creds: seq<Listed>, name: string) returns (r: Result<Listed, CredentialError>)
    ensures r.Ok? ==> r.value in creds && r.value.c.isActive
    ensures r.Ok? ==> if name != "" then r.value.c.name == name else r.value.c.isDefault
    ensures r == Err(Inactive) ==>
              name != "" && exists k :: 0 <= k < |creds| && creds[k].c.name == name && !creds[k].c.isActive
    ensures r.Err? && r != Err(Inactive) ==>
              forall k :: 0 <= k < |creds| ==>
                if name != "" then creds[k].c.name != name else !(creds[k].c.isDefault && creds[k].c.isActive)
    ensures r == Err(UnknownName) ==> name != ""
    ensures r == Err(NoCredentials) <==> name == "" && creds == []
    ensures r.Err? ==> r.error in {Inactive, UnknownName, NoCredentials, NoDefault}
    ensures r == Err(NoDefault) ==> name == "" && creds != []
    ensures r == PickOf(creds, name)
  {
    if name != "" {
      for k := 0 to |creds|
        invariant forall i :: 0 <= i < k ==> creds[i].c.name != name
        invariant PickOf(creds, name) == PickOf(creds[k..], name)
      {
        assert creds[k..][1..] == creds[k + 1..];
        if creds[k].c.name != name {
          continue;
        }
        if !creds[k].c.isActive {
          return Err(Inactive);
        }
        return Ok(creds[k]);
      }
      return Err(UnknownName);
    }
    for k := 0 to |creds|
      invariant forall i :: 0 <= i < k ==> !(creds[i].c.isDefault && creds[i].c.isActive)
      invariant FirstTaken(creds, "") == FirstTaken(creds[k..], "")
    {
      assert creds[k..][1..] == creds[k + 1..];
      if creds[k].c.isDefault && creds[k].c.isActive {
        return Ok(creds[k]);
      }
    }
    if |creds| == 0 {
      return Err(NoCredentials);
    }
    return Err(NoDefault);
  }

  function FirstTaken(creds: seq<Listed>, name: string): Option<Listed> {
    if creds == [] then None
    else if Takes(creds[0].c, name) then Some(creds[0])
    else FirstTaken(creds[1..], name)
  }

  function PickOf(creds: seq<Listed>, name: string): Result<Listed, CredentialError> {
    match FirstTaken(creds, name)
    case Some(l) => if l.c.isActive then Ok(l) else Err(Inactive)
    case None => if name != "" then Err(UnknownName) else if creds == [] then Err(NoCredentials) else Err(NoDefault)
  }

  lemma {:induction false} FirstTakenIs(creds: seq<Listed>, name: string)
    ensures FirstTaken(creds, name).Some? ==>
              FirstTaken(creds, name).value in creds && Takes(FirstTaken(creds, name).value.c, name)
    ensures FirstTaken(creds, name).None? ==> forall l :: l in creds ==> !Takes(l.c, name)
  {
    if creds != [] {
      FirstTakenIs(creds[1..], name);
    }
  }

  lemma OneIsTaken(creds: seq<Listed>, name: string, a: Listed, b: Listed)
    requires IsChannel(creds) && a in creds && b in creds && Takes(a.c, name) && Takes(b.c, name)
    ensures a == b
  {
    var i :| 0 <= i < |creds| && creds[i] == a;
    var j :| 0 <= j < |creds| && creds[j] == b;
  }

  /** The choice depends on the set and not on the order it is listed in. */
  lemma PickIgnoresOrder(a: seq<Listed>, b: seq<Listed>, name: string)
    requires IsChannel(a) && IsChannel(b) && forall l :: l in a <==> l in b
    ensures PickOf(a, name) == PickOf(b, name)
  {
    FirstTakenIs(a, name);
    FirstTakenIs(b, name);
    var x, y := FirstTaken(a, name), FirstTaken(b, name);
    if x.Some? && y.Some? {
      OneIsTaken(a, name, x.value, y.value);
    }
    assert a != [] ==> a[0] in b;
    assert b != [] ==> b[0] in a;
  }

  datatype Choice = Theirs(l: Listed) | Ours | NoSender(error: CredentialError)

  /** Whose identity a message goes out with. */
  function ChoiceOf(creds: seq<Listed>, name: string): Choice {
    match PickOf(creds, name)
    case Ok(l) => Theirs(l)
    case Err(e) => if name == "" && e == NoCredentials then Ours else NoSender(e)
  }

  // --- the table -------------------------------------------------------------

  predicate OnChannel(c: Credential, source: string, channel: string) {
    c.source == source && c.channel == channel
  }

  predicate SameChannel(a: Credential, b: Credential) {
    a.source == b.source && a.channel == b.channel
  }

  /** The two unique indexes. */
  predicate NamesAreUnique(t: Credentials) {
    forall a, b :: a in t && b in t && SameChannel(t[a], t[b]) && t[a].name == t[b].name ==> a == b
  }

  predicate OneDefault(t: Credentials) {
    forall a, b :: a in t && b in t && SameChannel(t[a], t[b]) && t[a].isDefault && t[b].isDefault ==> a == b
  }

  predicate DefaultsAreActive(t: Credentials) {
    forall a :: a in t && t[a].isDefault ==> t[a].isActive
  }

  predicate TableOk(t: Credentials) {
    NamesAreUnique(t) && OneDefault(t) && DefaultsAreActive(t)
  }

  function RowsOn(t: Credentials, source: string, channel: string): set<Id> {
    set x | x in t && OnChannel(t[x], source, channel)
  }

  function DefaultsOn(t: Credentials, source: string, channel: string): set<Id> {
    set x | x in t && OnChannel(t[x], source, channel) && t[x].isDefault
  }

  function Listing(t: Credentials, ids: seq<Id>): (ls: seq<Listed>)
    requires forall x :: x in ids ==> x in t
    ensures |ls| == |ids| && forall k :: 0 <= k < |ids| ==> ls[k] == Listed(ids[k], t[ids[k]])
  {
    if ids == [] then [] else [Listed(ids[0], t[ids[0]])] + Listing(t, ids[1..])
  }

  /** ListCredentialsBySourceAndChannel, switched-off ones included. */
  function ListOn(t: Credentials, source: string, channel: string): seq<Listed> {
    InOrderLists(false, RowsOn(t, source, channel));
    Listing(t, InOrder(false, RowsOn(t, source, channel)))
  }

  lemma ListOnIs(t: Credentials, source: string, channel: string)
    requires TableOk(t)
    ensures IsChannel(ListOn(t, source, channel))
    ensures forall l :: l in ListOn(t, source, channel) <==> l.id in RowsOn(t, source, channel) && l.c == t[l.id]
  {
    var ids := InOrder(false, RowsOn(t, source, channel));
    var ls := ListOn(t, source, channel);
    InOrderLists(false, RowsOn(t, source, channel));
    forall l: Listed | l.id in RowsOn(t, source, channel) && l.c == t[l.id]
      ensures l in ls
    {
      var k :| 0 <= k < |ids| && ids[k] == l.id;
      assert ls[k] == l;
    }
    forall l | l in ls
      ensures l.id in RowsOn(t, source, channel) && l.c == t[l.id]
    {
      var k :| 0 <= k < |ls| && ls[k] == l;
      assert ids[k] in ids;
    }
    forall i, j | 0 <= i < j < |ls|
      ensures ls[i].id != ls[j].id && ls[i].c.name != ls[j].c.name && !(ls[i].c.isDefault && ls[j].c.isDefault)
    {
      assert ids[i] in ids && ids[j] in ids;
      assert Precedes(false, ids[i], ids[j]);
    }
    forall i | 0 <= i < |ls| && ls[i].c.isDefault
      ensures ls[i].c.isActive
    {
      assert ids[i] in ids;
    }
  }

  /** The one row of a channel that a name, or none, takes. */
  lemma {:induction false} TakenIs(t: Credentials, source: string, channel: string, name: string)
    requires TableOk(t)
    ensures var first := FirstTaken(ListOn(t, source, channel), name);
            && (first.None? ==> forall x :: x in RowsOn(t, source, channel) ==> !Takes(t[x], name))
            && (first.Some? ==> first.value.id in RowsOn(t, source, channel) && first.value.c == t[first.value.id])
            && (first.Some? ==> Takes(first.value.c, name))
            && (first.Some? ==>
                  forall x :: x in RowsOn(t, source, channel) && Takes(t[x], name) ==> x == first.value.id)
    ensures ListOn(t, source, channel) == [] <==> RowsOn(t, source, channel) == {}
  {
    var ls := ListOn(t, source, channel);
    ListOnIs(t, source, channel);
    FirstTakenIs(ls, name);
    var first := FirstTaken(ls, name);
    forall x | x in RowsOn(t, source, channel) && Takes(t[x], name)
      ensures first.Some? && x == first.value.id
    {
      assert Listed(x, t[x]) in ls;
      if first.Some? {
        OneIsTaken(ls, name, first.value, Listed(x, t[x]));
      }
    }
    assert ls != [] ==> ls[0] in ls;
    assert forall x :: x in RowsOn(t, source, channel) ==> Listed(x, t[x]) in ls;
  }

  /** A message that names an identity goes out with that one, if it is active, and with none otherwise. */
  lemma NamedChoiceIs(t: Credentials, source: string, channel: string, name: string)
    requires TableOk(t) && name != ""
    ensures var choice := ChoiceOf(ListOn(t, source, channel), name);
            && !choice.Ours?
            && (choice.Theirs? <==> exists x :: x in RowsOn(t, source, channel) && t[x].name == name && t[x].isActive)
            && (choice.Theirs? ==>
                  && choice.l.id in RowsOn(t, source, channel) && choice.l.c == t[choice.l.id]
                  && choice.l.c.name == name && choice.l.c.isActive)
  {
    TakenIs(t, source, channel, name);
  }

  /**
   * A message that names none goes out with the channel's default; and the service's own
   * identity stands in exactly when nothing at all is registered there.
   */
  lemma UnnamedChoiceIs(t: Credentials, source: string, channel: string)
    requires TableOk(t)
    ensures var choice := ChoiceOf(ListOn(t, source, channel), "");
            && (choice.Ours? <==> RowsOn(t, source, channel) == {})
            && (choice.Theirs? <==> DefaultsOn(t, source, channel) != {})
            && (choice.Theirs? ==> DefaultsOn(t, source, channel) == {choice.l.id})
            && (choice.Theirs? ==> choice.l.c == t[choice.l.id] && choice.l.c.isActive)
  {
    TakenIs(t, source, channel, "");
    var first := FirstTaken(ListOn(t, source, channel), "");
    assert first.Some? ==> first.value.id in DefaultsOn(t, source, channel);
    forall x | x in DefaultsOn(t, source, channel)
      ensures x in RowsOn(t, source, channel) && Takes(t[x], "")
    {
    }
  }
}
