/** Vocabulary shared by every module of the model. */
module Basics {

  datatype Option<+T> = None | Some(value: T)

  datatype Result<+T, +E> = Ok(value: T) | Err(error: E)

  /** A ULID. All the system does with one is compare and order it, so its number stands for it. */
  type Id = nat

  /** A moment, in nanoseconds of some fixed clock. Unbounded. */
  type Time = int
}

/** Runs of a machine: a state, an action after another. */
module Runs {

  function RunOf<S, A>(apply: (S, A) -> S, s: S, acts: seq<A>): S
    decreases |acts|
  {
    if acts == [] then s else RunOf(apply, apply(s, acts[0]), acts[1..])
  }

  lemma {:induction false} RunInParts<S, A>(apply: (S, A) -> S, s: S, a: seq<A>, b: seq<A>)
    ensures RunOf(apply, s, a + b) == RunOf(apply, RunOf(apply, s, a), b)
    decreases |a|
  {
    if a == [] {
      assert [] + b == b;
    } else {
      assert (a + b)[0] == a[0] && (a + b)[1..] == a[1..] + b;
      RunInParts(apply, apply(s, a[0]), a[1..], b);
    }
  }
}

/** Texts cut at a separator. */
module Cuts {

  /** Two texts whose first parts have no separator are cut at the same place: the first separator. */
  lemma {:induction false} CutOnce<T>(separator: T, a: seq<T>, x: seq<T>, b: seq<T>, y: seq<T>)
    requires separator !in a && separator !in b && a + [separator] + x == b + [separator] + y
    ensures a == b && x == y
  {
    HeadOf(separator, a, x);
    HeadOf(separator, b, y);
    if a != [] && b != [] {
      CutOnce(separator, a[1..], x, b[1..], y);
      assert a == [(a + [separator] + x)[0]] + a[1..] && b == [(b + [separator] + y)[0]] + b[1..];
    }
  }

  lemma HeadOf<T>(separator: T, a: seq<T>, x: seq<T>)
    requires separator !in a
    ensures var text := a + [separator] + x;
            if a == [] then text[0] == separator && text[1..] == x
            else text[0] != separator && text[1..] == a[1..] + [separator] + x
  {
    if a != [] {
      assert a[0] in a;
    }
  }
}

/** What `ORDER BY id` and `ORDER BY id DESC` make of a set of ids. */
module Ordering {
  import opened Basics

  predicate Precedes(desc: bool, a: Id, b: Id) {
    if desc then b < a else a < b
  }

  predicate Ordered(desc: bool, ids: seq<Id>) {
    forall i, j :: 0 <= i < j < |ids| ==> Precedes(desc, ids[i], ids[j])
  }

  ghost predicate IsFirst(desc: bool, m: Id, s: set<Id>) {
    m in s && forall x | x in s :: x == m || Precedes(desc, m, x)
  }

  lemma {:induction false} FirstExists(desc: bool, s: set<Id>)
    requires s != {}
    ensures exists m :: IsFirst(desc, m, s)
  {
    var y :| y in s;
    if s == {y} {
      assert IsFirst(desc, y, s);
    } else {
      var rest := s - {y};
      FirstExists(desc, rest);
      var m :| IsFirst(desc, m, rest);
      var first := if Precedes(desc, m, y) then m else y;
      forall x | x in s
        ensures x == first || Precedes(desc, first, x)
      {
        assert x == y || x in rest;
      }
      assert IsFirst(desc, first, s);
    }
  }

  /** The id that comes first. */
  function First(desc: bool, s: set<Id>): (m: Id)
    requires s != {}
    ensures m in s && forall x | x in s :: x == m || Precedes(desc, m, x)
  {
    FirstExists(desc, s);
    assert exists m :: m in s && forall x | x in s :: x == m || Precedes(desc, m, x) by {
      var m :| IsFirst(desc, m, s);
    }
    var m :| m in s && forall x | x in s :: x == m || Precedes(desc, m, x);
    m
  }

  /** The ids of a set in order. */
  function InOrder(desc: bool, s: set<Id>): seq<Id> {
    if s == {} then
      []
    else
      var m := First(desc, s);
      [m] + InOrder(desc, s - {m})
  }

  /** The listing is ordered and has every id of the set, each once. */
  lemma {:induction false} InOrderLists(desc: bool, s: set<Id>)
    ensures Ordered(desc, InOrder(desc, s))
    ensures |InOrder(desc, s)| == |s|
    ensures forall x :: x in InOrder(desc, s) <==> x in s
  {
    if s != {} {
      var m := First(desc, s);
      var rest := s - {m};
      InOrderLists(desc, rest);
      var list := InOrder(desc, rest);
      assert InOrder(desc, s) == [m] + list;
      forall i, j | 0 <= i < j < |[m] + list|
        ensures Precedes(desc, ([m] + list)[i], ([m] + list)[j])
      {
        assert list[j - 1] in list;
      }
      assert forall x :: x in [m] + list <==> x == m || x in list;
    }
  }

  /** Ascending, or descending where it is asked to be; so there is only one such listing. */
  lemma {:induction false} InOrderAscends(desc: bool, s: set<Id>)
    ensures var ids := InOrder(desc, s);
            && (forall i, j :: 0 <= i < j < |ids| ==> if desc then ids[i] > ids[j] else ids[i] < ids[j])
            && (forall x :: x in ids <==> x in s)
  {
    InOrderLists(desc, s);
  }

  lemma HasAnElement(s: seq<Id>)
    requires s != []
    ensures exists x :: x in s
  {
    assert s[0] in s;
  }

  /** An ordered listing is determined by the set it lists. */
  lemma {:induction false} OrderedIsUnique(desc: bool, a: seq<Id>, b: seq<Id>)
    requires Ordered(desc, a) && Ordered(desc, b)
    requires forall x :: x in a <==> x in b
    ensures a == b
  {
    if a == [] {
      if b != [] {
        HasAnElement(b);
      }
    } else {
      assert a[0] in b;
      assert b[0] in a;
      var i :| 0 <= i < |b| && b[i] == a[0];
      var j :| 0 <= j < |a| && a[j] == b[0];
      assert a[0] == b[0];
      forall x
        ensures x in a[1..] <==> x in b[1..]
      {
        if x in a[1..] {
          assert x in b && x != a[0];
        }
        if x in b[1..] {
          assert x in a && x != b[0];
        }
      }
      OrderedIsUnique(desc, a[1..], b[1..]);
    }
  }
}
