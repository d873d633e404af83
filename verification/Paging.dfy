/**
 * Keyset paging: one page of a listing, and the client that walks every page.
 *
 * A listing is over a set of ids, ascending for the deliveries of a message and descending
 * for the messages of a source. Rows come and go between two requests.
 */
module Paging {
  import opened Basics
  import opened Ordering

  const DEFAULT_PAGE_SIZE: nat := 50
  const MAX_PAGE_SIZE: nat := 500

  /** A place in a listing, None being its beginning, and the page size asked for. */
  datatype Cursor = Cursor(after: Option<Id>, limit: int) {
    function Normalize(): (c: Cursor)
      ensures c.after == after
      ensures 1 <= c.limit <= MAX_PAGE_SIZE
      ensures 1 <= limit <= MAX_PAGE_SIZE ==> c.limit == limit
    {
      var filled := if limit <= 0 then DEFAULT_PAGE_SIZE else limit;
      Cursor(after, if filled > MAX_PAGE_SIZE then MAX_PAGE_SIZE else filled)
    }
  }

  datatype Page<+T> = Page(items: seq<T>, next: Option<Id>) {
    predicate HasNext() {
      next.Some?
    }
  }

  /** The cursor is before this id. */
  predicate Ahead(desc: bool, after: Option<Id>, x: Id) {
    after.None? || Precedes(desc, after.value, x)
  }

  /** The ids a cursor is before. */
  function Beyond(desc: bool, ids: set<Id>, after: Option<Id>): set<Id> {
    set x | x in ids && Ahead(desc, after, x)
  }

  /** `WHERE id > after ORDER BY id LIMIT n`, or its mirror image. */
  function Select(desc: bool, ids: set<Id>, after: Option<Id>, rowLimit: nat): seq<Id> {
    var all := InOrder(desc, Beyond(desc, ids, after));
    if |all| <= rowLimit then all else all[..rowLimit]
  }

  /** One page: a row more than was asked for is fetched, and says whether there is another page. */
  function PageOf(desc: bool, ids: set<Id>, c: Cursor): Page<Id> {
    var limit: nat := c.Normalize().limit;
    var rows := Select(desc, ids, c.after, limit + 1);
    if |rows| > limit then Page(rows[..limit], Some(rows[limit - 1])) else Page(rows, None)
  }

  /** In an ordered list, what comes after position k is what the element before k precedes. */
  lemma After(desc: bool, list: seq<Id>, k: nat, x: Id)
    requires Ordered(desc, list) && 0 < k <= |list|
    ensures x in list[k..] <==> x in list && Precedes(desc, list[k - 1], x)
  {
    if x in list[k..] {
      var i :| 0 <= i < |list[k..]| && list[k..][i] == x;
      assert Precedes(desc, list[k - 1], list[k + i]);
    }
    if x in list && Precedes(desc, list[k - 1], x) {
      var i :| 0 <= i < |list| && list[i] == x;
      assert i >= k;
      assert list[k..][i - k] == x;
    }
  }

  lemma OrderedTail(desc: bool, list: seq<Id>, k: nat)
    requires Ordered(desc, list) && k <= |list|
    ensures Ordered(desc, list[k..]) && Ordered(desc, list[..k])
  {
  }

  /** A cursor on the k-th id of what was left leaves what follows it. */
  lemma {:induction false} BeyondCursor(desc: bool, ids: set<Id>, after: Option<Id>, k: nat)
    requires 0 < k <= |InOrder(desc, Beyond(desc, ids, after))|
    ensures var left := InOrder(desc, Beyond(desc, ids, after));
            InOrder(desc, Beyond(desc, ids, Some(left[k - 1]))) == left[k..]
  {
    var left := InOrder(desc, Beyond(desc, ids, after));
    var next := Beyond(desc, ids, Some(left[k - 1]));
    InOrderLists(desc, Beyond(desc, ids, after));
    InOrderLists(desc, next);
    assert left[k - 1] in left;
    forall x
      ensures x in InOrder(desc, next) <==> x in left[k..]
    {
      After(desc, left, k, x);
    }
    OrderedTail(desc, left, k);
    OrderedIsUnique(desc, InOrder(desc, next), left[k..]);
  }

  /**
   * A page is the beginning of what is left, no longer than was asked for, and it names its
   * own last row as the next cursor exactly when something is left after it.
   */
  lemma {:induction false} PageIsPrefix(desc: bool, ids: set<Id>, c: Cursor)
    ensures var page := PageOf(desc, ids, c);
            var left := InOrder(desc, Beyond(desc, ids, c.after));
            var n := |page.items|;
            && n <= |left| && page.items == left[..n]
            && n <= c.Normalize().limit
            && (page.HasNext() <==> n < |left|)
            && (page.HasNext() ==> n == c.Normalize().limit && page.next == Some(left[n - 1])
                                   && InOrder(desc, Beyond(desc, ids, page.next)) == left[n..])
  {
    var left := InOrder(desc, Beyond(desc, ids, c.after));
    var limit: nat := c.Normalize().limit;
    if |left| > limit {
      assert left[..limit + 1][..limit] == left[..limit];
      BeyondCursor(desc, ids, c.after, limit);
    }
  }

  /** What is on a page is ordered, stored, and ahead of the cursor. */
  lemma PageHolds(desc: bool, ids: set<Id>, c: Cursor)
    ensures var page := PageOf(desc, ids, c);
            && Ordered(desc, page.items)
            && (forall x :: x in page.items ==> x in ids && Ahead(desc, c.after, x))
            && (page.HasNext() ==> page.items != [] && page.next == Some(page.items[|page.items| - 1]))
  {
    var page := PageOf(desc, ids, c);
    var left := InOrder(desc, Beyond(desc, ids, c.after));
    PageIsPrefix(desc, ids, c);
    InOrderLists(desc, Beyond(desc, ids, c.after));
    OrderedTail(desc, left, |page.items|);
    assert forall x :: x in page.items ==> x in left;
  }

  /** What is stored and ahead is on the page, or behind its cursor. */
  lemma PageLeaves(desc: bool, ids: set<Id>, c: Cursor, x: Id)
    requires x in ids && Ahead(desc, c.after, x)
    ensures var page := PageOf(desc, ids, c);
            x in page.items || (page.HasNext() && Ahead(desc, page.next, x))
  {
    var page := PageOf(desc, ids, c);
    var left := InOrder(desc, Beyond(desc, ids, c.after));
    var n := |page.items|;
    PageIsPrefix(desc, ids, c);
    InOrderLists(desc, Beyond(desc, ids, c.after));
    assert x in left && left == left[..n] + left[n..];
    if page.HasNext() {
      After(desc, left, n, x);
    }
  }

  // --- the client's walk -----------------------------------------------------

  /** What one request met: the ids stored at that moment, or no answer. */
  datatype Answer = Stored(ids: set<Id>) | Unavailable

  /** What a walk came to. `Cut` is a walk that still had a token when the history ends. */
  datatype Walked = Complete(out: seq<Id>) | Cut(out: seq<Id>) | Failed(out: seq<Id>)

  /** The pages a walk collects when its requests meet the stored sets of `history` in turn. */
  function Walk(desc: bool, history: seq<Answer>, token: Option<Id>, limit: int): Walked {
    if history == [] then
      Cut([])
    else match history[0] {
      case Unavailable => Failed([])
      case Stored(ids) =>
        var page := PageOf(desc, ids, Cursor(token, limit));
        if page.HasNext() then
          match Walk(desc, history[1..], page.next, limit) {
            case Complete(rest) => Complete(page.items + rest)
            case Cut(rest) => Cut(page.items + rest)
            case Failed(rest) => Failed(page.items + rest)
          }
        else
          Complete(page.items)
    }
  }

  /** Present in every answer of the history. */
  ghost predicate Throughout(history: seq<Answer>, x: Id) {
    forall k :: 0 <= k < |history| && history[k].Stored? ==> x in history[k].ids
  }

  ghost predicate AtSomePoint(history: seq<Answer>, x: Id) {
    exists k :: 0 <= k < |history| && history[k].Stored? && x in history[k].ids
  }

  lemma Joined(desc: bool, a: seq<Id>, b: seq<Id>)
    requires a != [] && Ordered(desc, a) && Ordered(desc, b)
    requires forall x :: x in b ==> Precedes(desc, a[|a| - 1], x)
    ensures Ordered(desc, a + b)
  {
    var last := a[|a| - 1];
    forall i, j | 0 <= i < j < |a + b|
      ensures Precedes(desc, (a + b)[i], (a + b)[j])
    {
      if i < |a| <= j {
        assert a[i] == last || Precedes(desc, a[i], last);
        assert b[j - |a|] in b;
      }
    }
  }

  /** The walk is in order, and never goes back before its token. */
  lemma {:induction false} WalkIsOrdered(desc: bool, history: seq<Answer>, token: Option<Id>, limit: int)
    ensures Ordered(desc, Walk(desc, history, token, limit).out)
    ensures forall x :: x in Walk(desc, history, token, limit).out ==> Ahead(desc, token, x)
  {
    if history != [] && history[0].Stored? {
      var ids := history[0].ids;
      var page := PageOf(desc, ids, Cursor(token, limit));
      PageHolds(desc, ids, Cursor(token, limit));
      if page.HasNext() {
        WalkIsOrdered(desc, history[1..], page.next, limit);
        Joined(desc, page.items, Walk(desc, history[1..], page.next, limit).out);
        assert page.next.value in page.items;
      }
    }
  }

  /** Every row the walk returns was stored when one of its requests was answered. */
  lemma {:induction false} WalkInventsNothing(desc: bool, history: seq<Answer>, token: Option<Id>, limit: int, x: Id)
    requires x in Walk(desc, history, token, limit).out
    ensures AtSomePoint(history, x)
  {
    var ids := history[0].ids;
    var page := PageOf(desc, ids, Cursor(token, limit));
    PageHolds(desc, ids, Cursor(token, limit));
    if x in page.items {
      assert x in history[0].ids;
    } else {
      WalkInventsNothing(desc, history[1..], page.next, limit, x);
      var m :| 0 <= m < |history[1..]| && history[1..][m].Stored? && x in history[1..][m].ids;
      assert history[m + 1].Stored? && x in history[m + 1].ids;
    }
  }

  /** A completed walk has every row that was stored throughout. */
  lemma {:induction false} WalkMissesNothing(desc: bool, history: seq<Answer>, token: Option<Id>, limit: int, x: Id)
    requires Walk(desc, history, token, limit).Complete?
    requires Throughout(history, x) && Ahead(desc, token, x)
    ensures x in Walk(desc, history, token, limit).out
  {
    var ids := history[0].ids;
    var page := PageOf(desc, ids, Cursor(token, limit));
    assert x in ids;
    PageLeaves(desc, ids, Cursor(token, limit), x);
    if page.HasNext() && x !in page.items {
      assert forall i :: 0 <= i < |history[1..]| ==> history[1..][i] == history[i + 1];
      WalkMissesNothing(desc, history[1..], page.next, limit, x);
    }
  }

  /**
   * Whatever is inserted or deleted between pages: the walk from the empty token is in order,
   * so it repeats nothing; it invents nothing; and when it completes, every row that was
   * there throughout is in it at exactly one position.
   */
  lemma {:induction false} WalkIsExact(desc: bool, history: seq<Answer>, limit: int)
    ensures var walked := Walk(desc, history, None, limit);
            && Ordered(desc, walked.out)
            && (forall x :: x in walked.out ==> AtSomePoint(history, x))
            && (walked.Complete? ==> forall x :: Throughout(history, x) ==> multiset(walked.out)[x] == 1)
  {
    var walked := Walk(desc, history, None, limit);
    WalkIsOrdered(desc, history, None, limit);
    forall x | x in walked.out
      ensures AtSomePoint(history, x)
    {
      WalkInventsNothing(desc, history, None, limit, x);
    }
    if walked.Complete? {
      forall x | Throughout(history, x)
        ensures multiset(walked.out)[x] == 1
      {
        WalkMissesNothing(desc, history, None, limit, x);
        OrderedOnce(desc, walked.out, x);
      }
    }
  }

  lemma {:induction false} OrderedOnce(desc: bool, list: seq<Id>, x: Id)
    requires Ordered(desc, list) && x in list
    ensures multiset(list)[x] == 1
  {
    assert list == [list[0]] + list[1..];
    if x in list[1..] {
      var i :| 0 <= i < |list[1..]| && list[1..][i] == x;
      assert Precedes(desc, list[0], list[i + 1]);
      OrderedOnce(desc, list[1..], x);
    }
  }

  /** On a set that does not change, enough requests end the walk with the whole list in order. */
  lemma {:induction false} WalkOfFixedSet(desc: bool, history: seq<Answer>, ids: set<Id>, token: Option<Id>, limit: int)
    requires history != []
    requires forall k :: 0 <= k < |history| ==> history[k] == Stored(ids)
    requires |InOrder(desc, Beyond(desc, ids, token))| <= |history| * Cursor(token, limit).Normalize().limit
    ensures Walk(desc, history, token, limit) == Complete(InOrder(desc, Beyond(desc, ids, token)))
    decreases |history|
  {
    var page := PageOf(desc, ids, Cursor(token, limit));
    var left := InOrder(desc, Beyond(desc, ids, token));
    PageIsPrefix(desc, ids, Cursor(token, limit));
    if page.HasNext() {
      var size := Cursor(token, limit).Normalize().limit;
      assert |left| - size <= (|history| - 1) * size;
      assert |history| > 1;
      WalkOfFixedSet(desc, history[1..], ids, page.next, limit);
      assert left == page.items + left[|page.items|..];
    }
  }

  /** The same from the empty token: the whole set, in order, each row once. */
  lemma {:induction false} FixedSetIsListed(desc: bool, history: seq<Answer>, ids: set<Id>, limit: int)
    requires history != []
    requires forall k :: 0 <= k < |history| ==> history[k] == Stored(ids)
    requires |ids| <= |history| * Cursor(None, limit).Normalize().limit
    ensures Walk(desc, history, None, limit) == Complete(InOrder(desc, ids))
  {
    assert Beyond(desc, ids, None) == ids;
    InOrderLists(desc, ids);
    WalkOfFixedSet(desc, history, ids, None, limit);
  }

  /** A walk that had already collected some. */
  function Onto(out: seq<Id>, w: Walked): Walked {
    match w
    case Complete(rest) => Complete(out + rest)
    case Cut(rest) => Cut(out + rest)
    case Failed(rest) => Failed(out + rest)
  }

  /** The walk from its k-th request on; at its end once it has no token. */
  ghost function Onward(desc: bool, history: seq<Answer>, k: nat, more: bool, token: Option<Id>): Walked
    requires k <= |history|
  {
    if more then Walk(desc, history[k..], token, 0) else Complete([])
  }

  lemma OntoTwice(a: seq<Id>, b: seq<Id>, w: Walked)
    ensures Onto(a, Onto(b, w)) == Onto(a + b, w)
  {
    assert a + (b + w.out) == (a + b) + w.out;
  }

  lemma WalkStops(desc: bool, history: seq<Answer>, k: nat, token: Option<Id>)
    requires k <= |history| && (k < |history| ==> history[k].Unavailable?)
    ensures Onward(desc, history, k, true, token) == if k == |history| then Cut([]) else Failed([])
  {
    if k == |history| {
      assert history[k..] == [];
    } else {
      assert history[k..][0] == history[k];
    }
  }

  lemma GetsOn(desc: bool, history: seq<Answer>, k: nat, token: Option<Id>)
    requires k < |history| && history[k].Stored?
    ensures var page := PageOf(desc, history[k].ids, Cursor(token, 0));
            Onward(desc, history, k, true, token)
            == Onto(page.items, Onward(desc, history, k + 1, page.HasNext(), page.next))
  {
    assert history[k..][1..] == history[k + 1..];
  }

  /**
   * sdk/go/srosha Get: every page of a message's deliveries, appended. A failed request
   * loses what was collected. None is the walk still holding a token when the history ends.
   */
  method Get(history: seq<Answer>) returns (r: Option<Result<seq<Id>, ()>>)
    ensures r == match Walk(false, history, None, 0) {
                   case Complete(out) => Some(Ok(out))
                   case Cut(_) => None
                   case Failed(_) => Some(Err(()))
                 }
  {
    var out: seq<Id>, token, first, k := [], None, true, 0;
    ghost var whole := Walk(false, history, None, 0);
    assert history[0..] == history && Onto([], whole) == whole;
    while (first || token.Some?) && k < |history|
      invariant 0 <= k <= |history|
      invariant whole == Onto(out, Onward(false, history, k, first || token.Some?, token))
      decreases |history| - k
    {
      first := false;
      if history[k].Unavailable? {
        WalkStops(false, history, k, token);
        return Some(Err(()));
      }
      var page := PageOf(false, history[k].ids, Cursor(token, 0));
      GetsOn(false, history, k, token);
      OntoTwice(out, page.items, Onward(false, history, k + 1, page.HasNext(), page.next));
      out := out + page.items;
      token := page.next;
      k := k + 1;
    }
    if first || token.Some? {
      WalkStops(false, history, k, token);
      return None;
    }
    assert out + [] == out;
    r := Some(Ok(out));
  }

  /** Hands over the rows of one page until the caller has enough. */
  method Yield(items: seq<Id>, taken: seq<Id>, wanted: nat) returns (all: seq<Id>, stopped: bool)
    requires |taken| <= wanted
    ensures taken <= all <= taken + items
    ensures if stopped then |all| == wanted + 1 else all == taken + items && |all| <= wanted
  {
    all := taken;
    for i := 0 to |items|
      invariant all == taken + items[..i] && |all| <= wanted
    {
      all := all + [items[i]];
      if |all| > wanted {
        return all, true;
      }
    }
    return all, false;
  }

  /** Fetches the k-th page and hands it over. */
  method TakePage(history: seq<Answer>, k: nat, token: Option<Id>, taken: seq<Id>, wanted: nat, ghost whole: Walked)
    returns (all: seq<Id>, stopped: bool, next: Option<Id>)
    requires k < |history| && history[k].Stored? && |taken| <= wanted
    requires whole == Onto(taken, Onward(true, history, k, true, token))
    ensures if stopped then
              all <= whole.out && |all| == wanted + 1
            else
              whole == Onto(all, Onward(true, history, k + 1, next.Some?, next)) && |all| <= wanted
  {
    var page := PageOf(true, history[k].ids, Cursor(token, 0));
    GetsOn(true, history, k, token);
    ghost var rest := Onward(true, history, k + 1, page.HasNext(), page.next);
    OntoTwice(taken, page.items, rest);
    assert whole.out == (taken + page.items) + rest.out;
    all, stopped := Yield(page.items, taken, wanted);
    next := page.next;
  }

  /** How an iteration came to its end: the caller broke off, or the walk did what it says. */
  datatype Listed = BrokenOff(taken: seq<Id>) | Ended(walk: Walked)

  /**
   * sdk/go/srosha List: messages handed over one at a time, newest first, a page fetched only
   * when the last is used up. The caller breaks off once it has more than `wanted`. A failed
   * request ends the iteration with an error, after everything handed over before it.
   */
  method List(history: seq<Answer>, wanted: nat) returns (r: Listed)
    ensures match r
            case BrokenOff(taken) => taken <= Walk(true, history, None, 0).out && |taken| == wanted + 1
            case Ended(walk) => walk == Walk(true, history, None, 0) && |walk.out| <= wanted
  {
    var taken: seq<Id>, token, more, k := [], None, true, 0;
    ghost var whole := Walk(true, history, None, 0);
    assert history[0..] == history && Onto([], whole) == whole;
    while more && k < |history|
      invariant 0 <= k <= |history|
      invariant |taken| <= wanted
      invariant whole == Onto(taken, Onward(true, history, k, more, token))
      decreases |history| - k
    {
      if history[k].Unavailable? {
        WalkStops(true, history, k, token);
        assert taken + [] == taken;
        return Ended(Failed(taken));
      }
      var stopped;
      taken, stopped, token := TakePage(history, k, token, taken, wanted, whole);
      if stopped {
        return BrokenOff(taken);
      }
      more, k := token.Some?, k + 1;
    }
    assert taken + [] == taken;
    if more {
      WalkStops(true, history, k, token);
      return Ended(Cut(taken));
    }
    return Ended(Complete(taken));
  }
}
