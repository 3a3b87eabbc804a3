/**
 * Sequence operations that stand for the shapes of the SQL queries used by the
 * game server: `WHERE` (Filter), `rows[0]` (First), `OFFSET k LIMIT 1` (Nth) and
 * `ORDER BY` (SortBy, a stable insertion sort: rows that compare equal keep their
 * table order).
 */
module Seqs {
  import opened Wrappers

  /** The elements of `s` satisfying `p`, in their order in `s`. */
  function Filter<T(!new)>(s: seq<T>, p: T -> bool): (r: seq<T>)
    ensures |r| <= |s|
    ensures forall x :: x in r <==> x in s && p(x)
  {
    if s == [] then []
    else if p(s[0]) then [s[0]] + Filter(s[1..], p)
    else Filter(s[1..], p)
  }

  /** The first element of `s` satisfying `p`, if any. */
  function First<T(!new)>(s: seq<T>, p: T -> bool): (r: Option<T>)
    ensures r.Some? ==> r.value in s && p(r.value)
    ensures r.None? <==> forall x :: x in s ==> !p(x)
  {
    if s == [] then None
    else if p(s[0]) then Some(s[0])
    else First(s[1..], p)
  }

  /** The element `First` finds is the earliest match: no element before it matches. */
  lemma {:induction false} FirstIsEarliest<T(!new)>(s: seq<T>, p: T -> bool)
    requires First(s, p).Some?
    ensures exists i :: 0 <= i < |s| && s[i] == First(s, p).value && forall j :: 0 <= j < i ==> !p(s[j])
  {
    if !p(s[0]) {
      FirstIsEarliest(s[1..], p);
      var i :| 0 <= i < |s| - 1 && s[1..][i] == First(s, p).value && forall j :: 0 <= j < i ==> !p(s[1..][j]);
      assert s[i + 1] == First(s, p).value;
      forall j | 0 <= j < i + 1 ensures !p(s[j]) {
        if j > 0 { assert s[j] == s[1..][j - 1]; }
      }
    } else {
      assert s[0] == First(s, p).value;
    }
  }

  /** `OFFSET k LIMIT 1`: the element at position `k`, or none past the end. */
  function Nth<T>(s: seq<T>, k: nat): (r: Option<T>)
    ensures r.Some? <==> k < |s|
    ensures r.Some? ==> r.value == s[k]
  {
    if k < |s| then Some(s[k]) else None
  }

  lemma AppendAssociative<T>(a: seq<T>, b: seq<T>, c: seq<T>)
    ensures (a + b) + c == a + (b + c)
  {
  }

  lemma SliceOfAppend<T>(a: seq<T>, b: seq<T>)
    ensures (a + b)[|a|..|a| + |b|] == b
  {
  }

  lemma SliceOfPrefix<T>(a: seq<T>, b: seq<T>, i: nat, j: nat)
    requires a <= b && i <= j <= |a|
    ensures b[i..j] == a[i..j]
  {
  }

  /** The position of the first occurrence of `x` in `s`. */
  function IndexOf<T(==)>(s: seq<T>, x: T): (k: nat)
    requires x in s
    ensures k < |s| && s[k] == x && x !in s[..k]
  {
    if s[0] == x then 0
    else
      var k := IndexOf(s[1..], x);
      assert s[..k + 1] == [s[0]] + s[1..][..k];
      k + 1
  }

  lemma {:induction false} FilterConcat<T(!new)>(a: seq<T>, b: seq<T>, p: T -> bool)
    ensures Filter(a + b, p) == Filter(a, p) + Filter(b, p)
  {
    if a == [] {
      assert a + b == b;
    } else {
      assert (a + b)[0] == a[0];
      assert (a + b)[1..] == a[1..] + b;
      FilterConcat(a[1..], b, p);
      if p(a[0]) {
        AppendAssociative([a[0]], Filter(a[1..], p), Filter(b, p));
      }
    }
  }

  /** Filtering twice by the same predicate is filtering once. */
  lemma {:induction false} FilterIdempotent<T(!new)>(s: seq<T>, p: T -> bool)
    ensures Filter(Filter(s, p), p) == Filter(s, p)
  {
    if s != [] {
      FilterIdempotent(s[1..], p);
      if p(s[0]) {
        assert ([s[0]] + Filter(s[1..], p))[1..] == Filter(s[1..], p);
      }
    }
  }

  /** A filter that keeps every element is the identity. */
  lemma {:induction false} FilterAll<T(!new)>(s: seq<T>, p: T -> bool)
    requires forall x :: x in s ==> p(x)
    ensures Filter(s, p) == s
  {
    if s != [] {
      assert forall x :: x in s[1..] ==> x in s;
      FilterAll(s[1..], p);
      assert [s[0]] + s[1..] == s;
    }
  }

  /** A filter that rejects `x` and keeps everything around it cuts `x` out. */
  lemma {:induction false} FilterCutsOne<T(!new)>(before: seq<T>, x: T, after: seq<T>, p: T -> bool)
    requires !p(x)
    requires forall y :: y in before ==> p(y)
    requires forall y :: y in after ==> p(y)
    ensures Filter(before + [x] + after, p) == before + after
  {
    FilterAll(before, p);
    FilterAll(after, p);
    assert Filter([x] + after, p) == after by {
      assert ([x] + after)[0] == x;
      assert ([x] + after)[1..] == after;
    }
    assert before + [x] + after == before + ([x] + after);
    FilterConcat(before, [x] + after, p);
  }

  /** A filter that keeps no element leaves nothing. */
  lemma {:induction false} FilterNone<T(!new)>(s: seq<T>, p: T -> bool)
    requires forall x :: x in s ==> !p(x)
    ensures Filter(s, p) == []
  {
    if s != [] {
      assert forall x :: x in s[1..] ==> x in s;
      FilterNone(s[1..], p);
    }
  }

  /** Filtering by `q` after a weaker `p` is filtering by `q` alone. */
  lemma {:induction false} FilterSubsumed<T(!new)>(s: seq<T>, p: T -> bool, q: T -> bool)
    requires forall x :: q(x) ==> p(x)
    ensures Filter(Filter(s, p), q) == Filter(s, q)
  {
    if s != [] {
      FilterSubsumed(s[1..], p, q);
    }
  }

  /** Two predicates that agree on every element of `s` filter it alike. */
  lemma {:induction false} FilterAgree<T(!new)>(s: seq<T>, p: T -> bool, q: T -> bool)
    requires forall x :: x in s ==> p(x) == q(x)
    ensures Filter(s, p) == Filter(s, q)
  {
    if s != [] {
      assert forall x :: x in s[1..] ==> x in s;
      FilterAgree(s[1..], p, q);
    }
  }

  /** The first match in `a + b` is the first match in `a`, or else the first in `b`. */
  lemma {:induction false} FirstConcat<T(!new)>(a: seq<T>, b: seq<T>, p: T -> bool)
    ensures First(a + b, p) == if First(a, p).Some? then First(a, p) else First(b, p)
  {
    if a == [] {
      assert a + b == b;
    } else {
      assert (a + b)[1..] == a[1..] + b;
      FirstConcat(a[1..], b, p);
    }
  }

  /** Replace by `f(x)` every element `x` satisfying `p` (the rows an `UPDATE ... WHERE` touches). */
  function UpdateWhere<T>(s: seq<T>, p: T -> bool, f: T -> T): (r: seq<T>)
    ensures |r| == |s|
    ensures forall i :: 0 <= i < |s| ==> r[i] == if p(s[i]) then f(s[i]) else s[i]
  {
    seq(|s|, i requires 0 <= i < |s| => if p(s[i]) then f(s[i]) else s[i])
  }

  /** An update that keeps `p` true of the rows it touches moves the first match along with it. */
  lemma {:induction false} FirstUpdateWhere<T(!new)>(s: seq<T>, p: T -> bool, f: T -> T)
    requires forall x :: p(x) ==> p(f(x))
    ensures First(UpdateWhere(s, p, f), p) == if First(s, p).Some? then Some(f(First(s, p).value)) else None
  {
    if s != [] {
      assert UpdateWhere(s, p, f)[1..] == UpdateWhere(s[1..], p, f);
      FirstUpdateWhere(s[1..], p, f);
    }
  }

  /** A filter is unaffected by an update of elements that it drops and that stay dropped. */
  lemma {:induction false} FilterUpdateOutside<T(!new)>(s: seq<T>, p: T -> bool, f: T -> T, q: T -> bool)
    requires forall x :: p(x) ==> !q(x) && !q(f(x))
    ensures Filter(UpdateWhere(s, p, f), q) == Filter(s, q)
  {
    if s != [] {
      assert UpdateWhere(s, p, f)[1..] == UpdateWhere(s[1..], p, f);
      FilterUpdateOutside(s[1..], p, f, q);
    }
  }

  /** `s` contains at most one element satisfying `p`. */
  predicate AtMostOne<T>(s: seq<T>, p: T -> bool) {
    forall i, j :: 0 <= i < j < |s| && p(s[i]) ==> !p(s[j])
  }

  /**
   * The rows of a table with a serial primary key `key`: keys are positive, below
   * the next value of the sequence, and increase along the table.
   */
  predicate Keyed<T>(s: seq<T>, key: T -> int, next: int) {
    && (forall i :: 0 <= i < |s| ==> 0 < key(s[i]) < next)
    && (forall i, j :: 0 <= i < j < |s| ==> key(s[i]) < key(s[j]))
  }

  /** In a keyed table the first row has a smaller key than every later row. */
  lemma KeyedHead<T>(s: seq<T>, key: T -> int, next: int)
    requires Keyed(s, key, next) && s != []
    ensures Keyed(s[1..], key, next)
    ensures forall x :: x in s[1..] ==> key(s[0]) < key(x)
  {
    forall x | x in s[1..] ensures key(s[0]) < key(x) {
      var k :| 0 <= k < |s[1..]| && s[1..][k] == x;
      assert s[k + 1] == x;
    }
  }

  /** A row whose key is below those of a keyed table can be put in front of it. */
  lemma KeyedCons<T>(x: T, r: seq<T>, key: T -> int, next: int)
    requires Keyed(r, key, next) && 0 < key(x) < next
    requires forall y :: y in r ==> key(x) < key(y)
    ensures Keyed([x] + r, key, next)
  {
    var xr := [x] + r;
    forall i, j | 0 <= i < j < |xr| ensures key(xr[i]) < key(xr[j]) {
      assert xr[j] == r[j - 1];
      if i == 0 { assert xr[j] in r; } else { assert xr[i] == r[i - 1]; }
    }
  }

  lemma {:induction false} KeyedFilter<T(!new)>(s: seq<T>, key: T -> int, next: int, p: T -> bool)
    requires Keyed(s, key, next)
    ensures Keyed(Filter(s, p), key, next)
  {
    if s != [] {
      KeyedHead(s, key, next);
      KeyedFilter(s[1..], key, next, p);
      if p(s[0]) {
        KeyedCons(s[0], Filter(s[1..], p), key, next);
      }
    }
  }

  /** Appending a row carrying the next serial value keeps a table keyed. */
  lemma KeyedAppend<T>(s: seq<T>, key: T -> int, next: int, x: T)
    requires Keyed(s, key, next) && 0 < next && key(x) == next
    ensures Keyed(s + [x], key, next + 1)
  {
  }

  /** A keyed table followed by rows keyed from its next serial value on is keyed. */
  lemma KeyedConcat<T>(a: seq<T>, b: seq<T>, key: T -> int, mid: int, next: int)
    requires Keyed(a, key, mid) && Keyed(b, key, next) && mid <= next
    requires forall i :: 0 <= i < |b| ==> mid <= key(b[i])
    ensures Keyed(a + b, key, next)
  {
    var ab := a + b;
    forall i, j | 0 <= i < j < |ab| ensures key(ab[i]) < key(ab[j]) {
      if j >= |a| && i < |a| { assert ab[j] == b[j - |a|]; }
    }
    forall i | 0 <= i < |ab| ensures 0 < key(ab[i]) < next {
      if i < |a| { assert ab[i] == a[i]; } else { assert ab[i] == b[i - |a|]; }
    }
  }

  /** An update that leaves the key alone keeps a table keyed. */
  lemma KeyedUpdate<T>(s: seq<T>, key: T -> int, next: int, p: T -> bool, f: T -> T)
    requires forall x :: key(f(x)) == key(x)
    ensures Keyed(s, key, next) ==> Keyed(UpdateWhere(s, p, f), key, next)
  {
  }

  /** `s` is ordered by `le`: every earlier element is `le` every later one. */
  predicate Sorted<T>(s: seq<T>, le: (T, T) -> bool) {
    forall i, j :: 0 <= i < j < |s| ==> le(s[i], s[j])
  }

  /** `le` is total and transitive, so that sorting by it is meaningful. */
  ghost predicate TotalPreorder<T(!new)>(le: (T, T) -> bool) {
    && (forall a, b :: le(a, b) || le(b, a))
    && (forall a, b, c :: le(a, b) && le(b, c) ==> le(a, c))
  }

  /** Insert `x` before the first element it is `le`. */
  function Insert<T>(x: T, s: seq<T>, le: (T, T) -> bool): (r: seq<T>)
    ensures multiset(r) == multiset(s) + multiset{x}
  {
    if s == [] then [x]
    else if le(x, s[0]) then [x] + s
    else
      assert s == [s[0]] + s[1..];
      [s[0]] + Insert(x, s[1..], le)
  }

  /** `ORDER BY`: a stable insertion sort, so equal rows keep their table order. */
  function SortBy<T>(s: seq<T>, le: (T, T) -> bool): (r: seq<T>)
    ensures multiset(r) == multiset(s)
  {
    if s == [] then []
    else
      assert s == [s[0]] + s[1..];
      Insert(s[0], SortBy(s[1..], le), le)
  }

  lemma SortByLength<T>(s: seq<T>, le: (T, T) -> bool)
    ensures |SortBy(s, le)| == |s|
  {
    assert |multiset(SortBy(s, le))| == |multiset(s)|;
  }

  lemma SortByMembers<T>(s: seq<T>, le: (T, T) -> bool)
    ensures forall x :: x in SortBy(s, le) <==> x in s
  {
    forall x ensures x in SortBy(s, le) <==> x in s {
      assert x in SortBy(s, le) <==> x in multiset(SortBy(s, le));
      assert x in s <==> x in multiset(s);
    }
  }

  lemma {:induction false} InsertSorted<T(!new)>(x: T, s: seq<T>, le: (T, T) -> bool)
    requires TotalPreorder(le) && Sorted(s, le)
    ensures Sorted(Insert(x, s, le), le)
  {
    if s == [] {
    } else if le(x, s[0]) {
      var r := [x] + s;
      forall i, j | 0 <= i < j < |r| ensures le(r[i], r[j]) {
        if i == 0 && j > 1 { assert le(s[0], s[j - 1]); }
      }
    } else {
      assert le(s[0], x);
      InsertSorted(x, s[1..], le);
      var tail := Insert(x, s[1..], le);
      assert forall y :: y in tail ==> le(s[0], y) by {
        forall y | y in tail ensures le(s[0], y) {
          assert y in multiset(tail);
          if y != x {
            assert y in multiset(s[1..]);
            var k :| 0 <= k < |s[1..]| && s[1..][k] == y;
            assert s[k + 1] == y;
          }
        }
      }
      var r := [s[0]] + tail;
      forall i, j | 0 <= i < j < |r| ensures le(r[i], r[j]) {
        if i == 0 { assert r[j] in tail; } else { assert r[i] == tail[i - 1] && r[j] == tail[j - 1]; }
      }
    }
  }

  /** Under a total preorder the result of `SortBy` is sorted. */
  lemma {:induction false} SortBySorted<T(!new)>(s: seq<T>, le: (T, T) -> bool)
    requires TotalPreorder(le)
    ensures Sorted(SortBy(s, le), le)
  {
    if s != [] {
      SortBySorted(s[1..], le);
      InsertSorted(s[0], SortBy(s[1..], le), le);
    }
  }

  /** Sorting a sequence that is already in order changes nothing. */
  lemma {:induction false} SortBySortedIdentity<T>(s: seq<T>, le: (T, T) -> bool)
    requires Sorted(s, le)
    ensures SortBy(s, le) == s
  {
    if s != [] {
      assert Sorted(s[1..], le);
      SortBySortedIdentity(s[1..], le);
      assert s == [s[0]] + s[1..];
    }
  }

  /** The head of a sorted sequence is `le` every element. */
  lemma SortedHeadIsLeast<T(!new)>(s: seq<T>, le: (T, T) -> bool)
    requires TotalPreorder(le) && Sorted(s, le) && s != []
    ensures forall x :: x in s ==> le(s[0], x)
  {
    forall x | x in s ensures le(s[0], x) {
      var k :| 0 <= k < |s| && s[k] == x;
      if k == 0 { assert le(x, x) || le(x, x); }
    }
  }
}
