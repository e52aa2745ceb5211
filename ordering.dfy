/** Row-set operations that the SQL queries are built from: filtering,
    `ORDER BY`, and the duplicate removal of `DISTINCT`. */
module Ordering {

  ghost predicate Total<T(!new)>(le: (T, T) -> bool) {
    forall a, b :: le(a, b) || le(b, a)
  }

  ghost predicate Transitive<T(!new)>(le: (T, T) -> bool) {
    forall a, b, c :: le(a, b) && le(b, c) ==> le(a, c)
  }

  ghost predicate Antisymmetric<T(!new)>(le: (T, T) -> bool) {
    forall a, b :: le(a, b) && le(b, a) ==> a == b
  }

  ghost predicate TotalPreorder<T(!new)>(le: (T, T) -> bool) {
    Total(le) && Transitive(le)
  }

  ghost predicate SortedBy<T>(s: seq<T>, le: (T, T) -> bool) {
    forall i, j :: 0 <= i < j < |s| ==> le(s[i], s[j])
  }

  /** `WHERE p`: the rows of `s` that satisfy `p`, in table order. */
  function Filter<T(!new)>(s: seq<T>, p: T -> bool): (r: seq<T>)
    ensures |r| <= |s|
    ensures forall x :: x in r <==> x in s && p(x)
    ensures (forall x :: x in s ==> !p(x)) ==> r == []
  {
    if s == [] then []
    else
      var rest := Filter(s[1..], p);
      assert s == [s[0]] + s[1..];
      if p(s[0]) then [s[0]] + rest else rest
  }

  /** `WHERE` keeps every selected row as often as the table holds it. */
  lemma {:induction false} FilterCounts<T(!new)>(s: seq<T>, p: T -> bool, x: T)
    requires p(x)
    ensures multiset(Filter(s, p))[x] == multiset(s)[x]
  {
    if s != [] {
      FilterCounts(s[1..], p, x);
      assert s == [s[0]] + s[1..];
    }
  }

  /** The projection `[f(x) for x in s]` (a SELECT list). */
  function Map<T(!new), U(!new)>(s: seq<T>, f: T -> U): (r: seq<U>)
    ensures |r| == |s|
    ensures forall i :: 0 <= i < |s| ==> r[i] == f(s[i])
    ensures forall y :: y in r <==> exists x :: x in s && f(x) == y
  {
    if s == [] then []
    else
      var rest := Map(s[1..], f);
      assert s == [s[0]] + s[1..];
      assert forall x :: x in s ==> x == s[0] || x in s[1..];
      [f(s[0])] + rest
  }

  /** Inserting `x` into a sorted sequence at the first place where it
      does not exceed the next element. */
  function Insert<T(!new)>(x: T, s: seq<T>, le: (T, T) -> bool): (r: seq<T>)
    ensures multiset(r) == multiset(s) + multiset{x}
    ensures TotalPreorder(le) && SortedBy(s, le) ==> SortedBy(r, le)
  {
    if s == [] then [x]
    else if le(x, s[0]) then [x] + s
    else
      var rest := Insert(x, s[1..], le);
      assert s == [s[0]] + s[1..];
      InsertHead(x, s, le, rest);
      [s[0]] + rest
  }

  lemma InsertHead<T(!new)>(x: T, s: seq<T>, le: (T, T) -> bool, rest: seq<T>)
    requires s != [] && !le(x, s[0])
    requires multiset(rest) == multiset(s[1..]) + multiset{x}
    requires TotalPreorder(le) && SortedBy(s, le) ==> SortedBy(rest, le)
    ensures TotalPreorder(le) && SortedBy(s, le) ==> SortedBy([s[0]] + rest, le)
  {
    if TotalPreorder(le) && SortedBy(s, le) {
      forall k | 0 <= k < |rest| ensures le(s[0], rest[k]) {
        assert rest[k] in multiset(rest);
        if rest[k] == x {
        } else {
          assert rest[k] in multiset(s[1..]);
          var j :| 0 <= j < |s[1..]| && s[1..][j] == rest[k];
          assert s[j + 1] == rest[k];
        }
      }
    }
  }

  /** `ORDER BY` under `le`, by insertion sort: a permutation of the rows
      that is sorted whenever `le` is a total preorder. */
  function SortBy<T(!new)>(s: seq<T>, le: (T, T) -> bool): (r: seq<T>)
    ensures multiset(r) == multiset(s)
    ensures TotalPreorder(le) ==> SortedBy(r, le)
  {
    if s == [] then []
    else
      assert s == [s[0]] + s[1..];
      Insert(s[0], SortBy(s[1..], le), le)
  }

  /** Removal of adjacent repeats; on a sorted sequence, all repeats. */
  function Dedup<T(==,!new)>(s: seq<T>): (r: seq<T>)
    ensures forall x :: x in r <==> x in s
    ensures forall i :: 0 <= i < |r| - 1 ==> r[i] != r[i + 1]
    ensures r == [] <==> s == []
    ensures r != [] ==> r[0] == s[0]
  {
    if |s| <= 1 then s
    else
      var rest := Dedup(s[1..]);
      assert s == [s[0]] + s[1..];
      if s[0] == s[1] then rest else [s[0]] + rest
  }

  lemma {:induction false} DedupSorted<T(!new)>(s: seq<T>, le: (T, T) -> bool)
    requires SortedBy(s, le)
    ensures SortedBy(Dedup(s), le)
  {
    if |s| > 1 {
      assert SortedBy(s[1..], le);
      DedupSorted(s[1..], le);
      var rest := Dedup(s[1..]);
      forall x | x in rest ensures le(s[0], x) {
        var j :| 0 <= j < |s[1..]| && s[1..][j] == x;
        assert s[j + 1] == x;
      }
    }
  }

  /** A sorted sequence without adjacent repeats has no repeats at all,
      provided `le` is antisymmetric and transitive. */
  lemma {:induction false} SortedAdjacentDistinct<T(!new)>(s: seq<T>, le: (T, T) -> bool)
    requires Antisymmetric(le) && Transitive(le)
    requires SortedBy(s, le)
    requires forall i :: 0 <= i < |s| - 1 ==> s[i] != s[i + 1]
    ensures forall i, j :: 0 <= i < j < |s| ==> s[i] != s[j]
  {
    forall i, j | 0 <= i < j < |s| ensures s[i] != s[j] {
      if j > i + 1 {
        assert le(s[i], s[i + 1]) && le(s[i + 1], s[j]) && s[i] != s[i + 1];
      }
    }
  }
}
