/** Filtering and stable sorting of sequences, as JavaScript's `filter` and `sort` do them. */
module Sequences {

  /** The elements of `s` that `keep` accepts, in order. */
  function Filter<T(!new)>(keep: T -> bool, s: seq<T>): (r: seq<T>)
    ensures forall x :: x in r <==> x in s && keep(x)
  {
    if s == [] then [] else (if keep(s[0]) then [s[0]] else []) + Filter(keep, s[1..])
  }

  /** The indices at which `keep` accepts, in order. */
  function Places<T>(keep: T -> bool, s: seq<T>): (r: seq<nat>)
    ensures forall i :: 0 <= i < |r| ==> r[i] < |s| && keep(s[r[i]])
    ensures forall i, j :: 0 <= i < j < |r| ==> r[i] < r[j]
    ensures forall p: nat :: p < |s| && keep(s[p]) ==> p in r
  {
    if s == [] then []
    else
      var n := |s| - 1;
      var before := Places(keep, s[..n]);
      assert forall p: nat :: p < n ==> s[..n][p] == s[p];
      if keep(s[n]) then before + [n] else before
  }

  lemma {:induction false} FilterSnoc<T(!new)>(keep: T -> bool, s: seq<T>, x: T)
    ensures Filter(keep, s + [x]) == Filter(keep, s) + if keep(x) then [x] else []
  {
    if s == [] {
      assert [x][1..] == [];
    } else {
      assert (s + [x])[1..] == s[1..] + [x];
      FilterSnoc(keep, s[1..], x);
    }
  }

  lemma FilterLast<T(!new)>(keep: T -> bool, s: seq<T>)
    requires s != []
    ensures var front, x := s[..|s| - 1], s[|s| - 1];
      Filter(keep, s) == Filter(keep, front) + if keep(x) then [x] else []
  {
    var front, x := s[..|s| - 1], s[|s| - 1];
    assert s == front + [x];
    FilterSnoc(keep, front, x);
  }

  /** Filtering takes exactly the elements at those places, in order. */
  lemma {:induction false} FilterPlaces<T(!new)>(keep: T -> bool, s: seq<T>)
    ensures |Filter(keep, s)| == |Places(keep, s)|
    ensures forall i :: 0 <= i < |Filter(keep, s)| ==> Filter(keep, s)[i] == s[Places(keep, s)[i]]
  {
    if s != [] {
      var front, x := s[..|s| - 1], s[|s| - 1];
      FilterPlaces(keep, front);
      FilterLast(keep, s);
      var kept, places := Filter(keep, front), Places(keep, front);
      forall i | 0 <= i < |Filter(keep, s)| ensures Filter(keep, s)[i] == s[Places(keep, s)[i]] {
        if i < |kept| { assert kept[i] == front[places[i]] == s[places[i]]; }
      }
    }
  }

  /** An element that is kept and stood before another one is kept before it. */
  lemma KeptBefore<T(!new)>(keep: T -> bool, s: seq<T>, i: nat, k: nat) returns (j: nat)
    requires i < |Places(keep, s)| && k < Places(keep, s)[i] && keep(s[k])
    ensures j < i && j < |Filter(keep, s)| && Filter(keep, s)[j] == s[k]
  {
    FilterPlaces(keep, s);
    j :| 0 <= j < |Places(keep, s)| && Places(keep, s)[j] == k;
    assert j != i && !(i < j);
  }

  lemma {:induction false} CountAtLeast<T(!new)>(keep: T -> bool, s: seq<T>, lo: nat, hi: nat)
    requires lo <= hi <= |s| && forall i :: lo <= i < hi ==> keep(s[i])
    ensures |Filter(keep, s)| >= hi - lo
  {
    if s != [] && hi > 0 {
      CountAtLeast(keep, s[1..], if lo > 0 then lo - 1 else 0, hi - 1);
    }
  }

  lemma {:induction false} CountSplits<T(!new)>(keep: T -> bool, drop: T -> bool, s: seq<T>)
    requires forall x :: keep(x) == !drop(x)
    ensures |Filter(keep, s)| + |Filter(drop, s)| == |s|
  {
    if s != [] { CountSplits(keep, drop, s[1..]); }
  }

  /** `le(a, b)` says that `a` may stand before `b`; ties are allowed. */
  ghost predicate TotalPreorder<T(!new)>(le: (T, T) -> bool) {
    && (forall a, b :: le(a, b) || le(b, a))
    && (forall a, b, c :: le(a, b) && le(b, c) ==> le(a, c))
  }

  ghost predicate Sorted<T>(le: (T, T) -> bool, s: seq<T>) {
    forall i, j :: 0 <= i < j < |s| ==> le(s[i], s[j])
  }

  function Insert<T>(le: (T, T) -> bool, x: T, s: seq<T>): (r: seq<T>)
    ensures multiset(r) == multiset(s) + multiset{x}
  {
    if s == [] || le(x, s[0]) then [x] + s
    else
      assert s == [s[0]] + s[1..];
      [s[0]] + Insert(le, x, s[1..])
  }

  /** The stable sort of `s`: an element goes in front of the equal ones that followed it. */
  function Sort<T>(le: (T, T) -> bool, s: seq<T>): (r: seq<T>)
    ensures multiset(r) == multiset(s)
  {
    if s == [] then []
    else
      assert s == [s[0]] + s[1..];
      Insert(le, s[0], Sort(le, s[1..]))
  }

  lemma {:induction false} InsertSorted<T(!new)>(le: (T, T) -> bool, x: T, s: seq<T>)
    requires TotalPreorder(le) && Sorted(le, s)
    ensures Sorted(le, Insert(le, x, s))
  {
    if s != [] && !le(x, s[0]) {
      var rest := Insert(le, x, s[1..]);
      InsertSorted(le, x, s[1..]);
      forall y | y in rest ensures le(s[0], y) {
        assert y in multiset(rest);
        assert y == x || y in s[1..];
      }
    } else {
      forall i | 0 <= i < |s| ensures le(x, s[i]) {
        assert le(x, s[0]) && (i == 0 || le(s[0], s[i]));
      }
    }
  }

  lemma {:induction false} SortSorted<T(!new)>(le: (T, T) -> bool, s: seq<T>)
    requires TotalPreorder(le)
    ensures Sorted(le, Sort(le, s))
    ensures forall x :: x in Sort(le, s) <==> x in s
  {
    if s != [] {
      SortSorted(le, s[1..]);
      InsertSorted(le, s[0], Sort(le, s[1..]));
    }
    forall x ensures x in Sort(le, s) <==> x in s {
      assert x in multiset(Sort(le, s)) <==> x in multiset(s);
    }
  }

  lemma {:induction false} InsertCounts<T(!new)>(le: (T, T) -> bool, keep: T -> bool, x: T, s: seq<T>)
    ensures |Filter(keep, Insert(le, x, s))| == |Filter(keep, s)| + if keep(x) then 1 else 0
  {
    if s == [] || le(x, s[0]) {
      assert ([x] + s)[1..] == s;
    } else {
      InsertCounts(le, keep, x, s[1..]);
      assert Insert(le, x, s)[1..] == Insert(le, x, s[1..]);
    }
  }

  /** Sorting keeps how many elements meet a condition. */
  lemma {:induction false} SortCounts<T(!new)>(le: (T, T) -> bool, keep: T -> bool, s: seq<T>)
    ensures |Filter(keep, Sort(le, s))| == |Filter(keep, s)|
  {
    if s != [] {
      SortCounts(le, keep, s[1..]);
      InsertCounts(le, keep, s[0], Sort(le, s[1..]));
    }
  }

  function Tied<T>(le: (T, T) -> bool, x: T): T -> bool {
    y => le(x, y) && le(y, x)
  }

  lemma {:induction false} InsertTied<T(!new)>(le: (T, T) -> bool, x: T, y: T, s: seq<T>)
    requires TotalPreorder(le) && Sorted(le, s)
    ensures Filter(Tied(le, x), Insert(le, y, s)) == Filter(Tied(le, x), [y] + s)
  {
    if s != [] && !le(y, s[0]) {
      InsertTied(le, x, y, s[1..]);
      assert ([y] + s)[1..] == s && ([y] + s[1..])[1..] == s[1..];
      var r := Insert(le, y, s);
      assert r[0] == s[0] && r[1..] == Insert(le, y, s[1..]);
    } else {
      assert Insert(le, y, s) == [y] + s;
    }
  }

  /** Stability: among elements that tie with `x`, sorting keeps the original order. */
  lemma {:induction false} SortStable<T(!new)>(le: (T, T) -> bool, x: T, s: seq<T>)
    requires TotalPreorder(le)
    ensures Filter(Tied(le, x), Sort(le, s)) == Filter(Tied(le, x), s)
  {
    if s != [] {
      SortStable(le, x, s[1..]);
      SortSorted(le, s[1..]);
      InsertTied(le, x, s[0], Sort(le, s[1..]));
      assert ([s[0]] + Sort(le, s[1..]))[1..] == Sort(le, s[1..]);
    }
  }

  /** Of two sequences that are the same once filtered, what comes first in one comes first in the other. */
  lemma SameOrder<T(!new)>(keep: T -> bool, s: seq<T>, t: seq<T>, j: nat) returns (q: nat)
    requires Filter(keep, s) == Filter(keep, t) && j < |t| && keep(t[j])
    ensures q < |s| && s[q] == t[j]
    ensures forall p :: 0 <= p < q && keep(s[p]) ==> exists k :: 0 <= k < j && t[k] == s[p]
  {
    FilterPlaces(keep, s);
    FilterPlaces(keep, t);
    var i :| 0 <= i < |Places(keep, t)| && Places(keep, t)[i] == j;
    q := Places(keep, s)[i];
    forall p | 0 <= p < q && keep(s[p]) ensures exists k :: 0 <= k < j && t[k] == s[p] {
      var i' := KeptBefore(keep, s, i, p);
      assert t[Places(keep, t)[i']] == s[p];
    }
  }

  /**
   * Where in the unsorted sequence the sorted element number `j` stood: whatever ties with it and
   * stood before it there is sorted before it too.
   */
  lemma TiesKeepOrder<T(!new)>(le: (T, T) -> bool, s: seq<T>, j: nat) returns (q: nat)
    requires TotalPreorder(le) && j < |Sort(le, s)|
    ensures q < |s| && s[q] == Sort(le, s)[j]
    ensures forall p :: 0 <= p < q && le(s[q], s[p]) && le(s[p], s[q]) ==>
      exists k :: 0 <= k < j && Sort(le, s)[k] == s[p]
  {
    var x := Sort(le, s)[j];
    assert le(x, x);
    SortStable(le, x, s);
    q := SameOrder(Tied(le, x), s, Sort(le, s), j);
    forall p | 0 <= p < q && le(x, s[p]) && le(s[p], x) ensures Tied(le, x)(s[p]) {}
  }
}
