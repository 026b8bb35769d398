/**
 Sequences ordered by a less-than comparison: what `std::sort` promises, and the
 inversion count that bounds the number of rounds of the distributed sort.
 */
module Sorting {

  /** The comparison a standard sort demands: irreflexive, transitive, and with
      transitive incomparability. */
  ghost predicate StrictWeakOrder<T(!new)>(less: (T, T) -> bool) {
    && (forall x :: !less(x, x))
    && (forall x, y, z :: less(x, y) && less(y, z) ==> less(x, z))
    && (forall x, y, z :: less(x, z) ==> less(x, y) || less(y, z))
  }

  /** No two different items of `s` are tied. */
  ghost predicate TotalOn<T>(less: (T, T) -> bool, s: seq<T>) {
    forall x, y :: x in s && y in s && x != y ==> less(x, y) || less(y, x)
  }

  ghost predicate Sorted<T>(less: (T, T) -> bool, s: seq<T>) {
    forall i, j :: 0 <= i < j < |s| ==> !less(s[j], s[i])
  }

  function Insert<T>(less: (T, T) -> bool, x: T, s: seq<T>): (r: seq<T>)
    ensures |r| == |s| + 1
  {
    if s == [] || !less(s[0], x) then [x] + s else [s[0]] + Insert(less, x, s[1..])
  }

  /** A model of `std::sort` on a whole range. `SortedUnique` shows that nothing
      is lost by fixing the algorithm: without ties every sorted arrangement of
      the items is this one. */
  function Sort<T>(less: (T, T) -> bool, s: seq<T>): (r: seq<T>)
    ensures |r| == |s|
  {
    if s == [] then [] else Insert(less, s[0], Sort(less, s[1..]))
  }

  lemma {:induction false} InsertSorts<T(!new)>(less: (T, T) -> bool, x: T, s: seq<T>)
    requires StrictWeakOrder(less) && Sorted(less, s)
    ensures Sorted(less, Insert(less, x, s))
    ensures multiset(Insert(less, x, s)) == multiset{x} + multiset(s)
  {
    if s == [] {
    } else if !less(s[0], x) {
      forall j | 0 <= j < |s| ensures !less(s[j], x) {
        assert j > 0 ==> !less(s[j], s[0]);
      }
    } else {
      var rest := Insert(less, x, s[1..]);
      InsertSorts(less, x, s[1..]);
      assert s == [s[0]] + s[1..];
      HeadStays(less, s[0], x, s[1..], rest);
    }
  }

  lemma {:induction false} HeadStays<T(!new)>(less: (T, T) -> bool, head: T, x: T, tail: seq<T>, rest: seq<T>)
    requires !less(x, head) && forall k :: 0 <= k < |tail| ==> !less(tail[k], head)
    requires multiset(rest) == multiset{x} + multiset(tail)
    ensures forall j :: 0 <= j < |rest| ==> !less(rest[j], head)
  {
    forall j | 0 <= j < |rest| ensures !less(rest[j], head) {
      assert rest[j] in multiset(rest);
      if rest[j] != x {
        assert rest[j] in multiset(tail);
      }
    }
  }

  lemma {:induction false} SortSorts<T(!new)>(less: (T, T) -> bool, s: seq<T>)
    requires StrictWeakOrder(less)
    ensures Sorted(less, Sort(less, s))
    ensures multiset(Sort(less, s)) == multiset(s)
  {
    if s != [] {
      SortSorts(less, s[1..]);
      InsertSorts(less, s[0], Sort(less, s[1..]));
      assert s == [s[0]] + s[1..];
    }
  }

  lemma {:induction false} SameItems<T>(a: seq<T>, b: seq<T>, x: T)
    requires multiset(a) == multiset(b)
    ensures x in a <==> x in b
  {
    assert x in a <==> x in multiset(a);
    assert x in b <==> x in multiset(b);
  }

  lemma {:induction false} TotalOnPermutation<T>(less: (T, T) -> bool, a: seq<T>, b: seq<T>)
    requires TotalOn(less, a) && multiset(a) == multiset(b)
    ensures TotalOn(less, b)
  {
    forall x, y | x in b && y in b && x != y ensures less(x, y) || less(y, x) {
      SameItems(a, b, x);
      SameItems(a, b, y);
    }
  }

  /** The first item of `s` sits somewhere in any permutation of `s`; dropping it
      on both sides leaves permutations. */
  lemma {:induction false} DropShared<T>(s: seq<T>, t: seq<T>) returns (k: nat)
    requires s != [] && multiset(s) == multiset(t)
    ensures k < |t| && t[k] == s[0]
    ensures multiset(s[1..]) == multiset(t[..k] + t[k + 1..])
  {
    SameItems(s, t, s[0]);
    k :| 0 <= k < |t| && t[k] == s[0];
    DropFirst(s);
    DropOne(t, k);
  }

  lemma {:induction false} DropFirst<T>(s: seq<T>)
    requires s != []
    ensures multiset(s[1..]) == multiset(s) - multiset{s[0]}
  {
    assert s == [s[0]] + s[1..];
  }

  lemma {:induction false} DropOne<T>(s: seq<T>, k: nat)
    requires k < |s|
    ensures multiset(s[..k] + s[k + 1..]) == multiset(s) - multiset{s[k]}
  {
    assert s == s[..k] + ([s[k]] + s[k + 1..]);
  }

  /** Without ties there is exactly one sorted arrangement. */
  lemma {:induction false} SortedUnique<T>(less: (T, T) -> bool, a: seq<T>, b: seq<T>)
    requires TotalOn(less, a)
    requires Sorted(less, a) && Sorted(less, b) && multiset(a) == multiset(b)
    ensures a == b
  {
    if a == [] {
      assert |multiset(b)| == 0;
    } else {
      SameHead(less, a, b);
      TotalOnTail(less, a);
      SameTails(a, b);
      SortedUnique(less, a[1..], b[1..]);
      assert a == [a[0]] + a[1..] && b == [b[0]] + b[1..];
    }
  }

  lemma {:induction false} SameTails<T>(a: seq<T>, b: seq<T>)
    requires a != [] && b != [] && a[0] == b[0] && multiset(a) == multiset(b)
    ensures multiset(a[1..]) == multiset(b[1..])
  {
    DropFirst(a);
    DropFirst(b);
  }

  lemma {:induction false} TotalOnTail<T>(less: (T, T) -> bool, s: seq<T>)
    requires s != [] && TotalOn(less, s)
    ensures TotalOn(less, s[1..])
  {
    forall x, y | x in s[1..] && y in s[1..] && x != y ensures less(x, y) || less(y, x) {
      assert x in s && y in s;
    }
  }

  lemma {:induction false} SameHead<T>(less: (T, T) -> bool, a: seq<T>, b: seq<T>)
    requires TotalOn(less, a) && Sorted(less, a) && Sorted(less, b)
    requires a != [] && multiset(a) == multiset(b)
    ensures b != [] && a[0] == b[0]
  {
    SameItems(a, b, a[0]);
    var j :| 0 <= j < |b| && b[j] == a[0];
    SameItems(a, b, b[0]);
    var i :| 0 <= i < |a| && a[i] == b[0];
  }

  /** Sorting leaves a sorted range alone, so it changes nothing only there. */
  lemma {:induction false} SortFixed<T(!new)>(less: (T, T) -> bool, s: seq<T>)
    requires StrictWeakOrder(less) && TotalOn(less, s)
    ensures Sort(less, s) == s <==> Sorted(less, s)
  {
    SortSorts(less, s);
    if Sorted(less, s) {
      SortedUnique(less, s, Sort(less, s));
    }
  }

  // ---------------------------------------------------------------- inversions

  /** How many items of `s` belong before `x`. */
  function Below<T>(less: (T, T) -> bool, x: T, s: seq<T>): nat {
    if s == [] then 0 else (if less(s[0], x) then 1 else 0) + Below(less, x, s[1..])
  }

  /** How many pairs (a, b) of `s` x `t` have b belonging before a. */
  function Cross<T>(less: (T, T) -> bool, s: seq<T>, t: seq<T>): nat {
    if s == [] then 0 else Below(less, s[0], t) + Cross(less, s[1..], t)
  }

  /** How many pairs of positions of `s` are out of order. */
  function Inversions<T>(less: (T, T) -> bool, s: seq<T>): nat {
    if s == [] then 0 else Below(less, s[0], s[1..]) + Inversions(less, s[1..])
  }

  lemma {:induction false} BelowConcat<T>(less: (T, T) -> bool, x: T, s: seq<T>, t: seq<T>)
    ensures Below(less, x, s + t) == Below(less, x, s) + Below(less, x, t)
  {
    if s == [] {
      assert s + t == t;
    } else {
      assert (s + t)[1..] == s[1..] + t;
      BelowConcat(less, x, s[1..], t);
    }
  }

  lemma {:induction false} InversionsConcat<T>(less: (T, T) -> bool, s: seq<T>, t: seq<T>)
    ensures Inversions(less, s + t) == Inversions(less, s) + Cross(less, s, t) + Inversions(less, t)
  {
    if s == [] {
      assert s + t == t;
    } else {
      assert (s + t)[1..] == s[1..] + t;
      BelowConcat(less, s[0], s[1..], t);
      InversionsConcat(less, s[1..], t);
    }
  }

  lemma {:induction false} BelowPermuted<T>(less: (T, T) -> bool, x: T, s: seq<T>, t: seq<T>)
    requires multiset(s) == multiset(t)
    ensures Below(less, x, s) == Below(less, x, t)
  {
    if s == [] {
      assert |multiset(t)| == 0;
    } else {
      var k := DropShared(s, t);
      var u, v := t[..k], t[k + 1..];
      assert t == u + ([t[k]] + v);
      BelowPermuted(less, x, s[1..], u + v);
      BelowConcat(less, x, u, [t[k]] + v);
      BelowConcat(less, x, [t[k]], v);
      BelowConcat(less, x, u, v);
    }
  }

  lemma {:induction false} CrossConcatLeft<T>(less: (T, T) -> bool, s: seq<T>, u: seq<T>, t: seq<T>)
    ensures Cross(less, s + u, t) == Cross(less, s, t) + Cross(less, u, t)
  {
    if s == [] {
      assert s + u == u;
    } else {
      assert (s + u)[1..] == s[1..] + u;
      CrossConcatLeft(less, s[1..], u, t);
    }
  }

  lemma {:induction false} CrossPermutedRight<T>(less: (T, T) -> bool, s: seq<T>, t: seq<T>, t': seq<T>)
    requires multiset(t) == multiset(t')
    ensures Cross(less, s, t) == Cross(less, s, t')
  {
    if s != [] {
      BelowPermuted(less, s[0], t, t');
      CrossPermutedRight(less, s[1..], t, t');
    }
  }

  lemma {:induction false} CrossPermutedLeft<T>(less: (T, T) -> bool, s: seq<T>, s': seq<T>, t: seq<T>)
    requires multiset(s) == multiset(s')
    ensures Cross(less, s, t) == Cross(less, s', t)
  {
    if s == [] {
      assert |multiset(s')| == 0;
    } else {
      var k := DropShared(s, s');
      var u, v := s'[..k], s'[k + 1..];
      assert s' == u + ([s'[k]] + v);
      CrossPermutedLeft(less, s[1..], u + v, t);
      CrossConcatLeft(less, u, [s'[k]] + v, t);
      CrossConcatLeft(less, [s'[k]], v, t);
      CrossConcatLeft(less, u, v, t);
    }
  }

  lemma {:induction false} BelowZero<T>(less: (T, T) -> bool, x: T, s: seq<T>)
    ensures Below(less, x, s) <= |s|
    ensures Below(less, x, s) == 0 <==> (forall i :: 0 <= i < |s| ==> !less(s[i], x))
  {
    if s != [] {
      BelowZero(less, x, s[1..]);
      assert forall i :: 1 <= i < |s| ==> s[i] == s[1..][i - 1];
    }
  }

  /** A range is sorted exactly when it has no inversion, and n items have at
      most n(n-1)/2 of them. */
  lemma {:induction false} InversionsZero<T>(less: (T, T) -> bool, s: seq<T>)
    ensures Inversions(less, s) == 0 <==> Sorted(less, s)
    ensures 2 * Inversions(less, s) <= |s| * (|s| - 1)
  {
    if s != [] {
      InversionsZero(less, s[1..]);
      BelowZero(less, s[0], s[1..]);
      OneMore(|s|);
      hide Below;
      SortedHead(less, s);
    }
  }

  lemma {:induction false} OneMore(n: int)
    ensures n * (n - 1) == (n - 1) * (n - 2) + 2 * (n - 1)
  {
  }

  lemma {:induction false} SortedHead<T>(less: (T, T) -> bool, s: seq<T>)
    requires s != []
    ensures Sorted(less, s) <==> Sorted(less, s[1..]) && forall i :: 0 <= i < |s[1..]| ==> !less(s[1..][i], s[0])
  {
    var t := s[1..];
    assert forall i :: 1 <= i < |s| ==> s[i] == t[i - 1];
    if Sorted(less, s) {
      forall i, j | 0 <= i < j < |t| ensures !less(t[j], t[i]) {
        assert !less(s[j + 1], s[i + 1]);
      }
      forall i | 0 <= i < |t| ensures !less(t[i], s[0]) {
        assert !less(s[i + 1], s[0]);
      }
    }
  }

  /** Sorting a block inside a longer sequence removes exactly the inversions
      within that block, whatever rearrangement the rest goes through. */
  lemma {:induction false} SortBlockInversions<T(!new)>(less: (T, T) -> bool, s: seq<T>, rest: seq<T>, rest': seq<T>)
    requires StrictWeakOrder(less) && multiset(rest) == multiset(rest')
    ensures Inversions(less, s + rest) - Inversions(less, Sort(less, s) + rest')
         == Inversions(less, s) + Inversions(less, rest) - Inversions(less, rest')
  {
    SortSorts(less, s);
    InversionsZero(less, Sort(less, s));
    InversionsConcat(less, s, rest);
    InversionsConcat(less, Sort(less, s), rest');
    CrossPermutedLeft(less, s, Sort(less, s), rest);
    CrossPermutedRight(less, Sort(less, s), rest, rest');
  }
}
