/**
 Sorting by index: an index vector is filled with 0, 1, 2, ... and sorted by
 comparing the items the indices point at; the items are then gathered.
 */
module SortIndex {
  import opened Sorting

  function Iota(from: nat, to: nat): (s: seq<nat>)
    requires from <= to
    ensures |s| == to - from
  {
    seq(to - from, i requires 0 <= i < to - from => from + i)
  }

  /** Compares positions of `s` by the items there. */
  function By<T>(less: (T, T) -> bool, s: seq<T>): (nat, nat) -> bool
    requires s != []
  {
    (a: nat, b: nat) => less(s[if a < |s| then a else 0], s[if b < |s| then b else 0])
  }

  /** The positions of `s` from `from` on, in the order of their items. */
  function Indices<T>(less: (T, T) -> bool, s: seq<T>, from: nat): (index: seq<nat>)
    requires from <= |s|
    ensures |index| == |s| - from
  {
    if s == [] then [] else Sort(By(less, s), Iota(from, |s|))
  }

  ghost predicate InRange(index: seq<nat>, from: nat, to: nat) {
    forall i :: 0 <= i < |index| ==> from <= index[i] < to
  }

  ghost predicate StrictlyIncreasing(s: seq<nat>) {
    forall i, j :: 0 <= i < j < |s| ==> s[i] < s[j]
  }

  function Gather<T>(s: seq<T>, index: seq<nat>): (g: seq<T>)
    requires InRange(index, 0, |s|)
    ensures |g| == |index|
  {
    seq(|index|, i requires 0 <= i < |index| => s[index[i]])
  }

  lemma {:induction false} GatherPermutes<T>(s: seq<T>, a: seq<nat>, b: seq<nat>)
    requires InRange(a, 0, |s|) && InRange(b, 0, |s|) && multiset(a) == multiset(b)
    ensures multiset(Gather(s, a)) == multiset(Gather(s, b))
  {
    if a == [] {
      assert |multiset(b)| == 0;
    } else {
      var k := DropShared(a, b);
      var u, v := b[..k], b[k + 1..];
      GatherPermutes(s, a[1..], u + v);
      assert Gather(s, a) == [s[a[0]]] + Gather(s, a[1..]);
      assert Gather(s, b) == Gather(s, u) + [s[a[0]]] + Gather(s, v);
      assert Gather(s, u + v) == Gather(s, u) + Gather(s, v);
    }
  }

  lemma {:induction false} IotaMember(from: nat, to: nat, x: nat)
    requires from <= to && x in Iota(from, to)
    ensures from <= x < to
  {
  }

  lemma {:induction false} RangeOf(index: seq<nat>, from: nat, to: nat)
    requires from <= to && multiset(index) == multiset(Iota(from, to))
    ensures InRange(index, from, to)
  {
    hide Iota;
    forall i | 0 <= i < |index| ensures from <= index[i] < to {
      SameItems(index, Iota(from, to), index[i]);
      IotaMember(from, to, index[i]);
    }
  }

  lemma {:induction false} IndicesInRange<T(!new)>(less: (T, T) -> bool, s: seq<T>, from: nat)
    requires StrictWeakOrder(less) && from <= |s|
    ensures InRange(Indices(less, s, from), from, |s|)
    ensures multiset(Indices(less, s, from)) == multiset(Iota(from, |s|))
    ensures s != [] ==> StrictWeakOrder(By(less, s)) && Sorted(By(less, s), Indices(less, s, from))
  {
    if s == [] {
      assert Iota(from, |s|) == [];
    } else {
      hide StrictWeakOrder, Sorted, By, Iota, Sort;
      ByWeakOrder(less, s);
      SortSorts(By(less, s), Iota(from, |s|));
      RangeOf(Indices(less, s, from), from, |s|);
    }
  }

  lemma {:induction false} ByWeakOrder<T(!new)>(less: (T, T) -> bool, s: seq<T>)
    requires StrictWeakOrder(less) && s != []
    ensures StrictWeakOrder(By(less, s))
  {
  }

  lemma {:induction false} SortedByGathers<T>(less: (T, T) -> bool, s: seq<T>, index: seq<nat>)
    requires s != [] && InRange(index, 0, |s|) && Sorted(By(less, s), index)
    ensures Sorted(less, Gather(s, index))
  {
    forall i, j | 0 <= i < j < |index| ensures !less(s[index[j]], s[index[i]]) {
      assert !By(less, s)(index[j], index[i]);
    }
  }

  lemma {:induction false} GatherIota<T>(s: seq<T>, from: nat)
    requires from <= |s|
    ensures InRange(Iota(from, |s|), 0, |s|) && Gather(s, Iota(from, |s|)) == s[from..]
  {
  }

  /** Gathering by the sorted index sorts the items. */
  lemma {:induction false} GatherSorts<T(!new)>(less: (T, T) -> bool, s: seq<T>, from: nat)
    requires StrictWeakOrder(less) && from <= |s|
    ensures InRange(Indices(less, s, from), 0, |s|)
    ensures Sorted(less, Gather(s, Indices(less, s, from)))
    ensures multiset(Gather(s, Indices(less, s, from))) == multiset(s[from..])
  {
    hide StrictWeakOrder, Sort, Iota, Gather, Indices, Sorted, By;
    var index := Indices(less, s, from);
    IndicesInRange(less, s, from);
    GatherIota(s, from);
    GatherPermutes(s, index, Iota(from, |s|));
    if s == [] {
      EmptyGather(less, index);
    } else {
      SortedByGathers(less, s, index);
    }
  }

  lemma {:induction false} EmptyGather<T>(less: (T, T) -> bool, index: seq<nat>)
    requires InRange(index, 0, 0)
    ensures Sorted(less, Gather([], index))
  {
  }

  /** Without ties, sorting by index is sorting. */
  lemma {:induction false} GatherIsSort<T(!new)>(less: (T, T) -> bool, s: seq<T>, from: nat)
    requires StrictWeakOrder(less) && from <= |s| && TotalOn(less, s[from..])
    ensures InRange(Indices(less, s, from), 0, |s|)
    ensures Gather(s, Indices(less, s, from)) == Sort(less, s[from..])
  {
    hide StrictWeakOrder, TotalOn, Sorted, Sort;
    GatherSorts(less, s, from);
    SortSorts(less, s[from..]);
    TotalOnPermutation(less, s[from..], Gather(s, Indices(less, s, from)));
    SortedUnique(less, Gather(s, Indices(less, s, from)), Sort(less, s[from..]));
  }

  // ------------------------------------------------------------- getSortIndex

  function Smaller(): (nat, nat) -> bool {
    (x: nat, y: nat) => x < y
  }

  /** Each of 0 .. n-1 exactly once. */
  ghost predicate Permutation(index: seq<nat>, n: nat) {
    && |index| == n
    && (forall i :: 0 <= i < n ==> index[i] < n)
    && (forall i, j :: 0 <= i < j < n ==> index[i] != index[j])
    && (forall x :: 0 <= x < n ==> x in index)
  }

  lemma {:induction false} PermutationHits(index: seq<nat>, n: nat, x: nat) returns (j: nat)
    requires Permutation(index, n) && x < n
    ensures j < n && index[j] == x
  {
    assert x in index;
    j :| 0 <= j < |index| && index[j] == x;
  }

  lemma {:induction false} IotaPermutation(index: seq<nat>, n: nat)
    requires multiset(index) == multiset(Iota(0, n))
    ensures Permutation(index, n)
  {
    var iota := Iota(0, n);
    assert |multiset(index)| == |index| && |multiset(iota)| == |iota|;
    forall i | 0 <= i < n ensures index[i] < n {
      SameItems(index, iota, index[i]);
    }
    forall x | 0 <= x < n ensures x in index {
      assert iota[x] == x;
      SameItems(index, iota, x);
    }
    forall i, j | 0 <= i < j < n ensures index[i] != index[j] {
      if index[i] == index[j] {
        MultisetTwice(index, i, j);
        IotaOnce(n, index[i]);
      }
    }
  }

  lemma {:induction false} MultisetTwice<T>(s: seq<T>, i: nat, j: nat)
    requires i < j < |s| && s[i] == s[j]
    ensures multiset(s)[s[i]] >= 2
  {
    assert s == s[..i] + [s[i]] + s[i + 1..j] + [s[j]] + s[j + 1..];
  }

  lemma {:induction false} IotaOnce(n: nat, x: nat)
    ensures multiset(Iota(0, n))[x] <= 1
  {
    if n > 0 {
      IotaOnce(n - 1, x);
      assert Iota(0, n) == Iota(0, n - 1) + [n - 1];
      assert n - 1 !in Iota(0, n - 1);
    }
  }

  /** The positions of `list`, ordered by the numbers there. Ties come in any
      order: the model fixes one, and no caller may depend on it. */
  method GetSortIndex(list: seq<nat>) returns (index: seq<nat>)
    ensures Permutation(index, |list|)
    ensures forall i, j :: 0 <= i < j < |list| ==> list[index[i]] <= list[index[j]]
  {
    var iota: seq<nat> := [];
    for i := 0 to |list|
      invariant iota == Iota(0, i)
    {
      iota := iota + [i];
    }
    index := if list == [] then [] else Sort(By(Smaller(), list), iota);
    SortIndexFacts(list);
  }

  lemma {:induction false} SortIndexFacts(list: seq<nat>)
    ensures var index := Indices(Smaller(), list, 0);
            && Permutation(index, |list|)
            && forall i, j :: 0 <= i < j < |list| ==> list[index[i]] <= list[index[j]]
  {
    hide Indices, Iota, Sort;
    var index := Indices(Smaller(), list, 0);
    IndicesInRange(Smaller(), list, 0);
    IotaPermutation(index, |list|);
    GatherSorts(Smaller(), list, 0);
    forall i, j | 0 <= i < j < |list| ensures list[index[i]] <= list[index[j]] {
      assert !Smaller()(Gather(list, index)[j], Gather(list, index)[i]);
    }
  }
}
