/**
 Data spread over ranks: rank r owns block r, and the global sequence is the
 blocks one after the other.
 */
module Blocks {
  import opened Sorting

  function Flatten<T>(blocks: seq<seq<T>>): seq<T> {
    if blocks == [] then [] else blocks[0] + Flatten(blocks[1..])
  }

  function Sizes<T>(blocks: seq<seq<T>>): (sizes: seq<nat>)
    ensures |sizes| == |blocks|
  {
    seq(|blocks|, r requires 0 <= r < |blocks| => |blocks[r]|)
  }

  function Sum(sizes: seq<nat>): nat {
    if sizes == [] then 0 else sizes[0] + Sum(sizes[1..])
  }

  /** The exclusive prefix sum: where block r starts in the global sequence. */
  function Offset(sizes: seq<nat>, r: nat): nat
    requires r <= |sizes|
  {
    Sum(sizes[..r])
  }

  function Min(sizes: seq<nat>): (m: nat)
    requires sizes != []
    ensures m in sizes && forall r :: 0 <= r < |sizes| ==> m <= sizes[r]
  {
    if |sizes| == 1 then sizes[0]
    else
      var m := Min(sizes[1..]);
      assert forall r :: 1 <= r < |sizes| ==> sizes[r] == sizes[1..][r - 1];
      if sizes[0] < m then sizes[0] else m
  }

  /** Cuts a sequence into consecutive blocks of the given sizes. */
  function Split<T>(sizes: seq<nat>, s: seq<T>): (blocks: seq<seq<T>>)
    requires Sum(sizes) == |s|
    ensures |blocks| == |sizes|
  {
    if sizes == [] then [] else [s[..sizes[0]]] + Split(sizes[1..], s[sizes[0]..])
  }

  lemma {:induction false} FlattenSplit<T>(sizes: seq<nat>, s: seq<T>)
    requires Sum(sizes) == |s|
    ensures Flatten(Split(sizes, s)) == s
    ensures Sizes(Split(sizes, s)) == sizes
  {
    if sizes != [] {
      var rest := s[sizes[0]..];
      FlattenSplit(sizes[1..], rest);
      var blocks := Split(sizes, s);
      assert blocks[1..] == Split(sizes[1..], rest);
      assert forall r :: 1 <= r < |sizes| ==> Sizes(blocks)[r] == Sizes(blocks[1..])[r - 1];
    }
  }

  lemma {:induction false} SplitFlatten<T>(blocks: seq<seq<T>>)
    ensures Sum(Sizes(blocks)) == |Flatten(blocks)|
    ensures Split(Sizes(blocks), Flatten(blocks)) == blocks
  {
    if blocks != [] {
      SplitFlatten(blocks[1..]);
      assert Sizes(blocks)[1..] == Sizes(blocks[1..]);
      assert Flatten(blocks)[|blocks[0]|..] == Flatten(blocks[1..]);
    }
  }

  lemma {:induction false} FlattenConcat<T>(a: seq<seq<T>>, b: seq<seq<T>>)
    ensures Flatten(a + b) == Flatten(a) + Flatten(b)
  {
    if a == [] {
      assert a + b == b;
    } else {
      assert (a + b)[1..] == a[1..] + b;
      FlattenConcat(a[1..], b);
    }
  }

  lemma {:induction false} SumConcat(a: seq<nat>, b: seq<nat>)
    ensures Sum(a + b) == Sum(a) + Sum(b)
  {
    if a == [] {
      assert a + b == b;
    } else {
      assert (a + b)[1..] == a[1..] + b;
      SumConcat(a[1..], b);
    }
  }

  lemma {:induction false} SumUpdate(s: seq<nat>, i: nat, v: nat)
    requires i < |s|
    ensures Sum(s[i := v]) == Sum(s) - s[i] + v
  {
    if i == 0 {
      assert s[0 := v][1..] == s[1..];
    } else {
      assert s[i := v][1..] == s[1..][i - 1 := v];
      SumUpdate(s[1..], i - 1, v);
    }
  }

  lemma {:induction false} MulNext(n: nat, x: nat)
    ensures (n + 1) * x == n * x + x
  {
  }

  lemma {:induction false} SumBounds(s: seq<nat>, low: nat, high: nat)
    requires forall i :: 0 <= i < |s| ==> low <= s[i] <= high
    ensures |s| * low <= Sum(s) <= |s| * high
  {
    if s != [] {
      SumBounds(s[1..], low, high);
      MulNext(|s[1..]|, low);
      MulNext(|s[1..]|, high);
    }
  }

  lemma {:induction false} OffsetNext(sizes: seq<nat>, r: nat)
    requires r < |sizes|
    ensures Offset(sizes, r + 1) == Offset(sizes, r) + sizes[r] <= Sum(sizes)
  {
    assert sizes[..r + 1] == sizes[..r] + [sizes[r]];
    SumConcat(sizes[..r], [sizes[r]]);
    assert sizes == sizes[..r + 1] + sizes[r + 1..];
    SumConcat(sizes[..r + 1], sizes[r + 1..]);
  }

  lemma {:induction false} OffsetsGrow(sizes: seq<nat>, q: nat, r: nat)
    requires q <= r <= |sizes|
    ensures Offset(sizes, q) <= Offset(sizes, r)
    decreases r - q
  {
    hide Offset;
    if q < r {
      OffsetNext(sizes, r - 1);
      OffsetsGrow(sizes, q, r - 1);
    }
  }

  /** Item i of block r sits at `Offset + i` of the global sequence. */
  lemma {:induction false} FlattenAt<T>(blocks: seq<seq<T>>, r: nat, i: nat)
    requires r < |blocks| && i < |blocks[r]|
    ensures Offset(Sizes(blocks), r) + i < |Flatten(blocks)|
    ensures Flatten(blocks)[Offset(Sizes(blocks), r) + i] == blocks[r][i]
  {
    if r > 0 {
      FlattenAt(blocks[1..], r - 1, i);
      assert Sizes(blocks)[1..] == Sizes(blocks[1..]);
      assert Sizes(blocks)[..r][1..] == Sizes(blocks[1..])[..r - 1];
    }
  }

  /** Every position of the global sequence belongs to some block. */
  lemma {:induction false} FlattenOwner<T>(blocks: seq<seq<T>>, k: nat) returns (r: nat, i: nat)
    requires k < |Flatten(blocks)|
    ensures r < |blocks| && i < |blocks[r]|
    ensures Offset(Sizes(blocks), r) + i == k && Flatten(blocks)[k] == blocks[r][i]
  {
    if k < |blocks[0]| {
      r, i := 0, k;
    } else {
      r, i := FlattenOwner(blocks[1..], k - |blocks[0]|);
      r := r + 1;
      FlattenAt(blocks, r, i);
      assert Sizes(blocks)[..r][1..] == Sizes(blocks[1..])[..r - 1];
    }
  }

  lemma {:induction false} FlattenMembers<T>(blocks: seq<seq<T>>, r: nat, x: T)
    requires r < |blocks| && x in blocks[r]
    ensures x in Flatten(blocks)
  {
    if r > 0 {
      FlattenMembers(blocks[1..], r - 1, x);
    }
  }

  // ------------------------------------------------------------ block sorting

  function SortEach<T>(less: (T, T) -> bool, blocks: seq<seq<T>>): (r: seq<seq<T>>)
    ensures |r| == |blocks|
    ensures forall k :: 0 <= k < |blocks| ==> r[k] == Sort(less, blocks[k])
  {
    seq(|blocks|, r requires 0 <= r < |blocks| => Sort(less, blocks[r]))
  }

  /** Sorts every block of the partition of `s` into blocks of the given sizes. */
  function SortPartition<T>(less: (T, T) -> bool, sizes: seq<nat>, s: seq<T>): seq<T>
    requires Sum(sizes) == |s|
  {
    Flatten(SortEach(less, Split(sizes, s)))
  }

  lemma {:induction false} SortEachPermutes<T(!new)>(less: (T, T) -> bool, blocks: seq<seq<T>>)
    requires StrictWeakOrder(less)
    ensures multiset(Flatten(SortEach(less, blocks))) == multiset(Flatten(blocks))
    ensures |Flatten(SortEach(less, blocks))| == |Flatten(blocks)|
  {
    if blocks != [] {
      SortEachPermutes(less, blocks[1..]);
      SortSorts(less, blocks[0]);
      assert SortEach(less, blocks)[1..] == SortEach(less, blocks[1..]);
    }
  }

  /** Sorting blocks never adds an inversion, and removes at least one unless
      every block was sorted already. */
  lemma {:induction false} SortEachInversions<T(!new)>(less: (T, T) -> bool, blocks: seq<seq<T>>)
    requires StrictWeakOrder(less) && TotalOn(less, Flatten(blocks))
    ensures Inversions(less, Flatten(SortEach(less, blocks))) <= Inversions(less, Flatten(blocks))
    ensures Inversions(less, Flatten(SortEach(less, blocks))) == Inversions(less, Flatten(blocks))
       ==> SortEach(less, blocks) == blocks && forall r :: 0 <= r < |blocks| ==> Sorted(less, blocks[r])
  {
    if blocks != [] {
      var head, tail := blocks[0], blocks[1..];
      assert SortEach(less, blocks)[1..] == SortEach(less, tail);
      TotalOnParts(less, head, Flatten(tail));
      SortEachPermutes(less, tail);
      SortEachInversions(less, tail);
      SortBlockInversions(less, head, Flatten(tail), Flatten(SortEach(less, tail)));
      InversionsZero(less, head);
      SortFixed(less, head);
      assert blocks == [head] + tail;
    }
  }

  lemma {:induction false} TotalOnParts<T>(less: (T, T) -> bool, a: seq<T>, b: seq<T>)
    requires TotalOn(less, a + b)
    ensures TotalOn(less, a) && TotalOn(less, b)
  {
    forall x, y | ((x in a && y in a) || (x in b && y in b)) && x != y ensures less(x, y) || less(y, x) {
      assert x in a + b && y in a + b;
    }
  }

  /** Sorted blocks whose neighbours are in order make a sorted whole. */
  lemma {:induction false} FlattenSorted<T(!new)>(less: (T, T) -> bool, blocks: seq<seq<T>>)
    requires StrictWeakOrder(less)
    requires forall r :: 0 <= r < |blocks| ==> blocks[r] != [] && Sorted(less, blocks[r])
    requires forall r :: 0 <= r < |blocks| - 1 ==> !less(blocks[r + 1][0], blocks[r][|blocks[r]| - 1])
    ensures Sorted(less, Flatten(blocks))
    ensures blocks != [] ==> Flatten(blocks) != [] && Flatten(blocks)[0] == blocks[0][0]
  {
    if blocks != [] {
      FlattenSorted(less, blocks[1..]);
      if |blocks| > 1 {
        SortedConcat(less, blocks[0], Flatten(blocks[1..]));
      } else {
        assert Flatten(blocks) == blocks[0];
      }
    }
  }

  /** Blocks that do not overlap need only be sorted one by one. */
  lemma {:induction false} ApartSorted<T(!new)>(less: (T, T) -> bool, blocks: seq<seq<T>>)
    requires StrictWeakOrder(less)
    requires forall q, r, x, y :: 0 <= q < r < |blocks| && x in blocks[q] && y in blocks[r] ==> !less(y, x)
    ensures Sorted(less, Flatten(SortEach(less, blocks)))
  {
    hide Sort, Flatten, Offset, StrictWeakOrder;
    var sorted := SortEach(less, blocks);
    forall i: nat, j: nat | i < j < |Flatten(sorted)| ensures !less(Flatten(sorted)[j], Flatten(sorted)[i]) {
      var q, x := FlattenOwner(sorted, i);
      var r, y := FlattenOwner(sorted, j);
      SortSorts(less, blocks[q]);
      SortSorts(less, blocks[r]);
      if r < q {
        OffsetsGrow(Sizes(sorted), r + 1, q);
        OffsetNext(Sizes(sorted), r);
        assert false;
      } else if q < r {
        SameItems(sorted[q], blocks[q], sorted[q][x]);
        SameItems(sorted[r], blocks[r], sorted[r][y]);
      }
    }
  }

  lemma {:induction false} SortedConcat<T(!new)>(less: (T, T) -> bool, a: seq<T>, b: seq<T>)
    requires StrictWeakOrder(less) && Sorted(less, a) && Sorted(less, b)
    requires a != [] && b != [] && !less(b[0], a[|a| - 1])
    ensures Sorted(less, a + b)
  {
    var s := a + b;
    forall i, j | 0 <= i < j < |s| ensures !less(s[j], s[i]) {
      if i < |a| && |a| <= j {
        assert i < |a| - 1 ==> !less(a[|a| - 1], a[i]);
        assert j > |a| ==> !less(b[j - |a|], b[0]);
      }
    }
  }

  /** Moving every boundary between blocks does not move any item: if `p` glues
      the pieces as h0 m0 | h1 m1 | ... and `q` glues them as h0 m0 h1 | m1 h2 | ...,
      both spell the same global sequence. */
  lemma {:induction false} Regroup<T>(h: seq<seq<T>>, m: seq<seq<T>>, p: seq<seq<T>>, q: seq<seq<T>>)
    requires |h| == |m| + 1 && |p| == |q| == |m| && h[|m|] == []
    requires forall r :: 0 <= r < |m| ==> p[r] == h[r] + m[r]
    requires forall r :: 0 <= r < |m| ==> q[r] == m[r] + h[r + 1]
    ensures Flatten(p) == h[0] + Flatten(q)
  {
    if m != [] {
      Regroup(h[1..], m[1..], p[1..], q[1..]);
      assert h[1..][0] == h[1];
      assert p[0] + (h[1] + Flatten(q[1..])) == h[0] + (q[0] + Flatten(q[1..]));
    }
  }
}
