/**
 `sort(prm, comp, FileOrder)`: two distributed sorts in a row. The first orders
 the traces; the second orders the resulting trace numbers together with their
 positions, and so tells every input trace where it went.
 */
module TraceOrder {
  import opened Sorting
  import opened Blocks
  import opened NearestNeighbour
  import opened SortIndex
  import opened DistributedSort
  import opened ParamColumns
  import opened ParamSort
  import opened Params
  import opened RuleTable
  import opened TraceNumbers
  import opened TraceRows

  function Map<A, B>(f: A -> B, s: seq<A>): (m: seq<B>)
    ensures |m| == |s| && forall i :: 0 <= i < |s| ==> m[i] == f(s[i])
  {
    seq(|s|, i requires 0 <= i < |s| => f(s[i]))
  }

  lemma {:induction false} MapPermutes<A, B>(f: A -> B, s: seq<A>, t: seq<A>)
    requires multiset(s) == multiset(t)
    ensures multiset(Map(f, s)) == multiset(Map(f, t))
  {
    if s == [] {
      assert |multiset(t)| == 0;
    } else {
      var k := DropShared(s, t);
      MapPermutes(f, s[1..], t[..k] + t[k + 1..]);
      assert Map(f, s) == [f(s[0])] + Map(f, s[1..]);
      assert Map(f, t) == Map(f, t[..k]) + [f(s[0])] + Map(f, t[k + 1..]);
      assert Map(f, t[..k] + t[k + 1..]) == Map(f, t[..k]) + Map(f, t[k + 1..]);
    }
  }

  /** The order of `std::pair`: first component, then second. */
  function PairLess(): ((nat, nat), (nat, nat)) -> bool {
    (x: (nat, nat), y: (nat, nat)) => x.0 < y.0 || (x.0 == y.0 && x.1 < y.1)
  }

  function First(): ((nat, nat)) -> nat { (x: (nat, nat)) => x.0 }

  function Second(): ((nat, nat)) -> nat { (x: (nat, nat)) => x.1 }

  /** Each number with its position in the global sequence. */
  function Enumerate(s: seq<nat>): (p: seq<(nat, nat)>)
    ensures |p| == |s| && forall i :: 0 <= i < |s| ==> p[i] == (s[i], i)
  {
    seq(|s|, i requires 0 <= i < |s| => (s[i], i))
  }

  lemma {:induction false} PairOrder(s: seq<(nat, nat)>)
    ensures StrictWeakOrder(PairLess()) && TotalOn(PairLess(), s)
  {
  }

  /** The second sort in global terms: the positions, ordered by number. */
  lemma {:induction false} PositionsPermute(s: seq<nat>)
    ensures var q := Sort(PairLess(), Enumerate(s));
            && |q| == |s|
            && Permutation(Map(Second(), q), |s|)
            && Sorted(Smaller(), Map(First(), q))
            && multiset(Map(First(), q)) == multiset(s)
            && forall i :: 0 <= i < |s| ==> q[i].1 < |s| && q[i].0 == s[q[i].1]
  {
    hide Sort, StrictWeakOrder, TotalOn;
    var p, q := Enumerate(s), Sort(PairLess(), Enumerate(s));
    PairOrder(p);
    SortSorts(PairLess(), p);
    MapPermutes(First(), q, p);
    MapPermutes(Second(), q, p);
    assert Map(First(), p) == s && Map(Second(), p) == Iota(0, |s|);
    IotaPermutation(Map(Second(), q), |s|);
    forall i | 0 <= i < |s| ensures q[i].1 < |s| && q[i].0 == s[q[i].1] {
      SameItems(q, p, q[i]);
    }
    forall i, j | 0 <= i < j < |s| ensures !Smaller()(Map(First(), q)[j], Map(First(), q)[i]) {
      assert !PairLess()(q[j], q[i]);
    }
  }

  ghost predicate Increasing<T>(gtn: T -> nat, s: seq<T>) {
    forall i, j :: 0 <= i < j < |s| ==> gtn(s[i]) < gtn(s[j])
  }

  lemma {:induction false} IncreasingNumbered<T>(gtn: T -> nat, s: seq<T>)
    requires Increasing(gtn, s)
    ensures Numbered(gtn, s)
  {
    forall x, y | x in s && y in s && x != y ensures gtn(x) != gtn(y) {
      var i :| 0 <= i < |s| && s[i] == x;
      var j :| 0 <= j < |s| && s[j] == y;
      assert gtn(s[i]) != gtn(s[j]) by {
        if i < j { assert gtn(s[i]) < gtn(s[j]); } else { assert gtn(s[j]) < gtn(s[i]); }
      }
    }
  }

  /** `list` tells every item its place in `sorted`, and fills every place once. */
  ghost predicate Places<T>(items: seq<T>, sorted: seq<T>, list: seq<nat>) {
    && |sorted| == |items|
    && Permutation(list, |items|)
    && forall i :: 0 <= i < |items| ==> sorted[list[i]] == items[i]
  }

  /** The inverse permutation: with trace numbers increasing over the input,
      sorting the numbers of the sorted traces gives, in input order, the sorted
      position of each input trace. */
  lemma {:induction false} PositionsInvert<T(!new)>(gtn: T -> nat, items: seq<T>, sorted: seq<T>)
    requires Increasing(gtn, items) && multiset(sorted) == multiset(items)
    ensures Places(items, sorted, Map(Second(), Sort(PairLess(), Enumerate(Map(gtn, sorted)))))
  {
    hide Sort;
    var numbers := Map(gtn, sorted);
    var q := Sort(PairLess(), Enumerate(numbers));
    PositionsPermute(numbers);
    MapPermutes(gtn, sorted, items);
    assert |multiset(sorted)| == |sorted| && |multiset(items)| == |items|;
    assert Sorted(Smaller(), Map(gtn, items));
    SortedUnique(Smaller(), Map(First(), q), Map(gtn, items));
    IncreasingNumbered(gtn, items);
    forall i | 0 <= i < |items| ensures q[i].1 < |sorted| && sorted[q[i].1] == items[i] {
      var x := sorted[q[i].1];
      assert gtn(x) == numbers[q[i].1] == Map(First(), q)[i] == gtn(items[i]);
      SameItems(sorted, items, x);
    }
  }

  ghost predicate SameShape<A, B>(a: seq<seq<A>>, b: seq<seq<B>>) {
    |a| == |b| && forall r :: 0 <= r < |a| ==> |a[r]| == |b[r]|
  }

  /** Rank r's positions start where the blocks before it end. */
  lemma {:induction false} EnumerateBlocks(list: seq<seq<nat>>, plist: seq<seq<(nat, nat)>>)
    requires SameShape(plist, list)
    requires forall r, i :: 0 <= r < |list| && 0 <= i < |list[r]| ==>
               plist[r][i] == (list[r][i], Offset(Sizes(list), r) + i)
    ensures Flatten(plist) == Enumerate(Flatten(list))
  {
    hide Flatten, Sum, Offset;
    assert Sizes(list) == Sizes(plist);
    SplitFlatten(list);
    SplitFlatten(plist);
    forall k | 0 <= k < |Flatten(list)| ensures Flatten(plist)[k] == Enumerate(Flatten(list))[k] {
      var r, i := FlattenOwner(plist, k);
      FlattenAt(list, r, i);
    }
  }

  lemma {:induction false} SecondBlocks(plist: seq<seq<(nat, nat)>>, list: seq<seq<nat>>)
    requires SameShape(plist, list)
    requires forall r, i :: 0 <= r < |list| && 0 <= i < |list[r]| ==> list[r][i] == plist[r][i].1
    ensures Flatten(list) == Map(Second(), Flatten(plist))
  {
    hide Flatten, Sum, Offset;
    assert Sizes(list) == Sizes(plist);
    SplitFlatten(list);
    SplitFlatten(plist);
    forall k | 0 <= k < |Flatten(list)| ensures Flatten(list)[k] == Map(Second(), Flatten(plist))[k] {
      var r, i := FlattenOwner(list, k);
      FlattenAt(plist, r, i);
    }
  }

  lemma {:induction false} MapBlocks<T>(gtn: T -> nat, blocks: seq<seq<T>>, list: seq<seq<nat>>)
    requires SameShape(blocks, list)
    requires forall r, i :: 0 <= r < |list| && 0 <= i < |list[r]| ==> list[r][i] == gtn(blocks[r][i])
    ensures Flatten(list) == Map(gtn, Flatten(blocks))
  {
    hide Flatten, Sum, Offset;
    assert Sizes(list) == Sizes(blocks);
    SplitFlatten(list);
    SplitFlatten(blocks);
    forall k | 0 <= k < |Flatten(list)| ensures Flatten(list)[k] == Map(gtn, Flatten(blocks))[k] {
      var r, i := FlattenOwner(list, k);
      FlattenAt(blocks, r, i);
    }
  }

  /** Pairs every number with its position in the global sequence; `offset` is the
      exclusive prefix sum over the ranks. */
  method Number(list: seq<seq<nat>>) returns (plist: seq<seq<(nat, nat)>>)
    ensures Sizes(plist) == Sizes(list)
    ensures Flatten(plist) == Enumerate(Flatten(list))
  {
    hide Flatten, Sum, Offset;
    plist := [];
    for r := 0 to |list|
      invariant |plist| == r
      invariant forall q :: 0 <= q < r ==> |plist[q]| == |list[q]|
      invariant forall q, i :: 0 <= q < r && 0 <= i < |list[q]| ==>
                  plist[q][i] == (list[q][i], Offset(Sizes(list), q) + i)
    {
      var offset := Offset(Sizes(list), r);
      var local: seq<(nat, nat)> := [];
      for i := 0 to |list[r]|
        invariant |local| == i
        invariant forall k :: 0 <= k < i ==> local[k] == (list[r][k], offset + k)
      {
        local := local + [(list[r][i], offset + i)];
      }
      plist := plist + [local];
    }
    EnumerateBlocks(list, plist);
  }

  method TakePositions(plist: seq<seq<(nat, nat)>>) returns (positions: seq<seq<nat>>)
    ensures Sizes(positions) == Sizes(plist)
    ensures Flatten(positions) == Map(Second(), Flatten(plist))
  {
    hide Flatten;
    positions := [];
    for r := 0 to |plist|
      invariant |positions| == r
      invariant forall q :: 0 <= q < r ==> |positions[q]| == |plist[q]|
      invariant forall q, i :: 0 <= q < r && 0 <= i < |positions[q]| ==> positions[q][i] == plist[q][i].1
    {
      var local: seq<nat> := [];
      for i := 0 to |plist[r]|
        invariant |local| == i
        invariant forall k :: 0 <= k < i ==> local[k] == plist[r][k].1
      {
        local := local + [plist[r][i].1];
      }
      positions := positions + [local];
    }
    SecondBlocks(plist, positions);
  }

  /** The numbers of one rank's traces. */
  method RankNumbers(prm: Param) returns (list: seq<nat>)
    requires prm.Valid() && GtnColumn(prm.r)
    ensures list == Map(Gtn(), AllRows(prm))
  {
    hide Gtn, AllRows;
    list := [];
    for i := 0 to prm.sz
      invariant |list| == i && forall k :: 0 <= k < i ==> list[k] == Gtn()(AllRows(prm)[k])
    {
      GtnRead(prm, i);
      var v := prm.GetPrm(Index, i, META_GTN);
      list := list + [v.n];
    }
  }

  method TakeNumbers(r: Rule, prm: seq<Param>, ghost rows: seq<seq<Cells>>) returns (list: seq<seq<nat>>)
    requires Hold(r, prm, rows) && GtnColumn(r)
    ensures Sizes(list) == Sizes(rows)
    ensures Flatten(list) == Map(Gtn(), Flatten(rows))
    ensures |list| == |rows| && forall q :: 0 <= q < |rows| ==> list[q] == Map(Gtn(), rows[q])
  {
    hide Flatten, Hold, Gtn, GtnColumn;
    HoldShape(r, prm, rows);
    list := [];
    for q := 0 to |prm|
      invariant |list| == q
      invariant forall k :: 0 <= k < q ==> list[k] == Map(Gtn(), rows[k])
    {
      RankHolds(r, prm, rows, q);
      var local := RankNumbers(prm[q]);
      list := list + [local];
    }
    MapBlocks(Gtn(), rows, list);
  }

  /** Every number of a rank is smaller than every number of a later rank. */
  ghost predicate Separated(list: seq<seq<nat>>) {
    forall q, r, i, j :: 0 <= q < r < |list| && 0 <= i < |list[q]| && 0 <= j < |list[r]| ==> list[q][i] < list[r][j]
  }

  /** Numbers that already are on the right ranks need only be sorted there. */
  lemma {:induction false} SeparatedSorts(list: seq<seq<nat>>, plist: seq<seq<(nat, nat)>>)
    requires Separated(list) && SameShape(plist, list)
    requires forall r, i :: 0 <= r < |list| && 0 <= i < |list[r]| ==> plist[r][i].0 == list[r][i]
    ensures Flatten(SortEach(PairLess(), plist)) == Sort(PairLess(), Flatten(plist))
  {
    hide Sort, Flatten, StrictWeakOrder, TotalOn, Sorted;
    PairOrder(Flatten(plist));
    assert forall q, r, x, y :: 0 <= q < r < |plist| && x in plist[q] && y in plist[r] ==> !PairLess()(y, x);
    ApartSorted(PairLess(), plist);
    SortEachPermutes(PairLess(), plist);
    SortSorts(PairLess(), Flatten(plist));
    PairOrder(Flatten(SortEach(PairLess(), plist)));
    SortedUnique(PairLess(), Flatten(SortEach(PairLess(), plist)), Sort(PairLess(), Flatten(plist)));
  }

  /** Whatever the region, the second sort returns every position once. */
  lemma {:induction false} PositionsOnce(s: seq<nat>, q: seq<(nat, nat)>)
    requires multiset(q) == multiset(Enumerate(s))
    ensures Permutation(Map(Second(), q), |s|)
  {
    MapPermutes(Second(), q, Enumerate(s));
    assert Map(Second(), Enumerate(s)) == Iota(0, |s|);
    IotaPermutation(Map(Second(), q), |s|);
  }

  lemma {:induction false} SortedOverPermutes<T(!new)>(less: (T, T) -> bool, R: nat, before: seq<seq<T>>, after: seq<seq<T>>)
    requires SortedOver(less, R, before, after) && StrictWeakOrder(less) && before != []
    ensures multiset(Flatten(after)) == multiset(Flatten(before)) && |Flatten(after)| == |Flatten(before)|
  {
    hide Flatten, Sort, StrictWeakOrder;
    SortSorts(less, Flatten(before));
    SortEachPermutes(less, before);
    assert |multiset(Flatten(after))| == |Flatten(after)| && |multiset(Flatten(before))| == |Flatten(before)|;
  }

  /** `sort(piol, list)`: sorts (number, position) pairs and returns the positions.
      It returns every position once, and lists the positions by increasing number
      unless there are too few numbers to exchange and some are on a wrong rank. */
  method SortList(list: seq<seq<nat>>) returns (positions: seq<seq<nat>>)
    requires list != []
    ensures Sizes(positions) == Sizes(list)
    ensures Permutation(Flatten(positions), |Flatten(list)|)
    ensures |list| == 1 || RegionSize(Sizes(list)) > 0 || Separated(list) ==>
              Flatten(positions) == Map(Second(), Sort(PairLess(), Enumerate(Flatten(list))))
  {
    hide Flatten, Sort, StrictWeakOrder, TotalOn, RegionSize, PairLess, Second, Separated, SortEach, Permutation;
    var plist := Number(list);
    PairOrder(Flatten(plist));
    var s := new VectorSort(PairLess(), RegionSize(Sizes(list)), (0, 0), plist);
    var rounds := s.Run();
    SortedOverPermutes(PairLess(), RegionSize(Sizes(list)), plist, s.dat);
    PositionsOnce(Flatten(list), Flatten(s.dat));
    if Separated(list) {
      NumbersOf(list, plist);
      SeparatedSorts(list, plist);
    }
    positions := TakePositions(s.dat);
  }

  lemma {:induction false} NumbersOf(list: seq<seq<nat>>, plist: seq<seq<(nat, nat)>>)
    requires Sizes(plist) == Sizes(list) && Flatten(plist) == Enumerate(Flatten(list))
    ensures SameShape(plist, list)
    ensures forall r, i :: 0 <= r < |list| && 0 <= i < |list[r]| ==> plist[r][i].0 == list[r][i]
  {
    hide Flatten, Offset;
    forall r | 0 <= r < |list| ensures |plist[r]| == |list[r]| {
      assert Sizes(plist)[r] == Sizes(list)[r];
    }
    forall r, i | 0 <= r < |list| && 0 <= i < |list[r]| ensures plist[r][i].0 == list[r][i] {
      FlattenAt(list, r, i);
      FlattenAt(plist, r, i);
    }
  }

  /** Rows sorted rank by rank stay on the side of the rank boundaries they were on. */
  lemma {:induction false} RanksSeparated<T(!new)>(less: (T, T) -> bool, gtn: T -> nat, before: seq<seq<T>>, list: seq<seq<nat>>)
    requires StrictWeakOrder(less) && Increasing(gtn, Flatten(before)) && |list| == |before|
    requires forall q :: 0 <= q < |list| ==> list[q] == Map(gtn, SortEach(less, before)[q])
    ensures Separated(list)
  {
    hide Sort, Flatten, Offset, StrictWeakOrder;
    forall q, r, i, j | 0 <= q < r < |list| && 0 <= i < |list[q]| && 0 <= j < |list[r]| ensures list[q][i] < list[r][j] {
      var x := FromBlock(less, before, q, i);
      var y := FromBlock(less, before, r, j);
      FlattenAt(before, q, x);
      FlattenAt(before, r, y);
      OffsetNext(Sizes(before), q);
      OffsetsGrow(Sizes(before), q + 1, r);
    }
  }

  lemma {:induction false} FromBlock<T(!new)>(less: (T, T) -> bool, before: seq<seq<T>>, q: nat, i: nat) returns (x: nat)
    requires StrictWeakOrder(less) && q < |before| && i < |SortEach(less, before)[q]|
    ensures x < |before[q]| && before[q][x] == SortEach(less, before)[q][i]
  {
    hide Sort, StrictWeakOrder;
    SortSorts(less, before[q]);
    SameItems(SortEach(less, before)[q], before[q], SortEach(less, before)[q][i]);
    x :| 0 <= x < |before[q]| && before[q][x] == SortEach(less, before)[q][i];
  }

  /** `sort(piol, prm, comp, FileOrder)`: sorts the traces over the ranks. In file
      order the result gives each input trace its position among the sorted
      traces, otherwise it lists the numbers of the sorted traces. */
  method SortTraces(less: (Cells, Cells) -> bool, r: Rule, prm: seq<Param>, fileOrder: bool, ghost before: seq<seq<Cells>>)
    returns (list: seq<seq<nat>>, ghost after: seq<seq<Cells>>)
    requires prm != [] && Hold(r, prm, before) && GtnColumn(r)
    requires StrictWeakOrder(less) && TotalOn(less, Flatten(before)) && Increasing(Gtn(), Flatten(before))
    modifies prm
    ensures Hold(r, prm, after) && before != []
    ensures SortedOver(less, RegionSize(Sizes(before)), before, after)
    ensures Sizes(list) == Sizes(before)
    ensures !fileOrder ==> Flatten(list) == Map(Gtn(), Flatten(after))
    ensures fileOrder ==> Places(Flatten(before), Flatten(after), Flatten(list))
  {
    hide Flatten, Sort, StrictWeakOrder, TotalOn, Increasing, Numbered, RegionSize, Places, SortEach, Separated, PairLess, Second, Gtn,
      GtnColumn, Plain;
    IncreasingNumbered(Gtn(), Flatten(before));
    var rounds := SortP(less, r, prm);
    after := RowsOf(r, prm);
    SortedOverPermutes(less, RegionSize(Sizes(before)), before, after);
    list := TakeNumbers(r, prm, after);
    if fileOrder {
      if |before| > 1 && RegionSize(Sizes(before)) == 0 {
        RanksSeparated(less, Gtn(), before, list);
      }
      list := SortList(list);
      PositionsInvert(Gtn(), Flatten(before), Flatten(after));
    }
  }
}
