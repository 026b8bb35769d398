/**
 The two imperative forms of the nearest-neighbour sort: on a vector of items
 and on the trace parameters of a `Param`. Entry r of a field is the variable of
 that name on rank r; a message is what one rank hands to the next.
 */
module DistributedSort {
  import opened Sorting
  import opened Blocks
  import opened NearestNeighbour
  import opened SortProtocol
  import opened SortTheorems

  /** What the loop leaves on the ranks, for any block sizes: the sorted
      arrangement cut into blocks of the old sizes or, when the smallest block has
      fewer than four items, only locally sorted blocks. */
  ghost predicate SortedOver<T>(less: (T, T) -> bool, R: nat, before: seq<seq<T>>, after: seq<seq<T>>) {
    && Sizes(after) == Sizes(before)
    && (|before| == 1 || R > 0 ==> Flatten(after) == Sort(less, Flatten(before)))
    && (|before| > 1 && R == 0 ==> after == SortEach(less, before))
  }

  lemma {:induction false} LoopEndsSorted<T(!new)>(c: Config<T>, blocks: seq<seq<T>>, k: nat)
    requires Job(c, blocks) && |blocks| > 1 && Wide(c.R, Loaded(c, blocks))
    requires StopsAfter(c.less, c.R, Loaded(c, blocks), k)
    ensures SortedOver(c.less, c.R, blocks, Owned(c.R, Rounds(c.less, c.R, Loaded(c, blocks), k)))
    ensures k <= Inversions(c.less, Flatten(blocks)) + 1
  {
    hide Loaded, Wide, Rounds, Changes, Owned, Inversions, Flatten, TotalOn, StrictWeakOrder, Sort, Sorted, Fits, Sizes, Sum;
    var t0, sizes := Loaded(c, blocks), Sizes(blocks);
    LoadedReady(c, blocks);
    RoundsBounded(c.less, c.R, sizes, t0, k - 1);
    RoundsKeep(c.less, c.R, sizes, t0, k);
    FitsWide(c.R, sizes, Rounds(c.less, c.R, t0, k));
    if c.R > 0 {
      StopsSorted(c.less, c.R, sizes, t0, k);
      SortCanonical(c.less, Flatten(SortEach(c.less, blocks)), Flatten(blocks));
    } else {
      ZeroRegionStops(c, blocks, k);
    }
  }

  lemma {:induction false} OneRankSorted<T>(c: Config<T>, blocks: seq<seq<T>>)
    requires |blocks| == 1 && Wide(c.R, Loaded(c, blocks))
    requires Owned(c.R, Loaded(c, blocks)) == SortEach(c.less, blocks)
    ensures SortedOver(c.less, c.R, blocks, Owned(c.R, Loaded(c, blocks)))
  {
    assert Flatten(blocks) == blocks[0];
    assert SortEach(c.less, blocks) == [Sort(c.less, blocks[0])];
    assert Flatten([Sort(c.less, blocks[0])]) == Sort(c.less, blocks[0]);
  }

  /** The template `sort` on `std::vector<T>`. */
  class VectorSort<T(!new, ==)> {
    const less: (T, T) -> bool
    const regionSz: nat
    const blank: T
    var dat: seq<seq<T>>
    var temp1: seq<seq<T>>
    var temp2: seq<seq<T>>

    constructor (less: (T, T) -> bool, regionSz: nat, blank: T, dat: seq<seq<T>>)
      ensures this.less == less && this.regionSz == regionSz && this.blank == blank && this.dat == dat
    {
      this.less, this.regionSz, this.blank, this.dat := less, regionSz, blank, dat;
      temp1, temp2 := [], [];
    }

    /** std::sort of the rank's items, and the copy into the longer `temp1`. */
    method Load()
      modifies this`dat, this`temp1
      ensures dat == SortEach(less, old(dat))
      ensures temp1 == Loaded(Config(less, regionSz, blank), old(dat))
    {
      var n := |dat|;
      temp1 := [];
      for r := 0 to n
        invariant |dat| == n && |temp1| == r
        invariant forall q :: 0 <= q < n ==> dat[q] == if q < r then Sort(less, old(dat)[q]) else old(dat)[q]
        invariant temp1 == Loaded(Config(less, regionSz, blank), old(dat))[..r]
      {
        dat := dat[r := Sort(less, dat[r])];
        temp1 := temp1 + [dat[r] + seq(Edge2(regionSz, n, r), _ => blank)];
      }
    }

    method SendLeft()
      requires Wide(regionSz, temp1) && temp1 != []
      modifies this`temp1
      ensures temp1 == AfterSendLeft(regionSz, old(temp1))
    {
      var n := |temp1|;
      var mail: seq<seq<T>> := [];
      for r := 1 to n
        invariant |mail| == r - 1
        invariant forall b :: 0 <= b < r - 1 ==> mail[b] == old(temp1)[b + 1][..regionSz]
      {
        mail := mail + [temp1[r][..regionSz]];
      }
      for r := 0 to n - 1
        invariant |temp1| == n
        invariant forall q :: 0 <= q < n ==>
          temp1[q] == if q < r then Borrow(regionSz, old(temp1), q) else old(temp1)[q]
      {
        temp1 := temp1[r := temp1[r][..|temp1[r]| - regionSz] + mail[r]];
      }
    }

    method SortWindow()
      requires Wide(regionSz, temp1)
      modifies this`temp1
      ensures temp1 == AfterSortWindow(less, regionSz, old(temp1))
    {
      var n := |temp1|;
      for r := 0 to n
        invariant |temp1| == n
        invariant forall q :: 0 <= q < n ==>
          temp1[q] == if q < r then SortFrom(less, Edge1(regionSz, q), old(temp1)[q]) else old(temp1)[q]
      {
        var edge1 := if r > 0 then regionSz else 0;
        temp1 := temp1[r := temp1[r][..edge1] + Sort(less, temp1[r][edge1..])];
      }
    }

    method SendRight()
      requires Wide(regionSz, temp1) && temp1 != []
      modifies this`temp1
      ensures temp1 == AfterSendRight(regionSz, old(temp1))
    {
      var n := |temp1|;
      ghost var t := temp1;
      var mail: seq<seq<T>> := [];
      for r := 0 to n - 1
        invariant |mail| == r && temp1 == t
        invariant forall b :: 0 <= b < r ==> mail[b] == t[b][|t[b]| - regionSz..]
      {
        mail := mail + [temp1[r][|temp1[r]| - regionSz..]];
      }
      for r := 1 to n
        invariant |temp1| == n
        invariant forall q :: 0 <= q < r ==> temp1[q] == GiveBack(regionSz, t, q)
        invariant forall q :: r <= q < n ==> temp1[q] == t[q]
      {
        assert GiveBack(regionSz, t, r) == mail[r - 1] + t[r][regionSz..];
        temp1 := temp1[r := mail[r - 1] + temp1[r][regionSz..]];
      }
    }

    method SortOwned()
      requires Wide(regionSz, temp1)
      modifies this`temp1
      ensures temp1 == AfterSortOwned(less, regionSz, old(temp1))
    {
      var n := |temp1|;
      for r := 0 to n
        invariant |temp1| == n
        invariant forall q :: 0 <= q < n ==>
          temp1[q] == if q < r then SortUpTo(less, Edge2(regionSz, n, q), old(temp1)[q]) else old(temp1)[q]
      {
        var edge2 := if r != n - 1 then regionSz else 0;
        temp1 := temp1[r := Sort(less, temp1[r][..|temp1[r]| - edge2]) + temp1[r][|temp1[r]| - edge2..]];
      }
    }

    /** One round of the exchange. */
    method Exchange()
      requires Wide(regionSz, temp1) && temp1 != []
      modifies this`temp1
      ensures temp1 == Round(less, regionSz, old(temp1))
    {
      hide AfterSendLeft, AfterSortWindow, AfterSendRight, AfterSortOwned, Wide;
      SendLeft();
      SortWindow();
      SendRight();
      SortOwned();
    }

    /** Each rank's `reduced`, and their sum over all ranks. */
    method AllReduceChanged() returns (greduced: nat)
      requires |temp1| == |temp2| && Wide(regionSz, temp1) && Wide(regionSz, temp2)
      requires forall r :: 0 <= r < |temp1| ==> |temp1[r]| == |temp2[r]|
      ensures greduced == 0 <==> Owned(regionSz, temp1) == Owned(regionSz, temp2)
    {
      greduced := 0;
      var own1, own2 := Owned(regionSz, temp1), Owned(regionSz, temp2);
      for r := 0 to |temp1|
        invariant greduced == 0 <==> forall q :: 0 <= q < r ==> own1[q] == own2[q]
      {
        var reduced := 0;
        var j := 0;
        while j < |own1[r]| && reduced == 0
          invariant 0 <= j <= |own1[r]|
          invariant if reduced == 0 then own1[r][..j] == own2[r][..j] else own1[r] != own2[r]
        {
          if temp1[r][j] != temp2[r][j] {
            assert own1[r][j] != own2[r][j];
            reduced := 1;
          }
          j := j + 1;
        }
        assert reduced == 0 ==> own1[r][..|own1[r]|] == own1[r] && own2[r][..|own1[r]|] == own2[r];
        greduced := greduced + reduced;
      }
    }

    /** The whole sort. */
    method Run() returns (rounds: nat)
      requires Job(Config(less, regionSz, blank), dat)
      modifies this
      ensures SortedOver(less, regionSz, old(dat), dat)
      ensures rounds <= Inversions(less, Flatten(old(dat))) + 1
      ensures |dat| > 1 ==>
                && Wide(regionSz, Loaded(Config(less, regionSz, blank), old(dat)))
                && StopsAfter(less, regionSz, Loaded(Config(less, regionSz, blank), old(dat)), rounds)
    {
      hide Job, Loaded, Wide, Owned, Round, Changes, Inversions, Flatten, SortedOver, AllChange, StopsAfter, Sizes;
      ghost var c, before := Config(less, regionSz, blank), dat;
      LoadedReady(c, before);
      Load();
      NoRoundYet(c, temp1);
      ghost var t0 := temp1;
      rounds := 0;
      var running := |dat| > 1;
      while running
        invariant Wide(regionSz, t0) && |dat| == |before|
        invariant temp1 == Rounds(less, regionSz, t0, rounds)
        invariant |before| == 1 ==> rounds == 0 && !running
        invariant |before| > 1 ==>
          if running then AllChange(less, regionSz, t0, rounds) else StopsAfter(less, regionSz, t0, rounds)
        decreases running, Inversions(less, Flatten(before)) - rounds
      {
        BoundSoFar(c, before, rounds);
        temp2 := temp1;
        Exchange();
        RoundKeepsShape(c, before, rounds);
        var greduced := AllReduceChanged();
        VerdictMeaning(c, t0, rounds);
        rounds := rounds + 1;
        running := greduced != 0;
        if running {
          BoundSoFar(c, before, rounds);
        }
      }
      dat := Owned(regionSz, temp1);
      if |before| > 1 {
        LoopEndsSorted(c, before, rounds);
      } else {
        OneRankSorted(c, before);
      }
    }
  }

  lemma {:induction false} BoundSoFar<T(!new)>(c: Config<T>, blocks: seq<seq<T>>, k: nat)
    requires Job(c, blocks) && |blocks| > 1 && Wide(c.R, Loaded(c, blocks))
    requires AllChange(c.less, c.R, Loaded(c, blocks), k)
    ensures k <= Inversions(c.less, Flatten(blocks))
  {
    hide Loaded, Wide, Changes, Owned, Inversions, Flatten, TotalOn, StrictWeakOrder, AllChange;
    LoadedReady(c, blocks);
    RoundsBounded(c.less, c.R, Sizes(blocks), Loaded(c, blocks), k);
  }

  lemma {:induction false} NoRoundYet<T>(c: Config<T>, t0: seq<seq<T>>)
    requires Wide(c.R, t0)
    ensures AllChange(c.less, c.R, t0, 0) && Rounds(c.less, c.R, t0, 0) == t0
  {
  }

  lemma {:induction false} RoundKeepsShape<T(!new)>(c: Config<T>, blocks: seq<seq<T>>, k: nat)
    requires Job(c, blocks) && Wide(c.R, Loaded(c, blocks))
    ensures |blocks| >= 1
    ensures var u := Rounds(c.less, c.R, Loaded(c, blocks), k);
            && |u| == |Round(c.less, c.R, u)| == |blocks|
            && forall r :: 0 <= r < |u| ==> |u[r]| == |Round(c.less, c.R, u)[r]|
  {
    hide Loaded, Wide, Owned, Flatten, TotalOn, StrictWeakOrder, Round;
    LoadedReady(c, blocks);
    RoundsKeep(c.less, c.R, Sizes(blocks), Loaded(c, blocks), k);
    RoundsKeep(c.less, c.R, Sizes(blocks), Loaded(c, blocks), k + 1);
    assert Rounds(c.less, c.R, Loaded(c, blocks), k + 1) == Round(c.less, c.R, Rounds(c.less, c.R, Loaded(c, blocks), k));
  }
}
