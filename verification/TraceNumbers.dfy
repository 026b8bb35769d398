/**
 What a round of the parameter sort may rely on: the ranges it sorts hold rows of
 the job only, and comparing trace numbers is comparing rows.
 */
module TraceNumbers {
  import opened Sorting
  import opened Blocks
  import opened NearestNeighbour
  import opened SortProtocol
  import opened SortTheorems

  /** No two of these traces share a number. */
  ghost predicate Numbered<T>(gtn: T -> nat, s: seq<T>) {
    forall x, y :: x in s && y in s && x != y ==> gtn(x) != gtn(y)
  }

  lemma {:induction false} RoundsUnfold<T>(c: Config<T>, t0: seq<seq<T>>, k: nat)
    requires Wide(c.R, t0)
    ensures Rounds(c.less, c.R, t0, k + 1) == Round(c.less, c.R, Rounds(c.less, c.R, t0, k))
  {
  }

  lemma {:induction false} JobOrder<T(!new)>(c: Config<T>, blocks: seq<seq<T>>)
    requires Job(c, blocks)
    ensures |blocks| >= 1 && StrictWeakOrder(c.less) && TotalOn(c.less, Flatten(blocks))
  {
  }

  lemma {:induction false} RangeTotal<T>(c: Config<T>, pieces: seq<seq<T>>, r: nat, items: seq<T>)
    requires r < |pieces| && multiset(Flatten(pieces)) == multiset(items) && TotalOn(c.less, items)
    ensures TotalOn(c.less, pieces[r])
  {
    hide Flatten, TotalOn;
    TotalOnPermutation(c.less, items, Flatten(pieces));
    BlockTotal(c, pieces, r);
  }

  /** The ranges a round sorts hold items of the job only: nothing stale. */
  lemma {:induction false} RangesTotal<T(!new)>(c: Config<T>, blocks: seq<seq<T>>, k: nat)
    requires Job(c, blocks) && Wide(c.R, Loaded(c, blocks))
    ensures var t := Rounds(c.less, c.R, Loaded(c, blocks), k);
            && (forall r :: 0 <= r < |t| ==> TotalOn(c.less, AfterSendLeft(c.R, t)[r][Edge1(c.R, r)..]))
            && (forall r :: 0 <= r < |t| ==> TotalOn(c.less, Owned(c.R, BeforeSortOwned(c.less, c.R, t))[r]))
  {
    hide Job, Loaded, Wide, Owned, Rounds, Flatten, TotalOn, StrictWeakOrder, BeforeSortOwned, SortEach;
    var sizes, t0 := Sizes(blocks), Loaded(c, blocks);
    var t, items := Rounds(c.less, c.R, t0, k), Flatten(blocks);
    JobOrder(c, blocks);
    LoadedReady(c, blocks);
    RoundsKeep(c.less, c.R, sizes, t0, k);
    WindowsRegroup(c.R, sizes, t);
    GiveBackRegroups(c.less, c.R, sizes, t);
    SortEachPermutes(c.less, Window(c.R, t));
    var v := BeforeSortOwned(c.less, c.R, t);
    forall r | 0 <= r < |t|
      ensures TotalOn(c.less, AfterSendLeft(c.R, t)[r][Edge1(c.R, r)..])
      ensures TotalOn(c.less, Owned(c.R, v)[r])
    {
      RangeTotal(c, Window(c.R, t), r, items);
      RangeTotal(c, Owned(c.R, v), r, items);
      assert AfterSendLeft(c.R, t)[r][Edge1(c.R, r)..] == Window(c.R, t)[r];
    }
  }

  lemma {:induction false} OwnedNumbered<T>(c: Config<T>, gtn: T -> nat, own: seq<seq<T>>, own': seq<seq<T>>,
                                            items: seq<T>, r: nat, j: nat)
    requires multiset(Flatten(own)) == multiset(Flatten(own')) == multiset(items) && Numbered(gtn, items)
    requires r < |own| && r < |own'| && j < |own[r]| && j < |own'[r]|
    ensures gtn(own[r][j]) == gtn(own'[r][j]) <==> own[r][j] == own'[r][j]
  {
    FlattenMembers(own, r, own[r][j]);
    FlattenMembers(own', r, own'[r][j]);
    SameItems(Flatten(own), items, own[r][j]);
    SameItems(Flatten(own'), items, own'[r][j]);
  }

  /** With distinct numbers, comparing numbers is comparing traces. */
  lemma {:induction false} NumbersTell<T(!new)>(c: Config<T>, gtn: T -> nat, blocks: seq<seq<T>>, k: nat)
    requires Job(c, blocks) && Wide(c.R, Loaded(c, blocks)) && Numbered(gtn, Flatten(blocks))
    ensures var t := Rounds(c.less, c.R, Loaded(c, blocks), k);
            var u := Rounds(c.less, c.R, Loaded(c, blocks), k + 1);
            && |t| == |u| && (forall r :: 0 <= r < |u| ==> |u[r]| == |t[r]|)
            && forall r, j :: 0 <= r < |u| && 0 <= j < |Owned(c.R, u)[r]| ==>
                 (gtn(u[r][j]) == gtn(t[r][j]) <==> u[r][j] == t[r][j])
  {
    hide Job, Loaded, Wide, Rounds, Flatten, TotalOn, StrictWeakOrder, Numbered;
    var sizes, t0 := Sizes(blocks), Loaded(c, blocks);
    JobOrder(c, blocks);
    LoadedReady(c, blocks);
    RoundsKeep(c.less, c.R, sizes, t0, k);
    RoundsKeep(c.less, c.R, sizes, t0, k + 1);
    var t, u := Rounds(c.less, c.R, t0, k), Rounds(c.less, c.R, t0, k + 1);
    forall r, j | 0 <= r < |u| && 0 <= j < |Owned(c.R, u)[r]|
      ensures gtn(u[r][j]) == gtn(t[r][j]) <==> u[r][j] == t[r][j]
    {
      OwnedNumbered(c, gtn, Owned(c.R, u), Owned(c.R, t), Flatten(blocks), r, j);
    }
  }

  /** Every rank compares the numbers of its own rows. */
  ghost predicate SameNumbers<T>(gtn: T -> nat, R: nat, u: seq<seq<T>>, t: seq<seq<T>>)
    requires Wide(R, u) && Wide(R, t)
  {
    && |u| == |t|
    && forall r, j :: 0 <= r < |u| && 0 <= j < |Owned(R, u)[r]| ==> |u[r]| == |t[r]| && gtn(u[r][j]) == gtn(t[r][j])
  }

  /** Comparing numbers is comparing rows wherever that holds row by row. */
  lemma {:induction false} SameNumbersMeans<T>(gtn: T -> nat, R: nat, u: seq<seq<T>>, t: seq<seq<T>>)
    requires Wide(R, t) && Wide(R, u)
    requires |t| == |u| && forall r :: 0 <= r < |u| ==> |u[r]| == |t[r]|
    requires forall r, j :: 0 <= r < |u| && 0 <= j < |Owned(R, u)[r]| ==> (gtn(u[r][j]) == gtn(t[r][j]) <==> u[r][j] == t[r][j])
    ensures SameNumbers(gtn, R, u, t) <==> Owned(R, u) == Owned(R, t)
  {
    var own, own' := Owned(R, u), Owned(R, t);
    if SameNumbers(gtn, R, u, t) {
      forall r | 0 <= r < |u| ensures own[r] == own'[r] {
        forall j | 0 <= j < |own[r]| ensures own[r][j] == own'[r][j] {
          assert gtn(u[r][j]) == gtn(t[r][j]);
        }
      }
    }
    if own == own' {
      forall r, j | 0 <= r < |u| && 0 <= j < |own[r]| ensures gtn(u[r][j]) == gtn(t[r][j]) {
        assert own[r][j] == own'[r][j];
      }
    }
  }

  /** Equal numbers everywhere mean that the round has changed nothing. */
  lemma {:induction false} NumbersDecide<T(!new)>(c: Config<T>, gtn: T -> nat, blocks: seq<seq<T>>, k: nat)
    requires Job(c, blocks) && Wide(c.R, Loaded(c, blocks)) && Numbered(gtn, Flatten(blocks))
    ensures var t := Rounds(c.less, c.R, Loaded(c, blocks), k);
            var u := Round(c.less, c.R, t);
            SameNumbers(gtn, c.R, u, t) <==> Owned(c.R, u) == Owned(c.R, t)
  {
    hide *;
    var t0 := Loaded(c, blocks);
    NumbersTell(c, gtn, blocks, k);
    RoundsUnfold(c, t0, k);
    SameNumbersMeans(gtn, c.R, Rounds(c.less, c.R, t0, k + 1), Rounds(c.less, c.R, t0, k));
  }
}
