/**
 The nearest-neighbour sort in lock step: every rank performs the same step of a
 round before any rank performs the next one. `SortProtocol` shows that the
 asynchronous execution of the same code always ends up here.

 Rank r keeps `lnt` items of its own and, unless it is the last one, room for
 `regionSz` items borrowed from rank r + 1.
 */
module NearestNeighbour {
  import opened Sorting
  import opened Blocks

  /** How many items neighbours exchange: a quarter of the smallest block. */
  function RegionSize(sizes: seq<nat>): nat
    requires sizes != []
  {
    Min(sizes) / 4
  }

  /** It is the largest number that fits four times into every block. */
  lemma {:induction false} RegionIsQuarter(sizes: seq<nat>, R: nat)
    requires sizes != []
    ensures R == RegionSize(sizes) <==>
            && (forall r :: 0 <= r < |sizes| ==> 4 * R <= sizes[r])
            && exists r :: 0 <= r < |sizes| && sizes[r] < 4 * R + 4
  {
    var m := Min(sizes);
    var i :| 0 <= i < |sizes| && sizes[i] == m;
    hide Min;
  }

  /** The items a rank lends to its left neighbour, at the start of its buffer. */
  function Edge1(R: nat, r: nat): nat { if r > 0 then R else 0 }

  /** The items a rank borrows from its right neighbour, at the end of its buffer. */
  function Edge2(R: nat, n: nat, r: nat): nat { if r + 1 < n then R else 0 }

  /** The buffers `temp1` of all ranks, for owned blocks of the given sizes. */
  ghost predicate Fits<T>(R: nat, sizes: seq<nat>, t: seq<seq<T>>) {
    && |t| == |sizes| >= 1
    && forall r :: 0 <= r < |t| ==> 4 * R <= sizes[r] && |t[r]| == sizes[r] + Edge2(R, |t|, r)
  }

  ghost predicate Wide<T>(R: nat, t: seq<seq<T>>) {
    forall r :: 0 <= r < |t| ==> 2 * R <= |t[r]|
  }

  // ------------------------------------------------------- the steps of a round

  /** Rank r's buffer once the head of rank r + 1 has arrived at its end. */
  function Borrow<T>(R: nat, t: seq<seq<T>>, r: nat): (buf: seq<T>)
    requires Wide(R, t) && r < |t|
    ensures |buf| == |t[r]|
  {
    if r + 1 < |t| then t[r][..|t[r]| - R] + t[r + 1][..R] else t[r]
  }

  /** Rank r's buffer once the end of rank r - 1 has arrived at its head. */
  function GiveBack<T>(R: nat, t: seq<seq<T>>, r: nat): (buf: seq<T>)
    requires Wide(R, t) && r < |t|
    ensures |buf| == |t[r]|
  {
    if r > 0 then t[r - 1][|t[r - 1]| - R..] + t[r][R..] else t[r]
  }

  function SortFrom<T>(less: (T, T) -> bool, edge: nat, s: seq<T>): (buf: seq<T>)
    requires edge <= |s|
    ensures |buf| == |s|
  {
    s[..edge] + Sort(less, s[edge..])
  }

  function SortUpTo<T>(less: (T, T) -> bool, edge: nat, s: seq<T>): (buf: seq<T>)
    requires edge <= |s|
    ensures |buf| == |s|
  {
    Sort(less, s[..|s| - edge]) + s[|s| - edge..]
  }

  function AfterSendLeft<T>(R: nat, t: seq<seq<T>>): (u: seq<seq<T>>)
    requires Wide(R, t)
    ensures Wide(R, u) && |u| == |t| && forall r :: 0 <= r < |t| ==> |u[r]| == |t[r]|
  {
    seq(|t|, r requires 0 <= r < |t| => Borrow(R, t, r))
  }

  function AfterSortWindow<T>(less: (T, T) -> bool, R: nat, t: seq<seq<T>>): (u: seq<seq<T>>)
    requires Wide(R, t)
    ensures Wide(R, u) && |u| == |t| && forall r :: 0 <= r < |t| ==> |u[r]| == |t[r]|
  {
    seq(|t|, r requires 0 <= r < |t| => SortFrom(less, Edge1(R, r), t[r]))
  }

  function AfterSendRight<T>(R: nat, t: seq<seq<T>>): (u: seq<seq<T>>)
    requires Wide(R, t)
    ensures Wide(R, u) && |u| == |t| && forall r :: 0 <= r < |t| ==> |u[r]| == |t[r]|
  {
    seq(|t|, r requires 0 <= r < |t| => GiveBack(R, t, r))
  }

  function AfterSortOwned<T>(less: (T, T) -> bool, R: nat, t: seq<seq<T>>): (u: seq<seq<T>>)
    requires Wide(R, t)
    ensures Wide(R, u) && |u| == |t|
  {
    seq(|t|, r requires 0 <= r < |t| => SortUpTo(less, Edge2(R, |t|, r), t[r]))
  }

  /** The buffers just before the last sort of a round. */
  function BeforeSortOwned<T>(less: (T, T) -> bool, R: nat, t: seq<seq<T>>): (u: seq<seq<T>>)
    requires Wide(R, t)
    ensures Wide(R, u) && |u| == |t|
  {
    AfterSendRight(R, AfterSortWindow(less, R, AfterSendLeft(R, t)))
  }

  function Round<T>(less: (T, T) -> bool, R: nat, t: seq<seq<T>>): (u: seq<seq<T>>)
    requires Wide(R, t)
    ensures Wide(R, u) && |u| == |t|
  {
    AfterSortOwned(less, R, BeforeSortOwned(less, R, t))
  }

  /** The buffers after k rounds. */
  function Rounds<T>(less: (T, T) -> bool, R: nat, t: seq<seq<T>>, k: nat): (u: seq<seq<T>>)
    requires Wide(R, t)
    ensures Wide(R, u) && |u| == |t|
  {
    if k == 0 then t else Round(less, R, Rounds(less, R, t, k - 1))
  }

  /** Every rank's own block, without the borrowed items. */
  function Owned<T>(R: nat, t: seq<seq<T>>): (blocks: seq<seq<T>>)
    requires Wide(R, t)
    ensures |blocks| == |t|
  {
    seq(|t|, r requires 0 <= r < |t| => t[r][..|t[r]| - Edge2(R, |t|, r)])
  }

  /** The sizes of the windows sorted first: the partition shifted right by R. */
  function Shifted(R: nat, sizes: seq<nat>): (shifted: seq<nat>)
    requires forall r :: 0 <= r < |sizes| ==> R <= sizes[r]
    ensures |shifted| == |sizes|
  {
    seq(|sizes|, r requires 0 <= r < |sizes| => sizes[r] + Edge2(R, |sizes|, r) - Edge1(R, r))
  }

  // ------------------------------------------------ one round on global data

  /** The window rank r sorts first: its buffer without the items it has lent. */
  ghost function Window<T>(R: nat, t: seq<seq<T>>): (w: seq<seq<T>>)
    requires Wide(R, t)
    ensures |w| == |t|
  {
    seq(|t|, r requires 0 <= r < |t| => Borrow(R, t, r)[Edge1(R, r)..])
  }

  lemma {:induction false} FitsWide<T>(R: nat, sizes: seq<nat>, t: seq<seq<T>>)
    requires Fits(R, sizes, t)
    ensures Wide(R, t)
    ensures Sizes(Owned(R, t)) == sizes
    ensures |Flatten(Owned(R, t))| == Sum(sizes)
  {
    assert Sizes(Owned(R, t)) == sizes;
    SplitFlatten(Owned(R, t));
  }

  /** The part of rank r's data that moves to its left neighbour's side when the
      boundaries between `own` blocks move right by R, and the part that stays. */
  ghost function Head<T>(R: nat, own: seq<seq<T>>, r: nat): seq<T>
    requires r <= |own| && forall q :: 0 <= q < |own| ==> R <= |own[q]|
  {
    if 0 < r < |own| then own[r][..R] else []
  }

  ghost function Heads<T>(R: nat, own: seq<seq<T>>): (h: seq<seq<T>>)
    requires forall q :: 0 <= q < |own| ==> R <= |own[q]|
    ensures |h| == |own| + 1 && forall r :: 0 <= r <= |own| ==> h[r] == Head(R, own, r)
  {
    seq(|own| + 1, r requires 0 <= r <= |own| => Head(R, own, r))
  }

  ghost function Mids<T>(R: nat, own: seq<seq<T>>): (m: seq<seq<T>>)
    requires forall q :: 0 <= q < |own| ==> R <= |own[q]|
    ensures |m| == |own| && forall r :: 0 <= r < |own| ==> m[r] == own[r][Edge1(R, r)..]
  {
    seq(|own|, r requires 0 <= r < |own| => own[r][Edge1(R, r)..])
  }

  lemma {:induction false} OwnedAt<T>(R: nat, sizes: seq<nat>, t: seq<seq<T>>, r: nat)
    requires Fits(R, sizes, t) && Wide(R, t) && r < |t|
    ensures |Owned(R, t)[r]| == sizes[r] >= 4 * R
    ensures Owned(R, t)[r] == t[r][..sizes[r]]
  {
  }

  lemma {:induction false} WindowAt<T>(R: nat, sizes: seq<nat>, t: seq<seq<T>>, r: nat)
    requires Fits(R, sizes, t) && Wide(R, t) && r < |t|
    requires forall q :: 0 <= q < |t| ==> R <= |Owned(R, t)[q]|
    ensures Window(R, t)[r] == Owned(R, t)[r][Edge1(R, r)..] + Head(R, Owned(R, t), r + 1)
  {
    OwnedAt(R, sizes, t, r);
    if r + 1 < |t| {
      OwnedAt(R, sizes, t, r + 1);
      assert t[r + 1][..R] == Owned(R, t)[r + 1][..R];
      assert t[r][..|t[r]| - R] == Owned(R, t)[r];
    }
  }

  /** Moving all block boundaries right by R turns the owned blocks into the
      windows. */
  lemma {:induction false} WindowsRegroup<T>(R: nat, sizes: seq<nat>, t: seq<seq<T>>)
    requires Fits(R, sizes, t) && Wide(R, t)
    ensures Flatten(Window(R, t)) == Flatten(Owned(R, t))
    ensures Sizes(Window(R, t)) == Shifted(R, sizes)
  {
    var own, win := Owned(R, t), Window(R, t);
    forall r | 0 <= r < |t|
      ensures |own[r]| == sizes[r] >= R && own[r] == Head(R, own, r) + own[r][Edge1(R, r)..]
    {
      OwnedAt(R, sizes, t, r);
    }
    forall r | 0 <= r < |t|
      ensures win[r] == own[r][Edge1(R, r)..] + Head(R, own, r + 1)
      ensures |win[r]| == Shifted(R, sizes)[r]
    {
      WindowAt(R, sizes, t, r);
    }
    Regroup(Heads(R, own), Mids(R, own), own, win);
  }

  /** The buffers after the windows were sorted: what was lent is still at the
      head, stale, and the sorted window follows. */
  lemma {:induction false} SortedWindowAt<T>(less: (T, T) -> bool, R: nat, t: seq<seq<T>>, r: nat)
    requires Wide(R, t) && r < |t|
    ensures Edge1(R, r) <= |t[r]|
    ensures AfterSortWindow(less, R, AfterSendLeft(R, t))[r]
         == t[r][..Edge1(R, r)] + SortEach(less, Window(R, t))[r]
  {
    assert AfterSendLeft(R, t)[r][Edge1(R, r)..] == Window(R, t)[r];
    assert AfterSendLeft(R, t)[r][..Edge1(R, r)] == t[r][..Edge1(R, r)];
  }

  /** Every window is long enough to give its last R items back. */
  ghost predicate Returnable<T>(R: nat, sorted: seq<seq<T>>) {
    forall q :: 0 <= q < |sorted| ==> Edge2(R, |sorted|, q) <= |sorted[q]|
  }

  /** The end of a sorted window: what rank r - 1 gives back to rank r. */
  ghost function Tail<T>(R: nat, sorted: seq<seq<T>>, r: nat): seq<T>
    requires r <= |sorted| && Returnable(R, sorted)
  {
    if 0 < r < |sorted| then
      assert Edge2(R, |sorted|, r - 1) <= |sorted[r - 1]|;
      sorted[r - 1][|sorted[r - 1]| - R..]
    else []
  }

  ghost function Tails<T>(R: nat, sorted: seq<seq<T>>): (h: seq<seq<T>>)
    requires Returnable(R, sorted)
    ensures |h| == |sorted| + 1 && forall r :: 0 <= r <= |sorted| ==> h[r] == Tail(R, sorted, r)
  {
    seq(|sorted| + 1, r requires 0 <= r <= |sorted| => Tail(R, sorted, r))
  }

  ghost function Kept<T>(R: nat, sorted: seq<seq<T>>): (m: seq<seq<T>>)
    requires Returnable(R, sorted)
    ensures |m| == |sorted|
    ensures forall r :: 0 <= r < |sorted| ==> m[r] == sorted[r][..|sorted[r]| - Edge2(R, |sorted|, r)]
  {
    seq(|sorted|, r requires 0 <= r < |sorted| => sorted[r][..|sorted[r]| - Edge2(R, |sorted|, r)])
  }

  lemma {:induction false} WindowSizes<T>(less: (T, T) -> bool, R: nat, sizes: seq<nat>, t: seq<seq<T>>)
    requires Fits(R, sizes, t) && Wide(R, t)
    requires Sizes(Window(R, t)) == Shifted(R, sizes)
    ensures Returnable(R, SortEach(less, Window(R, t)))
    ensures forall r :: 0 <= r < |t| ==>
              |SortEach(less, Window(R, t))[r]| == sizes[r] + Edge2(R, |t|, r) - Edge1(R, r)
  {
    forall r | 0 <= r < |t|
      ensures |SortEach(less, Window(R, t))[r]| == sizes[r] + Edge2(R, |t|, r) - Edge1(R, r)
    {
      assert |Window(R, t)[r]| == Sizes(Window(R, t))[r];
    }
  }

  lemma {:induction false} GiveBackAt<T>(less: (T, T) -> bool, R: nat, t: seq<seq<T>>, r: nat)
    requires Wide(R, t) && r < |t|
    requires Returnable(R, SortEach(less, Window(R, t)))
    ensures BeforeSortOwned(less, R, t)[r]
         == Tail(R, SortEach(less, Window(R, t)), r) + SortEach(less, Window(R, t))[r]
  {
    hide *;
    Edges(R, r);
    if r > 0 {
      TailGivenBack(less, R, t, r);
    } else {
      var prev, cur := BuffersAt(less, R, t, r);
      NoTailAtEnds(R, SortEach(less, Window(R, t)));
      NothingLent(t[0][..0], SortEach(less, Window(R, t))[0]);
    }
  }

  lemma {:induction false} TailGivenBack<T>(less: (T, T) -> bool, R: nat, t: seq<seq<T>>, r: nat)
    requires Wide(R, t) && 0 < r < |t| && Edge1(R, r) == R
    requires Returnable(R, SortEach(less, Window(R, t)))
    ensures BeforeSortOwned(less, R, t)[r]
         == Tail(R, SortEach(less, Window(R, t)), r) + SortEach(less, Window(R, t))[r]
  {
    hide *;
    var own, left := SortEach(less, Window(R, t))[r], SortEach(less, Window(R, t))[r - 1];
    var prev, cur := BuffersAt(less, R, t, r);
    TailIs(R, SortEach(less, Window(R, t)), r);
    GluedEnds(prev, cur, t[r - 1][..Edge1(R, r - 1)], left, t[r][..R], own, R);
  }

  /** The buffers of a rank and its left neighbour when the windows are sorted, and what
      becomes of them. */
  lemma {:induction false} BuffersAt<T>(less: (T, T) -> bool, R: nat, t: seq<seq<T>>, r: nat) returns (prev: seq<T>, cur: seq<T>)
    requires Wide(R, t) && r < |t|
    ensures Edge1(R, r) <= |t[r]| && cur == t[r][..Edge1(R, r)] + SortEach(less, Window(R, t))[r]
    ensures r > 0 ==> Edge1(R, r - 1) <= |t[r - 1]| && prev == t[r - 1][..Edge1(R, r - 1)] + SortEach(less, Window(R, t))[r - 1]
    ensures R <= |cur| && (r > 0 ==> R <= |prev|)
    ensures BeforeSortOwned(less, R, t)[r] == if r > 0 then prev[|prev| - R..] + cur[R..] else cur
  {
    hide *;
    GivenBackAt(less, R, t, r);
    SortedWindowAt(less, R, t, r);
    cur, prev := AfterSortWindow(less, R, AfterSendLeft(R, t))[r], [];
    if r > 0 {
      SortedWindowAt(less, R, t, r - 1);
      prev := AfterSortWindow(less, R, AfterSendLeft(R, t))[r - 1];
    }
  }

  lemma {:induction false} Edges(R: nat, r: nat)
    ensures Edge1(R, r) == if r > 0 then R else 0
  {
  }

  lemma {:induction false} GluedEnds<T>(a: seq<T>, b: seq<T>, p: seq<T>, s: seq<T>, q: seq<T>, u: seq<T>, R: nat)
    requires a == p + s && b == q + u && |q| == R <= |s|
    ensures a[|a| - R..] + b[R..] == s[|s| - R..] + u
  {
    EndOfConcat(p, s, R);
    EndOfConcat(q, u, 0);
  }

  lemma {:induction false} NothingLent<T>(p: seq<T>, s: seq<T>)
    requires p == []
    ensures p + s == [] + s
  {
  }

  lemma {:induction false} GivenBackAt<T>(less: (T, T) -> bool, R: nat, t: seq<seq<T>>, r: nat)
    requires Wide(R, t) && r < |t|
    ensures var b := AfterSortWindow(less, R, AfterSendLeft(R, t));
            && |b| == |t| && 2 * R <= |b[r]| && (r > 0 ==> 2 * R <= |b[r - 1]|)
            && BeforeSortOwned(less, R, t)[r] == if r > 0 then b[r - 1][|b[r - 1]| - R..] + b[r][R..] else b[r]
  {
    hide AfterSortWindow, AfterSendLeft;
  }

  lemma {:induction false} TailIs<T>(R: nat, sorted: seq<seq<T>>, r: nat)
    requires Returnable(R, sorted) && 0 < r < |sorted|
    ensures R <= |sorted[r - 1]| && Tail(R, sorted, r) == sorted[r - 1][|sorted[r - 1]| - R..]
  {
    assert Edge2(R, |sorted|, r - 1) <= |sorted[r - 1]|;
  }

  lemma {:induction false} EndOfConcat<T>(p: seq<T>, s: seq<T>, R: nat)
    ensures (p + s)[|p|..] == s
    ensures R <= |s| ==> (p + s)[|p + s| - R..] == s[|s| - R..]
  {
  }

  /** Giving back the ends of the sorted windows moves the boundaries to where
      they were. */
  lemma {:induction false} GiveBackRegroups<T>(less: (T, T) -> bool, R: nat, sizes: seq<nat>, t: seq<seq<T>>)
    requires Fits(R, sizes, t) && Wide(R, t)
    ensures var v := BeforeSortOwned(less, R, t);
            && Fits(R, sizes, v)
            && Flatten(Owned(R, v)) == Flatten(SortEach(less, Window(R, t)))
  {
    hide Flatten, BeforeSortOwned, Window, Tail, Tails, Kept, SortEach, Returnable;
    var sorted, v := SortEach(less, Window(R, t)), BeforeSortOwned(less, R, t);
    WindowsRegroup(R, sizes, t);
    WindowSizes(less, R, sizes, t);
    forall r | 0 <= r < |t|
      ensures |v[r]| == sizes[r] + Edge2(R, |t|, r)
      ensures v[r][..sizes[r]] == Tail(R, sorted, r) + Kept(R, sorted)[r]
      ensures sorted[r] == Kept(R, sorted)[r] + Tail(R, sorted, r + 1)
    {
      GiveBackAt(less, R, t, r);
      SplitSorted(R, sorted, r);
      KeptLength(R, sorted, r);
    }
    NoTailAtEnds(R, sorted);
    Regroup(Tails(R, sorted), Kept(R, sorted), Owned(R, v), sorted);
  }

  lemma {:induction false} SplitSorted<T>(R: nat, sorted: seq<seq<T>>, r: nat)
    requires Returnable(R, sorted) && r < |sorted|
    ensures sorted[r] == Kept(R, sorted)[r] + Tail(R, sorted, r + 1)
  {
  }

  lemma {:induction false} KeptLength<T>(R: nat, sorted: seq<seq<T>>, r: nat)
    requires Returnable(R, sorted) && r < |sorted|
    ensures |Kept(R, sorted)[r]| == |sorted[r]| - Edge2(R, |sorted|, r)
    ensures |Tail(R, sorted, r)| == Edge1(R, r)
  {
  }

  lemma {:induction false} NoTailAtEnds<T>(R: nat, sorted: seq<seq<T>>)
    requires Returnable(R, sorted)
    ensures Tail(R, sorted, 0) == Tail(R, sorted, |sorted|) == []
  {
  }

  lemma {:induction false} SortOwnedBlocks<T>(less: (T, T) -> bool, R: nat, sizes: seq<nat>, v: seq<seq<T>>)
    requires Fits(R, sizes, v) && Wide(R, v)
    ensures Fits(R, sizes, AfterSortOwned(less, R, v))
    ensures Owned(R, AfterSortOwned(less, R, v)) == SortEach(less, Owned(R, v))
  {
    forall r | 0 <= r < |v|
      ensures Owned(R, AfterSortOwned(less, R, v))[r] == SortEach(less, Owned(R, v))[r]
    {
      assert AfterSortOwned(less, R, v)[r] == SortUpTo(less, Edge2(R, |v|, r), v[r]);
    }
  }

  /** On the global sequence of owned items, one exchange round sorts every block
      of the shifted partition and then every block of the base partition. */
  lemma {:induction false} RoundRefines<T>(less: (T, T) -> bool, R: nat, sizes: seq<nat>, t: seq<seq<T>>)
    requires Fits(R, sizes, t) && Wide(R, t)
    ensures Fits(R, sizes, Round(less, R, t))
    ensures Sum(sizes) == |Flatten(Owned(R, t))|
    ensures Sum(Shifted(R, sizes)) == Sum(sizes)
    ensures Sum(sizes) == |SortPartition(less, Shifted(R, sizes), Flatten(Owned(R, t)))|
    ensures Flatten(Owned(R, Round(less, R, t)))
         == SortPartition(less, sizes, SortPartition(less, Shifted(R, sizes), Flatten(Owned(R, t))))
  {
    var v := BeforeSortOwned(less, R, t);
    FitsWide(R, sizes, t);
    WindowsRegroup(R, sizes, t);
    SplitFlatten(Window(R, t));
    GiveBackRegroups(less, R, sizes, t);
    FitsWide(R, sizes, v);
    SplitFlatten(Owned(R, v));
    SortOwnedBlocks(less, R, sizes, v);
  }

  // -------------------------------------------- conservation and progress

  /** No round loses, duplicates or invents an item. */
  lemma {:induction false} RoundConserves<T(!new)>(less: (T, T) -> bool, R: nat, sizes: seq<nat>, t: seq<seq<T>>)
    requires StrictWeakOrder(less) && Fits(R, sizes, t) && Wide(R, t)
    ensures multiset(Flatten(Owned(R, Round(less, R, t)))) == multiset(Flatten(Owned(R, t)))
  {
    WindowsRegroup(R, sizes, t);
    GiveBackRegroups(less, R, sizes, t);
    SortEachPermutes(less, Window(R, t));
    SortOwnedBlocks(less, R, sizes, BeforeSortOwned(less, R, t));
    SortEachPermutes(less, Owned(R, BeforeSortOwned(less, R, t)));
  }

  /** A round that changes some rank's block removes at least one inversion; a
      round that changes none found every window and every block sorted. */
  lemma {:induction false} RoundProgress<T(!new)>(less: (T, T) -> bool, R: nat, sizes: seq<nat>, t: seq<seq<T>>)
    requires StrictWeakOrder(less) && Fits(R, sizes, t) && Wide(R, t)
    requires TotalOn(less, Flatten(Owned(R, t)))
    ensures var u := Round(less, R, t);
            if Owned(R, u) == Owned(R, t) then
              forall r :: 0 <= r < |t| ==> Sorted(less, Window(R, t)[r]) && Sorted(less, Owned(R, t)[r])
            else
              Inversions(less, Flatten(Owned(R, u))) < Inversions(less, Flatten(Owned(R, t)))
  {
    var v := BeforeSortOwned(less, R, t);
    WindowsRegroup(R, sizes, t);
    GiveBackRegroups(less, R, sizes, t);
    SortOwnedBlocks(less, R, sizes, v);
    FitsWide(R, sizes, v);
    FitsWide(R, sizes, t);
    SortEachPermutes(less, Window(R, t));
    TotalOnPermutation(less, Flatten(Owned(R, t)), Flatten(Owned(R, v)));
    SortEachInversions(less, Window(R, t));
    SortEachInversions(less, Owned(R, v));
    if Inversions(less, Flatten(Owned(R, Round(less, R, t)))) == Inversions(less, Flatten(Owned(R, t))) {
      assert Flatten(Owned(R, v)) == Flatten(Owned(R, t));
      SplitFlatten(Owned(R, v));
      SplitFlatten(Owned(R, t));
    }
  }

  lemma {:induction false} RoundsKeep<T(!new)>(less: (T, T) -> bool, R: nat, sizes: seq<nat>, t: seq<seq<T>>, k: nat)
    requires StrictWeakOrder(less) && Fits(R, sizes, t) && Wide(R, t)
    ensures Fits(R, sizes, Rounds(less, R, t, k))
    ensures multiset(Flatten(Owned(R, Rounds(less, R, t, k)))) == multiset(Flatten(Owned(R, t)))
  {
    hide StrictWeakOrder, Fits, Owned, Flatten, Round, Wide;
    if k > 0 {
      RoundsKeep(less, R, sizes, t, k - 1);
      var u := Rounds(less, R, t, k - 1);
      RoundRefines(less, R, sizes, u);
      RoundConserves(less, R, sizes, u);
    }
  }

  /** Round j + 1 moves an item of some rank's block. */
  ghost predicate Changes<T>(less: (T, T) -> bool, R: nat, t: seq<seq<T>>, j: nat)
    requires Wide(R, t)
  {
    Owned(R, Round(less, R, Rounds(less, R, t, j))) != Owned(R, Rounds(less, R, t, j))
  }

  /** None of the first k rounds leaves every rank's block as it was. */
  ghost predicate AllChange<T>(less: (T, T) -> bool, R: nat, t: seq<seq<T>>, k: nat)
    requires Wide(R, t)
  {
    forall j :: 0 <= j < k ==> Changes(less, R, t, j)
  }

  /** The loop ends with round k: it is the first one to change nothing. */
  ghost predicate StopsAfter<T>(less: (T, T) -> bool, R: nat, t: seq<seq<T>>, k: nat)
    requires Wide(R, t)
  {
    && k > 0
    && AllChange(less, R, t, k - 1)
    && !Changes(less, R, t, k - 1)
  }

  /** The number of rounds is bounded by the inversions of the starting data. */
  lemma {:induction false} RoundsBounded<T(!new)>(less: (T, T) -> bool, R: nat, sizes: seq<nat>, t: seq<seq<T>>, k: nat)
    requires StrictWeakOrder(less) && Fits(R, sizes, t) && Wide(R, t)
    requires TotalOn(less, Flatten(Owned(R, t)))
    requires AllChange(less, R, t, k)
    ensures Inversions(less, Flatten(Owned(R, Rounds(less, R, t, k)))) + k <= Inversions(less, Flatten(Owned(R, t)))
  {
    hide StrictWeakOrder, TotalOn, Round, Owned, Flatten, Inversions, Fits, Wide;
    if k > 0 {
      assert AllChange(less, R, t, k - 1);
      RoundsBounded(less, R, sizes, t, k - 1);
      RoundsKeep(less, R, sizes, t, k - 1);
      var u := Rounds(less, R, t, k - 1);
      TotalOnPermutation(less, Flatten(Owned(R, t)), Flatten(Owned(R, u)));
      RoundProgress(less, R, sizes, u);
      assert Changes(less, R, t, k - 1);
    }
  }

  /** With R > 0 the last item of a block and the first item of the next one sit
      side by side in a window. */
  lemma {:induction false} NeighboursInWindow<T>(R: nat, sizes: seq<nat>, t: seq<seq<T>>, r: nat)
    requires Fits(R, sizes, t) && Wide(R, t) && R > 0 && r + 1 < |t|
    ensures |Owned(R, t)[r]| > 0 && |Owned(R, t)[r + 1]| > 0
    ensures var k := sizes[r] - 1 - Edge1(R, r);
            && 0 <= k < k + 1 < |Window(R, t)[r]|
            && Window(R, t)[r][k] == Owned(R, t)[r][sizes[r] - 1]
            && Window(R, t)[r][k + 1] == Owned(R, t)[r + 1][0]
  {
    OwnedAt(R, sizes, t, r);
    OwnedAt(R, sizes, t, r + 1);
    assert Window(R, t)[r] == (t[r][..|t[r]| - R] + t[r + 1][..R])[Edge1(R, r)..];
  }

  /** A round that changes nothing, with at least one item exchanged across every
      boundary, only happens on globally sorted data. */
  lemma {:induction false} QuietRoundSorted<T(!new)>(less: (T, T) -> bool, R: nat, sizes: seq<nat>, t: seq<seq<T>>)
    requires StrictWeakOrder(less) && Fits(R, sizes, t) && Wide(R, t)
    requires TotalOn(less, Flatten(Owned(R, t)))
    requires R > 0 && Owned(R, Round(less, R, t)) == Owned(R, t)
    ensures Sorted(less, Flatten(Owned(R, t)))
  {
    hide StrictWeakOrder, TotalOn, Flatten, Inversions, Round;
    var own := Owned(R, t);
    RoundProgress(less, R, sizes, t);
    forall r | 0 <= r < |own|
      ensures own[r] != [] && Sorted(less, own[r])
      ensures r < |own| - 1 ==> !less(own[r + 1][0], own[r][|own[r]| - 1])
    {
      OwnedAt(R, sizes, t, r);
      if r < |own| - 1 {
        NeighboursInWindow(R, sizes, t, r);
      }
    }
    FlattenSorted(less, own);
  }

  /** What the loop leaves behind is the sorted arrangement of what it was given. */
  lemma {:induction false} StopsSorted<T(!new)>(less: (T, T) -> bool, R: nat, sizes: seq<nat>, t: seq<seq<T>>, k: nat)
    requires StrictWeakOrder(less) && Fits(R, sizes, t) && Wide(R, t)
    requires TotalOn(less, Flatten(Owned(R, t)))
    requires R > 0 && StopsAfter(less, R, t, k)
    ensures Flatten(Owned(R, Rounds(less, R, t, k))) == Sort(less, Flatten(Owned(R, t)))
    ensures 2 * k <= Sum(sizes) * (Sum(sizes) - 1) + 2
  {
    hide StrictWeakOrder, TotalOn, Round, Owned, Sorted, Inversions, Flatten, Sum, Fits, Wide;
    var items := Flatten(Owned(R, t));
    var u := Rounds(less, R, t, k - 1);
    RoundsKeep(less, R, sizes, t, k - 1);
    TotalOnPermutation(less, items, Flatten(Owned(R, u)));
    QuietRoundSorted(less, R, sizes, u);
    SortSorts(less, items);
    SortedUnique(less, Flatten(Owned(R, u)), Sort(less, items));
    RoundsBounded(less, R, sizes, t, k - 1);
    InversionsZero(less, items);
    FitsWide(R, sizes, t);
  }
}
