/**
 Sorting one file into another (`Set::sort` followed by `Set::output`), from the
 parameters of the ranks to the order of the traces in the output.
 */
module Flow {
  import opened Blocks
  import opened Comparators
  import opened Decomposition
  import opened DistributedSort
  import opened HeaderOrder
  import opened NearestNeighbour
  import opened Output
  import opened ParamColumns
  import opened ParamSort
  import opened Params
  import opened RuleTable
  import opened SortIndex
  import opened Sorting
  import opened TraceCache
  import opened TraceIO
  import opened TraceNumbers
  import opened TraceOrder
  import opened TraceRows
  import P = SortProtocol
  import R = RowProtocol

  // ------------------------------------------------------------ the parameters

  /** The parameters the sort works on. */
  ghost predicate Rows(file: seq<FileTrace>, numRank: nat, rows: seq<seq<Cells>>)
    requires numRank > 0 && Storable(|file|)
  {
    && |rows| == numRank
    && forall q :: 0 <= q < numRank ==> RankRows(file, numRank, q, rows[q])
  }

  method CacheParameters(r: Rule, file: seq<FileTrace>, numRank: nat, ilst: seq<seq<nat>>)
    returns (prm: seq<Param>, ghost rows: seq<seq<Cells>>)
    requires SortRule(r) && numRank > 0 && Storable(|file|) && Lists(|file|, numRank, ilst)
    ensures forall i :: 0 <= i < |prm| ==> fresh(prm[i])
    ensures |prm| == numRank && Hold(r, prm, rows) && Rows(file, numRank, rows)
  {
    hide *;
    RuleMeans(r);
    HoldNone(r);
    ShareSizes(|file|, numRank, ilst);
    prm, rows := [], [];
    for q := 0 to numRank
      invariant |prm| == |rows| == q && (forall i :: 0 <= i < q ==> fresh(prm[i])) && Hold(r, prm, rows)
      invariant forall i :: 0 <= i < q ==> RankRows(file, numRank, i, rows[i])
    {
      ListsInFile(|file|, numRank, ilst, q);
      RankPiece(|file|, numRank, ilst, q);
      var p := CacheRank(r, file, numRank, q, ilst[q], Offset(Sizes(ilst), q));
      HoldMore(r, prm, rows, p);
      prm, rows := prm + [p], rows + [AllRows(p)];
    }
    RowsAre(file, numRank, rows);
  }

  lemma {:induction false} RowsAre(file: seq<FileTrace>, numRank: nat, rows: seq<seq<Cells>>)
    requires numRank > 0 && Storable(|file|) && |rows| == numRank
    requires forall i :: 0 <= i < numRank ==> RankRows(file, numRank, i, rows[i])
    ensures Rows(file, numRank, rows)
  {
    hide RankRows;
  }

  /** The rank's list is its extent, and the exclusive sum of the lengths is where it
      starts. */
  lemma {:induction false} RankPiece(nt: nat, numRank: nat, ilst: seq<seq<nat>>, r: nat)
    requires numRank > 0 && Lists(nt, numRank, ilst) && r < numRank
    ensures |ilst| == numRank && r <= |Sizes(ilst)|
    ensures Offset(Sizes(ilst), r) == Start(nt, numRank, r) <= nt && |ilst[r]| == Shares(nt, numRank)[r]
    ensures forall i :: 0 <= i < |ilst[r]| ==> ilst[r][i] == Start(nt, numRank, r) + i
  {
    ListsInFile(nt, numRank, ilst, r);
    StartBounds(nt, numRank, r);
    assert |ilst[r]| == Sizes(ilst)[r];
    hide Start;
  }

  lemma {:induction false} RowSizes(file: seq<FileTrace>, numRank: nat, rows: seq<seq<Cells>>)
    requires numRank > 0 && Storable(|file|) && Rows(file, numRank, rows)
    ensures Sizes(rows) == Shares(|file|, numRank) && |Flatten(rows)| == |file| && Sum(Sizes(rows)) == |file|
  {
    hide CachedAt, Shares, Flatten;
    assert Sizes(rows) == Shares(|file|, numRank);
    SplitFlatten(rows);
    SharesSum(|file|, numRank);
  }

  /** Row k of the whole set is trace k of the file. */
  lemma {:induction false} RowAt(file: seq<FileTrace>, numRank: nat, rows: seq<seq<Cells>>, k: nat) returns (r: nat)
    requires numRank > 0 && Storable(|file|) && Rows(file, numRank, rows) && k < |file|
    ensures |Flatten(rows)| == |file| && r < numRank && Start(|file|, numRank, r) <= |file|
    ensures Start(|file|, numRank, r) <= k < Start(|file|, numRank, r + 1)
    ensures IsCached(file, Start(|file|, numRank, r), k, Flatten(rows)[k])
  {
    hide IsCached, Flatten, Shares, Offset;
    RowSizes(file, numRank, rows);
    var i;
    r, i := FlattenOwner(rows, k);
    SharesOffset(|file|, numRank, r);
    TilesInOrder(|file|, numRank, r);
    assert RankRows(file, numRank, r, rows[r]) && CachedAt(file, numRank, r, i, rows[r][i]);
    assert |rows[r]| == Sizes(rows)[r] == Decompose(|file|, numRank, r).second by {
      ShareIs(|file|, numRank, r);
    }
  }

  lemma {:induction false} ShareIs(nt: nat, numRank: nat, r: nat)
    requires r < numRank
    ensures Shares(nt, numRank)[r] == Decompose(nt, numRank, r).second
  {
  }

  /** Row k holds what trace k is compared by. */
  ghost predicate Stands(kind: SortType, file: seq<FileTrace>, rows: seq<Cells>) {
    && |rows| == |file|
    && forall k :: 0 <= k < |file| ==>
         TraceOf(rows[k]).ltn == k && Keys(kind, TraceOf(rows[k])) == Keys(kind, TraceOf(file[k].header))
  }

  lemma {:induction false} CachedStands(kind: SortType, file: seq<FileTrace>, start: nat, k: nat, row: Cells)
    requires Storable(|file|) && start <= |file| && k < |file| && IsCached(file, start, k, row)
    ensures TraceOf(row).ltn == k && Gtn()(row) == start + k
    ensures Keys(kind, TraceOf(row)) == Keys(kind, TraceOf(file[k].header))
  {
  }

  /** What the sort asks of its input holds for one file on any number of ranks. */
  lemma {:induction false} RowsReady(kind: SortType, file: seq<FileTrace>, numRank: nat, rows: seq<seq<Cells>>)
    requires numRank > 0 && Storable(|file|) && Rows(file, numRank, rows)
    ensures Stands(kind, file, Flatten(rows))
    ensures LtnsApart(Flatten(rows)) && Increasing(Gtn(), Flatten(rows))
  {
    hide Start, Flatten, Rows, IsCached, Gtn, Keys, TraceOf;
    RowSizes(file, numRank, rows);
    var all := Flatten(rows);
    forall k | 0 <= k < |file|
      ensures TraceOf(all[k]).ltn == k && Keys(kind, TraceOf(all[k])) == Keys(kind, TraceOf(file[k].header))
    {
      var r := RowAt(file, numRank, rows, k);
      CachedStands(kind, file, Start(|file|, numRank, r), k, all[k]);
    }
    forall i, j | 0 <= i < j < |all| ensures Gtn()(all[i]) < Gtn()(all[j]) {
      NumbersGrow(kind, file, numRank, rows, i, j);
    }
  }

  lemma {:induction false} NumbersGrow(kind: SortType, file: seq<FileTrace>, numRank: nat, rows: seq<seq<Cells>>, i: nat, j: nat)
    requires numRank > 0 && Storable(|file|) && Rows(file, numRank, rows) && i < j < |file| == |Flatten(rows)|
    ensures Gtn()(Flatten(rows)[i]) < Gtn()(Flatten(rows)[j])
  {
    hide *;
    var r := RowAt(file, numRank, rows, i);
    var q := RowAt(file, numRank, rows, j);
    CachedStands(kind, file, Start(|file|, numRank, r), i, Flatten(rows)[i]);
    CachedStands(kind, file, Start(|file|, numRank, q), j, Flatten(rows)[j]);
    if q < r {
      StartMonotone(|file|, numRank, q + 1, r);
    } else {
      StartMonotone(|file|, numRank, r, q);
    }
  }

  // ------------------------------------------------------------ the output order

  /** Trace i has to come before trace j: by keys, or by place if they are equal. */
  ghost predicate Before(kind: SortType, file: seq<FileTrace>, i: nat, j: nat)
    requires i < |file| && j < |file|
  {
    var a, b := TraceOf(file[i].header), TraceOf(file[j].header);
    && |Keys(kind, a)| == |Keys(kind, b)|
    && (Lex(Keys(kind, a), Keys(kind, b)) || (Keys(kind, a) == Keys(kind, b) && i < j))
  }

  /** Output place p receives input trace from[p]: keys in order, and traces with
      equal keys in the order of the input. */
  ghost predicate StableOrder(kind: SortType, file: seq<FileTrace>, from: seq<nat>) {
    && Permutation(from, |file|)
    && forall p, q :: 0 <= p < q < |file| ==> Before(kind, file, from[p], from[q])
  }

  /** Place p belongs to the extent of rank r. */
  ghost predicate OfRank(nt: nat, numRank: nat, r: nat, p: nat)
    requires r < numRank
  {
    Start(nt, numRank, r) <= p < Start(nt, numRank, r + 1)
  }

  /** The traces of every rank are in order among themselves, and stay within the
      extent of the rank. */
  ghost predicate RankwiseOrder(kind: SortType, file: seq<FileTrace>, numRank: nat, from: seq<nat>) {
    && Permutation(from, |file|)
    && (forall r, p :: 0 <= r < numRank && 0 <= p < |file| && OfRank(|file|, numRank, r, p) ==> OfRank(|file|, numRank, r, from[p]))
    && forall r, p, q :: 0 <= r < numRank && 0 <= p < q < |file| && OfRank(|file|, numRank, r, p) && OfRank(|file|, numRank, r, q) ==>
         Before(kind, file, from[p], from[q])
  }

  /** The order `Set::sort` brings a file into. */
  ghost predicate OutputOrder(kind: SortType, file: seq<FileTrace>, numRank: nat, from: seq<nat>)
    requires numRank > 0
  {
    if numRank == 1 || Min(Shares(|file|, numRank)) >= 4 then StableOrder(kind, file, from)
    else RankwiseOrder(kind, file, numRank, from)
  }

  /** The local number of a row. */
  function PlaceOf(): Cells -> nat {
    (cells: Cells) => if TraceOf(cells).ltn < 0 then 0 else TraceOf(cells).ltn
  }

  /** Rearranged rows, read as a list of input traces. */
  lemma {:induction false} RowsAsTraces(kind: SortType, file: seq<FileTrace>, rows: seq<Cells>, sorted: seq<Cells>)
    requires Stands(kind, file, rows) && multiset(sorted) == multiset(rows)
    ensures |sorted| == |file| && Permutation(Map(PlaceOf(), sorted), |file|)
    ensures forall p :: 0 <= p < |file| ==>
              Map(PlaceOf(), sorted)[p] < |file| && sorted[p] == rows[Map(PlaceOf(), sorted)[p]]
  {
    hide TraceOf, Keys;
    assert |multiset(sorted)| == |sorted| && |multiset(rows)| == |rows|;
    MapPermutes(PlaceOf(), sorted, rows);
    assert Map(PlaceOf(), rows) == Iota(0, |file|);
    IotaPermutation(Map(PlaceOf(), sorted), |file|);
    forall p | 0 <= p < |file| ensures Map(PlaceOf(), sorted)[p] < |file| && sorted[p] == rows[Map(PlaceOf(), sorted)[p]] {
      SameItems(sorted, rows, sorted[p]);
      var k :| 0 <= k < |rows| && rows[k] == sorted[p];
    }
  }

  /** A row that is not larger stands for a trace that has to come before. */
  lemma {:induction false} OrderOfRows(kind: SortType, file: seq<FileTrace>, rows: seq<Cells>, i: nat, j: nat)
    requires Stands(kind, file, rows) && i < |file| && j < |file| && i != j && !RowComp(kind)(rows[j], rows[i])
    ensures Before(kind, file, i, j)
  {
    hide TraceOf, Keys, Less;
    var a, b := TraceOf(rows[i]), TraceOf(rows[j]);
    LessTrichotomy(kind, a, b);
    LessIsLex(kind, a, b);
  }

  lemma {:induction false} SortedIsStable(kind: SortType, file: seq<FileTrace>, rows: seq<Cells>, sorted: seq<Cells>)
    requires Stands(kind, file, rows) && multiset(sorted) == multiset(rows) && Sorted(RowComp(kind), sorted)
    ensures StableOrder(kind, file, Map(PlaceOf(), sorted))
  {
    hide TraceOf, Keys, RowComp, Stands, Before;
    RowsAsTraces(kind, file, rows, sorted);
    var from := Map(PlaceOf(), sorted);
    forall p, q | 0 <= p < q < |file| ensures Before(kind, file, from[p], from[q]) {
      assert from[p] != from[q];
      StandsLong(kind, file, rows);
      OrderOfRows(kind, file, rows, from[p], from[q]);
    }
  }

  lemma {:induction false} StandsLong(kind: SortType, file: seq<FileTrace>, rows: seq<Cells>)
    requires Stands(kind, file, rows)
    ensures |rows| == |file|
  {
  }

  /** A place of a rank among the rows sorted rank by rank. */
  lemma {:induction false} RankOwns(nt: nat, numRank: nat, sorted: seq<seq<Cells>>, r: nat, p: nat) returns (i: nat)
    requires r < numRank == |sorted| && Sizes(sorted) == Shares(nt, numRank) && OfRank(nt, numRank, r, p)
    ensures p < |Flatten(sorted)| == nt && i < |sorted[r]| && Flatten(sorted)[p] == sorted[r][i]
    ensures p == Start(nt, numRank, r) + i
  {
    hide Flatten, Offset, Shares;
    SplitFlatten(sorted);
    SharesSum(nt, numRank);
    SharesOffset(nt, numRank, r);
    TilesInOrder(nt, numRank, r);
    ShareIs(nt, numRank, r);
    assert |sorted[r]| == Sizes(sorted)[r];
    i := p - Start(nt, numRank, r);
    FlattenAt(sorted, r, i);
  }

  /** The same for the input rows: a member of a rank's block is one of its traces. */
  lemma {:induction false} BlockHas(kind: SortType, file: seq<FileTrace>, numRank: nat, rows: seq<seq<Cells>>, r: nat, x: Cells)
    requires numRank > 0 && Storable(|file|) && Rows(file, numRank, rows) && r < numRank && x in rows[r]
    ensures TraceOf(x).ltn >= 0 && OfRank(|file|, numRank, r, TraceOf(x).ltn)
  {
    hide IsCached, Shares, Keys, TraceOf;
    var i :| 0 <= i < |rows[r]| && rows[r][i] == x;
    assert RankRows(file, numRank, r, rows[r]) && CachedAt(file, numRank, r, i, rows[r][i]);
    TilesInOrder(|file|, numRank, r);
    ShareIs(|file|, numRank, r);
    CachedStands(kind, file, Start(|file|, numRank, r), Start(|file|, numRank, r) + i, x);
  }

  lemma {:induction false} EachIsRankwise(kind: SortType, file: seq<FileTrace>, numRank: nat, rows: seq<seq<Cells>>)
    requires numRank > 0 && Storable(|file|) && Rows(file, numRank, rows)
    ensures multiset(Flatten(SortEach(RowComp(kind), rows))) == multiset(Flatten(rows))
    ensures RankwiseOrder(kind, file, numRank, Map(PlaceOf(), Flatten(SortEach(RowComp(kind), rows))))
  {
    hide TraceOf, Keys, RowComp, Stands, Before, Rows, Sort, Flatten, StrictWeakOrder, OfRank, Shares;
    var sorted := SortEach(RowComp(kind), rows);
    RowCompIsOrder(kind);
    RowsReady(kind, file, numRank, rows);
    SortEachPermutes(RowComp(kind), rows);
    RowsAsTraces(kind, file, Flatten(rows), Flatten(sorted));
    RowSizes(file, numRank, rows);
    assert Sizes(sorted) == Sizes(rows);
    var from := Map(PlaceOf(), Flatten(sorted));
    forall r, p | 0 <= r < numRank && 0 <= p < |file| && OfRank(|file|, numRank, r, p) ensures OfRank(|file|, numRank, r, from[p]) {
      PlaceStays(kind, file, numRank, rows, r, p);
    }
    forall r, p, q | 0 <= r < numRank && 0 <= p < q < |file| && OfRank(|file|, numRank, r, p) && OfRank(|file|, numRank, r, q)
      ensures Before(kind, file, from[p], from[q])
    {
      assert from[p] != from[q];
      RankSorted(kind, |file|, numRank, rows, r, p, q);
      OrderOfRows(kind, file, Flatten(rows), from[p], from[q]);
    }
  }

  lemma {:induction false} RowsPerRank(file: seq<FileTrace>, numRank: nat, rows: seq<seq<Cells>>)
    requires numRank > 0 && Storable(|file|) && Rows(file, numRank, rows)
    ensures |rows| == numRank
  {
  }

  lemma {:induction false} PlaceStays(kind: SortType, file: seq<FileTrace>, numRank: nat, rows: seq<seq<Cells>>, r: nat, p: nat)
    requires numRank > 0 && Storable(|file|) && Rows(file, numRank, rows) && r < numRank && OfRank(|file|, numRank, r, p)
    ensures p < |Flatten(SortEach(RowComp(kind), rows))|
    ensures OfRank(|file|, numRank, r, Map(PlaceOf(), Flatten(SortEach(RowComp(kind), rows)))[p])
  {
    hide TraceOf, RowComp, Rows, Sort, Flatten, StrictWeakOrder, OfRank, Shares;
    var sorted := SortEach(RowComp(kind), rows);
    RowCompIsOrder(kind);
    RowsPerRank(file, numRank, rows);
    RowSizes(file, numRank, rows);
    assert Sizes(sorted) == Sizes(rows);
    var i := RankOwns(|file|, numRank, sorted, r, p);
    SortSorts(RowComp(kind), rows[r]);
    SameItems(sorted[r], rows[r], sorted[r][i]);
    BlockHas(kind, file, numRank, rows, r, sorted[r][i]);
  }

  lemma {:induction false} RankSorted(kind: SortType, nt: nat, numRank: nat, rows: seq<seq<Cells>>, r: nat, p: nat, q: nat)
    requires r < numRank == |rows| && Sizes(rows) == Shares(nt, numRank) && p < q
    requires OfRank(nt, numRank, r, p) && OfRank(nt, numRank, r, q)
    ensures q < |Flatten(SortEach(RowComp(kind), rows))|
    ensures !RowComp(kind)(Flatten(SortEach(RowComp(kind), rows))[q], Flatten(SortEach(RowComp(kind), rows))[p])
  {
    hide RowComp, Sort, Flatten, StrictWeakOrder, OfRank, Shares;
    var sorted := SortEach(RowComp(kind), rows);
    RowCompIsOrder(kind);
    assert Sizes(sorted) == Sizes(rows);
    var i := RankOwns(nt, numRank, sorted, r, p);
    var j := RankOwns(nt, numRank, sorted, r, q);
    SortSorts(RowComp(kind), rows[r]);
  }

  // ------------------------------------------------------------ how good it is

  /** The layout of a rule the sort works with. */
  ghost predicate SortLayout(l: Layout) {
    l.Valid() && Comparable(l.table) && forall m :: m in l.table ==> l.table[m].kind != Copy
  }

  lemma {:induction false} RuleLayout(r: Rule)
    requires SortRule(r)
    ensures SortLayout(LayoutOf(r))
  {
    PlainLayout(r);
  }

  ghost function RowOf(l: Layout, file: seq<FileTrace>, start: nat, k: nat): Cells
    requires k < |file|
  {
    RowFor(l, file[k].header)[META_GTN := Whole(start + k)][META_LTN := Whole(k)]
  }

  lemma {:induction false} RowOfFits(l: Layout, file: seq<FileTrace>, start: nat, k: nat)
    requires SortLayout(l) && Storable(|file|) && start <= |file| && k < |file|
    ensures IsCached(file, start, k, RowOf(l, file, start, k)) && IsRow(l, RowOf(l, file, start, k))
  {
    assert Comparable(l.table);
    hide SortLayout, IsRow, RowFor, TraceOf, Comparable;
    RowReads(l, file[k].header);
    RowForFits(l, file[k].header, start + k, k);
    NumbersRead(RowFor(l, file[k].header), start + k, k);
  }

  lemma {:induction false} RowForFits(l: Layout, header: Cells, gtn: Size, ltn: Size)
    requires SortLayout(l)
    ensures IsRow(l, RowFor(l, header)[META_GTN := Whole(gtn)][META_LTN := Whole(ltn)])
  {
  }

  lemma {:induction false} NumbersRead(cells: Cells, gtn: Size, ltn: LLint)
    requires ltn >= 0
    ensures TraceOf(cells[META_GTN := Whole(gtn)][META_LTN := Whole(ltn)]) == TraceOf(cells).(ltn := ltn, gtn := gtn)
  {
  }

  /** The rows of any file, as values. */
  ghost function RowsFor(l: Layout, file: seq<FileTrace>, numRank: nat, r: nat): (part: seq<Cells>)
    requires r < numRank
    ensures |part| == Shares(|file|, numRank)[r]
    ensures forall i :: 0 <= i < |part| ==>
              Start(|file|, numRank, r) + i < |file| && part[i] == RowOf(l, file, Start(|file|, numRank, r), Start(|file|, numRank, r) + i)
  {
    RankInFile(|file|, numRank, r);
    hide Start, Shares, RowOf;
    var start := Start(|file|, numRank, r);
    seq(Shares(|file|, numRank)[r], i requires 0 <= i < Shares(|file|, numRank)[r] => RowOf(l, file, start, start + i))
  }

  lemma {:induction false} RankInFile(nt: nat, numRank: nat, r: nat)
    requires r < numRank
    ensures Start(nt, numRank, r) + Shares(nt, numRank)[r] <= nt
  {
    TilesInOrder(nt, numRank, r);
    StartBounds(nt, numRank, r + 1);
    ShareIs(nt, numRank, r);
  }

  lemma {:induction false} RowsForAt(l: Layout, file: seq<FileTrace>, numRank: nat, r: nat, i: nat)
    requires SortLayout(l) && r < numRank && Storable(|file|) && i < Shares(|file|, numRank)[r]
    ensures CachedAt(file, numRank, r, i, RowsFor(l, file, numRank, r)[i]) && IsRow(l, RowsFor(l, file, numRank, r)[i])
  {
    hide *;
    RankInFile(|file|, numRank, r);
    var start := Start(|file|, numRank, r);
    RowOfFits(l, file, start, start + i);
    CachedThere(file, numRank, r, i, RowsFor(l, file, numRank, r)[i]);
  }

  lemma {:induction false} RowsForRank(l: Layout, file: seq<FileTrace>, numRank: nat, r: nat)
    requires SortLayout(l) && r < numRank && Storable(|file|)
    ensures RankRows(file, numRank, r, RowsFor(l, file, numRank, r)) && AreRows(l, RowsFor(l, file, numRank, r))
  {
    hide RowsFor, CachedAt, Shares, IsRow, SortLayout;
    var part := RowsFor(l, file, numRank, r);
    forall i | 0 <= i < |part| ensures CachedAt(file, numRank, r, i, part[i]) && IsRow(l, part[i]) {
      RowsForAt(l, file, numRank, r, i);
    }
  }

  /** A run of the sort on a file that has come to its end: the ranks start with the rows
      of their traces, and the messages travel as they like. */
  ghost predicate SortRun(l: Layout, kind: SortType, file: seq<FileTrace>, numRank: nat, rows: seq<seq<Cells>>, acts: seq<P.Action>) {
    && SortLayout(l) && numRank > 0 && Storable(|file|) && Rows(file, numRank, rows)
    && (forall r :: 0 <= r < numRank ==> AreRows(l, rows[r]))
    && R.Ends(l, kind, rows, acts)
  }

  /** The trace that each place of the output receives after a run. */
  ghost function RunOrder(l: Layout, kind: SortType, rows: seq<seq<Cells>>, acts: seq<P.Action>): seq<nat>
    requires |rows| >= 1 && R.Ends(l, kind, rows, acts)
  {
    Map(PlaceOf(), Flatten(R.Outcome(l, kind, rows, acts)))
  }

  lemma {:induction false} RunJob(l: Layout, kind: SortType, file: seq<FileTrace>, numRank: nat, rows: seq<seq<Cells>>)
    requires SortLayout(l) && numRank > 0 && Storable(|file|) && Rows(file, numRank, rows)
    requires forall r :: 0 <= r < numRank ==> AreRows(l, rows[r])
    ensures |rows| == numRank && R.RowJob(l, rows)
  {
    hide Rows, AreRows, LtnsApart, Comparable, Gtn, Stands, Flatten;
    RowsPerRank(file, numRank, rows);
    RowsReady(kind, file, numRank, rows);
    NumbersApart(Flatten(rows));
  }

  lemma {:induction false} NumbersApart(rows: seq<Cells>)
    requires Increasing(Gtn(), rows)
    ensures Numbered(Gtn(), rows)
  {
    hide Gtn;
    forall x, y | x in rows && y in rows && Gtn()(x) == Gtn()(y) ensures x == y {
      var i :| 0 <= i < |rows| && rows[i] == x;
      var j :| 0 <= j < |rows| && rows[j] == y;
    }
  }

  /** Every run leaves the file in the order given above. */
  lemma {:induction false} EveryRunOrders(l: Layout, kind: SortType, file: seq<FileTrace>, numRank: nat, rows: seq<seq<Cells>>,
                                          acts: seq<P.Action>)
    requires SortRun(l, kind, file, numRank, rows, acts)
    ensures |rows| == numRank > 0 && R.Ends(l, kind, rows, acts)
    ensures OutputOrder(kind, file, numRank, RunOrder(l, kind, rows, acts))
  {
    hide *;
    RunMeans(l, kind, file, numRank, rows, acts);
    RunJob(l, kind, file, numRank, rows);
    R.EveryRowRunSorts(l, kind, rows, acts);
    var after := R.Outcome(l, kind, rows, acts);
    RowCompIsOrder(kind);
    SortedOverPermutes(RowComp(kind), RegionSize(Sizes(rows)), rows, after);
    SortedOrder(kind, file, numRank, rows, after);
    RunOrderIs(l, kind, rows, acts);
  }

  lemma {:induction false} RunMeans(l: Layout, kind: SortType, file: seq<FileTrace>, numRank: nat, rows: seq<seq<Cells>>, acts: seq<P.Action>)
    requires SortRun(l, kind, file, numRank, rows, acts)
    ensures SortLayout(l) && numRank > 0 && Storable(|file|) && Rows(file, numRank, rows) && |rows| == numRank
    ensures forall r :: 0 <= r < numRank ==> AreRows(l, rows[r])
    ensures R.Ends(l, kind, rows, acts)
  {
    hide AreRows, SortLayout, Storable, RankRows;
  }

  lemma {:induction false} RunOrderIs(l: Layout, kind: SortType, rows: seq<seq<Cells>>, acts: seq<P.Action>)
    requires |rows| >= 1 && R.Ends(l, kind, rows, acts)
    ensures RunOrder(l, kind, rows, acts) == Map(PlaceOf(), Flatten(R.Outcome(l, kind, rows, acts)))
  {
  }

  lemma {:induction false} SortedOverPermutes(less: (Cells, Cells) -> bool, R: nat, before: seq<seq<Cells>>, after: seq<seq<Cells>>)
    requires SortedOver(less, R, before, after) && StrictWeakOrder(less) && before != []
    ensures multiset(Flatten(after)) == multiset(Flatten(before))
  {
    hide Flatten, StrictWeakOrder, Sort;
    SortSorts(less, Flatten(before));
    SortEachPermutes(less, before);
  }

  /** Every file can be sorted: there is a run that comes to its end. */
  lemma {:induction false} RunExists(l: Layout, kind: SortType, file: seq<FileTrace>, numRank: nat)
    returns (rows: seq<seq<Cells>>, acts: seq<P.Action>)
    requires SortLayout(l) && numRank > 0 && Storable(|file|)
    ensures SortRun(l, kind, file, numRank, rows, acts)
  {
    hide SortLayout, RankRows, RowsFor, AreRows, R.Ends, R.RowJob;
    rows := seq(numRank, r requires 0 <= r < numRank => RowsFor(l, file, numRank, r));
    forall r | 0 <= r < numRank ensures RankRows(file, numRank, r, rows[r]) && AreRows(l, rows[r]) {
      RowsForRank(l, file, numRank, r);
    }
    RunJob(l, kind, file, numRank, rows);
    acts := R.SomeRunEnds(l, kind, rows);
  }

  /** A header that is the smaller, whatever the sort type, the smaller v is. */
  function Header(v: nat): Cells {
    map[META_XSRC := Real(v as real), META_YSRC := Real(v as real), META_XRCV := Real(v as real), META_YRCV := Real(0.0),
        META_OFFSET := Whole(v), META_IL := Whole(v), META_XL := Whole(0)]
  }

  lemma {:induction false} HeaderReads(v: nat)
    requires v < 0x8000_0000_0000_0000
    ensures TraceOf(Header(v)) == Trace(v as real, v as real, v as real, 0.0, v, v, 0, 0, 0)
  {
  }

  lemma {:induction false} FarFromOrigin(v: real, w: real)
    requires 0.0 < v < w
    ensures Off(v, v, v, 0.0) < Off(w, w, w, 0.0)
  {
    Square(v);
    Square(w);
    hide Off;
    assert w * w - v * v == (w - v) * (w + v);
    assert (w - v) * (w + v) > 0.0;
  }

  lemma {:induction false} Square(v: real)
    ensures Off(v, v, v, 0.0) == v * v
  {
  }

  lemma {:induction false} SmallerHeader(kind: SortType, v: nat, w: nat)
    requires 0 < v < w < 0x8000_0000_0000_0000
    ensures |Keys(kind, TraceOf(Header(v)))| == |Keys(kind, TraceOf(Header(w)))|
    ensures Lex(Keys(kind, TraceOf(Header(v))), Keys(kind, TraceOf(Header(w))))
  {
    HeaderReads(v);
    HeaderReads(w);
    FarFromOrigin(v as real, w as real);
    hide TraceOf, Header, Off;
  }

  /** The traces in descending order, for every sort type. */
  function Descending(nt: nat): (file: seq<FileTrace>)
    ensures |file| == nt && forall k :: 0 <= k < nt ==> file[k].header == Header(nt - k)
  {
    seq(nt, k requires 0 <= k < nt => FileTrace(Header(nt - k), []))
  }

  lemma {:induction false} LaterIsSmaller(kind: SortType, nt: nat, i: nat, j: nat)
    requires Storable(nt) && i < j < nt
    ensures !Before(kind, Descending(nt), i, j)
  {
    var file := Descending(nt);
    assert file[i].header == Header(nt - i) && file[j].header == Header(nt - j) && nt < 0x8000_0000_0000_0000;
    hide *;
    SmallerHeader(kind, nt - j, nt - i);
    NotBefore(kind, file, i, j);
  }

  lemma {:induction false} NotBefore(kind: SortType, file: seq<FileTrace>, i: nat, j: nat)
    requires i < |file| && j < |file|
    requires var a, b := Keys(kind, TraceOf(file[i].header)), Keys(kind, TraceOf(file[j].header)); |a| == |b| && Lex(b, a)
    ensures !Before(kind, file, i, j)
  {
    hide Keys, TraceOf, Lex;
    LexAsymmetric(Keys(kind, TraceOf(file[j].header)), Keys(kind, TraceOf(file[i].header)));
  }

  lemma {:induction false} LexAsymmetric(a: seq<real>, b: seq<real>)
    requires |a| == |b| && Lex(a, b)
    ensures !Lex(b, a) && a != b
  {
    if a[0] == b[0] {
      LexAsymmetric(a[1..], b[1..]);
    }
  }

  /** With three traces on a rank among several, descending traces stay where they
      are. */
  lemma {:induction false} ThreeIsTooFew(kind: SortType, nt: nat, numRank: nat, from: seq<nat>)
    requires numRank > 1 && Storable(nt) && Min(Shares(nt, numRank)) > 0 && RankwiseOrder(kind, Descending(nt), numRank, from)
    ensures !StableOrder(kind, Descending(nt), from)
  {
    hide Descending, Before, Shares, Start, Min;
    var file, p := Descending(nt), Start(nt, numRank, 1);
    FirstRanks(nt, numRank);
    assert OfRank(nt, numRank, 0, from[0]) && OfRank(nt, numRank, 1, from[p]);
    LaterIsSmaller(kind, nt, from[0], from[p]);
  }

  lemma {:induction false} FirstRanks(nt: nat, numRank: nat)
    requires numRank > 1 && Min(Shares(nt, numRank)) > 0
    ensures 0 < Start(nt, numRank, 1) < nt
    ensures OfRank(nt, numRank, 0, 0) && OfRank(nt, numRank, 1, Start(nt, numRank, 1))
  {
    TilesInOrder(nt, numRank, 0);
    TilesInOrder(nt, numRank, 1);
    StartBounds(nt, numRank, 2);
    ShareIs(nt, numRank, 0);
    ShareIs(nt, numRank, 1);
    hide Start, Shares;
    assert Shares(nt, numRank)[0] > 0 && Shares(nt, numRank)[1] > 0;
  }

  /** Every run on every file of nt traces brings it into the order of the sort type. */
  ghost predicate SortsEveryFile(l: Layout, kind: SortType, nt: nat, numRank: nat) {
    forall file: seq<FileTrace>, rows: seq<seq<Cells>>, acts: seq<P.Action> ::
      |file| == nt && SortRun(l, kind, file, numRank, rows, acts) ==> StableOrder(kind, file, RunOrder(l, kind, rows, acts))
  }

  /** `Set::sort` turns away ranks with fewer than three traces. That guard lets three
      through, which is one too few: of the numbers of traces and ranks it lets
      through, all runs on all files sort exactly if there is one rank or every rank
      has four traces. */
  lemma {:induction false} OrderExactness(l: Layout, kind: SortType, nt: nat, numRank: nat)
    requires SortLayout(l) && numRank > 0 && Storable(nt) && Min(Shares(nt, numRank)) >= 3
    ensures SortsEveryFile(l, kind, nt, numRank) <==> numRank == 1 || Min(Shares(nt, numRank)) >= 4
  {
    hide StableOrder, RankwiseOrder, Min, Shares, SortLayout, SortRun, RunOrder;
    if numRank == 1 || Min(Shares(nt, numRank)) >= 4 {
      forall file: seq<FileTrace>, rows: seq<seq<Cells>>, acts: seq<P.Action> |
        |file| == nt && SortRun(l, kind, file, numRank, rows, acts)
        ensures |rows| >= 1 && R.Ends(l, kind, rows, acts) && StableOrder(kind, file, RunOrder(l, kind, rows, acts))
      {
        EveryRunOrders(l, kind, file, numRank, rows, acts);
      }
    } else {
      var file := Descending(nt);
      var rows, acts := RunExists(l, kind, file, numRank);
      EveryRunOrders(l, kind, file, numRank, rows, acts);
      ThreeIsTooFew(kind, nt, numRank, RunOrder(l, kind, rows, acts));
      assert SortRun(l, kind, file, numRank, rows, acts);
    }
  }

  // ------------------------------------------------------------ end to end

  /** The operation of `Set::sort`: with fewer than three traces on some rank it logs an
      error and returns nothing, on every rank. */
  method Operation(kind: SortType, r: Rule, prm: seq<Param>, ghost file: seq<FileTrace>, ghost numRank: nat, ghost rows: seq<seq<Cells>>)
    returns (trlist: seq<seq<nat>>, ghost from: seq<nat>)
    requires SortRule(r) && numRank > 0 && |prm| == numRank && Storable(|file|) && Hold(r, prm, rows) && Rows(file, numRank, rows)
    modifies prm
    ensures |trlist| == numRank
    ensures Min(Shares(|file|, numRank)) < 3 ==> forall q :: 0 <= q < numRank ==> trlist[q] == []
    ensures Min(Shares(|file|, numRank)) >= 3 ==>
              && Sizes(trlist) == Shares(|file|, numRank)
              && OutputOrder(kind, file, numRank, from) && Inverts(from, Flatten(trlist), |file|)
              && SortLayout(LayoutOf(r)) && IsRunOrder(LayoutOf(r), kind, file, numRank, rows, from)
  {
    hide *;
    RowSizes(file, numRank, rows);
    HoldSizes(r, prm, rows);
    from := [];
    if Min(seq(|prm|, q requires 0 <= q < |prm| => prm[q].sz)) < 3 {
      trlist := seq(|prm|, _ => []);
    } else {
      RuleMeans(r);
      RuleGtn(r);
      RowsReady(kind, file, numRank, rows);
      RowCompIsOrder(kind);
      RowCompTotal(kind, Flatten(rows));
      HeldRows(r, prm, rows);
      ghost var after, l := [], LayoutOf(r);
      trlist, after := SortTraces(RowComp(kind), r, prm, true, rows);
      from := Map(PlaceOf(), Flatten(after));
      RowsPerRank(file, numRank, rows);
      SortedOrder(kind, file, numRank, rows, after);
      PlacesInvert(kind, file, rows, after, trlist);
      AnySchedule(l, kind, file, numRank, rows, after);
      ListSizes(trlist);
    }
  }

  lemma {:induction false} ListSizes<T>(blocks: seq<seq<T>>)
    ensures |blocks| == |Sizes(blocks)|
  {
  }

  /** The rows the ranks hold are rows of the rule. */
  lemma {:induction false} HeldRows(r: Rule, prm: seq<Param>, rows: seq<seq<Cells>>)
    requires SortRule(r) && Hold(r, prm, rows)
    ensures SortLayout(LayoutOf(r)) && |rows| == |prm|
    ensures forall q :: 0 <= q < |rows| ==> AreRows(LayoutOf(r), rows[q])
  {
    RuleLayout(r);
    hide SortLayout, AreRows, AllRows, Comparable;
    forall q | 0 <= q < |rows| ensures AreRows(LayoutOf(r), rows[q]) {
      assert prm[q].r == r && prm[q].Valid() && rows[q] == AllRows(prm[q]);
      ParamRows(prm[q]);
    }
  }

  /** The order that every run from these rows, whatever its schedule, leaves. */
  ghost predicate IsRunOrder(l: Layout, kind: SortType, file: seq<FileTrace>, numRank: nat, rows: seq<seq<Cells>>, from: seq<nat>) {
    && (exists acts: seq<P.Action> :: SortRun(l, kind, file, numRank, rows, acts))
    && forall acts: seq<P.Action> :: SortRun(l, kind, file, numRank, rows, acts) ==> RunOrder(l, kind, rows, acts) == from
  }

  lemma {:induction false} AnySchedule(l: Layout, kind: SortType, file: seq<FileTrace>, numRank: nat, rows: seq<seq<Cells>>,
                                       after: seq<seq<Cells>>)
    requires SortLayout(l) && numRank > 0 && Storable(|file|) && Rows(file, numRank, rows)
    requires forall r :: 0 <= r < numRank ==> AreRows(l, rows[r])
    requires rows != [] && SortedOver(RowComp(kind), RegionSize(Sizes(rows)), rows, after)
    ensures IsRunOrder(l, kind, file, numRank, rows, Map(PlaceOf(), Flatten(after)))
  {
    hide SortLayout, Rows, AreRows, SortedOver, RegionSize, R.Outcome, RowComp, R.Ends, R.RowJob, Flatten, PlaceOf;
    RunJob(l, kind, file, numRank, rows);
    var some := R.SomeRunEnds(l, kind, rows);
    assert SortRun(l, kind, file, numRank, rows, some);
    forall acts: seq<P.Action> | SortRun(l, kind, file, numRank, rows, acts)
      ensures RunOrder(l, kind, rows, acts) == Map(PlaceOf(), Flatten(after))
    {
      R.OutcomesAgree(l, kind, rows, acts, after);
    }
  }

  lemma {:induction false} RuleGtn(r: Rule)
    requires SortRule(r)
    ensures GtnColumn(r)
  {
  }

  lemma {:induction false} HoldSizes(r: Rule, prm: seq<Param>, rows: seq<seq<Cells>>)
    requires Hold(r, prm, rows)
    ensures |prm| == |rows| && seq(|prm|, q requires 0 <= q < |prm| => prm[q].sz) == Sizes(rows)
  {
  }

  lemma {:induction false} SortedOrder(kind: SortType, file: seq<FileTrace>, numRank: nat, rows: seq<seq<Cells>>, after: seq<seq<Cells>>)
    requires numRank > 0 && Storable(|file|) && Rows(file, numRank, rows) && rows != []
    requires SortedOver(RowComp(kind), RegionSize(Sizes(rows)), rows, after)
    ensures multiset(Flatten(after)) == multiset(Flatten(rows))
    ensures OutputOrder(kind, file, numRank, Map(PlaceOf(), Flatten(after)))
  {
    hide Flatten, Rows, Sort, StableOrder, RankwiseOrder, StrictWeakOrder, RowComp, Shares, Min, Sorted;
    RowSizes(file, numRank, rows);
    RowsPerRank(file, numRank, rows);
    RowsReady(kind, file, numRank, rows);
    RowCompIsOrder(kind);
    if numRank == 1 || Min(Shares(|file|, numRank)) >= 4 {
      SortSorts(RowComp(kind), Flatten(rows));
      SortedIsStable(kind, file, Flatten(rows), Flatten(after));
    } else {
      EachIsRankwise(kind, file, numRank, rows);
    }
  }

  /** `list` gives every trace k the place p with from[p] == k, and every place once. */
  ghost predicate Inverts(from: seq<nat>, list: seq<nat>, n: nat) {
    |from| == |list| == n && Permutation(list, n) && forall k :: 0 <= k < n ==> list[k] < n && from[list[k]] == k
  }

  /** The list tells every trace the place that the sorted rows say it has. */
  lemma {:induction false} PlacesInvert(kind: SortType, file: seq<FileTrace>, rows: seq<seq<Cells>>, after: seq<seq<Cells>>, list: seq<seq<nat>>)
    requires Stands(kind, file, Flatten(rows)) && multiset(Flatten(after)) == multiset(Flatten(rows))
    requires Places(Flatten(rows), Flatten(after), Flatten(list))
    ensures Inverts(Map(PlaceOf(), Flatten(after)), Flatten(list), |file|)
  {
    hide Flatten, TraceOf, Keys;
    RowsAsTraces(kind, file, Flatten(rows), Flatten(after));
    var from, places := Map(PlaceOf(), Flatten(after)), Flatten(list);
    forall k | 0 <= k < |file| ensures places[k] < |file| && from[places[k]] == k {
      assert TraceOf(Flatten(after)[places[k]]).ltn == TraceOf(Flatten(rows)[k]).ltn == k;
    }
  }

  /** What `calcFuncS` does with the lists the operation returns: each rank copies as
      many numbers as it has traces, whether the list holds them or not. */
  method CopyLists(trlist: seq<seq<nat>>, ilst: seq<seq<nat>>) returns (inRange: bool, olst: seq<seq<nat>>)
    requires |trlist| == |ilst|
    ensures inRange <==> forall q :: 0 <= q < |ilst| ==> |ilst[q]| <= |trlist[q]|
    ensures inRange ==> |olst| == |ilst| && forall q :: 0 <= q < |ilst| ==> olst[q] == trlist[q][..|ilst[q]|]
  {
    inRange, olst := true, [];
    for q := 0 to |ilst|
      invariant inRange <==> forall i :: 0 <= i < q ==> |ilst[i]| <= |trlist[i]|
      invariant inRange ==> |olst| == q && forall i :: 0 <= i < q ==> olst[i] == trlist[i][..|ilst[i]|]
    {
      if |ilst[q]| > |trlist[q]| {
        inRange := false;
      } else if inRange {
        olst := olst + [trlist[q][..|ilst[q]|]];
      }
    }
  }

  /** When the lists hold what is copied from them. */
  lemma {:induction false} CopyFits(nt: nat, numRank: nat, ilst: seq<seq<nat>>, trlist: seq<seq<nat>>)
    requires numRank > 0 && Lists(nt, numRank, ilst) && |trlist| == numRank
    requires Min(Shares(nt, numRank)) < 3 ==> forall q :: 0 <= q < numRank ==> trlist[q] == []
    requires Min(Shares(nt, numRank)) >= 3 ==> Sizes(trlist) == Shares(nt, numRank)
    ensures (forall q :: 0 <= q < numRank ==> |ilst[q]| <= |trlist[q]|) <==> Min(Shares(nt, numRank)) >= 3 || nt == 0
  {
    hide Shares, Min, Sum;
    var shares := Shares(nt, numRank);
    forall q | 0 <= q < numRank ensures |ilst[q]| == shares[q] && (nt == 0 ==> shares[q] == 0) {
      assert Sizes(ilst)[q] == |ilst[q]|;
      TilesInOrder(nt, numRank, q);
      StartBounds(nt, numRank, q + 1);
      ShareIs(nt, numRank, q);
    }
    if Min(shares) >= 3 {
      forall q | 0 <= q < numRank ensures |trlist[q]| == shares[q] {
        assert Sizes(trlist)[q] == |trlist[q]|;
      }
    } else if forall q :: 0 <= q < numRank ==> |ilst[q]| <= |trlist[q]| {
      assert forall q :: 0 <= q < numRank ==> shares[q] == 0;
      SumBounds(shares, 0, 0);
      SharesSum(nt, numRank);
    }
  }

  lemma {:induction false} CopyWhole(nt: nat, numRank: nat, ilst: seq<seq<nat>>, trlist: seq<seq<nat>>, olst: seq<seq<nat>>)
    requires numRank > 0 && Lists(nt, numRank, ilst) && Sizes(trlist) == Shares(nt, numRank)
    requires |olst| == |ilst| == |trlist| && forall q :: 0 <= q < |ilst| ==> |ilst[q]| <= |trlist[q]| && olst[q] == trlist[q][..|ilst[q]|]
    ensures olst == trlist && Sizes(olst) == Sizes(ilst)
  {
    hide Shares;
    forall q | 0 <= q < |olst| ensures olst[q] == trlist[q] {
      assert Sizes(ilst)[q] == Sizes(trlist)[q];
    }
  }

  lemma {:induction false} NothingToSort(kind: SortType, file: seq<FileTrace>, numRank: nat, ilst: seq<seq<nat>>, olst: seq<seq<nat>>)
    requires numRank > 0 && |file| == 0 && Lists(|file|, numRank, ilst)
    requires |olst| == |ilst| && forall q :: 0 <= q < |ilst| ==> |olst[q]| == |ilst[q]|
    ensures Sizes(olst) == Sizes(ilst) && Inverts([], Flatten(olst), |file|) && Permutation([], |file|)
    ensures OutputOrder(kind, file, numRank, [])
  {
    hide Shares, Flatten, Sum;
    SharesSum(|file|, numRank);
    assert Sizes(olst) == Sizes(ilst);
    SplitFlatten(olst);
  }

  lemma {:induction false} OrderPermutes(kind: SortType, file: seq<FileTrace>, numRank: nat, from: seq<nat>)
    requires numRank > 0 && OutputOrder(kind, file, numRank, from)
    ensures Permutation(from, |file|)
  {
    hide Permutation;
  }

  lemma {:induction false} InvertsOnce(from: seq<nat>, list: seq<nat>, n: nat)
    requires Inverts(from, list, n)
    ensures Permutation(list, n) && |from| == |list| == n
  {
  }

  /** `Set::sort` and `Set::output` on one file. With fewer than three traces on some
      rank, the lists that every rank copies its places from are empty: unless there
      are no traces at all, the copy leaves the list, and nothing is said about what
      follows. Otherwise every place of the output is written once, in the order
      above, and every rank takes part in the same collective operations. */
  method SortFile(kind: SortType, file: seq<FileTrace>, numRank: nat, max: nat, io: Io, out: array<FileTrace>)
    returns (inRange: bool, logs: seq<seq<Op>>, ghost from: seq<nat>, ghost l: Layout, ghost rows: seq<seq<Cells>>)
    requires numRank > 0 && max > 0 && io.Sufficient() && Storable(|file|) && out.Length == |file|
    modifies out
    ensures inRange <==> Min(Shares(|file|, numRank)) >= 3 || |file| == 0
    ensures inRange ==> OutputOrder(kind, file, numRank, from) && Permutation(from, |file|)
    ensures inRange ==> forall p :: 0 <= p < |file| ==> out[p] == ReadBack(file, from[p])
    ensures inRange ==> forall p :: 0 <= p < |file| ==> from[p] < |file| && out[p].samples == file[from[p]].samples
    ensures inRange ==> forall p :: 0 <= p < |file| ==> 1 in out[p].header && out[p].header[1] == Whole(from[p])
    ensures inRange ==> forall p, m :: 0 <= p < |file| && m != 1 ==>
              && (m in out[p].header <==> m in file[from[p]].header)
              && (m in out[p].header ==> out[p].header[m] == file[from[p]].header[m])
    ensures inRange ==> forall p, q :: 0 <= p < q < |file| && Together(|file|, numRank, p, q)
                                       && Integral(out[p].header) && Integral(out[q].header) ==>
              && InOrder(OrderFields(kind, out[p].header), OrderFields(kind, out[q].header))
              && (OrderFields(kind, out[p].header) == OrderFields(kind, out[q].header) ==> from[p] < from[q])
    ensures inRange && |file| > 0 ==> IsRunOrder(l, kind, file, numRank, rows, from)
    ensures inRange ==> |logs| == numRank && forall q :: 0 <= q < numRank ==> logs[q] == SingleLog(io, Shares(|file|, numRank), max)
  {
    hide *;
    logs := [];
    var ilst := AddFile(|file|, numRank);
    ShareSizes(|file|, numRank, ilst);
    var r := MakeRule();
    var prm;
    prm, rows := CacheParameters(r, file, numRank, ilst);
    l := LayoutOf(r);
    var trlist, olst;
    trlist, from := Operation(kind, r, prm, file, numRank, rows);
    inRange, olst := CopyLists(trlist, ilst);
    CopyFits(|file|, numRank, ilst, trlist);
    if !inRange {
      return;
    }
    if Min(Shares(|file|, numRank)) >= 3 {
      CopyWhole(|file|, numRank, ilst, trlist, olst);
      OrderPermutes(kind, file, numRank, from);
    } else {
      from := [];
      NothingToSort(kind, file, numRank, ilst, olst);
    }
    InvertsOnce(from, Flatten(olst), |file|);
    logs := WriteAll(file, numRank, ilst, olst, max, io, out);
    ReadBackThrough(file, from, Flatten(olst), out[..]);
    HeadersAgree(file, from, out[..]);
    forall p, q | 0 <= p < q < |file| && Together(|file|, numRank, p, q) && Integral(out[p].header) && Integral(out[q].header)
      ensures InOrder(OrderFields(kind, out[p].header), OrderFields(kind, out[q].header))
      ensures OrderFields(kind, out[p].header) == OrderFields(kind, out[q].header) ==> from[p] < from[q]
    {
      OrderTogether(kind, file, numRank, from, p, q);
      HeadersInOrder(kind, file, from[p], from[q], out[p].header, out[q].header);
    }
  }

  /** Places that are in order with each other: all of them, if there is one rank or every
      rank has four traces, and otherwise those in the extent of one rank. */
  ghost predicate Together(nt: nat, numRank: nat, p: nat, q: nat)
    requires numRank > 0
  {
    || numRank == 1 || Min(Shares(nt, numRank)) >= 4
    || exists r :: 0 <= r < numRank && Start(nt, numRank, r) <= p && q < Start(nt, numRank, r + 1)
  }

  lemma {:induction false} OrderTogether(kind: SortType, file: seq<FileTrace>, numRank: nat, from: seq<nat>, p: nat, q: nat)
    requires numRank > 0 && OutputOrder(kind, file, numRank, from) && p < q < |file| && Together(|file|, numRank, p, q)
    ensures |from| == |file| && from[p] < |file| && from[q] < |file| && Before(kind, file, from[p], from[q])
  {
    OrderPermutes(kind, file, numRank, from);
    assert from[p] < |file| && from[q] < |file|;
    hide Before, Shares, Min, Permutation, Start;
    if numRank > 1 && Min(Shares(|file|, numRank)) < 4 {
      var r :| 0 <= r < numRank && Start(|file|, numRank, r) <= p && q < Start(|file|, numRank, r + 1);
      assert OfRank(|file|, numRank, r, p) && OfRank(|file|, numRank, r, q);
    }
  }

  /** Headers of traces in the order of their keys, in terms of the fields themselves. */
  lemma {:induction false} HeadersInOrder(kind: SortType, file: seq<FileTrace>, i: nat, j: nat, a: Cells, b: Cells)
    requires i < |file| && j < |file| && Before(kind, file, i, j)
    requires Agree(file[i].header, a) && Agree(file[j].header, b) && Integral(a) && Integral(b)
    ensures InOrder(OrderFields(kind, a), OrderFields(kind, b)) && (OrderFields(kind, a) == OrderFields(kind, b) ==> i < j)
  {
    SameFields(kind, file[i].header, a);
    SameFields(kind, file[j].header, b);
    KeysAreFields(kind, file[i].header);
    KeysAreFields(kind, file[j].header);
    var x, y := OrderFields(kind, a), OrderFields(kind, b);
    assert |x| == |y| && (Lex(x, y) || (x == y && i < j));
    hide OrderFields, Keys, TraceOf, Integral, Squared, Unsigned, Agree, Lex, InOrder;
    LexInOrder(x, y);
    if x == y && Lex(x, y) {
      LexAsymmetric(x, y);
    }
  }

  lemma {:induction false} HeadersAgree(file: seq<FileTrace>, from: seq<nat>, out: seq<FileTrace>)
    requires |from| == |out| == |file| && forall p :: 0 <= p < |file| ==> from[p] < |file| && out[p] == ReadBack(file, from[p])
    ensures forall p :: 0 <= p < |file| ==> out[p].samples == file[from[p]].samples && Agree(file[from[p]].header, out[p].header)
    ensures forall p :: 0 <= p < |file| ==> 1 in out[p].header && out[p].header[1] == Whole(from[p])
    ensures forall p, m :: 0 <= p < |file| && m != 1 ==>
              && (m in out[p].header <==> m in file[from[p]].header)
              && (m in out[p].header ==> out[p].header[m] == file[from[p]].header[m])
  {
    forall p | 0 <= p < |file| ensures 1 in out[p].header && out[p].header[1] == Whole(from[p]) {
      assert META_LTN in out[p].header;
    }
  }

  /** Every place was written with the trace that belongs there. */
  lemma {:induction false} ReadBackThrough(file: seq<FileTrace>, from: seq<nat>, list: seq<nat>, out: seq<FileTrace>)
    requires |out| == |file| && Inverts(from, list, |file|)
    requires forall k :: 0 <= k < |file| ==> out[list[k]] == ReadBack(file, k)
    ensures forall p :: 0 <= p < |file| ==> from[p] < |file| && out[p] == ReadBack(file, from[p])
  {
    forall p | 0 <= p < |file| ensures from[p] < |file| && out[p] == ReadBack(file, from[p]) {
      var k := PermutationHits(list, |file|, p);
    }
  }
}
