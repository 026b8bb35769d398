/**
 The parameters a file is sorted with (`Set::sort` names the rule, `Cache::getCache`
 fills the rows): what the headers say, and the two trace numbers.
 */
module TraceCache {
  import opened Cache
  import opened Decomposition
  import opened ParamColumns
  import opened Params
  import opened ParamSort
  import opened RuleTable
  import opened SortIndex
  import opened TraceIO
  import opened TraceRows

  const META_TN: Meta := 5
  const META_WTR_DEP_RCV: Meta := 19
  const META_XCMP: Meta := 24
  const META_YCMP: Meta := 25

  const SORT_METAS: seq<Meta> :=
    [META_IL, META_XL, META_XSRC, META_YSRC, META_XRCV, META_YRCV, META_XCMP, META_YCMP, META_OFFSET, META_WTR_DEP_RCV, META_TN]

  /** A rule that has every parameter the comparisons read, with a type that holds it. */
  ghost predicate Comparable(table: Table) {
    && META_XSRC in table && table[META_XSRC].kind == Float && META_YSRC in table && table[META_YSRC].kind == Float
    && META_XRCV in table && table[META_XRCV].kind == Float && META_YRCV in table && table[META_YRCV].kind == Float
    && META_OFFSET in table && table[META_OFFSET].kind == Long
    && META_IL in table && table[META_IL].kind == Long && META_XL in table && table[META_XL].kind == Long
    && META_LTN in table && table[META_LTN].kind == Index && META_GTN in table && table[META_GTN].kind == Index
  }

  ghost predicate SortRule(r: Rule)
    reads r
  {
    Plain(r) && GtnColumn(r) && Comparable(r.translate)
  }

  lemma {:induction false} Listed(i: nat)
    requires i < |SORT_METAS| && Predefined(SORT_METAS[i]).Some?
    ensures SORT_METAS[i] in Known(SORT_METAS)
  {
    hide Predefined;
  }

  lemma {:induction false} Definitions(table: Table)
    requires forall m :: m in Known(SORT_METAS) ==> m in table && SameField(table[m], Predefined(m).value)
    requires META_LTN in table && table[META_LTN].kind == Index && META_GTN in table && table[META_GTN].kind == Index
    ensures Comparable(table)
  {
    hide Known;
    Listed(0);
    Listed(1);
    Listed(2);
    Listed(3);
    Listed(4);
    Listed(5);
    Listed(8);
  }

  lemma {:induction false} SortFields()
    ensures Known(SORT_METAS) == {5, 14, 19, 20, 21, 22, 23, 24, 25, 26, 27} && META_LTN == 1 && META_GTN == 2
  {
    hide Known;
    KnownAll(SORT_METAS, {5, 14, 19, 20, 21, 22, 23, 24, 25, 26, 27});
  }

  lemma {:induction false} NoCopyListed()
    ensures META_COPY !in Known(SORT_METAS)
  {
    hide Predefined;
  }

  /** The rule `Set::sort` makes. */
  method MakeRule() returns (r: Rule)
    ensures fresh(r) && SortRule(r)
    ensures r.translate.Keys == {1, 2, 5, 14, 19, 20, 21, 22, 23, 24, 25, 26, 27}
  {
    hide Known, Predefined, Comparable, Dense;
    r := new Rule(SORT_METAS, false, false);
    SortFields();
    NoCopyListed();
    r.NothingCopied();
    NumbersUnlisted();
    Definitions(r.translate);
  }

  lemma {:induction false} NumbersUnlisted()
    ensures META_GTN !in Known(SORT_METAS) && META_LTN !in Known(SORT_METAS)
  {
    hide Predefined;
  }

  // ----------------------------------------------------------------- one row

  /** What a header says in terms of a rule. */
  ghost function RowFor(l: Layout, header: Cells): (cells: Cells) {
    map m | m in l.table && l.table[m].kind != Copy :: Cast(l.table[m].kind, if m in header then header[m] else Whole(0))
  }

  lemma {:induction false} RowReads(l: Layout, header: Cells)
    requires Comparable(l.table)
    ensures TraceOf(RowFor(l, header)).(ltn := 0, gtn := 0) == TraceOf(header).(ltn := 0, gtn := 0)
  {
  }

  /** `extractParam` for one trace: every parameter of the rule, met in any order. */
  method StoreRow(prm: Param, i: nat, header: Cells)
    requires prm.Valid() && Plain(prm.r) && i < prm.sz
    modifies prm
    ensures prm.Valid() && AllRows(prm) == old(AllRows(prm))[i := RowFor(LayoutOf(prm.r), header)]
  {
    ghost var was := AllRows(prm);
    StoreCells(prm, i, header);
    StoredRows(prm, was, i, RowFor(LayoutOf(prm.r), header));
  }

  /** The rows are determined by the cells. */
  lemma {:induction false} StoredRows(prm: Param, was: seq<Cells>, i: nat, cells: Cells)
    requires prm.Valid() && i < prm.sz == |was|
    requires cells.Keys == CellsOf(prm, i).Keys && forall m :: m in cells ==> CellsOf(prm, i)[m] == cells[m]
    requires forall row :: 0 <= row < prm.sz && row != i ==> CellsOf(prm, row) == was[row]
    ensures AllRows(prm) == was[i := cells]
  {
    RowIs(prm, i, cells);
    hide CellsOf;
  }

  method StoreCells(prm: Param, i: nat, header: Cells)
    requires prm.Valid() && i < prm.sz
    modifies prm
    ensures prm.Valid()
    ensures forall m :: prm.Has(m) ==> prm.Cell(i, m) == Cast(prm.r.translate[m].kind, if m in header then header[m] else Whole(0))
    ensures forall row :: 0 <= row < prm.sz && row != i ==> CellsOf(prm, row) == old(AllRows(prm))[row]
  {
    var todo := prm.r.translate.Keys;
    while todo != {}
      invariant todo <= prm.r.translate.Keys && prm.Valid()
      invariant forall m :: prm.Has(m) && m !in todo ==>
        prm.Cell(i, m) == Cast(prm.r.translate[m].kind, if m in header then header[m] else Whole(0))
      invariant forall row: nat, m: Meta :: row < prm.sz && row != i && prm.Has(m) ==> prm.Cell(row, m) == old(prm.Cell(row, m))
    {
      var m :| m in todo;
      todo := todo - {m};
      prm.SetPrm(i, m, if m in header then header[m] else Whole(0));
    }
    forall row | 0 <= row < prm.sz && row != i ensures CellsOf(prm, row) == old(AllRows(prm))[row] {
      RowIs(prm, row, old(AllRows(prm))[row]);
    }
  }

  /** One number of one row. */
  method StoreNumber(prm: Param, i: nat, m: Meta, n: nat)
    requires prm.Valid() && i < prm.sz && prm.Has(m)
    modifies prm
    ensures prm.Valid()
    ensures AllRows(prm) == old(AllRows(prm))[i := old(AllRows(prm))[i][m := Cast(prm.r.translate[m].kind, Whole(n))]]
  {
    hide *;
    HasMeans(prm, m);
    ghost var was := AllRows(prm);
    StoreCell(prm, i, m, n);
    RowExtended(prm, i, was[i], m, Cast(prm.r.translate[m].kind, Whole(n)));
    StoredRows(prm, was, i, was[i][m := Cast(prm.r.translate[m].kind, Whole(n))]);
  }

  lemma {:induction false} HasMeans(prm: Param, m: Meta)
    requires prm.Has(m)
    ensures m in prm.r.translate && prm.r.translate[m].kind != Copy
  {
  }

  lemma {:induction false} RowExtended(prm: Param, i: nat, was: Cells, m: Meta, v: Value)
    requires prm.Valid() && i < prm.sz && was.Keys == CellsOf(prm, i).Keys && m in was
    requires forall m' :: m' in was ==> CellsOf(prm, i)[m'] == if m' == m then v else was[m']
    ensures was[m := v].Keys == CellsOf(prm, i).Keys
    ensures forall m' :: m' in was[m := v] ==> CellsOf(prm, i)[m'] == was[m := v][m']
  {
    hide CellsOf;
  }

  method StoreCell(prm: Param, i: nat, m: Meta, n: nat)
    requires prm.Valid() && i < prm.sz && prm.Has(m)
    modifies prm
    ensures prm.Valid()
    ensures m in old(AllRows(prm))[i] && old(AllRows(prm))[i].Keys == CellsOf(prm, i).Keys
    ensures forall m' :: m' in old(AllRows(prm))[i] ==>
              CellsOf(prm, i)[m'] == if m' == m then Cast(prm.r.translate[m].kind, Whole(n)) else old(AllRows(prm))[i][m']
    ensures forall row :: 0 <= row < prm.sz && row != i ==> CellsOf(prm, row) == old(AllRows(prm))[row]
  {
    prm.SetPrm(i, m, Whole(n));
    forall row | 0 <= row < prm.sz && row != i ensures CellsOf(prm, row) == old(AllRows(prm))[row] {
      RowIs(prm, row, old(AllRows(prm))[row]);
    }
  }

  // ----------------------------------------------------------------- getCache

  /** The file has a size in bytes: a file header, and a header for every trace. */
  predicate Storable(nt: nat) {
    3600 + 240 * nt < 0x1_0000_0000_0000_0000
  }

  /** The row of trace k, on the rank whose traces begin with number `start`. */
  ghost predicate IsCached(file: seq<FileTrace>, start: nat, k: nat, row: Cells)
    requires Storable(|file|) && start <= |file| && k < |file|
  {
    TraceOf(row) == TraceOf(file[k].header).(ltn := k, gtn := start + k)
  }

  lemma {:induction false} NumberedRow(l: Layout, file: seq<FileTrace>, start: nat, k: nat)
    requires Comparable(l.table) && Storable(|file|) && start <= |file| && k < |file|
    ensures IsCached(file, start, k,
                     RowFor(l, ReadBack(file, k).header)[META_GTN := Cast(Index, Whole(start + k))][META_LTN := Cast(Index, Whole(k))])
  {
    RowReads(l, ReadBack(file, k).header);
    hide RowFor, Comparable;
  }

  /** The i-th row of rank r. */
  ghost predicate CachedAt(file: seq<FileTrace>, numRank: nat, r: nat, i: nat, row: Cells)
    requires r < numRank && Storable(|file|)
  {
    var start := Start(|file|, numRank, r);
    start + i < |file| && IsCached(file, start, start + i, row)
  }

  /** One rank's parameters: headers as read, with both trace numbers. */
  ghost predicate RankRows(file: seq<FileTrace>, numRank: nat, r: nat, part: seq<Cells>)
    requires r < numRank && Storable(|file|)
  {
    && |part| == Shares(|file|, numRank)[r]
    && forall i :: 0 <= i < |part| ==> CachedAt(file, numRank, r, i, part[i])
  }

  lemma {:induction false} OnePieceNumbers(off: nat, p: Piece)
    ensures |Gtns(off, [p])| == |Ltns(1, 0, [p])| == p.count
    ensures forall i :: 0 <= i < p.count ==> Gtns(off, [p])[i] == off + p.start + i
    ensures forall i :: 0 <= i < p.count ==> Ltns(1, 0, [p])[i] == p.start + i
  {
    GtnsUnfold(off, [p]);
    LtnsUnfold(1, 0, [p]);
    EmptyNumbers(off + p.count, 1, 1);
  }

  /** `readParamNonContiguous`: the rows of the listed traces. */
  method ReadParams(r: Rule, file: seq<FileTrace>, list: seq<nat>) returns (prm: Param)
    requires Plain(r) && StrictlyIncreasing(list) && InRange(list, 0, |file|)
    ensures fresh(prm) && prm.Valid() && prm.r == r && prm.sz == |list|
    ensures forall i :: 0 <= i < |list| ==> AllRows(prm)[i] == RowFor(LayoutOf(r), ReadBack(file, list[i]).header)
  {
    var traces := ReadTraceNonContiguous(file, list);
    hide *;
    PlainMeans(r);
    prm := new Param(r, |list|);
    for i := 0 to |list|
      invariant prm.Valid()
      invariant forall k :: 0 <= k < i ==> AllRows(prm)[k] == RowFor(LayoutOf(r), ReadBack(file, list[k]).header)
    {
      StoreRow(prm, i, traces[i].header);
    }
  }

  /** Overwrites both numbers of every row. */
  method StoreNumbers(prm: Param, gtn: seq<nat>, ltn: seq<nat>)
    requires prm.Valid() && SortRule(prm.r) && |gtn| == |ltn| == prm.sz
    modifies prm
    ensures prm.Valid()
    ensures forall i :: 0 <= i < prm.sz ==>
              AllRows(prm)[i] == old(AllRows(prm))[i][META_GTN := Cast(Index, Whole(gtn[i]))][META_LTN := Cast(Index, Whole(ltn[i]))]
  {
    hide *;
    for i := 0 to prm.sz
      invariant prm.Valid()
      invariant forall k :: 0 <= k < prm.sz ==>
        AllRows(prm)[k] ==
        if k < i then old(AllRows(prm))[k][META_GTN := Cast(Index, Whole(gtn[k]))][META_LTN := Cast(Index, Whole(ltn[k]))]
        else old(AllRows(prm))[k]
    {
      NumbersHeld(prm);
      StoreNumber(prm, i, META_GTN, gtn[i]);
      NumbersHeld(prm);
      StoreNumber(prm, i, META_LTN, ltn[i]);
    }
  }

  lemma {:induction false} NumbersHeld(prm: Param)
    requires prm.Valid() && SortRule(prm.r)
    ensures prm.Has(META_GTN) && prm.Has(META_LTN)
    ensures prm.r.translate[META_GTN].kind == Index && prm.r.translate[META_LTN].kind == Index
  {
  }

  /** `getCache` for one file on rank q; `off` is the number of traces on the ranks
      before it. */
  method CacheRank(r: Rule, file: seq<FileTrace>, numRank: nat, q: nat, list: seq<nat>, off: nat) returns (prm: Param)
    requires SortRule(r) && Storable(|file|) && q < numRank && off == Start(|file|, numRank, q) <= |file|
    requires |list| == Shares(|file|, numRank)[q] && StrictlyIncreasing(list) && InRange(list, 0, |file|)
    requires forall i :: 0 <= i < |list| ==> list[i] == off + i
    ensures fresh(prm) && prm.Valid() && prm.r == r && RankRows(file, numRank, q, AllRows(prm))
  {
    hide *;
    RuleMeans(r);
    prm := ReadParams(r, file, list);
    ghost var read := AllRows(prm);
    OnePieceNumbers(off, Piece(off, |list|));
    var gtn, ltn := GetCache(off, [Piece(off, |list|)]);
    StoreNumbers(prm, gtn, ltn);
    RowsCached(r, file, numRank, q, list, gtn, ltn, read, AllRows(prm));
  }

  lemma {:induction false} RuleMeans(r: Rule)
    requires SortRule(r)
    ensures Plain(r) && r.Valid() && Comparable(LayoutOf(r).table)
  {
  }

  lemma {:induction false} RowsCached(r: Rule, file: seq<FileTrace>, numRank: nat, q: nat, list: seq<nat>, gtn: seq<nat>,
                                      ltn: seq<nat>, read: seq<Cells>, rows: seq<Cells>)
    requires SortRule(r) && Storable(|file|) && q < numRank && Start(|file|, numRank, q) <= |file|
    requires |list| == Shares(|file|, numRank)[q] == |gtn| == |ltn| == |read| == |rows| && InRange(list, 0, |file|)
    requires forall i :: 0 <= i < |list| ==> list[i] == Start(|file|, numRank, q) + i == ltn[i]
    requires forall i :: 0 <= i < |list| ==> gtn[i] == Start(|file|, numRank, q) + (Start(|file|, numRank, q) + i)
    requires forall i :: 0 <= i < |list| ==> read[i] == RowFor(LayoutOf(r), ReadBack(file, list[i]).header)
    requires forall i :: 0 <= i < |list| ==>
               rows[i] == read[i][META_GTN := Cast(Index, Whole(gtn[i]))][META_LTN := Cast(Index, Whole(ltn[i]))]
    ensures RankRows(file, numRank, q, rows)
  {
    hide Start, Shares, CachedAt, SortRule, RowFor, LayoutOf, Cast, ReadBack;
    RuleMeans(r);
    var off := Start(|file|, numRank, q);
    forall i | 0 <= i < |list| ensures CachedAt(file, numRank, q, i, rows[i]) {
      InRangeAt(list, 0, |file|, i);
      RowCached(LayoutOf(r), file, off, off + i, read[i], rows[i], gtn[i], ltn[i]);
      CachedThere(file, numRank, q, i, rows[i]);
    }
  }

  lemma {:induction false} CachedThere(file: seq<FileTrace>, numRank: nat, q: nat, i: nat, row: Cells)
    requires q < numRank && Storable(|file|) && Start(|file|, numRank, q) + i < |file|
    requires IsCached(file, Start(|file|, numRank, q), Start(|file|, numRank, q) + i, row)
    ensures CachedAt(file, numRank, q, i, row)
  {
  }

  lemma {:induction false} RowCached(l: Layout, file: seq<FileTrace>, start: nat, k: nat, read: Cells, row: Cells, gtn: nat, ltn: nat)
    requires Comparable(l.table) && Storable(|file|) && start <= |file| && k < |file| && gtn == start + k && ltn == k
    requires read == RowFor(l, ReadBack(file, k).header)
    requires row == read[META_GTN := Cast(Index, Whole(gtn))][META_LTN := Cast(Index, Whole(ltn))]
    ensures IsCached(file, start, k, row)
  {
    hide *;
    NumberedRow(l, file, start, k);
  }

  lemma {:induction false} InRangeAt(list: seq<nat>, from: nat, to: nat, i: nat)
    requires InRange(list, from, to) && i < |list|
    ensures from <= list[i] < to
  {
  }
}
