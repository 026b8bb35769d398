/**
 `ParamProtocol` for real parameters: what travels are the vectors of `ParamColumns`,
 and rows are compared as `getComp` says. With this the theorems about every
 interleaving hold for the sort of any set of traces by any sort type.
 */
module RowProtocol {
  import opened Blocks
  import opened Comparators
  import opened DistributedSort
  import opened NearestNeighbour
  import opened ParamColumns
  import opened ParamProtocol
  import opened ParamTheorems
  import opened Params
  import opened Sorting
  import opened TraceNumbers
  import opened TraceRows
  import P = SortProtocol

  /** One of the four vectors of a region. */
  ghost function RegionColumn(l: Layout, region: seq<Cells>, j: nat): Message {
    if l.Valid() && AreRows(l, region) && j < 4 then Columns(l, region)[j] else Reals([])
  }

  /** The rows copied out of a filled structure. */
  ghost function RegionRows(l: Layout, regionSz: nat, v: seq<Message>): seq<Cells> {
    if l.Valid() && Filled(l, regionSz, v) then FromColumns(l, regionSz, v) else []
  }

  ghost function RowSetting(l: Layout, less: (Cells, Cells) -> bool, regionSz: nat): Setting<Cells, Message> {
    Setting(P.Config(less, regionSz, Blank(l)), Gtn(), (cells: Cells) => IsRow(l, cells),
            (region: seq<Cells>, j: nat) => RegionColumn(l, region, j), (v: seq<Message>) => RegionRows(l, regionSz, v), Reals([]))
  }

  /** Four messages carry the rows of a region, whatever the rule. */
  lemma {:induction false} RowsLossless(l: Layout, less: (Cells, Cells) -> bool, regionSz: nat)
    requires l.Valid()
    ensures Lossless(RowSetting(l, less, regionSz))
  {
    hide Columns, FromColumns, Filled, IsRow, Blank;
    BlankIsRow(l);
    var c := RowSetting(l, less, regionSz);
    forall region: seq<Cells> | |region| == regionSz && Proper(c, region) ensures c.rows(Vectors(c, region)) == region {
      assert forall i :: 0 <= i < |region| ==> c.proper(region[i]);
      assert AreRows(l, region);
      RowsSurvive(l, region);
      FilledIs(l, region);
      assert Vectors(c, region) == Columns(l, region);
    }
  }

  lemma {:induction false} FilledIs(l: Layout, region: seq<Cells>)
    requires l.Valid() && AreRows(l, region)
    ensures Filled(l, |region|, Columns(l, region)) && |Columns(l, region)| == 4
  {
  }

  /** What `sortP` is called with: rows of one rule, told apart by both numbers. */
  ghost predicate RowJob(l: Layout, blocks: seq<seq<Cells>>) {
    && |blocks| >= 1 && l.Valid()
    && (forall r :: 0 <= r < |blocks| ==> AreRows(l, blocks[r]))
    && LtnsApart(Flatten(blocks)) && Numbered(Gtn(), Flatten(blocks))
  }

  ghost function SortSetting(l: Layout, kind: SortType, blocks: seq<seq<Cells>>): Setting<Cells, Message>
    requires |blocks| >= 1
  {
    RowSetting(l, RowComp(kind), RegionSize(Sizes(blocks)))
  }

  /** Every sort type on every set of traces is a sort the protocol theorems are
      about. */
  lemma {:induction false} RowsReady(l: Layout, kind: SortType, blocks: seq<seq<Cells>>)
    requires RowJob(l, blocks)
    ensures |blocks| >= 1 && Ready(SortSetting(l, kind, blocks), blocks)
  {
    hide Lossless, Numbered, LtnsApart, IsRow, Gtn, StrictWeakOrder, TotalOn, Flatten, Blank;
    var c := SortSetting(l, kind, blocks);
    RowsLossless(l, RowComp(kind), RegionSize(Sizes(blocks)));
    RowCompIsOrder(kind);
    RowCompTotal(kind, Flatten(blocks));
    forall r | 0 <= r < |blocks| ensures Proper(c, blocks[r]) {
      assert AreRows(l, blocks[r]);
    }
  }

  /** What the sort leaves is determined by what it was given. */
  lemma {:induction false} SortedOverUnique<T>(less: (T, T) -> bool, R: nat, before: seq<seq<T>>, a: seq<seq<T>>, b: seq<seq<T>>)
    requires SortedOver(less, R, before, a) && SortedOver(less, R, before, b)
    ensures a == b
  {
    if |before| > 1 && R == 0 {
    } else if |before| == 0 {
      assert |Sizes(a)| == 0 && |Sizes(b)| == 0;
    } else {
      SplitFlatten(a);
      SplitFlatten(b);
    }
  }

  /** A run on traces that has come to its end. */
  ghost predicate Ends(l: Layout, kind: SortType, blocks: seq<seq<Cells>>, acts: seq<P.Action>)
    requires |blocks| >= 1
  {
    var c := SortSetting(l, kind, blocks);
    CanRun(c, Initial(c, blocks), acts) && Exec(c, Initial(c, blocks), acts).finished
  }

  ghost function Outcome(l: Layout, kind: SortType, blocks: seq<seq<Cells>>, acts: seq<P.Action>): seq<seq<Cells>>
    requires |blocks| >= 1 && Ends(l, kind, blocks, acts)
  {
    var c := SortSetting(l, kind, blocks);
    var s := Exec(c, Initial(c, blocks), acts);
    if Wide(c.base.R, s.temp1) then Result(c, s) else []
  }

  /** Every run on traces, however the messages were scheduled, ends with the rows
      sorted over the ranks. */
  lemma {:induction false} EveryRowRunSorts(l: Layout, kind: SortType, blocks: seq<seq<Cells>>, acts: seq<P.Action>)
    requires RowJob(l, blocks) && Ends(l, kind, blocks, acts)
    ensures SortedOver(RowComp(kind), RegionSize(Sizes(blocks)), blocks, Outcome(l, kind, blocks, acts))
  {
    hide RowJob, Ready, Exec, CanRun, Initial, Wide, SortedOver, RegionSize, Result;
    RowsReady(l, kind, blocks);
    EveryRunSorts(SortSetting(l, kind, blocks), blocks, acts);
  }

  /** No two schedules can be told apart by their outcome, and neither can a schedule
      and a sort in lock step, which ends in the same way. */
  lemma {:induction false} OutcomesAgree(l: Layout, kind: SortType, blocks: seq<seq<Cells>>, acts: seq<P.Action>,
                                         after: seq<seq<Cells>>)
    requires RowJob(l, blocks) && Ends(l, kind, blocks, acts)
    requires SortedOver(RowComp(kind), RegionSize(Sizes(blocks)), blocks, after)
    ensures Outcome(l, kind, blocks, acts) == after
  {
    hide SortedOver, Outcome, RowComp, Ends, RegionSize, LtnsApart, Numbered, AreRows;
    EveryRowRunSorts(l, kind, blocks, acts);
    SortedOverUnique(RowComp(kind), RegionSize(Sizes(blocks)), blocks, Outcome(l, kind, blocks, acts), after);
  }

  /** And there is such a run. */
  lemma {:induction false} SomeRunEnds(l: Layout, kind: SortType, blocks: seq<seq<Cells>>) returns (acts: seq<P.Action>)
    requires RowJob(l, blocks)
    ensures Ends(l, kind, blocks, acts)
  {
    hide RowJob, Ready, Exec, Initial;
    RowsReady(l, kind, blocks);
    acts := RunCompletes(SortSetting(l, kind, blocks), blocks, []);
  }
}
