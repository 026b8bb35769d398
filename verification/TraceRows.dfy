/**
 A row of trace parameters as the sort operation reads it (`getPrm`): the fields
 that are compared, and the global trace number.
 */
module TraceRows {
  import opened Comparators
  import opened Params
  import opened RuleTable
  import opened Sorting

  const META_OFFSET: Meta := 14
  const META_XSRC: Meta := 20
  const META_YSRC: Meta := 21
  const META_XRCV: Meta := 22
  const META_YRCV: Meta := 23
  const META_IL: Meta := 26
  const META_XL: Meta := 27

  function Read(asked: MdType, cells: Cells, m: Meta): (v: Value)
    requires asked != Copy
    ensures InType(asked, v)
  {
    Cast(asked, if m in cells then cells[m] else Whole(0))
  }

  function TraceOf(cells: Cells): Trace {
    Trace(
      Read(Float, cells, META_XSRC).x, Read(Float, cells, META_YSRC).x,
      Read(Float, cells, META_XRCV).x, Read(Float, cells, META_YRCV).x,
      Read(Long, cells, META_OFFSET).n, Read(Long, cells, META_IL).n, Read(Long, cells, META_XL).n,
      Read(Long, cells, META_LTN).n, Read(Index, cells, META_GTN).n)
  }

  /** The comparison of a sort type, on rows. */
  function RowComp(kind: SortType): (Cells, Cells) -> bool {
    (a: Cells, b: Cells) => Less(kind, TraceOf(a), TraceOf(b))
  }

  function Gtn(): Cells -> nat {
    (cells: Cells) => Read(Index, cells, META_GTN).n
  }

  lemma {:induction false} RowCompIsOrder(kind: SortType)
    ensures StrictWeakOrder(RowComp(kind))
  {
    ComparatorsAreOrders(kind);
    hide Less, TraceOf;
    forall x, y, z | RowComp(kind)(x, y) && RowComp(kind)(y, z) ensures RowComp(kind)(x, z) {
      assert GetComp(kind)(TraceOf(x), TraceOf(y)) && GetComp(kind)(TraceOf(y), TraceOf(z));
      assert GetComp(kind)(TraceOf(x), TraceOf(z));
    }
    forall x ensures !RowComp(kind)(x, x) {
      assert !GetComp(kind)(TraceOf(x), TraceOf(x));
    }
    forall x, y, z | RowComp(kind)(x, z) ensures RowComp(kind)(x, y) || RowComp(kind)(y, z) {
      assert GetComp(kind)(TraceOf(x), TraceOf(z));
      assert GetComp(kind)(TraceOf(x), TraceOf(y)) || GetComp(kind)(TraceOf(y), TraceOf(z));
    }
  }

  /** Local numbers, as the comparisons read them, tell the rows apart. */
  ghost predicate LtnsApart(rows: seq<Cells>) {
    forall x, y :: x in rows && y in rows && x != y ==> TraceOf(x).ltn != TraceOf(y).ltn
  }

  lemma {:induction false} RowCompTotal(kind: SortType, rows: seq<Cells>)
    requires LtnsApart(rows)
    ensures TotalOn(RowComp(kind), rows)
  {
    hide Less, Keys, TraceOf;
    forall x, y | x in rows && y in rows && x != y ensures RowComp(kind)(x, y) || RowComp(kind)(y, x) {
      LessTrichotomy(kind, TraceOf(x), TraceOf(y));
    }
  }
}
