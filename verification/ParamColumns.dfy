/**
 Rows of trace parameters as the four vectors that travel between ranks, and the
 vectors as rows again.
 */
module ParamColumns {
  import opened Decomposition
  import opened RuleTable
  import opened Params

  /** What a rule says about columns, as a value. */
  datatype Layout = Layout(table: Table, numFloat: nat, numLong: nat, numShort: nat, numIndex: nat) {
    function Num(k: MdType): nat {
      match k
      case Float => numFloat
      case Long => numLong
      case Short => numShort
      case Index => numIndex
      case Copy => 0
    }

    ghost predicate Valid() {
      forall k: MdType :: Dense(table, k, Num(k))
    }
  }

  function LayoutOf(r: Rule): Layout
    reads r
  {
    Layout(r.translate, r.numFloat, r.numLong, r.numShort, r.numIndex)
  }

  /** A rule without an entry for copying. */
  ghost predicate Plain(r: Rule)
    reads r
  {
    r.Valid() && r.numCopy == 0
  }

  lemma {:induction false} PlainMeans(r: Rule)
    requires Plain(r)
    ensures r.Valid() && r.numCopy == 0
  {
  }

  lemma {:induction false} PlainLayout(r: Rule)
    requires Plain(r)
    ensures LayoutOf(r).Valid()
    ensures forall m :: m in r.translate ==> r.translate[m].kind != Copy
  {
    forall k: MdType ensures Dense(r.translate, k, LayoutOf(r).Num(k)) {
      assert LayoutOf(r).Num(k) == r.Num(k);
    }
    assert Dense(r.translate, Copy, r.Num(Copy));
  }

  /** A value of the right type for every field and for nothing else. */
  ghost predicate IsRow(l: Layout, cells: Cells) {
    cells.Keys == l.table.Keys && forall m :: m in l.table ==> l.table[m].kind != Copy && InType(l.table[m].kind, cells[m])
  }

  ghost predicate AreRows(l: Layout, rows: seq<Cells>) {
    forall i :: 0 <= i < |rows| ==> IsRow(l, rows[i])
  }

  /** The contents of one vector. */
  datatype Message =
    | Reals(f: seq<real>)
    | LLints(i: seq<LLint>)
    | Shorts(s: seq<Int16>)
    | SizeTs(t: seq<Size>)

  // ------------------------------------------------------------ rows to vectors

  /** The field that has column num of its type. */
  ghost function FieldAt(l: Layout, k: MdType, num: nat): (m: Meta)
    requires l.Valid() && num < l.Num(k)
    ensures Uses(l.table, k, num, m)
  {
    assert Dense(l.table, k, l.Num(k));
    assert Used(l.table, k, num);
    var m :| Uses(l.table, k, num, m);
    m
  }

  lemma {:induction false} FieldUnique(l: Layout, m: Meta)
    requires l.Valid() && m in l.table
    ensures l.table[m].num < l.Num(l.table[m].kind) && FieldAt(l, l.table[m].kind, l.table[m].num) == m
  {
    assert Dense(l.table, l.table[m].kind, l.Num(l.table[m].kind));
  }

  /** Row and column of a place in a vector. */
  lemma {:induction false} PlaceIn(sz: nat, n: nat, p: nat)
    requires p < Slot(sz, n, 0)
    ensures n > 0 && p / n < sz && p % n < n && Slot(p / n, n, p % n) == p
  {
    if n == 0 {
      assert false;
    } else if p / n >= sz {
      MulKeepsOrder(sz, p / n, n);
    }
  }

  ghost function Holds(l: Layout, rows: seq<Cells>, k: MdType, p: nat): (v: Value)
    requires l.Valid() && AreRows(l, rows) && p < Slot(|rows|, l.Num(k), 0) && k != Copy
    ensures InType(k, v)
  {
    PlaceIn(|rows|, l.Num(k), p);
    var n := l.Num(k);
    assert IsRow(l, rows[p / n]) && Uses(l.table, k, p % n, FieldAt(l, k, p % n));
    rows[p / n][FieldAt(l, k, p % n)]
  }

  /** All places of the vector of a type. */
  ghost function Column(l: Layout, rows: seq<Cells>, k: MdType): (c: seq<Value>)
    requires l.Valid() && AreRows(l, rows) && k != Copy
    ensures |c| == Slot(|rows|, l.Num(k), 0) && forall p :: 0 <= p < |c| ==> InType(k, c[p]) && c[p] == Holds(l, rows, k, p)
  {
    seq(Slot(|rows|, l.Num(k), 0), p requires 0 <= p < Slot(|rows|, l.Num(k), 0) => Holds(l, rows, k, p))
  }

  /** A vector with these contents. */
  ghost function Packed(k: MdType, c: seq<Value>): (m: Message)
    requires k != Copy && forall p :: 0 <= p < |c| ==> InType(k, c[p])
  {
    match k
    case Float => Reals(seq(|c|, p requires 0 <= p < |c| && InType(Float, c[p]) => c[p].x))
    case Long => LLints(seq(|c|, p requires 0 <= p < |c| && InType(Long, c[p]) => c[p].n))
    case Short => Shorts(seq(|c|, p requires 0 <= p < |c| && InType(Short, c[p]) => c[p].n))
    case Index => SizeTs(seq(|c|, p requires 0 <= p < |c| && InType(Index, c[p]) => c[p].n))
  }

  ghost function Columns(l: Layout, rows: seq<Cells>): (v: seq<Message>)
    requires l.Valid() && AreRows(l, rows)
    ensures Filled(l, |rows|, v)
  {
    [Packed(Float, Column(l, rows, Float)), Packed(Long, Column(l, rows, Long)),
     Packed(Short, Column(l, rows, Short)), Packed(Index, Column(l, rows, Index))]
  }

  // ------------------------------------------------------------ vectors to rows

  /** Four vectors with room for sz rows. */
  ghost predicate Filled(l: Layout, sz: nat, v: seq<Message>) {
    && |v| == 4
    && v[0].Reals? && |v[0].f| == Slot(sz, l.numFloat, 0)
    && v[1].LLints? && |v[1].i| == Slot(sz, l.numLong, 0)
    && v[2].Shorts? && |v[2].s| == Slot(sz, l.numShort, 0)
    && v[3].SizeTs? && |v[3].t| == Slot(sz, l.numIndex, 0)
  }

  lemma {:induction false} PlaceInside(l: Layout, sz: nat, row: nat, m: Meta)
    requires l.Valid() && row < sz && m in l.table
    ensures l.table[m].kind != Copy
    ensures l.table[m].num < l.Num(l.table[m].kind)
    ensures Slot(row, l.Num(l.table[m].kind), l.table[m].num) < Slot(sz, l.Num(l.table[m].kind), 0)
  {
    FieldUnique(l, m);
    SlotFits(row, sz, l.Num(l.table[m].kind), l.table[m].num);
  }

  /** Place p of the vector of a type. */
  ghost function Place(l: Layout, sz: nat, v: seq<Message>, k: MdType, p: nat): (c: Value)
    requires Filled(l, sz, v) && k != Copy && p < Slot(sz, l.Num(k), 0)
    ensures InType(k, c)
  {
    match k
    case Float => Real(v[0].f[p])
    case Long => Whole(v[1].i[p])
    case Short => Whole(v[2].s[p])
    case Index => Whole(v[3].t[p])
  }

  ghost function CellIn(l: Layout, sz: nat, v: seq<Message>, row: nat, m: Meta): (c: Value)
    requires l.Valid() && Filled(l, sz, v) && row < sz && m in l.table
    ensures l.table[m].kind != Copy && InType(l.table[m].kind, c)
  {
    PlaceInside(l, sz, row, m);
    var e := l.table[m];
    Place(l, sz, v, e.kind, Slot(row, l.Num(e.kind), e.num))
  }

  ghost function RowIn(l: Layout, sz: nat, v: seq<Message>, row: nat): (cells: Cells)
    requires l.Valid() && Filled(l, sz, v) && row < sz
    ensures IsRow(l, cells)
  {
    map m | m in l.table :: CellIn(l, sz, v, row, m)
  }

  ghost function FromColumns(l: Layout, sz: nat, v: seq<Message>): (rows: seq<Cells>)
    requires l.Valid() && Filled(l, sz, v)
    ensures |rows| == sz && AreRows(l, rows)
  {
    seq(sz, row requires 0 <= row < sz => RowIn(l, sz, v, row))
  }

  // --------------------------------------------------------------- round trips

  /** The place of a cell holds the cell. */
  lemma {:induction false} HoldsCell(l: Layout, rows: seq<Cells>, row: nat, m: Meta)
    requires l.Valid() && AreRows(l, rows) && row < |rows| && m in l.table
    ensures l.table[m].kind != Copy
    ensures Slot(row, l.Num(l.table[m].kind), l.table[m].num) < Slot(|rows|, l.Num(l.table[m].kind), 0)
    ensures Holds(l, rows, l.table[m].kind, Slot(row, l.Num(l.table[m].kind), l.table[m].num)) == rows[row][m]
  {
    PlaceInside(l, |rows|, row, m);
    FieldUnique(l, m);
    var k := l.table[m].kind;
    var n, num := l.Num(k), l.table[m].num;
    DivUnique(Slot(row, n, num), n, row, num);
    assert IsRow(l, rows[row]);
  }

  /** Rows survive being sent as vectors. */
  lemma {:induction false} RowsSurvive(l: Layout, rows: seq<Cells>)
    requires l.Valid() && AreRows(l, rows)
    ensures FromColumns(l, |rows|, Columns(l, rows)) == rows
  {
    hide Columns, CellIn, Filled;
    var v := Columns(l, rows);
    forall row | 0 <= row < |rows| ensures RowIn(l, |rows|, v, row) == rows[row] {
      assert IsRow(l, rows[row]);
      forall m | m in l.table ensures CellIn(l, |rows|, v, row, m) == rows[row][m] {
        CellSurvives(l, rows, row, m);
      }
    }
  }

  lemma {:induction false} CellSurvives(l: Layout, rows: seq<Cells>, row: nat, m: Meta)
    requires l.Valid() && AreRows(l, rows) && row < |rows| && m in l.table
    ensures CellIn(l, |rows|, Columns(l, rows), row, m) == rows[row][m]
  {
    HoldsCell(l, rows, row, m);
    var e := l.table[m];
    PlaceOfColumns(l, rows, e.kind, Slot(row, l.Num(e.kind), e.num));
    hide Slot, Holds, Place, Columns, AreRows, Filled;
  }

  lemma {:induction false} PlaceOfColumns(l: Layout, rows: seq<Cells>, k: MdType, p: nat)
    requires l.Valid() && AreRows(l, rows) && k != Copy && p < Slot(|rows|, l.Num(k), 0)
    ensures Place(l, |rows|, Columns(l, rows), k, p) == Holds(l, rows, k, p)
  {
    hide Slot, Holds, AreRows;
  }

  /** The vectors of a structure. */
  function VectorsOf(prm: Param): (v: seq<Message>)
    reads prm
    ensures |v| == 4
  {
    [Reals(prm.f), LLints(prm.i), Shorts(prm.s), SizeTs(prm.t)]
  }

  lemma {:induction false} ParamRows(prm: Param)
    requires prm.Valid() && Plain(prm.r)
    ensures LayoutOf(prm.r).Valid() && Filled(LayoutOf(prm.r), prm.sz, VectorsOf(prm))
    ensures AreRows(LayoutOf(prm.r), AllRows(prm))
  {
    PlainLayout(prm.r);
  }

  /** The vectors hold exactly the rows: every place belongs to a field of a row. */
  lemma {:induction false} VectorsAreColumns(prm: Param)
    requires prm.Valid() && Plain(prm.r)
    ensures LayoutOf(prm.r).Valid() && AreRows(LayoutOf(prm.r), AllRows(prm))
    ensures VectorsOf(prm) == Columns(LayoutOf(prm.r), AllRows(prm))
  {
    ParamRows(prm);
    var l, rows := LayoutOf(prm.r), AllRows(prm);
    forall k: MdType, p: nat | k != Copy && p < Slot(prm.sz, l.Num(k), 0)
      ensures Place(l, prm.sz, VectorsOf(prm), k, p) == Place(l, prm.sz, Columns(l, rows), k, p)
    {
      PlaceHolds(prm, k, p);
      PlaceOfColumns(l, rows, k, p);
    }
    hide Columns, Slot, AllRows, AreRows;
    PlacesDetermine(l, prm.sz, VectorsOf(prm), Columns(l, rows));
  }

  lemma {:induction false} PlacesDetermine(l: Layout, sz: nat, v: seq<Message>, w: seq<Message>)
    requires Filled(l, sz, v) && Filled(l, sz, w)
    requires forall k: MdType, p: nat :: k != Copy && p < Slot(sz, l.Num(k), 0) ==> Place(l, sz, v, k, p) == Place(l, sz, w, k, p)
    ensures v == w
  {
    hide Slot;
    forall p: nat | p < |v[0].f| ensures v[0].f[p] == w[0].f[p] {
      assert Place(l, sz, v, Float, p) == Place(l, sz, w, Float, p);
    }
    forall p: nat | p < |v[1].i| ensures v[1].i[p] == w[1].i[p] {
      assert Place(l, sz, v, Long, p) == Place(l, sz, w, Long, p);
    }
    forall p: nat | p < |v[2].s| ensures v[2].s[p] == w[2].s[p] {
      assert Place(l, sz, v, Short, p) == Place(l, sz, w, Short, p);
    }
    forall p: nat | p < |v[3].t| ensures v[3].t[p] == w[3].t[p] {
      assert Place(l, sz, v, Index, p) == Place(l, sz, w, Index, p);
    }
    assert v[0].f == w[0].f && v[1].i == w[1].i && v[2].s == w[2].s && v[3].t == w[3].t;
  }

  lemma {:induction false} CellPlaced(prm: Param, row: nat, m: Meta)
    requires prm.Valid() && Plain(prm.r) && row < prm.sz && m in prm.r.translate
    requires LayoutOf(prm.r).Valid() && Filled(LayoutOf(prm.r), prm.sz, VectorsOf(prm))
    ensures m in CellsOf(prm, row)
    ensures CellsOf(prm, row)[m] == CellIn(LayoutOf(prm.r), prm.sz, VectorsOf(prm), row, m)
  {
    PlaceInside(LayoutOf(prm.r), prm.sz, row, m);
    assert LayoutOf(prm.r).Num(prm.r.translate[m].kind) == prm.r.Num(prm.r.translate[m].kind);
    hide Slot;
    prm.SlotInside(row, m);
  }

  lemma {:induction false} PlaceHolds(prm: Param, k: MdType, p: nat)
    requires prm.Valid() && Plain(prm.r) && k != Copy && p < Slot(prm.sz, LayoutOf(prm.r).Num(k), 0)
    requires LayoutOf(prm.r).Valid() && AreRows(LayoutOf(prm.r), AllRows(prm))
    requires Filled(LayoutOf(prm.r), prm.sz, VectorsOf(prm))
    ensures Holds(LayoutOf(prm.r), AllRows(prm), k, p) == Place(LayoutOf(prm.r), prm.sz, VectorsOf(prm), k, p)
  {
    hide Slot, CellsOf, VectorsOf, Plain, Place, Dense, InType;
    var l := LayoutOf(prm.r);
    var n := l.Num(k);
    PlaceIn(prm.sz, n, p);
    var m := FieldAt(l, k, p % n);
    CellPlaced(prm, p / n, m);
    assert AllRows(prm)[p / n] == CellsOf(prm, p / n);
  }

  /** A structure whose vectors are those of some rows holds these rows. */
  lemma {:induction false} VectorsDetermine(prm: Param, rows: seq<Cells>)
    requires prm.Valid() && Plain(prm.r) && LayoutOf(prm.r).Valid() && AreRows(LayoutOf(prm.r), rows)
    requires |rows| == prm.sz && VectorsOf(prm) == Columns(LayoutOf(prm.r), rows)
    ensures AllRows(prm) == rows
  {
    hide *;
    VectorsAreColumns(prm);
    RowsSurvive(LayoutOf(prm.r), rows);
    RowsSurvive(LayoutOf(prm.r), AllRows(prm));
  }

  // ------------------------------------------------------------- a new structure

  /** The row of a structure that nothing was stored in. */
  function Blank(l: Layout): Cells {
    map m | m in l.table :: if l.table[m].kind == Float then Real(0.0) else Whole(0)
  }

  lemma {:induction false} BlankIsRow(l: Layout)
    requires l.Valid()
    ensures IsRow(l, Blank(l))
  {
    assert Dense(l.table, Copy, l.Num(Copy));
  }

  lemma {:induction false} BlankRows(prm: Param)
    requires prm.Valid() && Plain(prm.r)
    requires (forall k :: 0 <= k < |prm.f| ==> prm.f[k] == 0.0) && (forall k :: 0 <= k < |prm.i| ==> prm.i[k] == 0)
    requires (forall k :: 0 <= k < |prm.s| ==> prm.s[k] == 0) && (forall k :: 0 <= k < |prm.t| ==> prm.t[k] == 0)
    ensures forall row :: 0 <= row < prm.sz ==> AllRows(prm)[row] == Blank(LayoutOf(prm.r))
  {
    PlainLayout(prm.r);
    forall row | 0 <= row < prm.sz ensures CellsOf(prm, row) == Blank(LayoutOf(prm.r)) {
      BlankCells(prm, row);
    }
  }

  lemma {:induction false} BlankCells(prm: Param, row: nat)
    requires prm.Valid() && Plain(prm.r) && row < prm.sz
    requires forall m :: m in prm.r.translate ==> prm.r.translate[m].kind != Copy
    requires (forall k :: 0 <= k < |prm.f| ==> prm.f[k] == 0.0) && (forall k :: 0 <= k < |prm.i| ==> prm.i[k] == 0)
    requires (forall k :: 0 <= k < |prm.s| ==> prm.s[k] == 0) && (forall k :: 0 <= k < |prm.t| ==> prm.t[k] == 0)
    ensures CellsOf(prm, row) == Blank(LayoutOf(prm.r))
  {
    hide Slot, Plain;
    var blank := Blank(LayoutOf(prm.r));
    forall m | m in blank ensures CellsOf(prm, row)[m] == blank[m] {
      prm.SlotInside(row, m);
    }
    RowIs(prm, row, blank);
  }
}
