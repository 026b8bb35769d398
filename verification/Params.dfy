/**
 Trace parameters in columns: the fields of one type form the rows of one vector,
 and the rule says which column of it a field has.
 */
module Params {
  import opened Decomposition
  import opened Scale
  import opened RuleTable

  type Int16 = n: int | Fits16(n)

  type LLint = n: int | IsLlint(n)

  type Size = n: int | 0 <= n < 0x1_0000_0000_0000_0000

  /** A value on its way in or out: of the floating-point or of some integer type. */
  datatype Value = Real(x: real) | Whole(n: int)

  // ---------------------------------------------------------------- conversions

  predicate InType(k: MdType, v: Value) {
    match k
    case Float => v.Real?
    case Long => v.Whole? && IsLlint(v.n)
    case Short => v.Whole? && Fits16(v.n)
    case Index => v.Whole? && 0 <= v.n < 0x1_0000_0000_0000_0000
    case Copy => false
  }

  function WholePart(v: Value): int {
    if v.Real? then Trunc(v.x) else v.n
  }

  function Wrap64(n: int): (v: int)
    ensures IsLlint(v) && (IsLlint(n) ==> v == n)
  {
    var low := n % 0x1_0000_0000_0000_0000;
    if low < 0x8000_0000_0000_0000 then low else low - 0x1_0000_0000_0000_0000
  }

  /** The conversion to the C++ type of a column. */
  function Cast(k: MdType, v: Value): (w: Value)
    requires k != Copy
    ensures InType(k, w) && (InType(k, v) ==> w == v)
  {
    match k
    case Float => if v.Real? then v else Real(v.n as real)
    case Long => Whole(Wrap64(WholePart(v)))
    case Short => Whole(Wrap16(WholePart(v)))
    case Index => Whole(WholePart(v) % 0x1_0000_0000_0000_0000)
  }

  /** A whole number passes through any column that can hold it. */
  lemma {:induction false} CastBack(asked: MdType, column: MdType, v: Value)
    requires asked != Copy && column != Copy && InType(asked, v)
    requires InType(column, v) || (column == Float && v.Whole?)
    ensures Cast(asked, Cast(column, v)) == v
  {
  }

  /** What the conversions do to values a column cannot hold: the digits after the point
      are dropped, and whole numbers lose their high bits. */
  lemma {:induction false} CastMeaning(v: Value)
    ensures v.Whole? ==> Cast(Float, v) == Real(v.n as real)
    ensures v.Whole? ==> (v.n - Cast(Long, v).n) % 0x1_0000_0000_0000_0000 == 0
    ensures v.Whole? ==> (v.n - Cast(Short, v).n) % 0x1_0000 == 0
    ensures v.Whole? ==> (v.n - Cast(Index, v).n) % 0x1_0000_0000_0000_0000 == 0
    ensures v.Real? && -0x8000 as real <= v.x < 0x8000 as real ==>
              && Cast(Long, v) == Cast(Short, v)
              && -1.0 < v.x - Cast(Long, v).n as real < 1.0
              && (v.x >= 0.0 ==> 0.0 <= Cast(Long, v).n as real <= v.x) && (v.x <= 0.0 ==> v.x <= Cast(Long, v).n as real <= 0.0)
    ensures v.Real? && 0.0 <= v.x < 0x1_0000_0000_0000_0000 as real ==> Cast(Index, v) == Whole(Trunc(v.x))
  {
  }

  // ---------------------------------------------------------------------- slots

  /** Where column num of a row lies in a vector of n columns. */
  function Slot(row: nat, n: nat, num: nat): nat {
    MulKeepsOrder(0, row, n);
    row * n + num
  }

  lemma {:induction false} SlotApart(row: nat, row': nat, n: nat, num: nat, num': nat)
    requires num < n && num' < n && Slot(row, n, num) == Slot(row', n, num')
    ensures row == row' && num == num'
  {
    DivUnique(Slot(row, n, num), n, row, num);
    DivUnique(Slot(row, n, num), n, row', num');
  }

  lemma {:induction false} SlotFrom(row: nat, n: nat, num: nat)
    ensures Slot(row, n, num) == Slot(row, n, 0) + num
  {
  }

  /** Rows do not overlap. */
  lemma {:induction false} RowsApart(row: nat, row': nat, n: nat)
    requires row < row'
    ensures Slot(row, n, n) <= Slot(row', n, 0)
  {
    Spaced(row, row', 1, n);
  }

  lemma {:induction false} SlotFits(row: nat, sz: nat, n: nat, num: nat)
    requires row < sz && num < n
    ensures Slot(row, n, num) < Slot(sz, n, 0)
  {
    MulKeepsOrder(row + 1, sz, n);
  }

  // ----------------------------------------------------------------- the vectors

  class Param {
    const r: Rule
    const sz: nat
    var f: seq<real>
    var i: seq<LLint>
    var s: seq<Int16>
    var t: seq<Size>

    ghost predicate Valid()
      reads this, r
    {
      && r.Valid()
      && |f| == Slot(sz, r.numFloat, 0) && |i| == Slot(sz, r.numLong, 0)
      && |s| == Slot(sz, r.numShort, 0) && |t| == Slot(sz, r.numIndex, 0)
    }

    constructor (r: Rule, sz: nat)
      requires r.Valid()
      ensures Valid() && this.r == r && this.sz == sz
      ensures (forall k :: 0 <= k < |f| ==> f[k] == 0.0) && (forall k :: 0 <= k < |i| ==> i[k] == 0)
      ensures (forall k :: 0 <= k < |s| ==> s[k] == 0) && (forall k :: 0 <= k < |t| ==> t[k] == 0)
    {
      this.r, this.sz := r, sz;
      f := seq(Slot(sz, r.numFloat, 0), k => 0.0);
      i := seq(Slot(sz, r.numLong, 0), k => 0);
      s := seq(Slot(sz, r.numShort, 0), k => 0);
      t := seq(Slot(sz, r.numIndex, 0), k => 0);
    }

    /** The field is of a type with columns. */
    predicate Has(m: Meta)
      reads this, r
    {
      m in r.translate && r.translate[m].kind != Copy
    }

    lemma {:induction false} SlotInside(row: nat, m: Meta)
      requires Valid() && row < sz && Has(m)
      ensures var e := r.translate[m];
              e.num < r.Num(e.kind) && Slot(row, r.Num(e.kind), e.num) < Slot(sz, r.Num(e.kind), 0)
    {
      var e := r.translate[m];
      assert Dense(r.translate, e.kind, r.Num(e.kind));
      SlotFits(row, sz, r.Num(e.kind), e.num);
    }

    /** Two different fields of a type, or two rows, never share a slot. */
    lemma {:induction false} SlotsDistinct(row: nat, m: Meta, row': nat, m': Meta)
      requires Valid() && row < sz && row' < sz && Has(m) && Has(m')
      requires r.translate[m].kind == r.translate[m'].kind && (row != row' || m != m')
      ensures var k := r.translate[m].kind;
              Slot(row, r.Num(k), r.translate[m].num) != Slot(row', r.Num(k), r.translate[m'].num)
    {
      var k := r.translate[m].kind;
      assert Dense(r.translate, k, r.Num(k));
      if Slot(row, r.Num(k), r.translate[m].num) == Slot(row', r.Num(k), r.translate[m'].num) {
        SlotApart(row, row', r.Num(k), r.translate[m].num, r.translate[m'].num);
      }
    }

    /** The value of a field of a row. */
    function Cell(row: nat, m: Meta): (v: Value)
      requires Valid() && row < sz && Has(m)
      reads this, r
      ensures InType(r.translate[m].kind, v)
    {
      SlotInside(row, m);
      var e := r.translate[m];
      match e.kind
      case Float => Real(f[Slot(row, r.numFloat, e.num)])
      case Long => Whole(i[Slot(row, r.numLong, e.num)])
      case Short => Whole(s[Slot(row, r.numShort, e.num)])
      case Index => Whole(t[Slot(row, r.numIndex, e.num)])
    }

    /** Every cell but one is what it was. */
    twostate predicate OthersKept(row: nat, m: Meta)
      requires old(Valid()) && Valid() && r.translate == old(r.translate)
      reads this, r
    {
      forall row': nat, m': Meta :: row' < sz && Has(m') && (row' != row || m' != m) ==> Cell(row', m') == old(Cell(row', m'))
    }

    method Store(row: nat, m: Meta, v: Value)
      requires Valid() && row < sz && Has(m) && InType(r.translate[m].kind, v)
      modifies this
      ensures Valid() && Cell(row, m) == v
      ensures OthersKept(row, m)
    {
      SlotInside(row, m);
      hide Slot;
      var e := r.translate[m];
      match e.kind {
        case Float => f := f[Slot(row, r.numFloat, e.num) := v.x];
        case Long => i := i[Slot(row, r.numLong, e.num) := v.n];
        case Short => s := s[Slot(row, r.numShort, e.num) := v.n];
        case Index => t := t[Slot(row, r.numIndex, e.num) := v.n];
      }
      forall row': nat, m': Meta | row' < sz && Has(m') && (row' != row || m' != m) ensures Cell(row', m') == old(Cell(row', m')) {
        SlotInside(row', m');
        if r.translate[m'].kind == e.kind {
          SlotsDistinct(row, m, row', m');
        }
      }
    }

    /** The value as the type asked for. */
    method GetPrm(asked: MdType, row: nat, m: Meta) returns (v: Value)
      requires Valid() && row < sz && m in r.translate && asked != Copy
      ensures v == Cast(asked, if Has(m) then Cell(row, m) else Whole(0))
    {
      var e := r.translate[m];
      if Has(m) {
        SlotInside(row, m);
      }
      match e.kind {
        case Float => v := Cast(asked, Real(f[Slot(row, r.numFloat, e.num)]));
        case Long => v := Cast(asked, Whole(i[Slot(row, r.numLong, e.num)]));
        case Short => v := Cast(asked, Whole(s[Slot(row, r.numShort, e.num)]));
        case Index => v := Cast(asked, Whole(t[Slot(row, r.numIndex, e.num)]));
        case Copy => v := Cast(asked, Whole(0));
      }
    }

    /** The value cut to the type of the column; every other field of every row is
        what it was. */
    method SetPrm(row: nat, m: Meta, ret: Value)
      requires Valid() && row < sz && m in r.translate
      modifies this
      ensures Valid() && OthersKept(row, m)
      ensures Has(m) ==> Cell(row, m) == Cast(r.translate[m].kind, ret)
    {
      if r.translate[m].kind != Copy {
        Store(row, m, Cast(r.translate[m].kind, ret));
      }
    }

    /** A field of both rules with the same type. */
    predicate Common(from: Rule, m: Meta)
      reads this, r, from
    {
      Has(m) && m in from.translate && from.translate[m].kind == r.translate[m].kind
    }
  }

  // ----------------------------------------------------------------- rows as values

  type Cells = map<Meta, Value>

  /** A value of the right type for every field. */
  ghost predicate Typed(table: Table, cells: Cells) {
    forall m :: m in table && table[m].kind != Copy ==> m in cells && InType(table[m].kind, cells[m])
  }

  /** A row of the parameters as the values of its fields. */
  function CellsOf(prm: Param, row: nat): (cells: Cells)
    requires prm.Valid() && row < prm.sz
    reads prm, prm.r
    ensures Typed(prm.r.translate, cells)
  {
    map m | m in prm.r.translate && prm.r.translate[m].kind != Copy :: prm.Cell(row, m)
  }

  /** The rows from `skip` on. */
  function Rows(prm: Param, skip: nat, sz: nat): (rows: seq<Cells>)
    requires prm.Valid() && skip + sz <= prm.sz
    reads prm, prm.r
    ensures |rows| == sz && forall i :: 0 <= i < sz ==> rows[i] == CellsOf(prm, skip + i) && Typed(prm.r.translate, rows[i])
  {
    seq(sz, i requires 0 <= i < sz && prm.Valid() && skip + sz <= prm.sz reads prm, prm.r => CellsOf(prm, skip + i))
  }

  function AllRows(prm: Param): (rows: seq<Cells>)
    requires prm.Valid()
    reads prm, prm.r
    ensures |rows| == prm.sz
  {
    Rows(prm, 0, prm.sz)
  }

  /** A row is determined by its cells. */
  lemma {:induction false} RowIs(prm: Param, row: nat, cells: Cells)
    requires prm.Valid() && row < prm.sz && cells.Keys == CellsOf(prm, row).Keys
    requires forall m :: m in cells ==> CellsOf(prm, row)[m] == cells[m]
    ensures CellsOf(prm, row) == cells
  {
  }

  // --------------------------------------------------------------------- cpyPrm

  /** Rows copied as blocks: row k of d becomes row j of s. */
  function RowCopied<T>(d: seq<T>, k: nat, s: seq<T>, j: nat, n: nat, upTo: nat): (c: seq<T>)
    requires upTo <= n && Slot(k, n, n) <= |d| && Slot(j, n, n) <= |s|
    ensures |c| == |d|
  {
    seq(|d|, p requires 0 <= p < |d| =>
      if Slot(k, n, 0) <= p < Slot(k, n, upTo) then s[Slot(j, n, p - Slot(k, n, 0))] else d[p])
  }

  /** The loop that copies one row; with one vector in both roles it reads what it
      writes. */
  method CopyRow<T>(d: seq<T>, k: nat, s: seq<T>, j: nat, n: nat, same: bool) returns (c: seq<T>)
    requires Slot(k, n, n) <= |d| && Slot(j, n, n) <= |s| && (same ==> s == d)
    ensures c == RowCopied(d, k, s, j, n, n)
  {
    c := d;
    for x := 0 to n
      invariant c == RowCopied(d, k, s, j, n, x)
    {
      hide RowCopied;
      RowUntouched(d, k, s, j, n, x);
      RowNext(d, k, s, j, n, x);
      c := c[Slot(k, n, x) := if same then c[Slot(j, n, x)] else s[Slot(j, n, x)]];
    }
  }

  lemma {:induction false} RowNext<T>(d: seq<T>, k: nat, s: seq<T>, j: nat, n: nat, x: nat)
    requires x < n && Slot(k, n, n) <= |d| && Slot(j, n, n) <= |s|
    ensures Slot(k, n, x) < |d| && Slot(j, n, x) < |s|
    ensures RowCopied(d, k, s, j, n, x + 1) == RowCopied(d, k, s, j, n, x)[Slot(k, n, x) := s[Slot(j, n, x)]]
  {
    SlotFrom(k, n, x);
    SlotFrom(k, n, x + 1);
    SlotFrom(k, n, n);
    SlotFrom(j, n, x);
    SlotFrom(j, n, n);
    hide Slot;
    var c, c' := RowCopied(d, k, s, j, n, x), RowCopied(d, k, s, j, n, x + 1);
    assert c'[Slot(k, n, x)] == s[Slot(j, n, x)];
    forall p | 0 <= p < |d| && p != Slot(k, n, x) ensures c'[p] == c[p] {
      assert p < Slot(k, n, 0) + x + 1 ==> p < Slot(k, n, 0) + x;
    }
  }

  /** Source slots not yet reached are still what they were. */
  lemma {:induction false} RowUntouched<T>(d: seq<T>, k: nat, s: seq<T>, j: nat, n: nat, x: nat)
    requires x < n && Slot(k, n, n) <= |d| && Slot(j, n, n) <= |s|
    ensures s == d ==> Slot(j, n, x) < |d| && RowCopied(d, k, s, j, n, x)[Slot(j, n, x)] == s[Slot(j, n, x)]
  {
    SlotFrom(k, n, x);
    SlotFrom(k, n, n);
    SlotFrom(j, n, x);
    SlotFrom(j, n, n);
    if j < k {
      RowsApart(j, k, n);
    } else if k < j {
      RowsApart(k, j, n);
    }
    hide Slot;
  }

  /** A copied row, slot by slot. */
  lemma {:induction false} RowCopiedAt<T>(d: seq<T>, k: nat, s: seq<T>, j: nat, n: nat, row: nat, num: nat)
    requires Slot(k, n, n) <= |d| && Slot(j, n, n) <= |s| && num < n && Slot(row, n, num) < |d|
    ensures Slot(j, n, num) < |s|
    ensures RowCopied(d, k, s, j, n, n)[Slot(row, n, num)] == if row == k then s[Slot(j, n, num)] else d[Slot(row, n, num)]
  {
    SlotFrom(k, n, n);
    SlotFrom(j, n, num);
    SlotFrom(j, n, n);
    SlotFrom(row, n, num);
    SlotFrom(row, n, n);
    if row < k {
      RowsApart(row, k, n);
    } else if k < row {
      RowsApart(k, row, n);
    }
    hide Slot;
  }

  lemma {:induction false} RowFits(k: nat, sz: nat, n: nat)
    requires k < sz
    ensures Slot(k, n, n) <= Slot(sz, n, 0)
  {
    RowsApart(k, sz, n);
  }

  /** Copies row j of src to row k of dst: every field both rules have with the same
      type becomes that of src, and nothing else changes, whichever way it is done. */
  method CpyPrm(j: nat, src: Param?, k: nat, dst: Param?)
    requires src != null && dst != null ==> src.Valid() && dst.Valid() && j < src.sz && k < dst.sz && src.r.numCopy == 0
    modifies dst
    ensures src == null && dst != null ==> dst.f == old(dst.f) && dst.i == old(dst.i) && dst.s == old(dst.s) && dst.t == old(dst.t)
    ensures src != null && dst != null ==> dst.Valid() && src.Valid() && RowOf(j, src, k, dst)
    ensures src != null && dst != null && src.r == dst.r ==> AllRows(dst) == old(AllRows(dst))[k := old(AllRows(src))[j]]
  {
    if src == null || dst == null {
      return;
    }
    if src.r == dst.r {
      CpyBlock(j, src, k, dst);
    } else {
      CpyFields(j, src, k, dst);
    }
  }

  twostate predicate RowOf(j: nat, src: Param, k: nat, dst: Param)
    requires old(src.Valid()) && old(dst.Valid()) && dst.Valid() && j < src.sz && k < dst.sz
    requires src.r.translate == old(src.r.translate) && dst.r.translate == old(dst.r.translate)
    reads src, src.r, dst, dst.r
  {
    forall row: nat, m: Meta :: row < dst.sz && dst.Has(m) ==>
      dst.Cell(row, m) == if row == k && dst.Common(src.r, m) then old(src.Cell(j, m)) else old(dst.Cell(row, m))
  }

  /** One rule: the columns agree and whole rows are copied. */
  method CpyBlock(j: nat, src: Param, k: nat, dst: Param)
    requires src.Valid() && dst.Valid() && j < src.sz && k < dst.sz && src.r == dst.r
    modifies dst
    ensures dst.Valid() && src.Valid() && RowOf(j, src, k, dst)
    ensures AllRows(dst) == old(AllRows(dst))[k := old(AllRows(src))[j]]
  {
    ghost var was, from := AllRows(dst), AllRows(src)[j];
    CpyColumns(j, src, k, dst);
    assert CellsOf(dst, k) == from by {
      RowIs(dst, k, from);
    }
    forall row | 0 <= row < dst.sz && row != k ensures CellsOf(dst, row) == was[row] {
      RowIs(dst, row, was[row]);
    }
    assert AllRows(dst) == was[k := from];
  }

  method CpyColumns(j: nat, src: Param, k: nat, dst: Param)
    requires src.Valid() && dst.Valid() && j < src.sz && k < dst.sz && src.r == dst.r
    modifies dst
    ensures dst.Valid() && src.Valid() && RowOf(j, src, k, dst)
  {
    RowsInside(j, src, k, dst);
    var r := src.r;
    ghost var sf, si, ss, st := src.f, src.i, src.s, src.t;
    ghost var df, di, ds, dt := dst.f, dst.i, dst.s, dst.t;
    hide Slot, RowCopied, Dense;
    dst.f := CopyRow(dst.f, k, src.f, j, r.numFloat, src == dst);
    dst.i := CopyRow(dst.i, k, src.i, j, r.numLong, src == dst);
    dst.s := CopyRow(dst.s, k, src.s, j, r.numShort, src == dst);
    dst.t := CopyRow(dst.t, k, src.t, j, r.numIndex, src == dst);
    forall row: nat, m: Meta | row < dst.sz && dst.Has(m)
      ensures dst.Cell(row, m) == if row == k && dst.Common(src.r, m) then old(src.Cell(j, m)) else old(dst.Cell(row, m))
    {
      dst.SlotInside(row, m);
      var num := r.translate[m].num;
      match r.translate[m].kind
      case Float => RowCopiedAt(df, k, sf, j, r.numFloat, row, num);
      case Long => RowCopiedAt(di, k, si, j, r.numLong, row, num);
      case Short => RowCopiedAt(ds, k, ss, j, r.numShort, row, num);
      case Index => RowCopiedAt(dt, k, st, j, r.numIndex, row, num);
    }
  }

  /** The row fits, in every column of both structures. */
  lemma {:induction false} RowsInside(j: nat, src: Param, k: nat, dst: Param)
    requires src.Valid() && dst.Valid() && j < src.sz && k < dst.sz && src.r == dst.r
    ensures ColumnFits(dst.f, k, src.f, j, src.r.numFloat) && ColumnFits(dst.i, k, src.i, j, src.r.numLong)
    ensures ColumnFits(dst.s, k, src.s, j, src.r.numShort) && ColumnFits(dst.t, k, src.t, j, src.r.numIndex)
  {
    forall n: nat ensures Slot(k, n, n) <= Slot(dst.sz, n, 0) && Slot(j, n, n) <= Slot(src.sz, n, 0) {
      RowFits(k, dst.sz, n);
      RowFits(j, src.sz, n);
    }
  }

  ghost predicate ColumnFits<T>(d: seq<T>, k: nat, s: seq<T>, j: nat, n: nat) {
    Slot(k, n, n) <= |d| && Slot(j, n, n) <= |s|
  }

  /** Two rules: field by field, in whatever order the map of the source is walked. */
  method CpyFields(j: nat, src: Param, k: nat, dst: Param)
    requires src.Valid() && dst.Valid() && j < src.sz && k < dst.sz && src.r != dst.r
    modifies dst
    ensures dst.Valid() && src.Valid() && RowOf(j, src, k, dst)
  {
    var todo := src.r.translate.Keys;
    while todo != {}
      invariant todo <= src.r.translate.Keys && dst.Valid() && src.Valid()
      invariant forall row: nat, m: Meta :: row < dst.sz && dst.Has(m) ==>
        dst.Cell(row, m) == if row == k && dst.Common(src.r, m) && m !in todo then src.Cell(j, m) else old(dst.Cell(row, m))
    {
      var m :| m in todo;
      todo := todo - {m};
      if m in dst.r.translate {
        var dent, sent := dst.r.translate[m], src.r.translate[m];
        if dent.kind == sent.kind && dent.kind != Copy {
          dst.Store(k, m, src.Cell(j, m));
        }
      }
    }
  }
}
