/**
 Trace parameters to and from the bytes of the trace header.
 */
module HeaderCodec {
  import opened Bytes
  import opened Decomposition
  import opened Scale
  import opened SharedScale
  import opened RuleTable
  import opened Params
  import opened HeaderBytes

  /** The bytes of a trace header. */
  const MD_SZ := 240

  // ------------------------------------------------------------------------ layout

  function Width(k: MdType): nat {
    match k
    case Long => 4
    case Short => 2
    case Float => 4
    case Index => 0
    case Copy => 0
  }

  /** The field has bytes of its own in the header, from byte `loc` on, counted from 1. */
  predicate Printed(table: Table, m: Meta) {
    m in table && table[m].kind in {Long, Short, Float}
  }

  predicate IsFloat(table: Table, m: Meta) {
    m in table && table[m].kind == Float
  }

  /** Everything lies inside the header and nothing overlaps, except that Floats may
      share a whole scale field. */
  ghost predicate Layout(table: Table) {
    && (forall m :: Printed(table, m) ==> 1 <= table[m].loc <= MD_SZ + 1 - Width(table[m].kind))
    && (forall m :: IsFloat(table, m) ==> 1 <= table[m].scalLoc <= MD_SZ - 1)
    && (forall m, m' :: Printed(table, m) && Printed(table, m') && m != m' ==>
          Disjoint(table[m].loc, Width(table[m].kind), table[m'].loc, Width(table[m'].kind)))
    && (forall m, m' :: Printed(table, m) && IsFloat(table, m') ==>
          Disjoint(table[m].loc, Width(table[m].kind), table[m'].scalLoc, 2))
    && (forall m, m' :: IsFloat(table, m) && IsFloat(table, m') ==>
          table[m].scalLoc == table[m'].scalLoc || Disjoint(table[m].scalLoc, 2, table[m'].scalLoc, 2))
  }

  /** The standard places do not overlap, whichever of the fields a rule picks. */
  lemma {:induction false} PredefinedLayout(table: Table)
    requires forall m :: Printed(table, m) ==> Predefined(m).Some? && SameField(table[m], Predefined(m).value)
    ensures Layout(table)
  {
    forall m | Printed(table, m) ensures 1 <= table[m].loc <= MD_SZ + 1 - Width(table[m].kind) {
      PredefinedInside(m);
    }
    forall m | IsFloat(table, m) ensures 1 <= table[m].scalLoc <= MD_SZ - 1 {
      assert Printed(table, m);
      PredefinedInside(m);
    }
    forall m, m' | Printed(table, m) && Printed(table, m') && m != m'
      ensures Disjoint(table[m].loc, Width(table[m].kind), table[m'].loc, Width(table[m'].kind))
    {
      PredefinedApart(m, m');
    }
    forall m, m' | Printed(table, m) && IsFloat(table, m')
      ensures Disjoint(table[m].loc, Width(table[m].kind), table[m'].scalLoc, 2)
    {
      assert Printed(table, m');
      PredefinedInside(m);
      PredefinedInside(m');
    }
    forall m, m' | IsFloat(table, m) && IsFloat(table, m')
      ensures table[m].scalLoc == table[m'].scalLoc || Disjoint(table[m].scalLoc, 2, table[m'].scalLoc, 2)
    {
      assert Printed(table, m) && Printed(table, m');
      PredefinedInside(m);
      PredefinedInside(m');
    }
    hide *;
  }

  lemma {:induction false} PredefinedInside(m: Meta)
    requires Predefined(m).Some?
    ensures var e := Predefined(m).value;
            && (e.kind != Copy ==> 1 <= e.loc <= MD_SZ + 1 - Width(e.kind))
            && (e.kind == Float ==> e.scalLoc == 69 || e.scalLoc == 71 || e.scalLoc == 201)
            && (e.kind != Copy ==> forall sl :: sl == 69 || sl == 71 || sl == 201 ==> Disjoint(e.loc, Width(e.kind), sl, 2))
  {
  }

  lemma {:induction false} PredefinedApart(m: Meta, m': Meta)
    requires m != m' && Predefined(m).Some? && Predefined(m').Some?
    requires Predefined(m).value.kind != Copy && Predefined(m').value.kind != Copy
    ensures var e, e' := Predefined(m).value, Predefined(m').value;
            Disjoint(e.loc, Width(e.kind), e'.loc, Width(e'.kind))
  {
  }

  // ----------------------------------------------------------- what a header says

  /** The scales of the fields among `keys` that share the scale field at `sl`. */
  ghost function ScalesAt(keys: set<Meta>, table: Table, cells: Cells, sl: nat): set<int>
    requires Typed(table, cells)
  {
    set m | m in keys && IsFloat(table, m) && table[m].scalLoc == sl :: Descaled(cells[m].x)
  }

  ghost predicate Room(s: seq<Byte>, base: nat, table: Table) {
    base + MD_SZ <= |s| && Layout(table)
  }

  /** The scale stored for a Float. */
  function ScaleOf(s: seq<Byte>, base: nat, table: Table, m: Meta): int
    requires Room(s, base, table) && IsFloat(table, m)
  {
    Word16(s, base + table[m].scalLoc - 1)
  }

  /** A whole-number field holds its value, cut to the width of the field. */
  ghost predicate WholeWritten(s: seq<Byte>, base: nat, table: Table, cells: Cells, m: Meta)
    requires Room(s, base, table) && Typed(table, cells) && Printed(table, m)
  {
    match table[m].kind
    case Short => Word16(s, base + table[m].loc - 1) == cells[m].n
    case Long => Word32(s, base + table[m].loc - 1) == Wrap32(cells[m].n)
    case _ => true
  }

  /** A Float field holds its value in units of the scale. */
  ghost predicate FloatWritten(s: seq<Byte>, base: nat, table: Table, cells: Cells, m: Meta, scale: int)
    requires Room(s, base, table) && Typed(table, cells) && IsFloat(table, m)
  {
    Word32(s, base + table[m].loc - 1) == Wrap32(Stored(cells[m].x, scale))
  }

  /** The header at `base` says exactly what the cells say. */
  ghost predicate Encodes(s: seq<Byte>, base: nat, table: Table, cells: Cells) {
    && Room(s, base, table) && Typed(table, cells)
    && (forall m :: Printed(table, m) ==> WholeWritten(s, base, table, cells, m))
    && (forall m :: IsFloat(table, m) ==>
          && IsShared(ScalesAt(table.Keys, table, cells, table[m].scalLoc), ScaleOf(s, base, table, m))
          && FloatWritten(s, base, table, cells, m, ScaleOf(s, base, table, m)))
  }

  /** The value of a field as read from the header. */
  function Read(s: seq<Byte>, base: nat, table: Table, m: Meta): (v: Value)
    requires Room(s, base, table) && Printed(table, m)
    ensures InType(table[m].kind, v)
  {
    match table[m].kind
    case Short => Whole(Word16(s, base + table[m].loc - 1))
    case Long => Whole(Word32(s, base + table[m].loc - 1))
    case Float => Real(Decoded(Word32(s, base + table[m].loc - 1), ScaleOf(s, base, table, m)))
  }

  ghost predicate Decodes(s: seq<Byte>, base: nat, table: Table, cells: Cells) {
    && Room(s, base, table) && Typed(table, cells)
    && forall m :: Printed(table, m) ==> cells[m] == Read(s, base, table, m)
  }

  /** The scale that a Float of the row will be stored with. */
  ghost function RowScale(table: Table, cells: Cells, m: Meta): int
    requires Typed(table, cells) && IsFloat(table, m)
  {
    Shared(ScalesAt(table.Keys, table, cells, table[m].scalLoc))
  }

  /** Every number to be stored for a Float fits 32 bits. */
  ghost predicate FloatsFit(table: Table, cells: Cells)
    requires Typed(table, cells)
  {
    forall m :: IsFloat(table, m) ==> Fits32(Stored(cells[m].x, RowScale(table, cells, m)))
  }

  /** The scale found in a header is the one that follows from the row. */
  lemma {:induction false} ScaleFromRow(s: seq<Byte>, base: nat, table: Table, cells: Cells, m: Meta)
    requires Encodes(s, base, table, cells) && IsFloat(table, m)
    ensures ScaleOf(s, base, table, m) == RowScale(table, cells, m)
    ensures FloatWritten(s, base, table, cells, m, ScaleOf(s, base, table, m)) && Printed(table, m)
  {
    hide ScalesAt, IsShared, WholeWritten, FloatWritten, Layout;
    SharedUnique(ScalesAt(table.Keys, table, cells, table[m].scalLoc), ScaleOf(s, base, table, m), RowScale(table, cells, m));
  }

  /** While four decimal places of every Float fit 32 bits, so do the numbers stored. */
  lemma {:induction false} FourPlacesFit(table: Table, cells: Cells)
    requires Typed(table, cells) && forall m :: IsFloat(table, m) ==> Fits32(Places(cells[m].x))
    ensures FloatsFit(table, cells)
  {
    hide Places, Stored, Descaled, Shared;
    forall m | IsFloat(table, m) ensures Fits32(Stored(cells[m].x, RowScale(table, cells, m))) {
      var t := RowScale(table, cells, m);
      if t != 1 {
        var u :| IsFloat(table, u) && Descaled(cells[u].x) == t;
        FourPlacesKept(cells[u].x);
        ScaleNotNull(cells[u].x);
      }
      PlacesBound(cells[m].x, t);
    }
  }

  lemma {:induction false} ScaleNotNull(val: real)
    requires Fits32(Places(val))
    ensures Descaled(val) == 1 || Decade(-Descaled(val))
  {
    SmallWhole(val);
    hide Chosen, Trunc, Places;
  }

  // -------------------------------------------------------------------- round trips

  /** Writing and then reading. A 32-bit field comes back exactly if its value fits; a
      Float comes back within half a unit of the scale of its row exactly if the
      number stored fits. */
  lemma {:induction false} WriteThenRead(s: seq<Byte>, base: nat, table: Table, cells: Cells, back: Cells, m: Meta)
    requires Encodes(s, base, table, cells) && Decodes(s, base, table, back) && Printed(table, m)
    ensures table[m].kind == Short ==> back[m] == cells[m]
    ensures table[m].kind == Long ==> (back[m] == cells[m] <==> Fits32(cells[m].n))
    ensures table[m].kind == Float ==>
              (Near(back[m].x, cells[m].x, ScaleConv(RowScale(table, cells, m)) / 2.0)
               <==> Fits32(Stored(cells[m].x, RowScale(table, cells, m))))
  {
    hide ScaleConv, Stored, Decoded, Near, RowScale, IsShared, ScalesAt, Layout;
    if table[m].kind == Float {
      ScaleFromRow(s, base, table, cells, m);
      NearExactness(cells[m].x, RowScale(table, cells, m));
    }
  }

  /** What has once been read from a written header is written and read again without
      any change. */
  lemma {:induction false} SecondTripChangesNothing(s: seq<Byte>, s': seq<Byte>, base: nat, table: Table,
                                                    cells: Cells, back: Cells, again: Cells, m: Meta)
    requires Encodes(s, base, table, cells) && Decodes(s, base, table, back)
    requires Encodes(s', base, table, back) && Decodes(s', base, table, again)
    requires Printed(table, m)
    ensures again[m] == back[m]
  {
    if table[m].kind == Float {
      FloatAgain(s, s', base, table, cells, back, m);
    }
  }

  /** The values that share a scale field. */
  ghost function Sharing(table: Table, cells: Cells, sl: nat): set<real>
    requires Typed(table, cells)
  {
    set m | m in table && IsFloat(table, m) && table[m].scalLoc == sl :: cells[m].x
  }

  lemma {:induction false} FloatAgain(s: seq<Byte>, s': seq<Byte>, base: nat, table: Table, cells: Cells,
                                      back: Cells, m: Meta)
    requires Encodes(s, base, table, cells) && Decodes(s, base, table, back)
    requires Encodes(s', base, table, back) && IsFloat(table, m)
    ensures Read(s', base, table, m) == back[m]
  {
    var sl := table[m].scalLoc;
    var scale, scale' := ScaleOf(s, base, table, m), ScaleOf(s', base, table, m);
    var vals := Sharing(table, back, sl);
    assert FloatWritten(s', base, table, back, m, scale');
    assert back[m].x in vals;
    SharedIsScale(table, cells, sl, scale);
    BackOnGrid(s, base, table, cells, back, m);
    SameScales(table, back, sl);
    SharedGrid(vals, scale, scale');
    GridRoundTrip(back[m].x, scale');
    hide OnGrid, Stored, Decoded, Sharing, ScalesAt, IsShared, Encodes, Layout, Word16, Word32;
  }

  /** What is read back lies on the grid of the shared scale. */
  lemma {:induction false} BackOnGrid(s: seq<Byte>, base: nat, table: Table, cells: Cells, back: Cells, m: Meta)
    requires Encodes(s, base, table, cells) && Decodes(s, base, table, back)
    requires IsFloat(table, m)
    ensures forall v :: v in Sharing(table, back, table[m].scalLoc) ==> OnGrid(v, ScaleOf(s, base, table, m))
  {
    var sl, scale := table[m].scalLoc, ScaleOf(s, base, table, m);
    FoundIsScale(s, base, table, cells, m);
    hide OnGrid, Decoded, Layout, Encodes, Decodes, ScalesAt, IsShared, Sharing, Word16, Word32, Typed;
    forall v | v in Sharing(table, back, sl) ensures OnGrid(v, scale) {
      ValueOnGrid(s, base, table, back, m, v);
    }
  }

  lemma {:induction false} FoundIsScale(s: seq<Byte>, base: nat, table: Table, cells: Cells, m: Meta)
    requires Encodes(s, base, table, cells) && IsFloat(table, m)
    ensures Room(s, base, table) && IsScale(ScaleOf(s, base, table, m))
  {
    var scale := ScaleOf(s, base, table, m);
    assert FloatWritten(s, base, table, cells, m, scale);
    hide FloatWritten, Layout, ScalesAt, IsShared, Word16;
    SharedIsScale(table, cells, table[m].scalLoc, scale);
  }

  lemma {:induction false} ValueOnGrid(s: seq<Byte>, base: nat, table: Table, back: Cells, m: Meta, v: real)
    requires Decodes(s, base, table, back) && IsFloat(table, m) && v in Sharing(table, back, table[m].scalLoc)
    requires IsScale(ScaleOf(s, base, table, m))
    ensures OnGrid(v, ScaleOf(s, base, table, m))
  {
    hide *;
    var u := SharedBy(s, base, table, back, m, v);
    FloatReads(s, base, table, back, u);
    var n := Word32(s, base + table[u].loc - 1);
    WordFits(s, base + table[u].loc - 1);
    DecodedOnGrid(n, ScaleOf(s, base, table, m));
  }

  lemma {:induction false} WordFits(s: seq<Byte>, at: nat)
    requires at + 4 <= |s|
    ensures Fits32(Word32(s, at))
  {
  }

  /** A field that has the value and the scale of m. */
  lemma {:induction false} SharedBy(s: seq<Byte>, base: nat, table: Table, back: Cells, m: Meta, v: real) returns (u: Meta)
    requires Decodes(s, base, table, back) && IsFloat(table, m) && v in Sharing(table, back, table[m].scalLoc)
    ensures Room(s, base, table) && IsFloat(table, u) && ScaleOf(s, base, table, u) == ScaleOf(s, base, table, m)
    ensures u in table && u in back && back[u] == Real(v)
  {
    u :| u in table && IsFloat(table, u) && table[u].scalLoc == table[m].scalLoc && back[u].x == v;
    hide Layout, Word16, Read;
  }

  lemma {:induction false} FloatReads(s: seq<Byte>, base: nat, table: Table, back: Cells, m: Meta)
    requires Decodes(s, base, table, back) && IsFloat(table, m)
    ensures 1 <= table[m].loc <= MD_SZ - 3 && base + MD_SZ <= |s|
    ensures back[m] == Real(Decoded(Word32(s, base + table[m].loc - 1), ScaleOf(s, base, table, m)))
  {
    assert Printed(table, m);
    hide Decoded, Word32, Word16;
  }

  lemma {:induction false} SameScales(table: Table, cells: Cells, sl: nat)
    requires Typed(table, cells)
    ensures (set v | v in Sharing(table, cells, sl) :: Descaled(v)) == ScalesAt(table.Keys, table, cells, sl)
  {
    var vals, scales := Sharing(table, cells, sl), ScalesAt(table.Keys, table, cells, sl);
    forall x | x in scales ensures exists v :: v in vals && Descaled(v) == x {
      var m :| m in table.Keys && IsFloat(table, m) && table[m].scalLoc == sl && Descaled(cells[m].x) == x;
      assert cells[m].x in vals;
    }
    forall v | v in vals ensures Descaled(v) in scales {
      var m :| m in table && IsFloat(table, m) && table[m].scalLoc == sl && cells[m].x == v;
      assert m in table.Keys;
    }
  }

  lemma {:induction false} SharedIsScale(table: Table, cells: Cells, sl: nat, scale: int)
    requires Typed(table, cells) && IsShared(ScalesAt(table.Keys, table, cells, sl), scale)
    ensures IsScale(scale)
  {
  }

  /** The bytes of a field are determined by what the header says, so it does not
      matter in which order the rule is walked. */
  lemma {:induction false} EncodingUnique(s: seq<Byte>, s': seq<Byte>, base: nat, table: Table, cells: Cells, m: Meta)
    requires Encodes(s, base, table, cells) && Encodes(s', base, table, cells) && Printed(table, m)
    ensures var at := base + table[m].loc - 1;
            s[at..at + Width(table[m].kind)] == s'[at..at + Width(table[m].kind)]
    ensures table[m].kind == Float ==>
              var at := base + table[m].scalLoc - 1;
              s[at..at + 2] == s'[at..at + 2]
  {
    var at := base + table[m].loc - 1;
    if table[m].kind == Float {
      SharedUnique(ScalesAt(table.Keys, table, cells, table[m].scalLoc), ScaleOf(s, base, table, m), ScaleOf(s', base, table, m));
      var sat := base + table[m].scalLoc - 1;
      SameWord16(s, s', sat);
      SameWord32(s, s', at);
    } else if table[m].kind == Long {
      SameWord32(s, s', at);
    } else {
      SameWord16(s, s', at);
    }
  }

  lemma {:induction false} SameWord16(s: seq<Byte>, s': seq<Byte>, at: nat)
    requires at + 2 <= |s| && at + 2 <= |s'| && Word16(s, at) == Word16(s', at)
    ensures s[at..at + 2] == s'[at..at + 2]
  {
    BigEndianOfHost16(s[at..at + 2]);
    BigEndianOfHost16(s'[at..at + 2]);
  }

  lemma {:induction false} SameWord32(s: seq<Byte>, s': seq<Byte>, at: nat)
    requires at + 4 <= |s| && at + 4 <= |s'| && Word32(s, at) == Word32(s', at)
    ensures s[at..at + 4] == s'[at..at + 4]
  {
    BigEndianOfHost32(s[at..at + 4]);
    BigEndianOfHost32(s'[at..at + 4]);
  }

  // ------------------------------------------------------------ writing one header

  /** Byte q of a header belongs to a field. */
  ghost predicate FieldByte(table: Table, q: int) {
    || (exists m :: Printed(table, m) && table[m].loc - 1 <= q < table[m].loc - 1 + Width(table[m].kind))
    || (exists m :: IsFloat(table, m) && table[m].scalLoc - 1 <= q < table[m].scalLoc + 1)
  }

  /** Nothing but bytes of fields of the header at `base` has changed. */
  ghost predicate Kept(before: seq<Byte>, s: seq<Byte>, base: nat, table: Table) {
    && |before| == |s|
    && forall p :: 0 <= p < |s| && !FieldByte(table, p - base) ==> s[p] == before[p]
  }

  /** The whole-number fields among `done` are written. */
  ghost predicate WholesWritten(s: seq<Byte>, base: nat, table: Table, cells: Cells, done: set<Meta>)
    requires Room(s, base, table) && Typed(table, cells)
  {
    forall m :: Printed(table, m) && m in done ==> WholeWritten(s, base, table, cells, m)
  }

  ghost predicate ScaleField(table: Table, sl: nat) {
    exists m :: IsFloat(table, m) && table[m].scalLoc == sl
  }

  /** The scales found so far. */
  ghost predicate ScalesFound(scal: map<nat, int>, table: Table, cells: Cells, done: set<Meta>)
    requires Typed(table, cells)
  {
    && (forall sl :: sl in scal ==> ScaleField(table, sl) && IsShared(ScalesAt(done, table, cells, sl), scal[sl]))
    && forall m :: IsFloat(table, m) && m in done ==> table[m].scalLoc in scal
  }

  ghost predicate ScalesWritten(s: seq<Byte>, base: nat, table: Table, scal: map<nat, int>, done: set<nat>)
    requires Room(s, base, table)
  {
    forall sl :: sl in done && sl in scal ==> ScaleField(table, sl) && Word16(s, base + sl - 1) == scal[sl]
  }

  ghost predicate FloatsWritten(s: seq<Byte>, base: nat, table: Table, cells: Cells, scal: map<nat, int>, done: set<Meta>)
    requires Room(s, base, table) && Typed(table, cells)
  {
    forall m :: IsFloat(table, m) && m in done ==>
      table[m].scalLoc in scal && FloatWritten(s, base, table, cells, m, scal[table[m].scalLoc])
  }

  /** Writing the bytes of one field leaves the other bytes alone. */
  lemma {:induction false} PutKeeps(before: seq<Byte>, s: seq<Byte>, base: nat, table: Table, m: Meta, b: seq<Byte>)
    requires Room(s, base, table) && Kept(before, s, base, table) && Printed(table, m) && |b| == Width(table[m].kind)
    ensures Kept(before, Splice(s, base + table[m].loc - 1, b), base, table)
  {
    var at := base + table[m].loc - 1;
    var r := Splice(s, at, b);
    forall p | 0 <= p < |r| && !FieldByte(table, p - base) ensures r[p] == before[p] {
      assert !(at <= p < at + |b|);
      assert r[p] == s[p];
    }
  }

  lemma {:induction false} PutScaleKeeps(before: seq<Byte>, s: seq<Byte>, base: nat, table: Table, sl: nat, b: seq<Byte>)
    requires Room(s, base, table) && Kept(before, s, base, table) && ScaleField(table, sl) && |b| == 2
    ensures 1 <= sl <= MD_SZ - 1 && Kept(before, Splice(s, base + sl - 1, b), base, table)
  {
    var m :| IsFloat(table, m) && table[m].scalLoc == sl;
    var at := base + sl - 1;
    var r := Splice(s, at, b);
    forall p | 0 <= p < |r| && !FieldByte(table, p - base) ensures r[p] == before[p] {
      assert !(at <= p < at + 2);
      assert r[p] == s[p];
    }
  }

  /** Writing one field leaves every other field alone. */
  lemma {:induction false} OtherField(s: seq<Byte>, base: nat, table: Table, m: Meta, b: seq<Byte>, m': Meta)
    requires Room(s, base, table) && Printed(table, m) && |b| == Width(table[m].kind) && Printed(table, m') && m != m'
    ensures var r, at := Splice(s, base + table[m].loc - 1, b), base + table[m'].loc - 1;
            r[at..at + Width(table[m'].kind)] == s[at..at + Width(table[m'].kind)]
  {
    SpliceElsewhere(s, base + table[m].loc - 1, b, base + table[m'].loc - 1, Width(table[m'].kind));
  }

  lemma {:induction false} OtherScale(s: seq<Byte>, base: nat, table: Table, m: Meta, b: seq<Byte>, sl: nat)
    requires Room(s, base, table) && Printed(table, m) && |b| == Width(table[m].kind) && ScaleField(table, sl)
    ensures 1 <= sl <= MD_SZ - 1
    ensures Word16(Splice(s, base + table[m].loc - 1, b), base + sl - 1) == Word16(s, base + sl - 1)
  {
    SpliceElsewhere(s, base + table[m].loc - 1, b, base + sl - 1, 2);
  }

  lemma {:induction false} ScaleElsewhere(s: seq<Byte>, base: nat, table: Table, sl: nat, b: seq<Byte>, m: Meta)
    requires Room(s, base, table) && ScaleField(table, sl) && |b| == 2 && Printed(table, m)
    ensures 1 <= sl <= MD_SZ - 1
    ensures var r, at := Splice(s, base + sl - 1, b), base + table[m].loc - 1;
            r[at..at + Width(table[m].kind)] == s[at..at + Width(table[m].kind)]
  {
    SpliceElsewhere(s, base + sl - 1, b, base + table[m].loc - 1, Width(table[m].kind));
  }

  lemma {:induction false} ScalesElsewhere(s: seq<Byte>, base: nat, table: Table, sl: nat, b: seq<Byte>, sl': nat)
    requires Room(s, base, table) && ScaleField(table, sl) && |b| == 2 && ScaleField(table, sl') && sl != sl'
    ensures 1 <= sl <= MD_SZ - 1 && 1 <= sl' <= MD_SZ - 1
    ensures Word16(Splice(s, base + sl - 1, b), base + sl' - 1) == Word16(s, base + sl' - 1)
  {
    SpliceElsewhere(s, base + sl - 1, b, base + sl' - 1, 2);
  }

  /** One whole-number field more. */
  lemma {:induction false} WholeStep(s: seq<Byte>, base: nat, table: Table, cells: Cells, done: set<Meta>, m: Meta,
                                     b: seq<Byte>)
    requires Room(s, base, table) && Typed(table, cells) && WholesWritten(s, base, table, cells, done)
    requires Printed(table, m) && table[m].kind != Float
    requires b == if table[m].kind == Short then BigEndian16(cells[m].n) else BigEndian32(Wrap32(cells[m].n))
    ensures var r := Splice(s, base + table[m].loc - 1, b);
            Room(r, base, table) && WholesWritten(r, base, table, cells, done + {m})
  {
    var at := base + table[m].loc - 1;
    var r := Splice(s, at, b);
    SpliceHere(s, at, b);
    if table[m].kind == Short {
      HostOfBigEndian16(cells[m].n);
    } else {
      HostOfBigEndian32(Wrap32(cells[m].n));
    }
    hide BigEndian16, BigEndian32, GetHost16, GetHost32, Splice, Layout;
    assert Room(r, base, table) && WholeWritten(r, base, table, cells, m);
    hide WholeWritten;
    forall m' | Printed(table, m') && m' in done + {m} ensures WholeWritten(r, base, table, cells, m') {
      if m' != m {
        OtherWhole(s, base, table, cells, m, b, m');
      }
    }
  }

  lemma {:induction false} OtherWhole(s: seq<Byte>, base: nat, table: Table, cells: Cells, m: Meta, b: seq<Byte>, m': Meta)
    requires Room(s, base, table) && Typed(table, cells)
    requires Printed(table, m) && |b| == Width(table[m].kind) && Printed(table, m') && m != m'
    requires WholeWritten(s, base, table, cells, m')
    ensures var r := Splice(s, base + table[m].loc - 1, b);
            Room(r, base, table) && WholeWritten(r, base, table, cells, m')
  {
    OtherField(s, base, table, m, b, m');
    hide GetHost16, GetHost32, Splice, Layout;
  }

  /** One Float more: its scale is merged into the one it shares. */
  lemma {:induction false} ScaleStep(scal: map<nat, int>, table: Table, cells: Cells, done: set<Meta>, m: Meta)
    requires Typed(table, cells) && ScalesFound(scal, table, cells, done) && IsFloat(table, m) && m !in done
    ensures var sl := table[m].scalLoc;
            var merged := Merge(if sl in scal then scal[sl] else 1, Descaled(cells[m].x));
            ScalesFound(scal[sl := merged], table, cells, done + {m})
  {
    assert m in cells && cells[m].Real?;
    hide Merge, Descaled, IsShared, Typed;
    var sl := table[m].scalLoc;
    var scal1 := if sl in scal then scal[sl] else 1;
    var more := scal[sl := Merge(scal1, Descaled(cells[m].x))];
    ScaleSoFar(scal, table, cells, done, sl);
    SharedMerge(ScalesAt(done, table, cells, sl), scal1, Descaled(cells[m].x));
    ScalesWith(table, cells, done, m);
    hide ScalesAt;
    assert ScaleField(table, sl);
    forall sl' | sl' in more ensures ScaleField(table, sl') && IsShared(ScalesAt(done + {m}, table, cells, sl'), more[sl']) {
      if sl' != sl {
        assert sl' in scal && more[sl'] == scal[sl'];
        assert ScalesAt(done + {m}, table, cells, sl') == ScalesAt(done, table, cells, sl');
      }
    }
  }

  lemma {:induction false} ScaleSoFar(scal: map<nat, int>, table: Table, cells: Cells, done: set<Meta>, sl: nat)
    requires Typed(table, cells) && ScalesFound(scal, table, cells, done)
    ensures IsShared(ScalesAt(done, table, cells, sl), if sl in scal then scal[sl] else 1)
  {
    hide Descaled, Typed;
    if sl !in scal {
      assert ScalesAt(done, table, cells, sl) == {};
    }
  }

  lemma {:induction false} ScalesWith(table: Table, cells: Cells, done: set<Meta>, m: Meta)
    requires Typed(table, cells) && IsFloat(table, m)
    ensures ScalesAt(done + {m}, table, cells, table[m].scalLoc) ==
            ScalesAt(done, table, cells, table[m].scalLoc) + {Descaled(cells[m].x)}
    ensures forall sl :: sl != table[m].scalLoc ==> ScalesAt(done + {m}, table, cells, sl) == ScalesAt(done, table, cells, sl)
  {
    hide Descaled;
    forall sl | sl != table[m].scalLoc ensures ScalesAt(done + {m}, table, cells, sl) == ScalesAt(done, table, cells, sl) {
    }
  }

  lemma {:induction false} ScaleSkip(scal: map<nat, int>, table: Table, cells: Cells, done: set<Meta>, m: Meta)
    requires Typed(table, cells) && ScalesFound(scal, table, cells, done) && !IsFloat(table, m)
    ensures ScalesFound(scal, table, cells, done + {m})
  {
    forall sl ensures ScalesAt(done + {m}, table, cells, sl) == ScalesAt(done, table, cells, sl) {
    }
  }

  /** One scale field more. */
  lemma {:induction false} ScaleFieldStep(s: seq<Byte>, base: nat, table: Table, cells: Cells, scal: map<nat, int>,
                                          done: set<nat>, sl: nat)
    requires Room(s, base, table) && Typed(table, cells)
    requires WholesWritten(s, base, table, cells, table.Keys) && ScalesWritten(s, base, table, scal, done)
    requires sl in scal && ScaleField(table, sl) && Fits16(scal[sl])
    ensures 1 <= sl <= MD_SZ - 1
    ensures var r := Splice(s, base + sl - 1, BigEndian16(scal[sl]));
            && Room(r, base, table) && WholesWritten(r, base, table, cells, table.Keys)
            && ScalesWritten(r, base, table, scal, done + {sl})
  {
    PutScaleKeeps(s, s, base, table, sl, BigEndian16(scal[sl]));
    WholesKeptByScale(s, base, table, cells, sl, BigEndian16(scal[sl]));
    var r := Splice(s, base + sl - 1, BigEndian16(scal[sl]));
    SpliceHere(s, base + sl - 1, BigEndian16(scal[sl]));
    HostOfBigEndian16(scal[sl]);
    hide BigEndian16, GetHost16, GetHost32, Splice, Layout, WholesWritten;
    forall sl' | sl' in done + {sl} && sl' in scal ensures ScaleField(table, sl') && Word16(r, base + sl' - 1) == scal[sl'] {
      if sl' != sl {
        ScalesElsewhere(s, base, table, sl, BigEndian16(scal[sl]), sl');
      }
    }
  }

  lemma {:induction false} WholesKeptByScale(s: seq<Byte>, base: nat, table: Table, cells: Cells, sl: nat, b: seq<Byte>)
    requires Room(s, base, table) && Typed(table, cells) && WholesWritten(s, base, table, cells, table.Keys)
    requires ScaleField(table, sl) && 1 <= sl <= MD_SZ - 1 && |b| == 2
    ensures var r := Splice(s, base + sl - 1, b);
            Room(r, base, table) && WholesWritten(r, base, table, cells, table.Keys)
  {
    var r := Splice(s, base + sl - 1, b);
    hide GetHost16, GetHost32, Splice, Layout;
    forall m | Printed(table, m) ensures WholeWritten(r, base, table, cells, m) {
      ScaleElsewhere(s, base, table, sl, b, m);
    }
  }

  /** One Float field more. */
  lemma {:induction false} FloatStep(s: seq<Byte>, base: nat, table: Table, cells: Cells, scal: map<nat, int>,
                                     done: set<Meta>, m: Meta, b: seq<Byte>)
    requires Room(s, base, table) && Typed(table, cells)
    requires WholesWritten(s, base, table, cells, table.Keys) && ScalesWritten(s, base, table, scal, scal.Keys)
    requires FloatsWritten(s, base, table, cells, scal, done)
    requires IsFloat(table, m) && table[m].scalLoc in scal
    requires b == BigEndian32(Wrap32(Stored(cells[m].x, scal[table[m].scalLoc])))
    ensures var r := Splice(s, base + table[m].loc - 1, b);
            && Room(r, base, table) && WholesWritten(r, base, table, cells, table.Keys)
            && ScalesWritten(r, base, table, scal, scal.Keys)
            && FloatsWritten(r, base, table, cells, scal, done + {m})
  {
    assert Printed(table, m);
    var r := Splice(s, base + table[m].loc - 1, b);
    assert Room(r, base, table);
    WholesKept(s, base, table, cells, m, b);
    FloatsKept(s, base, table, cells, scal, done, m, b);
    hide BigEndian32, GetHost16, GetHost32, Splice, Layout, Stored, WholesWritten, FloatsWritten;
    forall sl | sl in scal ensures ScaleField(table, sl) && Word16(r, base + sl - 1) == scal[sl] {
      OtherScale(s, base, table, m, b, sl);
    }
  }

  lemma {:induction false} WholesKept(s: seq<Byte>, base: nat, table: Table, cells: Cells, m: Meta, b: seq<Byte>)
    requires Room(s, base, table) && Typed(table, cells) && WholesWritten(s, base, table, cells, table.Keys)
    requires IsFloat(table, m) && |b| == 4
    ensures var r := Splice(s, base + table[m].loc - 1, b);
            Room(r, base, table) && WholesWritten(r, base, table, cells, table.Keys)
  {
    assert Printed(table, m);
    var r := Splice(s, base + table[m].loc - 1, b);
    hide GetHost16, GetHost32, Splice, Layout;
    forall m' | Printed(table, m') ensures WholeWritten(r, base, table, cells, m') {
      if m' != m {
        OtherField(s, base, table, m, b, m');
      }
    }
  }

  lemma {:induction false} FloatsKept(s: seq<Byte>, base: nat, table: Table, cells: Cells, scal: map<nat, int>,
                                      done: set<Meta>, m: Meta, b: seq<Byte>)
    requires Room(s, base, table) && Typed(table, cells) && FloatsWritten(s, base, table, cells, scal, done)
    requires IsFloat(table, m) && table[m].scalLoc in scal
    requires b == BigEndian32(Wrap32(Stored(cells[m].x, scal[table[m].scalLoc])))
    ensures var r := Splice(s, base + table[m].loc - 1, b);
            Room(r, base, table) && FloatsWritten(r, base, table, cells, scal, done + {m})
  {
    var r := Splice(s, base + table[m].loc - 1, b);
    FloatHere(s, base, table, cells, m, scal[table[m].scalLoc], b);
    hide BigEndian32, GetHost32, Splice, Layout, Stored, Wrap32, Typed;
    forall m' | IsFloat(table, m') && m' in done + {m}
      ensures table[m'].scalLoc in scal && FloatWritten(r, base, table, cells, m', scal[table[m'].scalLoc])
    {
      if m' != m {
        assert Printed(table, m');
        OtherField(s, base, table, m, b, m');
      }
    }
  }

  lemma {:induction false} FloatHere(s: seq<Byte>, base: nat, table: Table, cells: Cells, m: Meta, scale: int, b: seq<Byte>)
    requires Room(s, base, table) && Typed(table, cells) && IsFloat(table, m)
    requires b == BigEndian32(Wrap32(Stored(cells[m].x, scale)))
    ensures var r := Splice(s, base + table[m].loc - 1, b);
            Room(r, base, table) && FloatWritten(r, base, table, cells, m, scale)
  {
    assert Printed(table, m);
    SpliceHere(s, base + table[m].loc - 1, b);
    HostOfBigEndian32(Wrap32(Stored(cells[m].x, scale)));
    hide BigEndian32, GetHost32, Splice, Layout, Stored;
  }

  // ----------------------------------------------------------- insertParam

  /** Every Float can be converted to a 64-bit integer. */
  ghost predicate Convertible(table: Table, cells: Cells)
    requires Typed(table, cells)
  {
    forall m :: IsFloat(table, m) ==> IsLlint(Trunc(cells[m].x))
  }

  /** The state of the first pass when the fields in `done` have been met. */
  ghost predicate FirstPass(before: seq<Byte>, s: seq<Byte>, base: nat, table: Table, cells: Cells,
                            scal: map<nat, int>, rule: seq<Meta>, done: set<Meta>)
  {
    && Room(s, base, table) && Typed(table, cells) && Kept(before, s, base, table)
    && WholesWritten(s, base, table, cells, done)
    && ScalesFound(scal, table, cells, done)
    && forall m :: m in rule <==> IsFloat(table, m) && m in done
  }

  lemma {:induction false} PassIs(before: seq<Byte>, s: seq<Byte>, base: nat, table: Table, cells: Cells,
                                  scal: map<nat, int>, rule: seq<Meta>, done: set<Meta>)
    requires Room(s, base, table) && Typed(table, cells) && Kept(before, s, base, table)
    requires WholesWritten(s, base, table, cells, done) && ScalesFound(scal, table, cells, done)
    requires forall m :: m in rule <==> IsFloat(table, m) && m in done
    ensures FirstPass(before, s, base, table, cells, scal, rule, done)
  {
  }

  lemma {:induction false} PassParts(before: seq<Byte>, s: seq<Byte>, base: nat, table: Table, cells: Cells,
                                     scal: map<nat, int>, rule: seq<Meta>, done: set<Meta>)
    requires FirstPass(before, s, base, table, cells, scal, rule, done)
    ensures Room(s, base, table) && Typed(table, cells) && Kept(before, s, base, table)
    ensures WholesWritten(s, base, table, cells, done) && ScalesFound(scal, table, cells, done)
    ensures forall m :: m in rule <==> IsFloat(table, m) && m in done
  {
  }

  lemma {:induction false} FieldRoom(s: seq<Byte>, base: nat, table: Table, cells: Cells, m: Meta, b: seq<Byte>)
    requires Room(s, base, table) && Printed(table, m) && table[m].kind != Float && Typed(table, cells)
    requires b == if table[m].kind == Short then BigEndian16(cells[m].n) else BigEndian32(Wrap32(cells[m].n))
    ensures |b| == Width(table[m].kind) && base + table[m].loc - 1 + |b| <= |s| && base + table[m].loc >= 1
    ensures m in table && !IsFloat(table, m)
  {
  }

  lemma {:induction false} FloatIsPrinted(table: Table, m: Meta)
    ensures IsFloat(table, m) ==> Printed(table, m)
  {
  }

  lemma {:induction false} PassWhole(before: seq<Byte>, s: seq<Byte>, base: nat, table: Table, cells: Cells,
                                     scal: map<nat, int>, rule: seq<Meta>, done: set<Meta>, m: Meta, b: seq<Byte>)
    requires FirstPass(before, s, base, table, cells, scal, rule, done) && Printed(table, m) && table[m].kind != Float
    requires b == if table[m].kind == Short then BigEndian16(cells[m].n) else BigEndian32(Wrap32(cells[m].n))
    ensures base + table[m].loc - 1 + |b| <= |s| && base + table[m].loc >= 1
    ensures FirstPass(before, Splice(s, base + table[m].loc - 1, b), base, table, cells, scal, rule, done + {m})
  {
    hide *;
    PassParts(before, s, base, table, cells, scal, rule, done);
    FieldRoom(s, base, table, cells, m, b);
    WholeStep(s, base, table, cells, done, m, b);
    PutKeeps(before, s, base, table, m, b);
    ScaleSkip(scal, table, cells, done, m);
    PassIs(before, Splice(s, base + table[m].loc - 1, b), base, table, cells, scal, rule, done + {m});
  }

  lemma {:induction false} PassFloat(before: seq<Byte>, s: seq<Byte>, base: nat, table: Table, cells: Cells,
                                     scal: map<nat, int>, rule: seq<Meta>, done: set<Meta>, m: Meta)
    requires FirstPass(before, s, base, table, cells, scal, rule, done) && IsFloat(table, m) && m !in done
    ensures var sl := table[m].scalLoc;
            var merged := Merge(if sl in scal then scal[sl] else 1, Descaled(cells[m].x));
            FirstPass(before, s, base, table, cells, scal[sl := merged], rule + [m], done + {m})
  {
    ScaleStep(scal, table, cells, done, m);
    assert forall m' :: Printed(table, m') && m' in done + {m} && table[m'].kind != Float ==> m' in done;
    hide ScalesFound, Kept, Layout, Descaled, Merge;
  }

  lemma {:induction false} PassOther(before: seq<Byte>, s: seq<Byte>, base: nat, table: Table, cells: Cells,
                                     scal: map<nat, int>, rule: seq<Meta>, done: set<Meta>, m: Meta)
    requires FirstPass(before, s, base, table, cells, scal, rule, done) && !Printed(table, m)
    ensures FirstPass(before, s, base, table, cells, scal, rule, done + {m})
  {
    hide *;
    PassParts(before, s, base, table, cells, scal, rule, done);
    FloatIsPrinted(table, m);
    ScaleSkip(scal, table, cells, done, m);
    WholesSkip(s, base, table, cells, done, m);
    PassIs(before, s, base, table, cells, scal, rule, done + {m});
  }

  lemma {:induction false} WholesSkip(s: seq<Byte>, base: nat, table: Table, cells: Cells, done: set<Meta>, m: Meta)
    requires Room(s, base, table) && Typed(table, cells) && WholesWritten(s, base, table, cells, done) && !Printed(table, m)
    ensures WholesWritten(s, base, table, cells, done + {m})
  {
    hide WholeWritten, Layout;
  }

  /** First pass over the rule, in any order: whole numbers are written, scales merged
      and Floats noted for later. */
  method WriteWholes(prm: Param, row: nat, buf: array<Byte>, base: nat) returns (scal: map<nat, int>, rule: seq<Meta>)
    requires prm.Valid() && row < prm.sz && Room(buf[..], base, prm.r.translate)
    requires Convertible(prm.r.translate, CellsOf(prm, row))
    modifies buf
    ensures FirstPass(old(buf[..]), buf[..], base, prm.r.translate, CellsOf(prm, row), scal, rule, prm.r.translate.Keys)
  {
    hide *;
    var table := prm.r.translate;
    ghost var cells := CellsOf(prm, row);
    PassNone(buf[..], base, table, cells);
    scal, rule := map[], [];
    var todo := table.Keys;
    ghost var done: set<Meta> := {};
    while todo != {}
      invariant todo + done == table.Keys && todo !! done
      invariant FirstPass(old(buf[..]), buf[..], base, table, cells, scal, rule, done)
    {
      var m :| m in todo;
      var v := Fetch(prm, row, m);
      scal, rule := WriteWhole(m, table[m], v, buf, base, scal, rule, old(buf[..]), table, cells, done);
      todo := todo - {m};
      done := done + {m};
    }
    assert done == table.Keys;
  }

  /** A value from the columns. */
  method Fetch(prm: Param, row: nat, m: Meta) returns (v: Value)
    requires prm.Valid() && row < prm.sz && m in prm.r.translate
    requires Convertible(prm.r.translate, CellsOf(prm, row))
    ensures var t := prm.r.translate[m];
            && (t.kind != Copy ==> m in CellsOf(prm, row) && v == CellsOf(prm, row)[m] && InType(t.kind, v))
            && (t.kind == Float ==> IsLlint(Trunc(v.x)))
  {
    var t := prm.r.translate[m];
    v := if t.kind == Copy then Whole(0) else prm.Cell(row, m);
    assert t.kind == Float ==> IsFloat(prm.r.translate, m);
  }

  lemma {:induction false} PassNone(s: seq<Byte>, base: nat, table: Table, cells: Cells)
    requires Room(s, base, table) && Typed(table, cells)
    ensures FirstPass(s, s, base, table, cells, map[], [], {})
  {
    hide Layout, Typed;
  }

  /** One turn of the first pass. */
  method WriteWhole(m: Meta, t: Entry, v: Value, buf: array<Byte>, base: nat, scal: map<nat, int>, rule: seq<Meta>,
                    ghost before: seq<Byte>, ghost table: Table, ghost cells: Cells, ghost done: set<Meta>)
    returns (scal': map<nat, int>, rule': seq<Meta>)
    requires m in table && t == table[m] && m !in done
    requires t.kind != Copy ==> m in cells && v == cells[m] && InType(t.kind, v)
    requires t.kind == Float ==> IsLlint(Trunc(v.x))
    requires FirstPass(before, buf[..], base, table, cells, scal, rule, done)
    modifies buf
    ensures FirstPass(before, buf[..], base, table, cells, scal', rule', done + {m})
  {
    scal', rule' := scal, rule;
    hide FirstPass, Descaled, Merge, Splice, BigEndian16, BigEndian32, Wrap32, Trunc;
    match t.kind {
      case Float =>
        PassFloat(before, buf[..], base, table, cells, scal, rule, done, m);
        rule' := rule + [m];
        var scal1 := if t.scalLoc in scal then scal[t.scalLoc] else 1;
        var scal2 := DeScale(v.x);
        scal' := scal[t.scalLoc := Merge(scal1, scal2)];
      case Short =>
        PassWhole(before, buf[..], base, table, cells, scal, rule, done, m, BigEndian16(v.n));
        PutBigEndian16(v.n, buf, base + t.loc - 1);
      case Long =>
        PassWhole(before, buf[..], base, table, cells, scal, rule, done, m, BigEndian32(Wrap32(v.n)));
        PutBigEndian32(Wrap32(v.n), buf, base + t.loc - 1);
      case _ =>
        PassOther(before, buf[..], base, table, cells, scal, rule, done, m);
    }
  }

  /** The second pass writes the shared scales. */
  ghost predicate SecondPass(before: seq<Byte>, s: seq<Byte>, base: nat, table: Table, cells: Cells,
                             scal: map<nat, int>, rule: seq<Meta>, done: set<nat>)
  {
    && FirstPass(before, s, base, table, cells, scal, rule, table.Keys)
    && ScalesWritten(s, base, table, scal, done)
  }

  lemma {:induction false} PassScale(before: seq<Byte>, s: seq<Byte>, base: nat, table: Table, cells: Cells,
                                     scal: map<nat, int>, rule: seq<Meta>, done: set<nat>, sl: nat)
    requires SecondPass(before, s, base, table, cells, scal, rule, done) && sl in scal
    ensures 1 <= sl && base + sl + 1 <= |s|
    ensures SecondPass(before, Splice(s, base + sl - 1, BigEndian16(scal[sl])), base, table, cells, scal, rule, done + {sl})
  {
    hide Layout;
    assert ScaleField(table, sl) && IsShared(ScalesAt(table.Keys, table, cells, sl), scal[sl]);
    SharedIsScale(table, cells, sl, scal[sl]);
    assert Fits16(scal[sl]);
    ScaleFieldStep(s, base, table, cells, scal, done, sl);
    PutScaleKeeps(before, s, base, table, sl, BigEndian16(scal[sl]));
    PassIs(before, Splice(s, base + sl - 1, BigEndian16(scal[sl])), base, table, cells, scal, rule, table.Keys);
    hide FirstPass, ScalesWritten, WholesWritten, ScalesFound, Kept, Splice, BigEndian16;
  }

  lemma {:induction false} NoScaleYet(before: seq<Byte>, s: seq<Byte>, base: nat, table: Table, cells: Cells,
                                      scal: map<nat, int>, rule: seq<Meta>)
    requires FirstPass(before, s, base, table, cells, scal, rule, table.Keys)
    ensures SecondPass(before, s, base, table, cells, scal, rule, {})
  {
    hide Layout, WholesWritten, ScalesFound, Kept, Typed;
  }

  method WriteScales(scal: map<nat, int>, buf: array<Byte>, base: nat,
                     ghost before: seq<Byte>, ghost table: Table, ghost cells: Cells, ghost rule: seq<Meta>)
    requires FirstPass(before, buf[..], base, table, cells, scal, rule, table.Keys)
    modifies buf
    ensures SecondPass(before, buf[..], base, table, cells, scal, rule, scal.Keys)
  {
    hide *;
    var todo := scal.Keys;
    ghost var done: set<nat> := {};
    NoScaleYet(before, buf[..], base, table, cells, scal, rule);
    while todo != {}
      invariant todo + done == scal.Keys && todo !! done
      invariant SecondPass(before, buf[..], base, table, cells, scal, rule, done)
    {
      var sl :| sl in todo;
      PassScale(before, buf[..], base, table, cells, scal, rule, done, sl);
      PutBigEndian16(scal[sl], buf, base + sl - 1);
      todo := todo - {sl};
      done := done + {sl};
    }
    assert done == scal.Keys;
  }

  /** The third pass finishes off the Floats. */
  ghost predicate ThirdPass(before: seq<Byte>, s: seq<Byte>, base: nat, table: Table, cells: Cells,
                            scal: map<nat, int>, rule: seq<Meta>, done: set<Meta>)
  {
    && SecondPass(before, s, base, table, cells, scal, rule, scal.Keys)
    && FloatsWritten(s, base, table, cells, scal, done)
  }

  lemma {:induction false} PassStored(before: seq<Byte>, s: seq<Byte>, base: nat, table: Table, cells: Cells,
                                      scal: map<nat, int>, rule: seq<Meta>, done: set<Meta>, m: Meta)
    requires ThirdPass(before, s, base, table, cells, scal, rule, done) && m in rule
    ensures IsFloat(table, m) && m in cells && cells[m].Real? && table[m].scalLoc in scal
    ensures 1 <= table[m].loc && base + table[m].loc + 3 <= |s|
    ensures var b := BigEndian32(Wrap32(Stored(cells[m].x, scal[table[m].scalLoc])));
            ThirdPass(before, Splice(s, base + table[m].loc - 1, b), base, table, cells, scal, rule, done + {m})
  {
    assert Printed(table, m);
    assert 1 <= table[m].loc && base + table[m].loc + 3 <= |s|;
    hide Layout;
    var b := BigEndian32(Wrap32(Stored(cells[m].x, scal[table[m].scalLoc])));
    FloatStep(s, base, table, cells, scal, done, m, b);
    PutKeeps(before, s, base, table, m, b);
    PassIs(before, Splice(s, base + table[m].loc - 1, b), base, table, cells, scal, rule, table.Keys);
    hide FirstPass, FloatsWritten, ScalesWritten, WholesWritten, ScalesFound, Kept, Splice, BigEndian32, Stored, Wrap32;
  }

  method WriteFloats(prm: Param, row: nat, rule: seq<Meta>, scal: map<nat, int>, buf: array<Byte>, base: nat,
                     ghost before: seq<Byte>)
    requires prm.Valid() && row < prm.sz && Convertible(prm.r.translate, CellsOf(prm, row))
    requires SecondPass(before, buf[..], base, prm.r.translate, CellsOf(prm, row), scal, rule, scal.Keys)
    modifies buf
    ensures Encodes(buf[..], base, prm.r.translate, CellsOf(prm, row))
    ensures Kept(before, buf[..], base, prm.r.translate)
  {
    hide *;
    var table := prm.r.translate;
    ghost var cells := CellsOf(prm, row);
    ghost var done: set<Meta> := {};
    NoFloatYet(before, buf[..], base, table, cells, scal, rule);
    for j := 0 to |rule|
      invariant forall k :: 0 <= k < j ==> rule[k] in done
      invariant ThirdPass(before, buf[..], base, table, cells, scal, rule, done)
    {
      var m := rule[j];
      PassStored(before, buf[..], base, table, cells, scal, rule, done, m);
      FloatPresent(table, m);
      var v := Fetch(prm, row, m);
      WriteFloat(m, table[m], v, scal, buf, base, before, table, cells, rule, done);
      done := done + {m};
    }
    AllWritten(before, buf[..], base, table, cells, scal, rule, done);
  }

  lemma {:induction false} FloatPresent(table: Table, m: Meta)
    requires IsFloat(table, m)
    ensures m in table && table[m].kind == Float
  {
  }

  /** One turn of the third pass. */
  method WriteFloat(m: Meta, t: Entry, v: Value, scal: map<nat, int>, buf: array<Byte>, base: nat,
                    ghost before: seq<Byte>, ghost table: Table, ghost cells: Cells, ghost rule: seq<Meta>, ghost done: set<Meta>)
    requires m in table && t == table[m] && m in cells && v == cells[m] && v.Real? && m in rule
    requires t.scalLoc in scal && 1 <= t.loc && base + t.loc + 3 <= buf.Length
    requires ThirdPass(before, buf[..], base, table, cells, scal, rule, done)
    modifies buf
    ensures ThirdPass(before, buf[..], base, table, cells, scal, rule, done + {m})
  {
    hide *;
    PassStored(before, buf[..], base, table, cells, scal, rule, done, m);
    var n := RoundToScale(v.x, scal[t.scalLoc]);
    PutBigEndian32(Wrap32(n), buf, base + t.loc - 1);
  }

  lemma {:induction false} NoFloatYet(before: seq<Byte>, s: seq<Byte>, base: nat, table: Table, cells: Cells,
                                      scal: map<nat, int>, rule: seq<Meta>)
    requires SecondPass(before, s, base, table, cells, scal, rule, scal.Keys)
    ensures ThirdPass(before, s, base, table, cells, scal, rule, {})
  {
    hide Layout, WholesWritten, ScalesFound, ScalesWritten, Kept, Typed;
  }

  /** The value in units of its scale. */
  method RoundToScale(val: real, scale: int) returns (n: int)
    ensures n == Stored(val, scale)
  {
    var gscale := ScaleConv(scale);
    n := Round(val / gscale);
  }

  lemma {:induction false} AllWritten(before: seq<Byte>, s: seq<Byte>, base: nat, table: Table, cells: Cells,
                                      scal: map<nat, int>, rule: seq<Meta>, done: set<Meta>)
    requires ThirdPass(before, s, base, table, cells, scal, rule, done) && forall m :: m in rule ==> m in done
    ensures Encodes(s, base, table, cells) && Kept(before, s, base, table)
  {
    hide Layout, WholeWritten, FloatWritten, IsShared, ScalesAt;
    forall m | IsFloat(table, m)
      ensures IsShared(ScalesAt(table.Keys, table, cells, table[m].scalLoc), ScaleOf(s, base, table, m))
      ensures FloatWritten(s, base, table, cells, m, ScaleOf(s, base, table, m))
    {
      assert m in rule && m in done;
      assert ScaleOf(s, base, table, m) == scal[table[m].scalLoc];
    }
  }

  /** One header: afterwards it says what the row says, and no other byte has
      changed. */
  method InsertRow(prm: Param, row: nat, buf: array<Byte>, base: nat)
    requires prm.Valid() && row < prm.sz && Room(buf[..], base, prm.r.translate)
    requires Convertible(prm.r.translate, CellsOf(prm, row))
    modifies buf
    ensures Encodes(buf[..], base, prm.r.translate, CellsOf(prm, row))
    ensures Kept(old(buf[..]), buf[..], base, prm.r.translate)
  {
    hide *;
    ghost var before := buf[..];
    var scal, rule := WriteWholes(prm, row, buf, base);
    WriteScales(scal, buf, base, before, prm.r.translate, CellsOf(prm, row), rule);
    WriteFloats(prm, row, rule, scal, buf, base, before);
  }

  // ------------------------------------------------------------- several headers

  /** Where the header of the i-th trace starts. */
  function At(i: nat, stride: nat): (base: nat)
    ensures base == i * (240 + stride)
  {
    Slot(i, MD_SZ + stride, 0)
  }

  lemma {:induction false} HeadersApart(i: nat, j: nat, stride: nat)
    requires i < j
    ensures At(i, stride) + MD_SZ <= At(j, stride)
  {
    Spaced(i, j, 1, MD_SZ + stride);
  }

  /** The buffer has room for all the headers. */
  ghost predicate HasRoom(s: seq<Byte>, sz: nat, stride: nat, table: Table) {
    Layout(table) && forall i :: 0 <= i < sz ==> At(i, stride) + MD_SZ <= |s|
  }

  lemma {:induction false} RoomEnough(s: seq<Byte>, sz: nat, stride: nat, table: Table)
    requires Layout(table) && (sz > 0 ==> (sz - 1) * (240 + stride) + 240 <= |s|)
    ensures HasRoom(s, sz, stride, table)
  {
    forall i | 0 <= i < sz ensures At(i, stride) + MD_SZ <= |s| {
      if i < sz - 1 {
        HeadersApart(i, sz - 1, stride);
      }
    }
  }

  lemma {:induction false} SameBytesEncode(s: seq<Byte>, s': seq<Byte>, base: nat, table: Table, cells: Cells)
    requires Encodes(s, base, table, cells) && base + MD_SZ <= |s'|
    requires s'[base..base + MD_SZ] == s[base..base + MD_SZ]
    ensures Encodes(s', base, table, cells)
  {
    SameRoom(s, s', base, table, cells);
    hide *;
    forall m | Printed(table, m) ensures WholeWritten(s', base, table, cells, m) {
      SameWhole(s, s', base, table, cells, m);
    }
    forall m | IsFloat(table, m)
      ensures IsShared(ScalesAt(table.Keys, table, cells, table[m].scalLoc), ScaleOf(s', base, table, m))
      ensures FloatWritten(s', base, table, cells, m, ScaleOf(s', base, table, m))
    {
      SameFloat(s, s', base, table, cells, m);
    }
    EncodesIf(s', base, table, cells);
  }

  lemma {:induction false} SameRoom(s: seq<Byte>, s': seq<Byte>, base: nat, table: Table, cells: Cells)
    requires Encodes(s, base, table, cells) && base + MD_SZ <= |s'|
    ensures Room(s, base, table) && Room(s', base, table) && Typed(table, cells)
  {
  }

  lemma {:induction false} EncodesIf(s: seq<Byte>, base: nat, table: Table, cells: Cells)
    requires Room(s, base, table) && Typed(table, cells)
    requires forall m :: Printed(table, m) ==> WholeWritten(s, base, table, cells, m)
    requires forall m :: IsFloat(table, m) ==>
               && IsShared(ScalesAt(table.Keys, table, cells, table[m].scalLoc), ScaleOf(s, base, table, m))
               && FloatWritten(s, base, table, cells, m, ScaleOf(s, base, table, m))
    ensures Encodes(s, base, table, cells)
  {
    hide IsShared, ScalesAt, WholeWritten, FloatWritten, Room, Typed;
  }

  lemma {:induction false} SameWhole(s: seq<Byte>, s': seq<Byte>, base: nat, table: Table, cells: Cells, m: Meta)
    requires Encodes(s, base, table, cells) && Room(s', base, table) && Printed(table, m)
    requires s'[base..base + MD_SZ] == s[base..base + MD_SZ]
    ensures WholeWritten(s', base, table, cells, m)
  {
    hide Disjoint, GetHost16, GetHost32, IsShared, ScalesAt, Stored, Wrap32, FloatWritten;
    SameInside(s, s', base, base + table[m].loc - 1, Width(table[m].kind));
  }

  lemma {:induction false} SameFloat(s: seq<Byte>, s': seq<Byte>, base: nat, table: Table, cells: Cells, m: Meta)
    requires Encodes(s, base, table, cells) && Room(s', base, table) && IsFloat(table, m)
    requires s'[base..base + MD_SZ] == s[base..base + MD_SZ]
    ensures IsShared(ScalesAt(table.Keys, table, cells, table[m].scalLoc), ScaleOf(s', base, table, m))
    ensures FloatWritten(s', base, table, cells, m, ScaleOf(s', base, table, m))
  {
    hide Disjoint, GetHost16, GetHost32, IsShared, ScalesAt, Stored, Wrap32, WholeWritten;
    assert Printed(table, m);
    SameInside(s, s', base, base + table[m].loc - 1, Width(table[m].kind));
    SameInside(s, s', base, base + table[m].scalLoc - 1, 2);
  }

  lemma {:induction false} SameInside(s: seq<Byte>, s': seq<Byte>, base: nat, at: nat, w: nat)
    requires base + MD_SZ <= |s| && base + MD_SZ <= |s'| && s'[base..base + MD_SZ] == s[base..base + MD_SZ]
    requires base <= at && at + w <= base + MD_SZ
    ensures s'[at..at + w] == s[at..at + w]
  {
    var part, part' := s[base..base + MD_SZ], s'[base..base + MD_SZ];
    forall k | at <= k < at + w ensures s'[k] == s[k] {
      assert s[k] == part[k - base] && s'[k] == part'[k - base];
    }
  }

  /** Bytes of fields lie inside the header. */
  lemma {:induction false} FieldInside(table: Table, q: int)
    requires Layout(table) && FieldByte(table, q)
    ensures 0 <= q < MD_SZ
  {
  }

  lemma {:induction false} OtherHeader(before: seq<Byte>, s: seq<Byte>, i: nat, j: nat, stride: nat, table: Table,
                                       cells: Cells)
    requires i != j && Kept(before, s, At(j, stride), table) && Encodes(before, At(i, stride), table, cells)
    ensures Encodes(s, At(i, stride), table, cells)
  {
    HeadersApart(if i < j then i else j, if i < j then j else i, stride);
    var base := At(i, stride);
    assert Layout(table) && base + MD_SZ <= |s|;
    hide At, Encodes;
    forall p | base <= p < base + MD_SZ ensures s[p] == before[p] {
      if FieldByte(table, p - At(j, stride)) {
        FieldInside(table, p - At(j, stride));
      }
    }
    SameBytesEncode(before, s, base, table, cells);
  }

  ghost predicate RowsTyped(table: Table, rows: seq<Cells>) {
    forall i :: 0 <= i < |rows| ==> Typed(table, rows[i])
  }

  ghost predicate RowsConvertible(table: Table, rows: seq<Cells>)
    requires RowsTyped(table, rows)
  {
    forall i :: 0 <= i < |rows| ==> Convertible(table, rows[i])
  }

  /** The first n headers say what the first n rows say. */
  ghost predicate RowsEncoded(s: seq<Byte>, stride: nat, table: Table, rows: seq<Cells>, n: nat) {
    n <= |rows| && forall i :: 0 <= i < n ==> Encodes(s, At(i, stride), table, rows[i])
  }

  /** Nothing but bytes of fields of the first n headers has changed. */
  ghost predicate RestKept(before: seq<Byte>, s: seq<Byte>, stride: nat, table: Table, n: nat) {
    && |before| == |s|
    && forall p :: 0 <= p < |s| && (forall i :: 0 <= i < n ==> !FieldByte(table, p - At(i, stride))) ==> s[p] == before[p]
  }

  lemma {:induction false} NextHeader(before: seq<Byte>, s: seq<Byte>, s': seq<Byte>, stride: nat, table: Table,
                                      rows: seq<Cells>, i: nat)
    requires RowsEncoded(s, stride, table, rows, i) && RestKept(before, s, stride, table, i) && i < |rows|
    requires Encodes(s', At(i, stride), table, rows[i]) && Kept(s, s', At(i, stride), table)
    ensures RowsEncoded(s', stride, table, rows, i + 1) && RestKept(before, s', stride, table, i + 1)
  {
    hide Encodes, At, FieldByte;
    forall k | 0 <= k < i ensures Encodes(s', At(k, stride), table, rows[k]) {
      OtherHeader(s, s', k, i, stride, table, rows[k]);
    }
  }

  /** All the headers: each says what its row says, and no byte outside their fields
      has changed. */
  method InsertParam(sz: nat, prm: Param?, buf: array<Byte>, stride: nat, skip: nat)
    requires prm != null ==> prm.Valid() && skip + sz <= prm.sz && prm.r.numCopy == 0
    requires prm != null ==> Layout(prm.r.translate) && (sz > 0 ==> (sz - 1) * (240 + stride) + 240 <= buf.Length)
    requires prm != null ==> RowsTyped(prm.r.translate, Rows(prm, skip, sz)) && RowsConvertible(prm.r.translate, Rows(prm, skip, sz))
    modifies buf
    ensures prm == null ==> buf[..] == old(buf[..])
    ensures prm != null ==> RowsEncoded(buf[..], stride, prm.r.translate, Rows(prm, skip, sz), sz)
    ensures prm != null ==> RestKept(old(buf[..]), buf[..], stride, prm.r.translate, sz)
    ensures prm != null ==> forall i :: 0 <= i < sz ==> Encodes(buf[..], i * (240 + stride), prm.r.translate, Rows(prm, skip, sz)[i])
    ensures prm != null ==>
              forall p :: 0 <= p < buf.Length && (p % (240 + stride) >= 240 || p >= sz * (240 + stride)) ==> buf[p] == old(buf[p])
  {
    hide *;
    InsertHeaders(sz, prm, buf, stride, skip);
    if prm != null {
      SamplesKept(old(buf[..]), buf[..], stride, prm.r.translate, sz);
      HeadersWritten(buf[..], stride, prm.r.translate, Rows(prm, skip, sz));
    }
  }

  method InsertHeaders(sz: nat, prm: Param?, buf: array<Byte>, stride: nat, skip: nat)
    requires prm != null ==> prm.Valid() && skip + sz <= prm.sz && prm.r.numCopy == 0
    requires prm != null ==> Layout(prm.r.translate) && (sz > 0 ==> (sz - 1) * (240 + stride) + 240 <= buf.Length)
    requires prm != null ==> RowsTyped(prm.r.translate, Rows(prm, skip, sz)) && RowsConvertible(prm.r.translate, Rows(prm, skip, sz))
    modifies buf
    ensures prm == null ==> buf[..] == old(buf[..])
    ensures prm != null ==> RowsEncoded(buf[..], stride, prm.r.translate, Rows(prm, skip, sz), sz)
    ensures prm != null ==> RestKept(old(buf[..]), buf[..], stride, prm.r.translate, sz)
  {
    hide *;
    if prm != null {
      NothingYet(buf[..], stride, prm.r.translate, Rows(prm, skip, sz));
    }
    if prm == null || sz == 0 {
      return;
    }
    ghost var table, rows := prm.r.translate, Rows(prm, skip, sz);
    RoomEnough(buf[..], sz, stride, table);
    for i := 0 to sz
      invariant HasRoom(buf[..], sz, stride, table)
      invariant RowsEncoded(buf[..], stride, table, rows, i) && RestKept(old(buf[..]), buf[..], stride, table, i)
    {
      ghost var before := buf[..];
      RowReady(before, sz, stride, table, rows, i);
      InsertRow(prm, i + skip, buf, At(i, stride));
      NextHeader(old(buf[..]), before, buf[..], stride, table, rows, i);
      RoomKept(before, buf[..], sz, stride, table);
    }
  }

  /** Bytes between and behind the headers are not bytes of fields. */
  lemma {:induction false} SamplesKept(before: seq<Byte>, s: seq<Byte>, stride: nat, table: Table, n: nat)
    requires Layout(table) && RestKept(before, s, stride, table, n)
    ensures |before| == |s|
    ensures forall p :: 0 <= p < |s| && (p % (240 + stride) >= 240 || p >= n * (240 + stride)) ==> s[p] == before[p]
  {
    hide FieldByte, Layout;
    forall p | 0 <= p < |s| && (p % (240 + stride) >= 240 || p >= n * (240 + stride)) ensures s[p] == before[p] {
      forall i | 0 <= i < n ensures !FieldByte(table, p - At(i, stride)) {
        if FieldByte(table, p - At(i, stride)) {
          FieldInside(table, p - At(i, stride));
          InHeader(p, i, p - At(i, stride), 240 + stride);
          Spaced(i, n, 1, 240 + stride);
        }
      }
    }
  }

  lemma {:induction false} InHeader(p: nat, i: nat, q: nat, w: nat)
    requires p == i * w + q && q < w
    ensures p % w == q && p / w == i
  {
    DivUnique(p, w, i, q);
  }

  lemma {:induction false} HeadersWritten(s: seq<Byte>, stride: nat, table: Table, rows: seq<Cells>)
    requires RowsEncoded(s, stride, table, rows, |rows|)
    ensures forall i :: 0 <= i < |rows| ==> Encodes(s, i * (240 + stride), table, rows[i])
  {
    hide Encodes;
    forall i | 0 <= i < |rows| ensures Encodes(s, i * (240 + stride), table, rows[i]) {
      assert At(i, stride) == i * (240 + stride);
    }
  }

  lemma {:induction false} NothingYet(s: seq<Byte>, stride: nat, table: Table, rows: seq<Cells>)
    ensures RowsEncoded(s, stride, table, rows, 0) && RestKept(s, s, stride, table, 0)
  {
  }

  lemma {:induction false} RowReady(s: seq<Byte>, sz: nat, stride: nat, table: Table, rows: seq<Cells>, i: nat)
    requires HasRoom(s, sz, stride, table) && RowsTyped(table, rows) && RowsConvertible(table, rows) && i < sz == |rows|
    ensures Room(s, At(i, stride), table) && Convertible(table, rows[i])
  {
  }

  lemma {:induction false} RoomKept(s: seq<Byte>, s': seq<Byte>, sz: nat, stride: nat, table: Table)
    requires HasRoom(s, sz, stride, table) && |s| == |s'|
    ensures HasRoom(s', sz, stride, table)
  {
  }

  // ------------------------------------------------------------------ extractParam

  /** The printed fields are what the header says, the others are what they were. */
  ghost predicate Extracted(s: seq<Byte>, base: nat, table: Table, was: Cells, now: Cells) {
    && Decodes(s, base, table, now)
    && forall m :: m in table && table[m].kind == Index ==> m in was && m in now && now[m] == was[m]
  }

  /** One header into one row. */
  method ExtractRow(prm: Param, row: nat, buf: array<Byte>, base: nat)
    requires prm.Valid() && row < prm.sz && Room(buf[..], base, prm.r.translate)
    modifies prm
    ensures prm.Valid() && Extracted(buf[..], base, prm.r.translate, old(CellsOf(prm, row)), CellsOf(prm, row))
    ensures Rows(prm, 0, prm.sz) == old(Rows(prm, 0, prm.sz))[row := CellsOf(prm, row)]
  {
    hide *;
    ghost var was := Rows(prm, 0, prm.sz);
    var table := prm.r.translate;
    var todo := table.Keys;
    NothingStored(prm, row, buf[..], base, was);
    while todo != {}
      invariant todo <= table.Keys && prm.Valid() && Storing(prm, row, buf[..], base, was, todo)
    {
      var m :| m in todo;
      if table[m].kind in {Long, Short, Float} {
        IsPrinted(table, m);
        StoreField(prm, row, m, Read(buf[..], base, table, m), buf[..], base, was, todo);
      } else {
        NotStored(prm, row, buf[..], base, was, todo, m);
      }
      todo := todo - {m};
    }
    RowsStored(prm, row, buf[..], base, was);
  }

  lemma {:induction false} IsPrinted(table: Table, m: Meta)
    requires m in table
    ensures Printed(table, m) <==> table[m].kind in {Long, Short, Float}
  {
  }

  lemma {:induction false} NothingStored(prm: Param, row: nat, s: seq<Byte>, base: nat, was: seq<Cells>)
    requires prm.Valid() && row < prm.sz && Room(s, base, prm.r.translate) && was == Rows(prm, 0, prm.sz)
    ensures Storing(prm, row, s, base, was, prm.r.translate.Keys)
  {
    hide Layout, Read;
  }

  lemma {:induction false} NotStored(prm: Param, row: nat, s: seq<Byte>, base: nat, was: seq<Cells>, todo: set<Meta>,
                                     m: Meta)
    requires prm.Valid() && row < prm.sz && Room(s, base, prm.r.translate) && Storing(prm, row, s, base, was, todo)
    requires m in prm.r.translate && prm.r.translate[m].kind !in {Long, Short, Float}
    ensures Storing(prm, row, s, base, was, todo - {m})
  {
    hide Layout, Read;
  }

  method StoreField(prm: Param, row: nat, m: Meta, v: Value, ghost s: seq<Byte>, ghost base: nat,
                    ghost was: seq<Cells>, ghost todo: set<Meta>)
    requires prm.Valid() && row < prm.sz && Room(s, base, prm.r.translate) && Storing(prm, row, s, base, was, todo)
    requires Printed(prm.r.translate, m) && v == Read(s, base, prm.r.translate, m)
    modifies prm
    ensures prm.Valid() && Storing(prm, row, s, base, was, todo - {m})
  {
    hide Layout, Read;
    assert prm.Has(m);
    prm.Store(row, m, v);
    ghost var table := prm.r.translate;
    forall m' | Printed(table, m') && m' !in todo - {m} ensures prm.Cell(row, m') == Read(s, base, table, m') {
      assert prm.Has(m');
      if m' != m {
        assert prm.Cell(row, m') == old(prm.Cell(row, m'));
      }
    }
    forall j: nat, m': Meta | j < prm.sz && prm.Has(m') && (j != row || !Printed(table, m'))
      ensures m' in was[j] && prm.Cell(j, m') == was[j][m']
    {
      assert prm.Cell(j, m') == old(prm.Cell(j, m'));
    }
  }

  /** All but the fields in `todo` of one row are stored; every other cell is what it
      was. */
  ghost predicate Storing(prm: Param, row: nat, s: seq<Byte>, base: nat, was: seq<Cells>, todo: set<Meta>)
    requires prm.Valid() && row < prm.sz && Room(s, base, prm.r.translate)
    reads prm, prm.r
  {
    && |was| == prm.sz
    && (forall j :: 0 <= j < prm.sz ==> was[j].Keys == Columns(prm.r.translate))
    && (forall m :: Printed(prm.r.translate, m) && m !in todo ==> prm.Cell(row, m) == Read(s, base, prm.r.translate, m))
    && forall j: nat, m: Meta :: j < prm.sz && prm.Has(m) && (j != row || !Printed(prm.r.translate, m)) ==>
         m in was[j] && prm.Cell(j, m) == was[j][m]
  }

  /** The fields that have values. */
  ghost function Columns(table: Table): set<Meta> {
    set m | m in table && table[m].kind != Copy
  }

  lemma {:induction false} RowsStored(prm: Param, row: nat, s: seq<Byte>, base: nat, was: seq<Cells>)
    requires prm.Valid() && row < prm.sz && Room(s, base, prm.r.translate) && Storing(prm, row, s, base, was, {})
    ensures Rows(prm, 0, prm.sz) == was[row := CellsOf(prm, row)]
    ensures Extracted(s, base, prm.r.translate, was[row], CellsOf(prm, row))
  {
    hide Layout, Read;
    forall j | 0 <= j < prm.sz && j != row ensures CellsOf(prm, j) == was[j] {
      RowIs(prm, j, was[j]);
    }
  }

  /** The n rows from `skip` on have been extracted; the other rows are what they
      were. */
  ghost predicate RowsExtracted(s: seq<Byte>, stride: nat, table: Table, was: seq<Cells>, now: seq<Cells>, skip: nat,
                                n: nat) {
    && skip + n <= |was| == |now|
    && (forall i :: 0 <= i < n ==> Extracted(s, At(i, stride), table, was[skip + i], now[skip + i]))
    && forall j :: 0 <= j < |was| && !(skip <= j < skip + n) ==> now[j] == was[j]
  }

  lemma {:induction false} NextRow(s: seq<Byte>, stride: nat, table: Table, was: seq<Cells>, now: seq<Cells>,
                                   skip: nat, i: nat, cells: Cells)
    requires RowsExtracted(s, stride, table, was, now, skip, i) && skip + i < |was|
    requires Extracted(s, At(i, stride), table, now[skip + i], cells)
    ensures RowsExtracted(s, stride, table, was, now[skip + i := cells], skip, i + 1)
  {
    hide Extracted, At;
  }

  /** All the headers into rows. */
  method ExtractParam(sz: nat, buf: array<Byte>, prm: Param?, stride: nat, skip: nat)
    requires prm != null ==> prm.Valid() && skip + sz <= prm.sz && prm.r.numCopy == 0
    requires prm != null ==> Layout(prm.r.translate) && (sz > 0 ==> (sz - 1) * (240 + stride) + 240 <= buf.Length)
    modifies prm
    ensures prm != null ==>
              && prm.Valid()
              && RowsExtracted(buf[..], stride, prm.r.translate, old(Rows(prm, 0, prm.sz)), Rows(prm, 0, prm.sz), skip, sz)
              && forall j :: skip <= j < skip + sz ==> Decodes(buf[..], (j - skip) * (240 + stride), prm.r.translate, Rows(prm, 0, prm.sz)[j])
  {
    hide *;
    ExtractHeaders(sz, buf, prm, stride, skip);
    if prm != null {
      HeadersRead(buf[..], stride, prm.r.translate, old(Rows(prm, 0, prm.sz)), Rows(prm, 0, prm.sz), skip, sz);
    }
  }

  lemma {:induction false} HeadersRead(s: seq<Byte>, stride: nat, table: Table, was: seq<Cells>, now: seq<Cells>, skip: nat, n: nat)
    requires RowsExtracted(s, stride, table, was, now, skip, n)
    ensures forall j :: skip <= j < skip + n ==> Decodes(s, (j - skip) * (240 + stride), table, now[j])
  {
    hide Decodes;
    forall j | skip <= j < skip + n ensures Decodes(s, (j - skip) * (240 + stride), table, now[j]) {
      var i := j - skip;
      assert At(i, stride) == i * (240 + stride) && Extracted(s, At(i, stride), table, was[skip + i], now[skip + i]);
    }
  }

  /** What is extracted depends on nothing but the headers: with the same bytes in them,
      whatever lies between and behind them, the rows are the same. */
  lemma {:induction false} OnlyHeadersMatter(s: seq<Byte>, s': seq<Byte>, stride: nat, table: Table, was: seq<Cells>,
                                             now: seq<Cells>, now': seq<Cells>, skip: nat, n: nat, i: nat, m: Meta)
    requires RowsExtracted(s, stride, table, was, now, skip, n) && RowsExtracted(s', stride, table, was, now', skip, n)
    requires |s| == |s'| && forall p :: 0 <= p < |s| && p % (240 + stride) < 240 ==> s'[p] == s[p]
    requires i < n && m in table && table[m].kind != Copy
    ensures m in now[skip + i] && m in now'[skip + i] && now'[skip + i][m] == now[skip + i][m]
  {
    var base := At(i, stride);
    assert Extracted(s, base, table, was[skip + i], now[skip + i]) && Extracted(s', base, table, was[skip + i], now'[skip + i]);
    if Printed(table, m) {
      hide Decoded, GetHost16, GetHost32;
      forall p | base <= p < base + 240 ensures s'[p] == s[p] {
        InHeader(p, i, p - base, 240 + stride);
      }
      SameRead(s, s', base, table, m);
    }
  }

  lemma {:induction false} SameRead(s: seq<Byte>, s': seq<Byte>, base: nat, table: Table, m: Meta)
    requires Room(s, base, table) && Room(s', base, table) && Printed(table, m)
    requires forall p :: base <= p < base + 240 ==> s'[p] == s[p]
    ensures Read(s', base, table, m) == Read(s, base, table, m)
  {
    var at := base + table[m].loc - 1;
    assert s'[base..base + MD_SZ] == s[base..base + MD_SZ];
    SameInside(s, s', base, at, Width(table[m].kind));
    if table[m].kind == Float {
      SameInside(s, s', base, base + table[m].scalLoc - 1, 2);
    }
    hide Decoded, GetHost16, GetHost32;
  }

  method ExtractHeaders(sz: nat, buf: array<Byte>, prm: Param?, stride: nat, skip: nat)
    requires prm != null ==> prm.Valid() && skip + sz <= prm.sz && prm.r.numCopy == 0
    requires prm != null ==> Layout(prm.r.translate) && (sz > 0 ==> (sz - 1) * (240 + stride) + 240 <= buf.Length)
    modifies prm
    ensures prm != null ==>
              && prm.Valid()
              && RowsExtracted(buf[..], stride, prm.r.translate, old(Rows(prm, 0, prm.sz)), Rows(prm, 0, prm.sz), skip, sz)
  {
    hide *;
    if prm == null || sz == 0 {
      if prm != null {
        NoRowYet(buf[..], stride, prm.r.translate, Rows(prm, 0, prm.sz), skip);
      }
      return;
    }
    ghost var table, was := prm.r.translate, Rows(prm, 0, prm.sz);
    NoRowYet(buf[..], stride, table, was, skip);
    RoomEnough(buf[..], sz, stride, table);
    for i := 0 to sz
      invariant prm.Valid() && HasRoom(buf[..], sz, stride, table)
      invariant RowsExtracted(buf[..], stride, table, was, Rows(prm, 0, prm.sz), skip, i)
    {
      RoomAt(buf[..], sz, stride, table, i);
      ghost var now := Rows(prm, 0, prm.sz);
      ExtractRow(prm, i + skip, buf, At(i, stride));
      NextRow(buf[..], stride, table, was, now, skip, i, CellsOf(prm, i + skip));
    }
  }

  lemma {:induction false} NoRowYet(s: seq<Byte>, stride: nat, table: Table, was: seq<Cells>, skip: nat)
    requires skip <= |was|
    ensures RowsExtracted(s, stride, table, was, was, skip, 0)
  {
  }

  lemma {:induction false} RoomAt(s: seq<Byte>, sz: nat, stride: nat, table: Table, i: nat)
    requires HasRoom(s, sz, stride, table) && i < sz
    ensures Room(s, At(i, stride), table)
  {
  }

  /** Written from one set of rows and read into another: field by field the values
      come back, as far as they fit. */
  lemma {:induction false} RowsComeBack(s: seq<Byte>, stride: nat, table: Table, rows: seq<Cells>,
                                        was: seq<Cells>, now: seq<Cells>, skip: nat, i: nat, m: Meta)
    requires RowsEncoded(s, stride, table, rows, |rows|) && RowsExtracted(s, stride, table, was, now, skip, |rows|)
    requires i < |rows| && Printed(table, m)
    ensures Encodes(s, At(i, stride), table, rows[i]) && Decodes(s, At(i, stride), table, now[skip + i])
    ensures table[m].kind == Short ==> now[skip + i][m] == rows[i][m]
    ensures table[m].kind == Long ==> (now[skip + i][m] == rows[i][m] <==> Fits32(rows[i][m].n))
    ensures table[m].kind == Float ==>
              var scale := RowScale(table, rows[i], m);
              Near(now[skip + i][m].x, rows[i][m].x, ScaleConv(scale) / 2.0) <==> Fits32(Stored(rows[i][m].x, scale))
  {
    assert Extracted(s, At(i, stride), table, was[skip + i], now[skip + i]);
    WriteThenRead(s, At(i, stride), table, rows[i], now[skip + i], m);
    hide At, Read, WholeWritten, FloatWritten;
  }
}
