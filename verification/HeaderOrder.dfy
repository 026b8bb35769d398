/**
 What the sort types mean for trace headers, in the numbers by which the application
 knows the header fields: 20 to 23 are the coordinates of source and receiver, 14 is
 the offset, 26 and 27 are the inline and the crossline number, 1 and 2 the local and
 the global trace number.
 */
module HeaderOrder {
  import opened Comparators
  import opened Params
  import opened RuleTable
  import opened TraceRows

  // ------------------------------------------------------------ rows as traces

  /** Each part of a trace is read from one field: without any field all parts are zero, and
      setting a field sets that part and no other. */
  lemma {:induction false} TraceFields(cells: Cells, m: Meta, v: Value)
    ensures var t := TraceOf(cells);
            TraceOf(cells[m := v]) ==
            Trace(if m == 20 then Cast(Float, v).x else t.xSrc, if m == 21 then Cast(Float, v).x else t.ySrc,
                  if m == 22 then Cast(Float, v).x else t.xRcv, if m == 23 then Cast(Float, v).x else t.yRcv,
                  if m == 14 then Cast(Long, v).n else t.offset,
                  if m == 26 then Cast(Long, v).n else t.il, if m == 27 then Cast(Long, v).n else t.xl,
                  if m == 1 then Cast(Long, v).n else t.ltn, if m == 2 then Cast(Index, v).n else t.gtn)
    ensures TraceOf(map[]) == Trace(0.0, 0.0, 0.0, 0.0, 0, 0, 0, 0, 0)
    ensures Gtn()(cells[m := v]) == if m == 2 then Cast(Index, v).n else Gtn()(cells)
  {
    TraceOfNothing();
    hide Cast;
  }

  lemma {:induction false} TraceOfNothing()
    ensures TraceOf(map[]) == Trace(0.0, 0.0, 0.0, 0.0, 0, 0, 0, 0, 0)
  {
  }

  // ------------------------------------------------------------ headers in order

  /** The offset, the inline and the crossline number are 64-bit integers wherever a header
      has them, as they are when a rule has read it. */
  ghost predicate Integral(h: Cells) {
    forall m :: m in {14, 26, 27} && m in h ==> h[m].Whole? && -0x8000_0000_0000_0000 <= h[m].n < 0x8000_0000_0000_0000
  }

  /** A coordinate; without the field it is zero. */
  ghost function Coordinate(h: Cells, m: Meta): real {
    if m !in h then 0.0 else if h[m].Real? then h[m].x else h[m].n as real
  }

  /** The offset, inline or crossline number; without the field it is zero. */
  ghost function Number(h: Cells, m: Meta): int
    requires Integral(h) && m in {14, 26, 27}
  {
    if m in h then h[m].n else 0
  }

  /** The square of the distance between source and receiver. */
  ghost function Squared(h: Cells): real {
    var dx, dy := Coordinate(h, 20) - Coordinate(h, 22), Coordinate(h, 21) - Coordinate(h, 23);
    dx * dx + dy * dy
  }

  /** The offset of the header, read as an unsigned number. */
  ghost function Unsigned(h: Cells): real
    requires Integral(h)
  {
    if Number(h, 14) < 0 then (Number(h, 14) + 0x1_0000_0000_0000_0000) as real else Number(h, 14) as real
  }

  /** What a sort type orders headers by, most significant first. */
  ghost function OrderFields(kind: SortType, h: Cells): seq<real>
    requires Integral(h)
  {
    var xSrc, ySrc, xRcv, yRcv := Coordinate(h, 20), Coordinate(h, 21), Coordinate(h, 22), Coordinate(h, 23);
    var il, xl := Number(h, 26) as real, Number(h, 27) as real;
    match kind
    case SrcRcv => [xSrc, ySrc, xRcv, yRcv]
    case SrcOff => [xSrc, ySrc, Squared(h)]
    case SrcROff => [xSrc, ySrc, Unsigned(h)]
    case RcvOff => [xRcv, yRcv, Squared(h)]
    case RcvROff => [xRcv, yRcv, Unsigned(h)]
    case LineOff => [il, xl, Squared(h)]
    case LineROff => [il, xl, Unsigned(h)]
    case OffLine => [Squared(h), il, xl]
    case ROffLine => [Unsigned(h), il, xl]
  }

  /** Where the lists first differ, the first one has the smaller entry. */
  ghost predicate InOrder(a: seq<real>, b: seq<real>) {
    |a| == |b| && forall i :: 0 <= i < |a| && a[..i] == b[..i] ==> a[i] <= b[i]
  }

  lemma {:induction false} LexInOrder(a: seq<real>, b: seq<real>)
    requires |a| == |b| && (Lex(a, b) || a == b)
    ensures InOrder(a, b)
  {
    if a != [] && a != b && a[0] == b[0] {
      LexInOrder(a[1..], b[1..]);
      forall i | 0 <= i < |a| && a[..i] == b[..i] ensures a[i] <= b[i] {
        if i > 0 {
          assert a[1..][..i - 1] == a[..i][1..] == b[..i][1..] == b[1..][..i - 1];
          assert a[1..][i - 1] <= b[1..][i - 1];
        }
      }
    } else if a != [] && a != b {
      forall i | 0 < i < |a| ensures a[..i] != b[..i] {
        assert a[..i][0] == a[0] && b[..i][0] == b[0];
      }
    }
  }

  /** The comparisons read the fields named above. */
  lemma {:induction false} KeysAreFields(kind: SortType, h: Cells)
    requires Integral(h)
    ensures Keys(kind, TraceOf(h)) == OrderFields(kind, h)
  {
    PartsOf(h);
    hide TraceOf, Integral, Coordinate, Number;
  }

  lemma {:induction false} PartsOf(h: Cells)
    requires Integral(h)
    ensures var t := TraceOf(h);
            && t.xSrc == Coordinate(h, 20) && t.ySrc == Coordinate(h, 21)
            && t.xRcv == Coordinate(h, 22) && t.yRcv == Coordinate(h, 23)
            && t.offset == Number(h, 14) && t.il == Number(h, 26) && t.xl == Number(h, 27)
  {
    assert forall m :: m in {14, 26, 27} && m in h ==> h[m].Whole?;
  }

  /** The same header but for the local number. */
  ghost predicate Agree(h: Cells, o: Cells) {
    forall m :: m != 1 ==> (m in o <==> m in h) && (m in h ==> o[m] == h[m])
  }

  lemma {:induction false} SameFields(kind: SortType, h: Cells, o: Cells)
    requires Agree(h, o) && Integral(o)
    ensures Integral(h) && OrderFields(kind, h) == OrderFields(kind, o)
  {
    assert forall m :: m in {14, 20, 21, 22, 23, 26, 27} ==> (m in o <==> m in h) && (m in h ==> o[m] == h[m]);
    assert Integral(h);
    hide Integral, Agree;
    assert forall m :: m in {20, 21, 22, 23} ==> Coordinate(h, m) == Coordinate(o, m);
    assert forall m :: m in {14, 26, 27} ==> Number(h, m) == Number(o, m);
    hide Coordinate, Number;
    assert Squared(h) == Squared(o) && Unsigned(h) == Unsigned(o);
    hide Squared, Unsigned;
  }
}
