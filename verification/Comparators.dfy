/**
 The nine trace comparisons of the sort operation. Each of them compares a list of
 keys one after the other and ends with the local trace number, which is what
 makes it free of ties.
 */
module Comparators {
  import opened Params
  import opened Sorting

  /** The parameters the comparisons read, and the global number. Coordinates are
      exact numbers here. */
  datatype Trace = Trace(
    xSrc: real, ySrc: real, xRcv: real, yRcv: real,
    offset: LLint, il: LLint, xl: LLint,
    ltn: LLint, gtn: Size)

  datatype SortType = SrcRcv | SrcOff | SrcROff | RcvOff | RcvROff | LineOff | LineROff | OffLine | ROffLine

  /** The square of the distance. */
  function Off(sx: real, sy: real, rx: real, ry: real): real {
    (sx - rx) * (sx - rx) + (sy - ry) * (sy - ry)
  }

  /** The signed header field read as an unsigned 64-bit number. */
  function AsSize(v: int): real {
    (if v < 0 then v + 0x1_0000_0000_0000_0000 else v) as real
  }

  /** Either the distance computed from the coordinates or the header's own. */
  function Distance(calcOff: bool, t: Trace): real {
    if calcOff then Off(t.xSrc, t.ySrc, t.xRcv, t.yRcv) else AsSize(t.offset)
  }

  predicate LessSrcRcv(a: Trace, b: Trace) {
    if a.xSrc < b.xSrc then true
    else if a.xSrc == b.xSrc then
      if a.ySrc < b.ySrc then true
      else if a.ySrc == b.ySrc then
        if a.xRcv < b.xRcv then true
        else if a.xRcv == b.xRcv then
          if a.yRcv < b.yRcv then true
          else a.yRcv == b.yRcv && a.ltn < b.ltn
        else false
      else false
    else false
  }

  predicate LessSrcOff(calcOff: bool, a: Trace, b: Trace) {
    if a.xSrc < b.xSrc then true
    else if a.xSrc == b.xSrc then
      if a.ySrc < b.ySrc then true
      else if a.ySrc == b.ySrc then
        var off1, off2 := Distance(calcOff, a), Distance(calcOff, b);
        off1 < off2 || (off1 == off2 && a.ltn < b.ltn)
      else false
    else false
  }

  predicate LessRcvOff(calcOff: bool, a: Trace, b: Trace) {
    if a.xRcv < b.xRcv then true
    else if a.xRcv == b.xRcv then
      if a.yRcv < b.yRcv then true
      else if a.yRcv == b.yRcv then
        var off1, off2 := Distance(calcOff, a), Distance(calcOff, b);
        off1 < off2 || (off1 == off2 && a.ltn < b.ltn)
      else false
    else false
  }

  predicate LessLineOff(calcOff: bool, a: Trace, b: Trace) {
    if a.il < b.il then true
    else if a.il == b.il then
      if a.xl < b.xl then true
      else if a.xl == b.xl then
        var off1, off2 := Distance(calcOff, a), Distance(calcOff, b);
        off1 < off2 || (off1 == off2 && a.ltn < b.ltn)
      else false
    else false
  }

  predicate LessOffLine(calcOff: bool, a: Trace, b: Trace) {
    var off1, off2 := Distance(calcOff, a), Distance(calcOff, b);
    if off1 < off2 then true
    else if off1 == off2 then
      if a.il < b.il then true
      else if a.il == b.il then
        a.xl < b.xl || (a.xl == b.xl && a.ltn < b.ltn)
      else false
    else false
  }

  predicate Less(kind: SortType, a: Trace, b: Trace) {
    match kind
    case SrcRcv => LessSrcRcv(a, b)
    case SrcOff => LessSrcOff(true, a, b)
    case SrcROff => LessSrcOff(false, a, b)
    case RcvOff => LessRcvOff(true, a, b)
    case RcvROff => LessRcvOff(false, a, b)
    case LineOff => LessLineOff(true, a, b)
    case LineROff => LessLineOff(false, a, b)
    case OffLine => LessOffLine(true, a, b)
    case ROffLine => LessOffLine(false, a, b)
  }

  /** `getComp`. */
  function GetComp(kind: SortType): (Trace, Trace) -> bool {
    (a: Trace, b: Trace) => Less(kind, a, b)
  }

  // -------------------------------------------------- what the comparisons mean

  /** The fields a sort type orders by, most significant first. */
  function Keys(kind: SortType, t: Trace): (keys: seq<real>)
  {
    match kind
    case SrcRcv => [t.xSrc, t.ySrc, t.xRcv, t.yRcv]
    case SrcOff => [t.xSrc, t.ySrc, Distance(true, t)]
    case SrcROff => [t.xSrc, t.ySrc, Distance(false, t)]
    case RcvOff => [t.xRcv, t.yRcv, Distance(true, t)]
    case RcvROff => [t.xRcv, t.yRcv, Distance(false, t)]
    case LineOff => [t.il as real, t.xl as real, Distance(true, t)]
    case LineROff => [t.il as real, t.xl as real, Distance(false, t)]
    case OffLine => [Distance(true, t), t.il as real, t.xl as real]
    case ROffLine => [Distance(false, t), t.il as real, t.xl as real]
  }

  /** Dictionary order. */
  predicate Lex(a: seq<real>, b: seq<real>)
    requires |a| == |b|
  {
    a != [] && (a[0] < b[0] || (a[0] == b[0] && Lex(a[1..], b[1..])))
  }

  /** Every comparison is the dictionary order of its keys; equal keys are told
      apart by the local trace number. */
  lemma {:induction false} LessIsLex(kind: SortType, a: Trace, b: Trace)
    ensures |Keys(kind, a)| == |Keys(kind, b)|
    ensures Less(kind, a, b)
        <==> Lex(Keys(kind, a), Keys(kind, b)) || (Keys(kind, a) == Keys(kind, b) && a.ltn < b.ltn)
  {
    hide Distance;
    var ka, kb := Keys(kind, a), Keys(kind, b);
    LexUnfold(ka, kb);
    if |ka| == 4 {
      assert ka == [ka[0], ka[1], ka[2], ka[3]];
    } else {
      assert ka == [ka[0], ka[1], ka[2]];
    }
  }

  lemma {:induction false} LexUnfold(a: seq<real>, b: seq<real>)
    requires 3 <= |a| == |b| <= 4
    ensures Lex(a, b) <==>
              || a[0] < b[0]
              || (a[0] == b[0] && a[1] < b[1])
              || (a[0] == b[0] && a[1] == b[1] && a[2] < b[2])
              || (|a| == 4 && a[0] == b[0] && a[1] == b[1] && a[2] == b[2] && a[3] < b[3])
  {
    assert a[1..][1..] == a[2..] && b[1..][1..] == b[2..];
    assert a[2..][1..] == a[3..] && b[2..][1..] == b[3..];
    assert Lex(a[1..], b[1..]) <==> a[1] < b[1] || (a[1] == b[1] && Lex(a[2..], b[2..]));
    assert Lex(a[2..], b[2..]) <==> a[2] < b[2] || (a[2] == b[2] && Lex(a[3..], b[3..]));
    if |a| == 4 {
      assert a[3..] == [a[3]] && b[3..] == [b[3]];
      assert !Lex(a[3..][1..], b[3..][1..]);
    }
  }

  lemma {:induction false} LexIrreflexive(a: seq<real>)
    ensures !Lex(a, a)
  {
    if a != [] {
      LexIrreflexive(a[1..]);
    }
  }

  lemma {:induction false} LexTransitive(a: seq<real>, b: seq<real>, c: seq<real>)
    requires |a| == |b| == |c|
    ensures Lex(a, b) && Lex(b, c) ==> Lex(a, c)
  {
    if a != [] {
      LexTransitive(a[1..], b[1..], c[1..]);
    }
  }

  lemma {:induction false} LexTotal(a: seq<real>, b: seq<real>)
    requires |a| == |b|
    ensures Lex(a, b) || Lex(b, a) || a == b
  {
    if a != [] {
      LexTotal(a[1..], b[1..]);
      assert a == [a[0]] + a[1..] && b == [b[0]] + b[1..];
    }
  }

  /** Keys first, then trace number: each pair of traces falls in one of three
      cases. */
  lemma {:induction false} LessTrichotomy(kind: SortType, a: Trace, b: Trace)
    ensures !Less(kind, a, a)
    ensures !(Less(kind, a, b) && Less(kind, b, a))
    ensures Less(kind, a, b) || Less(kind, b, a) || (Keys(kind, a) == Keys(kind, b) && a.ltn == b.ltn)
  {
    hide Less, Keys, Lex;
    LessIsLex(kind, a, a);
    LessIsLex(kind, a, b);
    LessIsLex(kind, b, a);
    LexIrreflexive(Keys(kind, a));
    LexIrreflexive(Keys(kind, b));
    LexTransitive(Keys(kind, a), Keys(kind, b), Keys(kind, a));
    LexTotal(Keys(kind, a), Keys(kind, b));
  }

  lemma {:induction false} LessTransitive(kind: SortType, a: Trace, b: Trace, c: Trace)
    requires Less(kind, a, b) && Less(kind, b, c)
    ensures Less(kind, a, c)
  {
    hide Less, Keys, Lex;
    LessIsLex(kind, a, b);
    LessIsLex(kind, b, c);
    LessIsLex(kind, a, c);
    LexTransitive(Keys(kind, a), Keys(kind, b), Keys(kind, c));
  }

  lemma {:induction false} SameKeysInterchange(kind: SortType, a: Trace, b: Trace, c: Trace)
    requires Keys(kind, a) == Keys(kind, b) && a.ltn == b.ltn
    ensures Less(kind, a, c) <==> Less(kind, b, c)
    ensures Less(kind, c, a) <==> Less(kind, c, b)
  {
    hide Less, Keys, Lex;
    LessIsLex(kind, a, c);
    LessIsLex(kind, b, c);
    LessIsLex(kind, c, a);
    LessIsLex(kind, c, b);
  }

  /** Every sort type gives `std::sort` the order it demands. */
  lemma {:induction false} ComparatorsAreOrders(kind: SortType)
    ensures StrictWeakOrder(GetComp(kind))
  {
    hide Less, Keys;
    forall x ensures !GetComp(kind)(x, x) {
      LessTrichotomy(kind, x, x);
    }
    forall x, y, z | GetComp(kind)(x, y) && GetComp(kind)(y, z) ensures GetComp(kind)(x, z) {
      LessTransitive(kind, x, y, z);
    }
    forall x, y, z | GetComp(kind)(x, z) ensures GetComp(kind)(x, y) || GetComp(kind)(y, z) {
      LessTrichotomy(kind, x, y);
      if Less(kind, y, x) {
        LessTransitive(kind, y, x, z);
      } else if !Less(kind, x, y) {
        SameKeysInterchange(kind, x, y, z);
      }
    }
  }

  ghost predicate DistinctLtn(s: seq<Trace>) {
    forall x, y :: x in s && y in s && x != y ==> x.ltn != y.ltn
  }

  /** With distinct local trace numbers no sort type leaves a tie. */
  lemma {:induction false} NoTies(kind: SortType, s: seq<Trace>)
    requires DistinctLtn(s)
    ensures TotalOn(GetComp(kind), s)
  {
    hide Less, Keys;
    forall x, y | x in s && y in s && x != y ensures GetComp(kind)(x, y) || GetComp(kind)(y, x) {
      LessTrichotomy(kind, x, y);
    }
  }

  // ----------------------------------------------------------------- checkOrder

  /** The traces of one rank's part of a file, numbered as they are read. */
  predicate ReadFrom(first: nat, s: seq<Trace>) {
    forall i :: 0 <= i < |s| ==> s[i].ltn == first + i
  }

  /** `checkOrder`: does each trace of the part come before the next one? */
  method CheckOrder(kind: SortType, part: seq<Trace>) returns (ok: bool)
    ensures ok <==> forall i :: 1 <= i < |part| ==> Less(kind, part[i - 1], part[i])
  {
    ok := true;
    var i := 1;
    while i < |part|
      invariant 1 <= i
      invariant forall k :: 1 <= k < i && k < |part| ==> Less(kind, part[k - 1], part[k])
    {
      if !Less(kind, part[i - 1], part[i]) {
        ok := false;
        return;
      }
      i := i + 1;
    }
  }

  /** What the check means: it accepts exactly the parts whose keys are in order. */
  lemma {:induction false} CheckMeansSorted(kind: SortType, first: nat, part: seq<Trace>)
    requires ReadFrom(first, part)
    ensures (forall i :: 1 <= i < |part| ==> Less(kind, part[i - 1], part[i]))
       <==> (forall i, j :: 0 <= i < j < |part| ==> |Keys(kind, part[i])| == |Keys(kind, part[j])| && !Lex(Keys(kind, part[j]), Keys(kind, part[i])))
  {
    hide Less, Keys, Lex;
    if forall i :: 1 <= i < |part| ==> Less(kind, part[i - 1], part[i]) {
      forall i, j | 0 <= i < j < |part|
        ensures |Keys(kind, part[i])| == |Keys(kind, part[j])| && !Lex(Keys(kind, part[j]), Keys(kind, part[i]))
      {
        ChainLess(kind, part, i, j);
        LessTrichotomy(kind, part[i], part[j]);
        LessIsLex(kind, part[j], part[i]);
      }
    }
    if forall i, j :: 0 <= i < j < |part| ==> |Keys(kind, part[i])| == |Keys(kind, part[j])| && !Lex(Keys(kind, part[j]), Keys(kind, part[i])) {
      forall i | 1 <= i < |part| ensures Less(kind, part[i - 1], part[i]) {
        assert part[i - 1].ltn < part[i].ltn;
        LessIsLex(kind, part[i - 1], part[i]);
        LexTotal(Keys(kind, part[i - 1]), Keys(kind, part[i]));
      }
    }
  }

  lemma {:induction false} ChainLess(kind: SortType, part: seq<Trace>, i: nat, j: nat)
    requires forall k :: 1 <= k < |part| ==> Less(kind, part[k - 1], part[k])
    requires i < j < |part|
    ensures Less(kind, part[i], part[j])
    decreases j
  {
    hide Less;
    assert Less(kind, part[j - 1], part[j]);
    if i < j - 1 {
      ChainLess(kind, part, i, j - 1);
      LessTransitive(kind, part[i], part[j - 1], part[j]);
    }
  }
}
