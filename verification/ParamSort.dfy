/**
 `sortP`: the nearest-neighbour sort of trace parameters, in lock step. It differs
 from the vector form in three ways: rows travel through the staging structures
 `sprm` and `rprm`, a range is sorted through an index vector and the scratch
 structure `temp3`, and a change is detected by the trace number `gtn` alone.

 Entry r of a sequence of structures is the structure of that name on rank r. The
 ranks agree on the rule; one object stands for all their copies.
 */
module ParamSort {
  import opened Sorting
  import opened Blocks
  import opened NearestNeighbour
  import opened SortProtocol
  import opened SortTheorems
  import opened SortIndex
  import opened DistributedSort
  import opened TraceNumbers
  import opened RuleTable
  import opened Params
  import opened ParamColumns
  import opened ParamExchange
  import opened TraceRows

  /** A structure per rank, no two the same, all with the rule r. */
  ghost predicate Ranks(r: Rule, ps: seq<Param>)
    reads r, ps
  {
    && Plain(r)
    && (forall i :: 0 <= i < |ps| ==> ps[i].r == r && ps[i].Valid())
    && (forall i, j :: 0 <= i < j < |ps| ==> ps[i] != ps[j])
  }

  /** The rows of every rank. */
  ghost function RowsOf(r: Rule, ps: seq<Param>): (rows: seq<seq<Cells>>)
    requires Ranks(r, ps)
    reads r, ps
    ensures |rows| == |ps| && forall i :: 0 <= i < |ps| ==> rows[i] == AllRows(ps[i]) && |rows[i]| == ps[i].sz
  {
    seq(|ps|, i requires 0 <= i < |ps| && Ranks(r, ps) reads r, ps => AllRows(ps[i]))
  }

  /** The rows of every rank, when they are those of t. */
  ghost predicate Hold(r: Rule, ps: seq<Param>, t: seq<seq<Cells>>)
    reads r, ps
  {
    Ranks(r, ps) && RowsOf(r, ps) == t
  }

  /** No structure is in both sequences. */
  ghost predicate Apart(ps: seq<Param>, qs: seq<Param>) {
    forall i, j :: 0 <= i < |ps| && 0 <= j < |qs| ==> ps[i] != qs[j]
  }

  lemma {:induction false} RankHolds(r: Rule, ps: seq<Param>, t: seq<seq<Cells>>, i: nat)
    requires Hold(r, ps, t) && i < |ps|
    ensures |ps| == |t| && ps[i].Valid() && ps[i].r == r && Plain(r)
    ensures AllRows(ps[i]) == t[i] && |t[i]| == ps[i].sz
  {
  }

  /** Sorts positions `from` .. `to` - 1 through an index vector and `temp3`. */
  method SortRange(less: (Cells, Cells) -> bool, buf: Param, temp3: Param, from: nat, to: nat)
    requires StrictWeakOrder(less) && buf.Valid() && temp3.Valid() && Plain(buf.r)
    requires buf != temp3 && buf.r == temp3.r && from <= to <= buf.sz && to - from <= temp3.sz
    requires TotalOn(less, AllRows(buf)[from..to])
    modifies buf, temp3
    ensures buf.Valid() && temp3.Valid()
    ensures AllRows(buf) == old(AllRows(buf)[..from] + Sort(less, AllRows(buf)[from..to]) + AllRows(buf)[to..])
  {
    hide *;
    PlainMeans(buf.r);
    ghost var rows := AllRows(buf);
    var t1 := Indices(less, AllRows(buf)[..to], from);
    RangeSorted(less, rows, t1, from, to);
    ghost var sorted := Sort(less, rows[from..to]);
    for i := 0 to |t1|
      invariant buf.Valid() && temp3.Valid() && AllRows(buf) == rows
      invariant AllRows(temp3)[..i] == sorted[..i]
    {
      assert t1[i] < |rows|;
      ghost var before := AllRows(temp3);
      CpyPrm(t1[i], buf, i, temp3);
      assert AllRows(temp3) == before[i := rows[t1[i]]];
      assert AllRows(temp3)[..i + 1] == before[..i] + [rows[t1[i]]];
      assert sorted[..i + 1] == sorted[..i] + [sorted[i]];
    }
    CopyRows(temp3, 0, |t1|, buf, from);
    RangeOverwritten(rows, from, to, sorted, AllRows(temp3), |t1|);
  }

  lemma {:induction false} RangeOverwritten(rows: seq<Cells>, from: nat, to: nat, sorted: seq<Cells>, scratch: seq<Cells>, n: nat)
    requires from <= to <= |rows| && |sorted| == to - from == n <= |scratch| && scratch[..n] == sorted[..n]
    ensures Overwritten(rows, from, scratch[0..n]) == rows[..from] + sorted + rows[to..]
  {
    assert scratch[0..n] == sorted;
  }

  /** Following the sorted index vector visits the range in order. */
  lemma {:induction false} RangeSorted(less: (Cells, Cells) -> bool, rows: seq<Cells>, t1: seq<nat>, from: nat, to: nat)
    requires StrictWeakOrder(less) && from <= to <= |rows| && TotalOn(less, rows[from..to])
    requires t1 == Indices(less, rows[..to], from)
    ensures |t1| == to - from == |Sort(less, rows[from..to])|
    ensures forall i :: 0 <= i < |t1| ==> t1[i] < to && rows[t1[i]] == Sort(less, rows[from..to])[i]
  {
    hide StrictWeakOrder, TotalOn, Sort, Indices;
    assert rows[..to][from..] == rows[from..to];
    GatherIsSort(less, rows[..to], from);
  }

  // ------------------------------------------------------------------ exchanges

  /** The vectors of a region are under way. */
  ghost predicate Mailed(l: Layout, sent: seq<Message>, region: seq<Cells>) {
    l.Valid() && AreRows(l, region) && sent == Columns(l, region)
  }

  method Mail(prm: Param, from: nat, regionSz: nat) returns (sent: seq<Message>)
    requires prm.Valid() && Plain(prm.r) && from + regionSz <= prm.sz
    ensures Mailed(LayoutOf(prm.r), sent, AllRows(prm)[from..from + regionSz])
  {
    sent := SendRegion(prm, from, regionSz);
  }

  /** Rank q takes the rows of its neighbour in; the other ranks keep what they hold. */
  method Unmail(r: Rule, ps: seq<Param>, ghost t: seq<seq<Cells>>, q: nat, to: nat, regionSz: nat, sent: seq<Message>,
                ghost region: seq<Cells>)
    requires Hold(r, ps, t) && q < |ps| == |t| && to + regionSz <= |t[q]| && |region| == regionSz
    requires Mailed(LayoutOf(r), sent, region)
    modifies ps[q]
    ensures Hold(r, ps, t[q := t[q][..to] + region + t[q][to + regionSz..]])
  {
    hide AllRows, Columns, LayoutOf, AreRows;
    ReceiveRegion(ps[q], to, regionSz, sent, region);
  }

  /** What every rank but the first sends to the left. */
  method MailLeft(r: Rule, regionSz: nat, ps: seq<Param>, ghost t: seq<seq<Cells>>) returns (mail: seq<seq<Message>>)
    requires Hold(r, ps, t) && Wide(regionSz, t) && ps != []
    ensures |mail| == |ps| - 1 && |ps| == |t|
    ensures forall b :: 0 <= b < |ps| - 1 ==> Mailed(LayoutOf(r), mail[b], t[b + 1][..regionSz])
  {
    hide Hold, Mailed, LayoutOf, Plain, AllRows;
    RankHolds(r, ps, t, 0);
    mail := [];
    for q := 1 to |ps|
      invariant |mail| == q - 1 && Hold(r, ps, t)
      invariant forall b :: 0 <= b < q - 1 ==> Mailed(LayoutOf(r), mail[b], t[b + 1][..regionSz])
    {
      RankHolds(r, ps, t, q);
      var sent := Mail(ps[q], 0, regionSz);
      mail := mail + [sent];
    }
  }

  /** Each rank's first rows go to the end of its left neighbour's structure. */
  method SendLeft(r: Rule, regionSz: nat, ps: seq<Param>, ghost t: seq<seq<Cells>>)
    requires Hold(r, ps, t) && Wide(regionSz, t) && ps != []
    modifies ps
    ensures Hold(r, ps, AfterSendLeft(regionSz, t))
  {
    hide Hold, Mailed, LayoutOf, Plain, AllRows, Borrow;
    var n := |ps|;
    var mail := MailLeft(r, regionSz, ps, t);
    ghost var u := t;
    for q := 0 to n - 1
      invariant Hold(r, ps, u) && |u| == n
      invariant forall i :: 0 <= i < n ==> u[i] == if i < q then Borrow(regionSz, t, i) else t[i]
    {
      RankHolds(r, ps, u, q);
      BorrowIs(regionSz, t, q);
      Unmail(r, ps, u, q, ps[q].sz - regionSz, regionSz, mail[q], t[q + 1][..regionSz]);
      u := u[q := Borrow(regionSz, t, q)];
    }
    assert u == AfterSendLeft(regionSz, t) by {
      LastKeeps(regionSz, t);
    }
  }

  lemma {:induction false} BorrowIs<T>(R: nat, t: seq<seq<T>>, q: nat)
    requires Wide(R, t) && q + 1 < |t|
    ensures Borrow(R, t, q) == t[q][..|t[q]| - R] + t[q + 1][..R] + t[q][|t[q]|..]
  {
  }

  lemma {:induction false} LastKeeps<T>(R: nat, t: seq<seq<T>>)
    requires Wide(R, t) && t != []
    ensures Borrow(R, t, |t| - 1) == t[|t| - 1]
  {
  }

  /** What every rank but the last sends to the right. */
  method MailRight(r: Rule, regionSz: nat, ps: seq<Param>, ghost t: seq<seq<Cells>>) returns (mail: seq<seq<Message>>)
    requires Hold(r, ps, t) && Wide(regionSz, t) && ps != []
    ensures |mail| == |ps| - 1 && |ps| == |t|
    ensures forall b :: 0 <= b < |ps| - 1 ==> Mailed(LayoutOf(r), mail[b], t[b][|t[b]| - regionSz..])
  {
    hide Hold, Mailed, LayoutOf, Plain, AllRows;
    RankHolds(r, ps, t, 0);
    mail := [];
    for q := 0 to |ps| - 1
      invariant |mail| == q && Hold(r, ps, t)
      invariant forall b :: 0 <= b < q ==> Mailed(LayoutOf(r), mail[b], t[b][|t[b]| - regionSz..])
    {
      RankHolds(r, ps, t, q);
      var sent := Mail(ps[q], ps[q].sz - regionSz, regionSz);
      assert t[q][|t[q]| - regionSz..|t[q]|] == t[q][|t[q]| - regionSz..];
      mail := mail + [sent];
    }
  }

  /** Each rank's last rows go to the head of its right neighbour's structure. */
  method SendRight(r: Rule, regionSz: nat, ps: seq<Param>, ghost t: seq<seq<Cells>>)
    requires Hold(r, ps, t) && Wide(regionSz, t) && ps != []
    modifies ps
    ensures Hold(r, ps, AfterSendRight(regionSz, t))
  {
    hide Hold, Mailed, LayoutOf, Plain, AllRows, GiveBack;
    var n := |ps|;
    var mail := MailRight(r, regionSz, ps, t);
    ghost var u := t;
    for q := 1 to n
      invariant Hold(r, ps, u) && |u| == n
      invariant forall i :: 0 < i < n ==> u[i] == if i < q then GiveBack(regionSz, t, i) else t[i]
      invariant u[0] == t[0]
    {
      RankHolds(r, ps, u, q);
      GiveBackIs(regionSz, t, q);
      Unmail(r, ps, u, q, 0, regionSz, mail[q - 1], t[q - 1][|t[q - 1]| - regionSz..]);
      u := u[q := GiveBack(regionSz, t, q)];
    }
    assert u == AfterSendRight(regionSz, t) by {
      FirstKeeps(regionSz, t);
    }
  }

  lemma {:induction false} GiveBackIs<T>(R: nat, t: seq<seq<T>>, q: nat)
    requires Wide(R, t) && 0 < q < |t|
    ensures GiveBack(R, t, q) == t[q][..0] + t[q - 1][|t[q - 1]| - R..] + t[q][R..]
  {
  }

  lemma {:induction false} FirstKeeps<T>(R: nat, t: seq<seq<T>>)
    requires Wide(R, t) && t != []
    ensures GiveBack(R, t, 0) == t[0]
  {
  }

  // ----------------------------------------------------------------- local sorts

  /** The scratch structure of each rank is long enough. */
  ghost predicate Roomy(r: Rule, temp3: seq<Param>, t: seq<seq<Cells>>)
    reads r, temp3
  {
    Ranks(r, temp3) && |temp3| == |t| && forall q :: 0 <= q < |t| ==> temp3[q].sz == |t[q]|
  }

  /** Rank q sorts a range of its structure. */
  method SortAt(less: (Cells, Cells) -> bool, r: Rule, ps: seq<Param>, temp3: seq<Param>, ghost t: seq<seq<Cells>>, q: nat,
                from: nat, to: nat)
    requires StrictWeakOrder(less) && Hold(r, ps, t) && Roomy(r, temp3, t) && q < |ps| == |t| && from <= to <= |t[q]|
    requires Apart(ps, temp3) && TotalOn(less, t[q][from..to])
    modifies ps[q], temp3[q]
    ensures Hold(r, ps, t[q := t[q][..from] + Sort(less, t[q][from..to]) + t[q][to..]]) && Roomy(r, temp3, t)
  {
    hide AllRows, StrictWeakOrder, TotalOn, Sort;
    SortRange(less, ps[q], temp3[q], from, to);
  }

  method SortWindow(less: (Cells, Cells) -> bool, r: Rule, regionSz: nat, ps: seq<Param>, temp3: seq<Param>,
                    ghost t: seq<seq<Cells>>)
    requires StrictWeakOrder(less) && Hold(r, ps, t) && Roomy(r, temp3, t) && Wide(regionSz, t)
    requires Apart(ps, temp3)
    requires forall q :: 0 <= q < |t| ==> TotalOn(less, t[q][Edge1(regionSz, q)..])
    modifies ps, temp3
    ensures Hold(r, ps, AfterSortWindow(less, regionSz, t)) && Roomy(r, temp3, t)
  {
    hide Hold, Roomy, StrictWeakOrder, TotalOn, Sort, SortFrom;
    var n := |ps|;
    HoldShape(r, ps, t);
    ghost var u := t;
    for q := 0 to n
      invariant Hold(r, ps, u) && Roomy(r, temp3, u) && |u| == n && forall i :: 0 <= i < n ==> |u[i]| == |t[i]|
      invariant forall i :: 0 <= i < n ==> u[i] == if i < q then SortFrom(less, Edge1(regionSz, i), t[i]) else t[i]
    {
      var edge1 := if q > 0 then regionSz else 0;
      WindowIs(less, edge1, t[q]);
      RankHolds(r, ps, u, q);
      RoomShape(r, temp3, u);
      SortAt(less, r, ps, temp3, u, q, edge1, ps[q].sz);
      ghost var u' := u[q := SortFrom(less, edge1, t[q])];
      SameRoom(r, temp3, u, u');
      u := u';
    }
    SameRoom(r, temp3, u, t);
    assert u == AfterSortWindow(less, regionSz, t);
  }

  lemma {:induction false} HoldShape(r: Rule, ps: seq<Param>, t: seq<seq<Cells>>)
    requires Hold(r, ps, t)
    ensures |ps| == |t|
  {
  }

  lemma {:induction false} RoomShape(r: Rule, temp3: seq<Param>, t: seq<seq<Cells>>)
    requires Roomy(r, temp3, t)
    ensures |temp3| == |t|
  {
  }

  lemma {:induction false} SameRoom(r: Rule, temp3: seq<Param>, t: seq<seq<Cells>>, u: seq<seq<Cells>>)
    requires Roomy(r, temp3, t) && |u| == |t| && forall q :: 0 <= q < |t| ==> |u[q]| == |t[q]|
    ensures Roomy(r, temp3, u)
  {
  }

  lemma {:induction false} WindowIs<T>(less: (T, T) -> bool, edge: nat, s: seq<T>)
    requires edge <= |s|
    ensures s[edge..|s|] == s[edge..]
    ensures s[..edge] + Sort(less, s[edge..|s|]) + s[|s|..] == SortFrom(less, edge, s)
  {
    assert s[edge..|s|] == s[edge..];
  }

  lemma {:induction false} OwnedIs<T>(less: (T, T) -> bool, edge: nat, s: seq<T>)
    requires edge <= |s|
    ensures s[0..|s| - edge] == s[..|s| - edge]
    ensures s[..0] + Sort(less, s[0..|s| - edge]) + s[|s| - edge..] == SortUpTo(less, edge, s)
  {
    assert s[0..|s| - edge] == s[..|s| - edge];
  }

  method SortOwned(less: (Cells, Cells) -> bool, r: Rule, regionSz: nat, ps: seq<Param>, temp3: seq<Param>,
                   ghost t: seq<seq<Cells>>)
    requires StrictWeakOrder(less) && Hold(r, ps, t) && Roomy(r, temp3, t) && Wide(regionSz, t)
    requires Apart(ps, temp3)
    requires forall q :: 0 <= q < |t| ==> TotalOn(less, Owned(regionSz, t)[q])
    modifies ps, temp3
    ensures Hold(r, ps, AfterSortOwned(less, regionSz, t)) && Roomy(r, temp3, t)
  {
    hide Hold, Roomy, StrictWeakOrder, TotalOn, Sort, SortUpTo;
    var n := |ps|;
    HoldShape(r, ps, t);
    ghost var u := t;
    for q := 0 to n
      invariant Hold(r, ps, u) && Roomy(r, temp3, u) && |u| == n && forall i :: 0 <= i < n ==> |u[i]| == |t[i]|
      invariant forall i :: 0 <= i < n ==> u[i] == if i < q then SortUpTo(less, Edge2(regionSz, n, i), t[i]) else t[i]
    {
      var edge2 := if q != n - 1 then regionSz else 0;
      OwnedIs(less, edge2, t[q]);
      assert TotalOn(less, Owned(regionSz, t)[q]);
      RankHolds(r, ps, u, q);
      RoomShape(r, temp3, u);
      SortAt(less, r, ps, temp3, u, q, 0, ps[q].sz - edge2);
      ghost var u' := u[q := SortUpTo(less, edge2, t[q])];
      SameRoom(r, temp3, u, u');
      u := u';
    }
    SameRoom(r, temp3, u, t);
    assert u == AfterSortOwned(less, regionSz, t);
  }

  // ------------------------------------------------------------------ the round

  /** `temp2 = temp1` on one rank. */
  method Assign(dst: Param, src: Param)
    requires src.Valid() && dst.r == src.r && dst.sz == src.sz && Plain(src.r)
    modifies dst
    ensures dst.Valid() && AllRows(dst) == old(AllRows(src))
  {
    hide *;
    VectorsAreColumns(src);
    ghost var rows := AllRows(src);
    CopyVectors(dst, src);
    VectorsDetermine(dst, rows);
  }

  method CopyVectors(dst: Param, src: Param)
    requires src.Valid() && dst.r == src.r && dst.sz == src.sz
    modifies dst
    ensures dst.Valid() && VectorsOf(dst) == old(VectorsOf(src))
  {
    dst.f, dst.i, dst.s, dst.t := src.f, src.i, src.s, src.t;
  }

  method AssignAt(r: Rule, temp1: seq<Param>, temp2: seq<Param>, ghost t: seq<seq<Cells>>, ghost u: seq<seq<Cells>>, q: nat)
    requires Hold(r, temp1, t) && Hold(r, temp2, u) && |t| == |u| && q < |t| && |t[q]| == |u[q]|
    requires Apart(temp1, temp2)
    modifies temp2[q]
    ensures Hold(r, temp2, u[q := t[q]])
  {
    hide AllRows;
    Assign(temp2[q], temp1[q]);
  }

  method Snapshot(r: Rule, temp1: seq<Param>, temp2: seq<Param>, ghost t: seq<seq<Cells>>, ghost w: seq<seq<Cells>>)
    requires Hold(r, temp1, t) && Hold(r, temp2, w) && |t| == |w| && forall q :: 0 <= q < |t| ==> |w[q]| == |t[q]|
    requires Apart(temp1, temp2)
    modifies temp2
    ensures Hold(r, temp2, t)
  {
    hide Hold;
    HoldShape(r, temp1, t);
    HoldShape(r, temp2, w);
    ghost var u := w;
    for q := 0 to |temp1|
      invariant Hold(r, temp2, u) && Hold(r, temp1, t) && |u| == |t|
      invariant forall i :: 0 <= i < |t| ==> u[i] == if i < q then t[i] else w[i]
    {
      AssignAt(r, temp1, temp2, t, u, q);
      u := u[q := t[q]];
    }
    assert u == t;
  }

  /** The rule has the column of global trace numbers every rule is made with. */
  ghost predicate GtnColumn(r: Rule)
    reads r
  {
    META_GTN in r.translate && r.translate[META_GTN].kind == Index
  }

  lemma {:induction false} SignedApart(a: Size, b: Size)
    ensures Wrap64(a) == Wrap64(b) <==> a == b
  {
  }

  lemma {:induction false} GtnRead(prm: Param, j: nat)
    requires prm.Valid() && GtnColumn(prm.r) && j < prm.sz
    ensures prm.Has(META_GTN) && prm.Cell(j, META_GTN) == Whole(Gtn()(AllRows(prm)[j]))
  {
    assert AllRows(prm)[j] == CellsOf(prm, j);
    assert InType(Index, prm.Cell(j, META_GTN));
  }

  /** The first n rows of two structures have the same numbers. */
  ghost predicate SameStart(a: seq<Cells>, b: seq<Cells>, n: nat)
    requires n <= |a| && n <= |b|
  {
    forall j :: 0 <= j < n ==> Gtn()(a[j]) == Gtn()(b[j])
  }

  lemma {:induction false} StartGrows(a: seq<Cells>, b: seq<Cells>, j: nat, n: nat)
    requires j < n <= |a| && n <= |b|
    ensures SameStart(a, b, j + 1) <==> SameStart(a, b, j) && Gtn()(a[j]) == Gtn()(b[j])
    ensures SameStart(a, b, n) ==> SameStart(a, b, j + 1)
  {
    hide Gtn;
  }

  /** One rank's `reduced`. Trace numbers are compared, not traces. */
  method Reduced(temp1: Param, temp2: Param, lnt: nat) returns (reduced: nat)
    requires temp1.Valid() && temp2.Valid() && temp1.r == temp2.r && GtnColumn(temp1.r) && lnt <= temp1.sz && lnt <= temp2.sz
    ensures reduced == 0 <==> SameStart(AllRows(temp1), AllRows(temp2), lnt)
  {
    hide AllRows, Gtn, Wrap64, SameStart, GtnColumn;
    reduced := 0;
    var j := 0;
    ghost var a, b := AllRows(temp1), AllRows(temp2);
    assert SameStart(a, b, 0) by { NothingYet(a, b); }
    while j < lnt && reduced == 0
      invariant 0 <= j <= lnt
      invariant if reduced == 0 then SameStart(a, b, j) else !SameStart(a, b, lnt)
    {
      StartGrows(a, b, j, lnt);
      var differ := NumbersDiffer(temp1, temp2, j);
      if differ {
        reduced := 1;
      }
      j := j + 1;
    }
  }

  lemma {:induction false} NothingYet(a: seq<Cells>, b: seq<Cells>)
    ensures SameStart(a, b, 0)
  {
  }

  method NumbersDiffer(temp1: Param, temp2: Param, j: nat) returns (differ: bool)
    requires temp1.Valid() && temp2.Valid() && temp1.r == temp2.r && GtnColumn(temp1.r) && j < temp1.sz && j < temp2.sz
    ensures differ <==> Gtn()(AllRows(temp1)[j]) != Gtn()(AllRows(temp2)[j])
  {
    GtnRead(temp1, j);
    GtnRead(temp2, j);
    SignedApart(Gtn()(AllRows(temp1)[j]), Gtn()(AllRows(temp2)[j]));
    hide AllRows, Gtn, Wrap64;
    var a := temp1.GetPrm(Long, j, META_GTN);
    var b := temp2.GetPrm(Long, j, META_GTN);
    differ := a != b;
  }

  /** The sum of `reduced` over the ranks. */
  method AllReduceChanged(r: Rule, regionSz: nat, temp1: seq<Param>, temp2: seq<Param>, ghost u: seq<seq<Cells>>,
                          ghost t: seq<seq<Cells>>) returns (greduced: nat)
    requires Hold(r, temp1, u) && Hold(r, temp2, t) && GtnColumn(r) && Wide(regionSz, u) && Wide(regionSz, t)
    requires |u| == |t| && forall q :: 0 <= q < |u| ==> |u[q]| == |t[q]|
    ensures greduced == 0 <==> SameNumbers(Gtn(), regionSz, u, t)
  {
    hide Hold, GtnColumn, SameStart, SameNumbers, Plain, AllRows;
    HoldShape(r, temp1, u);
    HoldShape(r, temp2, t);
    StartsDecide(regionSz, u, t);
    greduced := 0;
    for q := 0 to |temp1|
      invariant greduced == 0 <==> forall i :: 0 <= i < q ==> SameStart(u[i], t[i], |u[i]| - Edge2(regionSz, |u|, i))
    {
      RankHolds(r, temp1, u, q);
      RankHolds(r, temp2, t, q);
      var lnt := temp1[q].sz - Edge2(regionSz, |temp1|, q);
      var reduced := Reduced(temp1[q], temp2[q], lnt);
      greduced := greduced + reduced;
    }
  }

  lemma {:induction false} StartsDecide(regionSz: nat, u: seq<seq<Cells>>, t: seq<seq<Cells>>)
    requires Wide(regionSz, u) && Wide(regionSz, t) && |u| == |t| && forall q :: 0 <= q < |u| ==> |u[q]| == |t[q]|
    ensures SameNumbers(Gtn(), regionSz, u, t)
       <==> forall i :: 0 <= i < |u| ==> SameStart(u[i], t[i], |u[i]| - Edge2(regionSz, |u|, i))
  {
    hide Gtn;
    var own := Owned(regionSz, u);
    assert forall i :: 0 <= i < |u| ==> |own[i]| == |u[i]| - Edge2(regionSz, |u|, i);
  }

  // -------------------------------------------------------------------- the sort

  ghost function Repeat<T>(x: T, n: nat): (s: seq<T>)
    ensures |s| == n && forall i :: 0 <= i < n ==> s[i] == x
  {
    seq(n, _ => x)
  }

  /** The first local sort of a rank: by index, from `prm` straight into `temp1`. */
  method LoadRank(less: (Cells, Cells) -> bool, prm: Param, edge2: nat) returns (temp1: Param)
    requires prm.Valid() && Plain(prm.r) && StrictWeakOrder(less) && TotalOn(less, AllRows(prm))
    ensures fresh(temp1) && temp1.Valid() && temp1.r == prm.r
    ensures AllRows(temp1) == Sort(less, AllRows(prm)) + Repeat(Blank(LayoutOf(prm.r)), edge2)
  {
    hide *;
    PlainMeans(prm.r);
    ghost var rows := AllRows(prm);
    assert rows[0..|rows|] == rows && rows[..|rows|] == rows;
    var t1 := Indices(less, AllRows(prm), 0);
    RangeSorted(less, rows, t1, 0, |rows|);
    ghost var sorted, rest := Sort(less, rows), Repeat(Blank(LayoutOf(prm.r)), edge2);
    var lnt := prm.sz;
    temp1 := new Param(prm.r, lnt + edge2);
    BlankRows(temp1);
    for i := 0 to lnt
      invariant prm.Valid() && temp1.Valid() && AllRows(prm) == rows
      invariant AllRows(temp1)[..i] == sorted[..i]
      invariant forall k :: i <= k < lnt + edge2 ==> AllRows(temp1)[k] == Blank(LayoutOf(prm.r))
    {
      ghost var before := AllRows(temp1);
      CpyPrm(t1[i], prm, i, temp1);
      assert AllRows(temp1) == before[i := rows[t1[i]]];
      assert AllRows(temp1)[..i + 1] == before[..i] + [rows[t1[i]]];
      assert sorted[..i + 1] == sorted[..i] + [sorted[i]];
    }
    LoadedParts(AllRows(temp1), sorted, rest);
  }

  lemma {:induction false} LoadedParts<T>(rows: seq<T>, sorted: seq<T>, rest: seq<T>)
    requires |rows| == |sorted| + |rest| && rows[..|sorted|] == sorted[..|sorted|]
    requires forall k :: |sorted| <= k < |rows| ==> rows[k] == rest[k - |sorted|]
    ensures rows == sorted + rest
  {
    assert rows == rows[..|sorted|] + rows[|sorted|..];
    assert rows[|sorted|..] == rest;
  }

  ghost function ConfigOf(less: (Cells, Cells) -> bool, r: Rule, regionSz: nat): Config<Cells>
    reads r
  {
    Config(less, regionSz, Blank(LayoutOf(r)))
  }

  lemma {:induction false} HoldMore(r: Rule, ps: seq<Param>, t: seq<seq<Cells>>, p: Param)
    requires Hold(r, ps, t) && p.r == r && p.Valid() && p !in ps
    ensures Hold(r, ps + [p], t + [AllRows(p)])
  {
    hide AllRows;
    assert RowsOf(r, ps + [p]) == t + [AllRows(p)];
  }

  lemma {:induction false} HoldNone(r: Rule)
    requires Plain(r)
    ensures Hold(r, [], [])
  {
  }

  lemma {:induction false} LoadedAt<T>(c: Config<T>, blocks: seq<seq<T>>, q: nat)
    requires q < |blocks|
    ensures Loaded(c, blocks)[q] == Sort(c.less, blocks[q]) + Repeat(c.blank, Edge2(c.R, |blocks|, q))
    ensures Loaded(c, blocks)[..q + 1] == Loaded(c, blocks)[..q] + [Loaded(c, blocks)[q]]
  {
  }

  /** `temp1` of every rank. */
  method Load(less: (Cells, Cells) -> bool, r: Rule, regionSz: nat, prm: seq<Param>, ghost t: seq<seq<Cells>>) returns (temp1: seq<Param>)
    requires Hold(r, prm, t) && StrictWeakOrder(less) && TotalOn(less, Flatten(t))
    ensures forall i :: 0 <= i < |temp1| ==> fresh(temp1[i])
    ensures Hold(r, temp1, Loaded(ConfigOf(less, r, regionSz), t))
  {
    hide Hold, Plain, AllRows, StrictWeakOrder, TotalOn, Flatten, Sort, Loaded, LayoutOf;
    var n := |prm|;
    HoldShape(r, prm, t);
    HoldPlain(r, prm, t);
    HoldNone(r);
    temp1 := [];
    ghost var loaded := Loaded(ConfigOf(less, r, regionSz), t);
    assert loaded[..0] == [];
    for q := 0 to n
      invariant |temp1| == q && forall i :: 0 <= i < |temp1| ==> fresh(temp1[i])
      invariant Hold(r, prm, t) && Hold(r, temp1, loaded[..q])
    {
      RankHolds(r, prm, t, q);
      BlockTotal(ConfigOf(less, r, regionSz), t, q);
      LoadedAt(ConfigOf(less, r, regionSz), t, q);
      var p := LoadRank(less, prm[q], Edge2(regionSz, n, q));
      HoldMore(r, temp1, loaded[..q], p);
      temp1 := temp1 + [p];
    }
    assert loaded[..n] == loaded;
  }

  lemma {:induction false} HoldPlain(r: Rule, ps: seq<Param>, t: seq<seq<Cells>>)
    requires Hold(r, ps, t)
    ensures Plain(r) && r.Valid()
  {
  }

  /** `temp2` and `temp3`: structures like those of `temp1`. */
  method Like(r: Rule, temp1: seq<Param>, ghost t: seq<seq<Cells>>) returns (ps: seq<Param>, ghost w: seq<seq<Cells>>)
    requires Hold(r, temp1, t)
    ensures forall i :: 0 <= i < |ps| ==> fresh(ps[i])
    ensures Hold(r, ps, w) && |w| == |t| && forall q :: 0 <= q < |t| ==> |w[q]| == |t[q]|
  {
    hide Hold, Plain, AllRows;
    HoldShape(r, temp1, t);
    HoldPlain(r, temp1, t);
    HoldNone(r);
    ps, w := [], [];
    for q := 0 to |temp1|
      invariant |ps| == |w| == q && forall i :: 0 <= i < |ps| ==> fresh(ps[i])
      invariant Hold(r, temp1, t) && Hold(r, ps, w) && forall i :: 0 <= i < q ==> |w[i]| == |t[i]|
    {
      RankHolds(r, temp1, t, q);
      var p := new Param(r, temp1[q].sz);
      HoldMore(r, ps, w, p);
      ps, w := ps + [p], w + [AllRows(p)];
    }
  }

  /** One round of the exchange. */
  method Exchange(less: (Cells, Cells) -> bool, r: Rule, regionSz: nat, temp1: seq<Param>, temp3: seq<Param>,
                  ghost c: Config<Cells>, ghost blocks: seq<seq<Cells>>, ghost k: nat)
    requires c.less == less && c.R == regionSz && Job(c, blocks) && Wide(regionSz, Loaded(c, blocks)) && temp1 != []
    requires Hold(r, temp1, Rounds(less, regionSz, Loaded(c, blocks), k))
    requires Roomy(r, temp3, Rounds(less, regionSz, Loaded(c, blocks), k)) && Apart(temp1, temp3)
    modifies temp1, temp3
    ensures Hold(r, temp1, Rounds(less, regionSz, Loaded(c, blocks), k + 1))
    ensures Roomy(r, temp3, Rounds(less, regionSz, Loaded(c, blocks), k + 1))
  {
    hide Hold, Roomy, Job, Loaded, Wide, Owned, AfterSendLeft, AfterSortWindow, AfterSendRight, AfterSortOwned, TotalOn,
      StrictWeakOrder, Rounds, Round, BeforeSortOwned;
    JobOrder(c, blocks);
    RoundKeepsShape(c, blocks, k);
    RangesTotal(c, blocks, k);
    ghost var t := Rounds(less, regionSz, Loaded(c, blocks), k);
    RoundSteps(less, regionSz, t);
    RoundsUnfold(c, Loaded(c, blocks), k);
    HoldShape(r, temp1, t);
    SendLeft(r, regionSz, temp1, t);
    ghost var a := AfterSendLeft(regionSz, t);
    SameRoom(r, temp3, t, a);
    SortWindow(less, r, regionSz, temp1, temp3, a);
    ghost var b := AfterSortWindow(less, regionSz, a);
    SendRight(r, regionSz, temp1, b);
    ghost var d := AfterSendRight(regionSz, b);
    SameRoom(r, temp3, a, d);
    assert d == BeforeSortOwned(less, regionSz, t);
    SortOwned(less, r, regionSz, temp1, temp3, d);
    SameRoom(r, temp3, d, Round(less, regionSz, t));
  }

  lemma {:induction false} RoundSteps<T>(less: (T, T) -> bool, R: nat, t: seq<seq<T>>)
    requires Wide(R, t)
    ensures BeforeSortOwned(less, R, t) == AfterSendRight(R, AfterSortWindow(less, R, AfterSendLeft(R, t)))
    ensures Round(less, R, t) == AfterSortOwned(less, R, BeforeSortOwned(less, R, t))
    ensures forall r :: 0 <= r < |t| ==> |Round(less, R, t)[r]| == |t[r]|
  {
  }

  method CopyBackAt(r: Rule, temp1: seq<Param>, prm: seq<Param>, ghost u: seq<seq<Cells>>, ghost w: seq<seq<Cells>>, q: nat)
    requires Hold(r, temp1, u) && Hold(r, prm, w) && Apart(temp1, prm) && |u| == |w| && q < |u| && |w[q]| <= |u[q]|
    modifies prm[q]
    ensures Hold(r, prm, w[q := u[q][..|w[q]|]])
  {
    hide AllRows;
    assert u[q][0..|w[q]|] == u[q][..|w[q]|];
    WholeOverwritten(w[q], u[q][0..|w[q]|]);
    CopyRows(temp1[q], 0, prm[q].sz, prm[q], 0);
  }

  /** The sorted rows replace those that were given. */
  method CopyBack(r: Rule, regionSz: nat, temp1: seq<Param>, prm: seq<Param>, ghost u: seq<seq<Cells>>, ghost w: seq<seq<Cells>>)
    requires Hold(r, temp1, u) && Hold(r, prm, w) && Apart(temp1, prm) && Wide(regionSz, u)
    requires |u| == |w| && forall q :: 0 <= q < |u| ==> |w[q]| == |Owned(regionSz, u)[q]|
    modifies prm
    ensures Hold(r, prm, Owned(regionSz, u))
  {
    hide Hold;
    HoldShape(r, temp1, u);
    HoldShape(r, prm, w);
    ghost var v := w;
    for q := 0 to |prm|
      invariant Hold(r, temp1, u) && Hold(r, prm, v) && |v| == |w|
      invariant forall i :: 0 <= i < |w| ==> v[i] == if i < q then Owned(regionSz, u)[i] else w[i]
    {
      CopyBackAt(r, temp1, prm, u, v, q);
      assert Owned(regionSz, u)[q] == u[q][..|w[q]|];
      v := v[q := Owned(regionSz, u)[q]];
    }
    assert v == Owned(regionSz, u);
  }

  lemma {:induction false} NewApart(ps: seq<Param>, qs: seq<Param>)
    requires forall i :: 0 <= i < |qs| ==> qs[i] !in ps
    ensures Apart(ps, qs)
  {
  }

  /** Every buffer keeps its length through the rounds. */
  lemma {:induction false} SizesStay<T(!new)>(c: Config<T>, blocks: seq<seq<T>>, k: nat)
    requires Job(c, blocks) && Wide(c.R, Loaded(c, blocks))
    ensures var u, t0 := Rounds(c.less, c.R, Loaded(c, blocks), k), Loaded(c, blocks);
            |u| == |t0| && forall r :: 0 <= r < |u| ==> |u[r]| == |t0[r]|
  {
    hide Job, Loaded, Wide, Owned, Flatten, Round, StrictWeakOrder, TotalOn;
    JobOrder(c, blocks);
    LoadedReady(c, blocks);
    RoundsKeep(c.less, c.R, Sizes(blocks), Loaded(c, blocks), k);
  }

  lemma {:induction false} OwnedSizes<T(!new)>(c: Config<T>, blocks: seq<seq<T>>, k: nat)
    requires Job(c, blocks) && Wide(c.R, Loaded(c, blocks))
    ensures var own := Owned(c.R, Rounds(c.less, c.R, Loaded(c, blocks), k));
            |own| == |blocks| && forall r :: 0 <= r < |own| ==> |own[r]| == |blocks[r]|
  {
    SizesStay(c, blocks, k);
    hide Job, Rounds, Wide;
  }

  /** `temp2` holds rows of the right number, whatever they are. */
  ghost predicate Sized(r: Rule, ps: seq<Param>, t: seq<seq<Cells>>)
    reads r, ps
  {
    Ranks(r, ps) && |ps| == |t| && forall q :: 0 <= q < |t| ==> |RowsOf(r, ps)[q]| == |t[q]|
  }

  lemma {:induction false} SizedHolds(r: Rule, ps: seq<Param>, t: seq<seq<Cells>>) returns (w: seq<seq<Cells>>)
    requires Sized(r, ps, t)
    ensures Hold(r, ps, w) && |w| == |t| && forall q :: 0 <= q < |t| ==> |w[q]| == |t[q]|
  {
    w := RowsOf(r, ps);
  }

  lemma {:induction false} HoldsSized(r: Rule, ps: seq<Param>, w: seq<seq<Cells>>, t: seq<seq<Cells>>)
    requires Hold(r, ps, w) && |w| == |t| && forall q :: 0 <= q < |t| ==> |w[q]| == |t[q]|
    ensures Sized(r, ps, t) && Roomy(r, ps, t)
  {
  }

  /** A snapshot, a round and the reduction. */
  method OneRound(less: (Cells, Cells) -> bool, r: Rule, regionSz: nat, temp1: seq<Param>, temp2: seq<Param>, temp3: seq<Param>,
                  ghost c: Config<Cells>, ghost blocks: seq<seq<Cells>>, ghost k: nat) returns (greduced: nat)
    requires c.less == less && c.R == regionSz && Job(c, blocks) && Numbered(Gtn(), Flatten(blocks)) && GtnColumn(r)
    requires Wide(regionSz, Loaded(c, blocks)) && temp1 != []
    requires Hold(r, temp1, Rounds(less, regionSz, Loaded(c, blocks), k))
    requires Sized(r, temp2, Loaded(c, blocks)) && Apart(temp1, temp2)
    requires Roomy(r, temp3, Rounds(less, regionSz, Loaded(c, blocks), k)) && Apart(temp1, temp3) && Apart(temp2, temp3)
    modifies temp1, temp2, temp3
    ensures Hold(r, temp1, Rounds(less, regionSz, Loaded(c, blocks), k + 1))
    ensures Sized(r, temp2, Loaded(c, blocks))
    ensures Roomy(r, temp3, Rounds(less, regionSz, Loaded(c, blocks), k + 1))
    ensures greduced == 0 <==> !Changes(less, regionSz, Loaded(c, blocks), k)
  {
    hide Hold, Sized, Roomy, Job, Loaded, Wide, Owned, Round, Flatten, Rounds, Numbered, GtnColumn, Gtn, SameNumbers;
    ghost var t0 := Loaded(c, blocks);
    ghost var t := Rounds(less, regionSz, t0, k);
    SizesStay(c, blocks, k);
    ghost var w := SizedHolds(r, temp2, t0);
    Snapshot(r, temp1, temp2, t, w);
    Exchange(less, r, regionSz, temp1, temp3, c, blocks, k);
    RoundKeepsShape(c, blocks, k);
    RoundsUnfold(c, t0, k);
    NumbersDecide(c, Gtn(), blocks, k);
    greduced := AllReduceChanged(r, regionSz, temp1, temp2, Round(less, regionSz, t), t);
    HoldsSized(r, temp2, t, t0);
  }

  /** The rounds, until none of the ranks has seen a change. */
  method Rearrange(less: (Cells, Cells) -> bool, r: Rule, regionSz: nat, prm: seq<Param>, ghost before: seq<seq<Cells>>)
    returns (rounds: nat, ghost after: seq<seq<Cells>>)
    requires Hold(r, prm, before) && GtnColumn(r) && Job(ConfigOf(less, r, regionSz), before) && Numbered(Gtn(), Flatten(before))
    modifies prm
    ensures Hold(r, prm, after) && SortedOver(less, regionSz, before, after)
    ensures rounds <= Inversions(less, Flatten(before)) + 1
  {
    hide Hold, Sized, Roomy, Job, Loaded, Wide, Owned, Round, Inversions, Flatten, SortedOver, AllChange, StopsAfter, Sizes,
      Rounds, TotalOn, StrictWeakOrder, Numbered, GtnColumn, Gtn, Plain, LayoutOf, Blank;
    ghost var c := ConfigOf(less, r, regionSz);
    JobOrder(c, before);
    LoadedReady(c, before);
    HoldShape(r, prm, before);
    ghost var t0 := Loaded(c, before);
    var temp1, temp2, temp3 := Workspace(less, r, regionSz, prm, before);
    HoldShape(r, temp1, t0);
    NoRoundYet(c, t0);
    rounds := 0;
    var running := |prm| > 1;
    while running
      invariant Hold(r, prm, before) && Sized(r, temp2, t0)
      invariant Hold(r, temp1, Rounds(less, regionSz, t0, rounds)) && Roomy(r, temp3, Rounds(less, regionSz, t0, rounds))
      invariant |before| == 1 ==> rounds == 0 && !running
      invariant |before| > 1 ==>
        if running then AllChange(less, regionSz, t0, rounds) else StopsAfter(less, regionSz, t0, rounds)
      decreases running, Inversions(less, Flatten(before)) - rounds
    {
      BoundSoFar(c, before, rounds);
      var greduced := OneRound(less, r, regionSz, temp1, temp2, temp3, c, before, rounds);
      VerdictMeaning(c, t0, rounds);
      rounds := rounds + 1;
      running := greduced != 0;
      if running {
        BoundSoFar(c, before, rounds);
      }
    }
    ghost var u := Rounds(less, regionSz, t0, rounds);
    OwnedSizes(c, before, rounds);
    CopyBack(r, regionSz, temp1, prm, u, before);
    after := Owned(regionSz, u);
    if |before| > 1 {
      LoopEndsSorted(c, before, rounds);
    } else {
      OneRankSorted(c, before);
    }
  }

  /** The three structures each rank works on. */
  method Workspace(less: (Cells, Cells) -> bool, r: Rule, regionSz: nat, prm: seq<Param>, ghost before: seq<seq<Cells>>)
    returns (temp1: seq<Param>, temp2: seq<Param>, temp3: seq<Param>)
    requires Hold(r, prm, before) && StrictWeakOrder(less) && TotalOn(less, Flatten(before))
    ensures forall i :: 0 <= i < |temp1| ==> fresh(temp1[i])
    ensures forall i :: 0 <= i < |temp2| ==> fresh(temp2[i])
    ensures forall i :: 0 <= i < |temp3| ==> fresh(temp3[i])
    ensures Hold(r, prm, before) && Hold(r, temp1, Loaded(ConfigOf(less, r, regionSz), before))
    ensures Sized(r, temp2, Loaded(ConfigOf(less, r, regionSz), before))
    ensures Roomy(r, temp3, Loaded(ConfigOf(less, r, regionSz), before))
    ensures Apart(temp1, prm) && Apart(temp1, temp2) && Apart(temp1, temp3) && Apart(temp2, temp3)
  {
    hide Hold, Sized, Roomy, Loaded, Flatten, TotalOn, StrictWeakOrder, Plain, LayoutOf, Blank;
    ghost var t0 := Loaded(ConfigOf(less, r, regionSz), before);
    ghost var w2, w3;
    temp1 := Load(less, r, regionSz, prm, before);
    temp2, w2 := Like(r, temp1, t0);
    NewApart(temp1, temp2);
    temp3, w3 := Like(r, temp1, t0);
    NewApart(temp1, temp3);
    NewApart(temp2, temp3);
    HoldsSized(r, temp2, w2, t0);
    HoldsSized(r, temp3, w3, t0);
  }

  /** The whole sort. */
  method SortP(less: (Cells, Cells) -> bool, r: Rule, prm: seq<Param>) returns (rounds: nat)
    requires prm != [] && Ranks(r, prm) && GtnColumn(r) && StrictWeakOrder(less)
    requires TotalOn(less, Flatten(RowsOf(r, prm))) && Numbered(Gtn(), Flatten(RowsOf(r, prm)))
    modifies prm
    ensures Ranks(r, prm)
    ensures SortedOver(less, RegionSize(Sizes(old(RowsOf(r, prm)))), old(RowsOf(r, prm)), RowsOf(r, prm))
    ensures rounds <= Inversions(less, Flatten(old(RowsOf(r, prm)))) + 1
  {
    hide GtnColumn, StrictWeakOrder, TotalOn, Numbered, Flatten, SortedOver, Inversions, Plain, LayoutOf, AllRows, RegionSize, Blank;
    ghost var before := RowsOf(r, prm);
    var sizes := seq(|prm|, q requires 0 <= q < |prm| => prm[q].sz);
    assert sizes == Sizes(before);
    ghost var after;
    rounds, after := Rearrange(less, r, RegionSize(sizes), prm, before);
  }
}
