/**
 How one rank hands rows to its neighbour: the rows of a region are staged in a
 structure of their own, its four vectors are sent, the receiver puts them into a
 structure of its own and copies the rows out. Which message reaches which vector is
 the subject of `ParamProtocol`; here the four arrive in order.
 */
module ParamExchange {
  import opened Params
  import opened ParamColumns

  /** The rows that result from overwriting positions `to` .. by a region. */
  ghost function Overwritten(rows: seq<Cells>, to: nat, region: seq<Cells>): seq<Cells>
    requires to + |region| <= |rows|
  {
    rows[..to] + region + rows[to + |region|..]
  }

  /** The loop `cpyPrm(from + i, src, to + i, dst)` for i < count. */
  method CopyRows(src: Param, from: nat, count: nat, dst: Param, to: nat)
    requires src.Valid() && dst.Valid() && src.r == dst.r && src != dst && Plain(src.r)
    requires from + count <= src.sz && to + count <= dst.sz
    modifies dst
    ensures src.Valid() && dst.Valid()
    ensures AllRows(dst) == Overwritten(old(AllRows(dst)), to, AllRows(src)[from..from + count])
  {
    hide *;
    PlainMeans(src.r);
    ghost var was, rows := AllRows(dst), AllRows(src);
    NoneOverwritten(was, to, rows, from);
    for i := 0 to count
      invariant src.Valid() && dst.Valid() && AllRows(src) == rows
      invariant AllRows(dst) == Overwritten(was, to, rows[from..from + i])
    {
      CpyPrm(from + i, src, to + i, dst);
      NextOverwritten(was, to, rows, from, i);
    }
  }

  lemma {:induction false} NoneOverwritten(was: seq<Cells>, to: nat, rows: seq<Cells>, from: nat)
    requires to <= |was| && from <= |rows|
    ensures Overwritten(was, to, rows[from..from]) == was
  {
  }

  lemma {:induction false} NextOverwritten(was: seq<Cells>, to: nat, rows: seq<Cells>, from: nat, i: nat)
    requires from + i < |rows| && to + i < |was|
    ensures Overwritten(was, to, rows[from..from + i])[to + i := rows[from + i]] == Overwritten(was, to, rows[from..from + i + 1])
  {
    assert rows[from..from + i + 1] == rows[from..from + i] + [rows[from + i]];
  }

  lemma {:induction false} WholeOverwritten(was: seq<Cells>, region: seq<Cells>)
    requires |was| == |region|
    ensures Overwritten(was, 0, region) == region
  {
  }

  /** The sending half: the messages are the vectors of the region, which depend on
      nothing but its rows. */
  method SendRegion(prm: Param, from: nat, regionSz: nat) returns (sent: seq<Message>)
    requires prm.Valid() && Plain(prm.r) && from + regionSz <= prm.sz
    ensures LayoutOf(prm.r).Valid() && AreRows(LayoutOf(prm.r), AllRows(prm)[from..from + regionSz])
    ensures sent == Columns(LayoutOf(prm.r), AllRows(prm)[from..from + regionSz])
  {
    hide *;
    PlainMeans(prm.r);
    var sprm := new Param(prm.r, regionSz);
    ghost var rows := AllRows(prm);
    assert prm.Valid();
    WholeOverwritten(AllRows(sprm), rows[from..from + regionSz]);
    CopyRows(prm, from, regionSz, sprm, 0);
    VectorsAreColumns(sprm);
    sent := VectorsOf(sprm);
  }

  /** The receiving half: the rows sent replace rows `to` .. of the receiver. */
  method ReceiveRegion(prm: Param, to: nat, regionSz: nat, sent: seq<Message>, ghost region: seq<Cells>)
    requires prm.Valid() && Plain(prm.r) && to + regionSz <= prm.sz && |region| == regionSz
    requires LayoutOf(prm.r).Valid() && AreRows(LayoutOf(prm.r), region) && sent == Columns(LayoutOf(prm.r), region)
    modifies prm
    ensures prm.Valid() && AllRows(prm) == Overwritten(old(AllRows(prm)), to, region)
  {
    hide AllRows, Columns, AreRows, Overwritten;
    var rprm := new Param(prm.r, regionSz);
    rprm.f, rprm.i, rprm.s, rprm.t := sent[0].f, sent[1].i, sent[2].s, sent[3].t;
    assert VectorsOf(rprm) == sent;
    VectorsDetermine(rprm, region);
    CopyRows(rprm, 0, regionSz, prm, to);
    assert region[0..regionSz] == region;
  }
}
