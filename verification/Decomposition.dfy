/**
 How a file is cut into one extent per rank: evenly (`decompose`), or along block
 boundaries of the file system (`blockDecomp`).
 */
module Decomposition {
  import opened Blocks

  /** An offset and a length. */
  datatype Extent = Extent(first: nat, second: nat)

  function End(e: Extent): nat { e.first + e.second }

  function MinOf(a: int, b: int): int { if a < b then a else b }

  /** The even decomposition. */
  function Decompose(sz: nat, numRank: nat, rank: nat): (dec: Extent)
    requires rank < numRank
  {
    var q, r := sz / numRank, sz % numRank;
    var start := q * rank + MinOf(rank, r);
    StartBounds(sz, numRank, rank);
    Extent(start, MinOf(sz - start, q + if rank < r then 1 else 0))
  }

  /** The boundary before rank r, also for r = numRank. */
  function Start(sz: nat, numRank: nat, r: nat): nat
    requires r <= numRank && numRank > 0
  {
    (sz / numRank) * r + MinOf(r, sz % numRank)
  }

  lemma {:induction false} StartBounds(sz: nat, numRank: nat, r: nat)
    requires r <= numRank && numRank > 0
    ensures Start(sz, numRank, r) <= sz
    ensures Start(sz, numRank, numRank) == sz && Start(sz, numRank, 0) == 0
    ensures r < numRank ==>
              Start(sz, numRank, r + 1) == Start(sz, numRank, r) + sz / numRank + (if r < sz % numRank then 1 else 0)
  {
    var q, m := sz / numRank, sz % numRank;
    assert sz == q * numRank + m;
    assert q * r <= q * numRank;
    assert q * (r + 1) == q * r + q;
    assert Start(sz, numRank, numRank) == q * numRank + m;
  }

  /** The extents tile [0, sz) in rank order, and the first sz % numRank of them are one
      longer than the others. */
  lemma {:induction false} DecomposeTiles(sz: nat, numRank: nat, rank: nat)
    requires rank < numRank
    ensures var dec := Decompose(sz, numRank, rank);
            && dec.first == Start(sz, numRank, rank)
            && dec.first + dec.second == Start(sz, numRank, rank + 1)
            && dec.second == sz / numRank + (if rank < sz % numRank then 1 else 0)
    ensures Start(sz, numRank, 0) == 0 && Start(sz, numRank, numRank) == sz
  {
    StartBounds(sz, numRank, rank);
    StartBounds(sz, numRank, rank + 1);
  }

  /** The same without the division. */
  lemma {:induction false} TilesInOrder(sz: nat, numRank: nat, rank: nat)
    requires rank < numRank
    ensures Start(sz, numRank, 0) == 0
    ensures var dec := Decompose(sz, numRank, rank);
            dec.first == Start(sz, numRank, rank) && dec.first + dec.second == Start(sz, numRank, rank + 1)
  {
    DecomposeTiles(sz, numRank, rank);
  }

  /** The lengths over all ranks. */
  function Shares(sz: nat, numRank: nat): (sizes: seq<nat>)
    ensures |sizes| == numRank
  {
    seq(numRank, r requires 0 <= r < numRank => Decompose(sz, numRank, r).second)
  }

  /** A rank's extent starts at the prefix sum of the lengths before it. */
  lemma {:induction false} SharesOffset(sz: nat, numRank: nat, r: nat)
    requires r <= numRank && numRank > 0
    ensures Offset(Shares(sz, numRank), r) == Start(sz, numRank, r)
  {
    if r > 0 {
      SharesOffset(sz, numRank, r - 1);
      OffsetNext(Shares(sz, numRank), r - 1);
      TilesInOrder(sz, numRank, r - 1);
    } else {
      StartBounds(sz, numRank, 0);
    }
  }

  lemma {:induction false} SharesSum(sz: nat, numRank: nat)
    requires numRank > 0
    ensures Sum(Shares(sz, numRank)) == sz
  {
    SharesOffset(sz, numRank, numRank);
    StartBounds(sz, numRank, numRank);
    assert Shares(sz, numRank)[..numRank] == Shares(sz, numRank);
  }

  lemma {:induction false} StartMonotone(sz: nat, numRank: nat, r: nat, s: nat)
    requires r <= s <= numRank && numRank > 0
    ensures Start(sz, numRank, r) <= Start(sz, numRank, s)
    decreases s - r
  {
    hide Start;
    if r < s {
      StartBounds(sz, numRank, s - 1);
      StartMonotone(sz, numRank, r, s - 1);
    }
  }

  // -------------------------------------------------------- block decomposition

  /** The bytes up to the first block boundary, and those after the last one. */
  function FirstBlock(bsz: nat, off: nat): (rstart: nat)
    requires bsz > 0
    ensures 1 <= rstart <= bsz
  {
    bsz - off % bsz
  }

  function LastBlock(sz: nat, bsz: nat, off: nat): (rend: nat)
    requires bsz > 0
    ensures rend < bsz
  {
    (off + sz) % bsz
  }

  function BlockCount(sz: nat, bsz: nat, off: nat): (bcnt: nat)
    requires bsz > 0 && sz >= FirstBlock(bsz, off) + LastBlock(sz, bsz, off)
    ensures bcnt >= 2
  {
    (sz - FirstBlock(bsz, off) - LastBlock(sz, bsz, off)) / bsz + 2
  }

  /** `size_t` arithmetic. */
  const TWO_64: nat := 0x1_0000_0000_0000_0000

  function U64(n: int): (u: nat)
    ensures u < TWO_64
    ensures 0 <= n < TWO_64 ==> u == n
    ensures n < 0 <= n + TWO_64 ==> u == n + TWO_64
    ensures TWO_64 <= n < 2 * TWO_64 ==> u == n - TWO_64
  {
    n % TWO_64
  }

  /** Positions in a file are signed 64-bit numbers. */
  const MAX_POS: nat := 0x8000_0000_0000_0000

  /** The extent of one rank, and whether the assertion in the code holds. A range that
      ends in the block it starts in is too short for a first and a last block, and the
      count of blocks wraps. */
  method BlockDecomp(sz: nat, bsz: nat, numRank: nat, rank: nat, off: nat) returns (holds: bool, dec: Extent)
    requires 0 < bsz < MAX_POS && off + sz < MAX_POS && rank < numRank
    ensures holds <==> sz >= FirstBlock(bsz, off) + LastBlock(sz, bsz, off) || TWO_64 % bsz == 0
    ensures sz >= FirstBlock(bsz, off) + LastBlock(sz, bsz, off) ==>
              dec.first == Boundary(sz, bsz, numRank, off, rank) && End(dec) == Boundary(sz, bsz, numRank, off, rank + 1)
    ensures holds && sz < FirstBlock(bsz, off) + LastBlock(sz, bsz, off) ==> InOneBlock(sz, bsz, numRank, rank, off, dec)
  {
    var rstart, rend := FirstBlock(bsz, off), LastBlock(sz, bsz, off);
    var bcnt := U64(U64(sz - rstart - rend) / bsz + 2);
    holds := U64(sz - rstart - rend) % bsz == 0;
    CountOfBlocks(sz, bsz, off);
    hide *;
    if !holds {
      return false, Extent(0, 0);
    }
    if sz >= rstart + rend {
      SpanningExtent(sz, bsz, numRank, rank, off);
    } else {
      ShortExtent(sz, bsz, numRank, rank, off);
    }
    var newdec := Decompose(bcnt, numRank, rank);
    newdec := Extent(U64(newdec.first * bsz), U64(newdec.second * bsz));
    dec := Fitted(sz, bsz, off, rank, newdec);
  }

  /** The bytes of an extent of whole blocks that lie in the range: the start moves to
      where the range starts and the end to where it ends. */
  function Fitted(sz: nat, bsz: nat, off: nat, rank: nat, blocks: Extent): Extent
    requires bsz > 0
  {
    var skip, over := bsz - FirstBlock(bsz, off), bsz - LastBlock(sz, bsz, off);
    if blocks.second == 0 then Extent(sz, 0)
    else
      var e := if rank == 0 then Extent(blocks.first, U64(blocks.second - skip)) else Extent(U64(blocks.first - skip), blocks.second);
      if e.second > 0 && U64(e.first + e.second) > sz then Extent(e.first, U64(e.second - over)) else e
  }

  /** The number of blocks as the code computes it for a range that ends in the block it
      starts in. */
  function WrappedCount(bsz: nat): nat
    requires bsz > 0
  {
    U64(TWO_64 / bsz + 1)
  }

  /** The extents the wrapped count leads to: right for a single rank or blocks of one
      byte; otherwise the first rank claims too much, or the second one starts where the
      next block does. */
  ghost predicate InOneBlock(sz: nat, bsz: nat, numRank: nat, rank: nat, off: nat, dec: Extent)
    requires bsz > 0 && numRank > 0
  {
    var blocks := Start(WrappedCount(bsz), numRank, 1);
    && (numRank == 1 || bsz == 1 ==> dec == Extent(0, sz))
    && (numRank > 1 && bsz > 1 ==>
          && blocks >= 1
          && (rank == 0 ==> dec == Extent(0, (blocks - 1) * bsz + sz))
          && (rank == 1 && blocks == 1 ==> dec.first == FirstBlock(bsz, off)))
  }

  /** The count of blocks and the assertion. */
  lemma {:induction false} CountOfBlocks(sz: nat, bsz: nat, off: nat)
    requires 0 < bsz < MAX_POS && off + sz < MAX_POS
    ensures var between := U64(sz - FirstBlock(bsz, off) - LastBlock(sz, bsz, off));
            var spans := sz >= FirstBlock(bsz, off) + LastBlock(sz, bsz, off);
            && (between % bsz == 0 <==> spans || TWO_64 % bsz == 0)
            && (spans ==> U64(between / bsz + 2) == BlockCount(sz, bsz, off))
            && (!spans && TWO_64 % bsz == 0 ==> U64(between / bsz + 2) == WrappedCount(bsz))
  {
    hide *;
    if sz >= FirstBlock(bsz, off) + LastBlock(sz, bsz, off) {
      SpanningCount(sz, bsz, off);
    } else {
      ShortCount(sz, bsz, off);
    }
  }

  lemma {:induction false} SpanningCount(sz: nat, bsz: nat, off: nat)
    requires 0 < bsz < MAX_POS && off + sz < MAX_POS && sz >= FirstBlock(bsz, off) + LastBlock(sz, bsz, off)
    ensures var between := U64(sz - FirstBlock(bsz, off) - LastBlock(sz, bsz, off));
            between % bsz == 0 && U64(between / bsz + 2) == BlockCount(sz, bsz, off)
  {
    WholeBlocks(sz, bsz, off);
    CountBound(sz, bsz, off);
    hide FirstBlock, LastBlock, U64;
  }

  lemma {:induction false} ShortCount(sz: nat, bsz: nat, off: nat)
    requires 0 < bsz < MAX_POS && off + sz < MAX_POS && sz < FirstBlock(bsz, off) + LastBlock(sz, bsz, off)
    ensures var between := U64(sz - FirstBlock(bsz, off) - LastBlock(sz, bsz, off));
            && (between % bsz == 0 <==> TWO_64 % bsz == 0)
            && (TWO_64 % bsz == 0 ==> U64(between / bsz + 2) == WrappedCount(bsz))
  {
    EndsInFirst(sz, bsz, off);
    hide FirstBlock, LastBlock, U64;
    OneBlockLess(bsz);
  }

  lemma {:induction false} OneBlockLess(bsz: nat)
    requires 0 < bsz < MAX_POS
    ensures (TWO_64 - bsz) % bsz == TWO_64 % bsz && (TWO_64 - bsz) / bsz == TWO_64 / bsz - 1
  {
    var q, r := TWO_64 / bsz, TWO_64 % bsz;
    assert TWO_64 - bsz == (q - 1) * bsz + r;
    DivUnique(TWO_64 - bsz, bsz, q - 1, r);
  }

  lemma {:induction false} CountBound(sz: nat, bsz: nat, off: nat)
    requires 0 < bsz < MAX_POS && off + sz < MAX_POS && sz >= FirstBlock(bsz, off) + LastBlock(sz, bsz, off)
    ensures BlockCount(sz, bsz, off) < TWO_64
  {
    hide FirstBlock, LastBlock;
    var rest := sz - FirstBlock(bsz, off) - LastBlock(sz, bsz, off);
    assert rest == (rest / bsz) * bsz + rest % bsz;
    if rest / bsz > rest {
      MulKeepsOrder(1, bsz, rest / bsz);
    }
  }

  /** A range too short for its first and last block ends in the block it starts in. */
  lemma {:induction false} EndsInFirst(sz: nat, bsz: nat, off: nat)
    requires bsz > 0 && sz < FirstBlock(bsz, off) + LastBlock(sz, bsz, off)
    ensures FirstBlock(bsz, off) + LastBlock(sz, bsz, off) == bsz + sz
    ensures sz < FirstBlock(bsz, off)
  {
    var p, q := off / bsz, (off + sz) / bsz;
    assert off == p * bsz + off % bsz;
    assert off + sz == q * bsz + (off + sz) % bsz;
    var d := q - p;
    assert sz - FirstBlock(bsz, off) - LastBlock(sz, bsz, off) == d * bsz - bsz by {
      assert d * bsz == q * bsz - p * bsz;
    }
    if d > 0 {
      MulKeepsOrder(1, d, bsz);
    } else if d < 0 {
      MulKeepsOrder(d, -1, bsz);
    }
  }

  /** The extent of a rank in a range with a first and a last block. */
  lemma {:induction false} SpanningExtent(sz: nat, bsz: nat, numRank: nat, rank: nat, off: nat)
    requires 0 < bsz < MAX_POS && off + sz < MAX_POS && rank < numRank
    requires sz >= FirstBlock(bsz, off) + LastBlock(sz, bsz, off)
    ensures var blocks := Decompose(BlockCount(sz, bsz, off), numRank, rank);
            var dec := Fitted(sz, bsz, off, rank, Extent(U64(blocks.first * bsz), U64(blocks.second * bsz)));
            && dec.first == Boundary(sz, bsz, numRank, off, rank)
            && End(dec) == Boundary(sz, bsz, numRank, off, rank + 1)
  {
    var bcnt := BlockCount(sz, bsz, off);
    var k, k' := Start(bcnt, numRank, rank), Start(bcnt, numRank, rank + 1);
    WholeBlocks(sz, bsz, off);
    BlockFacts(bcnt, numRank, rank, bsz);
    SkippedBytes(sz, bsz, off);
    InBytes(sz, bsz, off, k);
    InBytes(sz, bsz, off, k');
    hide *;
    FittedBytes(sz, bsz, off, rank, Times(k, bsz), Times(k', bsz));
  }

  /** Where block k starts, from the bytes in k blocks. */
  lemma {:induction false} InBytes(sz: nat, bsz: nat, off: nat, k: nat)
    requires bsz > 0 && sz >= FirstBlock(bsz, off) + LastBlock(sz, bsz, off) && k <= BlockCount(sz, bsz, off)
    ensures var p, end := Times(k, bsz), sz - FirstBlock(bsz, off) - LastBlock(sz, bsz, off) + 2 * bsz;
            && BlockStart(sz, bsz, off, k) == (if p == 0 then 0 else if p == end then sz else p - (bsz - FirstBlock(bsz, off)))
            && p <= end && (k < BlockCount(sz, bsz, off) ==> p + bsz <= end) && (k == BlockCount(sz, bsz, off) <==> p == end)
  {
    WholeBlocks(sz, bsz, off);
    hide FirstBlock, LastBlock, BlockCount;
    if k > 0 { MulKeepsOrder(1, k, bsz); }
    if k < BlockCount(sz, bsz, off) { Spaced(k, BlockCount(sz, bsz, off), 1, bsz); }
  }

  /** The same in bytes, for blocks from p to p'. */
  lemma {:induction false} FittedBytes(sz: nat, bsz: nat, off: nat, rank: nat, p: nat, p': nat)
    requires 0 < bsz < MAX_POS && off + sz < MAX_POS && sz >= FirstBlock(bsz, off) + LastBlock(sz, bsz, off)
    requires bsz - FirstBlock(bsz, off) <= off
    requires var end := sz - FirstBlock(bsz, off) - LastBlock(sz, bsz, off) + 2 * bsz;
             p <= p' <= end && (p < end ==> p + bsz <= p' && p + bsz <= end) && (p' < end ==> p' + bsz <= end)
    requires rank == 0 <==> p == 0
    requires p > 0 ==> p >= bsz
    ensures var end, skip := sz - FirstBlock(bsz, off) - LastBlock(sz, bsz, off) + 2 * bsz, bsz - FirstBlock(bsz, off);
            var dec := Fitted(sz, bsz, off, rank, Extent(U64(p), U64(p' - p)));
            && dec.first == (if p == 0 then 0 else if p == end then sz else p - skip)
            && End(dec) == (if p' == end then sz else p' - skip)
  {
    hide U64, FirstBlock, LastBlock;
  }

  lemma {:induction false} SkippedBytes(sz: nat, bsz: nat, off: nat)
    requires bsz > 0
    ensures bsz - FirstBlock(bsz, off) <= off
  {
    assert off == (off / bsz) * bsz + off % bsz;
    MulKeepsOrder(0, off / bsz, bsz);
  }

  /** The extent of a rank in a range within one block. */
  lemma {:induction false} ShortExtent(sz: nat, bsz: nat, numRank: nat, rank: nat, off: nat)
    requires 0 < bsz < MAX_POS && off + sz < MAX_POS && rank < numRank && TWO_64 % bsz == 0
    requires sz < FirstBlock(bsz, off) + LastBlock(sz, bsz, off)
    ensures var blocks := Decompose(WrappedCount(bsz), numRank, rank);
            var dec := Fitted(sz, bsz, off, rank, Extent(U64(blocks.first * bsz), U64(blocks.second * bsz)));
            InOneBlock(sz, bsz, numRank, rank, off, dec)
  {
    if bsz == 1 {
      ShortByteExtent(sz, numRank, rank, off);
    } else {
      ShortWideExtent(sz, bsz, numRank, rank, off);
    }
    hide *;
  }

  lemma {:induction false} ShortByteExtent(sz: nat, numRank: nat, rank: nat, off: nat)
    requires off + sz < MAX_POS && rank < numRank && sz < FirstBlock(1, off) + LastBlock(sz, 1, off)
    ensures var blocks := Decompose(WrappedCount(1), numRank, rank);
            var dec := Fitted(sz, 1, off, rank, Extent(U64(blocks.first * 1), U64(blocks.second * 1)));
            InOneBlock(sz, 1, numRank, rank, off, dec)
  {
    EndsInFirst(sz, 1, off);
    OneByteBlocks(numRank, rank);
    hide FirstBlock, LastBlock, U64, Decompose, WrappedCount;
  }

  lemma {:induction false} ShortWideExtent(sz: nat, bsz: nat, numRank: nat, rank: nat, off: nat)
    requires 1 < bsz < MAX_POS && off + sz < MAX_POS && rank < numRank && TWO_64 % bsz == 0
    requires sz < FirstBlock(bsz, off) + LastBlock(sz, bsz, off)
    ensures var blocks := Decompose(WrappedCount(bsz), numRank, rank);
            var dec := Fitted(sz, bsz, off, rank, Extent(U64(blocks.first * bsz), U64(blocks.second * bsz)));
            InOneBlock(sz, bsz, numRank, rank, off, dec)
  {
    EndsInFirst(sz, bsz, off);
    SharesInBytes(bsz, numRank, rank);
    var c := Start(WrappedCount(bsz), numRank, 1);
    hide Start, Decompose, U64, WrappedCount, FirstBlock, LastBlock, Fitted;
    if numRank == 1 {
      FirstFitted(sz, bsz, off, bsz);
    } else if rank == 0 {
      FirstFitted(sz, bsz, off, c * bsz);
    } else if rank == 1 && c == 1 {
      SecondFitted(sz, bsz, off);
    }
  }

  lemma {:induction false} SharesInBytes(bsz: nat, numRank: nat, rank: nat)
    requires 1 < bsz < MAX_POS && rank < numRank && TWO_64 % bsz == 0
    ensures var blocks, c := Decompose(WrappedCount(bsz), numRank, rank), Start(WrappedCount(bsz), numRank, 1);
            var first, second := U64(blocks.first * bsz), U64(blocks.second * bsz);
            && (rank == 0 ==> first == 0 && second == if numRank == 1 then bsz else c * bsz)
            && (numRank > 1 ==> 1 <= c && bsz <= c * bsz < TWO_64 && (c - 1) * bsz == c * bsz - bsz)
            && (rank == 1 && c == 1 ==> first == second == bsz)
  {
    var b := WrappedCount(bsz);
    CountInBytes(bsz);
    FirstShares(b, numRank, bsz);
    hide Start, Decompose, U64, WrappedCount;
    if rank == 0 {
      Product(Decompose(b, numRank, 0), 0, Start(b, numRank, 1), bsz);
    } else if rank == 1 && Start(b, numRank, 1) == 1 {
      Product(Decompose(b, numRank, 1), 1, 1, bsz);
    }
  }

  lemma {:induction false} Product(e: Extent, first: nat, second: nat, bsz: nat)
    requires e == Extent(first, second)
    ensures e.first * bsz == first * bsz && e.second * bsz == second * bsz && 0 * bsz == 0 && 1 * bsz == bsz
  {
  }

  lemma {:induction false} FirstFitted(sz: nat, bsz: nat, off: nat, bytes: nat)
    requires 0 < bsz <= bytes < TWO_64
    requires sz < FirstBlock(bsz, off) && FirstBlock(bsz, off) + LastBlock(sz, bsz, off) == bsz + sz
    ensures Fitted(sz, bsz, off, 0, Extent(0, bytes)) == Extent(0, bytes - bsz + sz)
  {
    hide U64, FirstBlock, LastBlock;
  }

  lemma {:induction false} SecondFitted(sz: nat, bsz: nat, off: nat)
    requires 0 < bsz < TWO_64
    ensures Fitted(sz, bsz, off, 1, Extent(bsz, bsz)).first == FirstBlock(bsz, off)
  {
    hide U64, FirstBlock, LastBlock;
  }

  lemma {:induction false} OneByteBlocks(numRank: nat, rank: nat)
    requires rank < numRank
    ensures WrappedCount(1) == 1 && Decompose(1, numRank, rank) == Extent(if rank == 0 then 0 else 1, if rank == 0 then 1 else 0)
  {
    if numRank > 1 {
      DivUnique(1, numRank, 0, 1);
    }
  }

  lemma {:induction false} CountInBytes(bsz: nat)
    requires 1 < bsz < MAX_POS && TWO_64 % bsz == 0
    ensures WrappedCount(bsz) >= 5 && WrappedCount(bsz) * bsz == TWO_64 + bsz
  {
    var q := TWO_64 / bsz;
    assert TWO_64 == q * bsz;
    if q <= 3 {
      FewBlocks(bsz, q);
    }
    MulKeepsOrder(2, bsz, q);
    assert (q + 1) * bsz == q * bsz + bsz;
  }

  lemma {:induction false} FewBlocks(bsz: nat, q: nat)
    requires bsz < MAX_POS && q <= 3
    ensures q * bsz != TWO_64
  {
    assert 3 * bsz != TWO_64 by {
      assert TWO_64 % 3 == 1;
    }
  }

  /** What the first two ranks get, in blocks and in bytes. */
  lemma {:induction false} FirstShares(b: nat, numRank: nat, bsz: nat)
    requires numRank > 0 && b >= 4
    ensures var c := Start(b, numRank, 1);
            && Decompose(b, numRank, 0) == Extent(0, c)
            && (numRank == 1 ==> c == b)
            && (numRank > 1 ==> 1 <= c <= b - 2 && bsz <= c * bsz <= b * bsz - 2 * bsz && (c - 1) * bsz == c * bsz - bsz)
            && (numRank > 1 ==> Decompose(b, numRank, 1).first == c)
            && (numRank > 1 && c == 1 ==> Decompose(b, numRank, 1).second == 1)
  {
    FirstShare(b, numRank);
    TilesInOrder(b, numRank, 0);
    hide Start, Decompose;
    if numRank > 1 {
      TilesInOrder(b, numRank, 1);
      ShareInBytes(b, Start(b, numRank, 1), bsz);
    }
  }

  lemma {:induction false} ShareInBytes(b: nat, c: nat, bsz: nat)
    requires 1 <= c <= b - 2
    ensures bsz <= c * bsz <= b * bsz - 2 * bsz && (c - 1) * bsz == c * bsz - bsz
  {
    MulKeepsOrder(1, c, bsz);
    MulKeepsOrder(c, b - 2, bsz);
    assert (b - 2) * bsz == b * bsz - 2 * bsz;
  }

  lemma {:induction false} FirstShare(b: nat, numRank: nat)
    requires numRank > 0 && b >= 4
    ensures numRank > 1 ==> 1 <= Start(b, numRank, 1) <= b - 2
    ensures numRank > 1 && Start(b, numRank, 1) == 1 ==> Decompose(b, numRank, 1).second == 1
    ensures numRank == 1 ==> Start(b, numRank, 1) == b
  {
    var q, m := b / numRank, b % numRank;
    assert b == q * numRank + m;
    if numRank > 1 {
      MulKeepsOrder(2, numRank, q);
    }
  }

  lemma {:induction false} BlockRange(bcnt: nat, numRank: nat, rank: nat)
    requires rank < numRank && bcnt > 0
    ensures var dec := Decompose(bcnt, numRank, rank);
            var k, k' := Start(bcnt, numRank, rank), Start(bcnt, numRank, rank + 1);
            && dec.first == k && dec.second == k' - k
            && k <= k' <= bcnt && (rank == 0 <==> k == 0)
            && (k == k' ==> k == bcnt)
  {
    TilesInOrder(bcnt, numRank, rank);
    StartBounds(bcnt, numRank, rank + 1);
    StartPositive(bcnt, numRank, rank);
    if Decompose(bcnt, numRank, rank).second == 0 {
      IdleRank(bcnt, numRank, rank);
    }
  }

  /** The products the block decomposition works with. */
  lemma {:induction false} BlockFacts(bcnt: nat, numRank: nat, rank: nat, bsz: nat)
    requires rank < numRank && bsz > 0 && bcnt > 0
    ensures var dec := Decompose(bcnt, numRank, rank);
            var k, k' := Start(bcnt, numRank, rank), Start(bcnt, numRank, rank + 1);
            && dec.first * bsz == k * bsz && dec.second * bsz == k' * bsz - k * bsz
            && k <= k' <= bcnt && (rank == 0 <==> k == 0)
            && (k == k' ==> k == bcnt)
            && (k < k' ==> k' * bsz >= k * bsz + bsz)
            && (k > 0 ==> k * bsz >= bsz)
            && (k' < bcnt ==> k' * bsz + bsz <= bcnt * bsz)
  {
    hide Start, Decompose;
    BlockRange(bcnt, numRank, rank);
    var k, k' := Start(bcnt, numRank, rank), Start(bcnt, numRank, rank + 1);
    assert (k' - k) * bsz == k' * bsz - k * bsz;
    if k < k' { MulKeepsOrder(k + 1, k', bsz); }
    if k > 0 { MulKeepsOrder(1, k, bsz); }
    if k' < bcnt { MulKeepsOrder(k' + 1, bcnt, bsz); }
  }

  /** Where block k starts, in bytes from the start of the range. */
  function BlockStart(sz: nat, bsz: nat, off: nat, k: nat): int
    requires bsz > 0 && sz >= FirstBlock(bsz, off) + LastBlock(sz, bsz, off)
  {
    if k == 0 then 0
    else if k >= BlockCount(sz, bsz, off) then sz
    else k * bsz - (bsz - FirstBlock(bsz, off))
  }

  /** The boundary before rank r. */
  function Boundary(sz: nat, bsz: nat, numRank: nat, off: nat, r: nat): int
    requires bsz > 0 && r <= numRank && numRank > 0
    requires sz >= FirstBlock(bsz, off) + LastBlock(sz, bsz, off)
  {
    BlockStart(sz, bsz, off, Start(BlockCount(sz, bsz, off), numRank, r))
  }

  /** The in-code assertion: between the first and the last block lie only whole
      ones. */
  lemma {:induction false} WholeBlocks(sz: nat, bsz: nat, off: nat)
    requires bsz > 0 && sz >= FirstBlock(bsz, off) + LastBlock(sz, bsz, off)
    ensures (sz - FirstBlock(bsz, off) - LastBlock(sz, bsz, off)) % bsz == 0
    ensures BlockCount(sz, bsz, off) * bsz == sz - FirstBlock(bsz, off) - LastBlock(sz, bsz, off) + 2 * bsz
  {
    var p, q := off / bsz, (off + sz) / bsz;
    assert off == p * bsz + off % bsz;
    assert off + sz == q * bsz + (off + sz) % bsz;
    var rest := sz - FirstBlock(bsz, off) - LastBlock(sz, bsz, off);
    assert rest == (q - p - 1) * bsz by {
      assert (q - p - 1) * bsz == q * bsz - p * bsz - bsz;
    }
    MultipleDivides(q - p - 1, bsz);
  }

  lemma {:induction false} MultipleDivides(k: int, b: nat)
    requires b > 0
    ensures (k * b) % b == 0 && (k * b) / b == k
  {
    assert k * b == b * k + 0;
    DivUnique(k * b, b, k, 0);
  }

  lemma {:induction false} DivUnique(x: int, b: nat, q: int, r: nat)
    requires b > 0 && x == q * b + r && r < b
    ensures x / b == q && x % b == r
  {
    var q', r' := x / b, x % b;
    assert x == q' * b + r';
    assert (q' - q) * b == r - r';
    if q' > q {
      MulKeepsOrder(1, q' - q, b);
    } else if q' < q {
      MulKeepsOrder(1, q - q', b);
    }
  }

  lemma {:induction false} MulKeepsOrder(a: int, b: int, m: nat)
    requires a <= b
    ensures a * m <= b * m
  {
  }

  function Times(a: nat, b: nat): (p: nat)
    ensures p == a * b
  {
    MulKeepsOrder(0, a, b);
    a * b
  }

  lemma {:induction false} StartPositive(sz: nat, numRank: nat, r: nat)
    requires sz > 0 && 0 <= r < numRank
    ensures r > 0 ==> Start(sz, numRank, r) > 0
  {
    if sz < numRank {
      DivUnique(sz, numRank, 0, sz);
    } else if 0 < r < numRank {
      FullRank(sz, numRank);
      BeforeEnd(sz / numRank, numRank, r);
    }
  }

  lemma {:induction false} IdleRank(sz: nat, numRank: nat, rank: nat)
    requires rank < numRank && Decompose(sz, numRank, rank).second == 0
    ensures Start(sz, numRank, rank) == Start(sz, numRank, rank + 1) == sz
  {
    TilesInOrder(sz, numRank, rank);
    StartBounds(sz, numRank, rank);
  }

  lemma {:induction false} BlockStartMonotone(sz: nat, bsz: nat, off: nat, k: nat, k': nat)
    requires bsz > 0 && sz >= FirstBlock(bsz, off) + LastBlock(sz, bsz, off) && k <= k'
    ensures 0 <= BlockStart(sz, bsz, off, k) <= BlockStart(sz, bsz, off, k') <= sz
  {
    var bcnt := BlockCount(sz, bsz, off);
    WholeBlocks(sz, bsz, off);
    hide FirstBlock, LastBlock;
    MulKeepsOrder(k, k', bsz);
    if k > 0 { MulKeepsOrder(1, k, bsz); }
    if k' > 0 { MulKeepsOrder(1, k', bsz); }
    if k < bcnt { Spaced(k, bcnt, 1, bsz); }
    if k' < bcnt { Spaced(k', bcnt, 1, bsz); }
  }

  /** Over all ranks, idle ones included, the extents tile [0, sz) in order. */
  lemma {:induction false} BoundariesTile(sz: nat, bsz: nat, numRank: nat, off: nat, r: nat)
    requires bsz > 0 && r < numRank
    requires sz >= FirstBlock(bsz, off) + LastBlock(sz, bsz, off)
    ensures Boundary(sz, bsz, numRank, off, 0) == 0
    ensures Boundary(sz, bsz, numRank, off, numRank) == sz
    ensures 0 <= Boundary(sz, bsz, numRank, off, r) <= Boundary(sz, bsz, numRank, off, r + 1) <= sz
  {
    var bcnt := BlockCount(sz, bsz, off);
    StartBounds(bcnt, numRank, 0);
    BlockRange(bcnt, numRank, r);
    BlockStartMonotone(sz, bsz, off, Start(bcnt, numRank, r), Start(bcnt, numRank, r + 1));
  }

  /** Every boundary inside the range falls on a block boundary of the file. */
  lemma {:induction false} BoundariesAligned(sz: nat, bsz: nat, numRank: nat, off: nat, r: nat)
    requires bsz > 0 && r <= numRank && numRank > 0
    requires sz >= FirstBlock(bsz, off) + LastBlock(sz, bsz, off)
    requires 0 < Boundary(sz, bsz, numRank, off, r) < sz
    ensures (off + Boundary(sz, bsz, numRank, off, r)) % bsz == 0
  {
    var k := Start(BlockCount(sz, bsz, off), numRank, r);
    assert off == (off / bsz) * bsz + off % bsz;
    assert off + Boundary(sz, bsz, numRank, off, r) == (off / bsz + k) * bsz by {
      assert (off / bsz + k) * bsz == (off / bsz) * bsz + k * bsz;
    }
    MultipleDivides(off / bsz + k, bsz);
  }

  // ------------------------------------------------ the in-code assertion, exactly

  /** `(off + sz) % bsz` in 64-bit unsigned arithmetic. */
  function LastBlock64(sz: nat, bsz: nat, off: nat): (rend: nat)
    requires bsz > 0
    ensures rend < bsz
  {
    U64(off + sz) % bsz
  }

  /** `sz - rstart - rend` in 64-bit unsigned arithmetic. */
  function Between64(sz: nat, bsz: nat, off: nat): nat
    requires bsz > 0
  {
    U64(sz - FirstBlock(bsz, off) - LastBlock64(sz, bsz, off))
  }

  /** How often the arithmetic wraps: at the end of the range, and below zero on a range
      too short for its first and last block. */
  function Wraps(sz: nat, bsz: nat, off: nat): nat
    requires bsz > 0
  {
    (if off + sz >= TWO_64 then 1 else 0) + if sz < FirstBlock(bsz, off) + LastBlock64(sz, bsz, off) then 1 else 0
  }

  /** The assertion in the code, on all machine numbers: it holds exactly if what the
      wraps add is a multiple of the block size. */
  lemma {:induction false} AssertionExactness(sz: nat, bsz: nat, off: nat)
    requires 0 < bsz < TWO_64 && sz < TWO_64 && off < TWO_64
    ensures Between64(sz, bsz, off) % bsz == 0 <==> Wraps(sz, bsz, off) * TWO_64 % bsz == 0
    ensures off + sz < TWO_64 && sz >= FirstBlock(bsz, off) + LastBlock(sz, bsz, off) ==> Between64(sz, bsz, off) % bsz == 0
  {
    var m := BlocksBetween(sz, bsz, off);
    hide *;
    AddMultiple(m, Wraps(sz, bsz, off) * TWO_64, bsz);
  }

  lemma {:induction false} AddMultiple(m: int, n: int, b: nat)
    requires b > 0 && m % b == 0
    ensures (m + n) % b == n % b
  {
    assert m == (m / b) * b && n == (n / b) * b + n % b;
    assert (m / b + n / b) * b == (m / b) * b + (n / b) * b;
    DivUnique(m + n, b, m / b + n / b, n % b);
  }

  /** The bytes before the block that x lies in. */
  function Floor(x: nat, b: nat): (f: int)
    requires b > 0
    ensures f == x - x % b
  {
    (x / b) * b
  }

  lemma {:induction false} FloorsApart(x: nat, y: nat, b: nat)
    requires b > 0
    ensures (Floor(x, b) - Floor(y, b) - b) % b == 0 && 0 <= Floor(y, b) <= y && 0 <= Floor(x, b) <= x
  {
    var k := x / b - y / b - 1;
    assert k * b == (x / b) * b - (y / b) * b - b;
    MultipleDivides(k, b);
    MulKeepsOrder(0, x / b, b);
    MulKeepsOrder(0, y / b, b);
  }

  lemma {:induction false} FloorMonotone(x: nat, y: nat, b: nat)
    requires b > 0 && x <= y
    ensures Floor(x, b) <= Floor(y, b)
  {
    assert x == (x / b) * b + x % b && y == (y / b) * b + y % b;
    if x / b > y / b {
      MulKeepsOrder(y / b + 1, x / b, b);
    } else {
      MulKeepsOrder(x / b, y / b, b);
    }
  }

  /** What remains between the first and the last block: whole blocks, and what the
      wraps add. */
  lemma {:induction false} BlocksBetween(sz: nat, bsz: nat, off: nat) returns (m: int)
    requires 0 < bsz < TWO_64 && sz < TWO_64 && off < TWO_64
    ensures m % bsz == 0 && Between64(sz, bsz, off) == m + Wraps(sz, bsz, off) * TWO_64
    ensures off + sz < TWO_64 && sz >= FirstBlock(bsz, off) + LastBlock(sz, bsz, off) ==> Wraps(sz, bsz, off) == 0
  {
    var end := U64(off + sz);
    m := Floor(end, bsz) - Floor(off, bsz) - bsz;
    EndsAre(sz, bsz, off);
    WrappedBytes(sz, bsz, off);
    FloorsApart(end, off, bsz);
    hide *;
  }

  /** The wraps one by one. */
  lemma {:induction false} WrappedBytes(sz: nat, bsz: nat, off: nat)
    requires bsz > 0 && sz < TWO_64 && off < TWO_64 && sz + TWO_64 > FirstBlock(bsz, off) + LastBlock64(sz, bsz, off)
    ensures var end, short := U64(off + sz), sz < FirstBlock(bsz, off) + LastBlock64(sz, bsz, off);
            && Wraps(sz, bsz, off) * TWO_64 == off + sz - end + (if short then TWO_64 else 0)
            && Between64(sz, bsz, off) == sz - FirstBlock(bsz, off) - LastBlock64(sz, bsz, off) + (if short then TWO_64 else 0)
            && (off + sz < TWO_64 && !short ==> Wraps(sz, bsz, off) == 0)
  {
    hide FirstBlock, LastBlock64, U64;
  }

  lemma {:induction false} EndsAre(sz: nat, bsz: nat, off: nat)
    requires 0 < bsz < TWO_64 && sz < TWO_64 && off < TWO_64
    ensures var end := U64(off + sz);
            && FirstBlock(bsz, off) == bsz - (off - Floor(off, bsz)) && LastBlock64(sz, bsz, off) == end - Floor(end, bsz)
            && FirstBlock(bsz, off) + LastBlock64(sz, bsz, off) < sz + TWO_64
    ensures off + sz < TWO_64 ==> LastBlock64(sz, bsz, off) == LastBlock(sz, bsz, off)
  {
    hide U64;
    FloorsApart(U64(off + sz), off, bsz);
    if off + sz < TWO_64 {
      FloorMonotone(off, off + sz, bsz);
    }
    hide Floor;
  }

  /** Both kinds of wrap can make it fail. */
  lemma {:induction false} AssertionFails()
    ensures Wraps(1, 3, 1) == 1 && Between64(1, 3, 1) % 3 == 1
    ensures Wraps(9, 3, TWO_64 - 1) == 1 && Between64(9, 3, TWO_64 - 1) % 3 == 1
  {
    DivUnique(1, 3, 0, 1);
    DivUnique(TWO_64 - 1, 3, (TWO_64 - 1) / 3, 0);
    DivUnique(TWO_64 + 8, TWO_64, 1, 8);
  }

  // ------------------------------------- boundaries for two offsets of one length

  /** One block more moves each boundary by at most one block. */
  lemma {:induction false} StartShift(sz: nat, numRank: nat, r: nat)
    requires r < numRank
    ensures Start(sz, numRank, r) <= Start(sz + 1, numRank, r) <= Start(sz, numRank, r) + 1
  {
    var q, m := sz / numRank, sz % numRank;
    assert sz == q * numRank + m;
    if m == numRank - 1 {
      assert sz + 1 == (q + 1) * numRank;
      DivUnique(sz + 1, numRank, q + 1, 0);
      assert (q + 1) * r == q * r + r;
    } else {
      DivUnique(sz + 1, numRank, q, m + 1);
    }
  }

  /** Another file offset changes the number of blocks by one at most, and where there is
      one more the first block is shorter. */
  lemma {:induction false} BlockCountsClose(sz: nat, bsz: nat, off: nat, off': nat)
    requires bsz > 0
    requires sz >= FirstBlock(bsz, off) + LastBlock(sz, bsz, off)
    requires sz >= FirstBlock(bsz, off') + LastBlock(sz, bsz, off')
    ensures -1 <= BlockCount(sz, bsz, off) - BlockCount(sz, bsz, off') <= 1
    ensures BlockCount(sz, bsz, off) > BlockCount(sz, bsz, off') ==> FirstBlock(bsz, off) < FirstBlock(bsz, off')
    ensures BlockCount(sz, bsz, off) < BlockCount(sz, bsz, off') ==> FirstBlock(bsz, off) > FirstBlock(bsz, off')
  {
    WholeBlocks(sz, bsz, off);
    WholeBlocks(sz, bsz, off');
    hide FirstBlock, LastBlock, BlockCount;
    var d := BlockCount(sz, bsz, off) - BlockCount(sz, bsz, off');
    assert d * bsz == BlockCount(sz, bsz, off) * bsz - BlockCount(sz, bsz, off') * bsz;
    if d >= 2 {
      MulKeepsOrder(2, d, bsz);
    } else if d <= -2 {
      MulKeepsOrder(d, -2, bsz);
    }
  }

  /** A rank is behind all blocks exactly if there are no more blocks than ranks before
      it. */
  lemma {:induction false} StartAtEnd(b: nat, numRank: nat, r: nat)
    requires r < numRank
    ensures Start(b, numRank, r) == b <==> b <= r
    ensures Start(b, numRank, r) <= b
  {
    if b < numRank {
      DivUnique(b, numRank, 0, b);
      assert Start(b, numRank, r) == MinOf(r, b);
    } else {
      FullRank(b, numRank);
      BeforeEnd(b / numRank, numRank, r);
    }
  }

  /** With an item for every rank the quotient is not zero. */
  lemma {:induction false} FullRank(b: nat, numRank: nat)
    requires 0 < numRank <= b
    ensures b == (b / numRank) * numRank + b % numRank && b / numRank >= 1
  {
  }

  lemma {:induction false} BeforeEnd(q: nat, numRank: nat, r: nat)
    requires q >= 1 && r < numRank
    ensures r <= q * r < q * numRank
  {
    MulKeepsOrder(1, q, r);
    MulKeepsOrder(1, q, numRank - r);
    assert q * numRank - q * r == q * (numRank - r);
  }

  lemma {:induction false} StartsClose(b: nat, b': nat, numRank: nat, r: nat)
    requires -1 <= b - b' <= 1 && r < numRank
    ensures -1 <= Start(b, numRank, r) - Start(b', numRank, r) <= 1
    ensures Start(b', numRank, r) < Start(b, numRank, r) ==> b' < b
    ensures Start(b, numRank, r) < Start(b', numRank, r) ==> b < b'
  {
    if b < b' {
      StartShift(b, numRank, r);
    } else if b' < b {
      StartShift(b', numRank, r);
    }
  }

  /** Where the boundaries for two numbers of blocks lie. */
  lemma {:induction false} StartsNear(b: nat, b': nat, numRank: nat, r: nat)
    requires 0 < r < numRank && -1 <= b - b' <= 1 && b > 0 && b' > 0
    ensures Start(b, numRank, r - 1) < b && Start(b', numRank, r) < b' ==>
              && Start(b, numRank, r - 1) <= Start(b', numRank, r)
              && (Start(b, numRank, r - 1) == Start(b', numRank, r) ==> b' < b)
    ensures Start(b, numRank, r + 1) < b ==>
              && Start(b', numRank, r) <= Start(b, numRank, r + 1)
              && (Start(b', numRank, r) == Start(b, numRank, r + 1) ==> b < b')
    ensures Start(b, numRank, r - 1) == b ==> Start(b', numRank, r) == b'
    ensures Start(b', numRank, r) == b' ==> Start(b, numRank, r + 1) == b
    ensures 0 < Start(b', numRank, r) <= b' && Start(b, numRank, r + 1) > 0
    ensures Start(b, numRank, r - 1) <= b && Start(b, numRank, r + 1) <= b
  {
    StartsClose(b, b', numRank, r);
    BlockRange(b, numRank, r - 1);
    BlockRange(b, numRank, r);
    BlockRange(b', numRank, r);
    StartAtEnd(b, numRank, r - 1);
    StartAtEnd(b', numRank, r);
    StartBounds(b, numRank, numRank);
    if r + 1 < numRank {
      StartAtEnd(b, numRank, r + 1);
    }
    hide Start, Decompose;
  }

  /** Decomposing the same bytes for another file offset keeps every boundary between
      its two old neighbours, however many blocks and ranks there are. */
  lemma {:induction false} BoundariesStayNear(sz: nat, bsz: nat, numRank: nat, off: nat, off': nat, r: nat)
    requires bsz > 0 && 0 < r < numRank
    requires sz >= FirstBlock(bsz, off) + LastBlock(sz, bsz, off)
    requires sz >= FirstBlock(bsz, off') + LastBlock(sz, bsz, off')
    ensures Boundary(sz, bsz, numRank, off, r - 1) <= Boundary(sz, bsz, numRank, off', r)
         <= Boundary(sz, bsz, numRank, off, r + 1)
  {
    var b, b' := BlockCount(sz, bsz, off), BlockCount(sz, bsz, off');
    BlockCountsClose(sz, bsz, off, off');
    StartsNear(b, b', numRank, r);
    hide Start, BlockCount, BlockStart, FirstBlock, LastBlock;
    NearInBytes(sz, bsz, off, off', Start(b, numRank, r - 1), Start(b', numRank, r));
    NearInBytes(sz, bsz, off', off, Start(b', numRank, r), Start(b, numRank, r + 1));
  }

  /** The order of block numbers is the order of the bytes where the blocks start, if on
      equal numbers the first block of the second range is the longer one. */
  lemma {:induction false} NearInBytes(sz: nat, bsz: nat, off: nat, off': nat, k: nat, k': nat)
    requires bsz > 0
    requires sz >= FirstBlock(bsz, off) + LastBlock(sz, bsz, off)
    requires sz >= FirstBlock(bsz, off') + LastBlock(sz, bsz, off')
    requires k <= BlockCount(sz, bsz, off) && 0 < k' <= BlockCount(sz, bsz, off')
    requires k == BlockCount(sz, bsz, off) ==> k' == BlockCount(sz, bsz, off')
    requires k < BlockCount(sz, bsz, off) && k' < BlockCount(sz, bsz, off') ==>
               k < k' || (k == k' && FirstBlock(bsz, off) <= FirstBlock(bsz, off'))
    ensures BlockStart(sz, bsz, off, k) <= BlockStart(sz, bsz, off', k')
  {
    BlockStartMonotone(sz, bsz, off, k, k);
    BlockStartMonotone(sz, bsz, off', k', k');
    hide BlockCount, FirstBlock, LastBlock;
    if k < k' {
      Spaced(k, k', 1, bsz);
    }
  }

  lemma {:induction false} Spaced(a: int, b: int, d: int, m: nat)
    requires a + d <= b
    ensures a * m + d * m <= b * m
  {
    MulKeepsOrder(a + d, b, m);
    assert (a + d) * m == a * m + d * m;
  }
}
