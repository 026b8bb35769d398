/**
 Transfers between memory and a shared file through MPI-IO. Large and strided
 transfers are cut into chunks under a size limit; a rank that runs out of chunks
 before the others pads with empty calls, because the underlying operations are
 collective and every rank has to issue the same sequence of them (section 5.13 of
 MPI 3.1).
 */
module Collective {
  import opened Bytes
  import opened Decomposition
  import opened Chunks

  datatype Direction = Read | Write

  /** The collective operations a rank takes part in. */
  datatype Call = Gather | SetView | Transfer

  /** The bytes that exist in the file, by position. */
  type File = map<nat, Byte>

  /** Which bytes of the file are visible, and in which order. */
  datatype View =
    | Contiguous(offset: nat)                   // the default view, read from `offset` on
    | Strided(offset: nat, bsz: nat, osz: nat)  // strideView: blocks of bsz, osz apart
    | Listed(bsz: nat, offsets: seq<nat>)       // randBlockView: blocks of bsz at offsets

  /** The file position of byte k of a view. */
  function Position(v: View, k: nat): nat {
    match v
    case Contiguous(offset) => offset + k
    case Strided(offset, bsz, osz) => if bsz == 0 then offset else offset + Times(k / bsz, osz) + k % bsz
    case Listed(bsz, offsets) =>
      if bsz > 0 && 0 <= k / bsz < |offsets| then offsets[k / bsz] + k % bsz else 0
  }

  /** The file and the memory buffer of a rank. */
  datatype Memory = Memory(file: File, buf: seq<Byte>)

  /** Moves one byte between a file position and a buffer slot. Reading past the
      end of the file leaves the buffer as it was. */
  function Move(dir: Direction, p: nat, k: nat, m: Memory): Memory {
    if k >= |m.buf| then m
    else if dir.Read? then (if p in m.file then m.(buf := m.buf[k := m.file[p]]) else m)
    else m.(file := m.file[p := m.buf[k]])
  }

  /** One transfer without any limit: bytes `at`, `at` + 1, ... of the view, `len` of
      them, to or from buffer slots `dpos`, `dpos` + 1, ... */
  ghost function Whole(dir: Direction, v: View, at: nat, dpos: nat, len: nat, m: Memory): Memory {
    if len == 0 then m
    else Move(dir, Position(v, at + len - 1), dpos + len - 1, Whole(dir, v, at, dpos, len - 1, m))
  }

  lemma {:induction false} WholeSplits(dir: Direction, v: View, at: nat, dpos: nat, a: nat, b: nat, m: Memory)
    ensures Whole(dir, v, at, dpos, a + b, m) == Whole(dir, v, at + a, dpos + a, b, Whole(dir, v, at, dpos, a, m))
  {
    hide Position, Move;
    if b > 0 {
      WholeSplits(dir, v, at, dpos, a, b - 1, m);
      assert at + a + (b - 1) == at + (a + b) - 1 && dpos + a + (b - 1) == dpos + (a + b) - 1;
    }
  }

  ghost predicate SameByte(v: View, at: nat, w: View, at': nat, k: nat) {
    Position(v, at + k) == Position(w, at' + k)
  }

  /** Two views that show the same bytes give the same transfer. */
  lemma {:induction false} WholeSameBytes(dir: Direction, v: View, at: nat, w: View, at': nat, dpos: nat, len: nat,
                                          m: Memory)
    requires forall k: nat :: k < len ==> SameByte(v, at, w, at', k)
    ensures Whole(dir, v, at, dpos, len, m) == Whole(dir, w, at', dpos, len, m)
  {
    hide Position, Move;
    if len > 0 {
      WholeSameBytes(dir, v, at, w, at', dpos, len - 1, m);
      assert SameByte(v, at, w, at', len - 1);
    }
  }

  lemma {:induction false} WholeKeeps(dir: Direction, v: View, at: nat, dpos: nat, len: nat, m: Memory)
    ensures |Whole(dir, v, at, dpos, len, m).buf| == |m.buf|
    ensures dir.Read? ==> Whole(dir, v, at, dpos, len, m).file == m.file
    ensures dir.Write? ==> Whole(dir, v, at, dpos, len, m).buf == m.buf
  {
    hide Position;
    if len > 0 {
      WholeKeeps(dir, v, at, dpos, len - 1, m);
    }
  }

  // ---------------------------------------------------- what a transfer means

  /** A read puts each visible byte in its slot and touches no other slot. */
  lemma {:induction false} ReadMeaning(v: View, dpos: nat, len: nat, m: Memory, k: nat)
    requires k < |m.buf|
    ensures |Whole(Read, v, 0, dpos, len, m).buf| == |m.buf|
    ensures Whole(Read, v, 0, dpos, len, m).buf[k]
         == if dpos <= k < dpos + len && Position(v, k - dpos) in m.file then m.file[Position(v, k - dpos)] else m.buf[k]
  {
    hide Position;
    WholeKeeps(Read, v, 0, dpos, len, m);
    if len > 0 {
      ReadMeaning(v, dpos, len - 1, m, k);
      WholeKeeps(Read, v, 0, dpos, len - 1, m);
    }
  }

  ghost predicate DistinctPositions(v: View, len: nat) {
    forall i, j :: 0 <= i < j < len ==> Position(v, i) != Position(v, j)
  }

  /** A write through a view without overlaps stores each slot at its position. */
  lemma {:induction false} WriteMeaning(v: View, dpos: nat, len: nat, m: Memory, i: nat)
    requires dpos + len <= |m.buf| && DistinctPositions(v, len) && i < len
    ensures var f := Whole(Write, v, 0, dpos, len, m).file;
            Position(v, i) in f && f[Position(v, i)] == m.buf[dpos + i]
  {
    hide Position;
    WholeKeeps(Write, v, 0, dpos, len - 1, m);
    if i < len - 1 {
      WriteMeaning(v, dpos, len - 1, m, i);
      assert Position(v, i) != Position(v, len - 1);
    }
  }

  /** A write changes no other byte of the file. */
  lemma {:induction false} WriteFrame(v: View, dpos: nat, len: nat, m: Memory, p: nat)
    requires forall i :: 0 <= i < len ==> Position(v, i) != p
    ensures var f := Whole(Write, v, 0, dpos, len, m).file;
            (p in f <==> p in m.file) && (p in f ==> f[p] == m.file[p])
  {
    hide Position;
    if len > 0 {
      WriteFrame(v, dpos, len - 1, m, p);
      WholeKeeps(Write, v, 0, dpos, len - 1, m);
      assert Position(v, len - 1) != p;
    }
  }

  /** Byte j of block i of a strided view. */
  lemma {:induction false} StridedPosition(offset: nat, bsz: nat, osz: nat, i: nat, j: nat)
    requires j < bsz
    ensures Times(i, bsz) + j >= 0 && Position(Strided(offset, bsz, osz), Times(i, bsz) + j) == offset + i * osz + j
  {
    DivUnique(i * bsz + j, bsz, i, j);
  }

  lemma {:induction false} ListedPosition(bsz: nat, offsets: seq<nat>, i: nat, j: nat)
    requires j < bsz && i < |offsets|
    ensures Position(Listed(bsz, offsets), Times(i, bsz) + j) == offsets[i] + j
  {
    DivUnique(i * bsz + j, bsz, i, j);
  }

  /** Blocks no longer than the stride do not overlap. */
  lemma {:induction false} StridedDistinct(offset: nat, bsz: nat, osz: nat, len: nat)
    requires bsz <= osz && (bsz == 0 ==> len == 0)
    ensures DistinctPositions(Strided(offset, bsz, osz), len)
  {
    forall i: nat, j: nat | i < j < len
      ensures Position(Strided(offset, bsz, osz), i) != Position(Strided(offset, bsz, osz), j)
    {
      var a, b := i / bsz, j / bsz;
      assert i == a * bsz + i % bsz && j == b * bsz + j % bsz;
      if a < b {
        Spaced(a, b, 1, osz);
      } else if b < a {
        Spaced(b, a, 1, bsz);
      }
    }
  }

  lemma {:induction false} BlockSlot(nb: nat, bsz: nat, i: nat, j: nat)
    requires i < nb && j < bsz
    ensures Times(i, bsz) + j < Times(nb, bsz)
  {
    Spaced(i, nb, 1, bsz);
  }

  /** A strided read puts byte j of block i into slot i * bsz + j. */
  lemma {:induction false} BlockLands(offset: nat, bsz: nat, osz: nat, nb: nat, m: Memory, i: nat, j: nat)
    requires i < nb && j < bsz && Times(nb, bsz) <= |m.buf|
    requires offset + i * osz + j in m.file
    ensures var k := Times(i, bsz) + j;
            var buf := Whole(Read, Strided(offset, bsz, osz), 0, 0, Times(nb, bsz), m).buf;
            k < |buf| && buf[k] == m.file[offset + i * osz + j]
  {
    BlockSlot(nb, bsz, i, j);
    StridedPosition(offset, bsz, osz, i, j);
    ReadMeaning(Strided(offset, bsz, osz), 0, Times(nb, bsz), m, Times(i, bsz) + j);
  }

  /** The same for a list of blocks. */
  lemma {:induction false} ListedBlockLands(bsz: nat, offsets: seq<nat>, m: Memory, i: nat, j: nat)
    requires i < |offsets| && j < bsz && Times(|offsets|, bsz) <= |m.buf|
    requires offsets[i] + j in m.file
    ensures var k := Times(i, bsz) + j;
            var buf := Whole(Read, Listed(bsz, offsets), 0, 0, Times(|offsets|, bsz), m).buf;
            k < |buf| && buf[k] == m.file[offsets[i] + j]
  {
    BlockSlot(|offsets|, bsz, i, j);
    ListedPosition(bsz, offsets, i, j);
    ReadMeaning(Listed(bsz, offsets), 0, Times(|offsets|, bsz), m, Times(i, bsz) + j);
  }

  /** Reading back through the view that was written through returns the bytes. */
  lemma {:induction false} WriteThenRead(v: View, len: nat, m: Memory, other: seq<Byte>)
    requires DistinctPositions(v, len) && len <= |m.buf| && len <= |other|
    ensures var written := Whole(Write, v, 0, 0, len, m).file;
            var buf := Whole(Read, v, 0, 0, len, Memory(written, other)).buf;
            |buf| == |other| && buf[..len] == m.buf[..len]
  {
    hide Whole, Position;
    var written := Whole(Write, v, 0, 0, len, m).file;
    WholeKeeps(Read, v, 0, 0, len, Memory(written, other));
    forall k | 0 <= k < len ensures Whole(Read, v, 0, 0, len, Memory(written, other)).buf[k] == m.buf[k] {
      WriteMeaning(v, 0, len, m, k);
      ReadMeaning(v, 0, len, Memory(written, other), k);
    }
  }

  // ---------------------------------------------------- the same byte by byte

  /** The byte at p, or that there is none, is the same in both files. */
  ghost predicate SameAt(f: File, g: File, p: nat) {
    (p in g <==> p in f) && (p in g ==> g[p] == f[p])
  }

  /** A transfer of a whole view. */
  lemma {:induction false} ViewMoved(dir: Direction, v: View, len: nat, m: Memory)
    requires dir.Write? ==> DistinctPositions(v, len)
    ensures var r := Whole(dir, v, 0, 0, len, m);
            && |r.buf| == |m.buf|
            && (dir.Read? ==>
                  && r.file == m.file
                  && forall k :: 0 <= k < |m.buf| ==> r.buf[k] == if k < len && Position(v, k) in m.file then m.file[Position(v, k)] else m.buf[k])
            && (dir.Write? && len <= |m.buf| ==>
                  && r.buf == m.buf
                  && (forall k :: 0 <= k < len ==> Position(v, k) in r.file && r.file[Position(v, k)] == m.buf[k])
                  && forall p: nat :: (forall k :: 0 <= k < len ==> Position(v, k) != p) ==> SameAt(m.file, r.file, p))
  {
    hide *;
    WholeKeeps(dir, v, 0, 0, len, m);
    var r := Whole(dir, v, 0, 0, len, m);
    if dir.Read? {
      forall k | 0 <= k < |m.buf|
        ensures r.buf[k] == if k < len && Position(v, k) in m.file then m.file[Position(v, k)] else m.buf[k]
      {
        ReadMeaning(v, 0, len, m, k);
      }
    } else if len <= |m.buf| {
      forall k | 0 <= k < len ensures Position(v, k) in r.file && r.file[Position(v, k)] == m.buf[k] {
        WriteMeaning(v, 0, len, m, k);
      }
      forall p: nat | forall k :: 0 <= k < len ==> Position(v, k) != p ensures SameAt(m.file, r.file, p) {
        ByteKept(v, len, m, p);
      }
    }
  }

  lemma {:induction false} ByteKept(v: View, len: nat, m: Memory, p: nat)
    requires forall k :: 0 <= k < len ==> Position(v, k) != p
    ensures SameAt(m.file, Whole(Write, v, 0, 0, len, m).file, p)
  {
    WriteFrame(v, 0, len, m, p);
  }

  /** A contiguous transfer through the default view. */
  lemma {:induction false} RangeMoved(dir: Direction, offset: nat, sz: nat, m: Memory)
    ensures var r := Whole(dir, Contiguous(0), offset, 0, sz, m);
            && |r.buf| == |m.buf|
            && (dir.Read? ==>
                  && r.file == m.file
                  && forall k :: 0 <= k < |m.buf| ==> r.buf[k] == if k < sz && offset + k in m.file then m.file[offset + k] else m.buf[k])
            && (dir.Write? && sz <= |m.buf| ==>
                  && r.buf == m.buf
                  && (forall p: nat :: offset <= p < offset + sz ==> p in r.file && r.file[p] == m.buf[p - offset])
                  && forall p: nat :: !(offset <= p < offset + sz) ==> SameAt(m.file, r.file, p))
  {
    SameRange(dir, offset, sz, m);
    RangeDistinct(offset, sz);
    var v := Contiguous(offset);
    hide *;
    ViewMoved(dir, v, sz, m);
    var r := Whole(dir, v, 0, 0, sz, m);
    forall k | 0 <= k < |m.buf| && dir.Read?
      ensures r.buf[k] == if k < sz && offset + k in m.file then m.file[offset + k] else m.buf[k]
    {
      RangePosition(offset, k);
    }
    if dir.Write? && sz <= |m.buf| {
      forall p: nat | offset <= p < offset + sz ensures p in r.file && r.file[p] == m.buf[p - offset] {
        RangePosition(offset, p - offset);
      }
      forall p: nat | !(offset <= p < offset + sz) ensures SameAt(m.file, r.file, p) {
        forall k | 0 <= k < sz ensures Position(v, k) != p {
          RangePosition(offset, k);
        }
      }
    }
  }

  lemma {:induction false} RangePosition(offset: nat, k: nat)
    ensures Position(Contiguous(offset), k) == offset + k
  {
  }

  lemma {:induction false} SameRange(dir: Direction, offset: nat, sz: nat, m: Memory)
    ensures Whole(dir, Contiguous(0), offset, 0, sz, m) == Whole(dir, Contiguous(offset), 0, 0, sz, m)
  {
    assert forall k: nat :: k < sz ==> SameByte(Contiguous(0), offset, Contiguous(offset), 0, k);
    WholeSameBytes(dir, Contiguous(0), offset, Contiguous(offset), 0, 0, sz, m);
  }

  lemma {:induction false} RangeDistinct(offset: nat, sz: nat)
    ensures DistinctPositions(Contiguous(offset), sz)
  {
  }

  /** Where byte k of a sequence of blocks lies. */
  ghost function BlockByte(offset: nat, bsz: nat, osz: nat, k: nat): (p: nat)
    requires bsz > 0
    ensures p == offset + k / bsz * osz + k % bsz
  {
    offset + Times(k / bsz, osz) + k % bsz
  }

  /** A strided transfer: slot k is byte k % bsz of block k / bsz. */
  lemma {:induction false} StridedMoved(dir: Direction, offset: nat, bsz: nat, osz: nat, nb: nat, m: Memory)
    requires 0 < bsz <= osz
    ensures var r := Whole(dir, Strided(offset, bsz, osz), 0, 0, Times(nb, bsz), m);
            && |r.buf| == |m.buf|
            && (dir.Read? ==>
                  && r.file == m.file
                  && forall k :: 0 <= k < |m.buf| ==>
                       r.buf[k] == if k < Times(nb, bsz) && BlockByte(offset, bsz, osz, k) in m.file then m.file[BlockByte(offset, bsz, osz, k)] else m.buf[k])
            && (dir.Write? && Times(nb, bsz) <= |m.buf| ==>
                  && r.buf == m.buf
                  && (forall k :: 0 <= k < Times(nb, bsz) ==>
                        BlockByte(offset, bsz, osz, k) in r.file && r.file[BlockByte(offset, bsz, osz, k)] == m.buf[k])
                  && forall p: nat :: (forall k :: 0 <= k < Times(nb, bsz) ==> p != BlockByte(offset, bsz, osz, k)) ==>
                       SameAt(m.file, r.file, p))
  {
    var v, len := Strided(offset, bsz, osz), Times(nb, bsz);
    StridedDistinct(offset, bsz, osz, len);
    assert forall k: nat :: Position(v, k) == BlockByte(offset, bsz, osz, k);
    hide *;
    ViewMoved(dir, v, len, m);
    var r := Whole(dir, v, 0, 0, len, m);
    forall k | 0 <= k < |m.buf| && dir.Read?
      ensures r.buf[k] == if k < len && BlockByte(offset, bsz, osz, k) in m.file then m.file[BlockByte(offset, bsz, osz, k)] else m.buf[k]
    {
      assert Position(v, k) == BlockByte(offset, bsz, osz, k);
    }
    if dir.Write? && len <= |m.buf| {
      forall k | 0 <= k < len
        ensures BlockByte(offset, bsz, osz, k) in r.file && r.file[BlockByte(offset, bsz, osz, k)] == m.buf[k]
      {
        assert Position(v, k) == BlockByte(offset, bsz, osz, k);
      }
    }
  }

  /** Where byte k of a list of blocks lies. */
  ghost function ListByte(bsz: nat, offsets: seq<nat>, k: nat): (p: nat)
    requires bsz > 0 && k < Times(|offsets|, bsz)
    ensures k / bsz < |offsets| && p == offsets[k / bsz] + k % bsz
  {
    BlockBelow(bsz, |offsets|, k);
    offsets[k / bsz] + k % bsz
  }

  /** Blocks that do not overlap. */
  ghost predicate BlocksApart(bsz: nat, offsets: seq<nat>) {
    forall i, j :: 0 <= i < |offsets| && 0 <= j < |offsets| && i != j ==> offsets[i] + bsz <= offsets[j] || offsets[j] + bsz <= offsets[i]
  }

  lemma {:induction false} ListPosition(bsz: nat, offsets: seq<nat>, k: nat)
    requires bsz > 0 && k < Times(|offsets|, bsz)
    ensures Position(Listed(bsz, offsets), k) == ListByte(bsz, offsets, k)
  {
    BlockBelow(bsz, |offsets|, k);
  }

  lemma {:induction false} ListedDistinct(bsz: nat, offsets: seq<nat>)
    requires bsz > 0 && BlocksApart(bsz, offsets)
    ensures DistinctPositions(Listed(bsz, offsets), Times(|offsets|, bsz))
  {
    hide BlocksApart, Position, ListByte, Times;
    forall i, j | 0 <= i < j < Times(|offsets|, bsz)
      ensures Position(Listed(bsz, offsets), i) != Position(Listed(bsz, offsets), j)
    {
      ListedTwo(bsz, offsets, i, j);
    }
  }

  lemma {:induction false} ListedTwo(bsz: nat, offsets: seq<nat>, i: nat, j: nat)
    requires bsz > 0 && BlocksApart(bsz, offsets) && i < j < Times(|offsets|, bsz)
    ensures Position(Listed(bsz, offsets), i) != Position(Listed(bsz, offsets), j)
  {
    hide *;
    var a, r := ListPlace(bsz, offsets, i);
    var b, t := ListPlace(bsz, offsets, j);
    BytesApart(bsz, offsets, a, b, r, t);
  }

  /** Block and byte of a slot. */
  lemma {:induction false} ListPlace(bsz: nat, offsets: seq<nat>, k: nat) returns (i: nat, j: nat)
    requires bsz > 0 && k < Times(|offsets|, bsz)
    ensures i < |offsets| && j < bsz && k == Times(i, bsz) + j && Position(Listed(bsz, offsets), k) == offsets[i] + j
  {
    BlockBelow(bsz, |offsets|, k);
    i, j := k / bsz, k % bsz;
  }

  lemma {:induction false} BytesApart(bsz: nat, offsets: seq<nat>, a: nat, b: nat, r: nat, t: nat)
    requires BlocksApart(bsz, offsets) && a < |offsets| && b < |offsets| && r < bsz && t < bsz && (a != b || r != t)
    ensures offsets[a] + r != offsets[b] + t
  {
  }

  /** A transfer of a list of blocks. */
  lemma {:induction false} ListedMoved(dir: Direction, bsz: nat, offsets: seq<nat>, m: Memory)
    requires bsz > 0 && (dir.Write? ==> BlocksApart(bsz, offsets))
    ensures var r := Whole(dir, Listed(bsz, offsets), 0, 0, Times(|offsets|, bsz), m);
            && |r.buf| == |m.buf|
            && (dir.Read? ==>
                  && r.file == m.file
                  && forall k :: 0 <= k < |m.buf| ==>
                       r.buf[k] == if k < Times(|offsets|, bsz) && ListByte(bsz, offsets, k) in m.file then m.file[ListByte(bsz, offsets, k)]
                                   else m.buf[k])
            && (dir.Write? && Times(|offsets|, bsz) <= |m.buf| ==>
                  && r.buf == m.buf
                  && (forall k :: 0 <= k < Times(|offsets|, bsz) ==>
                        ListByte(bsz, offsets, k) in r.file && r.file[ListByte(bsz, offsets, k)] == m.buf[k])
                  && forall p: nat :: (forall k :: 0 <= k < Times(|offsets|, bsz) ==> p != ListByte(bsz, offsets, k)) ==>
                       SameAt(m.file, r.file, p))
  {
    var v, len := Listed(bsz, offsets), Times(|offsets|, bsz);
    hide *;
    if dir.Write? {
      ListedDistinct(bsz, offsets);
    }
    ViewMoved(dir, v, len, m);
    var r := Whole(dir, v, 0, 0, len, m);
    forall k | 0 <= k < |m.buf| && dir.Read?
      ensures r.buf[k] == if k < len && ListByte(bsz, offsets, k) in m.file then m.file[ListByte(bsz, offsets, k)] else m.buf[k]
    {
      if k < len { ListPosition(bsz, offsets, k); }
    }
    if dir.Write? && len <= |m.buf| {
      forall k | 0 <= k < len ensures ListByte(bsz, offsets, k) in r.file && r.file[ListByte(bsz, offsets, k)] == m.buf[k] {
        ListPosition(bsz, offsets, k);
      }
      forall p: nat | forall k :: 0 <= k < len ==> p != ListByte(bsz, offsets, k) ensures SameAt(m.file, r.file, p) {
        forall k | 0 <= k < len ensures Position(v, k) != p {
          ListPosition(bsz, offsets, k);
        }
      }
    }
  }

  // ------------------------------------------------------------ chunks of a view

  /** Chunk number c of a transfer of sz blocks: how many blocks it has. */
  function ChunkSize(sz: nat, max: nat, c: nat): nat
    requires max > 0
  {
    if c < Ceil(sz, max) then
      InLoop(sz, max, c);
      MinOf(sz - c * max, max)
    else 0
  }

  /** Byte k counted from block i on is byte k % bsz of block i + k / bsz. */
  lemma {:induction false} ShiftBlocks(bsz: nat, i: nat, k: nat)
    requires bsz > 0
    ensures (Times(bsz, i) + k) / bsz == i + k / bsz && (Times(bsz, i) + k) % bsz == k % bsz
  {
    var q, r := k / bsz, k % bsz;
    assert k == q * bsz + r;
    assert (i + q) * bsz == i * bsz + q * bsz;
    DivUnique(Times(bsz, i) + k, bsz, i + q, r);
  }

  lemma {:induction false} BlockBelow(bsz: nat, n: nat, k: nat)
    requires bsz > 0 && k < Times(n, bsz)
    ensures k / bsz < n
  {
    assert k == (k / bsz) * bsz + k % bsz;
    if k / bsz >= n {
      MulKeepsOrder(n, k / bsz, bsz);
    }
  }

  /** Starting a strided view i blocks further on shows the bytes from there. */
  lemma {:induction false} StridedFrom(offset: nat, bsz: nat, osz: nat, i: nat, k: nat)
    requires bsz > 0
    ensures Position(Strided(offset + Times(osz, i), bsz, osz), k) == Position(Strided(offset, bsz, osz), Times(bsz, i) + k)
  {
    ShiftBlocks(bsz, i, k);
    var q := k / bsz;
    assert (i + q) * osz == i * osz + q * osz;
  }

  lemma {:induction false} ListedFrom(bsz: nat, offsets: seq<nat>, i: nat, n: nat, k: nat)
    requires bsz > 0 && i + n <= |offsets| && k < Times(n, bsz)
    ensures Position(Listed(bsz, offsets[i..i + n]), k) == Position(Listed(bsz, offsets), Times(bsz, i) + k)
  {
    ShiftBlocks(bsz, i, k);
    BlockBelow(bsz, n, k);
    var q, r := k / bsz, k % bsz;
    ListedAt(bsz, offsets[i..i + n], k, q, r);
    ListedAt(bsz, offsets, Times(bsz, i) + k, i + q, r);
    hide *;
    assert offsets[i..i + n][q] == offsets[i + q];
  }

  lemma {:induction false} ListedAt(bsz: nat, offsets: seq<nat>, k: nat, q: nat, r: nat)
    requires bsz > 0 && k / bsz == q && k % bsz == r && q < |offsets|
    ensures Position(Listed(bsz, offsets), k) == offsets[q] + r
  {
  }

  // --------------------------------------------------------------- the call log

  /** What `contigIO` calls for every chunk. */
  datatype Fn =
    | Plain(dir: Direction)                           // MPI_File_read_at(_all) or its writing twin
    | Viewed(dir: Direction, bsz: nat, osz: nat)      // readv or writev

  function Stride(fn: Fn): nat { if fn.Plain? then 1 else fn.osz }

  function BlockSize(fn: Fn): nat { if fn.Plain? then 1 else fn.bsz }

  /** What the strides demand: at least one block per chunk. */
  predicate Fitting(fn: Fn, maxSize: nat) {
    0 < Stride(fn) <= maxSize && BlockSize(fn) <= Stride(fn)
  }

  function MaxBlocks(fn: Fn, maxSize: nat): (max: nat)
    requires Fitting(fn, maxSize)
    ensures max > 0
  {
    var max := maxSize / Stride(fn);
    assert maxSize == max * Stride(fn) + maxSize % Stride(fn);
    max
  }

  function Repeat(calls: seq<Call>, n: nat): seq<Call> {
    if n == 0 then [] else Repeat(calls, n - 1) + calls
  }

  /** What every rank passes to the gather inside call number j. */
  function InnerSizes(fn: Fn, all: seq<nat>, maxSize: nat, j: nat): (inner: seq<nat>)
    requires Fitting(fn, maxSize)
    ensures |inner| == |all|
  {
    seq(|all|, r requires 0 <= r < |all| => Times(ChunkSize(all[r], MaxBlocks(fn, maxSize), j), BlockSize(fn)))
  }

  function CallLog(fn: Fn, all: seq<nat>, maxSize: nat, j: nat): seq<Call>
    requires Fitting(fn, maxSize) && all != []
  {
    if fn.Plain? then [Transfer]
    else [SetView, Gather] + Repeat([Transfer], Ceil(Largest(InnerSizes(fn, all, maxSize, j)), maxSize)) + [SetView]
  }

  function CallLogs(fn: Fn, all: seq<nat>, maxSize: nat, n: nat): seq<Call>
    requires Fitting(fn, maxSize) && all != []
  {
    if n == 0 then [] else CallLogs(fn, all, maxSize, n - 1) + CallLog(fn, all, maxSize, n - 1)
  }

  /** The operations of one `contigIO`, as a function of what all ranks transfer:
      the rank itself does not occur in it. */
  function ContigLog(fn: Fn, all: seq<nat>, maxSize: nat): seq<Call>
    requires Fitting(fn, maxSize) && all != []
  {
    [Gather] + CallLogs(fn, all, maxSize, Ceil(Largest(all), MaxBlocks(fn, maxSize)))
  }

  /** A chunk of blocks always fits one inner transfer, and while any rank still has
      blocks there is exactly one. */
  lemma {:induction false} InnerFits(fn: Fn, all: seq<nat>, maxSize: nat, j: nat)
    requires Fitting(fn, maxSize) && all != [] && BlockSize(fn) > 0
    requires j < Ceil(Largest(all), MaxBlocks(fn, maxSize))
    ensures Ceil(Largest(InnerSizes(fn, all, maxSize, j)), maxSize) == 1
  {
    var max, inner := MaxBlocks(fn, maxSize), InnerSizes(fn, all, maxSize, j);
    var r :| 0 <= r < |all| && all[r] == Largest(all);
    InLoop(all[r], max, j);
    ChunkBytes(fn, maxSize, ChunkSize(all[r], max, j));
    MulKeepsOrder(1, ChunkSize(all[r], max, j), BlockSize(fn));
    assert inner[r] > 0;
    forall q | 0 <= q < |inner| ensures inner[q] <= maxSize {
      ChunkBytes(fn, maxSize, ChunkSize(all[q], max, j));
    }
    var big := Largest(inner);
    assert 0 < big <= maxSize;
    if big == maxSize {
      DivUnique(big, maxSize, 1, 0);
    } else {
      DivUnique(big, maxSize, 0, big);
    }
  }

  /** The overflow report of `readv` and `writev` is unreachable: a chunk spans no
      more than `maxSize` bytes of the file, or of the buffer. */
  lemma {:induction false} ChunkBytes(fn: Fn, maxSize: nat, blocks: nat)
    requires Fitting(fn, maxSize) && blocks <= MaxBlocks(fn, maxSize)
    ensures blocks * Stride(fn) <= maxSize && blocks * BlockSize(fn) <= maxSize
  {
    MulKeepsOrder(blocks, MaxBlocks(fn, maxSize), Stride(fn));
    MulKeepsOrder(BlockSize(fn), Stride(fn), blocks);
  }

  /** The strided form in closed terms: one gather, then a fixed group of four
      operations per chunk of the rank that has most. */
  lemma {:induction false} StridedLog(fn: Fn, all: seq<nat>, maxSize: nat, n: nat)
    requires Fitting(fn, maxSize) && all != [] && fn.Viewed? && fn.bsz > 0
    requires n <= Ceil(Largest(all), MaxBlocks(fn, maxSize))
    ensures CallLogs(fn, all, maxSize, n) == Repeat([SetView, Gather, Transfer, SetView], n)
  {
    hide *;
    OneMore(fn, all, maxSize, [SetView, Gather, Transfer, SetView], n);
    if n > 0 {
      StridedLog(fn, all, maxSize, n - 1);
      StridedCall(fn, all, maxSize, n - 1);
    }
  }

  lemma {:induction false} OneMore(fn: Fn, all: seq<nat>, maxSize: nat, calls: seq<Call>, n: nat)
    requires Fitting(fn, maxSize) && all != []
    ensures n == 0 ==> CallLogs(fn, all, maxSize, n) == Repeat(calls, n) == []
    ensures n > 0 ==> CallLogs(fn, all, maxSize, n) == CallLogs(fn, all, maxSize, n - 1) + CallLog(fn, all, maxSize, n - 1)
    ensures n > 0 ==> Repeat(calls, n) == Repeat(calls, n - 1) + calls
  {
  }

  lemma {:induction false} StridedCall(fn: Fn, all: seq<nat>, maxSize: nat, j: nat)
    requires Fitting(fn, maxSize) && all != [] && fn.Viewed? && fn.bsz > 0
    requires j < Ceil(Largest(all), MaxBlocks(fn, maxSize))
    ensures CallLog(fn, all, maxSize, j) == [SetView, Gather, Transfer, SetView]
  {
    InnerFits(fn, all, maxSize, j);
    assert Repeat([Transfer], 1) == Repeat([Transfer], 0) + [Transfer] == [Transfer];
    hide Ceil, MaxBlocks, Largest, Fitting, InnerSizes;
  }

  lemma {:induction false} PlainLog(dir: Direction, all: seq<nat>, maxSize: nat, n: nat)
    requires Fitting(Plain(dir), maxSize) && all != []
    ensures CallLogs(Plain(dir), all, maxSize, n) == Repeat([Transfer], n)
  {
    if n > 0 {
      PlainLog(dir, all, maxSize, n - 1);
    }
  }

  lemma {:induction false} PlainContigLog(dir: Direction, all: seq<nat>, maxSize: nat)
    requires Fitting(Plain(dir), maxSize) && all != []
    ensures MaxBlocks(Plain(dir), maxSize) == maxSize
    ensures ContigLog(Plain(dir), all, maxSize) == [Gather] + Repeat([Transfer], Ceil(Largest(all), maxSize))
  {
    DivUnique(maxSize, 1, maxSize, 0);
    PlainLog(dir, all, maxSize, Ceil(Largest(all), maxSize));
  }

  /** The operations of one `listIO`: a gather, then a view, a transfer and the reset
      of the view per chunk of the rank that has most. */
  function ListLog(bsz: nat, all: seq<nat>, maxSize: nat): seq<Call>
    requires maxSize >= (if bsz > 0 then bsz * 2 else 1) && all != []
  {
    AtLeastOne(maxSize, if bsz > 0 then bsz * 2 else 1);
    [Gather] + Repeat([SetView, Transfer, SetView], Ceil(Largest(all), maxSize / if bsz > 0 then bsz * 2 else 1))
  }

  lemma {:induction false} Associate(before: seq<Call>, transfers: seq<Call>)
    ensures (before + [SetView]) + ([Gather] + transfers) + [SetView] == before + [SetView, Gather] + transfers + [SetView]
  {
  }

  // ------------------------------------------------------------------- MPIIO

  /** The bytes one call of `fn` moves. */
  ghost function Effect(fn: Fn, view: View, offset: nat, dpos: nat, sz: nat, m: Memory): Memory {
    if fn.Plain? then Whole(fn.dir, view, offset, dpos, sz, m)
    else Whole(fn.dir, Strided(offset, fn.bsz, fn.osz), 0, dpos, Times(sz, fn.bsz), m)
  }

  lemma {:induction false} NothingYet(fn: Fn, view: View, offset: nat, dpos: nat, m: Memory)
    ensures Effect(fn, view, offset, dpos, 0, m) == m
  {
  }

  /** Moving a + b blocks is moving a blocks and then b blocks from there on. */
  lemma {:induction false} EffectSplits(fn: Fn, view: View, offset: nat, dpos: nat, a: nat, b: nat, m: Memory)
    ensures Effect(fn, view, offset, dpos, a + b, m)
         == Effect(fn, view, offset + Times(Stride(fn), a), dpos + Times(BlockSize(fn), a), b,
                   Effect(fn, view, offset, dpos, a, m))
  {
    if fn.Plain? {
      WholeSplits(fn.dir, view, offset, dpos, a, b, m);
    } else {
      StridedSplits(fn.dir, offset, fn.bsz, fn.osz, dpos, a, b, m);
    }
  }

  lemma {:induction false} StridedSplits(dir: Direction, offset: nat, bsz: nat, osz: nat, dpos: nat, a: nat, b: nat,
                                         m: Memory)
    ensures Whole(dir, Strided(offset, bsz, osz), 0, dpos, Times(a + b, bsz), m)
         == Whole(dir, Strided(offset + Times(osz, a), bsz, osz), 0, dpos + Times(bsz, a), Times(b, bsz),
                  Whole(dir, Strided(offset, bsz, osz), 0, dpos, Times(a, bsz), m))
  {
    assert Times(a + b, bsz) == Times(bsz, a) + Times(b, bsz);
    assert Times(a, bsz) == Times(bsz, a);
    hide Whole, Position;
    var v, w := Strided(offset, bsz, osz), Strided(offset + Times(osz, a), bsz, osz);
    forall k: nat | k < Times(b, bsz) ensures SameByte(v, Times(bsz, a), w, 0, k) {
      if bsz > 0 {
        StridedFrom(offset, bsz, osz, a, k);
      }
    }
    hide Times;
    WholeSplits(dir, v, 0, dpos, Times(bsz, a), Times(b, bsz), m);
    WholeSameBytes(dir, v, Times(bsz, a), w, 0, dpos + Times(bsz, a), Times(b, bsz),
                   Whole(dir, v, 0, dpos, Times(bsz, a), m));
  }

  /** A call through its own view does not depend on the view it finds. */
  lemma {:induction false} SameView(fn: Fn, v: View, w: View, offset: nat, dpos: nat, sz: nat, m: Memory)
    requires fn.Plain? ==> v == w
    ensures Effect(fn, v, offset, dpos, sz, m) == Effect(fn, w, offset, dpos, sz, m)
  {
  }

  lemma {:induction false} NextChunk(sz: nat, max: nat, c: nat)
    requires max > 0 && c * max < sz
    ensures c < Ceil(sz, max) && ChunkSize(sz, max, c) == MinOf(sz - c * max, max)
    ensures MinOf(c * max, sz) == c * max && MinOf((c + 1) * max, sz) == c * max + MinOf(sz - c * max, max)
    ensures (c + 1) * max == c * max + max
  {
    InLoop(sz, max, c);
  }

  lemma {:induction false} NoChunk(sz: nat, max: nat, c: nat)
    requires max > 0 && c >= Ceil(sz, max)
    ensures ChunkSize(sz, max, c) == 0
  {
  }

  lemma {:induction false} CallLogsNext(fn: Fn, all: seq<nat>, maxSize: nat, n: nat)
    requires Fitting(fn, maxSize) && all != []
    ensures CallLogs(fn, all, maxSize, n + 1) == CallLogs(fn, all, maxSize, n) + CallLog(fn, all, maxSize, n)
  {
  }

  lemma {:induction false} LogComplete(fn: Fn, all: seq<nat>, maxSize: nat, before: seq<Call>, c: nat, n: nat)
    requires Fitting(fn, maxSize) && all != [] && n == Ceil(Largest(all), MaxBlocks(fn, maxSize))
    ensures ContigLog(fn, all, maxSize) == [Gather] + CallLogs(fn, all, maxSize, n)
    ensures forall pads :: CallLogs(fn, all, maxSize, n) == CallLogs(fn, all, maxSize, c) + pads ==>
              before + [Gather] + CallLogs(fn, all, maxSize, c) + pads == before + ContigLog(fn, all, maxSize)
  {
  }

  /** One rank's handle on the file. */
  class Mpiio {
    const maxSize: nat
    var file: File
    var view: View
    var log: seq<Call>
    var overflows: nat     // reports of transfers beyond the MPI settings

    constructor (maxSize: nat, file: File)
      ensures this.maxSize == maxSize && this.file == file && view == Contiguous(0) && log == [] && overflows == 0
    {
      this.maxSize, this.file, view, log, overflows := maxSize, file, Contiguous(0), [], 0;
    }

    /** MPI_File_read_at(_all) and MPI_File_write_at(_all). */
    method TransferAt(dir: Direction, at: nat, d: array<Byte>, dpos: nat, len: nat)
      modifies this`file, this`log, d
      ensures Memory(file, d[..]) == Whole(dir, view, at, dpos, len, old(Memory(file, d[..])))
      ensures log == old(log) + [Transfer]
    {
      for k := 0 to len
        invariant view == old(view) && log == old(log)
        invariant Memory(file, d[..]) == Whole(dir, view, at, dpos, k, old(Memory(file, d[..])))
      {
        var p := Position(view, at + k);
        if dpos + k < d.Length {
          match dir
          case Read =>
            if p in file {
              d[dpos + k] := file[p];
            }
          case Write =>
            file := file[p := d[dpos + k]];
        }
      }
      log := log + [Transfer];
    }

    /** readv and writev. */
    method TransferView(fn: Fn, off: nat, nb: nat, d: array<Byte>, dpos: nat, inner: seq<nat>)
      requires fn.Viewed? && Fitting(fn, maxSize)
      requires Times(nb, fn.bsz) in inner
      modifies this`file, this`view, this`log, this`overflows, d
      ensures Memory(file, d[..]) == Effect(fn, old(view), off, dpos, nb, old(Memory(file, d[..])))
      ensures view == Contiguous(0)
      ensures overflows == old(overflows) + if nb * fn.osz > maxSize then 1 else 0
      ensures log == old(log) + [SetView, Gather] + Repeat([Transfer], Ceil(Largest(inner), maxSize)) + [SetView]
      decreases 0, 2, 0
    {
      hide Whole, Repeat, Ceil, Largest;
      if nb * fn.osz > maxSize {
        overflows := overflows + 1;
      }
      ghost var before := log;
      view, log := Strided(off, fn.bsz, fn.osz), log + [SetView];
      PlainContigLog(fn.dir, inner, maxSize);
      ContigIO(Plain(fn.dir), 0, Times(nb, fn.bsz), d, dpos, inner);
      view, log := Contiguous(0), log + [SetView];
      Associate(before, Repeat([Transfer], Ceil(Largest(inner), maxSize)));
    }

    method CallFn(fn: Fn, off: nat, nb: nat, d: array<Byte>, dpos: nat, all: seq<nat>, j: nat)
      requires Fitting(fn, maxSize) && nb <= MaxBlocks(fn, maxSize)
      requires exists r :: 0 <= r < |all| && nb == ChunkSize(all[r], MaxBlocks(fn, maxSize), j)
      modifies this`file, this`view, this`log, this`overflows, d
      ensures Memory(file, d[..]) == Effect(fn, old(view), off, dpos, nb, old(Memory(file, d[..])))
      ensures view == (if fn.Plain? then old(view) else Contiguous(0)) && overflows == old(overflows)
      ensures log == old(log) + CallLog(fn, all, maxSize, j)
      decreases if fn.Plain? then 0 else 1, 0, 0
    {
      match fn
      case Plain(dir) =>
        TransferAt(dir, off, d, dpos, nb);
      case Viewed(_, bsz, _) =>
        ghost var r :| 0 <= r < |all| && nb == ChunkSize(all[r], MaxBlocks(fn, maxSize), j);
        assert InnerSizes(fn, all, maxSize, j)[r] == Times(nb, bsz);
        ChunkBytes(fn, maxSize, nb);
        TransferView(fn, off, nb, d, dpos, InnerSizes(fn, all, maxSize, j));
    }

    /** contigIO: `all` is what the gather returns, the sizes of all ranks. */
    method ContigIO(fn: Fn, offset: nat, sz: nat, d: array<Byte>, dpos: nat, all: seq<nat>)
      requires Fitting(fn, maxSize) && sz in all
      modifies this`file, this`view, this`log, this`overflows, d
      ensures Memory(file, d[..]) == Effect(fn, old(view), offset, dpos, sz, old(Memory(file, d[..])))
      ensures fn.Plain? ==> view == old(view)
      ensures overflows == old(overflows)
      ensures log == old(log) + ContigLog(fn, all, maxSize)
      decreases if fn.Plain? then 0 else 1, 1, 2
    {
      hide *;
      var remCall := Remaining(all, sz, MaxBlocks(fn, maxSize));
      RemainingPads(all, sz, MaxBlocks(fn, maxSize));
      ghost var before := log;
      log := log + [Gather];
      var c := TransferChunks(fn, offset, sz, d, dpos, all);
      PadCalls(fn, sz, d, all, c, remCall);
      LogComplete(fn, all, maxSize, before, c, c + remCall);
    }

    /** The first loop: one call per chunk of the rank's own blocks. */
    method TransferChunks(fn: Fn, offset: nat, sz: nat, d: array<Byte>, dpos: nat, all: seq<nat>) returns (c: nat)
      requires Fitting(fn, maxSize) && sz in all
      modifies this`file, this`view, this`log, this`overflows, d
      ensures Memory(file, d[..]) == Effect(fn, old(view), offset, dpos, sz, old(Memory(file, d[..])))
      ensures fn.Plain? ==> view == old(view)
      ensures overflows == old(overflows)
      ensures c == Ceil(sz, MaxBlocks(fn, maxSize)) && log == old(log) + CallLogs(fn, all, maxSize, c)
      decreases if fn.Plain? then 0 else 1, 1, 1
    {
      hide Effect, Fitting, MaxBlocks, CallLog, ChunkSize, Ceil;
      var max := MaxBlocks(fn, maxSize);
      ghost var m, v, before := Memory(file, d[..]), view, log;
      ghost var r :| 0 <= r < |all| && all[r] == sz;
      NothingYet(fn, v, offset, dpos, m);
      var i := 0;
      c := 0;
      while i < sz
        invariant i == c * max && c <= Ceil(sz, max)
        invariant Memory(file, d[..]) == Effect(fn, v, offset, dpos, MinOf(i, sz), m)
        invariant fn.Plain? ==> view == v
        invariant overflows == old(overflows)
        invariant log == before + CallLogs(fn, all, maxSize, c)
        decreases sz - i
      {
        var chunk := MinOf(sz - i, max);
        NextChunk(sz, max, c);
        ghost var seen := view;
        CallFn(fn, offset + Times(Stride(fn), i), chunk, d, dpos + Times(BlockSize(fn), i), all, c);
        EffectSplits(fn, v, offset, dpos, i, chunk, m);
        SameView(fn, v, seen, offset + Times(Stride(fn), i), dpos + Times(BlockSize(fn), i), chunk,
                 Effect(fn, v, offset, dpos, i, m));
        CallLogsNext(fn, all, maxSize, c);
        i, c := i + max, c + 1;
      }
      InLoop(sz, max, c);
    }

    /** The second loop: empty calls until the rank with most chunks is through. */
    method PadCalls(fn: Fn, sz: nat, d: array<Byte>, all: seq<nat>, c: nat, remCall: nat)
      requires Fitting(fn, maxSize) && sz in all && c >= Ceil(sz, MaxBlocks(fn, maxSize))
      modifies this`file, this`view, this`log, this`overflows, d
      ensures Memory(file, d[..]) == old(Memory(file, d[..]))
      ensures fn.Plain? ==> view == old(view)
      ensures overflows == old(overflows)
      ensures exists pads :: log == old(log) + pads && CallLogs(fn, all, maxSize, c + remCall) == CallLogs(fn, all, maxSize, c) + pads
      decreases if fn.Plain? then 0 else 1, 1, 0
    {
      hide Effect, Fitting, MaxBlocks, CallLog, ChunkSize, Ceil;
      ghost var r :| 0 <= r < |all| && all[r] == sz;
      ghost var before, pads := log, [];
      for k := 0 to remCall
        invariant Memory(file, d[..]) == old(Memory(file, d[..]))
        invariant fn.Plain? ==> view == old(view)
        invariant overflows == old(overflows)
        invariant log == before + pads
        invariant CallLogs(fn, all, maxSize, c + k) == CallLogs(fn, all, maxSize, c) + pads
      {
        NoChunk(sz, MaxBlocks(fn, maxSize), c + k);
        NothingYet(fn, view, 0, 0, Memory(file, d[..]));
        CallFn(fn, 0, 0, d, 0, all, c + k);
        CallLogsNext(fn, all, maxSize, c + k);
        pads := pads + CallLog(fn, all, maxSize, c + k);
      }
    }

    /** read and write of a contiguous range. */
    method TransferRange(dir: Direction, offset: nat, sz: nat, d: array<Byte>, all: seq<nat>)
      requires maxSize > 0 && sz in all
      modifies this`file, this`view, this`log, this`overflows, d
      ensures Memory(file, d[..]) == Whole(dir, old(view), offset, 0, sz, old(Memory(file, d[..])))
      ensures log == old(log) + [Gather] + Repeat([Transfer], Ceil(Largest(all), maxSize))
      ensures view == old(view) && overflows == old(overflows)
      ensures old(view) == Contiguous(0) && dir.Read? ==>
                && file == old(file)
                && forall k :: 0 <= k < d.Length ==> d[k] == if k < sz && offset + k in file then file[offset + k] else old(d[k])
      ensures old(view) == Contiguous(0) && dir.Write? && sz <= d.Length ==>
                && d[..] == old(d[..])
                && (forall p: nat :: offset <= p < offset + sz ==> p in file && file[p] == d[p - offset])
                && forall p: nat :: !(offset <= p < offset + sz) ==> SameAt(old(file), file, p)
    {
      ghost var m := Memory(file, d[..]);
      ContigIO(Plain(dir), offset, sz, d, 0, all);
      PlainContigLog(dir, all, maxSize);
      if view == Contiguous(0) {
        RangeMoved(dir, offset, sz, m);
        hide *;
        assert forall k :: 0 <= k < d.Length ==> d[k] == d[..][k] && m.buf[k] == old(d[k]);
      }
    }

    /** read and write of nb blocks of bsz bytes, osz bytes apart. */
    method TransferStrided(dir: Direction, offset: nat, bsz: nat, osz: nat, nb: nat, d: array<Byte>, all: seq<nat>)
      requires 0 < bsz <= osz <= maxSize && nb in all
      modifies this`file, this`view, this`log, this`overflows, d
      ensures Memory(file, d[..]) == Whole(dir, Strided(offset, bsz, osz), 0, 0, Times(nb, bsz), old(Memory(file, d[..])))
      ensures log == old(log) + [Gather]
                   + Repeat([SetView, Gather, Transfer, SetView], Ceil(Largest(all), maxSize / osz))
      ensures overflows == old(overflows)
      ensures dir.Read? ==>
                && file == old(file)
                && forall k :: 0 <= k < d.Length ==>
                     d[k] == if k < Times(nb, bsz) && BlockByte(offset, bsz, osz, k) in file then file[BlockByte(offset, bsz, osz, k)] else old(d[k])
      ensures dir.Write? && Times(nb, bsz) <= d.Length ==>
                && d[..] == old(d[..])
                && (forall k :: 0 <= k < Times(nb, bsz) ==>
                      BlockByte(offset, bsz, osz, k) in file && file[BlockByte(offset, bsz, osz, k)] == d[k])
                && forall p: nat :: (forall k :: 0 <= k < Times(nb, bsz) ==> p != BlockByte(offset, bsz, osz, k)) ==>
                     SameAt(old(file), file, p)
    {
      ghost var m := Memory(file, d[..]);
      var fn := Viewed(dir, bsz, osz);
      ContigIO(fn, offset, nb, d, 0, all);
      StridedLog(fn, all, maxSize, Ceil(Largest(all), MaxBlocks(fn, maxSize)));
      StridedMoved(dir, offset, bsz, osz, nb, m);
      hide *;
      assert forall k :: 0 <= k < d.Length ==> d[k] == d[..][k] && m.buf[k] == old(d[k]);
    }

    /** iol: one view over a list of blocks, one transfer through it. */
    method TransferListed(dir: Direction, bsz: nat, offsets: seq<nat>, d: array<Byte>, dpos: nat)
      modifies this`file, this`view, this`log, d
      ensures Memory(file, d[..]) == Whole(dir, Listed(bsz, offsets), 0, dpos, Times(|offsets|, bsz), old(Memory(file, d[..])))
      ensures view == Contiguous(0) && log == old(log) + [SetView, Transfer, SetView]
    {
      view, log := Listed(bsz, offsets), log + [SetView];
      TransferAt(dir, 0, d, dpos, Times(|offsets|, bsz));
      view, log := Contiguous(0), log + [SetView];
    }

    /** listIO: blocks of bsz bytes at the given file offsets. */
    method ListIO(dir: Direction, bsz: nat, offsets: seq<nat>, d: array<Byte>, all: seq<nat>)
      requires maxSize >= (if bsz > 0 then bsz * 2 else 1) && |offsets| in all
      modifies this`file, this`view, this`log, d
      ensures Memory(file, d[..]) == Whole(dir, Listed(bsz, offsets), 0, 0, Times(|offsets|, bsz), old(Memory(file, d[..])))
      ensures log == old(log) + ListLog(bsz, all, maxSize)
      ensures dir.Read? && bsz > 0 ==>
                && file == old(file)
                && forall k :: 0 <= k < d.Length ==>
                     d[k] == if k < Times(|offsets|, bsz) && ListByte(bsz, offsets, k) in file then file[ListByte(bsz, offsets, k)] else old(d[k])
      ensures dir.Write? && bsz > 0 && Times(|offsets|, bsz) <= d.Length && BlocksApart(bsz, offsets) ==>
                && d[..] == old(d[..])
                && (forall k :: 0 <= k < Times(|offsets|, bsz) ==>
                      ListByte(bsz, offsets, k) in file && file[ListByte(bsz, offsets, k)] == d[k])
                && forall p: nat :: (forall k :: 0 <= k < Times(|offsets|, bsz) ==> p != ListByte(bsz, offsets, k)) ==>
                     SameAt(old(file), file, p)
    {
      ghost var m := Memory(file, d[..]);
      hide Whole, Remaining, Times, Ceil;
      var unit := if bsz > 0 then bsz * 2 else 1;
      AtLeastOne(maxSize, unit);
      var sz, max := |offsets|, maxSize / unit;
      var remCall := Remaining(all, sz, max);
      RemainingPads(all, sz, max);
      log := log + [Gather];
      ListChunks(dir, bsz, offsets, d, max);
      PadLists(dir, d, Ceil(sz, max), remCall);
      if bsz > 0 && (dir.Read? || BlocksApart(bsz, offsets)) {
        ListedMoved(dir, bsz, offsets, m);
        hide *;
        assert forall k :: 0 <= k < d.Length ==> d[k] == d[..][k] && m.buf[k] == old(d[k]);
      }
    }

    /** One transfer per chunk of the rank's own blocks. */
    method ListChunks(dir: Direction, bsz: nat, offsets: seq<nat>, d: array<Byte>, max: nat)
      requires max > 0
      modifies this`file, this`view, this`log, d
      ensures Memory(file, d[..]) == Whole(dir, Listed(bsz, offsets), 0, 0, Times(|offsets|, bsz), old(Memory(file, d[..])))
      ensures log == old(log) + Repeat([SetView, Transfer, SetView], Ceil(|offsets|, max))
    {
      hide Whole, Remaining;
      var sz := |offsets|;
      ghost var m, before := Memory(file, d[..]), log;
      assert Times(0, bsz) == 0;
      EmptyTransfer(dir, Listed(bsz, offsets), 0, m);
      var i, c := 0, 0;
      hide Times, Ceil;
      while i < sz
        invariant i == c * max && c <= Ceil(sz, max)
        invariant Memory(file, d[..]) == Whole(dir, Listed(bsz, offsets), 0, 0, Times(MinOf(i, sz), bsz), m)
        invariant log == before + Repeat([SetView, Transfer, SetView], c)
        decreases sz - i
      {
        var chunk := MinOf(sz - i, max);
        NextChunk(sz, max, c);
        TransferListed(dir, bsz, offsets[i..i + chunk], d, Times(bsz, i));
        ListSplits(dir, bsz, offsets, i, chunk, m);
        i, c := i + max, c + 1;
      }
      InLoop(sz, max, c);
    }

    /** Empty transfers, while other ranks still have chunks. */
    method PadLists(dir: Direction, d: array<Byte>, ghost c: nat, remCall: nat)
      modifies this`file, this`view, this`log, d
      ensures Memory(file, d[..]) == old(Memory(file, d[..]))
      ensures forall before :: old(log) == before + Repeat([SetView, Transfer, SetView], c) ==>
                log == before + Repeat([SetView, Transfer, SetView], c + remCall)
    {
      hide Whole;
      ghost var pads := [];
      for k := 0 to remCall
        invariant Memory(file, d[..]) == old(Memory(file, d[..])) && log == old(log) + pads
        invariant Repeat([SetView, Transfer, SetView], c + k) == Repeat([SetView, Transfer, SetView], c) + pads
      {
        NoBytes();
        EmptyTransfer(dir, Listed(0, []), 0, Memory(file, d[..]));
        TransferListed(dir, 0, [], d, 0);
        pads := pads + [SetView, Transfer, SetView];
      }
    }
  }

  lemma {:induction false} NoBytes()
    ensures Times(0, 0) == 0
  {
  }

  lemma {:induction false} AtLeastOne(a: nat, b: nat)
    requires 0 < b <= a
    ensures a / b > 0
  {
    assert a == (a / b) * b + a % b;
  }

  lemma {:induction false} EmptyTransfer(dir: Direction, v: View, dpos: nat, m: Memory)
    ensures Whole(dir, v, 0, dpos, 0, m) == m
  {
  }

  lemma {:induction false} ListSplits(dir: Direction, bsz: nat, offsets: seq<nat>, i: nat, n: nat, m: Memory)
    requires i + n <= |offsets|
    ensures Whole(dir, Listed(bsz, offsets), 0, 0, Times(i + n, bsz), m)
         == Whole(dir, Listed(bsz, offsets[i..i + n]), 0, Times(bsz, i), Times(|offsets[i..i + n]|, bsz),
                  Whole(dir, Listed(bsz, offsets), 0, 0, Times(i, bsz), m))
  {
    hide Whole, Position;
    var v, w := Listed(bsz, offsets), Listed(bsz, offsets[i..i + n]);
    assert Times(i + n, bsz) == Times(i, bsz) + Times(n, bsz);
    WholeSplits(dir, v, 0, 0, Times(i, bsz), Times(n, bsz), m);
    forall k: nat | k < Times(n, bsz) ensures SameByte(v, Times(bsz, i), w, 0, k) {
      if bsz > 0 {
        ListedFrom(bsz, offsets, i, n, k);
      }
    }
    WholeSameBytes(dir, v, Times(bsz, i), w, 0, Times(bsz, i), Times(n, bsz), Whole(dir, v, 0, 0, Times(i, bsz), m));
  }
}
