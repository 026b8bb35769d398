/**
 Big-endian numbers in byte buffers.
 */
module HeaderBytes {
  import opened Bytes
  import opened Scale

  function Low(n: int): Byte { n % 256 }

  function BigEndian16(n: int): (b: seq<Byte>)
    ensures |b| == 2
  {
    [Low(n / 0x100), Low(n)]
  }

  function BigEndian32(n: int): (b: seq<Byte>)
    ensures |b| == 4
  {
    [Low(n / 0x100_0000), Low(n / 0x1_0000), Low(n / 0x100), Low(n)]
  }

  /** One more byte at the low end. */
  function Join(high: int, low: int): int {
    high * 0x100 + low
  }

  function GetHost16(b: seq<Byte>): int
    requires |b| == 2
  {
    Wrap16(Join(b[0], b[1]))
  }

  function GetHost32(b: seq<Byte>): int
    requires |b| == 4
  {
    Wrap32(Join(Join(Join(b[0], b[1]), b[2]), b[3]))
  }

  lemma {:induction false} JoinSplit(n: int)
    ensures Join(n / 0x100, Low(n)) == n
  {
  }

  lemma {:induction false} SplitJoin(high: int, low: Byte)
    ensures Join(high, low) / 0x100 == high && Low(Join(high, low)) == low
  {
  }

  lemma {:induction false} Shifts(n: int)
    ensures n / 0x1_0000 == n / 0x100 / 0x100 && n / 0x100_0000 == n / 0x1_0000 / 0x100
  {
  }

  lemma {:induction false} WrapSame(n: int, u: int, q: int)
    ensures n == u + q * 0x1_0000_0000 ==> Wrap32(n) == Wrap32(u)
    ensures n == u + q * 0x1_0000 ==> Wrap16(n) == Wrap16(u)
  {
    ShiftMod(n, q, 0x1_0000_0000);
    ShiftMod(n, q, 0x1_0000);
  }

  /** What is read is what was written, as far as it fits. */
  lemma {:induction false} HostOfBigEndian16(n: int)
    ensures GetHost16(BigEndian16(n)) == Wrap16(n)
  {
    JoinSplit(n);
    JoinSplit(n / 0x100);
    WrapSame(n, Join(Low(n / 0x100), Low(n)), n / 0x100 / 0x100);
    hide Wrap16, Low;
  }

  lemma {:induction false} HostOfBigEndian32(n: int)
    ensures GetHost32(BigEndian32(n)) == Wrap32(n)
  {
    var n1, n2, n3 := n / 0x100, n / 0x1_0000, n / 0x100_0000;
    Shifts(n);
    JoinSplit(n);
    JoinSplit(n1);
    JoinSplit(n2);
    JoinSplit(n3);
    WrapSame(n, Join(Join(Join(Low(n3), Low(n2)), Low(n1)), Low(n)), n3 / 0x100);
    hide Wrap32, Low;
  }

  /** Every byte is determined by the number that is read. */
  lemma {:induction false} BigEndianOfHost16(b: seq<Byte>)
    requires |b| == 2
    ensures BigEndian16(GetHost16(b)) == b
  {
    var n := GetHost16(b);
    var e := if n == Join(b[0], b[1]) then 0 else -1;
    assert n == Join(Join(e, b[0]), b[1]);
    SplitJoin(Join(e, b[0]), b[1]);
    SplitJoin(e, b[0]);
    hide Low, Join, Wrap16;
  }

  lemma {:induction false} BigEndianOfHost32(b: seq<Byte>)
    requires |b| == 4
    ensures BigEndian32(GetHost32(b)) == b
  {
    var n := GetHost32(b);
    var e := if n == Join(Join(Join(b[0], b[1]), b[2]), b[3]) then 0 else -1;
    assert n == Join(Join(Join(Join(e, b[0]), b[1]), b[2]), b[3]);
    Shifts(n);
    SplitJoin(Join(Join(Join(e, b[0]), b[1]), b[2]), b[3]);
    SplitJoin(Join(Join(e, b[0]), b[1]), b[2]);
    SplitJoin(Join(e, b[0]), b[1]);
    SplitJoin(e, b[0]);
    hide Low, Join, Wrap32;
  }

  // ------------------------------------------------------------------- in a buffer

  function Splice(s: seq<Byte>, at: nat, b: seq<Byte>): (r: seq<Byte>)
    requires at + |b| <= |s|
    ensures |r| == |s|
  {
    s[..at] + b + s[at + |b|..]
  }

  method PutBigEndian16(n: int, dst: array<Byte>, at: nat)
    requires at + 2 <= dst.Length
    modifies dst
    ensures dst[..] == Splice(old(dst[..]), at, BigEndian16(n))
  {
    dst[at] := Low(n / 0x100);
    dst[at + 1] := Low(n);
  }

  method PutBigEndian32(n: int, dst: array<Byte>, at: nat)
    requires at + 4 <= dst.Length
    modifies dst
    ensures dst[..] == Splice(old(dst[..]), at, BigEndian32(n))
  {
    dst[at] := Low(n / 0x100_0000);
    dst[at + 1] := Low(n / 0x1_0000);
    dst[at + 2] := Low(n / 0x100);
    dst[at + 3] := Low(n);
  }

  /** The number in the buffer at a place. */
  function Word16(s: seq<Byte>, at: nat): int
    requires at + 2 <= |s|
  {
    GetHost16(s[at..at + 2])
  }

  function Word32(s: seq<Byte>, at: nat): int
    requires at + 4 <= |s|
  {
    GetHost32(s[at..at + 4])
  }

  predicate Disjoint(a: nat, wa: nat, b: nat, wb: nat) {
    a + wa <= b || b + wb <= a
  }

  lemma {:induction false} SpliceElsewhere(s: seq<Byte>, at: nat, b: seq<Byte>, p: nat, w: nat)
    requires at + |b| <= |s| && p + w <= |s| && Disjoint(at, |b|, p, w)
    ensures Splice(s, at, b)[p..p + w] == s[p..p + w]
  {
    var r := Splice(s, at, b);
    if p + w <= at {
      assert forall k :: p <= k < p + w ==> r[k] == s[k];
    } else {
      assert forall k :: p <= k < p + w ==> r[k] == s[k];
    }
  }

  lemma {:induction false} SpliceHere(s: seq<Byte>, at: nat, b: seq<Byte>)
    requires at + |b| <= |s|
    ensures Splice(s, at, b)[at..at + |b|] == b
  {
  }
}
