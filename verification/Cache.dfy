/**
 The trace numbers a set of files is sorted with (`Cache::getCache`). On each rank
 a file contributes a piece of its traces; pieces are numbered rank by rank and,
 within a rank, file by file.
 */
module Cache {
  import opened Decomposition
  import opened SortIndex

  /** The traces `start`, `start` + 1, ... of one file, `count` of them. */
  datatype Piece = Piece(start: nat, count: nat)

  function Count(pieces: seq<Piece>): nat {
    if pieces == [] then 0 else pieces[0].count + Count(pieces[1..])
  }

  /** The global numbers of a piece that begins after `before` other traces. */
  function PieceNumbers(before: nat, p: Piece): (s: seq<nat>)
    ensures |s| == p.count && forall i :: 0 <= i < p.count ==> s[i] == before + p.start + i
  {
    seq(p.count, i requires 0 <= i < p.count => before + p.start + i)
  }

  /** Trace k of file number c out of `files` interleaved ones. */
  function LocalNumber(files: nat, c: nat, k: nat): (n: nat)
    ensures n == k * files + c
  {
    Times(k, files) + c
  }

  /** The local numbers of a piece of file number c out of `files` interleaved ones. */
  function PieceLocals(files: nat, c: nat, p: Piece): (s: seq<nat>)
    ensures |s| == p.count && forall i :: 0 <= i < p.count ==> s[i] == LocalNumber(files, c, p.start + i)
  {
    seq<nat>(p.count, i requires 0 <= i < p.count => LocalNumber(files, c, p.start + i))
  }

  function Gtns(before: nat, pieces: seq<Piece>): seq<nat>
    decreases pieces
  {
    if pieces == [] then [] else PieceNumbers(before, pieces[0]) + Gtns(before + pieces[0].count, pieces[1..])
  }

  function Ltns(files: nat, c: nat, pieces: seq<Piece>): seq<nat>
    decreases pieces
  {
    if pieces == [] then [] else PieceLocals(files, c, pieces[0]) + Ltns(files, c + 1, pieces[1..])
  }

  /** `getCache` on one rank; `off` is the number of traces on the ranks before. */
  method GetCache(off: nat, desc: seq<Piece>) returns (gtn: seq<nat>, ltn: seq<nat>)
    ensures gtn == Gtns(off, desc) && ltn == Ltns(|desc|, 0, desc)
  {
    hide Gtns, Ltns;
    gtn, ltn := [], [];
    var loff: nat := 0;
    for c: nat := 0 to |desc|
      invariant gtn + Gtns(off + loff, desc[c..]) == Gtns(off, desc)
      invariant ltn + Ltns(|desc|, c, desc[c..]) == Ltns(|desc|, 0, desc)
    {
      var f := desc[c];
      ghost var g, l := gtn, ltn;
      for i: nat := 0 to f.count
        invariant gtn == g + PieceNumbers(off + loff, f)[..i]
        invariant ltn == l + PieceLocals(|desc|, c, f)[..i]
      {
        var g': nat := off + loff + (f.start + i);
        var l' := LocalNumber(|desc|, c, f.start + i);
        gtn, ltn := gtn + [g'], ltn + [l'];
      }
      GtnsUnfold(off + loff, desc[c..]);
      LtnsUnfold(|desc|, c, desc[c..]);
      assert desc[c..][1..] == desc[c + 1..];
      loff := loff + f.count;
    }
    EmptyNumbers(off + loff, |desc|, |desc|);
    assert desc[|desc|..] == [] && gtn + [] == gtn && ltn + [] == ltn;
  }

  lemma {:induction false} LtnsUnfold(files: nat, c: nat, pieces: seq<Piece>)
    requires pieces != []
    ensures Ltns(files, c, pieces) == PieceLocals(files, c, pieces[0]) + Ltns(files, c + 1, pieces[1..])
  {
  }

  lemma {:induction false} EmptyNumbers(before: nat, files: nat, c: nat)
    ensures Gtns(before, []) == [] && Ltns(files, c, []) == []
  {
  }

  lemma {:induction false} GtnsConcat(before: nat, a: seq<Piece>, b: seq<Piece>)
    ensures Gtns(before, a + b) == Gtns(before, a) + Gtns(before + Count(a), b)
    decreases a
  {
    if a == [] {
      assert a + b == b;
    } else {
      assert (a + b)[1..] == a[1..] + b;
      GtnsConcat(before + a[0].count, a[1..], b);
    }
  }

  ghost predicate GrowsFrom(bound: nat, s: seq<nat>) {
    StrictlyIncreasing(s) && (s != [] ==> bound <= s[0])
  }

  /** No piece with traces starts earlier in its file than `last` or than a piece
      with traces before it. */
  predicate NoStepBack(last: nat, pieces: seq<Piece>)
    decreases pieces
  {
    pieces == []
    || if pieces[0].count == 0 then NoStepBack(last, pieces[1..])
       else last <= pieces[0].start && NoStepBack(pieces[0].start, pieces[1..])
  }

  /** The global numbers grow with (rank, local index), as the distributed sort
      needs, exactly if the pieces never step back. */
  lemma {:induction false} GtnExactness(pieces: seq<Piece>)
    ensures StrictlyIncreasing(Gtns(0, pieces)) <==> NoStepBack(0, pieces)
  {
    GtnsIncrease(0, 0, pieces);
    FirstNumber(0, pieces);
  }

  lemma {:induction false} FirstNumber(before: nat, pieces: seq<Piece>)
    ensures Gtns(before, pieces) != [] ==> Gtns(before, pieces)[0] >= before
    decreases pieces
  {
    if pieces != [] {
      FirstNumber(before + pieces[0].count, pieces[1..]);
    }
  }

  lemma {:induction false} GtnsUnfold(before: nat, pieces: seq<Piece>)
    requires pieces != []
    ensures Gtns(before, pieces) == PieceNumbers(before, pieces[0]) + Gtns(before + pieces[0].count, pieces[1..])
  {
  }

  lemma {:induction false} GtnsIncrease(before: nat, last: nat, pieces: seq<Piece>)
    ensures NoStepBack(last, pieces)
       <==> GrowsFrom(before + last, Gtns(before, pieces))
    decreases pieces
  {
    if pieces == [] {
      assert Gtns(before, pieces) == [];
    } else {
      OnePieceFewer(before, last, pieces);
      GtnsIncrease(before + pieces[0].count, if pieces[0].count == 0 then last else pieces[0].start, pieces[1..]);
      hide *;
    }
  }

  /** Both sides of the equivalence with one piece less. */
  lemma {:induction false} OnePieceFewer(before: nat, last: nat, pieces: seq<Piece>)
    requires pieces != []
    ensures var p, tail := pieces[0], Gtns(before + pieces[0].count, pieces[1..]);
            && (NoStepBack(last, pieces)
                <==> if p.count == 0 then NoStepBack(last, pieces[1..])
                     else last <= p.start && NoStepBack(p.start, pieces[1..]))
            && (GrowsFrom(before + last, Gtns(before, pieces))
                <==> if p.count == 0 then GrowsFrom(before + last, tail)
                     else last <= p.start && GrowsFrom(before + p.count + p.start, tail))
  {
    hide *;
    GtnsUnfold(before, pieces);
    StepBackUnfold(last, pieces);
    OnePieceMore(before, last, pieces[0], Gtns(before + pieces[0].count, pieces[1..]));
  }

  lemma {:induction false} StepBackUnfold(last: nat, pieces: seq<Piece>)
    requires pieces != []
    ensures NoStepBack(last, pieces)
       <==> if pieces[0].count == 0 then NoStepBack(last, pieces[1..])
            else last <= pieces[0].start && NoStepBack(pieces[0].start, pieces[1..])
  {
  }

  lemma {:induction false} OnePieceMore(before: nat, last: nat, p: Piece, tail: seq<nat>)
    ensures GrowsFrom(before + last, PieceNumbers(before, p) + tail)
       <==> if p.count == 0 then GrowsFrom(before + last, tail)
            else last <= p.start && GrowsFrom(before + p.count + p.start, tail)
  {
    var head := PieceNumbers(before, p);
    PieceIncreases(before, p);
    hide StrictlyIncreasing, PieceNumbers;
    if p.count == 0 {
      assert head + tail == tail;
    } else {
      JoinIncreasing(head, tail);
    }
  }

  lemma {:induction false} PieceIncreases(before: nat, p: Piece)
    ensures StrictlyIncreasing(PieceNumbers(before, p))
  {
  }

  lemma {:induction false} JoinIncreasing(a: seq<nat>, b: seq<nat>)
    requires a != [] && StrictlyIncreasing(a)
    ensures StrictlyIncreasing(a + b) <==> StrictlyIncreasing(b) && (b != [] ==> a[|a| - 1] < b[0])
  {
    var s := a + b;
    if StrictlyIncreasing(s) {
      forall i, j | 0 <= i < j < |b| ensures b[i] < b[j] {
        assert s[|a| + i] < s[|a| + j];
      }
      if b != [] {
        assert s[|a| - 1] < s[|a|];
      }
    }
    if StrictlyIncreasing(b) && (b != [] ==> a[|a| - 1] < b[0]) {
      forall i, j | 0 <= i < j < |s| ensures s[i] < s[j] {
        if i < |a| <= j {
          assert a[i] <= a[|a| - 1] && b[0] <= b[j - |a|];
        }
      }
    }
  }

  /** One file cut evenly over the ranks: its pieces, in rank order. */
  function FilePieces(nt: nat, numRank: nat, from: nat): (pieces: seq<Piece>)
    requires from <= numRank && numRank > 0
    decreases numRank - from
  {
    if from == numRank then []
    else
      var dec := Decompose(nt, numRank, from);
      [Piece(dec.first, dec.second)] + FilePieces(nt, numRank, from + 1)
  }

  /** A set of one file meets the requirement on any number of ranks. */
  lemma {:induction false} OneFile(nt: nat, numRank: nat, from: nat, last: nat)
    requires from <= numRank && numRank > 0
    requires from < numRank ==> last <= Start(nt, numRank, from)
    ensures NoStepBack(last, FilePieces(nt, numRank, from))
    decreases numRank - from
  {
    if from < numRank {
      TilesInOrder(nt, numRank, from);
      StartMonotone(nt, numRank, from, from + 1);
      OneFile(nt, numRank, from + 1, if Decompose(nt, numRank, from).second == 0 then last else Start(nt, numRank, from));
    }
  }

  /** So does any set of files on one rank, where every piece is a whole file. */
  lemma {:induction false} OneRank(pieces: seq<Piece>)
    requires forall c :: 0 <= c < |pieces| ==> pieces[c].start == 0
    ensures NoStepBack(0, pieces)
  {
    if pieces != [] {
      OneRank(pieces[1..]);
    }
  }

  /** Two files of six and two traces on two ranks do not: the last piece of the
      short file steps back, and two traces get the number 8. */
  lemma {:induction false} TwoFilesCollide()
    ensures var pieces := [Piece(0, 3), Piece(0, 1), Piece(3, 3), Piece(1, 1)];
            && Decompose(6, 2, 0) == Extent(0, 3) && Decompose(6, 2, 1) == Extent(3, 3)
            && Decompose(2, 2, 0) == Extent(0, 1) && Decompose(2, 2, 1) == Extent(1, 1)
            && !NoStepBack(0, pieces)
            && Gtns(0, pieces) == [0, 1, 2, 3, 7, 8, 9, 8]
  {
    CollidingNumbers(Piece(0, 3), Piece(0, 1), Piece(3, 3), Piece(1, 1));
    hide Gtns, NoStepBack;
  }

  lemma {:induction false} CollidingNumbers(a: Piece, b: Piece, c: Piece, d: Piece)
    requires a == Piece(0, 3) && b == Piece(0, 1) && c == Piece(3, 3) && d == Piece(1, 1)
    ensures !NoStepBack(0, [a, b, c, d]) && Gtns(0, [a, b, c, d]) == [0, 1, 2, 3, 7, 8, 9, 8]
  {
    assert [a, b, c, d][1..] == [b, c, d] && [b, c, d][1..] == [c, d] && [c, d][1..] == [d] && [d][1..] == [];
    assert Gtns(7, [d]) == [8] + Gtns(8, []) == [8];
    assert Gtns(4, [c, d]) == [7, 8, 9] + Gtns(7, [d]);
    assert Gtns(3, [b, c, d]) == [3] + Gtns(4, [c, d]);
    assert Gtns(0, [a, b, c, d]) == [0, 1, 2] + Gtns(3, [b, c, d]);
    assert !NoStepBack(3, [d]);
    assert !NoStepBack(0, [c, d]);
  }

  /** The local number identifies the file and the trace in it. */
  lemma {:induction false} LtnIdentifies(files: nat, i: nat, c: nat, i': nat, c': nat)
    requires c < files && c' < files && i * files + c == i' * files + c'
    ensures i == i' && c == c'
  {
    DivUnique(i * files + c, files, i, c);
    DivUnique(i' * files + c', files, i', c');
  }
}
