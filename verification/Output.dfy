/**
 Moving the traces of a file to given places of another one (`Set::startSingle`): the
 trace lists of every rank, the turns in which they are worked off, and the
 collective operations every rank takes part in.
 */
module Output {
  import opened Blocks
  import opened Chunks
  import opened Decomposition
  import opened SortIndex
  import opened TraceIO
  import C = Collective
  import Params
  import RuleTable

  // ------------------------------------------------------ collective operations

  /** What a rank takes part in: the reduction for the longest list, and the
      operations on the input (Read) and on the output (Write). */
  datatype Op = Biggest | On(dir: C.Direction, call: C.Call)

  /** The bytes of a trace and the limit of a transfer. */
  datatype Io = Io(bsz: nat, maxSize: nat) {
    predicate Sufficient() { maxSize >= if bsz > 0 then bsz * 2 else 1 }
  }

  function Tagged(dir: C.Direction, calls: seq<C.Call>): seq<Op> {
    seq(|calls|, i requires 0 <= i < |calls| => On(dir, calls[i]))
  }

  /** One turn: a list is read and a list is written. */
  function TurnLog(io: Io, sizes: seq<nat>): seq<Op>
    requires io.Sufficient() && sizes != []
  {
    Tagged(C.Read, C.ListLog(io.bsz, sizes, io.maxSize)) + Tagged(C.Write, C.ListLog(io.bsz, sizes, io.maxSize))
  }

  /** How many traces every rank moves in turn j. */
  function TurnSizes(all: seq<nat>, max: nat, j: nat): (sizes: seq<nat>)
    requires max > 0
    ensures |sizes| == |all|
  {
    seq(|all|, r requires 0 <= r < |all| => C.ChunkSize(all[r], max, j))
  }

  function Turns(io: Io, all: seq<nat>, max: nat, n: nat): seq<Op>
    requires io.Sufficient() && all != [] && max > 0
  {
    if n == 0 then [] else Turns(io, all, max, n - 1) + TurnLog(io, TurnSizes(all, max, n - 1))
  }

  /** Everything a rank takes part in while a file is moved: no rank occurs in it. */
  function SingleLog(io: Io, all: seq<nat>, max: nat): seq<Op>
    requires io.Sufficient() && all != [] && max > 0
  {
    [Biggest] + Turns(io, all, max, Ceil(Largest(all), max))
  }

  // -------------------------------------------------------------- startSingle

  ghost predicate Distinct(s: seq<nat>) {
    forall i, j :: 0 <= i < j < |s| ==> s[i] != s[j]
  }

  /** The chunk of a rank's lists that is moved in one turn, in which the ranks move
      `sizes` traces. */
  method MoveChunk(file: seq<FileTrace>, ilst: seq<nat>, olst: seq<nat>, io: Io, sizes: seq<nat>, out: array<FileTrace>)
    returns (log: seq<Op>)
    requires |ilst| == |olst| && StrictlyIncreasing(ilst) && InRange(ilst, 0, |file|)
    requires Distinct(olst) && InRange(olst, 0, out.Length) && io.Sufficient() && |ilst| in sizes
    modifies out
    ensures forall k :: 0 <= k < |olst| ==> out[olst[k]] == ReadBack(file, ilst[k])
    ensures forall p :: 0 <= p < out.Length && p !in olst ==> out[p] == old(out[p])
    ensures log == TurnLog(io, sizes)
  {
    var rblock := |ilst|;
    var trc := ReadTraceNonContiguous(file, ilst);
    log := Tagged(C.Read, C.ListLog(io.bsz, sizes, io.maxSize));
    var idx := GetSortIndex(olst);
    var bIn: seq<FileTrace>, sortlist: seq<nat> := [], [];
    for j := 0 to rblock
      invariant |bIn| == |sortlist| == j
      invariant forall k :: 0 <= k < j ==> bIn[k] == trc[idx[k]] && sortlist[k] == olst[idx[k]]
    {
      bIn := bIn + [trc[idx[j]]];
      sortlist := sortlist + [olst[idx[j]]];
    }
    forall i, j | 0 <= i < j < rblock ensures sortlist[i] < sortlist[j] {
      assert idx[i] != idx[j];
    }
    WriteTraceNonContiguous(out, sortlist, bIn);
    log := log + Tagged(C.Write, C.ListLog(io.bsz, sizes, io.maxSize));
    forall k | 0 <= k < rblock ensures out[olst[k]] == ReadBack(file, ilst[k]) {
      var j := PermutationHits(idx, rblock, k);
      assert out[sortlist[j]] == bIn[j];
    }
    forall j | 0 <= j < rblock ensures sortlist[j] in olst {
      assert sortlist[j] == olst[idx[j]];
    }
  }

  /** The layer below wants increasing positions here, too. */
  method WriteTraceNonContiguous(out: array<FileTrace>, offset: seq<nat>, traces: seq<FileTrace>)
    requires |offset| == |traces| && StrictlyIncreasing(offset) && InRange(offset, 0, out.Length)
    modifies out
    ensures forall i :: 0 <= i < |offset| ==> out[offset[i]] == traces[i]
    ensures forall p :: 0 <= p < out.Length && p !in offset ==> out[p] == old(out[p])
  {
    for i := 0 to |offset|
      invariant forall k :: 0 <= k < i ==> out[offset[k]] == traces[k]
      invariant forall p :: 0 <= p < out.Length && p !in offset[..i] ==> out[p] == old(out[p])
    {
      out[offset[i]] := traces[i];
      assert offset[..i + 1] == offset[..i] + [offset[i]];
    }
    assert offset[..|offset|] == offset;
  }

  /** Place p is not among entries lo .. hi - 1 of the list. */
  ghost predicate Untouched(olst: seq<nat>, lo: nat, hi: nat, p: nat)
    requires hi <= |olst|
  {
    forall k :: lo <= k < hi ==> olst[k] != p
  }

  /** Entries lo .. hi - 1 of the lists are moved, and nothing else is. */
  ghost predicate Moved(file: seq<FileTrace>, ilst: seq<nat>, olst: seq<nat>, lo: nat, hi: nat,
                        before: seq<FileTrace>, after: seq<FileTrace>)
    requires |ilst| == |olst| && hi <= |olst| && InRange(ilst, 0, |file|)
  {
    && |before| == |after| && InRange(olst, 0, |after|)
    && (forall k :: lo <= k < hi ==> after[olst[k]] == ReadBack(file, ilst[k]))
    && forall p :: 0 <= p < |after| && Untouched(olst, lo, hi, p) ==> after[p] == before[p]
  }

  lemma {:induction false} MovedOn(file: seq<FileTrace>, ilst: seq<nat>, olst: seq<nat>, i: nat, j: nat,
                                   before: seq<FileTrace>, now: seq<FileTrace>, after: seq<FileTrace>)
    requires |ilst| == |olst| && i <= j <= |olst| && InRange(ilst, 0, |file|) && Distinct(olst)
    requires Moved(file, ilst, olst, 0, i, before, now) && Moved(file, ilst, olst, i, j, now, after)
    ensures Moved(file, ilst, olst, 0, j, before, after)
  {
    forall k | 0 <= k < i ensures after[olst[k]] == ReadBack(file, ilst[k]) {
      assert Untouched(olst, i, j, olst[k]);
    }
  }

  /** Entries i .. i + n - 1 of the lists, as one chunk; with n = 0 the turn of a rank
      that has nothing left to move. */
  method MovePart(file: seq<FileTrace>, ilst: seq<nat>, olst: seq<nat>, i: nat, n: nat, io: Io, sizes: seq<nat>,
                  out: array<FileTrace>) returns (log: seq<Op>)
    requires |ilst| == |olst| && i + n <= |olst| && io.Sufficient() && n in sizes
    requires StrictlyIncreasing(ilst) && InRange(ilst, 0, |file|)
    requires Distinct(olst) && InRange(olst, 0, out.Length)
    modifies out
    ensures Moved(file, ilst, olst, i, i + n, old(out[..]), out[..])
    ensures log == TurnLog(io, sizes)
  {
    hide TurnLog;
    var part, from := olst[i..i + n], ilst[i..i + n];
    log := MoveChunk(file, from, part, io, sizes, out);
    forall k | i <= k < i + n ensures out[olst[k]] == ReadBack(file, ilst[k]) {
      assert part[k - i] == olst[k] && from[k - i] == ilst[k];
    }
  }

  lemma {:induction false} TurnHas(all: seq<nat>, lnt: nat, max: nat, j: nat)
    requires max > 0 && lnt in all
    ensures C.ChunkSize(lnt, max, j) in TurnSizes(all, max, j)
  {
    var r :| 0 <= r < |all| && all[r] == lnt;
    assert TurnSizes(all, max, j)[r] == C.ChunkSize(lnt, max, j);
  }

  lemma {:induction false} NextTurn(io: Io, all: seq<nat>, max: nat, n: nat)
    requires io.Sufficient() && all != [] && max > 0
    ensures Turns(io, all, max, 0) == []
    ensures Turns(io, all, max, n + 1) == Turns(io, all, max, n) + TurnLog(io, TurnSizes(all, max, n))
  {
  }

  lemma {:induction false} MovedNone(file: seq<FileTrace>, ilst: seq<nat>, olst: seq<nat>, now: seq<FileTrace>, after: seq<FileTrace>)
    requires |ilst| == |olst| && InRange(ilst, 0, |file|) && Moved(file, ilst, olst, 0, 0, now, after)
    ensures after == now
  {
    forall p | 0 <= p < |after| ensures after[p] == now[p] {
      assert Untouched(olst, 0, 0, p);
    }
  }

  lemma {:induction false} NoneMoved(file: seq<FileTrace>, ilst: seq<nat>, olst: seq<nat>, now: seq<FileTrace>)
    requires |ilst| == |olst| && InRange(ilst, 0, |file|) && InRange(olst, 0, |now|)
    ensures Moved(file, ilst, olst, 0, 0, now, now)
  {
  }

  /** The turns in which the rank has traces to move. */
  method OwnTurns(file: seq<FileTrace>, ilst: seq<nat>, olst: seq<nat>, all: seq<nat>, max: nat, io: Io, out: array<FileTrace>)
    returns (log: seq<Op>)
    requires max > 0 && |ilst| in all && |ilst| == |olst| && io.Sufficient()
    requires StrictlyIncreasing(ilst) && InRange(ilst, 0, |file|)
    requires Distinct(olst) && InRange(olst, 0, out.Length)
    modifies out
    ensures Moved(file, ilst, olst, 0, |ilst|, old(out[..]), out[..])
    ensures log == Turns(io, all, max, Ceil(|ilst|, max))
  {
    hide Ceil, StrictlyIncreasing, Moved, Distinct, InRange, Turns, TurnLog, TurnSizes, Largest, C.ChunkSize;
    var lnt := |ilst|;
    log := [];
    var i, turn := 0, 0;
    NextTurn(io, all, max, 0);
    NoneMoved(file, ilst, olst, out[..]);
    while i < lnt
      invariant i == turn * max && turn <= Ceil(lnt, max) && log == Turns(io, all, max, turn)
      invariant Moved(file, ilst, olst, 0, MinOf(i, lnt), old(out[..]), out[..])
      decreases lnt - i
    {
      var rblock := if i + max < lnt then max else lnt - i;
      C.NextChunk(lnt, max, turn);
      TurnHas(all, lnt, max, turn);
      NextTurn(io, all, max, turn);
      ghost var now := out[..];
      var more := MovePart(file, ilst, olst, i, rblock, io, TurnSizes(all, max, turn), out);
      MovedOn(file, ilst, olst, i, i + rblock, old(out[..]), now, out[..]);
      log := log + more;
      i, turn := i + max, turn + 1;
    }
    InLoop(lnt, max, turn);
  }

  /** The turns in which only other ranks have. */
  method PadTurns(file: seq<FileTrace>, ilst: seq<nat>, olst: seq<nat>, all: seq<nat>, max: nat, io: Io, turn: nat, extra: nat,
                  out: array<FileTrace>)
    returns (log: seq<Op>)
    requires max > 0 && |ilst| in all && |ilst| == |olst| && io.Sufficient() && turn >= Ceil(|ilst|, max)
    requires StrictlyIncreasing(ilst) && InRange(ilst, 0, |file|)
    requires Distinct(olst) && InRange(olst, 0, out.Length)
    modifies out
    ensures out[..] == old(out[..])
    ensures Turns(io, all, max, turn + extra) == Turns(io, all, max, turn) + log
  {
    hide *;
    log := [];
    for k := 0 to extra
      invariant out[..] == old(out[..]) && Turns(io, all, max, turn + k) == Turns(io, all, max, turn) + log
    {
      C.NoChunk(|ilst|, max, turn + k);
      TurnHas(all, |ilst|, max, turn + k);
      NextTurn(io, all, max, turn + k);
      ghost var now := out[..];
      var more := MovePart(file, ilst, olst, 0, 0, io, TurnSizes(all, max, turn + k), out);
      MovedNone(file, ilst, olst, now, out[..]);
      log := log + more;
    }
  }

  /** One rank's share of the output. `all` holds the list lengths of all ranks. What
      the rank takes part in follows from these alone. */
  method StartSingle(file: seq<FileTrace>, ilst: seq<nat>, olst: seq<nat>, all: seq<nat>, max: nat, io: Io, out: array<FileTrace>)
    returns (log: seq<Op>)
    requires max > 0 && |ilst| in all && |ilst| == |olst| && io.Sufficient()
    requires StrictlyIncreasing(ilst) && InRange(ilst, 0, |file|)
    requires Distinct(olst) && InRange(olst, 0, out.Length)
    modifies out
    ensures forall k :: 0 <= k < |olst| ==> out[olst[k]].samples == file[ilst[k]].samples
    ensures forall k :: 0 <= k < |olst| ==> 1 in out[olst[k]].header && out[olst[k]].header[1] == Params.Whole(ilst[k])
    ensures forall k, m :: 0 <= k < |olst| && m != 1 ==>
              && (m in out[olst[k]].header <==> m in file[ilst[k]].header)
              && (m in file[ilst[k]].header ==> out[olst[k]].header[m] == file[ilst[k]].header[m])
    ensures forall p :: 0 <= p < out.Length && p !in olst ==> out[p] == old(out[p])
    ensures forall k :: 0 <= k < |olst| ==> out[olst[k]] == ReadBack(file, ilst[k])
    ensures log == SingleLog(io, all, max)
  {
    hide Ceil, Remaining, StrictlyIncreasing, Moved, Distinct, InRange, Turns, Largest;
    var extra := Remaining(all, |ilst|, max);
    RemainingPads(all, |ilst|, max);
    var own := OwnTurns(file, ilst, olst, all, max, io, out);
    var pads := PadTurns(file, ilst, olst, all, max, io, Ceil(|ilst|, max), extra, out);
    AllMoved(file, ilst, olst, old(out[..]), out[..]);
    HeadersMoved(file, ilst, olst, out[..]);
    log := [Biggest] + own + pads;
  }

  /** A trace in its place has the samples and, but for the local number, the header it
      had in the file. */
  lemma {:induction false} HeadersMoved(file: seq<FileTrace>, ilst: seq<nat>, olst: seq<nat>, out: seq<FileTrace>)
    requires |ilst| == |olst| && InRange(ilst, 0, |file|) && InRange(olst, 0, |out|)
    requires forall k :: 0 <= k < |olst| ==> out[olst[k]] == ReadBack(file, ilst[k])
    ensures forall k :: 0 <= k < |olst| ==> out[olst[k]].samples == file[ilst[k]].samples
    ensures forall k :: 0 <= k < |olst| ==> 1 in out[olst[k]].header && out[olst[k]].header[1] == Params.Whole(ilst[k])
    ensures forall k, m :: 0 <= k < |olst| && m != 1 ==>
              && (m in out[olst[k]].header <==> m in file[ilst[k]].header)
              && (m in file[ilst[k]].header ==> out[olst[k]].header[m] == file[ilst[k]].header[m])
  {
    forall k | 0 <= k < |olst| ensures 1 in out[olst[k]].header && out[olst[k]].header[1] == Params.Whole(ilst[k]) {
      var t := ReadBack(file, ilst[k]);
      assert t.header[RuleTable.META_LTN] == Params.Whole(ilst[k]);
    }
  }

  lemma {:induction false} PermutationSize(list: seq<nat>, n: nat)
    requires Permutation(list, n)
    ensures |list| == n
  {
  }

  lemma {:induction false} HeadersInPlace(file: seq<FileTrace>, list: seq<nat>, out: seq<FileTrace>)
    requires |list| == |file| == |out| && forall k :: 0 <= k < |file| ==> 0 <= list[k] < |out| && out[list[k]] == ReadBack(file, k)
    ensures forall k :: 0 <= k < |file| ==> out[list[k]].samples == file[k].samples
    ensures forall k :: 0 <= k < |file| ==> 1 in out[list[k]].header && out[list[k]].header[1] == Params.Whole(k)
    ensures forall k, m :: 0 <= k < |file| && m != 1 ==>
              && (m in out[list[k]].header <==> m in file[k].header)
              && (m in file[k].header ==> out[list[k]].header[m] == file[k].header[m])
  {
    var all := Iota(0, |file|);
    HeadersMoved(file, all, list, out);
    assert forall k :: 0 <= k < |file| ==> all[k] == k;
  }

  lemma {:induction false} AllMoved(file: seq<FileTrace>, ilst: seq<nat>, olst: seq<nat>, before: seq<FileTrace>, after: seq<FileTrace>)
    requires |ilst| == |olst| && InRange(ilst, 0, |file|) && Moved(file, ilst, olst, 0, |olst|, before, after)
    ensures |before| == |after| && InRange(olst, 0, |after|)
    ensures forall k :: 0 <= k < |olst| ==> after[olst[k]] == ReadBack(file, ilst[k])
    ensures forall p :: 0 <= p < |after| && p !in olst ==> after[p] == before[p]
  {
    forall p | 0 <= p < |after| && p !in olst ensures after[p] == before[p] {
      assert Untouched(olst, 0, |olst|, p);
    }
  }

  // ------------------------------------------------------------ Set::add, cache

  /** The list of a rank's traces. */
  ghost predicate Lists(nt: nat, numRank: nat, ilst: seq<seq<nat>>)
    requires numRank > 0
  {
    && |ilst| == numRank && Sizes(ilst) == Shares(nt, numRank)
    && forall r, i :: 0 <= r < numRank && 0 <= i < |ilst[r]| ==> ilst[r][i] == Start(nt, numRank, r) + i
  }

  /** `Set::add`: the file's traces, cut evenly. */
  method AddFile(nt: nat, numRank: nat) returns (ilst: seq<seq<nat>>)
    requires numRank > 0
    ensures Lists(nt, numRank, ilst)
  {
    hide Start;
    ilst := [];
    for r := 0 to numRank
      invariant |ilst| == r
      invariant forall q :: 0 <= q < r ==> |ilst[q]| == Shares(nt, numRank)[q]
      invariant forall q, i :: 0 <= q < r && 0 <= i < |ilst[q]| ==> ilst[q][i] == Start(nt, numRank, q) + i
    {
      var dec := Decompose(nt, numRank, r);
      TilesInOrder(nt, numRank, r);
      ilst := ilst + [Iota(dec.first, dec.first + dec.second)];
    }
  }

  lemma {:induction false} ListsInFile(nt: nat, numRank: nat, ilst: seq<seq<nat>>, r: nat)
    requires numRank > 0 && Lists(nt, numRank, ilst) && r < numRank
    ensures |ilst[r]| == Decompose(nt, numRank, r).second
    ensures StrictlyIncreasing(ilst[r]) && InRange(ilst[r], 0, nt)
    ensures Offset(Sizes(ilst), r) == Start(nt, numRank, r)
  {
    assert |ilst[r]| == Sizes(ilst)[r];
    TilesInOrder(nt, numRank, r);
    StartBounds(nt, numRank, r + 1);
    SharesOffset(nt, numRank, r);
  }

  // ------------------------------------------------------------- all ranks

  /** All ranks write their traces. */
  method WriteAll(file: seq<FileTrace>, numRank: nat, ilst: seq<seq<nat>>, olst: seq<seq<nat>>, max: nat,
                  io: Io, out: array<FileTrace>)
    returns (logs: seq<seq<Op>>)
    requires numRank > 0 && max > 0 && io.Sufficient() && Lists(|file|, numRank, ilst) && Sizes(olst) == Sizes(ilst)
    requires out.Length == |file| && Permutation(Flatten(olst), |file|)
    modifies out
    ensures forall k :: 0 <= k < |file| ==> out[Flatten(olst)[k]].samples == file[k].samples
    ensures forall k :: 0 <= k < |file| ==> 1 in out[Flatten(olst)[k]].header && out[Flatten(olst)[k]].header[1] == Params.Whole(k)
    ensures forall k, m :: 0 <= k < |file| && m != 1 ==>
              && (m in out[Flatten(olst)[k]].header <==> m in file[k].header)
              && (m in file[k].header ==> out[Flatten(olst)[k]].header[m] == file[k].header[m])
    ensures forall k :: 0 <= k < |file| ==> out[Flatten(olst)[k]] == ReadBack(file, k)
    ensures |logs| == numRank && forall r :: 0 <= r < numRank ==> logs[r] == SingleLog(io, Shares(|file|, numRank), max)
  {
    hide *;
    var all := Sizes(ilst);
    ShareSizes(|file|, numRank, ilst);
    logs := [];
    for r := 0 to numRank
      invariant |logs| == r && forall q :: 0 <= q < r ==> logs[q] == SingleLog(io, all, max)
      invariant forall q :: 0 <= q < r ==> Written(file, ilst, olst, q, out[..])
    {
      RankList(file, numRank, ilst, olst, r);
      ghost var before := out[..];
      var log := WriteRank(file, ilst, olst, r, all, max, io, out);
      forall q | 0 <= q < r ensures Written(file, ilst, olst, q, out[..]) {
        OthersKept(file, numRank, ilst, olst, q, r, before, out[..]);
      }
      logs := logs + [log];
    }
    forall k | 0 <= k < |file|
      ensures k < |Flatten(olst)| && 0 <= Flatten(olst)[k] < out.Length && out[Flatten(olst)[k]] == ReadBack(file, k)
    {
      AllWritten(file, numRank, ilst, olst, k, out[..]);
    }
    PermutationSize(Flatten(olst), |file|);
    HeadersInPlace(file, Flatten(olst), out[..]);
  }

  method WriteRank(file: seq<FileTrace>, ilst: seq<seq<nat>>, olst: seq<seq<nat>>, r: nat, all: seq<nat>, max: nat,
                   io: Io, out: array<FileTrace>)
    returns (log: seq<Op>)
    requires r < |ilst| && r < |olst| && |ilst[r]| == |olst[r]| && max > 0 && io.Sufficient() && |ilst[r]| in all
    requires StrictlyIncreasing(ilst[r]) && InRange(ilst[r], 0, |file|)
    requires Distinct(olst[r]) && InRange(olst[r], 0, out.Length)
    modifies out
    ensures Written(file, ilst, olst, r, out[..])
    ensures forall p :: 0 <= p < out.Length && p !in olst[r] ==> out[p] == old(out[p])
    ensures log == SingleLog(io, all, max)
  {
    log := StartSingle(file, ilst[r], olst[r], all, max, io, out);
  }

  /** Rank r's traces are in their places. */
  ghost predicate Written(file: seq<FileTrace>, ilst: seq<seq<nat>>, olst: seq<seq<nat>>, r: nat, out: seq<FileTrace>) {
    && r < |ilst| && r < |olst| && |ilst[r]| == |olst[r]|
    && forall k :: 0 <= k < |olst[r]| ==>
         olst[r][k] < |out| && ilst[r][k] < |file| && out[olst[r][k]] == ReadBack(file, ilst[r][k])
  }

  lemma {:induction false} ShareSizes(nt: nat, numRank: nat, ilst: seq<seq<nat>>)
    requires numRank > 0 && Lists(nt, numRank, ilst)
    ensures |ilst| == numRank && Sizes(ilst) == Shares(nt, numRank)
    ensures forall r :: 0 <= r < numRank ==> |ilst[r]| in Sizes(ilst)
  {
    forall r | 0 <= r < numRank ensures |ilst[r]| in Sizes(ilst) {
      assert Sizes(ilst)[r] == |ilst[r]|;
    }
  }

  lemma {:induction false} RankList(file: seq<FileTrace>, numRank: nat, ilst: seq<seq<nat>>, olst: seq<seq<nat>>, r: nat)
    requires numRank > 0 && Lists(|file|, numRank, ilst) && Sizes(olst) == Sizes(ilst) && r < numRank
    requires Permutation(Flatten(olst), |file|)
    ensures |olst| == numRank && |olst[r]| == |ilst[r]|
    ensures StrictlyIncreasing(ilst[r]) && InRange(ilst[r], 0, |file|)
    ensures Distinct(olst[r]) && InRange(olst[r], 0, |file|)
  {
    hide Flatten, Start;
    ListsInFile(|file|, numRank, ilst, r);
    assert Sizes(olst)[r] == |olst[r]|;
    forall i | 0 <= i < |olst[r]| ensures 0 <= olst[r][i] < |file| {
      FlattenAt(olst, r, i);
    }
    forall i, j | 0 <= i < j < |olst[r]| ensures olst[r][i] != olst[r][j] {
      FlattenAt(olst, r, i);
      FlattenAt(olst, r, j);
    }
  }

  lemma {:induction false} RanksApart(olst: seq<seq<nat>>, n: nat, q: nat, r: nat, i: nat, j: nat)
    requires Permutation(Flatten(olst), n) && q < r < |olst| && i < |olst[q]| && j < |olst[r]|
    ensures olst[q][i] != olst[r][j]
  {
    hide Flatten, Offset;
    FlattenAt(olst, q, i);
    FlattenAt(olst, r, j);
    OffsetsGrow(Sizes(olst), q + 1, r);
    OffsetNext(Sizes(olst), q);
  }

  lemma {:induction false} OthersKept(file: seq<FileTrace>, numRank: nat, ilst: seq<seq<nat>>, olst: seq<seq<nat>>,
                                      q: nat, r: nat,
                   before: seq<FileTrace>, after: seq<FileTrace>)
    requires |olst| == numRank && q < r < numRank && Permutation(Flatten(olst), |file|)
    requires Written(file, ilst, olst, q, before) && |before| == |after|
    requires forall p :: 0 <= p < |after| && p !in olst[r] ==> after[p] == before[p]
    ensures Written(file, ilst, olst, q, after)
  {
    hide Flatten, Permutation;
    forall k | 0 <= k < |olst[q]| ensures after[olst[q][k]] == before[olst[q][k]] {
      forall j | 0 <= j < |olst[r]| ensures olst[r][j] != olst[q][k] {
        RanksApart(olst, |file|, q, r, k, j);
      }
      assert olst[q][k] !in olst[r];
    }
  }

  lemma {:induction false} AllWritten(file: seq<FileTrace>, numRank: nat, ilst: seq<seq<nat>>, olst: seq<seq<nat>>,
                                      k: nat, out: seq<FileTrace>)
    requires numRank > 0 && Lists(|file|, numRank, ilst) && Sizes(olst) == Sizes(ilst)
    requires k < |file| == |out| && Permutation(Flatten(olst), |file|)
    requires forall r :: 0 <= r < numRank ==> Written(file, ilst, olst, r, out)
    ensures |Flatten(olst)| == |file| && 0 <= Flatten(olst)[k] < |out| && out[Flatten(olst)[k]] == ReadBack(file, k)
  {
    hide Flatten, Start, Offset;
    var r, i := FlattenOwner(olst, k);
    ListsInFile(|file|, numRank, ilst, r);
    assert Written(file, ilst, olst, r, out);
    assert ilst[r][i] == k;
  }
}
