/**
 What the parameter sort promises, over every execution of `ParamProtocol`.
 */
module ParamTheorems {
  import opened Sorting
  import opened Blocks
  import opened NearestNeighbour
  import opened ParamProtocol
  import opened TraceNumbers
  import D = DistributedSort
  import P = SortProtocol
  import Th = SortTheorems

  /** A sort of rows as `sortP` sets it up: their vectors determine the rows, and
      their numbers tell them apart. */
  ghost predicate Ready<T(!new), M>(c: Setting<T, M>, blocks: seq<seq<T>>) {
    && Lossless(c) && Th.Job(c.base, blocks) && AllProper(c, blocks) && Numbered(c.gtn, Flatten(blocks))
  }

  // ------------------------------------------------------- reachable states

  /** After any run: k full rounds have been made in lock step, none of them but a
      final one without change, and the next one is under way. */
  ghost predicate Reached<T, M>(c: Setting<T, M>, t0: seq<seq<T>>, k: nat, s: State<T, M>) {
    && Wide(c.base.R, t0) && |t0| > 1
    && InRound(c, Rounds(c.base.less, c.base.R, t0, k), k, s)
    && if s.finished
       then StopsAfter(c.base.less, c.base.R, t0, k) && s.temp1 == Rounds(c.base.less, c.base.R, t0, k)
       else AllChange(c.base.less, c.base.R, t0, k)
  }

  lemma {:induction false} ReadyNumbers<T(!new), M>(c: Setting<T, M>, blocks: seq<seq<T>>)
    requires Ready(c, blocks)
    ensures Th.Job(c.base, blocks) && Numbered(c.gtn, Flatten(blocks))
  {
  }

  lemma {:induction false} ReduceFinishes<T, M>(c: Setting<T, M>, s: State<T, M>)
    requires Enabled(c, s, P.AllReduce)
    ensures Wide(c.base.R, s.temp1) && Wide(c.base.R, s.temp2)
    ensures Apply(c, s, P.AllReduce).temp1 == s.temp1
    ensures Apply(c, s, P.AllReduce).finished <==> SameNumbers(c.gtn, c.base.R, s.temp1, s.temp2)
  {
    hide SameNumbers;
  }

  lemma {:induction false} ReduceVerdict<T, M>(c: Setting<T, M>, t: seq<seq<T>>, k: nat, s: State<T, M>)
    requires InRound(c, t, k, s) && Wide(c.base.R, t) && Enabled(c, s, P.AllReduce)
    ensures var s' := Apply(c, s, P.AllReduce); var u := Round(c.base.less, c.base.R, t);
            && InRound(c, u, k + 1, s') && s'.temp1 == u && (s'.finished <==> SameNumbers(c.gtn, c.base.R, u, t))
  {
    hide *;
    AllReduceKeeps(c, t, k, s);
    ReduceFinishes(c, s);
  }

  lemma {:induction false} RunningNotDone<T, M>(c: Setting<T, M>, s: State<T, M>, a: P.Action)
    requires Enabled(c, s, a)
    ensures !s.finished && (!a.AllReduce? ==> !Apply(c, s, a).finished)
  {
  }

  lemma {:induction false} ReachedReduce<T(!new), M>(c: Setting<T, M>, blocks: seq<seq<T>>, k: nat, s: State<T, M>)
    requires Ready(c, blocks) && Reached(c, P.Loaded(c.base, blocks), k, s) && Enabled(c, s, P.AllReduce)
    ensures Reached(c, P.Loaded(c.base, blocks), k + 1, Apply(c, s, P.AllReduce))
  {
    hide Ready, InRound, Enabled, Apply, Round, Wide, Owned, Changes, AllChange, StopsAfter, SameNumbers, P.Loaded;
    var t0 := P.Loaded(c.base, blocks);
    var t := Rounds(c.base.less, c.base.R, t0, k);
    RunningNotDone(c, s, P.AllReduce);
    ReduceVerdict(c, t, k, s);
    ReadyNumbers(c, blocks);
    NumbersDecide(c.base, c.gtn, blocks, k);
    P.VerdictMeaning(c.base, t0, k);
    assert Rounds(c.base.less, c.base.R, t0, k + 1) == Round(c.base.less, c.base.R, t);
  }

  lemma {:induction false} ReachedOther<T(!new), M>(c: Setting<T, M>, t0: seq<seq<T>>, k: nat, s: State<T, M>, a: P.Action)
    requires Lossless(c) && Reached(c, t0, k, s) && Enabled(c, s, a) && !a.AllReduce?
    ensures Reached(c, t0, k, Apply(c, s, a))
  {
    RunningNotDone(c, s, a);
    hide InRound, Enabled, Apply, Rounds, Wide, AllChange, StopsAfter, Lossless;
    ActionKeeps(c, Rounds(c.base.less, c.base.R, t0, k), k, s, a);
  }

  lemma {:induction false} ReadyLossless<T(!new), M>(c: Setting<T, M>, blocks: seq<seq<T>>)
    requires Ready(c, blocks)
    ensures Lossless(c) && Th.Job(c.base, blocks)
  {
  }

  /** Every action keeps what any run can be told to have reached. */
  lemma {:induction false} ReachedNext<T(!new), M>(c: Setting<T, M>, blocks: seq<seq<T>>, k: nat, s: State<T, M>, a: P.Action)
    requires Ready(c, blocks) && Reached(c, P.Loaded(c.base, blocks), k, s) && Enabled(c, s, a)
    ensures Reached(c, P.Loaded(c.base, blocks), if a.AllReduce? then k + 1 else k, Apply(c, s, a))
  {
    hide *;
    ReadyLossless(c, blocks);
    if a.AllReduce? {
      assert a == P.AllReduce;
      ReachedReduce(c, blocks, k, s);
    } else {
      ReachedOther(c, P.Loaded(c.base, blocks), k, s, a);
    }
  }

  lemma {:induction false} LoadedProper<T(!new), M>(c: Setting<T, M>, blocks: seq<seq<T>>)
    requires Lossless(c) && AllProper(c, blocks)
    ensures AllProper(c, P.Loaded(c.base, blocks))
  {
    var t := P.Loaded(c.base, blocks);
    forall r | 0 <= r < |t| ensures Proper(c, t[r]) {
      assert Proper(c, blocks[r]);
      ProperSort(c, blocks[r]);
    }
  }

  lemma {:induction false} IdleOk<M>(ch: Channel<M>, v: seq<M>)
    requires ch == Channel([], [], [], [], [], 0) && |v| == 4
    ensures ChannelOk(ch, 0, false, 0, false, false, 0, false, v)
  {
  }

  lemma {:induction false} InitialShape<T, M>(c: Setting<T, M>, blocks: seq<seq<T>>)
    requires |blocks| > 1
    ensures var s, t := Initial(c, blocks), P.Loaded(c.base, blocks);
            && s.temp1 == s.temp2 == t && |s.pc| == |t| == |blocks| && |s.left| == |s.right| == |t| - 1
            && (forall r :: 0 <= r < |t| ==> s.pc[r] == SNAPSHOT)
            && (forall b :: 0 <= b < |t| - 1 ==> s.left[b] == s.right[b] == Channel([], [], [], [], [], 0))
  {
    hide P.Loaded;
  }

  lemma {:induction false} StartInRound<T, M>(c: Setting<T, M>, t: seq<seq<T>>, s: State<T, M>)
    requires Wide(c.base.R, t) && AllProper(c, t) && |t| > 1
    requires s.temp1 == s.temp2 == t && |s.pc| == |t| && |s.left| == |s.right| == |t| - 1
    requires forall r :: 0 <= r < |t| ==> s.pc[r] == SNAPSHOT
    requires forall b :: 0 <= b < |t| - 1 ==> s.left[b] == s.right[b] == Channel([], [], [], [], [], 0)
    ensures InRound(c, t, 0, s)
  {
    hide AllProper, Vectors, AfterSendLeft, AfterSortWindow, AfterSendRight, AfterSortOwned, Windowed, ChannelOk;
    var R := c.base.R;
    forall b | 0 <= b < |t| - 1 ensures LeftOk(c, t, 0, s, b) {
      IdleOk(s.left[b], Vectors(c, t[b + 1][..R]));
    }
    forall b | 0 <= b < |t| - 1 ensures RightOk(c, t, 0, s, b) {
      var w := Windowed(c, t)[b];
      IdleOk(s.right[b], Vectors(c, w[|w| - R..]));
    }
  }

  lemma {:induction false} ReadyProper<T(!new), M>(c: Setting<T, M>, blocks: seq<seq<T>>)
    requires Ready(c, blocks)
    ensures Lossless(c) && AllProper(c, blocks)
  {
  }

  lemma {:induction false} InitialInRound<T(!new), M>(c: Setting<T, M>, blocks: seq<seq<T>>)
    requires Ready(c, blocks) && |blocks| > 1 && Wide(c.base.R, P.Loaded(c.base, blocks))
    ensures InRound(c, P.Loaded(c.base, blocks), 0, Initial(c, blocks))
  {
    hide *;
    ReadyProper(c, blocks);
    LoadedProper(c, blocks);
    InitialShape(c, blocks);
    StartInRound(c, P.Loaded(c.base, blocks), Initial(c, blocks));
  }

  lemma {:induction false} InitialReached<T(!new), M>(c: Setting<T, M>, blocks: seq<seq<T>>)
    requires Ready(c, blocks) && |blocks| > 1 && Wide(c.base.R, P.Loaded(c.base, blocks))
    ensures Reached(c, P.Loaded(c.base, blocks), 0, Initial(c, blocks))
  {
    InitialInRound(c, blocks);
    hide P.Loaded, InRound, Ready;
    D.NoRoundYet(c.base, P.Loaded(c.base, blocks));
  }

  lemma {:induction false} RunReached<T(!new), M>(c: Setting<T, M>, blocks: seq<seq<T>>, acts: seq<P.Action>)
    requires Ready(c, blocks) && |blocks| > 1 && CanRun(c, Initial(c, blocks), acts)
    ensures Reached(c, P.Loaded(c.base, blocks), P.Reductions(acts), Exec(c, Initial(c, blocks), acts))
    decreases |acts|
  {
    hide *;
    if acts == [] {
      ReadyLossless(c, blocks);
      Th.LoadedReady(c.base, blocks);
      InitialReached(c, blocks);
      RunEmpty(c, Initial(c, blocks));
    } else {
      var before, last := acts[..|acts| - 1], acts[|acts| - 1];
      RunUnfolds(c, Initial(c, blocks), acts);
      RunReached(c, blocks, before);
      ReachedNext(c, blocks, P.Reductions(before), Exec(c, Initial(c, blocks), before), last);
    }
  }

  lemma {:induction false} RunEmpty<T, M>(c: Setting<T, M>, s: State<T, M>)
    ensures CanRun(c, s, []) && Exec(c, s, []) == s && P.Reductions([]) == 0
  {
  }

  lemma {:induction false} RunUnfolds<T, M>(c: Setting<T, M>, s: State<T, M>, acts: seq<P.Action>)
    requires acts != [] && CanRun(c, s, acts)
    ensures var before, last := acts[..|acts| - 1], acts[|acts| - 1];
            && CanRun(c, s, before)
            && Enabled(c, Exec(c, s, before), last)
            && Exec(c, s, acts) == Apply(c, Exec(c, s, before), last)
            && P.Reductions(acts) == if last.AllReduce? then P.Reductions(before) + 1 else P.Reductions(before)
  {
    hide Enabled, Apply;
  }

  // ------------------------------------------------------------- no deadlock

  /** The library may hold a send back until the matching receive is posted. */
  ghost predicate EnabledSync<T, M>(c: Setting<T, M>, s: State<T, M>, a: P.Action) {
    && Enabled(c, s, a)
    && (a.TakeLeft? ==> |s.left[a.b].taken| < |s.left[a.b].recvs|)
    && (a.TakeRight? ==> |s.right[a.b].taken| < |s.right[a.b].recvs|)
  }

  /** With all eight requests posted, a channel that is not through can move. */
  lemma {:induction false} ChannelMoves<M>(ch: Channel<M>, k: nat, sent: bool, received: bool, v: seq<M>)
    requires ChannelOk(ch, k, true, 4, sent, true, 4, received, v) && ch.delivered < 4 * k + 4
    ensures if |ch.taken| == ch.delivered then Takable(ch) && |ch.taken| < |ch.recvs| else Puttable(ch)
  {
  }

  lemma {:induction false} LeftChannelMoves<T, M>(c: Setting<T, M>, t: seq<seq<T>>, k: nat, s: State<T, M>,
                                                  b: nat) returns (a: P.Action)
    requires InRound(c, t, k, s) && !s.finished && b + 1 < |t|
    requires s.left[b].delivered < 4 * k + 4 && s.pc[b] >= WAIT_BORROW && s.pc[b + 1] >= BORROW
    ensures EnabledSync(c, s, a)
  {
    hide AfterSendLeft, AfterSortWindow, AfterSendRight, Round, Windowed, Vectors, ChannelOk, RightOk, RankOk;
    assert LeftOk(c, t, k, s, b);
    ChannelMoves(s.left[b], k, s.pc[b + 1] > WAIT_SENT_LEFT, s.pc[b] > WAIT_BORROW, Vectors(c, t[b + 1][..c.base.R]));
    a := if |s.left[b].taken| == s.left[b].delivered then P.TakeLeft(b) else P.PutLeft(b);
  }

  lemma {:induction false} RightChannelMoves<T, M>(c: Setting<T, M>, t: seq<seq<T>>, k: nat, s: State<T, M>,
                                                   b: nat) returns (a: P.Action)
    requires InRound(c, t, k, s) && !s.finished && b + 1 < |t|
    requires s.right[b].delivered < 4 * k + 4 && s.pc[b] >= WAIT_SENT_RIGHT && s.pc[b + 1] >= STAGE_RIGHT
    ensures EnabledSync(c, s, a)
  {
    hide AfterSendLeft, AfterSortWindow, AfterSendRight, Round, Windowed, Vectors, ChannelOk, LeftOk, RankOk;
    assert RightOk(c, t, k, s, b);
    var w := Windowed(c, t)[b];
    ChannelMoves(s.right[b], k, s.pc[b] > WAIT_SENT_RIGHT, s.pc[b + 1] > WAIT_RETURN, Vectors(c, w[|w| - c.base.R..]));
    a := if |s.right[b].taken| == s.right[b].delivered then P.TakeRight(b) else P.PutRight(b);
  }

  lemma {:induction false} LeftCounts<T, M>(c: Setting<T, M>, t: seq<seq<T>>, k: nat, s: State<T, M>, b: nat)
    requires InRound(c, t, k, s) && b + 1 < |t|
    ensures s.left[b].delivered <= |s.left[b].taken| <= |s.left[b].sends| == 4 * k + Done(s.pc[b + 1], SEND_LEFT)
    ensures s.left[b].delivered <= |s.left[b].recvs| == 4 * k + Done(s.pc[b], BORROW)
  {
    hide AfterSendLeft, AfterSortWindow, AfterSendRight, Round, Windowed, Vectors, RightOk, RankOk;
    assert LeftOk(c, t, k, s, b);
  }

  lemma {:induction false} RightCounts<T, M>(c: Setting<T, M>, t: seq<seq<T>>, k: nat, s: State<T, M>, b: nat)
    requires InRound(c, t, k, s) && b + 1 < |t|
    ensures s.right[b].delivered <= |s.right[b].taken| <= |s.right[b].sends| == 4 * k + Done(s.pc[b], SEND_RIGHT)
    ensures s.right[b].delivered <= |s.right[b].recvs| == 4 * k + Done(s.pc[b + 1], RETURN)
  {
    hide AfterSendLeft, AfterSortWindow, AfterSendRight, Round, Windowed, Vectors, LeftOk, RankOk;
    assert RightOk(c, t, k, s, b);
  }

  /** A rank that has not reached `sendRight` can be helped along by itself or a
      neighbour: nobody waits in a circle for borrowed rows. */
  lemma {:induction false} FirstHalfMoves<T, M>(c: Setting<T, M>, t: seq<seq<T>>, k: nat, s: State<T, M>,
                                                r: nat) returns (a: P.Action)
    requires InRound(c, t, k, s) && !s.finished && r < |t| && s.pc[r] < STAGE_RIGHT
    ensures EnabledSync(c, s, a)
  {
    hide LeftOk, RightOk, RankOk, AllProper;
    var n, pc := |t|, s.pc[r];
    a := P.Step(r);
    if pc == WAIT_BORROW && r + 1 < n && s.left[r].delivered != |s.left[r].recvs| {
      LeftCounts(c, t, k, s, r);
      if s.pc[r + 1] >= BORROW {
        a := LeftChannelMoves(c, t, k, s, r);
      } else {
        a := P.Step(r + 1);
      }
    } else if pc == WAIT_SENT_LEFT && r > 0 && |s.left[r - 1].taken| != |s.left[r - 1].sends| {
      LeftCounts(c, t, k, s, r - 1);
      if s.pc[r - 1] >= WAIT_BORROW {
        a := LeftChannelMoves(c, t, k, s, r - 1);
      } else {
        a := P.Step(r - 1);
      }
    }
  }

  lemma {:induction false} SecondHalfMoves<T, M>(c: Setting<T, M>, t: seq<seq<T>>, k: nat, s: State<T, M>,
                                                 r: nat) returns (a: P.Action)
    requires InRound(c, t, k, s) && !s.finished && r < |t| && STAGE_RIGHT <= s.pc[r] < VOTE
    ensures EnabledSync(c, s, a)
  {
    hide LeftOk, RightOk, RankOk, AllProper;
    var n, pc := |t|, s.pc[r];
    a := P.Step(r);
    if pc == WAIT_SENT_RIGHT && r + 1 < n && |s.right[r].taken| != |s.right[r].sends| {
      RightCounts(c, t, k, s, r);
      if s.pc[r + 1] >= STAGE_RIGHT {
        a := RightChannelMoves(c, t, k, s, r);
      } else {
        a := FirstHalfMoves(c, t, k, s, r + 1);
      }
    } else if pc == WAIT_RETURN && r > 0 && s.right[r - 1].delivered != |s.right[r - 1].recvs| {
      RightCounts(c, t, k, s, r - 1);
      if s.pc[r - 1] >= WAIT_SENT_RIGHT {
        a := RightChannelMoves(c, t, k, s, r - 1);
      } else if s.pc[r - 1] >= STAGE_RIGHT {
        a := P.Step(r - 1);
      } else {
        a := FirstHalfMoves(c, t, k, s, r - 1);
      }
    }
  }

  lemma {:induction false} SomeoneMoves<T, M>(c: Setting<T, M>, t: seq<seq<T>>, k: nat, s: State<T, M>) returns (a: P.Action)
    requires InRound(c, t, k, s) && !s.finished
    ensures EnabledSync(c, s, a)
  {
    hide LeftOk, RightOk, AllProper;
    if r :| 0 <= r < |t| && s.pc[r] < STAGE_RIGHT {
      a := FirstHalfMoves(c, t, k, s, r);
    } else if r :| 0 <= r < |t| && s.pc[r] < VOTE {
      a := SecondHalfMoves(c, t, k, s, r);
    } else {
      forall r | 0 <= r < |t| ensures s.pc[r] == VOTE {
        assert RankOk(c, t, s, r);
      }
      a := P.AllReduce;
    }
  }

  lemma {:induction false} ReachedMidRound<T, M>(c: Setting<T, M>, t0: seq<seq<T>>, k: nat, s: State<T, M>)
    requires Reached(c, t0, k, s)
    ensures Wide(c.base.R, t0) && InRound(c, Rounds(c.base.less, c.base.R, t0, k), k, s)
  {
  }

  /** No reachable state is stuck, even if every send is synchronous. */
  lemma {:induction false} NoDeadlock<T(!new), M>(c: Setting<T, M>, blocks: seq<seq<T>>, acts: seq<P.Action>) returns (a: P.Action)
    requires Ready(c, blocks) && |blocks| > 1 && CanRun(c, Initial(c, blocks), acts)
    requires !Exec(c, Initial(c, blocks), acts).finished
    ensures EnabledSync(c, Exec(c, Initial(c, blocks), acts), a)
  {
    hide *;
    var t0, s, k := P.Loaded(c.base, blocks), Exec(c, Initial(c, blocks), acts), P.Reductions(acts);
    RunReached(c, blocks, acts);
    ReachedMidRound(c, t0, k, s);
    a := SomeoneMoves(c, Rounds(c.base.less, c.base.R, t0, k), k, s);
  }

  /** Every interleaving reaches the reduction with the buffers of lock step: how the
      four messages of an exchange were scheduled cannot be observed. */
  lemma {:induction false} InterleavingsAgree<T(!new), M>(c: Setting<T, M>, blocks: seq<seq<T>>, acts: seq<P.Action>)
    requires Ready(c, blocks) && |blocks| > 1 && CanRun(c, Initial(c, blocks), acts)
    requires Enabled(c, Exec(c, Initial(c, blocks), acts), P.AllReduce)
    ensures Wide(c.base.R, P.Loaded(c.base, blocks))
    ensures Exec(c, Initial(c, blocks), acts).temp1
         == Rounds(c.base.less, c.base.R, P.Loaded(c.base, blocks), P.Reductions(acts) + 1)
  {
    hide *;
    var t0, s, k := P.Loaded(c.base, blocks), Exec(c, Initial(c, blocks), acts), P.Reductions(acts);
    RunReached(c, blocks, acts);
    ReachedMidRound(c, t0, k, s);
    AllReduceKeeps(c, Rounds(c.base.less, c.base.R, t0, k), k, s);
    RoundsUnfold(c.base, t0, k);
  }

  // ------------------------------------------------------------- termination

  ghost function Transfers<M>(channels: seq<Channel<M>>): (m: seq<nat>)
    ensures |m| == |channels|
  {
    seq(|channels|, b requires 0 <= b < |channels| => |channels[b].taken| + channels[b].delivered)
  }

  /** Every action is one statement, one transfer or one reduction. */
  ghost predicate Counted<T, M>(s: State<T, M>, reductions: nat, length: nat) {
    length == reductions * (VOTE * |s.pc| + 1) + Sum(s.pc) + Sum(Transfers(s.left)) + Sum(Transfers(s.right))
  }

  lemma {:induction false} TransfersUpdate<M>(channels: seq<Channel<M>>, b: nat, ch: Channel<M>)
    requires b < |channels|
    ensures Sum(Transfers(channels[b := ch]))
         == Sum(Transfers(channels)) - (|channels[b].taken| + channels[b].delivered) + |ch.taken| + ch.delivered
  {
    assert Transfers(channels[b := ch]) == Transfers(channels)[b := |ch.taken| + ch.delivered];
    SumUpdate(Transfers(channels), b, |ch.taken| + ch.delivered);
  }

  lemma {:induction false} ExecuteTransfersNothing<T, M>(c: Setting<T, M>, s: State<T, M>, r: nat)
    requires Shaped(c, s) && r < |s.pc|
    ensures Transfers(Execute(c, s, r).left) == Transfers(s.left)
    ensures Transfers(Execute(c, s, r).right) == Transfers(s.right)
    ensures Execute(c, s, r).pc == s.pc[r := s.pc[r] + 1]
  {
    hide Vectors, Empty, BufferMoves;
  }

  lemma {:induction false} StepCounted<T, M>(c: Setting<T, M>, s: State<T, M>, r: nat, k: nat, m: nat)
    requires Enabled(c, s, P.Step(r)) && Counted(s, k, m)
    ensures |Apply(c, s, P.Step(r)).pc| == |s.pc|
    ensures Counted(Apply(c, s, P.Step(r)), k, m + 1)
  {
    ExecuteTransfersNothing(c, s, r);
    hide Transfers, Execute, Sum, Shaped;
    SumUpdate(s.pc, r, s.pc[r] + 1);
  }

  lemma {:induction false} TransferCounted<T, M>(c: Setting<T, M>, s: State<T, M>, a: P.Action, k: nat, m: nat)
    requires Enabled(c, s, a) && !a.Step? && !a.AllReduce? && Counted(s, k, m)
    ensures |Apply(c, s, a).pc| == |s.pc|
    ensures Counted(Apply(c, s, a), k, m + 1)
  {
    hide Transfers, Sum;
    match a
    case TakeLeft(b) => TransfersUpdate(s.left, b, Apply(c, s, a).left[b]);
    case PutLeft(b) => TransfersUpdate(s.left, b, Apply(c, s, a).left[b]);
    case TakeRight(b) => TransfersUpdate(s.right, b, Apply(c, s, a).right[b]);
    case PutRight(b) => TransfersUpdate(s.right, b, Apply(c, s, a).right[b]);
  }

  lemma {:induction false} ReduceCounted<T, M>(c: Setting<T, M>, s: State<T, M>, k: nat, m: nat)
    requires Enabled(c, s, P.AllReduce) && Counted(s, k, m)
    ensures |Apply(c, s, P.AllReduce).pc| == |s.pc|
    ensures Counted(Apply(c, s, P.AllReduce), k + 1, m + 1)
  {
    hide Sum, Transfers, SameNumbers;
    SumBounds(s.pc, VOTE, VOTE);
    SumBounds(Apply(c, s, P.AllReduce).pc, 0, 0);
    MulNext(k, VOTE * |s.pc| + 1);
  }

  lemma {:induction false} ActionCounted<T, M>(c: Setting<T, M>, s: State<T, M>, a: P.Action, k: nat, m: nat)
    requires Enabled(c, s, a) && Counted(s, k, m)
    ensures |Apply(c, s, a).pc| == |s.pc|
    ensures Counted(Apply(c, s, a), if a.AllReduce? then k + 1 else k, m + 1)
  {
    hide *;
    match a
    case Step(r) => StepCounted(c, s, r, k, m);
    case AllReduce => ReduceCounted(c, s, k, m);
    case _ => TransferCounted(c, s, a, k, m);
  }

  lemma {:induction false} RunCounted<T, M>(c: Setting<T, M>, s: State<T, M>, acts: seq<P.Action>)
    requires CanRun(c, s, acts) && Counted(s, 0, 0)
    ensures |Exec(c, s, acts).pc| == |s.pc|
    ensures Counted(Exec(c, s, acts), P.Reductions(acts), |acts|)
    decreases |acts|
  {
    hide *;
    if acts == [] {
      RunEmpty(c, s);
    } else {
      var before := acts[..|acts| - 1];
      RunUnfolds(c, s, acts);
      RunCounted(c, s, before);
      ActionCounted(c, Exec(c, s, before), acts[|acts| - 1], P.Reductions(before), |before|);
    }
  }

  /** The number of rounds after any run. */
  lemma {:induction false} ReductionsBounded<T(!new), M>(c: Setting<T, M>, blocks: seq<seq<T>>, acts: seq<P.Action>)
    requires Ready(c, blocks) && |blocks| > 1 && CanRun(c, Initial(c, blocks), acts)
    ensures var s := Exec(c, Initial(c, blocks), acts);
            P.Reductions(acts) <= Inversions(c.base.less, Flatten(blocks)) + if s.finished then 1 else 0
  {
    hide Initial, P.Loaded, CanRun, Exec, Wide, Rounds, Changes, Owned, InRound, Inversions, Flatten, Lossless, AllProper, Numbered,
      TotalOn, StrictWeakOrder, Sizes, SortEach, Fits;
    var t0, k := P.Loaded(c.base, blocks), P.Reductions(acts);
    Th.LoadedReady(c.base, blocks);
    RunReached(c, blocks, acts);
    var quiet := if Exec(c, Initial(c, blocks), acts).finished then k - 1 else k;
    RoundsBounded(c.base.less, c.base.R, Sizes(blocks), t0, quiet);
  }

  lemma {:induction false} TransfersBounded<T, M>(c: Setting<T, M>, t: seq<seq<T>>, k: nat, s: State<T, M>)
    requires InRound(c, t, k, s)
    ensures Sum(s.pc) <= VOTE * |t|
    ensures Sum(Transfers(s.left)) <= (|t| - 1) * (8 * k + 8)
    ensures Sum(Transfers(s.right)) <= (|t| - 1) * (8 * k + 8)
  {
    hide LeftOk, RightOk, AllProper;
    forall r | 0 <= r < |t| ensures s.pc[r] <= VOTE { assert RankOk(c, t, s, r); }
    forall b | 0 <= b < |t| - 1 ensures Transfers(s.left)[b] <= 8 * k + 8 { LeftCounts(c, t, k, s, b); }
    forall b | 0 <= b < |t| - 1 ensures Transfers(s.right)[b] <= 8 * k + 8 { RightCounts(c, t, k, s, b); }
    SumBounds(s.pc, 0, VOTE);
    SumBounds(Transfers(s.left), 0, 8 * k + 8);
    SumBounds(Transfers(s.right), 0, 8 * k + 8);
  }

  /** The most statements and transfers any run can contain. */
  function Longest(n: nat, inversions: nat): int {
    (inversions + 2) * (44 * n - 15)
  }

  lemma {:induction false} WithinLongest(n: nat, k: nat, length: nat, steps: nat, left: nat, right: nat, inversions: nat)
    requires n > 1 && k <= inversions + 1 && length == k * (VOTE * n + 1) + steps + left + right
    requires steps <= VOTE * n && left <= (n - 1) * (8 * k + 8) && right <= (n - 1) * (8 * k + 8)
    ensures length <= Longest(n, inversions)
  {
    assert (k + 1) * (44 * n - 15) == k * (VOTE * n + 1) + VOTE * n + 1 + 2 * ((n - 1) * (8 * k + 8));
    Th.MulMonotone(k + 1, inversions + 2, 44 * n - 15);
  }

  lemma {:induction false} StartCounted<T, M>(c: Setting<T, M>, blocks: seq<seq<T>>)
    requires |blocks| >= 1
    ensures Counted(Initial(c, blocks), 0, 0) && |Initial(c, blocks).pc| == |blocks|
  {
    hide P.Loaded;
    var s := Initial(c, blocks);
    SumBounds(s.pc, 0, 0);
    SumBounds(Transfers(s.left), 0, 0);
    SumBounds(Transfers(s.right), 0, 0);
  }

  lemma {:induction false} InRoundSize<T, M>(c: Setting<T, M>, t: seq<seq<T>>, k: nat, s: State<T, M>)
    requires InRound(c, t, k, s)
    ensures |t| == |s.pc|
  {
  }

  lemma {:induction false} CountedMeans<T, M>(s: State<T, M>, k: nat, length: nat)
    requires Counted(s, k, length)
    ensures length == k * (VOTE * |s.pc| + 1) + Sum(s.pc) + Sum(Transfers(s.left)) + Sum(Transfers(s.right))
  {
  }

  /** Termination under every scheduling of ranks and messages. */
  lemma {:induction false} RunsTerminate<T(!new), M>(c: Setting<T, M>, blocks: seq<seq<T>>, acts: seq<P.Action>)
    requires Ready(c, blocks) && |blocks| > 1 && CanRun(c, Initial(c, blocks), acts)
    ensures |acts| <= Longest(|blocks|, Inversions(c.base.less, Flatten(blocks)))
  {
    hide *;
    var t0, s, k := P.Loaded(c.base, blocks), Exec(c, Initial(c, blocks), acts), P.Reductions(acts);
    StartCounted(c, blocks);
    RunCounted(c, Initial(c, blocks), acts);
    ReductionsBounded(c, blocks, acts);
    RunReached(c, blocks, acts);
    ReachedMidRound(c, t0, k, s);
    var t := Rounds(c.base.less, c.base.R, t0, k);
    InRoundSize(c, t, k, s);
    TransfersBounded(c, t, k, s);
    CountedMeans(s, k, |acts|);
    WithinLongest(|blocks|, k, |acts|, Sum(s.pc), Sum(Transfers(s.left)), Sum(Transfers(s.right)),
                  Inversions(c.base.less, Flatten(blocks)));
  }

  // ------------------------------------------------------------- correctness

  /** The rows the ranks copy back at the end. */
  ghost function Result<T, M>(c: Setting<T, M>, s: State<T, M>): seq<seq<T>>
    requires Wide(c.base.R, s.temp1)
  {
    Owned(c.base.R, s.temp1)
  }

  /** Every run that ends leaves the rows sorted over the ranks, each rank holding as
      many as before; without a region it leaves each rank's rows sorted. */
  lemma {:induction false} EveryRunSorts<T(!new), M>(c: Setting<T, M>, blocks: seq<seq<T>>, acts: seq<P.Action>)
    requires Ready(c, blocks) && CanRun(c, Initial(c, blocks), acts)
    requires Exec(c, Initial(c, blocks), acts).finished
    ensures var s := Exec(c, Initial(c, blocks), acts);
            Wide(c.base.R, s.temp1) && D.SortedOver(c.base.less, c.base.R, blocks, Result(c, s))
  {
    ReadyLossless(c, blocks);
    Th.LoadedReady(c.base, blocks);
    hide Ready, P.Loaded, CanRun, Exec, Wide, Rounds, Owned, InRound, Flatten, AllChange, StopsAfter, D.SortedOver, Enabled, Lossless,
      Th.Job, SortEach;
    if |blocks| == 1 {
      OneRankIdle(c, blocks, acts);
      D.OneRankSorted(c.base, blocks);
    } else {
      hide Initial;
      RunReached(c, blocks, acts);
      D.LoopEndsSorted(c.base, blocks, P.Reductions(acts));
    }
  }

  lemma {:induction false} OneRankIdle<T, M>(c: Setting<T, M>, blocks: seq<seq<T>>, acts: seq<P.Action>)
    requires |blocks| == 1 && CanRun(c, Initial(c, blocks), acts)
    ensures acts == [] && Exec(c, Initial(c, blocks), acts) == Initial(c, blocks)
    decreases |acts|
  {
    if acts != [] {
      OneRankIdle(c, blocks, acts[..|acts| - 1]);
      assert false;
    }
  }

  lemma {:induction false} RunExtends<T, M>(c: Setting<T, M>, s: State<T, M>, acts: seq<P.Action>, a: P.Action)
    requires CanRun(c, s, acts) && Enabled(c, Exec(c, s, acts), a)
    ensures CanRun(c, s, acts + [a])
  {
    hide Enabled, Apply;
    assert (acts + [a])[..|acts + [a]| - 1] == acts;
  }

  lemma {:induction false} SyncEnabled<T, M>(c: Setting<T, M>, s: State<T, M>, a: P.Action)
    requires EnabledSync(c, s, a)
    ensures Enabled(c, s, a)
  {
  }

  /** Every run can be continued to the end of the sort. */
  lemma {:induction false} RunCompletes<T(!new), M>(c: Setting<T, M>, blocks: seq<seq<T>>,
                                                    acts: seq<P.Action>) returns (whole: seq<P.Action>)
    requires Ready(c, blocks) && |blocks| >= 1 && CanRun(c, Initial(c, blocks), acts)
    ensures acts <= whole && CanRun(c, Initial(c, blocks), whole)
    ensures Exec(c, Initial(c, blocks), whole).finished
    decreases Longest(|blocks|, Inversions(c.base.less, Flatten(blocks))) - |acts|
  {
    whole := acts;
    if |blocks| == 1 {
      OneRankIdle(c, blocks, acts);
    } else {
      hide *;
      RunsTerminate(c, blocks, acts);
      if !Exec(c, Initial(c, blocks), acts).finished {
        var a := NoDeadlock(c, blocks, acts);
        SyncEnabled(c, Exec(c, Initial(c, blocks), acts), a);
        RunExtends(c, Initial(c, blocks), acts, a);
        RunsTerminate(c, blocks, acts + [a]);
        whole := RunCompletes(c, blocks, acts + [a]);
      }
    }
  }
}
