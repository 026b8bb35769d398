/**
 What the distributed sort promises, over every execution of the protocol.
 */
module SortTheorems {
  import opened Sorting
  import opened Blocks
  import opened NearestNeighbour
  import opened SortProtocol

  // ------------------------------------------------------------- no deadlock

  /** The library may hold a send back until the matching receive is posted
      (a synchronous send). */
  ghost predicate EnabledSync<T>(c: Config<T>, s: State<T>, a: Action) {
    && Enabled(c, s, a)
    && (a.TakeLeft? ==> |s.left[a.b].taken| < s.left[a.b].recvs)
    && (a.TakeRight? ==> |s.right[a.b].taken| < s.right[a.b].recvs)
  }

  lemma {:induction false} LeftChannelMoves<T>(c: Config<T>, t: seq<seq<T>>, k: nat, s: State<T>, b: nat) returns (a: Action)
    requires InRound(c, t, k, s) && !s.finished && b + 1 < |t|
    requires s.left[b].delivered == k && s.pc[b] > POST_BORROW && s.pc[b + 1] > POST_SEND_LEFT
    ensures EnabledSync(c, s, a)
  {
    assert LeftOk(c, t, k, s, b);
    a := if |s.left[b].taken| == k then TakeLeft(b) else PutLeft(b);
  }

  lemma {:induction false} RightChannelMoves<T>(c: Config<T>, t: seq<seq<T>>, k: nat, s: State<T>,
                                                b: nat) returns (a: Action)
    requires InRound(c, t, k, s) && !s.finished && b + 1 < |t|
    requires s.right[b].delivered == k && s.pc[b] > POST_SEND_RIGHT && s.pc[b + 1] > POST_RETURN
    ensures EnabledSync(c, s, a)
  {
    assert RightOk(c, t, k, s, b);
    a := if |s.right[b].taken| == k then TakeRight(b) else PutRight(b);
  }

  /** A rank that has not reached `sendRight` can always be helped along by itself
      or a neighbour: nobody waits in a circle for borrowed items. */
  lemma {:induction false} FirstHalfMoves<T>(c: Config<T>, t: seq<seq<T>>, k: nat, s: State<T>, r: nat) returns (a: Action)
    requires InRound(c, t, k, s) && !s.finished && r < |t| && s.pc[r] <= POST_RETURN
    ensures EnabledSync(c, s, a)
  {
    hide AfterSendLeft, AfterSendRight, AfterSortWindow, Round, Wide;
    var n, pc := |t|, s.pc[r];
    a := Step(r);
    assert RankOk(c, t, k, s, r);
    if pc == WAIT_BORROW && r + 1 < n {
      assert LeftOk(c, t, k, s, r);
      if s.left[r].delivered == k {
        if s.pc[r + 1] > POST_SEND_LEFT {
          a := LeftChannelMoves(c, t, k, s, r);
        } else {
          a := Step(r + 1);
        }
      }
    } else if pc == WAIT_SENT_LEFT && r > 0 {
      assert LeftOk(c, t, k, s, r - 1);
      if |s.left[r - 1].taken| == k {
        if s.pc[r - 1] > POST_BORROW {
          a := LeftChannelMoves(c, t, k, s, r - 1);
        } else {
          a := Step(r - 1);
        }
      }
    }
  }

  lemma {:induction false} SecondHalfMoves<T>(c: Config<T>, t: seq<seq<T>>, k: nat, s: State<T>, r: nat) returns (a: Action)
    requires InRound(c, t, k, s) && !s.finished && r < |t| && POST_RETURN < s.pc[r] < VOTE
    ensures EnabledSync(c, s, a)
  {
    hide AfterSendLeft, AfterSendRight, AfterSortWindow, Round, Wide;
    var n, pc := |t|, s.pc[r];
    a := Step(r);
    assert RankOk(c, t, k, s, r);
    if pc == WAIT_SENT_RIGHT && r + 1 < n {
      assert RightOk(c, t, k, s, r);
      if |s.right[r].taken| == k {
        if s.pc[r + 1] > POST_RETURN {
          a := RightChannelMoves(c, t, k, s, r);
        } else {
          a := FirstHalfMoves(c, t, k, s, r + 1);
        }
      }
    } else if pc == WAIT_RETURN && r > 0 {
      assert RightOk(c, t, k, s, r - 1);
      if s.right[r - 1].delivered == k {
        if s.pc[r - 1] > POST_SEND_RIGHT {
          a := RightChannelMoves(c, t, k, s, r - 1);
        } else if s.pc[r - 1] == POST_SEND_RIGHT {
          a := Step(r - 1);
        } else {
          a := FirstHalfMoves(c, t, k, s, r - 1);
        }
      }
    }
  }

  /** No reachable state is stuck, even if every send is synchronous. */
  lemma {:induction false} NoDeadlock<T>(c: Config<T>, blocks: seq<seq<T>>, acts: seq<Action>) returns (a: Action)
    requires |blocks| > 1 && Wide(c.R, Loaded(c, blocks))
    requires CanRun(c, Initial(c, blocks), acts)
    requires !Exec(c, Initial(c, blocks), acts).finished
    ensures EnabledSync(c, Exec(c, Initial(c, blocks), acts), a)
  {
    hide Initial, Loaded, CanRun, Exec, Wide, Rounds, AllChange, StopsAfter;
    var s, k := Exec(c, Initial(c, blocks), acts), Reductions(acts);
    RunReached(c, blocks, acts);
    a := SomeoneMoves(c, Rounds(c.less, c.R, Loaded(c, blocks), k), k, s);
  }

  lemma {:induction false} SomeoneMoves<T>(c: Config<T>, t: seq<seq<T>>, k: nat, s: State<T>) returns (a: Action)
    requires InRound(c, t, k, s) && !s.finished
    ensures EnabledSync(c, s, a)
  {
    if r :| 0 <= r < |t| && s.pc[r] <= POST_RETURN {
      a := FirstHalfMoves(c, t, k, s, r);
    } else if r :| 0 <= r < |t| && s.pc[r] < VOTE {
      a := SecondHalfMoves(c, t, k, s, r);
    } else {
      forall r | 0 <= r < |t| ensures s.pc[r] == VOTE {
        assert RankOk(c, t, k, s, r);
      }
      a := AllReduce;
    }
  }

  // ------------------------------------------------------------- termination

  ghost function Transfers<T>(channels: seq<Channel<T>>): (m: seq<nat>)
    ensures |m| == |channels|
  {
    seq(|channels|, b requires 0 <= b < |channels| => |channels[b].taken| + channels[b].delivered)
  }

  /** Every action is one statement, one transfer or one all-reduce. */
  ghost predicate Counted<T>(s: State<T>, reductions: nat, length: nat) {
    length == reductions * (VOTE * |s.pc| + 1) + Sum(s.pc) + Sum(Transfers(s.left)) + Sum(Transfers(s.right))
  }

  lemma {:induction false} TransfersUpdate<T>(channels: seq<Channel<T>>, b: nat, ch: Channel<T>)
    requires b < |channels|
    ensures Sum(Transfers(channels[b := ch]))
         == Sum(Transfers(channels)) - (|channels[b].taken| + channels[b].delivered) + |ch.taken| + ch.delivered
  {
    assert Transfers(channels[b := ch]) == Transfers(channels)[b := |ch.taken| + ch.delivered];
    SumUpdate(Transfers(channels), b, |ch.taken| + ch.delivered);
  }

  lemma {:induction false} ExecuteTransfersNothing<T>(c: Config<T>, s: State<T>, r: nat)
    requires Shaped(c, s) && r < |s.pc|
    ensures Transfers(Execute(c, s, r).left) == Transfers(s.left)
    ensures Transfers(Execute(c, s, r).right) == Transfers(s.right)
  {
  }

  lemma {:induction false} StepCounted<T>(c: Config<T>, s: State<T>, r: nat, k: nat, m: nat)
    requires Enabled(c, s, Step(r)) && Counted(s, k, m)
    ensures |Apply(c, s, Step(r)).pc| == |s.pc|
    ensures Counted(Apply(c, s, Step(r)), k, m + 1)
  {
    ExecuteTransfersNothing(c, s, r);
    hide Transfers, Execute, Sum, Shaped;
    SumUpdate(s.pc, r, s.pc[r] + 1);
  }

  lemma {:induction false} TransferCounted<T>(c: Config<T>, s: State<T>, a: Action, k: nat, m: nat)
    requires Enabled(c, s, a) && !a.Step? && !a.AllReduce? && Counted(s, k, m)
    ensures |Apply(c, s, a).pc| == |s.pc|
    ensures Counted(Apply(c, s, a), k, m + 1)
  {
    hide Transfers, Sum;
    match a
    case TakeLeft(b) => TransfersUpdate(s.left, b, Apply(c, s, a).left[b]);
    case PutLeft(b) => TransfersUpdate(s.left, b, Apply(c, s, a).left[b]);
    case TakeRight(b) => TransfersUpdate(s.right, b, Apply(c, s, a).right[b]);
    case PutRight(b) => TransfersUpdate(s.right, b, Apply(c, s, a).right[b]);
  }

  lemma {:induction false} ReduceCounted<T>(c: Config<T>, s: State<T>, k: nat, m: nat)
    requires Enabled(c, s, AllReduce) && Counted(s, k, m)
    ensures |Apply(c, s, AllReduce).pc| == |s.pc|
    ensures Counted(Apply(c, s, AllReduce), k + 1, m + 1)
  {
    hide Sum, Transfers;
    SumBounds(s.pc, VOTE, VOTE);
    SumBounds(Apply(c, s, AllReduce).pc, 0, 0);
    MulNext(k, VOTE * |s.pc| + 1);
  }

  lemma {:induction false} ActionCounted<T>(c: Config<T>, s: State<T>, a: Action, k: nat, m: nat)
    requires Enabled(c, s, a) && Counted(s, k, m)
    ensures |Apply(c, s, a).pc| == |s.pc|
    ensures Counted(Apply(c, s, a), if a.AllReduce? then k + 1 else k, m + 1)
  {
    hide *;
    match a
    case Step(r) => StepCounted(c, s, r, k, m);
    case AllReduce => ReduceCounted(c, s, k, m);
    case _ => TransferCounted(c, s, a, k, m);
  }

  lemma {:induction false} RunCounted<T>(c: Config<T>, s: State<T>, acts: seq<Action>)
    requires CanRun(c, s, acts) && Counted(s, 0, 0)
    ensures |Exec(c, s, acts).pc| == |s.pc|
    ensures Counted(Exec(c, s, acts), Reductions(acts), |acts|)
    decreases |acts|
  {
    hide *;
    if acts == [] {
      RunEmpty(c, s);
    } else {
      var before := acts[..|acts| - 1];
      RunUnfolds(c, s, acts);
      RunCounted(c, s, before);
      ActionCounted(c, Exec(c, s, before), acts[|acts| - 1], Reductions(before), |before|);
    }
  }

  /** A sort of `blocks`, one per rank, as `sort(list)` and `sortP` set it up. */
  ghost predicate Job<T(!new)>(c: Config<T>, blocks: seq<seq<T>>) {
    && |blocks| >= 1
    && c.R == RegionSize(Sizes(blocks))
    && StrictWeakOrder(c.less) && TotalOn(c.less, Flatten(blocks))
  }

  lemma {:induction false} LoadedReady<T(!new)>(c: Config<T>, blocks: seq<seq<T>>)
    requires Job(c, blocks)
    ensures Wide(c.R, Loaded(c, blocks)) && Fits(c.R, Sizes(blocks), Loaded(c, blocks))
    ensures Owned(c.R, Loaded(c, blocks)) == SortEach(c.less, blocks)
    ensures TotalOn(c.less, Flatten(SortEach(c.less, blocks)))
    ensures multiset(Flatten(SortEach(c.less, blocks))) == multiset(Flatten(blocks))
    ensures Inversions(c.less, Flatten(SortEach(c.less, blocks))) <= Inversions(c.less, Flatten(blocks))
  {
    hide StrictWeakOrder, TotalOn, Flatten, Inversions, Sort;
    var t := Loaded(c, blocks);
    forall r | 0 <= r < |t| ensures 4 * c.R <= |blocks[r]| && t[r][..|blocks[r]|] == SortEach(c.less, blocks)[r] {
      assert Sizes(blocks)[r] == |blocks[r]|;
    }
    SortEachPermutes(c.less, blocks);
    SortEachInversions(c.less, blocks);
    TotalOnPermutation(c.less, Flatten(blocks), Flatten(SortEach(c.less, blocks)));
  }

  /** The number of rounds after any run. */
  lemma {:induction false} ReductionsBounded<T(!new)>(c: Config<T>, blocks: seq<seq<T>>, acts: seq<Action>)
    requires Job(c, blocks) && |blocks| > 1
    requires CanRun(c, Initial(c, blocks), acts)
    ensures var s := Exec(c, Initial(c, blocks), acts);
            Reductions(acts) <= Inversions(c.less, Flatten(blocks)) + if s.finished then 1 else 0
  {
    hide Initial, Loaded, CanRun, Exec, Wide, Rounds, Changes, Owned, InRound, Inversions, Flatten, TotalOn, StrictWeakOrder;
    var t0, k := Loaded(c, blocks), Reductions(acts);
    LoadedReady(c, blocks);
    RunReached(c, blocks, acts);
    var quiet := if Exec(c, Initial(c, blocks), acts).finished then k - 1 else k;
    RoundsBounded(c.less, c.R, Sizes(blocks), t0, quiet);
  }

  lemma {:induction false} TransfersBounded<T>(c: Config<T>, t: seq<seq<T>>, k: nat, s: State<T>)
    requires InRound(c, t, k, s)
    ensures Sum(s.pc) <= VOTE * |t|
    ensures Sum(Transfers(s.left)) <= (|t| - 1) * (2 * k + 2)
    ensures Sum(Transfers(s.right)) <= (|t| - 1) * (2 * k + 2)
  {
    forall r | 0 <= r < |t| ensures s.pc[r] <= VOTE { assert RankOk(c, t, k, s, r); }
    forall b | 0 <= b < |t| - 1 ensures Transfers(s.left)[b] <= 2 * k + 2 { assert LeftOk(c, t, k, s, b); }
    forall b | 0 <= b < |t| - 1 ensures Transfers(s.right)[b] <= 2 * k + 2 { assert RightOk(c, t, k, s, b); }
    SumBounds(s.pc, 0, VOTE);
    SumBounds(Transfers(s.left), 0, 2 * k + 2);
    SumBounds(Transfers(s.right), 0, 2 * k + 2);
  }

  /** The most statements and transfers any run can contain. */
  function Longest(n: nat, inversions: nat): int {
    (inversions + 2) * (15 * n - 3)
  }

  /** Termination under every scheduling of ranks and message transfers. */
  lemma {:induction false} RunsTerminate<T(!new)>(c: Config<T>, blocks: seq<seq<T>>, acts: seq<Action>)
    requires Job(c, blocks) && |blocks| > 1
    requires CanRun(c, Initial(c, blocks), acts)
    ensures |acts| <= Longest(|blocks|, Inversions(c.less, Flatten(blocks)))
  {
    hide *;
    var s := Exec(c, Initial(c, blocks), acts);
    LoadedReady(c, blocks);
    StartCounted(c, blocks);
    RunCounted(c, Initial(c, blocks), acts);
    ReductionsBounded(c, blocks, acts);
    RunReached(c, blocks, acts);
    FinalCount(c, blocks, Reductions(acts), s);
    WithinLongest(s, Reductions(acts), |acts|, Inversions(c.less, Flatten(blocks)));
  }

  lemma {:induction false} WithinLongest<T>(s: State<T>, k: nat, length: nat, inversions: nat)
    requires Counted(s, k, length) && |s.pc| > 1 && k <= inversions + 1
    requires Sum(s.pc) + Sum(Transfers(s.left)) + Sum(Transfers(s.right))
          <= VOTE * |s.pc| + 2 * ((|s.pc| - 1) * (2 * k + 2))
    ensures length <= Longest(|s.pc|, inversions)
  {
    hide *;
    var n := |s.pc|;
    CountedMeans(s, k, length);
    RoundLength(n, k);
    MulMonotone(k + 1, inversions + 2, 15 * n - 3);
    LongestIs(n, inversions);
  }

  lemma {:induction false} CountedMeans<T>(s: State<T>, k: nat, length: nat)
    requires Counted(s, k, length)
    ensures length == k * (VOTE * |s.pc| + 1) + Sum(s.pc) + Sum(Transfers(s.left)) + Sum(Transfers(s.right))
  {
  }

  lemma {:induction false} LongestIs(n: nat, inversions: nat)
    ensures Longest(n, inversions) == (inversions + 2) * (15 * n - 3)
  {
  }

  lemma {:induction false} RoundLength(n: nat, k: nat)
    ensures (k + 1) * (15 * n - 3) == k * (VOTE * n + 1) + VOTE * n + 1 + 2 * ((n - 1) * (2 * k + 2))
  {
  }

  lemma {:induction false} MulMonotone(a: int, b: int, m: int)
    requires a <= b && 0 <= m
    ensures a * m <= b * m
  {
  }

  lemma {:induction false} StartCounted<T>(c: Config<T>, blocks: seq<seq<T>>)
    requires |blocks| >= 1 && Wide(c.R, Loaded(c, blocks))
    ensures Counted(Initial(c, blocks), 0, 0)
    ensures |Initial(c, blocks).pc| == |blocks|
  {
    var s := Initial(c, blocks);
    SumBounds(s.pc, 0, 0);
    SumBounds(Transfers(s.left), 0, 0);
    SumBounds(Transfers(s.right), 0, 0);
  }

  lemma {:induction false} FinalCount<T>(c: Config<T>, blocks: seq<seq<T>>, k: nat, s: State<T>)
    requires |blocks| > 1 && Reached(c, Loaded(c, blocks), k, s)
    ensures |s.pc| == |blocks|
    ensures Sum(s.pc) + Sum(Transfers(s.left)) + Sum(Transfers(s.right)) <= VOTE * |blocks| + 2 * ((|blocks| - 1) * (2 * k + 2))
  {
    TransfersBounded(c, Rounds(c.less, c.R, Loaded(c, blocks), k), k, s);
  }

  // ------------------------------------------------------------- correctness

  /** Every interleaving reaches the all-reduce with the buffers of lock step:
      how the transfers were scheduled cannot be observed. */
  lemma {:induction false} InterleavingsAgree<T>(c: Config<T>, blocks: seq<seq<T>>, acts: seq<Action>)
    requires |blocks| > 1 && Wide(c.R, Loaded(c, blocks))
    requires CanRun(c, Initial(c, blocks), acts)
    requires Enabled(c, Exec(c, Initial(c, blocks), acts), AllReduce)
    ensures Exec(c, Initial(c, blocks), acts).temp1
         == Rounds(c.less, c.R, Loaded(c, blocks), Reductions(acts) + 1)
  {
    hide Initial, Loaded, CanRun, Exec, Wide, Round, InRound, Enabled, AllChange;
    RunReached(c, blocks, acts);
    AllReduceKeeps(c, Rounds(c.less, c.R, Loaded(c, blocks), Reductions(acts)), Reductions(acts),
                   Exec(c, Initial(c, blocks), acts));
  }

  /** What all ranks hold at the end, one block after the other. */
  ghost function Result<T>(c: Config<T>, s: State<T>): seq<seq<T>>
    requires Wide(c.R, s.temp1)
  {
    Owned(c.R, s.temp1)
  }

  /** Every run that ends leaves, over the ranks in order, the sorted arrangement
      of the items the ranks started with, each rank holding as many as before. */
  lemma {:induction false} EveryRunSorts<T(!new)>(c: Config<T>, blocks: seq<seq<T>>, acts: seq<Action>)
    requires Job(c, blocks) && (c.R > 0 || |blocks| == 1)
    requires CanRun(c, Initial(c, blocks), acts)
    requires Exec(c, Initial(c, blocks), acts).finished
    ensures var s := Exec(c, Initial(c, blocks), acts);
            && Wide(c.R, s.temp1)
            && Sizes(Result(c, s)) == Sizes(blocks)
            && Flatten(Result(c, s)) == Sort(c.less, Flatten(blocks))
  {
    LoadedReady(c, blocks);
    if |blocks| == 1 {
      SingleRank(c, blocks, acts);
    } else {
      ManyRanks(c, blocks, acts);
    }
  }

  lemma {:induction false} SingleRank<T(!new)>(c: Config<T>, blocks: seq<seq<T>>, acts: seq<Action>)
    requires |blocks| == 1 && CanRun(c, Initial(c, blocks), acts)
    requires Wide(c.R, Loaded(c, blocks)) && Owned(c.R, Loaded(c, blocks)) == SortEach(c.less, blocks)
    ensures acts == []
    ensures Sizes(Owned(c.R, Loaded(c, blocks))) == Sizes(blocks)
    ensures Flatten(Owned(c.R, Loaded(c, blocks))) == Sort(c.less, Flatten(blocks))
    decreases |acts|
  {
    if acts != [] {
      SingleRank(c, blocks, acts[..|acts| - 1]);
      assert false;
    }
    assert Flatten(blocks) == blocks[0];
    assert SortEach(c.less, blocks) == [Sort(c.less, blocks[0])];
    assert Flatten([Sort(c.less, blocks[0])]) == Sort(c.less, blocks[0]);
  }

  lemma {:induction false} ManyRanks<T(!new)>(c: Config<T>, blocks: seq<seq<T>>, acts: seq<Action>)
    requires Job(c, blocks) && c.R > 0 && |blocks| > 1
    requires Wide(c.R, Loaded(c, blocks))
    requires CanRun(c, Initial(c, blocks), acts)
    requires Exec(c, Initial(c, blocks), acts).finished
    ensures var s := Exec(c, Initial(c, blocks), acts);
            && Wide(c.R, s.temp1)
            && Sizes(Result(c, s)) == Sizes(blocks)
            && Flatten(Result(c, s)) == Sort(c.less, Flatten(blocks))
  {
    hide Initial, Loaded, CanRun, Exec, Wide, Rounds, AllChange, Changes, Owned, InRound,
      Inversions, Flatten, TotalOn, StrictWeakOrder, Sort, Sorted, StopsAfter, Fits, Sizes, Sum;
    var t0, k, sizes := Loaded(c, blocks), Reductions(acts), Sizes(blocks);
    LoadedReady(c, blocks);
    RunReached(c, blocks, acts);
    StopsSorted(c.less, c.R, sizes, t0, k);
    RoundsKeep(c.less, c.R, sizes, t0, k);
    FitsWide(c.R, sizes, Rounds(c.less, c.R, t0, k));
    SortCanonical(c.less, Flatten(SortEach(c.less, blocks)), Flatten(blocks));
  }

  /** Permutations of each other sort to the same sequence. */
  lemma {:induction false} SortCanonical<T(!new)>(less: (T, T) -> bool, a: seq<T>, b: seq<T>)
    requires StrictWeakOrder(less) && TotalOn(less, a) && multiset(a) == multiset(b)
    ensures Sort(less, a) == Sort(less, b)
  {
    hide StrictWeakOrder, TotalOn, Sort, Sorted;
    SortSorts(less, a);
    SortSorts(less, b);
    TotalOnPermutation(less, a, Sort(less, a));
    SortedUnique(less, Sort(less, a), Sort(less, b));
  }

  // ----------------------------------------------------------- completing a run

  lemma {:induction false} RunExtends<T>(c: Config<T>, s: State<T>, acts: seq<Action>, a: Action)
    requires CanRun(c, s, acts) && Enabled(c, Exec(c, s, acts), a)
    ensures CanRun(c, s, acts + [a])
  {
    hide Enabled, Apply;
    assert (acts + [a])[..|acts + [a]| - 1] == acts;
  }

  /** Every run can be continued to the end of the sort. */
  lemma {:induction false} RunCompletes<T(!new)>(c: Config<T>, blocks: seq<seq<T>>,
                                                 acts: seq<Action>) returns (whole: seq<Action>)
    requires Job(c, blocks)
    requires CanRun(c, Initial(c, blocks), acts)
    ensures acts <= whole && CanRun(c, Initial(c, blocks), whole)
    ensures Exec(c, Initial(c, blocks), whole).finished
    decreases Longest(|blocks|, Inversions(c.less, Flatten(blocks))) - |acts|
  {
    LoadedReady(c, blocks);
    if |blocks| == 1 {
      SingleRank(c, blocks, acts);
      whole := acts;
    } else {
      hide Initial, Loaded, CanRun, Exec, Wide, Inversions, Flatten, Enabled, Longest, StrictWeakOrder, TotalOn;
      RunsTerminate(c, blocks, acts);
      if Exec(c, Initial(c, blocks), acts).finished {
        whole := acts;
      } else {
        var a := NoDeadlock(c, blocks, acts);
        RunExtends(c, Initial(c, blocks), acts, a);
        RunsTerminate(c, blocks, acts + [a]);
        whole := RunCompletes(c, blocks, acts + [a]);
      }
    }
  }

  // ------------------------------------------- when nothing is exchanged at all

  lemma {:induction false} ZeroRegionRound<T(!new)>(less: (T, T) -> bool, sizes: seq<nat>, t: seq<seq<T>>)
    requires StrictWeakOrder(less) && Fits(0, sizes, t) && Wide(0, t)
    requires forall r :: 0 <= r < |t| ==> Sort(less, t[r]) == t[r]
    ensures Round(less, 0, t) == t && Owned(0, t) == t
  {
    hide Sort;
    var a := AfterSendLeft(0, t);
    assert forall r :: 0 <= r < |t| ==> a[r] == t[r];
    assert a == t;
    var b := AfterSortWindow(less, 0, a);
    forall r | 0 <= r < |t| ensures b[r] == t[r] {
      assert t[r][0..] == t[r];
    }
    assert b == t;
    assert forall r :: 0 <= r < |t| ==> AfterSendRight(0, b)[r] == t[r];
    assert BeforeSortOwned(less, 0, t) == t;
    forall r | 0 <= r < |t| ensures Round(less, 0, t)[r] == t[r] && Owned(0, t)[r] == t[r] {
      assert t[r][..|t[r]|] == t[r];
    }
  }

  lemma {:induction false} ZeroRegionStops<T(!new)>(c: Config<T>, blocks: seq<seq<T>>, k: nat)
    requires Job(c, blocks) && c.R == 0 && Wide(0, Loaded(c, blocks))
    requires StopsAfter(c.less, 0, Loaded(c, blocks), k)
    ensures k == 1
    ensures Owned(0, Rounds(c.less, 0, Loaded(c, blocks), k)) == SortEach(c.less, blocks)
  {
    hide Owned, Flatten, TotalOn, StrictWeakOrder, Sort, Sorted, Round, Inversions;
    var t0 := Loaded(c, blocks);
    LoadedReady(c, blocks);
    forall r | 0 <= r < |t0| ensures Sort(c.less, t0[r]) == t0[r] {
      SortTwice(c, blocks, r);
    }
    ZeroRegionRound(c.less, Sizes(blocks), t0);
    assert Rounds(c.less, 0, t0, 0) == t0;
    assert !Changes(c.less, 0, t0, 0);
    assert k == 1 by {
      assert AllChange(c.less, 0, t0, k - 1);
    }
    assert Rounds(c.less, 0, t0, 1) == Round(c.less, 0, Rounds(c.less, 0, t0, 0));
  }

  /** With fewer than four items on some rank the region is empty: the blocks are
      sorted one by one and the all-reduce ends the first round. */
  lemma {:induction false} ZeroRegionResult<T(!new)>(c: Config<T>, blocks: seq<seq<T>>, acts: seq<Action>)
    requires Job(c, blocks) && c.R == 0 && |blocks| > 1
    requires CanRun(c, Initial(c, blocks), acts)
    requires Exec(c, Initial(c, blocks), acts).finished
    ensures var s := Exec(c, Initial(c, blocks), acts);
            Wide(0, s.temp1) && Result(c, s) == SortEach(c.less, blocks)
  {
    hide Initial, Loaded, CanRun, Exec, Owned, InRound, Flatten, TotalOn, StrictWeakOrder, Sort, Rounds, Inversions, StopsAfter;
    LoadedReady(c, blocks);
    RunReached(c, blocks, acts);
    ZeroRegionStops(c, blocks, Reductions(acts));
  }

  lemma {:induction false} SortTwice<T(!new)>(c: Config<T>, blocks: seq<seq<T>>, r: nat)
    requires Job(c, blocks) && c.R == 0 && r < |blocks|
    ensures Sort(c.less, Loaded(c, blocks)[r]) == Loaded(c, blocks)[r]
  {
    hide StrictWeakOrder, TotalOn, Sort, Sorted, Flatten;
    var b := blocks[r];
    assert Loaded(c, blocks)[r] == Sort(c.less, b) + [] == Sort(c.less, b);
    BlockTotal(c, blocks, r);
    SortSorts(c.less, b);
    TotalOnPermutation(c.less, b, Sort(c.less, b));
    SortFixed(c.less, Sort(c.less, b));
  }

  lemma {:induction false} BlockTotal<T>(c: Config<T>, blocks: seq<seq<T>>, r: nat)
    requires r < |blocks| && TotalOn(c.less, Flatten(blocks))
    ensures TotalOn(c.less, blocks[r])
  {
    forall x, y | x in blocks[r] && y in blocks[r] && x != y ensures c.less(x, y) || c.less(y, x) {
      FlattenMembers(blocks, r, x);
      FlattenMembers(blocks, r, y);
    }
  }

  function Ascending(): (int, int) -> bool {
    (x, y) => x < y
  }

  function IntConfig(sizes: seq<nat>): Config<int>
    requires sizes != []
  {
    Config(Ascending(), RegionSize(sizes), 0)
  }

  ghost predicate Ends(c: Config<int>, blocks: seq<seq<int>>, acts: seq<Action>)
    requires |blocks| >= 1
  {
    CanRun(c, Initial(c, blocks), acts) && Exec(c, Initial(c, blocks), acts).finished
  }

  ghost predicate EndsSorted(c: Config<int>, blocks: seq<seq<int>>, acts: seq<Action>)
    requires |blocks| >= 1 && Ends(c, blocks, acts)
  {
    var s := Exec(c, Initial(c, blocks), acts);
    Wide(c.R, s.temp1) && Sorted(c.less, Flatten(Result(c, s)))
  }

  /** Ranks holding blocks of these sizes sort every input, in every run. */
  ghost predicate SortsEveryInput(sizes: seq<nat>)
    requires sizes != []
  {
    forall blocks: seq<seq<int>>, acts: seq<Action> ::
      Sizes(blocks) == sizes && Ends(IntConfig(sizes), blocks, acts) ==> EndsSorted(IntConfig(sizes), blocks, acts)
  }

  lemma {:induction false} IntJob(sizes: seq<nat>, blocks: seq<seq<int>>)
    requires sizes != [] && Sizes(blocks) == sizes
    ensures Job(IntConfig(sizes), blocks)
  {
  }

  /** At most one rank has any items. */
  ghost predicate Lonely(sizes: seq<nat>) {
    forall p, q :: 0 <= p < q < |sizes| ==> sizes[p] == 0 || sizes[q] == 0
  }

  /** A quarter of the smallest block is too little to exchange when that block has
      fewer than four items: the sort is right for every input exactly if there is
      one rank, or every rank has four items, or only one rank has any. */
  lemma {:induction false} RegionExactness(sizes: seq<nat>)
    requires sizes != []
    ensures SortsEveryInput(sizes) <==> |sizes| == 1 || Min(sizes) >= 4 || Lonely(sizes)
  {
    hide Ends, EndsSorted, Lonely, Ascending;
    if |sizes| == 1 || Min(sizes) >= 4 || Lonely(sizes) {
      forall blocks, acts | Sizes(blocks) == sizes && Ends(IntConfig(sizes), blocks, acts)
        ensures EndsSorted(IntConfig(sizes), blocks, acts)
      {
        EndsInOrder(sizes, blocks, acts);
      }
    } else {
      var blocks, acts := TooFew(sizes);
    }
  }

  lemma {:induction false} EndsInOrder(sizes: seq<nat>, blocks: seq<seq<int>>, acts: seq<Action>)
    requires sizes != [] && Sizes(blocks) == sizes && Ends(IntConfig(sizes), blocks, acts)
    requires |sizes| == 1 || Min(sizes) >= 4 || Lonely(sizes)
    ensures EndsSorted(IntConfig(sizes), blocks, acts)
  {
    hide CanRun, Exec, Initial, Wide, Flatten, Sort, Sorted, SortEach, Result, Lonely;
    IntJob(sizes, blocks);
    if |sizes| == 1 || RegionSize(sizes) > 0 {
      EveryRunSorts(IntConfig(sizes), blocks, acts);
      SortSorts(Ascending(), Flatten(blocks));
    } else {
      ZeroRegionResult(IntConfig(sizes), blocks, acts);
      LonelyApart(sizes, blocks);
      ApartSorted(Ascending(), blocks);
    }
  }

  lemma {:induction false} LonelyApart(sizes: seq<nat>, blocks: seq<seq<int>>)
    requires Lonely(sizes) && Sizes(blocks) == sizes
    ensures forall q, r, x, y :: 0 <= q < r < |blocks| && x in blocks[q] && y in blocks[r] ==> !Ascending()(y, x)
  {
    assert forall q :: 0 <= q < |blocks| ==> |blocks[q]| == sizes[q];
  }

  /** The failing input: the items in descending order over all ranks. Every run
      on it ends after one round with each block sorted and nothing exchanged. */
  lemma {:induction false} TooFew(sizes: seq<nat>) returns (blocks: seq<seq<int>>, acts: seq<Action>)
    requires |sizes| > 1 && Min(sizes) < 4 && !Lonely(sizes)
    ensures Sizes(blocks) == sizes
    ensures Ends(IntConfig(sizes), blocks, acts) && !EndsSorted(IntConfig(sizes), blocks, acts)
  {
    hide CanRun, Exec, Initial, Wide, Sorted, Split, Sum, Flatten, StrictWeakOrder, TotalOn, Owned;
    var c := IntConfig(sizes);
    var items := seq(Sum(sizes), p => -p);
    FlattenSplit(sizes, items);
    blocks := Split(sizes, items);
    IntJob(sizes, blocks);
    RunEmpty(c, Initial(c, blocks));
    acts := RunCompletes(c, blocks, []);
    ZeroRegionResult(c, blocks, acts);
    var p, q :| 0 <= p < q < |sizes| && sizes[p] > 0 && sizes[q] > 0;
    DescendingStays(sizes, blocks, items, p, q);
  }

  lemma {:induction false} DescendingStays(sizes: seq<nat>, blocks: seq<seq<int>>, items: seq<int>, p: nat, q: nat)
    requires p < q < |sizes| && sizes[p] > 0 && sizes[q] > 0 && Sizes(blocks) == sizes
    requires Flatten(blocks) == items && |items| == Sum(sizes)
    requires forall k :: 0 <= k < |items| ==> items[k] == -k
    ensures !Sorted(Ascending(), Flatten(SortEach(Ascending(), blocks)))
  {
    hide Sort, Flatten, Sum, Offset, Min, StrictWeakOrder;
    var less := Ascending();
    var sorted := SortEach(less, blocks);
    assert |blocks[p]| == sizes[p] && |blocks[q]| == sizes[q] && |sorted[p]| == sizes[p] && |sorted[q]| == sizes[q];
    var i := MemberAt(sizes, blocks, items, p);
    var j := MemberAt(sizes, blocks, items, q);
    OffsetsOrdered(sizes, p, q, i, j);
    FlattenAt(sorted, p, 0);
    FlattenAt(sorted, q, 0);
    assert Sizes(sorted) == sizes;
    OffsetsOrdered(sizes, p, q, 0, 0);
  }

  /** The first item of a sorted block was item i of the block. */
  lemma {:induction false} MemberAt(sizes: seq<nat>, blocks: seq<seq<int>>, items: seq<int>, p: nat) returns (i: nat)
    requires p < |sizes| && sizes[p] > 0 && Sizes(blocks) == sizes && Flatten(blocks) == items
    requires forall k :: 0 <= k < |items| ==> items[k] == -k
    ensures i < sizes[p] && SortEach(Ascending(), blocks)[p][0] == -(Offset(sizes, p) + i)
  {
    hide Sort, Flatten, Offset, StrictWeakOrder;
    var sorted := SortEach(Ascending(), blocks);
    assert |blocks[p]| == sizes[p];
    SortSorts(Ascending(), blocks[p]);
    SameItems(sorted[p], blocks[p], sorted[p][0]);
    i :| 0 <= i < |blocks[p]| && blocks[p][i] == sorted[p][0];
    FlattenAt(blocks, p, i);
  }

  lemma {:induction false} OffsetsOrdered(sizes: seq<nat>, p: nat, q: nat, i: nat, j: nat)
    requires p < q < |sizes| && i < sizes[p] && j < sizes[q]
    ensures Offset(sizes, p) + i < Offset(sizes, q) + j
  {
    hide Offset;
    OffsetNext(sizes, p);
    OffsetsGrow(sizes, p + 1, q);
  }
}
