/**
 The nearest-neighbour sort as it really runs: every rank executes its own
 straight-line code, non-blocking sends and receives are carried out by the MPI
 library at any moment between the call that posts them and the wait that
 completes them, and the only synchronisation is the all-reduce at the end of a
 round.

 A send is split in two: the library first reads the sender's live buffer
 (`Take`) and some time later writes the receiver's live buffer (`Put`). The k-th
 send of a channel meets the k-th receive of that channel, the in-order delivery
 per source and tag of section 3.5 of MPI 3.1.
 */
module SortProtocol {
  import opened Sorting
  import opened NearestNeighbour

  /* Where a rank is in the code of one round. */
  const SNAPSHOT: nat := 0         // temp2 = temp1
  const POST_SEND_LEFT: nat := 1   // sendLeft: MPI_Isend of the first regionSz items
  const POST_BORROW: nat := 2      // sendLeft: MPI_Irecv into the last regionSz slots
  const WAIT_BORROW: nat := 3      // sendLeft: Wait(rrcv, ...)
  const WAIT_SENT_LEFT: nat := 4   // sendLeft: Wait(..., rsnd)
  const SORT_WINDOW: nat := 5      // std::sort from edge1
  const POST_RETURN: nat := 6      // sendRight: MPI_Irecv into the first regionSz slots
  const POST_SEND_RIGHT: nat := 7  // sendRight: MPI_Isend of the last regionSz items
  const WAIT_SENT_RIGHT: nat := 8  // sendRight: Wait(rsnd, ...)
  const WAIT_RETURN: nat := 9      // sendRight: Wait(..., rrcv)
  const SORT_OWNED: nat := 10      // std::sort up to edge2
  const VOTE: nat := 11            // MPI_Allreduce

  /** One direction across one boundary between neighbouring ranks. */
  datatype Channel<T> = Channel(
    sends: nat,           // sends posted so far
    recvs: nat,           // receives posted so far
    taken: seq<seq<T>>,   // what the library has read from the sender, in order
    delivered: nat)       // how many of those reached the receiver's buffer

  /** `left[b]` carries items from rank b + 1 to rank b, `right[b]` the other way. */
  datatype State<T> = State(
    finished: bool,
    pc: seq<nat>,
    temp1: seq<seq<T>>,
    temp2: seq<seq<T>>,
    left: seq<Channel<T>>,
    right: seq<Channel<T>>)

  datatype Action =
    | Step(r: nat)       // rank r executes its next statement
    | TakeLeft(b: nat)
    | PutLeft(b: nat)
    | TakeRight(b: nat)
    | PutRight(b: nat)
    | AllReduce

  datatype Config<!T> = Config(less: (T, T) -> bool, R: nat, blank: T)

  ghost predicate Shaped<T>(c: Config<T>, s: State<T>) {
    && |s.pc| == |s.temp1| == |s.temp2| >= 1
    && |s.left| == |s.right| == |s.pc| - 1
    && Wide(c.R, s.temp1) && Wide(c.R, s.temp2)
  }

  /** May rank r go past its next statement? Only waits hold it up. */
  ghost predicate Unblocked<T>(c: Config<T>, s: State<T>, r: nat)
    requires Shaped(c, s) && r < |s.pc|
  {
    && (s.pc[r] == WAIT_BORROW && r + 1 < |s.pc| ==> s.left[r].delivered == s.left[r].recvs)
    && (s.pc[r] == WAIT_SENT_LEFT && r > 0 ==> |s.left[r - 1].taken| == s.left[r - 1].sends)
    && (s.pc[r] == WAIT_SENT_RIGHT && r + 1 < |s.pc| ==> |s.right[r].taken| == s.right[r].sends)
    && (s.pc[r] == WAIT_RETURN && r > 0 ==> s.right[r - 1].delivered == s.right[r - 1].recvs)
  }

  ghost predicate Takable<T>(ch: Channel<T>) { |ch.taken| < ch.sends }

  ghost predicate Puttable<T>(ch: Channel<T>) { ch.delivered < |ch.taken| && ch.delivered < ch.recvs }

  ghost predicate Enabled<T>(c: Config<T>, s: State<T>, a: Action) {
    && Shaped(c, s) && !s.finished
    && match a
       case Step(r) => r < |s.pc| && s.pc[r] < VOTE && Unblocked(c, s, r)
       case TakeLeft(b) => b < |s.left| && Takable(s.left[b])
       case PutLeft(b) => b < |s.left| && Puttable(s.left[b])
       case TakeRight(b) => b < |s.right| && Takable(s.right[b])
       case PutRight(b) => b < |s.right| && Puttable(s.right[b])
       case AllReduce => forall r :: 0 <= r < |s.pc| ==> s.pc[r] == VOTE
  }

  /** The statement of rank r, without the program counter. */
  ghost function Execute<T>(c: Config<T>, s: State<T>, r: nat): State<T>
    requires Shaped(c, s) && r < |s.pc|
  {
    var n, pc := |s.pc|, s.pc[r];
    if pc == SNAPSHOT then s.(temp2 := s.temp2[r := s.temp1[r]])
    else if pc == POST_SEND_LEFT && r > 0 then
      s.(left := s.left[r - 1 := s.left[r - 1].(sends := s.left[r - 1].sends + 1)])
    else if pc == POST_BORROW && r + 1 < n then
      s.(left := s.left[r := s.left[r].(recvs := s.left[r].recvs + 1)])
    else if pc == SORT_WINDOW then
      s.(temp1 := s.temp1[r := SortFrom(c.less, Edge1(c.R, r), s.temp1[r])])
    else if pc == POST_RETURN && r > 0 then
      s.(right := s.right[r - 1 := s.right[r - 1].(recvs := s.right[r - 1].recvs + 1)])
    else if pc == POST_SEND_RIGHT && r + 1 < n then
      s.(right := s.right[r := s.right[r].(sends := s.right[r].sends + 1)])
    else if pc == SORT_OWNED then
      s.(temp1 := s.temp1[r := SortUpTo(c.less, Edge2(c.R, n, r), s.temp1[r])])
    else s
  }

  ghost function Apply<T>(c: Config<T>, s: State<T>, a: Action): State<T>
    requires Enabled(c, s, a)
  {
    match a
    case Step(r) => Execute(c, s, r).(pc := s.pc[r := s.pc[r] + 1])
    case TakeLeft(b) =>
      var ch := s.left[b];
      s.(left := s.left[b := ch.(taken := ch.taken + [s.temp1[b + 1][..c.R]])])
    case PutLeft(b) =>
      var ch, buf := s.left[b], s.temp1[b];
      s.(left := s.left[b := ch.(delivered := ch.delivered + 1)],
         temp1 := s.temp1[b := buf[..|buf| - c.R] + ch.taken[ch.delivered]])
    case TakeRight(b) =>
      var ch, buf := s.right[b], s.temp1[b];
      s.(right := s.right[b := ch.(taken := ch.taken + [buf[|buf| - c.R..]])])
    case PutRight(b) =>
      var ch := s.right[b];
      s.(right := s.right[b := ch.(delivered := ch.delivered + 1)],
         temp1 := s.temp1[b + 1 := ch.taken[ch.delivered] + s.temp1[b + 1][c.R..]])
    case AllReduce =>
      s.(pc := seq(|s.pc|, _ => SNAPSHOT), finished := Owned(c.R, s.temp1) == Owned(c.R, s.temp2))
  }

  // ------------------------------------------------------------------- runs

  /** The buffers every rank starts its loop with: its own items, locally sorted,
      and room for the borrowed ones. */
  function Loaded<T>(c: Config<T>, blocks: seq<seq<T>>): (t: seq<seq<T>>)
    ensures |t| == |blocks|
    ensures forall r :: 0 <= r < |t| ==> |t[r]| == |blocks[r]| + Edge2(c.R, |blocks|, r)
  {
    seq(|blocks|, r requires 0 <= r < |blocks| =>
      Sort(c.less, blocks[r]) + seq(Edge2(c.R, |blocks|, r), _ => c.blank))
  }

  /** With a single rank the loop is not entered. */
  ghost function Initial<T>(c: Config<T>, blocks: seq<seq<T>>): State<T>
    requires |blocks| >= 1
  {
    var n, t := |blocks|, Loaded(c, blocks);
    var idle := seq(n - 1, _ => Channel(0, 0, [], 0));
    State(n == 1, seq(n, _ => SNAPSHOT), t, t, idle, idle)
  }

  ghost predicate CanRun<T>(c: Config<T>, s: State<T>, acts: seq<Action>)
    decreases |acts|, 0
  {
    acts == []
    || (CanRun(c, s, acts[..|acts| - 1])
        && Enabled(c, Exec(c, s, acts[..|acts| - 1]), acts[|acts| - 1]))
  }

  ghost function Exec<T>(c: Config<T>, s: State<T>, acts: seq<Action>): State<T>
    requires CanRun(c, s, acts)
    decreases |acts|, 1
  {
    if acts == [] then s else Apply(c, Exec(c, s, acts[..|acts| - 1]), acts[|acts| - 1])
  }

  ghost function Reductions(acts: seq<Action>): nat {
    if acts == [] then 0
    else Reductions(acts[..|acts| - 1]) + if acts[|acts| - 1].AllReduce? then 1 else 0
  }

  // -------------------------------------------------------------- invariant

  /** The buffers of the lock-step round that starts from `t`. */
  ghost predicate RankOk<T>(c: Config<T>, t: seq<seq<T>>, k: nat, s: State<T>, r: nat)
    requires Shaped(c, s) && Wide(c.R, t) && |t| == |s.pc| && r < |t|
  {
    var a := AfterSendLeft(c.R, t);
    var b := AfterSortWindow(c.less, c.R, a);
    && s.pc[r] <= VOTE
    && (s.pc[r] > SNAPSHOT ==> s.temp2[r] == t[r])
    && s.temp1[r] ==
       if s.pc[r] <= SORT_WINDOW then
         if r + 1 < |t| && s.left[r].delivered == k + 1 then a[r] else t[r]
       else if s.pc[r] <= SORT_OWNED then
         if r > 0 && s.right[r - 1].delivered == k + 1 then AfterSendRight(c.R, b)[r] else b[r]
       else Round(c.less, c.R, t)[r]
  }

  /** A channel after k full rounds, in the middle of round k + 1: whether its
      send and its receive have been posted and completed follows the program
      counters of the two ranks, and its message is what lock step exchanges. */
  ghost predicate ChannelOk<T>(ch: Channel<T>, k: nat, posted: bool, sent: bool, expected: bool, received: bool,
                               message: seq<T>) {
    && ch.sends == k + (if posted then 1 else 0)
    && ch.recvs == k + (if expected then 1 else 0)
    && k <= ch.delivered <= |ch.taken| <= ch.sends
    && ch.delivered <= ch.recvs
    && (sent ==> |ch.taken| == k + 1)
    && (received ==> ch.delivered == k + 1)
    && (|ch.taken| == k + 1 ==> ch.taken[k] == message)
  }

  ghost predicate LeftOk<T>(c: Config<T>, t: seq<seq<T>>, k: nat, s: State<T>, b: nat)
    requires Shaped(c, s) && Wide(c.R, t) && |t| == |s.pc| && b + 1 < |t|
  {
    ChannelOk(s.left[b], k,
              s.pc[b + 1] > POST_SEND_LEFT, s.pc[b + 1] > WAIT_SENT_LEFT,
              s.pc[b] > POST_BORROW, s.pc[b] > WAIT_BORROW,
              t[b + 1][..c.R])
  }

  ghost predicate RightOk<T>(c: Config<T>, t: seq<seq<T>>, k: nat, s: State<T>, b: nat)
    requires Shaped(c, s) && Wide(c.R, t) && |t| == |s.pc| && b + 1 < |t|
  {
    var sorted := AfterSortWindow(c.less, c.R, AfterSendLeft(c.R, t))[b];
    ChannelOk(s.right[b], k,
              s.pc[b] > POST_SEND_RIGHT, s.pc[b] > WAIT_SENT_RIGHT,
              s.pc[b + 1] > POST_RETURN, s.pc[b + 1] > WAIT_RETURN,
              sorted[|sorted| - c.R..])
  }

  /** Mid-round: `t` are the buffers at the start of the round. */
  ghost predicate InRound<T>(c: Config<T>, t: seq<seq<T>>, k: nat, s: State<T>) {
    && Shaped(c, s) && Wide(c.R, t) && |t| == |s.pc|
    && (forall r :: 0 <= r < |t| ==> RankOk(c, t, k, s, r))
    && (forall b :: 0 <= b < |t| - 1 ==> LeftOk(c, t, k, s, b))
    && (forall b :: 0 <= b < |t| - 1 ==> RightOk(c, t, k, s, b))
  }

  // ------------------------------------------- every action keeps the invariant

  lemma {:induction false} ApplyShaped<T>(c: Config<T>, t: seq<seq<T>>, k: nat, s: State<T>, a: Action)
    requires InRound(c, t, k, s) && Enabled(c, s, a)
    ensures Shaped(c, Apply(c, s, a))
  {
    hide SortFrom, SortUpTo, Borrow, GiveBack, AfterSendLeft, AfterSendRight, AfterSortWindow, Round;
    match a
    case PutLeft(b) => assert LeftOk(c, t, k, s, b);
    case PutRight(b) => assert RightOk(c, t, k, s, b);
    case _ =>
  }

  /** Rank r's buffer follows lock step through its own statements. */
  lemma {:induction false} StepRank<T>(c: Config<T>, t: seq<seq<T>>, k: nat, s: State<T>, r: nat)
    requires InRound(c, t, k, s) && Enabled(c, s, Step(r)) && Shaped(c, Apply(c, s, Step(r)))
    ensures RankOk(c, t, k, Apply(c, s, Step(r)), r)
  {
    hide SortFrom, SortUpTo, Borrow, GiveBack;
    assert RankOk(c, t, k, s, r);
    if r + 1 < |t| { assert LeftOk(c, t, k, s, r); }
    if r > 0 { assert RightOk(c, t, k, s, r - 1); }
    if r + 1 == |t| {
      assert AfterSendLeft(c.R, t)[r] == t[r] by { LastBorrowsNothing(c, t); }
    }
    if r == 0 {
      assert AfterSendRight(c.R, AfterSortWindow(c.less, c.R, AfterSendLeft(c.R, t)))[0]
          == AfterSortWindow(c.less, c.R, AfterSendLeft(c.R, t))[0] by { FirstGetsNothing(c, t); }
    }
  }

  lemma {:induction false} LastBorrowsNothing<T>(c: Config<T>, t: seq<seq<T>>)
    requires Wide(c.R, t) && |t| > 0
    ensures AfterSendLeft(c.R, t)[|t| - 1] == t[|t| - 1]
  {
  }

  lemma {:induction false} FirstGetsNothing<T>(c: Config<T>, t: seq<seq<T>>)
    requires Wide(c.R, t) && |t| > 0
    ensures BeforeSortOwned(c.less, c.R, t)[0] == AfterSortWindow(c.less, c.R, AfterSendLeft(c.R, t))[0]
  {
  }

  lemma {:induction false} StepOtherRank<T>(c: Config<T>, t: seq<seq<T>>, k: nat, s: State<T>, r: nat, q: nat)
    requires InRound(c, t, k, s) && Enabled(c, s, Step(r)) && Shaped(c, Apply(c, s, Step(r))) && q < |t| && q != r
    ensures RankOk(c, t, k, Apply(c, s, Step(r)), q)
  {
    hide SortFrom, SortUpTo, Borrow, GiveBack, AfterSendLeft, AfterSendRight, AfterSortWindow, Round, LeftOk, RightOk, Wide;
    assert RankOk(c, t, k, s, q);
  }

  lemma {:induction false} StepLeftChannel<T>(c: Config<T>, t: seq<seq<T>>, k: nat, s: State<T>, r: nat, b: nat)
    requires InRound(c, t, k, s) && Enabled(c, s, Step(r)) && Shaped(c, Apply(c, s, Step(r))) && b + 1 < |t|
    ensures LeftOk(c, t, k, Apply(c, s, Step(r)), b)
  {
    hide SortFrom, SortUpTo, Borrow, GiveBack, AfterSendLeft, AfterSendRight, AfterSortWindow, Round, RankOk, RightOk, Wide;
    assert LeftOk(c, t, k, s, b);
  }

  lemma {:induction false} StepRightChannel<T>(c: Config<T>, t: seq<seq<T>>, k: nat, s: State<T>, r: nat, b: nat)
    requires InRound(c, t, k, s) && Enabled(c, s, Step(r)) && Shaped(c, Apply(c, s, Step(r))) && b + 1 < |t|
    ensures RightOk(c, t, k, Apply(c, s, Step(r)), b)
  {
    hide SortFrom, SortUpTo, Borrow, GiveBack, AfterSendLeft, AfterSendRight, AfterSortWindow, Round, RankOk, LeftOk, Wide;
    assert RightOk(c, t, k, s, b);
  }

  lemma {:induction false} StepOthers<T>(c: Config<T>, t: seq<seq<T>>, k: nat, s: State<T>, r: nat)
    requires InRound(c, t, k, s) && Enabled(c, s, Step(r)) && Shaped(c, Apply(c, s, Step(r)))
    ensures forall q :: 0 <= q < |t| && q != r ==> RankOk(c, t, k, Apply(c, s, Step(r)), q)
    ensures forall b :: 0 <= b < |t| - 1 ==> LeftOk(c, t, k, Apply(c, s, Step(r)), b)
    ensures forall b :: 0 <= b < |t| - 1 ==> RightOk(c, t, k, Apply(c, s, Step(r)), b)
  {
    hide SortFrom, SortUpTo, Borrow, GiveBack, AfterSendLeft, AfterSendRight, AfterSortWindow, Round, RankOk, LeftOk, RightOk, Wide;
    forall q | 0 <= q < |t| && q != r ensures RankOk(c, t, k, Apply(c, s, Step(r)), q) {
      StepOtherRank(c, t, k, s, r, q);
    }
    forall b | 0 <= b < |t| - 1 ensures LeftOk(c, t, k, Apply(c, s, Step(r)), b) {
      StepLeftChannel(c, t, k, s, r, b);
    }
    forall b | 0 <= b < |t| - 1 ensures RightOk(c, t, k, Apply(c, s, Step(r)), b) {
      StepRightChannel(c, t, k, s, r, b);
    }
  }

  /** Wherever the library reads a lent head, the receive into the other end of
      the same buffer has not disturbed it. */
  lemma {:induction false} LentHeadKept<T>(c: Config<T>, t: seq<seq<T>>, r: nat)
    requires Wide(c.R, t) && r < |t|
    ensures AfterSendLeft(c.R, t)[r][..c.R] == t[r][..c.R]
  {
    assert AfterSendLeft(c.R, t)[r] == Borrow(c.R, t, r);
  }

  /** Likewise for an end that is given back. */
  lemma {:induction false} ReturnedEndKept<T>(c: Config<T>, b: seq<seq<T>>, r: nat)
    requires Wide(c.R, b) && r < |b|
    ensures |AfterSendRight(c.R, b)[r]| == |b[r]| >= 2 * c.R
    ensures AfterSendRight(c.R, b)[r][|b[r]| - c.R..] == b[r][|b[r]| - c.R..]
  {
    assert AfterSendRight(c.R, b)[r] == GiveBack(c.R, b, r);
  }

  lemma {:induction false} TakeLeftKeeps<T>(c: Config<T>, t: seq<seq<T>>, k: nat, s: State<T>, b: nat)
    requires InRound(c, t, k, s) && Enabled(c, s, TakeLeft(b))
    ensures InRound(c, t, k, Apply(c, s, TakeLeft(b)))
  {
    hide SortFrom, SortUpTo, Borrow, GiveBack, AfterSendLeft, AfterSendRight, AfterSortWindow, Round;
    var s' := Apply(c, s, TakeLeft(b));
    LentHeadKept(c, t, b + 1);
    assert LeftOk(c, t, k, s, b) && RankOk(c, t, k, s, b + 1);
    forall q | 0 <= q < |t| ensures RankOk(c, t, k, s', q) { assert RankOk(c, t, k, s, q); }
    forall q | 0 <= q < |t| - 1 ensures LeftOk(c, t, k, s', q) { assert LeftOk(c, t, k, s, q); }
    forall q | 0 <= q < |t| - 1 ensures RightOk(c, t, k, s', q) { assert RightOk(c, t, k, s, q); }
  }

  lemma {:induction false} TakeRightOthers<T>(c: Config<T>, t: seq<seq<T>>, k: nat, s: State<T>, b: nat)
    requires InRound(c, t, k, s) && Enabled(c, s, TakeRight(b)) && Shaped(c, Apply(c, s, TakeRight(b)))
    ensures forall q :: 0 <= q < |t| ==> RankOk(c, t, k, Apply(c, s, TakeRight(b)), q)
    ensures forall q :: 0 <= q < |t| - 1 ==> LeftOk(c, t, k, Apply(c, s, TakeRight(b)), q)
  {
    hide SortFrom, SortUpTo, Borrow, GiveBack, AfterSendLeft, AfterSendRight, AfterSortWindow, Round, Wide;
    var s' := Apply(c, s, TakeRight(b));
    assert RightOk(c, t, k, s, b) && RankOk(c, t, k, s, b);
    forall q | 0 <= q < |t| ensures RankOk(c, t, k, s', q) { assert RankOk(c, t, k, s, q); }
    forall q | 0 <= q < |t| - 1 ensures LeftOk(c, t, k, s', q) { assert LeftOk(c, t, k, s, q); }
  }

  lemma {:induction false} TakeRightKeeps<T>(c: Config<T>, t: seq<seq<T>>, k: nat, s: State<T>, b: nat)
    requires InRound(c, t, k, s) && Enabled(c, s, TakeRight(b))
    ensures InRound(c, t, k, Apply(c, s, TakeRight(b)))
  {
    hide SortFrom, SortUpTo, Borrow, GiveBack, AfterSendLeft, AfterSendRight, AfterSortWindow, Round;
    ApplyShaped(c, t, k, s, TakeRight(b));
    TakeRightOthers(c, t, k, s, b);
    TakeRightRights(c, t, k, s, b);
    hide RankOk, LeftOk, RightOk;
  }

  lemma {:induction false} TakeRightRights<T>(c: Config<T>, t: seq<seq<T>>, k: nat, s: State<T>, b: nat)
    requires InRound(c, t, k, s) && Enabled(c, s, TakeRight(b)) && Shaped(c, Apply(c, s, TakeRight(b)))
    ensures forall q :: 0 <= q < |t| - 1 ==> RightOk(c, t, k, Apply(c, s, TakeRight(b)), q)
  {
    hide SortFrom, SortUpTo, Borrow, GiveBack, AfterSendLeft, AfterSendRight, AfterSortWindow, Round;
    var s' := Apply(c, s, TakeRight(b));
    ReturnedEndKept(c, AfterSortWindow(c.less, c.R, AfterSendLeft(c.R, t)), b);
    assert RightOk(c, t, k, s, b) && RankOk(c, t, k, s, b);
    forall q | 0 <= q < |t| - 1 ensures RightOk(c, t, k, s', q) { assert RightOk(c, t, k, s, q); }
  }

  lemma {:induction false} BorrowAt<T>(c: Config<T>, t: seq<seq<T>>, r: nat)
    requires Wide(c.R, t) && r + 1 < |t|
    ensures AfterSendLeft(c.R, t)[r] == t[r][..|t[r]| - c.R] + t[r + 1][..c.R]
  {
  }

  lemma {:induction false} ReturnAt<T>(c: Config<T>, t: seq<seq<T>>, r: nat)
    requires Wide(c.R, t) && r + 1 < |t|
    ensures var b := AfterSortWindow(c.less, c.R, AfterSendLeft(c.R, t));
            AfterSendRight(c.R, b)[r + 1] == b[r][|b[r]| - c.R..] + b[r + 1][c.R..]
  {
    hide AfterSendLeft, AfterSortWindow;
    var b := AfterSortWindow(c.less, c.R, AfterSendLeft(c.R, t));
    assert AfterSendRight(c.R, b)[r + 1] == GiveBack(c.R, b, r + 1);
  }

  lemma {:induction false} PutLeftKeeps<T>(c: Config<T>, t: seq<seq<T>>, k: nat, s: State<T>, b: nat)
    requires InRound(c, t, k, s) && Enabled(c, s, PutLeft(b))
    ensures InRound(c, t, k, Apply(c, s, PutLeft(b)))
  {
    hide SortFrom, SortUpTo, Borrow, GiveBack, AfterSendLeft, AfterSendRight, AfterSortWindow, Round;
    var s' := Apply(c, s, PutLeft(b));
    BorrowAt(c, t, b);
    assert LeftOk(c, t, k, s, b) && RankOk(c, t, k, s, b);
    ApplyShaped(c, t, k, s, PutLeft(b));
    forall q | 0 <= q < |t| ensures RankOk(c, t, k, s', q) { assert RankOk(c, t, k, s, q); }
    forall q | 0 <= q < |t| - 1 ensures LeftOk(c, t, k, s', q) { assert LeftOk(c, t, k, s, q); }
    forall q | 0 <= q < |t| - 1 ensures RightOk(c, t, k, s', q) { assert RightOk(c, t, k, s, q); }
  }

  lemma {:induction false} PutRightOthers<T>(c: Config<T>, t: seq<seq<T>>, k: nat, s: State<T>, b: nat)
    requires InRound(c, t, k, s) && Enabled(c, s, PutRight(b)) && Shaped(c, Apply(c, s, PutRight(b)))
    ensures forall q :: 0 <= q < |t| ==> RankOk(c, t, k, Apply(c, s, PutRight(b)), q)
    ensures forall q :: 0 <= q < |t| - 1 ==> LeftOk(c, t, k, Apply(c, s, PutRight(b)), q)
  {
    hide SortFrom, SortUpTo, Borrow, GiveBack, AfterSendLeft, AfterSendRight, AfterSortWindow, Round, Wide;
    var s' := Apply(c, s, PutRight(b));
    ReturnAt(c, t, b);
    assert RightOk(c, t, k, s, b) && RankOk(c, t, k, s, b + 1);
    forall q | 0 <= q < |t| ensures RankOk(c, t, k, s', q) { assert RankOk(c, t, k, s, q); }
    forall q | 0 <= q < |t| - 1 ensures LeftOk(c, t, k, s', q) { assert LeftOk(c, t, k, s, q); }
  }

  lemma {:induction false} PutRightKeeps<T>(c: Config<T>, t: seq<seq<T>>, k: nat, s: State<T>, b: nat)
    requires InRound(c, t, k, s) && Enabled(c, s, PutRight(b))
    ensures InRound(c, t, k, Apply(c, s, PutRight(b)))
  {
    hide SortFrom, SortUpTo, Borrow, GiveBack, AfterSendLeft, AfterSendRight, AfterSortWindow, Round;
    var s' := Apply(c, s, PutRight(b));
    ReturnAt(c, t, b);
    assert RightOk(c, t, k, s, b) && RankOk(c, t, k, s, b + 1);
    ApplyShaped(c, t, k, s, PutRight(b));
    PutRightOthers(c, t, k, s, b);
    forall q | 0 <= q < |t| - 1 ensures RightOk(c, t, k, s', q) { assert RightOk(c, t, k, s, q); }
  }

  /** The all-reduce is only reached with the lock-step buffers in place, and
      opens the next round on them. */
  lemma {:induction false} AllReduceKeeps<T>(c: Config<T>, t: seq<seq<T>>, k: nat, s: State<T>)
    requires InRound(c, t, k, s) && Enabled(c, s, AllReduce)
    ensures s.temp1 == Round(c.less, c.R, t) && s.temp2 == t
    ensures InRound(c, Round(c.less, c.R, t), k + 1, Apply(c, s, AllReduce))
  {
    hide SortFrom, SortUpTo, Borrow, GiveBack, AfterSendLeft, AfterSendRight, AfterSortWindow, Round, Owned;
    var s', u, k' := Apply(c, s, AllReduce), Round(c.less, c.R, t), k + 1;
    forall q | 0 <= q < |t| ensures s.temp1[q] == u[q] && s.temp2[q] == t[q] { assert RankOk(c, t, k, s, q); }
    forall q | 0 <= q < |t| ensures RankOk(c, u, k', s', q) {
      if q + 1 < |t| { assert LeftOk(c, t, k, s, q); }
    }
    forall q | 0 <= q < |t| - 1 ensures LeftOk(c, u, k', s', q) { assert LeftOk(c, t, k, s, q); }
    forall q | 0 <= q < |t| - 1 ensures RightOk(c, u, k', s', q) { assert RightOk(c, t, k, s, q); }
  }

  lemma {:induction false} ActionKeeps<T>(c: Config<T>, t: seq<seq<T>>, k: nat, s: State<T>, a: Action)
    requires InRound(c, t, k, s) && Enabled(c, s, a) && !a.AllReduce?
    ensures InRound(c, t, k, Apply(c, s, a))
  {
    hide InRound, Enabled, Apply;
    match a
    case Step(r) => StepKeeps(c, t, k, s, r);
    case TakeLeft(b) => TakeLeftKeeps(c, t, k, s, b);
    case PutLeft(b) => PutLeftKeeps(c, t, k, s, b);
    case TakeRight(b) => TakeRightKeeps(c, t, k, s, b);
    case PutRight(b) => PutRightKeeps(c, t, k, s, b);
    case _ =>
  }

  lemma {:induction false} StepKeeps<T>(c: Config<T>, t: seq<seq<T>>, k: nat, s: State<T>, r: nat)
    requires InRound(c, t, k, s) && Enabled(c, s, Step(r))
    ensures InRound(c, t, k, Apply(c, s, Step(r)))
  {
    hide Execute, RankOk, LeftOk, RightOk;
    ApplyShaped(c, t, k, s, Step(r));
    StepRank(c, t, k, s, r);
    StepOthers(c, t, k, s, r);
    assert |Apply(c, s, Step(r)).pc| == |t|;
  }

  // ------------------------------------------------------- reachable states

  /** After any run: `Reductions` full rounds have been made in lock step, none of
      them but a final one without change, and the next one is under way. */
  ghost predicate Reached<T>(c: Config<T>, t0: seq<seq<T>>, k: nat, s: State<T>) {
    && Wide(c.R, t0) && |t0| > 1
    && InRound(c, Rounds(c.less, c.R, t0, k), k, s)
    && if s.finished then StopsAfter(c.less, c.R, t0, k) && s.temp1 == Rounds(c.less, c.R, t0, k)
       else AllChange(c.less, c.R, t0, k)
  }

  lemma {:induction false} ReduceVerdict<T>(c: Config<T>, t: seq<seq<T>>, k: nat, s: State<T>)
    requires InRound(c, t, k, s) && Enabled(c, s, AllReduce)
    ensures var s' := Apply(c, s, AllReduce); var u := Round(c.less, c.R, t);
            && InRound(c, u, k + 1, s')
            && s'.temp1 == u
            && (s'.finished <==> Owned(c.R, u) == Owned(c.R, t))
  {
    hide InRound, Round, Owned;
    AllReduceKeeps(c, t, k, s);
  }

  lemma {:induction false} ReachedReduce<T>(c: Config<T>, t0: seq<seq<T>>, k: nat, s: State<T>)
    requires Reached(c, t0, k, s) && Enabled(c, s, AllReduce)
    ensures Reached(c, t0, k + 1, Apply(c, s, AllReduce))
  {
    hide InRound, Enabled, Apply, Round, Wide, Owned, Changes, AllChange, StopsAfter;
    var t := Rounds(c.less, c.R, t0, k);
    assert AllChange(c.less, c.R, t0, k) by { RunningNotDone(c, s, AllReduce); }
    ReduceVerdict(c, t, k, s);
    VerdictMeaning(c, t0, k);
    assert Rounds(c.less, c.R, t0, k + 1) == Round(c.less, c.R, t);
  }

  lemma {:induction false} VerdictMeaning<T>(c: Config<T>, t0: seq<seq<T>>, k: nat)
    requires Wide(c.R, t0) && AllChange(c.less, c.R, t0, k)
    ensures var t := Rounds(c.less, c.R, t0, k);
            if Owned(c.R, Round(c.less, c.R, t)) == Owned(c.R, t)
            then StopsAfter(c.less, c.R, t0, k + 1) else AllChange(c.less, c.R, t0, k + 1)
  {
    hide Owned, Round;
  }

  lemma {:induction false} ReachedOther<T>(c: Config<T>, t0: seq<seq<T>>, k: nat, s: State<T>, a: Action)
    requires Reached(c, t0, k, s) && Enabled(c, s, a) && !a.AllReduce?
    ensures Reached(c, t0, k, Apply(c, s, a))
  {
    RunningNotDone(c, s, a);
    hide InRound, Enabled, Apply, Rounds, Wide, AllChange, StopsAfter;
    ActionKeeps(c, Rounds(c.less, c.R, t0, k), k, s, a);
  }

  lemma {:induction false} ReachedNext<T>(c: Config<T>, t0: seq<seq<T>>, k: nat, s: State<T>, a: Action)
    requires Reached(c, t0, k, s) && Enabled(c, s, a)
    ensures Reached(c, t0, if a.AllReduce? then k + 1 else k, Apply(c, s, a))
  {
    hide *;
    if a.AllReduce? {
      assert a == AllReduce;
      ReachedReduce(c, t0, k, s);
    } else {
      ReachedOther(c, t0, k, s, a);
    }
  }

  lemma {:induction false} RunningNotDone<T>(c: Config<T>, s: State<T>, a: Action)
    requires Enabled(c, s, a)
    ensures !s.finished && (!a.AllReduce? ==> !Apply(c, s, a).finished)
  {
  }

  lemma {:induction false} InitialReached<T>(c: Config<T>, blocks: seq<seq<T>>)
    requires |blocks| > 1 && Wide(c.R, Loaded(c, blocks))
    ensures Reached(c, Loaded(c, blocks), 0, Initial(c, blocks))
  {
  }

  lemma {:induction false} RunReached<T>(c: Config<T>, blocks: seq<seq<T>>, acts: seq<Action>)
    requires |blocks| > 1 && Wide(c.R, Loaded(c, blocks))
    requires CanRun(c, Initial(c, blocks), acts)
    ensures Reached(c, Loaded(c, blocks), Reductions(acts), Exec(c, Initial(c, blocks), acts))
    decreases |acts|
  {
    hide *;
    if acts == [] {
      InitialReached(c, blocks);
      RunEmpty(c, Initial(c, blocks));
    } else {
      var before, last := acts[..|acts| - 1], acts[|acts| - 1];
      RunUnfolds(c, Initial(c, blocks), acts);
      RunReached(c, blocks, before);
      ReachedNext(c, Loaded(c, blocks), Reductions(before), Exec(c, Initial(c, blocks), before), last);
    }
  }

  lemma {:induction false} RunEmpty<T>(c: Config<T>, s: State<T>)
    ensures CanRun(c, s, []) && Exec(c, s, []) == s && Reductions([]) == 0
  {
  }

  lemma {:induction false} RunUnfolds<T>(c: Config<T>, s: State<T>, acts: seq<Action>)
    requires acts != [] && CanRun(c, s, acts)
    ensures var before, last := acts[..|acts| - 1], acts[|acts| - 1];
            && CanRun(c, s, before)
            && Enabled(c, Exec(c, s, before), last)
            && Exec(c, s, acts) == Apply(c, Exec(c, s, before), last)
            && Reductions(acts) == if last.AllReduce? then Reductions(before) + 1 else Reductions(before)
  {
    hide Enabled, Apply;
  }
}
