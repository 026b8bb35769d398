/**
 `sortP` as it really runs. Parameters are not sent from the live structure: a
 region is staged in `sprm`, its four vectors go out as four non-blocking sends
 with one tag, four non-blocking receives fill the vectors of `rprm`, and the rows
 are copied back after the waits. A receive names the vector it fills, a message
 does not: that the vectors end up where they belong rests on the in-order delivery
 per source and tag of section 3.5 of MPI 3.1.
 */
module ParamProtocol {
  import opened Sorting
  import opened NearestNeighbour
  import opened TraceNumbers
  import P = SortProtocol

  /* Where a rank is in the code of one round. */
  const SNAPSHOT: nat := 0         // temp2 = temp1
  const STAGE_LEFT: nat := 1       // sendLeft: sprm and rprm, cpyPrm of the first regionSz rows
  const SEND_LEFT: nat := 2        // sendLeft: four MPI_Isend, statements 2 to 5
  const BORROW: nat := 6           // sendLeft: four MPI_Irecv, statements 6 to 9
  const WAIT_BORROW: nat := 10     // sendLeft: Wait(rrcv, ...)
  const WAIT_SENT_LEFT: nat := 11  // sendLeft: Wait(..., rsnd)
  const UNSTAGE_LEFT: nat := 12    // sendLeft: cpyPrm into the last regionSz rows
  const SORT_WINDOW: nat := 13     // sort by index from edge1, through temp3
  const OPEN_RIGHT: nat := 14      // sendRight: sprm and rprm
  const RETURN: nat := 15          // sendRight: four MPI_Irecv, statements 15 to 18
  const STAGE_RIGHT: nat := 19     // sendRight: cpyPrm of the last regionSz rows
  const SEND_RIGHT: nat := 20      // sendRight: four MPI_Isend, statements 20 to 23
  const WAIT_SENT_RIGHT: nat := 24 // sendRight: Wait(rsnd, ...)
  const WAIT_RETURN: nat := 25     // sendRight: Wait(..., rrcv)
  const UNSTAGE_RIGHT: nat := 26   // sendRight: cpyPrm into the first regionSz rows
  const SORT_OWNED: nat := 27      // sort by index up to edge2, through temp3
  const VOTE: nat := 28            // MPI_Allreduce

  /** What the protocol knows of parameters: how rows are ordered and numbered, and
      how rows become four vectors and vectors rows. */
  datatype Setting<!T, !M> = Setting(
    base: P.Config<T>,
    gtn: T -> nat,
    proper: T -> bool,
    column: (seq<T>, nat) -> M,
    rows: seq<M> -> seq<T>,
    none: M)

  function Vectors<T, M>(c: Setting<T, M>, region: seq<T>): (v: seq<M>)
    ensures |v| == 4 && forall j :: 0 <= j < 4 ==> v[j] == c.column(region, j)
  {
    [c.column(region, 0), c.column(region, 1), c.column(region, 2), c.column(region, 3)]
  }

  ghost predicate Proper<T, M>(c: Setting<T, M>, s: seq<T>) {
    forall i :: 0 <= i < |s| ==> c.proper(s[i])
  }

  /** The four vectors of a region determine its rows. */
  ghost predicate Lossless<T(!new), M>(c: Setting<T, M>) {
    && c.proper(c.base.blank)
    && forall region: seq<T> :: |region| == c.base.R && Proper(c, region) ==> c.rows(Vectors(c, region)) == region
  }

  /** One direction across one boundary: the sender's `sprm`, the receiver's `rprm`
      and the requests between them. */
  datatype Channel<M> = Channel(
    sprm: seq<M>,
    rprm: seq<M>,
    sends: seq<nat>,    // the vector each posted send reads
    recvs: seq<nat>,    // the vector each posted receive fills
    taken: seq<M>,      // what the library has read, in order
    delivered: nat)     // how many of those have arrived

  datatype State<T, M> = State(
    finished: bool,
    pc: seq<nat>,
    temp1: seq<seq<T>>,
    temp2: seq<seq<T>>,
    left: seq<Channel<M>>,
    right: seq<Channel<M>>)

  ghost predicate Shaped<T, M>(c: Setting<T, M>, s: State<T, M>) {
    && |s.pc| == |s.temp1| == |s.temp2| >= 1
    && |s.left| == |s.right| == |s.pc| - 1
    && Wide(c.base.R, s.temp1) && Wide(c.base.R, s.temp2)
  }

  /** Only waits hold a rank up. */
  ghost predicate Unblocked<T, M>(s: State<T, M>, r: nat)
    requires |s.left| == |s.right| == |s.pc| - 1 && r < |s.pc|
  {
    && (s.pc[r] == WAIT_BORROW && r + 1 < |s.pc| ==> s.left[r].delivered == |s.left[r].recvs|)
    && (s.pc[r] == WAIT_SENT_LEFT && r > 0 ==> |s.left[r - 1].taken| == |s.left[r - 1].sends|)
    && (s.pc[r] == WAIT_SENT_RIGHT && r + 1 < |s.pc| ==> |s.right[r].taken| == |s.right[r].sends|)
    && (s.pc[r] == WAIT_RETURN && r > 0 ==> s.right[r - 1].delivered == |s.right[r - 1].recvs|)
  }

  ghost predicate Takable<M>(ch: Channel<M>) {
    |ch.taken| < |ch.sends| && ch.sends[|ch.taken|] < |ch.sprm|
  }

  ghost predicate Puttable<M>(ch: Channel<M>) {
    ch.delivered < |ch.taken| && ch.delivered < |ch.recvs| && ch.recvs[ch.delivered] < |ch.rprm|
  }

  ghost function Take<M>(ch: Channel<M>): Channel<M>
    requires Takable(ch)
  {
    ch.(taken := ch.taken + [ch.sprm[ch.sends[|ch.taken|]]])
  }

  /** The next message arrives in the vector named by the next receive. */
  ghost function Put<M>(ch: Channel<M>): Channel<M>
    requires Puttable(ch)
  {
    ch.(rprm := ch.rprm[ch.recvs[ch.delivered] := ch.taken[ch.delivered]], delivered := ch.delivered + 1)
  }

  ghost predicate Enabled<T, M>(c: Setting<T, M>, s: State<T, M>, a: P.Action) {
    && Shaped(c, s) && !s.finished
    && match a
       case Step(r) => r < |s.pc| && s.pc[r] < VOTE && Unblocked(s, r)
       case TakeLeft(b) => b < |s.left| && Takable(s.left[b])
       case PutLeft(b) => b < |s.left| && Puttable(s.left[b])
       case TakeRight(b) => b < |s.right| && Takable(s.right[b])
       case PutRight(b) => b < |s.right| && Puttable(s.right[b])
       case AllReduce => forall r :: 0 <= r < |s.pc| ==> s.pc[r] == VOTE
  }

  ghost function Empty<T, M>(c: Setting<T, M>): (v: seq<M>)
    ensures |v| == 4
  {
    [c.none, c.none, c.none, c.none]
  }

  /** The sending end of a channel: `first` is the first of its four MPI_Isend, and
      the rows are staged just before. */
  ghost function SenderMoves<M>(ch: Channel<M>, pc: nat, first: nat, v: seq<M>): Channel<M> {
    if pc + 1 == first then ch.(sprm := v)
    else if first <= pc < first + 4 then ch.(sends := ch.sends + [pc - first])
    else ch
  }

  /** The receiving end: `rprm` is made by statement `open`, and `first` is the first
      of the four MPI_Irecv. */
  ghost function ReceiverMoves<M>(ch: Channel<M>, pc: nat, open: nat, first: nat, none: seq<M>): Channel<M> {
    if pc == open then ch.(rprm := none)
    else if first <= pc < first + 4 then ch.(recvs := ch.recvs + [pc - first])
    else ch
  }

  /** The channel from rank b + 1 to rank b when rank r executes its statement. */
  ghost function LeftMoves<T, M>(c: Setting<T, M>, s: State<T, M>, r: nat, b: nat): Channel<M>
    requires Shaped(c, s) && r < |s.pc| && b < |s.left|
  {
    if b + 1 == r then SenderMoves(s.left[b], s.pc[r], SEND_LEFT, Vectors(c, s.temp1[r][..c.base.R]))
    else if b == r then ReceiverMoves(s.left[b], s.pc[r], STAGE_LEFT, BORROW, Empty(c))
    else s.left[b]
  }

  /** The channel from rank b to rank b + 1 when rank r executes its statement. */
  ghost function RightMoves<T, M>(c: Setting<T, M>, s: State<T, M>, r: nat, b: nat): Channel<M>
    requires Shaped(c, s) && r < |s.pc| && b < |s.right|
  {
    if b == r then
      SenderMoves(s.right[b], s.pc[r], SEND_RIGHT, Vectors(c, s.temp1[r][|s.temp1[r]| - c.base.R..]))
    else if b + 1 == r then ReceiverMoves(s.right[b], s.pc[r], OPEN_RIGHT, RETURN, Empty(c))
    else s.right[b]
  }

  /** The rows of rank r after its statement. */
  ghost function BufferMoves<T, M>(c: Setting<T, M>, s: State<T, M>, r: nat): seq<T>
    requires Shaped(c, s) && r < |s.pc|
  {
    var n, pc, R, buf := |s.pc|, s.pc[r], c.base.R, s.temp1[r];
    if pc == UNSTAGE_LEFT && r + 1 < n then buf[..|buf| - R] + c.rows(s.left[r].rprm)
    else if pc == SORT_WINDOW then SortFrom(c.base.less, Edge1(R, r), buf)
    else if pc == UNSTAGE_RIGHT && r > 0 then c.rows(s.right[r - 1].rprm) + buf[R..]
    else if pc == SORT_OWNED then SortUpTo(c.base.less, Edge2(R, n, r), buf)
    else buf
  }

  /** The statement of rank r. */
  ghost function Execute<T, M>(c: Setting<T, M>, s: State<T, M>, r: nat): State<T, M>
    requires Shaped(c, s) && r < |s.pc|
  {
    s.(pc := s.pc[r := s.pc[r] + 1],
       temp1 := s.temp1[r := BufferMoves(c, s, r)],
       temp2 := if s.pc[r] == SNAPSHOT then s.temp2[r := s.temp1[r]] else s.temp2,
       left := seq(|s.left|, b requires 0 <= b < |s.left| => LeftMoves(c, s, r, b)),
       right := seq(|s.right|, b requires 0 <= b < |s.right| => RightMoves(c, s, r, b)))
  }

  ghost function Apply<T, M>(c: Setting<T, M>, s: State<T, M>, a: P.Action): State<T, M>
    requires Enabled(c, s, a)
  {
    match a
    case Step(r) => Execute(c, s, r)
    case TakeLeft(b) => s.(left := s.left[b := Take(s.left[b])])
    case PutLeft(b) => s.(left := s.left[b := Put(s.left[b])])
    case TakeRight(b) => s.(right := s.right[b := Take(s.right[b])])
    case PutRight(b) => s.(right := s.right[b := Put(s.right[b])])
    case AllReduce => s.(pc := seq(|s.pc|, _ => SNAPSHOT), finished := SameNumbers(c.gtn, c.base.R, s.temp1, s.temp2))
  }

  // ------------------------------------------------------------------- runs

  ghost function Initial<T, M>(c: Setting<T, M>, blocks: seq<seq<T>>): State<T, M>
    requires |blocks| >= 1
  {
    var n, t := |blocks|, P.Loaded(c.base, blocks);
    var idle := seq(n - 1, _ => Channel([], [], [], [], [], 0));
    State(n == 1, seq(n, _ => SNAPSHOT), t, t, idle, idle)
  }

  ghost predicate CanRun<T, M>(c: Setting<T, M>, s: State<T, M>, acts: seq<P.Action>)
    decreases |acts|, 0
  {
    acts == []
    || (CanRun(c, s, acts[..|acts| - 1])
        && Enabled(c, Exec(c, s, acts[..|acts| - 1]), acts[|acts| - 1]))
  }

  ghost function Exec<T, M>(c: Setting<T, M>, s: State<T, M>, acts: seq<P.Action>): State<T, M>
    requires CanRun(c, s, acts)
    decreases |acts|, 1
  {
    if acts == [] then s else Apply(c, Exec(c, s, acts[..|acts| - 1]), acts[|acts| - 1])
  }

  // -------------------------------------------------------------- invariant

  ghost predicate AllProper<T, M>(c: Setting<T, M>, t: seq<seq<T>>) {
    forall r :: 0 <= r < |t| ==> Proper(c, t[r])
  }

  /** How many of four statements from `first` on a rank has behind it. */
  function Done(pc: nat, first: nat): (n: nat)
    ensures n <= 4
  {
    if pc <= first then 0 else if pc >= first + 4 then 4 else pc - first
  }

  ghost function Windowed<T, M>(c: Setting<T, M>, t: seq<seq<T>>): (u: seq<seq<T>>)
    requires Wide(c.base.R, t)
    ensures Wide(c.base.R, u) && |u| == |t| && forall r :: 0 <= r < |t| ==> |u[r]| == |t[r]|
  {
    AfterSortWindow(c.base.less, c.base.R, AfterSendLeft(c.base.R, t))
  }

  /** The buffer of a rank is its own: it follows from its program counter and the
      buffers `t` at the start of the round. */
  ghost predicate RankOk<T, M>(c: Setting<T, M>, t: seq<seq<T>>, s: State<T, M>, r: nat)
    requires Shaped(c, s) && Wide(c.base.R, t) && |t| == |s.pc| && r < |t|
  {
    && s.pc[r] <= VOTE
    && (s.pc[r] > SNAPSHOT ==> s.temp2[r] == t[r])
    && s.temp1[r] ==
       if s.pc[r] <= UNSTAGE_LEFT then t[r]
       else if s.pc[r] <= SORT_WINDOW then AfterSendLeft(c.base.R, t)[r]
       else if s.pc[r] <= UNSTAGE_RIGHT then Windowed(c, t)[r]
       else if s.pc[r] <= SORT_OWNED then BeforeSortOwned(c.base.less, c.base.R, t)[r]
       else Round(c.base.less, c.base.R, t)[r]
  }

  /** A channel after k full rounds, in the middle of round k + 1. */
  ghost predicate ChannelOk<M>(ch: Channel<M>, k: nat, staged: bool, posted: nat, sent: bool,
                               ready: bool, expected: nat, received: bool, v: seq<M>)
  {
    && |v| == 4 && posted <= 4 && expected <= 4
    && (staged ==> ch.sprm == v) && (posted > 0 ==> staged)
    && (ready ==> |ch.rprm| == 4) && (expected > 0 ==> ready)
    && |ch.sends| == 4 * k + posted && (forall i :: 4 * k <= i < |ch.sends| ==> ch.sends[i] == i - 4 * k)
    && |ch.recvs| == 4 * k + expected && (forall i :: 4 * k <= i < |ch.recvs| ==> ch.recvs[i] == i - 4 * k)
    && 4 * k <= ch.delivered <= |ch.taken| <= |ch.sends| && ch.delivered <= |ch.recvs|
    && (forall i :: 4 * k <= i < |ch.taken| ==> ch.taken[i] == v[i - 4 * k])
    && (forall j :: 0 <= j < ch.delivered - 4 * k ==> ch.rprm[j] == v[j])
    && (sent ==> |ch.taken| == 4 * k + 4)
    && (received ==> ch.delivered == 4 * k + 4)
  }

  ghost predicate LeftOk<T, M>(c: Setting<T, M>, t: seq<seq<T>>, k: nat, s: State<T, M>, b: nat)
    requires Shaped(c, s) && Wide(c.base.R, t) && |t| == |s.pc| && b + 1 < |t|
  {
    ChannelOk(s.left[b], k,
              s.pc[b + 1] > STAGE_LEFT, Done(s.pc[b + 1], SEND_LEFT), s.pc[b + 1] > WAIT_SENT_LEFT,
              s.pc[b] > STAGE_LEFT, Done(s.pc[b], BORROW), s.pc[b] > WAIT_BORROW,
              Vectors(c, t[b + 1][..c.base.R]))
  }

  ghost predicate RightOk<T, M>(c: Setting<T, M>, t: seq<seq<T>>, k: nat, s: State<T, M>, b: nat)
    requires Shaped(c, s) && Wide(c.base.R, t) && |t| == |s.pc| && b + 1 < |t|
  {
    var sorted := Windowed(c, t)[b];
    ChannelOk(s.right[b], k,
              s.pc[b] > STAGE_RIGHT, Done(s.pc[b], SEND_RIGHT), s.pc[b] > WAIT_SENT_RIGHT,
              s.pc[b + 1] > OPEN_RIGHT, Done(s.pc[b + 1], RETURN), s.pc[b + 1] > WAIT_RETURN,
              Vectors(c, sorted[|sorted| - c.base.R..]))
  }

  /** Mid-round: `t` are the buffers at the start of the round. */
  ghost predicate InRound<T, M>(c: Setting<T, M>, t: seq<seq<T>>, k: nat, s: State<T, M>) {
    && Shaped(c, s) && Wide(c.base.R, t) && |t| == |s.pc| && AllProper(c, t)
    && (forall r :: 0 <= r < |t| ==> RankOk(c, t, s, r))
    && (forall b :: 0 <= b < |t| - 1 ==> LeftOk(c, t, k, s, b))
    && (forall b :: 0 <= b < |t| - 1 ==> RightOk(c, t, k, s, b))
  }

  // ------------------------------------------------------------- proper rows

  lemma {:induction false} InsertMembers<T>(less: (T, T) -> bool, x: T, s: seq<T>, y: T)
    requires y in Insert(less, x, s)
    ensures y == x || y in s
  {
    if s != [] && less(s[0], x) && y != s[0] {
      InsertMembers(less, x, s[1..], y);
    }
  }

  lemma {:induction false} SortMembers<T>(less: (T, T) -> bool, s: seq<T>, y: T)
    requires y in Sort(less, s)
    ensures y in s
  {
    if s != [] {
      InsertMembers(less, s[0], Sort(less, s[1..]), y);
      if y != s[0] {
        SortMembers(less, s[1..], y);
      }
    }
  }

  lemma {:induction false} ProperMembers<T, M>(c: Setting<T, M>, s: seq<T>, from: seq<T>)
    requires Proper(c, from) && forall x :: x in s ==> x in from
    ensures Proper(c, s)
  {
    forall i | 0 <= i < |s| ensures c.proper(s[i]) {
      assert s[i] in from;
    }
  }

  lemma {:induction false} ProperSort<T, M>(c: Setting<T, M>, s: seq<T>)
    requires Proper(c, s)
    ensures Proper(c, Sort(c.base.less, s))
  {
    forall x | x in Sort(c.base.less, s) ensures x in s {
      SortMembers(c.base.less, s, x);
    }
    ProperMembers(c, Sort(c.base.less, s), s);
  }

  /** No step of a round brings in rows from elsewhere. */
  lemma {:induction false} ProperBorrowed<T, M>(c: Setting<T, M>, t: seq<seq<T>>)
    requires Wide(c.base.R, t) && AllProper(c, t)
    ensures AllProper(c, AfterSendLeft(c.base.R, t))
  {
    forall r | 0 <= r < |t| ensures Proper(c, AfterSendLeft(c.base.R, t)[r]) {
      assert AfterSendLeft(c.base.R, t)[r] == Borrow(c.base.R, t, r);
      assert Proper(c, t[r]) && (r + 1 < |t| ==> Proper(c, t[r + 1]));
    }
  }

  lemma {:induction false} ProperReturned<T, M>(c: Setting<T, M>, t: seq<seq<T>>)
    requires Wide(c.base.R, t) && AllProper(c, t)
    ensures AllProper(c, AfterSendRight(c.base.R, t))
  {
    forall r | 0 <= r < |t| ensures Proper(c, AfterSendRight(c.base.R, t)[r]) {
      assert AfterSendRight(c.base.R, t)[r] == GiveBack(c.base.R, t, r);
      assert Proper(c, t[r]) && (r > 0 ==> Proper(c, t[r - 1]));
    }
  }

  lemma {:induction false} ProperWindows<T, M>(c: Setting<T, M>, t: seq<seq<T>>)
    requires Wide(c.base.R, t) && AllProper(c, t)
    ensures AllProper(c, AfterSortWindow(c.base.less, c.base.R, t))
  {
    var u := AfterSortWindow(c.base.less, c.base.R, t);
    forall r | 0 <= r < |t| ensures Proper(c, u[r]) {
      var e := Edge1(c.base.R, r);
      assert Proper(c, t[r]);
      assert u[r] == t[r][..e] + Sort(c.base.less, t[r][e..]);
      ProperSort(c, t[r][e..]);
    }
  }

  lemma {:induction false} ProperOwned<T, M>(c: Setting<T, M>, t: seq<seq<T>>)
    requires Wide(c.base.R, t) && AllProper(c, t)
    ensures AllProper(c, AfterSortOwned(c.base.less, c.base.R, t))
  {
    var u := AfterSortOwned(c.base.less, c.base.R, t);
    forall r | 0 <= r < |t| ensures Proper(c, u[r]) {
      var e := |t[r]| - Edge2(c.base.R, |t|, r);
      assert Proper(c, t[r]);
      assert u[r] == Sort(c.base.less, t[r][..e]) + t[r][e..];
      ProperSort(c, t[r][..e]);
    }
  }

  lemma {:induction false} ProperRound<T, M>(c: Setting<T, M>, t: seq<seq<T>>)
    requires Wide(c.base.R, t) && AllProper(c, t)
    ensures AllProper(c, Windowed(c, t)) && AllProper(c, Round(c.base.less, c.base.R, t))
  {
    hide AfterSendLeft, AfterSendRight, AfterSortWindow, AfterSortOwned, AllProper;
    ProperBorrowed(c, t);
    ProperWindows(c, AfterSendLeft(c.base.R, t));
    ProperReturned(c, Windowed(c, t));
    ProperOwned(c, BeforeSortOwned(c.base.less, c.base.R, t));
  }

  // ------------------------------------------------------- one channel at a time

  lemma {:induction false} TakeOk<M>(ch: Channel<M>, k: nat, staged: bool, posted: nat, sent: bool,
                                     ready: bool, expected: nat, received: bool, v: seq<M>)
    requires ChannelOk(ch, k, staged, posted, sent, ready, expected, received, v) && Takable(ch)
    ensures ChannelOk(Take(ch), k, staged, posted, sent, ready, expected, received, v)
  {
  }

  /** In-order delivery puts every vector into its place. */
  lemma {:induction false} PutOk<M>(ch: Channel<M>, k: nat, staged: bool, posted: nat, sent: bool,
                                    ready: bool, expected: nat, received: bool, v: seq<M>)
    requires ChannelOk(ch, k, staged, posted, sent, ready, expected, received, v) && Puttable(ch)
    ensures ChannelOk(Put(ch), k, staged, posted, sent, ready, expected, received, v)
  {
    assert ch.recvs[ch.delivered] == ch.delivered - 4 * k;
  }

  lemma {:induction false} AllArrived<M>(ch: Channel<M>, k: nat, staged: bool, posted: nat, sent: bool,
                                         ready: bool, expected: nat, v: seq<M>)
    requires ChannelOk(ch, k, staged, posted, sent, ready, expected, true, v)
    ensures ch.rprm == v
  {
  }

  lemma {:induction false} NextRoundOk<M>(ch: Channel<M>, k: nat, v: seq<M>, v': seq<M>)
    requires ChannelOk(ch, k, true, 4, true, true, 4, true, v) && |v'| == 4
    ensures ChannelOk(ch, k + 1, false, 0, false, false, 0, false, v')
  {
  }

  // ------------------------------------------- every action keeps the invariant

  lemma {:induction false} TakeLeftKeeps<T, M>(c: Setting<T, M>, t: seq<seq<T>>, k: nat, s: State<T, M>, b: nat)
    requires InRound(c, t, k, s) && Enabled(c, s, P.TakeLeft(b))
    ensures InRound(c, t, k, Apply(c, s, P.TakeLeft(b)))
  {
    hide ChannelOk, AfterSendLeft, AfterSendRight, AfterSortWindow, Round, Windowed, Take, Takable, AllProper, Vectors, Done;
    var s' := Apply(c, s, P.TakeLeft(b));
    assert LeftOk(c, t, k, s, b);
    TakeOk(s.left[b], k, s.pc[b + 1] > STAGE_LEFT, Done(s.pc[b + 1], SEND_LEFT), s.pc[b + 1] > WAIT_SENT_LEFT,
           s.pc[b] > STAGE_LEFT, Done(s.pc[b], BORROW), s.pc[b] > WAIT_BORROW, Vectors(c, t[b + 1][..c.base.R]));
    forall q | 0 <= q < |t| ensures RankOk(c, t, s', q) { assert RankOk(c, t, s, q); }
    forall q | 0 <= q < |t| - 1 ensures LeftOk(c, t, k, s', q) { assert LeftOk(c, t, k, s, q); }
    forall q | 0 <= q < |t| - 1 ensures RightOk(c, t, k, s', q) { assert RightOk(c, t, k, s, q); }
  }

  lemma {:induction false} PutLeftKeeps<T, M>(c: Setting<T, M>, t: seq<seq<T>>, k: nat, s: State<T, M>, b: nat)
    requires InRound(c, t, k, s) && Enabled(c, s, P.PutLeft(b))
    ensures InRound(c, t, k, Apply(c, s, P.PutLeft(b)))
  {
    hide ChannelOk, AfterSendLeft, AfterSendRight, AfterSortWindow, Round, Windowed, Put, Puttable, AllProper, Vectors, Done;
    var s' := Apply(c, s, P.PutLeft(b));
    assert LeftOk(c, t, k, s, b);
    PutOk(s.left[b], k, s.pc[b + 1] > STAGE_LEFT, Done(s.pc[b + 1], SEND_LEFT), s.pc[b + 1] > WAIT_SENT_LEFT,
          s.pc[b] > STAGE_LEFT, Done(s.pc[b], BORROW), s.pc[b] > WAIT_BORROW, Vectors(c, t[b + 1][..c.base.R]));
    forall q | 0 <= q < |t| ensures RankOk(c, t, s', q) { assert RankOk(c, t, s, q); }
    forall q | 0 <= q < |t| - 1 ensures LeftOk(c, t, k, s', q) { assert LeftOk(c, t, k, s, q); }
    forall q | 0 <= q < |t| - 1 ensures RightOk(c, t, k, s', q) { assert RightOk(c, t, k, s, q); }
  }

  lemma {:induction false} TakeRightKeeps<T, M>(c: Setting<T, M>, t: seq<seq<T>>, k: nat, s: State<T, M>, b: nat)
    requires InRound(c, t, k, s) && Enabled(c, s, P.TakeRight(b))
    ensures InRound(c, t, k, Apply(c, s, P.TakeRight(b)))
  {
    hide ChannelOk, AfterSendLeft, AfterSendRight, AfterSortWindow, Round, Windowed, Take, Takable, AllProper, Vectors, Done;
    var s', w := Apply(c, s, P.TakeRight(b)), Windowed(c, t)[b];
    assert RightOk(c, t, k, s, b);
    TakeOk(s.right[b], k, s.pc[b] > STAGE_RIGHT, Done(s.pc[b], SEND_RIGHT), s.pc[b] > WAIT_SENT_RIGHT,
           s.pc[b + 1] > OPEN_RIGHT, Done(s.pc[b + 1], RETURN), s.pc[b + 1] > WAIT_RETURN,
           Vectors(c, w[|w| - c.base.R..]));
    forall q | 0 <= q < |t| ensures RankOk(c, t, s', q) { assert RankOk(c, t, s, q); }
    forall q | 0 <= q < |t| - 1 ensures LeftOk(c, t, k, s', q) { assert LeftOk(c, t, k, s, q); }
    forall q | 0 <= q < |t| - 1 ensures RightOk(c, t, k, s', q) { assert RightOk(c, t, k, s, q); }
  }

  lemma {:induction false} PutRightKeeps<T, M>(c: Setting<T, M>, t: seq<seq<T>>, k: nat, s: State<T, M>, b: nat)
    requires InRound(c, t, k, s) && Enabled(c, s, P.PutRight(b))
    ensures InRound(c, t, k, Apply(c, s, P.PutRight(b)))
  {
    hide ChannelOk, AfterSendLeft, AfterSendRight, AfterSortWindow, Round, Windowed, Put, Puttable, AllProper, Vectors, Done;
    var s', w := Apply(c, s, P.PutRight(b)), Windowed(c, t)[b];
    assert RightOk(c, t, k, s, b);
    PutOk(s.right[b], k, s.pc[b] > STAGE_RIGHT, Done(s.pc[b], SEND_RIGHT), s.pc[b] > WAIT_SENT_RIGHT,
          s.pc[b + 1] > OPEN_RIGHT, Done(s.pc[b + 1], RETURN), s.pc[b + 1] > WAIT_RETURN,
          Vectors(c, w[|w| - c.base.R..]));
    forall q | 0 <= q < |t| ensures RankOk(c, t, s', q) { assert RankOk(c, t, s, q); }
    forall q | 0 <= q < |t| - 1 ensures LeftOk(c, t, k, s', q) { assert LeftOk(c, t, k, s, q); }
    forall q | 0 <= q < |t| - 1 ensures RightOk(c, t, k, s', q) { assert RightOk(c, t, k, s, q); }
  }

  /** What `rprm` holds when the wait for borrowed rows is over. */
  lemma {:induction false} RowsBorrowed<T(!new), M>(c: Setting<T, M>, t: seq<seq<T>>, k: nat, s: State<T, M>, r: nat)
    requires InRound(c, t, k, s) && Lossless(c) && r + 1 < |t| && s.pc[r] == UNSTAGE_LEFT
    ensures t[r][..|t[r]| - c.base.R] + c.rows(s.left[r].rprm) == AfterSendLeft(c.base.R, t)[r]
  {
    hide ChannelOk;
    assert LeftOk(c, t, k, s, r);
    var region := t[r + 1][..c.base.R];
    AllArrived(s.left[r], k, s.pc[r + 1] > STAGE_LEFT, Done(s.pc[r + 1], SEND_LEFT), s.pc[r + 1] > WAIT_SENT_LEFT,
               s.pc[r] > STAGE_LEFT, Done(s.pc[r], BORROW), Vectors(c, region));
    assert Proper(c, t[r + 1]) && Proper(c, region);
    P.BorrowAt(c.base, t, r);
  }

  lemma {:induction false} RowsReturned<T(!new), M>(c: Setting<T, M>, t: seq<seq<T>>, k: nat, s: State<T, M>, r: nat)
    requires InRound(c, t, k, s) && Lossless(c) && 0 < r < |t| && s.pc[r] == UNSTAGE_RIGHT
    ensures c.rows(s.right[r - 1].rprm) + Windowed(c, t)[r][c.base.R..] == BeforeSortOwned(c.base.less, c.base.R, t)[r]
  {
    hide ChannelOk, AfterSendLeft, AfterSortWindow, AfterSendRight;
    var b := r - 1;
    assert RightOk(c, t, k, s, b);
    var w := Windowed(c, t)[b];
    var region := w[|w| - c.base.R..];
    AllArrived(s.right[b], k, s.pc[b] > STAGE_RIGHT, Done(s.pc[b], SEND_RIGHT), s.pc[b] > WAIT_SENT_RIGHT,
               s.pc[r] > OPEN_RIGHT, Done(s.pc[r], RETURN), Vectors(c, region));
    ProperRound(c, t);
    assert Proper(c, w) && Proper(c, region);
    P.ReturnAt(c.base, t, b);
  }

  lemma {:induction false} StepBuffer<T, M>(c: Setting<T, M>, t: seq<seq<T>>, s: State<T, M>, r: nat)
    requires Enabled(c, s, P.Step(r)) && Wide(c.base.R, t) && |t| == |s.pc| && RankOk(c, t, s, r)
    requires s.pc[r] == UNSTAGE_LEFT ==>
               AfterSendLeft(c.base.R, t)[r] == if r + 1 < |t| then t[r][..|t[r]| - c.base.R] + c.rows(s.left[r].rprm) else t[r]
    requires s.pc[r] == UNSTAGE_RIGHT ==>
               BeforeSortOwned(c.base.less, c.base.R, t)[r] ==
               if r > 0 then c.rows(s.right[r - 1].rprm) + Windowed(c, t)[r][c.base.R..] else Windowed(c, t)[r]
    ensures Shaped(c, Apply(c, s, P.Step(r))) && RankOk(c, t, Apply(c, s, P.Step(r)), r)
  {
    hide AfterSendLeft, AfterSendRight, SortFrom, SortUpTo, Borrow, GiveBack, LeftMoves, RightMoves;
  }

  /** A rank's own statements keep its buffer in step. */
  lemma {:induction false} StepRank<T(!new), M>(c: Setting<T, M>, t: seq<seq<T>>, k: nat, s: State<T, M>, r: nat)
    requires InRound(c, t, k, s) && Lossless(c) && Enabled(c, s, P.Step(r))
    ensures Shaped(c, Apply(c, s, P.Step(r))) && RankOk(c, t, Apply(c, s, P.Step(r)), r)
  {
    assert RankOk(c, t, s, r);
    if s.pc[r] == UNSTAGE_LEFT {
      if r + 1 < |t| {
        RowsBorrowed(c, t, k, s, r);
      } else {
        P.LastBorrowsNothing(c.base, t);
      }
    }
    if s.pc[r] == UNSTAGE_RIGHT {
      if r > 0 {
        RowsReturned(c, t, k, s, r);
      } else {
        P.FirstGetsNothing(c.base, t);
      }
    }
    hide Borrow, GiveBack, SortFrom, SortUpTo, LeftOk, RightOk, Lossless, AllProper, Vectors, Proper;
    StepBuffer(c, t, s, r);
  }

  /** A statement of one end of a channel. */
  lemma {:induction false} SenderStep<M>(ch: Channel<M>, k: nat, pc: nat, first: nat, wait: nat,
                                         ready: bool, expected: nat, received: bool, v: seq<M>)
    requires first >= 1 && first + 4 <= wait
    requires ChannelOk(ch, k, pc > first - 1, Done(pc, first), pc > wait, ready, expected, received, v)
    requires pc == wait ==> |ch.taken| == |ch.sends|
    ensures ChannelOk(SenderMoves(ch, pc, first, v), k, pc + 1 > first - 1, Done(pc + 1, first), pc + 1 > wait,
                      ready, expected, received, v)
  {
  }

  lemma {:induction false} ReceiverStep<M>(ch: Channel<M>, k: nat, pc: nat, open: nat, first: nat, wait: nat,
                                           staged: bool, posted: nat, sent: bool, v: seq<M>, none: seq<M>)
    requires open < first && first + 4 <= wait && |none| == 4
    requires ChannelOk(ch, k, staged, posted, sent, pc > open, Done(pc, first), pc > wait, v)
    requires pc == wait ==> ch.delivered == |ch.recvs|
    ensures ChannelOk(ReceiverMoves(ch, pc, open, first, none), k, staged, posted, sent,
                      pc + 1 > open, Done(pc + 1, first), pc + 1 > wait, v)
  {
  }

  lemma {:induction false} StepLeft<T, M>(c: Setting<T, M>, t: seq<seq<T>>, k: nat, s: State<T, M>, r: nat, b: nat)
    requires InRound(c, t, k, s) && Enabled(c, s, P.Step(r)) && Shaped(c, Execute(c, s, r)) && b + 1 < |t|
    ensures LeftOk(c, t, k, Execute(c, s, r), b)
  {
    hide ChannelOk, AfterSendLeft, AfterSendRight, AfterSortWindow, Round, Windowed, AllProper, Vectors, Done,
      BufferMoves, RightMoves, SenderMoves, ReceiverMoves, Empty, RightOk;
    var v := Vectors(c, t[b + 1][..c.base.R]);
    assert LeftOk(c, t, k, s, b) && RankOk(c, t, s, r);
    if b + 1 == r {
      SenderStep(s.left[b], k, s.pc[r], SEND_LEFT, WAIT_SENT_LEFT,
                 s.pc[b] > STAGE_LEFT, Done(s.pc[b], BORROW), s.pc[b] > WAIT_BORROW, v);
      SenderOnlyStages(s.left[b], s.pc[r], SEND_LEFT, v, Vectors(c, s.temp1[r][..c.base.R]));
    } else if b == r {
      ReceiverStep(s.left[b], k, s.pc[r], STAGE_LEFT, BORROW, WAIT_BORROW,
                   s.pc[b + 1] > STAGE_LEFT, Done(s.pc[b + 1], SEND_LEFT), s.pc[b + 1] > WAIT_SENT_LEFT, v, Empty(c));
    }
  }

  lemma {:induction false} SenderOnlyStages<M>(ch: Channel<M>, pc: nat, first: nat, v: seq<M>, w: seq<M>)
    requires pc + 1 == first ==> v == w
    ensures SenderMoves(ch, pc, first, v) == SenderMoves(ch, pc, first, w)
  {
  }

  lemma {:induction false} StepRight<T, M>(c: Setting<T, M>, t: seq<seq<T>>, k: nat, s: State<T, M>, r: nat, b: nat)
    requires InRound(c, t, k, s) && Enabled(c, s, P.Step(r)) && Shaped(c, Execute(c, s, r)) && b + 1 < |t|
    ensures RightOk(c, t, k, Execute(c, s, r), b)
  {
    hide ChannelOk, AfterSendLeft, AfterSendRight, AfterSortWindow, Round, Windowed, AllProper, Vectors, Done,
      BufferMoves, LeftMoves, SenderMoves, ReceiverMoves, Empty, LeftOk;
    var w, buf := Windowed(c, t)[b], s.temp1[r];
    var v := Vectors(c, w[|w| - c.base.R..]);
    assert RightOk(c, t, k, s, b) && RankOk(c, t, s, r);
    if b == r {
      SenderStep(s.right[b], k, s.pc[r], SEND_RIGHT, WAIT_SENT_RIGHT,
                 s.pc[b + 1] > OPEN_RIGHT, Done(s.pc[b + 1], RETURN), s.pc[b + 1] > WAIT_RETURN, v);
      SenderOnlyStages(s.right[b], s.pc[r], SEND_RIGHT, v, Vectors(c, buf[|buf| - c.base.R..]));
    } else if b + 1 == r {
      ReceiverStep(s.right[b], k, s.pc[r], OPEN_RIGHT, RETURN, WAIT_RETURN,
                   s.pc[b] > STAGE_RIGHT, Done(s.pc[b], SEND_RIGHT), s.pc[b] > WAIT_SENT_RIGHT, v, Empty(c));
    }
  }

  lemma {:induction false} OtherRank<T(!new), M>(c: Setting<T, M>, t: seq<seq<T>>, s: State<T, M>, r: nat, q: nat)
    requires Shaped(c, s) && Wide(c.base.R, t) && |t| == |s.pc| && r < |t| && q < |t| && q != r && RankOk(c, t, s, q)
    requires Shaped(c, Execute(c, s, r))
    ensures RankOk(c, t, Execute(c, s, r), q)
  {
    hide Round, Windowed, AfterSendLeft, BufferMoves, LeftMoves, RightMoves;
  }

  lemma {:induction false} StepKeeps<T(!new), M>(c: Setting<T, M>, t: seq<seq<T>>, k: nat, s: State<T, M>, r: nat)
    requires InRound(c, t, k, s) && Lossless(c) && Enabled(c, s, P.Step(r))
    ensures InRound(c, t, k, Apply(c, s, P.Step(r)))
  {
    StepRank(c, t, k, s, r);
    hide LeftOk, RightOk, AllProper, AfterSendLeft, AfterSendRight, AfterSortWindow, Round, Windowed, Vectors, Lossless,
      LeftMoves, RightMoves, BufferMoves, Unblocked;
    var s' := Execute(c, s, r);
    forall q | 0 <= q < |t| ensures RankOk(c, t, s', q) {
      if q != r { OtherRank(c, t, s, r, q); }
    }
    hide Execute, RankOk;
    forall b | 0 <= b < |t| - 1 ensures LeftOk(c, t, k, s', b) { StepLeft(c, t, k, s, r, b); }
    forall b | 0 <= b < |t| - 1 ensures RightOk(c, t, k, s', b) { StepRight(c, t, k, s, r, b); }
  }

  lemma {:induction false} ActionKeeps<T(!new), M>(c: Setting<T, M>, t: seq<seq<T>>, k: nat, s: State<T, M>, a: P.Action)
    requires InRound(c, t, k, s) && Lossless(c) && Enabled(c, s, a) && !a.AllReduce?
    ensures InRound(c, t, k, Apply(c, s, a))
  {
    hide *;
    match a
    case Step(r) => StepKeeps(c, t, k, s, r);
    case TakeLeft(b) => TakeLeftKeeps(c, t, k, s, b);
    case PutLeft(b) => PutLeftKeeps(c, t, k, s, b);
    case TakeRight(b) => TakeRightKeeps(c, t, k, s, b);
    case PutRight(b) => PutRightKeeps(c, t, k, s, b);
    case _ =>
  }

  /** The reduction is only reached with the lock-step buffers in place, and opens
      the next round on them. */
  lemma {:induction false} AllReduceKeeps<T, M>(c: Setting<T, M>, t: seq<seq<T>>, k: nat, s: State<T, M>)
    requires InRound(c, t, k, s) && Enabled(c, s, P.AllReduce)
    ensures s.temp1 == Round(c.base.less, c.base.R, t) && s.temp2 == t
    ensures InRound(c, Round(c.base.less, c.base.R, t), k + 1, Apply(c, s, P.AllReduce))
  {
    hide ChannelOk, AfterSendLeft, AfterSendRight, AfterSortWindow, Round, Windowed, AllProper, Vectors, SortFrom, SortUpTo, SameNumbers, Owned;
    var s', u, R, k' := Apply(c, s, P.AllReduce), Round(c.base.less, c.base.R, t), c.base.R, k + 1;
    ProperRound(c, t);
    forall q | 0 <= q < |t| ensures s.temp1[q] == u[q] && s.temp2[q] == t[q] { assert RankOk(c, t, s, q); }
    forall q | 0 <= q < |t| ensures RankOk(c, u, s', q) {}
    forall b | 0 <= b < |t| - 1 ensures LeftOk(c, u, k', s', b) {
      assert LeftOk(c, t, k, s, b);
      NextRoundOk(s.left[b], k, Vectors(c, t[b + 1][..R]), Vectors(c, u[b + 1][..R]));
    }
    forall b | 0 <= b < |t| - 1 ensures RightOk(c, u, k', s', b) {
      assert RightOk(c, t, k, s, b);
      var w, w' := Windowed(c, t)[b], Windowed(c, u)[b];
      NextRoundOk(s.right[b], k, Vectors(c, w[|w| - R..]), Vectors(c, w'[|w'| - R..]));
    }
  }
}
