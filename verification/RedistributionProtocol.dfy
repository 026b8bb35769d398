/**
 `distribToDistrib` as a state machine: sends and receives are posted on the vector
 itself, so that data is read out of it and written into it at any time between the
 posting and the wait, in any order over the ranks.
 */
module RedistributionProtocol {
  import opened Blocks
  import opened Bytes
  import opened Decomposition
  import opened Redistribution

  datatype Phase = Begun | Posted | Ended

  /** A message: not yet read from the sender's vector, on its way, or stored. */
  datatype Mail = Waiting | Flying(bytes: seq<Byte>) | Landed

  /** `left[r]` goes from rank r to the rank below it, `right[r]` to the one above. */
  datatype State = State(vec: seq<seq<Byte>>, phase: seq<Phase>, left: seq<Mail>, right: seq<Mail>)

  datatype Job = Job(oldd: seq<Extent>, newd: seq<Extent>)

  datatype Action =
    | Post(r: nat)
    | ReadLeft(r: nat)
    | ReadRight(r: nat)
    | StoreFront(r: nat)
    | StoreBack(r: nat)
    | Finish(r: nat)

  ghost predicate Proper(c: Job, data: seq<Byte>) {
    |c.oldd| == |c.newd| && Tile(c.oldd, |data|) && Tile(c.newd, |data|) && Near(c.oldd, c.newd)
  }

  ghost predicate Shaped(c: Job, s: State) {
    |s.vec| == |s.phase| == |s.left| == |s.right| == |c.oldd| == |c.newd|
  }

  predicate SendsLeft(oldd: Extent, newd: Extent) {
    oldd.first < newd.first
  }

  predicate SendsRight(oldd: Extent, newd: Extent) {
    End(oldd) > End(newd)
  }

  /** What comes from the rank below, and from the rank above. */
  ghost function Front(c: Job, s: State, r: nat): Mail
    requires Shaped(c, s) && r < |c.oldd|
  {
    if r > 0 then s.right[r - 1] else Waiting
  }

  ghost function Back(c: Job, s: State, r: nat): Mail
    requires Shaped(c, s) && r < |c.oldd|
  {
    if r + 1 < |c.oldd| then s.left[r + 1] else Waiting
  }

  /** The rank can take the step: what it waits for has happened. */
  ghost predicate Ready(c: Job, s: State, a: Action) {
    && Shaped(c, s) && a.r < |c.oldd|
    && var o, e := c.oldd[a.r], c.newd[a.r];
       match a
       case Post(r) => s.phase[r] == Begun
       case ReadLeft(r) => s.phase[r] == Posted && SendsLeft(o, e) && s.left[r] == Waiting
       case ReadRight(r) => s.phase[r] == Posted && SendsRight(o, e) && s.right[r] == Waiting
       case StoreFront(r) => s.phase[r] == Posted && o.first > e.first && Front(c, s, r).Flying?
       case StoreBack(r) => s.phase[r] == Posted && End(o) < End(e) && Back(c, s, r).Flying?
       case Finish(r) =>
         && s.phase[r] == Posted
         && (SendsLeft(o, e) ==> s.left[r] != Waiting) && (SendsRight(o, e) ==> s.right[r] != Waiting)
         && (o.first > e.first ==> Front(c, s, r) == Landed) && (End(o) < End(e) ==> Back(c, s, r) == Landed)
  }

  /** The step touches nothing but what the vector has room for: a message is as long as
      the receive that was posted for it, and the bytes read are there. */
  ghost predicate InBounds(c: Job, s: State, a: Action)
    requires Ready(c, s, a)
  {
    var o, e, v := c.oldd[a.r], c.newd[a.r], s.vec[a.r];
    match a
    case Post(r) => |v| == o.second
    case ReadLeft(r) => r > 0 && e.first - o.first <= |v|
    case ReadRight(r) => r + 1 < |c.oldd| && End(o) - End(e) <= |v|
    case StoreFront(r) => |Front(c, s, r).bytes| == Inc(o, e) <= |v|
    case StoreBack(r) => |Back(c, s, r).bytes| == More(o, e) <= |v|
    case Finish(r) => e.first <= o.first + |v|
  }

  ghost function Apply(c: Job, s: State, a: Action): State
    requires Ready(c, s, a) && InBounds(c, s, a)
  {
    var o, e, v := c.oldd[a.r], c.newd[a.r], s.vec[a.r];
    match a
    case Post(r) => s.(vec := s.vec[r := MadeRoom(o, e, v)], phase := s.phase[r := Posted])
    case ReadLeft(r) => s.(left := s.left[r := Flying(v[..e.first - o.first])])
    case ReadRight(r) => s.(right := s.right[r := Flying(v[|v| - (End(o) - End(e))..])])
    case StoreFront(r) => s.(vec := s.vec[r := StoreLeft(o, e, v, Front(c, s, r).bytes)], right := s.right[r - 1 := Landed])
    case StoreBack(r) => s.(vec := s.vec[r := StoreRight(o, e, v, Back(c, s, r).bytes)], left := s.left[r + 1 := Landed])
    case Finish(r) => s.(vec := s.vec[r := Resize(DropHead(o, e, v), e.second)], phase := s.phase[r := Ended])
  }

  // -------------------------------------------------------------- invariant

  /** The vector of one rank, by how far it has come and what has arrived. */
  ghost predicate VecOk(data: seq<Byte>, o: Extent, e: Extent, phase: Phase, v: seq<Byte>, front: Mail, back: Mail) {
    match phase
    case Begun => Holds(data, o, v)
    case Posted =>
      && Roomy(data, o, e, v)
      && (o.first > e.first && front == Landed ==> v[..Inc(o, e)] == data[e.first..o.first])
      && (End(o) < End(e) <= |data| && back == Landed ==> v[|v| - More(o, e)..] == data[End(o)..End(e)])
    case Ended => Holds(data, e, v)
  }

  /** The messages of one rank are where its phase says. */
  ghost predicate MailOk(data: seq<Byte>, o: Extent, e: Extent, phase: Phase, left: Mail, right: Mail, front: Mail, back: Mail) {
    && (phase == Begun ==> left == right == Waiting && front != Landed && back != Landed)
    && (left != Waiting ==> SendsLeft(o, e)) && (right != Waiting ==> SendsRight(o, e))
    && (left.Flying? ==> e.first <= |data| && left.bytes == data[o.first..e.first])
    && (right.Flying? ==> End(o) <= |data| && right.bytes == data[End(e)..End(o)])
    && (phase == Ended ==>
          && (SendsLeft(o, e) ==> left != Waiting) && (SendsRight(o, e) ==> right != Waiting)
          && (o.first > e.first ==> front == Landed) && (End(o) < End(e) ==> back == Landed))
  }

  ghost predicate RankOk(c: Job, data: seq<Byte>, s: State, r: nat)
    requires Shaped(c, s) && r < |c.oldd|
  {
    && VecOk(data, c.oldd[r], c.newd[r], s.phase[r], s.vec[r], Front(c, s, r), Back(c, s, r))
    && MailOk(data, c.oldd[r], c.newd[r], s.phase[r], s.left[r], s.right[r], Front(c, s, r), Back(c, s, r))
  }

  ghost predicate Invariant(c: Job, data: seq<Byte>, s: State) {
    Proper(c, data) && Shaped(c, s) && forall r :: 0 <= r < |c.oldd| ==> RankOk(c, data, s, r)
  }

  ghost function Initial(c: Job, vecs: seq<seq<Byte>>): State {
    State(vecs, seq(|vecs|, _ => Begun), seq(|vecs|, _ => Waiting), seq(|vecs|, _ => Waiting))
  }

  lemma {:induction false} InitialOk(c: Job, data: seq<Byte>, vecs: seq<seq<Byte>>)
    requires Proper(c, data) && |vecs| == |c.oldd| && forall r :: 0 <= r < |c.oldd| ==> Holds(data, c.oldd[r], vecs[r])
    ensures Invariant(c, data, Initial(c, vecs))
  {
    hide Proper, Holds;
    ProperLong(c, data);
  }

  lemma {:induction false} ProperLong(c: Job, data: seq<Byte>)
    requires Proper(c, data)
    ensures |c.oldd| == |c.newd| > 0
  {
  }

  /** What the extents of a rank and of its neighbours have to do with each other. */
  lemma {:induction false} Neighbours(c: Job, data: seq<Byte>, r: nat)
    requires Proper(c, data) && r < |c.oldd|
    ensures |c.newd| == |c.oldd|
    ensures End(c.oldd[r]) <= |data| && End(c.newd[r]) <= |data|
    ensures c.newd[r].first <= End(c.oldd[r]) && c.oldd[r].first <= End(c.newd[r])
    ensures r == 0 ==> c.oldd[r].first == c.newd[r].first
    ensures r == |c.oldd| - 1 ==> End(c.oldd[r]) == End(c.newd[r])
    ensures r > 0 ==> End(c.oldd[r - 1]) == c.oldd[r].first && End(c.newd[r - 1]) == c.newd[r].first
    ensures r + 1 < |c.oldd| ==> End(c.oldd[r]) == c.oldd[r + 1].first && End(c.newd[r]) == c.newd[r + 1].first
  {
    RankAlone(data, c.oldd, c.newd, r);
    if r > 0 { MessagesMatch(data, c.oldd, c.newd, r); }
    if r + 1 < |c.oldd| { MessagesMatch(data, c.oldd, c.newd, r + 1); }
  }

  // -------------------------------------------------------------- one rank

  /** Whatever the schedule, every access stays inside the vector, and messages are as
      long as the receives posted for them. */
  lemma {:induction false} StepInBounds(c: Job, data: seq<Byte>, s: State, a: Action)
    requires Invariant(c, data, s) && Ready(c, s, a)
    ensures InBounds(c, s, a)
  {
    var r := a.r;
    Neighbours(c, data, r);
    assert RankOk(c, data, s, r);
    if r > 0 { assert RankOk(c, data, s, r - 1); }
    if r + 1 < |c.oldd| { assert RankOk(c, data, s, r + 1); }
    hide Proper, Invariant, Shaped, MailOk, VecOk, Holds, Roomy;
    var o, e, v := c.oldd[r], c.newd[r], s.vec[r];
    MailMeans(c, data, s, r);
    VecLong(data, o, e, s.phase[r], v, Front(c, s, r), Back(c, s, r));
  }

  lemma {:induction false} VecLong(data: seq<Byte>, o: Extent, e: Extent, phase: Phase, v: seq<Byte>, front: Mail, back: Mail)
    requires VecOk(data, o, e, phase, v, front, back)
    ensures phase == Begun ==> |v| == o.second
    ensures phase == Posted ==> |v| == Inc(o, e) + o.second + More(o, e)
  {
  }

  /** Messages that reach a rank carry what it waits for. */
  lemma {:induction false} MailMeans(c: Job, data: seq<Byte>, s: State, r: nat)
    requires Shaped(c, s) && Proper(c, data) && r < |c.oldd| && RankOk(c, data, s, r)
    requires r > 0 ==> RankOk(c, data, s, r - 1)
    requires r + 1 < |c.oldd| ==> RankOk(c, data, s, r + 1)
    ensures var o, e := c.oldd[r], c.newd[r];
            && End(o) <= |data| && End(e) <= |data|
            && (Front(c, s, r) != Waiting ==> o.first > e.first)
            && (Back(c, s, r) != Waiting ==> End(o) < End(e))
            && (Front(c, s, r).Flying? ==> Front(c, s, r).bytes == data[e.first..o.first])
            && (Back(c, s, r).Flying? ==> Back(c, s, r).bytes == data[End(o)..End(e)])
  {
    Neighbours(c, data, r);
    hide Proper, VecOk;
  }

  lemma {:induction false} RoomMade(data: seq<Byte>, o: Extent, e: Extent, v: seq<Byte>, front: Mail, back: Mail)
    requires VecOk(data, o, e, Begun, v, front, back) && front != Landed && back != Landed
    ensures VecOk(data, o, e, Posted, MadeRoom(o, e, v), front, back)
  {
    hide MadeRoom;
  }

  lemma {:induction false} FrontStored(data: seq<Byte>, o: Extent, e: Extent, v: seq<Byte>, bytes: seq<Byte>, back: Mail)
    requires End(o) <= |data| && o.first > e.first && bytes == data[e.first..o.first] && VecOk(data, o, e, Posted, v, Flying(bytes), back)
    ensures Inc(o, e) <= |v| && VecOk(data, o, e, Posted, StoreLeft(o, e, v, bytes), Landed, back)
  {
    var w := StoreLeft(o, e, v, bytes);
    assert w == bytes + v[Inc(o, e)..];
    FrontReplaced(v, bytes, Inc(o, e), o.second);
    FrontReplaced(v, bytes, |v| - More(o, e), More(o, e));
    hide Inc, More, StoreLeft;
    assert w[|w| - More(o, e)..] == w[|w| - More(o, e)..|w|] && v[|v| - More(o, e)..] == v[|v| - More(o, e)..|v|];
  }

  lemma {:induction false} FrontReplaced(v: seq<Byte>, bytes: seq<Byte>, at: nat, n: nat)
    requires |bytes| <= at && at + n <= |v|
    ensures (bytes + v[|bytes|..])[..|bytes|] == bytes && (bytes + v[|bytes|..])[at..at + n] == v[at..at + n]
  {
  }

  lemma {:induction false} BackStored(data: seq<Byte>, o: Extent, e: Extent, v: seq<Byte>, bytes: seq<Byte>, front: Mail)
    requires End(e) <= |data| && End(o) < End(e) && bytes == data[End(o)..End(e)] && VecOk(data, o, e, Posted, v, front, Flying(bytes))
    ensures More(o, e) <= |v| && VecOk(data, o, e, Posted, StoreRight(o, e, v, bytes), front, Landed)
  {
    var w := StoreRight(o, e, v, bytes);
    assert w == v[..|v| - More(o, e)] + bytes;
    BackReplaced(v, bytes, Inc(o, e), o.second);
    BackReplaced(v, bytes, 0, Inc(o, e));
    hide Inc, More, StoreRight;
    assert w[..Inc(o, e)] == w[0..0 + Inc(o, e)] && v[..Inc(o, e)] == v[0..0 + Inc(o, e)];
  }

  lemma {:induction false} BackReplaced(v: seq<Byte>, bytes: seq<Byte>, at: nat, n: nat)
    requires at + n + |bytes| <= |v|
    ensures (v[..|v| - |bytes|] + bytes)[|v| - |bytes|..] == bytes
    ensures (v[..|v| - |bytes|] + bytes)[at..at + n] == v[at..at + n]
  {
  }

  lemma {:induction false} Completed(data: seq<Byte>, o: Extent, e: Extent, v: seq<Byte>, front: Mail, back: Mail)
    requires VecOk(data, o, e, Posted, v, front, back) && End(o) <= |data| && End(e) <= |data|
    requires e.first <= End(o) && o.first <= End(e)
    requires (o.first > e.first ==> front == Landed) && (End(o) < End(e) ==> back == Landed)
    ensures e.first <= o.first + |v|
    ensures VecOk(data, o, e, Ended, Resize(DropHead(o, e, v), e.second), front, back)
  {
    VecLong(data, o, e, Posted, v, front, back);
    var fromLeft, fromRight := v[..Inc(o, e)], v[|v| - More(o, e)..];
    AlreadyStored(o, e, v);
    hide StoreLeft, StoreRight, Inc, More, Roomy, Resize, DropHead, Holds;
    Reassembled(data, o, e, v, fromLeft, fromRight);
  }

  lemma {:induction false} AlreadyStored(o: Extent, e: Extent, v: seq<Byte>)
    requires Inc(o, e) <= |v| && More(o, e) <= |v|
    ensures StoreLeft(o, e, v, v[..Inc(o, e)]) == v && StoreRight(o, e, v, v[|v| - More(o, e)..]) == v
  {
    hide Inc, More;
  }

  // -------------------------------------------------------------- all ranks

  /** Every step keeps the invariant. Ranks other than the one that acts see no more than
      a message change. */
  lemma {:induction false} StepKeeps(c: Job, data: seq<Byte>, s: State, a: Action)
    requires Invariant(c, data, s) && Ready(c, s, a) && InBounds(c, s, a)
    ensures Invariant(c, data, Apply(c, s, a))
  {
    var s' := Apply(c, s, a);
    hide Proper, RankOk;
    forall q | 0 <= q < |c.oldd| ensures RankOk(c, data, s', q) {
      assert RankOk(c, data, s, q);
      if q == a.r {
        if q > 0 { assert RankOk(c, data, s, q - 1); }
        if q + 1 < |c.oldd| { assert RankOk(c, data, s, q + 1); }
        ActorKept(c, data, s, a);
      } else {
        OtherKept(c, data, s, a, q);
      }
    }
  }

  lemma {:induction false} ActorKept(c: Job, data: seq<Byte>, s: State, a: Action)
    requires Shaped(c, s) && Proper(c, data) && Ready(c, s, a) && InBounds(c, s, a) && RankOk(c, data, s, a.r)
    requires a.r > 0 ==> RankOk(c, data, s, a.r - 1)
    requires a.r + 1 < |c.oldd| ==> RankOk(c, data, s, a.r + 1)
    ensures Shaped(c, Apply(c, s, a)) && RankOk(c, data, Apply(c, s, a), a.r)
  {
    var r, s' := a.r, Apply(c, s, a);
    var o, e := c.oldd[r], c.newd[r];
    Neighbours(c, data, r);
    MailMeans(c, data, s, r);
    assert VecOk(data, o, e, s'.phase[r], s'.vec[r], Front(c, s', r), Back(c, s', r)) by {
      VecKept(c, data, s, a);
    }
    assert MailOk(data, o, e, s'.phase[r], s'.left[r], s'.right[r], Front(c, s', r), Back(c, s', r)) by {
      MailKept(c, data, s, a);
    }
    hide *;
  }

  lemma {:induction false} VecKept(c: Job, data: seq<Byte>, s: State, a: Action)
    requires Shaped(c, s) && Ready(c, s, a) && InBounds(c, s, a)
    requires var o, e, r := c.oldd[a.r], c.newd[a.r], a.r;
             && VecOk(data, o, e, s.phase[r], s.vec[r], Front(c, s, r), Back(c, s, r))
             && End(o) <= |data| && End(e) <= |data| && e.first <= End(o) && o.first <= End(e)
             && (s.phase[r] == Begun ==> Front(c, s, r) != Landed && Back(c, s, r) != Landed)
             && (Front(c, s, r).Flying? ==> o.first > e.first && Front(c, s, r).bytes == data[e.first..o.first])
             && (Back(c, s, r).Flying? ==> End(o) < End(e) && Back(c, s, r).bytes == data[End(o)..End(e)])
    ensures var s' := Apply(c, s, a);
            && Shaped(c, s')
            && VecOk(data, c.oldd[a.r], c.newd[a.r], s'.phase[a.r], s'.vec[a.r], Front(c, s', a.r), Back(c, s', a.r))
  {
    var r := a.r;
    var o, e, v, front, back := c.oldd[r], c.newd[r], s.vec[r], Front(c, s, r), Back(c, s, r);
    hide VecOk, Inc, More, StoreLeft, StoreRight, DropHead, Resize, MadeRoom, Roomy, Holds;
    match a {
      case Post(_) => RoomMade(data, o, e, v, front, back);
      case ReadLeft(_) =>
      case ReadRight(_) =>
      case StoreFront(_) => FrontStored(data, o, e, v, front.bytes, back);
      case StoreBack(_) => BackStored(data, o, e, v, back.bytes, front);
      case Finish(_) => Completed(data, o, e, v, front, back);
    }
  }

  lemma {:induction false} MailKept(c: Job, data: seq<Byte>, s: State, a: Action)
    requires Shaped(c, s) && Ready(c, s, a) && InBounds(c, s, a) && RankOk(c, data, s, a.r)
    requires var o, e := c.oldd[a.r], c.newd[a.r];
             End(o) <= |data| && End(e) <= |data| && e.first <= End(o) && o.first <= End(e)
    ensures var s', r := Apply(c, s, a), a.r;
            && Shaped(c, s')
            && MailOk(data, c.oldd[r], c.newd[r], s'.phase[r], s'.left[r], s'.right[r], Front(c, s', r), Back(c, s', r))
  {
    if a.ReadLeft? || a.ReadRight? {
      MailSent(c, data, s, a);
    } else {
      MailMoved(c, data, s, a);
    }
    hide Ready, InBounds, Apply, MailOk, RankOk;
  }

  ghost predicate MailAfter(c: Job, data: seq<Byte>, s: State, a: Action)
    requires Ready(c, s, a) && InBounds(c, s, a)
  {
    var s', r := Apply(c, s, a), a.r;
    Shaped(c, s') && MailOk(data, c.oldd[r], c.newd[r], s'.phase[r], s'.left[r], s'.right[r], Front(c, s', r), Back(c, s', r))
  }

  lemma {:induction false} MailSent(c: Job, data: seq<Byte>, s: State, a: Action)
    requires Shaped(c, s) && Ready(c, s, a) && InBounds(c, s, a) && RankOk(c, data, s, a.r) && (a.ReadLeft? || a.ReadRight?)
    requires var o, e := c.oldd[a.r], c.newd[a.r];
             End(o) <= |data| && End(e) <= |data| && e.first <= End(o) && o.first <= End(e)
    ensures MailAfter(c, data, s, a)
  {
    var o, e, v := c.oldd[a.r], c.newd[a.r], s.vec[a.r];
    hide Inc, More, Roomy, Holds;
    if a.ReadLeft? {
      PayloadLeft(data, o, e, v);
    } else {
      PayloadRight(data, o, e, v);
    }
    hide VecOk;
  }

  lemma {:induction false} MailMoved(c: Job, data: seq<Byte>, s: State, a: Action)
    requires Shaped(c, s) && Ready(c, s, a) && InBounds(c, s, a) && RankOk(c, data, s, a.r) && !a.ReadLeft? && !a.ReadRight?
    ensures MailAfter(c, data, s, a)
  {
    hide VecOk, Inc, More, StoreLeft, StoreRight, DropHead, Resize, MadeRoom, Roomy, Holds;
  }

  lemma {:induction false} OtherKept(c: Job, data: seq<Byte>, s: State, a: Action, q: nat)
    requires Shaped(c, s) && Ready(c, s, a) && InBounds(c, s, a) && q < |c.oldd| && q != a.r && RankOk(c, data, s, q)
    ensures Shaped(c, Apply(c, s, a)) && RankOk(c, data, Apply(c, s, a), q)
  {
    var s' := Apply(c, s, a);
    OthersSee(c, s, a, q);
    hide Ready, InBounds, Apply;
    VecSame(data, c.oldd[q], c.newd[q], s.phase[q], s.vec[q], Front(c, s, q), Back(c, s, q), Front(c, s', q), Back(c, s', q));
    hide VecOk, Front, Back;
  }

  /** What changes for a rank that does not act: a message it sent has landed, or one for
      it is on its way. */
  lemma {:induction false} OthersSee(c: Job, s: State, a: Action, q: nat)
    requires Shaped(c, s) && Ready(c, s, a) && InBounds(c, s, a) && q < |c.oldd| && q != a.r
    ensures var s' := Apply(c, s, a);
            && Shaped(c, s') && s'.vec[q] == s.vec[q] && s'.phase[q] == s.phase[q]
            && (Front(c, s', q) == Landed <==> Front(c, s, q) == Landed) && (Back(c, s', q) == Landed <==> Back(c, s, q) == Landed)
            && (s'.left[q] == s.left[q] || (s.left[q].Flying? && s'.left[q] == Landed))
            && (s'.right[q] == s.right[q] || (s.right[q].Flying? && s'.right[q] == Landed))
  {
    hide Inc, More, StoreLeft, StoreRight, DropHead, Resize, MadeRoom;
  }

  lemma {:induction false} VecSame(data: seq<Byte>, o: Extent, e: Extent, phase: Phase, v: seq<Byte>, front: Mail, back: Mail,
                                   front': Mail, back': Mail)
    requires VecOk(data, o, e, phase, v, front, back)
    requires (front' == Landed <==> front == Landed) && (back' == Landed <==> back == Landed)
    ensures VecOk(data, o, e, phase, v, front', back')
  {
  }

  // -------------------------------------------------------------- runs

  ghost predicate CanRun(c: Job, s: State, acts: seq<Action>)
    decreases |acts|, 0
  {
    acts == []
    || (CanRun(c, s, acts[..|acts| - 1])
        && Ready(c, Exec(c, s, acts[..|acts| - 1]), acts[|acts| - 1])
        && InBounds(c, Exec(c, s, acts[..|acts| - 1]), acts[|acts| - 1]))
  }

  ghost function Exec(c: Job, s: State, acts: seq<Action>): State
    requires CanRun(c, s, acts)
    decreases |acts|, 1
  {
    if acts == [] then s else Apply(c, Exec(c, s, acts[..|acts| - 1]), acts[|acts| - 1])
  }

  /** What every rank holds while the messages are under way. */
  lemma {:induction false} ReachedOk(c: Job, data: seq<Byte>, vecs: seq<seq<Byte>>, acts: seq<Action>)
    requires Proper(c, data) && |vecs| == |c.oldd| && forall r :: 0 <= r < |c.oldd| ==> Holds(data, c.oldd[r], vecs[r])
    requires CanRun(c, Initial(c, vecs), acts)
    ensures Invariant(c, data, Exec(c, Initial(c, vecs), acts))
    decreases |acts|
  {
    hide Proper, Holds, Invariant, Ready, InBounds, Apply, Initial;
    if acts == [] {
      InitialOk(c, data, vecs);
    } else {
      var before := acts[..|acts| - 1];
      ReachedOk(c, data, vecs, before);
      StepKeeps(c, data, Exec(c, Initial(c, vecs), before), acts[|acts| - 1]);
    }
  }

  ghost predicate AllEnded(s: State) {
    forall r :: 0 <= r < |s.phase| ==> s.phase[r] == Ended
  }

  /** Every run that has come to its end, whatever the order in which vectors were read
      and written, leaves every rank with the bytes of its new extent. */
  lemma {:induction false} EveryRunRedistributes(c: Job, data: seq<Byte>, vecs: seq<seq<Byte>>, acts: seq<Action>)
    requires Proper(c, data) && |vecs| == |c.oldd| && forall r :: 0 <= r < |c.oldd| ==> Holds(data, c.oldd[r], vecs[r])
    requires CanRun(c, Initial(c, vecs), acts) && AllEnded(Exec(c, Initial(c, vecs), acts))
    ensures |Exec(c, Initial(c, vecs), acts).vec| == |c.newd|
    ensures forall r :: 0 <= r < |c.newd| ==> Holds(data, c.newd[r], Exec(c, Initial(c, vecs), acts).vec[r])
  {
    hide Exec, CanRun, Holds, MailOk, Initial, Proper;
    ReachedOk(c, data, vecs, acts);
    var s := Exec(c, Initial(c, vecs), acts);
    forall r | 0 <= r < |c.newd| ensures Holds(data, c.newd[r], s.vec[r]) {
      assert RankOk(c, data, s, r);
    }
  }

  /** No access is ever out of bounds: a step whose wait is over can be taken. */
  lemma {:induction false} RunsStayInBounds(c: Job, data: seq<Byte>, vecs: seq<seq<Byte>>, acts: seq<Action>, a: Action)
    requires Proper(c, data) && |vecs| == |c.oldd| && forall r :: 0 <= r < |c.oldd| ==> Holds(data, c.oldd[r], vecs[r])
    requires CanRun(c, Initial(c, vecs), acts) && Ready(c, Exec(c, Initial(c, vecs), acts), a)
    ensures InBounds(c, Exec(c, Initial(c, vecs), acts), a)
  {
    ReachedOk(c, data, vecs, acts);
    hide *;
    StepInBounds(c, data, Exec(c, Initial(c, vecs), acts), a);
  }

  // -------------------------------------------------------------- progress

  /** With sends that do not end before they are received: data is read when the receiver
      has posted, and the wait for a send lasts until the message is stored. */
  ghost predicate SyncReady(c: Job, s: State, a: Action) {
    && Ready(c, s, a)
    && match a
       case ReadLeft(r) => r > 0 && s.phase[r - 1] == Posted
       case ReadRight(r) => r + 1 < |c.oldd| && s.phase[r + 1] == Posted
       case Finish(r) => !s.left[r].Flying? && !s.right[r].Flying?
       case _ => true
  }

  /** Nobody waits for ever: as long as a rank has not ended some step can be taken, even
      with synchronous sends. */
  lemma {:induction false} NoDeadlock(c: Job, data: seq<Byte>, s: State) returns (a: Action)
    requires Invariant(c, data, s) && !AllEnded(s)
    ensures SyncReady(c, s, a)
  {
    hide RankOk, Proper;
    if r: nat :| r < |c.oldd| && s.phase[r] == Begun {
      a := Post(r);
    } else {
      var r :| 0 <= r < |s.phase| && s.phase[r] != Ended;
      a := NextStep(c, data, s, r);
    }
  }

  /** A message to rank r that is not stored yet can be moved on. */
  lemma {:induction false} MoveLeft(c: Job, data: seq<Byte>, s: State, r: nat) returns (a: Action)
    requires Shaped(c, s) && r + 1 < |c.oldd| && RankOk(c, data, s, r) && RankOk(c, data, s, r + 1)
    requires s.phase[r] != Begun && s.phase[r + 1] != Begun && s.left[r + 1] != Landed
    requires SendsLeft(c.oldd[r + 1], c.newd[r + 1]) && End(c.oldd[r]) < End(c.newd[r])
    ensures SyncReady(c, s, a)
  {
    hide VecOk;
    a := if s.left[r + 1] == Waiting then ReadLeft(r + 1) else StoreBack(r);
  }

  lemma {:induction false} MoveRight(c: Job, data: seq<Byte>, s: State, r: nat) returns (a: Action)
    requires Shaped(c, s) && r + 1 < |c.oldd| && RankOk(c, data, s, r) && RankOk(c, data, s, r + 1)
    requires s.phase[r] != Begun && s.phase[r + 1] != Begun && s.right[r] != Landed
    requires SendsRight(c.oldd[r], c.newd[r]) && c.oldd[r + 1].first > c.newd[r + 1].first
    ensures SyncReady(c, s, a)
  {
    hide VecOk;
    a := if s.right[r] == Waiting then ReadRight(r) else StoreFront(r + 1);
  }

  lemma {:induction false} NextStep(c: Job, data: seq<Byte>, s: State, r: nat) returns (a: Action)
    requires Invariant(c, data, s) && r < |c.oldd| && s.phase[r] == Posted
    requires forall q :: 0 <= q < |c.oldd| ==> s.phase[q] != Begun
    ensures SyncReady(c, s, a)
  {
    Neighbours(c, data, r);
    hide Proper, RankOk, Ready, SyncReady;
    assert RankOk(c, data, s, r);
    var o, e := c.oldd[r], c.newd[r];
    if SendsLeft(o, e) && s.left[r] != Landed {
      assert RankOk(c, data, s, r - 1);
      a := MoveLeft(c, data, s, r - 1);
    } else if SendsRight(o, e) && s.right[r] != Landed {
      assert RankOk(c, data, s, r + 1);
      a := MoveRight(c, data, s, r);
    } else if o.first > e.first && Front(c, s, r) != Landed {
      assert RankOk(c, data, s, r - 1);
      a := MoveRight(c, data, s, r - 1);
    } else if End(o) < End(e) && Back(c, s, r) != Landed {
      assert RankOk(c, data, s, r + 1);
      a := MoveLeft(c, data, s, r);
    } else {
      a := Finish(r);
      CanFinish(c, data, s, r);
    }
  }

  lemma {:induction false} CanFinish(c: Job, data: seq<Byte>, s: State, r: nat)
    requires Shaped(c, s) && r < |c.oldd| && RankOk(c, data, s, r) && s.phase[r] == Posted
    requires var o, e := c.oldd[r], c.newd[r];
             && (SendsLeft(o, e) ==> s.left[r] == Landed) && (SendsRight(o, e) ==> s.right[r] == Landed)
             && (o.first > e.first ==> Front(c, s, r) == Landed) && (End(o) < End(e) ==> Back(c, s, r) == Landed)
    ensures SyncReady(c, s, Finish(r))
  {
    hide VecOk;
  }

  /** The steps a rank and its messages have yet to take. */
  ghost function Steps(p: Phase, left: Mail, right: Mail): nat {
    (if p == Begun then 2 else if p == Posted then 1 else 0)
    + (if left == Waiting then 2 else if left.Flying? then 1 else 0)
    + (if right == Waiting then 2 else if right.Flying? then 1 else 0)
  }

  ghost function StepsLeft(s: State): (w: seq<nat>)
    requires |s.phase| == |s.left| == |s.right|
    ensures |w| == |s.phase|
  {
    seq(|s.phase|, r requires 0 <= r < |s.phase| => Steps(s.phase[r], s.left[r], s.right[r]))
  }

  lemma {:induction false} StepCounts(c: Job, s: State, a: Action)
    requires Ready(c, s, a) && InBounds(c, s, a)
    ensures Shaped(c, Apply(c, s, a)) && Sum(StepsLeft(s)) == Sum(StepsLeft(Apply(c, s, a))) + 1
  {
    StepsAt(c, s, a, a.r);
    hide Ready, InBounds, Apply, Steps, Advanced, Sum;
    var w, w', i := StepsLeft(s), StepsLeft(Apply(c, s, a)), Advanced(a);
    forall q | 0 <= q < |w| ensures i < |w| && w[i] > 0 && w'[q] == if q == i then w[i] - 1 else w[q] {
      StepsAt(c, s, a, q);
    }
    hide *;
    assert w' == w[i := w[i] - 1];
    SumUpdate(w, i, w[i] - 1);
  }

  /** The rank that gets on, or whose message does. */
  ghost function Advanced(a: Action): int {
    match a
    case StoreFront(r) => r - 1
    case StoreBack(r) => r + 1
    case _ => a.r
  }

  lemma {:induction false} StepsAt(c: Job, s: State, a: Action, q: nat)
    requires Ready(c, s, a) && InBounds(c, s, a) && q < |s.phase|
    ensures var s', i := Apply(c, s, a), Advanced(a);
            && Shaped(c, s') && 0 <= i < |s.phase|
            && Steps(s.phase[i], s.left[i], s.right[i]) > 0
            && Steps(s'.phase[q], s'.left[q], s'.right[q]) == Steps(s.phase[q], s.left[q], s.right[q]) - (if q == i then 1 else 0)
  {
    hide StoreLeft, StoreRight, DropHead, Resize, MadeRoom, Inc, More;
  }

  /** No run takes more than six steps a rank. */
  lemma {:induction false} RunsTerminate(c: Job, vecs: seq<seq<Byte>>, acts: seq<Action>)
    requires |vecs| == |c.oldd| == |c.newd| && CanRun(c, Initial(c, vecs), acts)
    ensures |acts| <= 6 * |vecs|
  {
    RunCounted(c, vecs, acts);
    hide CanRun, Exec;
    SixEach(StepsLeft(Initial(c, vecs)));
  }

  lemma {:induction false} SixEach(w: seq<nat>)
    requires forall i :: 0 <= i < |w| ==> w[i] == 6
    ensures Sum(w) == 6 * |w|
  {
    if w != [] {
      SixEach(w[1..]);
    }
  }

  lemma {:induction false} RunCounted(c: Job, vecs: seq<seq<Byte>>, acts: seq<Action>)
    requires |vecs| == |c.oldd| == |c.newd| && CanRun(c, Initial(c, vecs), acts)
    ensures Shaped(c, Exec(c, Initial(c, vecs), acts))
    ensures Sum(StepsLeft(Exec(c, Initial(c, vecs), acts))) + |acts| == Sum(StepsLeft(Initial(c, vecs)))
    decreases |acts|
  {
    hide Ready, InBounds, Apply, Initial, StepsLeft, Sum;
    if acts == [] {
      InitialShaped(c, vecs);
    } else {
      var before := acts[..|acts| - 1];
      RunCounted(c, vecs, before);
      StepCounts(c, Exec(c, Initial(c, vecs), before), acts[|acts| - 1]);
    }
  }

  lemma {:induction false} InitialShaped(c: Job, vecs: seq<seq<Byte>>)
    requires |vecs| == |c.oldd| == |c.newd|
    ensures Shaped(c, Initial(c, vecs))
  {
  }

  /** Every run can be continued to its end, with the result of `EveryRunRedistributes`. */
  lemma {:induction false} RunCompletes(c: Job, data: seq<Byte>, vecs: seq<seq<Byte>>, acts: seq<Action>) returns (whole: seq<Action>)
    requires Proper(c, data) && |vecs| == |c.oldd| == |c.newd|
    requires forall r :: 0 <= r < |c.oldd| ==> Holds(data, c.oldd[r], vecs[r])
    requires CanRun(c, Initial(c, vecs), acts)
    ensures acts <= whole && CanRun(c, Initial(c, vecs), whole) && AllEnded(Exec(c, Initial(c, vecs), whole))
    decreases 6 * |vecs| - |acts|
  {
    ReachedOk(c, data, vecs, acts);
    RunsTerminate(c, vecs, acts);
    hide *;
    var s := Exec(c, Initial(c, vecs), acts);
    if AllEnded(s) {
      whole := acts;
    } else {
      var a := NoDeadlock(c, data, s);
      SyncIsReady(c, s, a);
      StepInBounds(c, data, s, a);
      RunExtends(c, Initial(c, vecs), acts, a);
      RunsTerminate(c, vecs, acts + [a]);
      whole := RunCompletes(c, data, vecs, acts + [a]);
    }
  }

  lemma {:induction false} SyncIsReady(c: Job, s: State, a: Action)
    requires SyncReady(c, s, a)
    ensures Ready(c, s, a)
  {
  }

  lemma {:induction false} RunExtends(c: Job, s: State, acts: seq<Action>, a: Action)
    requires CanRun(c, s, acts) && Ready(c, Exec(c, s, acts), a) && InBounds(c, Exec(c, s, acts), a)
    ensures CanRun(c, s, acts + [a])
  {
    assert (acts + [a])[..|acts + [a]| - 1] == acts;
  }
}
