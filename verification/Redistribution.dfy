/**
 Moving bytes between neighbouring ranks so that each rank ends up with a new
 extent of the same global byte string, and writing the extents to a file.
 */
module Redistribution {
  import opened Bytes
  import opened Decomposition

  /** The extents cover [0, total) in rank order without gap or overlap. */
  ghost predicate Tile(e: seq<Extent>, total: nat) {
    && e != [] && e[0].first == 0 && End(e[|e| - 1]) == total
    && forall r :: 0 <= r < |e| - 1 ==> End(e[r]) == e[r + 1].first
  }

  /** Each new boundary stays within the two old extents it lies between, so that
      only neighbours need to talk. */
  ghost predicate Near(oldd: seq<Extent>, newd: seq<Extent>)
    requires |oldd| == |newd|
  {
    forall r :: 0 < r < |oldd| ==> oldd[r - 1].first <= newd[r].first <= End(oldd[r])
  }

  lemma {:induction false} TileBelow(e: seq<Extent>, total: nat, r: nat)
    requires Tile(e, total) && r < |e|
    ensures End(e[r]) <= total
    decreases |e| - r
  {
    if r + 1 < |e| {
      TileBelow(e, total, r + 1);
    }
  }

  /** Rank r holds its extent of `data`. */
  ghost predicate Holds(data: seq<Byte>, e: Extent, vec: seq<Byte>) {
    End(e) <= |data| && vec == data[e.first..End(e)]
  }

  function Zeros(n: nat): (z: seq<Byte>)
    ensures |z| == n
  {
    seq(n, _ => 0 as Byte)
  }

  /** `std::vector::resize`. */
  function Resize(vec: seq<Byte>, n: nat): (v: seq<Byte>)
    ensures |v| == n
  {
    if n <= |vec| then vec[..n] else vec + Zeros(n - |vec|)
  }

  /** Room for what will arrive: at the front (with the old bytes moved back) and
      at the end. */
  method MakeRoom(oldd: Extent, newd: Extent, vec: seq<Byte>) returns (v: seq<Byte>)
    requires |vec| == oldd.second
    ensures v == MadeRoom(oldd, newd, vec)
  {
    v := vec;
    if oldd.first > newd.first {
      var incStart := oldd.first - newd.first;
      v := Resize(v, |v| + incStart);
      v := v[..incStart] + v[..|v| - incStart];
    }
    if End(oldd) < End(newd) {
      v := Resize(v, |v| + End(newd) - End(oldd));
    }
  }

  /** How much arrives at the front and at the end. */
  function Inc(oldd: Extent, newd: Extent): nat {
    if oldd.first > newd.first then oldd.first - newd.first else 0
  }

  function More(oldd: Extent, newd: Extent): nat {
    if End(oldd) < End(newd) then End(newd) - End(oldd) else 0
  }

  /** The old bytes between the room for what arrives on either side. What is in the room
      does not matter: zeros, and at the front what `move_backward` left behind. */
  function MadeRoom(oldd: Extent, newd: Extent, vec: seq<Byte>): (v: seq<Byte>)
    ensures |v| == Inc(oldd, newd) + |vec| + More(oldd, newd)
    ensures v[Inc(oldd, newd)..Inc(oldd, newd) + |vec|] == vec
  {
    Resize(vec, |vec| + Inc(oldd, newd))[..Inc(oldd, newd)] + vec + Zeros(More(oldd, newd))
  }

  function StoreLeft(oldd: Extent, newd: Extent, vec: seq<Byte>, fromLeft: seq<Byte>): seq<Byte>
    requires Inc(oldd, newd) <= |vec|
  {
    if oldd.first > newd.first then fromLeft + vec[Inc(oldd, newd)..] else vec
  }

  function StoreRight(oldd: Extent, newd: Extent, vec: seq<Byte>, fromRight: seq<Byte>): seq<Byte>
    requires More(oldd, newd) <= |vec|
  {
    if End(oldd) < End(newd) then vec[..|vec| - More(oldd, newd)] + fromRight else vec
  }

  /** `std::move` to the front leaves the old tail in place behind the moved bytes. */
  function DropHead(oldd: Extent, newd: Extent, vec: seq<Byte>): seq<Byte>
    requires newd.first <= oldd.first + |vec|
  {
    if oldd.first < newd.first then
      vec[newd.first - oldd.first..] + vec[|vec| - (newd.first - oldd.first)..]
    else vec
  }

  /** Stores what arrived, drops what was given away, and trims. */
  method Receive(oldd: Extent, newd: Extent, vec: seq<Byte>, fromLeft: seq<Byte>,
                 fromRight: seq<Byte>) returns (v: seq<Byte>)
    requires newd.first <= oldd.first + |vec|
    requires Inc(oldd, newd) <= |vec| && More(oldd, newd) <= |vec|
    requires oldd.first > newd.first ==> |fromLeft| == Inc(oldd, newd)
    requires End(oldd) < End(newd) ==> |fromRight| == More(oldd, newd)
    ensures v == Resize(DropHead(oldd, newd, StoreRight(oldd, newd, StoreLeft(oldd, newd, vec, fromLeft), fromRight)), newd.second)
  {
    v := vec;
    if oldd.first > newd.first {
      v := fromLeft + v[|fromLeft|..];
    }
    if End(oldd) < End(newd) {
      v := v[..|v| - |fromRight|] + fromRight;
    }
    if oldd.first < newd.first {
      var decStart := newd.first - oldd.first;
      v := v[decStart..] + v[|v| - decStart..];
    }
    v := Resize(v, newd.second);
  }

  /** Every message that is sent is expected by its receiver with the same length,
      and carries the bytes between the old and the new boundary. */
  lemma {:induction false} MessagesMatch(data: seq<Byte>, oldd: seq<Extent>, newd: seq<Extent>, r: nat)
    requires |oldd| == |newd| && Tile(oldd, |data|) && Tile(newd, |data|) && Near(oldd, newd)
    requires 0 < r < |oldd|
    ensures End(oldd[r - 1]) == oldd[r].first && End(newd[r - 1]) == newd[r].first
    ensures oldd[r].first < newd[r].first <==> End(oldd[r - 1]) < End(newd[r - 1])
    ensures oldd[r].first > newd[r].first <==> End(oldd[r - 1]) > End(newd[r - 1])
    ensures newd[r].first <= End(oldd[r]) <= |data| && oldd[r - 1].first <= newd[r].first
  {
    assert End(oldd[r - 1]) == oldd[r - 1 + 1].first && End(newd[r - 1]) == newd[r - 1 + 1].first;
    TileBelow(oldd, |data|, r);
  }

  lemma {:induction false} RankAlone(data: seq<Byte>, oldd: seq<Extent>, newd: seq<Extent>, r: nat)
    requires |oldd| == |newd| && Tile(oldd, |data|) && Tile(newd, |data|) && Near(oldd, newd)
    requires r < |oldd|
    ensures End(oldd[r]) <= |data| && End(newd[r]) <= |data|
    ensures newd[r].first <= End(oldd[r]) && oldd[r].first <= End(newd[r])
    ensures r == 0 ==> oldd[r].first == newd[r].first
    ensures r == |oldd| - 1 ==> End(oldd[r]) == End(newd[r])
  {
    TileBelow(oldd, |data|, r);
    TileBelow(newd, |data|, r);
    if r > 0 {
      MessagesMatch(data, oldd, newd, r);
    }
    if r + 1 < |oldd| {
      MessagesMatch(data, oldd, newd, r + 1);
    }
  }

  /** `distribToDistrib` on all ranks: it preserves the global byte string. */
  method DistribToDistrib(oldd: seq<Extent>, newd: seq<Extent>, vecs: seq<seq<Byte>>, ghost data: seq<Byte>)
    returns (out: seq<seq<Byte>>)
    requires |vecs| == |oldd| == |newd| && Tile(oldd, |data|) && Tile(newd, |data|) && Near(oldd, newd)
    requires forall r :: 0 <= r < |oldd| ==> Holds(data, oldd[r], vecs[r])
    ensures |out| == |newd| && forall r :: 0 <= r < |newd| ==> Holds(data, newd[r], out[r])
  {
    hide *;
    var roomy, toLeft, toRight := PostMessages(oldd, newd, vecs, data);
    out := CollectMessages(oldd, newd, roomy, toLeft, toRight, data);
  }

  /** What rank r hands over are the bytes of `data` between its old boundaries and its
      new ones, on either side: nothing if a boundary moves outwards. */
  method Send(oldd: Extent, newd: Extent, vec: seq<Byte>, ghost data: seq<Byte>) returns (toLeft: seq<Byte>, toRight: seq<Byte>)
    requires Roomy(data, oldd, newd, vec) && newd.first <= End(oldd) && oldd.first <= End(newd)
    ensures toLeft == if oldd.first < newd.first then data[oldd.first..newd.first] else []
    ensures toRight == if End(oldd) > End(newd) then data[End(newd)..End(oldd)] else []
  {
    PayloadLeft(data, oldd, newd, vec);
    PayloadRight(data, oldd, newd, vec);
    hide Roomy;
    toLeft, toRight := [], [];
    if oldd.first < newd.first {
      var sz := newd.first - oldd.first;
      toLeft := vec[..sz];
    }
    if End(oldd) > End(newd) {
      var sz := End(oldd) - End(newd);
      toRight := vec[|vec| - sz..];
    }
  }

  method PostOwn(oldd: Extent, newd: Extent, vec: seq<Byte>, ghost data: seq<Byte>)
    returns (v: seq<Byte>, left: seq<Byte>, right: seq<Byte>)
    requires Holds(data, oldd, vec) && newd.first <= End(oldd) && oldd.first <= End(newd)
    ensures Posted(data, oldd, newd, v, left, right)
  {
    v := MakeRoom(oldd, newd, vec);
    left, right := Send(oldd, newd, v, data);
  }

  /** Every rank makes room and hands its messages over. */
  method PostMessages(oldd: seq<Extent>, newd: seq<Extent>, vecs: seq<seq<Byte>>, ghost data: seq<Byte>)
    returns (roomy: seq<seq<Byte>>, toLeft: seq<seq<Byte>>, toRight: seq<seq<Byte>>)
    requires |vecs| == |oldd| == |newd| && Tile(oldd, |data|) && Tile(newd, |data|) && Near(oldd, newd)
    requires forall r :: 0 <= r < |oldd| ==> Holds(data, oldd[r], vecs[r])
    ensures |roomy| == |toLeft| == |toRight| == |oldd|
    ensures forall q :: 0 <= q < |oldd| ==> Posted(data, oldd[q], newd[q], roomy[q], toLeft[q], toRight[q])
  {
    hide *;
    roomy, toLeft, toRight := [], [], [];
    for r := 0 to |oldd|
      invariant |roomy| == |toLeft| == |toRight| == r
      invariant forall q :: 0 <= q < r ==> Posted(data, oldd[q], newd[q], roomy[q], toLeft[q], toRight[q])
    {
      RankAlone(data, oldd, newd, r);
      var v, left, right := PostOwn(oldd[r], newd[r], vecs[r], data);
      roomy, toLeft, toRight := roomy + [v], toLeft + [left], toRight + [right];
    }
  }

  /** Every rank stores what its neighbours sent. */
  method CollectMessages(oldd: seq<Extent>, newd: seq<Extent>, roomy: seq<seq<Byte>>, toLeft: seq<seq<Byte>>,
                         toRight: seq<seq<Byte>>, ghost data: seq<Byte>)
    returns (out: seq<seq<Byte>>)
    requires |oldd| == |newd| == |roomy| == |toLeft| == |toRight|
    requires Tile(oldd, |data|) && Tile(newd, |data|) && Near(oldd, newd)
    requires forall q :: 0 <= q < |oldd| ==> Posted(data, oldd[q], newd[q], roomy[q], toLeft[q], toRight[q])
    ensures |out| == |newd| && forall r :: 0 <= r < |newd| ==> Holds(data, newd[r], out[r])
  {
    hide *;
    var n := |oldd|;
    out := [];
    for r := 0 to n
      invariant |out| == r
      invariant forall q :: 0 <= q < r ==> Holds(data, newd[q], out[q])
    {
      var fromLeft := if r > 0 then toRight[r - 1] else [];
      var fromRight := if r + 1 < n then toLeft[r + 1] else [];
      Arrives(data, oldd, newd, roomy, toLeft, toRight, r);
      var v := Receive(oldd[r], newd[r], roomy[r], fromLeft, fromRight);
      out := out + [v];
    }
  }

  /** Rank with extents `oldd` and `newd` once its sends and receives are posted. */
  ghost predicate Posted(data: seq<Byte>, oldd: Extent, newd: Extent, roomy: seq<Byte>, left: seq<Byte>, right: seq<Byte>) {
    && Roomy(data, oldd, newd, roomy)
    && (oldd.first < newd.first ==> newd.first <= |data| && left == data[oldd.first..newd.first])
    && (End(oldd) > End(newd) ==> End(oldd) <= |data| && right == data[End(newd)..End(oldd)])
  }

  lemma {:induction false} Arrives(data: seq<Byte>, oldd: seq<Extent>, newd: seq<Extent>,
                roomy: seq<seq<Byte>>, toLeft: seq<seq<Byte>>, toRight: seq<seq<Byte>>, r: nat)
    requires |oldd| == |newd| == |roomy| == |toLeft| == |toRight| && r < |oldd|
    requires Tile(oldd, |data|) && Tile(newd, |data|) && Near(oldd, newd)
    requires forall q :: 0 <= q < |oldd| ==> Posted(data, oldd[q], newd[q], roomy[q], toLeft[q], toRight[q])
    ensures var o, e, vec := oldd[r], newd[r], roomy[r];
            var fromLeft := if r > 0 then toRight[r - 1] else [];
            var fromRight := if r + 1 < |oldd| then toLeft[r + 1] else [];
            && e.first <= o.first + |vec|
            && Inc(o, e) <= |vec| && More(o, e) <= |vec|
            && (o.first > e.first ==> |fromLeft| == Inc(o, e))
            && (End(o) < End(e) ==> |fromRight| == More(o, e))
            && e.first <= o.first + |StoreRight(o, e, StoreLeft(o, e, vec, fromLeft), fromRight)|
            && Holds(data, e, Resize(DropHead(o, e, StoreRight(o, e, StoreLeft(o, e, vec, fromLeft), fromRight)), e.second))
  {
    hide Tile, Near, Roomy, StoreLeft, StoreRight, DropHead, Resize, Posted, Holds;
    RankAlone(data, oldd, newd, r);
    FromNeighbours(data, oldd, newd, roomy, toLeft, toRight, r);
    var fromLeft := if r > 0 then toRight[r - 1] else [];
    var fromRight := if r + 1 < |oldd| then toLeft[r + 1] else [];
    Reassembled(data, oldd[r], newd[r], roomy[r], fromLeft, fromRight);
  }

  /** What reaches a rank are the bytes it lacks. */
  lemma {:induction false} FromNeighbours(data: seq<Byte>, oldd: seq<Extent>, newd: seq<Extent>,
                roomy: seq<seq<Byte>>, toLeft: seq<seq<Byte>>, toRight: seq<seq<Byte>>, r: nat)
    requires |oldd| == |newd| == |roomy| == |toLeft| == |toRight| && r < |oldd|
    requires Tile(oldd, |data|) && Tile(newd, |data|) && Near(oldd, newd)
    requires forall q :: 0 <= q < |oldd| ==> Posted(data, oldd[q], newd[q], roomy[q], toLeft[q], toRight[q])
    ensures End(oldd[r]) <= |data| && End(newd[r]) <= |data| && Roomy(data, oldd[r], newd[r], roomy[r])
    ensures oldd[r].first > newd[r].first ==> r > 0 && toRight[r - 1] == data[newd[r].first..oldd[r].first]
    ensures End(oldd[r]) < End(newd[r]) ==> r + 1 < |oldd| && toLeft[r + 1] == data[End(oldd[r])..End(newd[r])]
  {
    hide Tile, Near, Roomy;
    RankAlone(data, oldd, newd, r);
    assert Posted(data, oldd[r], newd[r], roomy[r], toLeft[r], toRight[r]);
    if r > 0 {
      MessagesMatch(data, oldd, newd, r);
      assert Posted(data, oldd[r - 1], newd[r - 1], roomy[r - 1], toLeft[r - 1], toRight[r - 1]);
    }
    if r + 1 < |oldd| {
      MessagesMatch(data, oldd, newd, r + 1);
      assert Posted(data, oldd[r + 1], newd[r + 1], roomy[r + 1], toLeft[r + 1], toRight[r + 1]);
    }
  }

  /** A buffer after `MakeRoom`: the rank's old bytes with room around them. */
  ghost predicate Roomy(data: seq<Byte>, oldd: Extent, newd: Extent, v: seq<Byte>) {
    var inc := Inc(oldd, newd);
    && End(oldd) <= |data|
    && |v| == inc + oldd.second + More(oldd, newd)
    && v[inc..inc + oldd.second] == data[oldd.first..End(oldd)]
  }

  /** A stretch of a stretch. */
  lemma {:induction false} Within(v: seq<Byte>, at: nat, data: seq<Byte>, from: nat, n: nat, i: nat, k: nat)
    requires at + n <= |v| && from + n <= |data| && i + k <= n && v[at..at + n] == data[from..from + n]
    ensures v[at + i..at + i + k] == data[from + i..from + i + k]
  {
    var a, b := v[at + i..at + i + k], data[from + i..from + i + k];
    forall j | 0 <= j < k ensures a[j] == b[j] {
      assert a[j] == v[at..at + n][i + j] && b[j] == data[from..from + n][i + j];
    }
  }

  lemma {:induction false} PayloadLeft(data: seq<Byte>, oldd: Extent, newd: Extent, v: seq<Byte>)
    requires Roomy(data, oldd, newd, v) && newd.first <= End(oldd)
    ensures oldd.first < newd.first ==> newd.first - oldd.first <= |v| && newd.first <= |data|
    ensures oldd.first < newd.first ==> v[..newd.first - oldd.first] == data[oldd.first..newd.first]
  {
    if oldd.first < newd.first {
      Within(v, 0, data, oldd.first, oldd.second, 0, newd.first - oldd.first);
    }
  }

  lemma {:induction false} PayloadRight(data: seq<Byte>, oldd: Extent, newd: Extent, v: seq<Byte>)
    requires Roomy(data, oldd, newd, v) && oldd.first <= End(newd)
    ensures End(oldd) > End(newd) ==> End(oldd) - End(newd) <= |v| && End(oldd) <= |data|
    ensures End(oldd) > End(newd) ==> v[|v| - (End(oldd) - End(newd))..] == data[End(newd)..End(oldd)]
  {
    if End(oldd) > End(newd) {
      var sz, inc := End(oldd) - End(newd), Inc(oldd, newd);
      assert More(oldd, newd) == 0;
      assert sz <= oldd.second && inc + oldd.second - sz == |v| - sz && oldd.first + oldd.second - sz == End(newd);
      hide Roomy, Inc, More;
      Tail(v, data, inc, oldd.first, oldd.second, sz);
    }
  }

  lemma {:induction false} Tail(v: seq<Byte>, data: seq<Byte>, at: nat, from: nat, n: nat, sz: nat)
    requires at + n == |v| && from + n <= |data| && sz <= n && v[at..at + n] == data[from..from + n]
    ensures v[|v| - sz..] == data[from + n - sz..from + n]
  {
    Within(v, at, data, from, n, n - sz, sz);
    assert v[|v| - sz..] == v[at + (n - sz)..at + (n - sz) + sz];
  }

  /** With both messages in place the buffer is one stretch of the global data;
      dropping the given-away head and trimming leaves the new extent. */
  lemma {:induction false} Reassembled(data: seq<Byte>, oldd: Extent, newd: Extent, vec: seq<Byte>,
                                       fromLeft: seq<Byte>, fromRight: seq<Byte>)
    requires Roomy(data, oldd, newd, vec) && End(newd) <= |data|
    requires newd.first <= End(oldd) && oldd.first <= End(newd)
    requires oldd.first > newd.first ==> fromLeft == data[newd.first..oldd.first]
    requires End(oldd) < End(newd) ==> fromRight == data[End(oldd)..End(newd)]
    ensures Inc(oldd, newd) <= |vec| && More(oldd, newd) <= |vec|
    ensures newd.first <= oldd.first + |vec|
    ensures var w := StoreRight(oldd, newd, StoreLeft(oldd, newd, vec, fromLeft), fromRight);
            && newd.first <= oldd.first + |w|
            && Holds(data, newd, Resize(DropHead(oldd, newd, w), newd.second))
  {
    hide *;
    RoomFits(data, oldd, newd, vec);
    LeftInPlace(data, oldd, newd, vec, fromLeft);
    var u := StoreLeft(oldd, newd, vec, fromLeft);
    RightInPlace(data, oldd, newd, u, fromRight);
    Trimmed(data, oldd, newd, StoreRight(oldd, newd, u, fromRight));
  }

  lemma {:induction false} RoomFits(data: seq<Byte>, oldd: Extent, newd: Extent, vec: seq<Byte>)
    requires Roomy(data, oldd, newd, vec)
    ensures Inc(oldd, newd) <= |vec| && More(oldd, newd) <= |vec| && End(oldd) <= |data|
    ensures End(oldd) <= oldd.first + |vec|
  {
  }

  lemma {:induction false} LeftInPlace(data: seq<Byte>, oldd: Extent, newd: Extent, vec: seq<Byte>, fromLeft: seq<Byte>)
    requires Roomy(data, oldd, newd, vec)
    requires oldd.first > newd.first ==> fromLeft == data[newd.first..oldd.first]
    ensures var u := StoreLeft(oldd, newd, vec, fromLeft);
            && |u| == |vec|
            && u[..|u| - More(oldd, newd)] == data[MinOf(oldd.first, newd.first)..End(oldd)]
  {
    var inc := Inc(oldd, newd);
    if oldd.first > newd.first {
      FrontJoined(fromLeft, vec, inc, oldd.second);
      JoinStretches(data, newd.first, oldd.first, End(oldd));
    } else {
      assert vec[..oldd.second] == vec[0..0 + oldd.second];
    }
  }

  lemma {:induction false} FrontJoined(front: seq<Byte>, vec: seq<Byte>, inc: nat, n: nat)
    requires |front| == inc && inc + n <= |vec|
    ensures (front + vec[inc..])[..inc + n] == front + vec[inc..inc + n]
  {
  }

  lemma {:induction false} RightInPlace(data: seq<Byte>, oldd: Extent, newd: Extent, u: seq<Byte>, fromRight: seq<Byte>)
    requires More(oldd, newd) <= |u| && End(oldd) <= |data| && End(newd) <= |data|
    requires u[..|u| - More(oldd, newd)] == data[MinOf(oldd.first, newd.first)..End(oldd)]
    requires End(oldd) < End(newd) ==> fromRight == data[End(oldd)..End(newd)]
    ensures StoreRight(oldd, newd, u, fromRight) == data[MinOf(oldd.first, newd.first)..End(oldd) + More(oldd, newd)]
  {
    var lo := MinOf(oldd.first, newd.first);
    if End(oldd) >= End(newd) {
      assert u[..|u|] == u;
    } else {
      JoinStretches(data, lo, End(oldd), End(newd));
    }
  }

  lemma {:induction false} JoinStretches(data: seq<Byte>, a: nat, b: nat, c: nat)
    requires a <= b <= c <= |data|
    ensures data[a..b] + data[b..c] == data[a..c]
  {
  }

  lemma {:induction false} Trimmed(data: seq<Byte>, oldd: Extent, newd: Extent, w: seq<Byte>)
    requires End(oldd) <= |data| && End(newd) <= |data|
    requires newd.first <= End(oldd)
    requires w == data[MinOf(oldd.first, newd.first)..End(oldd) + More(oldd, newd)]
    ensures newd.first <= oldd.first + |w|
    ensures Holds(data, newd, Resize(DropHead(oldd, newd, w), newd.second))
  {
    var d := if oldd.first < newd.first then newd.first - oldd.first else 0;
    Dropped(oldd, newd, w, d);
    hide DropHead, Resize;
    Kept(data, MinOf(oldd.first, newd.first), w, d, newd);
  }

  lemma {:induction false} Kept(data: seq<Byte>, lo: nat, w: seq<Byte>, d: nat, newd: Extent)
    requires lo + |w| <= |data| && w == data[lo..lo + |w|] && lo + d == newd.first && d + newd.second <= |w|
    ensures Holds(data, newd, w[d..d + newd.second])
  {
    hide *;
    assert w[0..|w|] == w;
    Within(w, 0, data, lo, |w|, d, newd.second);
    HoldsStretch(data, newd, w[d..d + newd.second]);
  }

  lemma {:induction false} HoldsStretch(data: seq<Byte>, e: Extent, v: seq<Byte>)
    requires e.first + e.second <= |data| && v == data[e.first..e.first + e.second]
    ensures Holds(data, e, v)
  {
  }

  /** Dropping the head and trimming leaves the rest. */
  lemma {:induction false} Dropped(oldd: Extent, newd: Extent, w: seq<Byte>, d: nat)
    requires newd.first <= oldd.first + |w| && d == (if oldd.first < newd.first then newd.first - oldd.first else 0)
    requires d + newd.second <= |w|
    ensures Resize(DropHead(oldd, newd, w), newd.second) == w[d..d + newd.second]
  {
    var x := DropHead(oldd, newd, w);
    assert x[..newd.second] == w[d..d + newd.second];
  }

  // ------------------------------------------------------------------ writeArb

  /** The new extents of all ranks for a range at file offset `off`. They cover the range
      exactly if it reaches the end of the block it starts in, or there is one rank, or
      blocks are single bytes. */
  method BlockExtents(sz: nat, bsz: nat, numRank: nat, off: nat) returns (holds: bool, e: seq<Extent>)
    requires 0 < bsz < MAX_POS && off + sz < MAX_POS && numRank > 0
    ensures holds <==> sz >= FirstBlock(bsz, off) + LastBlock(sz, bsz, off) || TWO_64 % bsz == 0
    ensures holds ==> |e| == numRank
    ensures holds ==> (Tile(e, sz) <==> sz >= FirstBlock(bsz, off) + LastBlock(sz, bsz, off) || numRank == 1 || bsz == 1)
    ensures sz >= FirstBlock(bsz, off) + LastBlock(sz, bsz, off) ==> BlockTile(e, sz, bsz, off)
  {
    hide *;
    e := [];
    holds := true;
    ghost var spans := sz >= FirstBlock(bsz, off) + LastBlock(sz, bsz, off);
    for r := 0 to numRank
      invariant |e| == r
      invariant r > 0 ==> (holds <==> spans || TWO_64 % bsz == 0)
      invariant holds && spans ==> forall q :: 0 <= q < r ==>
                  e[q].first == Boundary(sz, bsz, numRank, off, q) && End(e[q]) == Boundary(sz, bsz, numRank, off, q + 1)
      invariant holds && !spans ==> forall q :: 0 <= q < r ==> InOneBlock(sz, bsz, numRank, q, off, e[q])
    {
      var ok, dec := BlockDecomp(sz, bsz, numRank, r, off);
      holds := ok;
      e := e + [dec];
    }
    if spans {
      BoundariesCover(e, sz, bsz, off);
    } else if holds {
      ShortTile(e, sz, bsz, off);
    }
  }

  lemma {:induction false} BoundariesCover(e: seq<Extent>, sz: nat, bsz: nat, off: nat)
    requires e != [] && bsz > 0 && sz >= FirstBlock(bsz, off) + LastBlock(sz, bsz, off)
    requires forall r :: 0 <= r < |e| ==>
               e[r].first == Boundary(sz, bsz, |e|, off, r) && End(e[r]) == Boundary(sz, bsz, |e|, off, r + 1)
    ensures BlockTile(e, sz, bsz, off) && Tile(e, sz)
  {
    hide Boundary, FirstBlock, LastBlock;
    BoundariesTile(sz, bsz, |e|, off, 0);
  }

  /** Within one block only a single rank, or blocks of one byte, give a tiling: the first
      rank takes more than there is, or the second one does not start where the first
      one ends. */
  lemma {:induction false} ShortTile(e: seq<Extent>, sz: nat, bsz: nat, off: nat)
    requires e != [] && bsz > 0 && sz < FirstBlock(bsz, off) + LastBlock(sz, bsz, off)
    requires forall r :: 0 <= r < |e| ==> InOneBlock(sz, bsz, |e|, r, off, e[r])
    ensures Tile(e, sz) <==> |e| == 1 || bsz == 1
  {
    EndsInFirst(sz, bsz, off);
    hide FirstBlock, LastBlock, Start, WrappedCount;
    assert InOneBlock(sz, bsz, |e|, 0, off, e[0]);
    if |e| == 1 || bsz == 1 {
      forall r | 0 <= r < |e| ensures e[r] == Extent(0, sz) {
        assert InOneBlock(sz, bsz, |e|, r, off, e[r]);
      }
    } else {
      assert InOneBlock(sz, bsz, |e|, 1, off, e[1]);
      var blocks := Start(WrappedCount(bsz), |e|, 1);
      if Tile(e, sz) {
        TileBelow(e, sz, 0);
        if blocks > 1 {
          MulKeepsOrder(1, blocks - 1, bsz);
        }
        assert false;
      }
    }
  }

  /** Extents that `blockDecomp` gave for some file offset. */
  ghost predicate BlockTile(e: seq<Extent>, sz: nat, bsz: nat, off: nat) {
    && e != [] && bsz > 0 && Tile(e, sz)
    && sz >= FirstBlock(bsz, off) + LastBlock(sz, bsz, off)
    && forall r :: 0 <= r < |e| ==>
         e[r].first == Boundary(sz, bsz, |e|, off, r) && End(e[r]) == Boundary(sz, bsz, |e|, off, r + 1)
  }

  /** `writeArb` on all ranks: the file receives the global byte string at `off`,
      whatever the ranks' extents were, and nothing else changes. */
  method WriteArb(out: array<Byte>, off: nat, bsz: nat, dec: seq<Extent>, tsz: nat, vecs: seq<seq<Byte>>,
                  ghost data: seq<Byte>)
    returns (newdec: seq<Extent>, moved: seq<seq<Byte>>)
    requires |dec| == |vecs| > 0 && bsz > 0 && |data| == tsz && Tile(dec, tsz)
    requires tsz >= FirstBlock(bsz, off) + LastBlock(tsz, bsz, off)
    requires forall r :: 0 < r < |dec| ==>
               dec[r - 1].first <= Boundary(tsz, bsz, |dec|, off, r) <= End(dec[r])
    requires forall r :: 0 <= r < |dec| ==> Holds(data, dec[r], vecs[r])
    requires off + tsz <= out.Length < MAX_POS
    modifies out
    ensures out[off..off + tsz] == data
    ensures forall k :: 0 <= k < off || off + tsz <= k < out.Length ==> out[k] == old(out[k])
    ensures |newdec| == |moved| == |dec| && BlockTile(newdec, tsz, bsz, off)
    ensures forall r :: 0 <= r < |newdec| ==> Holds(data, newdec[r], moved[r])
  {
    hide Boundary, FirstBlock, LastBlock, Tile;
    var n := |dec|;
    BlockBound(tsz, bsz, off);
    var holds;
    holds, newdec := BlockExtents(tsz, bsz, n, off);
    moved := vecs;
    if n != 1 {
      moved := DistribToDistrib(dec, newdec, vecs, data);
    } else {
      OneExtent(dec, newdec, tsz);
    }
    WriteExtents(out, off, newdec, moved, data);
  }

  lemma {:induction false} BlockBound(sz: nat, bsz: nat, off: nat)
    requires bsz > 0 && sz >= FirstBlock(bsz, off) + LastBlock(sz, bsz, off)
    ensures bsz <= off + sz
  {
    SkippedBytes(sz, bsz, off);
    hide FirstBlock, LastBlock;
  }

  lemma {:induction false} OneExtent(a: seq<Extent>, b: seq<Extent>, total: nat)
    requires Tile(a, total) && Tile(b, total) && |a| == |b| == 1
    ensures a[0] == b[0]
  {
  }

  /** Every rank writes its extent. */
  method WriteExtents(out: array<Byte>, off: nat, dec: seq<Extent>, vecs: seq<seq<Byte>>, ghost data: seq<Byte>)
    requires |dec| == |vecs| > 0 && Tile(dec, |data|) && off + |data| <= out.Length
    requires forall r :: 0 <= r < |dec| ==> Holds(data, dec[r], vecs[r])
    modifies out
    ensures out[off..off + |data|] == data
    ensures forall k :: 0 <= k < off || off + |data| <= k < out.Length ==> out[k] == old(out[k])
  {
    hide *;
    ghost var done := 0;
    for r := 0 to |dec|
      invariant forall k :: 0 <= k < off || off + |data| <= k < out.Length ==> out[k] == old(out[k])
      invariant done == if r == 0 then 0 else End(dec[r - 1])
      invariant r == |dec| ==> done == |data|
      invariant done <= |data| && forall k :: off <= k < off + done ==> out[k] == data[k - off]
    {
      TileNext(dec, |data|, r);
      PutExtent(out, off, dec[r], vecs[r], data);
      done := End(dec[r]);
    }
  }

  lemma {:induction false} TileNext(e: seq<Extent>, total: nat, r: nat)
    requires Tile(e, total) && r < |e|
    ensures End(e[r]) <= total
    ensures e[r].first == if r == 0 then 0 else End(e[r - 1])
    ensures r == |e| - 1 ==> End(e[r]) == total
  {
    TileBelow(e, total, r);
    if r > 0 {
      assert End(e[r - 1]) == e[r - 1 + 1].first;
    }
  }

  /** A contiguous write of one extent. */
  method PutExtent(out: array<Byte>, off: nat, e: Extent, vec: seq<Byte>, ghost data: seq<Byte>)
    requires Holds(data, e, vec) && off + End(e) <= out.Length
    modifies out
    ensures forall k :: off + e.first <= k < off + End(e) ==> out[k] == data[k - off]
    ensures forall k :: 0 <= k < off + e.first || off + End(e) <= k < out.Length ==> out[k] == old(out[k])
  {
    var at := off + e.first;
    for i := 0 to |vec|
      invariant forall k :: at <= k < at + i ==> out[k] == data[k - off]
      invariant forall k :: 0 <= k < at || at + i <= k < out.Length ==> out[k] == old(out[k])
    {
      assert vec[i] == data[e.first + i];
      out[at + i] := vec[i];
    }
  }

  /** Extents made for one offset fit the redistribution for any other one: writes at
      arbitrary offsets can be chained. */
  lemma {:induction false} BlockTilesNear(e: seq<Extent>, sz: nat, bsz: nat, off: nat, off': nat)
    requires BlockTile(e, sz, bsz, off) && sz >= FirstBlock(bsz, off') + LastBlock(sz, bsz, off')
    ensures forall r :: 0 < r < |e| ==> e[r - 1].first <= Boundary(sz, bsz, |e|, off', r) <= End(e[r])
  {
    hide Boundary, FirstBlock, LastBlock;
    forall r | 0 < r < |e| ensures e[r - 1].first <= Boundary(sz, bsz, |e|, off', r) <= End(e[r]) {
      BoundariesStayNear(sz, bsz, |e|, off, off', r);
      assert e[r - 1].first == Boundary(sz, bsz, |e|, off, r - 1);
    }
  }

  /** Extents without the first h bytes of the range. */
  ghost function Headless(e: seq<Extent>, h: nat): (e': seq<Extent>)
    requires e != [] && h <= e[0].second && forall r :: 0 < r < |e| ==> h <= e[r].first
    ensures |e'| == |e|
  {
    seq(|e|, r requires 0 <= r < |e| => if r == 0 then Extent(0, e[0].second - h) else Extent(e[r].first - h, e[r].second))
  }

  /** Without the header, which is shorter than a block, the extents of a file are those
      of its payload at the place where it lies. */
  lemma {:induction false} HeadlessTile(e: seq<Extent>, sz: nat, bsz: nat, h: nat)
    requires 0 < h < bsz && h <= sz && BlockTile(e, sz, bsz, 0)
    ensures h <= e[0].second && forall r :: 0 < r < |e| ==> bsz <= e[r].first
    ensures BlockTile(Headless(e, h), sz - h, bsz, h)
  {
    hide Boundary;
    var n := |e|;
    HeadlessRange(sz, bsz, h);
    forall r | 0 <= r <= n ensures r > 0 ==> Boundary(sz, bsz, n, 0, r) >= bsz
      ensures Boundary(sz - h, bsz, n, h, r) == if r == 0 then 0 else Boundary(sz, bsz, n, 0, r) - h
    {
      HeadlessBoundary(sz, bsz, n, h, r);
    }
    assert e[0].first == Boundary(sz, bsz, n, 0, 0) == 0 && End(e[0]) == Boundary(sz, bsz, n, 0, 0 + 1);
    forall r | 0 < r < n ensures bsz <= e[r].first {
      assert e[r].first == Boundary(sz, bsz, n, 0, r);
    }
    var e' := Headless(e, h);
    forall r | 0 <= r < n
      ensures e'[r].first == Boundary(sz - h, bsz, n, h, r) && End(e'[r]) == Boundary(sz - h, bsz, n, h, r + 1)
    {
      assert e[r].first == Boundary(sz, bsz, n, 0, r) && End(e[r]) == Boundary(sz, bsz, n, 0, r + 1);
    }
    forall r | 0 <= r < n - 1 ensures End(e'[r]) == e'[r + 1].first {
      assert e'[r + 1].first == Boundary(sz - h, bsz, n, h, r + 1);
    }
    BoundariesTile(sz - h, bsz, n, h, n - 1);
  }

  lemma {:induction false} HeadlessRange(sz: nat, bsz: nat, h: nat)
    requires 0 < h < bsz && h <= sz && sz >= FirstBlock(bsz, 0) + LastBlock(sz, bsz, 0)
    ensures FirstBlock(bsz, 0) == bsz && FirstBlock(bsz, h) == bsz - h && LastBlock(sz - h, bsz, h) == LastBlock(sz, bsz, 0)
    ensures sz - h >= FirstBlock(bsz, h) + LastBlock(sz - h, bsz, h)
    ensures BlockCount(sz - h, bsz, h) == BlockCount(sz, bsz, 0) >= 2
  {
    DivUnique(0, bsz, 0, 0);
    DivUnique(h, bsz, 0, h);
  }

  lemma {:induction false} HeadlessBoundary(sz: nat, bsz: nat, n: nat, h: nat, r: nat)
    requires 0 < h < bsz && h <= sz && sz >= FirstBlock(bsz, 0) + LastBlock(sz, bsz, 0) && n > 0 && r <= n
    requires sz - h >= FirstBlock(bsz, h) + LastBlock(sz - h, bsz, h)
    ensures r > 0 ==> Boundary(sz, bsz, n, 0, r) >= bsz
    ensures Boundary(sz - h, bsz, n, h, r) == if r == 0 then 0 else Boundary(sz, bsz, n, 0, r) - h
  {
    HeadlessRange(sz, bsz, h);
    var bcnt := BlockCount(sz, bsz, 0);
    StartBounds(bcnt, n, 0);
    StartBounds(bcnt, n, r);
    if 0 < r < n {
      StartPositive(bcnt, n, r);
    }
    hide Start, FirstBlock, LastBlock, BlockCount;
    var k := Start(bcnt, n, r);
    if r > 0 {
      MulKeepsOrder(1, k, bsz);
    }
  }

  /** The first step of the copy: the rank whose extent starts the file gives up the
      file header, and the others number their bytes from behind it. */
  method DropHeader(dec: seq<Extent>, vecs: seq<seq<Byte>>, bsz: nat, hosz: nat, ghost data: seq<Byte>)
    returns (dec': seq<Extent>, vecs': seq<seq<Byte>>)
    requires |dec| == |vecs| > 0 && 0 < hosz < bsz && hosz <= |data| && BlockTile(dec, |data|, bsz, 0)
    requires forall r :: 0 <= r < |dec| ==> Holds(data, dec[r], vecs[r])
    ensures |dec'| == |vecs'| == |dec| && BlockTile(dec', |data| - hosz, bsz, hosz)
    ensures forall r :: 0 <= r < |dec| ==> Holds(data[hosz..], dec'[r], vecs'[r])
  {
    hide *;
    HeadlessTile(dec, |data|, bsz, hosz);
    FirstRank(dec, |data|, bsz);
    dec', vecs' := [], [];
    for r := 0 to |dec|
      invariant |dec'| == |vecs'| == r
      invariant forall q :: 0 <= q < r ==> dec'[q] == Headless(dec, hosz)[q] && Holds(data[hosz..], dec'[q], vecs'[q])
    {
      HeadlessAt(dec, hosz, r);
      HoldsLong(data, dec[r], vecs[r]);
      var e, buf := dec[r], vecs[r];
      if e.first == 0 {
        buf := buf[hosz..];
        e := e.(second := e.second - hosz);
      } else {
        e := e.(first := e.first - hosz);
      }
      HeadlessHolds(data, hosz, dec[r], vecs[r], e, buf);
      dec', vecs' := dec' + [e], vecs' + [buf];
    }
    assert dec' == Headless(dec, hosz);
  }

  lemma {:induction false} HeadlessAt(e: seq<Extent>, h: nat, r: nat)
    requires e != [] && h <= e[0].second && (forall r :: 0 < r < |e| ==> h <= e[r].first) && r < |e|
    ensures Headless(e, h)[r] == if r == 0 then Extent(0, e[0].second - h) else Extent(e[r].first - h, e[r].second)
  {
  }

  lemma {:induction false} HoldsLong(data: seq<Byte>, e: Extent, vec: seq<Byte>)
    requires Holds(data, e, vec)
    ensures |vec| == e.second
  {
  }

  lemma {:induction false} FirstRank(dec: seq<Extent>, sz: nat, bsz: nat)
    requires BlockTile(dec, sz, bsz, 0)
    ensures dec[0].first == 0
  {
  }

  lemma {:induction false} HeadlessHolds(data: seq<Byte>, h: nat, e: Extent, vec: seq<Byte>, e': Extent, vec': seq<Byte>)
    requires Holds(data, e, vec) && h <= |data|
    requires (e.first == 0 && h <= e.second && e' == Extent(0, e.second - h) && vec' == vec[h..])
          || (e.first >= h && e' == Extent(e.first - h, e.second) && vec' == vec)
    ensures Holds(data[h..], e', vec')
  {
  }

  /** The chain `dec = writeArb(..., offs[j], ...)`: each offset receives a copy. */
  method WriteCopies(out: array<Byte>, offs: seq<nat>, bsz: nat, off: nat, dec: seq<Extent>, tsz: nat,
                     vecs: seq<seq<Byte>>, ghost data: seq<Byte>)
    requires |dec| == |vecs| > 0 && bsz > 0 && |data| == tsz && BlockTile(dec, tsz, bsz, off)
    requires forall j :: 0 <= j < |offs| ==> tsz >= FirstBlock(bsz, offs[j]) + LastBlock(tsz, bsz, offs[j])
    requires forall r :: 0 <= r < |dec| ==> Holds(data, dec[r], vecs[r])
    requires out.Length < MAX_POS && forall j :: 0 <= j < |offs| ==> offs[j] + tsz <= out.Length
    requires forall i, j :: 0 <= i < j < |offs| ==> offs[i] + tsz <= offs[j]
    modifies out
    ensures forall j :: 0 <= j < |offs| ==> out[offs[j]..offs[j] + tsz] == data
    ensures forall k :: 0 <= k < out.Length && (forall j :: 0 <= j < |offs| ==> k < offs[j] || offs[j] + tsz <= k) ==>
              out[k] == old(out[k])
  {
    hide Boundary, Holds;
    var cur, held := dec, vecs;
    ghost var at := off;
    for j := 0 to |offs|
      invariant |cur| == |held| == |dec| && BlockTile(cur, tsz, bsz, at)
      invariant forall r :: 0 <= r < |cur| ==> Holds(data, cur[r], held[r])
      invariant forall i :: 0 <= i < j ==> out[offs[i]..offs[i] + tsz] == data
      invariant forall k :: 0 <= k < out.Length && (forall i :: 0 <= i < j ==> k < offs[i] || offs[i] + tsz <= k) ==>
                  out[k] == old(out[k])
    {
      BlockTilesNear(cur, tsz, bsz, at, offs[j]);
      ghost var before := out[..];
      cur, held := WriteArb(out, offs[j], bsz, cur, tsz, held, data);
      at := offs[j];
      forall i | 0 <= i < j ensures out[offs[i]..offs[i] + tsz] == data {
        assert before[offs[i]..offs[i] + tsz] == data;
        assert forall k :: offs[i] <= k < offs[i] + tsz ==> out[k] == before[k];
      }
    }
  }
}
