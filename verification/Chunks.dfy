/**
 Cutting a transfer of `sz` pieces into chunks of at most `max`.
 */
module Chunks {
  import opened Decomposition

  /** How many chunks there are. */
  function Ceil(sz: nat, max: nat): nat
    requires max > 0
  {
    sz / max + if sz % max > 0 then 1 else 0
  }

  /** A chunk loop that has made c steps makes another one exactly while c < Ceil. */
  lemma {:induction false} InLoop(sz: nat, max: nat, c: nat)
    requires max > 0
    ensures c * max < sz <==> c < Ceil(sz, max)
  {
    assert sz == (sz / max) * max + sz % max;
    if c < Ceil(sz, max) {
      if c < sz / max {
        Spaced(c, sz / max, 1, max);
      }
    } else if sz % max > 0 {
      Spaced(sz / max, c, 1, max);
    } else {
      MulKeepsOrder(sz / max, c, max);
    }
  }

  lemma {:induction false} CeilMonotone(a: nat, b: nat, max: nat)
    requires max > 0 && a <= b
    ensures Ceil(a, max) <= Ceil(b, max)
  {
    if Ceil(b, max) < Ceil(a, max) {
      InLoop(a, max, Ceil(b, max));
      InLoop(b, max, Ceil(b, max));
    }
  }

  /** The largest of the sizes the ranks contribute to a gather. */
  function Largest(all: seq<nat>): (m: nat)
    requires all != []
    ensures m in all && forall r :: 0 <= r < |all| ==> all[r] <= m
  {
    if |all| == 1 then all[0]
    else
      var m := Largest(all[1..]);
      assert forall r :: 1 <= r < |all| ==> all[r] == all[1..][r - 1];
      if all[0] > m then all[0] else m
  }

  /** The padding a rank adds, computed as the code does. */
  function Remaining(all: seq<nat>, sz: nat, max: nat): (rem: int)
    requires max > 0 && sz in all
  {
    var big := Largest(all);
    big / max + (if big % max > 0 then 1 else 0) - sz / max - (if sz % max > 0 then 1 else 0)
  }

  lemma {:induction false} RemainingPads(all: seq<nat>, sz: nat, max: nat)
    requires max > 0 && sz in all
    ensures Remaining(all, sz, max) == Ceil(Largest(all), max) - Ceil(sz, max) >= 0
  {
    CeilMonotone(sz, Largest(all), max);
  }
}
