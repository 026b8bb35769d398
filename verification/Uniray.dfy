/**
 The global array of `Uniray`: `sz` items spread over the ranks by the even
 decomposition, every rank able to read and write any of them. `vec[r]` is the
 memory window of rank r.
 */
module GlobalArray {
  import opened Blocks
  import opened Decomposition

  class Uniray<T> {
    const sz: nat
    const numRank: nat
    /** The value of an item nobody has set. */
    const empty: T
    const szall: seq<nat>
    var vec: seq<seq<T>>

    ghost predicate Valid()
      reads this
    {
      numRank > 0 && szall == Shares(sz, numRank) && Sizes(vec) == szall
    }

    /** The array as one sequence. */
    ghost function Contents(): seq<T>
      reads this
    {
      Flatten(vec)
    }

    constructor (sz: nat, numRank: nat, empty: T)
      requires numRank > 0
      ensures Valid() && this.sz == sz && this.numRank == numRank && this.empty == empty
      ensures |Contents()| == sz && forall k :: 0 <= k < sz ==> Contents()[k] == empty
    {
      this.sz, this.numRank, this.empty, this.szall := sz, numRank, empty, Shares(sz, numRank);
      vec := seq(numRank, r requires 0 <= r < numRank => seq(Shares(sz, numRank)[r], k => empty));
      new;
      assert Sizes(vec) == szall;
      ContentsSize();
      forall k | 0 <= k < sz ensures Contents()[k] == empty {
        var r, i := FlattenOwner(vec, k);
      }
    }

    lemma {:induction false} ContentsSize()
      requires Valid()
      ensures |Contents()| == sz && Sum(szall) == sz
    {
      SharesSum(sz, numRank);
      SplitFlatten(vec);
    }

    /** Scans the block sizes for the rank that holds item i. */
    method FindOwner(i: nat) returns (lrank: nat, lOffset: nat)
      requires Valid() && i < sz
      ensures lrank < numRank && lOffset == Offset(szall, lrank) && lOffset <= i < lOffset + szall[lrank]
    {
      lrank, lOffset := 0, 0;
      ContentsSize();
      assert szall[..numRank] == szall;
      while i >= lOffset + szall[lrank] && lrank < numRank
        invariant lrank < numRank && lOffset == Offset(szall, lrank) <= i
      {
        OffsetNext(szall, lrank);
        lOffset := lOffset + szall[lrank];
        lrank := lrank + 1;
      }
    }

    /** Called by `rank`. Item `sz` itself passes the guard and runs off the end of
        the block sizes, so a caller must not ask for it. */
    method Set(rank: nat, i: nat, val: T)
      requires Valid() && rank < numRank && i != sz
      modifies this
      ensures Valid() && |Contents()| == |old(Contents())| == sz
      ensures Contents() == if i < sz then old(Contents())[i := val] else old(Contents())
    {
      ContentsSize();
      if i > sz {
        return;
      }
      var lrank, lOffset := FindOwner(i);
      FlattenUpdate(vec, lrank, i - lOffset, val);
      if lrank == rank {
        vec := vec[rank := vec[rank][i - lOffset := val]];
      } else {
        Put(lrank, i - lOffset, val);
      }
    }

    /** The one-sided write into another rank's window. */
    method Put(target: nat, at: nat, val: T)
      requires target < |vec| && at < |vec[target]|
      modifies this
      ensures vec == old(vec)[target := old(vec)[target][at := val]]
    {
      vec := vec[target := vec[target][at := val]];
    }

    method Get(rank: nat, i: nat) returns (val: T)
      requires Valid() && rank < numRank && i != sz
      ensures |Contents()| == sz && val == if i < sz then Contents()[i] else empty
    {
      ContentsSize();
      if i > sz {
        return empty;
      }
      var lrank, lOffset := FindOwner(i);
      FlattenAt(vec, lrank, i - lOffset);
      val := vec[lrank][i - lOffset];
    }
  }

  lemma {:induction false} FlattenUpdate<T>(blocks: seq<seq<T>>, r: nat, i: nat, val: T)
    requires r < |blocks| && i < |blocks[r]|
    ensures Offset(Sizes(blocks), r) + i < |Flatten(blocks)|
    ensures Flatten(blocks[r := blocks[r][i := val]]) == Flatten(blocks)[Offset(Sizes(blocks), r) + i := val]
    ensures Sizes(blocks[r := blocks[r][i := val]]) == Sizes(blocks)
  {
    FlattenAt(blocks, r, i);
    var changed := blocks[r := blocks[r][i := val]];
    if r > 0 {
      FlattenUpdate(blocks[1..], r - 1, i, val);
      assert changed[1..] == blocks[1..][r - 1 := blocks[r][i := val]];
      assert Sizes(blocks)[..r][1..] == Sizes(blocks[1..])[..r - 1];
    } else {
      assert changed[1..] == blocks[1..];
    }
  }
}
