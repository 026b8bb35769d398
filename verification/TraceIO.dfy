/**
 Reading and writing traces by lists of trace numbers. The layer below moves blocks
 at strictly increasing file positions; the two operations here serve arbitrary
 lists on top of that.
 */
module TraceIO {
  import opened Decomposition
  import opened Params
  import opened RuleTable
  import opened SortIndex

  /** A trace in a file: the parameters in its header, and its samples. */
  datatype FileTrace = FileTrace(header: Cells, samples: seq<real>)

  ghost predicate Uniform(file: seq<FileTrace>, ns: nat) {
    forall i :: 0 <= i < |file| ==> |file[i].samples| == ns
  }

  lemma {:induction false} StartsIncreasing(x: nat)
    ensures StrictlyIncreasing([x])
  {
  }

  lemma {:induction false} StaysIncreasing(s: seq<nat>, x: nat)
    requires StrictlyIncreasing(s) && s != [] && s[|s| - 1] < x
    ensures StrictlyIncreasing(s + [x])
  {
  }

  /** Trace i of a file as it is read: its local number is its place in the file, and
      nothing else is touched. */
  function ReadBack(file: seq<FileTrace>, i: nat): (t: FileTrace)
    requires i < |file|
    ensures t.samples == file[i].samples
    ensures META_LTN in t.header && t.header[META_LTN] == Whole(i)
    ensures forall m :: m != META_LTN ==> (m in t.header <==> m in file[i].header)
    ensures forall m :: m != META_LTN && m in file[i].header ==> t.header[m] == file[i].header[m]
  {
    FileTrace(file[i].header[META_LTN := Whole(i)], file[i].samples)
  }

  /** `readTraceNonContiguous`: the layer below wants increasing positions. */
  method ReadTraceNonContiguous(file: seq<FileTrace>, offset: seq<nat>) returns (traces: seq<FileTrace>)
    requires StrictlyIncreasing(offset) && InRange(offset, 0, |file|)
    ensures |traces| == |offset| && forall i :: 0 <= i < |offset| ==> traces[i] == ReadBack(file, offset[i])
  {
    traces := [];
    for i := 0 to |offset|
      invariant |traces| == i && forall k :: 0 <= k < i ==> traces[k] == ReadBack(file, offset[k])
    {
      var t := file[offset[i]];
      traces := traces + [t.(header := t.header[META_LTN := Whole(offset[i])])];
    }
  }

  // ------------------------------------------------------ readTraceNonMonotonic

  /** The distinct numbers of a list, in increasing order. */
  ghost predicate Deduplicates(offset: seq<nat>, nodups: seq<nat>) {
    && StrictlyIncreasing(nodups)
    && forall x :: x in nodups <==> x in offset
  }

  ghost predicate SortsIndices(offset: seq<nat>, idx: seq<nat>) {
    && Permutation(idx, |offset|)
    && forall i, j :: 0 <= i < j < |offset| ==> offset[idx[i]] <= offset[idx[j]]
  }

  /** `n` counts the changes of value along the sorted list: slot[k] is where the
      k-th number in order sits among the distinct ones. */
  ghost predicate SlotsUpTo(offset: seq<nat>, idx: seq<nat>, nodups: seq<nat>, slot: seq<nat>, j: nat) {
    && |slot| == j <= |idx| == |offset|
    && (forall k :: 0 <= k < j ==> idx[k] < |offset| && slot[k] < |nodups| && nodups[slot[k]] == offset[idx[k]])
    && (forall k :: 0 < k < j ==> slot[k] == slot[k - 1] + if offset[idx[k - 1]] != offset[idx[k]] then 1 else 0)
    && (j > 0 ==> slot[0] == 0)
  }

  ghost predicate SlotsFit(offset: seq<nat>, idx: seq<nat>, nodups: seq<nat>, slot: seq<nat>) {
    SlotsUpTo(offset, idx, nodups, slot, |offset|)
  }

  lemma {:induction false} SlotsExtend(offset: seq<nat>, idx: seq<nat>, nodups: seq<nat>, slot: seq<nat>,
                                       more: seq<nat>, j: nat)
    requires SlotsUpTo(offset, idx, nodups, slot, j) && 0 < j < |offset|
    requires idx[j] < |offset| && slot[j - 1] == |nodups| - 1
    requires more == if offset[idx[j - 1]] != offset[idx[j]] then nodups + [offset[idx[j]]] else nodups
    ensures SlotsUpTo(offset, idx, more, slot + [|more| - 1], j + 1)
  {
  }

  /** Builds the duplicate-free list; the ghost result says which slot serves which
      request. */
  method RemoveDuplicates(offset: seq<nat>, idx: seq<nat>) returns (nodups: seq<nat>, ghost slot: seq<nat>)
    requires |offset| > 0 && SortsIndices(offset, idx)
    ensures Deduplicates(offset, nodups) && SlotsFit(offset, idx, nodups, slot)
  {
    assert forall k :: 0 <= k < |offset| ==> idx[k] < |offset|;
    StartsIncreasing(offset[idx[0]]);
    nodups, slot := [offset[idx[0]]], [0];
    assert SlotsUpTo(offset, idx, nodups, slot, 1);
    for j := 1 to |offset|
      invariant SlotsUpTo(offset, idx, nodups, slot, j)
      invariant nodups != [] && slot[j - 1] == |nodups| - 1 && nodups[|nodups| - 1] == offset[idx[j - 1]]
      invariant StrictlyIncreasing(nodups)
      invariant forall n :: 0 <= n < |nodups| ==> nodups[n] in offset
    {
      hide *;
      ghost var before := nodups;
      if offset[idx[j - 1]] != offset[idx[j]] {
        StaysIncreasing(nodups, offset[idx[j]]);
        nodups := nodups + [offset[idx[j]]];
      }
      SlotsExtend(offset, idx, before, slot, nodups, j);
      slot := slot + [|nodups| - 1];
    }
    NoneForgotten(offset, idx, nodups, slot);
  }

  /** The sorted indices are all there, so no number is left out. */
  lemma {:induction false} NoneForgotten(offset: seq<nat>, idx: seq<nat>, nodups: seq<nat>, slot: seq<nat>)
    requires SortsIndices(offset, idx) && SlotsFit(offset, idx, nodups, slot)
    ensures forall x :: x in offset ==> x in nodups
  {
    forall x | x in offset ensures x in nodups {
      var i :| 0 <= i < |offset| && offset[i] == x;
      var j := PermutationHits(idx, |offset|, i);
      assert nodups[slot[j]] == x;
    }
  }

  /** Stores the samples of trace i. */
  method PutSamples(trc: array<real>, i: nat, ns: nat, samples: seq<real>)
    requires |samples| == ns && (i + 1) * ns <= trc.Length
    modifies trc
    ensures HasSamples(trc[..], i, ns, samples)
    ensures forall p :: 0 <= p < trc.Length && !(i * ns <= p < (i + 1) * ns) ==> trc[p] == old(trc[p])
  {
    assert (i + 1) * ns == i * ns + ns;
    var at := Times(i, ns);
    hide Times;
    for k := 0 to ns
      invariant trc[at..at + k] == samples[..k]
      invariant forall p :: 0 <= p < trc.Length && !(at <= p < at + ns) ==> trc[p] == old(trc[p])
    {
      trc[at + k] := samples[k];
    }
  }

  /** The samples of trace i in a sample array. */
  ghost function Samples(trc: seq<real>, i: nat, ns: nat): (s: seq<real>)
    requires (i + 1) * ns <= |trc|
  {
    MulKeepsOrder(0, i, ns);
    assert (i + 1) * ns == i * ns + ns;
    trc[i * ns..(i + 1) * ns]
  }

  ghost predicate HasSamples(trc: seq<real>, i: nat, ns: nat, samples: seq<real>) {
    (i + 1) * ns <= |trc| && Samples(trc, i, ns) == samples
  }

  /** Reads any non-empty list of traces, in any order and with repetitions: entry j
      of the result is trace offset[j], while the read below sees each trace once,
      in file order. */
  method ReadTraceNonMonotonic(file: seq<FileTrace>, ns: nat, offset: seq<nat>,
                                  trc: array?<real>, prm: array<Cells>, skip: nat) returns (ghost asked: seq<nat>)
    requires Uniform(file, ns) && |offset| > 0 && InRange(offset, 0, |file|)
    requires skip + |offset| <= prm.Length
    requires trc != null ==> trc.Length == Times(|offset|, ns)
    modifies prm, trc
    ensures Deduplicates(offset, asked)
    ensures forall p :: skip <= p < skip + |offset| ==> 1 in prm[p] && prm[p][1] == Whole(offset[p - skip])
    ensures forall p, m :: skip <= p < skip + |offset| && m != 1 ==>
              && (m in prm[p] <==> m in file[offset[p - skip]].header)
              && (m in prm[p] ==> prm[p][m] == file[offset[p - skip]].header[m])
    ensures forall p :: 0 <= p < prm.Length && !(skip <= p < skip + |offset|) ==> prm[p] == old(prm[p])
    ensures trc != null && ns > 0 ==> forall p :: 0 <= p < trc.Length ==>
              p / ns < |offset| && trc[p] == file[offset[p / ns]].samples[p % ns]
  {
    var sz := |offset|;
    var idx := GetSortIndex(offset);
    ghost var slot;
    var nodups;
    nodups, slot := RemoveDuplicates(offset, idx);
    asked := nodups;
    forall n | 0 <= n < |nodups| ensures 0 <= nodups[n] < |file| {
      assert nodups[n] in offset;
    }
    var traces := ReadTraceNonContiguous(file, nodups);
    ScatterHeaders(file, offset, idx, nodups, slot, traces, prm, skip);
    ghost var rows := prm[..];
    assert forall j :: 0 <= j < |offset| ==> rows[skip + j] == ReadBack(file, offset[j]).header;
    if trc != null {
      ScatterSamples(file, ns, offset, idx, nodups, slot, traces, trc);
      if ns > 0 {
        SamplesRead(file, ns, offset, trc[..]);
      }
    }
    forall p | skip <= p < skip + |offset| ensures prm[p] == ReadBack(file, offset[p - skip]).header {
      assert rows[skip + (p - skip)] == ReadBack(file, offset[p - skip]).header;
    }
    HeadersRead(file, offset, prm[..], skip);
  }

  /** Place p holds sample p % ns of trace p / ns. */
  lemma {:induction false} SamplesRead(file: seq<FileTrace>, ns: nat, offset: seq<nat>, trc: seq<real>)
    requires Uniform(file, ns) && InRange(offset, 0, |file|) && ns > 0 && |trc| == Times(|offset|, ns)
    requires forall j :: 0 <= j < |offset| ==> HasSamples(trc, j, ns, file[offset[j]].samples)
    ensures forall p :: 0 <= p < |trc| ==> p / ns < |offset| && trc[p] == file[offset[p / ns]].samples[p % ns]
  {
    forall p | 0 <= p < |trc| ensures p / ns < |offset| && trc[p] == file[offset[p / ns]].samples[p % ns] {
      TraceAt(p, ns, |offset|);
      var j := p / ns;
      assert HasSamples(trc, j, ns, file[offset[j]].samples);
      SampleAt(trc, j, ns, p);
    }
  }

  lemma {:induction false} TraceAt(p: nat, ns: nat, n: nat)
    requires ns > 0 && p < Times(n, ns)
    ensures p / ns < n
  {
    assert p == (p / ns) * ns + p % ns;
    if p / ns >= n {
      MulKeepsOrder(n, p / ns, ns);
    }
  }

  lemma {:induction false} SampleAt(trc: seq<real>, j: nat, ns: nat, p: nat)
    requires ns > 0 && (j + 1) * ns <= |trc| && p / ns == j
    ensures p < |trc| && p % ns < |Samples(trc, j, ns)| && Samples(trc, j, ns)[p % ns] == trc[p]
  {
    assert (j + 1) * ns == j * ns + ns && p == j * ns + p % ns;
  }

  /** Every field but the local number is that of the file. */
  lemma {:induction false} HeadersRead(file: seq<FileTrace>, offset: seq<nat>, rows: seq<Cells>, skip: nat)
    requires InRange(offset, 0, |file|) && skip + |offset| <= |rows|
    requires forall p :: skip <= p < skip + |offset| ==> rows[p] == ReadBack(file, offset[p - skip]).header
    ensures forall p :: skip <= p < skip + |offset| ==> 1 in rows[p] && rows[p][1] == Whole(offset[p - skip])
    ensures forall p, m :: skip <= p < skip + |offset| && m != 1 ==>
              && (m in rows[p] <==> m in file[offset[p - skip]].header)
              && (m in rows[p] ==> rows[p][m] == file[offset[p - skip]].header[m])
  {
    forall p | skip <= p < skip + |offset| ensures 1 in rows[p] && rows[p][1] == Whole(offset[p - skip]) {
      assert META_LTN in rows[p];
    }
  }

  method ScatterHeaders(ghost file: seq<FileTrace>, offset: seq<nat>, idx: seq<nat>, ghost nodups: seq<nat>,
                        ghost slot: seq<nat>,
                           traces: seq<FileTrace>, prm: array<Cells>, skip: nat)
    requires |offset| > 0 && InRange(offset, 0, |file|) && skip + |offset| <= prm.Length
    requires SortsIndices(offset, idx) && SlotsFit(offset, idx, nodups, slot)
    requires InRange(nodups, 0, |file|)
    requires |traces| == |nodups| && forall n :: 0 <= n < |nodups| ==> traces[n] == ReadBack(file, nodups[n])
    modifies prm
    ensures forall j :: 0 <= j < |offset| ==> prm[skip + j] == ReadBack(file, offset[j]).header
    ensures forall p :: 0 <= p < prm.Length && !(skip <= p < skip + |offset|) ==> prm[p] == old(prm[p])
  {
    var n := 0;
    for j := 0 to |offset|
      invariant j > 0 ==> n == slot[j - 1]
      invariant j == 0 ==> n == 0
      invariant forall i :: 0 <= i < j ==> prm[skip + idx[i]] == ReadBack(file, offset[idx[i]]).header
      invariant forall p :: 0 <= p < prm.Length && !(skip <= p < skip + |offset|) ==> prm[p] == old(prm[p])
    {
      if j > 0 && offset[idx[j - 1]] != offset[idx[j]] {
        n := n + 1;
      }
      assert n == slot[j];
      prm[skip + idx[j]] := traces[n].header;
    }
    forall j | 0 <= j < |offset| ensures prm[skip + j] == ReadBack(file, offset[j]).header {
      var i := PermutationHits(idx, |offset|, j);
    }
  }

  method ScatterSamples(ghost file: seq<FileTrace>, ns: nat, offset: seq<nat>, idx: seq<nat>, ghost nodups: seq<nat>,
                        ghost slot: seq<nat>,
                           traces: seq<FileTrace>, trc: array<real>)
    requires Uniform(file, ns) && |offset| > 0 && InRange(offset, 0, |file|) && trc.Length == Times(|offset|, ns)
    requires SortsIndices(offset, idx) && SlotsFit(offset, idx, nodups, slot)
    requires InRange(nodups, 0, |file|)
    requires |traces| == |nodups| && forall n :: 0 <= n < |nodups| ==> traces[n] == ReadBack(file, nodups[n])
    modifies trc
    ensures forall j :: 0 <= j < |offset| ==> HasSamples(trc[..], j, ns, file[offset[j]].samples)
  {
    hide HasSamples, Samples;
    var n := 0;
    for j := 0 to |offset|
      invariant j > 0 ==> n == slot[j - 1]
      invariant j == 0 ==> n == 0
      invariant forall i :: 0 <= i < j ==> HasSamples(trc[..], idx[i], ns, file[offset[idx[i]]].samples)
    {
      if j > 0 && offset[idx[j - 1]] != offset[idx[j]] {
        n := n + 1;
      }
      assert n == slot[j];
      ghost var before := trc[..];
      MulKeepsOrder(idx[j] + 1, |offset|, ns);
      PutSamples(trc, idx[j], ns, traces[n].samples);
      forall i | 0 <= i < j ensures HasSamples(trc[..], idx[i], ns, file[offset[idx[i]]].samples) {
        StillHas(before, trc[..], idx[j], idx[i], ns, file[offset[idx[i]]].samples);
      }
    }
    forall j | 0 <= j < |offset| ensures HasSamples(trc[..], j, ns, file[offset[j]].samples) {
      var i := PermutationHits(idx, |offset|, j);
    }
  }

  /** Storing one trace leaves every other one alone. */
  lemma {:induction false} StillHas(before: seq<real>, after: seq<real>, i: nat, j: nat, ns: nat, samples: seq<real>)
    requires |before| == |after| && i != j && (i + 1) * ns <= |after| && HasSamples(before, j, ns, samples)
    requires forall p :: 0 <= p < |after| && !(i * ns <= p < (i + 1) * ns) ==> after[p] == before[p]
    ensures HasSamples(after, j, ns, samples)
  {
    if i < j {
      MulKeepsOrder(i + 1, j, ns);
    } else {
      MulKeepsOrder(j + 1, i, ns);
    }
    assert Samples(after, j, ns) == Samples(before, j, ns);
  }
}
