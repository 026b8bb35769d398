/**
 Gathers: the runs of neighbouring traces with the same inline and crossline.
 Every rank encodes the runs of its own traces; a run that continues over a rank
 boundary is credited to the rank where it begins.
 */
module Gather {
  import opened Blocks
  import opened GlobalArray

  datatype Key = Key(il: int, xl: int)

  datatype Entry = Entry(count: nat, key: Key)

  // ---------------------------------------------------- run-length encoding

  /** Two encodings end to end: the meeting runs melt together if they agree. */
  function Join(a: seq<Entry>, b: seq<Entry>): (r: seq<Entry>) {
    if a != [] && b != [] && a[|a| - 1].key == b[0].key
    then a[..|a| - 1] + [Entry(a[|a| - 1].count + b[0].count, b[0].key)] + b[1..]
    else a + b
  }

  /** The run-length encoding of a sequence of keys. */
  function Runs(s: seq<Key>): (r: seq<Entry>)
    ensures s != [] ==> r != [] && r[0].count > 0 && r[0].key == s[0] && r[|r| - 1].key == s[|s| - 1]
  {
    if s == [] then [] else Join([Entry(1, s[0])], Runs(s[1..]))
  }

  function Repeat(n: nat, key: Key): (s: seq<Key>)
    ensures |s| == n && forall k :: 0 <= k < n ==> s[k] == key
  {
    seq(n, k => key)
  }

  function Expand(runs: seq<Entry>): seq<Key> {
    if runs == [] then [] else Repeat(runs[0].count, runs[0].key) + Expand(runs[1..])
  }

  /** No run is empty and neighbouring runs differ. */
  ghost predicate Maximal(runs: seq<Entry>) {
    && (forall i :: 0 <= i < |runs| ==> runs[i].count > 0)
    && forall i :: 0 < i < |runs| ==> runs[i - 1].key != runs[i].key
  }

  lemma {:induction false} RunsExact(s: seq<Key>)
    ensures Expand(Runs(s)) == s && Maximal(Runs(s))
  {
    if s != [] {
      RunsExact(s[1..]);
      OneMore(s[0], Runs(s[1..]));
      assert s == [s[0]] + s[1..];
    }
  }

  lemma {:induction false} OneMore(key: Key, rest: seq<Entry>)
    requires Maximal(rest)
    ensures Expand(Join([Entry(1, key)], rest)) == [key] + Expand(rest)
    ensures Maximal(Join([Entry(1, key)], rest))
  {
    var longer := Join([Entry(1, key)], rest);
    if rest != [] && rest[0].key == key {
      assert longer == [Entry(1 + rest[0].count, key)] + rest[1..];
      assert longer[1..] == rest[1..];
      assert Repeat(1 + rest[0].count, key) == [key] + Repeat(rest[0].count, key);
    } else {
      assert longer == [Entry(1, key)] + rest;
      assert longer[1..] == rest;
      assert Repeat(1, key) == [key];
    }
  }

  /** A sequence has only one encoding into maximal runs. */
  lemma {:induction false} RunsUnique(runs: seq<Entry>)
    requires Maximal(runs)
    ensures Runs(Expand(runs)) == runs
  {
    if runs != [] {
      RunsUnique(runs[1..]);
      if |runs| > 1 {
        assert runs[1..][0] == runs[1];
        assert Runs(Expand(runs[1..]))[0].key == runs[1].key != runs[0].key;
      }
      RunInFront(runs[0].count, runs[0].key, Expand(runs[1..]));
    }
  }

  lemma {:induction false} RunInFront(n: nat, key: Key, s: seq<Key>)
    requires n > 0 && (s != [] ==> s[0] != key)
    ensures Runs(Repeat(n, key) + s) == [Entry(n, key)] + Runs(s)
  {
    var whole := Repeat(n, key) + s;
    RepeatTail(n, key, s);
    RunsUnfold(whole);
    if n == 1 {
      assert s == [] ==> Runs(s) == [];
      hide Runs, Repeat;
    } else {
      RunInFront(n - 1, key, s);
      LongerRun(n - 1, key, Runs(s));
      hide *;
    }
  }

  lemma {:induction false} RepeatTail(n: nat, key: Key, s: seq<Key>)
    requires n > 0
    ensures var whole := Repeat(n, key) + s;
            whole != [] && whole[0] == key && whole[1..] == if n == 1 then s else Repeat(n - 1, key) + s
  {
  }

  lemma {:induction false} RunsUnfold(s: seq<Key>)
    requires s != []
    ensures Runs(s) == Join([Entry(1, s[0])], Runs(s[1..]))
  {
  }

  lemma {:induction false} LongerRun(n: nat, key: Key, rest: seq<Entry>)
    ensures Join([Entry(1, key)], [Entry(n, key)] + rest) == [Entry(n + 1, key)] + rest
  {
    assert ([Entry(n, key)] + rest)[1..] == rest;
  }

  /** The encoding of a concatenation is the join of the encodings. */
  lemma {:induction false} RunsConcat(a: seq<Key>, b: seq<Key>)
    ensures Runs(a + b) == Join(Runs(a), Runs(b))
  {
    RunsExact(a);
    RunsExact(b);
    ExpandJoin(Runs(a), Runs(b));
    RunsUnique(Join(Runs(a), Runs(b)));
  }

  lemma {:induction false} ExpandJoin(a: seq<Entry>, b: seq<Entry>)
    requires Maximal(a) && Maximal(b)
    ensures Expand(Join(a, b)) == Expand(a) + Expand(b) && Maximal(Join(a, b))
  {
    JoinMaximal(a, b);
    hide Maximal, Expand;
    if a != [] && b != [] && a[|a| - 1].key == b[0].key {
      var front, last, rest := a[..|a| - 1], a[|a| - 1], b[1..];
      var melted := Entry(last.count + b[0].count, b[0].key);
      assert a == front + [last] && b == [b[0]] + rest;
      assert Join(a, b) == front + [melted] + rest;
      ExpandMiddle(front, melted, rest);
      ExpandConcat(front, [last]);
      ExpandConcat([b[0]], rest);
      ExpandOne(last);
      ExpandOne(b[0]);
      assert Repeat(melted.count, melted.key) == Repeat(last.count, last.key) + Repeat(b[0].count, b[0].key);
    } else {
      ExpandConcat(a, b);
    }
  }

  lemma {:induction false} JoinMaximal(a: seq<Entry>, b: seq<Entry>)
    requires Maximal(a) && Maximal(b)
    ensures Maximal(Join(a, b))
  {
  }

  lemma {:induction false} ExpandMiddle(front: seq<Entry>, e: Entry, rest: seq<Entry>)
    ensures Expand(front + [e] + rest) == Expand(front) + Repeat(e.count, e.key) + Expand(rest)
  {
    ExpandConcat(front, [e]);
    ExpandConcat(front + [e], rest);
    ExpandOne(e);
  }

  lemma {:induction false} ExpandConcat(a: seq<Entry>, b: seq<Entry>)
    ensures Expand(a + b) == Expand(a) + Expand(b)
  {
    if a == [] {
      assert a + b == b;
    } else {
      assert (a + b)[1..] == a[1..] + b;
      ExpandConcat(a[1..], b);
    }
  }

  lemma {:induction false} ExpandOne(e: Entry)
    ensures Expand([e]) == Repeat(e.count, e.key)
  {
    assert [e][1..] == [];
  }

  /** One key more at the end. */
  function Push(runs: seq<Entry>, key: Key): seq<Entry> {
    var n := |runs| - 1;
    if runs != [] && runs[n].key == key then runs[n := Entry(runs[n].count + 1, key)] else runs + [Entry(1, key)]
  }

  lemma {:induction false} RunsPush(s: seq<Key>, key: Key)
    ensures Runs(s + [key]) == Push(Runs(s), key)
  {
    RunsConcat(s, [key]);
    RunsOne(key);
  }

  lemma {:induction false} RunsOne(key: Key)
    ensures Runs([key]) == [Entry(1, key)]
  {
    assert [key][1..] == [];
  }

  /** Opening an empty run if the key is new and then counting the trace. */
  lemma {:induction false} CountsOne(before: seq<Entry>, runs: seq<Entry>, key: Key)
    requires before != []
    requires runs == if before[|before| - 1].key == key then before else before + [Entry(0, key)]
    ensures var n := |runs| - 1;
            runs[n := Entry(runs[n].count + 1, runs[n].key)] == Push(before, key)
    ensures Push(before, key) != [] && Push(before, key)[|Push(before, key)| - 1].key == key
  {
  }

  /** The local loop: extend the last run or start a new one. */
  method LocalRuns(prm: seq<Key>) returns (lline: seq<Entry>)
    requires prm != []
    ensures lline == Runs(prm)
  {
    hide *;
    var ill, xll := prm[0].il, prm[0].xl;
    lline := [Entry(1, Key(ill, xll))];
    RunsOne(prm[0]);
    assert prm[..1] == [prm[0]];
    for i := 1 to |prm|
      invariant lline == Runs(prm[..i])
      invariant lline != [] && lline[|lline| - 1].key == Key(ill, xll)
    {
      var il, xl := prm[i].il, prm[i].xl;
      assert prm[..i + 1] == prm[..i] + [prm[i]];
      RunsPush(prm[..i], prm[i]);
      ghost var before := lline;
      if il != ill || xl != xll {
        lline := lline + [Entry(0, Key(il, xl))];
        ill, xll := il, xl;
      }
      CountsOne(before, lline, prm[i]);
      var back := lline[|lline| - 1];
      lline := lline[|lline| - 1 := Entry(back.count + 1, back.key)];
    }
    assert prm[..|prm|] == prm;
  }

  // -------------------------------------------------------- over all the ranks

  ghost predicate NoRankEmpty(prm: seq<seq<Key>>) {
    forall r :: 0 <= r < |prm| ==> prm[r] != []
  }

  /** The encodings of the ranks' own traces. */
  function LocalLines(prm: seq<seq<Key>>): (lines: seq<seq<Entry>>)
    ensures |lines| == |prm|
  {
    seq(|prm|, r requires 0 <= r < |prm| => Runs(prm[r]))
  }

  predicate NoLineEmpty(lines: seq<seq<Entry>>) {
    forall r :: 0 <= r < |lines| ==> lines[r] != [] && lines[r][0].count > 0
  }

  function First(lines: seq<seq<Entry>>, r: nat): Entry
    requires NoLineEmpty(lines) && r < |lines|
  {
    lines[r][0]
  }

  function Last(lines: seq<seq<Entry>>, r: nat): Entry
    requires NoLineEmpty(lines) && r < |lines|
  {
    lines[r][|lines[r]| - 1]
  }

  /** Whether the first run of rank r began on the rank before. */
  predicate Continues(lines: seq<seq<Entry>>, r: nat)
    requires NoLineEmpty(lines) && r < |lines|
  {
    r > 0 && Last(lines, r - 1).key == First(lines, r).key
  }

  function Begin(lines: seq<seq<Entry>>, r: nat): (start: nat)
    requires NoLineEmpty(lines) && r < |lines|
    ensures start <= |lines[r]|
  {
    if Continues(lines, r) then 1 else 0
  }

  /** The first runs of the ranks from r on, for as long as they carry the key. */
  function Chain(lines: seq<seq<Entry>>, r: nat, key: Key): nat
    requires NoLineEmpty(lines) && r <= |lines|
    decreases |lines| - r
  {
    if r < |lines| && First(lines, r).key == key then First(lines, r).count + Chain(lines, r + 1, key) else 0
  }

  /** A rank's runs without a first one that began further left, its last run with
      the count from further right. */
  function Credit(line: seq<Entry>, start: nat, extra: nat): seq<Entry>
    requires line != [] && start <= |line|
  {
    var n := |line| - 1;
    if start <= n then line[start..n] + [Entry(line[n].count + extra, line[n].key)] else []
  }

  /** What rank r contributes to the table. */
  function Part(lines: seq<seq<Entry>>, r: nat): seq<Entry>
    requires NoLineEmpty(lines) && r < |lines|
  {
    Credit(lines[r], Begin(lines, r), Chain(lines, r + 1, Last(lines, r).key))
  }

  /** The table from rank r on. */
  function Table(lines: seq<seq<Entry>>, r: nat): seq<Entry>
    requires NoLineEmpty(lines) && r <= |lines|
    decreases |lines| - r
  {
    if r == |lines| then [] else Part(lines, r) + Table(lines, r + 1)
  }

  /** What the table should be: the encoding of all the traces from rank r on. */
  function Spec(lines: seq<seq<Entry>>, r: nat): seq<Entry>
    requires r <= |lines|
    decreases |lines| - r
  {
    if r == |lines| then [] else Join(lines[r], Spec(lines, r + 1))
  }

  /** Rank r enters with a run of its left neighbour, leaves it, and its right
      neighbour enters with it again: the chain does not notice the interruption. */
  predicate Returns(lines: seq<seq<Entry>>, r: nat)
    requires NoLineEmpty(lines) && r < |lines|
  {
    && Continues(lines, r)
    && |lines[r]| > 1
    && r + 1 < |lines| && First(lines, r + 1).key == First(lines, r).key
  }

  predicate NoReturnFrom(lines: seq<seq<Entry>>, r: nat)
    requires NoLineEmpty(lines) && r <= |lines|
  {
    forall i :: r <= i < |lines| ==> !Returns(lines, i)
  }

  /** The table from r on is right, and so is the count that a rank further left
      adds for the run rank r enters with. */
  predicate Right(lines: seq<seq<Entry>>, r: nat)
    requires NoLineEmpty(lines) && r < |lines|
  {
    var spec := Spec(lines, r);
    && Begin(lines, r) <= |spec|
    && Table(lines, r) == spec[Begin(lines, r)..]
    && (Continues(lines, r) ==> Chain(lines, r, First(lines, r).key) == spec[0].count)
  }

  lemma {:induction false} SpecStarts(lines: seq<seq<Entry>>, r: nat)
    requires NoLineEmpty(lines) && r < |lines|
    ensures Spec(lines, r) != [] && Spec(lines, r)[0].key == First(lines, r).key
  {
  }

  /** The table has the right number of rows whatever the keys. */
  lemma {:induction false} TableSize(lines: seq<seq<Entry>>, r: nat)
    requires NoLineEmpty(lines) && r < |lines|
    ensures |Table(lines, r)| == |Spec(lines, r)| - Begin(lines, r)
    decreases |lines| - r
  {
    if r + 1 < |lines| {
      TableSize(lines, r + 1);
      SpecStarts(lines, r + 1);
    } else {
      assert Table(lines, r + 1) == [] && Spec(lines, r + 1) == [];
    }
  }

  /** The count credited to the run rank r enters with. */
  lemma {:induction false} ChainStep(lines: seq<seq<Entry>>, r: nat)
    requires NoLineEmpty(lines) && r + 1 < |lines|
    ensures var key := First(lines, r).key;
            Chain(lines, r, key) ==
            First(lines, r).count + if First(lines, r + 1).key == key then Chain(lines, r + 1, key) else 0
    ensures First(lines, r + 1).count <= Chain(lines, r + 1, First(lines, r + 1).key)
  {
  }

  /** The runs of one rank before the table of the ranks after it, against the same
      runs before the right table. */
  lemma {:induction false} CreditExact(line: seq<Entry>, start: nat, extra: nat, table: seq<Entry>, next: seq<Entry>)
    requires line != [] && next != [] && start <= 1
    ensures var n := |line| - 1;
            var begin := if line[n].key == next[0].key then 1 else 0;
            begin == 0 && extra == 0 ==>
              (Credit(line, start, extra) + table == Join(line, next)[start..] <==> table == next[begin..])
    ensures var n := |line| - 1;
            var begin := if line[n].key == next[0].key then 1 else 0;
            begin == 1 ==>
              (Credit(line, start, extra) + table == Join(line, next)[start..] <==>
               table == next[begin..] && (start <= n ==> extra == next[0].count))
  {
    var n := |line| - 1;
    if line[n].key == next[0].key {
      CreditMelts(line, start, extra, table, next);
    } else if extra == 0 {
      assert Credit(line, start, 0) == line[start..];
      assert (line + next)[start..] == line[start..] + next;
      SameFront(line[start..], table, next);
      assert next[0..] == next;
    }
  }

  lemma {:induction false} CreditMelts(line: seq<Entry>, start: nat, extra: nat, table: seq<Entry>, next: seq<Entry>)
    requires line != [] && next != [] && start <= 1 && line[|line| - 1].key == next[0].key
    ensures Credit(line, start, extra) + table == Join(line, next)[start..] <==>
            table == next[1..] && (start <= |line| - 1 ==> extra == next[0].count)
  {
    var n := |line| - 1;
    var mine, melted := Entry(line[n].count + extra, line[n].key), Entry(line[n].count + next[0].count, next[0].key);
    var rest := next[1..];
    JoinMelts(line, next);
    if start <= n {
      CreditIs(line, start, extra);
      DropFront(line[..n], melted, rest, start);
      hide *;
      assert line[..n][start..] == line[start..n];
      Reassociate(line[start..n], mine, table);
      SameFront(line[start..n], [mine] + table, [melted] + rest);
      SameHeadTail(mine, table, melted, rest);
    } else {
      CreditNone(line, start, extra);
      hide *;
      assert line[..n] == [];
      assert ([] + [melted] + rest)[1..] == rest;
      assert [] + table == table;
    }
  }

  lemma {:induction false} JoinMelts(line: seq<Entry>, next: seq<Entry>)
    requires line != [] && next != [] && line[|line| - 1].key == next[0].key
    ensures var n := |line| - 1;
            Join(line, next) == line[..n] + [Entry(line[n].count + next[0].count, next[0].key)] + next[1..]
  {
  }

  lemma {:induction false} CreditIs(line: seq<Entry>, start: nat, extra: nat)
    requires line != [] && start <= |line| - 1
    ensures var n := |line| - 1;
            Credit(line, start, extra) == line[start..n] + [Entry(line[n].count + extra, line[n].key)]
  {
  }

  lemma {:induction false} CreditNone(line: seq<Entry>, start: nat, extra: nat)
    requires line != [] && |line| - 1 < start <= |line|
    ensures Credit(line, start, extra) == []
  {
  }

  lemma {:induction false} Reassociate(front: seq<Entry>, e: Entry, table: seq<Entry>)
    ensures front + [e] + table == front + ([e] + table)
  {
  }

  lemma {:induction false} DropFront(front: seq<Entry>, e: Entry, rest: seq<Entry>, start: nat)
    requires start <= |front|
    ensures (front + [e] + rest)[start..] == front[start..] + ([e] + rest)
  {
  }

  lemma {:induction false} SameFront(front: seq<Entry>, a: seq<Entry>, b: seq<Entry>)
    ensures front + a == front + b <==> a == b
  {
    assert (front + a)[|front|..] == a && (front + b)[|front|..] == b;
  }

  lemma {:induction false} SameHeadTail(x: Entry, a: seq<Entry>, y: Entry, b: seq<Entry>)
    ensures [x] + a == [y] + b <==> x == y && a == b
  {
    assert ([x] + a)[1..] == a && ([y] + b)[1..] == b;
    assert ([x] + a)[0] == x && ([y] + b)[0] == y;
  }

  /** The run rank r enters with, in the right table. */
  lemma {:induction false} SpecStep(lines: seq<seq<Entry>>, r: nat)
    requires NoLineEmpty(lines) && r + 1 < |lines|
    ensures Spec(lines, r + 1) != [] && Spec(lines, r + 1)[0].key == First(lines, r + 1).key
    ensures Spec(lines, r) == Join(lines[r], Spec(lines, r + 1)) && |Spec(lines, r)| > 0
    ensures Spec(lines, r)[0].count ==
            First(lines, r).count + if |lines[r]| == 1 && Continues(lines, r + 1) then Spec(lines, r + 1)[0].count else 0
    ensures Table(lines, r) == Part(lines, r) + Table(lines, r + 1)
  {
    SpecStarts(lines, r + 1);
  }

  /** The rows of the tables from r on, by those from r + 1 on. */
  lemma {:induction false} RowsStep(lines: seq<seq<Entry>>, r: nat)
    requires NoLineEmpty(lines) && r + 1 < |lines|
    ensures Begin(lines, r) <= |Spec(lines, r)| && Begin(lines, r + 1) <= |Spec(lines, r + 1)| && Spec(lines, r + 1) != []
    ensures Table(lines, r) == Spec(lines, r)[Begin(lines, r)..] <==>
            && Table(lines, r + 1) == Spec(lines, r + 1)[Begin(lines, r + 1)..]
            && (Continues(lines, r + 1) && Begin(lines, r) < |lines[r]| ==>
                  Chain(lines, r + 1, First(lines, r + 1).key) == Spec(lines, r + 1)[0].count)
  {
    TableSize(lines, r);
    TableSize(lines, r + 1);
    SpecStep(lines, r);
    var extra := Chain(lines, r + 1, Last(lines, r).key);
    assert Continues(lines, r + 1) <==> Last(lines, r).key == First(lines, r + 1).key;
    assert !Continues(lines, r + 1) ==> extra == 0;
    assert Part(lines, r) == Credit(lines[r], Begin(lines, r), extra);
    CreditExact(lines[r], Begin(lines, r), extra, Table(lines, r + 1), Spec(lines, r + 1));
    hide Table, Spec, Chain, Join, Credit, NoLineEmpty, Part, Continues, First;
  }

  /** One rank more: right from r on exactly if right from r + 1 on and the key rank
      r enters with does not return. */
  lemma {:induction false} RightStep(lines: seq<seq<Entry>>, r: nat)
    requires NoLineEmpty(lines) && r + 1 < |lines|
    ensures Right(lines, r) <==> Right(lines, r + 1) && !Returns(lines, r)
  {
    RowsStep(lines, r);
    ChainStep(lines, r);
    SpecStep(lines, r);
    assert |lines[r]| == 1 ==> Last(lines, r) == First(lines, r);
    hide Table, Spec, Chain, Join, Credit, NoLineEmpty, Part, First, Last;
  }

  lemma {:induction false} ChainEnd(lines: seq<seq<Entry>>, key: Key)
    requires NoLineEmpty(lines)
    ensures Chain(lines, |lines|, key) == 0
  {
  }

  lemma {:induction false} RightLast(lines: seq<seq<Entry>>, r: nat)
    requires NoLineEmpty(lines) && r + 1 == |lines|
    ensures Right(lines, r) && !Returns(lines, r)
  {
    ChainEnd(lines, Last(lines, r).key);
    ChainEnd(lines, First(lines, r).key);
    var start := Begin(lines, r);
    assert Table(lines, r + 1) == [] && Spec(lines, r + 1) == [];
    assert Spec(lines, r) == lines[r];
    assert Credit(lines[r], start, 0) == lines[r][start..];
    assert Table(lines, r) == lines[r][start..];
    hide Table, Spec, Credit, Part;
  }

  lemma {:induction false} RightFrom(lines: seq<seq<Entry>>, r: nat)
    requires NoLineEmpty(lines) && r < |lines|
    ensures Right(lines, r) <==> NoReturnFrom(lines, r)
    decreases |lines| - r
  {
    hide Right, Returns;
    if r + 1 < |lines| {
      RightFrom(lines, r + 1);
      RightStep(lines, r);
    } else {
      RightLast(lines, r);
    }
  }

  lemma {:induction false} SpecIsRuns(prm: seq<seq<Key>>, r: nat)
    requires r <= |prm|
    ensures Spec(LocalLines(prm), r) == Runs(Flatten(prm[r..]))
    decreases |prm| - r
  {
    if r < |prm| {
      SpecIsRuns(prm, r + 1);
      assert prm[r..][1..] == prm[r + 1..];
      RunsConcat(prm[r], Flatten(prm[r + 1..]));
    }
  }

  /** The condition on the traces: no key is left and taken up again so that the
      trace before a rank, its first trace and the first trace of the next rank
      carry it and some trace of the rank between does not. */
  predicate NoReturn(prm: seq<seq<Key>>)
    requires NoRankEmpty(prm)
  {
    forall r :: 0 < r < |prm| - 1 ==> !Interrupted(prm, r)
  }

  predicate Interrupted(prm: seq<seq<Key>>, r: nat)
    requires NoRankEmpty(prm) && 0 < r < |prm| - 1
  {
    var key := prm[r][0];
    && prm[r - 1][|prm[r - 1]| - 1] == key
    && prm[r + 1][0] == key
    && exists i :: 0 <= i < |prm[r]| && prm[r][i] != key
  }

  /** Whole table: it is the sequential encoding exactly if no key returns. */
  lemma {:induction false} TableExactness(prm: seq<seq<Key>>)
    requires prm != [] && NoRankEmpty(prm)
    ensures Table(LocalLines(prm), 0) == Runs(Flatten(prm)) <==> NoReturn(prm)
    ensures |Table(LocalLines(prm), 0)| == |Runs(Flatten(prm))|
  {
    var lines := LocalLines(prm);
    RightFrom(lines, 0);
    SpecIsRuns(prm, 0);
    assert prm[0..] == prm;
    TableSize(lines, 0);
    assert Spec(lines, 0)[0..] == Spec(lines, 0);
    InterruptedReturns(prm);
    hide Spec, Table, Flatten, Runs, NoReturn, NoReturnFrom, LocalLines;
  }

  lemma {:induction false} InterruptedReturns(prm: seq<seq<Key>>)
    requires prm != [] && NoRankEmpty(prm)
    ensures NoReturn(prm) <==> NoReturnFrom(LocalLines(prm), 0)
  {
    var lines := LocalLines(prm);
    forall r | 0 < r < |prm| - 1 ensures Interrupted(prm, r) <==> Returns(lines, r) {
      InterruptedAt(prm, r);
    }
    assert forall r :: 0 <= r < |prm| && Returns(lines, r) ==> 0 < r < |prm| - 1;
    hide Returns, Interrupted, LocalLines;
  }

  lemma {:induction false} InterruptedAt(prm: seq<seq<Key>>, r: nat)
    requires NoRankEmpty(prm) && 0 < r < |prm| - 1
    ensures Interrupted(prm, r) <==> Returns(LocalLines(prm), r)
  {
    OneRun(prm[r]);
    assert NoLineEmpty(LocalLines(prm));
    hide Runs;
  }

  /** Only a constant sequence has a single run. */
  lemma {:induction false} OneRun(s: seq<Key>)
    requires s != []
    ensures |Runs(s)| > 1 <==> exists i :: 0 <= i < |s| && s[i] != s[0]
  {
    RunsExact(s);
    var runs := Runs(s);
    if |runs| == 1 {
      assert runs[1..] == [];
      assert s == Repeat(runs[0].count, runs[0].key);
    } else {
      assert Expand(runs) == Repeat(runs[0].count, runs[0].key) + (Repeat(runs[1].count, runs[1].key) + Expand(runs[1..][1..]));
      assert s[runs[0].count] == runs[1].key;
    }
  }

  /** Equal keys stand together. */
  ghost predicate Contiguous(s: seq<Key>) {
    forall i, j, k :: 0 <= i < j < k < |s| && s[i] == s[k] ==> s[j] == s[i]
  }

  /** Equal keys that stand together cannot return. */
  lemma {:induction false} ContiguousNeverReturns(prm: seq<seq<Key>>)
    requires NoRankEmpty(prm) && Contiguous(Flatten(prm))
    ensures NoReturn(prm)
  {
    var all, sizes := Flatten(prm), Sizes(prm);
    forall r | 0 < r < |prm| - 1 ensures !Interrupted(prm, r) {
      if Interrupted(prm, r) {
        var i :| 0 <= i < |prm[r]| && prm[r][i] != prm[r][0];
        FlattenAt(prm, r - 1, |prm[r - 1]| - 1);
        FlattenAt(prm, r, i);
        FlattenAt(prm, r + 1, 0);
        OffsetNext(sizes, r - 1);
        OffsetNext(sizes, r);
        assert false;
      }
    }
  }

  /** A run that returns is counted too often: here 4 traces instead of 3. */
  lemma {:induction false} ReturningRun()
    ensures var a, b := Key(1, 1), Key(2, 1);
            var prm := [[a, a], [a, b], [a]];
            && !NoReturn(prm)
            && Runs(Flatten(prm)) == [Entry(3, a), Entry(1, b), Entry(1, a)]
            && Table(LocalLines(prm), 0) == [Entry(4, a), Entry(1, b), Entry(1, a)]
  {
    var a, b := Key(1, 1), Key(2, 1);
    var prm := [[a, a], [a, b], [a]];
    assert prm[1][1] != a && Interrupted(prm, 1);
    hide Runs, Flatten, LocalLines, Table;
    SpecIsRuns(prm, 0);
    assert prm[0..] == prm;
    ReturningLines(a, b);
    ReturningTable(LocalLines(prm), a, b);
  }

  lemma {:induction false} ReturningLines(a: Key, b: Key)
    requires a != b
    ensures LocalLines([[a, a], [a, b], [a]]) == [[Entry(2, a)], [Entry(1, a), Entry(1, b)], [Entry(1, a)]]
  {
    RunsOne(a);
    RunsPush([a], a);
    RunsPush([a], b);
    hide Runs;
    assert [a, a] == [a] + [a] && [a, b] == [a] + [b];
    var lines := LocalLines([[a, a], [a, b], [a]]);
    assert lines[0] == [Entry(2, a)];
    assert lines[1] == [Entry(1, a), Entry(1, b)];
    assert lines[2] == [Entry(1, a)];
  }

  lemma {:induction false} ReturningTable(lines: seq<seq<Entry>>, a: Key, b: Key)
    requires a != b && lines == [[Entry(2, a)], [Entry(1, a), Entry(1, b)], [Entry(1, a)]]
    ensures Spec(lines, 0) == [Entry(3, a), Entry(1, b), Entry(1, a)]
    ensures Table(lines, 0) == [Entry(4, a), Entry(1, b), Entry(1, a)]
  {
    var lc := [Entry(1, a)];
    assert Spec(lines, 2) == lc;
    assert Spec(lines, 1) == lines[1] + lc;
    ChainEnd(lines, a);
    assert Chain(lines, 2, b) == 0 && Chain(lines, 2, a) == 1 && Chain(lines, 1, a) == 2;
    assert Part(lines, 2) == lc && Part(lines, 1) == [Entry(1, b)] && Part(lines, 0) == [Entry(4, a)];
    assert Table(lines, 3) == [];
    assert Table(lines, 2) == lc;
    assert Table(lines, 1) == [Entry(1, b)] + lc;
  }

  // ------------------------------------------------------- the distributed code

  /** One rank after the gathers of first counts, last keys and first keys. The last
      rank reads the entry after the end of the first keys, `beyond`: whatever is
      there, the result is the same. */
  method GatherRank(rank: nat, lline: seq<Entry>, trcnum: seq<nat>, back: seq<Key>, front: seq<Key>, beyond: Key,
                    ghost lines: seq<seq<Entry>>) returns (part: seq<Entry>)
    requires NoLineEmpty(lines) && rank < |lines| == |trcnum| == |back| == |front| && lline == lines[rank]
    requires forall r :: 0 <= r < |lines| ==> trcnum[r] == First(lines, r).count
    requires forall r :: 0 <= r < |lines| ==> back[r] == Last(lines, r).key && front[r] == First(lines, r).key
    ensures part == Part(lines, rank)
  {
    var numRank := |front|;
    var start := if rank > 0 && back[rank - 1] == front[rank] then 1 else 0;
    var mine := lline;
    var n := |lline| - 1;
    if start < |mine| {
      var next := if rank + 1 < numRank then front[rank + 1] else beyond;
      if next == back[rank] {
        var i := rank + 1;
        while i < numRank && back[rank] == front[i]
          invariant rank < i <= numRank && |mine| == |lline| && mine[..n] == lline[..n]
          invariant mine[n].key == lline[n].key
          invariant mine[n].count + Chain(lines, i, back[rank]) == lline[n].count + Chain(lines, rank + 1, back[rank])
        {
          mine := mine[n := Entry(mine[n].count + trcnum[i], mine[n].key)];
          i := i + 1;
        }
      }
    }
    part := mine[start..];
    if start < |mine| {
      assert mine[start..n] == lline[start..n];
      assert part == mine[start..n] + [mine[n]];
    }
  }

  lemma {:induction false} TableIsParts(lines: seq<seq<Entry>>, parts: seq<seq<Entry>>, r: nat)
    requires NoLineEmpty(lines) && r <= |lines| == |parts|
    requires forall q :: 0 <= q < |lines| ==> parts[q] == Part(lines, q)
    ensures Flatten(parts[r..]) == Table(lines, r)
    decreases |lines| - r
  {
    if r < |lines| {
      TableIsParts(lines, parts, r + 1);
      assert parts[r..][1..] == parts[r + 1..];
    }
  }

  /** One rank's part, with everything before it in place. */
  method WriteRank(line: Uniray<Entry>, parts: seq<seq<Entry>>, rank: nat)
    requires line.Valid() && rank < |parts| == line.numRank && line.sz == |Flatten(parts)| == |line.Contents()|
    requires Offset(Sizes(parts), rank) + |parts[rank]| <= line.sz
    requires forall k :: 0 <= k < Offset(Sizes(parts), rank) ==> line.Contents()[k] == Flatten(parts)[k]
    modifies line
    ensures line.Valid() && |line.Contents()| == line.sz
    ensures forall k :: 0 <= k < Offset(Sizes(parts), rank) + |parts[rank]| ==> line.Contents()[k] == Flatten(parts)[k]
  {
    hide *;
    var offset := Offset(Sizes(parts), rank);
    for i := 0 to |parts[rank]|
      invariant line.Valid() && |line.Contents()| == line.sz
      invariant forall k :: 0 <= k < offset + i ==> line.Contents()[k] == Flatten(parts)[k]
    {
      FlattenAt(parts, rank, i);
      line.Set(rank, i + offset, parts[rank][i]);
    }
  }

  /** Every rank writes its part from the prefix sum of the sizes before it. */
  method WriteTable(parts: seq<seq<Entry>>) returns (line: Uniray<Entry>)
    requires parts != []
    ensures fresh(line) && line.Valid() && line.numRank == |parts|
    ensures line.Contents() == Flatten(parts)
  {
    SplitFlatten(parts);
    line := new Uniray<Entry>(Sum(Sizes(parts)), |parts|, Entry(0, Key(0, 0)));
    for rank := 0 to |parts|
      invariant fresh(line) && line.Valid() && line.numRank == |parts| && line.sz == |Flatten(parts)|
      invariant |line.Contents()| == line.sz && Offset(Sizes(parts), rank) <= line.sz
      invariant forall k :: 0 <= k < Offset(Sizes(parts), rank) ==> line.Contents()[k] == Flatten(parts)[k]
    {
      OffsetNext(Sizes(parts), rank);
      WriteRank(line, parts, rank);
    }
    assert Sizes(parts)[..|parts|] == Sizes(parts);
  }

  /** Every rank encodes its own traces. */
  method EncodeAll(prm: seq<seq<Key>>) returns (lines: seq<seq<Entry>>)
    requires NoRankEmpty(prm)
    ensures lines == LocalLines(prm)
  {
    lines := [];
    for r := 0 to |prm|
      invariant |lines| == r && forall q :: 0 <= q < r ==> lines[q] == Runs(prm[q])
    {
      var lline := LocalRuns(prm[r]);
      lines := lines + [lline];
    }
  }

  /** Every rank learns the counts and keys at the ends of all the others. */
  method AdjustAll(lines: seq<seq<Entry>>, beyond: Key) returns (parts: seq<seq<Entry>>)
    requires NoLineEmpty(lines)
    ensures |parts| == |lines| && forall r :: 0 <= r < |lines| ==> parts[r] == Part(lines, r)
  {
    var numRank := |lines|;
    var trcnum := seq(numRank, r requires 0 <= r < numRank => First(lines, r).count);
    var back := seq(numRank, r requires 0 <= r < numRank => Last(lines, r).key);
    var front := seq(numRank, r requires 0 <= r < numRank => First(lines, r).key);
    hide Part, First, Last, NoLineEmpty;
    parts := [];
    for r := 0 to numRank
      invariant |parts| == r && forall q :: 0 <= q < r ==> parts[q] == Part(lines, q)
    {
      var part := GatherRank(r, lines[r], trcnum, back, front, beyond, lines);
      parts := parts + [part];
    }
  }

  /** All ranks: the table in a global array is the sequential encoding of all the
      traces exactly if no key returns. */
  method GetGathers(prm: seq<seq<Key>>, beyond: Key) returns (line: Uniray<Entry>)
    requires prm != [] && NoRankEmpty(prm)
    ensures fresh(line) && line.Valid() && line.numRank == |prm|
    ensures line.Contents() == Runs(Flatten(prm)) <==> NoReturn(prm)
    ensures |line.Contents()| == |Runs(Flatten(prm))|
    ensures line.Contents() == Table(LocalLines(prm), 0)
  {
    var lines := EncodeAll(prm);
    assert NoLineEmpty(lines);
    TableExactness(prm);
    hide Runs, Table, LocalLines, Flatten, NoReturn;
    var parts := AdjustAll(lines, beyond);
    TableIsParts(lines, parts, 0);
    assert parts[0..] == parts;
    line := WriteTable(parts);
  }
}
