/**
 The rule table of dynamic trace metadata: every field has a type, places in the
 trace header, and a column number among the fields of its type.
 */
module RuleTable {

  datatype MdType = Long | Short | Float | Index | Copy

  type Meta = nat

  const META_COPY: Meta := 0
  const META_LTN: Meta := 1
  const META_GTN: Meta := 2

  /** Column `num` of its type; `scalLoc` is the place of the shared scale of a Float. */
  datatype Entry = Entry(kind: MdType, num: nat, loc: nat, scalLoc: nat)

  type Table = map<Meta, Entry>

  // -------------------------------------------------------------- dense numbering

  ghost predicate Uses(table: Table, k: MdType, x: nat, m: Meta) {
    m in table && table[m].kind == k && table[m].num == x
  }

  ghost predicate Used(table: Table, k: MdType, x: nat) {
    exists m :: Uses(table, k, x, m)
  }

  ghost predicate Below(table: Table, k: MdType, n: nat) {
    forall m :: m in table && table[m].kind == k ==> table[m].num < n
  }

  ghost predicate Apart(table: Table, k: MdType) {
    forall m, m' :: m in table && m' in table && m != m' && table[m].kind == k && table[m'].kind == k ==> table[m].num != table[m'].num
  }

  ghost predicate AllUsed(table: Table, k: MdType, n: nat) {
    forall x :: 0 <= x < n ==> Used(table, k, x)
  }

  /** The fields of one type are numbered 0 .. n-1, each number used exactly once. */
  ghost predicate Dense(table: Table, k: MdType, n: nat) {
    Below(table, k, n) && Apart(table, k) && AllUsed(table, k, n)
  }

  /** Numbers above a freed one move down. */
  function Lowered(e: Entry, freed: Entry): Entry {
    if e.kind == freed.kind && e.num > freed.num then e.(num := e.num - 1) else e
  }

  function Without(table: Table, m: Meta): Table {
    if m in table then map k | k in table && k != m :: Lowered(table[k], table[m]) else table
  }

  /** 1 if the field has the type. */
  function Held(table: Table, m: Meta, k: MdType): nat {
    if m in table && table[m].kind == k then 1 else 0
  }

  lemma {:induction false} WithoutDense(table: Table, m: Meta, k: MdType, n: nat)
    requires Dense(table, k, n)
    ensures Held(table, m, k) <= n && Dense(Without(table, m), k, n - Held(table, m, k))
  {
    if m in table {
      assert table[m].kind == k ==> table[m].num < n;
      WithoutBelow(table, m, k, n);
      WithoutApart(table, m, k);
      WithoutUsed(table, m, k, n);
    }
    hide Below, Apart, AllUsed, Lowered;
  }

  lemma {:induction false} WithoutBelow(table: Table, m: Meta, k: MdType, n: nat)
    requires Below(table, k, n) && Apart(table, k) && m in table && Held(table, m, k) <= n
    ensures Below(Without(table, m), k, n - Held(table, m, k))
  {
    var less := Without(table, m);
    forall m' | m' in less && less[m'].kind == k ensures less[m'].num < n - Held(table, m, k) {
      assert less[m'] == Lowered(table[m'], table[m]);
      assert table[m'].num < n;
      assert table[m].kind == k ==> table[m].num != table[m'].num && table[m].num < n;
    }
  }

  lemma {:induction false} WithoutApart(table: Table, m: Meta, k: MdType)
    requires Apart(table, k) && m in table
    ensures Apart(Without(table, m), k)
  {
    var less := Without(table, m);
    forall i, j | i in less && j in less && i != j && less[i].kind == k && less[j].kind == k ensures less[i].num != less[j].num {
      assert less[i] == Lowered(table[i], table[m]) && less[j] == Lowered(table[j], table[m]);
      assert table[i].num != table[j].num;
      assert table[m].kind == k ==> table[m].num != table[i].num && table[m].num != table[j].num;
    }
  }

  lemma {:induction false} WithoutUsed(table: Table, m: Meta, k: MdType, n: nat)
    requires AllUsed(table, k, n) && m in table && Held(table, m, k) <= n
    ensures AllUsed(Without(table, m), k, n - Held(table, m, k))
  {
    var less := Without(table, m);
    forall x | 0 <= x < n - Held(table, m, k) ensures Used(less, k, x) {
      var y := if table[m].kind == k && x >= table[m].num then x + 1 else x;
      assert Used(table, k, y);
      var m' :| Uses(table, k, y, m');
      assert Uses(less, k, x, m');
    }
  }

  /** A new field takes the next number of its type. */
  lemma {:induction false} WithDense(table: Table, m: Meta, e: Entry, k: MdType, n: nat)
    requires Dense(table, k, n) && m !in table && (e.kind == k ==> e.num == n)
    ensures Dense(table[m := e], k, if e.kind == k then n + 1 else n)
  {
    var more := table[m := e];
    forall x | 0 <= x < (if e.kind == k then n + 1 else n) ensures Used(more, k, x) {
      if x < n {
        assert Used(table, k, x);
        var m' :| Uses(table, k, x, m');
        assert Uses(more, k, x, m');
      } else {
        assert Uses(more, k, x, m);
      }
    }
  }

  /** Overwriting a field with one of another type loses its number. */
  lemma {:induction false} OverwriteBreaks(table: Table, m: Meta, e: Entry, n: nat)
    requires m in table && Dense(table, table[m].kind, n) && e.kind != table[m].kind
    ensures !Dense(table[m := e], table[m].kind, n)
  {
    var k, x, bad := table[m].kind, table[m].num, table[m := e];
    forall m' ensures !Uses(bad, k, x, m') {
      assert Uses(table, k, x, m);
    }
    assert !Used(bad, k, x);
  }

  function Fields(table: Table, k: MdType): set<Meta> {
    set m | m in table && table[m].kind == k
  }

  /** So the counter of a type is the number of its fields. */
  lemma {:induction false} DenseCounts(table: Table, k: MdType, n: nat)
    requires Dense(table, k, n)
    ensures |Fields(table, k)| == n
    decreases n
  {
    if n == 0 {
      assert Fields(table, k) == {};
    } else {
      assert Used(table, k, n - 1);
      var m :| Uses(table, k, n - 1, m);
      WithoutDense(table, m, k, n);
      DenseCounts(Without(table, m), k, n - 1);
      assert Fields(Without(table, m), k) == Fields(table, k) - {m};
    }
  }

  // ------------------------------------------------------------- the standard fields

  datatype Option<T> = None | Some(value: T)

  const TR_SCALE_ELEV := 69
  const TR_SCALE_COORD := 71
  const TR_SHOT_SCAL := 201

  /** The predefined fields and their places in the SEG-Y trace header, first byte 1;
      the column number is given when a field is added. */
  function Predefined(m: Meta): (e: Option<Entry>)
    ensures e.Some? ==> e.value.kind != Index && (e.value.kind == Copy <==> m == META_COPY)
    ensures e.Some? && e.value.kind != Float ==> e.value.scalLoc == 0
    ensures e.Some? && e.value.kind == Copy ==> e.value == Entry(Copy, 0, 0, 0)
  {
    match m
    case 0 => Some(Entry(Copy, 0, 0, 0))
    case 3 => Some(Entry(Long, 0, 1, 0))
    case 4 => Some(Entry(Long, 0, 13, 0))
    case 5 => Some(Entry(Long, 0, 5, 0))
    case 6 => Some(Entry(Long, 0, 25, 0))
    case 7 => Some(Entry(Short, 0, 115, 0))
    case 8 => Some(Entry(Short, 0, 117, 0))
    case 9 => Some(Entry(Short, 0, 29, 0))
    case 10 => Some(Entry(Long, 0, 17, 0))
    case 11 => Some(Entry(Float, 0, 197, TR_SHOT_SCAL))
    case 12 => Some(Entry(Short, 0, 31, 0))
    case 13 => Some(Entry(Short, 0, 33, 0))
    case 14 => Some(Entry(Long, 0, 37, 0))
    case 15 => Some(Entry(Float, 0, 41, TR_SCALE_ELEV))
    case 16 => Some(Entry(Float, 0, 45, TR_SCALE_ELEV))
    case 17 => Some(Entry(Float, 0, 49, TR_SCALE_ELEV))
    case 18 => Some(Entry(Float, 0, 61, TR_SCALE_ELEV))
    case 19 => Some(Entry(Float, 0, 65, TR_SCALE_ELEV))
    case 20 => Some(Entry(Float, 0, 73, TR_SCALE_COORD))
    case 21 => Some(Entry(Float, 0, 77, TR_SCALE_COORD))
    case 22 => Some(Entry(Float, 0, 81, TR_SCALE_COORD))
    case 23 => Some(Entry(Float, 0, 85, TR_SCALE_COORD))
    case 24 => Some(Entry(Float, 0, 181, TR_SCALE_COORD))
    case 25 => Some(Entry(Float, 0, 185, TR_SCALE_COORD))
    case 26 => Some(Entry(Long, 0, 189, 0))
    case 27 => Some(Entry(Long, 0, 193, 0))
    case 28 => Some(Entry(Short, 0, 211, 0))
    case 29 => Some(Entry(Short, 0, 203, 0))
    case _ => None
  }

  const DEFAULT_METAS: seq<Meta> := [20, 21, 22, 23, 24, 25, 14, 26, 27, 5]
  const EXTRA_METAS: seq<Meta> := [3, 4, 6, 10, 9, 12, 13, 15, 16, 17, 7, 8, 11, 29, 28]

  // -------------------------------------------------------------------- the rule

  /** A count after field m is removed and a field of type `plus` is added. */
  function Recount(table: Table, n: nat, m: Meta, k: MdType, plus: MdType): int {
    n - Held(table, m, k) + if k == plus then 1 else 0
  }

  class Rule {
    var translate: Table
    var numLong: nat
    var numShort: nat
    var numFloat: nat
    var numIndex: nat
    var numCopy: nat

    function Num(k: MdType): nat
      reads this
    {
      match k
      case Long => numLong
      case Short => numShort
      case Float => numFloat
      case Index => numIndex
      case Copy => numCopy
    }

    /** After any sequence of operations the numbers of each type are exactly
        0 .. count-1, and only the entry for copying has the Copy type. */
    ghost predicate Valid()
      reads this
    {
      && (forall k: MdType :: Dense(translate, k, Num(k)))
      && forall m :: m in translate && translate[m].kind == Copy ==> m == META_COPY
    }

    method RmRule(m: Meta)
      requires Valid()
      modifies this
      ensures Valid()
      ensures translate == Without(old(translate), m)
      ensures forall k: MdType :: Num(k) == old(Num(k)) - Held(old(translate), m, k)
    {
      RemovalKeeps(m);
      if m in translate {
        ghost var before := translate;
        var entry := translate[m];
        assert Held(translate, m, entry.kind) <= Num(entry.kind);
        match entry.kind {
          case Long => numLong := numLong - 1;
          case Short => numShort := numShort - 1;
          case Float => numFloat := numFloat - 1;
          case Index => numIndex := numIndex - 1;
          case Copy => numCopy := numCopy - 1;
        }
        LowerRest(m, entry);
        forall k: MdType ensures Dense(translate, k, Num(k)) {
          assert Num(k) == old(Num(k)) - Held(before, m, k);
        }
      }
    }

    /** The table and the counters after a removal fit each other. */
    lemma {:induction false} RemovalKeeps(m: Meta)
      requires Valid()
      ensures forall k: MdType :: Held(translate, m, k) <= Num(k) && Dense(Without(translate, m), k, Num(k) - Held(translate, m, k))
    {
      forall k: MdType ensures Held(translate, m, k) <= Num(k) && Dense(Without(translate, m), k, Num(k) - Held(translate, m, k)) {
        WithoutDense(translate, m, k, Num(k));
      }
    }

    /** Erases the field and renumbers the others, met in any order. */
    method LowerRest(m: Meta, entry: Entry)
      requires m in translate && translate[m] == entry
      modifies this`translate
      ensures translate == Without(old(translate), m)
    {
      ghost var before := translate;
      translate := translate - {m};
      var todo := translate.Keys;
      while todo != {}
        invariant todo <= translate.Keys == before.Keys - {m}
        invariant forall k :: k in translate ==> translate[k] == if k in todo then before[k] else Lowered(before[k], entry)
      {
        var t :| t in todo;
        if translate[t].kind == entry.kind && translate[t].num > entry.num {
          translate := translate[t := translate[t].(num := translate[t].num - 1)];
        }
        todo := todo - {t};
      }
    }

    ghost function Counts(): (n: map<MdType, nat>)
      reads this
      ensures forall k: MdType :: k in n && n[k] == Num(k)
    {
      map k: MdType | true :: Num(k)
    }

    /** After adding, with the next number of its type, a field that was not there. */
    lemma {:induction false} AdditionKeeps(before: Table, n: map<MdType, nat>, m: Meta, e: Entry)
      requires forall k: MdType :: k in n && Dense(before, k, n[k])
      requires m !in before && e.num == n[e.kind] && translate == before[m := e]
      requires forall k: MdType :: Num(k) == if k == e.kind then n[k] + 1 else n[k]
      ensures forall k: MdType :: Dense(translate, k, Num(k))
    {
      forall k: MdType ensures Dense(translate, k, Num(k)) {
        WithDense(before, m, e, k, n[k]);
      }
    }

    method AddLong(m: Meta, loc: nat)
      requires Valid()
      modifies this
      ensures Valid() && numLong > 0
      ensures translate == Without(old(translate), m)[m := Entry(Long, numLong - 1, loc, 0)]
      ensures forall k: MdType :: Num(k) == Recount(old(translate), old(Num(k)), m, k, Long)
    {
      if m in translate {
        RmRule(m);
      }
      ghost var before, n := translate, Counts();
      translate := translate[m := Entry(Long, numLong, loc, 0)];
      numLong := numLong + 1;
      AdditionKeeps(before, n, m, translate[m]);
    }

    method AddShort(m: Meta, loc: nat)
      requires Valid()
      modifies this
      ensures Valid() && numShort > 0
      ensures translate == Without(old(translate), m)[m := Entry(Short, numShort - 1, loc, 0)]
      ensures forall k: MdType :: Num(k) == Recount(old(translate), old(Num(k)), m, k, Short)
    {
      if m in translate {
        RmRule(m);
      }
      ghost var before, n := translate, Counts();
      translate := translate[m := Entry(Short, numShort, loc, 0)];
      numShort := numShort + 1;
      AdditionKeeps(before, n, m, translate[m]);
    }

    method AddSEGYFloat(m: Meta, loc: nat, scalLoc: nat)
      requires Valid()
      modifies this
      ensures Valid() && numFloat > 0
      ensures translate == Without(old(translate), m)[m := Entry(Float, numFloat - 1, loc, scalLoc)]
      ensures forall k: MdType :: Num(k) == Recount(old(translate), old(Num(k)), m, k, Float)
    {
      if m in translate {
        RmRule(m);
      }
      ghost var before, n := translate, Counts();
      translate := translate[m := Entry(Float, numFloat, loc, scalLoc)];
      numFloat := numFloat + 1;
      AdditionKeeps(before, n, m, translate[m]);
    }

    method AddIndex(m: Meta)
      requires Valid()
      modifies this
      ensures Valid() && numIndex > 0
      ensures translate == Without(old(translate), m)[m := Entry(Index, numIndex - 1, 0, 0)]
      ensures forall k: MdType :: Num(k) == Recount(old(translate), old(Num(k)), m, k, Index)
    {
      if m in translate {
        RmRule(m);
      }
      ghost var before, n := translate, Counts();
      translate := translate[m := Entry(Index, numIndex, 0, 0)];
      numIndex := numIndex + 1;
      AdditionKeeps(before, n, m, translate[m]);
    }

    /** Unlike the others it does not remove what was there: the numbering survives
        exactly if there was nothing to remove. */
    method AddCopy()
      requires Valid()
      modifies this
      ensures Valid() <==> old(numCopy) > 0 || META_COPY !in old(translate)
      ensures translate == if old(numCopy) > 0 then old(translate) else old(translate)[META_COPY := Entry(Copy, 0, 0, 0)]
      ensures numCopy == (if old(numCopy) > 0 then old(numCopy) else 1)
      ensures forall k: MdType :: k != Copy ==> Num(k) == old(Num(k))
    {
      if numCopy == 0 {
        var e := Entry(Copy, 0, 0, 0);
        assert META_COPY in translate ==> translate[META_COPY].kind != Copy by {
          assert Dense(translate, Copy, Num(Copy));
        }
        if META_COPY in translate {
          ghost var k := translate[META_COPY].kind;
          OverwriteBreaks(translate, META_COPY, e, Num(k));
          ghost var n := Num(k);
          translate := translate[META_COPY := e];
          numCopy := numCopy + 1;
          assert Num(k) == n;
        } else {
          ghost var before, n := translate, Counts();
          translate := translate[META_COPY := e];
          numCopy := numCopy + 1;
          AdditionKeeps(before, n, META_COPY, e);
        }
      }
    }

    lemma {:induction false} NothingCopied()
      requires Valid() && META_COPY !in translate
      ensures numCopy == 0
    {
      assert Dense(translate, Copy, Num(Copy));
      assert numCopy > 0 ==> Used(translate, Copy, 0);
    }

    /** Adds a predefined field unless the table has the field already or there is no
        definition. */
    method AddRule(m: Meta) returns (added: bool)
      requires Valid()
      modifies this
      ensures Valid()
      ensures added <==> m !in old(translate) && Predefined(m).Some?
      ensures !added ==> translate == old(translate) && forall k: MdType :: Num(k) == old(Num(k))
      ensures added ==> translate == old(translate)[m := Predefined(m).value.(num := old(Num(Predefined(m).value.kind)))]
      ensures added ==> forall k: MdType :: Num(k) == Recount(old(translate), old(Num(k)), m, k, Predefined(m).value.kind)
    {
      if m in translate || Predefined(m).None? {
        return false;
      }
      assert Without(translate, m) == translate;
      var e := Predefined(m).value;
      if e.kind == Copy {
        NothingCopied();
      }
      hide Predefined;
      match e.kind {
        case Long => AddLong(m, e.loc);
        case Short => AddShort(m, e.loc);
        case Float => AddSEGYFloat(m, e.loc, e.scalLoc);
        case Copy => AddCopy();
      }
      return true;
    }

    /** Adds the fields another rule has and this one has not, in whatever order its
        map is walked. */
    method AddRules(r: Rule)
      requires Valid() && r.Valid()
      modifies this
      ensures Valid()
      ensures translate.Keys == old(translate.Keys) + old(r.translate.Keys)
      ensures forall m :: m in old(translate) ==> translate[m] == old(translate)[m]
      ensures forall m :: m in old(r.translate) && m !in old(translate) ==> SameField(translate[m], old(r.translate)[m])
    {
      var todo := r.translate.Keys;
      var other := r.translate;
      while todo != {}
        invariant Valid() && todo <= other.Keys
        invariant translate.Keys == old(translate.Keys) + (other.Keys - todo)
        invariant forall m :: m in old(translate) ==> translate[m] == old(translate)[m]
        invariant forall m :: m in other && m !in todo && m !in old(translate) ==> SameField(translate[m], other[m])
      {
        var m :| m in todo;
        todo := todo - {m};
        if m !in translate {
          assert Without(translate, m) == translate;
          var e := other[m];
          match e.kind {
            case Float => AddSEGYFloat(m, e.loc, e.scalLoc);
            case Long => AddLong(m, e.loc);
            case Short => AddShort(m, e.loc);
            case Index => AddIndex(m);
            case Copy =>
              assert m == META_COPY;
              NothingCopied();
              AddCopy();
          }
        }
      }
    }

    /** The numbers of the file and of the set first, then the listed fields and, if
        asked for, the default and the extra ones. */
    constructor (mlist: seq<Meta>, defaults: bool, extras: bool)
      ensures Valid()
      ensures translate.Keys ==
              {META_GTN, META_LTN} + Known(mlist) + (if defaults then Known(DEFAULT_METAS) else {}) + (if extras then Known(EXTRA_METAS) else {})
      ensures forall m :: m in translate && m != META_GTN && m != META_LTN ==> SameField(translate[m], Predefined(m).value)
      ensures translate[META_GTN].kind == Index && translate[META_LTN].kind == Index
    {
      translate := map[];
      numLong, numShort, numFloat, numIndex, numCopy := 0, 0, 0, 0, 0;
      new;
      AddIndex(META_GTN);
      AddIndex(META_LTN);
      assert translate.Keys == {META_GTN, META_LTN};
      assert translate[META_GTN].kind == Index && translate[META_LTN].kind == Index;
      hide *;
      AddListed(mlist);
      if defaults {
        AddListed(DEFAULT_METAS);
      }
      if extras {
        AddListed(EXTRA_METAS);
      }
    }

    method AddListed(mlist: seq<Meta>)
      requires Valid()
      modifies this
      ensures Valid()
      ensures translate.Keys == old(translate.Keys) + Known(mlist)
      ensures forall m :: m in old(translate) ==> translate[m] == old(translate)[m]
      ensures forall m :: m in translate && m !in old(translate) ==> SameField(translate[m], Predefined(m).value)
    {
      for i := 0 to |mlist|
        invariant Valid()
        invariant translate.Keys == old(translate.Keys) + Known(mlist[..i])
        invariant forall m :: m in old(translate) ==> translate[m] == old(translate)[m]
        invariant forall m :: m in translate && m !in old(translate) ==> SameField(translate[m], Predefined(m).value)
      {
        hide Predefined;
        assert mlist[..i + 1] == mlist[..i] + [mlist[i]];
        var added := AddRule(mlist[i]);
      }
      assert mlist[..|mlist|] == mlist;
    }
  }

  /** The listed fields that have a definition. */
  function Known(mlist: seq<Meta>): set<Meta> {
    set m | m in mlist && Predefined(m).Some?
  }

  lemma {:induction false} Defined(m: Meta)
    ensures Predefined(m).Some? <==> m == 0 || 3 <= m <= 29
  {
  }

  /** A list of fields that are all defined. */
  lemma {:induction false} KnownAll(mlist: seq<Meta>, all: set<Meta>)
    requires forall m :: m in mlist <==> m in all
    requires forall m :: m in all ==> 3 <= m <= 29
    ensures Known(mlist) == all
  {
    hide Predefined;
    forall m | m in all ensures Predefined(m).Some? {
      Defined(m);
    }
  }

  /** The default fields and the trace numbers. */
  lemma {:induction false} DefaultFields(m: Meta)
    ensures m in Known(DEFAULT_METAS) <==> m in {5, 14, 20, 21, 22, 23, 24, 25, 26, 27}
    ensures META_COPY == 0 && META_LTN == 1 && META_GTN == 2
  {
    Defined(m);
    hide Predefined;
    var x := DEFAULT_METAS;
    assert x[0] == 20 && x[1] == 21 && x[2] == 22 && x[3] == 23 && x[4] == 24 && x[5] == 25 && x[6] == 14 && x[7] == 26;
    assert x[8] == 27 && x[9] == 5;
  }

  /** The extra fields are all the other ones. */
  lemma {:induction false} ExtraFields(m: Meta)
    ensures m in Known(EXTRA_METAS) <==> 3 <= m <= 29 && m !in {5, 14, 20, 21, 22, 23, 24, 25, 26, 27} && m != 18 && m != 19
  {
    Defined(m);
    hide Predefined;
    var x := EXTRA_METAS;
    assert x[0] == 3 && x[1] == 4 && x[2] == 6 && x[3] == 10 && x[4] == 9 && x[5] == 12 && x[6] == 13 && x[7] == 15;
    assert x[8] == 16 && x[9] == 17 && x[10] == 7 && x[11] == 8 && x[12] == 11 && x[13] == 29 && x[14] == 28;
  }

  /** The same but for the column number, which follows the order of adding. An index
      has no place in the header. */
  predicate SameField(a: Entry, b: Entry) {
    a.kind == b.kind && (a.kind in {Long, Short, Float} ==> a.loc == b.loc) && (a.kind == Float ==> a.scalLoc == b.scalLoc)
  }
}
