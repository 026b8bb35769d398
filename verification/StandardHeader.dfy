/**
 The trace header in the byte numbers of the standard (section 7 of SEG Y rev 1), where
 the first byte of a header is byte 1: what a row of standard fields puts into it, and
 what is read from it. Bytes 69-70 hold the scale of elevations and depths, bytes 71-72
 that of coordinates, bytes 201-202 that of the shotpoint number.
 */
module StandardHeader {
  import opened Bytes
  import opened HeaderBytes
  import opened HeaderCodec
  import opened Params
  import opened RuleTable
  import opened Scale

  // ------------------------------------------------------------------ bytes

  /** The signed 32-bit number in bytes `first` to `first` + 3 of the header at `base`,
      most significant byte first. */
  ghost function Number32(s: seq<Byte>, base: nat, first: nat): int
    requires 1 <= first <= 237 && base + 240 <= |s|
  {
    var at := base + first - 1;
    var u := s[at] as int * 0x100_0000 + s[at + 1] as int * 0x1_0000 + s[at + 2] as int * 0x100 + s[at + 3] as int;
    if s[at] < 128 then u else u - 0x1_0000_0000
  }

  ghost function Number16(s: seq<Byte>, base: nat, first: nat): int
    requires 1 <= first <= 239 && base + 240 <= |s|
  {
    var at := base + first - 1;
    var u := s[at] as int * 0x100 + s[at + 1] as int;
    if s[at] < 128 then u else u - 0x1_0000
  }

  lemma {:induction false} WordIsNumber32(s: seq<Byte>, base: nat, first: nat)
    requires 1 <= first <= 237 && base + 240 <= |s|
    ensures Word32(s, base + first - 1) == Number32(s, base, first)
  {
    var at := base + first - 1;
    var b := s[at..at + 4];
    assert b[0] == s[at] && b[1] == s[at + 1] && b[2] == s[at + 2] && b[3] == s[at + 3];
  }

  lemma {:induction false} WordIsNumber16(s: seq<Byte>, base: nat, first: nat)
    requires 1 <= first <= 239 && base + 240 <= |s|
    ensures Word16(s, base + first - 1) == Number16(s, base, first)
  {
    var at := base + first - 1;
    var b := s[at..at + 2];
    assert b[0] == s[at] && b[1] == s[at + 1];
  }

  // ------------------------------------------------------------------ fields

  /** Where the standard puts a field: in four bytes, in two, or as a number of units in
      four bytes with its scale in two. */
  datatype Place = Nowhere | Four(first: nat) | Two(first: nat) | FourScaled(first: nat, scale: nat) {
    predicate Inside() {
      match this
      case Nowhere => false
      case Four(first) => 1 <= first <= 237
      case Two(first) => 1 <= first <= 239
      case FourScaled(first, scale) => 1 <= first <= 237 && 1 <= scale <= 239
    }
  }

  /** The fields by the numbers the application knows them by. */
  ghost function PlaceOf(m: Meta): Place {
    match m
    case 3 => Four(1)              // trace number in the line
    case 4 => Four(13)             // trace number in the record
    case 5 => Four(5)              // trace number in the file
    case 6 => Four(25)             // trace number in the ensemble
    case 7 => Two(115)             // samples in the trace
    case 8 => Two(117)             // sample interval
    case 9 => Two(29)              // trace identification code
    case 10 => Four(17)            // energy source point
    case 11 => FourScaled(197, 201) // shotpoint, with its scalar
    case 12 => Two(31)             // vertically summed traces
    case 13 => Two(33)             // horizontally stacked traces
    case 14 => Four(37)            // distance from source to receiver
    case 15 => FourScaled(41, 69)  // receiver group elevation
    case 16 => FourScaled(45, 69)  // surface elevation at the source
    case 17 => FourScaled(49, 69)  // source depth
    case 18 => FourScaled(61, 69)  // water depth at the source
    case 19 => FourScaled(65, 69)  // water depth at the group
    case 20 => FourScaled(73, 71)  // source x
    case 21 => FourScaled(77, 71)  // source y
    case 22 => FourScaled(81, 71)  // group x
    case 23 => FourScaled(85, 71)  // group y
    case 24 => FourScaled(181, 71) // ensemble x
    case 25 => FourScaled(185, 71) // ensemble y
    case 26 => Four(189)           // inline number
    case 27 => Four(193)           // crossline number
    case 28 => Two(211)            // transduction units
    case 29 => Two(203)            // trace value unit
    case _ => Nowhere
  }

  ghost predicate AtPlace(e: Entry, p: Place) {
    match p
    case Nowhere => false
    case Four(first) => e.kind == Long && e.loc == first
    case Two(first) => e.kind == Short && e.loc == first
    case FourScaled(first, scale) => e.kind == Float && e.loc == first && e.scalLoc == scale
  }

  /** The predefined fields lie where the standard has them. */
  lemma {:induction false} PredefinedIsStandard(m: Meta)
    requires m != 0
    ensures Predefined(m).Some? <==> PlaceOf(m) != Nowhere
    ensures Predefined(m).Some? ==> PlaceOf(m).Inside() && AtPlace(Predefined(m).value, PlaceOf(m))
  {
  }

  /** The bytes of a place hold a value: whole numbers modulo 2^32, a Float as the nearest
      number of units of its scale, modulo 2^32. */
  ghost predicate Holds(s: seq<Byte>, base: nat, p: Place, v: Value)
    requires p.Inside() && base + 240 <= |s|
  {
    match p
    case Four(first) => v.Whole? && (v.n - Number32(s, base, first)) % 0x1_0000_0000 == 0
    case Two(first) => v.Whole? && v.n == Number16(s, base, first)
    case FourScaled(first, scale) =>
      v.Real? && (Stored(v.x, Number16(s, base, scale)) - Number32(s, base, first)) % 0x1_0000_0000 == 0
  }

  /** The value that the bytes of a place stand for. */
  ghost function ValueAt(s: seq<Byte>, base: nat, p: Place): Value
    requires p.Inside() && base + 240 <= |s|
  {
    match p
    case Four(first) => Whole(Number32(s, base, first))
    case Two(first) => Whole(Number16(s, base, first))
    case FourScaled(first, scale) => Real(Decoded(Number32(s, base, first), Number16(s, base, scale)))
  }

  /** A rule of predefined fields and trace numbers, as the constructor makes it. */
  ghost predicate Standard(table: Table) {
    forall m :: m in table && m != 1 && m != 2 ==> Predefined(m).Some? && SameField(table[m], Predefined(m).value)
  }

  lemma {:induction false} EntryAtPlace(table: Table, m: Meta)
    requires Standard(table) && m in table && m >= 3
    ensures PlaceOf(m).Inside() && AtPlace(table[m], PlaceOf(m)) && Printed(table, m)
  {
    assert Predefined(m).Some? && SameField(table[m], Predefined(m).value);
    PredefinedIsStandard(m);
    hide Predefined, PlaceOf;
  }

  lemma {:induction false} WordsOf(s: seq<Byte>, base: nat, p: Place)
    requires p.Inside() && base + 240 <= |s|
    ensures !p.Two? ==> Word32(s, base + p.first - 1) == Number32(s, base, p.first)
    ensures p.Two? ==> Word16(s, base + p.first - 1) == Number16(s, base, p.first)
    ensures p.FourScaled? ==> Word16(s, base + p.scale - 1) == Number16(s, base, p.scale)
  {
    hide Word16, Word32, Number16, Number32;
    if p.Two? {
      WordIsNumber16(s, base, p.first);
    } else {
      WordIsNumber32(s, base, p.first);
    }
    if p.FourScaled? {
      WordIsNumber16(s, base, p.scale);
    }
  }

  lemma {:induction false} Modulo(n: int)
    ensures (n - Wrap32(n)) % 0x1_0000_0000 == 0
  {
  }

  /** A row of standard fields puts each of them where the standard has it. */
  lemma {:induction false} FieldWritten(s: seq<Byte>, base: nat, table: Table, cells: Cells, m: Meta)
    requires Encodes(s, base, table, cells) && Standard(table) && m in table && m >= 3
    ensures PlaceOf(m).Inside() && base + 240 <= |s| && m in cells && Holds(s, base, PlaceOf(m), cells[m])
  {
    hide *;
    EntryAtPlace(table, m);
    WordsWritten(s, base, table, cells, m);
    WordsOf(s, base, PlaceOf(m));
    Meant(s, base, table[m], PlaceOf(m), cells[m]);
  }

  /** What the words of a field say. */
  ghost predicate Says(s: seq<Byte>, base: nat, e: Entry, v: Value) {
    match e.kind
    case Long => 1 <= e.loc && base + e.loc + 3 <= |s| && v.Whole? && Word32(s, base + e.loc - 1) == Wrap32(v.n)
    case Short => 1 <= e.loc && base + e.loc + 1 <= |s| && v.Whole? && Word16(s, base + e.loc - 1) == v.n
    case Float =>
      && 1 <= e.loc && base + e.loc + 3 <= |s| && 1 <= e.scalLoc && base + e.scalLoc + 1 <= |s| && v.Real?
      && Word32(s, base + e.loc - 1) == Wrap32(Stored(v.x, Word16(s, base + e.scalLoc - 1)))
    case _ => true
  }

  lemma {:induction false} WordsWritten(s: seq<Byte>, base: nat, table: Table, cells: Cells, m: Meta)
    requires Encodes(s, base, table, cells) && Printed(table, m)
    ensures base + 240 <= |s| && m in cells && Says(s, base, table[m], cells[m])
  {
    hide Word16, Word32, Wrap32, Stored, ScalesAt;
    assert WholeWritten(s, base, table, cells, m);
    if table[m].kind == Float {
      assert FloatWritten(s, base, table, cells, m, ScaleOf(s, base, table, m));
    }
  }

  lemma {:induction false} Meant(s: seq<Byte>, base: nat, e: Entry, p: Place, v: Value)
    requires p.Inside() && base + 240 <= |s| && AtPlace(e, p) && Says(s, base, e, v)
    requires !p.Two? ==> Word32(s, base + p.first - 1) == Number32(s, base, p.first)
    requires p.Two? ==> Word16(s, base + p.first - 1) == Number16(s, base, p.first)
    requires p.FourScaled? ==> Word16(s, base + p.scale - 1) == Number16(s, base, p.scale)
    ensures Holds(s, base, p, v)
  {
    hide Word16, Word32, Wrap32, Stored, Number16, Number32;
    if p.Four? {
      Modulo(v.n);
    } else if p.FourScaled? {
      Modulo(Stored(v.x, Number16(s, base, p.scale)));
    }
  }

  /** Conversely each of them is read from where the standard has it. */
  lemma {:induction false} FieldRead(s: seq<Byte>, base: nat, table: Table, cells: Cells, m: Meta)
    requires Decodes(s, base, table, cells) && Standard(table) && m in table && m >= 3
    ensures PlaceOf(m).Inside() && base + 240 <= |s| && m in cells && cells[m] == ValueAt(s, base, PlaceOf(m))
  {
    hide *;
    EntryAtPlace(table, m);
    FromWords(s, base, table, cells, m);
    WordsOf(s, base, PlaceOf(m));
    ValueMeant(s, base, table, m, PlaceOf(m));
  }

  lemma {:induction false} FromWords(s: seq<Byte>, base: nat, table: Table, cells: Cells, m: Meta)
    requires Decodes(s, base, table, cells) && Printed(table, m)
    ensures base + 240 <= |s| && Room(s, base, table) && m in cells && cells[m] == Read(s, base, table, m)
  {
    hide Layout, Read;
  }

  lemma {:induction false} ValueMeant(s: seq<Byte>, base: nat, table: Table, m: Meta, p: Place)
    requires Room(s, base, table) && Printed(table, m) && base + 240 <= |s| && p.Inside() && AtPlace(table[m], p)
    requires !p.Two? ==> Word32(s, base + p.first - 1) == Number32(s, base, p.first)
    requires p.Two? ==> Word16(s, base + p.first - 1) == Number16(s, base, p.first)
    requires p.FourScaled? ==> Word16(s, base + p.scale - 1) == Number16(s, base, p.scale)
    ensures Read(s, base, table, m) == ValueAt(s, base, p)
  {
    hide Word16, Word32, Decoded, Number16, Number32;
  }
}
