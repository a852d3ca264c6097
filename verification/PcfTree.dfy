/** The wire layout the code documents for each structure, and the tree round trip through the parser. */
module PcfTree {
  import opened Bytes
  import opened Pcf
  import opened Text
  import opened PcfParser

  /** A parameter as a queue manager sends it. The strings of a MQCFSL all occupy `width` bytes. */
  datatype Wire =
    | WireInt(id: int32, i: int32)
    | WireInt64(id: int32, i64: int64)
    | WireString(id: int32, ccsid: int32, s: Buffer)
    | WireInts(id: int32, ints: seq<int32>)
    | WireInts64(id: int32, ints64: seq<int64>)
    | WireStrings(id: int32, ccsid: int32, width: int32, strings: seq<Buffer>)
    | WireGroup(id: int32, members: seq<Wire>)

  function Padding(n: nat): (r: Buffer)
    ensures (n + |r|) % 4 == 0 && |r| < 4
  {
    seq((4 - n % 4) % 4, _ => 0)
  }

  function Structure(kind: int32, id: int32, body: Buffer): (r: Buffer)
    ensures |r| == 12 + |body|
  {
    Le32(kind) + (Le32(12 + |body|) + (Le32(id) + body))
  }

  function Concat32(ints: seq<int32>): (r: Buffer)
    ensures |r| == 4 * |ints|
  {
    if ints == [] then [] else Le32(ints[0]) + Concat32(ints[1..])
  }

  function Concat64(ints: seq<int64>): (r: Buffer)
    ensures |r| == 8 * |ints|
  {
    if ints == [] then [] else Le64(ints[0]) + Concat64(ints[1..])
  }

  function ConcatAll(strings: seq<Buffer>): Buffer {
    if strings == [] then [] else strings[0] + ConcatAll(strings[1..])
  }

  function Kind(w: Wire): int32 {
    match w
    case WireInt(_, _) => MQCFT_INTEGER
    case WireInt64(_, _) => MQCFT_INTEGER64
    case WireString(_, _, _) => MQCFT_STRING
    case WireInts(_, _) => MQCFT_INTEGER_LIST
    case WireInts64(_, _) => MQCFT_INTEGER64_LIST
    case WireStrings(_, _, _, _) => MQCFT_STRING_LIST
    case WireGroup(_, _) => MQCFT_GROUP
  }

  function StringBody(ccsid: int32, s: Buffer): Buffer {
    Le32(ccsid) + (Le32(|s|) + (s + Padding(|s|)))
  }

  function StringsBody(ccsid: int32, width: int32, strings: seq<Buffer>): Buffer {
    var bytes := ConcatAll(strings);
    Le32(ccsid) + (Le32(|strings|) + (Le32(width) + (bytes + Padding(|bytes|))))
  }

  /** Everything after Type, StrucLength and Parameter. */
  function Body(w: Wire): Buffer
    decreases w, 0
  {
    match w
    case WireInt(_, i) => Le32(i)
    case WireInt64(_, i) => Le32(0) + Le64(i)
    case WireString(_, ccsid, s) => StringBody(ccsid, s)
    case WireInts(_, ints) => Le32(|ints|) + Concat32(ints)
    case WireInts64(_, ints) => Le32(|ints|) + Concat64(ints)
    case WireStrings(_, ccsid, width, strings) => StringsBody(ccsid, width, strings)
    case WireGroup(_, members) => Le32(|members|) + EncodeAll(members)
  }

  function Encode(w: Wire): (r: Buffer)
    ensures |r| >= 12
    decreases w, 1
  {
    Structure(Kind(w), w.id, Body(w))
  }

  function EncodeAll(ws: seq<Wire>): (r: Buffer)
    ensures |ws| <= |r|
    decreases ws, 2
  {
    if ws == [] then [] else Encode(ws[0]) + EncodeAll(ws[1..])
  }

  /** What a layout needs to be writable: equal widths in a string list, and lengths that fit MQLONG. */
  predicate WellFormed(w: Wire)
    decreases w, 0
  {
    |Encode(w)| < 0x8000_0000 &&
    match w
    case WireStrings(_, _, width, strings) =>
      0 <= width && |strings| < 0x8000_0000 && forall s :: s in strings ==> |s| == width
    case WireGroup(_, members) => AllWellFormed(members)
    case _ => true
  }

  predicate AllWellFormed(ws: seq<Wire>)
    decreases ws, 1
  {
    ws == [] || (WellFormed(ws[0]) && AllWellFormed(ws[1..]))
  }

  /** What the parser is meant to return: 64-bit integers narrowed to 32 bits, strings cleaned, an empty
      string as no value, groups member by member. */
  function Meaning(w: Wire): Parameter
    decreases w, 0
  {
    var value := match w
      case WireInt(_, i) => Int(i)
      case WireInt64(_, i) => Int(Wrap32(i))
      case WireString(_, _, s) => if s == [] then Empty else String(CleanString(s))
      case WireInts(_, ints) => Ints(Widen(ints))
      case WireInts64(_, ints) => Ints(ints)
      case WireStrings(_, _, _, strings) => Strings(CleanAll(strings))
      case WireGroup(_, members) => Group(MeaningAll(members));
    Parameter(Kind(w), w.id, value)
  }

  /** 32-bit list items are kept as 64-bit ones. */
  function Widen(ints: seq<int32>): seq<int64> {
    ints
  }

  function CleanAll(strings: seq<Buffer>): seq<Buffer> {
    if strings == [] then [] else [CleanString(strings[0])] + CleanAll(strings[1..])
  }

  function MeaningAll(ws: seq<Wire>): (r: seq<Parameter>)
    ensures |r| == |ws|
    decreases ws, 1
  {
    if ws == [] then [] else [Meaning(ws[0])] + MeaningAll(ws[1..])
  }

  // ----- reading the fields back -----

  lemma HeaderFields(d: Buffer, o: nat, kind: int32, id: int32, body: Buffer)
    requires Holds(d, o, Structure(kind, id, body)) && 12 + |body| < 0x8000_0000
    ensures I32(d, o) == kind && I32(d, o + 4) == 12 + |body| && I32(d, o + 8) == id
    ensures Holds(d, o + 12, body)
  {
    HoldsLe32(d, o, kind, Le32(12 + |body|) + (Le32(id) + body));
    HoldsLe32(d, o + 4, 12 + |body|, Le32(id) + body);
    HoldsLe32(d, o + 8, id, body);
  }

  lemma {:induction false} ReadsInts(d: Buffer, pos: nat, end: nat, ints: seq<int32>)
    requires Holds(d, pos, Concat32(ints)) && pos + 4 * |ints| <= end <= |d|
    ensures IntItems(d, pos, end, |ints|, false) == Widen(ints)
    decreases |ints|
  {
    if ints != [] {
      HoldsLe32(d, pos, ints[0], Concat32(ints[1..]));
      ReadsInts(d, pos + 4, end, ints[1..]);
    }
  }

  lemma {:induction false} ReadsInts64(d: Buffer, pos: nat, end: nat, ints: seq<int64>)
    requires Holds(d, pos, Concat64(ints)) && pos + 8 * |ints| <= end <= |d|
    ensures IntItems(d, pos, end, |ints|, true) == ints
    decreases |ints|
  {
    if ints != [] {
      HoldsLe64(d, pos, ints[0], Concat64(ints[1..]));
      ReadsInts64(d, pos + 8, end, ints[1..]);
    }
  }

  lemma {:induction false} ReadsStrings(d: Buffer, pos: nat, end: nat, strings: seq<Buffer>, width: int32)
    requires 0 <= width && forall s :: s in strings ==> |s| == width
    requires Holds(d, pos, ConcatAll(strings)) && pos + |ConcatAll(strings)| <= end <= |d|
    ensures StringItems(d, pos, end, |strings|, width) == Ok(CleanAll(strings))
    decreases |strings|
  {
    hide CleanString;
    if strings != [] {
      var s := strings[0];
      assert s in strings;
      HoldsConcat(d, pos, s, ConcatAll(strings[1..]));
      HoldsSlice(d, pos, s);
      ReadsStrings(d, pos + width, end, strings[1..], width);
    }
  }

  // ----- one structure -----

  lemma DecodeInt(d: Buffer, o: nat, id: int32, i: int32)
    requires Holds(d, o, Structure(MQCFT_INTEGER, id, Le32(i)))
    ensures StructureAt(d, o) && I32(d, o + 4) == 16
    ensures Decode(d, o) == Ok(Parameter(MQCFT_INTEGER, id, Int(i)))
  {
    hide Le32, I32, U32, IntItems, StringItems, StringValue, Parse;
    HeaderFields(d, o, MQCFT_INTEGER, id, Le32(i));
    assert Le32(i) + [] == Le32(i);
    HoldsLe32(d, o + 12, i, []);
  }

  lemma DecodeInt64(d: Buffer, o: nat, id: int32, i: int64)
    requires Holds(d, o, Structure(MQCFT_INTEGER64, id, Le32(0) + Le64(i)))
    ensures StructureAt(d, o) && I32(d, o + 4) == 24
    ensures Decode(d, o) == Ok(Parameter(MQCFT_INTEGER64, id, Int(Wrap32(i))))
  {
    hide Le32, Le64, I32, I64, U32, IntItems, StringItems, StringValue, Parse;
    HeaderFields(d, o, MQCFT_INTEGER64, id, Le32(0) + Le64(i));
    HoldsLe32(d, o + 12, 0, Le64(i));
    assert Le64(i) + [] == Le64(i);
    HoldsLe64(d, o + 16, i, []);
  }

  lemma DecodeString(d: Buffer, o: nat, id: int32, ccsid: int32, s: Buffer)
    requires 20 + |s| + |Padding(|s|)| < 0x8000_0000 && Holds(d, o, Structure(MQCFT_STRING, id, StringBody(ccsid, s)))
    ensures StructureAt(d, o) && I32(d, o + 4) == 20 + |s| + |Padding(|s|)|
    ensures Decode(d, o) == Ok(Parameter(MQCFT_STRING, id, if s == [] then Empty else String(CleanString(s))))
  {
    hide Le32, I32, U32, IntItems, StringItems, CleanString, Parse;
    HeaderFields(d, o, MQCFT_STRING, id, StringBody(ccsid, s));
    HoldsLe32(d, o + 12, ccsid, Le32(|s|) + (s + Padding(|s|)));
    HoldsLe32(d, o + 16, |s|, s + Padding(|s|));
    HoldsConcat(d, o + 20, s, Padding(|s|));
    HoldsSlice(d, o + 20, s);
  }

  lemma ListItems(d: Buffer, o: nat, kind: int32, id: int32, count: int32, items: Buffer)
    requires Holds(d, o, Structure(kind, id, Le32(count) + items)) && 16 + |items| < 0x8000_0000
    ensures o + 16 + |items| <= |d| && Holds(d, o + 16, items)
  {
    hide Le32, I32;
    HeaderFields(d, o, kind, id, Le32(count) + items);
    HoldsLe32(d, o + 12, count, items);
  }

  lemma DecodeIntList(d: Buffer, o: nat, kind: int32, id: int32, count: int32, items: Buffer, size: nat,
                      ints: seq<int64>)
    requires Holds(d, o, Structure(kind, id, Le32(count) + items)) && |items| == size && 16 + size < 0x8000_0000
    requires kind == MQCFT_INTEGER_LIST || kind == MQCFT_INTEGER64_LIST
    requires o + 16 + size <= |d|
    requires IntItems(d, o + 16, o + 16 + size, count, kind == MQCFT_INTEGER64_LIST) == ints
    ensures StructureAt(d, o) && I32(d, o + 4) == 16 + size
    ensures Decode(d, o) == Ok(Parameter(kind, id, Ints(ints)))
  {
    hide Le32, I32, U32, IntItems, StringItems, StringValue, Parse;
    HeaderFields(d, o, kind, id, Le32(count) + items);
    HoldsLe32(d, o + 12, count, items);
  }

  lemma DecodeInts(d: Buffer, o: nat, id: int32, ints: seq<int32>)
    requires 16 + 4 * |ints| < 0x8000_0000
    requires Holds(d, o, Structure(MQCFT_INTEGER_LIST, id, Le32(|ints|) + Concat32(ints)))
    ensures StructureAt(d, o) && I32(d, o + 4) == 16 + 4 * |ints|
    ensures Decode(d, o) == Ok(Parameter(MQCFT_INTEGER_LIST, id, Ints(Widen(ints))))
  {
    hide Le32, I32, Concat32, IntItems, Decode, Structure, Holds, StructureAt;
    ListItems(d, o, MQCFT_INTEGER_LIST, id, |ints|, Concat32(ints));
    ReadsInts(d, o + 16, o + 16 + 4 * |ints|, ints);
    DecodeIntList(d, o, MQCFT_INTEGER_LIST, id, |ints|, Concat32(ints), 4 * |ints|, Widen(ints));
  }

  lemma DecodeInts64(d: Buffer, o: nat, id: int32, ints: seq<int64>)
    requires 16 + 8 * |ints| < 0x8000_0000
    requires Holds(d, o, Structure(MQCFT_INTEGER64_LIST, id, Le32(|ints|) + Concat64(ints)))
    ensures StructureAt(d, o) && I32(d, o + 4) == 16 + 8 * |ints|
    ensures Decode(d, o) == Ok(Parameter(MQCFT_INTEGER64_LIST, id, Ints(ints)))
  {
    hide Le32, I32, Concat64, IntItems, Decode, Structure, Holds, StructureAt;
    ListItems(d, o, MQCFT_INTEGER64_LIST, id, |ints|, Concat64(ints));
    ReadsInts64(d, o + 16, o + 16 + 8 * |ints|, ints);
    DecodeIntList(d, o, MQCFT_INTEGER64_LIST, id, |ints|, Concat64(ints), 8 * |ints|, ints);
  }

  lemma DecodeStrings(d: Buffer, o: nat, id: int32, ccsid: int32, width: int32, strings: seq<Buffer>)
    requires 0 <= width && |strings| < 0x8000_0000 && forall s :: s in strings ==> |s| == width
    requires 24 + |ConcatAll(strings)| + |Padding(|ConcatAll(strings)|)| < 0x8000_0000
    requires Holds(d, o, Structure(MQCFT_STRING_LIST, id, StringsBody(ccsid, width, strings)))
    ensures StructureAt(d, o) && I32(d, o + 4) == 12 + |StringsBody(ccsid, width, strings)|
    ensures Decode(d, o) == Ok(Parameter(MQCFT_STRING_LIST, id, Strings(CleanAll(strings))))
  {
    hide Le32, I32, U32, IntItems, StringItems, StringValue, ConcatAll, CleanAll, Parse;
    var pad := Padding(|ConcatAll(strings)|);
    HeaderFields(d, o, MQCFT_STRING_LIST, id, StringsBody(ccsid, width, strings));
    HoldsLe32(d, o + 12, ccsid, Le32(|strings|) + (Le32(width) + (ConcatAll(strings) + pad)));
    HoldsLe32(d, o + 16, |strings|, Le32(width) + (ConcatAll(strings) + pad));
    HoldsLe32(d, o + 20, width, ConcatAll(strings) + pad);
    HoldsConcat(d, o + 24, ConcatAll(strings), pad);
    ReadsStrings(d, o + 24, o + 12 + |StringsBody(ccsid, width, strings)|, strings, width);
  }

  lemma {:induction false} DecodeGroup(d: Buffer, o: nat, id: int32, members: seq<Wire>)
    requires AllWellFormed(members) && 16 + |EncodeAll(members)| < 0x8000_0000
    requires Holds(d, o, Structure(MQCFT_GROUP, id, Le32(|members|) + EncodeAll(members)))
    ensures StructureAt(d, o) && I32(d, o + 4) == 16 + |EncodeAll(members)|
    ensures Decode(d, o) == Ok(Parameter(MQCFT_GROUP, id, Group(MeaningAll(members))))
    decreases members, 2
  {
    hide Le32, I32, U32, IntItems, StringItems, StringValue, EncodeAll, Parse;
    HeaderFields(d, o, MQCFT_GROUP, id, Le32(|members|) + EncodeAll(members));
    HoldsLe32(d, o + 12, |members|, EncodeAll(members));
    ParseEncoded(d[o + 16..o + 16 + |EncodeAll(members)|], 0, members);
  }

  /** One structure, wherever it lies in the buffer, decodes to its meaning. */
  lemma {:induction false} DecodeEncoded(d: Buffer, o: nat, w: Wire)
    requires WellFormed(w) && Holds(d, o, Encode(w))
    ensures StructureAt(d, o) && I32(d, o + 4) == |Encode(w)|
    ensures Decode(d, o) == Ok(Meaning(w))
    decreases w, 0
  {
    hide Le32, Le64, I32, Structure, StructureAt, Decode, Holds;
    match w
    case WireInt(id, i) => DecodeInt(d, o, id, i);
    case WireInt64(id, i) => DecodeInt64(d, o, id, i);
    case WireString(id, ccsid, s) => DecodeString(d, o, id, ccsid, s);
    case WireInts(id, ints) => DecodeInts(d, o, id, ints);
    case WireInts64(id, ints) => DecodeInts64(d, o, id, ints);
    case WireStrings(id, ccsid, width, strings) => DecodeStrings(d, o, id, ccsid, width, strings);
    case WireGroup(id, members) => DecodeGroup(d, o, id, members);
  }

  lemma {:induction false} ParseEncoded(d: Buffer, o: nat, ws: seq<Wire>)
    requires AllWellFormed(ws) && Holds(d, o, EncodeAll(ws)) && o + |EncodeAll(ws)| == |d|
    ensures Parse(d, o) == Ok(MeaningAll(ws))
    decreases ws, 1
  {
    hide Le32, I32, U32, Decode, Encode, Meaning;
    if ws != [] {
      HoldsConcat(d, o, Encode(ws[0]), EncodeAll(ws[1..]));
      DecodeEncoded(d, o, ws[0]);
      ParseEncoded(d, o + |Encode(ws[0])|, ws[1..]);
    }
  }

  /** Round trip: every well-formed tree, of any depth, comes back as its meaning. */
  lemma TreeRoundTrip(ws: seq<Wire>)
    requires AllWellFormed(ws)
    ensures Parse(EncodeAll(ws), 0) == Ok(MeaningAll(ws))
  {
    ParseEncoded(EncodeAll(ws), 0, ws);
  }

  lemma SumAligned(m: nat, n: nat)
    requires m % 4 == 0 && n % 4 == 0
    ensures (m + n) % 4 == 0
  {
    hide *;
    assert m + n == 4 * (m / 4 + n / 4);
  }

  lemma MultipleOf4(n: nat, k: nat)
    requires n == 4 * k
    ensures n % 4 == 0
  {
    hide *;
  }

  lemma StringsAligned(ccsid: int32, s: Buffer, width: int32, strings: seq<Buffer>)
    ensures |StringBody(ccsid, s)| % 4 == 0 && |StringsBody(ccsid, width, strings)| % 4 == 0
  {
    hide Le32, Padding, ConcatAll;
    SumAligned(8, |s| + |Padding(|s|)|);
    SumAligned(12, |ConcatAll(strings)| + |Padding(|ConcatAll(strings)|)|);
  }

  lemma BodyAligned(w: Wire)
    requires !w.WireGroup?
    ensures |Body(w)| % 4 == 0
  {
    hide Le32, Le64, Concat32, Concat64, StringBody, StringsBody;
    match w
    case WireString(_, ccsid, s) => StringsAligned(ccsid, s, 0, []);
    case WireStrings(_, ccsid, width, strings) => StringsAligned(ccsid, [], width, strings);
    case WireInts(_, ints) => MultipleOf4(|Body(w)|, 1 + |ints|);
    case WireInts64(_, ints) => MultipleOf4(|Body(w)|, 1 + 2 * |ints|);
    case WireInt(_, _) => MultipleOf4(|Body(w)|, 1);
    case WireInt64(_, _) => MultipleOf4(|Body(w)|, 3);
  }

  lemma GroupSize(w: Wire)
    requires w.WireGroup?
    ensures |Body(w)| == 4 + |EncodeAll(w.members)|
  {
    hide EncodeAll;
  }

  /** Every structure, nested ones included, ends on a multiple of 4. */
  lemma {:induction false} LengthsAligned(w: Wire)
    ensures |Encode(w)| % 4 == 0
    decreases w, 0
  {
    hide Structure, Body, EncodeAll;
    match w {
      case WireGroup(_, members) =>
        AllLengthsAligned(members);
        GroupSize(w);
        SumAligned(4, |EncodeAll(members)|);
      case _ => BodyAligned(w);
    }
    SumAligned(12, |Body(w)|);
  }

  lemma {:induction false} AllLengthsAligned(ws: seq<Wire>)
    ensures |EncodeAll(ws)| % 4 == 0
    decreases ws, 1
  {
    hide Encode;
    if ws != [] {
      LengthsAligned(ws[0]);
      AllLengthsAligned(ws[1..]);
      SumAligned(|Encode(ws[0])|, |EncodeAll(ws[1..])|);
    }
  }
}
