/** Where every field of a structure stands, in plain offsets and codes: MQCFIN, MQCFIN64, MQCFST, MQCFIL,
    MQCFIL64, MQCFSL and MQCFGR. */
module WireLayout {
  import opened Bytes
  import opened Pcf
  import opened PcfTree
  import opened CommandRoundTrip
  import DiscoveryRoundTrip

  function TypeCode(w: Wire): int32 {
    match w
    case WireInt(_, _) => 3
    case WireString(_, _, _) => 4
    case WireInts(_, _) => 5
    case WireStrings(_, _, _, _) => 6
    case WireGroup(_, _) => 20
    case WireInt64(_, _) => 23
    case WireInts64(_, _) => 25
  }

  /** Type, StrucLength and Parameter. */
  lemma HeaderOffsets(w: Wire)
    requires WellFormed(w)
    ensures var e := Encode(w); I32(e, 0) == TypeCode(w) && I32(e, 4) == |e| && I32(e, 8) == w.id
  {
    hide Le32, I32, Body;
    HoldsSelf(Encode(w));
    HeaderFields(Encode(w), 0, Kind(w), w.id, Body(w));
  }

  /** A structure is its header and its body. */
  lemma EncodedAs(w: Wire)
    ensures Encode(w) == Structure(Kind(w), w.id, Body(w))
  {
  }

  lemma BodyFollows(e: Buffer, w: Wire, body: Buffer)
    requires e == Encode(w) && Body(w) == body && |e| < 0x8000_0000
    ensures |e| == 12 + |body| && Holds(e, 12, body)
  {
    hide Le32, Body, I32;
    EncodedAs(w);
    HoldsSelf(e);
    HeaderFields(e, 0, Kind(w), w.id, body);
  }

  lemma Short(w: Wire)
    requires WellFormed(w)
    ensures |Encode(w)| < 0x8000_0000
  {
  }

  /** An integer at 12. */
  lemma IntegerOffsets(id: int32, i: int32)
    ensures var e := Encode(WireInt(id, i)); |e| == 16 && I32(e, 12) == i
  {
    hide Le32, I32, Encode;
    var w := WireInt(id, i);
    EncodedAs(w);
    assert Body(w) == Le32(i) + [];
    BodyFollows(Encode(w), w, Le32(i) + []);
    HoldsLe32(Encode(w), 12, i, []);
  }

  /** A 64-bit integer at 16, behind a reserved word. */
  lemma WideIntegerOffsets(id: int32, i: int64)
    ensures var e := Encode(WireInt64(id, i)); |e| == 24 && I32(e, 12) == 0 && I64(e, 16) == i
  {
    hide Le32, Le64, I32, I64, Encode;
    var w := WireInt64(id, i);
    EncodedAs(w);
    assert Le64(i) + [] == Le64(i);
    BodyFollows(Encode(w), w, Le32(0) + (Le64(i) + []));
    HoldsLe32(Encode(w), 12, 0, Le64(i) + []);
    HoldsLe64(Encode(w), 16, i, []);
  }

  /** A string: character set at 12, length at 16, bytes at 20, then up to three zeros. */
  lemma StringOffsets(id: int32, ccsid: int32, s: Buffer)
    requires WellFormed(WireString(id, ccsid, s))
    ensures var e := Encode(WireString(id, ccsid, s));
            && 20 + |s| <= |e| < 24 + |s|
            && I32(e, 16) == |s| && e[20..20 + |s|] == s
  {
    hide Le32, I32, U32, Encode;
    var w := WireString(id, ccsid, s);
    HoldsSelf(Encode(w));
    DiscoveryRoundTrip.StringFits(w);
    StringFields(Encode(w), 0, id, ccsid, s);
    StringLength(w);
  }

  lemma StringLength(w: Wire)
    requires w.WireString?
    ensures |Encode(w)| == 20 + |w.s| + |Padding(|w.s|)|
  {
    hide Le32;
  }

  /** A list of integers: count at 12, item `k` at 16 + 4k. */
  lemma IntListOffsets(id: int32, ints: seq<int32>, k: nat)
    requires WellFormed(WireInts(id, ints)) && k < |ints|
    ensures var e := Encode(WireInts(id, ints));
            |e| == 16 + 4 * |ints| && I32(e, 12) == |ints| && I32(e, 16 + 4 * k) == ints[k]
  {
    hide Le32, I32, Concat32, Encode;
    var e := Encode(WireInts(id, ints));
    Short(WireInts(id, ints));
    BodyFollows(e, WireInts(id, ints), Le32(|ints|) + Concat32(ints));
    HoldsLe32(e, 12, |ints|, Concat32(ints));
    FieldReadsBack(e, 16, ints, k);
  }

  lemma {:induction false} WideFieldReadsBack(d: Buffer, o: nat, fs: seq<int64>, k: nat)
    requires k < |fs| && Holds(d, o, Concat64(fs))
    ensures o + 8 * k + 8 <= |d| && I64(d, o + 8 * k) == fs[k]
    decreases k
  {
    hide Le64, I64;
    HoldsLe64(d, o, fs[0], Concat64(fs[1..]));
    if k > 0 {
      WideFieldReadsBack(d, o + 8, fs[1..], k - 1);
    }
  }

  /** A list of 64-bit integers: count at 12, item `k` at 16 + 8k. */
  lemma WideListOffsets(id: int32, ints: seq<int64>, k: nat)
    requires WellFormed(WireInts64(id, ints)) && k < |ints|
    ensures var e := Encode(WireInts64(id, ints));
            |e| == 16 + 8 * |ints| && I32(e, 12) == |ints| && I64(e, 16 + 8 * k) == ints[k]
  {
    hide Le32, I32, I64, Concat64, Encode;
    var e := Encode(WireInts64(id, ints));
    Short(WireInts64(id, ints));
    BodyFollows(e, WireInts64(id, ints), Le32(|ints|) + Concat64(ints));
    HoldsLe32(e, 12, |ints|, Concat64(ints));
    WideFieldReadsBack(e, 16, ints, k);
  }

  lemma {:induction false} StringAt(d: Buffer, o: nat, strings: seq<Buffer>, width: nat, k: nat)
    requires k < |strings| && (forall s :: s in strings ==> |s| == width) && Holds(d, o, ConcatAll(strings))
    ensures Holds(d, o + width * k, strings[k])
    decreases k
  {
    hide ConcatAll;
    DiscoveryRoundTrip.ConcatFirst(strings);
    assert strings[0] in strings && forall s :: s in strings[1..] ==> s in strings;
    HoldsConcat(d, o, strings[0], ConcatAll(strings[1..]));
    if k > 0 {
      StringAt(d, o + width, strings[1..], width, k - 1);
      assert o + width + width * (k - 1) == o + width * k;
    }
  }

  lemma StringListHeader(id: int32, ccsid: int32, width: int32, strings: seq<Buffer>)
    requires WellFormed(WireStrings(id, ccsid, width, strings))
    ensures var e := Encode(WireStrings(id, ccsid, width, strings));
            && |e| >= 24 && U32(e, 16) == |strings| && U32(e, 20) == width
            && 0 <= width && (forall s :: s in strings ==> |s| == width) && Holds(e, 24, ConcatAll(strings))
  {
    hide Le32, U32, Encode, StringsBody, ConcatAll;
    var w := WireStrings(id, ccsid, width, strings);
    HoldsSelf(Encode(w));
    DiscoveryRoundTrip.StringsFit(w);
    DiscoveryRoundTrip.StringsFields(Encode(w), 0, id, ccsid, width, strings);
  }

  /** A list of strings: count at 16, their common width at 20, string `k` at 24 + width * k. */
  lemma StringListOffsets(w: Wire, k: nat, at: nat)
    requires w.WireStrings? && WellFormed(w) && k < |w.strings| && at == 24 + w.width * k
    ensures |Encode(w)| >= 24 && U32(Encode(w), 16) == |w.strings| && U32(Encode(w), 20) == w.width
    ensures Holds(Encode(w), at, w.strings[k])
  {
    hide U32, Encode, ConcatAll, WellFormed, Holds;
    StringListHeader(w.id, w.ccsid, w.width, w.strings);
    StringAt(Encode(w), 24, w.strings, w.width, k);
  }

  /** A nested group: count at 12, its members from 16 to its end. */
  lemma GroupOffsets(id: int32, members: seq<Wire>)
    requires WellFormed(WireGroup(id, members))
    ensures var e := Encode(WireGroup(id, members));
            |e| == 16 + |EncodeAll(members)| && I32(e, 12) == |members| && e[16..] == EncodeAll(members)
  {
    hide Le32, I32, EncodeAll, Encode;
    var e := Encode(WireGroup(id, members));
    Short(WireGroup(id, members));
    BodyFollows(e, WireGroup(id, members), Le32(|members|) + EncodeAll(members));
    HoldsLe32(e, 12, |members|, EncodeAll(members));
    HoldsSlice(e, 16, EncodeAll(members));
  }
}
