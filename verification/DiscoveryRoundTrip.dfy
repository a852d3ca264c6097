/** Queue names put into a response are the names discovery reads from it. */
module DiscoveryRoundTrip {
  import opened Bytes
  import opened Pcf
  import opened Text
  import opened PcfTree
  import opened PcfInquiry
  import opened QueueDiscovery
  import opened CommandRoundTrip

  /** The queue names a parameter carries. */
  function NamesOf(w: Wire): seq<Buffer> {
    match w
    case WireString(id, _, s) => if id == 2016 && s != [] then [s] else []
    case WireStrings(id, _, width, strings) => if id == 2016 && width > 0 then strings else []
    case _ => []
  }

  function NamesOfAll(ws: seq<Wire>): seq<Buffer> {
    if ws == [] then [] else NamesOf(ws[0]) + NamesOfAll(ws[1..])
  }

  lemma {:induction false} ListRoundTrip(d: Buffer, pos: nat, strings: seq<Buffer>, width: nat)
    requires width > 0 && (forall s :: s in strings ==> |s| == width) && Holds(d, pos, ConcatAll(strings))
    ensures ListNames(d, pos, |strings|, width) == strings
    decreases |strings|
  {
    hide ConcatAll;
    if strings != [] {
      ConcatFirst(strings);
      assert strings[0] in strings && forall s :: s in strings[1..] ==> s in strings;
      HoldsConcat(d, pos, strings[0], ConcatAll(strings[1..]));
      HoldsSlice(d, pos, strings[0]);
      ListRoundTrip(d, pos + width, strings[1..], width);
    }
  }

  lemma ConcatFirst(strings: seq<Buffer>)
    requires strings != []
    ensures ConcatAll(strings) == strings[0] + ConcatAll(strings[1..])
  {
  }

  lemma StringsFields(d: Buffer, o: nat, id: int32, ccsid: int32, width: int32, strings: seq<Buffer>)
    requires 0 <= width && |strings| < 0x8000_0000
    requires 12 + |StringsBody(ccsid, width, strings)| < 0x8000_0000
    requires Holds(d, o, Structure(MQCFT_STRING_LIST, id, StringsBody(ccsid, width, strings)))
    ensures U32(d, o + 8) == Low32(id) && U32(d, o + 16) == |strings| && U32(d, o + 20) == width
    ensures Holds(d, o + 24, ConcatAll(strings))
  {
    hide Le32, I32, U32;
    var pad := Padding(|ConcatAll(strings)|);
    HeaderFields(d, o, MQCFT_STRING_LIST, id, StringsBody(ccsid, width, strings));
    HoldsLe32(d, o + 12, ccsid, Le32(|strings|) + (Le32(width) + (ConcatAll(strings) + pad)));
    HoldsLe32(d, o + 16, |strings|, Le32(width) + (ConcatAll(strings) + pad));
    HoldsLe32(d, o + 20, width, ConcatAll(strings) + pad);
    HoldsConcat(d, o + 24, ConcatAll(strings), pad);
    UnsignedRead(d, o + 8);
    UnsignedRead(d, o + 16);
    UnsignedRead(d, o + 20);
  }

  lemma StringNames(d: Buffer, o: nat, id: int32, ccsid: int32, s: Buffer)
    requires FitsCommand(s) && Holds(d, o, Encode(WireString(id, ccsid, s)))
    requires ParamAt(d, o)
    ensures NamesIn(d, VisitAt(d, o)) == NamesOf(WireString(id, ccsid, s))
  {
    hide Le32, I32, U32;
    StringFields(d, o, id, ccsid, s);
    HeaderFields(d, o, MQCFT_STRING, id, StringBody(ccsid, s));
    UnsignedRead(d, o + 8);
  }

  lemma StringsNames(d: Buffer, o: nat, w: Wire)
    requires w.WireStrings? && WellFormed(w) && Holds(d, o, Encode(w))
    requires ParamAt(d, o) && Finds(VisitAt(d, o), w)
    ensures NamesIn(d, VisitAt(d, o)) == NamesOf(w)
  {
    hide Le32, I32, U32, ConcatAll, Encode, Holds, NamesIn, StringsBody, ListNames;
    StringsFit(w);
    StringsFields(d, o, w.id, w.ccsid, w.width, w.strings);
    if w.width > 0 {
      ListRoundTrip(d, o + 24, w.strings, w.width);
    }
    ListedNames(d, VisitAt(d, o), w.id, |w.strings|, w.width, w.strings);
  }

  lemma ListedNames(d: Buffer, v: Visit, id: int32, count: nat, width: nat, names: seq<Buffer>)
    requires v.start + v.len <= |d| && v.kind == MQCFT_STRING_LIST && v.len >= 24
    requires U32(d, v.start + 8) == Low32(id) && U32(d, v.start + 16) == count && U32(d, v.start + 20) == width
    requires width > 0 ==> ListNames(d, v.start + 24, count, width) == names
    ensures NamesIn(d, v) == if id == MQCA_Q_NAME && width > 0 then names else []
  {
    hide U32;
  }

  lemma StringsFit(w: Wire)
    requires w.WireStrings? && WellFormed(w)
    ensures 24 <= |Encode(w)| == 12 + |StringsBody(w.ccsid, w.width, w.strings)| < 0x8000_0000
    ensures Encode(w) == Structure(MQCFT_STRING_LIST, w.id, StringsBody(w.ccsid, w.width, w.strings))
  {
    hide Le32;
  }

  lemma NamesRoundTrip(d: Buffer, o: nat, w: Wire)
    requires WellFormed(w) && Holds(d, o, Encode(w))
    ensures ParamAt(d, o) && U32(d, o + 4) == |Encode(w)|
    ensures NamesIn(d, VisitAt(d, o)) == NamesOf(w)
  {
    hide Encode, Holds, I32, U32;
    VisitEncoded(d, o, w);
    VisitLength(d, o, w);
    match w {
      case WireString(id, ccsid, s) =>
        StringFits(w);
        StringNames(d, o, id, ccsid, s);
      case WireStrings(_, _, _, _) => StringsNames(d, o, w);
      case _ =>
        OtherNames(d, o, w);
    }
  }

  lemma OtherNames(d: Buffer, o: nat, w: Wire)
    requires !w.WireString? && !w.WireStrings?
    requires ParamAt(d, o) && Finds(VisitAt(d, o), w)
    ensures NamesIn(d, VisitAt(d, o)) == NamesOf(w)
  {
  }

  lemma StringFits(w: Wire)
    requires w.WireString? && WellFormed(w)
    ensures FitsCommand(w.s)
  {
    hide Le32;
    assert |Encode(w)| == 12 + |StringBody(w.ccsid, w.s)|;
  }

  lemma NamesStep(d: Buffer, o: nat)
    requires ParamAt(d, o)
    ensures NamesFrom(d, o) == NamesIn(d, VisitAt(d, o)) + NamesFrom(d, o + U32(d, o + 4))
  {
    hide U32, NamesIn;
  }

  lemma {:induction false} AllNamesRoundTrip(d: Buffer, o: nat, ws: seq<Wire>)
    requires AllWellFormed(ws) && Holds(d, o, EncodeAll(ws)) && o + |EncodeAll(ws)| == |d|
    ensures NamesFrom(d, o) == NamesOfAll(ws)
    decreases |ws|
  {
    hide U32, Encode, NamesIn, NamesOf, VisitAt, WellFormed, Holds;
    if ws != [] {
      HoldsConcat(d, o, Encode(ws[0]), EncodeAll(ws[1..]));
      NamesRoundTrip(d, o, ws[0]);
      AllNamesRoundTrip(d, o + |Encode(ws[0])|, ws[1..]);
      NamesStep(d, o);
    } else {
      assert !ParamAt(d, o);
    }
  }

  /** Round trip: the names of a successful response are exactly the names its parameters carry, in order,
      single names and lists alike. */
  lemma ResponseRoundTrip(header: Buffer, ws: seq<Wire>)
    requires |header| == MQCFH_SIZE && U32(header, 24) == 0 && AllWellFormed(ws)
    ensures ResponseNames(header + EncodeAll(ws)) == NamesOfAll(ws)
  {
    hide U32, EncodeAll, NamesFrom, NamesOfAll;
    var d := header + EncodeAll(ws);
    HoldsSelf(d);
    HoldsConcat(d, 0, header, EncodeAll(ws));
    ReadWindow(d, 0, header, 24);
    AllNamesRoundTrip(d, MQCFH_SIZE, ws);
  }
}
