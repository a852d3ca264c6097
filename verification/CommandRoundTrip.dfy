/** Built commands read back, through each of the three readers. */
module CommandRoundTrip {
  import opened Bytes
  import opened Pcf
  import opened Text
  import opened PcfTree
  import opened PcfInquiry
  import PcfParser
  import PublicationScan

  lemma UnsignedRead(d: Buffer, o: nat)
    requires o + 4 <= |d|
    ensures U32(d, o) == Low32(I32(d, o)) && (0 <= I32(d, o) ==> U32(d, o) == I32(d, o))
  {
    hide U32;
  }

  /** A visit found the structure that was written. */
  predicate Finds(v: Visit, w: Wire) {
    v.kind == Kind(w) && v.id == Low32(w.id) && v.len == |Encode(w)| && v.len % 4 == 0
  }

  lemma VisitEncoded(d: Buffer, o: nat, w: Wire)
    requires WellFormed(w) && Holds(d, o, Encode(w))
    ensures ParamAt(d, o) && Finds(VisitAt(d, o), w) && VisitAt(d, o).start == o
  {
    hide Le32, I32, U32, Body;
    HeaderFields(d, o, Kind(w), w.id, Body(w));
    UnsignedRead(d, o);
    UnsignedRead(d, o + 4);
    UnsignedRead(d, o + 8);
    LengthsAligned(w);
  }

  lemma {:induction false} VisitsEncoded(d: Buffer, o: nat, ws: seq<Wire>)
    requires AllWellFormed(ws) && Holds(d, o, EncodeAll(ws)) && o + |EncodeAll(ws)| == |d|
    ensures |Visits(d, o)| == |ws| && ScanEnd(d, o) == |d|
    ensures forall i :: 0 <= i < |ws| ==> Finds(Visits(d, o)[i], ws[i])
    decreases |ws|
  {
    hide U32, Encode, Finds, VisitAt;
    if ws != [] {
      HoldsConcat(d, o, Encode(ws[0]), EncodeAll(ws[1..]));
      VisitEncoded(d, o, ws[0]);
      assert U32(d, o + 4) == |Encode(ws[0])| by {
        VisitLength(d, o, ws[0]);
      }
      VisitsEncoded(d, o + |Encode(ws[0])|, ws[1..]);
      var rest := Visits(d, o + |Encode(ws[0])|);
      forall i | 1 <= i < |ws|
        ensures Finds(Visits(d, o)[i], ws[i])
      {
        assert Finds(rest[i - 1], ws[1..][i - 1]);
      }
    } else {
      assert !ParamAt(d, o);
    }
  }

  lemma VisitLength(d: Buffer, o: nat, w: Wire)
    requires ParamAt(d, o) && Finds(VisitAt(d, o), w)
    ensures U32(d, o + 4) == |Encode(w)|
  {
  }

  lemma HeaderReadsBack(d: Buffer, command: int32, paramCount: int32)
    requires Holds(d, 0, Header(command, paramCount))
    ensures I32(d, 0) == 1 && I32(d, 4) == 36 && I32(d, 8) == 1 && I32(d, 12) == command
    ensures I32(d, 16) == 1 && I32(d, 20) == 1 && I32(d, 24) == 0 && I32(d, 28) == 0 && I32(d, 32) == paramCount
  {
    hide Le32, I32, Concat32;
    var fields := [MQCFT_COMMAND, 36, 1, command, 1, 1, 0, 0, paramCount];
    FieldReadsBack(d, 0, fields, 0);
    FieldReadsBack(d, 0, fields, 1);
    FieldReadsBack(d, 0, fields, 2);
    FieldReadsBack(d, 0, fields, 3);
    FieldReadsBack(d, 0, fields, 4);
    FieldReadsBack(d, 0, fields, 5);
    FieldReadsBack(d, 0, fields, 6);
    FieldReadsBack(d, 0, fields, 7);
    FieldReadsBack(d, 0, fields, 8);
  }

  lemma {:induction false} FieldReadsBack(d: Buffer, o: nat, fs: seq<int32>, k: nat)
    requires k < |fs| && Holds(d, o, Concat32(fs))
    ensures o + 4 * k + 4 <= |d| && I32(d, o + 4 * k) == fs[k]
    decreases k
  {
    hide Le32, I32;
    HoldsLe32(d, o, fs[0], Concat32(fs[1..]));
    if k > 0 {
      FieldReadsBack(d, o + 4, fs[1..], k - 1);
    }
  }

  /** Every built command, for every name and integer: all nine fields of its header read back, the last of
      them says how many parameters follow, the inquiry scan finds exactly those, each a multiple of 4 long,
      and ends at the last byte, and the parser returns their meaning. */
  lemma CommandReadsBack(command: int32, ws: seq<Wire>)
    requires |ws| < 0x8000_0000 && AllWellFormed(ws)
    ensures var c := Command(command, ws);
            && |c| >= MQCFH_SIZE
            && I32(c, 0) == 1 && I32(c, 4) == 36 && I32(c, 8) == 1 && I32(c, 12) == command
            && I32(c, 16) == 1 && I32(c, 20) == 1 && I32(c, 24) == 0 && I32(c, 28) == 0
            && I32(c, 32) == |ws| == |ResponseVisits(c)|
            && ScanEnd(c, MQCFH_SIZE) == |c|
            && (forall i :: 0 <= i < |ws| ==> Finds(ResponseVisits(c)[i], ws[i]))
            && PcfParser.Parse(c[MQCFH_SIZE..], 0) == PcfParser.Ok(MeaningAll(ws))
  {
    hide Header, EncodeAll, I32, U32, Finds, Visits;
    var c := Command(command, ws);
    HoldsSelf(c);
    HoldsConcat(c, 0, Header(command, |ws|), EncodeAll(ws));
    HeaderReadsBack(c, command, |ws|);
    UnsignedRead(c, 24);
    VisitsEncoded(c, MQCFH_SIZE, ws);
    assert c[MQCFH_SIZE..] == EncodeAll(ws);
    TreeRoundTrip(ws);
  }

  /** The parameters of every command builder, for every name that fits and every integer. */
  lemma BuildersFit(id: int32, name: Buffer, selector: int32, value: int32)
    requires FitsCommand(name)
    ensures var s, i := WireString(id, 0, name), WireInt(selector, value);
            AllWellFormed([]) && AllWellFormed([s]) && AllWellFormed([i]) && AllWellFormed([s, i])
  {
    hide Le32;
    var s, i := WireString(id, 0, name), WireInt(selector, value);
    assert |Encode(s)| == 20 + |name| + |Padding(|name|)| && |Encode(i)| == 16;
    assert [s][1..] == [] && [i][1..] == [] && [s, i][1..] == [i];
  }

  lemma StringFields(d: Buffer, o: nat, id: int32, ccsid: int32, value: Buffer)
    requires FitsCommand(value) && Holds(d, o, Encode(WireString(id, ccsid, value)))
    ensures o + 20 + |value| + |Padding(|value|)| <= |d|
    ensures I32(d, o) == U32(d, o) == MQCFT_STRING
    ensures I32(d, o + 4) == U32(d, o + 4) == 20 + |value| + |Padding(|value|)|
    ensures I32(d, o + 16) == U32(d, o + 16) == |value|
    ensures d[o + 20..o + 20 + |value|] == value
  {
    hide Le32, I32, U32;
    HeaderFields(d, o, MQCFT_STRING, id, StringBody(ccsid, value));
    HoldsLe32(d, o + 12, ccsid, Le32(|value|) + (value + Padding(|value|)));
    HoldsLe32(d, o + 16, |value|, value + Padding(|value|));
    HoldsConcat(d, o + 20, value, Padding(|value|));
    HoldsSlice(d, o + 20, value);
    UnsignedRead(d, o);
    UnsignedRead(d, o + 4);
    UnsignedRead(d, o + 16);
  }

  lemma MonitorReads(d: Buffer, o: nat, id: int32, ccsid: int32, value: Buffer)
    requires value != [] && FitsCommand(value) && Holds(d, o, Encode(WireString(id, ccsid, value)))
    ensures PublicationScan.ItemAt(d, o) && PublicationScan.LeafAt(d, o).text == TrimBlanks(value)
  {
    hide Encode, Holds, I32, U32, TrimBlanks;
    StringFields(d, o, id, ccsid, value);
  }

  lemma InquiryReads(d: Buffer, o: nat, id: int32, ccsid: int32, value: Buffer)
    requires value != [] && FitsCommand(value) && Holds(d, o, Encode(WireString(id, ccsid, value)))
    ensures ParamAt(d, o) && StringInside(d, VisitAt(d, o))
    ensures ReadPcfString(d, VisitAt(d, o)) == TrimPadding(value)
  {
    hide Encode, Holds, I32, U32, TrimPadding;
    StringFields(d, o, id, ccsid, value);
    StringReadInside(U32(d, o + 4), |value|);
  }

  /** The three readers of one string parameter, wherever it lies, with any parameters around it. The
      parser and the monitor agree exactly on values without a NUL, and then all three return the value
      without its trailing blanks. */
  lemma ThreeReaders(d: Buffer, o: nat, id: int32, ccsid: int32, value: Buffer)
    requires value != [] && FitsCommand(value)
    requires Holds(d, o, Encode(WireString(id, ccsid, value)))
    ensures PcfParser.StructureAt(d, o) && PublicationScan.ItemAt(d, o) && ParamAt(d, o)
    ensures StringInside(d, VisitAt(d, o))
    ensures PcfParser.Decode(d, o)
         == PcfParser.Ok(PcfParser.Parameter(MQCFT_STRING, id, PcfParser.String(CleanString(value))))
    ensures PublicationScan.LeafAt(d, o).text == TrimBlanks(value)
    ensures ReadPcfString(d, VisitAt(d, o)) == TrimPadding(value)
    ensures CleanString(value) == TrimBlanks(value) <==> NUL !in value
    ensures NUL !in value ==> CleanString(value) == TrimBlanks(value) == TrimPadding(value)
  {
    hide Le32, I32, U32, Holds, CleanString, TrimBlanks, TrimPadding, PcfParser.Decode, PublicationScan.LeafAt;
    DecodeString(d, o, id, ccsid, value);
    MonitorReads(d, o, id, ccsid, value);
    InquiryReads(d, o, id, ccsid, value);
    TrimsAgree(value);
  }
}
