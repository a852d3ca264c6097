/** Status responses laid out field by field, read back by the inquiry parsers. */
module StatusRoundTrip {
  import opened Bytes
  import opened Pcf
  import opened Text
  import opened PcfTree
  import opened PcfInquiry
  import opened CommandRoundTrip
  import opened QueueStatus
  import DiscoveryRoundTrip

  // ----- what one structure says about a handle -----

  /** The handle after a structure: strings and integers by their ids, anything else says nothing. */
  function Told(w: Wire, h: QueueHandle): QueueHandle {
    match w
    case WireString(2016, _, s) => h.(queueName := TrimPadding(s))
    case WireString(2549, _, s) => h.(applicationTag := TrimPadding(s))
    case WireString(3501, _, s) => h.(channelName := TrimPadding(s))
    case WireString(3502, _, s) => h.(connectionName := TrimPadding(s))
    case WireString(2046, _, s) => h.(userId := TrimPadding(s))
    case WireInt(3002, i) => h.(processId := i)
    case WireInt(1411, i) => if i > 0 then h.(inputMode := true) else h
    case WireInt(1412, i) => if i > 0 then h.(outputMode := true) else h
    case _ => h
  }

  lemma StringTold(d: Buffer, o: nat, id: int32, ccsid: int32, s: Buffer, h: QueueHandle)
    requires FitsCommand(s) && Holds(d, o, Encode(WireString(id, ccsid, s)))
    requires ParamAt(d, o) && Finds(VisitAt(d, o), WireString(id, ccsid, s))
    ensures Readable(d, VisitAt(d, o)) && AfterVisit(d, VisitAt(d, o), h) == Told(WireString(id, ccsid, s), h)
  {
    hide U32, I32, Encode, Holds, TrimPadding;
    StringFields(d, o, id, ccsid, s);
    StringId(d, o, WireString(id, ccsid, s));
    OrdinaryIsReadable(d, VisitAt(d, o));
  }

  lemma StringId(d: Buffer, o: nat, w: Wire)
    requires ParamAt(d, o) && Finds(VisitAt(d, o), w)
    ensures U32(d, o + 8) == Low32(w.id)
  {
  }

  lemma IntTold(d: Buffer, o: nat, id: int32, i: int32, h: QueueHandle)
    requires Holds(d, o, Encode(WireInt(id, i)))
    requires ParamAt(d, o) && Finds(VisitAt(d, o), WireInt(id, i))
    ensures Readable(d, VisitAt(d, o)) && AfterVisit(d, VisitAt(d, o), h) == Told(WireInt(id, i), h)
  {
    hide U32, I32, Le32;
    HeaderFields(d, o, MQCFT_INTEGER, id, Le32(i));
    assert Le32(i) + [] == Le32(i);
    HoldsLe32(d, o + 12, i, []);
    StringId(d, o, WireInt(id, i));
  }

  lemma OtherTold(d: Buffer, o: nat, w: Wire, h: QueueHandle)
    requires !w.WireString? && !w.WireInt?
    requires ParamAt(d, o) && Finds(VisitAt(d, o), w)
    ensures Readable(d, VisitAt(d, o)) && AfterVisit(d, VisitAt(d, o), h) == Told(w, h)
  {
    hide U32;
    OtherKinds(d, VisitAt(d, o), h);
  }

  lemma WireTold(d: Buffer, o: nat, w: Wire, h: QueueHandle)
    requires WellFormed(w) && Holds(d, o, Encode(w)) && ParamAt(d, o) && Finds(VisitAt(d, o), w)
    ensures Readable(d, VisitAt(d, o)) && AfterVisit(d, VisitAt(d, o), h) == Told(w, h)
  {
    hide U32, Encode, Holds, Told, AfterVisit, Finds, VisitAt;
    match w {
      case WireString(id, ccsid, s) =>
        DiscoveryRoundTrip.StringFits(w);
        StringTold(d, o, id, ccsid, s, h);
      case WireInt(id, i) => IntTold(d, o, id, i, h);
      case _ => OtherTold(d, o, w, h);
    }
  }

  // ----- what a whole response says -----

  datatype Reading = Reading(handles: seq<QueueHandle>, current: QueueHandle, inGroup: bool)

  /** A group header ends the handle before it, if that named a queue, and starts the next. */
  function After(r: Reading, w: Wire): Reading {
    if w.WireGroup? then
      Reading(if r.inGroup && r.current.queueName != [] then r.handles + [r.current] else r.handles, NO_HANDLE, true)
    else r.(current := Told(w, r.current))
  }

  function AfterAll(r: Reading, ws: seq<Wire>): Reading
    decreases |ws|
  {
    if ws == [] then r else AfterAll(After(r, ws[0]), ws[1..])
  }

  lemma ReadsOne(d: Buffer, o: nat, w: Wire, done: seq<Visit>, r: Reading)
    requires WellFormed(w) && Holds(d, o, Encode(w)) && Carried(d, done, r.handles, r.current, r.inGroup)
    ensures ParamAt(d, o) && VisitAt(d, o).len == |Encode(w)|
    ensures var n := After(r, w); Carried(d, done + [VisitAt(d, o)], n.handles, n.current, n.inGroup)
  {
    hide U32, Encode, Holds, Told, AfterVisit, Carried, WellFormed;
    VisitEncoded(d, o, w);
    WireTold(d, o, w, r.current);
    if w.WireGroup? {
      CarryGroup(d, done, VisitAt(d, o), r.handles, r.current, r.inGroup);
    } else {
      CarryOther(d, done, VisitAt(d, o), r.handles, r.current, r.inGroup);
    }
  }

  lemma {:induction false} ReadsAll(d: Buffer, o: nat, ws: seq<Wire>, done: seq<Visit>, r: Reading)
    requires AllWellFormed(ws) && Holds(d, o, EncodeAll(ws)) && o + |EncodeAll(ws)| == |d|
    requires Carried(d, done, r.handles, r.current, r.inGroup)
    ensures var n := AfterAll(r, ws); Carried(d, done + Visits(d, o), n.handles, n.current, n.inGroup)
    decreases |ws|
  {
    hide U32, Encode, Carried, After, VisitAt, WellFormed;
    if ws == [] {
      assert Visits(d, o) == [] && done + [] == done;
    } else {
      HoldsConcat(d, o, Encode(ws[0]), EncodeAll(ws[1..]));
      ReadsOne(d, o, ws[0], done, r);
      var v := VisitAt(d, o);
      VisitsStep(d, o, done);
      ReadsAll(d, o + v.len, ws[1..], done + [v], After(r, ws[0]));
    }
  }

  const START := Reading([], NO_HANDLE, false)

  function Finished(r: Reading): seq<QueueHandle> {
    if r.current.queueName != [] then r.handles + [r.current] else r.handles
  }

  predicate Successful(header: Buffer) {
    |header| == 36 && header[24..28] == [0, 0, 0, 0]
  }

  lemma SuccessfulScan(header: Buffer, ws: seq<Wire>)
    requires Successful(header)
    ensures var d := header + EncodeAll(ws);
            ResponseVisits(d) == Visits(d, 36) && Holds(d, 36, EncodeAll(ws)) && 36 + |EncodeAll(ws)| == |d|
  {
    hide EncodeAll, Visits;
    var d := header + EncodeAll(ws);
    HoldsSelf(d);
    HoldsConcat(d, 0, header, EncodeAll(ws));
    ReadWindow(d, 0, header, 24);
    ZeroWord(header);
  }

  lemma ZeroWord(header: Buffer)
    requires Successful(header)
    ensures U32(header, 24) == 0
  {
    assert header[24..28][0] == 0 && header[24..28][1] == 0 && header[24..28][2] == 0 && header[24..28][3] == 0;
  }

  /** Any successful response, of any structures in any order: all of it is readable, and its handles are
      what its structures say, group by group. */
  lemma ResponseReadsBack(header: Buffer, ws: seq<Wire>)
    requires Successful(header) && AllWellFormed(ws)
    ensures var d := header + EncodeAll(ws);
            AllReadable(d, ResponseVisits(d)) && HandlesOf(d, ResponseVisits(d)) == Finished(AfterAll(START, ws))
  {
    hide EncodeAll, ResponseVisits, Visits, Carried, HandlesOf, AfterAll;
    var d := header + EncodeAll(ws);
    SuccessfulScan(header, ws);
    CarryStart(d);
    ReadsAll(d, 36, ws, [], START);
    var r, vs := AfterAll(START, ws), Visits(d, 36);
    assert [] + vs == vs;
    CarryEnd(d, vs, r.handles, r.current, r.inGroup);
    CarriedReadable(d, vs, r);
  }

  lemma CarriedReadable(d: Buffer, vs: seq<Visit>, r: Reading)
    requires Carried(d, vs, r.handles, r.current, r.inGroup)
    ensures AllReadable(d, vs)
  {
  }

  // ----- handles laid out as a queue manager sends them -----

  /** One open handle, the integers behind its two modes, and the blanks that fill up its strings. */
  datatype Laid = Laid(h: QueueHandle, input: int32, output: int32, group: int32, ccsid: int32, pad: nat)

  function Field(l: Laid, id: int32, text: Buffer): Wire {
    WireString(id, l.ccsid, text + seq(l.pad, _ => 32))
  }

  function Segment(l: Laid): seq<Wire> {
    [WireGroup(l.group, []),
     Field(l, 2016, l.h.queueName), Field(l, 2549, l.h.applicationTag), Field(l, 3501, l.h.channelName),
     Field(l, 3502, l.h.connectionName), Field(l, 2046, l.h.userId),
     WireInt(3002, l.h.processId), WireInt(1411, l.input), WireInt(1412, l.output)]
  }

  function AllSegments(ls: seq<Laid>): seq<Wire> {
    if ls == [] then [] else Segment(ls[0]) + AllSegments(ls[1..])
  }

  predicate Clean(s: Buffer) {
    s != [] ==> s[|s| - 1] != 32 && s[|s| - 1] != 0
  }

  predicate Proper(l: Laid) {
    && l.h.queueName != [] && Clean(l.h.queueName) && Clean(l.h.applicationTag) && Clean(l.h.channelName)
    && Clean(l.h.connectionName) && Clean(l.h.userId)
    && l.h.inputMode == (l.input > 0) && l.h.outputMode == (l.output > 0)
  }

  lemma FieldTrims(s: Buffer, n: nat)
    requires Clean(s)
    ensures TrimPadding(s + seq(n, _ => 32)) == s
  {
    hide TrimPadding;
    var t := s + seq(n, _ => 32);
    TrimPaddingIsTrim(t);
    TrimUnique(t, TrimPadding(t), s, {32, 0});
  }

  lemma {:induction false} AfterConcat(r: Reading, ws: seq<Wire>, us: seq<Wire>)
    ensures AfterAll(r, ws + us) == AfterAll(AfterAll(r, ws), us)
    decreases |ws|
  {
    hide After;
    if ws == [] {
      assert ws + us == us;
    } else {
      assert (ws + us)[0] == ws[0] && (ws + us)[1..] == ws[1..] + us;
      AfterConcat(After(r, ws[0]), ws[1..], us);
    }
  }

  lemma AfterNext(r: Reading, w: Wire, ws: seq<Wire>)
    ensures AfterAll(r, [w] + ws) == AfterAll(After(r, w), ws)
  {
    hide After;
    assert ([w] + ws)[1..] == ws;
  }

  /** The structures of a segment set all eight fields of its handle. */
  lemma SegmentSays(l: Laid)
    requires Proper(l)
    ensures var h1 := Told(Field(l, 2016, l.h.queueName), NO_HANDLE);
            var h2 := Told(Field(l, 2549, l.h.applicationTag), h1);
            var h3 := Told(Field(l, 3501, l.h.channelName), h2);
            var h4 := Told(Field(l, 3502, l.h.connectionName), h3);
            var h5 := Told(Field(l, 2046, l.h.userId), h4);
            var h6 := Told(WireInt(3002, l.h.processId), h5);
            var h7 := Told(WireInt(1411, l.input), h6);
            Told(WireInt(1412, l.output), h7) == l.h
  {
    hide TrimPadding;
    FieldTrims(l.h.queueName, l.pad);
    FieldTrims(l.h.applicationTag, l.pad);
    FieldTrims(l.h.channelName, l.pad);
    FieldTrims(l.h.connectionName, l.pad);
    FieldTrims(l.h.userId, l.pad);
  }

  lemma SegmentReads(r: Reading, l: Laid)
    requires Proper(l) && (r.inGroup || r.handles == [])
    ensures AfterAll(r, Segment(l)) ==
            Reading(if r.inGroup && r.current.queueName != [] then r.handles + [r.current] else r.handles, l.h, true)
  {
    hide TrimPadding, Told, AfterAll;
    SegmentSays(l);
    var ws := Segment(l);
    SegmentSteps(r, ws);
  }

  lemma SegmentSteps(r: Reading, ws: seq<Wire>)
    requires |ws| == 9
    ensures AfterAll(r, ws) ==
            After(After(After(After(After(After(After(After(After(r, ws[0]), ws[1]), ws[2]), ws[3]), ws[4]), ws[5]), ws[6]), ws[7]), ws[8])
  {
    hide After, AfterAll;
    AfterFirst(r, ws);
    var r1 := After(r, ws[0]);
    AfterFirst(r1, ws[1..]);
    var r2 := After(r1, ws[1]);
    AfterFirst(r2, ws[2..]);
    var r3 := After(r2, ws[2]);
    AfterFirst(r3, ws[3..]);
    var r4 := After(r3, ws[3]);
    AfterFirst(r4, ws[4..]);
    var r5 := After(r4, ws[4]);
    AfterFirst(r5, ws[5..]);
    var r6 := After(r5, ws[5]);
    AfterFirst(r6, ws[6..]);
    var r7 := After(r6, ws[6]);
    AfterFirst(r7, ws[7..]);
    var r8 := After(r7, ws[7]);
    AfterFirst(r8, ws[8..]);
    AfterNothing(After(r8, ws[8]));
    assert ws[1..][1..] == ws[2..] && ws[2..][1..] == ws[3..] && ws[3..][1..] == ws[4..] && ws[4..][1..] == ws[5..];
    assert ws[5..][1..] == ws[6..] && ws[6..][1..] == ws[7..] && ws[7..][1..] == ws[8..] && ws[8..][1..] == [];
  }

  lemma AfterFirst(r: Reading, ws: seq<Wire>)
    requires ws != []
    ensures AfterAll(r, ws) == AfterAll(After(r, ws[0]), ws[1..])
  {
    hide After;
  }

  lemma AfterNothing(r: Reading)
    ensures AfterAll(r, []) == r
  {
  }

  function HandlesIn(ls: seq<Laid>): seq<QueueHandle> {
    seq(|ls|, i requires 0 <= i < |ls| => ls[i].h)
  }

  lemma {:induction false} SegmentsRead(r: Reading, ls: seq<Laid>)
    requires (forall l :: l in ls ==> Proper(l)) && (r == START || (r.inGroup && r.current.queueName != []))
    ensures Finished(AfterAll(r, AllSegments(ls))) == Finished(r) + HandlesIn(ls)
    decreases |ls|
  {
    hide AfterAll, Segment;
    if ls == [] {
      AfterNothing(r);
    } else {
      assert Proper(ls[0]) && forall l :: l in ls[1..] ==> l in ls;
      AfterConcat(r, Segment(ls[0]), AllSegments(ls[1..]));
      SegmentReads(r, ls[0]);
      SegmentsRead(AfterAll(r, Segment(ls[0])), ls[1..]);
      assert HandlesIn(ls) == [ls[0].h] + HandlesIn(ls[1..]);
    }
  }

  /** Round trip: open handles laid out segment by segment come back field by field, in order. */
  lemma StatusRoundTrip(header: Buffer, ls: seq<Laid>)
    requires Successful(header) && AllWellFormed(AllSegments(ls)) && forall l :: l in ls ==> Proper(l)
    ensures var d := header + EncodeAll(AllSegments(ls));
            AllReadable(d, ResponseVisits(d)) && HandlesOf(d, ResponseVisits(d)) == HandlesIn(ls)
  {
    hide EncodeAll, ResponseVisits, HandlesOf, AfterAll, AllSegments, AllWellFormed;
    ResponseReadsBack(header, AllSegments(ls));
    SegmentsRead(START, ls);
    assert Finished(START) + HandlesIn(ls) == HandlesIn(ls);
  }

  // ----- queue manager status -----

  /** The status after a structure. */
  function Reported(w: Wire, q: QMgrStatus): QMgrStatus {
    match w
    case WireString(2015, _, s) => q.(name := TrimPadding(s))
    case WireString(2014, _, s) => q.(description := TrimPadding(s))
    case WireString(3175, _, s) => q.(startDate := TrimPadding(s))
    case WireString(3176, _, s) => q.(startTime := TrimPadding(s))
    case WireInt(1149, i) => q.(status := i)
    case WireInt(1232, i) => q.(chinitStatus := i)
    case WireInt(1229, i) => q.(connectionCount := i)
    case WireInt(1233, i) => q.(cmdServerStatus := i)
    case _ => q
  }

  function ReportedAll(q: QMgrStatus, ws: seq<Wire>): QMgrStatus
    decreases |ws|
  {
    if ws == [] then q else ReportedAll(Reported(ws[0], q), ws[1..])
  }

  lemma StringReported(d: Buffer, o: nat, id: int32, ccsid: int32, s: Buffer)
    requires FitsCommand(s) && Holds(d, o, Encode(WireString(id, ccsid, s)))
    requires ParamAt(d, o) && Finds(VisitAt(d, o), WireString(id, ccsid, s))
    ensures StringInside(d, VisitAt(d, o)) && ReadPcfString(d, VisitAt(d, o)) == TrimPadding(s)
  {
    hide U32, I32, Encode, Holds, TrimPadding;
    StringFields(d, o, id, ccsid, s);
    if s != [] {
      InquiryReads(d, o, id, ccsid, s);
    } else {
      TrimPaddingNothing();
    }
  }

  lemma TrimPaddingNothing()
    ensures TrimPadding([]) == []
  {
  }

  lemma IntReported(d: Buffer, o: nat, id: int32, i: int32)
    requires Holds(d, o, Encode(WireInt(id, i)))
    requires ParamAt(d, o) && Finds(VisitAt(d, o), WireInt(id, i))
    ensures ReadPcfInt32(d, VisitAt(d, o)) == i
  {
    hide U32, I32, Le32;
    HeaderFields(d, o, MQCFT_INTEGER, id, Le32(i));
    assert Le32(i) + [] == Le32(i);
    HoldsLe32(d, o + 12, i, []);
  }

  /** `v` was laid out as `w`: what the two readers return for it is what `w` says. */
  predicate ReadsAs(d: Buffer, v: Visit, w: Wire) {
    && Finds(v, w) && v.start + v.len <= |d|
    && (w.WireString? ==> StringInside(d, v) && ReadPcfString(d, v) == TrimPadding(w.s))
    && (w.WireInt? ==> ReadPcfInt32(d, v) == w.i)
  }

  lemma VisitReadsAs(d: Buffer, o: nat, w: Wire)
    requires WellFormed(w) && Holds(d, o, Encode(w))
    ensures ParamAt(d, o) && ReadsAs(d, VisitAt(d, o), w)
  {
    hide U32, Encode, Holds, Finds, ReadPcfString, ReadPcfInt32, StringInside;
    VisitEncoded(d, o, w);
    match w {
      case WireString(id, ccsid, s) =>
        DiscoveryRoundTrip.StringFits(w);
        StringReported(d, o, id, ccsid, s);
      case WireInt(id, i) => IntReported(d, o, id, i);
      case _ =>
    }
  }

  lemma StatusStep(d: Buffer, vs: seq<Visit>, v: Visit, w: Wire)
    requires StringsInside(d, vs) && ReadsAs(d, v, w)
    ensures StringsInside(d, vs + [v]) && StatusOf(d, vs + [v]) == Reported(w, StatusOf(d, vs))
  {
    hide ReadPcfString, ReadPcfInt32, StringInside, TrimPadding, Finds, LastString, LastInt;
    KindOfWire(w, v);
    StringsAppend(d, vs, v);
    LastAppend(d, vs, v, 2015);
    LastAppend(d, vs, v, 2014);
    LastAppend(d, vs, v, 3175);
    LastAppend(d, vs, v, 3176);
    LastAppend(d, vs, v, 1149);
    LastAppend(d, vs, v, 1232);
    LastAppend(d, vs, v, 1229);
    LastAppend(d, vs, v, 1233);
  }

  lemma StringsAppend(d: Buffer, vs: seq<Visit>, v: Visit)
    requires StringsInside(d, vs) && v.start + v.len <= |d| && (v.kind == MQCFT_STRING ==> StringInside(d, v))
    ensures StringsInside(d, vs + [v])
  {
    hide StringInside;
  }

  lemma LastAppend(d: Buffer, vs: seq<Visit>, v: Visit, id: uint32)
    requires StringsInside(d, vs) && StringsInside(d, vs + [v]) && v.start + v.len <= |d|
    requires v.kind == MQCFT_STRING ==> StringInside(d, v)
    ensures LastString(d, vs + [v], id) ==
            if v.kind == MQCFT_STRING && v.id == id then ReadPcfString(d, v) else LastString(d, vs, id)
    ensures LastInt(d, vs + [v], id) ==
            if v.kind == MQCFT_INTEGER && v.id == id then ReadPcfInt32(d, v) else LastInt(d, vs, id)
  {
    hide StringInside, ReadPcfString, ReadPcfInt32;
    assert (vs + [v])[..|vs|] == vs && (vs + [v])[|vs|] == v;
  }

  lemma KindOfWire(w: Wire, v: Visit)
    requires Finds(v, w)
    ensures w.WireString? <==> v.kind == MQCFT_STRING
    ensures w.WireInt? <==> v.kind == MQCFT_INTEGER
    ensures v.id == if w.id >= 0 then w.id else w.id + 0x1_0000_0000
  {
    hide Encode;
  }

  lemma {:induction false} StatusReads(d: Buffer, o: nat, ws: seq<Wire>, done: seq<Visit>)
    requires AllWellFormed(ws) && Holds(d, o, EncodeAll(ws)) && o + |EncodeAll(ws)| == |d| && StringsInside(d, done)
    ensures StringsInside(d, done + Visits(d, o))
    ensures StatusOf(d, done + Visits(d, o)) == ReportedAll(StatusOf(d, done), ws)
    decreases |ws|
  {
    hide U32, Encode, StringsInside, StatusOf, Reported, ReadsAs, VisitAt, WellFormed;
    if ws == [] {
      assert Visits(d, o) == [] && done + [] == done;
    } else {
      HoldsConcat(d, o, Encode(ws[0]), EncodeAll(ws[1..]));
      VisitReadsAs(d, o, ws[0]);
      VisitEncoded(d, o, ws[0]);
      var v := VisitAt(d, o);
      StatusStep(d, done, v, ws[0]);
      VisitsStep(d, o, done);
      StatusReads(d, o + v.len, ws[1..], done + [v]);
    }
  }

  /** Any successful queue manager response, of any structures in any order, says what its structures say. */
  lemma QMgrResponseReadsBack(header: Buffer, ws: seq<Wire>)
    requires Successful(header) && AllWellFormed(ws)
    ensures var d := header + EncodeAll(ws);
            StringsInside(d, ResponseVisits(d)) && ResponseStatus(d) == ReportedAll(NO_STATUS, ws)
  {
    hide EncodeAll, ResponseVisits, Visits, StringsInside, ReportedAll, StatusOf;
    var d := header + EncodeAll(ws);
    SuccessfulScan(header, ws);
    NoVisits(d);
    StatusReads(d, 36, ws, []);
    assert [] + Visits(d, 36) == Visits(d, 36);
  }

  lemma NoVisits(d: Buffer)
    ensures StringsInside(d, []) && StatusOf(d, []) == NO_STATUS
  {
  }
}
