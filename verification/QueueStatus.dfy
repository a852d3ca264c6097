/** `PCFInquiry::parse_queue_status_response`: one handle per group, the running handle carried in `current`. */
module QueueStatus {
  import opened Bytes
  import opened Pcf
  import opened Text
  import opened PcfInquiry

  datatype QueueHandle = QueueHandle(
    queueName: Buffer, applicationTag: Buffer, channelName: Buffer, connectionName: Buffer, userId: Buffer,
    processId: int32, inputMode: bool, outputMode: bool)

  const NO_HANDLE := QueueHandle([], [], [], [], [], 0, false, false)

  /** `param_struc_len - 8`, an unsigned difference: it wraps for structures shorter than their header. */
  function DataLength(v: Visit): uint32 {
    Low32(v.len - 8)
  }

  /** Every byte the two readers touch lies in the buffer. */
  predicate Readable(d: Buffer, v: Visit) {
    && v.start + v.len <= |d|
    && (v.kind == MQCFT_STRING && DataLength(v) >= 12 ==>
          && v.start + 20 <= |d|
          && (StringFits(d, v) ==> v.start + 20 + U32(d, v.start + 16) <= |d|))
    && (v.kind == MQCFT_INTEGER && DataLength(v) >= 8 ==> v.start + 16 <= |d|)
  }

  /** `12 + str_len > len` is false, in 32 bits. */
  predicate StringFits(d: Buffer, v: Visit)
    requires v.start + 20 <= |d|
  {
    Low32(12 + U32(d, v.start + 16)) <= DataLength(v)
  }

  /** Structures that hold their header and do not make the sum wrap are always readable, and then a string
      fits exactly when it ends inside its structure. */
  lemma OrdinaryIsReadable(d: Buffer, v: Visit)
    requires v.start + v.len <= |d| && 8 <= v.len
    requires v.kind == MQCFT_STRING && v.len >= 20 ==> U32(d, v.start + 16) < 0x1_0000_0000 - 12
    ensures Readable(d, v)
    ensures v.kind == MQCFT_STRING && v.len >= 20 ==> (StringFits(d, v) <==> 20 + U32(d, v.start + 16) <= v.len)
  {
    hide U32;
  }

  predicate AllReadable(d: Buffer, vs: seq<Visit>) {
    forall v :: v in vs ==> Readable(d, v)
  }

  // ----- the reference: each field of a segment by its last write -----

  /** `v` carries string `id`, and the string fits its structure. */
  predicate CarriesString(d: Buffer, v: Visit, id: uint32)
    requires Readable(d, v)
  {
    v.kind == MQCFT_STRING && DataLength(v) >= 12 && U32(d, v.start + 8) == id && StringFits(d, v)
  }

  predicate CarriesInt(d: Buffer, v: Visit, id: uint32)
    requires Readable(d, v)
  {
    v.kind == MQCFT_INTEGER && DataLength(v) >= 8 && U32(d, v.start + 8) == id
  }

  function StringOf(d: Buffer, v: Visit): Buffer
    requires Readable(d, v) && v.kind == MQCFT_STRING && DataLength(v) >= 12 && StringFits(d, v)
  {
    TrimPadding(d[v.start + 20..v.start + 20 + U32(d, v.start + 16)])
  }

  function SegmentString(d: Buffer, vs: seq<Visit>, id: uint32): Buffer
    requires AllReadable(d, vs)
  {
    if vs == [] then []
    else
      var v := vs[|vs| - 1];
      if CarriesString(d, v, id) then StringOf(d, v) else SegmentString(d, vs[..|vs| - 1], id)
  }

  function SegmentInt(d: Buffer, vs: seq<Visit>, id: uint32): int32
    requires AllReadable(d, vs)
  {
    if vs == [] then 0
    else
      var v := vs[|vs| - 1];
      if CarriesInt(d, v, id) then I32(d, v.start + 12) else SegmentInt(d, vs[..|vs| - 1], id)
  }

  /** Some integer under `id` in the segment is positive. */
  predicate AnyPositive(d: Buffer, vs: seq<Visit>, id: uint32)
    requires AllReadable(d, vs)
  {
    exists v :: v in vs && CarriesInt(d, v, id) && I32(d, v.start + 12) > 0
  }

  function HandleOf(d: Buffer, vs: seq<Visit>): QueueHandle
    requires AllReadable(d, vs)
  {
    QueueHandle(SegmentString(d, vs, 2016), SegmentString(d, vs, 2549), SegmentString(d, vs, 3501), SegmentString(d, vs, 3502),
                SegmentString(d, vs, 2046), SegmentInt(d, vs, 3002), AnyPositive(d, vs, 1411), AnyPositive(d, vs, 1412))
  }

  /** The structures before the first group header. */
  function Lead(vs: seq<Visit>): seq<Visit> {
    if vs == [] || vs[0].kind == MQCFT_GROUP then [] else [vs[0]] + Lead(vs[1..])
  }

  /** What follows each group header, up to the next one. */
  function Segments(vs: seq<Visit>): seq<seq<Visit>> {
    if vs == [] then []
    else if vs[0].kind == MQCFT_GROUP then [Lead(vs[1..])] + Segments(vs[1..])
    else Segments(vs[1..])
  }

  lemma {:induction false} SegmentsReadable(d: Buffer, vs: seq<Visit>)
    requires AllReadable(d, vs)
    ensures AllReadable(d, Lead(vs))
    ensures forall s :: s in Segments(vs) ==> AllReadable(d, s)
    decreases |vs|
  {
    hide Readable;
    if vs != [] {
      assert AllReadable(d, vs[1..]);
      SegmentsReadable(d, vs[1..]);
    }
  }

  /** The handles of the segments that name a queue, in order. */
  function NamedHandles(d: Buffer, segments: seq<seq<Visit>>): seq<QueueHandle>
    requires forall s :: s in segments ==> AllReadable(d, s)
  {
    if segments == [] then []
    else
      var h := HandleOf(d, segments[0]);
      (if h.queueName != [] then [h] else []) + NamedHandles(d, segments[1..])
  }

  /** One handle per group segment that names a queue; the lead counts only when no group follows. */
  function HandlesOf(d: Buffer, vs: seq<Visit>): seq<QueueHandle>
    requires AllReadable(d, vs)
  {
    SegmentsReadable(d, vs);
    NamedHandles(d, if Segments(vs) == [] then [Lead(vs)] else Segments(vs))
  }

  // ----- the source's switches -----

  method ParseStringParam(d: Buffer, v: Visit, handle: QueueHandle) returns (r: QueueHandle)
    requires Readable(d, v) && v.kind == MQCFT_STRING
    ensures r == AfterVisit(d, v, handle)
  {
    hide U32, TrimPadding;
    r := handle;
    var len: int := DataLength(v);
    if len < 12 {
      return;
    }
    var id := U32(d, v.start + 8);
    var strLen: int := U32(d, v.start + 16);
    if Low32(12 + strLen) > len {
      return;
    }
    var val := TrimPadding(d[v.start + 20..v.start + 20 + strLen]);
    match id {
      case 2016 => r := r.(queueName := val);
      case 3501 => r := r.(channelName := val);
      case 3502 => r := r.(connectionName := val);
      case 2549 => r := r.(applicationTag := val);
      case 2046 => r := r.(userId := val);
      case _ =>
    }
  }

  method ParseIntegerParam(d: Buffer, v: Visit, handle: QueueHandle) returns (r: QueueHandle)
    requires Readable(d, v) && v.kind == MQCFT_INTEGER
    ensures r == AfterVisit(d, v, handle)
  {
    hide U32, I32;
    r := handle;
    if DataLength(v) < 8 {
      return;
    }
    var id, value := U32(d, v.start + 8), I32(d, v.start + 12);
    match id {
      case 3002 => r := r.(processId := value);
      case 1411 => if value > 0 { r := r.(inputMode := true); }
      case 1412 => if value > 0 { r := r.(outputMode := true); }
      case _ =>
    }
  }

  method ParseParam(d: Buffer, v: Visit, handle: QueueHandle) returns (r: QueueHandle)
    requires Readable(d, v)
    ensures r == AfterVisit(d, v, handle)
  {
    hide Readable, AfterVisit;
    r := handle;
    if v.kind == MQCFT_STRING {
      r := ParseStringParam(d, v, handle);
    } else if v.kind == MQCFT_INTEGER {
      r := ParseIntegerParam(d, v, handle);
    } else {
      OtherKinds(d, v, handle);
    }
  }

  /** The effect of one visited structure on the running handle. */
  function AfterVisit(d: Buffer, v: Visit, h: QueueHandle): QueueHandle
    requires Readable(d, v)
  {
    QueueHandle(
      if CarriesString(d, v, 2016) then StringOf(d, v) else h.queueName,
      if CarriesString(d, v, 2549) then StringOf(d, v) else h.applicationTag,
      if CarriesString(d, v, 3501) then StringOf(d, v) else h.channelName,
      if CarriesString(d, v, 3502) then StringOf(d, v) else h.connectionName,
      if CarriesString(d, v, 2046) then StringOf(d, v) else h.userId,
      if CarriesInt(d, v, 3002) then I32(d, v.start + 12) else h.processId,
      (CarriesInt(d, v, 1411) && I32(d, v.start + 12) > 0) || h.inputMode,
      (CarriesInt(d, v, 1412) && I32(d, v.start + 12) > 0) || h.outputMode)
  }

  lemma HandleAppend(d: Buffer, vs: seq<Visit>, v: Visit)
    requires AllReadable(d, vs) && Readable(d, v)
    ensures AllReadable(d, vs + [v]) && HandleOf(d, vs + [v]) == AfterVisit(d, v, HandleOf(d, vs))
  {
    hide Readable, CarriesString, CarriesInt, StringOf, I32;
    assert (vs + [v])[..|vs|] == vs && (vs + [v])[|vs|] == v;
    PositiveAppend(d, vs, v, 1411);
    PositiveAppend(d, vs, v, 1412);
  }

  lemma PositiveAppend(d: Buffer, vs: seq<Visit>, v: Visit, id: uint32)
    requires AllReadable(d, vs) && Readable(d, v)
    ensures AllReadable(d, vs + [v])
    ensures AnyPositive(d, vs + [v], id) <==> (CarriesInt(d, v, id) && I32(d, v.start + 12) > 0) || AnyPositive(d, vs, id)
  {
    hide I32, U32;
    assert forall u :: u in vs + [v] <==> u == v || u in vs;
    if CarriesInt(d, v, id) && I32(d, v.start + 12) > 0 {
      assert v in vs + [v];
    } else if AnyPositive(d, vs, id) {
      var u :| u in vs && CarriesInt(d, u, id) && I32(d, u.start + 12) > 0;
      assert u in vs + [v];
    }
  }

  // ----- segmentation, one structure at a time -----

  lemma {:induction false} SegmentsAppend(vs: seq<Visit>, v: Visit)
    ensures Segments(vs) == [] ==>
              Lead(vs + [v]) == (if v.kind == MQCFT_GROUP then Lead(vs) else Lead(vs) + [v])
    ensures v.kind == MQCFT_GROUP ==> Segments(vs + [v]) == Segments(vs) + [[]]
    ensures v.kind != MQCFT_GROUP && Segments(vs) == [] ==> Segments(vs + [v]) == []
    ensures v.kind != MQCFT_GROUP && Segments(vs) != [] ==>
              var n := |Segments(vs)| - 1;
              Segments(vs + [v]) == Segments(vs)[..n] + [Segments(vs)[n] + [v]]
    ensures Segments(vs) != [] ==> Lead(vs + [v]) == Lead(vs)
    decreases |vs|
  {
    if vs == [] {
      assert [] + [v] == [v] && [v][1..] == [];
    } else {
      assert (vs + [v])[0] == vs[0] && (vs + [v])[1..] == vs[1..] + [v];
      SegmentsAppend(vs[1..], v);
    }
  }

  lemma {:induction false} NamedAppend(d: Buffer, segments: seq<seq<Visit>>, s: seq<Visit>)
    requires (forall x :: x in segments ==> AllReadable(d, x)) && AllReadable(d, s)
    ensures forall x :: x in segments + [s] ==> AllReadable(d, x)
    ensures NamedHandles(d, segments + [s]) ==
            NamedHandles(d, segments) + if HandleOf(d, s).queueName != [] then [HandleOf(d, s)] else []
    decreases |segments|
  {
    hide AllReadable, HandleOf;
    assert forall x :: x in segments + [s] <==> x in segments || x == s;
    if segments == [] {
      assert [] + [s] == [s];
    } else {
      assert (segments + [s])[0] == segments[0] && (segments + [s])[1..] == segments[1..] + [s];
      NamedAppend(d, segments[1..], s);
    }
  }

  /** What the loop carries after the structures `vs`. */
  ghost predicate Carried(d: Buffer, vs: seq<Visit>, handles: seq<QueueHandle>, current: QueueHandle, inGroup: bool) {
    AllReadable(d, vs) &&
    (SegmentsReadable(d, vs);
     var segments := Segments(vs);
     var n := |segments| - 1;
     && inGroup == (segments != [])
     && (inGroup ==> current == HandleOf(d, segments[n]) && handles == NamedHandles(d, segments[..n]))
     && (!inGroup ==> current == HandleOf(d, Lead(vs)) && handles == []))
  }

  lemma CarryGroup(d: Buffer, vs: seq<Visit>, v: Visit, handles: seq<QueueHandle>, current: QueueHandle, inGroup: bool)
    requires Carried(d, vs, handles, current, inGroup) && Readable(d, v) && v.kind == MQCFT_GROUP
    ensures Carried(d, vs + [v], if inGroup && current.queueName != [] then handles + [current] else handles, NO_HANDLE, true)
  {
    hide Readable, HandleOf, NamedHandles;
    assert HandleOf(d, []) == NO_HANDLE by {
      EmptyHandle(d);
    }
    SegmentsReadable(d, vs);
    SegmentsAppend(vs, v);
    SegmentsReadable(d, vs + [v]);
    var segments := Segments(vs);
    assert Segments(vs + [v])[..|segments|] == segments;
    if inGroup {
      var n := |segments| - 1;
      assert segments == segments[..n] + [segments[n]];
      NamedAppend(d, segments[..n], segments[n]);
    } else {
      NoSegments(d);
    }
  }

  lemma EmptyHandle(d: Buffer)
    ensures HandleOf(d, []) == NO_HANDLE
  {
  }

  lemma NoSegments(d: Buffer)
    ensures NamedHandles(d, []) == []
  {
  }

  lemma CarryOther(d: Buffer, vs: seq<Visit>, v: Visit, handles: seq<QueueHandle>, current: QueueHandle, inGroup: bool)
    requires Carried(d, vs, handles, current, inGroup) && Readable(d, v) && v.kind != MQCFT_GROUP
    ensures Carried(d, vs + [v], handles, AfterVisit(d, v, current), inGroup)
  {
    hide Readable, HandleOf, NamedHandles, AfterVisit;
    SegmentsReadable(d, vs);
    SegmentsAppend(vs, v);
    SegmentsReadable(d, vs + [v]);
    var segments := Segments(vs);
    if inGroup {
      var n := |segments| - 1;
      assert segments[n] in segments;
      HandleAppend(d, segments[n], v);
      assert Segments(vs + [v])[..n] == segments[..n];
    } else {
      HandleAppend(d, Lead(vs), v);
    }
  }

  lemma CarryEnd(d: Buffer, vs: seq<Visit>, handles: seq<QueueHandle>, current: QueueHandle, inGroup: bool)
    requires Carried(d, vs, handles, current, inGroup)
    ensures (if current.queueName != [] then handles + [current] else handles) == HandlesOf(d, vs)
  {
    hide Readable, HandleOf, NamedHandles;
    SegmentsReadable(d, vs);
    var segments := Segments(vs);
    NoSegments(d);
    if inGroup {
      var n := |segments| - 1;
      assert segments == segments[..n] + [segments[n]];
      NamedAppend(d, segments[..n], segments[n]);
    } else {
      NamedAppend(d, [], Lead(vs));
      assert [] + [Lead(vs)] == [Lead(vs)];
    }
  }

  /** The switch over one structure; `done` are the structures before it. */
  method ParseStructure(data: Buffer, v: Visit, handles: seq<QueueHandle>, current: QueueHandle, inGroup: bool,
                        ghost done: seq<Visit>)
    returns (handles': seq<QueueHandle>, current': QueueHandle, inGroup': bool)
    requires Carried(data, done, handles, current, inGroup) && Readable(data, v)
    ensures Carried(data, done + [v], handles', current', inGroup')
  {
    hide Readable, Carried, AfterVisit;
    handles', current', inGroup' := handles, current, inGroup;
    if v.kind == MQCFT_GROUP {
      CarryGroup(data, done, v, handles, current, inGroup);
      if inGroup && current.queueName != [] {
        handles' := handles + [current];
      }
      current', inGroup' := NO_HANDLE, true;
    } else {
      CarryOther(data, done, v, handles, current, inGroup);
      current' := ParseParam(data, v, current);
    }
  }

  /** No field leaks between segments: each handle is fixed by the structures of its own segment. */
  method ParseQueueStatusResponse(data: Buffer) returns (handles: seq<QueueHandle>)
    requires AllReadable(data, ResponseVisits(data))
    ensures handles == HandlesOf(data, ResponseVisits(data))
  {
    hide U32, Readable, AllReadable, Carried, HandlesOf;
    handles := [];
    var current, inGroup := NO_HANDLE, false;
    CarryStart(data);
    if |data| < MQCFH_SIZE || U32(data, 24) != 0 {
      CarryEnd(data, [], handles, current, inGroup);
      return;
    }
    var offset := MQCFH_SIZE;
    ghost var done: seq<Visit> := [];
    while offset + 8 <= |data|
      invariant done + Visits(data, offset) == ResponseVisits(data)
      invariant Carried(data, done, handles, current, inGroup)
      decreases |data| - offset
    {
      if U32(data, offset + 4) == 0 || offset + U32(data, offset + 4) > |data| {
        break;
      }
      var v := VisitAt(data, offset);
      VisitsStep(data, offset, done);
      handles, current, inGroup := ParseStructure(data, v, handles, current, inGroup, done);
      done := done + [v];
      offset := offset + v.len;
    }
    assert done + [] == done;
    CarryEnd(data, done, handles, current, inGroup);
    if current.queueName != [] {
      handles := handles + [current];
    }
  }

  lemma VisitsStep(d: Buffer, o: nat, done: seq<Visit>)
    requires ParamAt(d, o)
    ensures done + Visits(d, o) == done + [VisitAt(d, o)] + Visits(d, o + VisitAt(d, o).len)
    ensures AllReadable(d, done + Visits(d, o)) ==> Readable(d, VisitAt(d, o))
  {
    hide U32, Readable;
    var v, rest := VisitAt(d, o), Visits(d, o + VisitAt(d, o).len);
    assert done + ([v] + rest) == done + [v] + rest;
    assert (done + Visits(d, o))[|done|] == v;
  }

  lemma CarryStart(d: Buffer)
    ensures Carried(d, [], [], NO_HANDLE, false) && NO_HANDLE.queueName == []
  {
  }

  lemma OtherKinds(d: Buffer, v: Visit, h: QueueHandle)
    requires Readable(d, v) && v.kind != MQCFT_STRING && v.kind != MQCFT_INTEGER
    ensures AfterVisit(d, v, h) == h
  {
  }

  /** A leading flat segment is dropped as soon as one group header follows, even when it names a queue. */
  lemma LeadDropped(d: Buffer, vs: seq<Visit>, v: Visit)
    requires AllReadable(d, vs) && Segments(vs) == [] && Readable(d, v) && v.kind == MQCFT_GROUP
    ensures AllReadable(d, vs + [v]) && HandlesOf(d, vs + [v]) == []
  {
    SegmentsAppend(vs, v);
    SegmentsReadable(d, vs + [v]);
    EmptyHandle(d);
    var segments := Segments(vs + [v]);
    assert segments == [[]] && segments[1..] == [];
    assert NamedHandles(d, segments) == NamedHandles(d, segments[1..]) == [];
  }
}
