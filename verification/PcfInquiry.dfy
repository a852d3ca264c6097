/** `PCFInquiry`: the command builders, and the scan its response parsers share. */
module PcfInquiry {
  import opened Bytes
  import opened Pcf
  import opened Text
  import opened PcfTree

  // ----- builders: the buffer is the in-out parameter `buf` -----

  method AppendInt32(buf: Buffer, value: int32) returns (out: Buffer)
    ensures out == buf + Le32(value)
  {
    out := buf + Le32(value);
  }

  lemma {:induction false} Concat32Append(vs: seq<int32>, v: int32)
    ensures Concat32(vs + [v]) == Concat32(vs) + Le32(v)
    decreases |vs|
  {
    hide Le32;
    if vs == [] {
      assert [] + [v] == [v] && [v][1..] == [];
      assert Concat32([v]) == Le32(v) + Concat32([]);
    } else {
      assert (vs + [v])[0] == vs[0] && (vs + [v])[1..] == vs[1..] + [v];
      Concat32Append(vs[1..], v);
      assert Le32(vs[0]) + (Concat32(vs[1..]) + Le32(v)) == Le32(vs[0]) + Concat32(vs[1..]) + Le32(v);
    }
  }

  /** The nine fields of the MQCFH of a command. */
  function Header(command: int32, paramCount: int32): (r: Buffer)
    ensures |r| == MQCFH_SIZE
  {
    Concat32([MQCFT_COMMAND, 36, 1, command, 1, 1, 0, 0, paramCount])
  }

  lemma NineFields(fs: seq<int32>)
    requires |fs| == 9
    ensures Concat32(fs) == [] + Le32(fs[0]) + Le32(fs[1]) + Le32(fs[2]) + Le32(fs[3]) + Le32(fs[4]) + Le32(fs[5])
                            + Le32(fs[6]) + Le32(fs[7]) + Le32(fs[8])
  {
    hide Le32;
    PrefixField(fs, 0);
    PrefixField(fs, 1);
    PrefixField(fs, 2);
    PrefixField(fs, 3);
    PrefixField(fs, 4);
    PrefixField(fs, 5);
    PrefixField(fs, 6);
    PrefixField(fs, 7);
    PrefixField(fs, 8);
    assert fs[..9] == fs;
  }

  lemma PrefixField(fs: seq<int32>, k: nat)
    requires k < |fs|
    ensures Concat32(fs[..k + 1]) == Concat32(fs[..k]) + Le32(fs[k])
  {
    Concat32Append(fs[..k], fs[k]);
    assert fs[..k + 1] == fs[..k] + [fs[k]];
  }

  method BuildPcfCmd(command: int32, paramCount: int32) returns (buf: Buffer)
    ensures buf == Header(command, paramCount)
  {
    hide Le32, Concat32;
    ghost var fields := [MQCFT_COMMAND, 36, 1, command, 1, 1, 0, 0, paramCount];
    buf := AppendInt32([], MQCFT_COMMAND);
    buf := AppendInt32(buf, 36);
    buf := AppendInt32(buf, 1);
    buf := AppendInt32(buf, command);
    buf := AppendInt32(buf, 1);
    buf := AppendInt32(buf, 1);
    buf := AppendInt32(buf, 0);
    buf := AppendInt32(buf, 0);
    buf := AppendInt32(buf, paramCount);
    NineFields(fields);
  }

  /** `x % 4` as C++ computes it: the remainder has the sign of `x`. */
  function Rem4(x: int): int {
    if x >= 0 then x % 4 else -((-x) % 4)
  }

  lemma WrapKeepsResidues(n: int)
    ensures Wrap32(n) % 0x1_0000_0000 == n % 0x1_0000_0000 && Wrap32(n) % 4 == n % 4
  {
    var k: int, w: int := n / 0x1_0000_0000, Wrap32(n);
    assert w == n - 0x1_0000_0000 * k || w == n - 0x1_0000_0000 * (k + 1);
  }

  lemma PaddingByRemainder(x: int)
    ensures (4 - Rem4(x)) % 4 == (4 - x % 4) % 4
  {
  }

  lemma Le32ByResidue(x: int, y: int)
    requires x % 0x1_0000_0000 == y % 0x1_0000_0000
    ensures Le32(x) == Le32(y)
  {
  }

  /** The casts to 32 bits change neither the bytes written nor the padding, whatever the length. */
  lemma CastsAreHarmless(n: nat)
    ensures Le32(Wrap32(n)) == Le32(n) && (4 - Rem4(Wrap32(n))) % 4 == |Padding(n)|
  {
    hide Le32, Wrap32, Rem4;
    WrapKeepsResidues(n);
    Le32ByResidue(Wrap32(n), n);
    PaddingByRemainder(Wrap32(n));
  }

  /** The placeholder of StrucLength is patched once the padded string is in place. */
  method AppendStringParam(buf: Buffer, id: int32, value: Buffer) returns (out: Buffer)
    ensures out == buf + Encode(WireString(id, 0, value))
  {
    hide Le32, Wrap32, Rem4;
    CastsAreHarmless(|value|);
    var paramStart := |buf|;
    out := AppendInt32(buf, MQCFT_STRING);
    var lenPos := |out|;
    out := AppendInt32(out, 0);
    out := AppendInt32(out, id);
    out := AppendInt32(out, 0);
    var strLen := Wrap32(|value|);
    out := AppendInt32(out, strLen);
    out := out + value;
    var padding := (4 - Rem4(strLen)) % 4;
    ghost var unpadded := out;
    for i := 0 to padding
      invariant out == unpadded + seq(i, _ => 0)
    {
      out := out + [0];
    }
    assert out == unpadded + Padding(|value|);
    var paramLen := Wrap32(|out| - paramStart);
    CastsAreHarmless(|out| - paramStart);
    ghost var rest := Le32(id) + StringBody(0, value);
    assert out == out[..lenPos] + Le32(0) + rest;
    out := out[..lenPos] + Le32(paramLen) + out[lenPos + 4..];
    assert out == buf + (Le32(MQCFT_STRING) + (Le32(paramLen) + rest));
  }

  method AppendIntegerParam(buf: Buffer, id: int32, value: int32) returns (out: Buffer)
    ensures out == buf + Encode(WireInt(id, value))
  {
    hide Le32;
    out := AppendInt32(buf, MQCFT_INTEGER);
    out := AppendInt32(out, 16);
    out := AppendInt32(out, id);
    out := AppendInt32(out, value);
    assert out == buf + (Le32(MQCFT_INTEGER) + (Le32(16) + (Le32(id) + Le32(value))));
  }

  /** A command message: its header counts the parameters that follow it. */
  function Command(command: int32, ws: seq<Wire>): Buffer
    requires |ws| < 0x8000_0000
  {
    Header(command, |ws|) + EncodeAll(ws)
  }

  lemma CommandOfOne(command: int32, w: Wire)
    ensures Command(command, [w]) == Header(command, 1) + Encode(w)
  {
    assert EncodeAll([w]) == Encode(w) + EncodeAll([]);
  }

  lemma CommandOfTwo(command: int32, v: Wire, w: Wire)
    ensures Command(command, [v, w]) == Header(command, 2) + Encode(v) + Encode(w)
  {
    assert [v, w][1..] == [w];
    assert EncodeAll([v, w]) == Encode(v) + (Encode(w) + EncodeAll([]));
  }

  /** Names that fit a command: with its header and padding the structure length stays an MQLONG. */
  predicate FitsCommand(name: Buffer) {
    20 + |name| + |Padding(|name|)| < 0x8000_0000
  }

  method BuildInquireQCmd(queueName: Buffer) returns (buf: Buffer)
    ensures buf == Command(13, [WireString(MQCA_Q_NAME, 0, queueName), WireInt(20, 1)])
  {
    hide Encode, Header;
    buf := BuildPcfCmd(13, 2);
    buf := AppendStringParam(buf, MQCA_Q_NAME, queueName);
    buf := AppendIntegerParam(buf, 20, 1);
    CommandOfTwo(13, WireString(MQCA_Q_NAME, 0, queueName), WireInt(20, 1));
  }

  method BuildInquireQStatusCmd(queueName: Buffer) returns (buf: Buffer)
    ensures buf == Command(41, [WireString(MQCA_Q_NAME, 0, queueName), WireInt(1103, 1104)])
  {
    hide Encode, Header;
    buf := BuildPcfCmd(41, 2);
    buf := AppendStringParam(buf, MQCA_Q_NAME, queueName);
    buf := AppendIntegerParam(buf, 1103, 1104);
    CommandOfTwo(41, WireString(MQCA_Q_NAME, 0, queueName), WireInt(1103, 1104));
  }

  method BuildInquireChannelStatusCmd(channelPattern: Buffer) returns (buf: Buffer)
    ensures buf == Command(42, [WireString(3501, 0, channelPattern)])
  {
    hide Encode, Header;
    buf := BuildPcfCmd(42, 1);
    buf := AppendStringParam(buf, 3501, channelPattern);
    CommandOfOne(42, WireString(3501, 0, channelPattern));
  }

  method BuildInquireTopicStatusCmd(topicPattern: Buffer) returns (buf: Buffer)
    ensures buf == Command(183, [WireString(MQCA_TOPIC_STRING, 0, topicPattern)])
  {
    hide Encode, Header;
    buf := BuildPcfCmd(183, 1);
    buf := AppendStringParam(buf, MQCA_TOPIC_STRING, topicPattern);
    CommandOfOne(183, WireString(MQCA_TOPIC_STRING, 0, topicPattern));
  }

  method BuildInquireSubStatusCmd(subPattern: Buffer) returns (buf: Buffer)
    ensures buf == Command(182, [WireString(3152, 0, subPattern)])
  {
    hide Encode, Header;
    buf := BuildPcfCmd(182, 1);
    buf := AppendStringParam(buf, 3152, subPattern);
    CommandOfOne(182, WireString(3152, 0, subPattern));
  }

  method BuildInquireQMgrStatusCmd() returns (buf: Buffer)
    ensures buf == Command(161, [])
  {
    hide Header;
    buf := BuildPcfCmd(161, 0);
    assert buf + EncodeAll([]) == buf;
  }

  method BuildInquireClusterQMgrCmd() returns (buf: Buffer)
    ensures buf == Command(70, [WireString(2029, 0, Ascii("*"))])
  {
    hide Encode, Header, Ascii;
    buf := BuildPcfCmd(70, 1);
    buf := AppendStringParam(buf, 2029, Ascii("*"));
    CommandOfOne(70, WireString(2029, 0, Ascii("*")));
  }

  method BuildInquireUsageCmd(usageType: int32) returns (buf: Buffer)
    ensures buf == Command(126, [WireInt(1157, usageType)])
  {
    hide Encode, Header;
    buf := BuildPcfCmd(126, 1);
    buf := AppendIntegerParam(buf, 1157, usageType);
    CommandOfOne(126, WireInt(1157, usageType));
  }

  method BuildInquireQStatusOnlineCmd(queueName: Buffer) returns (buf: Buffer)
    ensures buf == Command(41, [WireString(MQCA_Q_NAME, 0, queueName), WireInt(1103, 1105)])
  {
    hide Encode, Header;
    buf := BuildPcfCmd(41, 2);
    buf := AppendStringParam(buf, MQCA_Q_NAME, queueName);
    buf := AppendIntegerParam(buf, 1103, 1105);
    CommandOfTwo(41, WireString(MQCA_Q_NAME, 0, queueName), WireInt(1103, 1105));
  }

  method BuildResetQStatsCmd(queueName: Buffer) returns (buf: Buffer)
    ensures buf == Command(17, [WireString(MQCA_Q_NAME, 0, queueName)])
  {
    hide Encode, Header;
    buf := BuildPcfCmd(17, 1);
    buf := AppendStringParam(buf, MQCA_Q_NAME, queueName);
    CommandOfOne(17, WireString(MQCA_Q_NAME, 0, queueName));
  }

  // ----- the response scan -----

  /** A structure is visited at `o`: lengths are unsigned here. */
  predicate ParamAt(d: Buffer, o: nat) {
    o + 8 <= |d| && 0 < U32(d, o + 4) && o + U32(d, o + 4) <= |d|
  }

  /** What the visitor receives. */
  datatype Visit = Visit(kind: uint32, id: uint32, start: nat, len: uint32)

  function VisitAt(d: Buffer, o: nat): Visit
    requires ParamAt(d, o)
  {
    Visit(U32(d, o), if o + 12 <= |d| then U32(d, o + 8) else 0, o, U32(d, o + 4))
  }

  function Visits(d: Buffer, o: nat): seq<Visit>
    decreases |d| - o
  {
    if ParamAt(d, o) then [VisitAt(d, o)] + Visits(d, o + U32(d, o + 4)) else []
  }

  /** Where the scan stops. */
  function ScanEnd(d: Buffer, o: nat): nat
    decreases |d| - o
  {
    if ParamAt(d, o) then ScanEnd(d, o + U32(d, o + 4)) else o
  }

  /** The visits of one response: none when the header is short or carries a completion code. */
  function ResponseVisits(d: Buffer): seq<Visit> {
    if |d| < MQCFH_SIZE || U32(d, 24) != 0 then [] else Visits(d, MQCFH_SIZE)
  }

  method ParsePcfResponseParams(data: Buffer) returns (visits: seq<Visit>)
    ensures visits == ResponseVisits(data)
  {
    hide U32;
    visits := [];
    if |data| < MQCFH_SIZE || U32(data, 24) != 0 {
      return;
    }
    var offset := MQCFH_SIZE;
    while offset + 8 <= |data|
      invariant visits + Visits(data, offset) == Visits(data, MQCFH_SIZE)
      decreases |data| - offset
    {
      var len := U32(data, offset + 4);
      if len == 0 || offset + len > |data| {
        break;
      }
      ghost var rest := Visits(data, offset + len);
      assert visits + ([VisitAt(data, offset)] + rest) == visits + [VisitAt(data, offset)] + rest;
      visits := visits + [VisitAt(data, offset)];
      offset := offset + len;
    }
    assert visits + [] == visits;
  }

  /** Non-empty structures laid end to end from `from` to `to`. */
  predicate Tiles(vs: seq<Visit>, from: nat, to: nat) {
    if vs == [] then from == to
    else vs[0].start == from && vs[0].len > 0 && Tiles(vs[1..], from + vs[0].len, to)
  }

  /** The scan of any buffer tiles it from `o` to where it stops, strictly forward and inside the buffer. */
  lemma {:induction false} VisitsTile(d: Buffer, o: nat)
    requires o <= |d|
    ensures Tiles(Visits(d, o), o, ScanEnd(d, o)) && o <= ScanEnd(d, o) <= |d|
    ensures forall v :: v in Visits(d, o) ==> v.start + v.len <= |d|
    decreases |d| - o
  {
    hide U32;
    if ParamAt(d, o) {
      VisitsTile(d, o + U32(d, o + 4));
    }
  }

  // ----- reading one visited value -----

  /** The number of bytes `read_pcf_string` copies: `20 + str_len` is a 32-bit sum. */
  function CopiedLength(plen: uint32, strLen: uint32): uint32
    requires plen >= 24
  {
    if Low32(20 + strLen) > plen then plen - 20 else strLen
  }

  /** The copy stays in its structure exactly when the 32-bit sum does not wrap. */
  lemma StringReadInside(plen: uint32, strLen: uint32)
    requires plen >= 24
    ensures 20 + CopiedLength(plen, strLen) <= plen <==> strLen < 0x1_0000_0000 - 20
  {
  }

  /** Every byte `read_pcf_string` copies lies in the buffer. */
  predicate StringInside(d: Buffer, v: Visit) {
    v.start + v.len <= |d| && (v.len >= 24 ==> v.start + 20 + CopiedLength(v.len, U32(d, v.start + 16)) <= |d|)
  }

  function ReadPcfString(d: Buffer, v: Visit): Buffer
    requires StringInside(d, v)
  {
    if v.len < 24 then []
    else TrimPadding(d[v.start + 20..v.start + 20 + CopiedLength(v.len, U32(d, v.start + 16))])
  }

  function ReadPcfInt32(d: Buffer, v: Visit): int32
    requires v.start + v.len <= |d|
  {
    if v.len < 16 then 0 else I32(d, v.start + 12)
  }

  function ReadPcfInt64(d: Buffer, v: Visit): int64
    requires v.start + v.len <= |d|
  {
    if v.len < 24 then 0 else I64(d, v.start + 16)
  }

  /** The number of values `read_pcf_int_list` reads: `16 + count * 4` is a 32-bit sum. */
  function ListedCount(plen: uint32, count: uint32): uint32
    requires plen >= 16
  {
    if Low32(16 + count * 4) > plen then (plen - 16) / 4 else count
  }

  /** The list read stays in its structure exactly when the count fits it or the wrapped sum still shows
      that it does not. */
  lemma ListReadInside(plen: uint32, count: uint32)
    requires plen >= 16
    ensures 16 + 4 * ListedCount(plen, count) <= plen <==> 16 + 4 * count <= plen || Low32(16 + count * 4) > plen
  {
  }

  // ----- one representative response parser -----

  datatype QMgrStatus = QMgrStatus(name: Buffer, description: Buffer, startDate: Buffer, startTime: Buffer,
                                   status: int32, chinitStatus: int32, connectionCount: int32, cmdServerStatus: int32)

  const NO_STATUS := QMgrStatus([], [], [], [], 0, 0, 0, 0)

  predicate StringsInside(d: Buffer, vs: seq<Visit>) {
    forall v :: v in vs ==> v.start + v.len <= |d| && (v.kind == MQCFT_STRING ==> StringInside(d, v))
  }

  /** The last string written under `id`, or the empty string. */
  function LastString(d: Buffer, vs: seq<Visit>, id: uint32): Buffer
    requires StringsInside(d, vs)
  {
    if vs == [] then []
    else
      var v := vs[|vs| - 1];
      if v.kind == MQCFT_STRING && v.id == id then ReadPcfString(d, v) else LastString(d, vs[..|vs| - 1], id)
  }

  /** The last integer written under `id`, or 0. */
  function LastInt(d: Buffer, vs: seq<Visit>, id: uint32): int32
    requires StringsInside(d, vs)
  {
    if vs == [] then 0
    else
      var v := vs[|vs| - 1];
      if v.kind == MQCFT_INTEGER && v.id == id then ReadPcfInt32(d, v) else LastInt(d, vs[..|vs| - 1], id)
  }

  function StatusOf(d: Buffer, vs: seq<Visit>): QMgrStatus
    requires StringsInside(d, vs)
  {
    QMgrStatus(LastString(d, vs, 2015), LastString(d, vs, 2014), LastString(d, vs, 3175), LastString(d, vs, 3176),
               LastInt(d, vs, 1149), LastInt(d, vs, 1232), LastInt(d, vs, 1229), LastInt(d, vs, 1233))
  }

  method AssignVisit(d: Buffer, v: Visit, qm: QMgrStatus) returns (r: QMgrStatus)
    requires v.start + v.len <= |d| && (v.kind == MQCFT_STRING ==> StringInside(d, v))
    ensures forall vs :: StringsInside(d, vs + [v]) && qm == StatusOf(d, vs) ==> r == StatusOf(d, vs + [v])
  {
    hide ReadPcfString, ReadPcfInt32;
    r := qm;
    if v.kind == MQCFT_STRING {
      var val := ReadPcfString(d, v);
      match v.id {
        case 2015 => r := r.(name := val);
        case 2014 => r := r.(description := val);
        case 3175 => r := r.(startDate := val);
        case 3176 => r := r.(startTime := val);
        case _ =>
      }
    } else if v.kind == MQCFT_INTEGER {
      var val := ReadPcfInt32(d, v);
      match v.id {
        case 1149 => r := r.(status := val);
        case 1232 => r := r.(chinitStatus := val);
        case 1229 => r := r.(connectionCount := val);
        case 1233 => r := r.(cmdServerStatus := val);
        case _ =>
      }
    }
    forall vs | StringsInside(d, vs + [v]) && StringsInside(d, vs) && qm == StatusOf(d, vs)
      ensures r == StatusOf(d, vs + [v])
    {
      assert (vs + [v])[..|vs|] == vs && (vs + [v])[|vs|] == v;
    }
  }

  /** `parse_qmgr_status_response` for one response of at least a header. */
  function ResponseStatus(d: Buffer): QMgrStatus
    requires StringsInside(d, ResponseVisits(d))
  {
    StatusOf(d, ResponseVisits(d))
  }

  /** One entry per response of at least 36 bytes, in order. */
  function StatusEntries(responses: seq<Buffer>): seq<QMgrStatus>
    requires forall d :: d in responses ==> StringsInside(d, ResponseVisits(d))
  {
    if responses == [] then []
    else
      var d := responses[|responses| - 1];
      StatusEntries(responses[..|responses| - 1]) + if |d| < MQCFH_SIZE then [] else [ResponseStatus(d)]
  }

  method ParseQMgrStatusResponse(responses: seq<Buffer>) returns (result: seq<QMgrStatus>)
    requires forall d :: d in responses ==> StringsInside(d, ResponseVisits(d))
    ensures result == StatusEntries(responses)
  {
    hide ResponseVisits, StringsInside;
    result := [];
    for k := 0 to |responses|
      invariant result == StatusEntries(responses[..k])
    {
      var d := responses[k];
      assert responses[..k + 1][..k] == responses[..k] && responses[..k + 1][k] == d;
      if |d| < MQCFH_SIZE {
        continue;
      }
      var visits := ParsePcfResponseParams(d);
      var qm := ParseVisits(d, visits);
      result := result + [qm];
    }
    assert responses[..|responses|] == responses;
  }

  method ParseVisits(d: Buffer, visits: seq<Visit>) returns (qm: QMgrStatus)
    requires StringsInside(d, visits)
    ensures qm == StatusOf(d, visits)
  {
    qm := NO_STATUS;
    for i := 0 to |visits|
      invariant StringsInside(d, visits[..i]) && qm == StatusOf(d, visits[..i])
    {
      assert visits[..i + 1] == visits[..i] + [visits[i]];
      qm := AssignVisit(d, visits[i], qm);
    }
    assert visits[..|visits|] == visits;
  }

  /** An error response still produces an entry, with every field at its default. */
  lemma ErrorResponseYieldsDefault(d: Buffer)
    requires |d| >= MQCFH_SIZE && U32(d, 24) != 0
    ensures StatusEntries([d]) == [NO_STATUS]
  {
    assert ResponseVisits(d) == [];
    assert [d][..0] == [];
    assert StatusEntries([]) == [];
  }
}
