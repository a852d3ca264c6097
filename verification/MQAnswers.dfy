/** What the client's methods return and which MQ calls they make, as functions of the queue manager's answers. */
module MQAnswers {
  import opened Bytes
  import opened Text
  import opened HandleLedger
  import opened QueueManager
  import Pcf
  import PcfInquiry
  import PcfTree
  import QueueDiscovery

  /** MQRFH2 headers are stripped when the magic and a plausible StrucLength are there. */
  function StripMqrfh2(data: Buffer): Buffer {
    if |data| < 16 || data[..4] != [82, 70, 72, 32] then data
    else
      var len := I32(data, 8);
      if len < 36 || len >= |data| then data else data[len..]
  }

  /** The message starts with an MQRFH2 header of its own StrucLength, with something behind it. */
  predicate HasHeader(data: Buffer) {
    |data| >= 16 && data[..4] == [82, 70, 72, 32] && 36 <= I32(data, 8) < |data|
  }

  /** A message is shortened exactly when it has such a header, and then by exactly that header. */
  lemma StripsExactly(data: Buffer)
    ensures StripMqrfh2(data) != data <==> HasHeader(data)
    ensures HasHeader(data) ==> data == data[..I32(data, 8)] + StripMqrfh2(data)
  {
    hide I32;
    if HasHeader(data) {
      assert |StripMqrfh2(data)| < |data|;
    }
  }

  /** A header put in front of a payload is what gets removed. */
  lemma StripRemovesHeader(header: Buffer, payload: Buffer)
    requires 36 <= |header| < 0x8000_0000 && payload != []
    requires header[..4] == [82, 70, 72, 32] && I32(header, 8) == |header|
    ensures StripMqrfh2(header + payload) == payload
  {
    hide I32;
    var d := header + payload;
    assert d[..4] == header[..4];
    assert Holds(d, 0, header) by {
      assert forall i :: 0 <= i < |header| ==> d[0 + i] == header[i];
    }
    ReadWindow(d, 0, header, 8);
  }

  datatype QueueType = Stats | Accounting | UnknownType

  /** Control of the MQCFH is MQCFC_LAST. */
  predicate IsLast(d: Buffer) {
    |d| >= 24 && U32(d, 20) == 1
  }

  const MODEL_QUEUE: string := "SYSTEM.DEFAULT.MODEL.QUEUE"
  const COMMAND_QUEUE: string := "SYSTEM.ADMIN.COMMAND.QUEUE"

  /** The platform of a build for UNIX. */
  const LOCAL_PLATFORM: int32 := 3

  /** How many answers `connect` takes: the platform is inquired only on an open queue manager object. */
  function ConnectAnswers(script: seq<Reply>): nat {
    if !Ahead(script, 0).ok then 1 else 1 + PlatformAnswers(Skip(script, 1))
  }

  function PlatformAnswers(script: seq<Reply>): nat {
    if Ahead(script, 0).ok then 3 else 1
  }

  /** The inquired platform when it is positive, else the local one. */
  function Platform(script: seq<Reply>): int32 {
    if Ahead(script, 0).ok && Attribute(Ahead(script, 1), 0) > 0 then Attribute(Ahead(script, 1), 0) else LOCAL_PLATFORM
  }

  /** Open, inquire, close. */
  function InquiryCalls(script: seq<Reply>, name: Buffer, h: int): seq<MqCall> {
    [Open(name, h)] + if Ahead(script, 0).ok then [Inq(h), Close(h)] else []
  }

  // ----- messages -----

  function FetchedFrom(a: Reply): Fetched {
    if a.ok then Message(Delivered(a, 102400)) else if a.reason.NoMessageAvailable? then NoMessage else Failed
  }

  /** A failed read says that the connection is gone. */
  predicate Breaks(a: Reply) {
    !a.ok && a.reason.ConnectionBroken?
  }

  /** The messages before the first answer that is not one. */
  function Messages(script: seq<Reply>): seq<Buffer> {
    if !Ahead(script, 0).ok then [] else [Delivered(Ahead(script, 0), 102400)] + Messages(Skip(script, 1))
  }

  lemma MessagesStep(script: seq<Reply>)
    ensures Messages(script) == if !Ahead(script, 0).ok then []
                                else [Delivered(Ahead(script, 0), 102400)] + Messages(Skip(script, 1))
  {
  }

  // ----- commands -----

  /** Up to the response marked MQCFC_LAST or the first failed MQGET, at most `n`. */
  function Responses(script: seq<Reply>, n: nat): seq<Buffer>
    decreases n
  {
    if n == 0 || !Ahead(script, 0).ok then []
    else
      var d := Delivered(Ahead(script, 0), 65536);
      [d] + if IsLast(d) then [] else Responses(Skip(script, 1), n - 1)
  }

  /** The MQGETs it takes. */
  function ResponseReads(script: seq<Reply>, n: nat): nat
    decreases n
  {
    if n == 0 then 0
    else if !Ahead(script, 0).ok || IsLast(Delivered(Ahead(script, 0), 65536)) then 1
    else 1 + ResponseReads(Skip(script, 1), n - 1)
  }

  lemma ResponsesStep(script: seq<Reply>, n: nat)
    ensures n == 0 ==> Responses(script, n) == [] && ResponseReads(script, n) == 0
    ensures n > 0 && !Ahead(script, 0).ok ==> Responses(script, n) == [] && ResponseReads(script, n) == 1
    ensures n > 0 && Ahead(script, 0).ok ==>
              var d := Delivered(Ahead(script, 0), 65536);
              && Responses(script, n) == [d] + (if IsLast(d) then [] else Responses(Skip(script, 1), n - 1))
              && ResponseReads(script, n) == 1 + if IsLast(d) then 0 else ResponseReads(Skip(script, 1), n - 1)
  {
    hide IsLast, Delivered, Ahead, Skip;
  }

  /** Every response is delivered whole into the buffer, and only the last one may be marked last. */
  lemma {:induction false} ResponsesStopAtLast(script: seq<Reply>, n: nat)
    ensures var r := Responses(script, n);
            |r| <= n && forall i :: 0 <= i < |r| ==> |r[i]| <= 65536 && (i < |r| - 1 ==> !IsLast(r[i]))
    decreases n
  {
    hide IsLast, Delivered;
    if n > 0 && Ahead(script, 0).ok {
      ResponsesStopAtLast(Skip(script, 1), n - 1);
    }
  }

  /** `resize` to the last byte that is not a blank; a name of blanks only stays as it is. */
  function ResolvedName(raw: Buffer): Buffer {
    if TrimBlanks(raw) == [] then raw else TrimBlanks(raw)
  }

  predicate NamedDynamically(name: Buffer) {
    name != [] && name != Ascii(MODEL_QUEUE)
  }

  /** The reply queue was made under a name of its own. */
  predicate ReplyQueueMade(script: seq<Reply>) {
    Ahead(script, 0).ok && NamedDynamically(ResolvedName(Ahead(script, 0).data))
  }

  /** What a command returns: two opens, the put and the close of the command queue come before the reads. */
  function CommandResponses(script: seq<Reply>): seq<Buffer> {
    if ReplyQueueMade(script) then RepliedResponses(Skip(script, 1)) else []
  }

  function RepliedResponses(script: seq<Reply>): seq<Buffer> {
    if Ahead(script, 0).ok && Ahead(script, 1).ok then Responses(Skip(script, 3), 1000) else []
  }

  /** The MQ calls of a command, over reply queue `r` and command queue `c`: on every path what was opened is
      closed again. */
  function CommandCalls(script: seq<Reply>, cmd: Buffer, r: int, c: int): seq<MqCall> {
    [Open(Ascii(MODEL_QUEUE), r)] +
    if !Ahead(script, 0).ok then []
    else if !ReplyQueueMade(script) then [Close(r)]
    else RepliedCalls(Skip(script, 1), cmd, r, c)
  }

  function RepliedCalls(script: seq<Reply>, cmd: Buffer, r: int, c: int): seq<MqCall> {
    [Open(Ascii(COMMAND_QUEUE), c)] +
    (if !Ahead(script, 0).ok then []
     else [Put(c, cmd), Close(c)] + if Ahead(script, 1).ok then Gets(r, ResponseReads(Skip(script, 3), 1000)) else []) +
    [Close(r)]
  }

  function QueuesCommand(pattern: Buffer): Buffer {
    PcfInquiry.Command(13, [PcfTree.WireString(Pcf.MQCA_Q_NAME, 0, pattern), PcfTree.WireInt(20, 1)])
  }

  function NamesDiscovered(responses: seq<Buffer>): seq<Buffer> {
    QueueDiscovery.Discovered(QueueDiscovery.AllNames(responses))
  }

  // ----- subscriptions -----

  /** Both the destination queue and the subscription are made. */
  predicate PairMadeBy(script: seq<Reply>) {
    Ahead(script, 0).ok && Ahead(script, 1).ok
  }

  /** The calls that make a pair, and those that undo half of one. */
  function PairCalls(script: seq<Reply>, topic: Buffer, hobj: int, hsub: int): seq<MqCall> {
    [Open(Ascii(MODEL_QUEUE), hobj)] +
    if !Ahead(script, 0).ok then []
    else [Sub(topic, hobj, hsub)] + if Ahead(script, 1).ok then [] else [Close(hobj)]
  }

  /** Subscription first, then queue, where they are not 0. */
  function CloseCalls(hsub: int, hobj: int): seq<MqCall> {
    (if hsub != 0 then [Close(hsub)] else []) + (if hobj != 0 then [Close(hobj)] else [])
  }

  function ClosesOf(subs: seq<SubHandle>): seq<MqCall> {
    if subs == [] then [] else CloseCalls(subs[0].hsub, subs[0].hobj) + ClosesOf(subs[1..])
  }

  /** Subscriptions, statistics queue, accounting queue, connection. */
  function DisconnectCalls(subs: seq<SubHandle>, statsOpen: bool, stats: int, acctOpen: bool, acct: int): seq<MqCall> {
    ClosesOf(subs) + (if statsOpen then [Close(stats)] else []) + (if acctOpen then [Close(acct)] else []) + [Disc]
  }

  lemma ClosesOfNext(subs: seq<SubHandle>, i: nat)
    requires i < |subs|
    ensures ClosesOf(subs[i..]) == CloseCalls(subs[i].hsub, subs[i].hobj) + ClosesOf(subs[i + 1..])
  {
    assert subs[i..][0] == subs[i] && subs[i..][1..] == subs[i + 1..];
  }

  /** The retained message of a topic: after two opens, one MQGET that delivers something. */
  function RetainedFrom(script: seq<Reply>): Fetched {
    if PairMadeBy(script) && Ahead(script, 2).ok && Delivered(Ahead(script, 2), 65536) != []
    then Message(StripMqrfh2(Delivered(Ahead(script, 2), 65536)))
    else NoMessage
  }

  function RetainedCalls(script: seq<Reply>, topic: Buffer, hobj: int, hsub: int): seq<MqCall> {
    PairCalls(script, topic, hobj, hsub) + if PairMadeBy(script) then [Get(hobj)] + CloseCalls(hsub, hobj) else []
  }

  /** The waiting messages of one queue, without MQRFH2 headers, up to the first failed or empty MQGET. */
  function Drained(script: seq<Reply>, limit: nat): (r: seq<Buffer>)
    ensures |r| <= limit
    decreases limit
  {
    if limit == 0 || !Ahead(script, 0).ok || Delivered(Ahead(script, 0), 65536) == [] then []
    else [StripMqrfh2(Delivered(Ahead(script, 0), 65536))] + Drained(Skip(script, 1), limit - 1)
  }

  /** The MQGETs it takes to drain `n` messages: one more finds the end, unless the limit is reached first. */
  function Reads(n: nat, limit: nat): nat {
    if n < limit then n + 1 else n
  }

  function DrainedAll(script: seq<Reply>, queues: nat): seq<Buffer>
    decreases queues
  {
    if queues == 0 then []
    else
      var m := Drained(script, 500);
      m + DrainedAll(Skip(script, Reads(|m|, 500)), queues - 1)
  }

  /** Every subscription's own queue is read, in order. */
  function DrainCalls(script: seq<Reply>, subs: seq<SubHandle>): seq<MqCall>
    decreases |subs|
  {
    if subs == [] then []
    else
      var n := Reads(|Drained(script, 500)|, 500);
      Gets(subs[0].hobj, n) + DrainCalls(Skip(script, n), subs[1..])
  }

  lemma DrainNext(script: seq<Reply>, subs: seq<SubHandle>, i: nat)
    requires i < |subs|
    ensures var m := Drained(script, 500);
            var n := Reads(|m|, 500);
            && DrainedAll(script, |subs| - i) == m + DrainedAll(Skip(script, n), |subs| - i - 1)
            && DrainCalls(script, subs[i..]) == Gets(subs[i].hobj, n) + DrainCalls(Skip(script, n), subs[i + 1..])
  {
    hide Drained, Reads, Gets, Skip;
    assert subs[i..][0] == subs[i] && subs[i..][1..] == subs[i + 1..];
  }
}
