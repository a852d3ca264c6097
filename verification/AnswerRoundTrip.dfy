/** What the reading loops return, said of the bytes the queue manager delivers and of nothing else: a
    response is the last one by the word at offset 20, and everything before it is kept. */
module AnswerRoundTrip {
  import opened Bytes
  import opened Text
  import opened PcfTree
  import opened HandleLedger
  import opened QueueManager
  import opened MQAnswers
  import CommandRoundTrip

  // ----- which response is the last -----

  /** The last response is the one whose bytes 20 to 23 are the integer 1. */
  lemma LastInBytes(d: Buffer)
    ensures IsLast(d) <==> |d| >= 24 && d[20..24] == [1, 0, 0, 0]
  {
  }

  /** Of the nine header fields it is the sixth, Control, that marks the last response. */
  lemma LastIsControl(fs: seq<int32>, rest: Buffer)
    requires |fs| == 9
    ensures IsLast(Concat32(fs) + rest) <==> fs[5] == 1
  {
    hide U32, I32, Concat32;
    var d := Concat32(fs) + rest;
    HoldsSelf(d);
    HoldsConcat(d, 0, Concat32(fs), rest);
    CommandRoundTrip.FieldReadsBack(d, 0, fs, 5);
    CommandRoundTrip.UnsignedRead(d, 20);
    SignedOne(d, 20);
  }

  lemma SignedOne(d: Buffer, o: nat)
    requires o + 4 <= |d|
    ensures U32(d, o) == 1 <==> I32(d, o) == 1
  {
    hide U32;
  }

  /** Answer `a` delivers `d`: the whole message, or as much of it as `size` bytes hold. */
  predicate Delivers(a: Reply, size: nat, d: Buffer) {
    a.ok && d <= a.data && |d| == if |a.data| <= size then |a.data| else size
  }

  lemma DeliveredIs(a: Reply, size: nat)
    ensures a.ok ==> Delivers(a, size, Delivered(a, size))
  {
  }

  predicate Marked(d: Buffer) {
    |d| >= 24 && d[20..24] == [1, 0, 0, 0]
  }

  /** The responses are the first answers, in order and whole up to 65536 bytes, none of them but the last
      marked; and they end only at the limit, at a marked response or where an answer fails. */
  lemma {:induction false} ResponsesExactly(script: seq<Reply>, n: nat)
    ensures var r := Responses(script, n);
            && |r| <= n
            && (forall i :: 0 <= i < |r| ==> Delivers(Ahead(script, i), 65536, r[i]))
            && (forall i :: 0 <= i < |r| - 1 ==> !Marked(r[i]))
            && (|r| == n || (r != [] && Marked(r[|r| - 1])) || !Ahead(script, |r|).ok)
    decreases n
  {
    hide IsLast, Delivered, Marked, Ahead, Skip, Delivers, Responses;
    ResponsesStep(script, n);
    if n > 0 && Ahead(script, 0).ok {
      var d, rest := Delivered(Ahead(script, 0), 65536), Responses(Skip(script, 1), n - 1);
      DeliveredIs(Ahead(script, 0), 65536);
      LastMeansMarked(d);
      var r := Responses(script, n);
      SkipSkip(script, 1, |r| - 1);
      if !Marked(d) {
        ResponsesExactly(Skip(script, 1), n - 1);
        forall i | 1 <= i < |r|
          ensures Delivers(Ahead(script, i), 65536, r[i]) && (i < |r| - 1 ==> !Marked(r[i]))
        {
          assert r[i] == rest[i - 1];
          SkipSkip(script, 1, i - 1);
        }
      }
    }
  }

  lemma LastMeansMarked(d: Buffer)
    ensures IsLast(d) <==> Marked(d)
  {
    LastInBytes(d);
  }

  /** A response as a queue manager lays it out: the nine fields of its MQCFH, then its parameters. */
  datatype Response = Response(fields: seq<int32>, parameters: Buffer)

  function Laid(r: Response): Buffer {
    Concat32(r.fields) + r.parameters
  }

  predicate FitsBuffer(r: Response) {
    |r.fields| == 9 && 36 + |r.parameters| <= 65536
  }

  /** From answer `from` on, the script delivers exactly these responses first. */
  predicate Delivering(script: seq<Reply>, from: nat, rs: seq<Response>) {
    from + |rs| <= |script| &&
    forall j :: from <= j < from + |rs| ==> script[j].ok && script[j].data == Laid(rs[j - from])
  }

  /** Only the last one has Control 1. */
  predicate LastOnlyMarked(rs: seq<Response>) {
    rs != [] && forall i :: 0 <= i < |rs| ==> |rs[i].fields| == 9 && (rs[i].fields[5] == 1 <==> i == |rs| - 1)
  }

  lemma {:induction false} ResponsesFrom(script: seq<Reply>, from: nat, rs: seq<Response>, n: nat)
    requires LastOnlyMarked(rs) && |rs| <= n && Delivering(script, from, rs)
    requires forall r :: r in rs ==> FitsBuffer(r)
    ensures var r := Responses(Skip(script, from), n);
            |r| == |rs| && forall i :: 0 <= i < |rs| ==> r[i] == Laid(rs[i])
    decreases |rs|
  {
    hide IsLast, Laid, Responses, Delivered;
    var a := Skip(script, from);
    assert Ahead(a, 0) == script[from];
    assert rs[0] in rs;
    LaidWhole(rs[0], script[from]);
    ResponsesStep(a, n);
    LaidMarked(rs[0]);
    if |rs| > 1 {
      assert LastOnlyMarked(rs[1..]) && forall r :: r in rs[1..] ==> r in rs;
      DeliveringRest(script, from, rs);
      ResponsesFrom(script, from + 1, rs[1..], n - 1);
      SkipSkip(script, from, 1);
      var rest := Responses(Skip(script, from + 1), n - 1);
      forall i | 1 <= i < |rs|
        ensures ([Laid(rs[0])] + rest)[i] == Laid(rs[i])
      {
        assert rest[i - 1] == Laid(rs[1..][i - 1]);
      }
    }
  }

  lemma DeliveringRest(script: seq<Reply>, from: nat, rs: seq<Response>)
    requires rs != [] && Delivering(script, from, rs)
    ensures Delivering(script, from + 1, rs[1..])
  {
    hide Laid;
    forall j | from + 1 <= j < from + |rs|
      ensures script[j].ok && script[j].data == Laid(rs[1..][j - (from + 1)])
    {
      assert rs[1..][j - (from + 1)] == rs[j - from];
    }
  }

  lemma LaidWhole(r: Response, a: Reply)
    requires FitsBuffer(r) && a.data == Laid(r)
    ensures Delivered(a, 65536) == Laid(r)
  {
  }

  lemma LaidMarked(r: Response)
    requires |r.fields| == 9
    ensures IsLast(Laid(r)) <==> r.fields[5] == 1
  {
    LastIsControl(r.fields, r.parameters);
  }

  /** The reply queue was made exactly when the open succeeded and named it something that, without blanks at
      its end, is not the model queue's own name. */
  lemma ReplyQueueNamed(a: Reply, rest: seq<Reply>)
    ensures ReplyQueueMade([a] + rest) <==>
              a.ok && a.data != [] && !IsTrim(a.data, Ascii("SYSTEM.DEFAULT.MODEL.QUEUE"), {32})
  {
    hide TrimBlanks, Ascii;
    var m, t := Ascii("SYSTEM.DEFAULT.MODEL.QUEUE"), TrimBlanks(a.data);
    TrimBlanksIsTrim(a.data);
    assert Ahead([a] + rest, 0) == a;
    if IsTrim(a.data, m, {32}) {
      TrimUnique(a.data, m, t, {32});
    }
    if a.data == m {
      ModelName();
      TrimUnique(a.data, m, t, {32});
    }
  }

  lemma ModelName()
    ensures var m := Ascii("SYSTEM.DEFAULT.MODEL.QUEUE"); |m| == 26 && m[25] == 69 && IsTrim(m, m, {32})
  {
  }

  /** The whole command: when both queues open, the reply queue under a name of its own, and the put
      succeeds, the command returns every response up to the one with Control 1, in order. */
  lemma CommandDelivers(script: seq<Reply>, rs: seq<Response>)
    requires |script| >= 4 && script[0].ok && script[1].ok && script[2].ok
    requires script[0].data != [] && !IsTrim(script[0].data, Ascii("SYSTEM.DEFAULT.MODEL.QUEUE"), {32})
    requires LastOnlyMarked(rs) && |rs| <= 1000 && Delivering(script, 4, rs)
    requires forall r :: r in rs ==> FitsBuffer(r)
    ensures var r := CommandResponses(script);
            |r| == |rs| && forall i :: 0 <= i < |rs| ==> r[i] == Laid(rs[i])
  {
    hide ReplyQueueMade, Responses, LastOnlyMarked, Delivering, FitsBuffer, Laid, Ascii, IsTrim;
    assert script == [script[0]] + script[1..];
    ReplyQueueNamed(script[0], script[1..]);
    SkipSkip(script, 1, 0);
    SkipSkip(script, 1, 1);
    SkipSkip(script, 1, 3);
    ResponsesFrom(script, 4, rs, 1000);
  }

  // ----- messages and publications -----

  /** The messages are the first answers, whole up to 102400 bytes, up to the first that fails. */
  lemma {:induction false} MessagesExactly(script: seq<Reply>)
    ensures var m := Messages(script);
            && (forall i :: 0 <= i < |m| ==> Delivers(Ahead(script, i), 102400, m[i]))
            && !Ahead(script, |m|).ok
    decreases |script|
  {
    hide Delivered, Ahead, Skip, Delivers, Messages;
    MessagesStep(script);
    if Ahead(script, 0).ok {
      DeliveredIs(Ahead(script, 0), 102400);
      SkipShrinks(script);
      MessagesExactly(Skip(script, 1));
      var m, rest := Messages(script), Messages(Skip(script, 1));
      SkipSkip(script, 1, |rest|);
      forall i | 1 <= i < |m|
        ensures Delivers(Ahead(script, i), 102400, m[i])
      {
        assert m[i] == rest[i - 1];
        SkipSkip(script, 1, i - 1);
      }
    }
  }

  /** Publication `m` is what answer `a` delivers in at most 65536 bytes, not empty, without the MQRFH2 header
      it starts with, if any. */
  ghost predicate Publishes(a: Reply, m: Buffer) {
    exists d :: Delivers(a, 65536, d) && d != [] && Unwrapped(d, m)
  }

  /** With the magic `RFH ` in front and a length of at least 36 that leaves something behind it, the rest;
      otherwise the whole. */
  predicate Unwrapped(d: Buffer, m: Buffer) {
    if |d| >= 16 && d[..4] == [82, 70, 72, 32] && 36 <= I32(d, 8) < |d| then d == d[..I32(d, 8)] + m else m == d
  }

  lemma StripIsUnwrapped(d: Buffer)
    ensures Unwrapped(d, StripMqrfh2(d))
  {
    hide I32;
    StripsExactly(d);
  }

  /** One queue's publications are its first answers in order; they end only at the limit, at a failed or
      at an empty answer. */
  lemma {:induction false} DrainedExactly(script: seq<Reply>, limit: nat)
    ensures var m := Drained(script, limit);
            && |m| <= limit
            && (forall i :: 0 <= i < |m| ==> Publishes(Ahead(script, i), m[i]))
            && (|m| == limit || !Ahead(script, |m|).ok || Ahead(script, |m|).data == [])
    decreases limit
  {
    hide Ahead, Skip, Delivered, Delivers, Unwrapped, StripMqrfh2, Publishes, Drained;
    var d := Delivered(Ahead(script, 0), 65536);
    DrainedStep(script, limit);
    NothingDelivered(Ahead(script, 0));
    if limit > 0 && Ahead(script, 0).ok && d != [] {
      DeliveredIs(Ahead(script, 0), 65536);
      StripIsUnwrapped(d);
      PublishesFirst(Ahead(script, 0), d);
      DrainedExactly(Skip(script, 1), limit - 1);
      var m, rest := Drained(script, limit), Drained(Skip(script, 1), limit - 1);
      SkipSkip(script, 1, |rest|);
      forall i | 1 <= i < |m|
        ensures Publishes(Ahead(script, i), m[i])
      {
        assert m[i] == rest[i - 1];
        SkipSkip(script, 1, i - 1);
      }
    }
  }

  lemma NothingDelivered(a: Reply)
    ensures Delivered(a, 65536) == [] <==> a.data == []
  {
  }

  lemma PublishesFirst(a: Reply, d: Buffer)
    requires Delivers(a, 65536, d) && d != []
    ensures Publishes(a, StripMqrfh2(d))
  {
    hide StripMqrfh2, Unwrapped;
    StripIsUnwrapped(d);
  }

  lemma DrainedStep(script: seq<Reply>, limit: nat)
    ensures Drained(script, limit) ==
            if limit == 0 || !Ahead(script, 0).ok || Delivered(Ahead(script, 0), 65536) == [] then []
            else [StripMqrfh2(Delivered(Ahead(script, 0), 65536))] + Drained(Skip(script, 1), limit - 1)
  {
    hide StripMqrfh2;
  }

  /** The retained message is what the third answer delivers, after the two that made the pair. */
  lemma RetainedExactly(script: seq<Reply>, m: Buffer)
    ensures RetainedFrom(script) == Message(m) <==>
              Ahead(script, 0).ok && Ahead(script, 1).ok && Publishes(Ahead(script, 2), m)
    ensures RetainedFrom(script).Failed? == false
  {
    hide Ahead, StripMqrfh2, Unwrapped;
    var a := Ahead(script, 2);
    var d := Delivered(a, 65536);
    StripIsUnwrapped(d);
    DeliveredIs(a, 65536);
    if Publishes(a, m) {
      var e :| Delivers(a, 65536, e) && e != [] && Unwrapped(e, m);
      assert e == d;
      UnwrappedOnce(d, m, StripMqrfh2(d));
    }
  }

  lemma UnwrappedOnce(d: Buffer, m: Buffer, n: Buffer)
    requires Unwrapped(d, m) && Unwrapped(d, n)
    ensures m == n
  {
    hide I32;
    if |d| >= 16 && d[..4] == [82, 70, 72, 32] && 36 <= I32(d, 8) < |d| {
      assert m == d[I32(d, 8)..] && n == d[I32(d, 8)..];
    }
  }

  /** The platform is the first inquired attribute when that is positive, else 3. */
  lemma PlatformIs(open: Reply, inquiry: Reply, rest: seq<Reply>)
    ensures Platform([open, inquiry] + rest) ==
            if open.ok && inquiry.ok && inquiry.attrs != [] && inquiry.attrs[0] > 0 then inquiry.attrs[0] else 3
  {
    var script := [open, inquiry] + rest;
    assert Ahead(script, 0) == open && Ahead(script, 1) == inquiry;
  }

  lemma RealCalls(s: SubHandle)
    requires Real(s)
    ensures CloseCalls(s.hsub, s.hobj) == [Close(s.hsub), Close(s.hobj)]
  {
  }

  /** Pair `i` stands at positions `2 * i` and `2 * i + 1`. */
  predicate ClosedAt(calls: seq<MqCall>, i: nat, s: SubHandle) {
    2 * i + 1 < |calls| && calls[2 * i] == Close(s.hsub) && calls[2 * i + 1] == Close(s.hobj)
  }

  lemma ClosedLater(calls: seq<MqCall>, x: MqCall, y: MqCall, i: nat, s: SubHandle)
    requires ClosedAt(calls, i, s)
    ensures ClosedAt([x, y] + calls, i + 1, s)
  {
  }

  /** Recorded pairs are closed in order, each subscription before its queue. */
  lemma {:induction false} ClosesInOrder(subs: seq<SubHandle>)
    requires AllReal(subs)
    ensures |ClosesOf(subs)| == 2 * |subs| && forall i :: 0 <= i < |subs| ==> ClosedAt(ClosesOf(subs), i, subs[i])
    decreases |subs|
  {
    hide CloseCalls, ClosedAt;
    if subs != [] {
      assert Real(subs[0]) && forall s :: s in subs[1..] ==> s in subs;
      RealCalls(subs[0]);
      ClosesInOrder(subs[1..]);
      var x, y, rest := Close(subs[0].hsub), Close(subs[0].hobj), ClosesOf(subs[1..]);
      assert ClosedAt([x, y] + rest, 0, subs[0]) by {
        ClosedFirst(rest, subs[0]);
      }
      forall i | 1 <= i < |subs|
        ensures ClosedAt([x, y] + rest, i, subs[i])
      {
        assert subs[1..][i - 1] == subs[i];
        ClosedLater(rest, x, y, i - 1, subs[i]);
      }
    }
  }

  lemma ClosedFirst(rest: seq<MqCall>, s: SubHandle)
    ensures ClosedAt([Close(s.hsub), Close(s.hobj)] + rest, 0, s)
  {
  }

  /** One read gives a message when the answer delivers one, nothing when none is waiting, else it fails. */
  lemma FetchedExactly(a: Reply, d: Buffer)
    ensures FetchedFrom(a) == Message(d) <==> Delivers(a, 102400, d)
    ensures FetchedFrom(a) == NoMessage <==> !a.ok && a.reason == NoMessageAvailable
  {
    DeliveredIs(a, 102400);
  }

  /** The calls of such a command: the reply queue and the command queue are opened, the command is put to the
      latter, and one read per response is made of the former. */
  lemma CommandTalk(script: seq<Reply>, rs: seq<Response>, cmd: Buffer, r: int, c: int)
    requires |script| >= 4 && script[0].ok && script[1].ok && script[2].ok
    requires script[0].data != [] && !IsTrim(script[0].data, Ascii("SYSTEM.DEFAULT.MODEL.QUEUE"), {32})
    requires LastOnlyMarked(rs) && |rs| <= 1000 && Delivering(script, 4, rs)
    requires forall r :: r in rs ==> FitsBuffer(r)
    ensures CommandCalls(script, cmd, r, c) ==
            [Open(Ascii("SYSTEM.DEFAULT.MODEL.QUEUE"), r), Open(Ascii("SYSTEM.ADMIN.COMMAND.QUEUE"), c), Put(c, cmd), Close(c)]
            + seq(|rs|, _ => Get(r)) + [Close(r)]
  {
    hide ReplyQueueMade, Responses, ResponseReads, LastOnlyMarked, Delivering, FitsBuffer, Laid, Ascii, IsTrim;
    assert script == [script[0]] + script[1..];
    ReplyQueueNamed(script[0], script[1..]);
    SkipSkip(script, 1, 0);
    SkipSkip(script, 1, 1);
    SkipSkip(script, 1, 3);
    ReadsFrom(script, 4, rs, 1000);
  }

  lemma {:induction false} ReadsFrom(script: seq<Reply>, from: nat, rs: seq<Response>, n: nat)
    requires LastOnlyMarked(rs) && |rs| <= n && Delivering(script, from, rs)
    requires forall r :: r in rs ==> FitsBuffer(r)
    ensures ResponseReads(Skip(script, from), n) == |rs|
    decreases |rs|
  {
    hide IsLast, Laid, Responses, ResponseReads, Delivered;
    var a := Skip(script, from);
    assert Ahead(a, 0) == script[from];
    assert rs[0] in rs;
    LaidWhole(rs[0], script[from]);
    ResponsesStep(a, n);
    LaidMarked(rs[0]);
    if |rs| > 1 {
      assert LastOnlyMarked(rs[1..]) && forall r :: r in rs[1..] ==> r in rs;
      DeliveringRest(script, from, rs);
      ReadsFrom(script, from + 1, rs[1..], n - 1);
      SkipSkip(script, from, 1);
    }
  }

  // ----- every subscription's own messages -----

  /** What waits on one queue, and the answer that ends its reading. */
  datatype Waiting = Waiting(messages: seq<Reply>, end: Reply)

  predicate Drains(w: Waiting) {
    && |w.messages| < 500 && !w.end.ok
    && forall a :: a in w.messages ==> a.ok && 0 < |a.data| <= 65536
  }

  function ScriptOf(ws: seq<Waiting>): seq<Reply> {
    if ws == [] then [] else ws[0].messages + [ws[0].end] + ScriptOf(ws[1..])
  }

  function Contents(w: Waiting): seq<Buffer> {
    seq(|w.messages|, i requires 0 <= i < |w.messages| => StripMqrfh2(w.messages[i].data))
  }

  function AllContents(ws: seq<Waiting>): seq<Buffer> {
    if ws == [] then [] else Contents(ws[0]) + AllContents(ws[1..])
  }

  /** One read per message and one to find the end, each of the subscription's own queue. */
  function ReadsOfAll(subs: seq<SubHandle>, ws: seq<Waiting>): seq<MqCall>
    requires |subs| == |ws|
  {
    if ws == [] then [] else seq(|ws[0].messages| + 1, _ => Get(subs[0].hobj)) + ReadsOfAll(subs[1..], ws[1..])
  }

  lemma {:induction false} OneDrained(messages: seq<Reply>, end: Reply, rest: seq<Reply>, limit: nat)
    requires |messages| < limit && !end.ok
    requires forall a :: a in messages ==> a.ok && 0 < |a.data| <= 65536
    ensures Drained(messages + [end] + rest, limit) == Contents(Waiting(messages, end))
    decreases |messages|
  {
    hide StripMqrfh2, Drained;
    var script := messages + [end] + rest;
    DrainedStep(script, limit);
    if messages == [] {
      assert Ahead(script, 0) == end;
    } else {
      var a := messages[0];
      assert a in messages && Ahead(script, 0) == a;
      assert Skip(script, 1) == messages[1..] + [end] + rest;
      assert forall b :: b in messages[1..] ==> b in messages;
      OneDrained(messages[1..], end, rest, limit - 1);
      assert Contents(Waiting(messages, end)) == [StripMqrfh2(a.data)] + Contents(Waiting(messages[1..], end));
    }
  }

  /** All waiting messages of all subscriptions are returned, queue by queue, each read from its own queue. */
  lemma {:induction false} AllDrained(subs: seq<SubHandle>, ws: seq<Waiting>)
    requires |subs| == |ws| && forall w :: w in ws ==> Drains(w)
    ensures DrainedAll(ScriptOf(ws), |ws|) == AllContents(ws)
    ensures DrainCalls(ScriptOf(ws), subs) == ReadsOfAll(subs, ws)
    decreases |ws|
  {
    hide Drained, Contents;
    if ws != [] {
      var w, script := ws[0], ScriptOf(ws);
      assert Drains(w) && forall v :: v in ws[1..] ==> v in ws;
      OneDrained(w.messages, w.end, ScriptOf(ws[1..]), 500);
      ContentsLength(w);
      assert Skip(script, |w.messages| + 1) == ScriptOf(ws[1..]);
      AllDrained(subs[1..], ws[1..]);
    }
  }

  lemma ContentsLength(w: Waiting)
    ensures |Contents(w)| == |w.messages|
  {
  }
}
