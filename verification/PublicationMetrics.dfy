/** What `process_publications` is meant to output for given subscriptions and messages. */
module PublicationMetrics {
  import opened Bytes
  import opened Pcf
  import opened Text
  import opened PublicationScan
  import opened HandleLedger
  import opened MonitorCatalog
  import opened SubscriptionPlan

  datatype Metric = Metric(className: Buffer, typeName: Buffer, objectName: Buffer, metricName: Buffer, value: real,
                           isDelta: bool)

  const DELTA: int32 := 2
  const HUNDREDTHS: int32 := 100
  const PERCENT: int32 := 10000
  const MICROSEC: int32 := 1000000

  /** `normalize_value`, over the reals. */
  function Normalize(raw: int64, datatypeCode: int32): real {
    if datatypeCode == HUNDREDTHS || datatypeCode == PERCENT then raw as real / 100.0
    else if datatypeCode == MICROSEC then raw as real / 1000000.0
    else raw as real
  }

  /** A value of the element found by a plain search of the catalogue, or nothing. */
  function MetricOf(classes: seq<MonitorClass>, sub: DataSub, queueName: Buffer, p: PcfParam): seq<Metric> {
    var found := Search(classes, Key(sub.className, sub.typeName), p.id);
    if (p.kind != MQCFT_INTEGER64 && p.kind != MQCFT_INTEGER) || found.None? then []
    else
      SearchFinds(classes, Key(sub.className, sub.typeName), p.id);
      var e := At(classes, found.value);
      [Metric(sub.className, sub.typeName, queueName, e.metricName, Normalize(p.int64Value, e.datatypeCode),
              e.datatypeCode == DELTA)]
  }

  function ParamMetrics(classes: seq<MonitorClass>, sub: DataSub, queueName: Buffer, ps: seq<PcfParam>): seq<Metric> {
    if ps == [] then []
    else
      var n := |ps| - 1;
      ParamMetrics(classes, sub, queueName, ps[..n]) + MetricOf(classes, sub, queueName, ps[n])
  }

  /** All of one message carries the message's last queue name. */
  function MessageMetrics(classes: seq<MonitorClass>, sub: DataSub, message: Buffer): seq<Metric> {
    if |message| < MQCFH_SIZE then []
    else
      var ps := MessageParams(message, 1);
      ParamMetrics(classes, sub, LastText(ps, MQCA_Q_NAME), ps)
  }

  function BatchMetrics(classes: seq<MonitorClass>, sub: DataSub, messages: seq<Buffer>): seq<Metric> {
    if messages == [] then []
    else
      var n := |messages| - 1;
      BatchMetrics(classes, sub, messages[..n]) + MessageMetrics(classes, sub, messages[n])
  }

  /** Subscription by subscription; `batches[i]` is what subscription i delivered. */
  function AllMetrics(classes: seq<MonitorClass>, subs: seq<DataSub>, batches: seq<seq<Buffer>>): seq<Metric>
    requires |subs| == |batches|
  {
    if subs == [] then []
    else
      var n := |subs| - 1;
      AllMetrics(classes, subs[..n], batches[..n]) + BatchMetrics(classes, subs[n], batches[n])
  }

  /** Each subscription's own queue is read once, in order. */
  function ReadsOf(subs: seq<DataSub>, batches: seq<seq<Buffer>>): seq<Call>
    requires |subs| == |batches|
  {
    if subs == [] then []
    else
      var n := |subs| - 1;
      ReadsOf(subs[..n], batches[..n]) + [Read(subs[n].handle.hobj, batches[n])]
  }

  lemma OneMoreBatch(classes: seq<MonitorClass>, subs: seq<DataSub>, batches: seq<seq<Buffer>>, messages: seq<Buffer>)
    requires |batches| < |subs|
    ensures var i := |batches|;
            && AllMetrics(classes, subs[..i + 1], batches + [messages]) ==
               AllMetrics(classes, subs[..i], batches) + BatchMetrics(classes, subs[i], messages)
            && ReadsOf(subs[..i + 1], batches + [messages]) ==
               ReadsOf(subs[..i], batches) + [Read(subs[i].handle.hobj, messages)]
  {
    hide BatchMetrics;
    var i := |batches|;
    assert subs[..i + 1][..i] == subs[..i] && (batches + [messages])[..i] == batches;
  }

  /** Every metric comes from an integer of a message and is named and scaled by an element of the catalogue
      under the key of its subscription. */
  lemma MetricIsAttributed(classes: seq<MonitorClass>, sub: DataSub, queueName: Buffer, p: PcfParam)
    ensures |MetricOf(classes, sub, queueName, p)| <= 1
    ensures forall m :: m in MetricOf(classes, sub, queueName, p) ==>
              && m.className == sub.className && m.typeName == sub.typeName && m.objectName == queueName
              && exists r: ElementRef :: Attributed(classes, r, sub, p, m)
  {
    var found := Search(classes, Key(sub.className, sub.typeName), p.id);
    SearchFinds(classes, Key(sub.className, sub.typeName), p.id);
    forall m | m in MetricOf(classes, sub, queueName, p)
      ensures exists r: ElementRef :: Attributed(classes, r, sub, p, m)
    {
      assert Attributed(classes, found.value, sub, p, m);
    }
  }

  /** There is a metric exactly when the value is a 32-bit or 64-bit integer and some element of the catalogue
      has its id under the key of the subscription. */
  lemma MetricExists(classes: seq<MonitorClass>, sub: DataSub, queueName: Buffer, p: PcfParam)
    ensures |MetricOf(classes, sub, queueName, p)| == 1 <==>
              (p.kind == 3 || p.kind == 23) && exists r :: Matches(classes, sub.className + [47] + sub.typeName, p.id, r)
    ensures MetricOf(classes, sub, queueName, p) == [] || |MetricOf(classes, sub, queueName, p)| == 1
  {
    hide Key, Search, Matches, Normalize;
    KeyIs(sub.className, sub.typeName);
    SearchExactly(classes, sub.className + [47] + sub.typeName, p.id, ElementRef(0, 0, 0));
  }

  /** The value by the element's datatype code: hundredths and percent are divided by 100, microseconds by a
      million, everything else stays. */
  function Scaled(v: int64, code: int32): real {
    match code
    case 100 => v as real / 100.0
    case 10000 => v as real / 100.0
    case 1000000 => v as real / 1000000.0
    case _ => v as real
  }

  /** And it is this one, of the last such element; a delta exactly under datatype code 2. */
  lemma MetricIs(classes: seq<MonitorClass>, sub: DataSub, queueName: Buffer, p: PcfParam, r: ElementRef)
    requires p.kind == 3 || p.kind == 23
    requires LatestMatch(classes, sub.className + [47] + sub.typeName, p.id, r)
    ensures MetricOf(classes, sub, queueName, p) ==
            [Metric(sub.className, sub.typeName, queueName, At(classes, r).metricName,
                    Scaled(p.int64Value, At(classes, r).datatypeCode), At(classes, r).datatypeCode == 2)]
  {
    hide Key, Search;
    KeyIs(sub.className, sub.typeName);
    SearchExactly(classes, sub.className + [47] + sub.typeName, p.id, r);
  }

  /** Where class names hold no slash, that element belongs to the subscription's own class and type. */
  lemma AttributedToOwnType(classes: seq<MonitorClass>, r: ElementRef, sub: DataSub, p: PcfParam, m: Metric)
    requires Attributed(classes, r, sub, p, m)
    requires 47 !in sub.className && forall c :: c in classes ==> 47 !in c.name
    ensures classes[r.c].name == sub.className && classes[r.c].types[r.t].name == sub.typeName
  {
    hide Key;
    KeyIsExact(classes[r.c].name, classes[r.c].types[r.t].name, sub.className, sub.typeName);
  }

  predicate Attributed(classes: seq<MonitorClass>, r: ElementRef, sub: DataSub, p: PcfParam, m: Metric) {
    && InCatalog(classes, r)
    && Key(classes[r.c].name, classes[r.c].types[r.t].name) == Key(sub.className, sub.typeName)
    && At(classes, r).id == p.id && m.metricName == At(classes, r).metricName
    && m.value == Normalize(p.int64Value, At(classes, r).datatypeCode)
    && m.isDelta == (At(classes, r).datatypeCode == DELTA)
  }

  /** The key joins class and type with one slash, so different pairs can share it: exactly when the longer
      class name continues the shorter one after a slash and the other type name holds the rest. */
  lemma KeysCollide(a: Buffer, b: Buffer, c: Buffer, d: Buffer)
    requires |a| < |c|
    ensures Key(a, b) == Key(c, d) <==> a + [47] <= c && b == c[|a| + 1..] + [47] + d
  {
    SlashIs47();
    var x, y, n := Key(a, b), Key(c, d), |a|;
    assert x == a + [47] + b && y == c + [47] + d;
    assert x[..n] == a && x[n] == 47 && x[n + 1..] == b;
    assert y[..n] == c[..n] && y[n] == c[n] && y[n + 1..] == c[n + 1..] + [47] + d;
    assert a + [47] <= c <==> c[..n] == a && c[n] == 47;
    if x[..n] == y[..n] && x[n] == y[n] && x[n + 1..] == y[n + 1..] {
      assert x == x[..n] + [x[n]] + x[n + 1..] && y == y[..n] + [y[n]] + y[n + 1..];
    }
  }

  /** As long as the class names hold no slash, the key is exact. */
  lemma KeyIsExact(a: Buffer, b: Buffer, c: Buffer, d: Buffer)
    requires 47 !in a && 47 !in c
    ensures Key(a, b) == Key(c, d) <==> a == c && b == d
  {
    SlashIs47();
    if |a| < |c| {
      KeysCollide(a, b, c, d);
      assert (a + [47])[|a|] == 47;
    } else if |c| < |a| {
      KeysCollide(c, d, a, b);
      assert (c + [47])[|c|] == 47;
    } else if Key(a, b) == Key(c, d) {
      assert a == Key(a, b)[..|a|] && b == Key(a, b)[|a| + 1..];
    }
  }

  lemma SlashIs47()
    ensures Ascii("/") == [47]
  {
  }

  lemma KeyCollision()
    ensures Key([65, 47, 66], [67]) == Key([65], [66, 47, 67])
  {
    SlashIs47();
    assert [65, 47, 66] + [47] + [67] == [65] + [47] + [66, 47, 67];
  }
}
