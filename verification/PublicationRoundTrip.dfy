/** Publications laid out as a queue manager sends them, and the metrics they must become. */
module PublicationRoundTrip {
  import opened Bytes
  import opened Pcf
  import opened Text
  import opened PcfTree
  import opened PublicationScan
  import opened StreamRoundTrip
  import opened HandleLedger
  import opened MonitorCatalog
  import opened SubscriptionPlan
  import opened PublicationMetrics
  import opened MessageLayout

  // ----- the reference, on the layout -----

  /** The queue an item names, if it has id 2016; only a string names one that is not empty. */
  function NameFrom(i: Item, before: Buffer): Buffer {
    match i
    case Plain(WireString(id, _, s)) => if id == 2016 then TrimBlanks(s) else before
    case Plain(w) => if w.id == 2016 then [] else before
    case Grouped(id, _, _) => if id == 2016 then [] else before
  }

  /** The name given last holds for the whole message. */
  function NameIn(items: seq<Item>): Buffer {
    if items == [] then [] else NameFrom(items[|items| - 1], NameIn(items[..|items| - 1]))
  }

  /** The integer an item carries at the top level. */
  datatype Carried = Nothing | Value(id: int32, v: int64)

  function ValueIn(i: Item): Carried {
    match i
    case Plain(WireInt(id, v)) => Value(id, v)
    case Plain(WireInt64(id, v)) => Value(id, v)
    case _ => Nothing
  }

  ghost predicate Known(classes: seq<MonitorClass>, sub: DataSub, i: Item) {
    ValueIn(i).Value? &&
    exists r :: LatestMatch(classes, sub.className + [47] + sub.typeName, ValueIn(i).id, r)
  }

  /** One metric for an integer the catalogue knows, none for anything else. */
  ghost function ItemMetrics(classes: seq<MonitorClass>, sub: DataSub, name: Buffer, i: Item): seq<Metric> {
    if !Known(classes, sub, i) then []
    else
      var r :| LatestMatch(classes, sub.className + [47] + sub.typeName, ValueIn(i).id, r);
      var e := At(classes, r);
      [Metric(sub.className, sub.typeName, name, e.metricName, Scaled(ValueIn(i).v, e.datatypeCode), e.datatypeCode == 2)]
  }

  ghost function ItemsMetrics(classes: seq<MonitorClass>, sub: DataSub, name: Buffer, items: seq<Item>): seq<Metric> {
    if items == [] then []
    else
      var n := |items| - 1;
      ItemsMetrics(classes, sub, name, items[..n]) + ItemMetrics(classes, sub, name, items[n])
  }

  ghost function LayoutsMetrics(classes: seq<MonitorClass>, sub: DataSub, ms: seq<Layout>): seq<Metric> {
    if ms == [] then []
    else
      var n := |ms| - 1;
      LayoutsMetrics(classes, sub, ms[..n]) + ItemsMetrics(classes, sub, NameIn(ms[n].items), ms[n].items)
  }

  ghost function Expected(classes: seq<MonitorClass>, subs: seq<DataSub>, laid: seq<seq<Layout>>): seq<Metric>
    requires |subs| == |laid|
  {
    if subs == [] then []
    else
      var n := |subs| - 1;
      Expected(classes, subs[..n], laid[..n]) + LayoutsMetrics(classes, subs[n], laid[n])
  }

  function AllWritten(ms: seq<Layout>): seq<Buffer> {
    seq(|ms|, i requires 0 <= i < |ms| => Written(ms[i]))
  }

  function Batches(laid: seq<seq<Layout>>): seq<seq<Buffer>> {
    seq(|laid|, i requires 0 <= i < |laid| => AllWritten(laid[i]))
  }

  predicate AllFit(ms: seq<Layout>) {
    forall m :: m in ms ==> FitsMessage(m)
  }

  // ----- item by item -----

  lemma SomeLatest(classes: seq<MonitorClass>, key: Buffer, id: int, r: ElementRef)
    requires Matches(classes, key, id, r)
    ensures exists l :: LatestMatch(classes, key, id, l)
  {
    hide Search, LatestMatch;
    SearchExactly(classes, key, id, r);
    if Search(classes, key, id).Some? {
      SearchExactly(classes, key, id, Search(classes, key, id).value);
    }
  }

  lemma ItemReads(i: Item)
    ensures var p := ParamOf(i);
            && ((p.kind == 3 || p.kind == 23) <==> ValueIn(i).Value?)
            && (ValueIn(i).Value? ==> p.id == ValueIn(i).id && p.int64Value == ValueIn(i).v)
  {
    hide TrimBlanks, Wrap32, LeavesOf;
  }

  lemma ItemMetric(classes: seq<MonitorClass>, sub: DataSub, name: Buffer, i: Item)
    ensures MetricOf(classes, sub, name, ParamOf(i)) == ItemMetrics(classes, sub, name, i)
  {
    hide MetricOf, ParamOf, ValueIn, Scaled;
    var p, key := ParamOf(i), sub.className + [47] + sub.typeName;
    ItemReads(i);
    MetricExists(classes, sub, name, p);
    if Known(classes, sub, i) {
      var r :| LatestMatch(classes, key, ValueIn(i).id, r) &&
               ItemMetrics(classes, sub, name, i) ==
               [Metric(sub.className, sub.typeName, name, At(classes, r).metricName,
                       Scaled(ValueIn(i).v, At(classes, r).datatypeCode), At(classes, r).datatypeCode == 2)];
      MetricIs(classes, sub, name, p, r);
    } else if r :| ValueIn(i).Value? && Matches(classes, key, p.id, r) {
      SomeLatest(classes, key, p.id, r);
    }
  }

  lemma {:induction false} ItemsMetric(classes: seq<MonitorClass>, sub: DataSub, name: Buffer, ps: seq<PcfParam>,
                                       items: seq<Item>)
    requires |ps| == |items| && forall k :: 0 <= k < |items| ==> ps[k] == ParamOf(items[k])
    ensures ParamMetrics(classes, sub, name, ps) == ItemsMetrics(classes, sub, name, items)
    decreases |items|
  {
    hide MetricOf, ItemMetrics, ParamOf;
    if items != [] {
      var n := |items| - 1;
      ItemsMetric(classes, sub, name, ps[..n], items[..n]);
      assert ps[n] == ParamOf(items[n]);
      ItemMetric(classes, sub, name, items[n]);
    }
  }

  lemma NameReads(i: Item, ps: seq<PcfParam>)
    requires ps != [] && ps[|ps| - 1] == ParamOf(i)
    ensures LastText(ps, MQCA_Q_NAME) == NameFrom(i, LastText(ps[..|ps| - 1], MQCA_Q_NAME))
  {
    hide TrimBlanks, Wrap32, LeavesOf;
  }

  lemma {:induction false} NamesRead(ps: seq<PcfParam>, items: seq<Item>)
    requires |ps| == |items| && forall k :: 0 <= k < |items| ==> ps[k] == ParamOf(items[k])
    ensures LastText(ps, MQCA_Q_NAME) == NameIn(items)
    decreases |items|
  {
    hide NameFrom, ParamOf;
    if items != [] {
      var n := |items| - 1;
      NamesRead(ps[..n], items[..n]);
      assert ps[n] == ParamOf(items[n]);
      NameReads(items[n], ps);
    }
  }

  // ----- message by message, subscription by subscription -----

  lemma MessageMetric(classes: seq<MonitorClass>, sub: DataSub, m: Layout)
    requires FitsMessage(m)
    ensures MessageMetrics(classes, sub, Written(m)) == ItemsMetrics(classes, sub, NameIn(m.items), m.items)
  {
    hide FitsMessage, Written, MessageParams, ParamsOf, ParamOf, ParamMetrics, ItemsMetrics, LastText, NameIn;
    ParamsReadBack(m, 1);
    NamesRead(ParamsOf(m.items), m.items);
    ItemsMetric(classes, sub, NameIn(m.items), ParamsOf(m.items), m.items);
  }

  lemma {:induction false} LayoutsMetric(classes: seq<MonitorClass>, sub: DataSub, ms: seq<Layout>)
    requires AllFit(ms)
    ensures BatchMetrics(classes, sub, AllWritten(ms)) == LayoutsMetrics(classes, sub, ms)
    decreases |ms|
  {
    hide FitsMessage, Written, MessageMetrics, ItemsMetrics, NameIn;
    if ms != [] {
      var n := |ms| - 1;
      assert forall m :: m in ms[..n] ==> m in ms;
      LayoutsMetric(classes, sub, ms[..n]);
      assert AllWritten(ms)[..n] == AllWritten(ms[..n]);
      MessageMetric(classes, sub, ms[n]);
    }
  }

  /** For every catalogue, all subscriptions and all messages laid out for them: the output is one metric for
      each integer the catalogue knows, in order, under the queue its message names last, and nothing else. */
  lemma {:induction false} PublicationRoundTrip(classes: seq<MonitorClass>, subs: seq<DataSub>, laid: seq<seq<Layout>>)
    requires |subs| == |laid| && forall ms :: ms in laid ==> AllFit(ms)
    ensures |Batches(laid)| == |subs| && AllMetrics(classes, subs, Batches(laid)) == Expected(classes, subs, laid)
    decreases |subs|
  {
    hide AllFit, BatchMetrics, LayoutsMetrics, AllWritten;
    if subs != [] {
      var n := |subs| - 1;
      assert forall ms :: ms in laid[..n] ==> ms in laid;
      PublicationRoundTrip(classes, subs[..n], laid[..n]);
      assert Batches(laid)[..n] == Batches(laid[..n]);
      LayoutsMetric(classes, subs[n], laid[n]);
    }
  }

  /** Each subscription's own queue is read, in order. */
  lemma {:induction false} ReadAt(subs: seq<DataSub>, batches: seq<seq<Buffer>>, i: nat)
    requires |subs| == |batches| && i < |subs|
    ensures |ReadsOf(subs, batches)| == |subs| && ReadsOf(subs, batches)[i] == Read(subs[i].handle.hobj, batches[i])
    decreases |subs|
  {
    var n := |subs| - 1;
    if n > 0 {
      ReadAt(subs[..n], batches[..n], if i < n then i else 0);
    }
  }
}
