/** `ResourceMonitor`: discovery into `classes`, the index over it, and the data subscriptions it borrows
    from its client. */
module ResourceMonitor {
  import opened Bytes
  import opened Pcf
  import opened Text
  import opened PublicationScan
  import opened HandleLedger
  import opened MQAnswers
  import opened MQClient
  import opened MonitorCatalog
  import opened SubscriptionPlan
  import opened PublicationMetrics
  import MetricName
  import QueueManager

  class Monitor {
    const client: Client
    const qmgrName: Buffer
    var classes: seq<MonitorClass>
    var typeElements: Index
    var dataSubs: seq<DataSub>
    /** Handles the client has lent to other callers. */
    ghost var others: multiset<int>

    /** The monitor's list accounts for every handle the client has lent to it, and the index agrees with a plain
        search of the catalogue. */
    ghost predicate Valid()
      reads this, client, client.qm
    {
      client.Valid() && Accounted() && Indexed()
    }

    ghost predicate Accounted()
      reads this, client
    {
      client.lent == LentTo(dataSubs) + others
    }

    ghost predicate Indexed()
      reads this
    {
      Agrees(typeElements, Entries(classes))
    }

    constructor (c: Client, name: Buffer)
      requires c.Valid()
      ensures Valid() && others == c.lent && client == c && qmgrName == name && classes == [] && dataSubs == []
    {
      hide QueueManager.Sound, Client.BalanceAt, Client.Booked, AllReal;
      client, qmgrName := c, name;
      classes, typeElements, dataSubs, others := [], map[], [], c.lent;
      NothingBorrowed(c.lent);
    }

    static lemma NothingBorrowed(lent: multiset<int>)
      ensures LentTo([]) + lent == lent && Agrees(map[], Entries([]))
    {
    }

    // ----- discovery -----

    method DiscoverElements(p: PcfParam, topic: Buffer) returns (t: MonitorType, ghost answer: Fetched)
      requires client.Valid()
      modifies client`trace, client.qm
      ensures client.Valid() && t == TypeOf(p, answer) && client.trace == old(client.trace) + [Asked(topic, answer)]
    {
      hide QueueManager.Sound, Client.BalanceAt, Client.Booked, AllReal, I32, ElementOf, Params,
           RetainedFrom, RetainedCalls;
      t := MonitorType(LastInt(p.members, MQIAMO_MONITOR_TYPE), LastText(p.members, MQCAMO_MONITOR_TYPE), [], []);
      var message := client.SubscribeAndGet(topic);
      answer := message;
      if !message.Message? || |message.data| < MQCFH_SIZE {
        return;
      }
      var ps := ReadParams(message.data, 1);
      var objectTopic: Buffer, elements: seq<MonitorElement> := [], [];
      for i := 0 to |ps|
        invariant client.Valid() && client.trace == old(client.trace) + [Asked(topic, answer)]
        invariant objectTopic == ObjectTopicOf(ps[..i]) && elements == ElementsOf(ps[..i])
      {
        assert ps[..i + 1][..i] == ps[..i];
        if ps[i].kind == MQCFT_STRING && ps[i].id == MQCA_TOPIC_STRING {
          objectTopic := ps[i].text;
          continue;
        }
        if ps[i].kind != MQCFT_GROUP {
          continue;
        }
        var element := ReadElement(ps[i]);
        if element.id != 0 {
          elements := elements + [element];
        }
      }
      assert ps[..|ps|] == ps;
      t := t.(objectTopic := objectTopic, elements := elements);
    }

    method ReadElement(p: PcfParam) returns (e: MonitorElement)
      ensures e == ElementOf(p)
    {
      e := MonitorElement(0, 0, [], []);
      var ms := p.members;
      for i := 0 to |ms|
        invariant e == MonitorElement(LastInt(ms[..i], MQIAMO_MONITOR_ELEMENT), LastInt(ms[..i], MQIAMO_MONITOR_DATATYPE),
                                      LastText(ms[..i], MQCAMO_MONITOR_DESC), [])
      {
        assert ms[..i + 1][..i] == ms[..i];
        if ms[i].id == MQIAMO_MONITOR_ELEMENT {
          e := e.(id := ms[i].intValue);
        } else if ms[i].id == MQIAMO_MONITOR_DATATYPE {
          e := e.(datatypeCode := ms[i].intValue);
        } else if ms[i].id == MQCAMO_MONITOR_DESC {
          e := e.(description := ms[i].text);
        }
      }
      assert ms[..|ms|] == ms;
      var name := MetricName.DescriptionToMetricName(e.description);
      e := e.(metricName := name);
    }

    method ReadParams(data: Buffer, least: int32) returns (ps: seq<PcfParam>)
      requires |data| >= MQCFH_SIZE && least > 0
      ensures ps == MessageParams(data, least)
    {
      hide I32, Params;
      var len := I32(data, 4);
      ps := ParsePcfParams(data[if least <= len <= |data| then len else MQCFH_SIZE..]);
    }

    /** Asks for the types of a class; `answers` is what came back. */
    method DiscoverTypes(cls: MonitorClass) returns (types: seq<MonitorType>, ghost answers: ClassAnswers)
      requires client.Valid()
      modifies client`trace, client.qm
      ensures client.Valid() && Complete(answers) && types == ClassTypes(cls, answers)
      ensures client.trace == old(client.trace) + ClassTalk(cls, answers)
    {
      hide QueueManager.Sound, Client.BalanceAt, Client.Booked, AllReal, MessageParams, TypeOf, AnnouncesType,
           RetainedFrom, RetainedCalls;
      types, answers := [], ClassAnswers(NoMessage, []);
      ghost var trace0 := client.trace;
      assert trace0 + [] == trace0;
      if cls.topicString == [] {
        return;
      }
      var message := client.SubscribeAndGet(cls.topicString);
      answers := ClassAnswers(message, []);
      ghost var asked := [Asked(cls.topicString, message)];
      assert asked + [] == asked;
      if !message.Message? || |message.data| < MQCFH_SIZE {
        return;
      }
      var ps := ReadParams(message.data, 1);
      ghost var fetched: seq<Fetched>;
      types, fetched := DiscoverEach(ps, trace0 + asked);
      assert trace0 + asked + TypeTalk(ps, fetched) == trace0 + (asked + TypeTalk(ps, fetched));
      answers := ClassAnswers(message, fetched);
    }

    method DiscoverEach(ps: seq<PcfParam>, ghost trace0: seq<Call>)
      returns (types: seq<MonitorType>, ghost fetched: seq<Fetched>)
      requires client.Valid() && client.trace == trace0
      modifies client`trace, client.qm
      ensures client.Valid() && |fetched| == |ps| && types == TypesOf(ps, fetched)
      ensures client.trace == trace0 + TypeTalk(ps, fetched)
    {
      hide QueueManager.Sound, Client.BalanceAt, Client.Booked, AllReal, TypeOf, AnnouncesType, LastText;
      types, fetched := [], [];
      assert trace0 + [] == trace0;
      for i := 0 to |ps|
        invariant client.Valid() && |fetched| == i
        invariant types == TypesOf(ps[..i], fetched) && client.trace == trace0 + TypeTalk(ps[..i], fetched)
      {
        assert ps[..i + 1][..i] == ps[..i];
        ghost var soFar := TypeTalk(ps[..i], fetched);
        var t: Option<MonitorType>;
        ghost var answer: Fetched;
        t, answer := DiscoverType(ps[i]);
        assert (fetched + [answer])[..i] == fetched;
        ghost var asked := if AnnouncesType(ps[i]) then [Asked(LastText(ps[i].members, MQCA_TOPIC_STRING), answer)] else [];
        assert trace0 + soFar + asked == trace0 + (soFar + asked);
        if t.Some? {
          types := types + [t.value];
        }
        fetched := fetched + [answer];
      }
      assert ps[..|ps|] == ps;
    }

    /** One group of a types message: skipped without a name or topic, dropped without elements. */
    method DiscoverType(p: PcfParam) returns (t: Option<MonitorType>, ghost answer: Fetched)
      requires client.Valid()
      modifies client`trace, client.qm
      ensures client.Valid()
      ensures t == if AnnouncesType(p) && TypeOf(p, answer).elements != [] then Some(TypeOf(p, answer)) else None
      ensures client.trace == old(client.trace) + if AnnouncesType(p) then [Asked(LastText(p.members, MQCA_TOPIC_STRING), answer)] else []
    {
      hide QueueManager.Sound, Client.BalanceAt, Client.Booked, AllReal, TypeOf;
      t, answer := None, NoMessage;
      if !AnnouncesType(p) {
        assert client.trace + [] == client.trace;
        return;
      }
      var found;
      found, answer := DiscoverElements(p, LastText(p.members, MQCA_TOPIC_STRING));
      if found.elements != [] {
        t := Some(found);
      }
    }

    /** One group of the classes message: skipped without a name, dropped without types. */
    method DiscoverClass(p: PcfParam) returns (c: Option<MonitorClass>, ghost answers: ClassAnswers)
      requires client.Valid()
      modifies client`trace, client.qm
      ensures client.Valid() && Complete(answers)
      ensures c == if AnnouncesClass(p) && ClassTypes(ClassOf(p), answers) != []
                   then Some(ClassOf(p).(types := ClassTypes(ClassOf(p), answers))) else None
      ensures client.trace == old(client.trace) + if AnnouncesClass(p) then ClassTalk(ClassOf(p), answers) else []
    {
      hide QueueManager.Sound, Client.BalanceAt, Client.Booked, AllReal, MessageParams, ClassOf, ClassTypes, ClassTalk;
      c, answers := None, ClassAnswers(NoMessage, []);
      var cls := ClassOf(p);
      if p.kind != MQCFT_GROUP || cls.name == [] {
        assert client.trace + [] == client.trace;
        return;
      }
      var types;
      types, answers := DiscoverTypes(cls);
      if types != [] {
        c := Some(cls.(types := types));
      }
    }

    /** Appends exactly the classes the answers describe. */
    method DiscoverClasses() returns (ok: bool, ghost answers: Answers)
      requires client.Valid()
      modifies this`classes, client`trace, client.qm
      ensures client.Valid() && Consistent(answers) && classes == old(classes) + Discovered(answers)
      ensures client.trace == old(client.trace) + Talk(qmgrName, answers)
      ensures ok <==> Usable(answers.classes) && classes != []
    {
      hide QueueManager.Sound, Client.BalanceAt, Client.Booked, AllReal, MessageParams, ClassesOf, ClassesTalk, ClassesTopic,
           RetainedFrom, RetainedCalls;
      ghost var trace0 := client.trace;
      var topic := ClassesTopic(qmgrName);
      var message := client.SubscribeAndGet(topic);
      answers := Answers(message, []);
      ghost var asked := [Asked(topic, message)];
      assert asked + [] == asked && classes + [] == classes;
      if !message.Message? || |message.data| < MQCFH_SIZE {
        return false, answers;
      }
      var ps := ReadParams(message.data, MQCFH_SIZE);
      ghost var fetched := AddClasses(ps, trace0 + asked);
      assert trace0 + asked + ClassesTalk(ps, fetched) == trace0 + (asked + ClassesTalk(ps, fetched));
      answers := Answers(message, fetched);
      ok := classes != [];
    }

    method AddClasses(ps: seq<PcfParam>, ghost trace0: seq<Call>) returns (ghost fetched: seq<ClassAnswers>)
      requires client.Valid() && client.trace == trace0
      modifies this`classes, client`trace, client.qm
      ensures client.Valid() && |fetched| == |ps| && forall a :: a in fetched ==> Complete(a)
      ensures classes == old(classes) + ClassesOf(ps, fetched) && client.trace == trace0 + ClassesTalk(ps, fetched)
    {
      hide QueueManager.Sound, Client.BalanceAt, Client.Booked, AllReal, ClassOf, ClassTypes, ClassTalk, AnnouncesClass, Complete;
      fetched := [];
      ghost var classes0 := classes;
      assert trace0 + [] == trace0 && classes0 + [] == classes0;
      for i := 0 to |ps|
        invariant client.Valid() && |fetched| == i && forall a :: a in fetched ==> Complete(a)
        invariant classes == classes0 + ClassesOf(ps[..i], fetched) && client.trace == trace0 + ClassesTalk(ps[..i], fetched)
      {
        assert ps[..i + 1][..i] == ps[..i];
        ghost var before, soFar := ClassesOf(ps[..i], fetched), ClassesTalk(ps[..i], fetched);
        var c: Option<MonitorClass>;
        ghost var answers: ClassAnswers;
        c, answers := DiscoverClass(ps[i]);
        assert (fetched + [answers])[..i] == fetched;
        ghost var asked := if AnnouncesClass(ps[i]) then ClassTalk(ClassOf(ps[i]), answers) else [];
        assert trace0 + soFar + asked == trace0 + (soFar + asked);
        ghost var more := if c.Some? then [c.value] else [];
        assert classes0 + before + more == classes0 + (before + more);
        if c.Some? {
          classes := classes + [c.value];
        }
        fetched := fetched + [answers];
      }
      assert ps[..|ps|] == ps;
    }

    // ----- the index -----

    method IndexType(key: Buffer, c: nat, t: nat, elements: seq<MonitorElement>, ghost before: seq<Entry>)
      requires Agrees(typeElements, before)
      modifies this`typeElements
      ensures Agrees(typeElements, before + TypeEntries(key, c, t, elements))
    {
      hide Agrees;
      AgreesTouch(typeElements, before, key);
      if key !in typeElements {
        typeElements := typeElements[key := map[]];
      }
      assert before + [] == before;
      for e := 0 to |elements|
        invariant key in typeElements
        invariant Agrees(typeElements, before + TypeEntries(key, c, t, elements[..e]))
      {
        ghost var entry := Entry(key, elements[e].id, ElementRef(c, t, e));
        ghost var soFar := TypeEntries(key, c, t, elements[..e]);
        assert elements[..e + 1][..e] == elements[..e];
        assert before + (soFar + [entry]) == before + soFar + [entry];
        AgreesAppend(typeElements, before + soFar, entry);
        typeElements := typeElements[key := typeElements[key][elements[e].id := ElementRef(c, t, e)]];
      }
      assert elements[..|elements|] == elements;
    }

    method IndexClass(c: nat, ghost before: seq<Entry>)
      requires c < |classes| && Agrees(typeElements, before)
      modifies this`typeElements
      ensures Agrees(typeElements, before + ClassEntries(classes[c].name, c, classes[c].types))
    {
      hide Agrees, TypeEntries;
      var name, types := classes[c].name, classes[c].types;
      assert before + [] == before;
      for t := 0 to |types|
        invariant Agrees(typeElements, before + ClassEntries(name, c, types[..t]))
      {
        ghost var soFar := ClassEntries(name, c, types[..t]);
        var key := Key(name, types[t].name);
        assert types[..t + 1][..t] == types[..t];
        ghost var more := TypeEntries(key, c, t, types[t].elements);
        assert before + (soFar + more) == before + soFar + more;
        IndexType(key, c, t, types[t].elements, before + soFar);
      }
      assert types[..|types|] == types;
    }

    /** Discovery may run on a fresh or a used monitor, and may fail at any point: the catalogue grows by
        exactly what the answers describe, and the index always agrees with a plain search of all of it. */
    method Discover() returns (ok: bool, ghost answers: Answers)
      requires Valid()
      modifies this`classes, this`typeElements, client`trace, client.qm
      ensures Valid() && Consistent(answers) && classes == old(classes) + Discovered(answers)
      ensures client.trace == old(client.trace) + Talk(qmgrName, answers)
      ensures ok <==> Usable(answers.classes) && classes != []
    {
      hide QueueManager.Sound, Client.BalanceAt, Client.Booked, AllReal, Agrees, Entries, LentTo, Discovered, Talk;
      ok, answers := DiscoverClasses();
      if !ok {
        NothingDiscovered(answers, old(classes));
        return;
      }
      IndexAll(Entries(old(classes)));
      ReindexAgrees(typeElements, old(classes), Discovered(answers));
    }

    /** `type_elements_` over all classes, on top of what it holds already. */
    method IndexAll(ghost before: seq<Entry>)
      requires Agrees(typeElements, before)
      modifies this`typeElements
      ensures Agrees(typeElements, before + Entries(classes))
    {
      hide Agrees, Entries;
      EntriesOfNone();
      assert before + [] == before;
      for c := 0 to |classes|
        invariant Agrees(typeElements, before + Entries(classes[..c]))
      {
        ghost var soFar, more := Entries(classes[..c]), ClassEntries(classes[c].name, c, classes[c].types);
        EntriesOfNext(classes, c);
        assert before + (soFar + more) == before + soFar + more;
        IndexClass(c, before + soFar);
      }
      assert classes[..|classes|] == classes;
    }

    lemma NothingDiscovered(a: Answers, earlier: seq<MonitorClass>)
      requires Consistent(a) && (Usable(a.classes) ==> earlier + Discovered(a) == [])
      ensures earlier + Discovered(a) == earlier
    {
    }

    lemma EntriesOfNone()
      ensures Entries([]) == []
    {
    }

    lemma EntriesOfNext(cs: seq<MonitorClass>, n: nat)
      requires n < |cs|
      ensures Entries(cs[..n + 1]) == Entries(cs[..n]) + ClassEntries(cs[n].name, n, cs[n].types)
    {
      assert cs[..n + 1][..n] == cs[..n];
    }

    /** In every valid state a lookup in the index is a plain search of the catalogue, and what it points to
        is an element of the catalogue with that id, under that key. */
    lemma LookupIsSearch(key: Buffer, id: int)
      requires Valid()
      ensures Lookup(typeElements, key, id) == Search(classes, key, id)
      ensures Lookup(typeElements, key, id).Some? ==>
                Describes(classes, Entry(key, id, Lookup(typeElements, key, id).value))
    {
      SearchFinds(classes, key, id);
    }

    // ----- subscriptions -----

    /** One call of `create_subscription`, recorded when it succeeds. */
    method TrySubscribe(a: Attempt, ghost done: seq<Attempt>, ghost results: seq<SubHandle>,
                        ghost subs0: seq<DataSub>, ghost trace0: seq<Call>)
      returns (ghost h: SubHandle)
      requires Valid() && |done| == |results|
      requires dataSubs == subs0 + Recorded(done, results) && client.trace == trace0 + Requests(done, results)
      modifies this`dataSubs, client`lent, client`trace, client.qm
      ensures Valid()
      ensures dataSubs == subs0 + Recorded(done + [a], results + [h])
      ensures client.trace == trace0 + Requests(done + [a], results + [h])
    {
      hide QueueManager.Sound, Client.BalanceAt, Client.Booked, AllReal, Agrees, Entries, Pair, LentTo, PairMadeBy, Recorded, Requests;
      var ok, hobj, hsub := client.CreateSubscription(a.topic);
      h := SubHandle(hobj, hsub);
      RecordedAppend(done, results, a, h);
      RequestsAppend(done, results, a, h);
      assert trace0 + (Requests(done, results) + [Requested(a.topic, h)]) == trace0 + Requests(done, results) + [Requested(a.topic, h)];
      if ok {
        var sub := DataSub(a.className, a.typeName, SubHandle(hobj, hsub));
        assert subs0 + (Recorded(done, results) + [sub]) == subs0 + Recorded(done, results) + [sub];
        Keep(sub);
      } else {
        PairOfNone(client.lent);
        PairOfNone(LentTo(dataSubs) + others);
        assert Recorded(done, results) + [] == Recorded(done, results);
      }
    }

    method Keep(sub: DataSub)
      requires client.Valid() && Indexed()
      requires client.lent == LentTo(dataSubs) + others + Pair(sub.handle.hobj, sub.handle.hsub)
      modifies this`dataSubs
      ensures Valid() && dataSubs == old(dataSubs) + [sub]
    {
      hide QueueManager.Sound, Client.BalanceAt, Client.Booked, AllReal, Agrees, Entries, Pair, LentTo;
      LentToAppend(dataSubs, sub);
      dataSubs := dataSubs + [sub];
    }

    /** The attempts for one type, in order. */
    method SubscribeType(className: Buffer, t: MonitorType, queues: seq<Buffer>, ghost done0: seq<Attempt>,
                         ghost results0: seq<SubHandle>, ghost subs0: seq<DataSub>, ghost trace0: seq<Call>)
      returns (ghost results: seq<SubHandle>)
      requires Valid() && |done0| == |results0|
      requires dataSubs == subs0 + Recorded(done0, results0) && client.trace == trace0 + Requests(done0, results0)
      modifies this`dataSubs, client`lent, client`trace, client.qm
      ensures Valid() && |done0 + TypeAttempts(className, t, queues)| == |results|
      ensures dataSubs == subs0 + Recorded(done0 + TypeAttempts(className, t, queues), results)
      ensures client.trace == trace0 + Requests(done0 + TypeAttempts(className, t, queues), results)
    {
      hide QueueManager.Sound, Client.BalanceAt, Client.Booked, AllReal, Agrees, Entries, Recorded, Requests, Replaced;
      results := results0;
      assert done0 + [] == done0;
      if t.objectTopic == [] {
        return;
      }
      var k := FindPercentS(t.objectTopic);
      if k < 0 {
        var a := Attempt(className, t.name, t.objectTopic);
        ghost var h := TrySubscribe(a, done0, results0, subs0, trace0);
        results := results0 + [h];
      } else {
        FindsFirst(t.objectTopic);
        for q := 0 to |queues|
          invariant Valid() && |done0 + QueueAttempts(className, t, queues[..q])| == |results|
          invariant dataSubs == subs0 + Recorded(done0 + QueueAttempts(className, t, queues[..q]), results)
          invariant client.trace == trace0 + Requests(done0 + QueueAttempts(className, t, queues[..q]), results)
        {
          assert queues[..q + 1][..q] == queues[..q];
          ghost var soFar := QueueAttempts(className, t, queues[..q]);
          var a := Attempt(className, t.name, Replaced(t.objectTopic, k, queues[q]));
          assert done0 + (soFar + [a]) == done0 + soFar + [a];
          ghost var h := TrySubscribe(a, done0 + soFar, results, subs0, trace0);
          results := results + [h];
        }
        assert queues[..|queues|] == queues;
      }
    }

    method SubscribeClass(c: MonitorClass, queues: seq<Buffer>, ghost done0: seq<Attempt>,
                          ghost results0: seq<SubHandle>, ghost subs0: seq<DataSub>, ghost trace0: seq<Call>)
      returns (ghost results: seq<SubHandle>)
      requires Valid() && |done0| == |results0|
      requires dataSubs == subs0 + Recorded(done0, results0) && client.trace == trace0 + Requests(done0, results0)
      modifies this`dataSubs, client`lent, client`trace, client.qm
      ensures Valid() && |done0 + ClassAttempts(c, queues)| == |results|
      ensures dataSubs == subs0 + Recorded(done0 + ClassAttempts(c, queues), results)
      ensures client.trace == trace0 + Requests(done0 + ClassAttempts(c, queues), results)
    {
      hide QueueManager.Sound, Client.BalanceAt, Client.Booked, AllReal, Agrees, Entries, Recorded, Requests, TypeAttempts;
      results := results0;
      assert done0 + [] == done0;
      if c.name == Ascii("STATAPP") {
        return;
      }
      for t := 0 to |c.types|
        invariant Valid() && |done0 + TypesAttempts(c.name, c.types[..t], queues)| == |results|
        invariant dataSubs == subs0 + Recorded(done0 + TypesAttempts(c.name, c.types[..t], queues), results)
        invariant client.trace == trace0 + Requests(done0 + TypesAttempts(c.name, c.types[..t], queues), results)
      {
        assert c.types[..t + 1][..t] == c.types[..t];
        ghost var soFar, more := TypesAttempts(c.name, c.types[..t], queues), TypeAttempts(c.name, c.types[t], queues);
        assert done0 + (soFar + more) == done0 + soFar + more;
        results := SubscribeType(c.name, c.types[t], queues, done0 + soFar, results, subs0, trace0);
      }
      assert c.types[..|c.types|] == c.types;
    }

    /** The attempts are exactly the plan, in order; exactly the successful ones are recorded, and the result
        says whether there was one. */
    method CreateSubscriptions(queues: seq<Buffer>) returns (ok: bool, ghost results: seq<SubHandle>)
      requires Valid()
      modifies this`dataSubs, client`lent, client`trace, client.qm
      ensures Valid() && |results| == |Plan(classes, queues)|
      ensures client.trace == old(client.trace) + Requests(Plan(classes, queues), results)
      ensures dataSubs == old(dataSubs) + Recorded(Plan(classes, queues), results)
      ensures ok <==> exists h :: h in results && h.hobj != 0
    {
      hide QueueManager.Sound, Client.BalanceAt, Client.Booked, AllReal, Agrees, Entries, Recorded, Requests, ClassAttempts;
      results := [];
      var already := |dataSubs|;
      ghost var subs0, trace0 := dataSubs, client.trace;
      RecordedOfNone();
      assert subs0 + [] == subs0 && trace0 + [] == trace0;
      for c := 0 to |classes|
        invariant Valid() && |Plan(classes[..c], queues)| == |results|
        invariant dataSubs == subs0 + Recorded(Plan(classes[..c], queues), results)
        invariant client.trace == trace0 + Requests(Plan(classes[..c], queues), results)
      {
        assert classes[..c + 1][..c] == classes[..c];
        results := SubscribeClass(classes[c], queues, Plan(classes[..c], queues), results, subs0, trace0);
      }
      assert classes[..|classes|] == classes;
      RecordedSome(Plan(classes, queues), results);
      ok := |dataSubs| > already;
    }

    lemma RecordedOfNone()
      ensures Recorded([], []) == [] && Requests([], []) == []
    {
    }

    /** Every borrowed pair goes back, whatever the queue manager answers; the catalogue and the index go too. */
    method Close()
      requires Valid()
      modifies this`classes, this`typeElements, this`dataSubs, client`lent, client.qm
      ensures Valid() && classes == [] && typeElements == map[] && dataSubs == []
      ensures client.lent == others && client.qm.log == old(client.qm.log) + ClosesOf(Handles(old(dataSubs)))
    {
      hide QueueManager.Sound, Client.BalanceAt, Client.Booked, AllReal, Agrees, Entries, Pair, LentTo, ClosesOf, CloseCalls;
      ghost var all := client.qm.log + ClosesOf(Handles(dataSubs));
      assert dataSubs[0..] == dataSubs;
      for i := 0 to |dataSubs|
        invariant client.Valid() && dataSubs == old(dataSubs)
        invariant client.lent == LentTo(dataSubs[i..]) + others
        invariant client.qm.log + ClosesOf(Handles(dataSubs[i..])) == all
      {
        var sub := dataSubs[i];
        ghost var rest, log := dataSubs[i + 1..], client.qm.log;
        HandlesNext(dataSubs, i);
        ghost var closes := CloseCalls(sub.handle.hsub, sub.handle.hobj);
        assert log + (closes + ClosesOf(Handles(rest))) == log + closes + ClosesOf(Handles(rest));
        Regroup(Pair(sub.handle.hobj, sub.handle.hsub), LentTo(rest), others);
        client.CloseSubscription(sub.handle.hsub, sub.handle.hobj, LentTo(rest) + others);
      }
      NothingLeft(dataSubs[|dataSubs|..]);
      NothingBorrowed(others);
      assert client.qm.log + [] == client.qm.log;
      dataSubs, typeElements, classes := [], map[], [];
    }

    static lemma Regroup(a: multiset<int>, b: multiset<int>, c: multiset<int>)
      ensures a + b + c == a + (b + c)
    {
    }

    static lemma NothingLeft(subs: seq<DataSub>)
      requires |subs| == 0
      ensures LentTo(subs) == multiset{} && subs == [] && ClosesOf(Handles(subs)) == []
    {
    }

    static lemma HandlesNext(subs: seq<DataSub>, i: nat)
      requires i < |subs|
      ensures LentTo(subs[i..]) == Pair(subs[i].handle.hobj, subs[i].handle.hsub) + LentTo(subs[i + 1..])
      ensures ClosesOf(Handles(subs[i..])) ==
              CloseCalls(subs[i].handle.hsub, subs[i].handle.hobj) + ClosesOf(Handles(subs[i + 1..]))
    {
      hide Pair, CloseCalls;
      assert subs[i..][0] == subs[i] && subs[i..][1..] == subs[i + 1..];
      assert Handles(subs[i..])[0] == subs[i].handle && Handles(subs[i..])[1..] == Handles(subs[i + 1..]);
    }

    // ----- publications -----

    /** One message of one subscription, through the index. */
    method ProcessMessage(sub: DataSub, message: Buffer) returns (metrics: seq<Metric>)
      requires Indexed() && Key(sub.className, sub.typeName) in typeElements
      ensures metrics == MessageMetrics(classes, sub, message)
    {
      hide I32, Params, Agrees, Entries, LastMatch, MetricOf;
      metrics := [];
      if |message| < MQCFH_SIZE {
        return;
      }
      var ps := ReadParams(message, 1);
      var queueName: Buffer := [];
      for i := 0 to |ps|
        invariant queueName == LastText(ps[..i], MQCA_Q_NAME)
      {
        assert ps[..i + 1][..i] == ps[..i];
        if ps[i].id == MQCA_Q_NAME {
          queueName := ps[i].text;
        }
      }
      for i := 0 to |ps|
        invariant metrics == ParamMetrics(classes, sub, queueName, ps[..i])
      {
        assert ps[..i + 1][..i] == ps[..i];
        var m := ProcessParam(sub, queueName, ps[i]);
        metrics := metrics + m;
      }
      assert ps[..|ps|] == ps;
    }

    method ProcessParam(sub: DataSub, queueName: Buffer, p: PcfParam) returns (m: seq<Metric>)
      requires Indexed() && Key(sub.className, sub.typeName) in typeElements
      ensures m == MetricOf(classes, sub, queueName, p)
    {
      hide Entries, LastMatch, Key;
      m := [];
      var elements := typeElements[Key(sub.className, sub.typeName)];
      assert Lookup(typeElements, Key(sub.className, sub.typeName), p.id)
          == Search(classes, Key(sub.className, sub.typeName), p.id);
      if p.kind != MQCFT_INTEGER64 && p.kind != MQCFT_INTEGER {
        return;
      }
      if p.id !in elements {
        return;
      }
      SearchFinds(classes, Key(sub.className, sub.typeName), p.id);
      var e := At(classes, elements[p.id]);
      m := [Metric(sub.className, sub.typeName, queueName, e.metricName, Normalize(p.int64Value, e.datatypeCode),
                   e.datatypeCode == DELTA)];
    }

    /** Without an inner map for the key, no element of the catalogue can be found under it. */
    lemma NoKeyNoMetrics(sub: DataSub, messages: seq<Buffer>)
      requires Indexed() && Key(sub.className, sub.typeName) !in typeElements
      ensures BatchMetrics(classes, sub, messages) == []
      decreases |messages|
    {
      hide Entries, LastMatch, Key, I32, Params;
      if messages != [] {
        var n := |messages| - 1;
        NoKeyNoMetrics(sub, messages[..n]);
        if |messages[n]| >= MQCFH_SIZE {
          var ps := MessageParams(messages[n], 1);
          NoKeyNoParams(sub, LastText(ps, MQCA_Q_NAME), ps);
        }
      }
    }

    lemma NoKeyNoParams(sub: DataSub, queueName: Buffer, ps: seq<PcfParam>)
      requires Indexed() && Key(sub.className, sub.typeName) !in typeElements
      ensures ParamMetrics(classes, sub, queueName, ps) == []
      decreases |ps|
    {
      hide Entries, LastMatch, Key;
      if ps != [] {
        var n := |ps| - 1;
        NoKeyNoParams(sub, queueName, ps[..n]);
        assert Lookup(typeElements, Key(sub.className, sub.typeName), ps[n].id)
            == Search(classes, Key(sub.className, sub.typeName), ps[n].id);
      }
    }

    method ProcessBatch(sub: DataSub, messages: seq<Buffer>) returns (metrics: seq<Metric>)
      requires Indexed()
      ensures metrics == BatchMetrics(classes, sub, messages)
    {
      hide Indexed, Key, MessageMetrics;
      metrics := [];
      if messages == [] {
        return;
      }
      if Key(sub.className, sub.typeName) !in typeElements {
        NoKeyNoMetrics(sub, messages);
        return;
      }
      for i := 0 to |messages|
        invariant metrics == BatchMetrics(classes, sub, messages[..i])
      {
        assert messages[..i + 1][..i] == messages[..i];
        var m := ProcessMessage(sub, messages[i]);
        metrics := metrics + m;
      }
      assert messages[..|messages|] == messages;
    }

    /** For every catalogue, subscription list and message sequence: the output is the reference list over
        plain searches of the catalogue. `batches[i]` is what the queue of subscription i delivered. */
    method ProcessPublications() returns (metrics: seq<Metric>, ghost batches: seq<seq<Buffer>>)
      requires Valid()
      modifies client`trace, client.qm`script, client.qm`log
      ensures Valid() && |batches| == |dataSubs| && client.trace == old(client.trace) + ReadsOf(dataSubs, batches)
      ensures metrics == AllMetrics(classes, dataSubs, batches)
    {
      hide QueueManager.Sound, Client.BalanceAt, Client.Booked, AllReal, Agrees, Entries, BatchMetrics, AllMetrics, ReadsOf, LentTo;
      metrics, batches := [], [];
      ghost var trace0 := client.trace;
      NoBatches();
      assert trace0 + [] == trace0;
      for i := 0 to |dataSubs|
        invariant Valid() && |batches| == i && client.trace == trace0 + ReadsOf(dataSubs[..i], batches)
        invariant metrics == AllMetrics(classes, dataSubs[..i], batches)
      {
        BorrowedQueue(i);
        var messages := client.GetMessagesFromHandle(dataSubs[i].handle.hobj);
        OneMoreBatch(classes, dataSubs, batches, messages);
        ghost var soFar, read := ReadsOf(dataSubs[..i], batches), [Read(dataSubs[i].handle.hobj, messages)];
        assert trace0 + soFar + read == trace0 + (soFar + read);
        var m := ProcessBatch(dataSubs[i], messages);
        metrics := metrics + m;
        batches := batches + [messages];
      }
      assert dataSubs[..|dataSubs|] == dataSubs;
    }

    lemma BorrowedQueue(i: nat)
      requires Accounted() && i < |dataSubs|
      ensures dataSubs[i].handle.hobj != 0 ==> dataSubs[i].handle.hobj in client.lent
    {
      hide LentTo;
      if dataSubs[i].handle.hobj != 0 {
        LentQueue(dataSubs, i);
      }
    }

    lemma NoBatches()
      ensures AllMetrics(classes, [], []) == [] && ReadsOf([], []) == []
    {
    }
  }
}
