/** Which topics the plan of `create_subscriptions` asks for, said of the bytes of the object topics. */
module PlanContents {
  import opened Bytes
  import opened Text
  import opened MonitorCatalog
  import opened SubscriptionPlan
  import HandleLedger

  /** No `%s` anywhere. */
  predicate Unmarked(s: Buffer) {
    forall i :: 0 <= i < |s| - 1 ==> !(s[i] == 37 && s[i + 1] == 115)
  }

  lemma FoundAt(a: Buffer, b: Buffer)
    requires Unmarked(a)
    ensures FindPercentS(a + [37, 115] + b) == |a|
  {
    hide FindPercentS;
    var s, k := a + [37, 115] + b, FindPercentS(a + [37, 115] + b);
    FindsFirst(s);
    assert s[|a|] == 37 && s[|a| + 1] == 115;
    assert forall i :: 0 <= i < |a| ==> s[i] == a[i];
  }

  lemma NotFound(s: Buffer)
    ensures FindPercentS(s) < 0 <==> Unmarked(s)
  {
    hide FindPercentS;
    FindsFirst(s);
  }

  /** A marked topic is what stands before the first `%s`, the mark, and the rest. */
  lemma SplitAtMark(s: Buffer) returns (a: Buffer, b: Buffer)
    requires !Unmarked(s)
    ensures Unmarked(a) && s == a + [37, 115] + b && FindPercentS(s) == |a|
  {
    hide FindPercentS;
    NotFound(s);
    FindsFirst(s);
    var k := FindPercentS(s);
    a, b := s[..k], s[k + 2..];
    assert s == a + [s[k], s[k + 1]] + b;
  }

  lemma ReplacedIs(a: Buffer, b: Buffer, q: Buffer)
    ensures Replaced(a + [37, 115] + b, |a|, q) == a + q + b
  {
    var s := a + [37, 115] + b;
    assert s[..|a|] == a && s[|a| + 2..] == b;
  }

  lemma {:induction false} QueuesInOrder(className: Buffer, t: MonitorType, a: Buffer, b: Buffer, queues: seq<Buffer>)
    requires Unmarked(a) && t.objectTopic == a + [37, 115] + b && FindPercentS(t.objectTopic) == |a|
    ensures QueueAttempts(className, t, queues) ==
            seq(|queues|, i requires 0 <= i < |queues| => Attempt(className, t.name, a + queues[i] + b))
    decreases |queues|
  {
    hide FindPercentS, Replaced, Unmarked;
    if queues != [] {
      var n := |queues| - 1;
      QueuesInOrder(className, t, a, b, queues[..n]);
      ReplacedIs(a, b, queues[n]);
    }
  }

  lemma StatAppIs()
    ensures Ascii("STATAPP") == [83, 84, 65, 84, 65, 80, 80]
  {
  }

  lemma PlanOfOne(c: MonitorClass, queues: seq<Buffer>)
    ensures Plan([c], queues) == ClassAttempts(c, queues)
  {
    hide ClassAttempts;
    assert [c][..0] == [] && Plan([], queues) == [];
  }

  lemma TypesOfOne(className: Buffer, t: MonitorType, queues: seq<Buffer>)
    ensures TypesAttempts(className, [t], queues) == TypeAttempts(className, t, queues)
  {
    hide TypeAttempts;
    assert [t][..0] == [] && TypesAttempts(className, [], queues) == [];
  }

  /** A type whose topic is `a`, the first `%s`, and `b` asks for `a`, the queue name, and `b`: once per
      queue, in order, and for nothing else. */
  lemma MarkedTopic(c: MonitorClass, t: MonitorType, a: Buffer, b: Buffer, queues: seq<Buffer>)
    requires c.name != [83, 84, 65, 84, 65, 80, 80] && c.types == [t]
    requires Unmarked(a) && t.objectTopic == a + [37, 115] + b
    ensures Plan([c], queues) ==
            seq(|queues|, i requires 0 <= i < |queues| => Attempt(c.name, t.name, a + queues[i] + b))
  {
    hide QueueAttempts, FindPercentS, Unmarked, Ascii;
    StatAppIs();
    PlanOfOne(c, queues);
    TypesOfOne(c.name, t, queues);
    FoundAt(a, b);
    QueuesInOrder(c.name, t, a, b, queues);
  }

  /** A type without a topic asks for nothing; one whose topic has no `%s` for that topic, once. */
  lemma UnmarkedTopic(c: MonitorClass, t: MonitorType, queues: seq<Buffer>)
    requires c.name != [83, 84, 65, 84, 65, 80, 80] && c.types == [t] && Unmarked(t.objectTopic)
    ensures Plan([c], queues) == if t.objectTopic == [] then [] else [Attempt(c.name, t.name, t.objectTopic)]
  {
    hide QueueAttempts, FindPercentS, Unmarked, Ascii;
    StatAppIs();
    PlanOfOne(c, queues);
    TypesOfOne(c.name, t, queues);
    NotFound(t.objectTopic);
  }

  /** The class of that name asks for nothing at all. */
  lemma StatAppAsksNothing(c: MonitorClass, queues: seq<Buffer>)
    requires c.name == [83, 84, 65, 84, 65, 80, 80]
    ensures Plan([c], queues) == []
  {
    hide Ascii;
    StatAppIs();
    PlanOfOne(c, queues);
  }

  /** Classes are planned one after the other. */
  lemma {:induction false} PlanConcat(cs: seq<MonitorClass>, ds: seq<MonitorClass>, queues: seq<Buffer>)
    ensures Plan(cs + ds, queues) == Plan(cs, queues) + Plan(ds, queues)
    decreases |ds|
  {
    hide ClassAttempts;
    if ds == [] {
      assert cs + ds == cs && Plan(cs, queues) + [] == Plan(cs, queues);
    } else {
      var n := |ds| - 1;
      PlanConcat(cs, ds[..n], queues);
      assert (cs + ds)[..|cs + ds| - 1] == cs + ds[..n];
      var last := ClassAttempts(ds[n], queues);
      assert Plan(cs, queues) + Plan(ds[..n], queues) + last == Plan(cs, queues) + (Plan(ds[..n], queues) + last);
    }
  }

  lemma {:induction false} TypesConcat(className: Buffer, ts: seq<MonitorType>, us: seq<MonitorType>, queues: seq<Buffer>)
    ensures TypesAttempts(className, ts + us, queues) ==
            TypesAttempts(className, ts, queues) + TypesAttempts(className, us, queues)
    decreases |us|
  {
    hide TypeAttempts;
    var front := TypesAttempts(className, ts, queues);
    if us == [] {
      assert ts + us == ts && front + [] == front;
    } else {
      var n := |us| - 1;
      TypesConcat(className, ts, us[..n], queues);
      assert (ts + us)[..|ts + us| - 1] == ts + us[..n];
      var rest, last := TypesAttempts(className, us[..n], queues), TypeAttempts(className, us[n], queues);
      assert front + rest + last == front + (rest + last);
    }
  }

  /** And so are the types of a class; one without types asks for nothing. */
  lemma PlanByType(c: MonitorClass, ts: seq<MonitorType>, us: seq<MonitorType>, queues: seq<Buffer>)
    ensures Plan([c.(types := ts + us)], queues) == Plan([c.(types := ts)], queues) + Plan([c.(types := us)], queues)
    ensures Plan([c.(types := [])], queues) == [] && Plan([], queues) == []
  {
    hide TypesAttempts, Ascii;
    PlanOfOne(c.(types := ts + us), queues);
    PlanOfOne(c.(types := ts), queues);
    PlanOfOne(c.(types := us), queues);
    PlanOfOne(c.(types := []), queues);
    TypesConcat(c.name, ts, us, queues);
    NoTypes(c.name, queues);
  }

  lemma NoTypes(className: Buffer, queues: seq<Buffer>)
    ensures TypesAttempts(className, [], queues) == []
  {
  }

  // ----- which attempts there are -----

  /** `topic` is the object topic with `q` for its first `%s`. */
  predicate Filled(objectTopic: Buffer, a: Buffer, b: Buffer, q: Buffer, topic: Buffer) {
    Unmarked(a) && objectTopic == a + [37, 115] + b && topic == a + q + b
  }

  /** `topic` is the object topic itself, where that has no `%s`, else the object topic with a queue's name
      for its first `%s`. */
  ghost predicate MadeFrom(objectTopic: Buffer, queues: seq<Buffer>, topic: Buffer) {
    if Unmarked(objectTopic) then objectTopic != [] && topic == objectTopic
    else exists a, b, q :: q in queues && Filled(objectTopic, a, b, q, topic)
  }

  /** Class `c`, not STATAPP, has type `t`, and attempt `x` is made for them. */
  ghost predicate Makes(c: MonitorClass, t: MonitorType, queues: seq<Buffer>, x: Attempt) {
    && c.name != [83, 84, 65, 84, 65, 80, 80] && t in c.types
    && x.className == c.name && x.typeName == t.name && MadeFrom(t.objectTopic, queues, x.topic)
  }

  lemma InTypeAttempts(className: Buffer, t: MonitorType, queues: seq<Buffer>, x: Attempt)
    ensures x in TypeAttempts(className, t, queues) <==>
              x.className == className && x.typeName == t.name && MadeFrom(t.objectTopic, queues, x.topic)
  {
    hide QueueAttempts, FindPercentS, Unmarked;
    NotFound(t.objectTopic);
    if !Unmarked(t.objectTopic) {
      var a, b := SplitAtMark(t.objectTopic);
      QueuesInOrder(className, t, a, b, queues);
      assert t.objectTopic != [] by {
        assert |t.objectTopic| == |a| + 2 + |b|;
      }
      MadeOfQueue(t.objectTopic, a, b, queues, x.topic);
      InAttempts(className, t.name, a, b, queues, x);
    }
  }

  lemma MadeOfQueue(objectTopic: Buffer, a: Buffer, b: Buffer, queues: seq<Buffer>, topic: Buffer)
    requires !Unmarked(objectTopic) && Unmarked(a) && objectTopic == a + [37, 115] + b
    ensures MadeFrom(objectTopic, queues, topic) <==> exists q :: q in queues && topic == a + q + b
  {
    hide Unmarked;
    if MadeFrom(objectTopic, queues, topic) {
      var a', b', q :| q in queues && Filled(objectTopic, a', b', q, topic);
      FoundAt(a, b);
      FoundAt(a', b');
      assert a == objectTopic[..|a|] && a' == objectTopic[..|a'|];
      assert b == objectTopic[|a| + 2..] && b' == objectTopic[|a'| + 2..];
    }
    if q :| q in queues && topic == a + q + b {
      assert Filled(objectTopic, a, b, q, topic);
    }
  }

  lemma InAttempts(className: Buffer, typeName: Buffer, a: Buffer, b: Buffer, queues: seq<Buffer>, x: Attempt)
    ensures x in seq(|queues|, i requires 0 <= i < |queues| => Attempt(className, typeName, a + queues[i] + b)) <==>
              x.className == className && x.typeName == typeName && exists q :: q in queues && x.topic == a + q + b
  {
    var xs := seq(|queues|, i requires 0 <= i < |queues| => Attempt(className, typeName, a + queues[i] + b));
    if q :| x.className == className && x.typeName == typeName && q in queues && x.topic == a + q + b {
      var i :| 0 <= i < |queues| && queues[i] == q;
      assert xs[i] == x;
    }
  }

  lemma {:induction false} InTypesAttempts(className: Buffer, types: seq<MonitorType>, queues: seq<Buffer>, x: Attempt)
    ensures x in TypesAttempts(className, types, queues) <==>
              exists t :: t in types && x.className == className && x.typeName == t.name &&
                          MadeFrom(t.objectTopic, queues, x.topic)
    decreases |types|
  {
    hide TypeAttempts, MadeFrom;
    if types != [] {
      var n := |types| - 1;
      InTypesAttempts(className, types[..n], queues, x);
      InTypeAttempts(className, types[n], queues, x);
      assert types == types[..n] + [types[n]];
    }
  }

  lemma InClassAttempts(c: MonitorClass, queues: seq<Buffer>, x: Attempt)
    ensures x in ClassAttempts(c, queues) <==> exists t :: Makes(c, t, queues, x)
  {
    hide TypesAttempts, MadeFrom, Ascii;
    StatAppIs();
    InTypesAttempts(c.name, c.types, queues, x);
    if x in ClassAttempts(c, queues) {
      var t :| t in c.types && x.className == c.name && x.typeName == t.name && MadeFrom(t.objectTopic, queues, x.topic);
      assert Makes(c, t, queues, x);
    }
  }

  /** For every catalogue and every list of queues: an attempt is planned exactly when some class other than
      STATAPP has a type it is made for. */
  lemma {:induction false} PlannedExactly(classes: seq<MonitorClass>, queues: seq<Buffer>, x: Attempt)
    ensures x in Plan(classes, queues) <==> exists c, t :: c in classes && Makes(c, t, queues, x)
    decreases |classes|
  {
    hide ClassAttempts, Makes;
    if classes != [] {
      var n := |classes| - 1;
      PlannedExactly(classes[..n], queues, x);
      InClassAttempts(classes[n], queues, x);
      assert classes == classes[..n] + [classes[n]];
      if c, t :| c in classes && Makes(c, t, queues, x) {
        assert c in classes[..n] || c == classes[n];
      }
    }
  }

  // ----- what is recorded and called -----

  /** Call number `i` asks for the topic of attempt `i` and hands back its result. */
  lemma {:induction false} RequestAt(plan: seq<Attempt>, results: seq<HandleLedger.SubHandle>, i: nat)
    requires |plan| == |results| && i < |plan|
    ensures Requests(plan, results)[i] == HandleLedger.Requested(plan[i].topic, results[i])
    decreases |plan|
  {
    var n := |plan| - 1;
    if i < n {
      RequestAt(plan[..n], results[..n], i);
    }
  }

  /** Attempt `i` succeeded and is recorded as `x`. */
  predicate RecordedAs(plan: seq<Attempt>, results: seq<HandleLedger.SubHandle>, i: nat, x: DataSub) {
    i < |plan| && i < |results| && results[i].hobj != 0 && x == DataSub(plan[i].className, plan[i].typeName, results[i])
  }

  lemma RecordedStep(plan: seq<Attempt>, results: seq<HandleLedger.SubHandle>, x: DataSub)
    requires |plan| == |results| && plan != []
    ensures var n := |plan| - 1;
            x in Recorded(plan, results) <==> x in Recorded(plan[..n], results[..n]) || RecordedAs(plan, results, n, x)
  {
  }

  lemma RecordedEarlier(plan: seq<Attempt>, results: seq<HandleLedger.SubHandle>, i: nat, x: DataSub)
    requires |plan| == |results| && i + 1 < |plan|
    ensures RecordedAs(plan, results, i, x) <==> RecordedAs(plan[..|plan| - 1], results[..|plan| - 1], i, x)
  {
  }

  lemma RecordedInRange(plan: seq<Attempt>, results: seq<HandleLedger.SubHandle>, i: nat, x: DataSub)
    requires RecordedAs(plan, results, i, x)
    ensures i < |plan|
  {
  }

  /** What is recorded is what attempts made: the successful ones, each under its class and type. */
  lemma {:induction false} RecordedExactly(plan: seq<Attempt>, results: seq<HandleLedger.SubHandle>, x: DataSub)
    requires |plan| == |results|
    ensures x in Recorded(plan, results) <==> exists i: nat :: RecordedAs(plan, results, i, x)
    decreases |plan|
  {
    if plan != [] {
      hide Recorded, RecordedAs;
      var n := |plan| - 1;
      RecordedExactly(plan[..n], results[..n], x);
      RecordedStep(plan, results, x);
      if i: nat :| RecordedAs(plan[..n], results[..n], i, x) {
        RecordedInRange(plan[..n], results[..n], i, x);
        RecordedEarlier(plan, results, i, x);
      }
      if i: nat :| RecordedAs(plan, results, i, x) && i < n {
        RecordedEarlier(plan, results, i, x);
      }
      if i: nat :| RecordedAs(plan, results, i, x) {
        RecordedInRange(plan, results, i, x);
      }
    }
  }

  /** When every attempt succeeds, everything is recorded in the order of the plan. */
  lemma {:induction false} RecordedInOrder(plan: seq<Attempt>, results: seq<HandleLedger.SubHandle>)
    requires |plan| == |results| && forall i :: 0 <= i < |results| ==> results[i].hobj != 0
    ensures Recorded(plan, results) ==
            seq(|plan|, i requires 0 <= i < |plan| => DataSub(plan[i].className, plan[i].typeName, results[i]))
    decreases |plan|
  {
    if plan != [] {
      var n := |plan| - 1;
      RecordedInOrder(plan[..n], results[..n]);
    }
  }
}
