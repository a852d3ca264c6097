/** What `create_subscriptions` attempts, and what it records. */
module SubscriptionPlan {
  import opened Bytes
  import opened Text
  import opened HandleLedger
  import opened MonitorCatalog

  /** `find("%s")`: the index of the first occurrence, or -1. */
  function FindPercentS(s: Buffer): (k: int)
    ensures -1 <= k && k + 2 <= |s| + 1
  {
    if |s| < 2 then -1
    else if s[0] == 37 && s[1] == 115 then 0
    else
      var k := FindPercentS(s[1..]);
      if k < 0 then -1 else k + 1
  }

  /** The found index is an occurrence and the first one. */
  lemma {:induction false} FindsFirst(s: Buffer)
    ensures var k := FindPercentS(s);
            && (k >= 0 ==> k + 2 <= |s| && s[k] == 37 && s[k + 1] == 115)
            && (forall i :: 0 <= i < (if k >= 0 then k else |s| - 1) ==> !(s[i] == 37 && s[i + 1] == 115))
    decreases |s|
  {
    if |s| >= 2 && !(s[0] == 37 && s[1] == 115) {
      FindsFirst(s[1..]);
      var k := FindPercentS(s);
      forall i | 0 <= i < (if k >= 0 then k else |s| - 1)
        ensures !(s[i] == 37 && s[i + 1] == 115)
      {
        if i > 0 {
          assert s[i] == s[1..][i - 1] && s[i + 1] == s[1..][i];
        }
      }
    }
  }

  /** One `create_subscription` call with the class and type it is made for. */
  datatype Attempt = Attempt(className: Buffer, typeName: Buffer, topic: Buffer)

  datatype DataSub = DataSub(className: Buffer, typeName: Buffer, handle: SubHandle)

  function Replaced(topic: Buffer, k: nat, queue: Buffer): Buffer
    requires k + 2 <= |topic|
  {
    topic[..k] + queue + topic[k + 2..]
  }

  /** One attempt per queue, the first `%s` replaced by its name. */
  function QueueAttempts(className: Buffer, t: MonitorType, queues: seq<Buffer>): seq<Attempt>
    requires FindPercentS(t.objectTopic) >= 0
  {
    FindsFirst(t.objectTopic);
    if queues == [] then []
    else
      var n := |queues| - 1;
      QueueAttempts(className, t, queues[..n]) +
      [Attempt(className, t.name, Replaced(t.objectTopic, FindPercentS(t.objectTopic), queues[n]))]
  }

  /** None without a topic, one for a topic without `%s`, else one per queue. */
  function TypeAttempts(className: Buffer, t: MonitorType, queues: seq<Buffer>): seq<Attempt> {
    if t.objectTopic == [] then []
    else if FindPercentS(t.objectTopic) < 0 then [Attempt(className, t.name, t.objectTopic)]
    else QueueAttempts(className, t, queues)
  }

  function TypesAttempts(className: Buffer, types: seq<MonitorType>, queues: seq<Buffer>): seq<Attempt> {
    if types == [] then []
    else
      var n := |types| - 1;
      TypesAttempts(className, types[..n], queues) + TypeAttempts(className, types[n], queues)
  }

  /** Nothing for STATAPP: its identifiers are not queue names. */
  function ClassAttempts(c: MonitorClass, queues: seq<Buffer>): seq<Attempt> {
    if c.name == Ascii("STATAPP") then [] else TypesAttempts(c.name, c.types, queues)
  }

  function Plan(classes: seq<MonitorClass>, queues: seq<Buffer>): seq<Attempt> {
    if classes == [] then []
    else
      var n := |classes| - 1;
      Plan(classes[..n], queues) + ClassAttempts(classes[n], queues)
  }

  /** The calls the attempts make, in order, each with the pair of handles it handed back. */
  function Requests(plan: seq<Attempt>, results: seq<SubHandle>): (r: seq<Call>)
    requires |plan| == |results|
    ensures |r| == |plan|
  {
    if plan == [] then []
    else
      var n := |plan| - 1;
      Requests(plan[..n], results[..n]) + [Requested(plan[n].topic, results[n])]
  }

  /** So a history fixes the handles its attempts handed back. */
  lemma {:induction false} RequestsAreExact(plan: seq<Attempt>, results: seq<SubHandle>, others: seq<SubHandle>)
    requires |plan| == |results| == |others| && Requests(plan, results) == Requests(plan, others)
    ensures results == others
    decreases |plan|
  {
    if plan != [] {
      var n := |plan| - 1;
      var a, b := Requests(plan, results), Requests(plan, others);
      assert a[..n] == Requests(plan[..n], results[..n]) && b[..n] == Requests(plan[..n], others[..n]);
      assert a[n] == b[n];
      RequestsAreExact(plan[..n], results[..n], others[..n]);
      assert results == results[..n] + [results[n]] && others == others[..n] + [others[n]];
    }
  }

  /** What the attempts leave behind: the successful ones, under their class and type, in order. A failed
      attempt hands back the handle 0. */
  function Recorded(plan: seq<Attempt>, results: seq<SubHandle>): seq<DataSub>
    requires |plan| == |results|
  {
    if plan == [] then []
    else
      var n := |plan| - 1;
      Recorded(plan[..n], results[..n]) +
      if results[n].hobj != 0 then [DataSub(plan[n].className, plan[n].typeName, results[n])] else []
  }

  lemma RequestsAppend(plan: seq<Attempt>, results: seq<SubHandle>, a: Attempt, h: SubHandle)
    requires |plan| == |results|
    ensures Requests(plan + [a], results + [h]) == Requests(plan, results) + [Requested(a.topic, h)]
  {
    assert (plan + [a])[..|plan|] == plan && (results + [h])[..|results|] == results;
  }

  lemma RecordedAppend(plan: seq<Attempt>, results: seq<SubHandle>, a: Attempt, h: SubHandle)
    requires |plan| == |results|
    ensures Recorded(plan + [a], results + [h]) ==
            Recorded(plan, results) + if h.hobj != 0 then [DataSub(a.className, a.typeName, h)] else []
  {
    assert (plan + [a])[..|plan|] == plan && (results + [h])[..|results|] == results;
  }

  /** Something is recorded exactly when some attempt succeeded. */
  lemma {:induction false} RecordedSome(plan: seq<Attempt>, results: seq<SubHandle>)
    requires |plan| == |results|
    ensures Recorded(plan, results) != [] <==> exists h :: h in results && h.hobj != 0
    decreases |plan|
  {
    if plan != [] {
      var n := |plan| - 1;
      RecordedSome(plan[..n], results[..n]);
      assert results == results[..n] + [results[n]];
    }
  }

  function Handles(subs: seq<DataSub>): (r: seq<SubHandle>)
    ensures |r| == |subs|
  {
    seq(|subs|, i requires 0 <= i < |subs| => subs[i].handle)
  }

  /** The handles behind a list of data subscriptions. */
  function LentTo(subs: seq<DataSub>): multiset<int> {
    if subs == [] then multiset{} else Pair(subs[0].handle.hobj, subs[0].handle.hsub) + LentTo(subs[1..])
  }

  lemma {:induction false} LentToAppend(subs: seq<DataSub>, s: DataSub)
    ensures LentTo(subs + [s]) == LentTo(subs) + Pair(s.handle.hobj, s.handle.hsub)
    decreases |subs|
  {
    hide Pair;
    if subs == [] {
      assert [] + [s] == [s] && [s][1..] == [];
    } else {
      assert (subs + [s])[0] == subs[0] && (subs + [s])[1..] == subs[1..] + [s];
      LentToAppend(subs[1..], s);
    }
  }

  lemma {:induction false} LentQueue(subs: seq<DataSub>, i: nat)
    requires i < |subs| && subs[i].handle.hobj != 0
    ensures subs[i].handle.hobj in LentTo(subs)
    decreases i
  {
    if i > 0 {
      LentQueue(subs[1..], i - 1);
    }
  }
}
