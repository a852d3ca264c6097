/** What the collector's log, its counters and its set-up say, position by position. */
module CollectorRuns {
  import opened Bytes
  import opened HandleLedger
  import opened MQAnswers
  import opened Collector

  // ----- the log -----

  /** The counters count. */
  lemma {:induction false} CountIs(log: seq<Event>, e: Event)
    ensures Count(log, e) == multiset(log)[e]
    decreases |log|
  {
    if log != [] {
      var n := |log| - 1;
      CountIs(log[..n], e);
      assert log == log[..n] + [log[n]];
    }
  }

  predicate AllFailed(log: seq<Event>, n: nat) {
    n <= |log| && forall j :: 0 <= j < n ==> log[j] == ConnectFailed
  }

  /** Failed attempts, one connection at `i`, the set-up, then cycles. */
  predicate CollectsFrom(log: seq<Event>, i: nat) {
    && i + 2 <= |log| && AllFailed(log, i) && log[i] == Connected && log[i + 1] == SetUp
    && forall j :: i + 2 <= j < |log| ==> log[j].Cycle?
  }

  ghost predicate Collects(log: seq<Event>) {
    exists i: nat :: CollectsFrom(log, i)
  }

  /** Failed attempts, then the connection. */
  predicate Joins(log: seq<Event>) {
    log != [] && AllFailed(log, |log| - 1) && log[|log| - 1] == Connected
  }

  lemma FailedStep(log: seq<Event>, e: Event)
    ensures AllFailed(log + [e], |log| + 1) <==> AllFailed(log, |log|) && e == ConnectFailed
    ensures Joins(log + [e]) <==> AllFailed(log, |log|) && e == Connected
  {
    assert (log + [e])[|log|] == e;
    assert forall j :: 0 <= j < |log| ==> (log + [e])[j] == log[j];
  }

  lemma CollectsStep(log: seq<Event>, e: Event)
    ensures Collects(log + [e]) <==> (Collects(log) && e.Cycle?) || (Joins(log) && e == SetUp)
  {
    var more := log + [e];
    assert more[|log|] == e && forall j :: 0 <= j < |log| ==> more[j] == log[j];
    if i: nat :| CollectsFrom(log, i) && e.Cycle? {
      assert CollectsFrom(more, i);
    }
    if Joins(log) && e == SetUp {
      assert CollectsFrom(more, |log| - 1);
    }
    if i: nat :| CollectsFrom(more, i) {
      assert i + 2 <= |log| ==> CollectsFrom(log, i);
    }
  }

  lemma NothingLogged()
    ensures PhaseOf([]) == Waiting && AllFailed([], 0) && !Joins([]) && !Collects([])
  {
  }

  /** The automaton accepts exactly the logs of this shape. */
  lemma {:induction false} AcceptedShape(log: seq<Event>)
    ensures PhaseOf(log) == Waiting <==> AllFailed(log, |log|)
    ensures PhaseOf(log) == Joined <==> Joins(log)
    ensures PhaseOf(log) == Collecting <==> Collects(log)
    decreases |log|
  {
    hide PhaseOf, AllFailed, Joins, Collects;
    if log == [] {
      NothingLogged();
    } else {
      var n := |log| - 1;
      AcceptedShape(log[..n]);
      PhaseStep(log);
      assert log == log[..n] + [log[n]];
      FailedStep(log[..n], log[n]);
      CollectsStep(log[..n], log[n]);
    }
  }

  lemma PhaseStep(log: seq<Event>)
    requires log != []
    ensures PhaseOf(log) == Collector.Next(PhaseOf(log[..|log| - 1]), log[|log| - 1])
  {
  }

  // ----- the set-up -----

  /** Exactly the patterns that do not start with `!` are asked for. */
  lemma {:induction false} PatternsAre(patterns: seq<Buffer>, p: Buffer)
    ensures p in Patterns(patterns) <==> p in patterns && !(|p| > 0 && p[0] == 33)
    decreases |patterns|
  {
    if patterns != [] {
      var n := |patterns| - 1;
      PatternsAre(patterns[..n], p);
      assert patterns == patterns[..n] + [patterns[n]];
    }
  }

  lemma {:induction false} PatternsInOrder(a: seq<Buffer>, b: seq<Buffer>)
    ensures Patterns(a + b) == Patterns(a) + Patterns(b)
    decreases |b|
  {
    hide Patterns;
    if b == [] {
      assert a + b == a;
      NothingAsked();
    } else {
      var n := |b| - 1;
      PatternsInOrder(a, b[..n]);
      PatternStep(a + b, |a| + n);
      PatternStep(b, n);
      assert (a + b)[..|a| + n] == a + b[..n] && (a + b)[..|a| + n + 1] == a + b && b[..n + 1] == b;
      assert (a + b)[|a| + n] == b[n];
    }
  }

  lemma NothingAsked()
    ensures Patterns([]) == []
  {
  }

  /** Attempt `i` is for topic `i`, and inquiry `i` for pattern `i`. */
  lemma {:induction false} SubscriptionAt(topics: seq<Buffer>, results: seq<SubHandle>, i: nat)
    requires |topics| == |results| && i < |topics|
    ensures |Subscriptions(topics, results)| == |topics|
    ensures Subscriptions(topics, results)[i] == Requested(topics[i], results[i])
    decreases |topics|
  {
    var n := |topics| - 1;
    if n > 0 {
      SubscriptionAt(topics[..n], results[..n], if i < n then i else 0);
    }
  }

  lemma {:induction false} InquiryAt(patterns: seq<Buffer>, answers: seq<seq<Buffer>>, i: nat)
    requires |patterns| == |answers| && i < |patterns|
    ensures |Inquiries(patterns, answers)| == |patterns|
    ensures Inquiries(patterns, answers)[i] == Commanded(QueuesCommand(patterns[i]), answers[i])
    decreases |patterns|
  {
    hide QueuesCommand;
    var n := |patterns| - 1;
    if n > 0 {
      InquiryAt(patterns[..n], answers[..n], if i < n then i else 0);
    }
  }

  /** A queue is on the list exactly when some inquiry discovered it. */
  lemma {:induction false} QueuesFound(answers: seq<seq<Buffer>>, q: Buffer)
    ensures q in QueuesOf(answers) <==> exists i :: 0 <= i < |answers| && q in NamesDiscovered(answers[i])
    decreases |answers|
  {
    hide NamesDiscovered;
    if answers != [] {
      var n := |answers| - 1;
      QueuesFound(answers[..n], q);
      assert forall i :: 0 <= i < n ==> answers[..n][i] == answers[i];
    }
  }

  /** Of the outcomes exactly those with a queue handle are recorded. */
  lemma {:induction false} MadeExactly(results: seq<SubHandle>, h: SubHandle)
    ensures h in Made(results) <==> h in results && h.hobj != 0
    decreases |results|
  {
    if results != [] {
      var n := |results| - 1;
      MadeExactly(results[..n], h);
      assert results == results[..n] + [results[n]];
    }
  }
}
