/** `Collector`: connection, one-time set-up, collection cycles and shutdown, over one client and its monitor. */
module Collector {
  import opened Bytes
  import opened HandleLedger
  import opened MQAnswers
  import opened MQClient
  import opened ResourceMonitor
  import MonitorCatalog
  import PublicationMetrics
  import QueueManager
  import SubscriptionPlan

  datatype Config = Config(
    keepRunning: bool, continuous: bool, usePublications: bool, maxCycles: int,
    interval: nat, reconnectInterval: nat, rediscover: bool,
    queueManager: Buffer, statsQueue: Buffer, accountingQueue: Buffer, monitoredTopics: seq<Buffer>, monitoredQueues: seq<Buffer>)

  /** What a collection cycle asks of the client and the monitor. */
  datatype Request =
    | FetchAll(kind: QueueType)
    | Inquire(queue: Buffer, count: nat)
    | Command(cmd: Buffer)
    | Publications

  /** What the surroundings do at one observation point: request a stop, let the rediscovery interval elapse,
      decide what a cycle asks for and whether it ends in an exception. */
  datatype Tick = Tick(stop: bool, elapsed: bool, requests: seq<Request>, ok: bool)

  const NO_TICK := Tick(false, false, [], false)

  /** The first request reads an open statistics queue, and the answer says that the connection is gone. */
  predicate FindsBroken(requests: seq<Request>, statsOpen: bool, next: QueueManager.Reply) {
    requests != [] && requests[0] == FetchAll(Stats) && statsOpen && Breaks(next)
  }

  function HeadTick(env: seq<Tick>): Tick {
    if env == [] then NO_TICK else env[0]
  }

  function TailTicks(env: seq<Tick>): seq<Tick> {
    if env == [] then [] else env[1..]
  }

  // ----- the log of a run and the automaton that reads it -----

  datatype Event = ConnectFailed | Connected | SetUp | Cycle(ok: bool)

  /** Waiting for a connection, connected, collecting; `Stray` for anything else. */
  datatype Phase = Waiting | Joined | Collecting | Stray

  function Next(p: Phase, e: Event): Phase {
    match (p, e)
    case (Waiting, ConnectFailed) => Waiting
    case (Waiting, Connected) => Joined
    case (Joined, SetUp) => Collecting
    case (Collecting, Cycle(_)) => Collecting
    case _ => Stray
  }

  function PhaseOf(log: seq<Event>): Phase {
    if log == [] then Waiting else Next(PhaseOf(log[..|log| - 1]), log[|log| - 1])
  }

  function Count(log: seq<Event>, e: Event): nat {
    if log == [] then 0 else Count(log[..|log| - 1], e) + if log[|log| - 1] == e then 1 else 0
  }

  /** Completed collection cycles, successful or not. */
  function Cycles(log: seq<Event>): nat {
    Count(log, Cycle(true)) + Count(log, Cycle(false))
  }

  lemma LogAppend(log: seq<Event>, e: Event)
    ensures PhaseOf(log + [e]) == Next(PhaseOf(log), e)
    ensures forall x :: Count(log + [e], x) == Count(log, x) + if x == e then 1 else 0
  {
    assert (log + [e])[..|log|] == log;
  }

  /** What a connection attempt and a set-up do to a log that waits for them. */
  lemma ConnectionLog(log: seq<Event>)
    requires PhaseOf(log).Waiting?
    ensures PhaseOf(log + [ConnectFailed]).Waiting? && PhaseOf(log + [Connected]).Joined?
    ensures PhaseOf(log + [Connected] + [SetUp]).Collecting?
    ensures Cycles(log + [ConnectFailed]) == Cycles(log + [Connected] + [SetUp]) == Cycles(log)
  {
    hide PhaseOf, Count;
    LogAppend(log, Connected);
    LogAppend(log, ConnectFailed);
    LogAppend(log + [Connected], SetUp);
  }

  /** What each phase says about the log so far. */
  lemma {:induction false} PhaseCounts(log: seq<Event>)
    requires PhaseOf(log) != Stray
    ensures Count(log, Connected) == if PhaseOf(log).Waiting? then 0 else 1
    ensures Count(log, SetUp) == if PhaseOf(log).Collecting? then 1 else 0
    ensures !PhaseOf(log).Collecting? ==> Count(log, Cycle(true)) == 0 && Count(log, Cycle(false)) == 0
    decreases |log|
  {
    if log != [] {
      PhaseCounts(log[..|log| - 1]);
    }
  }

  lemma {:induction false} CyclesAfterSetUp(log: seq<Event>)
    requires PhaseOf(log) != Stray
    ensures forall i, j :: 0 <= i < j < |log| && log[i] == SetUp ==> log[j].Cycle?
    decreases |log|
  {
    hide Count;
    if log != [] {
      var init := log[..|log| - 1];
      CyclesAfterSetUp(init);
      PhaseCounts(init);
      SetUpSeen(init);
      forall i, j | 0 <= i < j < |log| && log[i] == SetUp
        ensures log[j].Cycle?
      {
        assert init[i] == SetUp && (j < |init| ==> init[j] == log[j]);
      }
    }
  }

  /** A log the automaton accepts connects and sets up at most once, never connects again afterwards, and
      collects only after the set-up. */
  lemma AcceptedLog(log: seq<Event>)
    requires PhaseOf(log) != Stray
    ensures Count(log, Connected) <= 1 && Count(log, SetUp) <= 1
    ensures PhaseOf(log).Collecting? <==> Count(log, SetUp) == 1
    ensures Cycles(log) > 0 ==> Count(log, SetUp) == 1
    ensures forall i, j :: 0 <= i < j < |log| && log[i] == SetUp ==> log[j].Cycle?
  {
    hide PhaseOf, Count;
    PhaseCounts(log);
    CyclesAfterSetUp(log);
  }

  lemma {:induction false} SetUpSeen(log: seq<Event>)
    ensures Count(log, SetUp) > 0 <==> SetUp in log
    decreases |log|
  {
    if log != [] {
      SetUpSeen(log[..|log| - 1]);
      assert log == log[..|log| - 1] + [log[|log| - 1]];
    }
  }

  // ----- what the set-up asks for -----

  /** Every pattern but those starting with `!`. */
  function Patterns(patterns: seq<Buffer>): seq<Buffer> {
    if patterns == [] then []
    else
      var n := |patterns| - 1;
      Patterns(patterns[..n]) + if patterns[n] != [] && patterns[n][0] == 33 then [] else [patterns[n]]
  }

  /** One attempt per topic; `results[i]` is what it left. */
  function Subscriptions(topics: seq<Buffer>, results: seq<SubHandle>): seq<Call>
    requires |topics| == |results|
  {
    if topics == [] then []
    else
      var n := |topics| - 1;
      Subscriptions(topics[..n], results[..n]) + [Requested(topics[n], results[n])]
  }

  lemma OneMoreSubscription(topics: seq<Buffer>, results: seq<SubHandle>, topic: Buffer, h: SubHandle)
    requires |topics| == |results|
    ensures Subscriptions(topics + [topic], results + [h]) == Subscriptions(topics, results) + [Requested(topic, h)]
  {
    assert (topics + [topic])[..|topics|] == topics && (results + [h])[..|results|] == results;
  }

  lemma OneMoreMade(results: seq<SubHandle>, h: SubHandle)
    ensures Made(results + [h]) == Made(results) + if h.hobj != 0 then [h] else []
  {
    assert (results + [h])[..|results|] == results;
  }

  /** One inquiry per pattern; `answers[i]` is what the command server returned for it. */
  function Inquiries(patterns: seq<Buffer>, answers: seq<seq<Buffer>>): seq<Call>
    requires |patterns| == |answers|
  {
    if patterns == [] then []
    else
      var n := |patterns| - 1;
      Inquiries(patterns[..n], answers[..n]) + [Commanded(QueuesCommand(patterns[n]), answers[n])]
  }

  function QueuesOf(answers: seq<seq<Buffer>>): seq<Buffer> {
    if answers == [] then []
    else QueuesOf(answers[..|answers| - 1]) + NamesDiscovered(answers[|answers| - 1])
  }

  lemma OneMoreInquiry(patterns: seq<Buffer>, answers: seq<seq<Buffer>>, pattern: Buffer, responses: seq<Buffer>)
    requires |patterns| == |answers|
    ensures Inquiries(patterns + [pattern], answers + [responses]) ==
            Inquiries(patterns, answers) + [Commanded(QueuesCommand(pattern), responses)]
    ensures QueuesOf(answers + [responses]) == QueuesOf(answers) + NamesDiscovered(responses)
  {
    hide QueuesCommand, NamesDiscovered;
    assert (patterns + [pattern])[..|patterns|] == patterns && (answers + [responses])[..|answers|] == answers;
  }

  /** The trace and the queue list after inquiries for `patterns`, from `trace0` and `queues0` on. */
  ghost predicate Inquired(trace0: seq<Call>, queues0: seq<Buffer>, patterns: seq<Buffer>, answers: seq<seq<Buffer>>,
                           trace: seq<Call>, queues: seq<Buffer>)
  {
    && |answers| == |patterns|
    && trace == trace0 + Inquiries(patterns, answers)
    && queues == queues0 + QueuesOf(answers)
  }

  lemma InquiredNothing(trace0: seq<Call>, queues0: seq<Buffer>)
    ensures Inquired(trace0, queues0, [], [], trace0, queues0)
  {
    assert trace0 + [] == trace0 && queues0 + [] == queues0;
  }

  lemma InquiredStep(trace0: seq<Call>, queues0: seq<Buffer>, patterns: seq<Buffer>, answers: seq<seq<Buffer>>,
                     trace: seq<Call>, queues: seq<Buffer>, pattern: Buffer, responses: seq<Buffer>)
    requires Inquired(trace0, queues0, patterns, answers, trace, queues)
    ensures Inquired(trace0, queues0, patterns + [pattern], answers + [responses],
                     trace + [Commanded(QueuesCommand(pattern), responses)], queues + NamesDiscovered(responses))
  {
    hide Inquiries, QueuesOf, QueuesCommand, NamesDiscovered;
    OneMoreInquiry(patterns, answers, pattern, responses);
  }

  lemma PatternStep(patterns: seq<Buffer>, i: nat)
    requires i < |patterns|
    ensures Patterns(patterns[..i + 1]) ==
            Patterns(patterns[..i]) + if patterns[i] != [] && patterns[i][0] == 33 then [] else [patterns[i]]
  {
    assert patterns[..i + 1][..i] == patterns[..i];
  }

  predicate FindsClasses(found: MonitorCatalog.Answers)
    requires MonitorCatalog.Consistent(found)
  {
    MonitorCatalog.Usable(found.classes) && MonitorCatalog.Discovered(found) != []
  }

  /** One outcome per attempt of the plan for the discovered classes. */
  predicate Planned(found: MonitorCatalog.Answers, results: seq<SubHandle>, queues: seq<Buffer>)
    requires MonitorCatalog.Consistent(found)
  {
    FindsClasses(found) ==> |results| == |SubscriptionPlan.Plan(MonitorCatalog.Discovered(found), queues)|
  }

  /** What setting up the monitor asks of the client: discovery, and the plan where it finds classes. */
  function MonitorCalls(name: Buffer, found: MonitorCatalog.Answers, results: seq<SubHandle>, queues: seq<Buffer>): seq<Call>
    requires MonitorCatalog.Consistent(found) && Planned(found, results, queues)
  {
    MonitorCatalog.Talk(name, found) +
    if FindsClasses(found)
    then SubscriptionPlan.Requests(SubscriptionPlan.Plan(MonitorCatalog.Discovered(found), queues), results) else []
  }

  class Exporter {
    const config: Config
    const client: Client
    var monitor: Monitor?
    var running: bool
    var connectedOnce: bool
    var connectedQmgr: bool
    var collectorEnd: bool
    var cycleCount: int
    var totalCollections: int
    var errorCount: int
    var discoveredQueues: seq<Buffer>
    /** What is still to come from the surroundings; a run is observed until this is used up. */
    var env: seq<Tick>
    var cut: bool
    ghost var log: seq<Event>
    /** Some `stop()` took effect. */
    ghost var stopped: bool

    /** Handles are accounted for by the client and the monitor, the log is one the automaton accepts, the
        counters are the log's, and nothing was ever orphaned. */
    ghost predicate Valid()
      reads this`log, this`totalCollections, this`errorCount, this`monitor, client, client.qm, monitor
    {
      Accounted() && Logged()
    }

    ghost predicate Accounted()
      reads this`monitor, client, client.qm, monitor
    {
      && client.Valid() && client.orphaned == multiset{}
      && (monitor == null ==> client.lent == multiset{})
      && (monitor != null ==> monitor.client == client && monitor.Valid() && monitor.others == multiset{})
    }

    ghost predicate Logged()
      reads this`log, this`totalCollections, this`errorCount, client`statsOpen, client`acctOpen
    {
      && PhaseOf(log) != Stray
      && totalCollections == Count(log, Cycle(true)) && errorCount == Count(log, Cycle(false))
      && (!PhaseOf(log).Collecting? ==> !client.statsOpen && !client.acctOpen)
    }

    constructor (c: Config, manager: QueueManager.Manager, surroundings: seq<Tick>)
      requires manager.Valid() && manager.held == multiset{}
      ensures Valid() && config == c && client.qm == manager && fresh(client) && monitor == null && !client.connected
      ensures !running && !connectedQmgr && !collectorEnd && !cut && cycleCount == 0 && log == [] && !stopped
      ensures env == surroundings
    {
      hide QueueManager.Sound, Balanced;
      config, monitor := c, null;
      client := new Client(manager);
      running, connectedOnce, connectedQmgr, collectorEnd, cut := false, false, false, false, false;
      cycleCount, totalCollections, errorCount, discoveredQueues := 0, 0, 0, [];
      env, log, stopped := surroundings, [], false;
    }

    /** The monitor is gone, as before, or newly made. */
    twostate predicate MonitorKept()
      reads this
    {
      monitor != null ==> monitor == old(monitor) || fresh(monitor)
    }

    // ----- shutdown -----

    /** `resource_monitor_->close(); resource_monitor_.reset();` */
    method ReleaseMonitor()
      requires Accounted()
      modifies this`monitor, monitor, client`lent, client.qm
      ensures Accounted() && monitor == null
    {
      hide QueueManager.Sound, Client.BalanceAt, Client.Booked, AllReal;
      if monitor != null {
        monitor.Close();
        monitor := null;
      }
    }

    /** Close the monitor, then disconnect: nothing stays live but handles whose close failed. */
    method Release()
      requires Accounted()
      modifies this`monitor, monitor, client, client.qm
      ensures Accounted() && monitor == null && !client.connected && !client.statsOpen && !client.acctOpen
      ensures client.qm.held == multiset{}
    {
      hide QueueManager.Sound, Client.BalanceAt, Client.Booked, AllReal;
      ReleaseMonitor();
      client.Disconnect();
    }

    /** Without effect when not running, so also after a run that ended by itself. */
    method Stop()
      requires Valid()
      modifies this`running, this`collectorEnd, this`stopped, this`monitor, monitor, client, client.qm
      ensures Valid() && (monitor == old(monitor) || monitor == null) && !running
      ensures !old(running) ==> monitor == old(monitor) && client.qm.log == old(client.qm.log) &&
                                stopped == old(stopped) && collectorEnd == old(collectorEnd)
      ensures old(running) ==> collectorEnd && stopped && monitor == null && client.qm.held == multiset{}
      ensures client.connected ==> old(client.connected)
    {
      hide QueueManager.Sound, Client.BalanceAt, Client.Booked, AllReal;
      if !running {
        return;
      }
      running, collectorEnd, stopped := false, true, true;
      Release();
    }

    /** The destructors: `stop()`, then the monitor's and the client's own clean-up. Whatever happened before,
        every handle has been closed or its close has failed. */
    method Destroy()
      requires Valid()
      modifies this`running, this`collectorEnd, this`stopped, this`monitor, monitor, client, client.qm
      ensures Valid() && monitor == null && !running
      ensures client.qm.Live() == client.qm.stranded
      ensures client.qm.closeFailures == 0 ==> client.qm.Live() == multiset{}
    {
      hide QueueManager.Sound, Client.BalanceAt, Client.Booked, AllReal;
      Stop();
      Release();
      assert multiset{} + client.qm.stranded == client.qm.stranded;
    }

    // ----- observation points -----

    method NextTick() returns (t: Tick)
      modifies this`env, this`cut
      ensures t == HeadTick(old(env)) && env == TailTicks(old(env)) && cut == (old(cut) || old(env) == [])
      ensures |env| <= |old(env)| && (cut || |env| < |old(env)|) && (old(cut) ==> cut)
    {
      if env == [] {
        cut, t := true, NO_TICK;
      } else {
        t, env := env[0], env[1..];
      }
    }

    /** Where the source loads `running_`: a stop from another thread may have been carried out by now. */
    method Poll()
      requires Valid()
      modifies this`env, this`cut, this`running, this`collectorEnd, this`stopped, this`monitor, monitor, client, client.qm
      ensures Valid() && (monitor == old(monitor) || monitor == null) && (running ==> old(running))
      ensures |env| <= |old(env)| && (cut || |env| < |old(env)|) && (old(cut) ==> cut)
      ensures (old(collectorEnd) ==> collectorEnd) && (old(stopped) ==> stopped)
      ensures old(running) ==> running || stopped
      ensures old(running) && running ==> collectorEnd == old(collectorEnd)
      ensures env == TailTicks(old(env)) && cut == (old(cut) || old(env) == [])
      ensures client.connected ==> old(client.connected)
      ensures !HeadTick(old(env)).stop ==>
                running == old(running) && stopped == old(stopped) && collectorEnd == old(collectorEnd)
    {
      hide QueueManager.Sound, Client.BalanceAt, Client.Booked, AllReal, PhaseOf, Count;
      var t := NextTick();
      if t.stop {
        Stop();
      }
    }

    /** The interruptible sleeps. */
    method Wait(steps: nat)
      requires Valid()
      modifies this`env, this`cut, this`running, this`collectorEnd, this`stopped, this`monitor, monitor, client, client.qm
      ensures Valid() && (monitor == old(monitor) || monitor == null) && (running ==> old(running)) && |env| <= |old(env)|
      ensures (old(collectorEnd) ==> collectorEnd) && (old(stopped) ==> stopped) && (old(cut) ==> cut)
      ensures old(running) ==> running || stopped
      ensures old(running) && running ==> collectorEnd == old(collectorEnd)
      ensures client.connected ==> old(client.connected)
      ensures steps == 0 ==> env == old(env) && running == old(running) && stopped == old(stopped) && cut == old(cut)
    {
      hide QueueManager.Sound, Client.BalanceAt, Client.Booked, AllReal, PhaseOf, Count;
      for i := 0 to steps
        invariant Valid() && (monitor == old(monitor) || monitor == null) && (running ==> old(running)) && |env| <= |old(env)|
        invariant (old(collectorEnd) ==> collectorEnd) && (old(stopped) ==> stopped) && (old(cut) ==> cut)
        invariant old(running) ==> running || stopped
        invariant old(running) && running ==> collectorEnd == old(collectorEnd)
        invariant client.connected ==> old(client.connected)
        invariant i == 0 ==> env == old(env) && running == old(running) && stopped == old(stopped) && cut == old(cut)
      {
        Poll();
        if !running {
          break;
        }
      }
    }

    // ----- connection and set-up -----

    method ConnectClient() returns (ok: bool)
      requires Accounted()
      modifies client`connected, client`platform, client.qm
      ensures Accounted() && (ok ==> client.connected)
      ensures ok == (old(client.connected) || QueueManager.Ahead(old(client.qm.script), 0).ok)
      ensures !old(client.connected) ==>
                client.qm.script == QueueManager.Skip(old(client.qm.script), ConnectAnswers(old(client.qm.script)))
    {
      hide QueueManager.Sound, QueueManager.Ahead, QueueManager.Skip, ConnectAnswers, Platform, Client.BalanceAt,
           Client.Booked, AllReal;
      ok := client.Connect();
    }

    method TryConnect() returns (ok: bool)
      requires Valid() && PhaseOf(log).Waiting?
      modifies this`connectedQmgr, this`connectedOnce, this`log, client`connected, client`platform, client.qm
      ensures Valid() && log == old(log) + [if ok then Connected else ConnectFailed]
      ensures connectedQmgr == ok && (ok ==> client.connected)
      ensures ok == (old(client.connected) || QueueManager.Ahead(old(client.qm.script), 0).ok)
      ensures !old(client.connected) ==>
                client.qm.script == QueueManager.Skip(old(client.qm.script), ConnectAnswers(old(client.qm.script)))
    {
      hide Accounted, PhaseOf, Count, QueueManager.Ahead, QueueManager.Skip, ConnectAnswers;
      LogAppend(log, Connected);
      LogAppend(log, ConnectFailed);
      ok := ConnectClient();
      connectedQmgr := ok;
      if ok {
        connectedOnce := true;
      }
      log := log + [if ok then Connected else ConnectFailed];
    }

    method DiscoverPattern(pattern: Buffer) returns (ghost responses: seq<Buffer>)
      requires Accounted()
      modifies this`discoveredQueues, client`trace, client.qm
      ensures Accounted() && client.trace == old(client.trace) + [Commanded(QueuesCommand(pattern), responses)]
      ensures discoveredQueues == old(discoveredQueues) + NamesDiscovered(responses)
    {
      hide QueueManager.Sound, Client.BalanceAt, Client.Booked, AllReal, NamesDiscovered, CommandResponses, CommandCalls,
           QueuesCommand;
      var queues;
      queues, responses := client.DiscoverQueues(pattern);
      discoveredQueues := discoveredQueues + queues;
    }

    /** One inquiry for every pattern that is not an `!` pattern, and all the queues they find, in order. */
    method DiscoverQueues() returns (ghost answers: seq<seq<Buffer>>)
      requires Accounted()
      modifies this`discoveredQueues, client`trace, client.qm
      ensures Accounted()
      ensures Inquired(old(client.trace), old(discoveredQueues), Patterns(config.monitoredQueues), answers,
                       client.trace, discoveredQueues)
      ensures config.monitoredQueues == [] ==> client.qm.script == old(client.qm.script)
    {
      hide Accounted, Inquired, Patterns, QueuesCommand, NamesDiscovered;
      answers := [];
      var patterns := config.monitoredQueues;
      NothingAsked();
      InquiredNothing(client.trace, discoveredQueues);
      for i := 0 to |patterns|
        invariant Accounted()
        invariant Inquired(old(client.trace), old(discoveredQueues), Patterns(patterns[..i]), answers,
                           client.trace, discoveredQueues)
        invariant i == 0 ==> client.qm.script == old(client.qm.script)
      {
        PatternStep(patterns, i);
        var pattern := patterns[i];
        if pattern != [] && pattern[0] == 33 {
          assert Patterns(patterns[..i]) + [] == Patterns(patterns[..i]);
          continue;
        }
        ghost var trace, queues := client.trace, discoveredQueues;
        ghost var responses := DiscoverPattern(pattern);
        InquiredStep(old(client.trace), old(discoveredQueues), Patterns(patterns[..i]), answers, trace, queues, pattern, responses);
        answers := answers + [responses];
      }
      assert patterns[..|patterns|] == patterns;
    }

    lemma NothingAsked()
      ensures Patterns([]) == [] && Subscriptions([], []) == [] && Made([]) == []
    {
    }

    method SubscribeTopic(topic: Buffer) returns (ghost h: SubHandle)
      requires Accounted()
      modifies client`subscriptions, client`trace, client.qm
      ensures Accounted() && client.trace == old(client.trace) + [Requested(topic, h)]
      ensures client.subscriptions == old(client.subscriptions) + if h.hobj != 0 then [h] else []
    {
      hide QueueManager.Sound, Client.BalanceAt, Client.Booked, AllReal, PairMadeBy, PairCalls;
      var ok;
      ok, h := client.SubscribeToTopic(topic);
      assert old(client.subscriptions) + [] == old(client.subscriptions);
    }

    /** One attempt per configured topic, in order; the client records exactly those that were made. */
    method SubscribeTopics() returns (ghost results: seq<SubHandle>)
      requires Accounted()
      modifies client`subscriptions, client`trace, client.qm
      ensures Accounted() && |results| == |config.monitoredTopics|
      ensures client.trace == old(client.trace) + Subscriptions(config.monitoredTopics, results)
      ensures client.subscriptions == old(client.subscriptions) + Made(results)
      ensures config.monitoredTopics == [] ==> client.qm.script == old(client.qm.script)
    {
      hide Accounted, Patterns, Subscriptions, Made;
      results := [];
      var topics := config.monitoredTopics;
      ghost var trace0, subs0 := client.trace, client.subscriptions;
      NothingAsked();
      assert trace0 + [] == trace0 && subs0 + [] == subs0;
      for i := 0 to |topics|
        invariant Accounted() && |results| == i
        invariant client.trace == trace0 + Subscriptions(topics[..i], results)
        invariant client.subscriptions == subs0 + Made(results)
        invariant i == 0 ==> client.qm.script == old(client.qm.script)
      {
        ghost var calls, made := Subscriptions(topics[..i], results), Made(results);
        ghost var h := SubscribeTopic(topics[i]);
        assert topics[..i + 1] == topics[..i] + [topics[i]];
        OneMoreSubscription(topics[..i], results, topics[i], h);
        OneMoreMade(results, h);
        ghost var one := if h.hobj != 0 then [h] else [];
        assert trace0 + calls + [Requested(topics[i], h)] == trace0 + (calls + [Requested(topics[i], h)]);
        assert subs0 + made + one == subs0 + (made + one);
        results := results + [h];
      }
      assert topics[..|topics|] == topics;
    }

    /** A monitor is kept exactly when discovery finds classes. Its attempts are the plan for those classes and the
        queues discovered before, and it records exactly those that succeed; without it nothing stays borrowed. */
    method SetupMonitor() returns (ghost found: MonitorCatalog.Answers, ghost results: seq<SubHandle>)
      requires Accounted() && monitor == null
      modifies this`monitor, client`lent, client`trace, client.qm
      ensures Accounted() && MonitorSet(found, results, discoveredQueues)
      ensures client.trace == old(client.trace) + MonitorCalls(config.queueManager, found, results, discoveredQueues)
      ensures monitor != null ==> fresh(monitor)
    {
      hide QueueManager.Sound, Client.BalanceAt, Client.Booked, AllReal, MonitorCatalog.Agrees, MonitorCatalog.Entries,
           MonitorCatalog.Talk, MonitorCatalog.Discovered, MonitorCatalog.Consistent, SubscriptionPlan.LentTo,
           SubscriptionPlan.Plan, SubscriptionPlan.Recorded, SubscriptionPlan.Requests, ClosesOf, SubscriptionPlan.Handles;
      var m := new Monitor(client, config.queueManager);
      var ok;
      ok, found := m.Discover();
      results := [];
      ghost var before, talk := old(client.trace), MonitorCatalog.Talk(config.queueManager, found);
      assert [] + MonitorCatalog.Discovered(found) == MonitorCatalog.Discovered(found);
      if ok {
        var some;
        some, results := m.CreateSubscriptions(discoveredQueues);
        ghost var requests := SubscriptionPlan.Requests(SubscriptionPlan.Plan(m.classes, discoveredQueues), results);
        assert before + talk + requests == before + (talk + requests);
        assert m.dataSubs == SubscriptionPlan.Recorded(SubscriptionPlan.Plan(m.classes, discoveredQueues), results);
        monitor := m;
      } else {
        assert talk + [] == talk;
        m.Close();
      }
    }

    ghost predicate MonitorSet(found: MonitorCatalog.Answers, results: seq<SubHandle>, queues: seq<Buffer>)
      reads this`monitor, monitor
    {
      && MonitorCatalog.Consistent(found) && Planned(found, results, queues)
      && (monitor != null <==> FindsClasses(found))
      && (monitor != null ==>
            && monitor.classes == MonitorCatalog.Discovered(found)
            && monitor.dataSubs == SubscriptionPlan.Recorded(SubscriptionPlan.Plan(monitor.classes, queues), results))
    }

    /** Both opens may fail; on clear flags neither orphans a handle. */
    method OpenQueues()
      requires Accounted() && client.connected && !client.statsOpen && !client.acctOpen
      modifies client`statsOpen, client`statsQueue, client`acctOpen, client`acctQueue, client`orphaned, client`trace, client.qm
      ensures Accounted() && |client.trace| == |old(client.trace)| + 2 && old(client.trace) <= client.trace
      ensures client.statsOpen == QueueManager.Ahead(old(client.qm.script), 0).ok
      ensures client.acctOpen == QueueManager.Ahead(old(client.qm.script), 1).ok
      ensures client.qm.script == QueueManager.Skip(old(client.qm.script), 2)
      ensures client.trace == old(client.trace) + [OpenedStats(if client.statsOpen then client.statsQueue else 0),
                                                   OpenedAcct(if client.acctOpen then client.acctQueue else 0)]
    {
      hide QueueManager.Sound, QueueManager.Ahead, QueueManager.Skip, Client.BalanceAt, Client.Booked, AllReal;
      QueueManager.SkipSkip(client.qm.script, 1, 0);
      QueueManager.SkipSkip(client.qm.script, 1, 1);
      var stats := client.OpenStatsQueue(config.statsQueue);
      var acct := client.OpenAccountingQueue(config.accountingQueue);
    }

    /** The queues are opened on clear flags only, so no handle is ever orphaned. Then one attempt per topic,
        one inquiry per pattern, and the monitor last, as its subscriptions need the queue list: `opened`, `asked`
        and the present trace are the history after each of these. */
    method SetupAfterConnect()
      returns (ghost opened': seq<Call>, ghost made: seq<SubHandle>, ghost asked: seq<Call>, ghost answers: seq<seq<Buffer>>,
               ghost found: MonitorCatalog.Answers, ghost results: seq<SubHandle>)
      requires Valid() && PhaseOf(log).Joined? && monitor == null && client.connected
      modifies this`monitor, this`discoveredQueues, this`log, client, client.qm
      ensures Valid() && MonitorKept() && log == old(log) + [SetUp] && client.connected
      ensures client.statsOpen == QueueManager.Ahead(old(client.qm.script), 0).ok
      ensures client.acctOpen == QueueManager.Ahead(old(client.qm.script), 1).ok
      ensures opened' == old(client.trace) + [OpenedStats(if client.statsOpen then client.statsQueue else 0),
                                              OpenedAcct(if client.acctOpen then client.acctQueue else 0)]
      ensures |made| == |config.monitoredTopics| && client.subscriptions == old(client.subscriptions) + Made(made)
      ensures Inquired(opened' + Subscriptions(config.monitoredTopics, made), old(discoveredQueues),
                       Patterns(config.monitoredQueues), answers, asked, discoveredQueues)
      ensures if config.usePublications then
                && MonitorSet(found, results, discoveredQueues)
                && client.trace == asked + MonitorCalls(config.queueManager, found, results, discoveredQueues)
              else monitor == null && client.trace == asked
      ensures Quiet() ==> client.qm.script == QueueManager.Skip(old(client.qm.script), 2)
    {
      hide QueueManager.Ahead, QueueManager.Skip, Accounted, PhaseOf, Count, Patterns, Subscriptions, Made, Inquired,
           MonitorSet, MonitorCalls;
      LogAppend(log, SetUp);
      found, results := MonitorCatalog.Answers(NoMessage, []), [];
      OpenQueues();
      opened' := client.trace;
      made := SubscribeTopics();
      answers := DiscoverQueues();
      asked := client.trace;
      if config.usePublications {
        found, results := SetupMonitor();
      }
      log := log + [SetUp];
    }

    /** Nothing to subscribe to, to discover or to monitor. */
    predicate Quiet() {
      config.monitoredTopics == [] && config.monitoredQueues == [] && !config.usePublications
    }

    // ----- collection -----

    /** One request of a cycle. A lost connection is noticed by a read and never made again here. */
    method Serve(r: Request)
      requires Accounted()
      modifies client`connected, client`trace, client.qm
      ensures Accounted() && (client.connected ==> old(client.connected))
      ensures r == FetchAll(Stats) && client.statsOpen && Breaks(QueueManager.Ahead(old(client.qm.script), 0)) ==>
                !client.connected
    {
      hide QueueManager.Sound, QueueManager.Skip, Client.BalanceAt, Client.Booked, AllReal, FetchedFrom, CommandResponses,
           CommandCalls, InquiryCalls, QueueManager.Gets, MonitorCatalog.Agrees, MonitorCatalog.Entries,
           SubscriptionPlan.LentTo, PublicationMetrics.AllMetrics, PublicationMetrics.ReadsOf;
      match r {
        case FetchAll(kind) => var ok, messages := client.GetAllMessages(kind);
        case Inquire(queue, count) => var ok, attrs := client.InquireQueue(queue, count);
        case Command(cmd) => var responses := client.SendPcfCommand(cmd);
        case Publications =>
          if monitor != null && client.connected {
            var metrics, _ := monitor.ProcessPublications();
          }
      }
    }

    /** `collect_metrics` as any sequence of requests; a failed `get_all_messages` is caught inside it. */
    method CollectMetrics(requests: seq<Request>)
      requires Accounted()
      modifies client`connected, client`trace, client.qm
      ensures Accounted() && (client.connected ==> old(client.connected))
      ensures FindsBroken(requests, client.statsOpen, QueueManager.Ahead(old(client.qm.script), 0)) ==> !client.connected
    {
      hide Accounted, QueueManager.Ahead, Breaks;
      for i := 0 to |requests|
        invariant Accounted() && (client.connected ==> old(client.connected))
        invariant i == 0 ==> client.qm.script == old(client.qm.script)
        invariant i > 0 && FindsBroken(requests, client.statsOpen, QueueManager.Ahead(old(client.qm.script), 0)) ==>
                    !client.connected
      {
        Serve(requests[i]);
      }
    }

    /** One cycle: what its tick asks for, its outcome in the counters and the log. A failed cycle on a lost
        connection clears `connected_qmgr_`; nothing in a cycle sets it or connects again. */
    method CollectCycle()
      requires Valid() && PhaseOf(log).Collecting?
      modifies this`env, this`cut, this`connectedQmgr, this`totalCollections, this`errorCount, this`log,
               client`connected, client`trace, client.qm
      ensures Valid() && PhaseOf(log).Collecting? && |env| <= |old(env)| && (old(cut) ==> cut)
      ensures var t := HeadTick(old(env));
              && log == old(log) + [Cycle(t.ok)]
              && env == TailTicks(old(env)) && cut == (old(cut) || old(env) == [])
              && connectedQmgr == (old(connectedQmgr) && (t.ok || client.connected))
              && (FindsBroken(t.requests, client.statsOpen, QueueManager.Ahead(old(client.qm.script), 0)) ==>
                    !client.connected)
      ensures Cycles(log) == old(Cycles(log)) + 1 && (client.connected ==> old(client.connected))
    {
      hide Accounted, PhaseOf, Count, QueueManager.Ahead, FindsBroken;
      var t := NextTick();
      CollectMetrics(t.requests);
      RecordCycle(t.ok);
      if !t.ok && !client.connected {
        connectedQmgr := false;
      }
    }

    /** `total_collections_++`, or `error_count_++` in the exception handler. */
    method RecordCycle(ok: bool)
      requires Logged() && PhaseOf(log).Collecting?
      modifies this`totalCollections, this`errorCount, this`log
      ensures Logged() && log == old(log) + [Cycle(ok)] && PhaseOf(log).Collecting?
      ensures Cycles(log) == old(Cycles(log)) + 1
    {
      hide PhaseOf, Count;
      LogAppend(log, Cycle(ok));
      log := log + [Cycle(ok)];
      if ok {
        totalCollections := totalCollections + 1;
      } else {
        errorCount := errorCount + 1;
      }
    }

    method RunOnce()
      requires Valid() && PhaseOf(log).Collecting?
      modifies this`env, this`cut, this`connectedQmgr, this`totalCollections, this`errorCount, this`log,
               client`connected, client`trace, client.qm
      ensures Valid() && PhaseOf(log).Collecting? && Cycles(log) == old(Cycles(log)) + 1
      ensures |env| <= |old(env)| && (old(cut) ==> cut)
    {
      CollectCycle();
    }

    /** Rediscovery replaces the queue list once its interval has elapsed. */
    method Rediscover()
      requires Valid()
      modifies this`env, this`cut, this`discoveredQueues, client`trace, client.qm
      ensures Valid() && |env| <= |old(env)| && (old(cut) ==> cut)
      ensures (discoveredQueues == old(discoveredQueues) && client.trace == old(client.trace)) ||
              exists answers: seq<seq<Buffer>> ::
                Inquired(old(client.trace), [], Patterns(config.monitoredQueues), answers, client.trace, discoveredQueues)
    {
      hide Accounted, Logged, Patterns, Inquired;
      var t := NextTick();
      if config.rediscover && t.elapsed {
        discoveredQueues := [];
        ghost var answers := DiscoverQueues();
      }
    }

    /** The body of the collection loop up to its cycle: false when it was left before that. */
    method NextCycle() returns (collected: bool)
      requires Valid() && PhaseOf(log).Collecting? && running
      modifies this, monitor, client, client.qm
      ensures Valid() && MonitorKept() && PhaseOf(log).Collecting? && |env| <= |old(env)| && (old(cut) ==> cut)
      ensures cycleCount == old(cycleCount) && (old(stopped) ==> stopped)
      ensures Cycles(log) == old(Cycles(log)) + (if collected then 1 else 0)
      ensures collected ==> running && |log| == |old(log)| + 1 && old(log) < log && log[|old(log)|].Cycle?
      ensures !collected ==> !running || cut
      ensures running || stopped
      ensures (client.connected ==> old(client.connected)) && (connectedQmgr ==> old(connectedQmgr))
      ensures config.interval == 0 && old(env) != [] && !HeadTick(old(env)).stop && !old(cut) ==>
                collected && stopped == old(stopped)
    {
      hide Accounted, Logged, PhaseOf, Cycles, Patterns, Inquired, QueueManager.Ahead;
      Wait(config.interval * 10);
      Poll();
      if !running || cut {
        return false;
      }
      Rediscover();
      CollectCycle();
      return true;
    }

    /** Returns only with `running` false (or where observation ends), so a lost connection never leads out of
        the loop. With a cycle limit N the initial cycle comes on top: N + 1 cycles unless stopped earlier. */
    method RunContinuous()
      requires Valid() && PhaseOf(log).Collecting? && Cycles(log) == 0 && cycleCount == 0
      modifies this, monitor, client, client.qm
      ensures Valid() && MonitorKept() && PhaseOf(log).Collecting? && |env| <= |old(env)| && (old(cut) ==> cut)
      ensures !running || cut
      ensures config.maxCycles > 0 ==> Cycles(log) <= config.maxCycles + 1
      ensures old(running) && !cut && !stopped ==> config.maxCycles > 0 && Cycles(log) == config.maxCycles + 1
      ensures old(stopped) ==> stopped
      ensures (client.connected ==> old(client.connected)) && (connectedQmgr ==> old(connectedQmgr))
    {
      hide Valid, PhaseOf, Cycles, QueueManager.Ahead;
      CollectCycle();
      Poll();
      while running && !cut
        invariant Valid() && MonitorKept() && PhaseOf(log).Collecting? && |env| <= |old(env)| && (old(cut) ==> cut)
        invariant (running ==> old(running)) && (old(stopped) ==> stopped)
        invariant (client.connected ==> old(client.connected)) && (connectedQmgr ==> old(connectedQmgr))
        invariant cycleCount >= 0 && Cycles(log) == cycleCount + 1
        invariant running && config.maxCycles > 0 ==> cycleCount < config.maxCycles
        invariant config.maxCycles > 0 ==> cycleCount <= config.maxCycles
        invariant old(running) && !running && !stopped ==> config.maxCycles > 0 && cycleCount == config.maxCycles
        decreases |env|, !cut
      {
        var collected := NextCycle();
        if !collected {
          break;
        }
        cycleCount := cycleCount + 1;
        if config.maxCycles > 0 && cycleCount >= config.maxCycles {
          running := false;
          break;
        }
        Poll();
      }
    }

    /** What a run has achieved when nothing was cut off. */
    ghost predicate Accomplished()
      reads this`log, this`cut, this`stopped
    {
      && (config.continuous && config.maxCycles > 0 ==> Cycles(log) <= config.maxCycles + 1)
      && (!config.continuous ==> Cycles(log) == if PhaseOf(log).Collecting? then 1 else 0)
      && (config.continuous && PhaseOf(log).Collecting? && !cut && !stopped ==>
            config.maxCycles > 0 && Cycles(log) == config.maxCycles + 1)
    }

    /** Every run of a fresh collector, with stops and failures anywhere: the counters add up to the completed
        cycles, the limit holds, and the log is one the automaton accepts. Without `keep_running` one
        connection attempt decides whether anything is collected; with it, only a stop or the end of observation prevents it. */
    method Start()
      requires Valid() && log == [] && !connectedQmgr && !collectorEnd && cycleCount == 0 && monitor == null
      modifies this, client, client.qm
      ensures Valid() && MonitorKept()
      ensures totalCollections + errorCount == Cycles(log)
      ensures Accomplished()
      ensures !old(running) && !config.keepRunning ==>
                (PhaseOf(log).Collecting? <==> old(client.connected) || QueueManager.Ahead(old(client.qm.script), 0).ok)
      ensures !old(running) && config.keepRunning && !cut && !stopped ==> PhaseOf(log).Collecting?
    {
      hide Accounted, PhaseOf, Count, Accomplished, QueueManager.Ahead, QueueManager.Skip, ConnectAnswers;
      EmptyLog();
      if running {
        NothingCollected();
        return;
      }
      running := true;
      if config.keepRunning {
        KeepRunning();
      } else {
        var ok := ConnectAndSetUp();
        if !ok {
          running := false;
          NothingCollected();
          return;
        }
        Collect();
      }
    }

    lemma NothingCollected()
      requires !PhaseOf(log).Collecting? && Cycles(log) == 0
      ensures Accomplished()
    {
    }

    /** `run_continuous` or `run_once`. */
    method Collect()
      requires Valid() && PhaseOf(log).Collecting? && Cycles(log) == 0 && cycleCount == 0
      requires running || stopped
      modifies this, monitor, client, client.qm
      ensures Valid() && MonitorKept() && PhaseOf(log).Collecting? && Accomplished()
      ensures |env| <= |old(env)| && (old(cut) ==> cut) && (old(stopped) ==> stopped)
      ensures config.continuous ==> !running || cut
    {
      hide Accounted, Logged, PhaseOf, Cycles;
      if config.continuous {
        RunContinuous();
      } else {
        RunOnce();
      }
    }

    /** The reconnection loop. The block that would reconnect, behind the collection, is never reached. */
    method KeepRunning()
      requires Valid() && PhaseOf(log).Waiting? && Cycles(log) == 0 && cycleCount == 0
      requires running && !collectorEnd && !connectedQmgr && monitor == null
      modifies this, client, client.qm
      ensures Valid() && MonitorKept() && Accomplished()
      ensures !cut && !stopped ==> PhaseOf(log).Collecting?
    {
      hide Accounted, Logged, PhaseOf, Cycles;
      Poll();
      while running && !collectorEnd && !cut
        invariant Valid() && MonitorKept() && Accomplished()
        invariant cut || stopped || PhaseOf(log).Collecting? || (running && !collectorEnd)
        invariant running && !collectorEnd && !cut ==>
                    PhaseOf(log).Waiting? && Cycles(log) == 0 && cycleCount == 0 && !connectedQmgr && monitor == null
        decreases |env|, !cut
      {
        Poll();
        if !connectedQmgr {
          var ok := ConnectAndSetUp();
          if !ok {
            Wait(config.reconnectInterval * 10);
            Poll();
            continue;
          }
        }
        Collect();
        if !config.continuous {
          collectorEnd := true;
        }
        Poll();
        if running && !collectorEnd && !cut {
          assert false;
        }
      }
    }

    method ConnectAndSetUp() returns (ok: bool)
      requires Valid() && PhaseOf(log).Waiting? && Cycles(log) == 0 && monitor == null
      modifies this`connectedQmgr, this`connectedOnce, this`monitor, this`discoveredQueues, this`log, client, client.qm
      ensures Valid() && MonitorKept() && Cycles(log) == 0 && connectedQmgr == ok
      ensures if ok then PhaseOf(log).Collecting? else PhaseOf(log).Waiting? && monitor == null
      ensures log == old(log) + if ok then [Connected] + [SetUp] else [ConnectFailed]
      ensures ok == (old(client.connected) || QueueManager.Ahead(old(client.qm.script), 0).ok)
      ensures !old(client.connected) && ok && Quiet() ==>
                var n := ConnectAnswers(old(client.qm.script));
                && client.statsOpen == QueueManager.Ahead(old(client.qm.script), n).ok
                && client.qm.script == QueueManager.Skip(old(client.qm.script), n + 2)
    {
      hide QueueManager.Ahead, QueueManager.Skip, ConnectAnswers, Accounted, Logged, PhaseOf, Count, Cycles, Patterns,
           Subscriptions, Made, Inquired, MonitorSet, MonitorCalls;
      ConnectionLog(log);
      ghost var script, log0 := client.qm.script, log;
      ok := TryConnect();
      QueueManager.SkipSkip(script, ConnectAnswers(script), 0);
      QueueManager.SkipSkip(script, ConnectAnswers(script), 2);
      if ok {
        ghost var opened', made, asked, answers, found, results := SetupAfterConnect();
        assert log0 + [Connected] + [SetUp] == log0 + ([Connected] + [SetUp]);
      }
    }

    lemma EmptyLog()
      ensures PhaseOf([]) == Waiting && Cycles([]) == 0
    {
    }
  }

  const QUIET_CONFIG := Config(true, true, false, 0, 0, 0, false, [], [], [], [], [])
  const BROKEN := QueueManager.Reply(false, QueueManager.ConnectionBroken, 0, [], [])
  const ACCEPTED := QueueManager.Reply(true, QueueManager.OtherReason, 0, [], [])

  const BREAKING_SCRIPT := [ACCEPTED, QueueManager.NO_REPLY, ACCEPTED, QueueManager.NO_REPLY, BROKEN]

  lemma BreakingScript()
    ensures QueueManager.Ahead(BREAKING_SCRIPT, 0).ok && ConnectAnswers(BREAKING_SCRIPT) == 2
    ensures QueueManager.Ahead(BREAKING_SCRIPT, 2).ok && QueueManager.Skip(BREAKING_SCRIPT, 4) == [BROKEN]
    ensures Breaks(QueueManager.Ahead([BROKEN], 0))
  {
    assert QueueManager.Skip(BREAKING_SCRIPT, 1) == BREAKING_SCRIPT[1..];
  }

  /** The steps of a continuous run whose first cycle finds the connection broken: the cycle fails, the run stays
      up and collects again, and no connection is attempted any more. */
  method LostConnectionGoesOn() returns (e: Exporter)
    ensures e.Valid() && e.running && !e.stopped && !e.client.connected && !e.connectedQmgr
    ensures |e.log| == 4 && e.log[..3] == [Connected, SetUp, Cycle(false)] && e.log[3].Cycle?
  {
    hide QueueManager.Sound, Client.BalanceAt, Client.Booked, AllReal, PhaseOf, Count, QueueManager.Ahead,
         QueueManager.Skip, ConnectAnswers, Breaks, Cycles;
    BreakingScript();
    var manager := new QueueManager.Manager(BREAKING_SCRIPT);
    assert manager.held == multiset{} by {
      assert manager.held <= manager.Live();
    }
    e := new Exporter(QUIET_CONFIG, manager, [Tick(false, false, [FetchAll(Stats)], false), NO_TICK, NO_TICK, NO_TICK]);
    e.EmptyLog();
    e.running := true;
    var ok := e.ConnectAndSetUp();
    e.CollectCycle();
    assert !e.client.connected && e.log == [Connected, SetUp, Cycle(false)];
    var collected := e.NextCycle();
  }

  /** One life of the exporter as `run_collector` drives it: construct, start, stop, destroy. Whatever the
      configuration, the answers of the queue manager, the stops and the failures, nothing stays live but
      handles whose close failed. */
  method RunCollector(config: Config, replies: seq<QueueManager.Reply>, surroundings: seq<Tick>)
    returns (collector: Exporter, manager: QueueManager.Manager)
    ensures collector.Valid() && collector.client.qm == manager
    ensures manager.Live() == manager.stranded
    ensures manager.closeFailures == 0 ==> manager.Live() == multiset{}
    ensures PhaseOf(collector.log) != Stray
    ensures collector.totalCollections + collector.errorCount == Cycles(collector.log)
  {
    hide QueueManager.Sound, Client.BalanceAt, Client.Booked, AllReal, PhaseOf, Count;
    manager := new QueueManager.Manager(replies);
    assert manager.held == multiset{} by {
      assert manager.held <= manager.Live();
    }
    collector := new Exporter(config, manager, surroundings);
    collector.Start();
    collector.Stop();
    collector.Destroy();
  }
}
