/** Any sequence of public calls on a client and its monitor, by them and by other callers, in any order,
    whichever MQ calls fail. */
module LedgerRuns {
  import opened Bytes
  import opened HandleLedger
  import opened QueueManager
  import opened MQAnswers
  import opened MQClient
  import opened SubscriptionPlan
  import opened ResourceMonitor
  import MonitorCatalog
  import PublicationMetrics

  /** The last three are calls of other callers, on their own subscriptions: `loan` counts into those. */
  datatype Op =
    | Connect
    | Disconnect
    | OpenStats(queue: Buffer)
    | OpenAccounting(queue: Buffer)
    | GetMessage(kind: QueueType)
    | GetAllMessages(kind: QueueType)
    | InquireQueue(queue: Buffer, count: nat)
    | SendPcfCommand(cmd: Buffer)
    | DiscoverQueues(pattern: Buffer)
    | SubscribeToTopic(topic: Buffer)
    | ReceivePublications
    | SubscribeAndGet(topic: Buffer)
    | UnsubscribeAll
    | Discover
    | CreateSubscriptions(queues: seq<Buffer>)
    | ProcessPublications
    | CloseMonitor
    | CreateSubscription(topic: Buffer)
    | GetMessagesFromHandle(loan: nat)
    | CloseSubscription(loan: nat)

  /** Every live handle, counted once: open queues, the client's and the monitor's subscriptions, those of other
      callers, handles lost by reopening a queue, and handles whose close failed. */
  lemma Conservation(m: Monitor)
    requires m.Valid()
    ensures var c := m.client;
            c.qm.Live() == Opened(c.statsOpen, c.statsQueue) + Opened(c.acctOpen, c.acctQueue) +
                           HandlesOf(c.subscriptions) + (LentTo(m.dataSubs) + m.others) + c.orphaned + c.qm.stranded
  {
    hide Opened, HandlesOf, LentTo, BooksOf, AllReal, MonitorCatalog.Agrees, MonitorCatalog.Entries;
  }

  /** In every valid state: some handle was lost exactly when the history opens a queue, and opens it again with
      no disconnection in between. */
  lemma OrphansFromHistory(c: Client)
    requires c.Valid()
    ensures c.orphaned != multiset{} <==> Reopened(c.trace)
  {
    hide BooksOf, Opened, HandlesOf, AllReal, Reopened;
    OrphansMeanReopened(c.trace);
  }

  // ----- one call -----

  /** The call opens a queue whose flag is set, while connected, and MQOPEN is going to succeed. */
  predicate Reopening(c: Client, op: Op)
    reads c, c.qm
  {
    && c.connected && Ahead(c.qm.script, 0).ok
    && ((op.OpenStats? && c.statsOpen) || (op.OpenAccounting? && c.acctOpen))
  }

  /** What every call does to the flags and to the orphans. */
  twostate predicate Progress(c: Client, op: Op)
    reads c
  {
    && (c.statsOpen ==> (old(c.statsOpen) || op.OpenStats?) && !op.Disconnect?)
    && (c.acctOpen ==> (old(c.acctOpen) || op.OpenAccounting?) && !op.Disconnect?)
    && (if old(Reopening(c, op)) then old(c.orphaned) < c.orphaned else c.orphaned == old(c.orphaned))
  }

  predicate OnMonitor(op: Op) {
    op.Discover? || op.CreateSubscriptions? || op.ProcessPublications? || op.CloseMonitor?
  }

  predicate OnConnection(op: Op) {
    op.Connect? || op.Disconnect? || op.OpenStats? || op.OpenAccounting?
  }

  predicate OnLoan(op: Op) {
    op.CreateSubscription? || op.GetMessagesFromHandle? || op.CloseSubscription?
  }

  method MonitorStep(m: Monitor, op: Op)
    requires m.Valid() && OnMonitor(op)
    modifies m`classes, m`typeElements, m`dataSubs, m.client`lent, m.client`trace, m.client.qm
    ensures m.Valid()
  {
    hide QueueManager.Sound, Client.BalanceAt, Client.Booked, AllReal, LentTo, MonitorCatalog.Agrees, MonitorCatalog.Entries,
         MonitorCatalog.Talk, MonitorCatalog.Discovered, MonitorCatalog.Consistent, Plan, Recorded, Requests, ClosesOf,
         Handles, PublicationMetrics.AllMetrics, PublicationMetrics.ReadsOf;
    match op {
      case Discover => var ok, _ := m.Discover();
      case CreateSubscriptions(queues) => var ok, _ := m.CreateSubscriptions(queues);
      case ProcessPublications => var metrics, _ := m.ProcessPublications();
      case CloseMonitor => m.Close();
    }
  }

  method ConnectionStep(c: Client, op: Op)
    requires c.Valid() && OnConnection(op)
    modifies c, c.qm
    ensures c.Valid() && c.lent == old(c.lent) && Progress(c, op)
  {
    hide QueueManager.Sound, Client.BalanceAt, Client.Booked, AllReal, Ahead, Skip, ConnectAnswers, Platform, DisconnectCalls;
    match op {
      case Connect => var ok := c.Connect();
      case Disconnect => c.Disconnect();
      case OpenStats(queue) => StatsStep(c, op);
      case OpenAccounting(queue) => AccountingStep(c, op);
    }
  }

  method StatsStep(c: Client, op: Op)
    requires c.Valid() && op.OpenStats?
    modifies c, c.qm
    ensures c.Valid() && c.lent == old(c.lent) && Progress(c, op)
  {
    hide QueueManager.Sound, Client.BalanceAt, Client.Booked, AllReal, Ahead, Skip;
    GrowsByOne(c.orphaned, c.statsQueue);
    var ok := c.OpenStatsQueue(op.queue);
  }

  method AccountingStep(c: Client, op: Op)
    requires c.Valid() && op.OpenAccounting?
    modifies c, c.qm
    ensures c.Valid() && c.lent == old(c.lent) && Progress(c, op)
  {
    hide QueueManager.Sound, Client.BalanceAt, Client.Booked, AllReal, Ahead, Skip;
    GrowsByOne(c.orphaned, c.acctQueue);
    var ok := c.OpenAccountingQueue(op.queue);
  }

  lemma GrowsByOne(m: multiset<int>, h: int)
    ensures m < m + multiset{h}
  {
    assert (m + multiset{h})[h] == m[h] + 1;
  }

  method MessageStep(c: Client, op: Op)
    requires c.Valid() && !OnMonitor(op) && !OnConnection(op) && !OnLoan(op)
    modifies c`connected, c`subscriptions, c`trace, c.qm
    ensures c.Valid()
  {
    hide QueueManager.Sound, Client.BalanceAt, Client.Booked, AllReal, Ahead, Skip, Messages, FetchedFrom, CommandResponses,
         CommandCalls, PairMadeBy, PairCalls, RetainedFrom, RetainedCalls, DrainedAll, DrainCalls, ClosesOf, InquiryCalls,
         QueuesCommand, NamesDiscovered, Gets;
    match op {
      case GetMessage(kind) => var r := c.GetMessage(kind);
      case GetAllMessages(kind) => var ok, messages := c.GetAllMessages(kind);
      case InquireQueue(queue, count) => var ok, attrs := c.InquireQueue(queue, count);
      case SendPcfCommand(cmd) => var responses := c.SendPcfCommand(cmd);
      case DiscoverQueues(pattern) => var queues, _ := c.DiscoverQueues(pattern);
      case SubscribeToTopic(topic) => var ok, _ := c.SubscribeToTopic(topic);
      case ReceivePublications => var messages := c.ReceivePublications();
      case SubscribeAndGet(topic) => var r := c.SubscribeAndGet(topic);
      case UnsubscribeAll => c.UnsubscribeAll();
    }
  }

  /** A call of another caller on its own subscriptions `loans`; an index beyond them is no call. */
  method LoanStep(m: Monitor, loans: seq<SubHandle>, op: Op) returns (loans': seq<SubHandle>)
    requires m.Valid() && m.others == HandlesOf(loans) && OnLoan(op)
    modifies m`others, m.client`lent, m.client`trace, m.client.qm
    ensures m.Valid() && m.others == HandlesOf(loans')
  {
    hide QueueManager.Sound, Client.BalanceAt, Client.Booked, AllReal, LentTo, HandlesOf, Pair, PairMadeBy, PairCalls, Drained,
         CloseCalls, MonitorCatalog.Agrees, MonitorCatalog.Entries, Gets;
    loans' := loans;
    match op {
      case CreateSubscription(topic) =>
        var ok, hobj, hsub := m.client.CreateSubscription(topic);
        HandlesOfAppend(loans, SubHandle(hobj, hsub));
        Monitor.Regroup(LentTo(m.dataSubs), m.others, Pair(hobj, hsub));
        loans' := loans + [SubHandle(hobj, hsub)];
        m.others := m.others + Pair(hobj, hsub);
      case GetMessagesFromHandle(loan) =>
        if loan < |loans| {
          LoanedQueue(m, loans, loan);
          var messages := m.client.GetMessagesFromHandle(loans[loan].hobj);
        }
      case CloseSubscription(loan) =>
        if loan < |loans| {
          HandlesOfRemoved(loans, loan);
          loans' := loans[..loan] + loans[loan + 1..];
          var pair := loans[loan];
          Exchange(LentTo(m.dataSubs), Pair(pair.hobj, pair.hsub), HandlesOf(loans'));
          m.client.CloseSubscription(pair.hsub, pair.hobj, LentTo(m.dataSubs) + HandlesOf(loans'));
          m.others := HandlesOf(loans');
        }
    }
  }

  lemma Exchange(a: multiset<int>, b: multiset<int>, c: multiset<int>)
    ensures a + (b + c) == b + (a + c)
  {
  }

  lemma LoanedQueue(m: Monitor, loans: seq<SubHandle>, i: nat)
    requires m.Accounted() && m.others == HandlesOf(loans) && i < |loans|
    ensures loans[i].hobj != 0 ==> loans[i].hobj in m.client.lent
  {
    hide HandlesOf, LentTo;
    if loans[i].hobj != 0 {
      RecordedQueue(loans, i);
    }
  }

  /** Every public call keeps the ledger. A handle is lost exactly when the call opens a queue whose flag is set,
      while connected, and MQOPEN succeeds. */
  method Step(m: Monitor, loans: seq<SubHandle>, op: Op) returns (loans': seq<SubHandle>)
    requires m.Valid() && m.others == HandlesOf(loans)
    modifies m, m.client, m.client.qm
    ensures m.Valid() && m.others == HandlesOf(loans') && Progress(m.client, op)
  {
    hide QueueManager.Sound, Client.BalanceAt, Client.Booked, AllReal, HandlesOf, LentTo, Ahead,
         MonitorCatalog.Agrees, MonitorCatalog.Entries;
    loans' := loans;
    if OnMonitor(op) {
      MonitorStep(m, op);
    } else if OnConnection(op) {
      ConnectionStep(m.client, op);
    } else if OnLoan(op) {
      loans' := LoanStep(m, loans, op);
    } else {
      MessageStep(m.client, op);
    }
  }

  // ----- runs -----

  predicate SameQueue(a: Op, b: Op) {
    (a.OpenStats? && b.OpenStats?) || (a.OpenAccounting? && b.OpenAccounting?)
  }

  /** Between two opens of the same queue there is a `disconnect()`. */
  predicate Careful(ops: seq<Op>) {
    forall i, j :: 0 <= i < j < |ops| && SameQueue(ops[i], ops[j]) ==> exists k :: i < k < j && ops[k].Disconnect?
  }

  /** The queue of `ops[a]` was opened there, and up to `n` nothing disconnects. */
  predicate OpenSince(ops: seq<Op>, a: int, n: int)
  {
    0 <= a < n <= |ops| && forall k :: a < k < n ==> !ops[k].Disconnect?
  }

  /** Flags that are set go back to an open in `ops[..n]`. */
  ghost predicate Explained(stats: bool, acct: bool, ops: seq<Op>, n: nat) {
    && (stats ==> exists a :: OpenSince(ops, a, n) && ops[a].OpenStats?)
    && (acct ==> exists a :: OpenSince(ops, a, n) && ops[a].OpenAccounting?)
  }

  lemma ExplainedStep(stats: bool, acct: bool, stats': bool, acct': bool, ops: seq<Op>, n: nat)
    requires n < |ops| && Explained(stats, acct, ops, n)
    requires stats' ==> (stats || ops[n].OpenStats?) && !ops[n].Disconnect?
    requires acct' ==> (acct || ops[n].OpenAccounting?) && !ops[n].Disconnect?
    ensures Explained(stats', acct', ops, n + 1)
  {
    if stats' {
      if ops[n].OpenStats? {
        assert OpenSince(ops, n, n + 1);
      } else {
        var a :| OpenSince(ops, a, n) && ops[a].OpenStats?;
        assert OpenSince(ops, a, n + 1);
      }
    }
    if acct' {
      if ops[n].OpenAccounting? {
        assert OpenSince(ops, n, n + 1);
      } else {
        var a :| OpenSince(ops, a, n) && ops[a].OpenAccounting?;
        assert OpenSince(ops, a, n + 1);
      }
    }
  }

  lemma OpenTwice(ops: seq<Op>, a: int, n: int)
    requires OpenSince(ops, a, n) && n < |ops| && SameQueue(ops[a], ops[n])
    ensures !Careful(ops)
  {
    assert 0 <= a < n;
  }

  lemma CarefulNeverReopens(c: Client, ops: seq<Op>, n: nat)
    requires n < |ops| && Explained(c.statsOpen, c.acctOpen, ops, n)
    ensures Careful(ops) ==> !Reopening(c, ops[n])
  {
    hide Careful, Ahead;
    if Reopening(c, ops[n]) {
      var a :| OpenSince(ops, a, n) && SameQueue(ops[a], ops[n]);
      OpenTwice(ops, a, n);
    }
  }

  /** The run up to call `n` started on clear flags; the orphans then were `orphaned0`. */
  ghost predicate OnCourse(c: Client, ops: seq<Op>, n: nat, orphaned0: multiset<int>)
    reads c
  {
    Explained(c.statsOpen, c.acctOpen, ops, n) && (Careful(ops) ==> c.orphaned == orphaned0)
  }

  method RunStep(m: Monitor, loans: seq<SubHandle>, ops: seq<Op>, i: nat, ghost clear: bool, ghost orphaned0: multiset<int>)
    returns (loans': seq<SubHandle>)
    requires m.Valid() && m.others == HandlesOf(loans) && i < |ops|
    requires orphaned0 <= m.client.orphaned && (clear ==> OnCourse(m.client, ops, i, orphaned0))
    modifies m, m.client, m.client.qm
    ensures m.Valid() && m.others == HandlesOf(loans')
    ensures orphaned0 <= m.client.orphaned && (clear ==> OnCourse(m.client, ops, i + 1, orphaned0))
  {
    hide Monitor.Valid, HandlesOf, Careful, Reopening, Explained;
    if clear {
      CarefulNeverReopens(m.client, ops, i);
    }
    ghost var stats, acct := m.client.statsOpen, m.client.acctOpen;
    loans' := Step(m, loans, ops[i]);
    if clear {
      ExplainedStep(stats, acct, m.client.statsOpen, m.client.acctOpen, ops, i);
    }
  }

  /** Over every run the ledger balances. A run whose calls never open the same queue twice without a
      disconnection in between loses no handle, whatever the queue manager answers. */
  method Run(m: Monitor, loans: seq<SubHandle>, ops: seq<Op>) returns (loans': seq<SubHandle>)
    requires m.Valid() && m.others == HandlesOf(loans)
    modifies m, m.client, m.client.qm
    ensures m.Valid() && m.others == HandlesOf(loans')
    ensures Careful(ops) && !old(m.client.statsOpen) && !old(m.client.acctOpen) ==>
              m.client.orphaned == old(m.client.orphaned)
    ensures old(m.client.orphaned) <= m.client.orphaned
  {
    hide Monitor.Valid, HandlesOf, Careful;
    loans' := loans;
    ghost var clear := !m.client.statsOpen && !m.client.acctOpen;
    ghost var orphaned0 := m.client.orphaned;
    for i := 0 to |ops|
      invariant m.Valid() && m.others == HandlesOf(loans')
      invariant orphaned0 <= m.client.orphaned && (clear ==> OnCourse(m.client, ops, i, orphaned0))
    {
      loans' := RunStep(m, loans', ops, i, clear, orphaned0);
    }
  }

  /** Other callers give their subscriptions back. */
  method GiveBack(m: Monitor, loans: seq<SubHandle>)
    requires m.Valid() && m.others == HandlesOf(loans)
    modifies m`others, m.client`lent, m.client`trace, m.client.qm
    ensures m.Valid() && m.others == multiset{}
  {
    hide QueueManager.Sound, Client.BalanceAt, Client.Booked, AllReal, HandlesOf, LentTo, Pair, CloseCalls,
         MonitorCatalog.Agrees, MonitorCatalog.Entries;
    assert loans[0..] == loans;
    for i := 0 to |loans|
      invariant m.Valid() && m.others == HandlesOf(loans[i..])
    {
      HandlesOfNext(loans, i);
      Exchange(LentTo(m.dataSubs), Pair(loans[i].hobj, loans[i].hsub), HandlesOf(loans[i + 1..]));
      m.client.CloseSubscription(loans[i].hsub, loans[i].hobj, LentTo(m.dataSubs) + HandlesOf(loans[i + 1..]));
      m.others := HandlesOf(loans[i + 1..]);
    }
    NoHandles(loans[|loans|..]);
  }

  lemma NoHandles(subs: seq<SubHandle>)
    requires |subs| == 0
    ensures HandlesOf(subs) == multiset{}
  {
  }

  /** After any run from a client whose queues are closed and that has lost nothing, once every subscription is
      given back, `close()` and `disconnect()` leave only lost and stranded handles live. If no close failed,
      nothing is live exactly when the history reopens no queue; a careful run never does. */
  method RunAndClose(m: Monitor, ops: seq<Op>)
    requires m.Valid() && m.others == multiset{} && m.client.orphaned == multiset{}
    requires !m.client.statsOpen && !m.client.acctOpen
    modifies m, m.client, m.client.qm
    ensures m.Valid() && !m.client.connected && m.client.subscriptions == [] && m.dataSubs == []
    ensures m.client.qm.Live() == m.client.orphaned + m.client.qm.stranded
    ensures m.client.qm.closeFailures == 0 ==> (m.client.qm.Live() == multiset{} <==> !Reopened(m.client.trace))
    ensures Careful(ops) ==> !Reopened(m.client.trace)
  {
    hide QueueManager.Sound, Client.BalanceAt, Client.Booked, AllReal, HandlesOf, LentTo, Careful, Reopened, DisconnectCalls,
         ClosesOf, Handles, MonitorCatalog.Agrees, MonitorCatalog.Entries;
    NoHandles([]);
    var loans := Run(m, [], ops);
    GiveBack(m, loans);
    m.Close();
    m.client.Disconnect();
    OrphansFromHistory(m.client);
    assert multiset{} + m.client.orphaned == m.client.orphaned;
    assert m.client.orphaned + multiset{} == m.client.orphaned;
  }

  // ----- a run that loses a handle -----

  const ACCEPTED := Reply(true, OtherReason, 0, [], [])

  lemma NotCareful(queue: Buffer)
    ensures !Careful([Connect, OpenStats(queue), OpenStats(queue)])
  {
    var ops := [Connect, OpenStats(queue), OpenStats(queue)];
    assert SameQueue(ops[1], ops[2]);
  }

  /** Connect, open the statistics queue, open it again, disconnect, every call but the platform inquiry
      accepted: the first handle stays live, and nobody knows it any more. */
  method ReopeningLosesHandle(queue: Buffer) returns (c: Client)
    ensures c.Valid() && !c.connected && !c.statsOpen && c.subscriptions == []
    ensures c.qm.held == c.orphaned && c.orphaned != multiset{} && Reopened(c.trace)
  {
    hide QueueManager.Sound, Client.BalanceAt, Client.Booked, AllReal, DisconnectCalls, Reopened, Platform;
    var script := [ACCEPTED, NO_REPLY, ACCEPTED, ACCEPTED, ACCEPTED, ACCEPTED];
    var manager := new Manager(script);
    NothingHeld(manager);
    c := new Client(manager);
    var connected := c.Connect();
    assert manager.script == script[2..];
    var first := c.OpenStatsQueue(queue);
    var second := c.OpenStatsQueue(queue);
    GrowsByOne(multiset{}, 0);
    assert c.orphaned != multiset{};
    c.Disconnect();
    OrphansFromHistory(c);
    assert multiset{} + c.orphaned == c.orphaned;
  }

  lemma NothingHeld(manager: Manager)
    requires manager.Live() == multiset{}
    ensures manager.held == multiset{}
  {
    assert manager.held <= manager.Live();
  }
}
