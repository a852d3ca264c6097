/** `MQClient`: connection, queue handles and subscriptions, as a ledger over the queue manager's handles. */
module MQClient {
  import opened Bytes
  import opened Text
  import opened HandleLedger
  import opened QueueManager
  import opened MQAnswers
  import PcfInquiry
  import QueueDiscovery

  class Client {
    const qm: Manager
    var connected: bool
    var statsOpen: bool
    var acctOpen: bool
    var statsQueue: int
    var acctQueue: int
    var platform: int32
    var subscriptions: seq<SubHandle>
    /** Handles handed to a caller by `CreateSubscription` and not yet given back. */
    ghost var lent: multiset<int>
    /** Handles overwritten by opening a queue whose flag was already set. */
    ghost var orphaned: multiset<int>
    ghost var trace: seq<Call>

    /** The ledger: every live handle without a failed close is recorded exactly once, as an open queue, in a
        subscription, with a caller, or among the orphans; and queues and orphans are what the history says. */
    ghost predicate Valid()
      reads this, qm
    {
      qm.Valid() && InBalance() && Booked() && AllReal(subscriptions)
    }

    ghost predicate InBalance()
      reads this`statsOpen, this`statsQueue, this`acctOpen, this`acctQueue, this`subscriptions, this`lent, this`orphaned
      reads qm`held
    {
      BalanceAt(qm.held)
    }

    /** The books, as they are, account for the handles `held`. */
    ghost predicate BalanceAt(held: multiset<int>)
      reads this`statsOpen, this`statsQueue, this`acctOpen, this`acctQueue, this`subscriptions, this`lent, this`orphaned
    {
      Balanced(held, Opened(statsOpen, statsQueue), Opened(acctOpen, acctQueue), HandlesOf(subscriptions), lent, orphaned)
    }

    ghost predicate Booked()
      reads this`trace, this`statsOpen, this`statsQueue, this`acctOpen, this`acctQueue, this`orphaned
    {
      BooksOf(trace) == Books(Opened(statsOpen, statsQueue), Opened(acctOpen, acctQueue), orphaned)
    }

    constructor (manager: Manager)
      requires manager.Valid() && manager.held == multiset{}
      ensures Valid() && qm == manager && !connected && !statsOpen && !acctOpen && subscriptions == []
      ensures lent == multiset{} && orphaned == multiset{} && trace == []
    {
      hide Sound, BooksOf;
      NewBooks();
      qm, platform := manager, 0;
      connected, statsOpen, acctOpen, statsQueue, acctQueue, subscriptions := false, false, false, 0, 0, [];
      lent, orphaned, trace := multiset{}, multiset{}, [];
    }

    static lemma NewBooks()
      ensures BooksOf([]) == Books(multiset{}, multiset{}, multiset{})
    {
    }

    /** One more call in the history that leaves the two queues alone. */
    ghost method Note(c: Call)
      requires Booked() && Neutral(c)
      modifies this`trace
      ensures Booked() && trace == old(trace) + [c]
    {
      hide BooksOf, Opened, Neutral;
      BooksNeutral(trace, c);
      trace := trace + [c];
    }

    // ----- connection -----

    /** False stands for the `std::runtime_error` of a failed MQCONNX. */
    method Connect() returns (ok: bool)
      requires Valid()
      modifies this`connected, this`platform, qm
      ensures Valid() && connected == (old(connected) || ok) && qm.held == old(qm.held)
      ensures ok == (old(connected) || Ahead(old(qm.script), 0).ok)
      ensures old(connected) ==> qm.log == old(qm.log) && qm.script == old(qm.script) && platform == old(platform)
      ensures !old(connected) ==> qm.script == Skip(old(qm.script), ConnectAnswers(old(qm.script)))
      ensures !old(connected) ==> old(qm.log) + [Connx] <= qm.log
      ensures !old(connected) && ok ==> platform == Platform(Skip(old(qm.script), 1))
    {
      hide Sound, BalanceAt, Booked, AllReal, Ahead, Skip, Platform, PlatformAnswers;
      if connected {
        return true;
      }
      ghost var script := qm.script;
      ok := EnterConnection();
      if ok {
        connected := true;
        SkipSkip(script, 1, PlatformAnswers(Skip(script, 1)));
        DetectPlatform();
      }
    }

    method EnterConnection() returns (ok: bool)
      requires Valid()
      modifies qm`script, qm`log
      ensures Valid() && ok == Ahead(old(qm.script), 0).ok && qm.script == Skip(old(qm.script), 1)
      ensures qm.log == old(qm.log) + [Connx] && qm.held == old(qm.held)
    {
      hide Sound, BalanceAt, Booked, AllReal, Ahead, Skip;
      ok := qm.Connx();
    }

    /** Open an object for inquiry, inquire `count` attributes, close it. */
    method OpenAndInquire(name: Buffer, count: nat) returns (found: bool, ok: bool, attrs: seq<int32>, ghost h: int)
      requires qm.Valid()
      modifies qm
      ensures qm.Valid() && qm.held == old(qm.held)
      ensures found == Ahead(old(qm.script), 0).ok && ok == (found && Ahead(old(qm.script), 1).ok)
      ensures found ==> attrs == Attributes(Ahead(old(qm.script), 1), count)
      ensures qm.script == Skip(old(qm.script), PlatformAnswers(old(qm.script)))
      ensures qm.log == old(qm.log) + InquiryCalls(old(qm.script), name, h)
    {
      hide Sound, Ahead, Skip, Attributes;
      SkipSkip(qm.script, 1, 0);
      SkipSkip(qm.script, 1, 1);
      SkipSkip(qm.script, 2, 1);
      ok, attrs := false, [];
      var hobj;
      found, hobj := qm.Open(name);
      h := hobj;
      if found {
        TemporaryHandle(old(qm.held), hobj);
        ok, attrs := qm.Inq(hobj, count);
        var closed := qm.Close(hobj);
      }
    }

    /** The queue manager object is closed again; the platform is the inquired one when that is positive. */
    method DetectPlatform()
      requires Valid()
      modifies this`platform, qm
      ensures Valid() && qm.held == old(qm.held) && platform == Platform(old(qm.script))
      ensures qm.script == Skip(old(qm.script), PlatformAnswers(old(qm.script)))
      ensures exists h :: qm.log == old(qm.log) + InquiryCalls(old(qm.script), [], h)
      ensures old(qm.log) <= qm.log
    {
      hide Sound, BalanceAt, Booked, AllReal, Ahead, Skip, PlatformAnswers, Attribute;
      var found, ok, attrs, h := OpenAndInquire([], 1);
      if found && attrs[0] > 0 {
        platform := attrs[0];
      } else {
        platform := LOCAL_PLATFORM;
      }
    }

    /** From any state, whatever fails: every recorded handle is closed once, subscriptions first, and nothing is
        recorded as open or subscribed any more; the only live handles left are those lent out, orphaned or
        stranded. A clean client makes no MQ call. */
    method Disconnect()
      requires Valid()
      modifies this, qm
      ensures Valid() && !connected && !statsOpen && !acctOpen && subscriptions == []
      ensures lent == old(lent) && orphaned == old(orphaned) && qm.held == lent + orphaned
      ensures old(!connected && !statsOpen && !acctOpen && subscriptions == []) ==>
                qm.log == old(qm.log) && trace == old(trace)
      ensures old(connected || statsOpen || acctOpen || subscriptions != []) ==>
                && trace == old(trace) + [Disconnected]
                && qm.log == old(qm.log) + DisconnectCalls(old(subscriptions), old(statsOpen), old(statsQueue),
                                                           old(acctOpen), old(acctQueue))
    {
      hide Sound, BalanceAt, BooksOf, DisconnectCalls;
      var wasConnected := connected;
      if !wasConnected && subscriptions == [] && !statsOpen && !acctOpen {
        CleanLedger();
        return;
      }
      CloseRecorded();
      connected := false;
      EndSession();
      CleanLedger();
      NoCloses();
    }

    method CloseRecorded()
      requires Valid()
      modifies this`subscriptions, this`statsOpen, this`statsQueue, this`acctOpen, this`acctQueue, qm
      ensures qm.Valid() && InBalance() && !statsOpen && !acctOpen && subscriptions == []
      ensures qm.log == old(qm.log) + DisconnectCalls(old(subscriptions), old(statsOpen), old(statsQueue),
                                                      old(acctOpen), old(acctQueue))
    {
      hide Sound, BalanceAt, Booked, AllReal, ClosesOf;
      ghost var log, closes := qm.log, ClosesOf(subscriptions);
      ghost var stats, acct := if statsOpen then [Close(statsQueue)] else [], if acctOpen then [Close(acctQueue)] else [];
      UnsubscribeAll();
      CloseStats();
      CloseAcct();
      var disconnected := qm.Disc();
      assert log + closes + stats + acct + [Disc] == log + (closes + stats + acct + [Disc]);
    }

    /** Both flags are clear in the history too. */
    ghost method EndSession()
      requires BooksOf(trace).orphaned == orphaned && !statsOpen && !acctOpen
      modifies this`trace
      ensures Booked() && trace == old(trace) + [Disconnected]
    {
      hide BooksOf;
      BooksAppend(trace, Disconnected);
      trace := trace + [Disconnected];
    }

    lemma CleanLedger()
      requires InBalance() && !statsOpen && !acctOpen && subscriptions == []
      ensures qm.held == lent + orphaned
    {
      hide Balanced;
      Clean(qm.held, Opened(statsOpen, statsQueue), Opened(acctOpen, acctQueue), HandlesOf(subscriptions), lent, orphaned);
    }

    /** `if (stats_open_) close_queue(stats_queue_)`; the flag is cleared with it here, as no reader of it
        comes between. */
    method CloseStats()
      requires qm.Valid() && InBalance()
      modifies this`statsOpen, this`statsQueue, qm
      ensures qm.Valid() && InBalance() && !statsOpen
      ensures qm.log == old(qm.log) + if old(statsOpen) then [Close(old(statsQueue))] else []
    {
      hide Sound, Balanced, HandlesOf, Opened;
      assert qm.log + [] == qm.log;
      if !statsOpen {
        return;
      }
      OpenedSlot(statsQueue);
      OpenedSlot(0);
      CloseStatsSlot(qm.held, Opened(statsOpen, statsQueue), Opened(acctOpen, acctQueue), HandlesOf(subscriptions), lent,
                     orphaned, statsQueue);
      HeldIsPositive(qm.held, qm.stranded, qm.nextHandle, statsQueue);
      if statsQueue != 0 {
        var closed := qm.Close(statsQueue);
      }
      statsOpen, statsQueue := false, 0;
    }

    method CloseAcct()
      requires qm.Valid() && InBalance()
      modifies this`acctOpen, this`acctQueue, qm
      ensures qm.Valid() && InBalance() && !acctOpen
      ensures qm.log == old(qm.log) + if old(acctOpen) then [Close(old(acctQueue))] else []
    {
      hide Sound, Balanced, HandlesOf, Opened;
      assert qm.log + [] == qm.log;
      if !acctOpen {
        return;
      }
      OpenedSlot(acctQueue);
      OpenedSlot(0);
      CloseAcctSlot(qm.held, Opened(statsOpen, statsQueue), Opened(acctOpen, acctQueue), HandlesOf(subscriptions), lent,
                    orphaned, acctQueue);
      HeldIsPositive(qm.held, qm.stranded, qm.nextHandle, acctQueue);
      if acctQueue != 0 {
        var closed := qm.Close(acctQueue);
      }
      acctOpen, acctQueue := false, 0;
    }

    /** Every recorded pair is closed, in order, and the list is emptied. */
    method UnsubscribeAll()
      requires Valid()
      modifies this`subscriptions, qm
      ensures Valid() && subscriptions == [] && qm.log == old(qm.log) + ClosesOf(old(subscriptions))
    {
      hide Sound, Balanced, Pair, HandlesOf, Opened, ClosesOf, CloseCalls, Booked;
      ghost var stats, acct := Opened(statsOpen, statsQueue), Opened(acctOpen, acctQueue);
      ghost var all := old(qm.log) + ClosesOf(subscriptions);
      assert subscriptions[0..] == subscriptions;
      for i := 0 to |subscriptions|
        invariant subscriptions == old(subscriptions) && qm.Valid()
        invariant qm.log + ClosesOf(subscriptions[i..]) == all
        invariant Balanced(qm.held, stats, acct, HandlesOf(subscriptions[i..]), lent, orphaned)
      {
        var sub := subscriptions[i];
        HandlesOfNext(subscriptions, i);
        ClosesOfNext(subscriptions, i);
        ghost var rest, before := HandlesOf(subscriptions[i + 1..]), qm.log;
        Unsubscribe(qm.held, stats, acct, rest, lent, orphaned, Pair(sub.hobj, sub.hsub));
        ClosePair(sub.hsub, sub.hobj, qm.held - Pair(sub.hobj, sub.hsub));
        assert before + (CloseCalls(sub.hsub, sub.hobj) + ClosesOf(subscriptions[i + 1..])) ==
               before + CloseCalls(sub.hsub, sub.hobj) + ClosesOf(subscriptions[i + 1..]);
      }
      assert subscriptions[|subscriptions|..] == [];
      NoCloses();
      assert qm.log + [] == qm.log;
      subscriptions := [];
    }

    lemma NoCloses()
      ensures ClosesOf([]) == [] && AllReal([])
    {
    }

    /** Close a subscription, then its destination queue, where they are not 0. */
    method ClosePair(hsub: int, hobj: int, ghost rest: multiset<int>)
      requires qm.Valid() && qm.held == Pair(hobj, hsub) + rest
      modifies qm
      ensures qm.Valid() && qm.held == rest && qm.log == old(qm.log) + CloseCalls(hsub, hobj)
    {
      hide Sound, Pair, One;
      PairParts(hobj, hsub, rest);
      CloseOne(hsub, One(hobj) + rest);
      CloseOne(hobj, rest);
      ghost var first, second := if hsub != 0 then [Close(hsub)] else [], if hobj != 0 then [Close(hobj)] else [];
      assert old(qm.log) + first + second == old(qm.log) + (first + second);
    }

    method CloseOne(h: int, ghost rest: multiset<int>)
      requires qm.Valid() && qm.held == One(h) + rest
      modifies qm
      ensures qm.Valid() && qm.held == rest && qm.log == old(qm.log) + if h != 0 then [Close(h)] else []
    {
      hide Sound, One;
      OneStep(h, rest);
      if h != 0 {
        var closed := qm.Close(h);
      } else {
        assert qm.log + [] == qm.log;
      }
    }

    // ----- statistics and accounting queues -----

    /** False stands for the exception: not connected, or MQOPEN failed. Opening a queue that is already
        open succeeds and orphans the handle it overwrites; that is the only way a handle is orphaned. */
    method OpenStatsQueue(name: Buffer) returns (ok: bool)
      requires Valid()
      modifies this`statsOpen, this`statsQueue, this`orphaned, this`trace, qm
      ensures Valid() && statsOpen == (old(statsOpen) || ok) && ok == (connected && Ahead(old(qm.script), 0).ok)
      ensures orphaned == if ok && old(statsOpen) then old(orphaned) + multiset{old(statsQueue)} else old(orphaned)
      ensures !connected ==> qm.script == old(qm.script) && qm.log == old(qm.log) && trace == old(trace)
      ensures connected ==> qm.script == Skip(old(qm.script), 1)
      ensures connected ==> var h := if ok then statsQueue else 0;
                qm.log == old(qm.log) + [Open(name, h)] && trace == old(trace) + [OpenedStats(h)] && (ok ==> h != 0)
    {
      hide Sound, BalanceAt, Booked, AllReal, Ahead, Skip;
      if !connected {
        return false;
      }
      ghost var held := qm.held;
      var h;
      ok, h := qm.Open(name);
      if ok {
        RecordStats(h, held);
      } else {
        Note(OpenedStats(0));
      }
    }

    method RecordStats(h: int, ghost held: multiset<int>)
      requires qm.Valid() && Booked() && AllReal(subscriptions)
      requires h != 0 && qm.held == held + multiset{h} && BalanceAt(held)
      modifies this`statsOpen, this`statsQueue, this`orphaned, this`trace
      ensures Valid() && statsOpen && statsQueue == h && trace == old(trace) + [OpenedStats(h)]
      ensures orphaned == if old(statsOpen) then old(orphaned) + multiset{old(statsQueue)} else old(orphaned)
    {
      hide Sound, Balanced, HandlesOf, Opened, BooksOf, AllReal;
      BooksAppend(trace, OpenedStats(h));
      Overwritten(orphaned, statsOpen, statsQueue);
      OpenedSlot(h);
      OpenStatsSlot(held, Opened(statsOpen, statsQueue), Opened(acctOpen, acctQueue), HandlesOf(subscriptions), lent, orphaned, h);
      trace := trace + [OpenedStats(h)];
      orphaned := orphaned + Opened(statsOpen, statsQueue);
      statsQueue, statsOpen := h, true;
    }

    method OpenAccountingQueue(name: Buffer) returns (ok: bool)
      requires Valid()
      modifies this`acctOpen, this`acctQueue, this`orphaned, this`trace, qm
      ensures Valid() && acctOpen == (old(acctOpen) || ok) && ok == (connected && Ahead(old(qm.script), 0).ok)
      ensures orphaned == if ok && old(acctOpen) then old(orphaned) + multiset{old(acctQueue)} else old(orphaned)
      ensures !connected ==> qm.script == old(qm.script) && qm.log == old(qm.log) && trace == old(trace)
      ensures connected ==> qm.script == Skip(old(qm.script), 1)
      ensures connected ==> var h := if ok then acctQueue else 0;
                qm.log == old(qm.log) + [Open(name, h)] && trace == old(trace) + [OpenedAcct(h)] && (ok ==> h != 0)
    {
      hide Sound, BalanceAt, Booked, AllReal, Ahead, Skip;
      if !connected {
        return false;
      }
      ghost var held := qm.held;
      var h;
      ok, h := qm.Open(name);
      if ok {
        RecordAcct(h, held);
      } else {
        Note(OpenedAcct(0));
      }
    }

    method RecordAcct(h: int, ghost held: multiset<int>)
      requires qm.Valid() && Booked() && AllReal(subscriptions)
      requires h != 0 && qm.held == held + multiset{h} && BalanceAt(held)
      modifies this`acctOpen, this`acctQueue, this`orphaned, this`trace
      ensures Valid() && acctOpen && acctQueue == h && trace == old(trace) + [OpenedAcct(h)]
      ensures orphaned == if old(acctOpen) then old(orphaned) + multiset{old(acctQueue)} else old(orphaned)
    {
      hide Sound, Balanced, HandlesOf, Opened, BooksOf, AllReal;
      BooksAppend(trace, OpenedAcct(h));
      Overwritten(orphaned, acctOpen, acctQueue);
      OpenedSlot(h);
      OpenAcctSlot(held, Opened(statsOpen, statsQueue), Opened(acctOpen, acctQueue), HandlesOf(subscriptions), lent, orphaned, h);
      trace := trace + [OpenedAcct(h)];
      orphaned := orphaned + Opened(acctOpen, acctQueue);
      acctQueue, acctOpen := h, true;
    }

    predicate QueueOpen(queue: QueueType)
      reads this`statsOpen, this`acctOpen
    {
      (queue.Stats? && statsOpen) || (queue.Accounting? && acctOpen)
    }

    function QueueHandle(queue: QueueType): int
      reads this`statsQueue, this`acctQueue
    {
      if queue.Stats? then statsQueue else acctQueue
    }

    lemma OpenQueueIsHeld(queue: QueueType)
      requires InBalance() && QueueOpen(queue)
      ensures QueueHandle(queue) in qm.held
    {
      hide Balanced, HandlesOf;
      SlotsAreHeld(qm.held, Opened(statsOpen, statsQueue), Opened(acctOpen, acctQueue), HandlesOf(subscriptions), lent,
                   orphaned, QueueHandle(queue));
    }

    /** `get_message`: one read of the queue asked for; a broken connection clears `connected` and nothing else. */
    method GetMessage(queue: QueueType) returns (r: Fetched)
      requires Valid()
      modifies this`connected, qm`script, qm`log
      ensures Valid()
      ensures r == if queue.UnknownType? then Failed
                   else if !QueueOpen(queue) then NoMessage else FetchedFrom(Ahead(old(qm.script), 0))
      ensures qm.script == Skip(old(qm.script), if QueueOpen(queue) then 1 else 0)
      ensures qm.log == old(qm.log) + if QueueOpen(queue) then [Get(QueueHandle(queue))] else []
      ensures connected == (old(connected) && !(QueueOpen(queue) && Breaks(Ahead(old(qm.script), 0))))
    {
      hide Sound, BalanceAt, Booked, AllReal, Ahead, Skip, Delivered;
      SkipNothing(qm.script);
      assert qm.log + [] == qm.log;
      if queue.UnknownType? {
        return Failed;
      }
      if (queue.Stats? && !statsOpen) || (queue.Accounting? && !acctOpen) {
        return NoMessage;
      }
      OpenQueueIsHeld(queue);
      var ok, reason, data := qm.Get(QueueHandle(queue), 102400);
      if ok {
        return Message(data);
      }
      if reason.NoMessageAvailable? {
        return NoMessage;
      }
      if reason.ConnectionBroken? {
        connected := false;
      }
      return Failed;
    }

    /** `get_all_messages`: everything up to the first answer that is not a message, all from the queue asked for;
        false stands for the exception out of `get_message`. */
    method GetAllMessages(queue: QueueType) returns (ok: bool, messages: seq<Buffer>)
      requires Valid()
      modifies this`connected, qm`script, qm`log
      ensures Valid()
      ensures messages == if QueueOpen(queue) then Messages(old(qm.script)) else []
      ensures ok == (!queue.UnknownType? &&
                     (QueueOpen(queue) ==> !FetchedFrom(Ahead(old(qm.script), |messages|)).Failed?))
      ensures connected == (old(connected) && !(QueueOpen(queue) && Breaks(Ahead(old(qm.script), |messages|))))
      ensures qm.log == old(qm.log) + if QueueOpen(queue) then Gets(QueueHandle(queue), |messages| + 1) else []
      ensures qm.script == Skip(old(qm.script), if QueueOpen(queue) then |messages| + 1 else 0)
    {
      hide Sound, BalanceAt, Booked, AllReal, Ahead, Skip, Delivered;
      if QueueOpen(queue) {
        ok, messages := ReadAll(queue);
      } else {
        var r := GetMessage(queue);
        ok, messages := !r.Failed?, [];
      }
    }

    method ReadAll(queue: QueueType) returns (ok: bool, messages: seq<Buffer>)
      requires Valid() && QueueOpen(queue)
      modifies this`connected, qm`script, qm`log
      ensures Valid() && messages == Messages(old(qm.script))
      ensures ok == !FetchedFrom(Ahead(old(qm.script), |messages|)).Failed?
      ensures connected == (old(connected) && !Breaks(Ahead(old(qm.script), |messages|)))
      ensures qm.log == old(qm.log) + Gets(QueueHandle(queue), |messages| + 1)
      ensures qm.script == Skip(old(qm.script), |messages| + 1)
    {
      hide Sound, BalanceAt, Booked, AllReal, Ahead, Skip, Delivered, Messages, Gets;
      ok, messages := true, [];
      ghost var script, h := qm.script, QueueHandle(queue);
      SkipNothing(script);
      GetsAppend(h, 0);
      assert qm.log + [] == qm.log && [] + Messages(script) == Messages(script);
      var more := true;
      while more
        invariant Valid() && QueueOpen(queue)
        invariant more ==> ok && connected == old(connected) && qm.script == Skip(script, |messages|)
        invariant more ==> messages + Messages(qm.script) == Messages(script)
        invariant more ==> qm.log == old(qm.log) + Gets(h, |messages|)
        invariant !more ==> messages == Messages(script) && qm.script == Skip(script, |messages| + 1)
        invariant !more ==> ok == !FetchedFrom(Ahead(script, |messages|)).Failed?
        invariant !more ==> connected == (old(connected) && !Breaks(Ahead(script, |messages|)))
        invariant !more ==> qm.log == old(qm.log) + Gets(h, |messages| + 1)
        decreases more, |qm.script|
      {
        SkipSkip(script, |messages|, 0);
        SkipSkip(script, |messages|, 1);
        SkipShrinks(qm.script);
        MessagesStep(qm.script);
        GetsAppend(h, |messages|);
        assert old(qm.log) + (Gets(h, |messages|) + [Get(h)]) == old(qm.log) + Gets(h, |messages|) + [Get(h)];
        ghost var rest := Messages(Skip(qm.script, 1));
        var r := GetMessage(queue);
        match r {
          case NoMessage =>
            more := false;
            assert messages + [] == messages;
          case Message(data) =>
            assert messages + ([data] + rest) == messages + [data] + rest;
            messages := messages + [data];
          case Failed =>
            ok, more := false, false;
            assert messages + [] == messages;
        }
      }
    }

    /** `get_queue_stats`, `get_queue_info` and `get_queue_handles`: open, inquire `count` attributes, close. */
    method InquireQueue(name: Buffer, count: nat) returns (ok: bool, attrs: seq<int32>)
      requires Valid()
      modifies qm
      ensures Valid() && qm.held == old(qm.held)
      ensures ok == (connected && Ahead(old(qm.script), 0).ok && Ahead(old(qm.script), 1).ok)
      ensures ok ==> attrs == Attributes(Ahead(old(qm.script), 1), count)
      ensures !connected ==> qm.log == old(qm.log)
      ensures connected ==> exists h :: qm.log == old(qm.log) + InquiryCalls(old(qm.script), name, h)
    {
      hide Sound, BalanceAt, Booked, AllReal, Ahead, Skip, PlatformAnswers, Attributes, InquiryCalls;
      if !connected {
        return false, [];
      }
      var found;
      ghost var h;
      found, ok, attrs, h := OpenAndInquire(name, count);
    }

    // ----- PCF commands -----

    method ReadResponses(h: int, limit: nat) returns (responses: seq<Buffer>)
      requires qm.Valid() && h in qm.held
      modifies qm`script, qm`log
      ensures qm.Valid() && responses == Responses(old(qm.script), limit)
      ensures qm.log == old(qm.log) + Gets(h, ResponseReads(old(qm.script), limit))
    {
      hide Sound, IsLast, Delivered, Ahead, Skip, Responses, ResponseReads, Gets;
      responses := [];
      ghost var script, count := qm.script, 0;
      GetsAppend(h, 0);
      assert qm.log + [] == qm.log;
      for i := 0 to limit
        invariant qm.Valid() && qm.log == old(qm.log) + Gets(h, count)
        invariant responses + Responses(qm.script, limit - i) == Responses(script, limit)
        invariant count + ResponseReads(qm.script, limit - i) == ResponseReads(script, limit)
      {
        ResponsesStep(qm.script, limit - i);
        GetsAppend(h, count);
        assert old(qm.log) + (Gets(h, count) + [Get(h)]) == old(qm.log) + Gets(h, count) + [Get(h)];
        count := count + 1;
        ghost var rest := Responses(Skip(qm.script, 1), limit - i - 1);
        var ok, reason, data := qm.Get(h, 65536);
        if !ok {
          assert responses + [] == responses;
          return;
        }
        assert responses + ([data] + rest) == responses + [data] + rest && [data] + [] == [data];
        responses := responses + [data];
        if IsLast(data) {
          return;
        }
      }
      ResponsesStep(qm.script, 0);
      assert responses + [] == responses;
    }

    /** MQCLOSE with MQCO_DELETE_PURGE, and the closing of a queue opened for one call. */
    method CloseTemporary(h: int, ghost base: multiset<int>)
      requires qm.Valid() && qm.held == base + multiset{h}
      modifies qm
      ensures qm.Valid() && qm.held == base && qm.script == Skip(old(qm.script), 1)
      ensures qm.log == old(qm.log) + [Close(h)]
    {
      hide Sound, Ahead, Skip;
      TemporaryHandle(base, h);
      var closed := qm.Close(h);
    }

    /** A fresh reply queue per command, deleted on every path: nothing recorded changes, and no handle
        outlives the call unless its close failed. */
    method SendPcfCommand(cmd: Buffer) returns (responses: seq<Buffer>)
      requires Valid()
      modifies this`trace, qm
      ensures Valid() && qm.held == old(qm.held)
      ensures responses == if connected then CommandResponses(old(qm.script)) else []
      ensures !connected ==> qm.log == old(qm.log)
      ensures connected ==> exists r, c :: qm.log == old(qm.log) + CommandCalls(old(qm.script), cmd, r, c)
      ensures trace == old(trace) + [Commanded(cmd, responses)]
    {
      hide Sound, BalanceAt, BooksOf, AllReal, CommandResponses, CommandCalls;
      responses := [];
      if connected {
        ghost var r, c;
        responses, r, c := ExchangeCommand(cmd);
      }
      Note(Commanded(cmd, responses));
    }

    method ExchangeCommand(cmd: Buffer) returns (responses: seq<Buffer>, ghost r: int, ghost c: int)
      requires qm.Valid()
      modifies qm
      ensures qm.Valid() && qm.held == old(qm.held) && responses == CommandResponses(old(qm.script))
      ensures qm.log == old(qm.log) + CommandCalls(old(qm.script), cmd, r, c)
    {
      hide Sound, ResolvedName, NamedDynamically, RepliedResponses, RepliedCalls, Ahead, Skip, Ascii;
      responses, r, c := [], 0, 0;
      ghost var script, log, base := qm.script, qm.log, qm.held;
      var name := qm.ResolvedName();
      var acquired, reply := qm.Open(Ascii(MODEL_QUEUE));
      r := reply;
      if !acquired {
        return;
      }
      name := ResolvedName(name);
      if !NamedDynamically(name) {
        CloseTemporary(reply, base);
        assert log + [Open(Ascii(MODEL_QUEUE), r)] + [Close(r)] == log + ([Open(Ascii(MODEL_QUEUE), r)] + [Close(r)]);
        return;
      }
      responses, c := CommandWithReply(cmd, reply, base);
      ghost var calls := RepliedCalls(Skip(script, 1), cmd, r, c);
      assert log + [Open(Ascii(MODEL_QUEUE), r)] + calls == log + ([Open(Ascii(MODEL_QUEUE), r)] + calls);
    }

    method CommandWithReply(cmd: Buffer, reply: int, ghost base: multiset<int>)
      returns (responses: seq<Buffer>, ghost c: int)
      requires qm.Valid() && qm.held == base + multiset{reply}
      modifies qm
      ensures qm.Valid() && qm.held == base && responses == RepliedResponses(old(qm.script))
      ensures qm.log == old(qm.log) + RepliedCalls(old(qm.script), cmd, reply, c)
    {
      hide Sound, Responses, Ahead, Skip, Ascii, Gets;
      responses := [];
      ghost var script, log := qm.script, qm.log;
      SkipSkip(script, 1, 0);
      SkipSkip(script, 1, 2);
      var acquired, command := qm.Open(Ascii(COMMAND_QUEUE));
      c := command;
      ghost var first := [Open(Ascii(COMMAND_QUEUE), c)];
      if acquired {
        ghost var calls: seq<MqCall>;
        responses, calls := PutAndRead(cmd, reply, command, base);
        CloseTemporary(reply, base);
        assert log + first + calls + [Close(reply)] == log + (first + calls + [Close(reply)]);
      } else {
        CloseTemporary(reply, base);
        assert log + first + [Close(reply)] == log + (first + [] + [Close(reply)]);
      }
    }

    /** The command is put and its queue closed; responses are read only when the put succeeded. */
    method PutAndRead(cmd: Buffer, reply: int, command: int, ghost base: multiset<int>)
      returns (responses: seq<Buffer>, ghost calls: seq<MqCall>)
      requires qm.Valid() && qm.held == base + multiset{reply} + multiset{command}
      modifies qm
      ensures qm.Valid() && qm.held == base + multiset{reply}
      ensures var script := old(qm.script);
              && responses == (if Ahead(script, 0).ok then Responses(Skip(script, 2), 1000) else [])
              && calls == [Put(command, cmd), Close(command)] +
                          (if Ahead(script, 0).ok then Gets(reply, ResponseReads(Skip(script, 2), 1000)) else [])
      ensures qm.log == old(qm.log) + calls
    {
      hide Sound, Responses, Ahead, Skip, Gets, ResponseReads;
      responses := [];
      ghost var script, log := qm.script, qm.log;
      SkipSkip(script, 1, 1);
      TemporaryHandle(base + multiset{reply}, command);
      TemporaryHandle(base, reply);
      var put := qm.Put(command, cmd);
      CloseTemporary(command, base + multiset{reply});
      ghost var gets: seq<MqCall> := [];
      if put {
        gets := Gets(reply, ResponseReads(qm.script, 1000));
        responses := ReadResponses(reply, 1000);
      }
      calls := [Put(command, cmd), Close(command)] + gets;
      assert log + [Put(command, cmd)] + [Close(command)] + gets == log + calls;
    }

    /** `discover_queues`: the command for the pattern, and the names found in its responses. */
    method DiscoverQueues(pattern: Buffer) returns (queues: seq<Buffer>, ghost responses: seq<Buffer>)
      requires Valid()
      modifies this`trace, qm
      ensures Valid() && qm.held == old(qm.held)
      ensures responses == if connected then CommandResponses(old(qm.script)) else []
      ensures queues == NamesDiscovered(responses)
      ensures !connected ==> qm.log == old(qm.log)
      ensures connected ==>
                exists r, c :: qm.log == old(qm.log) + CommandCalls(old(qm.script), QueuesCommand(pattern), r, c)
      ensures trace == old(trace) + [Commanded(QueuesCommand(pattern), responses)]
    {
      hide Sound, BalanceAt, Booked, AllReal, QueueDiscovery.Discovered, QueueDiscovery.AllNames, PcfInquiry.Command,
           CommandResponses, CommandCalls;
      var cmd := PcfInquiry.BuildInquireQCmd(pattern);
      assert cmd == QueuesCommand(pattern);
      var received := SendPcfCommand(cmd);
      responses := received;
      queues := QueueDiscovery.DiscoverQueues(received);
    }

    // ----- subscriptions -----

    /** A destination queue and a subscription on it, or neither: the queue of a failed MQSUB is deleted. */
    method AcquirePair(topic: Buffer) returns (ok: bool, hobj: int, hsub: int, ghost made: SubHandle)
      requires qm.Valid()
      modifies qm
      ensures qm.Valid() && ok == PairMadeBy(old(qm.script))
      ensures ok ==> Real(made) && made == SubHandle(hobj, hsub) && qm.held == old(qm.held) + Pair(hobj, hsub)
      ensures ok ==> qm.script == Skip(old(qm.script), 2)
      ensures !ok ==> hobj == 0 && hsub == 0 && qm.held == old(qm.held)
      ensures qm.log == old(qm.log) + PairCalls(old(qm.script), topic, made.hobj, made.hsub)
    {
      hide Sound, Pair, Ahead, Skip, Ascii;
      ghost var script, log := qm.script, qm.log;
      SkipSkip(script, 1, 0);
      SkipSkip(script, 1, 1);
      var acquired, h := qm.Open(Ascii(MODEL_QUEUE));
      ghost var first := [Open(Ascii(MODEL_QUEUE), h)];
      if !acquired {
        return false, 0, 0, SubHandle(h, 0);
      }
      ghost var calls: seq<MqCall>;
      ok, hobj, hsub, made, calls := SubscribeOn(topic, h, old(qm.held));
      assert log + first + calls == log + (first + calls);
    }

    method SubscribeOn(topic: Buffer, h: int, ghost base: multiset<int>)
      returns (ok: bool, hobj: int, hsub: int, ghost made: SubHandle, ghost calls: seq<MqCall>)
      requires qm.Valid() && h != 0 && qm.held == base + multiset{h}
      modifies qm
      ensures qm.Valid() && ok == Ahead(old(qm.script), 0).ok && made.hobj == h
      ensures ok ==> Real(made) && made == SubHandle(hobj, hsub) && qm.held == base + Pair(hobj, hsub)
      ensures ok ==> qm.script == Skip(old(qm.script), 1)
      ensures !ok ==> hobj == 0 && hsub == 0 && qm.held == base
      ensures calls == [Sub(topic, h, made.hsub)] + if ok then [] else [Close(h)]
      ensures qm.log == old(qm.log) + calls
    {
      hide Sound, Pair, Ahead, Skip;
      TemporaryHandle(base, h);
      var s;
      ok, s := qm.Sub(topic, h);
      made, calls := SubHandle(h, s), [Sub(topic, h, s)];
      if !ok {
        CloseTemporary(h, base);
        calls := calls + [Close(h)];
        return false, 0, 0, made, calls;
      }
      PairMade(base, h, s);
      return true, h, s, made, calls;
    }

    /** `handle` is what the attempt left: the pair, or nothing. It is recorded exactly when it was made. */
    method SubscribeToTopic(topic: Buffer) returns (ok: bool, ghost handle: SubHandle)
      requires Valid()
      modifies this`subscriptions, this`trace, qm
      ensures Valid() && ok == (connected && PairMadeBy(old(qm.script)))
      ensures if ok then Real(handle) else handle == NO_SUBSCRIPTION
      ensures subscriptions == if ok then old(subscriptions) + [handle] else old(subscriptions)
      ensures trace == old(trace) + [Requested(topic, handle)]
      ensures !connected ==> qm.log == old(qm.log)
      ensures connected ==> exists m: SubHandle ::
                qm.log == old(qm.log) + PairCalls(old(qm.script), topic, m.hobj, m.hsub) && (ok ==> m == handle)
    {
      hide Sound, BalanceAt, BooksOf, AllReal, Pair, PairMadeBy, PairCalls, Real;
      ok, handle := false, NO_SUBSCRIPTION;
      if connected {
        var hobj, hsub;
        ghost var made, held := NO_SUBSCRIPTION, qm.held;
        ok, hobj, hsub, made := AcquirePair(topic);
        if ok {
          handle := made;
          RecordSubscription(SubHandle(hobj, hsub), held);
        }
      }
      Note(Requested(topic, handle));
    }

    method RecordSubscription(sub: SubHandle, ghost held: multiset<int>)
      requires qm.Valid() && Booked() && AllReal(subscriptions) && Real(sub)
      requires qm.held == held + Pair(sub.hobj, sub.hsub)
      requires BalanceAt(held)
      modifies this`subscriptions
      ensures Valid() && subscriptions == old(subscriptions) + [sub]
    {
      hide Sound, Balanced, Pair, HandlesOf, Opened, BooksOf, Real;
      Subscribe(held, Opened(statsOpen, statsQueue), Opened(acctOpen, acctQueue), HandlesOf(subscriptions), lent, orphaned,
                Pair(sub.hobj, sub.hsub));
      HandlesOfAppend(subscriptions, sub);
      subscriptions := subscriptions + [sub];
    }

    /** The waiting messages of one queue. */
    method Drain(h: int, limit: nat) returns (messages: seq<Buffer>)
      requires qm.Valid() && h in qm.held
      modifies qm`script, qm`log
      ensures qm.Valid() && messages == Drained(old(qm.script), limit)
      ensures qm.script == Skip(old(qm.script), Reads(|messages|, limit))
      ensures qm.log == old(qm.log) + Gets(h, Reads(|messages|, limit))
    {
      hide Sound, StripMqrfh2, Delivered, Ahead, Skip, Gets;
      messages := [];
      ghost var script := qm.script;
      SkipNothing(script);
      GetsAppend(h, 0);
      assert qm.log + [] == qm.log;
      for i := 0 to limit
        invariant qm.Valid() && |messages| == i
        invariant messages + Drained(qm.script, limit - i) == Drained(script, limit)
        invariant qm.script == Skip(script, i) && qm.log == old(qm.log) + Gets(h, i)
      {
        SkipSkip(script, i, 1);
        GetsAppend(h, i);
        assert old(qm.log) + (Gets(h, i) + [Get(h)]) == old(qm.log) + Gets(h, i) + [Get(h)];
        ghost var rest := Drained(Skip(qm.script, 1), limit - i - 1);
        var ok, reason, data := qm.Get(h, 65536);
        if !ok || data == [] {
          break;
        }
        assert messages + ([StripMqrfh2(data)] + rest) == messages + [StripMqrfh2(data)] + rest;
        messages := messages + [StripMqrfh2(data)];
      }
      assert messages + [] == messages;
    }

    lemma RecordedIsHeld(i: nat)
      requires InBalance() && AllReal(subscriptions) && i < |subscriptions|
      ensures subscriptions[i].hobj in qm.held
    {
      hide Balanced, HandlesOf, Opened;
      assert Real(subscriptions[i]);
      RecordedQueue(subscriptions, i);
      SlotsAreHeld(qm.held, Opened(statsOpen, statsQueue), Opened(acctOpen, acctQueue), HandlesOf(subscriptions), lent,
                   orphaned, subscriptions[i].hobj);
    }

    /** Every recorded subscription in order, each drained through its own queue. */
    method ReceivePublications() returns (messages: seq<Buffer>)
      requires Valid()
      modifies qm`script, qm`log
      ensures Valid() && (!connected ==> qm.log == old(qm.log))
      ensures messages == if connected then DrainedAll(old(qm.script), |subscriptions|) else []
      ensures connected ==> qm.log == old(qm.log) + DrainCalls(old(qm.script), subscriptions)
    {
      hide Sound, BalanceAt, Booked, AllReal, DrainedAll, DrainCalls, Drained, Ahead, Skip, Reads, Gets;
      messages := [];
      if !connected {
        return;
      }
      ghost var all, calls := DrainedAll(qm.script, |subscriptions|), qm.log + DrainCalls(qm.script, subscriptions);
      assert subscriptions[0..] == subscriptions;
      for i := 0 to |subscriptions|
        invariant Valid()
        invariant messages + DrainedAll(qm.script, |subscriptions| - i) == all
        invariant qm.log + DrainCalls(qm.script, subscriptions[i..]) == calls
      {
        RecordedIsHeld(i);
        DrainNext(qm.script, subscriptions, i);
        ghost var log, h := qm.log, subscriptions[i].hobj;
        var some := Drain(subscriptions[i].hobj, 500);
        ghost var rest, more := DrainedAll(qm.script, |subscriptions| - i - 1), DrainCalls(qm.script, subscriptions[i + 1..]);
        assert messages + (some + rest) == messages + some + rest;
        assert log + (Gets(h, Reads(|some|, 500)) + more) == log + Gets(h, Reads(|some|, 500)) + more;
        messages := messages + some;
      }
      assert subscriptions[|subscriptions|..] == [];
      NothingToDrain(qm.script);
      assert messages + [] == messages && qm.log + [] == qm.log;
    }

    lemma NothingToDrain(script: seq<Reply>)
      ensures DrainedAll(script, 0) == [] && DrainCalls(script, []) == []
    {
    }

    /** One retained message; subscription and queue are gone again on every path. */
    method SubscribeAndGet(topic: Buffer) returns (r: Fetched)
      requires Valid()
      modifies this`trace, qm
      ensures Valid() && qm.held == old(qm.held) && (!connected ==> qm.log == old(qm.log))
      ensures r == if connected then RetainedFrom(old(qm.script)) else NoMessage
      ensures connected ==> exists m: SubHandle ::
                qm.log == old(qm.log) + RetainedCalls(old(qm.script), topic, m.hobj, m.hsub)
      ensures trace == old(trace) + [Asked(topic, r)]
    {
      hide Sound, BalanceAt, BooksOf, AllReal, RetainedFrom, RetainedCalls;
      r := NoMessage;
      if connected {
        ghost var m;
        r, m := RetainedMessage(topic);
      }
      Note(Asked(topic, r));
    }

    method RetainedMessage(topic: Buffer) returns (r: Fetched, ghost m: SubHandle)
      requires qm.Valid()
      modifies qm
      ensures qm.Valid() && qm.held == old(qm.held) && r == RetainedFrom(old(qm.script))
      ensures qm.log == old(qm.log) + RetainedCalls(old(qm.script), topic, m.hobj, m.hsub)
    {
      hide Sound, Pair, PairMadeBy, PairCalls, CloseCalls, Delivered, StripMqrfh2, Ahead, Skip;
      ghost var script, log, base := qm.script, qm.log, qm.held;
      SkipSkip(script, 2, 0);
      var subscribed, hobj, hsub;
      subscribed, hobj, hsub, m := AcquirePair(topic);
      ghost var pair := PairCalls(script, topic, m.hobj, m.hsub);
      assert pair + [] == pair;
      if !subscribed {
        return NoMessage, m;
      }
      PairMade(base, hobj, hsub);
      var ok, reason, data := qm.Get(hobj, 65536);
      ClosePair(hsub, hobj, base);
      assert log + pair + [Get(hobj)] + CloseCalls(hsub, hobj) == log + (pair + ([Get(hobj)] + CloseCalls(hsub, hobj)));
      if !ok || data == [] {
        return NoMessage, m;
      }
      return Message(StripMqrfh2(data)), m;
    }

    /** The two handles go to the caller, or both are 0 and nothing stays behind. */
    method CreateSubscription(topic: Buffer) returns (ok: bool, hobj: int, hsub: int)
      requires Valid()
      modifies this`lent, this`trace, qm
      ensures Valid() && ok == (connected && PairMadeBy(old(qm.script)))
      ensures trace == old(trace) + [Requested(topic, SubHandle(hobj, hsub))]
      ensures if ok then hobj != 0 && hsub != 0 else hobj == 0 && hsub == 0
      ensures lent == old(lent) + Pair(hobj, hsub)
      ensures !connected ==> qm.log == old(qm.log)
      ensures connected ==> exists m: SubHandle ::
                && qm.log == old(qm.log) + PairCalls(old(qm.script), topic, m.hobj, m.hsub)
                && (ok ==> m == SubHandle(hobj, hsub))
    {
      hide Sound, BalanceAt, BooksOf, AllReal, Pair, PairMadeBy, PairCalls;
      ok, hobj, hsub := false, 0, 0;
      PairOfNone(lent);
      if connected {
        ghost var made, held := NO_SUBSCRIPTION, qm.held;
        ok, hobj, hsub, made := AcquirePair(topic);
        if ok {
          RecordLoan(Pair(hobj, hsub), held);
        }
      }
      Note(Requested(topic, SubHandle(hobj, hsub)));
    }

    ghost method RecordLoan(pair: multiset<int>, held: multiset<int>)
      requires qm.Valid() && Booked() && AllReal(subscriptions) && qm.held == held + pair
      requires BalanceAt(held)
      modifies this`lent
      ensures Valid() && lent == old(lent) + pair
    {
      hide Sound, Balanced, HandlesOf, Opened, BooksOf, AllReal;
      Lend(held, Opened(statsOpen, statsQueue), Opened(acctOpen, acctQueue), HandlesOf(subscriptions), lent, orphaned, pair);
      lent := lent + pair;
    }

    lemma LentIsHeld(h: int)
      requires InBalance() && h in lent
      ensures h in qm.held
    {
      hide Balanced, HandlesOf, Opened;
      SlotsAreHeld(qm.held, Opened(statsOpen, statsQueue), Opened(acctOpen, acctQueue), HandlesOf(subscriptions), lent,
                   orphaned, h);
    }

    /** A caller reads the queue of a pair it was lent. */
    method GetMessagesFromHandle(hobj: int) returns (messages: seq<Buffer>)
      requires Valid() && (hobj != 0 ==> hobj in lent)
      modifies this`trace, qm`script, qm`log
      ensures Valid() && trace == old(trace) + [Read(hobj, messages)]
      ensures messages == if connected && hobj != 0 then Drained(old(qm.script), 500) else []
      ensures qm.log == old(qm.log) + if connected && hobj != 0 then Gets(hobj, Reads(|messages|, 500)) else []
    {
      hide Sound, BalanceAt, BooksOf, AllReal, Drained, Ahead, Skip, Reads, Gets;
      messages := [];
      assert qm.log + [] == qm.log;
      if connected && hobj != 0 {
        LentIsHeld(hobj);
        messages := Drain(hobj, 500);
      }
      Note(Read(hobj, messages));
    }

    /** A caller gives its pair back, connected or not. */
    method CloseSubscription(hsub: int, hobj: int, ghost rest: multiset<int>)
      requires Valid() && lent == Pair(hobj, hsub) + rest
      modifies this`lent, qm
      ensures Valid() && lent == rest && qm.log == old(qm.log) + CloseCalls(hsub, hobj)
    {
      hide Sound, Balanced, Pair, HandlesOf, Opened, BooksOf, AllReal, CloseCalls;
      Return(qm.held, Opened(statsOpen, statsQueue), Opened(acctOpen, acctQueue), HandlesOf(subscriptions), rest, orphaned,
             Pair(hobj, hsub));
      ClosePair(hsub, hobj, qm.held - Pair(hobj, hsub));
      lent := rest;
    }
  }
}
