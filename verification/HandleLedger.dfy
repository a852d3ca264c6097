/** The books a client keeps: which handles it records where, and what its history says they should be. */
module HandleLedger {
  import opened Bytes

  datatype SubHandle = SubHandle(hobj: int, hsub: int)

  const NO_SUBSCRIPTION := SubHandle(0, 0)

  /** A handle of 0 stands for none. */
  function One(h: int): multiset<int> {
    if h != 0 then multiset{h} else multiset{}
  }

  function Pair(hobj: int, hsub: int): multiset<int> {
    One(hobj) + One(hsub)
  }

  /** Every handle recorded in a list of subscriptions. */
  function HandlesOf(subs: seq<SubHandle>): multiset<int> {
    if subs == [] then multiset{} else Pair(subs[0].hobj, subs[0].hsub) + HandlesOf(subs[1..])
  }

  lemma {:induction false} HandlesOfAppend(subs: seq<SubHandle>, s: SubHandle)
    ensures HandlesOf(subs + [s]) == HandlesOf(subs) + Pair(s.hobj, s.hsub)
    decreases |subs|
  {
    hide Pair;
    if subs == [] {
      assert [] + [s] == [s] && [s][1..] == [];
    } else {
      assert (subs + [s])[0] == subs[0] && (subs + [s])[1..] == subs[1..] + [s];
      HandlesOfAppend(subs[1..], s);
    }
  }

  lemma HandlesOfNext(subs: seq<SubHandle>, i: nat)
    requires i < |subs|
    ensures HandlesOf(subs[i..]) == Pair(subs[i].hobj, subs[i].hsub) + HandlesOf(subs[i + 1..])
  {
    assert subs[i..][0] == subs[i] && subs[i..][1..] == subs[i + 1..];
  }

  lemma {:induction false} HandlesOfRemoved(subs: seq<SubHandle>, i: nat)
    requires i < |subs|
    ensures HandlesOf(subs) == Pair(subs[i].hobj, subs[i].hsub) + HandlesOf(subs[..i] + subs[i + 1..])
    decreases i
  {
    hide Pair;
    if i == 0 {
      assert subs[..0] + subs[1..] == subs[1..];
    } else {
      HandlesOfRemoved(subs[1..], i - 1);
      var rest := subs[..i] + subs[i + 1..];
      assert rest[0] == subs[0] && rest[1..] == subs[1..][..i - 1] + subs[1..][i..];
    }
  }

  /** A recorded queue is among the recorded handles. */
  lemma {:induction false} RecordedQueue(subs: seq<SubHandle>, i: nat)
    requires i < |subs| && subs[i].hobj != 0
    ensures subs[i].hobj in HandlesOf(subs)
    decreases i
  {
    if i > 0 {
      RecordedQueue(subs[1..], i - 1);
    }
  }

  /** The subscriptions that were made, of a list of outcomes. */
  function Made(results: seq<SubHandle>): seq<SubHandle> {
    if results == [] then []
    else
      var n := |results| - 1;
      Made(results[..n]) + if results[n].hobj != 0 then [results[n]] else []
  }

  predicate Real(s: SubHandle) {
    s.hobj != 0 && s.hsub != 0
  }

  predicate AllReal(subs: seq<SubHandle>) {
    forall s :: s in subs ==> Real(s)
  }

  function Opened(flag: bool, h: int): multiset<int> {
    if flag then multiset{h} else multiset{}
  }

  lemma OpenedSlot(h: int)
    ensures Opened(true, h) == multiset{h} && Opened(false, h) == multiset{}
  {
  }

  lemma Overwritten(orphaned: multiset<int>, flag: bool, h: int)
    ensures orphaned + Opened(flag, h) == if flag then orphaned + multiset{h} else orphaned
  {
  }

  /** What the client accounts for: open queues, subscriptions, handles with callers, orphans. */
  function Ledger(stats: multiset<int>, acct: multiset<int>, subs: multiset<int>, lent: multiset<int>,
                  orphaned: multiset<int>): multiset<int> {
    stats + acct + subs + lent + orphaned
  }

  /** The live handles are exactly the ledger's, each recorded once. */
  predicate Balanced(held: multiset<int>, stats: multiset<int>, acct: multiset<int>, subs: multiset<int>,
                     lent: multiset<int>, orphaned: multiset<int>)
  {
    held == Ledger(stats, acct, subs, lent, orphaned)
  }

  // How the balance moves with one slot of the ledger. A queue opened over an open one leaves an orphan.

  lemma CloseStatsSlot(held: multiset<int>, stats: multiset<int>, acct: multiset<int>, subs: multiset<int>,
                       lent: multiset<int>, orphaned: multiset<int>, h: int)
    requires stats == multiset{h} && Balanced(held, stats, acct, subs, lent, orphaned)
    ensures h in held && Balanced(held - multiset{h}, multiset{}, acct, subs, lent, orphaned)
  {
  }

  lemma CloseAcctSlot(held: multiset<int>, stats: multiset<int>, acct: multiset<int>, subs: multiset<int>,
                      lent: multiset<int>, orphaned: multiset<int>, h: int)
    requires acct == multiset{h} && Balanced(held, stats, acct, subs, lent, orphaned)
    ensures h in held && Balanced(held - multiset{h}, stats, multiset{}, subs, lent, orphaned)
  {
  }

  lemma OpenStatsSlot(held: multiset<int>, stats: multiset<int>, acct: multiset<int>, subs: multiset<int>,
                      lent: multiset<int>, orphaned: multiset<int>, h: int)
    requires Balanced(held, stats, acct, subs, lent, orphaned)
    ensures Balanced(held + multiset{h}, multiset{h}, acct, subs, lent, orphaned + stats)
  {
  }

  lemma OpenAcctSlot(held: multiset<int>, stats: multiset<int>, acct: multiset<int>, subs: multiset<int>,
                     lent: multiset<int>, orphaned: multiset<int>, h: int)
    requires Balanced(held, stats, acct, subs, lent, orphaned)
    ensures Balanced(held + multiset{h}, stats, multiset{h}, subs, lent, orphaned + acct)
  {
  }

  lemma Subscribe(held: multiset<int>, stats: multiset<int>, acct: multiset<int>, subs: multiset<int>,
                  lent: multiset<int>, orphaned: multiset<int>, pair: multiset<int>)
    requires Balanced(held, stats, acct, subs, lent, orphaned)
    ensures Balanced(held + pair, stats, acct, subs + pair, lent, orphaned)
  {
  }

  lemma Lend(held: multiset<int>, stats: multiset<int>, acct: multiset<int>, subs: multiset<int>, lent: multiset<int>,
             orphaned: multiset<int>, pair: multiset<int>)
    requires Balanced(held, stats, acct, subs, lent, orphaned)
    ensures Balanced(held + pair, stats, acct, subs, lent + pair, orphaned)
  {
  }

  lemma Unsubscribe(held: multiset<int>, stats: multiset<int>, acct: multiset<int>, subs: multiset<int>,
                    lent: multiset<int>, orphaned: multiset<int>, pair: multiset<int>)
    requires Balanced(held, stats, acct, pair + subs, lent, orphaned)
    ensures Balanced(held - pair, stats, acct, subs, lent, orphaned) && held == pair + (held - pair)
  {
  }

  lemma Return(held: multiset<int>, stats: multiset<int>, acct: multiset<int>, subs: multiset<int>,
               lent: multiset<int>, orphaned: multiset<int>, pair: multiset<int>)
    requires Balanced(held, stats, acct, subs, pair + lent, orphaned)
    ensures Balanced(held - pair, stats, acct, subs, lent, orphaned) && held == pair + (held - pair)
  {
  }

  lemma Clean(held: multiset<int>, stats: multiset<int>, acct: multiset<int>, subs: multiset<int>, lent: multiset<int>,
              orphaned: multiset<int>)
    requires stats == acct == subs == multiset{} && Balanced(held, stats, acct, subs, lent, orphaned)
    ensures held == lent + orphaned
  {
  }

  /** Whatever is in a slot is live. */
  lemma SlotsAreHeld(held: multiset<int>, stats: multiset<int>, acct: multiset<int>, subs: multiset<int>,
                     lent: multiset<int>, orphaned: multiset<int>, h: int)
    requires Balanced(held, stats, acct, subs, lent, orphaned)
    requires h in stats || h in acct || h in subs || h in lent
    ensures h in held
  {
  }

  lemma PairParts(hobj: int, hsub: int, rest: multiset<int>)
    ensures Pair(hobj, hsub) + rest == One(hsub) + (One(hobj) + rest)
  {
  }

  lemma PairOfNone(m: multiset<int>)
    ensures m + Pair(0, 0) == m
  {
  }

  lemma OneStep(h: int, rest: multiset<int>)
    ensures if h != 0 then h in One(h) + rest && One(h) + rest - multiset{h} == rest else One(h) + rest == rest
  {
  }

  lemma PairMade(held: multiset<int>, hobj: int, hsub: int)
    requires hobj != 0 && hsub != 0
    ensures held + multiset{hobj} + multiset{hsub} == held + Pair(hobj, hsub) == Pair(hobj, hsub) + held
    ensures hobj in held + multiset{hobj} && hobj in held + Pair(hobj, hsub)
  {
  }

  lemma TemporaryHandle(held: multiset<int>, h: int)
    ensures h in held + multiset{h} && held + multiset{h} - multiset{h} == held
  {
  }

  // ----- the client's history -----

  /** A message, none, or the exception of the source. */
  datatype Fetched = NoMessage | Message(data: Buffer) | Failed

  /** What the client was asked to do and what came of it, in order. A failed open or subscription has handle 0. */
  datatype Call =
    | OpenedStats(h: int)
    | OpenedAcct(h: int)
    | Disconnected
    | Commanded(cmd: Buffer, responses: seq<Buffer>)
    | Requested(topic: Buffer, handle: SubHandle)
    | Asked(topic: Buffer, answer: Fetched)
    | Read(hobj: int, messages: seq<Buffer>)

  /** Calls that leave the two queues alone. */
  predicate Neutral(c: Call) {
    (c.OpenedStats? || c.OpenedAcct? ==> c.h == 0) && !c.Disconnected?
  }

  /** What a history says about the two queues: which handle is current, and which were overwritten. */
  datatype Books = Books(stats: multiset<int>, acct: multiset<int>, orphaned: multiset<int>)

  function Next(b: Books, c: Call): Books {
    match c
    case OpenedStats(h) => if h != 0 then Books(multiset{h}, b.acct, b.orphaned + b.stats) else b
    case OpenedAcct(h) => if h != 0 then Books(b.stats, multiset{h}, b.orphaned + b.acct) else b
    case Disconnected => Books(multiset{}, multiset{}, b.orphaned)
    case _ => b
  }

  function BooksOf(trace: seq<Call>): Books {
    if trace == [] then Books(multiset{}, multiset{}, multiset{})
    else Next(BooksOf(trace[..|trace| - 1]), trace[|trace| - 1])
  }

  lemma BooksAppend(trace: seq<Call>, c: Call)
    ensures BooksOf(trace + [c]) == Next(BooksOf(trace), c)
  {
    assert (trace + [c])[..|trace|] == trace;
  }

  lemma BooksNeutral(trace: seq<Call>, c: Call)
    requires Neutral(c)
    ensures BooksOf(trace + [c]) == BooksOf(trace)
  {
    hide BooksOf;
    BooksAppend(trace, c);
  }

  predicate OpensStats(c: Call) {
    c.OpenedStats? && c.h != 0
  }

  predicate OpensAcct(c: Call) {
    c.OpenedAcct? && c.h != 0
  }

  /** Between positions `i` and `j` no disconnection clears the flags. */
  predicate Undisturbed(trace: seq<Call>, i: int, j: int)
    requires 0 <= i <= j <= |trace|
  {
    forall k :: i < k < j ==> trace[k] != Disconnected
  }

  /** The queue was opened at `i` and is open still. */
  predicate StatsSince(trace: seq<Call>, i: int) {
    0 <= i < |trace| && OpensStats(trace[i]) && Undisturbed(trace, i, |trace|)
  }

  predicate AcctSince(trace: seq<Call>, i: int) {
    0 <= i < |trace| && OpensAcct(trace[i]) && Undisturbed(trace, i, |trace|)
  }

  /** The same queue was opened at `i` and again at `j`, with no disconnection in between. */
  predicate ReopenedAt(trace: seq<Call>, i: int, j: int) {
    && 0 <= i < j < |trace| && Undisturbed(trace, i, j)
    && ((OpensStats(trace[i]) && OpensStats(trace[j])) || (OpensAcct(trace[i]) && OpensAcct(trace[j])))
  }

  ghost predicate Reopened(trace: seq<Call>) {
    exists i, j :: ReopenedAt(trace, i, j)
  }

  lemma {:induction false} OpenQueues(trace: seq<Call>)
    ensures BooksOf(trace).stats != multiset{} <==> exists i :: StatsSince(trace, i)
    ensures BooksOf(trace).acct != multiset{} <==> exists i :: AcctSince(trace, i)
    decreases |trace|
  {
    if trace != [] {
      var n := |trace| - 1;
      var init, c := trace[..n], trace[n];
      OpenQueues(init);
      SinceAppend(trace);
      if OpensStats(c) {
        assert StatsSince(trace, n);
      } else if BooksOf(init).stats != multiset{} && c != Disconnected {
        var i :| StatsSince(init, i);
        assert StatsSince(trace, i);
      }
      if OpensAcct(c) {
        assert AcctSince(trace, n);
      } else if BooksOf(init).acct != multiset{} && c != Disconnected {
        var i :| AcctSince(init, i);
        assert AcctSince(trace, i);
      }
    }
  }

  /** A queue opened before the last call is open still unless that call disconnects. */
  lemma SinceAppend(trace: seq<Call>)
    requires trace != []
    ensures var n := |trace| - 1;
            && (forall i :: i < n ==> (StatsSince(trace, i) <==> StatsSince(trace[..n], i) && trace[n] != Disconnected))
            && (forall i :: i < n ==> (AcctSince(trace, i) <==> AcctSince(trace[..n], i) && trace[n] != Disconnected))
  {
    var n := |trace| - 1;
    var init := trace[..n];
    forall i | 0 <= i < n
      ensures Undisturbed(trace, i, n + 1) <==> Undisturbed(init, i, n) && trace[n] != Disconnected
    {
      assert forall k :: i < k < n ==> init[k] == trace[k];
      if Undisturbed(trace, i, n + 1) {
        assert trace[n] != Disconnected;
      }
    }
  }

  lemma ReopenedStep(trace: seq<Call>)
    requires trace != []
    ensures var n := |trace| - 1;
            Reopened(trace) <==>
              || Reopened(trace[..n])
              || (OpensStats(trace[n]) && exists i :: StatsSince(trace[..n], i))
              || (OpensAcct(trace[n]) && exists i :: AcctSince(trace[..n], i))
  {
    var n := |trace| - 1;
    var init := trace[..n];
    assert forall k :: 0 <= k < n ==> init[k] == trace[k];
    if Reopened(trace) {
      var i, j :| ReopenedAt(trace, i, j);
      assert if j < n then ReopenedAt(init, i, j) else StatsSince(init, i) || AcctSince(init, i);
    }
    if Reopened(init) {
      var i, j :| ReopenedAt(init, i, j);
      assert ReopenedAt(trace, i, j);
    }
    if i :| OpensStats(trace[n]) && StatsSince(init, i) {
      assert ReopenedAt(trace, i, n);
    }
    if i :| OpensAcct(trace[n]) && AcctSince(init, i) {
      assert ReopenedAt(trace, i, n);
    }
  }

  lemma NextOrphans(b: Books, c: Call)
    ensures Next(b, c).orphaned != multiset{} <==>
              || b.orphaned != multiset{}
              || (OpensStats(c) && b.stats != multiset{})
              || (OpensAcct(c) && b.acct != multiset{})
  {
    assert forall x: multiset<int>, y: multiset<int> :: x + y == multiset{} <==> x == multiset{} && y == multiset{} by {
      forall x: multiset<int>, y: multiset<int> | x + y == multiset{}
        ensures x == multiset{} && y == multiset{}
      {
        assert |x + y| == |x| + |y|;
      }
    }
  }

  /** For every history: some handle was overwritten exactly when a queue was opened, and opened again with no
      disconnection in between. */
  lemma {:induction false} OrphansMeanReopened(trace: seq<Call>)
    ensures BooksOf(trace).orphaned != multiset{} <==> Reopened(trace)
    decreases |trace|
  {
    hide Next, Reopened, StatsSince, AcctSince, OpensStats, OpensAcct;
    if trace == [] {
      NothingReopened();
    } else {
      var n := |trace| - 1;
      OrphansMeanReopened(trace[..n]);
      OpenQueues(trace[..n]);
      NextOrphans(BooksOf(trace[..n]), trace[n]);
      ReopenedStep(trace);
    }
  }

  lemma NothingReopened()
    ensures !Reopened([])
  {
  }
}
