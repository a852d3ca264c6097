/** The queue manager as seen through the MQ calls: which handles it keeps live, and that any call may fail.
    What the calls answer is a script fixed from outside, so a statement about every script is a statement
    about every behaviour of the queue manager. */
module QueueManager {
  import opened Bytes

  /** The reason of a failed MQGET, as far as the code tells reasons apart. */
  datatype Reason = NoMessageAvailable | ConnectionBroken | OtherReason

  /** One answer: the completion code and reason, how far a new handle lies from the last, the message or
      name delivered, the attributes inquired. */
  datatype Reply = Reply(ok: bool, reason: Reason, gap: nat, data: Buffer, attrs: seq<int32>)

  const NO_REPLY := Reply(false, NoMessageAvailable, 0, [], [])

  /** Answer number `k` of a script. Beyond its end every call fails. */
  function Ahead(script: seq<Reply>, k: nat): Reply {
    if k < |script| then script[k] else NO_REPLY
  }

  /** What is left of a script after `k` answers. */
  function Skip(script: seq<Reply>, k: nat): seq<Reply> {
    if k <= |script| then script[k..] else []
  }

  lemma SkipSkip(script: seq<Reply>, a: nat, b: nat)
    ensures Skip(Skip(script, a), b) == Skip(script, a + b) && Ahead(Skip(script, a), b) == Ahead(script, a + b)
  {
  }

  lemma SkipNothing(script: seq<Reply>)
    ensures Skip(script, 0) == script
  {
  }

  lemma SkipShrinks(script: seq<Reply>)
    ensures |Skip(script, 1)| <= |script| && (Ahead(script, 0).ok ==> |Skip(script, 1)| < |script|)
  {
  }

  /** The bytes of an answer that fit a buffer of `size`. */
  function Delivered(r: Reply, size: nat): (data: Buffer)
    ensures |data| <= size
  {
    if |r.data| <= size then r.data else r.data[..size]
  }

  /** Inquired attribute `i`; the caller's array starts out as zeros. */
  function Attribute(r: Reply, i: nat): int32 {
    if r.ok && i < |r.attrs| then r.attrs[i] else 0
  }

  function Attributes(r: Reply, count: nat): seq<int32> {
    seq(count, i requires 0 <= i => Attribute(r, i))
  }

  /** The calls made, with their arguments; a failed MQOPEN or MQSUB leaves the handle 0. */
  datatype MqCall =
    | Connx
    | Disc
    | Open(name: Buffer, h: int)
    | Sub(topic: Buffer, hobj: int, hsub: int)
    | Inq(h: int)
    | Put(h: int, data: Buffer)
    | Get(h: int)
    | Close(h: int)

  /** `n` reads of one queue. */
  function Gets(h: int, n: nat): seq<MqCall> {
    seq(n, _ => Get(h))
  }

  lemma GetsAppend(h: int, n: nat)
    ensures Gets(h, n) + [Get(h)] == Gets(h, n + 1) && Gets(h, 0) == []
  {
  }

  /** Handles are positive, below `next`, and counted once over both sets. */
  ghost predicate Sound(held: multiset<int>, stranded: multiset<int>, next: int) {
    && (forall h :: h in held ==> 0 < h < next && held[h] == 1 && h !in stranded)
    && (forall h :: h in stranded ==> 0 < h < next && stranded[h] == 1)
  }

  lemma SoundAfterRelease(held: multiset<int>, stranded: multiset<int>, next: int, h: int)
    requires Sound(held, stranded, next) && h in held
    ensures Sound(held - multiset{h}, stranded, next)
    ensures Sound(held - multiset{h}, stranded + multiset{h}, next)
  {
  }

  lemma SoundAfterAcquire(held: multiset<int>, stranded: multiset<int>, next: int, h: int)
    requires Sound(held, stranded, next) && next <= h && 0 < h
    ensures h !in held && h !in stranded && Sound(held + multiset{h}, stranded, h + 1)
  {
  }

  lemma HeldIsPositive(held: multiset<int>, stranded: multiset<int>, next: int, h: int)
    requires Sound(held, stranded, next) && h in held
    ensures h > 0 && held[h] == 1
  {
  }

  class Manager {
    /** Live handles that nobody failed to close. */
    ghost var held: multiset<int>
    /** Live handles whose close was attempted and failed. */
    ghost var stranded: multiset<int>
    /** Every MQ call, in order. */
    ghost var log: seq<MqCall>
    /** How many closes failed. */
    ghost var closeFailures: nat
    var nextHandle: int
    var script: seq<Reply>

    ghost predicate Valid()
      reads this
    {
      && nextHandle > 0
      && Sound(held, stranded, nextHandle)
      && (closeFailures == 0 ==> stranded == multiset{})
    }

    ghost function Live(): multiset<int>
      reads this
    {
      held + stranded
    }

    constructor (replies: seq<Reply>)
      ensures Valid() && Live() == multiset{} && log == [] && closeFailures == 0 && script == replies
    {
      held, stranded, log, closeFailures := multiset{}, multiset{}, [], 0;
      nextHandle, script := 1, replies;
    }

    /** The next answer. */
    method Answer() returns (r: Reply)
      modifies this`script
      ensures r == Ahead(old(script), 0) && script == Skip(old(script), 1)
    {
      r := NO_REPLY;
      if script != [] {
        r, script := script[0], script[1..];
      }
    }

    /** A fresh non-zero handle, or none. */
    method NewHandle() returns (ok: bool, h: int)
      requires Valid()
      modifies this`script, this`nextHandle, this`held
      ensures Valid() && ok == Ahead(old(script), 0).ok && script == Skip(old(script), 1)
      ensures ok ==> h != 0 && h !in old(held) && h !in stranded && held == old(held) + multiset{h}
      ensures !ok ==> h == 0 && held == old(held)
    {
      hide Sound;
      var r := Answer();
      ok, h := r.ok, 0;
      if ok {
        h := nextHandle + r.gap;
        SoundAfterAcquire(held, stranded, nextHandle, h);
        held := held + multiset{h};
        nextHandle := h + 1;
      }
    }

    /** MQOPEN: fail, or hand out a fresh non-zero handle. */
    method Open(name: Buffer) returns (ok: bool, h: int)
      requires Valid()
      modifies this
      ensures Valid() && stranded == old(stranded) && closeFailures == old(closeFailures)
      ensures ok == Ahead(old(script), 0).ok && script == Skip(old(script), 1) && log == old(log) + [MqCall.Open(name, h)]
      ensures ok ==> h != 0 && h !in old(held) && h !in old(stranded) && held == old(held) + multiset{h}
      ensures !ok ==> h == 0 && held == old(held)
    {
      hide Sound;
      ok, h := NewHandle();
      log := log + [MqCall.Open(name, h)];
    }

    /** MQSUB onto an open queue: fail, or hand out a fresh non-zero handle. */
    method Sub(topic: Buffer, hobj: int) returns (ok: bool, h: int)
      requires Valid() && hobj in held
      modifies this
      ensures Valid() && stranded == old(stranded) && closeFailures == old(closeFailures)
      ensures ok == Ahead(old(script), 0).ok && script == Skip(old(script), 1)
      ensures log == old(log) + [MqCall.Sub(topic, hobj, h)]
      ensures ok ==> h != 0 && h !in old(held) && h !in old(stranded) && held == old(held) + multiset{h}
      ensures !ok ==> h == 0 && held == old(held)
    {
      hide Sound;
      ok, h := NewHandle();
      log := log + [MqCall.Sub(topic, hobj, h)];
    }

    /** MQCLOSE of a live handle: it is gone, or it stays live and is counted as stranded. */
    method Close(h: int) returns (ok: bool)
      requires Valid() && h in held
      modifies this
      ensures Valid() && log == old(log) + [MqCall.Close(h)]
      ensures held == old(held) - multiset{h}
      ensures stranded == if ok then old(stranded) else old(stranded) + multiset{h}
      ensures closeFailures == if ok then old(closeFailures) else old(closeFailures) + 1
      ensures ok == Ahead(old(script), 0).ok && script == Skip(old(script), 1)
    {
      hide Sound;
      SoundAfterRelease(held, stranded, nextHandle, h);
      var r := Answer();
      ok := r.ok;
      held := held - multiset{h};
      if !ok {
        stranded := stranded + multiset{h};
        closeFailures := closeFailures + 1;
      }
      log := log + [MqCall.Close(h)];
    }

    /** MQCONNX. */
    method Connx() returns (ok: bool)
      requires Valid()
      modifies this`script, this`log
      ensures Valid() && ok == Ahead(old(script), 0).ok && script == Skip(old(script), 1)
      ensures log == old(log) + [MqCall.Connx]
    {
      var r := Answer();
      ok := r.ok;
      log := log + [MqCall.Connx];
    }

    /** MQDISC is not relied on to close anything. */
    method Disc() returns (ok: bool)
      requires Valid()
      modifies this`script, this`log
      ensures Valid() && ok == Ahead(old(script), 0).ok && script == Skip(old(script), 1)
      ensures log == old(log) + [MqCall.Disc]
    {
      var r := Answer();
      ok := r.ok;
      log := log + [MqCall.Disc];
    }

    /** MQINQ on a live handle. */
    method Inq(h: int, count: nat) returns (ok: bool, attrs: seq<int32>)
      requires Valid() && h in held
      modifies this`script, this`log
      ensures Valid() && ok == Ahead(old(script), 0).ok && script == Skip(old(script), 1)
      ensures attrs == Attributes(Ahead(old(script), 0), count) && log == old(log) + [MqCall.Inq(h)]
    {
      var r := Answer();
      ok, attrs := r.ok, Attributes(r, count);
      log := log + [MqCall.Inq(h)];
    }

    /** MQPUT on a live handle. */
    method Put(h: int, data: Buffer) returns (ok: bool)
      requires Valid() && h in held
      modifies this`script, this`log
      ensures Valid() && ok == Ahead(old(script), 0).ok && script == Skip(old(script), 1)
      ensures log == old(log) + [MqCall.Put(h, data)]
    {
      var r := Answer();
      ok := r.ok;
      log := log + [MqCall.Put(h, data)];
    }

    /** MQGET on a live handle: fail, or deliver a message of at most `size` bytes. */
    method Get(h: int, size: nat) returns (ok: bool, reason: Reason, data: Buffer)
      requires Valid() && h in held
      modifies this`script, this`log
      ensures Valid() && ok == Ahead(old(script), 0).ok && script == Skip(old(script), 1)
      ensures reason == Ahead(old(script), 0).reason && data == Delivered(Ahead(old(script), 0), size)
      ensures log == old(log) + [MqCall.Get(h)]
    {
      var r := Answer();
      ok, reason, data := r.ok, r.reason, Delivered(r, size);
      log := log + [MqCall.Get(h)];
    }

    /** The name the next MQOPEN of a model queue resolves to. */
    method ResolvedName() returns (name: Buffer)
      ensures name == Ahead(script, 0).data
    {
      name := Ahead(script, 0).data;
    }
  }
}
