/** The parsing half of `MQClient::discover_queues`. */
module QueueDiscovery {
  import opened Bytes
  import opened Pcf
  import opened Text
  import opened PcfInquiry

  // ----- the specification: which names, in which order -----

  predicate Contains(s: Buffer, t: Buffer) {
    t <= s || (s != [] && Contains(s[1..], t))
  }

  /** Temporary, dynamic and model queues are left out. */
  predicate Wanted(q: Buffer) {
    && q != []
    && !(Ascii("AMQ.") <= q) && !(Ascii("EXPORTER.") <= q)
    && !Contains(q, Ascii("MANAGED.NDURABLE")) && !Contains(q, Ascii("MODEL"))
  }

  /** The fixed-width names of a MQCFSL, as far as they lie in the response. */
  function ListNames(d: Buffer, pos: nat, count: nat, width: nat): seq<Buffer>
    requires width > 0
    decreases count
  {
    if count == 0 || pos + width > |d| then []
    else [d[pos..pos + width]] + ListNames(d, pos + width, count - 1, width)
  }

  /** The raw queue names carried by one structure. */
  function NamesIn(d: Buffer, v: Visit): seq<Buffer>
    requires v.start + v.len <= |d|
  {
    if v.kind == MQCFT_STRING && v.len >= 24 && U32(d, v.start + 8) == MQCA_Q_NAME then
      var strLen := U32(d, v.start + 16);
      if strLen > 0 && v.start + 20 + strLen <= |d| then [d[v.start + 20..v.start + 20 + strLen]] else []
    else if v.kind == MQCFT_STRING_LIST && v.len >= 24 && U32(d, v.start + 8) == MQCA_Q_NAME then
      var count, strLen := U32(d, v.start + 16), U32(d, v.start + 20);
      if strLen > 0 then ListNames(d, v.start + 24, count, strLen) else []
    else []
  }

  function NamesFrom(d: Buffer, o: nat): seq<Buffer>
    decreases |d| - o
  {
    if ParamAt(d, o) then NamesIn(d, VisitAt(d, o)) + NamesFrom(d, o + U32(d, o + 4)) else []
  }

  /** The raw names of one response, none when it is short or carries a completion code. */
  function ResponseNames(d: Buffer): seq<Buffer> {
    if |d| < MQCFH_SIZE || U32(d, 24) != 0 then [] else NamesFrom(d, MQCFH_SIZE)
  }

  function AllNames(responses: seq<Buffer>): seq<Buffer> {
    if responses == [] then []
    else AllNames(responses[..|responses| - 1]) + ResponseNames(responses[|responses| - 1])
  }

  /** The wanted names, trimmed, in order of appearance. */
  function WantedNames(raw: seq<Buffer>): seq<Buffer> {
    if raw == [] then []
    else
      var q := TrimPadding(raw[|raw| - 1]);
      WantedNames(raw[..|raw| - 1]) + if Wanted(q) then [q] else []
  }

  function FirstOccurrences(xs: seq<Buffer>): seq<Buffer> {
    if xs == [] then []
    else
      var init, x := xs[..|xs| - 1], xs[|xs| - 1];
      if x in init then FirstOccurrences(init) else FirstOccurrences(init) + [x]
  }

  function Discovered(raw: seq<Buffer>): seq<Buffer> {
    FirstOccurrences(WantedNames(raw))
  }

  // ----- what deduplication means -----

  lemma {:induction false} SameElements(xs: seq<Buffer>)
    ensures forall x :: x in FirstOccurrences(xs) <==> x in xs
    decreases |xs|
  {
    if xs != [] {
      var init, x := xs[..|xs| - 1], xs[|xs| - 1];
      SameElements(init);
      assert xs == init + [x];
    }
  }

  lemma {:induction false} NoRepeats(xs: seq<Buffer>)
    ensures forall i, j :: 0 <= i < j < |FirstOccurrences(xs)| ==> FirstOccurrences(xs)[i] != FirstOccurrences(xs)[j]
    decreases |xs|
  {
    if xs != [] {
      NoRepeats(xs[..|xs| - 1]);
      SameElements(xs[..|xs| - 1]);
    }
  }

  /** Order of first appearance: what is found early stays in place whatever follows. */
  lemma {:induction false} EarlyStaysInPlace(xs: seq<Buffer>, k: nat)
    requires k <= |xs|
    ensures FirstOccurrences(xs[..k]) <= FirstOccurrences(xs)
    decreases |xs|
  {
    if k == |xs| {
      assert xs[..k] == xs;
    } else {
      EarlyStaysInPlace(xs[..|xs| - 1], k);
      assert xs[..|xs| - 1][..k] == xs[..k];
    }
  }

  /** Some response carries `q`, padded or not. */
  predicate Reported(raw: seq<Buffer>, q: Buffer) {
    exists r :: r in raw && TrimPadding(r) == q
  }

  lemma {:induction false} WantedNamesAre(raw: seq<Buffer>, q: Buffer)
    ensures q in WantedNames(raw) <==> Wanted(q) && Reported(raw, q)
    decreases |raw|
  {
    hide Wanted, TrimPadding;
    if raw != [] {
      var init, last := raw[..|raw| - 1], raw[|raw| - 1];
      WantedNamesAre(init, q);
      assert raw == init + [last];
      if Reported(init, q) {
        var r :| r in init && TrimPadding(r) == q;
        assert r in raw;
      }
      assert last in raw;
    }
  }

  /** The discovered queues are exactly the wanted trimmed names of the responses, each once. */
  lemma DiscoveredMeaning(responses: seq<Buffer>)
    ensures var queues := Discovered(AllNames(responses));
            && (forall q :: q in queues <==> Wanted(q) && Reported(AllNames(responses), q))
            && (forall i, j :: 0 <= i < j < |queues| ==> queues[i] != queues[j])
  {
    hide Wanted, WantedNames, FirstOccurrences, AllNames, Reported;
    var raw := AllNames(responses);
    forall q
      ensures q in WantedNames(raw) <==> Wanted(q) && Reported(raw, q)
    {
      WantedNamesAre(raw, q);
    }
    SameElements(WantedNames(raw));
    NoRepeats(WantedNames(raw));
  }

  // ----- the same, spelled out in bytes -----

  /** `t` lies in `s` at `i`. */
  predicate Window(s: Buffer, t: Buffer, i: nat) {
    i + |t| <= |s| && s[i..i + |t|] == t
  }

  lemma WindowInTail(s: Buffer, t: Buffer, i: nat)
    requires s != []
    ensures Window(s[1..], t, i) <==> Window(s, t, i + 1)
  {
    if i + 1 + |t| <= |s| {
      assert s[1..][i..i + |t|] == s[i + 1..i + 1 + |t|];
    }
  }

  lemma WindowInFront(s: Buffer, t: Buffer)
    ensures Window(s, t, 0) <==> t <= s
  {
  }

  lemma {:induction false} ContainsWindow(s: Buffer, t: Buffer)
    ensures Contains(s, t) <==> exists i: nat :: Window(s, t, i)
    decreases |s|
  {
    hide Window;
    WindowInFront(s, t);
    if s != [] {
      ContainsWindow(s[1..], t);
      if i: nat :| Window(s[1..], t, i) {
        WindowInTail(s, t, i);
      }
      if i: nat :| Window(s, t, i) && i > 0 {
        WindowInTail(s, t, i - 1);
      }
    } else if i: nat :| Window(s, t, i) {
      NoWindowInNothing(t, i);
    }
  }

  lemma NoWindowInNothing(t: Buffer, i: nat)
    requires Window([], t, i)
    ensures t == []
  {
  }

  lemma Literals()
    ensures Ascii("AMQ.") == [65, 77, 81, 46] && Ascii("MODEL") == [77, 79, 68, 69, 76]
    ensures Ascii("EXPORTER.") == [69, 88, 80, 79, 82, 84, 69, 82, 46]
    ensures Ascii("MANAGED.NDURABLE") == [77, 65, 78, 65, 71, 69, 68, 46, 78, 68, 85, 82, 65, 66, 76, 69]
  {
  }

  lemma StartsWith(q: Buffer, t: Buffer)
    ensures t <= q <==> |q| >= |t| && q[..|t|] == t
  {
  }

  lemma NoWindow(q: Buffer, t: Buffer)
    ensures !Contains(q, t) <==> forall i :: 0 <= i <= |q| - |t| ==> q[i..][..|t|] != t
  {
    hide Contains;
    ContainsWindow(q, t);
    forall i | 0 <= i <= |q| - |t|
      ensures q[i..][..|t|] == t <==> Window(q, t, i)
    {
      assert q[i..][..|t|] == q[i..i + |t|];
    }
  }

  /** Non-empty, no `AMQ.` or `EXPORTER.` in front, no `MANAGED.NDURABLE` and no `MODEL` anywhere. */
  lemma WantedInBytes(q: Buffer)
    ensures Wanted(q) <==>
              && q != []
              && !(|q| >= 4 && q[..4] == [65, 77, 81, 46])
              && !(|q| >= 9 && q[..9] == [69, 88, 80, 79, 82, 84, 69, 82, 46])
              && (forall i :: 0 <= i <= |q| - 16 ==>
                    q[i..][..16] != [77, 65, 78, 65, 71, 69, 68, 46, 78, 68, 85, 82, 65, 66, 76, 69])
              && (forall i :: 0 <= i <= |q| - 5 ==> q[i..][..5] != [77, 79, 68, 69, 76])
  {
    hide Contains, Ascii;
    Literals();
    StartsWith(q, Ascii("AMQ."));
    StartsWith(q, Ascii("EXPORTER."));
    NoWindow(q, [77, 65, 78, 65, 71, 69, 68, 46, 78, 68, 85, 82, 65, 66, 76, 69]);
    NoWindow(q, [77, 79, 68, 69, 76]);
  }

  /** Some response carries a name whose trim, of blanks and NULs, is `q`. */
  ghost predicate Carried(responses: seq<Buffer>, q: Buffer) {
    exists d, r :: d in responses && r in ResponseNames(d) && IsTrim(r, q, {32, 0})
  }

  lemma {:induction false} AllNamesAre(responses: seq<Buffer>, r: Buffer)
    ensures r in AllNames(responses) <==> exists d :: d in responses && r in ResponseNames(d)
    decreases |responses|
  {
    hide ResponseNames;
    if responses != [] {
      var init, last := responses[..|responses| - 1], responses[|responses| - 1];
      AllNamesAre(init, r);
      assert responses == init + [last];
    }
  }

  lemma TrimIsTrim(r: Buffer, q: Buffer)
    ensures IsTrim(r, q, {32, 0}) <==> TrimPadding(r) == q
  {
    hide TrimPadding;
    TrimPaddingIsTrim(r);
    if IsTrim(r, q, {32, 0}) {
      TrimUnique(r, q, TrimPadding(r), {32, 0});
    }
  }

  lemma CarriedIsReported(responses: seq<Buffer>, q: Buffer)
    ensures Carried(responses, q) <==> Reported(AllNames(responses), q)
  {
    hide ResponseNames, AllNames, TrimPadding;
    if Carried(responses, q) {
      var d, r :| d in responses && r in ResponseNames(d) && IsTrim(r, q, {32, 0});
      AllNamesAre(responses, r);
      TrimIsTrim(r, q);
    }
    if Reported(AllNames(responses), q) {
      var r :| r in AllNames(responses) && TrimPadding(r) == q;
      AllNamesAre(responses, r);
      TrimIsTrim(r, q);
    }
  }

  /** For all responses: a name is discovered exactly when some response carries it, padded or not, and it is
      not empty and has none of the four marks, byte for byte. */
  lemma DiscoveredExactly(responses: seq<Buffer>, q: Buffer)
    ensures q in Discovered(AllNames(responses)) <==>
              && Carried(responses, q)
              && q != []
              && !(|q| >= 4 && q[..4] == [65, 77, 81, 46])
              && !(|q| >= 9 && q[..9] == [69, 88, 80, 79, 82, 84, 69, 82, 46])
              && (forall i :: 0 <= i <= |q| - 16 ==>
                    q[i..][..16] != [77, 65, 78, 65, 71, 69, 68, 46, 78, 68, 85, 82, 65, 66, 76, 69])
              && (forall i :: 0 <= i <= |q| - 5 ==> q[i..][..5] != [77, 79, 68, 69, 76])
  {
    hide Wanted, Carried, Reported, AllNames, Discovered;
    DiscoveredMeaning(responses);
    WantedInBytes(q);
    CarriedIsReported(responses, q);
  }

  /** A response with a completion code, the word at offset 24, carries no name. */
  lemma ErrorCarriesNothing(d: Buffer)
    requires |d| >= 28 && U32(d, 24) != 0
    ensures ResponseNames(d) == []
  {
    hide U32;
  }

  /** Names keep the place they were first found at, whatever is found later. */
  lemma {:induction false} DiscoveredGrows(raw: seq<Buffer>, more: seq<Buffer>)
    ensures Discovered(raw) <= Discovered(raw + more)
    decreases |more|
  {
    hide Discovered, Wanted, TrimPadding;
    if more == [] {
      assert raw + more == raw;
    } else {
      var n := |more| - 1;
      DiscoveredGrows(raw, more[..n]);
      DiscoveredAppend(raw + more[..n], more[n]);
      assert raw + more == raw + more[..n] + [more[n]];
    }
  }

  // ----- the loops of the source -----

  function Add(queues: seq<Buffer>, raw: Buffer): seq<Buffer> {
    var q := TrimPadding(raw);
    if Wanted(q) && q !in queues then queues + [q] else queues
  }

  lemma DiscoveredAppend(raw: seq<Buffer>, r: Buffer)
    ensures Discovered(raw + [r]) == Add(Discovered(raw), r)
  {
    hide Wanted, TrimPadding;
    var q, names := TrimPadding(r), WantedNames(raw);
    assert (raw + [r])[..|raw|] == raw && (raw + [r])[|raw|] == r;
    if Wanted(q) {
      assert WantedNames(raw + [r]) == names + [q];
      assert (names + [q])[..|names|] == names;
      SameElements(names);
    } else {
      assert WantedNames(raw + [r]) == names + [] == names;
    }
  }

  method TrimTrailing(raw: Buffer) returns (qname: Buffer)
    ensures qname == TrimPadding(raw)
  {
    qname := raw;
    while qname != [] && (qname[|qname| - 1] == BLANK || qname[|qname| - 1] == NUL)
      invariant TrimPadding(qname) == TrimPadding(raw)
      decreases |qname|
    {
      qname := qname[..|qname| - 1];
    }
  }

  method AddName(queues: seq<Buffer>, raw: Buffer, ghost done: seq<Buffer>) returns (r: seq<Buffer>)
    requires queues == Discovered(done)
    ensures r == Discovered(done + [raw])
  {
    hide Wanted, TrimPadding, Discovered;
    r := queues;
    DiscoveredAppend(done, raw);
    var qname := TrimTrailing(raw);
    if Wanted(qname) {
      if qname !in queues {
        r := queues + [qname];
      }
    }
  }

  method AddList(d: Buffer, start: nat, count: uint32, strLen: uint32, queues: seq<Buffer>, ghost done: seq<Buffer>)
    returns (r: seq<Buffer>)
    requires strLen > 0 && queues == Discovered(done)
    ensures r == Discovered(done + ListNames(d, start, count, strLen))
  {
    hide Discovered;
    r := queues;
    var pos := start;
    ghost var names: seq<Buffer> := [];
    assert done + names == done;
    var i: int := 0;
    while i < count
      invariant 0 <= i <= count && start <= pos
      invariant names + ListNames(d, pos, count - i, strLen) == ListNames(d, start, count, strLen)
      invariant r == Discovered(done + names)
    {
      if pos + strLen > |d| {
        break;
      }
      var raw := d[pos..pos + strLen];
      ghost var rest := ListNames(d, pos + strLen, count - i - 1, strLen);
      assert names + ([raw] + rest) == names + [raw] + rest;
      assert done + names + [raw] == done + (names + [raw]);
      r := AddName(r, raw, done + names);
      names := names + [raw];
      pos := pos + strLen;
      i := i + 1;
    }
    assert names + [] == names;
  }

  method AddStructure(d: Buffer, v: Visit, queues: seq<Buffer>, ghost done: seq<Buffer>) returns (r: seq<Buffer>)
    requires v.start + v.len <= |d| && queues == Discovered(done)
    ensures r == Discovered(done + NamesIn(d, v))
  {
    hide Discovered, U32;
    r := queues;
    assert done + [] == done;
    if v.kind == MQCFT_STRING && v.len >= 24 {
      var strLen := U32(d, v.start + 16);
      if U32(d, v.start + 8) == MQCA_Q_NAME && strLen > 0 && v.start + 20 + strLen <= |d| {
        r := AddName(r, d[v.start + 20..v.start + 20 + strLen], done);
      }
    }
    if v.kind == MQCFT_STRING_LIST && v.len >= 24 {
      var count, strLen := U32(d, v.start + 16), U32(d, v.start + 20);
      if U32(d, v.start + 8) == MQCA_Q_NAME && strLen > 0 {
        r := AddList(d, v.start + 24, count, strLen, r, done);
      }
    }
  }

  method AddResponse(resp: Buffer, queues: seq<Buffer>, ghost done: seq<Buffer>) returns (r: seq<Buffer>)
    requires queues == Discovered(done)
    ensures r == Discovered(done + ResponseNames(resp))
  {
    hide Discovered, U32, NamesIn;
    r := queues;
    assert done + [] == done;
    if |resp| < MQCFH_SIZE {
      return;
    }
    if U32(resp, 24) != 0 {
      return;
    }
    var offset := MQCFH_SIZE;
    ghost var names: seq<Buffer> := [];
    assert done + names == done;
    while offset + 8 <= |resp|
      invariant names + NamesFrom(resp, offset) == NamesFrom(resp, MQCFH_SIZE)
      invariant r == Discovered(done + names)
      decreases |resp| - offset
    {
      var len := U32(resp, offset + 4);
      if len == 0 || offset + len > |resp| {
        break;
      }
      var v := VisitAt(resp, offset);
      ghost var found, rest := NamesIn(resp, v), NamesFrom(resp, offset + len);
      assert names + (found + rest) == names + found + rest;
      assert done + names + found == done + (names + found);
      r := AddStructure(resp, v, r, done + names);
      names := names + found;
      offset := offset + len;
    }
    assert names + [] == names;
  }

  /** For all response sequences: the wanted names, trimmed, first occurrences only, in order. */
  method DiscoverQueues(responses: seq<Buffer>) returns (queues: seq<Buffer>)
    ensures queues == Discovered(AllNames(responses))
  {
    hide Discovered, ResponseNames;
    queues := [];
    DiscoveredNothing();
    for k := 0 to |responses|
      invariant queues == Discovered(AllNames(responses[..k]))
    {
      assert responses[..k + 1][..k] == responses[..k];
      queues := AddResponse(responses[k], queues, AllNames(responses[..k]));
    }
    assert responses[..|responses|] == responses;
  }

  lemma DiscoveredNothing()
    ensures Discovered([]) == []
  {
  }
}
