/** `ResourceMonitor::parse_pcf_params`: structures of at least 16 bytes; the members of a group follow its
    16-byte header in the stream and are counted. */
module PublicationScan {
  import opened Bytes
  import opened Pcf
  import opened Text

  datatype PcfParam = PcfParam(kind: int32, id: int32, intValue: int32, int64Value: int64, text: Buffer,
                               members: seq<PcfParam>)

  predicate ItemAt(d: Buffer, o: nat) {
    o + 16 <= |d| && 16 <= I32(d, o + 4) && o + I32(d, o + 4) <= |d|
  }

  /** The string of a MQCFST: bounded by the buffer, not by the structure. */
  function TextAt(d: Buffer, o: nat): Buffer
    requires o + 20 <= |d|
  {
    var strLen := I32(d, o + 16);
    if strLen > 0 && o + 20 + strLen <= |d| then TrimBlanks(d[o + 20..o + 20 + strLen]) else []
  }

  /** One structure on its own, without group members. */
  function LeafAt(d: Buffer, o: nat): PcfParam
    requires ItemAt(d, o)
  {
    var kind, len, id := I32(d, o), I32(d, o + 4), I32(d, o + 8);
    if kind == MQCFT_INTEGER then PcfParam(kind, id, I32(d, o + 12), I32(d, o + 12), [], [])
    else if kind == MQCFT_STRING && len >= 20 then PcfParam(kind, id, 0, 0, TextAt(d, o), [])
    else if kind == MQCFT_INTEGER64 && len >= 24 then
      PcfParam(kind, id, Wrap32(I64(d, o + 16)), I64(d, o + 16), [], [])
    else PcfParam(kind, id, 0, 0, [], [])
  }

  // ----- the one-pass reference: a flat token scan with a counter of members still due -----

  datatype Token = Token(member: bool, leaf: PcfParam)

  function MembersDue(d: Buffer, o: nat): nat
    requires ItemAt(d, o)
  {
    if I32(d, o + 12) > 0 then I32(d, o + 12) else 0
  }

  function Scan(d: Buffer, o: nat, due: nat): seq<Token>
    decreases |d| - o
  {
    if !ItemAt(d, o) then []
    else if due > 0 then [Token(true, LeafAt(d, o))] + Scan(d, o + I32(d, o + 4), due - 1)
    else if I32(d, o) == MQCFT_GROUP then [Token(false, LeafAt(d, o))] + Scan(d, o + 16, MembersDue(d, o))
    else [Token(false, LeafAt(d, o))] + Scan(d, o + I32(d, o + 4), 0)
  }

  function Head(p: PcfParam): Token {
    Token(false, p.(members := []))
  }

  function MemberTokens(ms: seq<PcfParam>): (r: seq<Token>)
    ensures |r| == |ms|
  {
    seq(|ms|, i requires 0 <= i < |ms| => Token(true, ms[i]))
  }

  /** Each parameter followed by its members. */
  function Flatten(ps: seq<PcfParam>): seq<Token> {
    if ps == [] then []
    else
      var p := ps[|ps| - 1];
      Flatten(ps[..|ps| - 1]) + ([Head(p)] + MemberTokens(p.members))
  }

  function WithMember(p: PcfParam, m: PcfParam): PcfParam {
    p.(members := p.members + [m])
  }

  /** The other direction: members attach to the parameter before them. */
  function Group(ts: seq<Token>): seq<PcfParam> {
    if ts == [] then []
    else
      var ps, t := Group(ts[..|ts| - 1]), ts[|ts| - 1];
      if !t.member then ps + [t.leaf]
      else if ps == [] then []
      else
        var p := ps[|ps| - 1];
        ps[..|ps| - 1] + [WithMember(p, t.leaf)]
  }

  lemma FlattenAppend(ps: seq<PcfParam>, p: PcfParam)
    ensures Flatten(ps + [p]) == Flatten(ps) + ([Head(p)] + MemberTokens(p.members))
  {
    assert (ps + [p])[..|ps|] == ps;
  }

  lemma MemberTokensAppend(ms: seq<PcfParam>, m: PcfParam)
    ensures MemberTokens(ms + [m]) == MemberTokens(ms) + [Token(true, m)]
  {
  }

  lemma GroupAppend(ts: seq<Token>, t: Token)
    ensures Group(ts + [t]) ==
            (var ps := Group(ts);
             if !t.member then ps + [t.leaf]
             else if ps == [] then []
             else ps[..|ps| - 1] + [WithMember(ps[|ps| - 1], t.leaf)])
  {
    assert (ts + [t])[..|ts|] == ts;
  }

  /** Grouping undoes flattening, so the flat scan determines the grouped result. */
  lemma {:induction false} GroupFlatten(ps: seq<PcfParam>)
    ensures Group(Flatten(ps)) == ps
    decreases |ps|
  {
    hide Group, Flatten, Head;
    if ps == [] {
      GroupNothing();
    } else {
      var init, p := ps[..|ps| - 1], ps[|ps| - 1];
      GroupFlatten(init);
      assert ps == init + [p];
      FlattenAppend(init, p);
      GroupMembers(Flatten(init), init, p, |p.members|);
      assert p.members[..|p.members|] == p.members;
      assert MemberTokens(p.members)[..|p.members|] == MemberTokens(p.members);
    }
  }

  lemma {:induction false} GroupMembers(ts: seq<Token>, init: seq<PcfParam>, p: PcfParam, n: nat)
    requires Group(ts) == init && n <= |p.members|
    ensures Group(ts + ([Head(p)] + MemberTokens(p.members)[..n]))
         == init + [p.(members := p.members[..n])]
  {
    hide Group;
    var head, tokens := Head(p), MemberTokens(p.members);
    if n == 0 {
      assert ts + ([head] + tokens[..0]) == ts + [head];
      GroupAppend(ts, head);
    } else {
      GroupMembers(ts, init, p, n - 1);
      var before, t := ts + ([head] + tokens[..n - 1]), Token(true, p.members[n - 1]);
      assert tokens[..n] == tokens[..n - 1] + [t];
      assert ts + ([head] + tokens[..n]) == before + [t];
      GroupAppend(before, t);
      var q := p.(members := p.members[..n - 1]);
      assert (init + [q])[..|init|] == init;
      assert p.members[..n - 1] + [p.members[n - 1]] == p.members[..n];
    }
  }

  /** The scan that `discover` and `process_publications` rely on. */
  function Params(d: Buffer): seq<PcfParam> {
    Group(Scan(d, 0, 0))
  }

  /** Every member token stands behind a parameter it attaches to, and no leaf has members. */
  predicate Groupable(ts: seq<Token>) {
    (ts != [] ==> !ts[0].member) && forall i :: 0 <= i < |ts| ==> ts[i].leaf.members == []
  }

  lemma {:induction false} FlattenGroup(ts: seq<Token>)
    requires Groupable(ts)
    ensures Flatten(Group(ts)) == ts
    ensures ts != [] ==> Group(ts) != []
  {
    hide Group, Flatten;
    assert ts == [] ==> Group(ts) == [] && Flatten([]) == [] by {
      GroupNothing();
    }
    if ts != [] {
      var init, t := ts[..|ts| - 1], ts[|ts| - 1];
      FlattenGroup(init);
      assert ts == init + [t];
      GroupAppend(init, t);
      var ps := Group(init);
      if t.member {
        var last := |ps| - 1;
        assert ps == ps[..last] + [ps[last]];
        FlattenAttached(ps[..last], ps[last], t.leaf);
      } else {
        FlattenAppend(ps, t.leaf);
        assert Flatten(ps) + ([t] + MemberTokens([])) == Flatten(ps) + [t];
      }
    }
  }

  lemma GroupNothing()
    ensures Group([]) == [] && Flatten([]) == []
  {
  }

  lemma FlattenAttached(ps: seq<PcfParam>, p: PcfParam, m: PcfParam)
    ensures Flatten(ps + [WithMember(p, m)]) == Flatten(ps + [p]) + [Token(true, m)]
  {
    hide Flatten, MemberTokens;
    var q, t, tokens := WithMember(p, m), Token(true, m), MemberTokens(p.members);
    calc {
      Flatten(ps + [q]);
      { FlattenAppend(ps, q); MemberTokensAppend(p.members, m); }
      Flatten(ps) + ([Head(p)] + (tokens + [t]));
      Flatten(ps) + ([Head(p)] + tokens) + [t];
      { FlattenAppend(ps, p); }
      Flatten(ps + [p]) + [t];
    }
  }

  lemma {:induction false} ScanLeaves(d: Buffer, o: nat, due: nat)
    ensures forall i :: 0 <= i < |Scan(d, o, due)| ==> Scan(d, o, due)[i].leaf.members == []
    ensures due == 0 && Scan(d, o, due) != [] ==> !Scan(d, o, due)[0].member
    decreases |d| - o
  {
    hide I32;
    if ItemAt(d, o) {
      LeafHasNoMembers(d, o);
      if due > 0 {
        ScanLeaves(d, o + I32(d, o + 4), due - 1);
      } else if I32(d, o) == MQCFT_GROUP {
        ScanLeaves(d, o + 16, MembersDue(d, o));
      } else {
        ScanLeaves(d, o + I32(d, o + 4), 0);
      }
    }
  }

  /** Nothing the flat scan finds is lost, repeated or reordered by grouping, however the buffer ends. */
  lemma FlattenGroupScan(d: Buffer)
    ensures Flatten(Params(d)) == Scan(d, 0, 0)
  {
    ScanLeaves(d, 0, 0);
    FlattenGroup(Scan(d, 0, 0));
  }

  // ----- the nested loops of the source -----

  ghost predicate ScannedSoFar(d: Buffer, done: seq<Token>, o: nat, due: nat) {
    Scan(d, 0, 0) == done + Scan(d, o, due)
  }

  lemma ScanStep(d: Buffer, done: seq<Token>, o: nat, due: nat)
    requires ItemAt(d, o) && ScannedSoFar(d, done, o, due)
    ensures due > 0 ==> ScannedSoFar(d, done + [Token(true, LeafAt(d, o))], o + I32(d, o + 4), due - 1)
    ensures due == 0 && I32(d, o) == MQCFT_GROUP ==>
              ScannedSoFar(d, done + [Token(false, LeafAt(d, o))], o + 16, MembersDue(d, o))
    ensures due == 0 && I32(d, o) != MQCFT_GROUP ==>
              ScannedSoFar(d, done + [Token(false, LeafAt(d, o))], o + I32(d, o + 4), 0)
  {
    hide LeafAt, I32;
    var t := Token(due > 0, LeafAt(d, o));
    var rest := Scan(d, o, due)[1..];
    assert Scan(d, o, due) == [t] + rest;
    assert done + ([t] + rest) == done + [t] + rest;
  }

  /** Where no structure fits, the members still due no longer matter. */
  lemma ScanStuck(d: Buffer, done: seq<Token>, o: nat, due: nat)
    requires !ItemAt(d, o) && ScannedSoFar(d, done, o, due)
    ensures ScannedSoFar(d, done, o, 0) && Scan(d, 0, 0) == done
  {
  }

  /** The members of one group: stops early when the next structure does not fit. */
  method ParseMembers(data: Buffer, start: nat, groupCount: int32, ghost done: seq<Token>)
    returns (members: seq<PcfParam>, offset: nat)
    requires start <= |data|
    requires ScannedSoFar(data, done, start, if groupCount > 0 then groupCount else 0)
    ensures start <= offset <= |data|
    ensures ScannedSoFar(data, done + MemberTokens(members), offset, 0)
  {
    hide LeafAt, I32;
    members, offset := [], start;
    assert done + MemberTokens([]) == done;
    var i: int := 0;
    while i < groupCount
      invariant start <= offset <= |data|
      invariant 0 <= i && (i <= groupCount || i == 0)
      invariant ScannedSoFar(data, done + MemberTokens(members), offset, if groupCount > i then groupCount - i else 0)
      decreases groupCount - i
    {
      if offset + 16 > |data| || I32(data, offset + 4) < 16 || offset + I32(data, offset + 4) > |data| {
        ScanStuck(data, done + MemberTokens(members), offset, groupCount - i);
        break;
      }
      var inner := LeafAt(data, offset);
      ScanStep(data, done + MemberTokens(members), offset, groupCount - i);
      MemberTokensAppend(members, inner);
      assert done + (MemberTokens(members) + [Token(true, inner)]) == done + MemberTokens(members) + [Token(true, inner)];
      members := members + [inner];
      offset := offset + I32(data, offset + 4);
      i := i + 1;
    }
  }

  /** Grouping loses, repeats and reorders nothing: flattened, the result is the one-pass scan, and the
      scan determines it. */
  method ParsePcfParams(data: Buffer) returns (params: seq<PcfParam>)
    ensures Flatten(params) == Scan(data, 0, 0)
    ensures params == Params(data)
  {
    hide LeafAt, I32;
    params := [];
    var offset := 0;
    while offset + 16 <= |data|
      invariant offset <= |data|
      invariant ScannedSoFar(data, Flatten(params), offset, 0)
      decreases |data| - offset
    {
      var len := I32(data, offset + 4);
      if len < 16 || offset + len > |data| {
        break;
      }
      var p := LeafAt(data, offset);
      LeafHasNoMembers(data, offset);
      ScanStep(data, Flatten(params), offset, 0);
      if p.kind == MQCFT_GROUP {
        var groupCount := I32(data, offset + 12);
        ghost var done := Flatten(params) + [Token(false, p)];
        var members;
        members, offset := ParseMembers(data, offset + 16, groupCount, done);
        p := p.(members := members);
        assert done + MemberTokens(members) == Flatten(params) + ([Head(p)] + MemberTokens(members));
      } else {
        offset := offset + len;
        assert Flatten(params) + [Token(false, p)] == Flatten(params) + ([Token(false, p)] + MemberTokens([]));
      }
      FlattenAppend(params, p);
      params := params + [p];
    }
    ScanStuck(data, Flatten(params), offset, 0);
    GroupFlatten(params);
  }

  lemma LeafHasNoMembers(d: Buffer, o: nat)
    requires ItemAt(d, o)
    ensures LeafAt(d, o).members == [] && LeafAt(d, o).kind == I32(d, o)
  {
  }

  /** A scan of n bytes yields at most n/16 parameters, members included. */
  lemma {:induction false} ScanBound(d: Buffer, o: nat, due: nat)
    requires o <= |d|
    ensures 16 * |Scan(d, o, due)| <= |d| - o
    decreases |d| - o
  {
    hide LeafAt, I32;
    if ItemAt(d, o) {
      if due > 0 {
        ScanBound(d, o + I32(d, o + 4), due - 1);
      } else if I32(d, o) == MQCFT_GROUP {
        ScanBound(d, o + 16, MembersDue(d, o));
      } else {
        ScanBound(d, o + I32(d, o + 4), 0);
      }
    }
  }
}
