/** Publications laid out as a queue manager sends them, read back by the counted-group scan. */
module StreamRoundTrip {
  import opened Bytes
  import opened Pcf
  import opened Text
  import opened PcfTree
  import opened PublicationScan

  /** A top-level parameter: a plain structure, or a group whose members follow its header. The header's
      StrucLength is 16, or it covers the members as well. */
  datatype Item =
    | Plain(w: Wire)
    | Grouped(id: int32, covering: bool, members: seq<Wire>)

  predicate Flat(w: Wire) {
    !w.WireGroup? && WellFormed(w)
  }

  predicate AllFlat(ws: seq<Wire>) {
    forall w :: w in ws ==> Flat(w)
  }

  predicate FitsItem(i: Item) {
    match i
    case Plain(w) => Flat(w)
    case Grouped(_, _, members) => AllFlat(members) && 16 + |EncodeAll(members)| < 0x8000_0000
  }

  function GroupHeader(id: int32, covering: bool, members: seq<Wire>): (r: Buffer)
    ensures |r| == 16
  {
    Le32(MQCFT_GROUP) + (Le32(16 + if covering then |EncodeAll(members)| else 0) + (Le32(id) + Le32(|members|)))
  }

  function EncodeItem(i: Item): Buffer {
    match i
    case Plain(w) => Encode(w)
    case Grouped(id, covering, members) => GroupHeader(id, covering, members) + EncodeAll(members)
  }

  function EncodeItems(items: seq<Item>): Buffer {
    if items == [] then [] else EncodeItem(items[0]) + EncodeItems(items[1..])
  }

  /** What the scan is meant to return for one structure. */
  function LeafOf(w: Wire): PcfParam {
    match w
    case WireInt(id, i) => PcfParam(MQCFT_INTEGER, id, i, i, [], [])
    case WireInt64(id, i) => PcfParam(MQCFT_INTEGER64, id, Wrap32(i), i, [], [])
    case WireString(id, _, s) => PcfParam(MQCFT_STRING, id, 0, 0, TrimBlanks(s), [])
    case _ => PcfParam(Kind(w), w.id, 0, 0, [], [])
  }

  function LeavesOf(ws: seq<Wire>): (r: seq<PcfParam>)
    ensures |r| == |ws|
  {
    seq(|ws|, i requires 0 <= i < |ws| => LeafOf(ws[i]))
  }

  function ParamOf(i: Item): PcfParam {
    match i
    case Plain(w) => LeafOf(w)
    case Grouped(id, _, members) => PcfParam(MQCFT_GROUP, id, 0, 0, [], LeavesOf(members))
  }

  function ParamsOf(items: seq<Item>): seq<PcfParam> {
    if items == [] then [] else [ParamOf(items[0])] + ParamsOf(items[1..])
  }

  // ----- one structure -----

  lemma LeafOfString(d: Buffer, o: nat, w: Wire)
    requires w.WireString? && Flat(w) && Holds(d, o, Encode(w))
    ensures ItemAt(d, o) && I32(d, o + 4) == |Encode(w)| && LeafAt(d, o) == LeafOf(w)
  {
    hide Le32, I32, TrimBlanks;
    HeaderFields(d, o, MQCFT_STRING, w.id, StringBody(w.ccsid, w.s));
    HoldsLe32(d, o + 12, w.ccsid, Le32(|w.s|) + (w.s + Padding(|w.s|)));
    HoldsLe32(d, o + 16, |w.s|, w.s + Padding(|w.s|));
    HoldsConcat(d, o + 20, w.s, Padding(|w.s|));
    HoldsSlice(d, o + 20, w.s);
    TrimNothing();
  }

  lemma TrimNothing()
    ensures TrimBlanks([]) == []
  {
  }

  lemma LeafOfInteger(d: Buffer, o: nat, w: Wire)
    requires (w.WireInt? || w.WireInt64?) && Holds(d, o, Encode(w))
    ensures ItemAt(d, o) && I32(d, o + 4) == |Encode(w)| && LeafAt(d, o) == LeafOf(w)
  {
    hide Le32, Le64, I32, I64, Wrap32;
    match w
    case WireInt(id, i) =>
      HeaderFields(d, o, MQCFT_INTEGER, id, Le32(i));
      assert Le32(i) + [] == Le32(i);
      HoldsLe32(d, o + 12, i, []);
    case WireInt64(id, i) =>
      HeaderFields(d, o, MQCFT_INTEGER64, id, Le32(0) + Le64(i));
      HoldsLe32(d, o + 12, 0, Le64(i));
      assert Le64(i) + [] == Le64(i);
      HoldsLe64(d, o + 16, i, []);
  }

  lemma LeafOfList(d: Buffer, o: nat, w: Wire)
    requires (w.WireInts? || w.WireInts64? || w.WireStrings?) && Flat(w) && Holds(d, o, Encode(w))
    ensures ItemAt(d, o) && I32(d, o + 4) == |Encode(w)| && LeafAt(d, o) == LeafOf(w)
  {
    hide Le32, I32, Concat32, Concat64, ConcatAll;
    HeaderFields(d, o, Kind(w), w.id, Body(w));
  }

  lemma LeafRoundTrip(d: Buffer, o: nat, w: Wire)
    requires Flat(w) && Holds(d, o, Encode(w))
    ensures ItemAt(d, o) && I32(d, o + 4) == |Encode(w)| && LeafAt(d, o) == LeafOf(w)
    ensures I32(d, o) != MQCFT_GROUP
  {
    hide Encode, LeafAt, LeafOf, I32, ItemAt, Holds;
    match w {
      case WireInt(_, _) => LeafOfInteger(d, o, w);
      case WireInt64(_, _) => LeafOfInteger(d, o, w);
      case WireString(_, _, _) => LeafOfString(d, o, w);
      case _ => LeafOfList(d, o, w);
    }
    assert LeafOf(w).kind != MQCFT_GROUP by {
      LeafKind(w);
    }
    LeafHasNoMembers(d, o);
  }

  lemma LeafKind(w: Wire)
    requires !w.WireGroup?
    ensures LeafOf(w).kind != MQCFT_GROUP
  {
  }

  // ----- the members of a group, then the whole stream -----

  function TokensOf(ws: seq<Wire>): seq<Token> {
    MemberTokens(LeavesOf(ws))
  }

  lemma TokensStep(ws: seq<Wire>)
    ensures ws == [] ==> TokensOf(ws) == []
    ensures ws != [] ==> TokensOf(ws) == [Token(true, LeafOf(ws[0]))] + TokensOf(ws[1..])
  {
    hide LeafOf;
  }

  lemma {:induction false} MembersRoundTrip(d: Buffer, o: nat, ws: seq<Wire>)
    requires AllFlat(ws) && Holds(d, o, EncodeAll(ws))
    ensures Scan(d, o, |ws|) == TokensOf(ws) + Scan(d, o + |EncodeAll(ws)|, 0)
    decreases |ws|
  {
    hide Encode, LeafAt, LeafOf, I32, Flat, TokensOf;
    TokensStep(ws);
    if ws != [] {
      var n := |Encode(ws[0])|;
      HoldsConcat(d, o, Encode(ws[0]), EncodeAll(ws[1..]));
      assert ws[0] in ws && forall w :: w in ws[1..] ==> w in ws;
      LeafRoundTrip(d, o, ws[0]);
      MembersRoundTrip(d, o + n, ws[1..]);
      var head, rest := [Token(true, LeafOf(ws[0]))], Scan(d, o + |EncodeAll(ws)|, 0);
      assert head + (TokensOf(ws[1..]) + rest) == head + TokensOf(ws[1..]) + rest;
    }
  }

  lemma GroupHeaderFields(d: Buffer, o: nat, id: int32, covering: bool, members: seq<Wire>)
    requires 16 + |EncodeAll(members)| < 0x8000_0000
    requires Holds(d, o, GroupHeader(id, covering, members) + EncodeAll(members))
    ensures ItemAt(d, o) && I32(d, o) == MQCFT_GROUP && MembersDue(d, o) == |members|
    ensures LeafAt(d, o) == PcfParam(MQCFT_GROUP, id, 0, 0, [], [])
    ensures Holds(d, o + 16, EncodeAll(members))
  {
    hide Le32, I32, EncodeAll;
    var len: int32 := 16 + if covering then |EncodeAll(members)| else 0;
    var count := Le32(|members|);
    HoldsConcat(d, o, GroupHeader(id, covering, members), EncodeAll(members));
    HoldsLe32(d, o, MQCFT_GROUP, Le32(len) + (Le32(id) + count));
    HoldsLe32(d, o + 4, len, Le32(id) + count);
    HoldsLe32(d, o + 8, id, count);
    assert count + [] == count;
    HoldsLe32(d, o + 12, |members|, []);
  }

  lemma {:induction false} ItemRoundTrip(d: Buffer, o: nat, i: Item)
    requires FitsItem(i) && Holds(d, o, EncodeItem(i))
    ensures Scan(d, o, 0) == ([Head(ParamOf(i))] + MemberTokens(ParamOf(i).members)) + Scan(d, o + |EncodeItem(i)|, 0)
  {
    hide Encode, LeafAt, LeafOf, I32, Flat, GroupHeader;
    match i
    case Plain(w) =>
      LeafRoundTrip(d, o, w);
      LeafHasNoMembers(d, o);
      assert MemberTokens([]) == [] && Head(LeafOf(w)) == Token(false, LeafOf(w));
      assert [Head(LeafOf(w))] + MemberTokens([]) == [Head(LeafOf(w))];
    case Grouped(id, covering, members) =>
      GroupHeaderFields(d, o, id, covering, members);
      MembersRoundTrip(d, o + 16, members);
      var tokens, rest := MemberTokens(LeavesOf(members)), Scan(d, o + |EncodeItem(i)|, 0);
      assert [Head(ParamOf(i))] + (tokens + rest) == [Head(ParamOf(i))] + tokens + rest;
  }

  lemma {:induction false} FlattenFront(p: PcfParam, ps: seq<PcfParam>)
    ensures Flatten([p] + ps) == ([Head(p)] + MemberTokens(p.members)) + Flatten(ps)
    decreases |ps|
  {
    hide MemberTokens, Head, Flatten;
    var head := [Head(p)] + MemberTokens(p.members);
    if ps == [] {
      FlattenAppend([], p);
      FlattenNothing();
      assert [] + [p] == [p] && [p] + ps == [p];
      assert head + [] == head && [] + head == head;
    } else {
      var n := |ps| - 1;
      var last := [Head(ps[n])] + MemberTokens(ps[n].members);
      FlattenFront(p, ps[..n]);
      assert [p] + ps == ([p] + ps[..n]) + [ps[n]] && ps == ps[..n] + [ps[n]];
      FlattenAppend([p] + ps[..n], ps[n]);
      FlattenAppend(ps[..n], ps[n]);
      assert head + Flatten(ps[..n]) + last == head + (Flatten(ps[..n]) + last);
    }
  }

  lemma FlattenNothing()
    ensures Flatten([]) == []
  {
  }

  lemma {:induction false} ItemsScan(d: Buffer, o: nat, items: seq<Item>)
    requires (forall i :: i in items ==> FitsItem(i)) && Holds(d, o, EncodeItems(items))
    requires o + |EncodeItems(items)| == |d|
    ensures Scan(d, o, 0) == Flatten(ParamsOf(items))
    decreases |items|
  {
    hide EncodeItem, ParamOf, LeafAt, I32, FitsItem, Flatten, MemberTokens, Head;
    if items == [] {
      FlattenNothing();
    } else {
      HoldsConcat(d, o, EncodeItem(items[0]), EncodeItems(items[1..]));
      ItemRoundTrip(d, o, items[0]);
      ItemsScan(d, o + |EncodeItem(items[0])|, items[1..]);
      FlattenFront(ParamOf(items[0]), ParamsOf(items[1..]));
    }
  }

  /** Round trip: every stream of plain structures and counted groups comes back item by item, each group
      with exactly its members, whether or not a group's StrucLength covers them. */
  lemma StreamRoundTrip(items: seq<Item>)
    requires forall i :: i in items ==> FitsItem(i)
    ensures Params(EncodeItems(items)) == ParamsOf(items)
  {
    hide Group, Flatten, Scan, EncodeItems, FitsItem;
    HoldsSelf(EncodeItems(items));
    ItemsScan(EncodeItems(items), 0, items);
    GroupFlatten(ParamsOf(items));
  }
}
