/** Messages as a queue manager lays them out: a header that says its own length, then the parameters. */
module MessageLayout {
  import opened Bytes
  import opened Pcf
  import opened Text
  import opened PcfTree
  import opened PublicationScan
  import opened StreamRoundTrip
  import opened MonitorCatalog

  datatype Layout = Layout(header: Buffer, items: seq<Item>)

  function Written(m: Layout): Buffer {
    m.header + EncodeItems(m.items)
  }

  /** The word at offset 4 is the header's length; with a header of 36 bytes it may also be senseless. */
  predicate FitsMessage(m: Layout) {
    && |m.header| >= 36 && (forall i :: i in m.items ==> FitsItem(i))
    && (I32(m.header, 4) == |m.header| ||
        (|m.header| == 36 && !(1 <= I32(m.header, 4) <= |Written(m)|)))
  }

  /** The scan starts where the parameters start and finds what was laid out, item by item. */
  lemma ParamsReadBack(m: Layout, least: int32)
    requires FitsMessage(m) && 0 < least <= 36
    ensures |Written(m)| >= 36 && MessageParams(Written(m), least) == ParamsOf(m.items)
    ensures |ParamsOf(m.items)| == |m.items|
    ensures forall i :: 0 <= i < |m.items| ==> ParamsOf(m.items)[i] == ParamOf(m.items[i])
  {
    hide Params, ParamsOf, ParamOf, FitsItem, EncodeItems, I32;
    BodyFound(m, least);
    StreamRoundTrip.StreamRoundTrip(m.items);
    ParamsAt(m.items);
  }

  lemma BodyFound(m: Layout, least: int32)
    requires FitsMessage(m) && 0 < least <= 36
    ensures |Written(m)| >= 36 && MessageParams(Written(m), least) == Params(EncodeItems(m.items))
  {
    hide I32, Params, FitsItem, EncodeItems, Holds;
    var d := Written(m);
    HeaderKept(m.header, EncodeItems(m.items));
    assert d[|m.header|..] == EncodeItems(m.items);
  }

  lemma HeaderKept(header: Buffer, body: Buffer)
    requires |header| >= 36
    ensures I32(header + body, 4) == I32(header, 4)
  {
    hide I32;
    HoldsSelf(header + body);
    HoldsConcat(header + body, 0, header, body);
    ReadWindow(header + body, 0, header, 4);
  }

  lemma {:induction false} ParamsAt(items: seq<Item>)
    ensures |ParamsOf(items)| == |items|
    ensures forall i :: 0 <= i < |items| ==> ParamsOf(items)[i] == ParamOf(items[i])
    decreases |items|
  {
    hide ParamOf;
    if items != [] {
      ParamsAt(items[1..]);
    }
  }

  // ----- fixed-width text -----

  /** `s` in a field with `n` blanks to spare. */
  function Padded(s: Buffer, n: nat): Buffer {
    s + seq(n, _ => 32)
  }

  predicate NoBlankEnd(s: Buffer) {
    s != [] ==> s[|s| - 1] != 32
  }

  lemma PaddedTrims(s: Buffer, n: nat)
    requires NoBlankEnd(s)
    ensures TrimBlanks(Padded(s, n)) == s
  {
    hide TrimBlanks;
    TrimBlanksIsTrim(Padded(s, n));
    TrimUnique(Padded(s, n), TrimBlanks(Padded(s, n)), s, {32});
  }

  // ----- the members of a group -----

  lemma LastOfThree(ms: seq<PcfParam>, a: PcfParam, b: PcfParam, c: PcfParam, id: int32)
    ensures LastInt(ms + [a, b, c], id) ==
            if c.id == id then c.intValue else if b.id == id then b.intValue
            else if a.id == id then a.intValue else LastInt(ms, id)
    ensures LastText(ms + [a, b, c], id) ==
            if c.id == id then c.text else if b.id == id then b.text
            else if a.id == id then a.text else LastText(ms, id)
  {
    hide LastInt, LastText;
    LastOfMore(ms, a, id);
    LastOfMore(ms + [a], b, id);
    LastOfMore(ms + [a] + [b], c, id);
    assert ms + [a] + [b] + [c] == ms + [a, b, c];
  }

  lemma LastOfMore(ms: seq<PcfParam>, p: PcfParam, id: int32)
    ensures LastInt(ms + [p], id) == if p.id == id then p.intValue else LastInt(ms, id)
    ensures LastText(ms + [p], id) == if p.id == id then p.text else LastText(ms, id)
  {
    assert (ms + [p])[..|ms|] == ms && (ms + [p])[|ms|] == p;
  }

  lemma LeavesOfThree(extra: seq<Wire>, a: Wire, b: Wire, c: Wire)
    ensures LeavesOf(extra + [a, b, c]) == LeavesOf(extra) + [LeafOf(a), LeafOf(b), LeafOf(c)]
  {
    hide LeafOf;
  }

  lemma LeafValues(id: int32, i: int32, ccsid: int32, s: Buffer, n: nat)
    requires NoBlankEnd(s)
    ensures LeafOf(WireInt(id, i)).id == id && LeafOf(WireInt(id, i)).intValue == i
    ensures var t := LeafOf(WireString(id, ccsid, Padded(s, n))); t.id == id && t.text == s
  {
    hide TrimBlanks;
    PaddedTrims(s, n);
  }
}
