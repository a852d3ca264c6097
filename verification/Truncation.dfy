/** A truncated message: what each scan finds in a prefix `e` of a buffer `d`. */
module Truncation {
  import opened Bytes
  import opened Pcf
  import opened Text
  import PcfParser
  import PublicationScan
  import PcfInquiry

  lemma CutRead(e: Buffer, d: Buffer, o: nat)
    requires e <= d && o + 4 <= |e|
    ensures U32(e, o) == U32(d, o) && I32(e, o) == I32(d, o)
  {
    assert d[..|e|] == e;
    assert e[o] == d[o] && e[o + 1] == d[o + 1] && e[o + 2] == d[o + 2] && e[o + 3] == d[o + 3];
  }

  lemma CutRead64(e: Buffer, d: Buffer, o: nat)
    requires e <= d && o + 8 <= |e|
    ensures I64(e, o) == I64(d, o)
  {
    CutRead(e, d, o);
    CutRead(e, d, o + 4);
  }

  lemma CutSlice(e: Buffer, d: Buffer, from: nat, to: nat)
    requires e <= d && from <= to <= |e|
    ensures e[from..to] == d[from..to]
  {
  }

  // ----- the statistics parser -----

  lemma {:induction false} CutIntItems(e: Buffer, d: Buffer, pos: nat, end: nat, count: int, wide: bool)
    requires e <= d && end <= |e|
    ensures PcfParser.IntItems(e, pos, end, count, wide) == PcfParser.IntItems(d, pos, end, count, wide)
    decreases count
  {
    hide I32, I64;
    if count > 0 && pos + 4 <= end {
      if wide && pos + 8 <= end {
        CutRead64(e, d, pos);
        CutIntItems(e, d, pos + 8, end, count - 1, wide);
      } else {
        CutRead(e, d, pos);
        CutIntItems(e, d, pos + 4, end, count - 1, wide);
      }
    }
  }

  lemma {:induction false} CutStringItems(e: Buffer, d: Buffer, pos: nat, end: nat, count: int, width: int32)
    requires e <= d && end <= |e|
    ensures PcfParser.StringItems(e, pos, end, count, width) == PcfParser.StringItems(d, pos, end, count, width)
    decreases count
  {
    hide CleanString;
    if count > 0 && 0 <= width && pos + width <= end {
      CutSlice(e, d, pos, pos + width);
      CutStringItems(e, d, pos + width, end, count - 1, width);
    }
  }

  /** StringLength of the structure at `o` runs past the cut but not past the whole buffer. */
  predicate StraddlesCut(e: Buffer, d: Buffer, o: nat)
    requires e <= d && PcfParser.StructureAt(e, o)
  {
    I32(e, o) == MQCFT_STRING && I32(e, o + 4) >= 20 && I32(e, o + 16) > 0 && |e| < 20 + I32(e, o + 16) <= |d|
  }

  lemma CutStringValue(e: Buffer, d: Buffer, o: nat)
    requires e <= d && PcfParser.StructureAt(e, o) && PcfParser.StructureAt(d, o)
    requires I32(e, o) == MQCFT_STRING && I32(e, o + 4) == I32(d, o + 4) >= 20
    ensures if StraddlesCut(e, d, o) then PcfParser.StringValue(e, o).Empty? && PcfParser.StringValue(d, o).String?
            else PcfParser.StringValue(e, o) == PcfParser.StringValue(d, o)
  {
    hide I32, CleanString;
    CutRead(e, d, o + 16);
    var len, strLen := I32(e, o + 4), I32(e, o + 16);
    if strLen > 0 {
      CutSlice(e, d, o + 20, o + 20 + if strLen <= len - 20 then strLen else len - 20);
    }
  }

  /** One structure found in the prefix is found in the whole; it decodes to the same parameter exactly when
      its StringLength does not straddle the cut, and else only loses its string. */
  lemma CutDecode(e: Buffer, d: Buffer, o: nat)
    requires e <= d && PcfParser.StructureAt(e, o)
    ensures PcfParser.StructureAt(d, o) && I32(e, o + 4) == I32(d, o + 4)
    ensures PcfParser.Decode(e, o) == PcfParser.Decode(d, o) <==> !StraddlesCut(e, d, o)
    ensures StraddlesCut(e, d, o) ==>
              && PcfParser.Decode(d, o).Ok? && PcfParser.Decode(d, o).value.value.String?
              && PcfParser.Decode(e, o) == PcfParser.Ok(PcfParser.Decode(d, o).value.(value := PcfParser.Empty))
  {
    hide I32, I64, PcfParser.StringValue, PcfParser.IntItems, PcfParser.StringItems, PcfParser.Parse;
    CutRead(e, d, o);
    CutRead(e, d, o + 4);
    var kind, len := I32(e, o), I32(e, o + 4);
    if len >= 12 {
      CutRead(e, d, o + 8);
    }
    if len >= 16 {
      CutRead(e, d, o + 12);
      CutIntItems(e, d, o + 16, o + len, I32(e, o + 12), kind == MQCFT_INTEGER64_LIST);
      CutSlice(e, d, o + 16, o + len);
    }
    if len >= 24 {
      CutRead64(e, d, o + 16);
      CutRead(e, d, o + 16);
      CutRead(e, d, o + 20);
      CutStringItems(e, d, o + 24, o + len, I32(e, o + 16), I32(e, o + 20));
    }
    if kind == MQCFT_STRING && len >= 20 {
      CutStringValue(e, d, o);
    }
  }

  /** The same parameter, or the same but for a string lost at the cut. */
  predicate SameOrEmptied(p: PcfParser.Parameter, q: PcfParser.Parameter) {
    p == q || (q.kind == MQCFT_STRING && q.value.String? && p == q.(value := PcfParser.Empty))
  }

  predicate PrefixUpToStrings(ps: seq<PcfParser.Parameter>, qs: seq<PcfParser.Parameter>) {
    |ps| <= |qs| && forall i :: 0 <= i < |ps| ==> SameOrEmptied(ps[i], qs[i])
  }

  /** For every buffer and cut: the parameters of the prefix are a prefix of those of the whole. */
  lemma {:induction false} CutParse(e: Buffer, d: Buffer, o: nat)
    requires e <= d && o <= |e| && PcfParser.Parse(d, o).Ok?
    ensures PcfParser.Parse(e, o).Ok?
    ensures PrefixUpToStrings(PcfParser.Parse(e, o).value, PcfParser.Parse(d, o).value)
    decreases |e| - o
  {
    hide I32, PcfParser.Decode, StraddlesCut, SameOrEmptied;
    if PcfParser.StructureAt(e, o) {
      CutDecode(e, d, o);
      var next := o + I32(e, o + 4);
      CutParse(e, d, next);
      var p, q := PcfParser.Decode(e, o).value, PcfParser.Decode(d, o).value;
      assert SameOrEmptied(p, q) by {
        DecodedKind(d, o);
        EmptiedIsAllowed(p, q);
      }
      var ps, qs := PcfParser.Parse(e, next).value, PcfParser.Parse(d, next).value;
      assert PcfParser.Parse(e, o).value == [p] + ps && PcfParser.Parse(d, o).value == [q] + qs;
    }
  }

  lemma DecodedKind(d: Buffer, o: nat)
    requires PcfParser.StructureAt(d, o) && PcfParser.Decode(d, o).Ok?
    ensures PcfParser.Decode(d, o).value.value.String? ==> PcfParser.Decode(d, o).value.kind == MQCFT_STRING
  {
    hide I32, I64;
  }

  lemma EmptiedIsAllowed(p: PcfParser.Parameter, q: PcfParser.Parameter)
    ensures p == q ==> SameOrEmptied(p, q)
    ensures q.kind == MQCFT_STRING && q.value.String? && p == q.(value := PcfParser.Empty) ==> SameOrEmptied(p, q)
  {
  }

  // ----- the publication scan -----

  predicate SameOrBlanked(t: PublicationScan.Token, u: PublicationScan.Token) {
    t == u || (u.leaf.kind == MQCFT_STRING && t == u.(leaf := u.leaf.(text := [])))
  }

  /** A structure whose string fits inside it reads the same; any other only loses its text. */
  lemma CutLeaf(e: Buffer, d: Buffer, o: nat, member: bool)
    requires e <= d && PublicationScan.ItemAt(e, o)
    ensures PublicationScan.ItemAt(d, o) && I32(e, o) == I32(d, o) && I32(e, o + 4) == I32(d, o + 4)
    ensures I32(e, o + 12) == I32(d, o + 12)
    ensures SameOrBlanked(PublicationScan.Token(member, PublicationScan.LeafAt(e, o)),
                          PublicationScan.Token(member, PublicationScan.LeafAt(d, o)))
    ensures I32(e, o + 4) >= 20 && 20 + I32(e, o + 16) <= I32(e, o + 4) ==>
              PublicationScan.LeafAt(e, o) == PublicationScan.LeafAt(d, o)
  {
    hide I32, I64, TrimBlanks;
    CutRead(e, d, o);
    CutRead(e, d, o + 4);
    CutRead(e, d, o + 8);
    CutRead(e, d, o + 12);
    var len := I32(e, o + 4);
    if len >= 20 {
      CutRead(e, d, o + 16);
      var strLen := I32(e, o + 16);
      if strLen > 0 && o + 20 + strLen <= |e| {
        CutSlice(e, d, o + 20, o + 20 + strLen);
      }
    }
    if len >= 24 {
      CutRead64(e, d, o + 16);
    }
  }

  /** For every buffer, cut and group state: the tokens of the prefix are a prefix of those of the whole,
      so a group cut short keeps the members before the cut. */
  lemma {:induction false} CutScan(e: Buffer, d: Buffer, o: nat, due: nat)
    requires e <= d
    ensures |PublicationScan.Scan(e, o, due)| <= |PublicationScan.Scan(d, o, due)|
    ensures forall i :: 0 <= i < |PublicationScan.Scan(e, o, due)| ==>
              SameOrBlanked(PublicationScan.Scan(e, o, due)[i], PublicationScan.Scan(d, o, due)[i])
    decreases |e| - o
  {
    hide I32, SameOrBlanked, PublicationScan.LeafAt;
    if PublicationScan.ItemAt(e, o) {
      CutLeaf(e, d, o, due > 0);
      var len, group := I32(e, o + 4), due == 0 && I32(e, o) == MQCFT_GROUP;
      CutScan(e, d, if group then o + 16 else o + len,
              if due > 0 then due - 1 else if group then PublicationScan.MembersDue(e, o) else 0);
    }
  }

  // ----- the inquiry scan -----

  predicate SameOrShort(v: PcfInquiry.Visit, w: PcfInquiry.Visit) {
    v == w || (w.len < 12 && v == w.(id := 0))
  }

  lemma CutVisit(e: Buffer, d: Buffer, o: nat)
    requires e <= d && PcfInquiry.ParamAt(e, o)
    ensures PcfInquiry.ParamAt(d, o) && U32(e, o + 4) == U32(d, o + 4)
    ensures SameOrShort(PcfInquiry.VisitAt(e, o), PcfInquiry.VisitAt(d, o))
  {
    hide U32;
    CutRead(e, d, o);
    CutRead(e, d, o + 4);
    if o + 12 <= |e| {
      CutRead(e, d, o + 8);
    }
  }

  /** For every buffer and cut: the visited spans of the prefix are a prefix of those of the whole; an id can
      only be lost by a structure too short to hold one. */
  lemma {:induction false} CutVisits(e: Buffer, d: Buffer, o: nat)
    requires e <= d
    ensures |PcfInquiry.Visits(e, o)| <= |PcfInquiry.Visits(d, o)|
    ensures forall i :: 0 <= i < |PcfInquiry.Visits(e, o)| ==>
              SameOrShort(PcfInquiry.Visits(e, o)[i], PcfInquiry.Visits(d, o)[i])
    decreases |e| - o
  {
    hide U32, SameOrShort, PcfInquiry.VisitAt;
    if PcfInquiry.ParamAt(e, o) {
      CutVisit(e, d, o);
      CutVisits(e, d, o + U32(e, o + 4));
    }
  }

  /** The inquiry readers stay inside the structure, so a value wholly before the cut always reads the same. */
  lemma CutValues(e: Buffer, d: Buffer, v: PcfInquiry.Visit)
    requires e <= d && v.start + v.len <= |e| && PcfInquiry.StringInside(e, v)
    ensures PcfInquiry.StringInside(d, v)
    ensures PcfInquiry.ReadPcfString(e, v) == PcfInquiry.ReadPcfString(d, v)
    ensures PcfInquiry.ReadPcfInt32(e, v) == PcfInquiry.ReadPcfInt32(d, v)
    ensures PcfInquiry.ReadPcfInt64(e, v) == PcfInquiry.ReadPcfInt64(d, v)
  {
    hide U32, I32, I64, TrimPadding;
    if v.len >= 16 {
      CutRead(e, d, v.start + 12);
    }
    if v.len >= 24 {
      CutRead(e, d, v.start + 16);
      CutRead64(e, d, v.start + 16);
      CutSlice(e, d, v.start + 20, v.start + 20 + PcfInquiry.CopiedLength(v.len, U32(e, v.start + 16)));
    }
  }
}
