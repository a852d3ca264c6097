/** When the statistics parser and the publication scan see the same parameters in one stream. */
module ParserAgreement {
  import opened Bytes
  import opened Pcf
  import opened Text
  import opened PcfParser
  import opened PublicationScan

  /** From `o` on, the stream is made of structures of at least 16 bytes and 16-byte group headers only. */
  predicate WholeStream(d: Buffer, o: nat)
    requires o <= |d|
    decreases |d| - o
  {
    o == |d| ||
    (ItemAt(d, o) && (I32(d, o) == MQCFT_GROUP ==> I32(d, o + 4) == 16) && WholeStream(d, o + I32(d, o + 4)))
  }

  /** The parser leaves the id at 0 when a structure is too short for its type; the monitor always reads it. */
  predicate TooShortForType(d: Buffer, o: nat)
    requires ItemAt(d, o)
  {
    var kind, len := I32(d, o), I32(d, o + 4);
    || (kind == MQCFT_INTEGER64 && len < 24)
    || (kind == MQCFT_STRING && len < 20)
    || (kind == MQCFT_STRING_LIST && len < 24)
  }

  predicate NoNegativeWidth(d: Buffer, o: nat)
    requires o <= |d| && WholeStream(d, o)
    decreases |d| - o
  {
    o == |d| || (!NegativeWidth(d, o) && NoNegativeWidth(d, o + I32(d, o + 4)))
  }

  predicate NoIdLost(d: Buffer, o: nat)
    requires o <= |d| && WholeStream(d, o)
    decreases |d| - o
  {
    o == |d| || ((TooShortForType(d, o) ==> I32(d, o + 8) == 0) && NoIdLost(d, o + I32(d, o + 4)))
  }

  /** The same (type, id) sequence. */
  predicate SameHeaders(ps: seq<Parameter>, ts: seq<Token>) {
    |ps| == |ts| && forall i :: 0 <= i < |ps| ==> ps[i].kind == ts[i].leaf.kind && ps[i].id == ts[i].leaf.id
  }

  /** Wherever the parser has an integer, the monitor has the same one. */
  predicate SameIntegers(ps: seq<Parameter>, ts: seq<Token>) {
    |ps| == |ts| && forall i :: 0 <= i < |ps| && ps[i].value.Int? ==> ps[i].value.i == ts[i].leaf.intValue
  }

  /** 16-byte group headers have nothing nested that could throw. */
  lemma {:induction false} WholeStreamThrows(d: Buffer, o: nat)
    requires o <= |d| && WholeStream(d, o)
    ensures Throws(d, o) <==> !NoNegativeWidth(d, o)
    decreases |d| - o
  {
    hide U32, I32, NegativeWidth;
    if o < |d| {
      WholeStreamThrows(d, o + I32(d, o + 4));
      if I32(d, o) == MQCFT_GROUP {
        assert d[o + 16..o + 16] == [] && !Throws([], 0);
      }
    }
  }

  lemma StructuresAgree(d: Buffer, o: nat)
    requires ItemAt(d, o) && (I32(d, o) == MQCFT_GROUP ==> I32(d, o + 4) == 16)
    ensures StructureAt(d, o)
    ensures Decode(d, o).Ok? ==>
              var p, leaf := Decode(d, o).value, LeafAt(d, o);
              && p.kind == leaf.kind && (p.value.Int? ==> p.value.i == leaf.intValue)
              && (p.id == leaf.id <==> (TooShortForType(d, o) ==> I32(d, o + 8) == 0))
  {
    hide U32, CleanString, IntItems, StringItems, TextAt;
  }

  lemma {:induction false} StreamsAgree(d: Buffer, o: nat, due: nat)
    requires o <= |d| && WholeStream(d, o)
    ensures Parse(d, o).Ok? ==> SameIntegers(Parse(d, o).value, Scan(d, o, due))
    ensures Parse(d, o).Ok? ==> (SameHeaders(Parse(d, o).value, Scan(d, o, due)) <==> NoIdLost(d, o))
    decreases |d| - o
  {
    hide U32, I32, Decode, LeafAt, TooShortForType;
    if o < |d| {
      StructuresAgree(d, o);
      var next := o + I32(d, o + 4);
      var due' := if due > 0 then due - 1 else if I32(d, o) == MQCFT_GROUP then MembersDue(d, o) else 0;
      StreamsAgree(d, next, due');
      assert Scan(d, o, due) == [Token(due > 0, LeafAt(d, o))] + Scan(d, next, due');
      if Parse(d, o).Ok? {
        var p, ps, ts := Decode(d, o).value, Parse(d, next).value, Scan(d, next, due');
        assert Parse(d, o).value == [p] + ps;
        HeadersCons(p, ps, Token(due > 0, LeafAt(d, o)), ts);
      }
    }
  }

  lemma HeadersCons(p: Parameter, ps: seq<Parameter>, t: Token, ts: seq<Token>)
    ensures SameHeaders([p] + ps, [t] + ts) <==> p.kind == t.leaf.kind && p.id == t.leaf.id && SameHeaders(ps, ts)
    ensures SameIntegers(ps, ts) && (p.value.Int? ==> p.value.i == t.leaf.intValue) ==>
              SameIntegers([p] + ps, [t] + ts)
  {
    var ps', ts' := [p] + ps, [t] + ts;
    assert ps'[0] == p && ts'[0] == t;
    assert forall i :: 0 <= i < |ps| ==> ps[i] == ps'[i + 1];
    assert forall i :: 0 <= i < |ts| ==> ts[i] == ts'[i + 1];
    if SameHeaders(ps', ts') {
      forall i | 0 <= i < |ps|
        ensures ps[i].kind == ts[i].leaf.kind && ps[i].id == ts[i].leaf.id
      {
        assert ps[i] == ps'[i + 1] && ts[i] == ts'[i + 1];
      }
    }
  }

  /** On a whole stream the parser returns unless a string list has a negative width, its integers are the
      monitor's, and the (type, id) sequences are the same exactly when no structure too short for its type
      carries an id. */
  lemma ParsersAgree(d: Buffer)
    requires WholeStream(d, 0)
    ensures Parse(d, 0).Ok? <==> NoNegativeWidth(d, 0)
    ensures Parse(d, 0).Ok? ==> SameIntegers(Parse(d, 0).value, Flatten(Params(d)))
    ensures Parse(d, 0).Ok? ==> (SameHeaders(Parse(d, 0).value, Flatten(Params(d))) <==> NoIdLost(d, 0))
  {
    ParseThrows(d, 0);
    WholeStreamThrows(d, 0);
    StreamsAgree(d, 0, 0);
    FlattenGroupScan(d);
  }

  const SHORT_INTEGER64: Buffer := [23, 0, 0, 0, 16, 0, 0, 0, 5, 0, 0, 0, 0, 0, 0, 0]

  /** A 16-byte MQCFIN64 with id 5: the parser reports id 0, the monitor id 5. */
  lemma ShortStructureLosesId()
    ensures WholeStream(SHORT_INTEGER64, 0) && Parse(SHORT_INTEGER64, 0) == Ok([Parameter(23, 0, Empty)])
    ensures Params(SHORT_INTEGER64) == [PcfParam(23, 5, 0, 0, [], [])]
  {
    var d := SHORT_INTEGER64;
    assert I32(d, 0) == 23 && I32(d, 4) == 16 && I32(d, 8) == 5;
    assert !StructureAt(d, 16) && !ItemAt(d, 16);
    var p := Parameter(23, 0, Empty);
    assert Decode(d, 0) == Ok(p) && Parse(d, 16) == Ok([]) && [p] + [] == [p];
    var t := Token(false, LeafAt(d, 0));
    assert Scan(d, 16, 0) == [] && Scan(d, 0, 0) == [t];
    assert [t][..0] == [] && PublicationScan.Group([]) == [] && PublicationScan.Group([t]) == [t.leaf];
  }
}
