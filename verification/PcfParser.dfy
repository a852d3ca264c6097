/** `PCFParser::parse_parameters`: structures of at least 8 bytes, group members nested inside the
    group's StrucLength. */
module PcfParser {
  import opened Bytes
  import opened Pcf
  import opened Text

  /** The `std::variant` held by a parsed parameter. */
  datatype Value =
    | Empty
    | Int(i: int32)
    | String(s: Buffer)
    | Ints(ints: seq<int64>)
    | Strings(strings: seq<Buffer>)
    | Group(members: seq<Parameter>)

  datatype Parameter = Parameter(kind: int32, id: int32, value: Value)

  /** A parse either returns or leaves through the `std::length_error` that
      `std::string(pointer, n)` throws for a negative `n`. */
  datatype Parsed<+T> = Ok(value: T) | LengthError {
    predicate IsFailure() {
      LengthError?
    }
    function PropagateFailure<U>(): Parsed<U>
      requires LengthError?
    {
      LengthError
    }
    function Extract(): T
      requires Ok?
    {
      value
    }
  }

  /** The scan goes on at `o`: 8 header bytes are left and StrucLength is positive and fits. */
  predicate StructureAt(d: Buffer, o: nat) {
    o + 8 <= |d| && 0 < I32(d, o + 4) <= |d| - o
  }

  function IntItems(d: Buffer, pos: nat, end: nat, count: int, wide: bool): seq<int64>
    requires end <= |d|
    decreases count
  {
    if count <= 0 || pos + 4 > end then []
    else if wide && pos + 8 <= end then [I64(d, pos)] + IntItems(d, pos + 8, end, count - 1, wide)
    else [I32(d, pos)] + IntItems(d, pos + 4, end, count - 1, wide)
  }

  /** `val_offset + str_len` is a `size_t` sum: a negative width passes the bound unless it wraps below zero. */
  function StringItems(d: Buffer, pos: nat, end: nat, count: int, width: int32): Parsed<seq<Buffer>>
    requires end <= |d|
    decreases count
  {
    if count <= 0 then Ok([])
    else if width < 0 then if pos + width >= 0 then LengthError else Ok([])
    else if pos + width > end then Ok([])
    else
      var rest :- StringItems(d, pos + width, end, count - 1, width);
      Ok([CleanString(d[pos..pos + width])] + rest)
  }

  /** The string of a MQCFST: the bound on StringLength is the whole buffer, the bytes taken are the structure's. */
  function StringValue(d: Buffer, o: nat): Value
    requires StructureAt(d, o) && I32(d, o + 4) >= 20
  {
    var len, strLen := I32(d, o + 4), I32(d, o + 16);
    if strLen > 0 && 20 + strLen <= |d| then
      String(CleanString(d[o + 20..o + 20 + if strLen <= len - 20 then strLen else len - 20]))
    else Empty
  }

  function Decode(d: Buffer, o: nat): Parsed<Parameter>
    requires StructureAt(d, o)
    decreases |d|, |d| - o, 0
  {
    var kind, len := I32(d, o), I32(d, o + 4);
    if kind == MQCFT_INTEGER then
      Ok(if len >= 16 then Parameter(kind, I32(d, o + 8), Int(I32(d, o + 12))) else Parameter(kind, 0, Empty))
    else if kind == MQCFT_INTEGER64 then
      Ok(if len >= 24 then Parameter(kind, I32(d, o + 8), Int(Wrap32(I64(d, o + 16)))) else Parameter(kind, 0, Empty))
    else if kind == MQCFT_STRING then
      Ok(if len >= 20 then Parameter(kind, I32(d, o + 8), StringValue(d, o)) else Parameter(kind, 0, Empty))
    else if kind == MQCFT_INTEGER_LIST || kind == MQCFT_INTEGER64_LIST then
      Ok(if len >= 16 then
           Parameter(kind, I32(d, o + 8),
                     Ints(IntItems(d, o + 16, o + len, I32(d, o + 12), kind == MQCFT_INTEGER64_LIST)))
         else Parameter(kind, 0, Empty))
    else if kind == MQCFT_STRING_LIST then
      if len >= 24 then
        var strings :- StringItems(d, o + 24, o + len, I32(d, o + 16), I32(d, o + 20));
        Ok(Parameter(kind, I32(d, o + 8), Strings(strings)))
      else Ok(Parameter(kind, 0, Empty))
    else if kind == MQCFT_GROUP then
      if len >= 16 then
        var members :- Parse(d[o + 16..o + len], 0);
        Ok(Parameter(kind, I32(d, o + 8), Group(members)))
      else Ok(Parameter(kind, 0, Empty))
    else
      Ok(Parameter(kind, if len >= 12 then I32(d, o + 8) else 0, Empty))
  }

  /** The parameters from offset `o` to the first place where no structure fits. */
  function Parse(d: Buffer, o: nat): Parsed<seq<Parameter>>
    requires o <= |d|
    decreases |d|, |d| - o, 1
  {
    if !StructureAt(d, o) then Ok([])
    else
      var p :- Decode(d, o);
      var rest :- Parse(d, o + I32(d, o + 4));
      Ok([p] + rest)
  }

  function Prepend<T>(done: seq<T>, rest: Parsed<seq<T>>): Parsed<seq<T>> {
    if rest.Ok? then Ok(done + rest.value) else LengthError
  }

  lemma PrependNothing<T>(rest: Parsed<seq<T>>)
    ensures Prepend([], rest) == rest
  {
    assert rest.Ok? ==> [] + rest.value == rest.value;
  }

  lemma PrependOne<T>(done: seq<T>, x: T, rest: Parsed<seq<T>>)
    ensures Prepend(done, Prepend([x], rest)) == Prepend(done + [x], rest)
  {
    assert rest.Ok? ==> done + ([x] + rest.value) == done + [x] + rest.value;
  }

  // ----- the loops of the source -----

  /** What the loops keep: the parse of the whole is what is done followed by the parse of the rest. */
  ghost predicate IntsSoFar(all: seq<int64>, done: seq<int64>, d: Buffer, pos: nat, end: nat, count: int, wide: bool)
    requires end <= |d|
  {
    all == done + IntItems(d, pos, end, count, wide)
  }

  lemma IntsStep(all: seq<int64>, done: seq<int64>, d: Buffer, pos: nat, end: nat, count: int, wide: bool)
    requires end <= |d| && count > 0 && pos + 4 <= end
    requires IntsSoFar(all, done, d, pos, end, count, wide)
    ensures if wide && pos + 8 <= end then IntsSoFar(all, done + [I64(d, pos)], d, pos + 8, end, count - 1, wide)
            else IntsSoFar(all, done + [I32(d, pos)], d, pos + 4, end, count - 1, wide)
  {
    if wide && pos + 8 <= end {
      var rest := IntItems(d, pos + 8, end, count - 1, wide);
      assert done + ([I64(d, pos)] + rest) == done + [I64(d, pos)] + rest;
    } else {
      var rest := IntItems(d, pos + 4, end, count - 1, wide);
      assert done + ([I32(d, pos)] + rest) == done + [I32(d, pos)] + rest;
    }
  }

  ghost predicate StringsSoFar(all: Parsed<seq<Buffer>>, done: seq<Buffer>, d: Buffer, pos: nat, end: nat, count: int, width: int32)
    requires end <= |d|
  {
    all == Prepend(done, StringItems(d, pos, end, count, width))
  }

  lemma StringsStep(all: Parsed<seq<Buffer>>, done: seq<Buffer>, d: Buffer, pos: nat, end: nat, count: int, width: int32)
    requires end <= |d| && count > 0 && width >= 0 && pos + width <= end
    requires StringsSoFar(all, done, d, pos, end, count, width)
    ensures StringsSoFar(all, done + [CleanString(d[pos..pos + width])], d, pos + width, end, count - 1, width)
  {
    PrependOne(done, CleanString(d[pos..pos + width]), StringItems(d, pos + width, end, count - 1, width));
  }

  method ReadInts(d: Buffer, start: nat, end: nat, count: int, wide: bool) returns (values: seq<int64>)
    requires start <= end <= |d|
    ensures values == IntItems(d, start, end, count, wide)
  {
    ghost var all := IntItems(d, start, end, count, wide);
    values := [];
    var valOffset := start;
    var i := 0;
    assert [] + all == all;
    while i < count && valOffset + 4 <= end
      invariant 0 <= valOffset
      invariant IntsSoFar(all, values, d, valOffset, end, count - i, wide)
    {
      IntsStep(all, values, d, valOffset, end, count - i, wide);
      if wide && valOffset + 8 <= end {
        values := values + [I64(d, valOffset)];
        valOffset := valOffset + 8;
      } else {
        values := values + [I32(d, valOffset)];
        valOffset := valOffset + 4;
      }
      i := i + 1;
    }
    assert values + [] == values;
  }

  method ReadStrings(d: Buffer, start: nat, end: nat, count: int, width: int32) returns (r: Parsed<seq<Buffer>>)
    requires start <= end <= |d|
    ensures r == StringItems(d, start, end, count, width)
  {
    ghost var all := StringItems(d, start, end, count, width);
    var strings: seq<Buffer> := [];
    var valOffset := start;
    var i := 0;
    PrependNothing(all);
    while i < count && 0 <= valOffset + width <= end
      invariant 0 <= valOffset <= end
      invariant StringsSoFar(all, strings, d, valOffset, end, count - i, width)
    {
      if width < 0 {
        return LengthError;
      }
      StringsStep(all, strings, d, valOffset, end, count - i, width);
      strings := strings + [CleanString(d[valOffset..valOffset + width])];
      valOffset := valOffset + width;
      i := i + 1;
    }
    assert StringItems(d, valOffset, end, count - i, width) == Ok([]) && strings + [] == strings;
    r := Ok(strings);
  }

  /** The switch over the structure type. */
  method DecodeStructure(data: Buffer, offset: nat) returns (r: Parsed<Parameter>)
    requires StructureAt(data, offset)
    ensures r == Decode(data, offset)
    decreases |data|, 0
  {
    var kind, len := I32(data, offset), I32(data, offset + 4);
    var id, value := 0, Empty;
    if kind == MQCFT_INTEGER {
      if len >= 16 {
        id, value := I32(data, offset + 8), Int(I32(data, offset + 12));
      }
    } else if kind == MQCFT_INTEGER64 {
      if len >= 24 {
        id, value := I32(data, offset + 8), Int(Wrap32(I64(data, offset + 16)));
      }
    } else if kind == MQCFT_STRING {
      if len >= 20 {
        id, value := I32(data, offset + 8), StringValue(data, offset);
      }
    } else if kind == MQCFT_INTEGER_LIST || kind == MQCFT_INTEGER64_LIST {
      if len >= 16 {
        id := I32(data, offset + 8);
        var ints := ReadInts(data, offset + 16, offset + len, I32(data, offset + 12), kind == MQCFT_INTEGER64_LIST);
        value := Ints(ints);
      }
    } else if kind == MQCFT_STRING_LIST {
      if len >= 24 {
        id := I32(data, offset + 8);
        var strings :- ReadStrings(data, offset + 24, offset + len, I32(data, offset + 16), I32(data, offset + 20));
        value := Strings(strings);
      }
    } else if kind == MQCFT_GROUP {
      if len >= 16 {
        id := I32(data, offset + 8);
        var nested :- ParseParameters(data[offset + 16..offset + len]);
        value := Group(nested);
      }
    } else {
      id := if len >= 12 then I32(data, offset + 8) else 0;
    }
    r := Ok(Parameter(kind, id, value));
  }

  ghost predicate ParsedSoFar(d: Buffer, done: seq<Parameter>, o: nat)
    requires o <= |d|
  {
    Parse(d, 0) == Prepend(done, Parse(d, o))
  }

  lemma ParseStep(d: Buffer, done: seq<Parameter>, o: nat)
    requires StructureAt(d, o) && ParsedSoFar(d, done, o)
    ensures Decode(d, o).Ok? ==> ParsedSoFar(d, done + [Decode(d, o).value], o + I32(d, o + 4))
    ensures Decode(d, o).LengthError? ==> Parse(d, 0).LengthError?
  {
    if Decode(d, o).Ok? {
      PrependOne(done, Decode(d, o).value, Parse(d, o + I32(d, o + 4)));
    }
  }

  lemma ParseEnd(d: Buffer, done: seq<Parameter>, o: nat)
    requires o <= |d| && !StructureAt(d, o) && ParsedSoFar(d, done, o)
    ensures Parse(d, 0) == Ok(done)
  {
    assert done + [] == done;
  }

  /** Total on every byte string: the loop with its recursion computes `Parse`. */
  method ParseParameters(data: Buffer) returns (r: Parsed<seq<Parameter>>)
    ensures r == Parse(data, 0)
    decreases |data|, 1
  {
    var params: seq<Parameter> := [];
    var offset := 0;
    PrependNothing(Parse(data, 0));
    while offset + 8 <= |data|
      invariant offset <= |data|
      invariant ParsedSoFar(data, params, offset)
      decreases |data| - offset
    {
      var len := I32(data, offset + 4);
      if len <= 0 || len > |data| - offset {
        break;
      }
      ParseStep(data, params, offset);
      var param :- DecodeStructure(data, offset);
      params := params + [param];
      offset := offset + len;
    }
    ParseEnd(data, params, offset);
    r := Ok(params);
  }

  // ----- bounds -----

  function Depth(p: Parameter): nat
    decreases p, 0
  {
    if p.value.Group? then 1 + DepthAll(p.value.members) else 0
  }

  /** How deep groups are nested. */
  function DepthAll(ps: seq<Parameter>): nat
    decreases ps, 1
  {
    if ps == [] then 0
    else if Depth(ps[0]) > DepthAll(ps[1..]) then Depth(ps[0]) else DepthAll(ps[1..])
  }

  lemma {:induction false} DecodeDepth(d: Buffer, o: nat)
    requires StructureAt(d, o) && Decode(d, o).Ok?
    ensures 16 * Depth(Decode(d, o).value) <= |d|
    decreases |d|, |d| - o, 0
  {
    hide U32, I64, IntItems, StringItems, CleanString, DepthAll;
    if I32(d, o) == MQCFT_GROUP && I32(d, o + 4) >= 16 {
      ParseBounds(d[o + 16..o + I32(d, o + 4)], 0);
    }
  }

  /** On every byte string: no more parameters than bytes, and groups no deeper than one per 16 bytes. */
  lemma {:induction false} ParseBounds(d: Buffer, o: nat)
    requires o <= |d| && Parse(d, o).Ok?
    ensures |Parse(d, o).value| <= |d| - o
    ensures 16 * DepthAll(Parse(d, o).value) <= |d|
    decreases |d|, |d| - o, 1
  {
    hide I32, Decode, Depth;
    if StructureAt(d, o) {
      DecodeDepth(d, o);
      ParseBounds(d, o + I32(d, o + 4));
      var p, rest := Decode(d, o).value, Parse(d, o + I32(d, o + 4)).value;
      assert ([p] + rest)[1..] == rest;
    }
  }

  // ----- when a parse leaves through the exception -----

  /** A string list of negative width with something to read: the offset sum does not fall below zero. */
  predicate NegativeWidth(d: Buffer, o: nat)
    requires StructureAt(d, o)
  {
    && I32(d, o) == MQCFT_STRING_LIST && I32(d, o + 4) >= 24
    && I32(d, o + 16) > 0 && I32(d, o + 20) < 0 <= o + 24 + I32(d, o + 20)
  }

  /** The scan from `o` on, or the scan of some nested group, comes to such a list. */
  predicate Throws(d: Buffer, o: nat)
    requires o <= |d|
    decreases |d|, |d| - o
  {
    StructureAt(d, o) &&
    (|| NegativeWidth(d, o)
     || (I32(d, o) == MQCFT_GROUP && I32(d, o + 4) >= 16 && Throws(d[o + 16..o + I32(d, o + 4)], 0))
     || Throws(d, o + I32(d, o + 4)))
  }

  lemma StringItemsThrow(d: Buffer, pos: nat, end: nat, count: int, width: int32)
    requires end <= |d|
    ensures StringItems(d, pos, end, count, width).LengthError? <==> count > 0 && width < 0 <= pos + width
    decreases count
  {
    hide CleanString;
    if count > 0 && width >= 0 && pos + width <= end {
      StringItemsThrow(d, pos + width, end, count - 1, width);
    }
  }

  lemma {:induction false} DecodeThrows(d: Buffer, o: nat)
    requires StructureAt(d, o)
    ensures Decode(d, o).LengthError? <==>
              || NegativeWidth(d, o)
              || (I32(d, o) == MQCFT_GROUP && I32(d, o + 4) >= 16 && Throws(d[o + 16..o + I32(d, o + 4)], 0))
    decreases |d|, |d| - o, 0
  {
    hide U32, I32, I64, IntItems, StringItems, StringValue, Throws;
    var kind, len := I32(d, o), I32(d, o + 4);
    if kind == MQCFT_STRING_LIST && len >= 24 {
      StringItemsThrow(d, o + 24, o + len, I32(d, o + 16), I32(d, o + 20));
    } else if kind == MQCFT_GROUP && len >= 16 {
      ParseThrows(d[o + 16..o + len], 0);
    }
  }

  /** On every byte string: the parser leaves through the exception exactly when the scan, at any depth, comes
      to a string list of negative width with something to read. */
  lemma {:induction false} ParseThrows(d: Buffer, o: nat)
    requires o <= |d|
    ensures Parse(d, o).LengthError? <==> Throws(d, o)
    decreases |d|, |d| - o, 1
  {
    hide I32, Decode, NegativeWidth;
    if StructureAt(d, o) {
      DecodeThrows(d, o);
      ParseThrows(d, o + I32(d, o + 4));
    }
  }

  const NEGATIVE_WIDTH_LIST: Buffer :=
    [6, 0, 0, 0, 24, 0, 0, 0, 1, 0, 0, 0, 0, 0, 0, 0, 1, 0, 0, 0, 255, 255, 255, 255]

  /** A 24-byte message that throws: one MQCFSL announcing one string of width -1. */
  lemma NegativeWidthThrows()
    ensures Parse(NEGATIVE_WIDTH_LIST, 0).LengthError?
  {
    var d := NEGATIVE_WIDTH_LIST;
    assert I32(d, 0) == 6 && I32(d, 4) == 24 && I32(d, 16) == 1 && I32(d, 20) == -1;
    assert NegativeWidth(d, 0);
    ParseThrows(d, 0);
  }
}
