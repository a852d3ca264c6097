/** `PCFParser::parse_mqi_stats`: the recursive fold of a parameter tree into MQI statistics. Sums in an
    `int32_t` are taken modulo 2^32, sums in an `int64_t` modulo 2^64. */
module MqiStats {
  import opened Bytes
  import opened PcfParser

  /** The numeric fields that a value list sets, by the one parameter id that sets each of them. */
  predicate Listed(f: int32) {
    || Accumulates(f)
    || f == 705 || f == 727 || f == 744 || f == 817 || f == 790 || f == 818 || f == 791 || f == 726
    || 770 <= f <= 779 || f == 781 || 783 <= f <= 787
  }

  /** The numeric fields that a single value sets. */
  predicate Single(f: int32) {
    || Accumulates(f)
    || f == 705 || f == 727 || f == 744 || 765 <= f <= 767 || f == 726 || 769 <= f <= 779 || f == 788
    || f == 817 || f == 790 || f == 1527 || f == 1511 || f == 720
  }

  /** The `int64_t` fields. */
  predicate Wide(f: int32) {
    f == 818 || f == 791 || f == 781 || 783 <= f <= 787
  }

  const OPENS: int32 := 733
  const CLOSES: int32 := 709
  const PUTS: int32 := 735
  const GETS: int32 := 722
  const COMMITS: int32 := 710
  const BACKOUTS: int32 := 704
  const BROWSES: int32 := 705

  /** The counters that groups add to. */
  predicate Accumulates(f: int32) {
    f == OPENS || f == CLOSES || f == PUTS || f == GETS || f == COMMITS || f == BACKOUTS
  }

  datatype TextField = ApplicationName | ApplicationTag | UserIdentifier | ConnectionName | ChannelName

  predicate Names(id: int32, t: TextField) {
    match t
    case ApplicationName => id == 2024 || id == 3024
    case ApplicationTag => id == 3058
    case UserIdentifier => id == 3025
    case ConnectionName => id == 3506
    case ChannelName => id == 3501
  }

  /** The fields that were assigned; the others are 0 or empty. */
  datatype MqiStatistics = MqiStatistics(numbers: map<int32, int>, texts: map<TextField, Buffer>) {
    function Get(f: int32): int {
      if f in numbers then numbers[f] else 0
    }
    function Text(t: TextField): Buffer {
      if t in texts then texts[t] else []
    }
  }

  /** The exact sum of a value list. */
  function Total(vs: seq<int64>): int {
    if vs == [] then 0 else Total(vs[..|vs| - 1]) + vs[|vs| - 1]
  }

  /** `p` overwrites field `f`. */
  predicate Sets(p: Parameter, f: int32) {
    p.id == f && ((p.value.Ints? && Listed(f)) || (p.value.Int? && Single(f)))
  }

  function FlatValue(p: Parameter): int
    requires p.value.Int? || p.value.Ints?
  {
    if p.value.Int? then p.value.i
    else if Wide(p.id) then Wrap64(Total(p.value.ints))
    else Wrap32(Total(p.value.ints))
  }

  /** The value of `f` after the list has been folded from the left. */
  function Fold(ps: seq<Parameter>, f: int32): int
    decreases ps, 0
  {
    if ps == [] then 0
    else
      var before, p := Fold(ps[..|ps| - 1], f), ps[|ps| - 1];
      if p.value.Group? then if Accumulates(f) then Wrap32(before + Nested(p, f)) else before
      else if Sets(p, f) then FlatValue(p)
      else before
  }

  function Nested(p: Parameter, f: int32): int
    requires p.value.Group?
    decreases p, 0
  {
    Fold(p.value.members, f)
  }

  /** A text field is the last one assigned; of a group, only a non-empty application name is taken over. */
  function TextFold(ps: seq<Parameter>, t: TextField): Buffer
    decreases ps, 0
  {
    if ps == [] then []
    else
      var before, p := TextFold(ps[..|ps| - 1], t), ps[|ps| - 1];
      if p.value.Group? then
        if t.ApplicationName? && NestedName(p) != [] then NestedName(p) else before
      else if p.value.String? && Names(p.id, t) then p.value.s
      else before
  }

  function NestedName(p: Parameter): Buffer
    requires p.value.Group?
    decreases p, 0
  {
    TextFold(p.value.members, ApplicationName)
  }

  // ----- the method of the source -----

  lemma WrapCongruent(a: int, b: int)
    requires (a - b) % 0x1_0000_0000 == 0
    ensures Wrap32(a) == Wrap32(b)
  {
  }

  lemma WrapSum(a: int, b: int)
    ensures Wrap32(Wrap32(a) + Wrap32(b)) == Wrap32(a + b)
    ensures Wrap32(Wrap32(a) + b) == Wrap32(a + b)
  {
    hide Wrap32;
    WrapCongruent(Wrap32(a) + Wrap32(b), a + b);
    WrapCongruent(Wrap32(a) + b, a + b);
  }

  lemma WideSum(a: int, b: int)
    ensures Wrap64(Wrap64(a) + b) == Wrap64(a + b)
  {
  }

  /** The two accumulators of a value list. */
  method SumList(values: seq<int64>) returns (sum32: int32, sum64: int64)
    ensures sum32 == Wrap32(Total(values)) && sum64 == Wrap64(Total(values))
  {
    hide Wrap32, Wrap64;
    sum32, sum64 := 0, 0;
    WrapZero();
    for i := 0 to |values|
      invariant sum32 == Wrap32(Total(values[..i])) && sum64 == Wrap64(Total(values[..i]))
    {
      WrapSum(Total(values[..i]), values[i]);
      WideSum(Total(values[..i]), values[i]);
      assert values[..i + 1][..i] == values[..i];
      sum32, sum64 := Wrap32(sum32 + Wrap32(values[i])), Wrap64(sum64 + values[i]);
    }
    assert values[..|values|] == values;
  }

  lemma WrapZero()
    ensures Wrap32(0) == 0 && Wrap64(0) == 0
  {
  }

  ghost predicate FoldsTo(s: MqiStatistics, ps: seq<Parameter>) {
    && (forall f: int32 :: s.Get(f) == Fold(ps, f))
    && (forall t: TextField :: s.Text(t) == TextFold(ps, t))
  }

  lemma FoldStep(ps: seq<Parameter>, k: nat, f: int32)
    requires k < |ps|
    ensures Fold(ps[..k + 1], f) ==
            (var before, p := Fold(ps[..k], f), ps[k];
             if p.value.Group? then if Accumulates(f) then Wrap32(before + Nested(p, f)) else before
             else if Sets(p, f) then FlatValue(p)
             else before)
  {
    assert ps[..k + 1][..k] == ps[..k];
  }

  lemma TextStep(ps: seq<Parameter>, k: nat, t: TextField)
    requires k < |ps|
    ensures TextFold(ps[..k + 1], t) ==
            (var before, p := TextFold(ps[..k], t), ps[k];
             if p.value.Group? then if t.ApplicationName? && NestedName(p) != [] then NestedName(p) else before
             else if p.value.String? && Names(p.id, t) then p.value.s
             else before)
  {
    assert ps[..k + 1][..k] == ps[..k];
  }

  function Plus(s: MqiStatistics, ns: MqiStatistics, f: int32): int32 {
    Wrap32(s.Get(f) + ns.Get(f))
  }

  /** `stats.opens += ns.opens` and so on, and the application name where the group has one. */
  function AddNested(s: MqiStatistics, ns: MqiStatistics): MqiStatistics {
    MqiStatistics(
      s.numbers[OPENS := Plus(s, ns, OPENS)][CLOSES := Plus(s, ns, CLOSES)][PUTS := Plus(s, ns, PUTS)]
               [GETS := Plus(s, ns, GETS)][COMMITS := Plus(s, ns, COMMITS)][BACKOUTS := Plus(s, ns, BACKOUTS)],
      if ns.Text(ApplicationName) != [] then s.texts[ApplicationName := ns.Text(ApplicationName)] else s.texts)
  }

  lemma AddedNumber(s: MqiStatistics, ns: MqiStatistics, f: int32)
    ensures AddNested(s, ns).Get(f) == if Accumulates(f) then Plus(s, ns, f) else s.Get(f)
  {
    hide Plus;
  }

  lemma StepGroup(s: MqiStatistics, ns: MqiStatistics, ps: seq<Parameter>, k: nat)
    requires k < |ps| && ps[k].value.Group? && FoldsTo(s, ps[..k]) && FoldsTo(ns, ps[k].value.members)
    ensures FoldsTo(AddNested(s, ns), ps[..k + 1])
  {
    hide Wrap32, Fold, TextFold, Accumulates;
    var r := AddNested(s, ns);
    forall f: int32
      ensures r.Get(f) == Fold(ps[..k + 1], f)
    {
      FoldStep(ps, k, f);
      AddedNumber(s, ns, f);
      assert s.Get(f) == Fold(ps[..k], f) && ns.Get(f) == Fold(ps[k].value.members, f);
    }
    forall t: TextField
      ensures r.Text(t) == TextFold(ps[..k + 1], t)
    {
      TextStep(ps, k, t);
      assert s.Text(t) == TextFold(ps[..k], t) && ns.Text(ApplicationName) == NestedName(ps[k]);
    }
  }

  /** The switch over a numeric parameter assigns its field, if it has one. */
  lemma StepNumber(s: MqiStatistics, r: MqiStatistics, ps: seq<Parameter>, k: nat)
    requires k < |ps| && (ps[k].value.Int? || ps[k].value.Ints?) && FoldsTo(s, ps[..k])
    requires r == if Sets(ps[k], ps[k].id) then s.(numbers := s.numbers[ps[k].id := FlatValue(ps[k])]) else s
    ensures FoldsTo(r, ps[..k + 1])
  {
    hide Fold, TextFold, FlatValue, Listed, Single;
    forall f: int32
      ensures r.Get(f) == Fold(ps[..k + 1], f)
    {
      FoldStep(ps, k, f);
      assert s.Get(f) == Fold(ps[..k], f);
    }
    forall t: TextField
      ensures r.Text(t) == TextFold(ps[..k + 1], t)
    {
      TextStep(ps, k, t);
      assert s.Text(t) == TextFold(ps[..k], t);
    }
  }

  /** The switch over a string assigns at most one text field; other values change nothing. */
  lemma StepText(s: MqiStatistics, r: MqiStatistics, ps: seq<Parameter>, k: nat)
    requires k < |ps| && !ps[k].value.Group? && !ps[k].value.Int? && !ps[k].value.Ints? && FoldsTo(s, ps[..k])
    requires r.numbers == s.numbers
    requires forall t: TextField ::
               r.Text(t) == if ps[k].value.String? && Names(ps[k].id, t) then ps[k].value.s else s.Text(t)
    ensures FoldsTo(r, ps[..k + 1])
  {
    hide Fold, TextFold, Names;
    forall f: int32
      ensures r.Get(f) == Fold(ps[..k + 1], f)
    {
      FoldStep(ps, k, f);
      assert s.Get(f) == Fold(ps[..k], f);
    }
    forall t: TextField
      ensures r.Text(t) == TextFold(ps[..k + 1], t)
    {
      TextStep(ps, k, t);
      assert s.Text(t) == TextFold(ps[..k], t);
    }
  }

  method AssignText(s: MqiStatistics, id: int32, value: Buffer) returns (r: MqiStatistics)
    ensures r.numbers == s.numbers
    ensures forall t: TextField :: r.Text(t) == if Names(id, t) then value else s.Text(t)
  {
    match id {
      case 2024 => r := s.(texts := s.texts[ApplicationName := value]);
      case 3024 => r := s.(texts := s.texts[ApplicationName := value]);
      case 3058 => r := s.(texts := s.texts[ApplicationTag := value]);
      case 3025 => r := s.(texts := s.texts[UserIdentifier := value]);
      case 3506 => r := s.(texts := s.texts[ConnectionName := value]);
      case 3501 => r := s.(texts := s.texts[ChannelName := value]);
      case _ => r := s;
    }
  }

  method ParseNested(p: Parameter) returns (stats: MqiStatistics)
    requires p.value.Group?
    ensures FoldsTo(stats, p.value.members)
    decreases p, 0
  {
    stats := ParseMqiStats(p.value.members);
  }

  /** Every field, of every tree. */
  method ParseMqiStats(params: seq<Parameter>) returns (stats: MqiStatistics)
    ensures FoldsTo(stats, params)
    decreases params, 0
  {
    hide Wrap32, Wrap64, FoldsTo, AddNested, Listed, Single, Wide, Names;
    stats := MqiStatistics(map[], map[]);
    FoldsToNothing();
    for i := 0 to |params|
      invariant FoldsTo(stats, params[..i])
    {
      var p := params[i];
      ghost var before := stats;
      if p.value.Group? {
        var ns := ParseNested(p);
        StepGroup(stats, ns, params, i);
        stats := AddNested(stats, ns);
      } else if p.value.Ints? {
        var sum32, sum64 := SumList(p.value.ints);
        if Listed(p.id) {
          stats := stats.(numbers := stats.numbers[p.id := if Wide(p.id) then sum64 else sum32]);
        }
        StepNumber(before, stats, params, i);
      } else if p.value.Int? {
        if Single(p.id) {
          stats := stats.(numbers := stats.numbers[p.id := p.value.i]);
        }
        StepNumber(before, stats, params, i);
      } else {
        if p.value.String? {
          stats := AssignText(stats, p.id, p.value.s);
        }
        StepText(before, stats, params, i);
      }
    }
    assert params[..|params|] == params;
  }

  lemma FoldsToNothing()
    ensures forall ps: seq<Parameter> :: ps == [] ==> FoldsTo(MqiStatistics(map[], map[]), ps)
  {
  }

  // ----- what the fold means -----

  /** The index of the last value that overwrites `f`, or -1. */
  function LastSet(ps: seq<Parameter>, f: int32): (k: int)
    ensures -1 <= k < |ps| && (k >= 0 ==> Sets(ps[k], f))
  {
    if ps == [] then -1
    else if Sets(ps[|ps| - 1], f) then |ps| - 1
    else LastSet(ps[..|ps| - 1], f)
  }

  /** The sum of the counters of the groups from index `from` on. */
  function GroupSum(ps: seq<Parameter>, from: nat, f: int32): int {
    if |ps| <= from then 0
    else
      var p := ps[|ps| - 1];
      GroupSum(ps[..|ps| - 1], from, f) + if p.value.Group? then Nested(p, f) else 0
  }

  /** For every tree, each accumulated counter is its last flat value in the list plus the counters of the groups
      after that value, modulo 2^32; an earlier flat value or group leaves no trace. */
  lemma {:induction false} CounterMeaning(ps: seq<Parameter>, f: int32)
    requires Accumulates(f)
    ensures var k := LastSet(ps, f);
            Fold(ps, f) == Wrap32((if k >= 0 then FlatValue(ps[k]) else 0) + GroupSum(ps, k + 1, f))
    decreases |ps|
  {
    hide Wrap32, FlatValue, Accumulates, Listed, Single;
    WrapZero();
    if ps != [] {
      var init, p, k := ps[..|ps| - 1], ps[|ps| - 1], LastSet(ps, f);
      CounterMeaning(init, f);
      if p.value.Group? {
        var base := if k >= 0 then FlatValue(ps[k]) else 0;
        WrapSum(base + GroupSum(init, k + 1, f), Nested(p, f));
      } else if Sets(p, f) {
        FlatIsWrapped(p);
      }
    }
  }

  lemma FlatIsWrapped(p: Parameter)
    requires (p.value.Int? || p.value.Ints?) && Accumulates(p.id)
    ensures Wrap32(FlatValue(p)) == FlatValue(p) && Wrap32(FlatValue(p) + 0) == FlatValue(p)
  {
  }

  /** For every tree, any other field is its last flat value in the top-level list; whatever a group reports
      for it is lost. */
  lemma {:induction false} FlatFieldMeaning(ps: seq<Parameter>, f: int32)
    requires !Accumulates(f)
    ensures var k := LastSet(ps, f);
            Fold(ps, f) == if k >= 0 then FlatValue(ps[k]) else 0
    decreases |ps|
  {
    hide FlatValue, Accumulates, Listed, Single;
    if ps != [] {
      FlatFieldMeaning(ps[..|ps| - 1], f);
    }
  }

  /** Browses reported inside a group do not reach the top. */
  lemma GroupedBrowsesAreLost()
    ensures Fold([Parameter(20, 8001, Group([Parameter(3, BROWSES, Int(5))]))], BROWSES) == 0
  {
    var ps := [Parameter(20, 8001, Group([Parameter(3, BROWSES, Int(5))]))];
    assert ps[..0] == [];
  }

  /** Every value reported for `f` anywhere in the tree. */
  function TreeSum(ps: seq<Parameter>, f: int32): int
    decreases ps, 0
  {
    if ps == [] then 0
    else
      var before, p := TreeSum(ps[..|ps| - 1], f), ps[|ps| - 1];
      if p.value.Group? then before + NestedSum(p, f)
      else if Sets(p, f) then before + FlatValue(p)
      else before
  }

  function NestedSum(p: Parameter, f: int32): int
    requires p.value.Group?
    decreases p, 0
  {
    TreeSum(p.value.members, f)
  }

  /** What is overwritten: a flat value discards everything reported before it in its list. */
  function Lost(ps: seq<Parameter>, f: int32): int
    decreases ps, 0
  {
    if ps == [] then 0
    else
      var init, p := ps[..|ps| - 1], ps[|ps| - 1];
      if p.value.Group? then Lost(init, f) + NestedLost(p, f)
      else if Sets(p, f) then TreeSum(init, f)
      else Lost(init, f)
  }

  function NestedLost(p: Parameter, f: int32): int
    requires p.value.Group?
    decreases p, 0
  {
    Lost(p.value.members, f)
  }

  /** For every tree, a counter is the whole-tree sum less what is overwritten, modulo 2^32. */
  lemma {:induction false} CounterIsSumLessLost(ps: seq<Parameter>, f: int32)
    requires Accumulates(f)
    ensures Fold(ps, f) == Wrap32(TreeSum(ps, f) - Lost(ps, f))
    decreases ps, 0
  {
    hide FlatValue, Wrap32, Accumulates, Listed, Single;
    WrapZero();
    if ps != [] {
      var init, p := ps[..|ps| - 1], ps[|ps| - 1];
      CounterIsSumLessLost(init, f);
      if p.value.Group? {
        NestedIsSumLessLost(p, f);
        WrapSum(TreeSum(init, f) - Lost(init, f), NestedSum(p, f) - NestedLost(p, f));
      } else if Sets(p, f) {
        FlatIsWrapped(p);
      }
    }
  }

  lemma {:induction false} NestedIsSumLessLost(p: Parameter, f: int32)
    requires p.value.Group? && Accumulates(f)
    ensures Nested(p, f) == Wrap32(NestedSum(p, f) - NestedLost(p, f))
    decreases p, 0
  {
    CounterIsSumLessLost(p.value.members, f);
  }

  lemma WrapDifference(a: int, b: int)
    ensures Wrap32(a - b) == Wrap32(a) <==> b % 0x1_0000_0000 == 0
  {
  }

  /** A counter is the sum of everything reported in the tree exactly when what is overwritten amounts to
      nothing modulo 2^32. */
  lemma CounterIsTreeSumIff(ps: seq<Parameter>, f: int32)
    requires Accumulates(f)
    ensures Fold(ps, f) == Wrap32(TreeSum(ps, f)) <==> Lost(ps, f) % 0x1_0000_0000 == 0
  {
    hide Fold, TreeSum, Lost, Wrap32;
    CounterIsSumLessLost(ps, f);
    WrapDifference(TreeSum(ps, f), Lost(ps, f));
  }

  /** Nothing is overwritten: where a list sets `f`, no value for `f` and no group stands before it. */
  predicate Disciplined(ps: seq<Parameter>, f: int32)
    decreases ps, 0
  {
    ps == [] ||
    (var init, p := ps[..|ps| - 1], ps[|ps| - 1];
     Disciplined(init, f) &&
     if p.value.Group? then DisciplinedGroup(p, f)
     else Sets(p, f) ==> forall q :: q in init ==> !q.value.Group? && !Sets(q, f))
  }

  predicate DisciplinedGroup(p: Parameter, f: int32)
    requires p.value.Group?
    decreases p, 0
  {
    Disciplined(p.value.members, f)
  }

  lemma {:induction false} NothingReported(ps: seq<Parameter>, f: int32)
    requires forall q :: q in ps ==> !q.value.Group? && !Sets(q, f)
    ensures TreeSum(ps, f) == 0
    decreases |ps|
  {
    hide Sets;
    if ps != [] {
      assert ps[|ps| - 1] in ps;
      NothingReported(ps[..|ps| - 1], f);
    }
  }

  lemma {:induction false} DisciplinedLosesNothing(ps: seq<Parameter>, f: int32)
    requires Disciplined(ps, f)
    ensures Lost(ps, f) == 0
    decreases ps, 0
  {
    hide Sets;
    if ps != [] {
      var init, p := ps[..|ps| - 1], ps[|ps| - 1];
      DisciplinedLosesNothing(init, f);
      if p.value.Group? {
        GroupLosesNothing(p, f);
      } else if Sets(p, f) {
        NothingReported(init, f);
      }
    }
  }

  lemma {:induction false} GroupLosesNothing(p: Parameter, f: int32)
    requires p.value.Group? && DisciplinedGroup(p, f)
    ensures NestedLost(p, f) == 0
    decreases p, 0
  {
    DisciplinedLosesNothing(p.value.members, f);
  }

  /** So wherever every list has at most one flat value and all groups follow it. */
  lemma CounterIsTreeSum(ps: seq<Parameter>, f: int32)
    requires Accumulates(f) && Disciplined(ps, f)
    ensures Fold(ps, f) == Wrap32(TreeSum(ps, f))
  {
    hide Fold, TreeSum, Lost, Wrap32, Disciplined;
    DisciplinedLosesNothing(ps, f);
    CounterIsTreeSumIff(ps, f);
  }

  /** A value after a group overwrites what the group reported. */
  lemma OverwrittenGroup()
    ensures var ps := [Parameter(20, 8001, Group([Parameter(3, PUTS, Int(5))])), Parameter(3, PUTS, Int(1))];
            Fold(ps, PUTS) == 1 && TreeSum(ps, PUTS) == 6 && Lost(ps, PUTS) == 5
  {
    var inner := [Parameter(3, PUTS, Int(5))];
    var group := Parameter(20, 8001, Group(inner));
    var ps := [group, Parameter(3, PUTS, Int(1))];
    assert inner[..0] == [];
    assert TreeSum(inner, PUTS) == 5;
    assert ps[..1] == [group] && [group][..0] == [];
    assert TreeSum([group], PUTS) == 5;
  }
}
