/** Which parameter feeds which statistic, id by id. */
module StatsFields {
  import opened Bytes
  import opened PcfParser
  import opened MqiStats

  /** Sums are additive, so their order does not matter. */
  lemma {:induction false} TotalConcat(a: seq<int64>, b: seq<int64>)
    ensures Total(a + b) == Total(a) + Total(b)
    decreases |b|
  {
    if b == [] {
      assert a + b == a;
    } else {
      var n := |b| - 1;
      TotalConcat(a, b[..n]);
      assert (a + b)[..|a + b| - 1] == a + b[..n];
    }
  }

  lemma TotalOfOne(v: int64)
    ensures Total([v]) == v && Total([]) == 0
  {
    assert [v][..0] == [];
  }

  /** Opens, closes, puts, gets, commits and backouts. */
  predicate Counter(f: int32) {
    f in [733, 709, 735, 722, 710, 704]
  }

  /** The ids whose single value is a statistic. */
  predicate TakesInteger(f: int32) {
    f in [733, 709, 735, 722, 710, 704, 705, 727, 744, 765, 766, 767, 726, 769, 770, 771, 772, 773, 774, 775, 776, 777,
          778, 779, 788, 817, 790, 1527, 1511, 720]
  }

  /** The ids whose value list is summed into an `int32_t`, and those summed into an `int64_t`. */
  predicate TakesList(f: int32) {
    f in [733, 709, 735, 722, 710, 704, 705, 727, 744, 817, 790, 726, 770, 771, 772, 773, 774, 775, 776, 777, 778, 779]
  }

  predicate TakesWideList(f: int32) {
    f in [818, 791, 781, 783, 784, 785, 786, 787]
  }

  lemma SingleIs(f: int32)
    ensures Single(f) <==> TakesInteger(f)
  {
  }

  lemma ListedIs(f: int32)
    ensures Listed(f) <==> TakesList(f) || TakesWideList(f)
  {
  }

  lemma WideIs(f: int32)
    ensures Wide(f) <==> TakesWideList(f)
  {
  }

  lemma AccumulatesIs(f: int32)
    ensures Accumulates(f) <==> Counter(f)
  {
  }

  lemma TablesAgree(f: int32)
    ensures Single(f) <==> TakesInteger(f)
    ensures Listed(f) <==> TakesList(f) || TakesWideList(f)
    ensures Wide(f) <==> TakesWideList(f)
    ensures Accumulates(f) <==> Counter(f)
  {
    hide Single, Listed, Wide, Accumulates, TakesInteger, TakesList, TakesWideList, Counter;
    SingleIs(f);
    ListedIs(f);
    WideIs(f);
    AccumulatesIs(f);
  }

  /** One more parameter, for every statistic: a group adds its own folding to the six counters; an integer
      replaces the statistic of its id; a list replaces it by its sum, in 32 or 64 bits; nothing else
      changes anything. */
  lemma OneMoreNumber(ps: seq<Parameter>, p: Parameter, f: int32)
    ensures Fold(ps + [p], f) ==
            if p.value.Group? && Counter(f) then Wrap32(Fold(ps, f) + Fold(p.value.members, f))
            else if p.value.Int? && p.id == f && TakesInteger(f) then p.value.i
            else if p.value.Ints? && p.id == f && TakesWideList(f) then Wrap64(Total(p.value.ints))
            else if p.value.Ints? && p.id == f && TakesList(f) then Wrap32(Total(p.value.ints))
            else Fold(ps, f)
  {
    hide Single, Listed, Wide, Accumulates, TakesInteger, TakesList, TakesWideList, Counter, Wrap32, Wrap64, Total, Fold;
    TablesAgree(f);
    FoldStep(ps + [p], |ps|, f);
    assert (ps + [p])[..|ps| + 1] == ps + [p] && (ps + [p])[..|ps|] == ps;
  }

  predicate TakesText(id: int32, t: TextField) {
    || (t.ApplicationName? && (id == 2024 || id == 3024))
    || (t.ApplicationTag? && id == 3058)
    || (t.UserIdentifier? && id == 3025)
    || (t.ConnectionName? && id == 3506)
    || (t.ChannelName? && id == 3501)
  }

  /** One more parameter, for every text: strings replace the text of their id, a group only the application
      name, and only by one that is not empty. */
  lemma OneMoreText(ps: seq<Parameter>, p: Parameter, t: TextField)
    ensures TextFold(ps + [p], t) ==
            if p.value.Group? && t.ApplicationName? && TextFold(p.value.members, t) != [] then TextFold(p.value.members, t)
            else if p.value.String? && TakesText(p.id, t) then p.value.s
            else TextFold(ps, t)
  {
    hide TextFold;
    TextStep(ps + [p], |ps|, t);
    assert (ps + [p])[..|ps| + 1] == ps + [p] && (ps + [p])[..|ps|] == ps;
  }
}
