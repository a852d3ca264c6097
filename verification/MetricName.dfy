/** `ResourceMonitor::description_to_metric_name` as split, clean, join. */
module MetricName {
  import opened Bytes

  const UNDERSCORE: byte := 95

  /** Blank, hyphen, slash and parentheses. */
  predicate IsSeparator(c: byte) {
    c == 32 || c == 45 || c == 47 || c == 40 || c == 41
  }

  /** `std::isalnum` in the C locale. */
  predicate IsAlnum(c: byte) {
    48 <= c <= 57 || 65 <= c <= 90 || 97 <= c <= 122
  }

  function ToLower(c: byte): byte {
    if 65 <= c <= 90 then c + 32 else c
  }

  // ----- the reference -----

  /** The words between separators, empty ones included. */
  function Split(s: Buffer): (r: seq<Buffer>)
    ensures r != []
  {
    if s == [] then [[]]
    else
      var ws, c := Split(s[..|s| - 1]), s[|s| - 1];
      var n := |ws| - 1;
      if IsSeparator(c) then ws + [[]] else ws[..n] + [ws[n] + [c]]
  }

  /** Alphanumerics only, in lower case. */
  function Clean(w: Buffer): Buffer {
    if w == [] then []
    else
      var c := w[|w| - 1];
      Clean(w[..|w| - 1]) + if IsAlnum(c) then [ToLower(c)] else []
  }

  /** The cleaned words that are not empty. */
  function Kept(ws: seq<Buffer>): seq<Buffer> {
    if ws == [] then []
    else
      var w := Clean(ws[|ws| - 1]);
      Kept(ws[..|ws| - 1]) + if w != [] then [w] else []
  }

  function Join(ws: seq<Buffer>): Buffer {
    if ws == [] then []
    else if |ws| == 1 then ws[0]
    else Join(ws[..|ws| - 1]) + [UNDERSCORE] + ws[|ws| - 1]
  }

  function NameOf(desc: Buffer): Buffer {
    Join(Kept(Split(desc)))
  }

  // ----- the loop of the source -----

  lemma KeptAppend(ws: seq<Buffer>, w: Buffer)
    ensures Kept(ws + [w]) == Kept(ws) + if Clean(w) != [] then [Clean(w)] else []
  {
    assert (ws + [w])[..|ws|] == ws;
  }

  lemma JoinAppend(ws: seq<Buffer>, w: Buffer)
    ensures Join(ws + [w]) == if ws == [] then w else Join(ws) + [UNDERSCORE] + w
  {
    assert (ws + [w])[..|ws|] == ws;
  }

  lemma CleanAppend(w: Buffer, c: byte)
    ensures Clean(w + [c]) == Clean(w) + if IsAlnum(c) then [ToLower(c)] else []
  {
    assert (w + [c])[..|w|] == w;
  }

  lemma SplitStep(s: Buffer, c: byte)
    ensures var ws := Split(s);
            var n := |ws| - 1;
            Split(s + [c]) == if IsSeparator(c) then ws + [[]] else ws[..n] + [ws[n] + [c]]
  {
    assert (s + [c])[..|s|] == s && (s + [c])[|s|] == c;
  }

  /** What `result` and `prev_underscore` stand for after the prefix `s`: the kept words before the current
      one, and the current one. */
  ghost predicate Built(s: Buffer, result: Buffer, prevUnderscore: bool) {
    var ws := Split(s);
    var n := |ws| - 1;
    var done, current := Kept(ws[..n]), Clean(ws[n]);
    if current != [] then result == Join(done + [current]) && !prevUnderscore
    else if done == [] then result == [] && !prevUnderscore
    else result == Join(done) + [UNDERSCORE] && prevUnderscore
  }

  lemma BuiltSeparator(s: Buffer, c: byte, result: Buffer, prev: bool)
    requires Built(s, result, prev) && IsSeparator(c)
    ensures if result != [] && !prev then Built(s + [c], result + [UNDERSCORE], true) else Built(s + [c], result, prev)
  {
    hide Join, Kept, Clean;
    var ws := Split(s);
    var n := |ws| - 1;
    assert (s + [c])[..|s|] == s;
    assert Split(s + [c]) == ws + [[]] && (ws + [[]])[..n + 1] == ws;
    assert ws == ws[..n] + [ws[n]];
    KeptAppend(ws[..n], ws[n]);
    CleanNothing();
    var done, current := Kept(ws[..n]), Clean(ws[n]);
    assert done + [] == done;
    if current != [] {
      JoinNotEmpty(done, current);
    }
  }

  lemma CleanNothing()
    ensures Clean([]) == []
  {
  }

  lemma JoinNotEmpty(ws: seq<Buffer>, w: Buffer)
    requires w != []
    ensures Join(ws + [w]) != []
  {
    JoinAppend(ws, w);
  }

  lemma BuiltOther(s: Buffer, c: byte, result: Buffer, prev: bool)
    requires Built(s, result, prev) && !IsSeparator(c)
    ensures if IsAlnum(c) then Built(s + [c], result + [ToLower(c)], false) else Built(s + [c], result, prev)
  {
    hide Join, Kept, Clean, Split, IsSeparator, IsAlnum, ToLower;
    var ws := Split(s);
    var n := |ws| - 1;
    SplitStep(s, c);
    var ws' := ws[..n] + [ws[n] + [c]];
    assert ws'[..n] == ws[..n];
    CleanAppend(ws[n], c);
    var done, current := Kept(ws[..n]), Clean(ws[n]);
    JoinAppend(done, current);
    JoinAppend(done, current + [ToLower(c)]);
    assert current + [] == current;
    assert [] + [ToLower(c)] == [ToLower(c)];
    JoinNothing();
    assert Join(done) + [UNDERSCORE] + (current + [ToLower(c)]) == Join(done) + [UNDERSCORE] + current + [ToLower(c)];
  }

  lemma BuiltEnd(s: Buffer, result: Buffer, prev: bool)
    requires Built(s, result, prev)
    ensures NameOf(s) == if result != [] && result[|result| - 1] == UNDERSCORE then result[..|result| - 1] else result
  {
    hide Join, Kept, Clean;
    var ws := Split(s);
    var n := |ws| - 1;
    assert ws == ws[..n] + [ws[n]];
    KeptAppend(ws[..n], ws[n]);
    JoinNothing();
    var done, current := Kept(ws[..n]), Clean(ws[n]);
    assert done + [] == done;
    if current != [] {
      JoinAppend(done, current);
      CleanIsAlnum(ws[n]);
      assert result[|result| - 1] == current[|current| - 1];
    } else if done != [] {
      assert result[..|result| - 1] == Join(done);
    }
  }

  lemma JoinNothing()
    ensures Join([]) == []
  {
  }

  /** Lower-case letters and digits. */
  predicate IsNameChar(c: byte) {
    48 <= c <= 57 || 97 <= c <= 122
  }

  lemma {:induction false} CleanIsAlnum(w: Buffer)
    ensures forall c :: c in Clean(w) ==> IsNameChar(c)
    ensures Clean(w) != [] ==> Clean(w)[|Clean(w)| - 1] != UNDERSCORE && Clean(w)[0] != UNDERSCORE
    decreases |w|
  {
    if w != [] {
      CleanIsAlnum(w[..|w| - 1]);
    }
  }

  /** For every description the flag-driven loop computes split, clean, join. */
  method DescriptionToMetricName(desc: Buffer) returns (result: Buffer)
    ensures result == NameOf(desc)
  {
    hide Built, NameOf;
    result := [];
    var prevUnderscore := false;
    BuiltStart();
    for i := 0 to |desc|
      invariant Built(desc[..i], result, prevUnderscore)
    {
      var c := desc[i];
      assert desc[..i + 1] == desc[..i] + [c];
      if IsSeparator(c) {
        BuiltSeparator(desc[..i], c, result, prevUnderscore);
        if result != [] && !prevUnderscore {
          result := result + [UNDERSCORE];
          prevUnderscore := true;
        }
      } else {
        BuiltOther(desc[..i], c, result, prevUnderscore);
        if IsAlnum(c) {
          result := result + [ToLower(c)];
          prevUnderscore := false;
        }
      }
    }
    assert desc[..|desc|] == desc;
    BuiltEnd(desc, result, prevUnderscore);
    if result != [] && result[|result| - 1] == UNDERSCORE {
      result := result[..|result| - 1];
    }
  }

  lemma BuiltStart()
    ensures Built([], [], false)
  {
    assert Kept([]) == [] && Clean([]) == [];
  }

  // ----- what a metric name looks like -----

  /** Only name characters and single underscores between them. */
  predicate WellSeparated(r: Buffer) {
    && (forall i :: 0 <= i < |r| ==> IsNameChar(r[i]) || r[i] == UNDERSCORE)
    && (forall i :: 0 <= i < |r| - 1 ==> !(r[i] == UNDERSCORE && r[i + 1] == UNDERSCORE))
    && (r != [] ==> r[0] != UNDERSCORE && r[|r| - 1] != UNDERSCORE)
  }

  lemma {:induction false} KeptWords(ws: seq<Buffer>)
    ensures forall w :: w in Kept(ws) ==> w != [] && forall c :: c in w ==> IsNameChar(c)
    decreases |ws|
  {
    if ws != [] {
      KeptWords(ws[..|ws| - 1]);
      CleanIsAlnum(ws[|ws| - 1]);
    }
  }

  lemma {:induction false} JoinWellSeparated(ws: seq<Buffer>)
    requires forall w :: w in ws ==> w != [] && forall c :: c in w ==> IsNameChar(c)
    ensures WellSeparated(Join(ws)) && (ws != [] ==> Join(ws) != [])
    decreases |ws|
  {
    if ws != [] {
      var init, w := ws[..|ws| - 1], ws[|ws| - 1];
      assert forall v :: v in init ==> v in ws;
      JoinWellSeparated(init);
      assert w in ws && forall i :: 0 <= i < |w| ==> w[i] in w;
      if init != [] {
        AttachWord(Join(init), w);
      }
    }
  }

  lemma AttachWord(r: Buffer, w: Buffer)
    requires WellSeparated(r) && r != [] && w != [] && forall i :: 0 <= i < |w| ==> IsNameChar(w[i])
    ensures WellSeparated(r + [UNDERSCORE] + w)
  {
    var t := r + [UNDERSCORE] + w;
    forall i | 0 <= i < |t|
      ensures IsNameChar(t[i]) || t[i] == UNDERSCORE
      ensures i < |t| - 1 ==> !(t[i] == UNDERSCORE && t[i + 1] == UNDERSCORE)
    {
      if i < |r| - 1 {
        assert t[i] == r[i] && t[i + 1] == r[i + 1];
      } else if i > |r| {
        assert t[i] == w[i - |r| - 1];
      }
    }
  }

  /** No leading, trailing or doubled underscore, for every description. */
  lemma NamesAreWellSeparated(desc: Buffer)
    ensures WellSeparated(NameOf(desc))
  {
    KeptWords(Split(desc));
    JoinWellSeparated(Kept(Split(desc)));
  }

  // ----- the name of a description, byte by byte -----

  lemma {:induction false} SplitAt(a: Buffer, c: byte, b: Buffer)
    requires IsSeparator(c)
    ensures Split(a + [c] + b) == Split(a) + Split(b)
    decreases |b|
  {
    hide Split, IsSeparator;
    SplitNothing();
    if b == [] {
      SplitStep(a, c);
      assert a + [c] + [] == a + [c];
    } else {
      var n := |b| - 1;
      SplitAt(a, c, b[..n]);
      assert a + [c] + b == a + [c] + b[..n] + [b[n]] && b == b[..n] + [b[n]];
      SplitStep(a + [c] + b[..n], b[n]);
      SplitStep(b[..n], b[n]);
      ExtendLast(Split(a), Split(b[..n]), b[n]);
    }
  }

  lemma SplitNothing()
    ensures Split([]) == [[]]
  {
  }

  lemma ExtendLast(ws: seq<Buffer>, us: seq<Buffer>, c: byte)
    requires us != []
    ensures var all, n := ws + us, |us| - 1;
            && all + [[]] == ws + (us + [[]])
            && all[..|all| - 1] + [all[|all| - 1] + [c]] == ws + (us[..n] + [us[n] + [c]])
  {
    var all, n := ws + us, |us| - 1;
    assert all[|all| - 1] == us[n] && all[..|all| - 1] == ws + us[..n];
  }

  lemma {:induction false} KeptConcat(ws: seq<Buffer>, us: seq<Buffer>)
    ensures Kept(ws + us) == Kept(ws) + Kept(us)
    decreases |us|
  {
    hide Clean;
    if us == [] {
      assert ws + us == ws;
    } else {
      var n := |us| - 1;
      KeptConcat(ws, us[..n]);
      assert (ws + us)[..|ws + us| - 1] == ws + us[..n];
    }
  }

  lemma {:induction false} JoinConcat(ws: seq<Buffer>, us: seq<Buffer>)
    requires ws != [] && us != []
    ensures Join(ws + us) == Join(ws) + [UNDERSCORE] + Join(us)
    decreases |us|
  {
    var n := |us| - 1;
    assert (ws + us)[..|ws + us| - 1] == ws + us[..n] && (ws + us)[|ws + us| - 1] == us[n];
    if n == 0 {
      assert ws + us[..0] == ws;
    } else {
      JoinConcat(ws, us[..n]);
      assert Join(ws) + [UNDERSCORE] + Join(us[..n]) + [UNDERSCORE] + us[n] ==
             Join(ws) + [UNDERSCORE] + (Join(us[..n]) + [UNDERSCORE] + us[n]);
    }
  }

  lemma NothingKept(s: Buffer)
    ensures NameOf(s) == [] <==> Kept(Split(s)) == []
  {
    KeptWords(Split(s));
    JoinWellSeparated(Kept(Split(s)));
  }

  /** Blank, hyphen, slash and the parentheses join the names of what stands on their two sides by one
      underscore, or leave no trace where a side has no name. */
  lemma NameAroundSeparator(a: Buffer, c: byte, b: Buffer)
    requires c == 32 || c == 45 || c == 47 || c == 40 || c == 41
    ensures NameOf(a + [c] + b) ==
            if NameOf(a) == [] then NameOf(b) else if NameOf(b) == [] then NameOf(a)
            else NameOf(a) + [95] + NameOf(b)
  {
    hide Split, Kept, Join;
    SplitAt(a, c, b);
    var x, y := Kept(Split(a)), Kept(Split(b));
    KeptConcat(Split(a), Split(b));
    NothingKept(a);
    NothingKept(b);
    if x == [] {
      assert x + y == y;
    } else if y == [] {
      assert x + y == x;
    } else {
      JoinConcat(x, y);
    }
  }

  predicate SameCleaned(ws: seq<Buffer>, us: seq<Buffer>) {
    |ws| == |us| && forall i :: 0 <= i < |ws| ==> Clean(ws[i]) == Clean(us[i])
  }

  lemma {:induction false} SameKept(ws: seq<Buffer>, us: seq<Buffer>)
    requires SameCleaned(ws, us)
    ensures Kept(ws) == Kept(us)
    decreases |ws|
  {
    hide Clean;
    if ws != [] {
      SameKept(ws[..|ws| - 1], us[..|us| - 1]);
    }
  }

  lemma {:induction false} SplitWithout(a: Buffer, c: byte, b: Buffer)
    requires !IsSeparator(c) && !IsAlnum(c)
    ensures SameCleaned(Split(a + [c] + b), Split(a + b))
    decreases |b|
  {
    hide Split, Clean, IsSeparator, IsAlnum;
    if b == [] {
      assert a + [c] + b == a + [c] && a + b == a;
      SplitStep(a, c);
      var ws := Split(a);
      CleanAppend(ws[|ws| - 1], c);
      assert Clean(ws[|ws| - 1]) + [] == Clean(ws[|ws| - 1]);
    } else {
      var n := |b| - 1;
      SplitWithout(a, c, b[..n]);
      var s, t := a + [c] + b[..n], a + b[..n];
      assert a + [c] + b == s + [b[n]] && a + b == t + [b[n]];
      SplitStep(s, b[n]);
      SplitStep(t, b[n]);
      CleanAppend(Split(s)[|Split(s)| - 1], b[n]);
      CleanAppend(Split(t)[|Split(t)| - 1], b[n]);
    }
  }

  /** Any other byte that is neither a digit nor a letter changes nothing. */
  lemma NameWithout(a: Buffer, c: byte, b: Buffer)
    requires c !in {32, 45, 47, 40, 41} && !(48 <= c <= 57) && !(65 <= c <= 90) && !(97 <= c <= 122)
    ensures NameOf(a + [c] + b) == NameOf(a + b)
  {
    hide Split, Kept, Join, Clean;
    SplitWithout(a, c, b);
    SameKept(Split(a + [c] + b), Split(a + b));
  }

  lemma {:induction false} WordIsOneWord(w: Buffer)
    requires forall c :: c in w ==> IsAlnum(c)
    ensures Split(w) == [w] && |Clean(w)| == |w|
    ensures forall i :: 0 <= i < |w| ==> Clean(w)[i] == ToLower(w[i])
    decreases |w|
  {
    hide Split, Clean, ToLower, IsAlnum;
    CleanNothing();
    SplitNothing();
    if w != [] {
      var init, c := w[..|w| - 1], w[|w| - 1];
      assert w == init + [c] && c in w;
      WordIsOneWord(init);
      AlnumIsNoSeparator(c);
      SplitStep(init, c);
      CleanAppend(init, c);
    }
  }

  lemma AlnumIsNoSeparator(c: byte)
    ensures IsAlnum(c) ==> !IsSeparator(c)
  {
  }

  /** Digits and letters stay, in lower case. */
  lemma NameOfWord(w: Buffer)
    requires forall c :: c in w ==> 48 <= c <= 57 || 65 <= c <= 90 || 97 <= c <= 122
    ensures |NameOf(w)| == |w|
    ensures forall i :: 0 <= i < |w| ==> NameOf(w)[i] == if 65 <= w[i] <= 90 then w[i] + 32 else w[i]
  {
    hide Split, Clean;
    WordIsOneWord(w);
    assert [w][..0] == [] && Kept([]) == [] && Kept([w]) == if Clean(w) != [] then [Clean(w)] else [];
  }
}
