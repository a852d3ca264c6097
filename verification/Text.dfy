/** Byte strings and the three ways the readers strip MQ's fixed-width padding. */
module Text {
  import opened Bytes

  const NUL: byte := 0
  const BLANK: byte := 32

  /** The bytes of an ASCII literal. */
  function Ascii(s: string): (r: Buffer)
    ensures |r| == |s|
  {
    seq(|s|, i requires 0 <= i < |s| => if s[i] < 256 as char then s[i] as int else 63)
  }

  /** `find_last_not_of(" \0")`: the C literal ends at its NUL, so only blanks are removed. */
  function TrimBlanks(s: Buffer): Buffer {
    if s != [] && s[|s| - 1] == BLANK then TrimBlanks(s[..|s| - 1]) else s
  }

  /** `trim_mq_string` and the loop in `discover_queues`: trailing blanks and NULs. */
  function TrimPadding(s: Buffer): Buffer {
    if s != [] && (s[|s| - 1] == BLANK || s[|s| - 1] == NUL) then TrimPadding(s[..|s| - 1]) else s
  }

  /** Everything before the first NUL. */
  function UpToNul(s: Buffer): Buffer {
    if s == [] || s[0] == NUL then [] else [s[0]] + UpToNul(s[1..])
  }

  /** `PCFParser::clean_string`. */
  function CleanString(s: Buffer): Buffer {
    TrimBlanks(UpToNul(s))
  }

  /** A trim is fixed by this: the longest prefix that does not end in padding. */
  ghost predicate IsTrim(s: Buffer, r: Buffer, padding: set<byte>) {
    r <= s && (r != [] ==> r[|r| - 1] !in padding) && forall i :: |r| <= i < |s| ==> s[i] in padding
  }

  lemma {:induction false} TrimBlanksIsTrim(s: Buffer)
    ensures IsTrim(s, TrimBlanks(s), {32})
    decreases |s|
  {
    if s != [] && s[|s| - 1] == BLANK {
      TrimBlanksIsTrim(s[..|s| - 1]);
    }
  }

  lemma {:induction false} TrimPaddingIsTrim(s: Buffer)
    ensures IsTrim(s, TrimPadding(s), {32, 0})
    decreases |s|
  {
    if s != [] && (s[|s| - 1] == BLANK || s[|s| - 1] == NUL) {
      TrimPaddingIsTrim(s[..|s| - 1]);
    }
  }

  lemma {:induction false} UpToNulIsPrefix(s: Buffer)
    ensures var r := UpToNul(s); r <= s && 0 !in r && (|r| < |s| ==> s[|r|] == 0)
    decreases |s|
  {
    if s != [] && s[0] != NUL {
      UpToNulIsPrefix(s[1..]);
    }
  }

  lemma TrimUnique(s: Buffer, r: Buffer, t: Buffer, padding: set<byte>)
    requires IsTrim(s, r, padding) && IsTrim(s, t, padding)
    ensures r == t
  {
    assert |r| > 0 ==> s[|r| - 1] == r[|r| - 1];
    assert |t| > 0 ==> s[|t| - 1] == t[|t| - 1];
  }

  /** The parser's cleaning and the monitor's blank-trimming agree exactly on values without a NUL, and
      then the third reader's trim is the same again. */
  lemma TrimsAgree(s: Buffer)
    ensures CleanString(s) == TrimBlanks(s) <==> 0 !in s
    ensures 0 !in s ==> TrimPadding(s) == TrimBlanks(s)
  {
    var u, t := UpToNul(s), TrimBlanks(s);
    UpToNulIsPrefix(s);
    TrimBlanksIsTrim(s);
    if NUL !in s {
      assert u == s;
      var p := TrimPadding(s);
      TrimPaddingIsTrim(s);
      assert IsTrim(s, p, {BLANK});
      TrimUnique(s, p, t, {BLANK});
    } else {
      TrimBlanksIsTrim(u);
      var c := CleanString(s);
      assert |t| > |u| by {
        assert s[|u|] !in {BLANK};
      }
      assert |c| <= |u|;
    }
  }
}
