/** Python string operations: whitespace, strip and ASCII case mapping. */
module Text {

  /** str.isspace, which is also what `\s` matches. */
  predicate IsSpace(c: char) {
    || c == ' ' || '\t' <= c <= '\r'
    || '\U{1c}' <= c <= '\U{1f}' || c == '\U{85}' || c == '\U{a0}' || c == '\U{1680}'
    || '\U{2000}' <= c <= '\U{200a}' || c == '\U{2028}' || c == '\U{2029}'
    || c == '\U{202f}' || c == '\U{205f}' || c == '\U{3000}'
  }

  predicate IsLower(c: char) { 'a' <= c <= 'z' }

  predicate IsUpper(c: char) { 'A' <= c <= 'Z' }

  predicate IsDigit(c: char) { '0' <= c <= '9' }

  function UpperChar(c: char): char {
    if IsLower(c) then c - 'a' + 'A' else c
  }

  function LowerChar(c: char): char {
    if IsUpper(c) then c - 'A' + 'a' else c
  }

  function Upper(s: string): (u: string)
    ensures |u| == |s|
    ensures forall i :: 0 <= i < |s| ==> u[i] == UpperChar(s[i])
  {
    if s == "" then "" else [UpperChar(s[0])] + Upper(s[1..])
  }

  function Lower(s: string): (l: string)
    ensures |l| == |s|
    ensures forall i :: 0 <= i < |s| ==> l[i] == LowerChar(s[i])
  {
    if s == "" then "" else [LowerChar(s[0])] + Lower(s[1..])
  }

  predicate Blank(s: string) {
    forall i :: 0 <= i < |s| ==> IsSpace(s[i])
  }

  function LStrip(s: string): string {
    if s != "" && IsSpace(s[0]) then LStrip(s[1..]) else s
  }

  function RStrip(s: string): string {
    if s != "" && IsSpace(s[|s| - 1]) then RStrip(s[..|s| - 1]) else s
  }

  function Strip(s: string): string {
    RStrip(LStrip(s))
  }

  /** Neither end is whitespace. */
  predicate Trimmed(s: string) {
    s == "" || (!IsSpace(s[0]) && !IsSpace(s[|s| - 1]))
  }

  lemma {:induction false} LStripSplits(s: string)
    ensures |LStrip(s)| <= |s| && LStrip(s) == s[|s| - |LStrip(s)|..]
    ensures Blank(s[..|s| - |LStrip(s)|])
    ensures LStrip(s) != "" ==> !IsSpace(LStrip(s)[0])
    decreases |s|
  {
    if s != "" && IsSpace(s[0]) {
      LStripSplits(s[1..]);
      var n := |s| - |LStrip(s)|;
      assert s[1..][..n - 1] == s[1..n];
      forall i | 0 <= i < n
        ensures IsSpace(s[..n][i])
      {
        assert i > 0 ==> s[..n][i] == s[1..n][i - 1];
      }
    }
  }

  lemma {:induction false} RStripSplits(s: string)
    ensures |RStrip(s)| <= |s| && RStrip(s) == s[..|RStrip(s)|]
    ensures Blank(s[|RStrip(s)|..])
    ensures RStrip(s) != "" ==> !IsSpace(RStrip(s)[|RStrip(s)| - 1])
    decreases |s|
  {
    if s != "" && IsSpace(s[|s| - 1]) {
      var init := s[..|s| - 1];
      RStripSplits(init);
      var n := |RStrip(s)|;
      forall i | 0 <= i < |s| - n
        ensures IsSpace(s[n..][i])
      {
        assert i < |init| - n ==> s[n..][i] == init[n..][i];
      }
    }
  }

  /** `strip` cuts whitespace at both ends and nothing else. */
  lemma {:induction false} StripSplits(s: string) returns (before: string, after: string)
    ensures s == before + Strip(s) + after
    ensures Blank(before) && Blank(after) && Trimmed(Strip(s))
  {
    LStripSplits(s);
    var l := LStrip(s);
    RStripSplits(l);
    before, after := s[..|s| - |l|], l[|Strip(s)|..];
    assert s == before + l && l == Strip(s) + after;
  }

  /** Surrounding a trimmed text with whitespace and stripping gives it back. */
  lemma {:induction false} StripPadded(before: string, s: string, after: string)
    requires Blank(before) && Blank(after) && Trimmed(s)
    ensures Strip(before + s + after) == s
    decreases |before|
  {
    if before != "" {
      assert (before + s + after)[1..] == before[1..] + s + after;
      StripPadded(before[1..], s, after);
    } else {
      assert before + s + after == s + after;
      if s == "" {
        assert s + after == after;
        LStripBlank(after);
      } else {
        assert LStrip(s + after) == s + after;
        RStripPadded(s, after);
      }
    }
  }

  lemma {:induction false} LStripBlank(s: string)
    requires Blank(s)
    ensures LStrip(s) == ""
    decreases |s|
  {
    if s != "" {
      LStripBlank(s[1..]);
    }
  }

  lemma {:induction false} RStripPadded(s: string, after: string)
    requires Blank(after) && s != "" && !IsSpace(s[|s| - 1])
    ensures RStrip(s + after) == s
    decreases |after|
  {
    if after == "" {
      assert s + after == s;
    } else {
      assert (s + after)[..|s + after| - 1] == s + after[..|after| - 1];
      RStripPadded(s, after[..|after| - 1]);
    }
  }

  lemma {:induction false} StripTrimmed(s: string)
    requires Trimmed(s)
    ensures Strip(s) == s
  {
    StripPadded("", s, "");
    assert "" + s + "" == s;
  }

  /** No character of `s` is `c`. */
  predicate Without(s: string, c: char) {
    forall i :: 0 <= i < |s| ==> s[i] != c
  }
}
