/** Equipment and instrument tags: `normalize` and the mentions `find_tags` yields. */
module Tags {
  import opened Text
  import opened Wrappers

  datatype Tag = Tag(prefix: string, number: string, suffix: string)

  // ---- the tag grammar -------------------------------------------------------------------

  predicate AllUpper(s: string) {
    forall i :: 0 <= i < |s| ==> IsUpper(s[i])
  }

  predicate AllDigits(s: string) {
    forall i :: 0 <= i < |s| ==> IsDigit(s[i])
  }

  predicate Wellformed(t: Tag) {
    && 1 <= |t.prefix| <= 4 && AllUpper(t.prefix)
    && 2 <= |t.number| <= 5 && AllDigits(t.number)
    && |t.suffix| <= 1 && AllUpper(t.suffix)
  }

  predicate OptionalHyphen(h: string) {
    h == "" || h == "-"
  }

  /** `([A-Z]{1,4})-?(\d{2,5})-?([A-Z]?)` matches the whole of `s` with groups `t`. */
  ghost predicate Matches(s: string, t: Tag) {
    Wellformed(t) &&
    exists h, k :: OptionalHyphen(h) && OptionalHyphen(k) && s == Spelled(t, h, k)
  }

  function Spelled(t: Tag, h: string, k: string): string {
    t.prefix + (h + (t.number + (k + t.suffix)))
  }

  // ---- matching --------------------------------------------------------------------------

  /** The longest prefix of upper-case letters, and the rest. */
  function SplitUpper(s: string): (r: (string, string))
    ensures s == r.0 + r.1 && AllUpper(r.0)
    ensures r.1 != "" ==> !IsUpper(r.1[0])
  {
    if s != "" && IsUpper(s[0]) then
      var r := SplitUpper(s[1..]);
      ([s[0]] + r.0, r.1)
    else ("", s)
  }

  function SplitDigits(s: string): (r: (string, string))
    ensures s == r.0 + r.1 && AllDigits(r.0)
    ensures r.1 != "" ==> !IsDigit(r.1[0])
  {
    if s != "" && IsDigit(s[0]) then
      var r := SplitDigits(s[1..]);
      ([s[0]] + r.0, r.1)
    else ("", s)
  }

  function SplitHyphen(s: string): (r: (string, string))
    ensures s == r.0 + r.1 && OptionalHyphen(r.0)
  {
    if s != "" && s[0] == '-' then ("-", s[1..]) else ("", s)
  }

  /** `re.fullmatch` of the tag pattern. */
  function FullMatch(s: string): Option<Tag> {
    var (prefix, x) := SplitUpper(s);
    var (_, y) := SplitHyphen(x);
    var (number, z) := SplitDigits(y);
    var (_, suffix) := SplitHyphen(z);
    var t := Tag(prefix, number, suffix);
    if Wellformed(t) then Some(t) else None
  }

  lemma {:induction false} SplitUpperAt(p: string, rest: string)
    requires AllUpper(p) && (rest != "" ==> !IsUpper(rest[0]))
    ensures SplitUpper(p + rest) == (p, rest)
    decreases |p|
  {
    if p == "" {
      assert p + rest == rest;
    } else {
      assert (p + rest)[0] == p[0] && (p + rest)[1..] == p[1..] + rest;
      SplitUpperAt(p[1..], rest);
      assert p == [p[0]] + p[1..];
    }
  }

  lemma {:induction false} SplitDigitsAt(d: string, rest: string)
    requires AllDigits(d) && (rest != "" ==> !IsDigit(rest[0]))
    ensures SplitDigits(d + rest) == (d, rest)
    decreases |d|
  {
    if d == "" {
      assert d + rest == rest;
    } else {
      assert (d + rest)[0] == d[0] && (d + rest)[1..] == d[1..] + rest;
      SplitDigitsAt(d[1..], rest);
      assert d == [d[0]] + d[1..];
    }
  }

  lemma {:induction false} SplitHyphenAt(h: string, rest: string)
    requires OptionalHyphen(h) && (rest != "" ==> rest[0] != '-')
    ensures SplitHyphen(h + rest) == (h, rest)
  {
    if h == "" {
      assert h + rest == rest;
    } else {
      assert (h + rest)[1..] == rest;
    }
  }

  lemma {:induction false} FullMatchSpelled(t: Tag, h: string, k: string)
    requires Wellformed(t) && OptionalHyphen(h) && OptionalHyphen(k)
    ensures FullMatch(Spelled(t, h, k)) == Some(t)
  {
    SplitHyphenAt(k, t.suffix);
    SplitDigitsAt(t.number, k + t.suffix);
    SplitHyphenAt(h, t.number + (k + t.suffix));
    SplitUpperAt(t.prefix, h + (t.number + (k + t.suffix)));
  }

  /** The matcher decides the pattern, and the groups are unique. */
  lemma {:induction false} FullMatchDecides(s: string, t: Tag)
    ensures FullMatch(s) == Some(t) <==> Matches(s, t)
  {
    if FullMatch(s) == Some(t) {
      var x := SplitUpper(s).1;
      var z := SplitDigits(SplitHyphen(x).1).1;
      assert s == Spelled(t, SplitHyphen(x).0, SplitHyphen(z).0);
    }
    if Matches(s, t) {
      var h, k :| OptionalHyphen(h) && OptionalHyphen(k) && s == Spelled(t, h, k);
      FullMatchSpelled(t, h, k);
    }
  }

  // ---- normalize -------------------------------------------------------------------------

  /** Whitespace, underscores and ampersands do not count. */
  predicate Ignored(c: char) {
    IsSpace(c) || c == '_' || c == '&'
  }

  /** `re.sub(r"[\s_]+", "", raw.upper().replace("&", ""))` */
  function Compact(raw: string): string {
    if raw == "" then ""
    else (if Ignored(raw[0]) then "" else [UpperChar(raw[0])]) + Compact(raw[1..])
  }

  function TagOf(raw: string): Option<Tag> {
    FullMatch(Compact(raw))
  }

  function Canon(t: Tag): string {
    Spelled(t, "-", "")
  }

  function Normalize(raw: string): string {
    match TagOf(raw)
    case Some(t) => Canon(t)
    case None => Upper(Strip(raw))
  }

  lemma {:induction false} CompactConcat(a: string, b: string)
    ensures Compact(a + b) == Compact(a) + Compact(b)
    decreases |a|
  {
    if a == "" {
      assert a + b == b;
    } else {
      assert (a + b)[0] == a[0] && (a + b)[1..] == a[1..] + b;
      CompactConcat(a[1..], b);
    }
  }

  lemma {:induction false} CompactPlain(s: string)
    requires forall i :: 0 <= i < |s| ==> !Ignored(s[i]) && !IsLower(s[i])
    ensures Compact(s) == s
    decreases |s|
  {
    if s != "" {
      CompactPlain(s[1..]);
      assert s == [s[0]] + s[1..];
    }
  }

  lemma {:induction false} CompactBlank(s: string)
    requires Blank(s)
    ensures Compact(s) == ""
    decreases |s|
  {
    if s != "" {
      CompactBlank(s[1..]);
    }
  }

  lemma {:induction false} CompactUpper(s: string)
    ensures Compact(Upper(s)) == Compact(s)
    decreases |s|
  {
    if s != "" {
      CompactUpper(s[1..]);
      assert Upper(s)[1..] == Upper(s[1..]);
    }
  }

  lemma {:induction false} CompactStrip(s: string)
    ensures Compact(Strip(s)) == Compact(s)
  {
    var before, after := StripSplits(s);
    CompactConcat(before + Strip(s), after);
    CompactConcat(before, Strip(s));
    CompactBlank(before);
    CompactBlank(after);
  }

  lemma {:induction false} UpperKeepsEnds(s: string)
    ensures Trimmed(s) ==> Trimmed(Upper(s))
    ensures Upper(Upper(s)) == Upper(s)
  {
  }

  lemma {:induction false} CanonIsPlain(t: Tag)
    requires Wellformed(t)
    ensures Compact(Canon(t)) == Canon(t) && TagOf(Canon(t)) == Some(t)
  {
    var s := Canon(t);
    forall i | 0 <= i < |s|
      ensures IsUpper(s[i]) || IsDigit(s[i]) || s[i] == '-'
    {
      var a, n := |t.prefix|, |t.number|;
      assert s[i] == if i < a then t.prefix[i] else if i == a then '-'
                     else if i < a + 1 + n then t.number[i - a - 1] else t.suffix[i - a - 1 - n];
    }
    CompactPlain(s);
    FullMatchSpelled(t, "-", "");
  }

  /** `normalize` keeps the tag and the compact form of a spelling. */
  lemma {:induction false} NormalizeKeepsTag(raw: string)
    ensures TagOf(Normalize(raw)) == TagOf(raw)
  {
    match TagOf(raw)
    case Some(t) => CanonIsPlain(t);
    case None =>
      CompactUpper(Strip(raw));
      CompactStrip(raw);
  }

  /** Canonical forms are fixpoints: normalizing twice is normalizing once. */
  lemma {:induction false} NormalizeIsIdempotent(raw: string)
    ensures Normalize(Normalize(raw)) == Normalize(raw)
  {
    NormalizeKeepsTag(raw);
    if TagOf(raw).None? {
      var _, _ := StripSplits(raw);
      UpperKeepsEnds(Strip(raw));
      StripTrimmed(Normalize(raw));
    }
  }

  /** A spelling with case, whitespace, underscores, ampersands and hyphens left out. */
  function Skeleton(raw: string): string {
    Drop(Compact(raw), '-')
  }

  function Drop(s: string, c: char): string {
    if s == "" then "" else (if s[0] == c then "" else [s[0]]) + Drop(s[1..], c)
  }

  lemma {:induction false} DropConcat(a: string, b: string, c: char)
    ensures Drop(a + b, c) == Drop(a, c) + Drop(b, c)
    decreases |a|
  {
    if a == "" {
      assert a + b == b;
    } else {
      assert (a + b)[0] == a[0] && (a + b)[1..] == a[1..] + b;
      DropConcat(a[1..], b, c);
    }
  }

  lemma {:induction false} DropNothing(s: string, c: char)
    requires Without(s, c)
    ensures Drop(s, c) == s
    decreases |s|
  {
    if s != "" {
      DropNothing(s[1..], c);
      assert s == [s[0]] + s[1..];
    }
  }

  lemma {:induction false} HyphenDrops(h: string)
    requires OptionalHyphen(h)
    ensures Drop(h, '-') == ""
  {
    if h != "" {
      assert Drop(h[1..], '-') == "";
    }
  }

  lemma {:induction false} SkeletonOfTag(raw: string, t: Tag)
    requires TagOf(raw) == Some(t)
    ensures Skeleton(raw) == Spelled(t, "", "")
  {
    FullMatchDecides(Compact(raw), t);
    var h, k :| OptionalHyphen(h) && OptionalHyphen(k) && Compact(raw) == Spelled(t, h, k);
    DropConcat(t.prefix, h + (t.number + (k + t.suffix)), '-');
    DropConcat(h, t.number + (k + t.suffix), '-');
    DropConcat(t.number, k + t.suffix, '-');
    DropConcat(k, t.suffix, '-');
    DropNothing(t.prefix, '-');
    DropNothing(t.number, '-');
    DropNothing(t.suffix, '-');
    HyphenDrops(h);
    HyphenDrops(k);
  }

  /** Complete key: two spellings normalize equally exactly when both are tags with the same
      skeleton, or neither is a tag and they agree up to outer whitespace and case. */
  lemma {:induction false} NormalizeIsCompleteKey(a: string, b: string)
    ensures Normalize(a) == Normalize(b) <==>
            if TagOf(a).Some? && TagOf(b).Some? then Skeleton(a) == Skeleton(b)
            else TagOf(a).None? && TagOf(b).None? && Upper(Strip(a)) == Upper(Strip(b))
  {
    NormalizeKeepsTag(a);
    NormalizeKeepsTag(b);
    if TagOf(a).Some? && TagOf(b).Some? {
      var t, u := TagOf(a).value, TagOf(b).value;
      SkeletonOfTag(a, t);
      SkeletonOfTag(b, u);
      FullMatchSpelled(t, "", "");
      FullMatchSpelled(u, "", "");
    }
  }

  /** Whitespace, underscores and ampersands drop out of a spelling, and every other character stays, in
      upper case. */
  lemma {:induction false} NoiseDropsOut(a: string, c: char, b: string)
    ensures Compact(a + [c] + b) ==
              Compact(a) + (if IsSpace(c) || c == '_' || c == '&' then "" else [UpperChar(c)]) + Compact(b)
  {
    CompactConcat(a + [c], b);
    CompactConcat(a, [c]);
    assert [c][1..] == "" && Compact("") == "";
    assert Compact([c]) == (if Ignored(c) then "" else [UpperChar(c)]) + "";
  }

  lemma {:induction false} SameCompactSameTag(x: string, y: string)
    requires Compact(x) == Compact(y) && TagOf(x).Some?
    ensures Normalize(x) == Normalize(y)
  {
  }

  /** So spellings of a tag that differ in them alone are normalized alike. */
  lemma {:induction false} NoiseIsIgnored(a: string, c: char, b: string)
    requires (IsSpace(c) || c == '_' || c == '&') && TagOf(a + b).Some?
    ensures Normalize(a + [c] + b) == Normalize(a + b)
  {
    NoiseDropsOut(a, c, b);
    CompactConcat(a, b);
    WithoutMiddle(Compact(a), Compact(b));
    SameCompactSameTag(a + b, a + [c] + b);
  }

  lemma {:induction false} WithoutMiddle(x: string, y: string)
    ensures x + "" + y == x + y
  {
  }

  /** What the canonical form is: a tag in upper case with a hyphen after its letters and nowhere else. */
  lemma {:induction false} NormalizeSpells(raw: string, t: Tag, h: string, k: string)
    requires Wellformed(t) && OptionalHyphen(h) && OptionalHyphen(k)
    requires Compact(raw) == t.prefix + (h + (t.number + (k + t.suffix)))
    ensures Normalize(raw) == t.prefix + ("-" + (t.number + t.suffix))
  {
    FullMatchSpelled(t, h, k);
    assert "" + t.suffix == t.suffix;
  }

  // ---- mentions in running text ------------------------------------------------------------

  predicate IsLetter(c: char) {
    IsLower(c) || IsUpper(c)
  }

  /** A text that TAG_RE matches: letters, an optional hyphen or space, digits, and a suffix
      letter after any whitespace. */
  ghost predicate Mention(m: string) {
    exists p, h, d, w, x :: MentionParts(p, h, d, w, x) && m == p + (h + (d + (w + x)))
  }

  predicate MentionParts(p: string, h: string, d: string, w: string, x: string) {
    && 1 <= |p| <= 4 && (forall i :: 0 <= i < |p| ==> IsLetter(p[i]))
    && |h| <= 1 && (h != "" ==> h[0] == '-' || IsSpace(h[0]))
    && 2 <= |d| <= 5 && AllDigits(d)
    && |x| <= 1 && (x != "" ==> IsLetter(x[0])) && Blank(w) && (x == "" ==> w == "")
  }

  lemma {:induction false} CompactLetters(s: string)
    requires forall i :: 0 <= i < |s| ==> IsLetter(s[i])
    ensures Compact(s) == Upper(s) && AllUpper(Upper(s))
    decreases |s|
  {
    if s != "" {
      CompactLetters(s[1..]);
    }
  }

  lemma {:induction false} CompactSeparator(h: string)
    requires |h| <= 1 && (h != "" ==> h[0] == '-' || IsSpace(h[0]))
    ensures OptionalHyphen(Compact(h))
  {
    if h != "" {
      assert Compact(h) == (if Ignored(h[0]) then "" else [UpperChar(h[0])]) + "";
    }
  }

  lemma {:induction false} CompactMention(p: string, h: string, d: string, w: string, x: string)
    requires MentionParts(p, h, d, w, x)
    ensures Compact(p + (h + (d + (w + x)))) == Spelled(Tag(Upper(p), d, Upper(x)), Compact(h), "")
  {
    CompactConcat(p, h + (d + (w + x)));
    CompactConcat(h, d + (w + x));
    CompactConcat(d, w + x);
    CompactConcat(w, x);
    CompactLetters(p);
    CompactLetters(x);
    CompactBlank(w);
    CompactPlain(d);
    assert Compact(w) + Compact(x) == Upper(x) == "" + Upper(x);
  }

  /** Every mention `find_tags` yields is a tag, in canonical form. */
  lemma {:induction false} MentionsAreCanonical(m: string)
    requires Mention(m)
    ensures TagOf(m).Some? && Normalize(m) == Canon(TagOf(m).value)
    ensures Normalize(Normalize(m)) == Normalize(m)
  {
    var p, h, d, w, x :| MentionParts(p, h, d, w, x) && m == p + (h + (d + (w + x)));
    CompactMention(p, h, d, w, x);
    CompactSeparator(h);
    CompactLetters(p);
    CompactLetters(x);
    FullMatchSpelled(Tag(Upper(p), d, Upper(x)), Compact(h), "");
    NormalizeIsIdempotent(m);
  }
}
