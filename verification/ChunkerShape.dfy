/** What the chunker takes for a line, a header, a title and a paragraph, in terms of the text alone. */
module ChunkerShape {
  import opened Text
  import opened Wrappers
  import opened Chunker
  import opened ChunkerLaws

  // ---- lines ----------------------------------------------------------------------------------------

  /** A line break at the end and nowhere else, "\r\n" counting as one. */
  predicate IsLine(line: string, last: bool) {
    && line != ""
    && (!last ==> IsBreak(line[|line| - 1]))
    && forall i :: 0 <= i < |line| - 1 && IsBreak(line[i]) ==> i == |line| - 2 && line[i..] == "\r\n"
  }

  lemma {:induction false} FirstLineEnds(text: string)
    requires text != ""
    ensures var n := FirstLine(text);
            IsLine(text[..n], n == |text|) && (n < |text| ==> !(text[n - 1] == '\r' && text[n] == '\n'))
    decreases |text|
  {
    var n := FirstLine(text);
    if !IsBreak(text[0]) && |text| > 1 {
      FirstLineEnds(text[1..]);
      var rest := text[1..][..n - 1];
      assert text[..n] == [text[0]] + rest;
      forall i | 0 <= i < n - 1 && IsBreak(text[..n][i])
        ensures i == n - 2 && text[..n][i..] == "\r\n"
      {
        assert rest[i - 1] == text[..n][i];
        assert text[..n][i..] == rest[i - 1..];
      }
    }
  }

  /** The lines are the text cut after each line break, and only there. */
  lemma {:induction false} LinesAreLines(text: string)
    ensures var lines := SplitLines(text);
            && Join(lines) == text
            && (forall k :: 0 <= k < |lines| ==> IsLine(lines[k], k == |lines| - 1))
            && (forall k :: 0 <= k < |lines| - 1 ==> !(lines[k][|lines[k]| - 1] == '\r' && lines[k + 1][0] == '\n'))
    decreases |text|
  {
    if text != "" {
      var n := FirstLine(text);
      var lines, rest := SplitLines(text), SplitLines(text[n..]);
      FirstLineEnds(text);
      LinesAreLines(text[n..]);
      assert lines == [text[..n]] + rest;
      assert rest == [] <==> n == |text| by {
        if n < |text| {
          assert text[n..] != "";
        }
      }
      if rest != [] {
        JoinHead(rest);
        assert rest[0][0] == text[n];
      }
    }
  }

  lemma {:induction false} JoinHead(lines: seq<string>)
    requires lines != [] && lines[0] != ""
    ensures Join(lines) != "" && Join(lines)[0] == lines[0][0]
  {
  }

  // ---- headers and titles ---------------------------------------------------------------------------

  predicate AllHashes(s: string) {
    forall i :: 0 <= i < |s| ==> s[i] == '#'
  }

  /** Whitespace, hashes, whitespace, the title, whitespace. */
  predicate Parts(line: string, a: string, h: string, b: string, title: string, c: string) {
    && line == a + (h + (b + (title + c)))
    && Blank(a) && h != "" && AllHashes(h) && Blank(b) && Blank(c)
    && Trimmed(title) && (b == "" && title != "" ==> title[0] != '#')
  }

  /** The line is a header with this title. */
  ghost predicate Headed(line: string, title: string) {
    exists a, h, b, c :: Parts(line, a, h, b, title, c)
  }

  lemma {:induction false} StripHashesSplits(s: string) returns (h: string)
    ensures s == h + StripHashes(s) && AllHashes(h)
    ensures StripHashes(s) != "" ==> StripHashes(s)[0] != '#'
    ensures s != "" && s[0] == '#' ==> h != ""
    decreases |s|
  {
    if s != "" && s[0] == '#' {
      var g := StripHashesSplits(s[1..]);
      h := "#" + g;
      assert s == [s[0]] + s[1..];
    } else {
      h := "";
    }
  }

  lemma {:induction false} StripHashesOf(h: string, rest: string)
    requires AllHashes(h) && (rest != "" ==> rest[0] != '#')
    ensures StripHashes(h + rest) == rest
    decreases |h|
  {
    if h == "" {
      assert h + rest == rest;
    } else {
      assert (h + rest)[1..] == h[1..] + rest;
      StripHashesOf(h[1..], rest);
    }
  }

  lemma {:induction false} FirstOfStripped(line: string)
    ensures LStrip(line) != "" ==> Strip(line) != "" && Strip(line)[0] == LStrip(line)[0]
  {
    LStripSplits(line);
    if LStrip(line) != "" {
      RStripKeepsFirst(LStrip(line));
    }
  }

  lemma {:induction false} RStripKeepsFirst(s: string)
    requires s != "" && !IsSpace(s[0])
    ensures RStrip(s) != "" && RStrip(s)[0] == s[0]
    decreases |s|
  {
    if IsSpace(s[|s| - 1]) {
      RStripKeepsFirst(s[..|s| - 1]);
    }
  }

  lemma {:induction false} HeaderParts(line: string)
    requires IsHeader(line)
    ensures Headed(line, TitleOf(line))
  {
    FirstOfStripped(line);
    var a, c := StripSplits(line);
    var core := Strip(line);
    var h := StripHashesSplits(core);
    var b, d := StripSplits(StripHashes(core));
    BlankJoin(d, c);
    TitleFirst(StripHashes(core), b, TitleOf(line), d);
    Reassociate(a, h, b, TitleOf(line), d, c);
    assert Parts(line, a, h, b, TitleOf(line), d + c);
  }

  lemma {:induction false} BlankJoin(a: string, b: string)
    requires Blank(a) && Blank(b)
    ensures Blank(a + b)
  {
  }

  lemma {:induction false} TitleFirst(s: string, b: string, t: string, d: string)
    requires s == b + t + d && (s != "" ==> s[0] != '#')
    ensures b == "" && t != "" ==> t[0] != '#'
  {
    if b == "" && t != "" {
      assert s[0] == t[0];
    }
  }

  lemma {:induction false} Reassociate(a: string, h: string, b: string, t: string, d: string, c: string)
    ensures a + (h + (b + t + d)) + c == a + (h + (b + (t + (d + c))))
  {
  }

  lemma {:induction false} PartsTitle(line: string, a: string, h: string, b: string, title: string, c: string)
    requires Parts(line, a, h, b, title, c)
    ensures IsHeader(line) && TitleOf(line) == title
  {
    var tail := b + (title + c);
    LStripOver(a, h + tail);
    if title == "" {
      assert Blank(b + c) by {
        assert forall i :: 0 <= i < |b + c| ==> (b + c)[i] == if i < |b| then b[i] else c[i - |b|];
      }
      assert line == a + h + (b + c);
      StripPadded(a, h, b + c);
      assert h + "" == h;
      StripHashesOf(h, "");
    } else {
      var core := h + (b + title);
      assert line == a + core + c;
      assert core[|core| - 1] == title[|title| - 1];
      StripPadded(a, core, c);
      StripHashesOf(h, b + title);
      StripPadded(b, title, "");
      assert b + title + "" == b + title;
    }
  }

  lemma {:induction false} LStripOver(a: string, s: string)
    requires Blank(a) && s != "" && !IsSpace(s[0])
    ensures LStrip(a + s) == s
    decreases |a|
  {
    if a == "" {
      assert a + s == s;
    } else {
      assert (a + s)[1..] == a[1..] + s;
      LStripOver(a[1..], s);
    }
  }

  /** What a title is: a header line has exactly one, and other lines have none. */
  lemma {:induction false} TitleIs(line: string, title: string)
    ensures Headed(line, title) <==> IsHeader(line) && TitleOf(line) == title
  {
    if IsHeader(line) {
      HeaderParts(line);
    }
    if Headed(line, title) {
      var a, h, b, c :| Parts(line, a, h, b, title, c);
      PartsTitle(line, a, h, b, title, c);
    }
  }

  /** The last header line that begins before offset `i`; the lines begin at `pos`. */
  function HeaderBefore(lines: seq<string>, pos: nat, i: nat): Option<string> {
    if lines == [] || pos >= i then None
    else
      var later := HeaderBefore(lines[1..], pos + |lines[0]|, i);
      if later.Some? then later else if IsHeader(lines[0]) then Some(lines[0]) else None
  }

  lemma {:induction false} NoneBefore(lines: seq<string>, pos: nat, i: nat)
    requires pos >= i
    ensures HeaderBefore(lines, pos, i) == None
  {
  }

  lemma {:induction false} BodyFrom(lines: seq<string>, pos: nat, title: string, lo: nat, b: Body)
    requires lo <= pos && b in Bodies(lines, pos, title, lo)
    ensures lo <= b.span.lo <= b.span.hi
    decreases lines
  {
    if lines != [] {
      var next := pos + |lines[0]|;
      if !IsHeader(lines[0]) {
        BodyFrom(lines[1..], next, title, lo, b);
      } else if b != Body(title, Span(lo, pos)) {
        BodyFrom(lines[1..], next, TitleOf(lines[0]), next, b);
      }
    }
  }

  lemma {:induction false} BodyTitle(lines: seq<string>, pos: nat, title: string, lo: nat, b: Body, i: nat)
    requires lo <= pos && b in Bodies(lines, pos, title, lo) && b.span.lo <= i < b.span.hi
    ensures var h := HeaderBefore(lines, pos, i); b.title == if h.Some? then TitleOf(h.value) else title
    decreases lines
  {
    if lines != [] {
      var rest, next := lines[1..], pos + |lines[0]|;
      if next >= i {
        NoneBefore(rest, next, i);
      }
      if !IsHeader(lines[0]) {
        BodyTitle(rest, next, title, lo, b, i);
      } else if b != Body(title, Span(lo, pos)) {
        BodyFrom(rest, next, TitleOf(lines[0]), next, b);
        BodyTitle(rest, next, TitleOf(lines[0]), next, b, i);
        HeaderHere(lines, pos, i);
      }
    }
  }

  lemma {:induction false} HeaderHere(lines: seq<string>, pos: nat, i: nat)
    requires lines != [] && IsHeader(lines[0]) && pos + |lines[0]| <= i
    ensures pos < i
  {
    LStripSplits(lines[0]);
  }

  /** A section made of the chunks of a body. */
  predicate MadeOf(make: (Span, nat) -> seq<Chunk>, s: Section, b: Body, n: nat) {
    && s.chunks == make(b.span, n) && s.chunks != []
    && s.title == b.title && s.start == s.chunks[0].start && s.end == s.chunks[|s.chunks| - 1].end
  }

  lemma {:induction false} SectionFromBody(
    make: (Span, nat) -> seq<Chunk>, bodies: seq<Body>, made: nat, count: nat, s: Section) returns (b: Body, n: nat)
    requires s in SectionsOf(make, bodies, made, count)
    ensures b in bodies && MadeOf(make, s, b, n)
    decreases bodies
  {
    var rest, chunks := bodies[1..], make(bodies[0].span, count);
    assert bodies == [bodies[0]] + rest;
    if chunks == [] {
      b, n := SectionFromBody(make, rest, made, count, s);
    } else if s in SectionsOf(make, rest, made + 1, count + |chunks|) {
      b, n := SectionFromBody(make, rest, made + 1, count + |chunks|, s);
    } else {
      b, n := bodies[0], count;
    }
  }

  /** Every section has the title of the last header line before it, and none when there is none. */
  lemma {:induction false} SectionsAreTitled(text: string, max: int, s: Section)
    requires s in SplitText(text, max)
    ensures var h := HeaderBefore(SplitLines(text), 0, s.start);
            if h.Some? then Headed(h.value, s.title) else s.title == ""
  {
    var bodies := Bodies(SplitLines(text), 0, "", 0);
    var b, n := SectionFromBody(BodyChunker(text, max), bodies, 0, 0, s);
    BodiesSound(text, SplitLines(text), 0, "", 0);
    LaterBody(bodies, 0, |text|, b);
    BodyChunkerExact(text, max, b.span, n);
    StartsInside(text, s.chunks, n, b.span);
    BodyTitle(SplitLines(text), 0, "", 0, b, s.start);
    var h := HeaderBefore(SplitLines(text), 0, s.start);
    if h.Some? {
      BeforeIsHeader(SplitLines(text), 0, s.start);
      TitleIs(h.value, s.title);
    }
  }

  lemma {:induction false} StartsInside(text: string, chunks: seq<Chunk>, index: nat, s: Span)
    requires chunks != [] && Exact(text, chunks, index, s.lo, s.hi)
    ensures s.lo <= chunks[0].start < s.hi
  {
    EndsBefore(text, chunks[1..], index + 1, chunks[0].end, s.hi);
  }

  lemma {:induction false} EndsBefore(text: string, chunks: seq<Chunk>, index: nat, from: nat, to: nat)
    requires Exact(text, chunks, index, from, to)
    ensures from <= to
    decreases chunks
  {
    if chunks != [] {
      EndsBefore(text, chunks[1..], index + 1, chunks[0].end, to);
    }
  }

  lemma {:induction false} BeforeIsHeader(lines: seq<string>, pos: nat, i: nat)
    ensures HeaderBefore(lines, pos, i).Some? ==> IsHeader(HeaderBefore(lines, pos, i).value)
    decreases lines
  {
    if lines != [] && pos < i {
      BeforeIsHeader(lines[1..], pos + |lines[0]|, i);
    }
  }

  // ---- paragraphs -------------------------------------------------------------------------------------

  /** Offset `i` is on a line of nothing but whitespace. */
  predicate OnBlank(lines: seq<string>, pos: nat, i: nat) {
    && lines != []
    && if i < pos + |lines[0]| then pos <= i && Strip(lines[0]) == ""
       else OnBlank(lines[1..], pos + |lines[0]|, i)
  }

  /** No offset from `i` to `j` is on a blank line. */
  predicate Unbroken(lines: seq<string>, pos: nat, i: nat, j: nat) {
    forall k: nat :: i <= k <= j ==> !OnBlank(lines, pos, k)
  }

  predicate OneSpan(spans: seq<Span>, i: nat, j: nat) {
    exists k :: 0 <= k < |spans| && spans[k].lo <= i && j < spans[k].hi
  }

  predicate NoneEmpty(lines: seq<string>) {
    lines != [] ==> lines[0] != "" && NoneEmpty(lines[1..])
  }

  lemma {:induction false} SplitNoneEmpty(text: string)
    ensures NoneEmpty(SplitLines(text))
    decreases |text|
  {
    if text != "" {
      SplitNoneEmpty(text[FirstLine(text)..]);
    }
  }

  function Start(pos: nat, open: Option<nat>): nat {
    if open.Some? then open.value else pos
  }

  lemma {:induction false} SpansFrom(lines: seq<string>, pos: nat, open: Option<nat>)
    requires open.Some? ==> open.value <= pos
    ensures forall k :: 0 <= k < |ParagraphsOf(lines, pos, open)| ==> Start(pos, open) <= ParagraphsOf(lines, pos, open)[k].lo
    decreases lines
  {
    if lines != [] {
      var next := pos + |lines[0]|;
      if Strip(lines[0]) == "" {
        SpansFrom(lines[1..], next, None);
      } else {
        SpansFrom(lines[1..], next, if open.Some? then open else Some(pos));
      }
    }
  }

  /** Two offsets are in one paragraph exactly when no blank line touches the stretch between them. */
  lemma {:induction false} ParagraphsAreRuns(lines: seq<string>, pos: nat, open: Option<nat>, i: nat, j: nat)
    requires NoneEmpty(lines) && (open.Some? ==> open.value <= pos)
    requires Start(pos, open) <= i <= j < pos + |Join(lines)|
    ensures OneSpan(ParagraphsOf(lines, pos, open), i, j) <==> Unbroken(lines, pos, i, j)
    decreases lines
  {
    if lines == [] {
      var closed := [Span(open.value, pos)];
      assert ParagraphsOf(lines, pos, open) == closed && closed[0].lo <= i && j < closed[0].hi;
    } else {
      var rest, next := lines[1..], pos + |lines[0]|;
      if Strip(lines[0]) == "" {
        BlankBreaks(lines, pos, open, i, j);
        if i >= next {
          ParagraphsAreRuns(rest, next, None, i, j);
          UnbrokenLater(lines, pos, i, j);
        }
      } else {
        var onward := if open.Some? then open else Some(pos);
        if j < pos + |lines[0]| + |Join(rest)| {
          ParagraphsAreRuns(rest, next, onward, i, j);
        }
        LineIsWhole(lines, pos, i, j);
      }
    }
  }

  /** Past a blank line, only the paragraphs after it matter. */
  lemma {:induction false} BlankBreaks(lines: seq<string>, pos: nat, open: Option<nat>, i: nat, j: nat)
    requires NoneEmpty(lines) && lines != [] && Strip(lines[0]) == "" && (open.Some? ==> open.value <= pos)
    requires Start(pos, open) <= i <= j
    ensures var next := pos + |lines[0]|;
            var spans, later := ParagraphsOf(lines, pos, open), ParagraphsOf(lines[1..], next, None);
            if i >= next then OneSpan(spans, i, j) <==> OneSpan(later, i, j)
            else OneSpan(spans, i, j) <==> Unbroken(lines, pos, i, j)
  {
    var next := pos + |lines[0]|;
    var closed := if open.Some? then [Span(open.value, pos)] else [];
    var spans, later := ParagraphsOf(lines, pos, open), ParagraphsOf(lines[1..], next, None);
    SpansFrom(lines[1..], next, None);
    assert spans == closed + later;
    if i >= next {
      if k :| 0 <= k < |later| && later[k].lo <= i && j < later[k].hi {
        assert spans[|closed| + k] == later[k];
      }
    } else if j < pos {
      assert spans[0].lo <= i && j < spans[0].hi;
    } else {
      var k := if i < pos then pos else i;
      assert OnBlank(lines, pos, k);
    }
  }

  lemma {:induction false} UnbrokenLater(lines: seq<string>, pos: nat, i: nat, j: nat)
    requires lines != [] && i >= pos + |lines[0]|
    ensures Unbroken(lines, pos, i, j) <==> Unbroken(lines[1..], pos + |lines[0]|, i, j)
  {
    var rest, next := lines[1..], pos + |lines[0]|;
    forall k: nat | i <= k <= j
      ensures OnBlank(lines, pos, k) == OnBlank(rest, next, k)
    {
    }
    assert Unbroken(lines, pos, i, j) ==> forall k: nat :: i <= k <= j ==> !OnBlank(rest, next, k);
  }

  lemma {:induction false} LineIsWhole(lines: seq<string>, pos: nat, i: nat, j: nat)
    requires lines != [] && Strip(lines[0]) != ""
    ensures Unbroken(lines, pos, i, j) <==> Unbroken(lines[1..], pos + |lines[0]|, i, j)
  {
    var rest, next := lines[1..], pos + |lines[0]|;
    forall k: nat
      ensures OnBlank(lines, pos, k) == OnBlank(rest, next, k)
    {
      if k < next {
        NotBefore(rest, next, k);
      }
    }
    SameBlanks(lines, pos, rest, next, i, j);
    SameBlanks(rest, next, lines, pos, i, j);
  }

  lemma {:induction false} SameBlanks(a: seq<string>, at: nat, b: seq<string>, from: nat, i: nat, j: nat)
    requires forall k: nat :: OnBlank(b, from, k) ==> OnBlank(a, at, k)
    ensures Unbroken(a, at, i, j) ==> Unbroken(b, from, i, j)
  {
  }

  lemma {:induction false} NotBefore(lines: seq<string>, pos: nat, k: nat)
    requires k < pos
    ensures !OnBlank(lines, pos, k)
  {
  }

  /** The paragraphs of a body: two of its offsets are in one paragraph exactly when the stretch from
      one to the other touches no blank line. */
  lemma {:induction false} ParagraphsOfBody(text: string, s: Span, i: nat, j: nat)
    requires s.lo <= s.hi <= |text| && s.lo <= i <= j < s.hi
    ensures OneSpan(ParagraphsIn(text, s), i, j) <==> Unbroken(SplitLines(text[s.lo..s.hi]), s.lo, i, j)
  {
    var part := text[s.lo..s.hi];
    SplitNoneEmpty(part);
    ParagraphsAreRuns(SplitLines(part), s.lo, None, i, j);
  }
}
