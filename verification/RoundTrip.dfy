/** A correction survives being written and read back exactly when it is representable. */
module RoundTrip {
  import opened Text
  import opened Wrappers
  import opened Corrections

  // ---- cutting the header out ----------------------------------------------------------------------

  /** No run of dashes crosses a character that is not one. */
  lemma {:induction false} DashesApart(a: string, x: char, b: string)
    requires x != '-'
    ensures HasDashes(a + [x] + b) <==> HasDashes(a) || HasDashes(b)
    decreases |a|
  {
    var s := a + [x] + b;
    if a == "" {
      assert s[1..] == b;
    } else {
      assert s[1..] == a[1..] + [x] + b;
      DashesApart(a[1..], x, b);
    }
  }

  lemma {:induction false} CutAt(header: string, body: string)
    requires header != "" && header[|header| - 1] != '-' && !HasDashes(header)
    ensures Cut(header + ("---" + body)) == Some((header, body))
    decreases |header|
  {
    var s := header + ("---" + body);
    if |header| == 1 {
      var t := "---" + body;
      assert s[1..] == t && t[3..] == body && Dashes(t);
      assert Cut(t) == Some(("", body));
      assert [header[0]] + "" == header;
    } else {
      assert s[1..] == header[1..] + ("---" + body);
      CutAt(header[1..], body);
      assert [header[0]] + header[1..] == header;
    }
  }

  lemma {:induction false} CutHasNoDashes(s: string)
    ensures Cut(s).Some? ==> !HasDashes(Cut(s).value.0)
    decreases |s|
  {
    if s != "" && !Dashes(s) {
      CutHasNoDashes(s[1..]);
      if Cut(s).Some? {
        var before := Cut(s[1..]).value.0;
        assert s[1..] == before + "---" + Cut(s[1..]).value.1 by { CutSplits(s[1..]); }
        var h := [s[0]] + before;
        assert h[1..] == before;
        assert h <= s;
      }
    }
  }

  lemma {:induction false} CutSplits(s: string)
    requires Cut(s).Some?
    ensures s == Cut(s).value.0 + "---" + Cut(s).value.1
    decreases |s|
  {
    if Dashes(s) {
      assert s[..3] == "---" && s == s[..3] + s[3..];
    } else {
      CutSplits(s[1..]);
      assert s == [s[0]] + s[1..];
    }
  }

  /** Parts of a text without dashes have none. */
  lemma {:induction false} DashesInPart(a: string, b: string, c: string)
    requires !HasDashes(a + b + c)
    ensures !HasDashes(b)
    decreases |a| + |b|
  {
    var s := a + b + c;
    if a != "" {
      assert s[1..] == a[1..] + b + c;
      DashesInPart(a[1..], b, c);
    } else if b != "" {
      assert s[1..] == "" + b[1..] + c;
      DashesInPart("", b[1..], c);
    }
  }

  // ---- what the parser can return ------------------------------------------------------------------

  /** What every value of a header has: one line, not begun by whitespace, free of dashes. */
  predicate Plain(s: string) {
    (s != "" ==> !IsSpace(s[0])) && Without(s, '\n') && !HasDashes(s)
  }

  /** A part of a plain value keeps to one line and has no dashes. */
  predicate OneLine(s: string) {
    Without(s, '\n') && !HasDashes(s)
  }

  lemma {:induction false} LineParts(s: string)
    ensures Without(LineOf(s), '\n') && LineOf(s) <= s
    ensures |AfterLine(s)| <= |s| && AfterLine(s) == s[|s| - |AfterLine(s)|..]
    decreases |s|
  {
    if s != "" && s[0] != '\n' {
      LineParts(s[1..]);
      var l := LineOf(s[1..]);
      assert s == [s[0]] + s[1..];
      assert forall i :: 1 <= i < |LineOf(s)| ==> LineOf(s)[i] == l[i - 1];
    }
  }

  /** The field whose colon is at `n`: its value and what is scanned after it. */
  lemma {:induction false} ValuePlain(s: string, n: nat)
    requires n < |s| && !HasDashes(s)
    ensures var value := LeftStripped(s[n + 1..]);
            Plain(LineOf(value)) && !HasDashes(AfterLine(value))
  {
    var raw := s[n + 1..];
    var value := LeftStripped(raw);
    assert s == s[..n + 1] + raw;
    HalvesFree(s[..n + 1], raw);
    LeftStrippedFree(raw);
    LineFree(value);
  }

  lemma {:induction false} HalvesFree(a: string, b: string)
    requires !HasDashes(a + b)
    ensures !HasDashes(a) && !HasDashes(b)
  {
    assert a + b == "" + a + b && a + b == a + b + "";
    DashesInPart("", a, b);
    DashesInPart(a, b, "");
  }

  lemma {:induction false} LeftStrippedFree(raw: string)
    requires !HasDashes(raw)
    ensures !HasDashes(LeftStripped(raw)) && (LeftStripped(raw) != "" ==> !IsSpace(LeftStripped(raw)[0]))
  {
    LStripSplits(raw);
    var cut := |raw| - |LStrip(raw)|;
    assert raw == raw[..cut] + raw[cut..];
    HalvesFree(raw[..cut], raw[cut..]);
  }

  lemma {:induction false} LineFree(s: string)
    requires !HasDashes(s)
    ensures OneLine(LineOf(s)) && !HasDashes(AfterLine(s)) && (LineOf(s) != "" ==> LineOf(s)[0] == s[0])
  {
    LineParts(s);
    var l, r := |LineOf(s)|, |s| - |AfterLine(s)|;
    assert s == s[..l] + s[l..] && s == s[..r] + s[r..];
    HalvesFree(s[..l], s[l..]);
    HalvesFree(s[..r], s[r..]);
    assert s[..l] == LineOf(s) && s[r..] == AfterLine(s);
  }

  lemma {:induction false} FieldsPlain(s: string)
    requires !HasDashes(s)
    ensures forall i :: 0 <= i < |Fields(s)| ==> Plain(Fields(s)[i].1)
    decreases |s|
  {
    if s != "" {
      var n := NameLength(s);
      if 0 < n < |s| && s[n] == ':' {
        ValuePlain(s, n);
        FieldsPlain(AfterLine(LeftStripped(s[n + 1..])));
      } else {
        LineFree(s);
        FieldsPlain(AfterLine(s));
      }
    }
  }

  lemma {:induction false} GetPlain(fields: seq<(string, string)>, name: string)
    requires forall i :: 0 <= i < |fields| ==> Plain(fields[i].1)
    ensures Plain(Get(fields, name))
    decreases fields
  {
    if fields != [] {
      GetPlain(fields[..|fields| - 1], name);
    }
  }

  lemma {:induction false} PiecesOneLine(s: string)
    requires OneLine(s)
    ensures forall i :: 0 <= i < |Pieces(s)| ==> OneLine(Pieces(s)[i]) && Without(Pieces(s)[i], ',')
    ensures Pieces(s)[0] <= s
    decreases |s|
  {
    if s != "" {
      assert s == [s[0]] + s[1..];
      HalvesFree([s[0]], s[1..]);
      PiecesOneLine(s[1..]);
      var later := Pieces(s[1..]);
      if s[0] != ',' {
        var first := [s[0]] + later[0];
        assert s == first + s[|first|..];
        HalvesFree(first, s[|first|..]);
        assert Without(later[0], ',');
      }
    }
  }

  lemma {:induction false} StrippedPiece(p: string)
    requires OneLine(p) && Without(p, ',')
    ensures Strip(p) != "" ==> DocId(Strip(p))
  {
    var before, after := StripSplits(p);
    DashesInPart(before, Strip(p), after);
    assert forall i :: 0 <= i < |Strip(p)| ==> Strip(p)[i] == p[|before| + i];
  }

  lemma {:induction false} StrippedDocIds(pieces: seq<string>)
    requires forall i :: 0 <= i < |pieces| ==> OneLine(pieces[i]) && Without(pieces[i], ',')
    ensures forall i :: 0 <= i < |StrippedPieces(pieces)| ==> DocId(StrippedPieces(pieces)[i])
    decreases pieces
  {
    if pieces != [] {
      StrippedPiece(pieces[0]);
      StrippedDocIds(pieces[1..]);
    }
  }

  lemma {:induction false} SectionTrimmed(s: string, heading: string, lineStart: bool)
    ensures Trimmed(Section(s, heading, lineStart))
    decreases |s|
  {
    if s != "" {
      if lineStart && HeadingAt(s, heading).Some? {
        var before, after := StripSplits(UpTo(HeadingAt(s, heading).value, false));
      } else {
        SectionTrimmed(s[1..], heading, s[0] == '\n');
      }
    }
  }

  /** Whatever the text, what is parsed has this shape. */
  lemma {:induction false} ParsedShape(text: string)
    ensures var c := Parse(text);
            && Plain(c.author) && Plain(c.date)
            && (forall i :: 0 <= i < |c.citedDocs| ==> DocId(c.citedDocs[i]))
            && Trimmed(c.question) && Trimmed(c.answer) && Trimmed(c.correction)
  {
    var (header, body) := SplitFront(text);
    if Dashes(text) {
      CutHasNoDashes(text[3..]);
    }
    assert !HasDashes(header);
    FieldsPlain(header);
    var meta := Fields(header);
    GetPlain(meta, "author");
    GetPlain(meta, "date");
    GetPlain(meta, "cited_docs");
    PiecesOneLine(Get(meta, "cited_docs"));
    StrippedDocIds(Pieces(Get(meta, "cited_docs")));
    SectionTrimmed(body, QUESTION, true);
    SectionTrimmed(body, ANSWER, true);
    SectionTrimmed(body, ACTUAL, true);
  }

  // ---- reading a header back -------------------------------------------------------------------------

  predicate IsName(name: string) {
    name != "" && forall i :: 0 <= i < |name| ==> IsNameChar(name[i])
  }

  lemma {:induction false} NameLengthOf(name: string, tail: string)
    requires forall i :: 0 <= i < |name| ==> IsNameChar(name[i])
    ensures NameLength(name + ":" + tail) == |name|
    decreases |name|
  {
    var s := name + ":" + tail;
    if name != "" {
      assert s[1..] == name[1..] + ":" + tail;
      NameLengthOf(name[1..], tail);
    }
  }

  lemma {:induction false} LineBefore(line: string, rest: string)
    requires Without(line, '\n')
    ensures LineOf(line + ("\n" + rest)) == line && AfterLine(line + ("\n" + rest)) == rest
    decreases |line|
  {
    var s := line + ("\n" + rest);
    if line == "" {
      assert s[1..] == rest;
    } else {
      assert s[1..] == line[1..] + ("\n" + rest);
      LineBefore(line[1..], rest);
      assert [line[0]] + line[1..] == line;
    }
  }

  lemma {:induction false} FieldAt(name: string, value: string, rest: string)
    requires IsName(name)
    ensures var v := LStrip(value + ("\n" + rest));
            Fields(FieldLine(name, value, rest)) == [(name, LineOf(v))] + Fields(AfterLine(v))
  {
    var tail := value + ("\n" + rest);
    var s := FieldLine(name, value, rest);
    assert s == name + ":" + (" " + tail);
    NameLengthOf(name, " " + tail);
    var n := |name|;
    assert s[..n] == name && s[n] == ':' && s[n + 1..] == " " + tail;
    assert (" " + tail)[1..] == tail;
  }

  lemma {:induction false} FieldBack(name: string, value: string, rest: string)
    requires IsName(name) && value != "" && !IsSpace(value[0]) && Without(value, '\n')
    ensures Fields(FieldLine(name, value, rest)) == [(name, value)] + Fields(rest)
  {
    FieldAt(name, value, rest);
    LineBefore(value, rest);
    var tail := value + ("\n" + rest);
    assert LStrip(tail) == tail;
  }

  /** An empty value swallows the line below it. */
  lemma {:induction false} EmptyValueSwallows(name: string, rest: string)
    requires IsName(name) && (rest == "" || !IsSpace(rest[0]))
    ensures Fields(FieldLine(name, "", rest)) == [(name, LineOf(rest))] + Fields(AfterLine(rest))
  {
    FieldAt(name, "", rest);
    var tail := "" + ("\n" + rest);
    assert tail[1..] == rest;
    assert LStrip(rest) == rest;
  }

  lemma {:induction false} NamesAreNames()
    ensures IsName("author") && IsName("date") && IsName("cited_docs")
    ensures "author" != "date" && "author" != "cited_docs" && "date" != "cited_docs"
  {
    assert |"author"| == 6 && |"date"| == 4 && |"cited_docs"| == 10;
  }

  lemma {:induction false} GetLast(fields: seq<(string, string)>, f: (string, string), name: string)
    ensures Get(fields + [f], name) == if f.0 == name then f.1 else Get(fields, name)
  {
    assert (fields + [f])[..|fields|] == fields;
  }

  lemma {:induction false} GetOfThree(a: string, d: string, j: string)
    ensures var fields := [("author", a)] + ([("date", d)] + [("cited_docs", j)]);
            Get(fields, "author") == a && Get(fields, "date") == d && Get(fields, "cited_docs") == j
  {
    NamesAreNames();
    var none: seq<(string, string)> := [];
    var one := none + [("author", a)];
    var two := one + [("date", d)];
    assert two + [("cited_docs", j)] == [("author", a)] + ([("date", d)] + [("cited_docs", j)]);
    GetLast(none, ("author", a), "author");
    GetLast(one, ("date", d), "author");
    GetLast(one, ("date", d), "date");
    GetLast(two, ("cited_docs", j), "author");
    GetLast(two, ("cited_docs", j), "date");
    GetLast(two, ("cited_docs", j), "cited_docs");
  }

  lemma {:induction false} PieceEnds(d: string, rest: string)
    requires Without(d, ',')
    ensures Pieces(d + ("," + rest)) == [d] + Pieces(rest)
    decreases |d|
  {
    var s := d + ("," + rest);
    if d == "" {
      assert s[1..] == rest;
    } else {
      assert s[1..] == d[1..] + ("," + rest);
      PieceEnds(d[1..], rest);
      assert [d[0]] + d[1..] == d;
    }
  }

  lemma {:induction false} OnePiece(d: string)
    requires Without(d, ',')
    ensures Pieces(d) == [d]
    decreases |d|
  {
    if d != "" {
      OnePiece(d[1..]);
      assert [d[0]] + d[1..] == d;
    }
  }

  lemma {:induction false} SpaceBefore(x: string)
    ensures StrippedPieces(Pieces(" " + x)) == StrippedPieces(Pieces(x))
  {
    var s := " " + x;
    assert s[1..] == x;
    var p := Pieces(x);
    var padded := [' '] + p[0];
    assert padded[1..] == p[0];
    assert Strip(padded) == Strip(p[0]);
    assert Pieces(s) == [padded] + p[1..];
    assert ([padded] + p[1..])[1..] == p[1..];
  }

  lemma {:induction false} DocsBack(docs: seq<string>)
    requires forall i :: 0 <= i < |docs| ==> DocId(docs[i])
    ensures StrippedPieces(Pieces(Joined(docs))) == docs
    decreases docs
  {
    if docs == [] {
      assert Strip("") == "";
      assert Pieces("") == [""] && [""][1..] == [];
    } else {
      StripTrimmed(docs[0]);
      if |docs| == 1 {
        OnePiece(docs[0]);
        assert [docs[0]][1..] == [] && docs == [docs[0]];
      } else {
        var rest := docs[1..];
        assert Joined(docs) == docs[0] + ("," + (" " + Joined(rest)));
        PieceEnds(docs[0], " " + Joined(rest));
        SpaceBefore(Joined(rest));
        DocsBack(rest);
        assert ([docs[0]] + Pieces(" " + Joined(rest)))[1..] == Pieces(" " + Joined(rest));
      }
    }
  }

  lemma {:induction false} JoinedValue(docs: seq<string>)
    requires docs != [] && forall i :: 0 <= i < |docs| ==> DocId(docs[i])
    ensures Value(Joined(docs))
    decreases docs
  {
    if |docs| > 1 {
      var rest := Joined(docs[1..]);
      JoinedValue(docs[1..]);
      assert Joined(docs) == docs[0] + [','] + (" " + rest);
      DashesApart(docs[0], ',', " " + rest);
      assert " " + rest == "" + [' '] + rest;
      DashesApart("", ' ', rest);
    }
  }

  // ---- reading a section back ------------------------------------------------------------------------

  predicate EndsLine(s: string) {
    s != "" && s[|s| - 1] == '\n'
  }

  predicate HeadingText(h: string) {
    h != "" && !IsSpace(h[0]) && Without(h, '\n')
  }

  lemma {:induction false} UpToSkips(p: string, rest: string, lineStart: bool)
    requires EndsLine(p) && !HasMark(p, lineStart)
    ensures UpTo(p + rest, lineStart) == p + UpTo(rest, true)
    decreases |p|
  {
    var s := p + rest;
    if |p| == 1 {
      assert s[1..] == rest;
    } else {
      assert s[1..] == p[1..] + rest;
      UpToSkips(p[1..], rest, p[0] == '\n');
      assert [p[0]] + p[1..] == p;
    }
  }

  lemma {:induction false} UpToStops(p: string, rest: string, lineStart: bool)
    requires EndsLine(p) && HasMark(p, lineStart)
    ensures |UpTo(p + rest, lineStart)| + 1 < |p|
    decreases |p|
  {
    var s := p + rest;
    if lineStart && Mark(p) {
    } else {
      assert s[1..] == p[1..] + rest;
      UpToStops(p[1..], rest, p[0] == '\n');
    }
  }

  lemma {:induction false} SectionSkips(p: string, rest: string, heading: string, lineStart: bool)
    requires EndsLine(p) && !HasMark(p, lineStart)
    ensures Section(p + rest, heading, lineStart) == Section(rest, heading, true)
    decreases |p|
  {
    var s := p + rest;
    assert !(lineStart && Mark(s));
    if |p| == 1 {
      assert s[1..] == rest;
    } else {
      assert s[1..] == p[1..] + rest;
      SectionSkips(p[1..], rest, heading, p[0] == '\n');
    }
  }

  lemma {:induction false} MarkFreeLine(line: string, rest: string)
    requires Without(line, '\n')
    ensures HasMark(line + ("\n" + rest), false) == HasMark(rest, true)
    decreases |line|
  {
    var s := line + ("\n" + rest);
    if line == "" {
      assert s[1..] == rest;
    } else {
      assert s[1..] == line[1..] + ("\n" + rest);
      MarkFreeLine(line[1..], rest);
    }
  }

  lemma {:induction false} StripSpaced(s: string)
    ensures Strip("\n\n" + s) == Strip(s) && |Strip(s)| <= |s|
  {
    var before, after := StripSplits(s);
    assert ("\n\n" + s)[1..] == "\n" + s && ("\n" + s)[1..] == s;
    assert LStrip("\n\n" + s) == LStrip("\n" + s) == LStrip(s);
  }

  /** The text after a heading, from the heading's own line end on. */
  function AfterHeading(content: string, rest: string): string {
    "\n\n" + (content + "\n" + rest)
  }

  lemma {:induction false} HeadingRead(h: string, content: string, rest: string, wanted: string)
    requires HeadingText(h) && HeadingText(wanted)
    ensures Mark(Titled(h, content, rest))
    ensures HeadingAt(Titled(h, content, rest), h) == Some(AfterHeading(content, rest))
    ensures wanted[0] != h[0] ==> HeadingAt(Titled(h, content, rest), wanted) == None
  {
    var s, t := Titled(h, content, rest), AfterHeading(content, rest);
    var r := h + t;
    assert s[2..] == " " + r && (" " + r)[1..] == r;
    assert LStrip(r) == r && LStrip(" " + r) == LStrip(r);
    assert h <= r && r[|h|..] == t;
    LStripSplits(t[1..]);
    assert |LStrip(t)| < |t| && t[0] == '\n';
    assert '\n' in t[..|t| - |LeftStripped(t)|] by {
      assert t[..|t| - |LeftStripped(t)|][0] == '\n';
    }
    if wanted[0] != h[0] {
      assert r[0] == h[0];
    }
  }

  lemma {:induction false} SectionRead(h: string, content: string, rest: string)
    requires HeadingText(h)
    ensures Section(Titled(h, content, rest), h, true) == Strip(UpTo(content + "\n" + rest, true))
  {
    HeadingRead(h, content, rest, h);
    var body := content + "\n" + rest;
    var u := UpTo(body, true);
    assert ("\n\n" + body)[1..] == "\n" + body && ("\n" + body)[1..] == body;
    assert "\n" + ("\n" + u) == "\n\n" + u;
    assert UpTo("\n" + body, true) == "\n" + u;
    assert UpTo("\n\n" + body, false) == "\n\n" + u;
    StripSpaced(u);
  }

  /** A section without a mark reads back. */
  lemma {:induction false} SectionBack(h: string, content: string, rest: string)
    requires HeadingText(h) && (rest == "" || (rest[0] == '\n' && Mark(rest[1..]))) && Content(content)
    ensures Section(Titled(h, content, rest), h, true) == content
  {
    SectionRead(h, content, rest);
    UpToSkips(content + "\n", rest, true);
    var tail := UpTo(rest, true);
    assert tail == "" || tail == "\n" by {
      if rest != "" {
        assert UpTo(rest[1..], true) == "";
      }
    }
    StripPadded("", content, "\n" + tail);
    assert "" + content + ("\n" + tail) == content + "\n" + tail;
  }

  /** A section with a mark comes back shorter. */
  lemma {:induction false} SectionShort(h: string, content: string, rest: string)
    requires HeadingText(h) && HasMark(content + "\n", true)
    ensures |Section(Titled(h, content, rest), h, true)| < |content|
  {
    SectionRead(h, content, rest);
    UpToStops(content + "\n", rest, true);
    StripSpaced(UpTo(content + "\n" + rest, true));
  }

  /** Another heading's search passes over a section that holds no mark. */
  lemma {:induction false} SectionPassed(h: string, content: string, rest: string, wanted: string)
    requires HeadingText(h) && HeadingText(wanted) && wanted[0] != h[0] && !HasMark(content + "\n", true)
    ensures Section(Titled(h, content, rest), wanted, true) == Section(rest, wanted, true)
  {
    HeadingRead(h, content, rest, wanted);
    var s, line, p := Titled(h, content, rest), "# " + h, content + "\n";
    var q := line + ("\n" + ("\n" + p));
    MarkFreeLine(line, "\n" + p);
    assert ("\n" + p)[1..] == p;
    assert EndsLine(q) && s[1..] == q + rest;
    SectionSkips(q, rest, wanted, false);
  }

  lemma {:induction false} NewlinePassed(rest: string, wanted: string)
    ensures Section("\n" + rest, wanted, true) == Section(rest, wanted, true)
  {
    assert ("\n" + rest)[1..] == rest;
  }

  lemma {:induction false} TitlePassed(rest: string, wanted: string)
    ensures Section("\n\n# Correction\n\n" + rest, wanted, true) == Section(rest, wanted, true)
  {
    var line := " Correction";
    assert |line| == 11 && Without(line, '\n');
    var below := "#" + (line + ("\n" + ("\n" + rest)));
    assert "\n\n# Correction\n\n" + rest == "\n" + ("\n" + below);
    NewlinePassed("\n" + below, wanted);
    NewlinePassed(below, wanted);
    assert below[1] == ' ' && below[1..] == line + ("\n" + ("\n" + rest));
    var p := line + ("\n" + "");
    MarkFreeLine(line, "");
    assert below[1..] == p + ("\n" + rest);
    SectionSkips(p, "\n" + rest, wanted, false);
    NewlinePassed(rest, wanted);
  }

  lemma {:induction false} HeadingTexts()
    ensures HeadingText(QUESTION) && HeadingText(ANSWER) && HeadingText(ACTUAL)
    ensures QUESTION[0] == 'Q' && ANSWER[0] == 'A' && ACTUAL[0] == 'W'
  {
    assert |QUESTION| == 14 && |ANSWER| == 12 && |ACTUAL| == 24;
  }

  // ---- the round trip --------------------------------------------------------------------------------

  /** A header whose fields have no dashes is cut out whole. */
  lemma {:induction false} HeaderCut(c: Correction)
    requires !HasDashes(c.author) && !HasDashes(c.date) && !HasDashes(Joined(c.citedDocs))
    ensures SplitFront(Render(c)) == (Header(c), "\n\n# Correction\n\n" + Sections(c))
  {
    var docs := FieldLine("cited_docs", Joined(c.citedDocs), "");
    var date := FieldLine("date", c.date, docs);
    var author := FieldLine("author", c.author, date);
    NamesAreNames();
    FieldHasNoDashes("cited_docs", Joined(c.citedDocs), "");
    FieldHasNoDashes("date", c.date, docs);
    FieldHasNoDashes("author", c.author, date);
    FieldEndsLine("cited_docs", Joined(c.citedDocs), "");
    FieldEndsLine("date", c.date, docs);
    FieldEndsLine("author", c.author, date);
    var header, body := Header(c), "\n\n# Correction\n\n" + Sections(c);
    assert header == "" + ['\n'] + author;
    DashesApart("", '\n', author);
    CutAt(header, body);
    var text := Render(c);
    assert Dashes(text) && text[3..] == header + ("---" + body);
  }

  lemma {:induction false} FieldHasNoDashes(name: string, value: string, rest: string)
    requires IsName(name) && !HasDashes(value) && !HasDashes(rest)
    ensures !HasDashes(FieldLine(name, value, rest))
  {
    NameHasNoDashes(name);
    var tail := value + ("\n" + rest);
    assert tail == value + ['\n'] + rest;
    DashesApart(value, '\n', rest);
    assert " " + tail == "" + [' '] + tail;
    DashesApart("", ' ', tail);
    assert FieldLine(name, value, rest) == name + [':'] + (" " + tail);
    DashesApart(name, ':', " " + tail);
  }

  lemma {:induction false} FieldEndsLine(name: string, value: string, rest: string)
    requires rest == "" || EndsLine(rest)
    ensures EndsLine(FieldLine(name, value, rest))
  {
    var before := name + ":" + " " + value + "\n";
    assert FieldLine(name, value, rest) == before + rest;
    assert before[|before| - 1] == '\n';
  }

  lemma {:induction false} NameHasNoDashes(name: string)
    requires forall i :: 0 <= i < |name| ==> IsNameChar(name[i])
    ensures !HasDashes(name)
    decreases |name|
  {
    if name != "" {
      NameHasNoDashes(name[1..]);
    }
  }

  /** A good header gives its three fields back. */
  lemma {:induction false} HeaderBack(c: Correction)
    requires Value(c.author) && Value(c.date)
    requires forall i :: 0 <= i < |c.citedDocs| ==> DocId(c.citedDocs[i])
    ensures Fields(Header(c)) ==
              [("author", c.author)] + ([("date", c.date)] + [("cited_docs", Joined(c.citedDocs))])
  {
    var j := Joined(c.citedDocs);
    var docs := FieldLine("cited_docs", j, "");
    var date := FieldLine("date", c.date, docs);
    NamesAreNames();
    HeaderStarts(c);
    FieldBack("author", c.author, date);
    FieldBack("date", c.date, docs);
    if c.citedDocs == [] {
      EmptyValueSwallows("cited_docs", "");
    } else {
      JoinedValue(c.citedDocs);
      FieldBack("cited_docs", j, "");
    }
    assert [("cited_docs", j)] + [] == [("cited_docs", j)];
  }

  /** The header's empty first line holds no field. */
  lemma {:induction false} HeaderStarts(c: Correction)
    ensures Fields(Header(c)) ==
              Fields(FieldLine("author", c.author,
                               FieldLine("date", c.date, FieldLine("cited_docs", Joined(c.citedDocs), ""))))
  {
    var h := Header(c);
    assert h[0] == '\n' && NameLength(h) == 0;
    assert h[1..] == FieldLine("author", c.author,
                               FieldLine("date", c.date, FieldLine("cited_docs", Joined(c.citedDocs), "")));
  }

  lemma {:induction false} DocsHaveNoDashes(docs: seq<string>)
    requires forall i :: 0 <= i < |docs| ==> DocId(docs[i])
    ensures !HasDashes(Joined(docs)) && (docs == [] ==> Joined(docs) == "")
  {
    if docs != [] {
      JoinedValue(docs);
    }
  }

  /** An empty author swallows the date line. */
  lemma {:induction false} EmptyAuthorIsLost(c: Correction)
    requires c.author == "" && Without(c.date, '\n')
    requires forall i :: 0 <= i < |c.citedDocs| ==> DocId(c.citedDocs[i])
    ensures Get(Fields(Header(c)), "author") != ""
  {
    var docs := FieldLine("cited_docs", Joined(c.citedDocs), "");
    var date := FieldLine("date", c.date, docs);
    NamesAreNames();
    HeaderStarts(c);
    DateLine(c.date, docs);
    EmptyValueSwallows("author", date);
    var value := DocsField(c.citedDocs);
    TwoFields(("author", LineOf(date)), ("cited_docs", value));
  }

  /** An empty date swallows the line of the cited documents. */
  lemma {:induction false} EmptyDateIsLost(c: Correction)
    requires c.author != "" && Plain(c.author) && c.date == ""
    requires forall i :: 0 <= i < |c.citedDocs| ==> DocId(c.citedDocs[i])
    ensures Get(Fields(Header(c)), "date") != ""
  {
    var docs := FieldLine("cited_docs", Joined(c.citedDocs), "");
    NamesAreNames();
    HeaderStarts(c);
    FieldBack("author", c.author, FieldLine("date", "", docs));
    var line := DocsLine(c.citedDocs);
    EmptyValueSwallows("date", docs);
    TwoFields(("author", c.author), ("date", line));
    assert [("date", line)] + [] == [("date", line)];
  }

  lemma {:induction false} DocsLine(docs: seq<string>) returns (line: string)
    requires forall i :: 0 <= i < |docs| ==> DocId(docs[i])
    ensures var s := FieldLine("cited_docs", Joined(docs), "");
            s != "" && !IsSpace(s[0]) && line != "" && LineOf(s) == line && AfterLine(s) == ""
  {
    DocsPlainLine(docs);
    line := "cited_docs" + ":" + (" " + Joined(docs));
    assert |"cited_docs"| == 10 && line[0] == 'c';
    LineBefore(line, "");
    assert FieldLine("cited_docs", Joined(docs), "") == line + ("\n" + "");
  }

  lemma {:induction false} TwoFields(f: (string, string), g: (string, string))
    ensures Get([f] + [g], g.0) == g.1
    ensures f.0 != g.0 ==> Get([f] + [g], f.0) == f.1
  {
    GetLast([f], g, f.0);
    GetLast([f], g, g.0);
    var none: seq<(string, string)> := [];
    GetLast(none, f, f.0);
    assert none + [f] == [f];
  }

  lemma {:induction false} DocsPlainLine(docs: seq<string>)
    requires forall i :: 0 <= i < |docs| ==> DocId(docs[i])
    ensures Without(Joined(docs), '\n')
  {
    if docs != [] {
      JoinedValue(docs);
    }
  }

  lemma {:induction false} DateLine(date: string, rest: string)
    requires Without(date, '\n')
    ensures var s := FieldLine("date", date, rest);
            s != "" && !IsSpace(s[0]) && LineOf(s) != "" && AfterLine(s) == rest
  {
    var line := "date" + ":" + (" " + date);
    LineBefore(line, rest);
    assert FieldLine("date", date, rest) == line + ("\n" + rest);
    assert line[0] == 'd';
  }

  /** The field of the cited documents, alone. */
  lemma {:induction false} DocsField(docs: seq<string>) returns (value: string)
    requires forall i :: 0 <= i < |docs| ==> DocId(docs[i])
    ensures Fields(FieldLine("cited_docs", Joined(docs), "")) == [("cited_docs", value)]
  {
    NamesAreNames();
    value := Joined(docs);
    if docs == [] {
      EmptyValueSwallows("cited_docs", "");
    } else {
      JoinedValue(docs);
      FieldBack("cited_docs", value, "");
    }
    assert [("cited_docs", value)] + [] == [("cited_docs", value)];
  }

  function Body(c: Correction): string {
    "\n\n# Correction\n\n" + Sections(c)
  }

  /** The three sections, read from a body, come back if and only if they are free of marks. */
  lemma {:induction false} SectionsBack(c: Correction)
    requires Trimmed(c.question) && Trimmed(c.answer) && Trimmed(c.correction)
    ensures (Section(Body(c), QUESTION, true) == c.question && Section(Body(c), ANSWER, true) == c.answer
             && Section(Body(c), ACTUAL, true) == c.correction)
            <==> Content(c.question) && Content(c.answer) && Content(c.correction)
  {
    HeadingTexts();
    var third := Titled(ACTUAL, c.correction, "");
    var second := Titled(ANSWER, c.answer, "\n" + third);
    var first := Sections(c);
    HeadingRead(ACTUAL, c.correction, "", ACTUAL);
    HeadingRead(ANSWER, c.answer, "\n" + third, ANSWER);
    assert ("\n" + third)[1..] == third && ("\n" + second)[1..] == second;
    TitlePassed(first, QUESTION);
    if !Content(c.question) {
      SectionShort(QUESTION, c.question, "\n" + second);
    } else {
      SectionBack(QUESTION, c.question, "\n" + second);
      TitlePassed(first, ANSWER);
      SectionPassed(QUESTION, c.question, "\n" + second, ANSWER);
      NewlinePassed(second, ANSWER);
      if !Content(c.answer) {
        SectionShort(ANSWER, c.answer, "\n" + third);
      } else {
        SectionBack(ANSWER, c.answer, "\n" + third);
        TitlePassed(first, ACTUAL);
        SectionPassed(QUESTION, c.question, "\n" + second, ACTUAL);
        NewlinePassed(second, ACTUAL);
        SectionPassed(ANSWER, c.answer, "\n" + third, ACTUAL);
        NewlinePassed(third, ACTUAL);
        if !Content(c.correction) {
          SectionShort(ACTUAL, c.correction, "");
        } else {
          SectionBack(ACTUAL, c.correction, "");
        }
      }
    }
  }

  /** The round trip, both ways: a correction reads back from what was written if and only if it is
      representable. */
  lemma {:induction false} RoundTrips(c: Correction)
    ensures Parse(Render(c)) == c <==> Representable(c)
  {
    if Representable(c) {
      DocsHaveNoDashes(c.citedDocs);
      HeaderCut(c);
      HeaderBack(c);
      GetOfThree(c.author, c.date, Joined(c.citedDocs));
      DocsBack(c.citedDocs);
      SectionsBack(c);
    }
    if Parse(Render(c)) == c {
      ParsedShape(Render(c));
      DocsHaveNoDashes(c.citedDocs);
      HeaderCut(c);
      SectionsBack(c);
      if c.author == "" {
        EmptyAuthorIsLost(c);
      } else if c.date == "" {
        EmptyDateIsLost(c);
      }
    }
  }

  // ---- reading texts written by hand --------------------------------------------------------------------

  /** Header fields, one on a line. */
  function Lines(fields: seq<(string, string)>): string {
    if fields == [] then "" else FieldLine(fields[0].0, fields[0].1, Lines(fields[1..]))
  }

  predicate Written(fields: seq<(string, string)>) {
    forall i :: 0 <= i < |fields| ==> IsName(fields[i].0) && Value(fields[i].1)
  }

  /** Any header of fields reads back field by field, whatever their names and order. */
  lemma {:induction false} FieldsBack(fields: seq<(string, string)>)
    requires Written(fields)
    ensures Fields(Lines(fields)) == fields
    decreases fields
  {
    if fields != [] {
      FieldsBack(fields[1..]);
      FieldBack(fields[0].0, fields[0].1, Lines(fields[1..]));
      assert fields == [fields[0]] + fields[1..];
    }
  }

  /** Entry `k` is the last one of that name. */
  predicate IsLast(fields: seq<(string, string)>, name: string, k: int) {
    0 <= k < |fields| && fields[k].0 == name && forall j :: k < j < |fields| ==> fields[j].0 != name
  }

  /** The last entry of a name counts, and a name without entry reads as empty. */
  lemma {:induction false} LastEntryCounts(fields: seq<(string, string)>, name: string)
    ensures forall k :: IsLast(fields, name, k) ==> Get(fields, name) == fields[k].1
    ensures (forall k :: 0 <= k < |fields| ==> fields[k].0 != name) ==> Get(fields, name) == ""
    decreases fields
  {
    if fields != [] {
      var init := fields[..|fields| - 1];
      LastEntryCounts(init, name);
      assert forall k :: IsLast(fields, name, k) && k < |init| ==> IsLast(init, name, k);
    }
  }

  lemma {:induction false} LinesEnd(fields: seq<(string, string)>)
    requires Written(fields)
    ensures var h := "\n" + Lines(fields); h[|h| - 1] == '\n'
    decreases fields
  {
    if fields != [] {
      LinesEnd(fields[1..]);
      var rest := Lines(fields[1..]);
      assert Lines(fields) == (fields[0].0 + ":" + " " + fields[0].1) + ("\n" + rest);
    }
  }

  /** The header of a correction file: after the opening dashes come the fields, in any order; each of
      author and date is its last entry, and the cited documents are split from theirs. */
  lemma {:induction false} HeaderReads(fields: seq<(string, string)>, body: string)
    requires Written(fields) && !HasDashes("\n" + Lines(fields))
    ensures var c := Parse("---" + (("\n" + Lines(fields)) + ("---" + body)));
            && c.author == Get(fields, "author") && c.date == Get(fields, "date")
            && c.citedDocs == StrippedPieces(Pieces(Get(fields, "cited_docs")))
            && c.question == Section(body, QUESTION, true)
            && c.answer == Section(body, ANSWER, true) && c.correction == Section(body, ACTUAL, true)
  {
    var header := "\n" + Lines(fields);
    var text := "---" + (header + ("---" + body));
    LinesEnd(fields);
    CutAt(header, body);
    assert text[3..] == header + ("---" + body) && Dashes(text);
    FieldsBack(fields);
    assert header[1..] == Lines(fields) && NameLength(header) == 0;
  }

  /** Sections one after the other. */
  function SectionsText(sections: seq<(string, string)>): string {
    if sections == [] then ""
    else Titled(sections[0].0, sections[0].1, if |sections| == 1 then "" else "\n" + SectionsText(sections[1..]))
  }

  /** Headings that cannot be taken for `wanted` unless they are it, over contents without marks. */
  predicate Sectioned(sections: seq<(string, string)>, wanted: string)
    requires wanted != ""
  {
    forall i :: 0 <= i < |sections| ==>
      && HeadingText(sections[i].0) && Content(sections[i].1)
      && (sections[i].0 == wanted || sections[i].0[0] != wanted[0])
  }

  predicate IsFirst(sections: seq<(string, string)>, wanted: string, k: int) {
    0 <= k < |sections| && sections[k].0 == wanted && forall j :: 0 <= j < k ==> sections[j].0 != wanted
  }

  lemma {:induction false} BodyMarked(sections: seq<(string, string)>)
    requires sections != [] && HeadingText(sections[0].0)
    ensures Mark(SectionsText(sections))
  {
    HeadingRead(sections[0].0, sections[0].1, if |sections| == 1 then "" else "\n" + SectionsText(sections[1..]), sections[0].0);
  }

  /** Sections are found in any order: the first of a heading is the one read, and a heading that is not
      there reads as empty. */
  lemma {:induction false} FirstSectionCounts(sections: seq<(string, string)>, wanted: string)
    requires HeadingText(wanted) && Sectioned(sections, wanted)
    ensures forall k :: IsFirst(sections, wanted, k) ==> Section(SectionsText(sections), wanted, true) == sections[k].1
    ensures (forall k :: 0 <= k < |sections| ==> sections[k].0 != wanted) ==> Section(SectionsText(sections), wanted, true) == ""
    decreases sections
  {
    if sections != [] {
      var (h, content) := sections[0];
      var later := sections[1..];
      var rest := if |sections| == 1 then "" else "\n" + SectionsText(later);
      if later != [] {
        BodyMarked(later);
        assert rest[1..] == SectionsText(later);
        NewlinePassed(SectionsText(later), wanted);
      }
      FirstSectionCounts(later, wanted);
      if h == wanted {
        SectionBack(h, content, rest);
      } else {
        SectionPassed(h, content, rest, wanted);
        assert forall k :: IsFirst(sections, wanted, k) ==> IsFirst(later, wanted, k - 1) && later[k - 1] == sections[k];
      }
    }
  }
}
