/** Markdown-aware two-level chunking with exact offsets into the original text. */
module Chunker {
  import opened Sequences
  import opened Text
  import opened Wrappers

  datatype Span = Span(lo: nat, hi: nat)

  /** Consecutive paragraphs that make one chunk. */
  type Group = g: seq<Span> | g != [] witness [Span(0, 1)]

  datatype Chunk = Chunk(index: nat, text: string, start: nat, end: nat)

  datatype Section = Section(index: nat, title: string, start: nat, end: nat, chunks: seq<Chunk>)

  /** A section body: its header's title and the offsets between two headers. */
  datatype Body = Body(title: string, span: Span)

  // ---- lines --------------------------------------------------------------------------------------

  predicate IsBreak(c: char) {
    || '\n' <= c <= '\r' || '\U{1c}' <= c <= '\U{1e}'
    || c == '\U{85}' || c == '\U{2028}' || c == '\U{2029}'
  }

  /** The length of the first line, its line break included. */
  function FirstLine(text: string): (n: nat)
    requires text != ""
    ensures 0 < n <= |text|
  {
    if IsBreak(text[0]) then if text[0] == '\r' && |text| > 1 && text[1] == '\n' then 2 else 1
    else if |text| == 1 then 1
    else 1 + FirstLine(text[1..])
  }

  /** `text.splitlines(keepends=True)`. */
  function SplitLines(text: string): (lines: seq<string>)
    ensures Join(lines) == text
  {
    if text == "" then []
    else
      var n := FirstLine(text);
      assert text == text[..n] + text[n..];
      [text[..n]] + SplitLines(text[n..])
  }

  function Join(lines: seq<string>): string {
    if lines == [] then "" else lines[0] + Join(lines[1..])
  }

  predicate IsHeader(line: string) {
    var l := LStrip(line);
    l != "" && l[0] == '#'
  }

  function StripHashes(s: string): string {
    if s != "" && s[0] == '#' then StripHashes(s[1..]) else s
  }

  function TitleOf(line: string): string {
    Strip(StripHashes(Strip(line)))
  }

  // ---- specification --------------------------------------------------------------------------------

  /** The bodies between header lines, for the lines still to come at offset `pos`. */
  function Bodies(lines: seq<string>, pos: nat, title: string, lo: nat): seq<Body> {
    if lines == [] then [Body(title, Span(lo, pos))]
    else
      var next := pos + |lines[0]|;
      if IsHeader(lines[0]) then [Body(title, Span(lo, pos))] + Bodies(lines[1..], next, TitleOf(lines[0]), next)
      else Bodies(lines[1..], next, title, lo)
  }

  /** The runs of non-blank lines; `open` is where the run being read began. */
  function ParagraphsOf(lines: seq<string>, pos: nat, open: Option<nat>): seq<Span> {
    var closed := if open.Some? then [Span(open.value, pos)] else [];
    if lines == [] then closed
    else
      var next := pos + |lines[0]|;
      if Strip(lines[0]) == "" then closed + ParagraphsOf(lines[1..], next, None)
      else ParagraphsOf(lines[1..], next, if open.Some? then open else Some(pos))
  }

  function Length(s: Span): int {
    s.hi - s.lo
  }

  /** Consecutive paragraphs grouped greedily; `group` of size `size` is still open. */
  function Pack(paras: seq<Span>, max: int, group: seq<Span>, size: int): seq<Group>
    decreases paras
  {
    if paras == [] then if group == [] then [] else [group]
    else
      var p := paras[0];
      if group != [] && size + Length(p) > max then [group] + Pack(paras[1..], max, [p], Length(p))
      else Pack(paras[1..], max, group + [p], size + Length(p))
  }

  lemma {:induction false} PackTakes(p: Span, rest: seq<Span>, max: int, group: seq<Span>, size: int)
    requires group == [] || size + Length(p) <= max
    ensures Pack([p] + rest, max, group, size) == Pack(rest, max, group + [p], size + Length(p))
  {
    assert ([p] + rest)[1..] == rest;
  }

  lemma {:induction false} PackCloses(p: Span, rest: seq<Span>, max: int, group: Group, size: int)
    requires size + Length(p) > max
    ensures Pack([p] + rest, max, group, size) == [group] + Pack(rest, max, [p], Length(p))
  {
    assert ([p] + rest)[1..] == rest;
  }

  /** From the first paragraph of a group to the end of the last. */
  function Hull(group: Group): Span {
    Span(group[0].lo, group[|group| - 1].hi)
  }

  function Hulls(groups: seq<Group>): seq<Span> {
    if groups == [] then [] else [Hull(groups[0])] + Hulls(groups[1..])
  }

  /** Shrink a span to its stripped content. */
  function Tighten(text: string, s: Span): (t: Span)
    requires s.lo <= s.hi <= |text|
    ensures s.lo <= t.lo <= s.hi && s.lo <= t.hi <= s.hi
    ensures Bare(text, s.lo, t.lo) && Bare(text, t.hi, s.hi)
    ensures t.lo < t.hi ==> !IsSpace(text[t.lo]) && !IsSpace(text[t.hi - 1])
    ensures !Bare(text, s.lo, s.hi) ==> t.lo < t.hi
  {
    var raw := text[s.lo..s.hi];
    TightenSplits(text, s);
    Span(s.lo + |raw| - |LStrip(raw)|, s.hi - (|raw| - |RStrip(raw)|))
  }

  predicate Within(text: string, spans: seq<Span>) {
    forall i :: 0 <= i < |spans| ==> spans[i].lo <= spans[i].hi <= |text|
  }

  /** One chunk per span, numbered from `index`; a span of nothing but whitespace would give none. */
  function ChunksOf(text: string, spans: seq<Span>, index: nat): seq<Chunk>
    requires Within(text, spans)
    decreases spans
  {
    if spans == [] then []
    else
      var t := Tighten(text, spans[0]);
      if t.lo >= t.hi then ChunksOf(text, spans[1..], index)
      else [Chunk(index, text[t.lo..t.hi], t.lo, t.hi)] + ChunksOf(text, spans[1..], index + 1)
  }

  function ParagraphsIn(text: string, s: Span): seq<Span>
    requires s.lo <= s.hi <= |text|
  {
    ParagraphsOf(SplitLines(text[s.lo..s.hi]), s.lo, None)
  }

  function GroupsIn(text: string, max: int, s: Span): (groups: seq<Group>)
    requires s.lo <= s.hi <= |text|
    ensures Within(text, Hulls(groups))
  {
    HullsCover(text, max, s);
    Pack(ParagraphsIn(text, s), max, [], 0)
  }

  /** Nothing but whitespace from `a` to `b`. */
  predicate Bare(text: string, a: nat, b: nat)
    requires a <= b <= |text|
  {
    forall i :: a <= i < b ==> IsSpace(text[i])
  }

  lemma {:induction false} BareSlice(text: string, at: nat, part: string, a: nat, b: nat)
    requires at + |part| <= |text| && part == text[at..at + |part|] && a <= b <= |part|
    ensures Bare(part, a, b) <==> Bare(text, at + a, at + b)
  {
    assert forall i :: 0 <= i < |part| ==> part[i] == text[at + i];
    if Bare(part, a, b) {
      forall i | at + a <= i < at + b ensures IsSpace(text[i]) {
        assert IsSpace(part[i - at]);
      }
    }
  }

  // ---- what the spans of a stretch of text leave out ------------------------------------------------

  /** Non-blank spans in order inside `from..to`, with only whitespace between them. */
  predicate Cover(text: string, spans: seq<Span>, from: nat, to: nat) {
    if spans == [] then from <= to <= |text| && Bare(text, from, to)
    else
      var s := spans[0];
      && from <= s.lo < s.hi <= |text|
      && Bare(text, from, s.lo) && !Bare(text, s.lo, s.hi)
      && Cover(text, spans[1..], s.hi, to)
  }

  lemma {:induction false} TightenSplits(text: string, s: Span)
    requires s.lo <= s.hi <= |text|
    ensures var raw := text[s.lo..s.hi];
            var lo, hi := s.lo + |raw| - |LStrip(raw)|, s.hi - (|raw| - |RStrip(raw)|);
            && s.lo <= lo <= s.hi && s.lo <= hi <= s.hi
            && Bare(text, s.lo, lo) && Bare(text, hi, s.hi)
            && (lo < hi ==> !IsSpace(text[lo]) && !IsSpace(text[hi - 1]))
            && (!Bare(text, s.lo, s.hi) ==> lo < hi)
  {
    var raw := text[s.lo..s.hi];
    var l, r := |raw| - |LStrip(raw)|, |RStrip(raw)|;
    StripWindow(raw);
    BareSlice(text, s.lo, raw, 0, |raw|);
    BareSlice(text, s.lo, raw, 0, l);
    BareSlice(text, s.lo, raw, r, |raw|);
  }

  /** Where the stripped content of a string lies. */
  lemma {:induction false} StripWindow(raw: string)
    ensures var l, r := |raw| - |LStrip(raw)|, |RStrip(raw)|;
            && 0 <= l && r <= |raw| && Bare(raw, 0, l) && Bare(raw, r, |raw|)
            && (l < |raw| ==> !IsSpace(raw[l])) && (r > 0 ==> !IsSpace(raw[r - 1]))
            && (!Bare(raw, 0, |raw|) ==> l < r)
  {
    LStripSplits(raw);
    RStripSplits(raw);
    var l, r := |raw| - |LStrip(raw)|, |RStrip(raw)|;
    assert l < |raw| ==> LStrip(raw)[0] == raw[l];
    assert r > 0 ==> RStrip(raw)[r - 1] == raw[r - 1];
    forall k | 0 <= k < l ensures IsSpace(raw[k]) {
      assert raw[..l][k] == raw[k];
    }
    forall k | r <= k < |raw| ensures IsSpace(raw[k]) {
      assert raw[r..][k - r] == raw[k];
    }
  }

  lemma {:induction false} CoverBounds(text: string, spans: seq<Span>, from: nat, to: nat)
    requires Cover(text, spans, from, to)
    ensures from <= to <= |text| && Within(text, spans)
    ensures forall i :: 0 <= i < |spans| ==> from <= spans[i].lo < spans[i].hi <= to
    decreases spans
  {
    if spans != [] {
      CoverBounds(text, spans[1..], spans[0].hi, to);
      forall i | 0 <= i < |spans|
        ensures from <= spans[i].lo < spans[i].hi <= to
      {
        assert i > 0 ==> spans[i] == spans[1..][i - 1];
      }
    }
  }

  /** Blank text before the first span may be taken in. */
  lemma {:induction false} CoverWiden(text: string, spans: seq<Span>, earlier: nat, from: nat, to: nat)
    requires Cover(text, spans, from, to) && earlier <= from && Bare(text, earlier, from)
    ensures Cover(text, spans, earlier, to)
  {
  }

  lemma {:induction false} StripBlank(s: string)
    ensures Strip(s) == "" <==> Bare(s, 0, |s|)
  {
    var before, after := StripSplits(s);
    if Strip(s) == "" {
      assert s == before + after;
    } else if Blank(s) {
      LStripBlank(s);
      assert false;
    }
  }

  /** A blank line closes the run being read, if there is one. */
  lemma {:induction false} CoverAfterBlank(
    text: string, spans: seq<Span>, pos: nat, next: nat, to: nat, open: Option<nat>)
    requires Cover(text, spans, next, to) && pos <= next && Bare(text, pos, next)
    requires open.Some? ==> open.value < pos && !Bare(text, open.value, pos)
    ensures Cover(text, (if open.Some? then [Span(open.value, pos)] else []) + spans,
                  if open.Some? then open.value else pos, to)
  {
    CoverWiden(text, spans, pos, next, to);
    if open.Some? {
      assert ([Span(open.value, pos)] + spans)[1..] == spans;
      assert Bare(text, open.value, open.value);
    } else {
      assert [] + spans == spans;
    }
  }

  lemma {:induction false} FirstOfLines(text: string, lines: seq<string>, pos: nat)
    requires lines != [] && pos + |Join(lines)| <= |text| && Join(lines) == text[pos..pos + |Join(lines)|]
    ensures var next := pos + |lines[0]|;
            && pos + |Join(lines)| == next + |Join(lines[1..])| && Join(lines[1..]) == text[next..pos + |Join(lines)|]
            && (Strip(lines[0]) == "" <==> Bare(text, pos, next))
  {
    var n, whole := |lines[0]|, Join(lines);
    assert whole == lines[0] + Join(lines[1..]);
    assert whole[n..] == Join(lines[1..]) == text[pos + n..pos + |whole|];
    StripBlank(lines[0]);
    assert whole[..n] == lines[0] == text[pos..pos + n];
    BareSlice(text, pos, lines[0], 0, n);
  }

  lemma {:induction false} ParagraphsCover(text: string, lines: seq<string>, pos: nat, open: Option<nat>)
    requires pos + |Join(lines)| <= |text| && Join(lines) == text[pos..pos + |Join(lines)|]
    requires open.Some? ==> open.value < pos && !Bare(text, open.value, pos)
    ensures Cover(text, ParagraphsOf(lines, pos, open), if open.Some? then open.value else pos, pos + |Join(lines)|)
    decreases lines
  {
    var to := pos + |Join(lines)|;
    if lines == [] {
      var none: seq<Span> := [];
      assert Cover(text, none, pos, pos);
      CoverAfterBlank(text, none, pos, pos, pos, open);
      assert ParagraphsOf(lines, pos, open) == (if open.Some? then [Span(open.value, pos)] else []) + none;
    } else {
      var next, rest := pos + |lines[0]|, lines[1..];
      FirstOfLines(text, lines, pos);
      if Strip(lines[0]) == "" {
        ParagraphsCover(text, rest, next, None);
        CoverAfterBlank(text, ParagraphsOf(rest, next, None), pos, next, to, open);
      } else {
        var from := if open.Some? then open else Some(pos);
        ParagraphsCover(text, rest, next, from);
        assert ParagraphsOf(lines, pos, open) == ParagraphsOf(rest, next, from);
      }
    }
  }

  /** Packing leaves out no more than whitespace: the hulls of the groups cover what the paragraphs cover. */
  lemma {:induction false} PackCovers(
    text: string, paras: seq<Span>, max: int, group: seq<Span>, size: int, from: nat, to: nat)
    requires Cover(text, if group == [] then paras else [Hull(group)] + paras, from, to)
    ensures Cover(text, Hulls(Pack(paras, max, group, size)), from, to)
    decreases paras
  {
    if group != [] {
      assert ([Hull(group)] + paras)[1..] == paras;
    }
    if paras == [] {
      if group != [] {
        var last: seq<Group> := [group];
        assert last[1..] == [] && Hulls(last[1..]) == [];
        assert Hulls(last)[1..] == [];
      }
    } else {
      var p, rest := paras[0], paras[1..];
      assert paras == [p] + rest;
      if group != [] && size + Length(p) > max {
        var tail := Pack(rest, max, [p], Length(p));
        assert Hull([p]) == p;
        PackCovers(text, rest, max, [p], Length(p), Hull(group).hi, to);
        var all: seq<Group> := [group] + tail;
        assert all[1..] == tail && Hulls(all) == [Hull(group)] + Hulls(tail);
        assert Hulls(all)[1..] == Hulls(tail);
      } else {
        var grown := Hull(group + [p]);
        if group != [] {
        } else {
          assert grown == p;
        }
        assert ([grown] + rest)[1..] == rest;
        PackCovers(text, rest, max, group + [p], size + Length(p), from, to);
      }
    }
  }

  lemma {:induction false} HullsCover(text: string, max: int, s: Span)
    requires s.lo <= s.hi <= |text|
    ensures var hulls := Hulls(Pack(ParagraphsIn(text, s), max, [], 0));
            Within(text, hulls) && Cover(text, hulls, s.lo, s.hi)
    ensures Cover(text, ParagraphsIn(text, s), s.lo, s.hi)
  {
    ParagraphsCover(text, SplitLines(text[s.lo..s.hi]), s.lo, None);
    PackCovers(text, ParagraphsIn(text, s), max, [], 0, s.lo, s.hi);
    CoverBounds(text, Hulls(Pack(ParagraphsIn(text, s), max, [], 0)), s.lo, s.hi);
  }

  // ---- the document ---------------------------------------------------------------------------------

  /** Bodies in order inside `from..to`. */
  predicate BodiesOrdered(bodies: seq<Body>, from: nat, to: nat) {
    if bodies == [] then from <= to
    else
      && from <= bodies[0].span.lo <= bodies[0].span.hi <= to
      && BodiesOrdered(bodies[1..], bodies[0].span.hi, to)
  }

  function BodyChunks(text: string, max: int, s: Span, index: nat): seq<Chunk>
    requires s.lo <= s.hi <= |text|
  {
    ChunksOf(text, Hulls(GroupsIn(text, max, s)), index)
  }

  /** What one body contributes, the numbering continuing from the second argument. */
  function BodyChunker(text: string, max: int): (Span, nat) -> seq<Chunk> {
    (s: Span, index: nat) => if s.lo <= s.hi <= |text| then BodyChunks(text, max, s, index) else []
  }

  /** The sections of the bodies that hold a chunk; `made` sections and `count` chunks came before. */
  function SectionsOf(make: (Span, nat) -> seq<Chunk>, bodies: seq<Body>, made: nat, count: nat): seq<Section>
    decreases bodies
  {
    if bodies == [] then []
    else
      var chunks := make(bodies[0].span, count);
      if chunks == [] then SectionsOf(make, bodies[1..], made, count)
      else
        [Section(made, bodies[0].title, chunks[0].start, chunks[|chunks| - 1].end, chunks)]
        + SectionsOf(make, bodies[1..], made + 1, count + |chunks|)
  }

  /** `SectionChunker.split`. */
  function SplitText(text: string, max: int): seq<Section> {
    SectionsOf(BodyChunker(text, max), Bodies(SplitLines(text), 0, "", 0), 0, 0)
  }

  function AllChunks(sections: seq<Section>): seq<Chunk> {
    if sections == [] then [] else sections[0].chunks + AllChunks(sections[1..])
  }

  /** Whether offset `i` falls on a header line of `lines`, which begin at `pos`. */
  predicate OnHeader(lines: seq<string>, pos: nat, i: nat) {
    && lines != []
    && if i < pos + |lines[0]| then pos <= i && IsHeader(lines[0])
       else OnHeader(lines[1..], pos + |lines[0]|, i)
  }

  predicate InBody(bodies: seq<Body>, i: nat) {
    && bodies != []
    && (bodies[0].span.lo <= i < bodies[0].span.hi || InBody(bodies[1..], i))
  }

  /** The bodies run in order and leave out the header lines and nothing else. */
  lemma {:induction false} BodiesSound(text: string, lines: seq<string>, pos: nat, title: string, lo: nat)
    requires lo <= pos && pos + |Join(lines)| <= |text|
    ensures var bodies := Bodies(lines, pos, title, lo);
            && BodiesOrdered(bodies, lo, |text|)
            && forall i: nat :: lo <= i < pos + |Join(lines)| ==>
                 (InBody(bodies, i) <==> i < pos || !OnHeader(lines, pos, i))
    decreases lines
  {
    if lines == [] {
      var only := [Body(title, Span(lo, pos))];
      assert only[1..] == [];
    } else {
      var next, rest := pos + |lines[0]|, lines[1..];
      if IsHeader(lines[0]) {
        var tail := Bodies(rest, next, TitleOf(lines[0]), next);
        BodiesSound(text, rest, next, TitleOf(lines[0]), next);
        var all := [Body(title, Span(lo, pos))] + tail;
        assert all[1..] == tail;
        forall i: nat | i < next
          ensures !InBody(tail, i)
        {
          BeforeBodies(tail, next, |text|, i);
        }
      } else {
        BodiesSound(text, rest, next, title, lo);
      }
    }
  }

  lemma {:induction false} BeforeBodies(bodies: seq<Body>, from: nat, to: nat, i: nat)
    requires BodiesOrdered(bodies, from, to) && i < from
    ensures !InBody(bodies, i)
    decreases bodies
  {
    if bodies != [] {
      BeforeBodies(bodies[1..], bodies[0].span.hi, to, i);
    }
  }

  // ---- loop steps ------------------------------------------------------------------------------------

  /** One turn of the inner loop: `before` became `after`. */
  lemma {:induction false} NextChunk(
    text: string, groups: seq<Group>, index: nat, before: seq<Chunk>, next: nat, after: seq<Chunk>)
    requires groups != [] && Within(text, Hulls(groups))
    requires var t := Tighten(text, Hulls(groups)[0]);
             if t.lo < t.hi then next == index + 1 && after == before + [Chunk(index, text[t.lo..t.hi], t.lo, t.hi)]
             else next == index && after == before
    ensures Within(text, Hulls(groups[1..]))
    ensures after + ChunksOf(text, Hulls(groups[1..]), next) == before + ChunksOf(text, Hulls(groups), index)
  {
    var hulls, later := Hulls(groups), Hulls(groups[1..]);
    assert hulls[1..] == later;
    var t := Tighten(text, hulls[0]);
    if t.lo < t.hi {
      ConcatAssociates(before, [Chunk(index, text[t.lo..t.hi], t.lo, t.hi)], ChunksOf(text, later, next));
    }
  }

  ghost predicate Makes(make: (Span, nat) -> seq<Chunk>, text: string, max: int) {
    forall s: Span, n: nat {:trigger BodyChunks(text, max, s, n)} ::
      s.lo <= s.hi <= |text| ==> make(s, n) == BodyChunks(text, max, s, n)
  }

  lemma {:induction false} NextSection(
    make: (Span, nat) -> seq<Chunk>, bodies: seq<Body>, made: nat, count: nat, chunks: seq<Chunk>,
    before: seq<Section>)
    requires bodies != [] && chunks == make(bodies[0].span, count)
    ensures chunks == [] ==>
              SectionsOf(make, bodies, made, count) == SectionsOf(make, bodies[1..], made, count)
    ensures chunks != [] ==>
              before + SectionsOf(make, bodies, made, count) ==
                before + [Section(made, bodies[0].title, chunks[0].start, chunks[|chunks| - 1].end, chunks)]
                + SectionsOf(make, bodies[1..], made + 1, count + |chunks|)
  {
    if chunks != [] {
      var first := [Section(made, bodies[0].title, chunks[0].start, chunks[|chunks| - 1].end, chunks)];
      ConcatAssociates(before, first, SectionsOf(make, bodies[1..], made + 1, count + |chunks|));
    }
  }

  // ---- the chunker -----------------------------------------------------------------------------------

  class SectionChunker {
    const maxChars: int

    constructor (maxChars: int := 2400)
      ensures this.maxChars == maxChars
    {
      this.maxChars := maxChars;
    }

    method SectionSpans(text: string) returns (bodies: seq<Body>)
      ensures bodies == Bodies(SplitLines(text), 0, "", 0)
    {
      var title: string, lo: nat, pos: nat := "", 0, 0;
      bodies := [];
      var rest := SplitLines(text);
      while rest != []
        invariant bodies + Bodies(rest, pos, title, lo) == Bodies(SplitLines(text), 0, "", 0)
        decreases |rest|
      {
        var line := rest[0];
        if IsHeader(line) {
          bodies := bodies + [Body(title, Span(lo, pos))];
          title, lo := TitleOf(line), pos + |line|;
        }
        pos, rest := pos + |line|, rest[1..];
      }
      bodies := bodies + [Body(title, Span(lo, pos))];
    }

    method Paragraphs(text: string, s: Span) returns (paras: seq<Span>)
      requires s.lo <= s.hi <= |text|
      ensures paras == ParagraphsIn(text, s)
    {
      var pos: nat, open: Option<nat> := s.lo, None;
      paras := [];
      var rest := SplitLines(text[s.lo..s.hi]);
      ghost var all := ParagraphsOf(rest, pos, open);
      while rest != []
        invariant paras + ParagraphsOf(rest, pos, open) == all
        decreases |rest|
      {
        var line := rest[0];
        ghost var closed := if open.Some? then [Span(open.value, pos)] else [];
        if Strip(line) == "" {
          ConcatAssociates(paras, closed, ParagraphsOf(rest[1..], pos + |line|, None));
          if open.Some? {
            paras := paras + [Span(open.value, pos)];
            open := None;
          }
        } else if open.None? {
          open := Some(pos);
        }
        pos, rest := pos + |line|, rest[1..];
      }
      if open.Some? {
        paras := paras + [Span(open.value, pos)];
      }
    }

    method PackedParagraphs(text: string, s: Span) returns (groups: seq<Group>)
      requires s.lo <= s.hi <= |text|
      ensures groups == GroupsIn(text, maxChars, s)
    {
      var rest := Paragraphs(text, s);
      var group: seq<Span>, size := [], 0;
      groups := [];
      while rest != []
        invariant groups + Pack(rest, maxChars, group, size) == GroupsIn(text, maxChars, s)
        decreases |rest|
      {
        var p := rest[0];
        if group != [] && size + Length(p) > maxChars {
          groups := groups + [group];
          group, size := [], 0;
        }
        assert [] + [p] == [p];
        group, size := group + [p], size + Length(p);
        rest := rest[1..];
      }
      if group != [] {
        groups := groups + [group];
      }
    }

    /** The inner loop of `split`: one chunk per group that is not blank. */
    static method GroupChunks(text: string, groups: seq<Group>, first: nat) returns (chunks: seq<Chunk>)
      requires Within(text, Hulls(groups))
      ensures chunks == ChunksOf(text, Hulls(groups), first)
    {
      chunks := [];
      var counter, rest := first, groups;
      ghost var whole := ChunksOf(text, Hulls(groups), first);
      while rest != []
        invariant Within(text, Hulls(rest))
        invariant chunks + ChunksOf(text, Hulls(rest), counter) == whole
        decreases |rest|
      {
        var t := Tighten(text, Hull(rest[0]));
        ghost var before, index := chunks, counter;
        if t.lo < t.hi {
          chunks := chunks + [Chunk(counter, text[t.lo..t.hi], t.lo, t.hi)];
          counter := counter + 1;
        }
        NextChunk(text, rest, index, before, counter, chunks);
        rest := rest[1..];
      }
    }

    method SectionChunks(text: string, s: Span, first: nat, ghost make: (Span, nat) -> seq<Chunk>)
      returns (chunks: seq<Chunk>)
      requires s.lo <= s.hi <= |text| && Makes(make, text, maxChars)
      ensures chunks == make(s, first)
    {
      var groups := PackedParagraphs(text, s);
      chunks := GroupChunks(text, groups, first);
      assert chunks == BodyChunks(text, maxChars, s, first);
    }

    method Split(text: string) returns (sections: seq<Section>)
      ensures sections == SplitText(text, maxChars)
    {
      var rest := SectionSpans(text);
      BodiesSound(text, SplitLines(text), 0, "", 0);
      sections := SplitBodies(text, rest, BodyChunker(text, maxChars));
    }

    /** The loop of `split` over the section spans. */
    method SplitBodies(text: string, bodies: seq<Body>, ghost make: (Span, nat) -> seq<Chunk>)
      returns (sections: seq<Section>)
      requires BodiesOrdered(bodies, 0, |text|)
      requires Makes(make, text, maxChars)
      ensures sections == SectionsOf(make, bodies, 0, 0)
    {
      sections := [];
      var counter: nat := 0;
      var rest := bodies;
      ghost var from := 0;
      while rest != []
        invariant BodiesOrdered(rest, from, |text|)
        invariant sections + SectionsOf(make, rest, |sections|, counter) == SectionsOf(make, bodies, 0, 0)
        decreases |rest|
      {
        var body := rest[0];
        var chunks := SectionChunks(text, body.span, counter, make);
        NextSection(make, rest, |sections|, counter, chunks, sections);
        if chunks != [] {
          sections := sections
            + [Section(|sections|, body.title, chunks[0].start, chunks[|chunks| - 1].end, chunks)];
          counter := counter + |chunks|;
        }
        rest, from := rest[1..], body.span.hi;
      }
    }
  }
}
