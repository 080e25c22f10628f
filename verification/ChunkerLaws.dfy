/** What the chunks of a document are: a partition of its text that cuts no paragraph and packs
    greedily. */
module ChunkerLaws {
  import opened Text
  import opened Chunker

  // ---- the chunks of a document ---------------------------------------------------------------------

  predicate Holds(c: Chunk, i: int) {
    c.start <= i < c.end
  }

  /** How many chunks hold offset `i`. */
  function Holders(chunks: seq<Chunk>, i: int): nat {
    if chunks == [] then 0 else (if Holds(chunks[0], i) then 1 else 0) + Holders(chunks[1..], i)
  }

  /** A chunk is the exact text of its offsets and neither begins nor ends with whitespace. */
  predicate ExactChunk(text: string, c: Chunk, index: int) {
    && c.index == index && c.start < c.end <= |text| && c.text == text[c.start..c.end]
    && !IsSpace(text[c.start]) && !IsSpace(text[c.end - 1])
  }

  /** Chunks in order inside `from..to`, numbered from `index`. */
  predicate Exact(text: string, chunks: seq<Chunk>, index: nat, from: nat, to: nat) {
    if chunks == [] then from <= to <= |text|
    else
      var c := chunks[0];
      && from <= c.start && ExactChunk(text, c, index)
      && Exact(text, chunks[1..], index + 1, c.end, to)
  }

  /** Every span gives a chunk. */
  lemma {:induction false} ChunksExact(text: string, spans: seq<Span>, index: nat, from: nat, to: nat)
    requires Cover(text, spans, from, to) && Within(text, spans)
    ensures |ChunksOf(text, spans, index)| == |spans|
    ensures Exact(text, ChunksOf(text, spans, index), index, from, to)
    decreases spans
  {
    if spans == [] {
      CoverBounds(text, spans, from, to);
    } else {
      var c := FirstChunk(text, spans, index, from, to);
      var rest := ChunksOf(text, spans[1..], index + 1);
      ChunksExact(text, spans[1..], index + 1, spans[0].hi, to);
      ExactWiden(text, rest, index + 1, c.end, spans[0].hi, to);
      ExactCons(text, c, rest, index, from, to);
    }
  }

  lemma {:induction false} FirstChunk(text: string, spans: seq<Span>, index: nat, from: nat, to: nat) returns (c: Chunk)
    requires spans != [] && Cover(text, spans, from, to) && Within(text, spans)
    ensures from <= c.start && ExactChunk(text, c, index) && c.end <= spans[0].hi
    ensures Cover(text, spans[1..], spans[0].hi, to) && Within(text, spans[1..])
    ensures ChunksOf(text, spans, index) == [c] + ChunksOf(text, spans[1..], index + 1)
  {
    var t := Tighten(text, spans[0]);
    c := Chunk(index, text[t.lo..t.hi], t.lo, t.hi);
    CoverBounds(text, spans, from, to);
  }

  lemma {:induction false} ExactCons(text: string, c: Chunk, rest: seq<Chunk>, index: nat, from: nat, to: nat)
    requires from <= c.start && ExactChunk(text, c, index) && Exact(text, rest, index + 1, c.end, to)
    ensures Exact(text, [c] + rest, index, from, to)
  {
    assert ([c] + rest)[1..] == rest;
  }

  /** The chunks hold every offset of `from..to` that is not whitespace, once, and no other. */
  lemma {:induction false} ChunksHold(text: string, spans: seq<Span>, index: nat, from: nat, to: nat, i: nat)
    requires Cover(text, spans, from, to) && Within(text, spans) && i < |text| && !IsSpace(text[i])
    ensures Holders(ChunksOf(text, spans, index), i) == if from <= i < to then 1 else 0
    decreases spans
  {
    CoverBounds(text, spans, from, to);
    if spans != [] {
      var s := spans[0];
      var t := Tighten(text, s);
      var c := Chunk(index, text[t.lo..t.hi], t.lo, t.hi);
      var rest := ChunksOf(text, spans[1..], index + 1);
      ChunksHold(text, spans[1..], index + 1, s.hi, to, i);
      assert ([c] + rest)[1..] == rest;
      CoverBounds(text, spans[1..], s.hi, to);
    }
  }

  lemma {:induction false} ExactWiden(text: string, chunks: seq<Chunk>, index: nat, earlier: nat, from: nat, to: nat)
    requires Exact(text, chunks, index, from, to) && earlier <= from
    ensures Exact(text, chunks, index, earlier, to)
  {
    if chunks == [] {
    }
  }

  lemma {:induction false} ExactJoins(
    text: string, a: seq<Chunk>, b: seq<Chunk>, index: nat, from: nat, mid: nat, to: nat)
    requires Exact(text, a, index, from, mid) && Exact(text, b, index + |a|, mid, to)
    ensures Exact(text, a + b, index, from, to)
    decreases a
  {
    if a == [] {
      assert a + b == b;
      ExactWiden(text, b, index, from, mid, to);
    } else {
      assert (a + b)[1..] == a[1..] + b;
      ExactJoins(text, a[1..], b, index + 1, a[0].end, mid, to);
    }
  }

  lemma {:induction false} HoldersJoin(a: seq<Chunk>, b: seq<Chunk>, i: int)
    ensures Holders(a + b, i) == Holders(a, i) + Holders(b, i)
    decreases a
  {
    if a == [] {
      assert a + b == b;
    } else {
      assert (a + b)[1..] == a[1..] + b;
      HoldersJoin(a[1..], b, i);
    }
  }

  /** The chunks of one body are exact and hold what of it is not whitespace. */
  predicate BodyExact(text: string, chunks: seq<Chunk>, s: Span, index: nat) {
    && Exact(text, chunks, index, s.lo, s.hi)
    && forall i: nat {:trigger Holders(chunks, i)} ::
         i < |text| && !IsSpace(text[i]) ==> Holders(chunks, i) == if s.lo <= i < s.hi then 1 else 0
  }

  lemma {:induction false} BodyChunkerExact(text: string, max: int, s: Span, index: nat)
    requires s.lo <= s.hi <= |text|
    ensures BodyExact(text, BodyChunker(text, max)(s, index), s, index)
  {
    HullsCover(text, max, s);
    var hulls := Hulls(GroupsIn(text, max, s));
    ChunksExact(text, hulls, index, s.lo, s.hi);
    forall i: nat | i < |text| && !IsSpace(text[i])
      ensures Holders(ChunksOf(text, hulls, index), i) == if s.lo <= i < s.hi then 1 else 0
    {
      ChunksHold(text, hulls, index, s.lo, s.hi, i);
    }
  }

  /** The chunks of the bodies in a row. */
  function BodiesChunks(make: (Span, nat) -> seq<Chunk>, bodies: seq<Body>, count: nat): seq<Chunk>
    decreases bodies
  {
    if bodies == [] then []
    else
      var chunks := make(bodies[0].span, count);
      chunks + BodiesChunks(make, bodies[1..], count + |chunks|)
  }

  /** Dropping the sections without chunks drops no chunk. */
  lemma {:induction false} SectionsKeepChunks(
    make: (Span, nat) -> seq<Chunk>, bodies: seq<Body>, made: nat, count: nat)
    ensures AllChunks(SectionsOf(make, bodies, made, count)) == BodiesChunks(make, bodies, count)
    decreases bodies
  {
    if bodies != [] {
      var chunks := make(bodies[0].span, count);
      if chunks == [] {
        SectionsKeepChunks(make, bodies[1..], made, count);
        assert chunks + BodiesChunks(make, bodies[1..], count) == BodiesChunks(make, bodies[1..], count);
      } else {
        SectionsKeepChunks(make, bodies[1..], made + 1, count + |chunks|);
        var all := SectionsOf(make, bodies, made, count);
        assert all[1..] == SectionsOf(make, bodies[1..], made + 1, count + |chunks|);
      }
    }
  }

  /** Whatever body `make` is given, its chunks are exact. */
  ghost predicate MakesExact(text: string, make: (Span, nat) -> seq<Chunk>) {
    forall s: Span, n: nat {:trigger BodyExact(text, make(s, n), s, n)} :: s.lo <= s.hi <= |text| ==> BodyExact(text, make(s, n), s, n)
  }

  lemma {:induction false} Made(text: string, make: (Span, nat) -> seq<Chunk>, s: Span, n: nat)
    requires MakesExact(text, make) && s.lo <= s.hi <= |text|
    ensures BodyExact(text, make(s, n), s, n)
  {
  }

  lemma {:induction false} BodiesExact(
    text: string, make: (Span, nat) -> seq<Chunk>, bodies: seq<Body>, count: nat, from: nat)
    requires MakesExact(text, make) && BodiesOrdered(bodies, from, |text|)
    ensures Exact(text, BodiesChunks(make, bodies, count), count, from, |text|)
    decreases bodies
  {
    if bodies != [] {
      FirstBody(text, make, bodies, count, from);
      BodiesExact(text, make, bodies[1..], count + |make(bodies[0].span, count)|, bodies[0].span.hi);
      MoreBodies(text, make, bodies, count, from);
    }
  }

  lemma {:induction false} MoreBodies(
    text: string, make: (Span, nat) -> seq<Chunk>, bodies: seq<Body>, count: nat, from: nat)
    requires bodies != []
    requires Exact(text, make(bodies[0].span, count), count, from, bodies[0].span.hi)
    requires Exact(text, BodiesChunks(make, bodies[1..], count + |make(bodies[0].span, count)|),
                   count + |make(bodies[0].span, count)|, bodies[0].span.hi, |text|)
    ensures Exact(text, BodiesChunks(make, bodies, count), count, from, |text|)
  {
    var chunks := make(bodies[0].span, count);
    ExactJoins(text, chunks, BodiesChunks(make, bodies[1..], count + |chunks|), count, from, bodies[0].span.hi, |text|);
  }

  lemma {:induction false} FirstBody(
    text: string, make: (Span, nat) -> seq<Chunk>, bodies: seq<Body>, count: nat, from: nat)
    requires MakesExact(text, make) && bodies != [] && BodiesOrdered(bodies, from, |text|)
    ensures Exact(text, make(bodies[0].span, count), count, from, bodies[0].span.hi)
    ensures BodiesOrdered(bodies[1..], bodies[0].span.hi, |text|)
  {
    Made(text, make, bodies[0].span, count);
    ExactWiden(text, make(bodies[0].span, count), count, from, bodies[0].span.lo, bodies[0].span.hi);
  }

  lemma {:induction false} BodiesHold(
    text: string, make: (Span, nat) -> seq<Chunk>, bodies: seq<Body>, count: nat, from: nat, i: nat)
    requires MakesExact(text, make) && BodiesOrdered(bodies, from, |text|)
    requires i < |text| && !IsSpace(text[i])
    ensures Holders(BodiesChunks(make, bodies, count), i) == if InBody(bodies, i) then 1 else 0
    decreases bodies
  {
    if bodies != [] {
      var span := bodies[0].span;
      var chunks := make(span, count);
      BodiesHold(text, make, bodies[1..], count + |chunks|, span.hi, i);
      Made(text, make, span, count);
      HoldersJoin(chunks, BodiesChunks(make, bodies[1..], count + |chunks|), i);
      if i < span.hi {
        BeforeBodies(bodies[1..], span.hi, |text|, i);
      }
    }
  }

  /** The partition law: the chunks are exact, disjoint, in order and numbered through the document,
      and every character that is not whitespace is in exactly one chunk, or on a header line and
      in none. */
  lemma {:induction false} ChunksPartition(text: string, max: int)
    ensures var chunks := AllChunks(SplitText(text, max));
            && (forall k :: 0 <= k < |chunks| ==> ExactChunk(text, chunks[k], k))
            && (forall j, k :: 0 <= j < k < |chunks| ==> chunks[j].end <= chunks[k].start)
            && (forall i: nat :: i < |text| && !IsSpace(text[i]) ==>
                  Holders(chunks, i) == if OnHeader(SplitLines(text), 0, i) then 0 else 1)
  {
    var chunks := AllChunks(SplitText(text, max));
    DocumentExact(text, max);
    ExactEach(text, chunks, 0, 0, |text|);
    forall i: nat | i < |text| && !IsSpace(text[i])
      ensures Holders(chunks, i) == if OnHeader(SplitLines(text), 0, i) then 0 else 1
    {
      DocumentHolds(text, max, i);
    }
  }

  lemma {:induction false} BodyChunkersExact(text: string, max: int)
    ensures MakesExact(text, BodyChunker(text, max))
  {
    forall s: Span, n: nat | s.lo <= s.hi <= |text|
      ensures BodyExact(text, BodyChunker(text, max)(s, n), s, n)
    {
      BodyChunkerExact(text, max, s, n);
    }
  }

  lemma {:induction false} DocumentExact(text: string, max: int)
    ensures Exact(text, AllChunks(SplitText(text, max)), 0, 0, |text|)
  {
    BodiesSound(text, SplitLines(text), 0, "", 0);
    BodyChunkersExact(text, max);
    SectionsKeepChunks(BodyChunker(text, max), Bodies(SplitLines(text), 0, "", 0), 0, 0);
    BodiesExact(text, BodyChunker(text, max), Bodies(SplitLines(text), 0, "", 0), 0, 0);
  }

  lemma {:induction false} DocumentHolds(text: string, max: int, i: nat)
    requires i < |text| && !IsSpace(text[i])
    ensures Holders(AllChunks(SplitText(text, max)), i) == if OnHeader(SplitLines(text), 0, i) then 0 else 1
  {
    BodiesSound(text, SplitLines(text), 0, "", 0);
    BodyChunkersExact(text, max);
    SectionsKeepChunks(BodyChunker(text, max), Bodies(SplitLines(text), 0, "", 0), 0, 0);
    BodiesHold(text, BodyChunker(text, max), Bodies(SplitLines(text), 0, "", 0), 0, 0, i);
  }

  lemma {:induction false} ExactEach(text: string, chunks: seq<Chunk>, index: nat, from: nat, to: nat)
    requires Exact(text, chunks, index, from, to)
    ensures forall k :: 0 <= k < |chunks| ==>
              from <= chunks[k].start && ExactChunk(text, chunks[k], index + k)
    ensures forall j, k :: 0 <= j < k < |chunks| ==> chunks[j].end <= chunks[k].start
    decreases chunks
  {
    if chunks != [] {
      var rest := chunks[1..];
      ExactEach(text, rest, index + 1, chunks[0].end, to);
      assert forall k :: 0 < k < |chunks| ==> chunks[k] == rest[k - 1];
    }
  }

  /** Sections are numbered 0.., hold at least one chunk, and run from their first chunk to their last. */
  lemma {:induction false} SectionsNumbered(
    make: (Span, nat) -> seq<Chunk>, bodies: seq<Body>, made: nat, count: nat)
    ensures forall k :: 0 <= k < |SectionsOf(make, bodies, made, count)| ==>
              var s := SectionsOf(make, bodies, made, count)[k];
              && s.index == made + k && s.chunks != []
              && s.start == s.chunks[0].start && s.end == s.chunks[|s.chunks| - 1].end
    decreases bodies
  {
    if bodies != [] {
      var chunks := make(bodies[0].span, count);
      SectionsNumbered(make, bodies[1..], if chunks == [] then made else made + 1, count + |chunks|);
    }
  }

  // ---- no paragraph is cut ---------------------------------------------------------------------------

  /** `s` takes in all of `p` or none of it. */
  predicate Uncut(p: Span, s: Span) {
    || (s.lo <= p.lo && p.hi <= s.hi)
    || p.hi <= s.lo || s.hi <= p.lo
  }

  predicate AllUncut(p: Span, spans: seq<Span>) {
    spans != [] ==> Uncut(p, spans[0]) && AllUncut(p, spans[1..])
  }

  lemma {:induction false} LaterUncut(text: string, spans: seq<Span>, from: nat, to: nat, p: Span)
    requires Cover(text, spans, from, to) && p.hi <= from
    ensures AllUncut(p, spans)
    decreases spans
  {
    if spans != [] {
      LaterUncut(text, spans[1..], spans[0].hi, to, p);
    }
  }

  /** No hull cuts a paragraph, one of those to come or one already in the open group. */
  lemma {:induction false} PackUncut(
    text: string, paras: seq<Span>, max: int, group: seq<Span>, size: int, from: nat, to: nat, p: Span)
    requires Cover(text, if group == [] then paras else [Hull(group)] + paras, from, to)
    requires p in paras || (group != [] && Hull(group).lo <= p.lo && p.hi <= Hull(group).hi)
    ensures AllUncut(p, Hulls(Pack(paras, max, group, size)))
    decreases paras
  {
    if group != [] {
      assert ([Hull(group)] + paras)[1..] == paras;
    }
    if paras == [] {
      var last: seq<Group> := [group];
      assert last[1..] == [] && Hulls(last)[1..] == [];
    } else {
      var q, rest := paras[0], paras[1..];
      assert paras == [q] + rest;
      if group != [] && size + Length(q) > max {
        PackUncutClose(text, paras, max, group, size, from, to, p);
      } else {
        var grown := Hull(group + [q]);
        assert ([grown] + rest)[1..] == rest;
        PackTakes(q, rest, max, group, size);
        PackUncut(text, rest, max, group + [q], size + Length(q), from, to, p);
      }
    }
  }

  lemma {:induction false} PackUncutClose(
    text: string, paras: seq<Span>, max: int, group: Group, size: int, from: nat, to: nat, p: Span)
    requires Cover(text, [Hull(group)] + paras, from, to) && Cover(text, paras, Hull(group).hi, to)
    requires paras != [] && size + Length(paras[0]) > max
    requires p in paras || (Hull(group).lo <= p.lo && p.hi <= Hull(group).hi)
    ensures AllUncut(p, Hulls(Pack(paras, max, group, size)))
    decreases paras, 0
  {
    var q, rest, edge := paras[0], paras[1..], Hull(group).hi;
    var tail := Pack(rest, max, [q], Length(q));
    assert paras == [q] + rest && Hull([q]) == q;
    if p in paras {
      CoverBounds(text, paras, edge, to);
      PackUncut(text, rest, max, [q], Length(q), edge, to, p);
    } else {
      PackCovers(text, rest, max, [q], Length(q), edge, to);
      LaterUncut(text, Hulls(tail), edge, to, p);
    }
    var all: seq<Group> := [group] + tail;
    assert all[1..] == tail && Hulls(all)[1..] == Hulls(tail);
  }

  /** The chunks of a body cut none of its paragraphs. */
  lemma {:induction false} BodyCutsNone(text: string, max: int, s: Span, index: nat, p: Span, i: nat, j: nat)
    requires s.lo <= s.hi <= |text| && p in ParagraphsIn(text, s)
    requires p.lo <= i < p.hi && p.lo <= j < p.hi && i < |text| && j < |text|
    requires !IsSpace(text[i]) && !IsSpace(text[j])
    ensures forall c :: c in BodyChunks(text, max, s, index) ==> (Holds(c, i) <==> Holds(c, j))
  {
    HullsCover(text, max, s);
    PackUncut(text, ParagraphsIn(text, s), max, [], 0, s.lo, s.hi, p);
    ChunksUncut(text, Hulls(GroupsIn(text, max, s)), index, p, i, j);
  }

  lemma {:induction false} ChunksUncut(text: string, spans: seq<Span>, index: nat, p: Span, i: nat, j: nat)
    requires Within(text, spans) && AllUncut(p, spans)
    requires p.lo <= i < p.hi && p.lo <= j < p.hi && i < |text| && j < |text|
    requires !IsSpace(text[i]) && !IsSpace(text[j])
    ensures forall c :: c in ChunksOf(text, spans, index) ==> (Holds(c, i) <==> Holds(c, j))
    decreases spans
  {
    if spans != [] {
      var t := Tighten(text, spans[0]);
      var rest := spans[1..];
      ChunksUncut(text, rest, index, p, i, j);
      ChunksUncut(text, rest, index + 1, p, i, j);
      if t.lo < t.hi {
        var c := Chunk(index, text[t.lo..t.hi], t.lo, t.hi);
        assert ChunksOf(text, spans, index) == [c] + ChunksOf(text, rest, index + 1);
        assert Holds(c, i) <==> spans[0].lo <= i < spans[0].hi;
        assert Holds(c, j) <==> spans[0].lo <= j < spans[0].hi;
      }
    }
  }

  /** `i` and `j` are in the same chunks. */
  predicate Together(chunks: seq<Chunk>, i: nat, j: nat) {
    forall c :: c in chunks ==> (Holds(c, i) <==> Holds(c, j))
  }

  lemma {:induction false} NoHolder(chunks: seq<Chunk>, i: int)
    requires Holders(chunks, i) == 0
    ensures forall c :: c in chunks ==> !Holds(c, i)
    decreases chunks
  {
    if chunks != [] {
      NoHolder(chunks[1..], i);
      assert chunks == [chunks[0]] + chunks[1..];
    }
  }

  lemma {:induction false} LaterBody(bodies: seq<Body>, from: nat, to: nat, b: Body)
    requires BodiesOrdered(bodies, from, to) && b in bodies
    ensures from <= b.span.lo <= b.span.hi <= to
    decreases bodies
  {
    if b != bodies[0] {
      assert bodies == [bodies[0]] + bodies[1..];
      LaterBody(bodies[1..], bodies[0].span.hi, to, b);
    }
  }

  predicate Inside(s: Span, i: nat) {
    s.lo <= i < s.hi
  }

  /** An offset is inside one body. */
  lemma {:induction false} OneBody(bodies: seq<Body>, from: nat, to: nat, b: Body, c: Body, i: nat)
    requires BodiesOrdered(bodies, from, to) && b in bodies && c in bodies
    requires Inside(b.span, i) && Inside(c.span, i)
    ensures b == c
    decreases bodies
  {
    var rest := bodies[1..];
    assert bodies == [bodies[0]] + rest;
    if b != bodies[0] && c != bodies[0] {
      OneBody(rest, bodies[0].span.hi, to, b, c, i);
    } else if b != bodies[0] {
      LaterBody(rest, bodies[0].span.hi, to, b);
    } else if c != bodies[0] {
      LaterBody(rest, bodies[0].span.hi, to, c);
    }
  }

  lemma {:induction false} BodiesTogether(make: (Span, nat) -> seq<Chunk>, bodies: seq<Body>, count: nat, i: nat, j: nat)
    requires forall b: Body, n: nat :: b in bodies ==> Together(make(b.span, n), i, j)
    ensures Together(BodiesChunks(make, bodies, count), i, j)
    decreases bodies
  {
    if bodies != [] {
      assert bodies[0] in bodies && forall b :: b in bodies[1..] ==> b in bodies;
      BodiesTogether(make, bodies[1..], count + |make(bodies[0].span, count)|, i, j);
    }
  }

  /** No chunk boundary of the document falls inside a paragraph: a chunk holds all of a paragraph's
      characters that are not whitespace, or none of them. */
  lemma {:induction false} NoParagraphIsCut(text: string, max: int, b: Body, p: Span, i: nat, j: nat)
    requires b in Bodies(SplitLines(text), 0, "", 0) && b.span.lo <= b.span.hi <= |text| && p in ParagraphsIn(text, b.span)
    requires p.lo <= i < p.hi && p.lo <= j < p.hi && i < |text| && j < |text|
    requires !IsSpace(text[i]) && !IsSpace(text[j])
    ensures forall c :: c in AllChunks(SplitText(text, max)) ==> (Holds(c, i) <==> Holds(c, j))
  {
    var bodies, make := Bodies(SplitLines(text), 0, "", 0), BodyChunker(text, max);
    BodiesSound(text, SplitLines(text), 0, "", 0);
    SectionsKeepChunks(make, bodies, 0, 0);
    HullsCover(text, max, b.span);
    CoverBounds(text, ParagraphsIn(text, b.span), b.span.lo, b.span.hi);
    forall c: Body, n: nat | c in bodies
      ensures Together(make(c.span, n), i, j)
    {
      LaterBody(bodies, 0, |text|, c);
      if c == b {
        BodyCutsNone(text, max, b.span, n, p, i, j);
      } else {
        OtherBodyHoldsNone(text, max, bodies, b, c, n, i);
        OtherBodyHoldsNone(text, max, bodies, b, c, n, j);
      }
    }
    BodiesTogether(make, bodies, 0, i, j);
  }

  lemma {:induction false} OtherBodyHoldsNone(text: string, max: int, bodies: seq<Body>, b: Body, c: Body, n: nat, i: nat)
    requires BodiesOrdered(bodies, 0, |text|) && b in bodies && c in bodies && b != c
    requires Inside(b.span, i) && i < |text| && !IsSpace(text[i]) && c.span.lo <= c.span.hi <= |text|
    ensures forall d :: d in BodyChunker(text, max)(c.span, n) ==> !Holds(d, i)
  {
    if Inside(c.span, i) {
      OneBody(bodies, 0, |text|, b, c, i);
    }
    BodyChunkerExact(text, max, c.span, n);
    NoHolder(BodyChunker(text, max)(c.span, n), i);
  }

  // ---- the packing law -------------------------------------------------------------------------------

  function Flatten(groups: seq<Group>): seq<Span> {
    if groups == [] then [] else groups[0] + Flatten(groups[1..])
  }

  function Total(group: seq<Span>): int {
    if group == [] then 0 else Total(group[..|group| - 1]) + Length(group[|group| - 1])
  }

  /** A group of several paragraphs fits the limit, and the paragraph after any group does not fit it. */
  predicate Greedy(groups: seq<Group>, max: int) {
    groups != [] ==>
      && (|groups[0]| > 1 ==> Total(groups[0]) <= max)
      && (|groups| > 1 ==> Total(groups[0]) + Length(groups[1][0]) > max)
      && Greedy(groups[1..], max)
  }

  predicate Forward(spans: seq<Span>) {
    forall i :: 0 <= i < |spans| ==> spans[i].lo <= spans[i].hi
  }

  lemma {:induction false} ForwardParts(a: seq<Span>, b: seq<Span>)
    requires Forward(a + b)
    ensures Forward(a) && Forward(b)
  {
    assert forall i :: 0 <= i < |a| ==> (a + b)[i] == a[i];
    assert forall i :: 0 <= i < |b| ==> (a + b)[|a| + i] == b[i];
  }

  /** Packing is the one greedy grouping of the paragraphs that keeps them all, in order. */
  lemma {:induction false} PackIsTheGreedyGrouping(paras: seq<Span>, groups: seq<Group>, max: int)
    requires Forward(paras)
    ensures groups == Pack(paras, max, [], 0) <==> Flatten(groups) == paras && Greedy(groups, max)
  {
    if groups == Pack(paras, max, [], 0) {
      PackIsGreedy(paras, max, []);
      PackFlattens(paras, max, [], 0);
      assert [] + paras == paras;
    }
    if Flatten(groups) == paras && Greedy(groups, max) {
      GreedyFromStart(groups, max);
    }
  }

  lemma {:induction false} GreedyFromStart(groups: seq<Group>, max: int)
    requires Greedy(groups, max) && Forward(Flatten(groups))
    ensures Pack(Flatten(groups), max, [], 0) == groups
  {
    if groups != [] {
      var none: seq<Span> := [];
      ForwardParts(groups[0], Flatten(groups[1..]));
      assert none + groups[0] == groups[0] && groups == [groups[0]] + groups[1..];
      TakeAll(none, groups[0], Flatten(groups[1..]), max);
      GreedyIsPacked(groups[0], groups[1..], max);
    }
  }

  lemma {:induction false} PackFlattens(paras: seq<Span>, max: int, group: seq<Span>, size: int)
    ensures Flatten(Pack(paras, max, group, size)) == group + paras
    decreases paras
  {
    if paras == [] {
      if group != [] {
        var last: seq<Group> := [group];
        assert last[1..] == [] && Flatten(last) == group + [];
      }
    } else {
      var p, rest := paras[0], paras[1..];
      assert paras == [p] + rest;
      if group != [] && size + Length(p) > max {
        PackFlattens(rest, max, [p], Length(p));
        var tail := Pack(rest, max, [p], Length(p));
        var all: seq<Group> := [group] + tail;
        assert all[1..] == tail && Flatten(all) == group + ([p] + rest);
      } else {
        PackFlattens(rest, max, group + [p], size + Length(p));
        assert (group + [p]) + rest == group + paras;
      }
    }
  }

  lemma {:induction false} PackStarts(paras: seq<Span>, max: int, group: Group, size: int)
    ensures var groups := Pack(paras, max, group, size); groups != [] && group <= groups[0]
    decreases paras
  {
    if paras != [] && size + Length(paras[0]) <= max {
      PackStarts(paras[1..], max, group + [paras[0]], size + Length(paras[0]));
    }
  }

  lemma {:induction false} PackIsGreedy(paras: seq<Span>, max: int, group: seq<Span>)
    requires |group| > 1 ==> Total(group) <= max
    ensures Greedy(Pack(paras, max, group, Total(group)), max)
    decreases paras
  {
    if paras == [] {
      if group != [] {
        var last: seq<Group> := [group];
        assert last[1..] == [];
      }
    } else {
      var p, rest := paras[0], paras[1..];
      if group != [] && Total(group) + Length(p) > max {
        TotalSnoc([], p);
        assert [] + [p] == [p];
        PackIsGreedy(rest, max, [p]);
        PackStarts(rest, max, [p], Length(p));
        var tail := Pack(rest, max, [p], Length(p));
        var all: seq<Group> := [group] + tail;
        assert all[1..] == tail && tail[0][0] == p;
      } else {
        TotalSnoc(group, p);
        PackIsGreedy(rest, max, group + [p]);
      }
    }
  }

  lemma {:induction false} TotalGrows(group: seq<Span>, n: nat)
    requires n <= |group| && forall i :: 0 <= i < |group| ==> group[i].lo <= group[i].hi
    ensures Total(group[..n]) <= Total(group)
    decreases |group|
  {
    if n < |group| {
      var init := group[..|group| - 1];
      assert init[..n] == group[..n];
      TotalGrows(init, n);
    } else {
      assert group[..n] == group;
    }
  }

  lemma {:induction false} TotalSnoc(group: seq<Span>, p: Span)
    ensures Total(group + [p]) == Total(group) + Length(p)
  {
    assert (group + [p])[..|group|] == group;
  }

  /** Within a group of several paragraphs that fits, the next paragraph fits. */
  lemma {:induction false} PartFits(done: seq<Span>, p: Span, rest: seq<Span>, max: int)
    requires Forward(done + [p] + rest) && (|done + [p] + rest| > 1 ==> Total(done + [p] + rest) <= max)
    ensures done == [] || Total(done) + Length(p) <= max
  {
    var whole := done + [p] + rest;
    TotalGrows(whole, |done| + 1);
    assert whole[..|done| + 1] == done + [p];
    TotalSnoc(done, p);
  }

  /** Taking the next paragraph into the open group. */
  lemma {:induction false} TakeNext(done: seq<Span>, p: Span, rest: seq<Span>, more: seq<Span>, max: int)
    requires done == [] || Total(done) + Length(p) <= max
    ensures Pack(([p] + rest) + more, max, done, Total(done)) == Pack(rest + more, max, done + [p], Total(done + [p]))
  {
    PackTakes(p, rest + more, max, done, Total(done));
    assert ([p] + rest) + more == [p] + (rest + more);
    TotalSnoc(done, p);
  }

  /** Closing the open group at the first paragraph of the next one. */
  lemma {:induction false} CloseGroup(done: Group, p: Span, rest: seq<Span>, more: seq<Span>, max: int)
    requires Total(done) + Length(p) > max
    ensures Pack(([p] + rest) + more, max, done, Total(done)) == [done] + Pack(rest + more, max, [p], Total([p]))
  {
    PackCloses(p, rest + more, max, done, Total(done));
    assert ([p] + rest) + more == [p] + (rest + more);
    TotalSnoc([], p);
    assert [] + [p] == [p];
  }

  /** A group that fits is taken in whole; `done` is the part already taken in. */
  lemma {:induction false} TakeAll(done: seq<Span>, left: seq<Span>, more: seq<Span>, max: int)
    requires (|done + left| > 1 ==> Total(done + left) <= max) && Forward(done + left)
    ensures Pack(left + more, max, done, Total(done)) == Pack(more, max, done + left, Total(done + left))
    decreases left
  {
    if left == [] {
      assert done + left == done && left + more == more;
    } else {
      var p, rest := left[0], left[1..];
      assert left == [p] + rest && done + left == done + [p] + rest;
      PartFits(done, p, rest, max);
      TakeNext(done, p, rest, more, max);
      TakeAll(done + [p], rest, more, max);
    }
  }

  /** Packing the paragraphs of the groups after `done` gives the groups back. */
  lemma {:induction false} GreedyIsPacked(done: Group, tail: seq<Group>, max: int)
    requires tail != [] ==> Total(done) + Length(tail[0][0]) > max
    requires Greedy(tail, max) && Forward(Flatten(tail))
    ensures Pack(Flatten(tail), max, done, Total(done)) == [done] + tail
    decreases tail
  {
    if tail != [] {
      var p, rest, more := tail[0][0], tail[0][1..], tail[1..];
      assert tail[0] == [p] + rest && tail == [tail[0]] + more;
      ForwardParts(tail[0], Flatten(more));
      CloseGroup(done, p, rest, Flatten(more), max);
      TakeAll([p], rest, Flatten(more), max);
      GreedyIsPacked(tail[0], more, max);
    }
  }

  /** Inside one body: every paragraph is in a group, the groups are greedy, and each group gives a
      chunk, so the branch for a blank group is never taken. */
  lemma {:induction false} EveryGroupIsAChunk(text: string, max: int, s: Span, index: nat)
    requires s.lo <= s.hi <= |text|
    ensures var groups := GroupsIn(text, max, s);
            && Flatten(groups) == ParagraphsIn(text, s) && Greedy(groups, max)
            && |BodyChunks(text, max, s, index)| == |groups|
  {
    var paras, groups := ParagraphsIn(text, s), GroupsIn(text, max, s);
    HullsCover(text, max, s);
    CoverBounds(text, paras, s.lo, s.hi);
    PackIsTheGreedyGrouping(paras, groups, max);
    ChunksExact(text, Hulls(groups), index, s.lo, s.hi);
    HullPerGroup(groups);
  }

  lemma {:induction false} HullPerGroup(groups: seq<Group>)
    ensures |Hulls(groups)| == |groups|
    decreases groups
  {
    if groups != [] {
      HullPerGroup(groups[1..]);
    }
  }
}
