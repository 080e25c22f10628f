/** Entity resolution, rule tier: canonical ids as functions of node type and surface form. */
module Resolver {
  import opened Wrappers
  import opened Text
  import opened Schemas
  import opened Regrouping
  import opened Batching
  import Tags

  function Prefix(t: NodeType): Option<string> {
    match t
    case Equipment => Some("equip")
    case Instrument => Some("inst")
    case Line => Some("line")
    case Document => Some("doc")
    case Section => Some("sec")
    case Chunk => Some("chunk")
    case WorkOrder => Some("wo")
    case FailureMode => Some("fm")
    case Procedure => Some("proc")
    case RegulationClause => Some("reg")
    case Person => Some("person")
    case FaultMode => None
  }

  predicate SlugChar(c: char) {
    IsLower(c) || IsDigit(c)
  }

  /** Lower-case, with every run of other characters turned into one hyphen. */
  function Hyphenated(s: string): string {
    if s == "" then ""
    else
      var c, rest := LowerChar(s[0]), Hyphenated(s[1..]);
      if SlugChar(c) then [c] + rest
      else if rest != "" && rest[0] == '-' then rest
      else "-" + rest
  }

  function StripHyphens(s: string): string {
    if s != "" && s[0] == '-' then StripHyphens(s[1..])
    else if s != "" && s[|s| - 1] == '-' then StripHyphens(s[..|s| - 1])
    else s
  }

  function Slug(s: string): string {
    StripHyphens(Hyphenated(s))
  }

  /** What follows the prefix in a canonical id. */
  function LocalId(t: NodeType, surface: string): string {
    match t
    case Equipment => Tags.Normalize(surface)
    case Instrument => Tags.Normalize(surface)
    case Line => Tags.Normalize(surface)
    case Document => surface
    case Section => surface
    case Chunk => surface
    case WorkOrder => Upper(Strip(surface))
    case _ => Slug(surface)
  }

  /** None for a node type without an id prefix, where the lookup raises KeyError. */
  function Canonical(t: NodeType, surface: string): Option<Id> {
    match Prefix(t)
    case Some(p) => Some(p + ":" + LocalId(t, surface))
    case None => None
  }

  /** No node up to and including `i` lacks a prefix for its type. */
  predicate Reached(nodes: seq<CandidateNode>, i: nat) {
    forall j :: 0 <= j <= i && j < |nodes| ==> Prefix(nodes[j].nodeType).Some?
  }

  /** `resolve`: every node gets its canonical id, up to the first node type without a prefix. */
  method Resolve(nodes: array<CandidateNode>) returns (ok: bool)
    modifies nodes
    ensures ok <==> forall i :: 0 <= i < nodes.Length ==> Prefix(old(nodes[i]).nodeType).Some?
    ensures ok ==> forall i :: 0 <= i < nodes.Length ==> nodes[i] == Stamped(old(nodes[i]))
    ensures forall i :: 0 <= i < nodes.Length ==>
              nodes[i] == if Reached(old(nodes[..]), i) then Stamped(old(nodes[i])) else old(nodes[i])
  {
    for i := 0 to nodes.Length
      invariant forall j :: 0 <= j < i ==> nodes[j] == Stamped(old(nodes[j])) && Prefix(old(nodes[j]).nodeType).Some?
      invariant forall j :: i <= j < nodes.Length ==> nodes[j] == old(nodes[j])
    {
      var id := Canonical(nodes[i].nodeType, nodes[i].surfaceForm);
      if id.None? {
        assert Prefix(old(nodes[..])[i].nodeType).None?;
        return false;
      }
      nodes[i] := nodes[i].(resolvedId := id);
    }
    return true;
  }

  function Stamped(n: CandidateNode): CandidateNode {
    n.(resolvedId := Canonical(n.nodeType, n.surfaceForm))
  }

  // ---- an id determines its type ------------------------------------------------------------

  lemma {:induction false} FirstColon(a: string, b: string, x: string, y: string)
    requires Without(a, ':') && Without(b, ':')
    requires a + ":" + x == b + ":" + y
    ensures a == b && x == y
  {
    var s := a + ":" + x;
    assert s[|a|] == ':' && s[|b|] == ':';
    assert a == s[..|a|] && b == s[..|b|];
    assert x == s[|a| + 1..] && y == s[|b| + 1..];
  }

  lemma {:induction false} PrefixesAreKeys(t: NodeType, u: NodeType)
    requires Prefix(t).Some? && Prefix(u).Some?
    ensures Without(Prefix(t).value, ':') && Prefix(t).value != ""
    ensures Prefix(t) == Prefix(u) ==> t == u
  {
    if Prefix(t) == Prefix(u) {
      var p, q := Prefix(t).value, Prefix(u).value;
      assert |p| == |q| && p[0] == q[0] && p[1] == q[1];
      assert |p| > 2 ==> p[2] == q[2];
    }
  }

  /** Canonical ids of different node types never coincide, and within a type they coincide
      exactly when the normalized surface forms do. */
  lemma {:induction false} CanonicalIsKey(t: NodeType, a: string, u: NodeType, b: string)
    requires Canonical(t, a).Some? && Canonical(u, b).Some?
    ensures Canonical(t, a) == Canonical(u, b) <==> t == u && LocalId(t, a) == LocalId(u, b)
  {
    PrefixesAreKeys(t, u);
    PrefixesAreKeys(u, t);
    if Canonical(t, a) == Canonical(u, b) {
      FirstColon(Prefix(t).value, Prefix(u).value, LocalId(t, a), LocalId(u, b));
    }
  }

  /** Two spellings of a tag name one piece of equipment exactly when their letters and digits
      agree up to case. */
  lemma {:induction false} SameTagSameId(a: string, b: string)
    requires Tags.TagOf(a).Some? && Tags.TagOf(b).Some?
    ensures Canonical(Equipment, a) == Canonical(Equipment, b) <==> Tags.Skeleton(a) == Tags.Skeleton(b)
  {
    CanonicalIsKey(Equipment, a, Equipment, b);
    Tags.NormalizeIsCompleteKey(a, b);
  }

  // ---- resolved subgraphs are safe to regroup ------------------------------------------------

  /** The subgraph as the resolver leaves it. */
  predicate FromResolver(c: Subgraph) {
    forall i :: 0 <= i < |c.nodes| ==>
      Prefix(c.nodes[i].nodeType).Some? && c.nodes[i] == Stamped(c.nodes[i])
  }

  /** A write whose id is the canonical id of some surface form of its label. */
  ghost predicate Labelled(w: NodeWrite) {
    exists surface :: Canonical(w.cls, surface) == Some(w.key)
  }

  lemma {:induction false} LabelledNodes(nodes: seq<CandidateNode>)
    requires forall i :: 0 <= i < |nodes| ==> Prefix(nodes[i].nodeType).Some? && nodes[i] == Stamped(nodes[i])
    ensures forall i :: 0 <= i < |NodeWritesOf(nodes)| ==> Labelled(NodeWritesOf(nodes)[i])
    ensures AllResolved(nodes)
    decreases nodes
  {
    if nodes != [] {
      LabelledNodes(nodes[1..]);
      var n := nodes[0];
      assert Canonical(NodeWriteOf(n).cls, n.surfaceForm) == Some(NodeWriteOf(n).key);
      assert Labelled(NodeWriteOf(n));
    }
  }

  lemma {:induction false} LabelledSubgraphs(cs: seq<Subgraph>)
    requires forall i :: 0 <= i < |cs| ==> FromResolver(cs[i])
    ensures forall i :: 0 <= i < |AllNodeWrites(cs)| ==> Labelled(AllNodeWrites(cs)[i])
    ensures EveryResolved(cs)
    decreases cs
  {
    if cs != [] {
      LabelledNodes(cs[0].nodes);
      LabelledSubgraphs(cs[1..]);
    }
  }

  /** Whatever the resolver has resolved groups without error and writes no id under two labels. */
  lemma {:induction false} ResolvedHasOneClass(cs: seq<Subgraph>)
    requires forall i :: 0 <= i < |cs| ==> FromResolver(cs[i])
    ensures EveryResolved(cs) && OneClass(AllNodeWrites(cs))
  {
    LabelledSubgraphs(cs);
    var ws := AllNodeWrites(cs);
    forall i, j | 0 <= i < |ws| && 0 <= j < |ws| && ws[i].key == ws[j].key
      ensures ws[i].cls == ws[j].cls
    {
      assert Labelled(ws[i]) && Labelled(ws[j]);
      var a, b :| Canonical(ws[i].cls, a) == Some(ws[i].key) && Canonical(ws[j].cls, b) == Some(ws[j].key);
      CanonicalIsKey(ws[i].cls, a, ws[j].cls, b);
    }
  }

  // ---- when two surface forms share an id --------------------------------------------------------------

  /** The runs of letters and digits of a text, in lower case. */
  function Words(s: string): (ws: seq<string>)
    ensures s != "" && SlugChar(LowerChar(s[0])) ==> ws != []
  {
    if s == "" then []
    else
      var c, rest := LowerChar(s[0]), Words(s[1..]);
      if !SlugChar(c) then rest
      else if |s| > 1 && SlugChar(LowerChar(s[1])) then [[c] + rest[0]] + rest[1..]
      else [[c]] + rest
  }

  function Joined(ws: seq<string>): string {
    if ws == [] then "" else if |ws| == 1 then ws[0] else ws[0] + ("-" + Joined(ws[1..]))
  }

  predicate IsWord(w: string) {
    w != "" && forall i :: 0 <= i < |w| ==> SlugChar(w[i])
  }

  predicate AllWords(ws: seq<string>) {
    forall i :: 0 <= i < |ws| ==> IsWord(ws[i])
  }

  lemma {:induction false} WordsAreWords(s: string)
    ensures AllWords(Words(s))
    decreases |s|
  {
    if s != "" {
      WordsAreWords(s[1..]);
    }
  }

  lemma {:induction false} JoinedEnds(ws: seq<string>)
    requires ws != [] && AllWords(ws)
    ensures Joined(ws) != "" && SlugChar(Joined(ws)[0]) && SlugChar(Joined(ws)[|Joined(ws)| - 1])
    decreases ws
  {
    if |ws| > 1 {
      JoinedEnds(ws[1..]);
    }
  }

  /** The hyphenated form of a text with these words: they are joined, with a hyphen before and after
      where the text begins or ends with other characters. */
  predicate Hyphens(h: string, ws: seq<string>, pre: string, post: string) {
    && (pre == "" || pre == "-") && (post == "" || post == "-")
    && h == if ws == [] then pre else pre + (Joined(ws) + post)
  }

  lemma {:induction false} HyphenatedIs(s: string) returns (pre: string, post: string)
    ensures Hyphens(Hyphenated(s), Words(s), pre, post)
    ensures pre == if s == "" || SlugChar(LowerChar(s[0])) then "" else "-"
    decreases |s|
  {
    if s == "" {
      pre, post := "", "";
    } else {
      var c, rest := LowerChar(s[0]), s[1..];
      var p, q := HyphenatedIs(rest);
      WordsAreWords(rest);
      if !SlugChar(c) {
        pre, post := "-", q;
        Preceded(Hyphenated(rest), Words(rest), p, q);
      } else if rest != "" && SlugChar(LowerChar(rest[0])) {
        pre, post := "", q;
        Grown(c, Words(rest), q);
      } else {
        pre, post := "", if Words(rest) == [] then p else q;
        OwnWord(c, Words(rest), p, q, rest == "");
      }
    }
  }

  /** Another character comes before. */
  lemma {:induction false} Preceded(h: string, ws: seq<string>, p: string, q: string)
    requires Hyphens(h, ws, p, q) && AllWords(ws)
    ensures Hyphens(if h != "" && h[0] == '-' then h else "-" + h, ws, "-", q)
  {
    if ws != [] {
      JoinedEnds(ws);
      assert h == p + (Joined(ws) + q);
      if p == "" {
        assert h == Joined(ws) + q && h[0] == Joined(ws)[0];
      }
    }
  }

  /** A letter or digit joins the first word. */
  lemma {:induction false} Grown(c: char, ws: seq<string>, q: string)
    requires ws != []
    ensures [c] + ("" + (Joined(ws) + q)) == "" + (Joined([[c] + ws[0]] + ws[1..]) + q)
  {
    var grown := [[c] + ws[0]] + ws[1..];
    assert grown[1..] == ws[1..];
    assert Joined(grown) == [c] + Joined(ws);
  }

  /** A letter or digit is a word of its own. */
  lemma {:induction false} OwnWord(c: char, ws: seq<string>, p: string, q: string, last: bool)
    requires (p == "" || p == "-") && (q == "" || q == "-") && (last ==> ws == [] && p == "") && (!last ==> p == "-")
    ensures Hyphens([c] + (if ws == [] then p else p + (Joined(ws) + q)), [[c]] + ws, "", if ws == [] then p else q)
  {
    var all := [[c]] + ws;
    assert all[1..] == ws;
    if ws != [] {
      assert Joined(all) == [c] + ("-" + Joined(ws));
      assert [c] + ("-" + (Joined(ws) + q)) == "" + (([c] + ("-" + Joined(ws))) + q);
    } else {
      assert [c] + p == "" + (Joined(all) + p);
    }
  }

  lemma {:induction false} StripsEnds(pre: string, s: string, post: string)
    requires (pre == "" || pre == "-") && (post == "" || post == "-")
    requires s != "" && s[0] != '-' && s[|s| - 1] != '-'
    ensures StripHyphens(pre + s + post) == s
  {
    var t := s + post;
    assert StripHyphens(s) == s;
    if post == "-" {
      assert t[..|t| - 1] == s && t[|t| - 1] == '-' && t[0] != '-';
      assert StripHyphens(t) == StripHyphens(s);
    } else {
      assert t == s;
    }
    if pre == "-" {
      assert (pre + s + post)[1..] == t;
    } else {
      assert pre + s + post == t;
    }
  }

  /** A slug is the runs of letters and digits in lower case, joined by single hyphens. */
  lemma {:induction false} SlugIs(s: string)
    ensures Slug(s) == Joined(Words(s))
  {
    var pre, post := HyphenatedIs(s);
    WordsAreWords(s);
    if Words(s) == [] {
      assert StripHyphens("") == "";
      if s != "" {
        assert "-"[1..] == "";
        assert StripHyphens("-") == StripHyphens("");
      }
    } else {
      JoinedEnds(Words(s));
      StripsEnds(pre, Joined(Words(s)), post);
      assert pre + Joined(Words(s)) + post == pre + (Joined(Words(s)) + post);
    }
  }

  lemma {:induction false} WordRead(w: string, rest: string)
    requires IsWord(w) && (rest != "" ==> rest[0] == '-')
    ensures Words(w + rest) == [w] + Words(if rest == "" then "" else rest[1..])
    decreases |w|
  {
    var s := w + rest;
    assert LowerChar(w[0]) == w[0];
    if |w| == 1 {
      assert s[1..] == rest && !SlugChar(LowerChar('-'));
      assert w == [w[0]] && Words(rest) == Words(if rest == "" then "" else rest[1..]);
    } else {
      assert s[1..] == w[1..] + rest && IsWord(w[1..]);
      WordRead(w[1..], rest);
      assert LowerChar(s[1]) == w[1];
      assert [w[0]] + w[1..] == w;
    }
  }

  lemma {:induction false} WordsBack(ws: seq<string>)
    requires AllWords(ws)
    ensures Words(Joined(ws)) == ws
    decreases ws
  {
    if |ws| == 1 {
      WordRead(ws[0], "");
      assert ws[0] + "" == ws[0] && Words("") == [];
    } else if ws != [] {
      WordsBack(ws[1..]);
      WordRead(ws[0], "-" + Joined(ws[1..]));
      assert ("-" + Joined(ws[1..]))[1..] == Joined(ws[1..]);
    }
  }

  /** Two texts have the same slug exactly when they have the same words. */
  lemma {:induction false} SlugIsKey(a: string, b: string)
    ensures Slug(a) == Slug(b) <==> Words(a) == Words(b)
  {
    SlugIs(a);
    SlugIs(b);
    WordsAreWords(a);
    WordsAreWords(b);
    WordsBack(Words(a));
    WordsBack(Words(b));
  }

  /** When two surface forms are one thing, type by type: tags by their spelling, documents and their
      parts by the text as it is, work orders up to outer whitespace and case, and everything else by
      its words. */
  predicate SameThing(t: NodeType, a: string, b: string) {
    match t
    case Equipment => Tags.Normalize(a) == Tags.Normalize(b)
    case Instrument => Tags.Normalize(a) == Tags.Normalize(b)
    case Line => Tags.Normalize(a) == Tags.Normalize(b)
    case Document => a == b
    case Section => a == b
    case Chunk => a == b
    case WorkOrder => Upper(Strip(a)) == Upper(Strip(b))
    case FailureMode => Words(a) == Words(b)
    case FaultMode => Words(a) == Words(b)
    case Procedure => Words(a) == Words(b)
    case RegulationClause => Words(a) == Words(b)
    case Person => Words(a) == Words(b)
  }

  lemma {:induction false} SameIdExactlyWhen(t: NodeType, a: string, u: NodeType, b: string)
    requires Canonical(t, a).Some? && Canonical(u, b).Some?
    ensures Canonical(t, a) == Canonical(u, b) <==> t == u && SameThing(t, a, b)
  {
    CanonicalIsKey(t, a, u, b);
    SlugIsKey(a, b);
  }
}
