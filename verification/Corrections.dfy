/** The on-disk form of a correction: a printer, and a parser with the meaning of its three regular
    expressions. The gateway writes what the extraction lane reads back. */
module Corrections {
  import opened Text
  import opened Wrappers

  datatype Correction = Correction(
    question: string, answer: string, correction: string,
    author: string, date: string, citedDocs: seq<string>)

  const QUESTION := "Question asked"
  const ANSWER := "Answer given"
  const ACTUAL := "What is actually correct"

  // ---- the printer ------------------------------------------------------------------------------

  /** `", ".join(docs)`. */
  function Joined(docs: seq<string>): string {
    if docs == [] then "" else if |docs| == 1 then docs[0] else docs[0] + ", " + Joined(docs[1..])
  }

  function FieldLine(name: string, value: string, rest: string): string {
    name + ":" + (" " + (value + ("\n" + rest)))
  }

  function Titled(heading: string, content: string, rest: string): string {
    "## " + heading + ("\n\n" + (content + "\n" + rest))
  }

  function Header(c: Correction): string {
    "\n" + FieldLine("author", c.author, FieldLine("date", c.date, FieldLine("cited_docs", Joined(c.citedDocs), "")))
  }

  function Sections(c: Correction): string {
    Titled(QUESTION, c.question, "\n" + Titled(ANSWER, c.answer, "\n" + Titled(ACTUAL, c.correction, "")))
  }

  function Render(c: Correction): string {
    "---" + (Header(c) + ("---" + ("\n\n# Correction\n\n" + Sections(c))))
  }

  // ---- the parser -------------------------------------------------------------------------------

  predicate Dashes(s: string) {
    |s| >= 3 && s[0] == '-' && s[1] == '-' && s[2] == '-'
  }

  /** The text before the first "---" and after it. */
  function Cut(s: string): Option<(string, string)> {
    if s == "" then None
    else if Dashes(s) then Some(("", s[3..]))
    else
      match Cut(s[1..])
      case None => None
      case Some((before, after)) => Some(([s[0]] + before, after))
  }

  /** `_split`: header and body. */
  function SplitFront(text: string): (string, string) {
    if !Dashes(text) then ("", text)
    else
      match Cut(text[3..])
      case None => ("", text)
      case Some(parts) => parts
  }

  predicate IsNameChar(c: char) {
    'a' <= c <= 'z' || c == '_'
  }

  function NameLength(s: string): (n: nat)
    ensures n <= |s|
  {
    if s == "" || !IsNameChar(s[0]) then 0 else 1 + NameLength(s[1..])
  }

  function LineOf(s: string): string {
    if s == "" || s[0] == '\n' then "" else [s[0]] + LineOf(s[1..])
  }

  function AfterLine(s: string): (rest: string)
    ensures |rest| <= |s| && (s != "" ==> |rest| < |s|)
  {
    if s == "" then "" else if s[0] == '\n' then s[1..] else AfterLine(s[1..])
  }

  function LeftStripped(s: string): (r: string)
    ensures |r| <= |s|
  {
    LStripSplits(s);
    LStrip(s)
  }

  /** All matches of `^([a-z_]+):\s*(.*)$` from the start of a line. The whitespace after the colon
      may cross newlines. */
  function Fields(s: string): seq<(string, string)>
    decreases |s|
  {
    if s == "" then []
    else
      var n := NameLength(s);
      if 0 < n < |s| && s[n] == ':' then
        var value := LeftStripped(s[n + 1..]);
        [(s[..n], LineOf(value))] + Fields(AfterLine(value))
      else Fields(AfterLine(s))
  }

  /** `dict(fields).get(name, "")`: the last entry of that name. */
  function Get(fields: seq<(string, string)>, name: string): string {
    if fields == [] then ""
    else if fields[|fields| - 1].0 == name then fields[|fields| - 1].1
    else Get(fields[..|fields| - 1], name)
  }

  /** `value.split(",")`. */
  function Pieces(s: string): (pieces: seq<string>)
    ensures pieces != []
  {
    if s == "" then [""]
    else
      var later := Pieces(s[1..]);
      if s[0] == ',' then [""] + later else [[s[0]] + later[0]] + later[1..]
  }

  function StrippedPieces(pieces: seq<string>): seq<string> {
    if pieces == [] then []
    else (if Strip(pieces[0]) != "" then [Strip(pieces[0])] else []) + StrippedPieces(pieces[1..])
  }

  /** `##` and a whitespace character: where a section ends. */
  predicate Mark(s: string) {
    |s| >= 3 && s[0] == '#' && s[1] == '#' && IsSpace(s[2])
  }

  /** `^##\s+heading\s*$` at the start of a line; the text after the heading. */
  function HeadingAt(s: string, heading: string): Option<string> {
    if !Mark(s) then None
    else
      var r := LeftStripped(s[2..]);
      if !(heading <= r) then None
      else
        var t := r[|heading|..];
        var gap := t[..|t| - |LeftStripped(t)|];
        if |gap| == |t| || '\n' in gap then Some(t) else None
  }

  /** The text up to the first mark at the start of a line. */
  function UpTo(s: string, lineStart: bool): string {
    if s == "" || (lineStart && Mark(s)) then "" else [s[0]] + UpTo(s[1..], s[0] == '\n')
  }

  /** `_section`: the first match from here on. */
  function Section(s: string, heading: string, lineStart: bool): string {
    if s == "" then ""
    else if lineStart && HeadingAt(s, heading).Some? then Strip(UpTo(HeadingAt(s, heading).value, false))
    else Section(s[1..], heading, s[0] == '\n')
  }

  function Parse(text: string): Correction {
    var (header, body) := SplitFront(text);
    var meta := Fields(header);
    Correction(
      Section(body, QUESTION, true), Section(body, ANSWER, true), Section(body, ACTUAL, true),
      Get(meta, "author"), Get(meta, "date"), StrippedPieces(Pieces(Get(meta, "cited_docs"))))
  }

  // ---- what the format can carry -------------------------------------------------------------------

  predicate HasDashes(s: string) {
    s != "" && (Dashes(s) || HasDashes(s[1..]))
  }

  predicate HasMark(s: string, lineStart: bool) {
    s != "" && ((lineStart && Mark(s)) || HasMark(s[1..], s[0] == '\n'))
  }

  /** One line, not empty, that neither begins with whitespace nor closes the header. */
  predicate Value(s: string) {
    s != "" && !IsSpace(s[0]) && Without(s, '\n') && !HasDashes(s)
  }

  predicate DocId(s: string) {
    s != "" && Trimmed(s) && Without(s, ',') && Without(s, '\n') && !HasDashes(s)
  }

  /** No surrounding whitespace, and no line that begins with `##` and whitespace (or is `##`). */
  predicate Content(s: string) {
    Trimmed(s) && !HasMark(s + "\n", true)
  }

  predicate Representable(c: Correction) {
    && Value(c.author) && Value(c.date) && (forall i :: 0 <= i < |c.citedDocs| ==> DocId(c.citedDocs[i]))
    && Content(c.question) && Content(c.answer) && Content(c.correction)
  }
}
