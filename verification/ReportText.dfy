/** Lines of a Markdown report: stripping, labels, headings. */
module ReportText {
  import opened Wrappers

  type Line = string

  /** Python's str.isspace, which is also the regular-expression class \s. */
  predicate Space(c: char) {
    || c == ' ' || '\t' <= c <= '\r' || '\U{1c}' <= c <= '\U{1f}' || c == '\U{85}' || c == '\U{a0}'
    || c == '\U{1680}' || '\U{2000}' <= c <= '\U{200a}' || c == '\U{2028}' || c == '\U{2029}'
    || c == '\U{202f}' || c == '\U{205f}' || c == '\U{3000}'
  }

  /** Spelt out by code point. */
  lemma SpaceIff(c: char)
    ensures Space(c) <==>
      c as int in {
        9, 10, 11, 12, 13, 28, 29, 30, 31, 32, 0x85, 0xa0, 0x1680, 0x2000, 0x2001, 0x2002, 0x2003, 0x2004, 0x2005,
        0x2006, 0x2007, 0x2008, 0x2009, 0x200a, 0x2028, 0x2029, 0x202f, 0x205f, 0x3000}
  {
  }

  function LStrip(s: string): (r: string)
    ensures r == [] || !Space(r[0])
    ensures |r| <= |s|
  {
    if s != [] && Space(s[0]) then LStrip(s[1..]) else s
  }

  function RStrip(s: string): (r: string)
    ensures r == [] || !Space(r[|r| - 1])
    ensures r <= s
  {
    if s != [] && Space(s[|s| - 1]) then RStrip(s[..|s| - 1]) else s
  }

  function Strip(s: string): string {
    RStrip(LStrip(s))
  }

  predicate Blank(s: Line) {
    Strip(s) == ""
  }

  /** Up to the first whitespace after leading whitespace: what \s*(\S+) captures. */
  function FirstToken(s: string): string {
    Unspaced(LStrip(s))
  }

  function Unspaced(s: string): (r: string)
    ensures r <= s && (s != [] && !Space(s[0]) ==> r != [])
  {
    if s == [] || Space(s[0]) then "" else [s[0]] + Unspaced(s[1..])
  }

  predicate Trimmed(s: string) {
    s != [] && !Space(s[0]) && !Space(s[|s| - 1])
  }

  lemma TrimmedStrips(s: string)
    requires Trimmed(s)
    ensures LStrip(s) == s && Strip(s) == s && !Blank(s)
  {
  }

  lemma StripTrims(s: string)
    ensures Strip(s) == "" || Trimmed(Strip(s))
    ensures Strip(Strip(s)) == Strip(s)
    ensures Strip(s) != "" ==> LStrip(Strip(s)) == Strip(s)
  {
  }

  lemma {:induction false} BlankMeansSpaces(s: string)
    ensures LStrip(s) == "" <==> Strip(s) == ""
  {
    var t := LStrip(s);
    if t != [] {
      KeepsFirst(t);
    }
  }

  lemma {:induction false} KeepsFirst(t: string)
    requires t != [] && !Space(t[0])
    ensures RStrip(t) != [] && RStrip(t)[0] == t[0]
  {
    if Space(t[|t| - 1]) {
      KeepsFirst(t[..|t| - 1]);
    }
  }

  // ----------------------------------------------------------------- labels

  const LINK := "Ссылка"
  const SUMMARY := "Суть материала"
  const TAKEAWAY := "Вывод для AgPM"
  const AUTHOR_TAKEAWAY := "Авторский вывод для AgPM"
  const STOP_LABELS := [
    "Дата материала", LINK, "Источники обнаружения", "Число источников", "Оценка релевантности",
    SUMMARY, TAKEAWAY, AUTHOR_TAKEAWAY]

  /** What follows `^\s*-?\s*name:` on a line that starts so. */
  function AfterLabel(line: Line, name: string): Option<string> {
    var t := LStrip(line);
    var u := if t != [] && t[0] == '-' then LStrip(t[1..]) else t;
    if name + ":" <= u then Some(u[|name| + 1..]) else None
  }

  function AfterAny(line: Line, names: seq<string>): Option<string> {
    if names == [] then None
    else
      var rest := AfterLabel(line, names[0]);
      if rest.Some? then rest else AfterAny(line, names[1..])
  }

  /** The section a later pass puts its control text in front of. */
  const IMPORTANT := "## Что важно для AgPM"
  const H2 := "## "
  const H3 := "### "

  /** Ends a card's block: the parser looks at the raw line here. */
  predicate Heading(line: Line) {
    H2 <= line || H3 <= line
  }

  predicate StartsWith(line: Line, prefix: string) {
    |line| >= |prefix| && forall i | 0 <= i < |prefix| :: line[i] == prefix[i]
  }

  lemma PrefixIff(line: Line, prefix: string)
    ensures prefix <= line <==> StartsWith(line, prefix)
  {
  }

  lemma HeadingIff(line: Line)
    ensures Heading(line) <==> StartsWith(line, "## ") || StartsWith(line, "### ")
  {
    PrefixIff(line, H2);
    PrefixIff(line, H3);
  }

  /** Neither the raw nor the stripped line reads as a heading. */
  predicate Prose(line: Line) {
    !Heading(line) && !Heading(Strip(line))
  }

  lemma BlankIsProse(line: Line)
    requires Blank(line)
    ensures Prose(line)
  {
    BlankMeansSpaces(line);
    assert LStrip(line) == "";
    assert line == [] || Space(line[0]);
    assert H2[0] == '#' && H3[0] == '#' && !Space('#');
  }
}
