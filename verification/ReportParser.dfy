/** Re-reading a printed report into materials. */
module ReportParser {
  import opened Wrappers
  import opened ReportText

  datatype Perimeter = Far | Mid | Near

  datatype Parsed = Parsed(perimeter: Perimeter, title: string, url: string, summary: string, takeaway: string)

  const FAR_SECTION := "Дальний периметр"
  const MIDDLE_SECTION := "Средний периметр"
  const NEAR_SECTION := "Близкий периметр"

  function PerimeterOf(section: string): Option<Perimeter> {
    if section == FAR_SECTION then Some(Far)
    else if section == MIDDLE_SECTION then Some(Mid)
    else if section == NEAR_SECTION then Some(Near)
    else None
  }

  /** The lines before the next raw heading. */
  function Block(lines: seq<Line>): seq<Line> {
    if lines == [] || Heading(lines[0]) then [] else [lines[0]] + Block(lines[1..])
  }

  function AfterBlock(lines: seq<Line>): (r: seq<Line>)
    ensures |r| <= |lines|
  {
    if lines == [] || Heading(lines[0]) then lines else AfterBlock(lines[1..])
  }

  /** The first non-blank line and what follows it. */
  function SkipBlank(lines: seq<Line>): (r: seq<Line>)
    ensures r == [] || !Blank(r[0])
  {
    if lines != [] && Blank(lines[0]) then SkipBlank(lines[1..]) else lines
  }

  /** First "Ссылка:" of the block; the URL may stand on a later line, since \s* crosses line ends. */
  function UrlOf(block: seq<Line>): Option<string> {
    if block == [] then None
    else
      var rest := AfterLabel(block[0], LINK);
      if rest.None? then UrlOf(block[1..])
      else if LStrip(rest.value) != "" then Some(FirstToken(rest.value))
      else
        var next := SkipBlank(block[1..]);
        if next == [] then None else Some(FirstToken(next[0]))
  }

  /** Non-blank lines, stripped, up to the first line carrying a stop label. */
  function Collect(lines: seq<Line>, stops: seq<string>): seq<string> {
    if lines == [] || AfterAny(lines[0], stops).Some? then []
    else (if Blank(lines[0]) then [] else [Strip(lines[0])]) + Collect(lines[1..], stops)
  }

  function Join(parts: seq<string>): string {
    if parts == [] then "" else if |parts| == 1 then parts[0] else parts[0] + "\n" + Join(parts[1..])
  }

  /** The text after the first of the labels.  When nothing follows on the label's own line, the next
      non-blank line opens the field whatever it says, even if it is itself a label. */
  function Field(block: seq<Line>, labels: seq<string>, stops: seq<string>): seq<string> {
    if block == [] then []
    else
      var rest := AfterAny(block[0], labels);
      if rest.None? then Field(block[1..], labels, stops)
      else if Strip(rest.value) != "" then [Strip(rest.value)] + Collect(block[1..], stops)
      else
        var next := SkipBlank(block[1..]);
        if next == [] then [] else [Strip(next[0])] + Collect(next[1..], stops)
  }

  method FindLabel(block: seq<Line>, labels: seq<string>, stops: seq<string>) returns (i: nat)
    ensures i <= |block| && Field(block[i..], labels, stops) == Field(block, labels, stops)
    ensures i < |block| ==> AfterAny(block[i], labels).Some?
  {
    i := 0;
    while i < |block| && AfterAny(block[i], labels).None?
      invariant i <= |block| && Field(block[i..], labels, stops) == Field(block, labels, stops)
    {
      assert block[i..][1..] == block[i + 1..];
      i := i + 1;
    }
  }

  method SkipBlanks(block: seq<Line>, start: nat) returns (i: nat)
    requires start <= |block|
    ensures start <= i <= |block| && block[i..] == SkipBlank(block[start..])
  {
    i := start;
    while i < |block| && Blank(block[i])
      invariant start <= i <= |block| && SkipBlank(block[i..]) == SkipBlank(block[start..])
    {
      assert block[i..][1..] == block[i + 1..];
      i := i + 1;
    }
  }

  lemma CollectOne(block: seq<Line>, i: nat, parts: seq<string>, stops: seq<string>)
    requires i < |block| && AfterAny(block[i], stops).None?
    ensures parts + Collect(block[i..], stops) ==
      (if Blank(block[i]) then parts else parts + [Strip(block[i])]) + Collect(block[i + 1..], stops)
  {
    var rest := Collect(block[i + 1..], stops);
    assert block[i..][1..] == block[i + 1..];
    assert parts + ([Strip(block[i])] + rest) == parts + [Strip(block[i])] + rest;
  }

  method CollectFrom(block: seq<Line>, start: nat, stops: seq<string>) returns (parts: seq<string>)
    requires start <= |block|
    ensures parts == Collect(block[start..], stops)
  {
    ghost var goal := Collect(block[start..], stops);
    var i := start;
    parts := [];
    while i < |block| && AfterAny(block[i], stops).None?
      invariant start <= i <= |block| && parts + Collect(block[i..], stops) == goal
    {
      CollectOne(block, i, parts, stops);
      if !Blank(block[i]) {
        parts := parts + [Strip(block[i])];
      }
      i := i + 1;
    }
    assert Collect(block[i..], stops) == [];
  }

  lemma FieldAt(block: seq<Line>, i: nat, labels: seq<string>, stops: seq<string>)
    requires i < |block| && AfterAny(block[i], labels).Some?
    ensures var first := Strip(AfterAny(block[i], labels).value);
      Field(block[i..], labels, stops) ==
        if first != "" then [first] + Collect(block[i + 1..], stops)
        else
          var next := SkipBlank(block[i + 1..]);
          if next == [] then [] else [Strip(next[0])] + Collect(next[1..], stops)
  {
    assert block[i..][1..] == block[i + 1..];
  }

  /** The next non-blank line opens the field. */
  method ReadBelow(block: seq<Line>, start: nat, stops: seq<string>) returns (parts: seq<string>)
    requires start <= |block|
    ensures var next := SkipBlank(block[start..]);
      parts == if next == [] then [] else [Strip(next[0])] + Collect(next[1..], stops)
  {
    var i := SkipBlanks(block, start);
    if i == |block| {
      return [];
    }
    assert block[i..][1..] == block[i + 1..];
    var rest := CollectFrom(block, i + 1, stops);
    parts := [Strip(block[i])] + rest;
  }

  /** The search for the label, then the text on its line or on the next that has any, then the rest. */
  method ReadField(block: seq<Line>, labels: seq<string>, stops: seq<string>) returns (parts: seq<string>)
    ensures parts == Field(block, labels, stops)
  {
    var i := FindLabel(block, labels, stops);
    if i == |block| {
      return [];
    }
    FieldAt(block, i, labels, stops);
    var first := Strip(AfterAny(block[i], labels).value);
    if first == "" {
      parts := ReadBelow(block, i + 1, stops);
    } else {
      var rest := CollectFrom(block, i + 1, stops);
      parts := [first] + rest;
    }
  }

  const SUMMARY_LABELS := [SUMMARY]
  const TAKEAWAY_LABELS := [TAKEAWAY, AUTHOR_TAKEAWAY]

  function Read(p: Perimeter, heading: string, block: seq<Line>, clean: string -> string): Option<Parsed>
    requires H3 <= heading
  {
    var url := UrlOf(block);
    if url.None? then None
    else Some(Parsed(p, clean(heading[|H3|..]), url.value,
      clean(Join(Field(block, SUMMARY_LABELS, STOP_LABELS))), clean(Join(Field(block, TAKEAWAY_LABELS, STOP_LABELS)))))
  }

  /** `section` is the perimeter of the section being read, None outside the three perimeter sections. */
  function ParseFrom(lines: seq<Line>, section: Option<Perimeter>, clean: string -> string): seq<Parsed>
    decreases |lines|
  {
    if lines == [] then []
    else
      var line := Strip(lines[0]);
      if H2 <= line then ParseFrom(lines[1..], PerimeterOf(Strip(line[|H2|..])), clean)
      else if !(H3 <= line) || section.None? then ParseFrom(lines[1..], section, clean)
      else
        var found := Read(section.value, line, Block(lines[1..]), clean);
        (if found.Some? then [found.value] else []) + ParseFrom(AfterBlock(lines[1..]), section, clean)
  }

  lemma {:induction false} BlockSplits(lines: seq<Line>)
    ensures Block(lines) + AfterBlock(lines) == lines
  {
    if lines != [] && !Heading(lines[0]) {
      BlockSplits(lines[1..]);
      assert lines == [lines[0]] + lines[1..];
    }
  }

  method ReadBlock(lines: seq<Line>, start: nat) returns (block: seq<Line>, next: nat)
    requires start <= |lines|
    ensures start <= next <= |lines|
    ensures block == Block(lines[start..]) && lines[next..] == AfterBlock(lines[start..])
  {
    block, next := [], start;
    while next < |lines| && !Heading(lines[next])
      invariant start <= next <= |lines|
      invariant block + Block(lines[next..]) == Block(lines[start..])
      invariant AfterBlock(lines[next..]) == AfterBlock(lines[start..])
    {
      assert lines[next..][1..] == lines[next + 1..];
      block := block + [lines[next]];
      next := next + 1;
    }
  }

  lemma ParseStep(lines: seq<Line>, i: nat, section: Option<Perimeter>, clean: string -> string)
    requires i < |lines|
    ensures var line := Strip(lines[i]);
      ParseFrom(lines[i..], section, clean) ==
        if H2 <= line then ParseFrom(lines[i + 1..], PerimeterOf(Strip(line[|H2|..])), clean)
        else if !(H3 <= line) || section.None? then ParseFrom(lines[i + 1..], section, clean)
        else
          var found := Read(section.value, line, Block(lines[i + 1..]), clean);
          (if found.Some? then [found.value] else []) + ParseFrom(AfterBlock(lines[i + 1..]), section, clean)
  {
    assert lines[i..][1..] == lines[i + 1..];
  }

  /** One turn of the loop: what is added, and where and in which section reading goes on. */
  method ReadNext(lines: seq<Line>, i: nat, section: Option<Perimeter>, clean: string -> string)
    returns (added: seq<Parsed>, next: nat, now: Option<Perimeter>)
    requires i < |lines|
    ensures i < next <= |lines|
    ensures ParseFrom(lines[i..], section, clean) == added + ParseFrom(lines[next..], now, clean)
  {
    var line := Strip(lines[i]);
    ParseStep(lines, i, section, clean);
    added, next, now := [], i + 1, section;
    if H2 <= line {
      now := PerimeterOf(Strip(line[|H2|..]));
    } else if H3 <= line && section.Some? {
      var block: seq<Line>;
      block, next := ReadBlock(lines, i + 1);
      var found := Read(section.value, line, block, clean);
      added := if found.Some? then [found.value] else [];
    }
  }

  /** The index-driven loop over the report's lines. */
  method ParseReportText(lines: seq<Line>, clean: string -> string) returns (materials: seq<Parsed>)
    ensures materials == ParseFrom(lines, None, clean)
  {
    var section: Option<Perimeter> := None;
    materials := [];
    var i := 0;
    while i < |lines|
      invariant i <= |lines|
      invariant materials + ParseFrom(lines[i..], section, clean) == ParseFrom(lines, None, clean)
      decreases |lines| - i
    {
      var added: seq<Parsed>;
      added, i, section := ReadNext(lines, i, section, clean);
      materials := materials + added;
    }
  }
}
