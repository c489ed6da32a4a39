/** The shape of a printed report: text and cards in order, and what the parser makes of that shape.
    First labels and single lines, then the fields of one card with anything behind it, then a whole
    document by induction over its segments. */
module ReportLayout {
  import opened Splices
  import opened Wrappers
  import opened ReportText
  import opened ReportParser

  datatype Card = Card(title: string, url: string, extra: seq<Line>, summary: seq<Line>, takeaway: seq<Line>)
  {
    /** Everything below the heading. */
    function Body(): seq<Line> {
      ["", LINK + ": " + url] + extra + [SUMMARY + ":"] + summary + [TAKEAWAY + ":"] + takeaway
    }

    function Lines(): seq<Line> {
      [H3 + title] + Body()
    }
  }

  datatype Segment = Text(lines: seq<Line>) | CardSegment(card: Card)
  {
    function Lines(): seq<Line> {
      if Text? then lines else card.Lines()
    }
  }

  function Flat(doc: seq<Segment>): seq<Line> {
    if doc == [] then [] else doc[0].Lines() + Flat(doc[1..])
  }

  predicate SpaceFree(s: string) {
    s != [] && forall c | c in s :: !Space(c)
  }

  /** Body text: at least one non-blank line, no line reading as a heading or as a field label. */
  predicate BodyText(lines: seq<Line>) {
    && (exists l | l in lines :: !Blank(l))
    && forall l | l in lines :: Prose(l) && AfterAny(l, STOP_LABELS).None?
  }

  predicate GoodCard(c: Card) {
    && Trimmed(c.title) && SpaceFree(c.url)
    && (forall l | l in c.extra :: Prose(l) && AfterAny(l, STOP_LABELS).None?)
    && BodyText(c.summary) && BodyText(c.takeaway)
  }

  predicate NoCardHeading(lines: seq<Line>) {
    forall l | l in lines :: !(H3 <= l) && !(H3 <= Strip(l))
  }

  /** What may follow a card: another card, or at most blank lines before the next heading. */
  predicate Follows(rest: seq<Segment>) {
    rest == [] || rest[0].CardSegment? ||
    (AfterBlock(rest[0].lines) != [] && forall l | l in Block(rest[0].lines) :: Blank(l))
  }

  predicate GoodDoc(doc: seq<Segment>) {
    doc == [] ||
    (GoodDoc(doc[1..]) &&
     match doc[0]
     case Text(lines) => NoCardHeading(lines)
     case CardSegment(card) => GoodCard(card) && Follows(doc[1..]))
  }

  function Stripped(lines: seq<Line>): seq<string> {
    if lines == [] then [] else (if Blank(lines[0]) then [] else [Strip(lines[0])]) + Stripped(lines[1..])
  }

  function Meaning(p: Perimeter, c: Card, clean: string -> string): Parsed {
    Parsed(p, clean(c.title), c.url, clean(Join(Stripped(c.summary))), clean(Join(Stripped(c.takeaway))))
  }

  function SectionAfter(lines: seq<Line>, section: Option<Perimeter>): Option<Perimeter> {
    if lines == [] then section
    else
      var line := Strip(lines[0]);
      SectionAfter(lines[1..], if H2 <= line then PerimeterOf(Strip(line[|H2|..])) else section)
  }

  /** One material per card that stands in one of the three perimeter sections, in order. */
  function Materials(doc: seq<Segment>, section: Option<Perimeter>, clean: string -> string): seq<Parsed> {
    if doc == [] then []
    else match doc[0]
      case Text(lines) => Materials(doc[1..], SectionAfter(lines, section), clean)
      case CardSegment(card) =>
        (if section.Some? then [Meaning(section.value, card, clean)] else [])
        + Materials(doc[1..], section, clean)
  }

  // ------------------------------------------------------------ lines and labels

  /** A line opening with neither a space nor a dash carries a label exactly when it starts with it. */
  lemma PlainLabel(line: Line, name: string)
    requires line != [] && !Space(line[0]) && line[0] != '-'
    ensures AfterLabel(line, name) == if name + ":" <= line then Some(line[|name| + 1..]) else None
  {
  }

  lemma OwnLabel(name: string)
    requires name == SUMMARY || name == TAKEAWAY
    ensures AfterLabel(name + ":", name) == Some("")
  {
    assert (name + ":")[0] == name[0];
    PlainLabel(name + ":", name);
    assert (name + ":")[|name| + 1..] == "";
  }

  lemma NoTakeawayLabel(line: Line)
    requires AfterLabel(line, TAKEAWAY).None? && AfterLabel(line, AUTHOR_TAKEAWAY).None?
    ensures AfterAny(line, TAKEAWAY_LABELS).None?
  {
    var names := TAKEAWAY_LABELS;
    assert names[0] == TAKEAWAY && names[1] == AUTHOR_TAKEAWAY && |names| == 2;
    assert names[1..][1..] == [];
    assert AfterAny(line, names[1..]) == None;
    assert AfterAny(line, names) == AfterAny(line, names[1..]);
  }

  lemma DifferentStart(line: Line, name: string, i: nat)
    requires line != [] && !Space(line[0]) && line[0] != '-'
    requires i < |name| && i < |line| && line[i] != name[i]
    ensures AfterLabel(line, name).None?
  {
    PlainLabel(line, name);
    assert (name + ":")[i] == name[i];
  }

  lemma LinkLine(url: string)
    requires SpaceFree(url)
    ensures var line := LINK + ": " + url;
      && AfterLabel(line, LINK) == Some(" " + url) && FirstToken(" " + url) == url && LStrip(" " + url) == url
      && AfterAny(line, SUMMARY_LABELS).None? && AfterAny(line, TAKEAWAY_LABELS).None?
      && Prose(line) && !Blank(line)
  {
    var line := LINK + ": " + url;
    assert line[0] == LINK[0] && line[1] == LINK[1];
    PlainLabel(line, LINK);
    assert line == (LINK + ":") + (" " + url);
    UrlAfterSpace(url);
    OtherLabels(line);
    assert url[|url| - 1] in url;
    PlainLine(line);
  }

  lemma OtherLabels(line: Line)
    requires |line| >= 2 && line[0] == LINK[0] && line[1] == LINK[1]
    ensures AfterAny(line, SUMMARY_LABELS).None? && AfterAny(line, TAKEAWAY_LABELS).None?
  {
    DifferentStart(line, SUMMARY, 1);
    DifferentStart(line, TAKEAWAY, 0);
    DifferentStart(line, AUTHOR_TAKEAWAY, 0);
    NoTakeawayLabel(line);
  }

  lemma UrlAfterSpace(url: string)
    requires SpaceFree(url)
    ensures FirstToken(" " + url) == url && LStrip(" " + url) == url
  {
    assert url[0] in url && url[|url| - 1] in url;
    assert (" " + url)[1..] == url;
    assert LStrip(" " + url) == LStrip(url) == url;
    UnspacedAll(url);
  }

  lemma PlainLine(line: Line)
    requires Trimmed(line) && line[0] != '#'
    ensures Prose(line) && !Blank(line) && Strip(line) == line
  {
    TrimmedStrips(line);
    assert H2[0] == '#' && H3[0] == '#';
  }

  lemma {:induction false} UnspacedAll(s: string)
    requires forall c | c in s :: !Space(c)
    ensures Unspaced(s) == s
  {
    if s != [] {
      assert s[0] in s;
      UnspacedAll(s[1..]);
    }
  }

  /** The label lines of a card, as the parser and the stop pattern see them. */
  lemma LabelLines()
    ensures AfterAny(SUMMARY + ":", SUMMARY_LABELS) == Some("") && AfterAny(SUMMARY + ":", TAKEAWAY_LABELS).None?
    ensures AfterAny(TAKEAWAY + ":", TAKEAWAY_LABELS) == Some("") && AfterAny(TAKEAWAY + ":", SUMMARY_LABELS).None?
    ensures Prose(SUMMARY + ":") && Prose(TAKEAWAY + ":") && !Blank(SUMMARY + ":") && !Blank(TAKEAWAY + ":")
    ensures Strip(SUMMARY + ":") == SUMMARY + ":" && Strip(TAKEAWAY + ":") == TAKEAWAY + ":"
  {
    OwnLabel(SUMMARY);
    OwnLabel(TAKEAWAY);
    assert (SUMMARY + ":")[0] == SUMMARY[0] && (TAKEAWAY + ":")[0] == TAKEAWAY[0];
    DifferentStart(SUMMARY + ":", TAKEAWAY, 0);
    DifferentStart(SUMMARY + ":", AUTHOR_TAKEAWAY, 0);
    DifferentStart(TAKEAWAY + ":", SUMMARY, 0);
    NoTakeawayLabel(SUMMARY + ":");
    PlainLine(SUMMARY + ":");
    PlainLine(TAKEAWAY + ":");
  }

  lemma {:induction false} AnyAmong(line: Line, few: seq<string>, many: seq<string>)
    requires AfterAny(line, many).None? && forall n | n in few :: n in many
    ensures AfterAny(line, few).None?
  {
    if few != [] {
      NoneOfAny(line, many, few[0]);
      AnyAmong(line, few[1..], many);
    }
  }

  lemma {:induction false} NoneOfAny(line: Line, names: seq<string>, name: string)
    requires AfterAny(line, names).None? && name in names
    ensures AfterLabel(line, name).None?
  {
    if names[0] != name {
      NoneOfAny(line, names[1..], name);
    }
  }

  lemma {:induction false} SomeOfAny(line: Line, names: seq<string>, name: string)
    requires AfterLabel(line, name).Some? && name in names
    ensures AfterAny(line, names).Some?
  {
    if AfterLabel(line, names[0]).None? {
      SomeOfAny(line, names[1..], name);
    }
  }

  lemma NotAStopLabel(line: Line)
    requires AfterAny(line, STOP_LABELS).None?
    ensures AfterAny(line, SUMMARY_LABELS).None? && AfterAny(line, TAKEAWAY_LABELS).None?
  {
    assert STOP_LABELS[5] == SUMMARY && STOP_LABELS[6] == TAKEAWAY && STOP_LABELS[7] == AUTHOR_TAKEAWAY;
    AnyAmong(line, SUMMARY_LABELS, STOP_LABELS);
    AnyAmong(line, TAKEAWAY_LABELS, STOP_LABELS);
  }

  // ------------------------------------------------------------- reading a card

  lemma {:induction false} FieldSkip(pre: seq<Line>, post: seq<Line>, labels: seq<string>, stops: seq<string>)
    requires forall l | l in pre :: AfterAny(l, labels).None?
    ensures Field(pre + post, labels, stops) == Field(post, labels, stops)
  {
    if pre == [] {
      assert pre + post == post;
    } else {
      assert (pre + post)[0] == pre[0] && (pre + post)[1..] == pre[1..] + post;
      FieldSkip(pre[1..], post, labels, stops);
    }
  }

  predicate NoLabel(lines: seq<Line>, labels: seq<string>) {
    forall l | l in lines :: AfterAny(l, labels).None?
  }

  lemma NoLabelParts(lines: seq<Line>, first: Line, rest: seq<Line>, labels: seq<string>)
    requires NoLabel(lines, labels) && lines == [first] + rest
    ensures AfterAny(first, labels).None? && NoLabel(rest, labels)
  {
    assert first in lines && forall l | l in rest :: l in lines;
  }

  lemma CollectNext(first: Line, rest: seq<Line>, stops: seq<string>)
    requires AfterAny(first, stops).None?
    ensures Collect([first] + rest, stops) == (if Blank(first) then [] else [Strip(first)]) + Collect(rest, stops)
  {
    assert ([first] + rest)[1..] == rest;
  }

  lemma {:induction false} CollectBody(s: seq<Line>, post: seq<Line>, stops: seq<string>)
    requires NoLabel(s, stops)
    ensures Collect(s + post, stops) == Stripped(s) + Collect(post, stops)
  {
    if s == [] {
      assert s + post == post;
    } else {
      var first, rest := s[0], s[1..];
      NoLabelParts(s, first, rest, stops);
      CollectBody(rest, post, stops);
      assert s + post == [first] + (rest + post);
      CollectNext(first, rest + post, stops);
      var here := if Blank(first) then [] else [Strip(first)];
      assert Stripped(s) == here + Stripped(rest);
      Join3(here, Stripped(rest), Collect(post, stops));
    }
  }

  /** The field opens at the first non-blank line of the body. */
  lemma {:induction false} OpenBody(s: seq<Line>, post: seq<Line>, stops: seq<string>)
    requires NoLabel(s, stops)
    requires exists l | l in s :: !Blank(l)
    ensures var next := SkipBlank(s + post);
      next != [] && [Strip(next[0])] + Collect(next[1..], stops) == Stripped(s) + Collect(post, stops)
  {
    var first, rest := s[0], s[1..];
    NoLabelParts(s, first, rest, stops);
    assert s + post == [first] + (rest + post);
    SkipNext(first, rest + post);
    if Blank(first) {
      SomeInRest(s, first, rest);
      OpenBody(rest, post, stops);
    } else {
      OpensHere(first, rest, post, stops);
    }
  }

  lemma OpensHere(first: Line, rest: seq<Line>, post: seq<Line>, stops: seq<string>)
    requires NoLabel(rest, stops) && !Blank(first)
    ensures [Strip(first)] + Collect(rest + post, stops) == Stripped([first] + rest) + Collect(post, stops)
  {
    CollectBody(rest, post, stops);
    assert Stripped([first] + rest) == [Strip(first)] + Stripped(rest);
    Join3([Strip(first)], Stripped(rest), Collect(post, stops));
  }

  lemma SkipNext(first: Line, rest: seq<Line>)
    ensures SkipBlank([first] + rest) == if Blank(first) then SkipBlank(rest) else [first] + rest
  {
    assert ([first] + rest)[1..] == rest;
  }

  lemma SomeInRest(lines: seq<Line>, first: Line, rest: seq<Line>)
    requires lines == [first] + rest && Blank(first) && exists l | l in lines :: !Blank(l)
    ensures exists l | l in rest :: !Blank(l)
  {
    var l :| l in lines && !Blank(l);
    assert l in rest;
  }

  lemma BlankNoLabel(l: Line, names: seq<string>)
    requires Blank(l)
    ensures AfterAny(l, names).None?
  {
    BlankMeansSpaces(l);
    if names != [] {
      BlankNoLabel(l, names[1..]);
    }
  }

  lemma {:induction false} BlankTail(b: seq<Line>, stops: seq<string>)
    requires forall l | l in b :: Blank(l)
    ensures Collect(b, stops) == [] && Stripped(b) == []
  {
    if b != [] {
      BlankNoLabel(b[0], stops);
      BlankTail(b[1..], stops);
    }
  }

  /** A field on a label line of its own: its body up to the next stop label. */
  lemma FieldIs(
    pre: seq<Line>, line: Line, body: seq<Line>, post: seq<Line>, labels: seq<string>, stops: seq<string>)
    requires NoLabel(pre, labels) && AfterAny(line, labels) == Some("")
    requires NoLabel(body, stops) && exists l | l in body :: !Blank(l)
    requires Collect(post, stops) == []
    ensures Field(pre + [line] + body + post, labels, stops) == Stripped(body)
  {
    var rest := [line] + (body + post);
    assert pre + [line] + body + post == pre + rest;
    FieldSkip(pre, rest, labels, stops);
    assert rest[1..] == body + post;
    OpenBody(body, post, stops);
  }

  /** The lines above the summary label. */
  function Top(c: Card): seq<Line> {
    ["", LINK + ": " + c.url] + c.extra
  }

  lemma NoFieldLabel(lines: seq<Line>)
    requires NoLabel(lines, STOP_LABELS)
    ensures NoLabel(lines, SUMMARY_LABELS) && NoLabel(lines, TAKEAWAY_LABELS)
  {
    forall l | l in lines ensures AfterAny(l, SUMMARY_LABELS).None? && AfterAny(l, TAKEAWAY_LABELS).None? {
      NotAStopLabel(l);
    }
  }

  lemma TopHasNoFieldLabel(c: Card)
    requires GoodCard(c)
    ensures NoLabel(Top(c), SUMMARY_LABELS) && NoLabel(Top(c), TAKEAWAY_LABELS)
  {
    LinkLine(c.url);
    BlankNoLabel("", SUMMARY_LABELS);
    BlankNoLabel("", TAKEAWAY_LABELS);
    NoFieldLabel(c.extra);
  }

  lemma SummaryField(c: Card, tail: seq<Line>)
    requires GoodCard(c)
    ensures Field(c.Body() + tail, SUMMARY_LABELS, STOP_LABELS) == Stripped(c.summary)
  {
    var post := [TAKEAWAY + ":"] + (c.takeaway + tail);
    assert c.Body() + tail == Top(c) + [SUMMARY + ":"] + c.summary + post;
    TopHasNoFieldLabel(c);
    LabelLines();
    StopAtTakeaway(c.takeaway + tail);
    FieldIs(Top(c), SUMMARY + ":", c.summary, post, SUMMARY_LABELS, STOP_LABELS);
  }

  lemma StopAtTakeaway(more: seq<Line>)
    ensures Collect([TAKEAWAY + ":"] + more, STOP_LABELS) == []
  {
    OwnLabel(TAKEAWAY);
    assert STOP_LABELS[6] == TAKEAWAY;
    SomeOfAny(TAKEAWAY + ":", STOP_LABELS, TAKEAWAY);
  }

  lemma TakeawayField(c: Card, tail: seq<Line>)
    requires GoodCard(c) && forall l | l in tail :: Blank(l)
    ensures Field(c.Body() + tail, TAKEAWAY_LABELS, STOP_LABELS) == Stripped(c.takeaway)
  {
    var pre := Top(c) + [SUMMARY + ":"] + c.summary;
    assert c.Body() + tail == pre + [TAKEAWAY + ":"] + c.takeaway + tail;
    TopHasNoFieldLabel(c);
    NoFieldLabel(c.summary);
    LabelLines();
    BlankTail(tail, STOP_LABELS);
    FieldIs(pre, TAKEAWAY + ":", c.takeaway, tail, TAKEAWAY_LABELS, STOP_LABELS);
  }

  lemma UrlField(c: Card, tail: seq<Line>)
    requires GoodCard(c)
    ensures UrlOf(c.Body() + tail) == Some(c.url)
  {
    var body := c.Body() + tail;
    var more := c.extra + [SUMMARY + ":"] + c.summary + [TAKEAWAY + ":"] + c.takeaway + tail;
    assert body == [""] + ([LINK + ": " + c.url] + more);
    LinkFound(c.url, more);
  }

  lemma LinkFound(url: string, more: seq<Line>)
    requires SpaceFree(url)
    ensures UrlOf([""] + ([LINK + ": " + url] + more)) == Some(url)
  {
    LinkLine(url);
    var below := [LINK + ": " + url] + more;
    assert AfterLabel("", LINK).None?;
    assert ([""] + below)[1..] == below && below[1..] == more;
  }

  lemma CardReads(c: Card, tail: seq<Line>, p: Perimeter, clean: string -> string)
    requires GoodCard(c) && forall l | l in tail :: Blank(l)
    ensures Read(p, H3 + c.title, c.Body() + tail, clean) == Some(Meaning(p, c, clean))
  {
    UrlField(c, tail);
    SummaryField(c, tail);
    TakeawayField(c, tail);
    assert (H3 + c.title)[|H3|..] == c.title;
  }

  // ---------------------------------------------------------- reading the document

  lemma {:induction false} BlockAppend(pre: seq<Line>, post: seq<Line>)
    requires forall l | l in pre :: !Heading(l)
    ensures Block(pre + post) == pre + Block(post) && AfterBlock(pre + post) == AfterBlock(post)
  {
    if pre == [] {
      assert pre + post == post;
    } else {
      assert (pre + post)[0] == pre[0] && (pre + post)[1..] == pre[1..] + post;
      BlockAppend(pre[1..], post);
    }
  }

  lemma {:induction false} TextReads(
    lines: seq<Line>, post: seq<Line>, section: Option<Perimeter>, clean: string -> string)
    requires NoCardHeading(lines)
    ensures ParseFrom(lines + post, section, clean) == ParseFrom(post, SectionAfter(lines, section), clean)
  {
    if lines == [] {
      assert lines + post == post;
    } else {
      assert (lines + post)[0] == lines[0] && (lines + post)[1..] == lines[1..] + post;
      var line := Strip(lines[0]);
      assert lines[0] in lines && forall l | l in lines[1..] :: l in lines;
      TextReads(lines[1..], post, if H2 <= line then PerimeterOf(Strip(line[|H2|..])) else section, clean);
    }
  }

  lemma {:induction false} ProseKeepsSection(lines: seq<Line>, section: Option<Perimeter>)
    requires forall l | l in lines :: Prose(l)
    ensures NoCardHeading(lines) && SectionAfter(lines, section) == section
  {
    if lines != [] {
      assert lines[0] in lines && Prose(lines[0]);
      ProseKeepsSection(lines[1..], section);
    }
  }

  lemma BodyProse(c: Card)
    requires GoodCard(c)
    ensures forall l | l in c.Body() :: Prose(l)
  {
    FixedLinesProse(c.url);
  }

  lemma FixedLinesProse(url: string)
    requires SpaceFree(url)
    ensures Prose("") && Prose(LINK + ": " + url) && Prose(SUMMARY + ":") && Prose(TAKEAWAY + ":")
  {
    LinkLine(url);
    LabelLines();
    BlankIsProse("");
  }

  lemma HeadingLine(title: string)
    requires Trimmed(title)
    ensures Strip(H3 + title) == H3 + title && H3 <= H3 + title && !(H2 <= H3 + title)
  {
    var line := H3 + title;
    assert line[0] == '#' && line[|line| - 1] == title[|title| - 1];
    TrimmedStrips(line);
    assert line[2] == '#' && H2[2] == ' ';
  }

  lemma FollowsBlank(rest: seq<Segment>)
    requires GoodDoc(rest) && Follows(rest)
    ensures forall l | l in Block(Flat(rest)) :: Blank(l)
  {
    if rest != [] && rest[0].Text? {
      TextBlank(rest[0].lines, Flat(rest[1..]));
    } else if rest != [] {
      assert Flat(rest)[0] == H3 + rest[0].card.title;
    }
  }

  lemma TextBlank(lines: seq<Line>, more: seq<Line>)
    requires AfterBlock(lines) != [] && forall l | l in Block(lines) :: Blank(l)
    ensures forall l | l in Block(lines + more) :: Blank(l)
  {
    var pre, post := Block(lines), AfterBlock(lines);
    BlockSplits(lines);
    NoHeadingInBlock(lines);
    AfterBlockHeading(lines);
    Join3(pre, post, more);
    BlockAppend(pre, post + more);
    assert (post + more)[0] == post[0];
  }

  lemma {:induction false} NoHeadingInBlock(lines: seq<Line>)
    ensures forall l | l in Block(lines) :: !Heading(l)
  {
    if lines != [] && !Heading(lines[0]) {
      NoHeadingInBlock(lines[1..]);
    }
  }

  lemma {:induction false} AfterBlockHeading(lines: seq<Line>)
    ensures AfterBlock(lines) != [] ==> Heading(AfterBlock(lines)[0])
  {
    if lines != [] && !Heading(lines[0]) {
      AfterBlockHeading(lines[1..]);
    }
  }

  lemma ProseReads(lines: seq<Line>, post: seq<Line>, section: Option<Perimeter>, clean: string -> string)
    requires forall l | l in lines :: Prose(l)
    ensures ParseFrom(lines + post, section, clean) == ParseFrom(post, section, clean)
  {
    ProseKeepsSection(lines, section);
    TextReads(lines, post, section, clean);
  }

  /** What a card's block is: its own body and the blank lines before the next heading. */
  lemma CardBlock(c: Card, rest: seq<Segment>, section: Option<Perimeter>, clean: string -> string)
    requires GoodCard(c) && GoodDoc(rest) && Follows(rest)
    ensures var post := Flat(rest);
      && Block(c.Body() + post) == c.Body() + Block(post) && (forall l | l in Block(post) :: Blank(l))
      && ParseFrom(AfterBlock(c.Body() + post), section, clean) == ParseFrom(post, section, clean)
  {
    var post := Flat(rest);
    BodyProse(c);
    BlockAppend(c.Body(), post);
    FollowsBlank(rest);
    BlockSplits(post);
    forall l | l in Block(post) ensures Prose(l) {
      BlankIsProse(l);
    }
    ProseReads(Block(post), AfterBlock(post), section, clean);
  }

  lemma HeadingReads(title: string, below: seq<Line>, section: Option<Perimeter>, clean: string -> string)
    requires Trimmed(title)
    ensures ParseFrom([H3 + title] + below, section, clean) ==
      if section.None? then ParseFrom(below, section, clean)
      else
        var found := Read(section.value, H3 + title, Block(below), clean);
        (if found.Some? then [found.value] else []) + ParseFrom(AfterBlock(below), section, clean)
  {
    HeadingLine(title);
    assert ([H3 + title] + below)[1..] == below;
  }

  /** Outside the perimeters a card's lines are passed over. */
  lemma CardPassedOver(c: Card, post: seq<Line>, clean: string -> string)
    requires GoodCard(c)
    ensures ParseFrom(c.Lines() + post, None, clean) == ParseFrom(post, None, clean)
  {
    var below := c.Body() + post;
    assert c.Lines() + post == [H3 + c.title] + below;
    HeadingReads(c.title, below, None, clean);
    BodyProse(c);
    ProseReads(c.Body(), post, None, clean);
  }

  /** Inside a perimeter it is read. */
  lemma CardIsRead(c: Card, rest: seq<Segment>, p: Perimeter, clean: string -> string)
    requires GoodCard(c) && GoodDoc(rest) && Follows(rest)
    ensures ParseFrom(c.Lines() + Flat(rest), Some(p), clean) ==
      [Meaning(p, c, clean)] + ParseFrom(Flat(rest), Some(p), clean)
  {
    var post := Flat(rest);
    var below := c.Body() + post;
    assert c.Lines() + post == [H3 + c.title] + below;
    HeadingReads(c.title, below, Some(p), clean);
    CardBlock(c, rest, Some(p), clean);
    CardReads(c, Block(post), p, clean);
  }

  /** A card in front of a document reads as its meaning, or is passed over outside the perimeters. */
  lemma CardThenRest(c: Card, rest: seq<Segment>, section: Option<Perimeter>, clean: string -> string)
    requires GoodCard(c) && GoodDoc(rest) && Follows(rest)
    ensures ParseFrom(c.Lines() + Flat(rest), section, clean) ==
      (if section.Some? then [Meaning(section.value, c, clean)] else [])
      + ParseFrom(Flat(rest), section, clean)
  {
    var post := Flat(rest);
    match section {
      case None =>
        CardPassedOver(c, post, clean);
        NothingBefore(ParseFrom(post, None, clean));
      case Some(p) =>
        CardIsRead(c, rest, p, clean);
    }
  }

  lemma NothingBefore<T>(s: seq<T>)
    ensures [] + s == s
  {
  }

  /** Reading back what was laid out: exactly the cards of the perimeter sections, in order, each with
      its own perimeter, title, URL and texts. */
  lemma {:induction false} ParseFlat(doc: seq<Segment>, section: Option<Perimeter>, clean: string -> string)
    requires GoodDoc(doc)
    ensures ParseFrom(Flat(doc), section, clean) == Materials(doc, section, clean)
  {
    if doc != [] {
      match doc[0]
      case Text(lines) =>
        TextReads(lines, Flat(doc[1..]), section, clean);
        ParseFlat(doc[1..], SectionAfter(lines, section), clean);
      case CardSegment(card) =>
        CardThenRest(card, doc[1..], section, clean);
        ParseFlat(doc[1..], section, clean);
    }
  }
}
