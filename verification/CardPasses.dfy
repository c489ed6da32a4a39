/** What a printed report still says after any number of passes that write card texts into it. */
module CardPasses {
  import opened Wrappers
  import opened Splices
  import opened ReportText
  import opened ReportParser
  import opened ReportLayout
  import opened ApplyCards
  import opened CardRewrite
  import ReportPrinter

  // --------------------------------------------------------- a written card's meaning

  lemma {:induction false} StrippedJoin(a: seq<Line>, b: seq<Line>)
    ensures Stripped(a + b) == Stripped(a) + Stripped(b)
  {
    if a == [] {
      assert a + b == b;
    } else {
      assert (a + b)[0] == a[0] && (a + b)[1..] == a[1..] + b;
      StrippedJoin(a[1..], b);
      Join3(if Blank(a[0]) then [] else [Strip(a[0])], Stripped(a[1..]), Stripped(b));
    }
  }

  lemma {:induction false} StrippedBlanks(a: seq<Line>)
    requires forall l | l in a :: Blank(l)
    ensures Stripped(a) == []
  {
    if a != [] {
      assert a[0] in a;
      StrippedBlanks(a[1..]);
    }
  }

  lemma PaddedMeans(before: seq<Line>, text: string)
    requires Strip(text) == text && text != ""
    ensures Stripped(Padded(before, text)) == [text]
  {
    var blanks := LeadingBlanks(before);
    forall l | l in blanks ensures Blank(l) {
      var q :| 0 <= q < |blanks| && blanks[q] == l;
      assert before[q] == l;
    }
    StrippedBlanks(blanks);
    StrippedJoin(blanks, ["", text, ""]);
    OneText(text);
  }

  lemma OneText(text: string)
    requires Strip(text) == text && text != ""
    ensures Stripped(["", text, ""]) == [text]
  {
    var three := ["", text, ""];
    assert three[1..] == [text, ""] && three[1..][1..] == [""] && three[1..][1..][1..] == [];
    assert Stripped([""]) == [];
    assert Stripped([text, ""]) == [text];
  }

  lemma PaddedIsBody(before: seq<Line>, text: string, names: seq<string>)
    requires PlainText(text, names) && Strip(text) == text && text != ""
    ensures HasText(Padded(before, text))
    ensures forall l | l in Padded(before, text) :: Prose(l) && AfterAny(l, names).None?
  {
    var padded := Padded(before, text);
    assert padded[|LeadingBlanks(before)| + 1] == text;
    assert text in padded && !Blank(text);
    forall l | l in padded ensures Prose(l) && AfterAny(l, names).None? {
      if l != text {
        PaddedBlank(before, text, l);
        BlankIsProse(l);
        BlankNoLabel(l, names);
      }
    }
  }

  lemma PaddedBlank(before: seq<Line>, text: string, l: Line)
    requires l in Padded(before, text) && l != text
    ensures Blank(l)
  {
    if l in LeadingBlanks(before) {
      var q :| 0 <= q < |LeadingBlanks(before)| && LeadingBlanks(before)[q] == l;
      assert before[q] == l;
    }
  }

  lemma RewrittenGood(c: Card, t: CardText)
    requires GoodCard(c) && IsSuccess(t)
    requires PlainText(Strip(t.short), STOP_LABELS) && PlainText(Strip(t.angle), STOP_LABELS)
    ensures GoodCard(Rewritten(c, t))
  {
    StripTrims(t.short);
    StripTrims(t.angle);
    PaddedIsBody(c.summary, Strip(t.short), STOP_LABELS);
    PaddedIsBody(c.takeaway, Strip(t.angle), STOP_LABELS);
    BodyWithLinks(c.takeaway, Padded(c.takeaway, Strip(t.angle)), STOP_LABELS);
  }

  lemma BodyWithLinks(take: seq<Line>, padded: seq<Line>, names: seq<string>)
    requires HasText(padded) && (forall l | l in padded :: Prose(l) && AfterAny(l, names).None?)
    requires forall l | l in take :: Prose(l) && AfterAny(l, names).None?
    ensures HasText(padded + Links(take))
    ensures forall l | l in padded + Links(take) :: Prose(l) && AfterAny(l, names).None?
  {
    var l :| l in padded && !Blank(l);
    assert l in padded + Links(take);
    forall l | l in Links(take) ensures l in take {
    }
  }

  /** What a card says after the pass. */
  function Says(p: Perimeter, c: Card, cards: map<string, CardText>, clean: string -> string): Parsed {
    if Written(c, cards) then
      var t := cards[c.title];
      Parsed(p, clean(c.title), c.url, clean(Strip(t.short)),
        clean(Join([Strip(t.angle)] + Stripped(Links(c.takeaway)))))
    else Meaning(p, c, clean)
  }

  function AllSay(doc: seq<Segment>, section: Option<Perimeter>, cards: map<string, CardText>, clean: string -> string):
    seq<Parsed>
  {
    if doc == [] then []
    else match doc[0]
      case Text(lines) => AllSay(doc[1..], SectionAfter(lines, section), cards, clean)
      case CardSegment(c) =>
        (if section.Some? then [Says(section.value, c, cards, clean)] else [])
        + AllSay(doc[1..], section, cards, clean)
  }

  lemma WrittenMeans(p: Perimeter, c: Card, cards: map<string, CardText>, clean: string -> string)
    requires Written(c, cards)
    ensures Meaning(p, Rewritten(c, cards[c.title]), clean) == Says(p, c, cards, clean)
  {
    var t := cards[c.title];
    StripTrims(t.short);
    StripTrims(t.angle);
    PaddedMeans(c.summary, Strip(t.short));
    PaddedMeans(c.takeaway, Strip(t.angle));
    StrippedJoin(Padded(c.takeaway, Strip(t.angle)), Links(c.takeaway));
    JoinOne(Strip(t.short));
  }

  lemma JoinOne(text: string)
    ensures Join([text]) == text
  {
  }

  // -------------------------------------------------------------- the whole report

  lemma DropSays(doc: seq<Segment>, section: Option<Perimeter>, cards: map<string, CardText>, clean: string -> string)
    requires Follows(doc)
    ensures AllSay(DropBlanks(doc), section, cards, clean) == AllSay(doc, section, cards, clean)
  {
    if doc != [] && doc[0].Text? {
      var lines := doc[0].lines;
      BlockSplits(lines);
      forall l | l in Block(lines) ensures Prose(l) {
        BlankIsProse(l);
      }
      ProseThenSection(Block(lines), AfterBlock(lines), section);
      assert DropBlanks(doc)[1..] == doc[1..];
    }
  }

  lemma {:induction false} ProseThenSection(a: seq<Line>, b: seq<Line>, section: Option<Perimeter>)
    requires forall l | l in a :: Prose(l)
    ensures SectionAfter(a + b, section) == SectionAfter(b, section)
  {
    if a == [] {
      assert a + b == b;
    } else {
      assert Prose(a[0]) && (a + b)[0] == a[0] && (a + b)[1..] == a[1..] + b;
      ProseThenSection(a[1..], b, section);
    }
  }

  lemma CardFirst(c: Card, rest: seq<Segment>, section: Option<Perimeter>, clean: string -> string)
    ensures Materials([CardSegment(c)] + rest, section, clean) ==
      (if section.Some? then [Meaning(section.value, c, clean)] else []) + Materials(rest, section, clean)
  {
    assert ([CardSegment(c)] + rest)[1..] == rest;
  }

  lemma TextFirst(lines: seq<Line>, rest: seq<Segment>, section: Option<Perimeter>, clean: string -> string)
    ensures Materials([Text(lines)] + rest, section, clean) == Materials(rest, SectionAfter(lines, section), clean)
  {
    assert ([Text(lines)] + rest)[1..] == rest;
  }

  /** After the scan every card of the perimeters says what it should, in the old order. */
  lemma {:induction false} ApplySays(
    doc: seq<Segment>, section: Option<Perimeter>, cards: map<string, CardText>, clean: string -> string)
    requires GoodDoc(doc)
    ensures Materials(ApplyDoc(doc, cards), section, clean) == AllSay(doc, section, cards, clean)
    decreases |doc|
  {
    if doc != [] {
      match doc[0]
      case Text(lines) =>
        ApplySays(doc[1..], SectionAfter(lines, section), cards, clean);
        TextFirst(lines, ApplyDoc(doc[1..], cards), section, clean);
      case CardSegment(c) =>
        if Written(c, cards) {
          var rest := if Links(c.takeaway) == [] then DropBlanks(doc[1..]) else doc[1..];
          DropKeeps(doc[1..], cards);
          DropSays(doc[1..], section, cards, clean);
          ApplySays(rest, section, cards, clean);
          CardFirst(Rewritten(c, cards[c.title]), ApplyDoc(rest, cards), section, clean);
          if section.Some? {
            WrittenMeans(section.value, c, cards, clean);
          }
        } else {
          ApplySays(doc[1..], section, cards, clean);
          CardFirst(c, ApplyDoc(doc[1..], cards), section, clean);
        }
    }
  }

  lemma GoodFirst(s: Segment, rest: seq<Segment>)
    requires GoodDoc(rest)
    requires if s.Text? then NoCardHeading(s.lines) else GoodCard(s.card) && Follows(rest)
    ensures GoodDoc([s] + rest)
    ensures s.CardSegment? || Follows([s]) ==> Follows([s] + rest)
  {
    assert ([s] + rest)[0] == s && ([s] + rest)[1..] == rest;
  }

  /** The scan leaves a well-formed report. */
  lemma {:induction false} ApplyGood(doc: seq<Segment>, cards: map<string, CardText>)
    requires GoodDoc(doc) && GoodTexts(cards)
    ensures GoodDoc(ApplyDoc(doc, cards)) && (Follows(doc) ==> Follows(ApplyDoc(doc, cards)))
    decreases |doc|
  {
    if doc != [] {
      if doc[0].Text? {
        ApplyGood(doc[1..], cards);
        FollowsAlone(doc);
        GoodFirst(doc[0], ApplyDoc(doc[1..], cards));
      } else if Written(doc[0].card, cards) {
        var c := doc[0].card;
        var rest := if Links(c.takeaway) == [] then DropBlanks(doc[1..]) else doc[1..];
        DropKeeps(doc[1..], cards);
        ApplyGood(rest, cards);
        RewrittenGood(c, cards[c.title]);
        GoodFirst(CardSegment(Rewritten(c, cards[c.title])), ApplyDoc(rest, cards));
      } else {
        ApplyGood(doc[1..], cards);
        GoodFirst(doc[0], ApplyDoc(doc[1..], cards));
      }
    }
  }

  lemma FollowsAlone(doc: seq<Segment>)
    requires doc != []
    ensures Follows(doc) <==> Follows([doc[0]])
  {
  }

  datatype Identity = Identity(perimeter: Perimeter, title: string, url: string)

  function Identities(ms: seq<Parsed>): seq<Identity> {
    seq(|ms|, i requires 0 <= i < |ms| => Identity(ms[i].perimeter, ms[i].title, ms[i].url))
  }

  lemma {:induction false} SameIdentities(
    doc: seq<Segment>, section: Option<Perimeter>, cards: map<string, CardText>, clean: string -> string)
    ensures Identities(AllSay(doc, section, cards, clean)) == Identities(Materials(doc, section, clean))
  {
    if doc != [] {
      match doc[0]
      case Text(lines) => SameIdentities(doc[1..], SectionAfter(lines, section), cards, clean);
      case CardSegment(c) =>
        SameIdentities(doc[1..], section, cards, clean);
        var a, b := AllSay(doc[1..], section, cards, clean), Materials(doc[1..], section, clean);
        assert [] + a == a && [] + b == b;
        if section.Some? {
          IdentitiesCons(Says(section.value, c, cards, clean), a);
          IdentitiesCons(Meaning(section.value, c, clean), b);
        }
    }
  }

  lemma IdentitiesCons(m: Parsed, ms: seq<Parsed>)
    ensures Identities([m] + ms) == [Identity(m.perimeter, m.title, m.url)] + Identities(ms)
  {
  }

  // ------------------------------------------------------------------- whole passes

  /** The control line is a second-level heading, so it never occurs in card texts. */
  ghost predicate NoLine(lines: seq<Line>, text: string) {
    forall l | l in lines :: Strip(l) != text
  }

  /** A printed report, fresh or already edited: an opening, then the section the control text goes
      in front of. */
  ghost predicate Editable(doc: seq<Segment>) {
    && GoodDoc(doc) && |doc| >= 2 && doc[0].Text? && doc[1].Text?
    && doc[1].lines != [] && doc[1].lines[0] == IMPORTANT
    && NoLine(doc[0].lines, IMPORTANT)
    && (NoLine(doc[0].lines, CONTROL) ==> NoLine(Flat(doc[1..]), CONTROL))
  }

  function PassDoc(
    doc: seq<Segment>, cards: map<string, CardText>, titles: seq<string>, counts: (nat, nat, nat) -> string):
    seq<Segment>
    requires doc != [] && doc[0].Text?
  {
    var control := ControlLines(|WrittenTitles(doc[1..], cards)|, titles, cards, counts);
    [Text(WithoutControl(doc[0].lines) + control + [""])] + ApplyDoc(doc[1..], cards)
  }

  lemma FindJoin(a: seq<Line>, b: seq<Line>, name: string, p: nat)
    requires p == FindOrEnd(a, name, 0) && (p < |a| || NoLine(b, name))
    ensures FindOrEnd(a + b, name, 0) == if p < |a| then p else |a| + |b|
  {
    var all := a + b;
    forall q | 0 <= q < |a| ensures all[q] == a[q] {
    }
    forall q | |a| <= q < |all| ensures all[q] == b[q - |a|] && all[q] in b {
    }
  }

  lemma NextJoin(a: seq<Line>, b: seq<Line>, i: nat)
    requires i <= |a| && b != [] && H2 <= b[0]
    ensures NextSection(a + b, i) == NextSection(a, i)
  {
    var all, n := a + b, NextSection(a, i);
    assert all[|a|] == b[0];
    assert forall q | i <= q < |a| :: all[q] == a[q];
    if n < |a| {
      assert H2 <= all[n];
    }
  }

  /** Dropping an old control section stays within the opening. */
  lemma DropControl(head: seq<Line>, tail: seq<Line>)
    requires tail != [] && H2 <= tail[0] && (NoLine(head, CONTROL) ==> NoLine(tail, CONTROL))
    ensures WithoutControl(head + tail) == WithoutControl(head) + tail
  {
    var p := FindOrEnd(head, CONTROL, 0);
    if p == |head| {
      forall l | l in head ensures Strip(l) != CONTROL {
        var q :| 0 <= q < |head| && head[q] == l;
      }
    }
    FindJoin(head, tail, CONTROL, p);
    if p < |head| {
      NextJoin(head, tail, p + 1);
      CutWithin(head, tail, p, NextSection(head, p + 1));
    }
  }

  lemma CutWithin<T>(head: seq<T>, tail: seq<T>, p: nat, n: nat)
    requires p <= n <= |head|
    ensures (head + tail)[..p] + (head + tail)[n..] == head[..p] + head[n..] + tail
  {
  }

  lemma WithoutIsPart(head: seq<Line>)
    ensures forall l | l in WithoutControl(head) :: l in head
  {
  }

  /** The new control section goes right behind the opening. */
  lemma InsertControl(head: seq<Line>, tail: seq<Line>, control: seq<Line>)
    requires NoLine(head, IMPORTANT) && tail != [] && Strip(tail[0]) == IMPORTANT
    ensures WithControl(head + tail, control) == head + control + [""] + tail
  {
    var all := head + tail;
    assert all[|head|] == tail[0];
    forall q | 0 <= q < |head| ensures Strip(all[q]) != IMPORTANT {
      assert all[q] == head[q] && head[q] in head;
    }
    AtEnd(head, tail);
  }

  lemma ImportantLine()
    ensures Strip(IMPORTANT) == IMPORTANT && H2 <= IMPORTANT && PerimeterOf(Strip(IMPORTANT[|H2|..])).None?
  {
    var title := IMPORTANT[|H2|..];
    assert IMPORTANT[0] == '#' && IMPORTANT[|IMPORTANT| - 1] == 'M';
    TrimmedStrips(IMPORTANT);
    assert title[0] == 'Ч' && title[|title| - 1] == 'M';
    TrimmedStrips(title);
    assert FAR_SECTION[0] == 'Д' && MIDDLE_SECTION[0] == 'С' && NEAR_SECTION[0] == 'Б';
  }

  /** Behind the section that opens at `Что важно для AgPM` nothing depends on what came before. */
  lemma SectionResets(lines: seq<Line>, a: Option<Perimeter>, b: Option<Perimeter>)
    requires lines != [] && lines[0] == IMPORTANT
    ensures SectionAfter(lines, a) == SectionAfter(lines, b)
  {
    ImportantLine();
  }

  lemma FirstLetter(line: Line)
    requires line != "" && !Space(line[0])
    ensures Strip(line) != "" && Strip(line)[0] == line[0]
  {
    KeepsFirst(line);
  }

  lemma NotAHeading(line: Line)
    requires line != "" && !Space(line[0]) && line[0] != '#'
    ensures !(H3 <= line) && !(H3 <= Strip(line)) && Strip(line) != IMPORTANT
  {
    FirstLetter(line);
    assert H3[0] == '#' && IMPORTANT[0] == '#';
  }

  lemma ControlLine()
    ensures Strip(CONTROL) == CONTROL && !(H3 <= CONTROL) && CONTROL != IMPORTANT
  {
    assert CONTROL[0] == '#' && CONTROL[2] == ' ' && CONTROL[|CONTROL| - 1] == 'к';
    TrimmedStrips(CONTROL);
    assert H3[2] == '#';
    assert CONTROL[3] == 'К' && IMPORTANT[3] == 'Ч';
  }

  /** Lines of the control section: never a card heading nor the section it is put in front of. */
  predicate Harmless(line: Line) {
    !(H3 <= line) && !(H3 <= Strip(line)) && Strip(line) != IMPORTANT
  }

  lemma BlankIsHarmless()
    ensures Harmless("")
  {
    assert IMPORTANT[0] == '#' && H3[0] == '#';
  }

  lemma FallbackLinesHarmless(titles: seq<string>, cards: map<string, CardText>)
    ensures forall l | l in FallbackLines(titles, cards) :: Harmless(l)
  {
    forall l | l in FallbackLines(titles, cards) ensures Harmless(l) {
      var i :| 0 <= i < |titles| && FallbackLines(titles, cards)[i] == l;
      assert l[0] == '-';
      NotAHeading(l);
    }
  }

  lemma FixedLinesHarmless(count: string)
    ensures Harmless(CONTROL) && Harmless("LLM-описания карточек: " + count) && Harmless("Карточки с fallback:")
  {
    ControlLine();
    var a, b := "LLM-описания карточек: " + count, "Карточки с fallback:";
    assert a[0] == 'L' && b[0] == 'К';
    NotAHeading(a);
    NotAHeading(b);
  }

  lemma ControlHarmless(done: nat, titles: seq<string>, cards: map<string, CardText>, counts: (nat, nat, nat) -> string)
    ensures var control := ControlLines(done, titles, cards, counts);
      control != [] && control[0] == CONTROL && forall l | l in control :: Harmless(l)
  {
    var count := counts(done, |cards|, |titles|);
    FixedLinesHarmless(count);
    BlankIsHarmless();
    FallbackLinesHarmless(titles, cards);
    HarmlessParts(CONTROL, "LLM-описания карточек: " + count, "Карточки с fallback:", FallbackLines(titles, cards));
  }

  lemma HarmlessParts(a: Line, b: Line, c: Line, more: seq<Line>)
    requires Harmless(a) && Harmless(b) && Harmless(c) && Harmless("") && forall l | l in more :: Harmless(l)
    ensures forall l | l in [a, "", b] + (["", c, ""] + more) :: Harmless(l)
    ensures forall l | l in [a, "", b] + [] :: Harmless(l)
  {
  }

  lemma StartsImportant(doc: seq<Segment>)
    requires doc != [] && doc[0].Text? && doc[0].lines != [] && doc[0].lines[0] == IMPORTANT
    ensures Flat(doc) != [] && Flat(doc)[0] == IMPORTANT
  {
  }

  /** Without the old control section the report is still well-formed, card for card. */
  lemma Uncontrolled(doc: seq<Segment>)
    requires Editable(doc)
    ensures var bare := [Text(WithoutControl(doc[0].lines))] + doc[1..];
      GoodDoc(bare) && WithoutControl(Flat(doc)) == Flat(bare)
  {
    var head, rest := doc[0].lines, doc[1..];
    ImportantLine();
    StartsImportant(rest);
    DropControl(head, Flat(rest));
    WithoutIsPart(head);
    GoodFirst(Text(WithoutControl(head)), rest);
    FlatFirst(Text(WithoutControl(head)), rest);
  }

  lemma ScanOpening(head: seq<Line>, rest: seq<Segment>, cards: map<string, CardText>) returns (e: Edit)
    requires GoodDoc([Text(head)] + rest) && GoodTexts(cards)
    ensures e == ApplyAt(Flat([Text(head)] + rest), 0, cards)
    ensures e.lines == head + Flat(ApplyDoc(rest, cards))
    ensures e.done == WrittenTitles(rest, cards) && e.fallbacks == FallbackTitles(rest, cards)
  {
    var doc := [Text(head)] + rest;
    var later := Outcome(rest, cards);
    assert doc[1..] == rest;
    e := AppliedDoc(Flat(doc), 0, doc, cards, Outcome(doc, cards));
    OutcomeText(doc, cards, later);
    assert e.lines == Flat(doc)[..0] + Outcome(doc, cards).lines;
  }

  /** One pass over a printed report, at the level of the report: which lines it leaves. */
  lemma PassIs(
    doc: seq<Segment>, cards: map<string, CardText>, titles: seq<string>, counts: (nat, nat, nat) -> string)
    requires Editable(doc) && GoodTexts(cards)
    ensures Pass(Flat(doc), cards, titles, counts) == Flat(PassDoc(doc, cards, titles, counts))
  {
    var head, rest := WithoutControl(doc[0].lines), doc[1..];
    Uncontrolled(doc);
    WithoutIsPart(doc[0].lines);
    var e := ScanOpening(head, rest, cards);
    var control := ControlLines(|e.done|, titles, cards, counts);
    ApplyKeepsFirst(rest, cards);
    StartsImportant(ApplyDoc(rest, cards));
    ImportantLine();
    InsertControl(head, Flat(ApplyDoc(rest, cards)), control);
    FlatFirst(Text(head + control + [""]), ApplyDoc(rest, cards));
  }

  lemma ApplyKeepsFirst(doc: seq<Segment>, cards: map<string, CardText>)
    requires doc != [] && doc[0].Text?
    ensures ApplyDoc(doc, cards) != [] && ApplyDoc(doc, cards)[0] == doc[0]
  {
  }

  lemma OpeningAgain(
    head: seq<Line>, done: nat, cards: map<string, CardText>, titles: seq<string>, counts: (nat, nat, nat) -> string)
    requires NoCardHeading(head) && NoLine(head, IMPORTANT)
    ensures var lines := head + ControlLines(done, titles, cards, counts) + [""];
      NoCardHeading(lines) && NoLine(lines, IMPORTANT) && !NoLine(lines, CONTROL)
  {
    var control := ControlLines(done, titles, cards, counts);
    ControlHarmless(done, titles, cards, counts);
    BlankIsHarmless();
    ControlLine();
    var lines := head + control + [""];
    assert lines[|head|] == control[0] && control[0] in lines;
  }

  lemma PassKeepsShape(
    doc: seq<Segment>, cards: map<string, CardText>, titles: seq<string>, counts: (nat, nat, nat) -> string)
    requires Editable(doc) && GoodTexts(cards)
    ensures Editable(PassDoc(doc, cards, titles, counts))
  {
    var head, rest := WithoutControl(doc[0].lines), doc[1..];
    WithoutIsPart(doc[0].lines);
    OpeningAgain(head, |WrittenTitles(rest, cards)|, cards, titles, counts);
    ApplyKeepsFirst(rest, cards);
    ApplyGood(rest, cards);
    EditableAgain(PassDoc(doc, cards, titles, counts)[0].lines, ApplyDoc(rest, cards));
  }

  lemma EditableAgain(lines: seq<Line>, rest: seq<Segment>)
    requires NoCardHeading(lines) && NoLine(lines, IMPORTANT) && !NoLine(lines, CONTROL)
    requires GoodDoc(rest) && rest != [] && rest[0].Text? && rest[0].lines != [] && rest[0].lines[0] == IMPORTANT
    ensures Editable([Text(lines)] + rest)
  {
    GoodFirst(Text(lines), rest);
    assert ([Text(lines)] + rest)[1] == rest[0];
  }

  /** One pass and a re-reading: every card of a perimeter, in the old order, with the texts it should
      have. */
  lemma PassSays(
    doc: seq<Segment>, cards: map<string, CardText>, titles: seq<string>, counts: (nat, nat, nat) -> string,
    clean: string -> string)
    requires Editable(doc) && GoodTexts(cards)
    ensures ParseFrom(Pass(Flat(doc), cards, titles, counts), None, clean) == AllSay(doc, None, cards, clean)
  {
    var rest, out := doc[1..], PassDoc(doc, cards, titles, counts);
    PassIs(doc, cards, titles, counts);
    PassKeepsShape(doc, cards, titles, counts);
    ParseFlat(out, None, clean);
    var before, after := SectionAfter(doc[0].lines, None), SectionAfter(out[0].lines, None);
    TextFirst(out[0].lines, ApplyDoc(rest, cards), None, clean);
    ApplySays(rest, after, cards, clean);
    SectionResets(rest[0].lines, before, after);
    assert AllSay(rest, before, cards, clean) == AllSay(rest, after, cards, clean);
  }

  datatype Input = Input(cards: map<string, CardText>, titles: seq<string>, counts: (nat, nat, nat) -> string)

  function Passes(lines: seq<Line>, inputs: seq<Input>): seq<Line> {
    if inputs == [] then lines
    else
      var last := inputs[|inputs| - 1];
      Pass(Passes(lines, inputs[..|inputs| - 1]), last.cards, last.titles, last.counts)
  }

  ghost predicate GoodInputs(inputs: seq<Input>) {
    forall x | x in inputs :: GoodTexts(x.cards)
  }

  function PassesDoc(doc: seq<Segment>, inputs: seq<Input>): (r: seq<Segment>)
    requires doc != [] && doc[0].Text?
    ensures r != [] && r[0].Text?
  {
    if inputs == [] then doc
    else
      var last := inputs[|inputs| - 1];
      PassDoc(PassesDoc(doc, inputs[..|inputs| - 1]), last.cards, last.titles, last.counts)
  }

  lemma {:induction false} PassesAre(doc: seq<Segment>, inputs: seq<Input>)
    requires Editable(doc) && GoodInputs(inputs)
    ensures Passes(Flat(doc), inputs) == Flat(PassesDoc(doc, inputs)) && Editable(PassesDoc(doc, inputs))
  {
    if inputs != [] {
      var init, x := inputs[..|inputs| - 1], inputs[|inputs| - 1];
      PassesAre(doc, init);
      PassIs(PassesDoc(doc, init), x.cards, x.titles, x.counts);
      PassKeepsShape(PassesDoc(doc, init), x.cards, x.titles, x.counts);
    }
  }

  /** Any number of passes, with any card tables: a re-reading finds the same materials, in the same
      order, under the same perimeters, titles and links. */
  lemma {:induction false} PassesKeepMaterials(doc: seq<Segment>, inputs: seq<Input>, clean: string -> string)
    requires Editable(doc) && GoodInputs(inputs)
    ensures Identities(ParseFrom(Passes(Flat(doc), inputs), None, clean))
         == Identities(ParseFrom(Flat(doc), None, clean))
  {
    if inputs != [] {
      var init, x := inputs[..|inputs| - 1], inputs[|inputs| - 1];
      var before := PassesDoc(doc, init);
      PassesKeepMaterials(doc, init, clean);
      PassesAre(doc, init);
      PassSays(before, x.cards, x.titles, x.counts, clean);
      ParseFlat(before, None, clean);
      SameIdentities(before, None, x.cards, clean);
    }
  }

  // ------------------------------------------------------------- the cards of a report

  function CardsOf(doc: seq<Segment>): seq<Card> {
    if doc == [] then []
    else (if doc[0].CardSegment? then [doc[0].card] else []) + CardsOf(doc[1..])
  }

  function Stepped(c: Card, cards: map<string, CardText>): Card {
    if Written(c, cards) then Rewritten(c, cards[c.title]) else c
  }

  function SteppedAll(cs: seq<Card>, cards: map<string, CardText>): seq<Card> {
    seq(|cs|, i requires 0 <= i < |cs| => Stepped(cs[i], cards))
  }

  lemma CardsOfFirst(s: Segment, rest: seq<Segment>)
    ensures CardsOf([s] + rest) == (if s.CardSegment? then [s.card] else []) + CardsOf(rest)
  {
    assert ([s] + rest)[1..] == rest;
  }

  lemma CardsOfDrop(doc: seq<Segment>)
    ensures CardsOf(DropBlanks(doc)) == CardsOf(doc)
  {
    if doc != [] {
      assert DropBlanks(doc)[1..] == doc[1..];
    }
  }

  /** The scan edits card by card: none added, none lost, none moved. */
  lemma {:induction false} CardsAfter(doc: seq<Segment>, cards: map<string, CardText>)
    ensures CardsOf(ApplyDoc(doc, cards)) == SteppedAll(CardsOf(doc), cards)
    decreases |doc|
  {
    if doc != [] {
      if doc[0].Text? {
        CardsAfter(doc[1..], cards);
        CardsOfFirst(doc[0], ApplyDoc(doc[1..], cards));
        assert [] + CardsOf(doc[1..]) == CardsOf(doc[1..]);
        assert [] + CardsOf(ApplyDoc(doc[1..], cards)) == CardsOf(ApplyDoc(doc[1..], cards));
      } else {
        var c := doc[0].card;
        var rest := if Written(c, cards) && Links(c.takeaway) == [] then DropBlanks(doc[1..]) else doc[1..];
        CardsOfDrop(doc[1..]);
        CardsAfter(rest, cards);
        CardsOfFirst(CardSegment(Stepped(c, cards)), ApplyDoc(rest, cards));
        SteppedFirst(c, CardsOf(rest), cards);
      }
    }
  }

  lemma SteppedFirst(c: Card, cs: seq<Card>, cards: map<string, CardText>)
    ensures SteppedAll([c] + cs, cards) == [Stepped(c, cards)] + SteppedAll(cs, cards)
  {
  }

  /** A title of one card only, with a row in the card table, is accounted for, as written or as a
      fallback, exactly when the card is within reach; otherwise it is passed over in silence. */
  lemma AccountedIff(doc: seq<Segment>, cards: map<string, CardText>, c: Card)
    requires GoodDoc(doc) && GoodTexts(cards) && CardSegment(c) in doc && c.title in cards
    requires forall s | s in doc && s.CardSegment? && s.card.title == c.title :: s.card == c
    ensures var e := ApplyAt(Flat(doc), 0, cards);
      && (c.title in e.done <==> Reachable(c) && IsSuccess(cards[c.title]))
      && (c.title in e.fallbacks <==> Reachable(c) && !IsSuccess(cards[c.title]))
  {
    var e := AppliedDoc(Flat(doc), 0, doc, cards, Outcome(doc, cards));
  }

  // --------------------------------------------------------- how often a card can be written

  function WriteAgain(c: Card, texts: seq<CardText>): Card {
    if texts == [] then c
    else
      var before := WriteAgain(c, texts[..|texts| - 1]);
      if Reachable(before) then Rewritten(before, texts[|texts| - 1]) else before
  }

  lemma LeadingIs(lines: seq<Line>, n: nat)
    requires n < |lines| && !Blank(lines[n]) && forall q | 0 <= q < n :: Blank(lines[q])
    ensures BlanksEnd(lines, 0) == n
  {
  }

  lemma PaddedGrows(before: seq<Line>, text: string, n: nat)
    requires BlanksEnd(before, 0) == n && Strip(text) == text && text != ""
    ensures |Padded(before, text)| == n + 3 && BlanksEnd(Padded(before, text), 0) == n + 1
  {
    var lines := Padded(before, text);
    assert lines[n] == "" && lines[n + 1] == text;
    assert forall q | 0 <= q < n :: lines[q] == before[q];
    LeadingIs(lines, n + 1);
  }

  /** Each writing leaves one more blank line below the summary label. */
  lemma {:induction false} BlanksGrow(c: Card, texts: seq<CardText>)
    requires Reachable(c) && BlanksEnd(c.summary, 0) == 1 && forall t | t in texts :: IsSuccess(t)
    requires 0 < |texts| <= 8
    ensures var w := WriteAgain(c, texts);
      && BlanksEnd(w.summary, 0) == |texts| + 1 && |w.summary| == |texts| + 3 && w.extra == c.extra
    ensures var w, t := WriteAgain(c, texts), texts[|texts| - 1];
      Stripped(w.summary) == [Strip(t.short)]
  {
    var n := |texts| - 1;
    var init, t := texts[..n], texts[n];
    assert t in texts;
    if n > 0 {
      BlanksGrow(c, init);
    } else {
      assert WriteAgain(c, init) == c;
    }
    var before := WriteAgain(c, init);
    StripTrims(t.short);
    PaddedGrows(before.summary, Strip(t.short), n + 1);
    PaddedMeans(before.summary, Strip(t.short));
  }

  /** A card as printed can be written exactly eight times.  The eighth text still arrives; from then
      on the takeaway label lies beyond the search window and every later text is silently lost. */
  lemma {:induction false} EightWritings(c: Card, texts: seq<CardText>)
    requires Reachable(c) && BlanksEnd(c.summary, 0) == 1 && forall t | t in texts :: IsSuccess(t)
    requires |texts| >= 8
    ensures Stripped(WriteAgain(c, texts).summary) == [Strip(texts[7].short)]
    ensures !Reachable(WriteAgain(c, texts)) && WriteAgain(c, texts) == WriteAgain(c, texts[..8])
    decreases |texts|
  {
    if |texts| == 8 {
      BlanksGrow(c, texts);
      assert texts[..8] == texts;
    } else {
      var init := texts[..|texts| - 1];
      EightWritings(c, init);
      assert init[..8] == texts[..8] && init[7] == texts[7];
    }
  }

  /** Every pass offers this title a text. */
  ghost predicate Offered(inputs: seq<Input>, title: string) {
    forall x | x in inputs :: title in x.cards && IsSuccess(x.cards[title])
  }

  function TextsFor(inputs: seq<Input>, title: string): seq<CardText>
    requires forall x | x in inputs :: title in x.cards
  {
    seq(|inputs|, i requires 0 <= i < |inputs| => assert inputs[i] in inputs; inputs[i].cards[title])
  }

  lemma TextsInit(inputs: seq<Input>, title: string)
    requires inputs != [] && Offered(inputs, title)
    ensures inputs[|inputs| - 1] in inputs && Offered(inputs[..|inputs| - 1], title)
    ensures TextsFor(inputs, title)[..|inputs| - 1] == TextsFor(inputs[..|inputs| - 1], title)
    ensures TextsFor(inputs, title)[|inputs| - 1] == inputs[|inputs| - 1].cards[title]
  {
  }

  /** Passes over the report write each of its cards one after the other. */
  lemma {:induction false} CardAfterPasses(doc: seq<Segment>, inputs: seq<Input>, k: nat)
    requires doc != [] && doc[0].Text? && k < |CardsOf(doc)| && Offered(inputs, CardsOf(doc)[k].title)
    ensures var c := CardsOf(doc)[k];
      && |CardsOf(PassesDoc(doc, inputs))| == |CardsOf(doc)|
      && CardsOf(PassesDoc(doc, inputs))[k] == WriteAgain(c, TextsFor(inputs, c.title))
      && CardsOf(PassesDoc(doc, inputs))[k].title == c.title
  {
    if inputs != [] {
      var c, n := CardsOf(doc)[k], |inputs| - 1;
      var init, x := inputs[..n], inputs[n];
      TextsInit(inputs, c.title);
      CardAfterPasses(doc, init, k);
      var before := PassesDoc(doc, init);
      CardsAfter(before[1..], x.cards);
      PassDocCards(before, x);
    }
  }

  lemma PassDocCards(doc: seq<Segment>, x: Input)
    requires doc != [] && doc[0].Text?
    ensures CardsOf(PassDoc(doc, x.cards, x.titles, x.counts)) == SteppedAll(CardsOf(doc), x.cards)
  {
    var out := PassDoc(doc, x.cards, x.titles, x.counts);
    CardsAfter(doc[1..], x.cards);
    CardsOfFirst(out[0], ApplyDoc(doc[1..], x.cards));
    assert [] + CardsOf(doc[1..]) == CardsOf(doc[1..]);
    assert [] + CardsOf(ApplyDoc(doc[1..], x.cards)) == CardsOf(ApplyDoc(doc[1..], x.cards));
  }

  /** A printed card that every pass offers a text shows the eighth of them for good. */
  lemma NinthPassIsLost(doc: seq<Segment>, inputs: seq<Input>, k: nat)
    requires Editable(doc) && GoodInputs(inputs) && |inputs| >= 8
    requires k < |CardsOf(doc)| && Offered(inputs, CardsOf(doc)[k].title)
    requires Reachable(CardsOf(doc)[k]) && BlanksEnd(CardsOf(doc)[k].summary, 0) == 1
    ensures var title := CardsOf(doc)[k].title;
      var out := PassesDoc(doc, inputs);
      && Passes(Flat(doc), inputs) == Flat(out) && k < |CardsOf(out)| && CardsOf(out)[k].title == title
      && title in inputs[7].cards
      && Stripped(CardsOf(out)[k].summary) == [Strip(inputs[7].cards[title].short)]
  {
    var c := CardsOf(doc)[k];
    PassesAre(doc, inputs);
    CardAfterPasses(doc, inputs, k);
    var texts := TextsFor(inputs, c.title);
    OfferedTexts(inputs, c.title);
    EightWritings(c, texts);
  }

  lemma OfferedTexts(inputs: seq<Input>, title: string)
    requires Offered(inputs, title) && |inputs| >= 8
    ensures title in inputs[7].cards && TextsFor(inputs, title)[7] == inputs[7].cards[title]
    ensures forall t | t in TextsFor(inputs, title) :: IsSuccess(t)
  {
    var texts := TextsFor(inputs, title);
    forall t | t in texts ensures IsSuccess(t) {
      var i :| 0 <= i < |texts| && texts[i] == t;
      assert inputs[i] in inputs;
    }
    assert inputs[7] in inputs;
  }

  // ------------------------------------------------------------------- end to end

  /** Print, let any number of passes write card texts, read back: the materials the report promised,
      in its order, under the same perimeters, titles and links. */
  lemma PrintedReportSurvives(r: ReportPrinter.Report, inputs: seq<Input>, clean: string -> string)
    requires ReportPrinter.GoodReport(r) && GoodInputs(inputs)
    requires NoLine(r.opening, IMPORTANT) && NoLine(Flat(ReportPrinter.Layout(r)), CONTROL)
    ensures Identities(ParseFrom(Passes(Flat(ReportPrinter.Layout(r)), inputs), None, clean))
         == Identities(ReportPrinter.AllPromised(r, clean))
  {
    PrintedIsEditable(r, clean);
    PassesKeepMaterials(ReportPrinter.Layout(r), inputs, clean);
    ReportPrinter.RoundTrip(r, clean);
  }

  lemma PrintedIsEditable(r: ReportPrinter.Report, clean: string -> string)
    requires ReportPrinter.GoodReport(r)
    requires NoLine(r.opening, IMPORTANT) && NoLine(Flat(ReportPrinter.Layout(r)), CONTROL)
    ensures Editable(ReportPrinter.Layout(r))
  {
    var doc := ReportPrinter.Layout(r);
    ReportPrinter.LayoutShape(r, clean);
    assert doc[0] == Text(r.opening) && doc[1] == Text(ReportPrinter.Important(r));
    assert Flat(doc) == r.opening + Flat(doc[1..]);
    forall l | l in Flat(doc[1..]) ensures Strip(l) != CONTROL {
      assert l in Flat(doc);
    }
  }
}
