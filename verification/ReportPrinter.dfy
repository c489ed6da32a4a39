/** Printing the daily report, and that parsing the print recovers its materials. */
module ReportPrinter {
  import opened Wrappers
  import opened Ordering
  import opened Splices
  import opened ReportText
  import opened ReportParser
  import opened ReportLayout

  datatype Group = FarGroup | MiddleGroup | NearGroup | OtherGroup

  /** `title` is already cleaned; `day` is the publication date, or that of the first sighting; a digest item
      is printed in the digest section only. */
  datatype Item = Item(
    title: string, url: string, group: Group, digest: bool, sources: int, day: int,
    found: string, summary: seq<Line>, takeaway: seq<Line>, alternatives: Option<string>)

  /** The parts of a report that carry no card, as the printer composes them. */
  datatype Report = Report(
    opening: seq<Line>, implications: seq<string>, digestIntro: seq<Line>, items: seq<Item>,
    farText: string, middleText: string, nearText: string, closing: seq<Line>)

  const UNTITLED := "Без названия"
  const DIGEST := "## Разбор AI Agents Directory"
  const NOTHING_FOUND := "За период материалов, " + "прошедших смысловой фильтр, не найдено."
  const FOUND_VIA := "Найдено через: "
  const MORE_LINKS := "- До" + "полнительные ссылки по тому же событию: "
  const MIN_SECTION := 10

  predicate HigherRank(a: Item, b: Item) {
    a.sources > b.sources || (a.sources == b.sources && a.day >= b.day)
  }

  predicate NewerDigest(a: Item, b: Item) {
    a.day > b.day || (a.day == b.day && LexLe(b.title, a.title))
  }
  predicate IsDigest(x: Item) { x.digest }

  function InGroup(g: Group): Item -> bool {
    (x: Item) => !x.digest && x.group == g
  }

  /** `top_items` with the limit the printer passes. */
  function SectionItems(items: seq<Item>, g: Group): seq<Item> {
    var all := Filter(items, InGroup(g));
    Take(Sort(all, HigherRank), if |all| > MIN_SECTION then |all| else MIN_SECTION)
  }

  function Shown(title: string): string {
    if title == "" then UNTITLED else title
  }

  function CardOf(x: Item): Card {
    Card(Shown(x.title), x.url, [FOUND_VIA + x.found, ""], [""] + x.summary + [""],
      [""] + x.takeaway + (if x.alternatives.Some? then [MORE_LINKS + x.alternatives.value] else []) + [""])
  }

  function DigestCardOf(x: Item): Card {
    Card(Shown(x.title), x.url, [""], [""] + x.summary + [""], [""] + x.takeaway + [""])
  }

  function Cards(xs: seq<Item>): seq<Segment> {
    seq(|xs|, i requires 0 <= i < |xs| => CardSegment(CardOf(xs[i])))
  }

  function DigestCards(xs: seq<Item>): seq<Segment> {
    seq(|xs|, i requires 0 <= i < |xs| => CardSegment(DigestCardOf(xs[i])))
  }

  function Bullets(xs: seq<string>): seq<Line> {
    seq(|xs|, i requires 0 <= i < |xs| => "- " + xs[i])
  }

  function SectionHead(title: string, text: string, empty: bool): seq<Line> {
    ["", H2 + title, "", text + ".", ""] + if empty then [NOTHING_FOUND] else []
  }

  function Section(r: Report, g: Group, title: string, text: string): seq<Segment> {
    var xs := SectionItems(r.items, g);
    [Text(SectionHead(title, text, xs == []))] + Cards(xs)
  }

  function DigestItems(items: seq<Item>): seq<Item> {
    Sort(Filter(items, IsDigest), NewerDigest)
  }

  function Important(r: Report): seq<Line> {
    [IMPORTANT, ""] + Bullets(r.implications) + ["", DIGEST, ""] + r.digestIntro
  }

  function Last(r: Report): seq<Segment> {
    [Text([""] + r.closing)]
  }

  function FromNear(r: Report): seq<Segment> {
    Section(r, NearGroup, NEAR_SECTION, r.nearText) + Last(r)
  }

  function FromMiddle(r: Report): seq<Segment> {
    Section(r, MiddleGroup, MIDDLE_SECTION, r.middleText) + FromNear(r)
  }

  function FromFar(r: Report): seq<Segment> {
    Section(r, FarGroup, FAR_SECTION, r.farText) + FromMiddle(r)
  }

  function FromDigest(r: Report): seq<Segment> {
    DigestCards(DigestItems(r.items)) + FromFar(r)
  }

  function Layout(r: Report): seq<Segment> {
    [Text(r.opening), Text(Important(r))] + FromDigest(r)
  }

  // ------------------------------------------------------------------ printing

  lemma {:induction false} FlatAppend(a: seq<Segment>, b: seq<Segment>)
    ensures Flat(a + b) == Flat(a) + Flat(b)
  {
    if a == [] {
      assert a + b == b;
    } else {
      assert (a + b)[0] == a[0] && (a + b)[1..] == a[1..] + b;
      FlatAppend(a[1..], b);
    }
  }

  lemma FlatOne(s: Segment)
    ensures Flat([s]) == s.Lines()
  {
    assert [s][1..] == [];
    assert Flat([s]) == s.Lines() + [];
  }

  lemma FlatSnoc(a: seq<Segment>, s: Segment)
    ensures Flat(a + [s]) == Flat(a) + s.Lines()
  {
    FlatAppend(a, [s]);
    FlatOne(s);
  }

  method TitleOf(x: Item) returns (title: string)
    ensures title == Shown(x.title)
  {
    title := x.title;
    if title == "" {
      title := UNTITLED;
    }
  }

  /** One card; an alternative-links line goes in before its last blank. */
  method PrintCard(x: Item) returns (card: seq<Line>)
    ensures card == CardOf(x).Lines()
  {
    var title := TitleOf(x);
    var top := [H3 + title, "", LINK + ": " + x.url, FOUND_VIA + x.found, "", SUMMARY + ":", ""];
    card := top + x.summary + ["", TAKEAWAY + ":", ""] + x.takeaway + [""];
    if x.alternatives.Some? {
      var upper := card[..|card| - 1];
      assert upper == top + x.summary + ["", TAKEAWAY + ":", ""] + x.takeaway;
      card := upper + [MORE_LINKS + x.alternatives.value] + card[|card| - 1..];
    }
  }

  /** One card of the digest, which says nothing of where it was found. */
  method PrintDigestCard(x: Item) returns (card: seq<Line>)
    ensures card == DigestCardOf(x).Lines()
  {
    var title := TitleOf(x);
    card := [H3 + title, "", LINK + ": " + x.url, "", SUMMARY + ":", ""] + x.summary;
    card := card + ["", TAKEAWAY + ":", ""] + x.takeaway + [""];
  }

  lemma OneMore(cs: seq<Segment>, i: nat, lines: seq<Line>)
    requires i < |cs|
    ensures lines + Flat(cs[..i]) + cs[i].Lines() == lines + Flat(cs[..i + 1])
  {
    FlatSnoc(cs[..i], cs[i]);
    assert cs[..i + 1] == cs[..i] + [cs[i]];
  }

  method PrintCards(lines: seq<Line>, items: seq<Item>, digest: bool) returns (out: seq<Line>)
    ensures out == lines + Flat(if digest then DigestCards(items) else Cards(items))
  {
    out := lines;
    ghost var cs := if digest then DigestCards(items) else Cards(items);
    for i := 0 to |items|
      invariant out == lines + Flat(cs[..i])
    {
      var card: seq<Line>;
      if digest {
        card := PrintDigestCard(items[i]);
      } else {
        card := PrintCard(items[i]);
      }
      OneMore(cs, i, lines);
      out := out + card;
    }
    assert cs[..|items|] == cs;
  }

  method PrintSection(lines: seq<Line>, items: seq<Item>, title: string, text: string) returns (out: seq<Line>)
    ensures out == lines + Flat([Text(SectionHead(title, text, items == []))] + Cards(items))
  {
    var head := Text(SectionHead(title, text, items == []));
    FlatOne(head);
    FlatAppend([head], Cards(items));
    out := PrintCards(lines + head.lines, items, false);
  }

  lemma FlatSections(r: Report)
    ensures Flat(FromFar(r)) ==
      Flat(Section(r, FarGroup, FAR_SECTION, r.farText))
      + (Flat(Section(r, MiddleGroup, MIDDLE_SECTION, r.middleText))
         + (Flat(Section(r, NearGroup, NEAR_SECTION, r.nearText)) + ([""] + r.closing)))
  {
    FlatOne(Text([""] + r.closing));
    FlatAppend(Section(r, NearGroup, NEAR_SECTION, r.nearText), Last(r));
    FlatAppend(Section(r, MiddleGroup, MIDDLE_SECTION, r.middleText), FromNear(r));
    FlatAppend(Section(r, FarGroup, FAR_SECTION, r.farText), FromMiddle(r));
  }

  lemma FlatLayout(r: Report)
    ensures Flat(Layout(r)) ==
      r.opening + Important(r) + (Flat(DigestCards(DigestItems(r.items))) + Flat(FromFar(r)))
  {
    FlatAppend(DigestCards(DigestItems(r.items)), FromFar(r));
    FlatOne(Text(r.opening));
    FlatSnoc([Text(r.opening)], Text(Important(r)));
    assert [Text(r.opening)] + [Text(Important(r))] == [Text(r.opening), Text(Important(r))];
    FlatAppend([Text(r.opening), Text(Important(r))], FromDigest(r));
  }

  lemma Reassociate<T>(a: seq<T>, b: seq<T>, c: seq<T>, d: seq<T>, e: seq<T>, f: seq<T>)
    ensures a + b + c + d + e + f == a + (b + (c + (d + (e + f))))
  {
    assert d + e + f == d + (e + f);
    assert a + b + c + (d + e + f) == a + b + c + d + e + f;
    assert a + b + (c + (d + (e + f))) == a + (b + (c + (d + (e + f))));
  }

  method RenderMarkdown(r: Report) returns (lines: seq<Line>)
    ensures lines == Flat(Layout(r))
  {
    lines := r.opening + Important(r);
    lines := PrintCards(lines, DigestItems(r.items), true);
    lines := PrintSection(lines, SectionItems(r.items, FarGroup), FAR_SECTION, r.farText);
    lines := PrintSection(lines, SectionItems(r.items, MiddleGroup), MIDDLE_SECTION, r.middleText);
    lines := PrintSection(lines, SectionItems(r.items, NearGroup), NEAR_SECTION, r.nearText);
    lines := lines + ([""] + r.closing);
    PrintedInOrder(r);
  }

  lemma PrintedInOrder(r: Report)
    ensures Flat(Layout(r)) ==
      r.opening + Important(r) + Flat(DigestCards(DigestItems(r.items)))
      + Flat(Section(r, FarGroup, FAR_SECTION, r.farText))
      + Flat(Section(r, MiddleGroup, MIDDLE_SECTION, r.middleText))
      + Flat(Section(r, NearGroup, NEAR_SECTION, r.nearText)) + ([""] + r.closing)
  {
    FlatLayout(r);
    FlatSections(r);
    Reassociate(r.opening + Important(r), Flat(DigestCards(DigestItems(r.items))),
      Flat(Section(r, FarGroup, FAR_SECTION, r.farText)),
      Flat(Section(r, MiddleGroup, MIDDLE_SECTION, r.middleText)),
      Flat(Section(r, NearGroup, NEAR_SECTION, r.nearText)), [""] + r.closing);
  }

  // ---------------------------------------------------------------- round trip

  /** Clean titles, usable URLs, body text that does not read as a heading or a label. */
  predicate GoodItem(x: Item) {
    Trimmed(x.title) && SpaceFree(x.url) && BodyText(x.summary) && BodyText(x.takeaway)
  }

  predicate GoodHead(title: string, text: string) {
    Trimmed(title) && title[0] != '#' && Trimmed(text) && text[0] != '#'
  }

  /** Card texts as the printer's callers supply them; the fixed parts never look like a card heading,
      and the closing part opens with its own section heading. */
  predicate GoodReport(r: Report) {
    && (forall x | x in r.items :: GoodItem(x))
    && NoCardHeading(r.opening) && NoCardHeading(r.closing)
    && r.closing != [] && Heading(r.closing[0])
    && (forall l | l in r.digestIntro :: Prose(l))
    && GoodHead(FAR_SECTION, r.farText) && GoodHead(MIDDLE_SECTION, r.middleText) && GoodHead(NEAR_SECTION, r.nearText)
  }

  /** What the report promises: every item of a perimeter in its printing order. */
  function Promised(p: Perimeter, xs: seq<Item>, clean: string -> string): seq<Parsed> {
    seq(|xs|, i requires 0 <= i < |xs| => Meaning(p, CardOf(xs[i]), clean))
  }

  lemma MaterialsAppend(a: seq<Segment>, b: seq<Segment>, section: Option<Perimeter>, clean: string -> string)
    ensures Materials(a + b, section, clean)
         == Materials(a, section, clean) + Materials(b, SectionThrough(a, section), clean)
    decreases |a|
  {
    if a == [] {
      assert a + b == b;
    } else {
      assert (a + b)[0] == a[0] && (a + b)[1..] == a[1..] + b;
      match a[0]
      case Text(lines) => MaterialsAppend(a[1..], b, SectionAfter(lines, section), clean);
      case CardSegment(_) => MaterialsAppend(a[1..], b, section, clean);
    }
  }

  function SectionThrough(doc: seq<Segment>, section: Option<Perimeter>): Option<Perimeter> {
    if doc == [] then section
    else SectionThrough(doc[1..], if doc[0].Text? then SectionAfter(doc[0].lines, section) else section)
  }

  lemma CardsTail(xs: seq<Item>)
    requires xs != []
    ensures Cards(xs) != [] && Cards(xs)[0] == CardSegment(CardOf(xs[0])) && Cards(xs)[1..] == Cards(xs[1..])
  {
  }

  lemma PromisedTail(p: Perimeter, xs: seq<Item>, clean: string -> string)
    requires xs != []
    ensures Promised(p, xs, clean) == [Meaning(p, CardOf(xs[0]), clean)] + Promised(p, xs[1..], clean)
  {
  }

  lemma {:induction false} CardsMean(xs: seq<Item>, section: Option<Perimeter>, clean: string -> string)
    ensures SectionThrough(Cards(xs), section) == section
    ensures Materials(Cards(xs), section, clean) ==
      if section.Some? then Promised(section.value, xs, clean) else []
  {
    if xs != [] {
      CardsTail(xs);
      CardsMean(xs[1..], section, clean);
      if section.Some? {
        PromisedTail(section.value, xs, clean);
      }
    }
  }

  lemma {:induction false} DigestCardsMeanNothing(xs: seq<Item>, section: Option<Perimeter>, clean: string -> string)
    requires section.None?
    ensures SectionThrough(DigestCards(xs), section) == section
    ensures Materials(DigestCards(xs), section, clean) == []
  {
    if xs != [] {
      assert DigestCards(xs)[1..] == DigestCards(xs[1..]);
      DigestCardsMeanNothing(xs[1..], section, clean);
    }
  }

  predicate GoodCards(cs: seq<Segment>) {
    forall s | s in cs :: s.CardSegment? && GoodCard(s.card)
  }

  lemma {:induction false} CardsBefore(cs: seq<Segment>, rest: seq<Segment>)
    requires GoodCards(cs) && GoodDoc(rest) && Follows(rest)
    ensures GoodDoc(cs + rest) && Follows(cs + rest)
  {
    if cs == [] {
      assert cs + rest == rest;
    } else {
      assert cs[0] in cs;
      assert (cs + rest)[0] == cs[0] && (cs + rest)[1..] == cs[1..] + rest;
      CardsBefore(cs[1..], rest);
    }
  }

  lemma PlainStart(line: Line)
    requires line != [] && !Space(line[0]) && line[0] != '#'
    ensures Prose(line) && NoCardHeading([line]) && !(H2 <= Strip(line))
  {
    KeepsFirst(line);
    assert H2[0] == '#' && H3[0] == '#';
  }

  /** A line whose text (after an optional dash) differs from each label in one of the first two letters. */
  lemma {:induction false} TwoLetters(line: Line, u: string, names: seq<string>)
    requires |u| >= 2 && !Space(u[0]) && u[0] != '-' && (line == u || line == "- " + u)
    requires forall n | n in names :: |n| >= 2 && (n[0] != u[0] || n[1] != u[1])
    ensures AfterAny(line, names).None?
  {
    if names != [] {
      var n := names[0];
      assert n in names;
      if line == "- " + u {
        assert line[0] == '-' && line[1..] == " " + u;
        assert (" " + u)[1..] == u;
      }
      assert (n + ":")[0] == n[0] && (n + ":")[1] == n[1];
      TwoLetters(line, u, names[1..]);
    }
  }

  predicate LettersFree(names: seq<string>) {
    forall n | n in names :: |n| >= 2 && n[0] != 'Н' && (n[0] != 'Д' || n[1] != 'о')
  }

  /** No label opens with the letter of the line that names the discovery sources, nor with the two
      letters of the line of additional links. */
  lemma StopLetters()
    ensures LettersFree(STOP_LABELS)
  {
    var s := STOP_LABELS;
    assert s[0][1] == 'а' && s[1][0] == 'С' && s[2][0] == 'И' && s[3][0] == 'Ч';
    assert s[4][0] == 'О' && s[5][0] == 'С' && s[6][0] == 'В' && s[7][0] == 'А';
  }

  lemma OwnLetter(line: Line, u: string, names: seq<string>)
    requires |u| >= 2 && (u[0] == 'Н' || (u[0] == 'Д' && u[1] == 'о')) && (line == u || line == "- " + u)
    requires LettersFree(names)
    ensures AfterAny(line, names).None?
  {
    TwoLetters(line, u, names);
  }

  lemma FoundLine(found: string, names: seq<string>)
    requires LettersFree(names)
    ensures Prose(FOUND_VIA + found) && AfterAny(FOUND_VIA + found, names).None?
  {
    var line := FOUND_VIA + found;
    assert line[0] == FOUND_VIA[0] == 'Н';
    OwnLetter(line, line, names);
    PlainStart(line);
  }

  lemma MoreLinksStart()
    ensures |MORE_LINKS| >= 4 && MORE_LINKS[..4] == "- До"
  {
    assert MORE_LINKS[..4] == "- До";
  }

  lemma MoreLinksLine(links: string, names: seq<string>)
    requires LettersFree(names)
    ensures Prose(MORE_LINKS + links) && AfterAny(MORE_LINKS + links, names).None?
  {
    MoreLinksStart();
    DashLine(MORE_LINKS + links, names);
  }

  lemma DashLine(line: Line, names: seq<string>)
    requires |line| >= 4 && line[..4] == "- До" && LettersFree(names)
    ensures Prose(line) && AfterAny(line, names).None?
  {
    var u := line[2..];
    assert line[0] == line[..4][0] && line[1] == line[..4][1] && u[0] == line[..4][2] && u[1] == line[..4][3];
    assert line == "- " + u;
    OwnLetter(line, u, names);
    PlainStart(line);
  }

  lemma PaddedBody(body: seq<Line>, more: seq<Line>)
    requires BodyText(body) && forall l | l in more :: Prose(l) && AfterAny(l, STOP_LABELS).None?
    ensures BodyText([""] + body + more + [""])
  {
    BlankIsProse("");
    BlankNoLabel("", STOP_LABELS);
    var padded := [""] + body + more + [""];
    var l :| l in body && !Blank(l);
    assert l in padded;
  }

  predicate FreeProse(lines: seq<Line>, names: seq<string>) {
    forall l | l in lines :: Prose(l) && AfterAny(l, names).None?
  }

  lemma BlankIsFree(names: seq<string>)
    ensures FreeProse([""], names)
  {
    BlankIsProse("");
    BlankNoLabel("", names);
  }

  lemma PairIsFree(line: Line, names: seq<string>)
    requires FreeProse([""], names) && Prose(line) && AfterAny(line, names).None?
    ensures FreeProse([line, ""], names)
  {
    assert "" in [""];
  }

  lemma ExtraIsFree(found: string, names: seq<string>)
    requires LettersFree(names)
    ensures FreeProse([FOUND_VIA + found, ""], names)
  {
    FoundLine(found, names);
    BlankIsFree(names);
    PairIsFree(FOUND_VIA + found, names);
  }

  lemma MoreIsFree(alternatives: Option<string>, names: seq<string>)
    requires LettersFree(names)
    ensures FreeProse(if alternatives.Some? then [MORE_LINKS + alternatives.value] else [], names)
  {
    if alternatives.Some? {
      MoreLinksLine(alternatives.value, names);
    }
  }

  lemma PlainBody(body: seq<Line>)
    requires BodyText(body)
    ensures BodyText([""] + body + [""])
  {
    PaddedBody(body, []);
    assert [""] + body + [] + [""] == [""] + body + [""];
  }

  lemma ItemCards(x: Item)
    requires GoodItem(x)
    ensures GoodCard(CardOf(x)) && GoodCard(DigestCardOf(x))
  {
    StopLetters();
    ExtraIsFree(x.found, STOP_LABELS);
    BlankIsFree(STOP_LABELS);
    MoreIsFree(x.alternatives, STOP_LABELS);
    PlainBody(x.summary);
    PlainBody(x.takeaway);
    PaddedBody(x.takeaway, if x.alternatives.Some? then [MORE_LINKS + x.alternatives.value] else []);
    ShownIsTitle(x.title);
    MakesCard(CardOf(x));
    MakesCard(DigestCardOf(x));
  }

  lemma ShownIsTitle(title: string)
    requires title != ""
    ensures Shown(title) == title
  {
  }

  lemma MakesCard(c: Card)
    requires Trimmed(c.title) && SpaceFree(c.url) && FreeProse(c.extra, STOP_LABELS)
    requires BodyText(c.summary) && BodyText(c.takeaway)
    ensures GoodCard(c)
  {
  }

  lemma TitleLine(title: string)
    requires Trimmed(title) && title[0] != '#'
    ensures Heading(H2 + title) && NoCardHeading([H2 + title])
    ensures Strip(H2 + title) == H2 + title && Strip((H2 + title)[|H2|..]) == title
  {
    var line := H2 + title;
    assert line[0] == '#' && line[2] == ' ' && H3[2] == '#';
    assert line[|line| - 1] == title[|title| - 1];
    TrimmedStrips(line);
    assert line[|H2|..] == title;
    TrimmedStrips(title);
  }

  lemma {:induction false} SectionAfterAppend(a: seq<Line>, b: seq<Line>, section: Option<Perimeter>)
    ensures SectionAfter(a + b, section) == SectionAfter(b, SectionAfter(a, section))
  {
    if a == [] {
      assert a + b == b;
    } else {
      assert (a + b)[0] == a[0] && (a + b)[1..] == a[1..] + b;
      var line := Strip(a[0]);
      SectionAfterAppend(a[1..], b, if H2 <= line then PerimeterOf(Strip(line[|H2|..])) else section);
    }
  }

  lemma SectionOfTitle(title: string, section: Option<Perimeter>)
    requires Trimmed(title) && title[0] != '#'
    ensures SectionAfter([H2 + title], section) == PerimeterOf(title)
  {
    TitleLine(title);
    assert [H2 + title][1..] == [];
  }

  lemma NothingFoundIsProse()
    ensures Prose(NOTHING_FOUND)
  {
    assert NOTHING_FOUND[0] == 'З';
    PlainStart(NOTHING_FOUND);
  }

  function HeadTail(text: string, empty: bool): seq<Line> {
    ["", text + ".", ""] + if empty then [NOTHING_FOUND] else []
  }

  lemma HeadTailProse(text: string, empty: bool)
    requires Trimmed(text) && text[0] != '#'
    ensures forall l | l in HeadTail(text, empty) :: Prose(l)
  {
    BlankIsProse("");
    NothingFoundIsProse();
    assert (text + ".")[0] == text[0];
    PlainStart(text + ".");
  }

  lemma HeadSplits(title: string, text: string, empty: bool)
    ensures SectionHead(title, text, empty) == [""] + ([H2 + title] + HeadTail(text, empty))
  {
  }

  /** A section head is text, switches to its section, and may follow a card. */
  lemma HeadShape(title: string, text: string, empty: bool, section: Option<Perimeter>)
    requires GoodHead(title, text)
    ensures var lines := SectionHead(title, text, empty);
      && NoCardHeading(lines) && Follows([Text(lines)])
      && SectionAfter(lines, section) == PerimeterOf(title)
  {
    var tail := HeadTail(text, empty);
    var rest := [H2 + title] + tail;
    HeadSplits(title, text, empty);
    HeadTailProse(text, empty);
    BlankIsProse("");
    TitleLine(title);
    ProseKeepsSection(tail, PerimeterOf(title));
    ProseKeepsSection([""], section);
    SectionOfTitle(title, section);
    SectionAfterAppend([""], rest, section);
    SectionAfterAppend([H2 + title], tail, section);
    BlockAppend([""], rest);
    assert rest[0] == H2 + title;
  }

  lemma FollowsText(lines: seq<Line>, rest: seq<Segment>)
    requires Follows([Text(lines)]) && NoCardHeading(lines) && GoodDoc(rest)
    ensures GoodDoc([Text(lines)] + rest) && Follows([Text(lines)] + rest)
  {
    assert ([Text(lines)] + rest)[1..] == rest;
    assert [Text(lines)][0] == Text(lines);
  }

  lemma SectionMembers(items: seq<Item>, g: Group)
    ensures multiset(SectionItems(items, g)) == multiset(Filter(items, InGroup(g)))
    ensures forall x | x in SectionItems(items, g) :: x in items && !x.digest && x.group == g
  {
    FilterMembers(items, InGroup(g));
    SortPermutes(Filter(items, InGroup(g)), HigherRank);
  }

  /** More sources first, then the newer. */
  lemma SectionRanked(items: seq<Item>, g: Group, i: nat, j: nat)
    requires i < j < |SectionItems(items, g)|
    ensures var a, b := SectionItems(items, g)[i], SectionItems(items, g)[j];
      a.sources >= b.sources && (a.sources == b.sources ==> a.day >= b.day)
  {
    SortPermutes(Filter(items, InGroup(g)), HigherRank);
    SortSorts(Filter(items, InGroup(g)), HigherRank);
    assert HigherRank(SectionItems(items, g)[i], SectionItems(items, g)[j]);
  }

  /** In the digest the newer first, and on one day by descending title. */
  lemma DigestRanked(items: seq<Item>, i: nat, j: nat)
    requires i < j < |DigestItems(items)|
    ensures var a, b := DigestItems(items)[i], DigestItems(items)[j];
      a.day >= b.day && (a.day == b.day ==> LexLe(b.title, a.title))
  {
    NewerDigestTotal();
    SortSorts(Filter(items, IsDigest), NewerDigest);
    assert NewerDigest(DigestItems(items)[i], DigestItems(items)[j]);
  }

  lemma NewerDigestTotal()
    ensures TotalPreorder(NewerDigest)
  {
    forall a, b ensures NewerDigest(a, b) || NewerDigest(b, a) {
      LexTotal(a.title, b.title);
    }
    forall a, b, c | NewerDigest(a, b) && NewerDigest(b, c) ensures NewerDigest(a, c) {
      if a.day == b.day == c.day {
        LexTransitive(c.title, b.title, a.title);
      }
    }
  }

  /** The digest section shows every digest item exactly once. */
  lemma DigestMembers(items: seq<Item>)
    ensures multiset(DigestItems(items)) == multiset(Filter(items, IsDigest))
  {
    SortPermutes(Filter(items, IsDigest), NewerDigest);
  }

  lemma ItemSegments(xs: seq<Item>)
    requires forall x | x in xs :: GoodItem(x)
    ensures GoodCards(Cards(xs)) && GoodCards(DigestCards(xs))
  {
    forall i | 0 <= i < |xs| ensures GoodCard(CardOf(xs[i])) && GoodCard(DigestCardOf(xs[i])) {
      assert xs[i] in xs;
      ItemCards(xs[i]);
    }
  }

  /** One section in front of a well-formed rest: well-formed, and its items are what it promises. */
  lemma SectionShape(
    r: Report, g: Group, title: string, text: string, rest: seq<Segment>, section: Option<Perimeter>,
    clean: string -> string)
    requires (forall x | x in r.items :: GoodItem(x)) && GoodHead(title, text) && PerimeterOf(title).Some?
    requires GoodDoc(rest) && Follows(rest)
    ensures var doc := Section(r, g, title, text) + rest;
      && GoodDoc(doc) && Follows(doc)
      && Materials(doc, section, clean) ==
         Promised(PerimeterOf(title).value, SectionItems(r.items, g), clean)
         + Materials(rest, PerimeterOf(title), clean)
  {
    var xs := SectionItems(r.items, g);
    var head := SectionHead(title, text, xs == []);
    SectionSegments(r.items, g);
    CardsBefore(Cards(xs), rest);
    HeadedSection(head, xs, title, text, rest, section, clean);
    Join3([Text(head)], Cards(xs), rest);
  }

  lemma SectionSegments(items: seq<Item>, g: Group)
    requires forall x | x in items :: GoodItem(x)
    ensures GoodCards(Cards(SectionItems(items, g)))
  {
    SectionMembers(items, g);
    ItemSegments(SectionItems(items, g));
  }

  lemma HeadedSection(
    head: seq<Line>, xs: seq<Item>, title: string, text: string, rest: seq<Segment>, section: Option<Perimeter>,
    clean: string -> string)
    requires GoodHead(title, text) && PerimeterOf(title).Some? && head == SectionHead(title, text, xs == [])
    requires GoodDoc(Cards(xs) + rest)
    ensures var doc := [Text(head)] + (Cards(xs) + rest);
      && GoodDoc(doc) && Follows(doc)
      && Materials(doc, section, clean) ==
         Promised(PerimeterOf(title).value, xs, clean) + Materials(rest, PerimeterOf(title), clean)
  {
    HeadShape(title, text, xs == [], section);
    FollowsText(head, Cards(xs) + rest);
    assert ([Text(head)] + (Cards(xs) + rest))[1..] == Cards(xs) + rest;
    MaterialsAppend(Cards(xs), rest, PerimeterOf(title), clean);
    CardsMean(xs, PerimeterOf(title), clean);
  }

  lemma LastShape(r: Report, section: Option<Perimeter>, clean: string -> string)
    requires GoodReport(r)
    ensures GoodDoc(Last(r)) && Follows(Last(r)) && Materials(Last(r), section, clean) == []
  {
    BlankIsProse("");
    BlockAppend([""], r.closing);
    assert ([""] + r.closing)[0] == "";
    assert NoCardHeading([""] + r.closing);
    assert Last(r)[1..] == [];
  }

  lemma PerimeterTitles()
    ensures PerimeterOf(FAR_SECTION) == Some(Far) && PerimeterOf(MIDDLE_SECTION) == Some(Mid)
    ensures PerimeterOf(NEAR_SECTION) == Some(Near) && PerimeterOf(DIGEST[|H2|..]).None?
  {
    assert FAR_SECTION[0] == 'Д' && MIDDLE_SECTION[0] == 'С' && NEAR_SECTION[0] == 'Б';
    assert DIGEST[|H2|..][0] == 'Р';
  }

  function AllPromised(r: Report, clean: string -> string): seq<Parsed> {
    Promised(Far, SectionItems(r.items, FarGroup), clean)
    + Promised(Mid, SectionItems(r.items, MiddleGroup), clean)
    + Promised(Near, SectionItems(r.items, NearGroup), clean)
  }

  lemma NearShape(r: Report, section: Option<Perimeter>, clean: string -> string)
    requires GoodReport(r)
    ensures GoodDoc(FromNear(r)) && Follows(FromNear(r))
    ensures Materials(FromNear(r), section, clean) == Promised(Near, SectionItems(r.items, NearGroup), clean)
  {
    PerimeterTitles();
    LastShape(r, Some(Near), clean);
    SectionShape(r, NearGroup, NEAR_SECTION, r.nearText, Last(r), section, clean);
  }

  lemma MiddleShape(r: Report, section: Option<Perimeter>, clean: string -> string)
    requires GoodReport(r)
    ensures GoodDoc(FromMiddle(r)) && Follows(FromMiddle(r))
    ensures Materials(FromMiddle(r), section, clean) ==
      Promised(Mid, SectionItems(r.items, MiddleGroup), clean) + Promised(Near, SectionItems(r.items, NearGroup), clean)
  {
    PerimeterTitles();
    NearShape(r, Some(Mid), clean);
    SectionShape(r, MiddleGroup, MIDDLE_SECTION, r.middleText, FromNear(r), section, clean);
  }

  lemma FarShape(r: Report, section: Option<Perimeter>, clean: string -> string)
    requires GoodReport(r)
    ensures GoodDoc(FromFar(r)) && Follows(FromFar(r))
    ensures Materials(FromFar(r), section, clean) == AllPromised(r, clean)
  {
    PerimeterTitles();
    MiddleShape(r, Some(Far), clean);
    SectionShape(r, FarGroup, FAR_SECTION, r.farText, FromMiddle(r), section, clean);
  }

  lemma BulletsAreProse(xs: seq<string>)
    ensures forall l | l in Bullets(xs) :: Prose(l)
  {
    forall l | l in Bullets(xs) ensures Prose(l) {
      var i :| 0 <= i < |xs| && l == Bullets(xs)[i];
      assert l[0] == '-';
      PlainStart(l);
    }
  }

  lemma DigestLine()
    ensures Trimmed(DIGEST[|H2|..]) && DIGEST[|H2|..][0] != '#' && DIGEST == H2 + DIGEST[|H2|..]
  {
    var title := DIGEST[|H2|..];
    assert title[0] == 'Р' && title[|title| - 1] == 'y';
  }

  lemma UpperShape(implications: seq<string>)
    ensures NoCardHeading([IMPORTANT, ""] + Bullets(implications) + [""])
  {
    BulletsAreProse(implications);
    BlankIsProse("");
    ImportantLine();
  }

  lemma ImportantSplits(r: Report)
    ensures Important(r) ==
      [IMPORTANT, ""] + Bullets(r.implications) + [""] + ([H2 + DIGEST[|H2|..]] + ([""] + r.digestIntro))
  {
    DigestLine();
  }

  /** The lines before the digest cards end in the digest section, which is no perimeter. */
  lemma ImportantShape(r: Report, section: Option<Perimeter>)
    requires GoodReport(r)
    ensures NoCardHeading(Important(r)) && SectionAfter(Important(r), section) == None
  {
    BlankIsProse("");
    DigestLine();
    PerimeterTitles();
    UpperShape(r.implications);
    ImportantSplits(r);
    HeadedTail([IMPORTANT, ""] + Bullets(r.implications) + [""], DIGEST[|H2|..], [""] + r.digestIntro, section);
  }

  lemma HeadedTail(upper: seq<Line>, title: string, lower: seq<Line>, section: Option<Perimeter>)
    requires NoCardHeading(upper) && Trimmed(title) && title[0] != '#' && forall l | l in lower :: Prose(l)
    ensures NoCardHeading(upper + ([H2 + title] + lower))
    ensures SectionAfter(upper + ([H2 + title] + lower), section) == PerimeterOf(title)
  {
    TitleLine(title);
    SectionAfterAppend(upper, [H2 + title] + lower, section);
    SectionAfterAppend([H2 + title], lower, SectionAfter(upper, section));
    SectionOfTitle(title, SectionAfter(upper, section));
    ProseKeepsSection(lower, PerimeterOf(title));
  }

  lemma ImportantLine()
    ensures NoCardHeading([IMPORTANT])
  {
    var title := IMPORTANT[|H2|..];
    assert IMPORTANT == H2 + title && title[0] == 'Ч' && title[|title| - 1] == 'M';
    TitleLine(title);
  }

  lemma DigestShape(r: Report, clean: string -> string)
    requires GoodReport(r)
    ensures GoodDoc(FromDigest(r)) && Materials(FromDigest(r), None, clean) == AllPromised(r, clean)
  {
    var xs := DigestItems(r.items);
    FilterMembers(r.items, IsDigest);
    SortPermutes(Filter(r.items, IsDigest), NewerDigest);
    FarShape(r, None, clean);
    ItemSegments(xs);
    CardsBefore(DigestCards(xs), FromFar(r));
    DigestCardsMeanNothing(xs, None, clean);
    MaterialsAppend(DigestCards(xs), FromFar(r), None, clean);
  }

  lemma TextFirst(lines: seq<Line>, rest: seq<Segment>, section: Option<Perimeter>, clean: string -> string)
    requires NoCardHeading(lines) && GoodDoc(rest)
    ensures GoodDoc([Text(lines)] + rest)
    ensures Materials([Text(lines)] + rest, section, clean) == Materials(rest, SectionAfter(lines, section), clean)
  {
    assert ([Text(lines)] + rest)[0] == Text(lines) && ([Text(lines)] + rest)[1..] == rest;
  }

  lemma LayoutShape(r: Report, clean: string -> string)
    requires GoodReport(r)
    ensures GoodDoc(Layout(r)) && Materials(Layout(r), None, clean) == AllPromised(r, clean)
  {
    var important, rest := Important(r), FromDigest(r);
    DigestShape(r, clean);
    ImportantShape(r, SectionAfter(r.opening, None));
    TextFirst(important, rest, SectionAfter(r.opening, None), clean);
    TextFirst(r.opening, [Text(important)] + rest, None, clean);
    LayoutSplits(r);
  }

  lemma LayoutSplits(r: Report)
    ensures Layout(r) == [Text(r.opening)] + ([Text(Important(r))] + FromDigest(r))
  {
  }

  /** Printing and reading back: every non-digest item of a perimeter comes back exactly once, in
      section order and ranking order, with its own perimeter, title, URL and texts; digest items and
      the rest of the report contribute nothing. */
  lemma RoundTrip(r: Report, clean: string -> string)
    requires GoodReport(r)
    ensures ParseFrom(Flat(Layout(r)), None, clean) == AllPromised(r, clean)
    ensures multiset(SectionItems(r.items, FarGroup)) == multiset(Filter(r.items, InGroup(FarGroup)))
    ensures multiset(SectionItems(r.items, MiddleGroup)) == multiset(Filter(r.items, InGroup(MiddleGroup)))
    ensures multiset(SectionItems(r.items, NearGroup)) == multiset(Filter(r.items, InGroup(NearGroup)))
  {
    LayoutShape(r, clean);
    ParseFlat(Layout(r), None, clean);
    SectionMembers(r.items, FarGroup);
    SectionMembers(r.items, MiddleGroup);
    SectionMembers(r.items, NearGroup);
  }
}
