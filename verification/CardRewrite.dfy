/** What writing card texts does to a printed report as a whole: the same materials under the same
    titles and links, with the new texts in the cards the edit can reach.  First the two searches and
    the two replacements on one card that stands somewhere in the lines, then the turn of the scan on
    that card, then the whole scan by induction over the segments of the report. */
module CardRewrite {
  import opened Wrappers
  import opened Splices
  import opened ReportText
  import opened ReportParser
  import opened ReportLayout
  import opened ApplyCards

  // ------------------------------------------------------------- card by card

  function LeadingBlanks(lines: seq<Line>): seq<Line> {
    lines[..BlanksEnd(lines, 0)]
  }

  /** The line of additional links and what follows it, which the edit leaves alone. */
  function Links(lines: seq<Line>): seq<Line> {
    lines[TextEnd(lines, BlanksEnd(lines, 0))..]
  }

  /** Both labels lie within their search windows. */
  predicate Reachable(c: Card) {
    |c.extra| + 3 < WINDOW && |c.summary| + 1 < WINDOW
  }

  predicate Written(c: Card, cards: map<string, CardText>) {
    c.title in cards && Reachable(c) && IsSuccess(cards[c.title])
  }

  predicate LeftAsIs(c: Card, cards: map<string, CardText>) {
    c.title in cards && Reachable(c) && !IsSuccess(cards[c.title])
  }

  function Padded(before: seq<Line>, text: string): seq<Line> {
    LeadingBlanks(before) + ["", text, ""]
  }

  function Rewritten(c: Card, t: CardText): Card {
    c.(summary := Padded(c.summary, Strip(t.short)),
       takeaway := Padded(c.takeaway, Strip(t.angle)) + Links(c.takeaway))
  }

  function DropBlanks(doc: seq<Segment>): (r: seq<Segment>)
    ensures |r| == |doc|
  {
    if doc != [] && doc[0].Text? then [Text(AfterBlock(doc[0].lines))] + doc[1..] else doc
  }

  /** The report after the scan.  A written card also swallows the blank lines behind it. */
  function ApplyDoc(doc: seq<Segment>, cards: map<string, CardText>): seq<Segment>
    decreases |doc|
  {
    if doc == [] then []
    else if doc[0].Text? || !Written(doc[0].card, cards) then [doc[0]] + ApplyDoc(doc[1..], cards)
    else
      var c := doc[0].card;
      [CardSegment(Rewritten(c, cards[c.title]))]
      + ApplyDoc(if Links(c.takeaway) == [] then DropBlanks(doc[1..]) else doc[1..], cards)
  }

  function WrittenTitles(doc: seq<Segment>, cards: map<string, CardText>): set<string> {
    set s | s in doc && s.CardSegment? && Written(s.card, cards) :: s.card.title
  }

  function FallbackTitles(doc: seq<Segment>, cards: map<string, CardText>): set<string> {
    set s | s in doc && s.CardSegment? && LeftAsIs(s.card, cards) :: s.card.title
  }

  /** A text that reads neither as a heading nor as a field label. */
  predicate PlainText(text: string, names: seq<string>) {
    Prose(text) && AfterAny(text, names).None?
  }

  predicate GoodTexts(cards: map<string, CardText>) {
    forall t | t in cards && IsSuccess(cards[t]) ::
      PlainText(Strip(cards[t].short), STOP_LABELS) && PlainText(Strip(cards[t].angle), STOP_LABELS)
  }

  // ---------------------------------------------------------------- searching

  lemma FindAfter(lines: seq<Line>, name: string, lo: nat, hi: nat, skipped: seq<Line>, rest: seq<Line>)
    requires lo <= |lines| && lines[lo..] == skipped + rest && rest != [] && Strip(rest[0]) == name
    requires forall l | l in skipped :: Strip(l) != name
    ensures Find(lines, name, lo, hi) == if lo + |skipped| < hi then Some(lo + |skipped|) else None
  {
    var p := lo + |skipped|;
    assert lines[p] == lines[lo..][|skipped|] == rest[0];
    forall q | lo <= q < p ensures Strip(lines[q]) != name {
      assert lines[q] == lines[lo..][q - lo] == skipped[q - lo];
    }
  }

  predicate HasText(lines: seq<Line>) {
    exists l | l in lines :: !Blank(l)
  }

  lemma BlanksWithin(lines: seq<Line>, i: nat, body: seq<Line>, tail: seq<Line>)
    requires i <= |lines| && lines[i..] == body + tail && HasText(body)
    ensures BlanksEnd(lines, i) == i + BlanksEnd(body, 0) && BlanksEnd(body, 0) < |body|
  {
    var k := BlanksEnd(body, 0);
    var l :| l in body && !Blank(l);
    var j :| 0 <= j < |body| && body[j] == l;
    assert k < |body|;
    assert lines[i + k] == lines[i..][k] == body[k];
    forall q | i <= q < i + k ensures Blank(lines[q]) {
      assert lines[q] == lines[i..][q - i] == body[q - i];
    }
  }

  lemma TextEndShift(lines: seq<Line>, i: nat, whole: seq<Line>)
    requires i <= |lines| && lines[i..] == whole
    ensures TextEnd(lines, i) == i + TextEnd(whole, 0)
  {
    forall q | 0 <= q < |whole| ensures lines[i + q] == whole[q] {
      assert lines[i..][q] == whole[q];
    }
  }

  lemma TextEndJoin(body: seq<Line>, tail: seq<Line>)
    ensures TextEnd(body + tail, 0) ==
      if TextEnd(body, 0) < |body| then TextEnd(body, 0) else |body| + TextEnd(tail, 0)
  {
    var all, k := body + tail, TextEnd(body, 0);
    if k < |body| {
      assert all[k] == body[k];
      assert forall q | 0 <= q < k :: all[q] == body[q];
    } else {
      var m := TextEnd(tail, 0);
      assert forall q | 0 <= q < |body| :: all[q] == body[q] && !Ends(all[q]);
      assert forall q | 0 <= q < |tail| :: all[|body| + q] == tail[q];
    }
  }

  // ----------------------------------------------------------- rewriting a card

  /** What is left of the lines below the takeaway once its text is taken out. */
  function Beyond(take: seq<Line>, tail: seq<Line>): seq<Line> {
    var body := take[BlanksEnd(take, 0)..] + tail;
    body[TextEnd(body, 0)..]
  }

  lemma PutShortIs(lines: seq<Line>, s: nat, text: string, name: string, b: nat, e: nat)
    requires Ahead(lines, s, name) && text != name
    requires b == BlanksEnd(lines, s + 1) && e == FindOrEnd(lines, name, b)
    ensures b <= e < |lines| && PutShort(lines, s, text, name) == Place(Replaced(lines, b, e, text), b + 3)
  {
    LabelIsAhead(lines, s, b, e, name);
  }

  lemma ShortPlace(
    lines: seq<Line>, s: nat, summary: seq<Line>, below: seq<Line>, text: string, name: string, k: nat, b: nat, e: nat)
    requires k == BlanksEnd(summary, 0) && b == s + 1 + k && e == s + 1 + |summary|
    requires s < |lines| && lines[s + 1..] == summary + ([name] + below) && HasText(summary)
    requires name != "" && Strip(name) == name && Strip(text) == text && text != name
    requires forall l | l in summary :: Strip(l) != name
    ensures Ahead(lines, s, name)
    ensures b <= e < |lines| && PutShort(lines, s, text, name) == Place(Replaced(lines, b, e, text), b + 3)
  {
    BlanksWithin(lines, s + 1, summary, [name] + below);
    LabelPlace(lines, s + 1, k, summary, name, below);
    assert Ahead(lines, s, name);
    PutShortIs(lines, s, text, name, b, e);
  }

  lemma ShortPut(
    lines: seq<Line>, s: nat, summary: seq<Line>, below: seq<Line>, text: string, name: string, head: seq<Line>)
    requires s < |lines| && lines[s + 1..] == summary + ([name] + below) && HasText(summary)
    requires name != "" && Strip(name) == name && Strip(text) == text && text != name
    requires forall l | l in summary :: Strip(l) != name
    requires head == lines[..s + 1] + Padded(summary, text)
    ensures Ahead(lines, s, name)
    ensures PutShort(lines, s, text, name) == Place(head + ([name] + below), |head|)
  {
    var k := BlanksEnd(summary, 0);
    var b, e, rest := s + 1 + k, s + 1 + |summary|, [name] + below;
    ShortPlace(lines, s, summary, below, text, name, k, b, e);
    PaddedSize(summary, text, k);
    var at, mid := s + 1, ["", text, ""];
    SpliceBelow(lines, at, summary, rest, k, mid, head, b, e);
  }

  lemma PaddedSize(body: seq<Line>, text: string, k: nat)
    requires k == BlanksEnd(body, 0)
    ensures Padded(body, text) == body[..k] + ["", text, ""]
  {
  }

  lemma LabelPlace(lines: seq<Line>, at: nat, k: nat, body: seq<Line>, name: string, below: seq<Line>)
    requires at <= |lines| && lines[at..] == body + ([name] + below) && k <= |body| && Strip(name) == name
    requires forall l | l in body :: Strip(l) != name
    ensures at + |body| < |lines| && lines[at + |body|] == name
    ensures FindOrEnd(lines, name, at + k) == at + |body|
  {
    Below(lines, at, body, [name] + below, k);
    Suffix(lines, at, body, [name] + below);
    assert ([name] + below)[0] == name;
    FindAfter(lines, name, at + k, |lines|, body[k..], [name] + below);
  }

  lemma PutAngleIs(lines: seq<Line>, at: nat, text: string, b: nat, e: nat)
    requires at < |lines| && b == BlanksEnd(lines, at + 1) && e == TextEnd(lines, b)
    ensures PutAngle(lines, at, text) == Place(Replaced(lines, b, e, text), b + 3)
  {
  }

  lemma AnglePlace(
    lines: seq<Line>, at: nat, take: seq<Line>, tail: seq<Line>, text: string, k: nat, m: nat, b: nat, e: nat)
    requires 0 < at <= |lines| && lines[at..] == take + tail && HasText(take)
    requires k == BlanksEnd(take, 0) && m == TextEnd(take[k..] + tail, 0) && b == at + k && e == b + m
    ensures e <= |lines| && PutAngle(lines, at - 1, text) == Place(Replaced(lines, b, e, text), b + 3)
  {
    BlanksWithin(lines, at, take, tail);
    Below(lines, at, take, tail, k);
    TextEndShift(lines, b, take[k..] + tail);
    PutAngleIs(lines, at - 1, text, b, e);
  }

  lemma AnglePut(lines: seq<Line>, at: nat, take: seq<Line>, tail: seq<Line>, text: string, done: seq<Line>)
    requires 0 < at <= |lines| && lines[at..] == take + tail && HasText(take)
    requires done == lines[..at] + Padded(take, text)
    ensures PutAngle(lines, at - 1, text) == Place(done + Beyond(take, tail), |done|)
  {
    var k := BlanksEnd(take, 0);
    var m := TextEnd(take[k..] + tail, 0);
    var b := at + k;
    var e := b + m;
    AnglePlace(lines, at, take, tail, text, k, m, b, e);
    PaddedSize(take, text, k);
    SpliceAcross(lines, at, take, tail, k, m, ["", text, ""], done, b, e);
  }

  lemma RewriteIs(lines: seq<Line>, s: nat, t: CardText, name: string, p: Place)
    requires Ahead(lines, s, name) && p == PutShort(lines, s, Strip(t.short), name)
    ensures Rewrite(lines, s, t, name) == PutAngle(p.lines, p.at, Strip(t.angle))
  {
  }

  /** The two replacements on a card body that stands behind s, with anything behind it. */
  lemma RewriteShape(
    lines: seq<Line>, s: nat, summary: seq<Line>, take: seq<Line>, tail: seq<Line>, t: CardText, name: string,
    done: seq<Line>)
    requires s < |lines| && lines[s + 1..] == summary + ([name] + (take + tail)) && HasText(summary) && HasText(take)
    requires name != "" && Strip(name) == name && Strip(t.short) != name
    requires forall l | l in summary :: Strip(l) != name
    requires done == lines[..s + 1] + Padded(summary, Strip(t.short)) + [name] + Padded(take, Strip(t.angle))
    ensures Ahead(lines, s, name)
    ensures Rewrite(lines, s, t, name) == Place(done + Beyond(take, tail), |done|)
  {
    var head := lines[..s + 1] + Padded(summary, Strip(t.short));
    var p := Place(head + ([name] + (take + tail)), |head|);
    StripTrims(t.short);
    ShortPut(lines, s, summary, take + tail, Strip(t.short), name, head);
    RewriteIs(lines, s, t, name, p);
    AngleBelow(head, name, take, tail, Strip(t.angle));
  }

  lemma AngleBelow(head: seq<Line>, name: string, take: seq<Line>, tail: seq<Line>, text: string)
    requires HasText(take)
    ensures PutAngle(head + ([name] + (take + tail)), |head|, text)
         == Place(head + [name] + Padded(take, text) + Beyond(take, tail), |head + [name] + Padded(take, text)|)
  {
    var lines, at := head + ([name] + (take + tail)), |head| + 1;
    Join3(head, [name], take + tail);
    AtEnd(head + [name], take + tail);
    Join3(head, [name], Padded(take, text));
    AnglePut(lines, at, take, tail, text, head + [name] + Padded(take, text));
  }

  // -------------------------------------------------------------- finding labels

  /** Only a label line strips to the label itself. */
  lemma StripsToLabel(line: Line, name: string)
    requires name != "" && !Space(name[0]) && name[0] != '-' && Strip(line) == name + ":"
    ensures AfterLabel(line, name).Some?
  {
    assert (name + ":")[0] == name[0];
    assert Strip(line) <= LStrip(line);
  }

  lemma NoLabelLine(lines: seq<Line>, names: seq<string>, name: string)
    requires NoLabel(lines, names) && name in names && name != "" && !Space(name[0]) && name[0] != '-'
    ensures forall l | l in lines :: Strip(l) != name + ":"
  {
    forall l | l in lines ensures Strip(l) != name + ":" {
      NoneOfAny(l, names, name);
      if Strip(l) == name + ":" {
        StripsToLabel(l, name);
      }
    }
  }

  /** `sum` and `take` stand for the two label lines. */
  function Around(c: Card, sum: Line, take: Line): seq<Line> {
    [H3 + c.title] + Top(c) + [sum] + (c.summary + ([take] + c.takeaway))
  }

  lemma CardSplits(c: Card)
    ensures c.Lines() == Around(c, SUMMARY + ":", TAKEAWAY + ":")
  {
    assert [H3 + c.title] + Top(c) == [H3 + c.title] + (["", LINK + ": " + c.url] + c.extra);
  }

  lemma TopSize(c: Card)
    ensures |Top(c)| == |c.extra| + 2
  {
  }

  function UnderSummary(c: Card, take: Line, tail: seq<Line>): seq<Line> {
    c.summary + ([take] + (c.takeaway + tail))
  }

  lemma AroundSplits(c: Card, sum: Line, take: Line, tail: seq<Line>)
    ensures Around(c, sum, take) + tail == [H3 + c.title] + (Top(c) + ([sum] + UnderSummary(c, take, tail)))
  {
    Join3(c.summary, [take] + c.takeaway, tail);
    Join3([take], c.takeaway, tail);
    var below := c.summary + ([take] + c.takeaway);
    Assoc([H3 + c.title], Top(c), [sum], below, tail);
  }

  lemma Positions(lines: seq<Line>, i: nat, c: Card, tail: seq<Line>, sum: Line, take: Line, s: nat)
    requires i < |lines| && lines[i..] == Around(c, sum, take) + tail && s == i + 1 + |Top(c)|
    ensures s < |lines| && lines[s + 1..] == UnderSummary(c, take, tail)
    ensures lines[i + 1..] == Top(c) + ([sum] + UnderSummary(c, take, tail))
  {
    var top, below := Top(c), UnderSummary(c, take, tail);
    AroundSplits(c, sum, take, tail);
    Suffix(lines, i, [H3 + c.title], top + ([sum] + below));
    Suffix(lines, i + 1, top, [sum] + below);
    Suffix(lines, s, [sum], below);
  }

  lemma FindPast(lines: seq<Line>, name: string, lo: nat, hi: nat, skipped: seq<Line>, more: seq<Line>)
    requires lo <= |lines| && lines[lo..] == skipped + ([name] + more) && Strip(name) == name
    requires forall l | l in skipped :: Strip(l) != name
    ensures Find(lines, name, lo, hi) == if lo + |skipped| < hi then Some(lo + |skipped|) else None
  {
    FindAfter(lines, name, lo, hi, skipped, [name] + more);
  }

  lemma SummaryFound(lines: seq<Line>, i: nat, c: Card, tail: seq<Line>, sum: Line, take: Line, s: nat)
    requires i < |lines| && lines[i..] == Around(c, sum, take) + tail && s == i + 1 + |Top(c)|
    requires Strip(sum) == sum && forall l | l in Top(c) :: Strip(l) != sum
    ensures Find(lines, sum, i + 1, i + WINDOW) == if |c.extra| + 3 < WINDOW then Some(s) else None
  {
    TopSize(c);
    Positions(lines, i, c, tail, sum, take, s);
    FindPast(lines, sum, i + 1, i + WINDOW, Top(c), UnderSummary(c, take, tail));
  }

  lemma TakeawayFound(lines: seq<Line>, c: Card, tail: seq<Line>, take: Line, s: nat)
    requires s < |lines| && lines[s + 1..] == UnderSummary(c, take, tail)
    requires Strip(take) == take && forall l | l in c.summary :: Strip(l) != take
    ensures Find(lines, take, s + 1, s + WINDOW) == if |c.summary| + 1 < WINDOW then Some(s + 1 + |c.summary|) else None
  {
    FindPast(lines, take, s + 1, s + WINDOW, c.summary, c.takeaway + tail);
  }

  lemma LabelNames()
    ensures STOP_LABELS[5] == SUMMARY && STOP_LABELS[6] == TAKEAWAY
    ensures !Space(SUMMARY[0]) && SUMMARY[0] != '-' && !Space(TAKEAWAY[0]) && TAKEAWAY[0] != '-'
  {
  }

  lemma CardLabels(c: Card)
    requires GoodCard(c)
    ensures forall l | l in Top(c) :: Strip(l) != SUMMARY + ":"
    ensures forall l | l in c.summary :: Strip(l) != TAKEAWAY + ":"
  {
    LabelNames();
    TopHasNoFieldLabel(c);
    NoLabelLine(Top(c), SUMMARY_LABELS, SUMMARY);
    NoLabelLine(c.summary, STOP_LABELS, TAKEAWAY);
  }

  // ----------------------------------------------------------------- a card's turn

  function Front(c: Card, t: CardText, sum: Line, take: Line): seq<Line> {
    [H3 + c.title] + Top(c) + [sum] + Padded(c.summary, Strip(t.short)) + [take] + Padded(c.takeaway, Strip(t.angle))
  }

  lemma RewrittenSplits(c: Card, t: CardText)
    ensures Rewritten(c, t).Lines() == Front(c, t, SUMMARY + ":", TAKEAWAY + ":") + Links(c.takeaway)
  {
    var r := Rewritten(c, t);
    CardSplits(r);
    assert Top(r) == Top(c);
    Assoc([H3 + c.title] + Top(c) + [SUMMARY + ":"], r.summary, [TAKEAWAY + ":"],
      Padded(c.takeaway, Strip(t.angle)), Links(c.takeaway));
  }

  lemma UpperPart(lines: seq<Line>, i: nat, c: Card, sum: Line, take: Line, tail: seq<Line>, upper: seq<Line>)
    requires i <= |lines| && lines[i..] == Around(c, sum, take) + tail
    requires upper == [H3 + c.title] + Top(c) + [sum]
    ensures i + |upper| <= |lines| && lines[..i + |upper|] == lines[..i] + upper
    ensures lines[i + |upper|..] == UnderSummary(c, take, tail)
  {
    Join3(c.summary, [take] + c.takeaway, tail);
    Join3([take], c.takeaway, tail);
    Join3(upper, c.summary + ([take] + c.takeaway), tail);
    Suffix(lines, i, upper, UnderSummary(c, take, tail));
  }

  /** Writing a card that stands at i. */
  lemma WrittenTurn(
    lines: seq<Line>, i: nat, c: Card, tail: seq<Line>, t: CardText, sum: Line, take: Line, upper: seq<Line>, s: nat,
    front: seq<Line>)
    requires i < |lines| && lines[i..] == Around(c, sum, take) + tail
    requires upper == [H3 + c.title] + Top(c) + [sum] && s + 1 == i + |upper|
    requires HasText(c.summary) && HasText(c.takeaway)
    requires take != "" && Strip(take) == take && Strip(t.short) != take
    requires forall l | l in c.summary :: Strip(l) != take
    requires front == Front(c, t, sum, take)
    ensures s < |lines| && Ahead(lines, s, take)
    ensures Rewrite(lines, s, t, take) == Place(lines[..i] + front + Beyond(c.takeaway, tail), i + |front|)
  {
    UpperPart(lines, i, c, sum, take, tail, upper);
    var summary, angle := Padded(c.summary, Strip(t.short)), Padded(c.takeaway, Strip(t.angle));
    Assoc(lines[..i], upper, summary, [take], angle);
    RewriteShape(lines, s, c.summary, c.takeaway, tail, t, take, lines[..i] + front);
  }

  lemma TitleAt(lines: seq<Line>, i: nat, c: Card, tail: seq<Line>)
    requires i < |lines| && lines[i..] == c.Lines() + tail && Trimmed(c.title)
    ensures H3 <= lines[i] && Strip(lines[i][|H3|..]) == c.title
  {
    assert lines[i] == lines[i..][0] == H3 + c.title;
    assert (H3 + c.title)[|H3|..] == c.title;
    TrimmedStrips(c.title);
  }

  /** What the two searches find, and where, on a card that stands at i. */
  lemma Windows(lines: seq<Line>, i: nat, c: Card, tail: seq<Line>, s: nat)
    requires GoodCard(c) && i < |lines| && lines[i..] == c.Lines() + tail && s == i + 3 + |c.extra|
    ensures SummaryAt(lines, i) == if |c.extra| + 3 < WINDOW then Some(s) else None
    ensures TakeawayAt(lines, s).Some? <==> |c.summary| + 1 < WINDOW
  {
    CardSplits(c);
    CardLabels(c);
    LabelLines();
    TopSize(c);
    Positions(lines, i, c, tail, SUMMARY + ":", TAKEAWAY + ":", s);
    SummaryFound(lines, i, c, tail, SUMMARY + ":", TAKEAWAY + ":", s);
    TakeawayFound(lines, c, tail, TAKEAWAY + ":", s);
  }

  lemma NotTheLabel(text: string)
    requires PlainText(Strip(text), STOP_LABELS)
    ensures Strip(text) != TAKEAWAY + ":"
  {
    LabelNames();
    StripTrims(text);
    var only := [Strip(text)];
    assert NoLabel(only, STOP_LABELS);
    NoLabelLine(only, STOP_LABELS, TAKEAWAY);
    assert Strip(text) in only;
  }

  lemma WindowTurn(
    lines: seq<Line>, i: nat, title: string, cards: map<string, CardText>, s: nat, near: bool, found: bool)
    requires i < |lines| && H3 <= lines[i] && Strip(lines[i][|H3|..]) == title
    requires SummaryAt(lines, i) == (if near then Some(s) else None) && TakeawayAt(lines, s).Some? == found
    ensures !near || !found || title !in cards ==> TurnAt(lines, i, cards) == Turn(lines, i + 1, Passed)
    ensures near && found && title in cards && !IsSuccess(cards[title]) ==>
      TurnAt(lines, i, cards) == Turn(lines, i + 1, Fallback(title))
    ensures near && found && title in cards && IsSuccess(cards[title]) ==>
      && Ahead(lines, s, TAKEAWAY + ":")
      && var p := Rewrite(lines, s, cards[title], TAKEAWAY + ":");
         TurnAt(lines, i, cards) == Turn(p.lines, p.at, Done(title))
  {
  }

  function CardFront(c: Card, t: CardText): seq<Line> {
    Front(c, t, SUMMARY + ":", TAKEAWAY + ":")
  }

  /** What the scan does on a card: write it, note it, or pass over it. */
  lemma CardTurn(lines: seq<Line>, i: nat, c: Card, tail: seq<Line>, cards: map<string, CardText>)
    requires GoodCard(c) && GoodTexts(cards) && i < |lines| && lines[i..] == c.Lines() + tail
    ensures !Written(c, cards) ==>
      TurnAt(lines, i, cards) == Turn(lines, i + 1, if LeftAsIs(c, cards) then Fallback(c.title) else Passed)
    ensures Written(c, cards) ==>
      var front := CardFront(c, cards[c.title]);
      TurnAt(lines, i, cards) == Turn(lines[..i] + front + Beyond(c.takeaway, tail), i + |front|, Done(c.title))
  {
    var s := i + 3 + |c.extra|;
    TitleAt(lines, i, c, tail);
    Windows(lines, i, c, tail, s);
    WindowTurn(lines, i, c.title, cards, s, |c.extra| + 3 < WINDOW, |c.summary| + 1 < WINDOW);
    if Written(c, cards) {
      WrittenCard(lines, i, c, tail, cards[c.title], s);
    }
  }

  lemma UpperSize(c: Card, sum: Line, upper: seq<Line>)
    requires upper == [H3 + c.title] + Top(c) + [sum]
    ensures |upper| == |c.extra| + 4
  {
  }

  lemma WrittenBetween(
    lines: seq<Line>, i: nat, c: Card, tail: seq<Line>, t: CardText, sum: Line, take: Line, s: nat, front: seq<Line>)
    requires i < |lines| && lines[i..] == Around(c, sum, take) + tail && s == i + 3 + |c.extra|
    requires HasText(c.summary) && HasText(c.takeaway)
    requires take != "" && Strip(take) == take && Strip(t.short) != take
    requires forall l | l in c.summary :: Strip(l) != take
    requires front == Front(c, t, sum, take)
    ensures s < |lines| && Ahead(lines, s, take)
    ensures Rewrite(lines, s, t, take) == Place(lines[..i] + front + Beyond(c.takeaway, tail), i + |front|)
  {
    var upper := [H3 + c.title] + Top(c) + [sum];
    UpperSize(c, sum, upper);
    WrittenTurn(lines, i, c, tail, t, sum, take, upper, s, front);
  }

  lemma CardHasText(c: Card)
    requires GoodCard(c)
    ensures HasText(c.summary) && HasText(c.takeaway)
  {
  }

  lemma WrittenCard(lines: seq<Line>, i: nat, c: Card, tail: seq<Line>, t: CardText, s: nat)
    requires GoodCard(c) && i < |lines| && lines[i..] == c.Lines() + tail && s == i + 3 + |c.extra|
    requires PlainText(Strip(t.short), STOP_LABELS)
    ensures s < |lines| && Ahead(lines, s, TAKEAWAY + ":")
    ensures Rewrite(lines, s, t, TAKEAWAY + ":")
         == Place(lines[..i] + CardFront(c, t) + Beyond(c.takeaway, tail), i + |CardFront(c, t)|)
  {
    CardSplits(c);
    CardHasText(c);
    CardLabels(c);
    LabelLines();
    NotTheLabel(t.short);
    WrittenBetween(lines, i, c, tail, t, SUMMARY + ":", TAKEAWAY + ":", s, CardFront(c, t));
  }

  // ------------------------------------------------------------- the whole report

  predicate ScanGives(lines: seq<Line>, i: nat, cards: map<string, CardText>, e: Edit) {
    i <= |lines| && e == ApplyAt(lines, i, cards)
  }

  lemma ScanStep(lines: seq<Line>, i: nat, cards: map<string, CardText>, t: Turn, e: Edit)
    requires i < |lines| && t == TurnAt(lines, i, cards) && ScanGives(t.lines, t.index, cards, e)
    ensures ScanGives(lines, i, cards, e.Noting(t.mark))
  {
  }

  lemma ScanPasses(lines: seq<Line>, i: nat, cards: map<string, CardText>, e: Edit)
    requires i < |lines| && !(H3 <= lines[i]) && ScanGives(lines, i + 1, cards, e)
    ensures ScanGives(lines, i, cards, e)
  {
  }

  predicate Headless(lines: seq<Line>, i: nat, n: nat)
    requires i <= n <= |lines|
  {
    forall k | i <= k < n :: !(H3 <= lines[k])
  }

  lemma {:induction false} PassLines(lines: seq<Line>, i: nat, n: nat, cards: map<string, CardText>, e: Edit)
    requires i <= n <= |lines| && Headless(lines, i, n)
    requires ScanGives(lines, n, cards, e)
    ensures ScanGives(lines, i, cards, e)
    decreases n - i
  {
    if i < n {
      PassLines(lines, i + 1, n, cards, e);
      ScanPasses(lines, i, cards, e);
    }
  }

  lemma BodyPlace(lines: seq<Line>, i: nat, body: seq<Line>, tail: seq<Line>, n: nat)
    requires i <= |lines| && lines[i..] == body + tail && (forall l | l in body :: !(H3 <= l)) && n == i + |body|
    ensures n <= |lines| && lines[n..] == tail && lines[..n] == lines[..i] + body && Headless(lines, i, n)
  {
    Suffix(lines, i, body, tail);
    forall k | i <= k < n ensures !(H3 <= lines[k]) {
      assert lines[i + (k - i)] == body[k - i];
      assert body[k - i] in body;
    }
  }

  lemma BlankEndsNothing(line: Line)
    requires Blank(line)
    ensures !Ends(line)
  {
    BlankIsProse(line);
    BlankMeansSpaces(line);
    assert line == "" || Space(line[0]);
    assert LINKS_PREFIX[0] == '-';
  }

  /** Past the last card line the scan cuts away exactly the blank lines before the next heading. */
  lemma TailCut(rest: seq<Segment>)
    requires GoodDoc(rest) && Follows(rest)
    ensures Flat(rest)[TextEnd(Flat(rest), 0)..] == Flat(DropBlanks(rest))
  {
    if rest != [] && rest[0].Text? {
      TextCut(rest, rest[0].lines, rest[1..]);
    } else if rest != [] {
      CardCut(rest[0].card, Flat(rest[1..]));
    }
  }

  lemma CardCut(c: Card, more: seq<Line>)
    ensures TextEnd(c.Lines() + more, 0) == 0
  {
    var tail := c.Lines() + more;
    assert tail[0] == H3 + c.title;
    assert H3 <= tail[0];
  }

  lemma TextCut(doc: seq<Segment>, lines: seq<Line>, rest: seq<Segment>)
    requires doc != [] && doc[0] == Text(lines) && doc[1..] == rest && Follows(doc)
    ensures Flat(doc)[TextEnd(Flat(doc), 0)..] == Flat(DropBlanks(doc))
  {
    BlockSplits(lines);
    AfterBlockHeading(lines);
    FlatFirst(Text(AfterBlock(lines)), rest);
    Join3(Block(lines), AfterBlock(lines), Flat(rest));
    CutAt(Flat(doc), Block(lines), AfterBlock(lines) + Flat(rest));
  }

  lemma FlatFirst(s: Segment, rest: seq<Segment>)
    ensures Flat([s] + rest) == s.Lines() + Flat(rest)
  {
    assert ([s] + rest)[0] == s && ([s] + rest)[1..] == rest;
  }

  lemma CutAt(tail: seq<Line>, blanks: seq<Line>, more: seq<Line>)
    requires tail == blanks + more && more != [] && Ends(more[0]) && forall l | l in blanks :: Blank(l)
    ensures tail[TextEnd(tail, 0)..] == more
  {
    forall q | 0 <= q < |blanks| ensures !Ends(tail[q]) {
      assert tail[q] == blanks[q];
      BlankEndsNothing(blanks[q]);
    }
    assert tail[|blanks|] == more[0];
  }

  lemma LinksAt(take: seq<Line>, k: nat, m: nat)
    requires k == BlanksEnd(take, 0) && m == TextEnd(take[k..], 0)
    ensures Links(take) == take[k..][m..]
  {
    TextEndShift(take, k, take[k..]);
  }

  lemma BeyondTail(take: seq<Line>, tail: seq<Line>, body: seq<Line>, m: nat, e: nat)
    requires body == take[BlanksEnd(take, 0)..] && m == TextEnd(body, 0) && e == TextEnd(tail, 0)
    ensures Beyond(take, tail) == if m < |body| then body[m..] + tail else tail[e..]
  {
    TextEndJoin(body, tail);
    CutJoin(body, tail, if m < |body| then m else |body| + e);
  }

  lemma BeyondIs(take: seq<Line>, rest: seq<Segment>)
    requires GoodDoc(rest) && Follows(rest)
    ensures Beyond(take, Flat(rest)) ==
      Links(take) + Flat(if Links(take) == [] then DropBlanks(rest) else rest)
  {
    var k, tail := BlanksEnd(take, 0), Flat(rest);
    var body := take[k..];
    var m, e := TextEnd(body, 0), TextEnd(tail, 0);
    BeyondTail(take, tail, body, m, e);
    LinksAt(take, k, m);
    TailCut(rest);
  }

  lemma {:induction false} AfterBlockMembers(lines: seq<Line>)
    ensures forall l | l in AfterBlock(lines) :: l in lines
  {
    if lines != [] && !Heading(lines[0]) {
      AfterBlockMembers(lines[1..]);
    }
  }

  lemma DropKeeps(rest: seq<Segment>, cards: map<string, CardText>)
    requires GoodDoc(rest) && Follows(rest)
    ensures GoodDoc(DropBlanks(rest)) && Follows(DropBlanks(rest))
    ensures WrittenTitles(DropBlanks(rest), cards) == WrittenTitles(rest, cards)
    ensures FallbackTitles(DropBlanks(rest), cards) == FallbackTitles(rest, cards)
  {
    if rest != [] && rest[0].Text? {
      var lines := rest[0].lines;
      AfterBlockMembers(lines);
      AfterBlockHeading(lines);
      assert DropBlanks(rest)[1..] == rest[1..];
      TitlesBehindText(rest, cards);
      TitlesBehindText(DropBlanks(rest), cards);
    }
  }

  lemma TitlesBehindText(doc: seq<Segment>, cards: map<string, CardText>)
    requires doc != [] && doc[0].Text?
    ensures WrittenTitles(doc, cards) == WrittenTitles(doc[1..], cards)
    ensures FallbackTitles(doc, cards) == FallbackTitles(doc[1..], cards)
  {
    assert doc == [doc[0]] + doc[1..];
  }

  lemma TitlesBehindCard(doc: seq<Segment>, cards: map<string, CardText>)
    requires doc != [] && doc[0].CardSegment?
    ensures WrittenTitles(doc, cards) ==
      (if Written(doc[0].card, cards) then {doc[0].card.title} else {}) + WrittenTitles(doc[1..], cards)
    ensures FallbackTitles(doc, cards) ==
      (if LeftAsIs(doc[0].card, cards) then {doc[0].card.title} else {}) + FallbackTitles(doc[1..], cards)
  {
    assert doc == [doc[0]] + doc[1..];
  }

  /** What the scan makes of a report: its new lines, the cards it writes, the cards it leaves as they are. */
  function Outcome(doc: seq<Segment>, cards: map<string, CardText>): Edit {
    Edit(Flat(ApplyDoc(doc, cards)), WrittenTitles(doc, cards), FallbackTitles(doc, cards))
  }

  predicate Behind(e: Edit, head: seq<Line>, goal: Edit) {
    e.lines == head + goal.lines && e.done == goal.done && e.fallbacks == goal.fallbacks
  }

  lemma OutcomeText(doc: seq<Segment>, cards: map<string, CardText>, later: Edit)
    requires doc != [] && doc[0].Text? && later == Outcome(doc[1..], cards)
    ensures Behind(Outcome(doc, cards), doc[0].lines, later)
  {
    TitlesBehindText(doc, cards);
    FlatFirst(doc[0], ApplyDoc(doc[1..], cards));
  }

  lemma OutcomePassed(doc: seq<Segment>, cards: map<string, CardText>, later: Edit)
    requires doc != [] && doc[0].CardSegment? && !Written(doc[0].card, cards) && later == Outcome(doc[1..], cards)
    ensures var c := doc[0].card;
      Behind(Outcome(doc, cards), c.Lines(),
        later.Noting(if LeftAsIs(c, cards) then Fallback(c.title) else Passed))
  {
    TitlesBehindCard(doc, cards);
    FlatFirst(doc[0], ApplyDoc(doc[1..], cards));
  }

  lemma TitlesWritten(doc: seq<Segment>, cards: map<string, CardText>, rest: seq<Segment>)
    requires GoodDoc(doc) && doc != [] && doc[0].CardSegment? && Written(doc[0].card, cards)
    requires rest == (if Links(doc[0].card.takeaway) == [] then DropBlanks(doc[1..]) else doc[1..])
    ensures WrittenTitles(doc, cards) == {doc[0].card.title} + WrittenTitles(rest, cards)
    ensures FallbackTitles(doc, cards) == FallbackTitles(rest, cards)
  {
    DropKeeps(doc[1..], cards);
    TitlesBehindCard(doc, cards);
  }

  lemma OutcomeWritten(doc: seq<Segment>, cards: map<string, CardText>, rest: seq<Segment>, later: Edit)
    requires GoodDoc(doc) && doc != [] && doc[0].CardSegment? && Written(doc[0].card, cards)
    requires rest == (if Links(doc[0].card.takeaway) == [] then DropBlanks(doc[1..]) else doc[1..])
    requires later == Outcome(rest, cards)
    ensures var c := doc[0].card;
      Behind(Outcome(doc, cards), Rewritten(c, cards[c.title]).Lines(), later.Noting(Done(c.title)))
  {
    var c := doc[0].card;
    TitlesWritten(doc, cards, rest);
    FlatFirst(CardSegment(Rewritten(c, cards[c.title])), ApplyDoc(rest, cards));
  }

  lemma BehindTwice(e: Edit, head: seq<Line>, mid: seq<Line>, goal: Edit, whole: Edit)
    requires Behind(e, head + mid, goal) && Behind(whole, mid, goal)
    ensures Behind(e, head, whole)
  {
    Join3(head, mid, goal.lines);
  }

  lemma NotingBehind(e: Edit, head: seq<Line>, goal: Edit, mark: Mark)
    requires Behind(e, head, goal)
    ensures Behind(e.Noting(mark), head, goal.Noting(mark))
  {
  }

  lemma SameHead(e: Edit, a: seq<Line>, b: seq<Line>, goal: Edit)
    requires a == b && Behind(e, a, goal)
    ensures Behind(e, b, goal)
  {
  }

  /** The scan over a printed report, from any position in it. */
  lemma {:induction false} AppliedDoc(
    lines: seq<Line>, i: nat, doc: seq<Segment>, cards: map<string, CardText>, goal: Edit) returns (e: Edit)
    requires i <= |lines| && lines[i..] == Flat(doc) && GoodDoc(doc) && GoodTexts(cards)
    requires goal == Outcome(doc, cards)
    ensures ScanGives(lines, i, cards, e) && Behind(e, lines[..i], goal)
    decreases |doc|, 1
  {
    if doc == [] {
      e := Edit(lines, {}, {});
      assert lines[..i] + [] == lines;
    } else if doc[0].Text? {
      e := AppliedText(lines, i, doc, cards, goal);
    } else if Written(doc[0].card, cards) {
      e := AppliedWritten(lines, i, doc, cards, goal);
    } else {
      e := AppliedPassed(lines, i, doc, cards, goal);
    }
  }

  lemma {:induction false} AppliedText(
    lines: seq<Line>, i: nat, doc: seq<Segment>, cards: map<string, CardText>, goal: Edit) returns (e: Edit)
    requires i <= |lines| && lines[i..] == Flat(doc) && GoodDoc(doc) && GoodTexts(cards)
    requires doc != [] && doc[0].Text? && goal == Outcome(doc, cards)
    ensures ScanGives(lines, i, cards, e) && Behind(e, lines[..i], goal)
    decreases |doc|, 0
  {
    var later := Outcome(doc[1..], cards);
    OutcomeText(doc, cards, later);
    e := AppliedBehind(lines, i, doc[0].lines, doc[1..], cards, later);
    BehindTwice(e, lines[..i], doc[0].lines, later, goal);
  }

  /** Lines without a card heading are passed over. */
  lemma {:induction false} AppliedBehind(
    lines: seq<Line>, i: nat, body: seq<Line>, rest: seq<Segment>, cards: map<string, CardText>, goal: Edit)
    returns (e: Edit)
    requires i <= |lines| && lines[i..] == body + Flat(rest) && GoodDoc(rest) && GoodTexts(cards)
    requires (forall l | l in body :: !(H3 <= l)) && goal == Outcome(rest, cards)
    ensures ScanGives(lines, i, cards, e) && Behind(e, lines[..i] + body, goal)
    decreases |rest|, 2
  {
    var n := i + |body|;
    BodyPlace(lines, i, body, Flat(rest), n);
    e := AppliedDoc(lines, n, rest, cards, goal);
    SameHead(e, lines[..n], lines[..i] + body, goal);
    PassLines(lines, i, n, cards, e);
  }

  lemma CardBelowHeading(lines: seq<Line>, i: nat, c: Card, tail: seq<Line>)
    requires i <= |lines| && lines[i..] == c.Lines() + tail
    ensures i < |lines| && lines[i + 1..] == c.Body() + tail && lines[..i + 1] + c.Body() == lines[..i] + c.Lines()
  {
    var heading := [H3 + c.title];
    Join3(heading, c.Body(), tail);
    Suffix(lines, i, heading, c.Body() + tail);
    Join3(lines[..i], heading, c.Body());
  }

  lemma {:induction false} AppliedPassed(
    lines: seq<Line>, i: nat, doc: seq<Segment>, cards: map<string, CardText>, goal: Edit) returns (e: Edit)
    requires i <= |lines| && lines[i..] == Flat(doc) && GoodDoc(doc) && GoodTexts(cards)
    requires doc != [] && doc[0].CardSegment? && !Written(doc[0].card, cards) && goal == Outcome(doc, cards)
    ensures ScanGives(lines, i, cards, e) && Behind(e, lines[..i], goal)
    decreases |doc|, 0
  {
    var c, rest := doc[0].card, doc[1..];
    var mark := if LeftAsIs(c, cards) then Fallback(c.title) else Passed;
    var later := Outcome(rest, cards);
    OutcomePassed(doc, cards, later);
    var below := BelowHeading(lines, i, c, rest, cards, later);
    NotingBehind(below, lines[..i] + c.Lines(), later, mark);
    e := below.Noting(mark);
    BehindTwice(e, lines[..i], c.Lines(), later.Noting(mark), goal);
    PassedStep(lines, i, c, Flat(rest), cards, below);
  }

  lemma PassedStep(lines: seq<Line>, i: nat, c: Card, tail: seq<Line>, cards: map<string, CardText>, e: Edit)
    requires GoodCard(c) && GoodTexts(cards) && !Written(c, cards) && i < |lines| && lines[i..] == c.Lines() + tail
    requires ScanGives(lines, i + 1, cards, e)
    ensures ScanGives(lines, i, cards, e.Noting(if LeftAsIs(c, cards) then Fallback(c.title) else Passed))
  {
    var mark := if LeftAsIs(c, cards) then Fallback(c.title) else Passed;
    CardTurn(lines, i, c, tail, cards);
    ScanStep(lines, i, cards, Turn(lines, i + 1, mark), e);
  }

  lemma {:induction false} BelowHeading(
    lines: seq<Line>, i: nat, c: Card, rest: seq<Segment>, cards: map<string, CardText>, goal: Edit) returns (e: Edit)
    requires i <= |lines| && lines[i..] == c.Lines() + Flat(rest) && GoodCard(c) && GoodDoc(rest) && GoodTexts(cards)
    requires goal == Outcome(rest, cards)
    ensures i < |lines| && ScanGives(lines, i + 1, cards, e) && Behind(e, lines[..i] + c.Lines(), goal)
    decreases |rest|, 3
  {
    CardBelowHeading(lines, i, c, Flat(rest));
    BodyProse(c);
    e := AppliedBehind(lines, i + 1, c.Body(), rest, cards, goal);
    SameHead(e, lines[..i + 1] + c.Body(), lines[..i] + c.Lines(), goal);
  }

  lemma {:induction false} AppliedWritten(
    lines: seq<Line>, i: nat, doc: seq<Segment>, cards: map<string, CardText>, goal: Edit) returns (e: Edit)
    requires i <= |lines| && lines[i..] == Flat(doc) && GoodDoc(doc) && GoodTexts(cards)
    requires doc != [] && doc[0].CardSegment? && Written(doc[0].card, cards) && goal == Outcome(doc, cards)
    ensures ScanGives(lines, i, cards, e) && Behind(e, lines[..i], goal)
    decreases |doc|, 0
  {
    var c := doc[0].card;
    var t, links := cards[c.title], Links(c.takeaway);
    var rest := if links == [] then DropBlanks(doc[1..]) else doc[1..];
    var done, later := lines[..i] + CardFront(c, t), Outcome(rest, cards);
    OutcomeWritten(doc, cards, rest, later);
    BeyondIs(c.takeaway, doc[1..]);
    DropKeeps(doc[1..], cards);
    var below := BehindFront(done, links, c, rest, cards, later);
    WrittenStep(lines, i, c, Flat(doc[1..]), cards, done, links + Flat(rest), below);
    FrontAndLinks(lines[..i], c, t);
    NotingBehind(below, done + links, later, Done(c.title));
    e := below.Noting(Done(c.title));
    SameHead(e, done + links, lines[..i] + Rewritten(c, t).Lines(), later.Noting(Done(c.title)));
    BehindTwice(e, lines[..i], Rewritten(c, t).Lines(), later.Noting(Done(c.title)), goal);
  }

  lemma {:induction false} BehindFront(
    done: seq<Line>, links: seq<Line>, c: Card, rest: seq<Segment>, cards: map<string, CardText>, goal: Edit)
    returns (e: Edit)
    requires GoodCard(c) && links == Links(c.takeaway) && GoodDoc(rest) && GoodTexts(cards)
    requires goal == Outcome(rest, cards)
    ensures ScanGives(done + (links + Flat(rest)), |done|, cards, e) && Behind(e, done + links, goal)
    decreases |rest|, 3
  {
    LinksAreProse(c);
    AtEnd(done, links + Flat(rest));
    e := AppliedBehind(done + (links + Flat(rest)), |done|, links, rest, cards, goal);
  }

  lemma WrittenStep(
    lines: seq<Line>, i: nat, c: Card, tail: seq<Line>, cards: map<string, CardText>, done: seq<Line>, more: seq<Line>,
    e: Edit)
    requires GoodCard(c) && GoodTexts(cards) && Written(c, cards) && i <= |lines| && lines[i..] == c.Lines() + tail
    requires done == lines[..i] + CardFront(c, cards[c.title]) && more == Beyond(c.takeaway, tail)
    requires ScanGives(done + more, |done|, cards, e)
    ensures ScanGives(lines, i, cards, e.Noting(Done(c.title)))
  {
    CardBelowHeading(lines, i, c, tail);
    CardTurn(lines, i, c, tail, cards);
    ScanStep(lines, i, cards, Turn(done + more, |done|, Done(c.title)), e);
  }

  lemma LinksAreProse(c: Card)
    requires GoodCard(c)
    ensures forall l | l in Links(c.takeaway) :: !(H3 <= l)
  {
    forall l | l in Links(c.takeaway) ensures !(H3 <= l) {
      assert l in c.takeaway;
    }
  }

  lemma FrontAndLinks(head: seq<Line>, c: Card, t: CardText)
    ensures head + Rewritten(c, t).Lines() == head + CardFront(c, t) + Links(c.takeaway)
  {
    RewrittenSplits(c, t);
  }
}
