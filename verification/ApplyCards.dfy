/** Writing generated card texts into the lines of a printed report, in place. */
module ApplyCards {
  import opened Wrappers
  import opened Ordering
  import opened Splices
  import opened ReportText
  import opened ReportParser
  import opened ReportLayout

  /** One row of the card table; `ready` is its success status, absent texts are empty. */
  datatype CardText = CardText(ready: bool, short: string, angle: string, error: string)

  predicate IsSuccess(t: CardText) {
    t.ready && Strip(t.short) != "" && Strip(t.angle) != ""
  }

  const CONTROL := "## Контроль генерации карточек"
  const LINKS_PREFIX := "- До" + "полнительные ссылки"
  const MISSING := "LLM-результат отсутствует " + "или неполон"
  /** Labels are looked for this many lines ahead. */
  const WINDOW := 12

  // --------------------------------------------------------------- searching

  function Find(lines: seq<Line>, name: string, lo: nat, hi: nat): (r: Option<nat>)
    ensures r.Some? ==> lo <= r.value < hi && r.value < |lines| && Strip(lines[r.value]) == name
    ensures r.Some? ==> forall q | lo <= q < r.value :: Strip(lines[q]) != name
    ensures r.None? ==> forall q | lo <= q < hi && q < |lines| :: Strip(lines[q]) != name
    decreases hi - lo
  {
    if lo >= hi || lo >= |lines| then None
    else if Strip(lines[lo]) == name then Some(lo)
    else Find(lines, name, lo + 1, hi)
  }

  /** Position of the first such line from i on, or the end. */
  function FindOrEnd(lines: seq<Line>, name: string, i: nat): (r: nat)
    requires i <= |lines|
    ensures i <= r <= |lines| && (r < |lines| ==> Strip(lines[r]) == name)
    ensures forall q | i <= q < r :: Strip(lines[q]) != name
  {
    var found := Find(lines, name, i, |lines|);
    if found.Some? then found.value else |lines|
  }

  function BlanksEnd(lines: seq<Line>, i: nat): (r: nat)
    requires i <= |lines|
    ensures i <= r <= |lines| && (r < |lines| ==> !Blank(lines[r]))
    ensures forall q | i <= q < r :: Blank(lines[q])
    decreases |lines| - i
  {
    if i < |lines| && Blank(lines[i]) then BlanksEnd(lines, i + 1) else i
  }

  /** What ends the old takeaway: a raw heading or the line of additional links. */
  predicate Ends(line: Line) {
    Heading(line) || LINKS_PREFIX <= line
  }

  lemma EndsIff(line: Line)
    ensures Ends(line) <==> StartsWith(line, "### ") || StartsWith(line, "## ") || StartsWith(line, LINKS_PREFIX)
  {
    PrefixIff(line, H3);
    PrefixIff(line, H2);
    PrefixIff(line, LINKS_PREFIX);
  }

  function TextEnd(lines: seq<Line>, i: nat): (r: nat)
    requires i <= |lines|
    ensures i <= r <= |lines| && (r < |lines| ==> Ends(lines[r]))
    ensures forall q | i <= q < r :: !Ends(lines[q])
    decreases |lines| - i
  {
    if i < |lines| && !Ends(lines[i]) then TextEnd(lines, i + 1) else i
  }

  // ----------------------------------------------------------- one card's turn

  function Replaced(lines: seq<Line>, from: nat, to: nat, text: string): seq<Line>
    requires from <= to <= |lines|
  {
    Splice(lines, from, to, ["", text, ""])
  }

  datatype Mark = Passed | Done(title: string) | Fallback(title: string)

  datatype Turn = Turn(lines: seq<Line>, index: nat, mark: Mark)

  function SummaryAt(lines: seq<Line>, i: nat): Option<nat> {
    Find(lines, SUMMARY + ":", i + 1, i + WINDOW)
  }

  function TakeawayAt(lines: seq<Line>, s: nat): Option<nat> {
    Find(lines, TAKEAWAY + ":", s + 1, s + WINDOW)
  }

  /** A label counts if it is the first of its kind among the next eleven lines. */
  ghost predicate FirstWithin(lines: seq<Line>, name: string, i: nat, at: nat) {
    && i < at < i + 12 && at < |lines| && Strip(lines[at]) == name
    && forall q | i < q < at :: Strip(lines[q]) != name
  }

  lemma LabelsWithin(lines: seq<Line>, i: nat, at: nat)
    ensures SummaryAt(lines, i) == Some(at) <==> FirstWithin(lines, SUMMARY + ":", i, at)
    ensures TakeawayAt(lines, i) == Some(at) <==> FirstWithin(lines, TAKEAWAY + ":", i, at)
  {
  }

  datatype Place = Place(lines: seq<Line>, at: nat)

  /** A takeaway label stands somewhere behind s. */
  ghost predicate Ahead(lines: seq<Line>, s: nat, name: string) {
    name != "" && s < |lines| && exists q :: s < q < |lines| && Strip(lines[q]) == name
  }

  /** The short text goes between the summary label at s and the takeaway label behind it.  The label
      is then at its new place, unless the text is itself that label. */
  function PutShort(lines: seq<Line>, s: nat, text: string, name: string): (r: Place)
    requires Ahead(lines, s, name)
    ensures r.at < |r.lines| && |r.lines| - r.at <= |lines| - s + 1
  {
    var b := BlanksEnd(lines, s + 1);
    var e := FindOrEnd(lines, name, b);
    LabelIsAhead(lines, s, b, e, name);
    Place(Replaced(lines, b, e, text), if text == name then b + 1 else b + 3)
  }

  /** The angle replaces what stands below the label up to the next heading or line of links. */
  function PutAngle(lines: seq<Line>, at: nat, text: string): (r: Place)
    requires at < |lines|
    ensures r.at <= |r.lines| && |r.lines| - r.at < |lines| - at
  {
    var from := BlanksEnd(lines, at + 1);
    Place(Replaced(lines, from, TextEnd(lines, from), text), from + 3)
  }

  function Rewrite(lines: seq<Line>, s: nat, t: CardText, name: string): (r: Place)
    requires Ahead(lines, s, name)
    ensures r.at <= |r.lines| && |r.lines| - r.at <= |lines| - s
  {
    var p := PutShort(lines, s, Strip(t.short), name);
    PutAngle(p.lines, p.at, Strip(t.angle))
  }

  lemma LabelIsAhead(lines: seq<Line>, s: nat, b: nat, e: nat, name: string)
    requires Ahead(lines, s, name)
    requires b == BlanksEnd(lines, s + 1) && e == FindOrEnd(lines, name, b)
    ensures s < b <= e < |lines|
  {
  }

  /** The search for the label after the first replacement never fails; it stops early only when the
      new text is itself that label. */
  lemma LabelReappears(lines: seq<Line>, s: nat, b: nat, e: nat, text: string, name: string)
    requires name != "" && s < b <= e < |lines| && Strip(lines[e]) == name && Strip(text) == text
    requires forall q | s < q < b :: Blank(lines[q])
    ensures Find(Replaced(lines, b, e, text), name, s + 1, b + 5) == Some(if text == name then b + 1 else b + 3)
  {
    var after := Replaced(lines, b, e, text);
    assert after[b] == "" && after[b + 1] == text && after[b + 2] == "" && after[b + 3] == lines[e];
    forall q | s < q < b ensures Strip(after[q]) == "" {
      assert after[q] == lines[q];
    }
  }

  function TurnAt(lines: seq<Line>, i: nat, cards: map<string, CardText>): (r: Turn)
    requires i < |lines|
    ensures r.index <= |r.lines| && |r.lines| - r.index < |lines| - i
  {
    if !(H3 <= lines[i]) then Turn(lines, i + 1, Passed)
    else
      var title := Strip(lines[i][|H3|..]);
      var s := SummaryAt(lines, i);
      if title !in cards || s.None? || TakeawayAt(lines, s.value).None? then Turn(lines, i + 1, Passed)
      else if IsSuccess(cards[title]) then
        var p := Rewrite(lines, s.value, cards[title], TAKEAWAY + ":");
        Turn(p.lines, p.at, Done(title))
      else Turn(lines, i + 1, Fallback(title))
  }

  /** The lines after the scan from i on, and the titles it wrote or left to their old text. */
  datatype Edit = Edit(lines: seq<Line>, done: set<string>, fallbacks: set<string>)
  {
    function Noting(mark: Mark): Edit {
      match mark
      case Passed => this
      case Done(title) => this.(done := done + {title})
      case Fallback(title) => this.(fallbacks := fallbacks + {title})
    }
  }

  function ApplyAt(lines: seq<Line>, i: nat, cards: map<string, CardText>): Edit
    requires i <= |lines|
    decreases |lines| - i
  {
    if i == |lines| then Edit(lines, {}, {})
    else
      var t := TurnAt(lines, i, cards);
      ApplyAt(t.lines, t.index, cards).Noting(t.mark)
  }

  function DoneBy(mark: Mark): set<string> {
    if mark.Done? then {mark.title} else {}
  }

  function LeftBy(mark: Mark): set<string> {
    if mark.Fallback? then {mark.title} else {}
  }

  function Joined(e: Edit, done: set<string>, fallbacks: set<string>): Edit {
    Edit(e.lines, done + e.done, fallbacks + e.fallbacks)
  }

  lemma ScanStep(lines: seq<Line>, i: nat, cards: map<string, CardText>, done: set<string>, fallbacks: set<string>)
    requires i < |lines|
    ensures var t := TurnAt(lines, i, cards);
      Joined(ApplyAt(lines, i, cards), done, fallbacks)
      == Joined(ApplyAt(t.lines, t.index, cards), done + DoneBy(t.mark), fallbacks + LeftBy(t.mark))
  {
  }

  // --------------------------------------------------------- the control section

  function NextSection(lines: seq<Line>, i: nat): (r: nat)
    requires i <= |lines|
    ensures i <= r <= |lines| && (r < |lines| ==> H2 <= lines[r])
    ensures forall q | i <= q < r :: !(H2 <= lines[q])
    decreases |lines| - i
  {
    if i < |lines| && !(H2 <= lines[i]) then NextSection(lines, i + 1) else i
  }

  function WithoutControl(lines: seq<Line>): seq<Line> {
    var p := FindOrEnd(lines, CONTROL, 0);
    if p == |lines| then lines else lines[..p] + lines[NextSection(lines, p + 1)..]
  }

  function WithControl(lines: seq<Line>, control: seq<Line>): seq<Line> {
    var at := FindOrEnd(lines, IMPORTANT, 0);
    lines[..at] + control + [""] + lines[at..]
  }

  function ErrorOf(cards: map<string, CardText>, title: string): string {
    if title in cards && cards[title].error != "" then cards[title].error else MISSING
  }

  function FallbackLines(titles: seq<string>, cards: map<string, CardText>): seq<Line> {
    seq(|titles|, i requires 0 <= i < |titles| => "- " + titles[i] + ": " + ErrorOf(cards, titles[i]))
  }

  /** `counts` prints the three numbers of the summary line. */
  function ControlLines(
    done: nat, titles: seq<string>, cards: map<string, CardText>, counts: (nat, nat, nat) -> string): seq<Line>
  {
    [CONTROL, "", "LLM-описания карточек: " + counts(done, |cards|, |titles|)]
    + if titles == [] then [] else ["", "Карточки с fallback:", ""] + FallbackLines(titles, cards)
  }

  /** The control section has three lines, and exactly if there are fallback cards three more and one for
      each of them, with its recorded error or the standing remark. */
  lemma ControlSays(done: nat, titles: seq<string>, cards: map<string, CardText>, counts: (nat, nat, nat) -> string)
    ensures var c := ControlLines(done, titles, cards, counts);
      && c != [] && c[0] == CONTROL && (|titles| == 0 ==> |c| == 3)
      && (|titles| > 0 ==> |c| == 6 + |titles| && c[6..] == FallbackLines(titles, cards))
  {
    var head := [CONTROL, "", "LLM-описания карточек: " + counts(done, |cards|, |titles|)];
    var title := ["", "Карточки с fallback:", ""];
    ThreeParts(head, title, FallbackLines(titles, cards));
  }

  lemma ThreeParts(a: seq<Line>, b: seq<Line>, rest: seq<Line>)
    requires |a| == 3 && |b| == 3
    ensures |a + (b + rest)| == 6 + |rest| && (a + (b + rest))[6..] == rest && (a + (b + rest))[0] == a[0]
    ensures (a + [])[0] == a[0]
  {
  }

  lemma FallbackSays(titles: seq<string>, cards: map<string, CardText>, k: nat)
    requires k < |titles|
    ensures |FallbackLines(titles, cards)| == |titles|
    ensures titles[k] !in cards || cards[titles[k]].error == "" ==>
      FallbackLines(titles, cards)[k] == "- " + titles[k] + ": " + MISSING
    ensures titles[k] in cards && cards[titles[k]].error != "" ==>
      FallbackLines(titles, cards)[k] == "- " + titles[k] + ": " + cards[titles[k]].error
  {
  }

  /** One whole pass: drop an old control section, write the cards, put the new control section in. */
  function Pass(
    lines: seq<Line>, cards: map<string, CardText>, titles: seq<string>, counts: (nat, nat, nat) -> string): seq<Line>
  {
    var e := ApplyAt(WithoutControl(lines), 0, cards);
    WithControl(e.lines, ControlLines(|e.done|, titles, cards, counts))
  }

  ghost predicate Ascending(titles: seq<string>, members: set<string>) {
    && Sorted(titles, LexLe) && Distinct(titles)
    && (forall t :: t in titles <==> t in members)
  }

  /** Python's sorted() over the keys of the fallback dictionary. */
  method SortedTitles(members: set<string>) returns (titles: seq<string>)
    ensures Ascending(titles, members)
  {
    titles := [];
    var rest := members;
    while rest != {}
      invariant rest <= members && Ascending(titles, members - rest)
      decreases |rest|
    {
      var t :| t in rest;
      InsertTitle(titles, members - rest, t);
      titles := Insert(t, titles, LexLe);
      rest := rest - {t};
      assert members - rest == (members - rest - {t}) + {t};
    }
    assert members - rest == members;
  }

  lemma InsertTitle(titles: seq<string>, members: set<string>, t: string)
    requires Ascending(titles, members) && t !in members
    ensures Ascending(Insert(t, titles, LexLe), members + {t})
  {
    LexOrder();
    InsertSorted(t, titles, LexLe);
    InsertPermutes(t, titles, LexLe);
    var longer := Insert(t, titles, LexLe);
    forall x ensures x in longer <==> x in members + {t} {
      assert x in longer <==> x in multiset(longer);
    }
    forall x | x in titles ensures multiset(titles)[x] == 1 {
      DistinctOnce(titles, x);
    }
    DistinctFromCounts(longer);
  }

  lemma LexOrder()
    ensures TotalPreorder(LexLe)
  {
    forall a, b ensures LexLe(a, b) || LexLe(b, a) {
      LexTotal(a, b);
    }
    forall a, b, c | LexLe(a, b) && LexLe(b, c) ensures LexLe(a, c) {
      LexTransitive(a, b, c);
    }
  }

  // ------------------------------------------------------------------- in place

  class CardEditor {
    var lines: seq<Line>

    constructor (markdown: seq<Line>)
      ensures lines == markdown
    {
      lines := markdown;
    }

    method SkipBlanks(from: nat) returns (i: nat)
      requires from <= |lines|
      ensures i == BlanksEnd(lines, from)
    {
      i := from;
      while i < |lines| && Blank(lines[i])
        invariant from <= i <= |lines| && BlanksEnd(lines, i) == BlanksEnd(lines, from)
      {
        i := i + 1;
      }
    }

    method ReplaceSection(at: nat, stop: string, text: string) returns (next: nat)
      requires at < |lines|
      modifies this
      ensures var b := BlanksEnd(old(lines), at + 1);
        && next == b + 3
        && lines == Replaced(old(lines), b, FindOrEnd(old(lines), stop, b), text)
    {
      var start := SkipBlanks(at + 1);
      var end := start;
      while end < |lines| && Strip(lines[end]) != stop
        invariant start <= end <= |lines| && lines == old(lines)
        invariant forall q | start <= q < end :: Strip(lines[q]) != stop
      {
        end := end + 1;
      }
      lines := lines[..start] + ["", text, ""] + lines[end..];
      next := start + 3;
    }

    method ReplaceToHeading(at: nat, text: string) returns (next: nat)
      requires at < |lines|
      modifies this
      ensures Place(lines, next) == PutAngle(old(lines), at, text)
    {
      var start := SkipBlanks(at + 1);
      var end := start;
      while end < |lines| && !Ends(lines[end])
        invariant start <= end <= |lines| && lines == old(lines)
        invariant TextEnd(lines, end) == TextEnd(lines, start)
      {
        end := end + 1;
      }
      lines := lines[..start] + ["", text, ""] + lines[end..];
      next := start + 3;
    }

    method ReplaceSummary(s: nat, text: string, stop: string) returns (again: nat)
      requires Ahead(lines, s, stop) && Strip(text) == text
      modifies this
      ensures Place(lines, again) == PutShort(old(lines), s, text, stop)
    {
      ghost var b := BlanksEnd(lines, s + 1);
      ghost var e := FindOrEnd(lines, stop, b);
      LabelIsAhead(lines, s, b, e, stop);
      LabelReappears(lines, s, b, e, text, stop);
      var next := ReplaceSection(s, stop, text);
      var found := Find(lines, stop, s + 1, next + 2);
      again := found.value;
    }

    /** What the scan does at one position. */
    method WriteNext(i: nat, cards: map<string, CardText>) returns (next: nat, mark: Mark)
      requires i < |lines|
      modifies this
      ensures Turn(lines, next, mark) == TurnAt(old(lines), i, cards)
    {
      next, mark := i + 1, Passed;
      if !(H3 <= lines[i]) {
        return;
      }
      var title := Strip(lines[i][|H3|..]);
      var s := SummaryAt(lines, i);
      if title !in cards || s.None? || TakeawayAt(lines, s.value).None? {
        return;
      }
      var t := cards[title];
      if IsSuccess(t) {
        StripTrims(t.short);
        var again := ReplaceSummary(s.value, Strip(t.short), TAKEAWAY + ":");
        next := ReplaceToHeading(again, Strip(t.angle));
        mark := Done(title);
      } else {
        mark := Fallback(title);
      }
    }

    /** The scan under a moving index over a list that changes length below it. */
    method WriteCards(cards: map<string, CardText>) returns (done: set<string>, fallbacks: map<string, string>)
      modifies this
      ensures Edit(lines, done, fallbacks.Keys) == ApplyAt(old(lines), 0, cards)
      ensures forall t | t in fallbacks :: fallbacks[t] == ErrorOf(cards, t)
    {
      done, fallbacks := {}, map[];
      var index: nat := 0;
      while index < |lines|
        invariant index <= |lines|
        invariant ApplyAt(old(lines), 0, cards) == Joined(ApplyAt(lines, index, cards), done, fallbacks.Keys)
        invariant forall t | t in fallbacks :: fallbacks[t] == ErrorOf(cards, t)
        decreases |lines| - index
      {
        var mark: Mark;
        ScanStep(lines, index, cards, done, fallbacks.Keys);
        index, mark := WriteNext(index, cards);
        match mark {
          case Passed =>
          case Done(title) => done := done + {title};
          case Fallback(title) => fallbacks := fallbacks[title := ErrorOf(cards, title)];
        }
      }
    }

    /** The whole pass; `titles` lists the cards that kept their old text. */
    method Apply(cards: map<string, CardText>, counts: (nat, nat, nat) -> string) returns (titles: seq<string>)
      modifies this
      ensures Ascending(titles, ApplyAt(WithoutControl(old(lines)), 0, cards).fallbacks)
      ensures lines == Pass(old(lines), cards, titles, counts)
    {
      lines := WithoutControl(lines);
      var done, fallbacks := WriteCards(cards);
      titles := SortedTitles(fallbacks.Keys);
      lines := WithControl(lines, ControlLines(|done|, titles, cards, counts));
    }
  }
}
