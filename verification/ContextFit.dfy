/** Fitting a prompt. */
module ContextFit {
  // Fitting a window of materials into one prompt: texts shrink rung by rung, and only then are materials
  // dropped, from the end of the priority order.

  import opened Ordering
  import opened ReportText

  // ------------------------------------------------------------- shortening a text

  function Words(s: string): seq<string>
    decreases |s|
  {
    var t := LStrip(s);
    if t == [] then [] else [Unspaced(t)] + Words(t[|Unspaced(t)|..])
  }

  function JoinWords(words: seq<string>): string {
    if words == [] then "" else if |words| == 1 then words[0] else words[0] + " " + JoinWords(words[1..])
  }

  /** " ".join(value.split()) */
  function Normalized(s: string): string {
    JoinWords(Words(s))
  }

  function NonSpaces(s: string): string {
    if s == [] then "" else (if Space(s[0]) then "" else [s[0]]) + NonSpaces(s[1..])
  }

  ghost predicate AreWords(words: seq<string>) {
    forall w | w in words :: w != "" && forall c | c in w :: !Space(c)
  }

  lemma {:induction false} UnspacedIs(s: string)
    ensures forall c | c in Unspaced(s) :: !Space(c)
    ensures |Unspaced(s)| < |s| ==> Space(s[|Unspaced(s)|])
  {
    if s != [] && !Space(s[0]) {
      UnspacedIs(s[1..]);
    }
  }

  lemma {:induction false} WordsAre(s: string)
    ensures AreWords(Words(s))
    decreases |s|
  {
    var t := LStrip(s);
    if t != [] {
      UnspacedIs(t);
      WordsAre(t[|Unspaced(t)|..]);
    }
  }

  lemma {:induction false} WordFirst(w: string, rest: string)
    requires w != "" && (forall c | c in w :: !Space(c)) && (rest == [] || Space(rest[0]))
    ensures LStrip(w + rest) == w + rest && Unspaced(w + rest) == w
  {
    assert w[0] in w && (w + rest)[0] == w[0] && (w + rest)[1..] == w[1..] + rest;
    if |w| > 1 {
      assert forall c | c in w[1..] :: c in w;
      WordFirst(w[1..], rest);
    } else {
      assert w[1..] + rest == rest;
    }
  }

  /** Single spaces only, each between two words. */
  ghost predicate SinglySpaced(t: string) {
    forall i | 0 <= i < |t| && Space(t[i]) :: t[i] == ' ' && 0 < i < |t| - 1 && !Space(t[i + 1])
  }

  lemma SpacedJoin(w: string, t: string)
    requires w != "" && (forall c | c in w :: !Space(c)) && SinglySpaced(t) && t != "" && !Space(t[0])
    ensures SinglySpaced(w + (" " + t))
  {
    var whole, n := w + (" " + t), |w| + 1;
    assert forall i | 0 <= i < |w| :: whole[i] == w[i] && w[i] in w;
    forall i | 0 <= i < |whole| && Space(whole[i])
      ensures whole[i] == ' ' && 0 < i < |whole| - 1 && !Space(whole[i + 1])
    {
      if i >= n {
        var j := i - n;
        assert whole[i] == t[j] && whole[i + 1] == t[j + 1];
      } else {
        assert i == |w| && whole[i + 1] == t[0];
      }
    }
  }

  /** Joining keeps the words, and puts one space between them and none around them. */
  lemma {:induction false} JoinedWords(words: seq<string>)
    requires AreWords(words)
    ensures var t := JoinWords(words);
      Words(t) == words && (t == [] <==> words == []) && (t != [] ==> !Space(t[0])) && SinglySpaced(t)
  {
    if words != [] {
      var w, rest := words[0], words[1..];
      assert w in words && forall x | x in rest :: x in words;
      assert w[0] in w;
      JoinedWords(rest);
      if rest == [] {
        WordFirst(w, "");
        assert w + "" == w && w[|w|..] == "";
        assert forall i | 0 <= i < |w| :: w[i] in w;
      } else {
        var t := JoinWords(rest);
        FirstOfMore(w, t);
        SpacedJoin(w, t);
      }
    }
  }

  lemma FirstOfMore(w: string, t: string)
    requires w != "" && forall c | c in w :: !Space(c)
    ensures Words(w + " " + t) == [w] + Words(t) && w + " " + t == w + (" " + t)
  {
    var behind := " " + t;
    assert w + " " + t == w + behind && (w + behind)[|w|..] == behind;
    WordFirst(w, behind);
    AfterSpace(t);
  }

  lemma AfterSpace(t: string)
    ensures Words(" " + t) == Words(t)
  {
    assert (" " + t)[1..] == t;
  }

  lemma {:induction false} SameLetters(s: string)
    ensures NonSpaces(Normalized(s)) == NonSpaces(s)
    decreases |s|
  {
    LeadingSpaces(s);
    var t := LStrip(s);
    if t != [] {
      var w := Unspaced(t);
      var rest := t[|w|..];
      UnspacedIs(t);
      assert t == w + rest;
      SameLetters(rest);
      LettersJoin(w, rest);
      LettersOf(w);
      assert Words(s) == [w] + Words(rest);
      WordBefore(w, Words(rest));
    }
  }

  lemma WordBefore(w: string, words: seq<string>)
    requires forall c | c in w :: !Space(c)
    ensures NonSpaces(JoinWords([w] + words)) == w + NonSpaces(JoinWords(words))
  {
    LettersOf(w);
    if words != [] {
      var behind := " " + JoinWords(words);
      assert ([w] + words)[1..] == words;
      assert JoinWords([w] + words) == w + behind;
      LettersJoin(w, behind);
      assert behind[1..] == JoinWords(words);
    }
  }

  lemma {:induction false} LeadingSpaces(s: string)
    ensures NonSpaces(LStrip(s)) == NonSpaces(s)
  {
    if s != [] && Space(s[0]) {
      LeadingSpaces(s[1..]);
    }
  }

  lemma {:induction false} LettersJoin(a: string, b: string)
    ensures NonSpaces(a + b) == NonSpaces(a) + NonSpaces(b)
  {
    if a == [] {
      assert a + b == b;
    } else {
      assert (a + b)[0] == a[0] && (a + b)[1..] == a[1..] + b;
      LettersJoin(a[1..], b);
    }
  }

  lemma {:induction false} LettersOf(w: string)
    requires forall c | c in w :: !Space(c)
    ensures NonSpaces(w) == w
  {
    if w != [] {
      assert w[0] in w && forall c | c in w[1..] :: c in w;
      LettersOf(w[1..]);
    }
  }

  /** A normalised text has the words and the letters of the text, with single spaces between the words. */
  lemma NormalizedMeans(s: string)
    ensures var t := Normalized(s);
      Words(t) == Words(s) && NonSpaces(t) == NonSpaces(s) && SinglySpaced(t)
  {
    WordsAre(s);
    JoinedWords(Words(s));
    SameLetters(s);
  }

  /** Position of the last space, or -1. */
  function LastSpace(s: string): (r: int)
    ensures -1 <= r < |s| && (r >= 0 ==> s[r] == ' ')
    ensures forall q | 0 <= q < |s| && s[q] == ' ' :: q <= r
  {
    if s == [] then -1
    else if s[|s| - 1] == ' ' then |s| - 1
    else LastSpace(s[..|s| - 1])
  }

  const TRAILING := " ,.;:—-"

  predicate Trailing(c: char) {
    c in TRAILING
  }

  function TrimEnd(s: string): (r: string)
    ensures r <= s && (r == [] || !Trailing(r[|r| - 1]))
    ensures forall q | |r| <= q < |s| :: Trailing(s[q])
  {
    if s != [] && Trailing(s[|s| - 1]) then TrimEnd(s[..|s| - 1]) else s
  }

  /** Where a text longer than its cap is cut: at the last space, if that is past half the cap. */
  function CutAt(text: string, cap: nat): (r: nat)
    requires 0 < cap < |text|
    ensures r <= cap && (r < cap ==> text[r] == ' ' && r > cap / 2)
    ensures forall q | cap / 2 < q < cap && r < q :: text[q] != ' '
    ensures r == cap ==> forall q | cap / 2 < q < cap :: text[q] != ' '
  {
    var space := LastSpace(text[..cap]);
    if space > cap / 2 then space else cap
  }

  const ELLIPSIS := "…"

  function Shorten(value: string, cap: int): string {
    var text := Normalized(value);
    if cap <= 0 || text == [] then ""
    else if |text| <= cap then text
    else TrimEnd(text[..CutAt(text, cap)]) + ELLIPSIS
  }

  /** How much of the (normalised) text travels under a cap, the ellipsis aside. */
  function Carried(text: string, cap: int): string {
    if cap <= 0 then "" else if |text| <= cap then text else TrimEnd(text[..CutAt(text, cap)])
  }

  /** A shortened text is what it carries, with an ellipsis exactly when something was cut; the cap
      bounds what is carried, so the ellipsis can exceed it by one. */
  lemma ShortenCarries(value: string, cap: int)
    ensures var text := Normalized(value);
      && Carried(text, cap) <= text && |Carried(text, cap)| <= (if cap < 0 then 0 else cap)
      && Shorten(value, cap) == Carried(text, cap) + if 0 < cap < |text| then ELLIPSIS else ""
  {
  }

  lemma LastSpacePrefix(text: string, a: nat, b: nat)
    requires a <= b <= |text|
    ensures LastSpace(text[..a]) <= LastSpace(text[..b])
    ensures LastSpace(text[..b]) < a ==> LastSpace(text[..b]) == LastSpace(text[..a])
  {
    var p, q := LastSpace(text[..a]), LastSpace(text[..b]);
    if p >= 0 {
      assert text[..b][p] == text[..a][p];
    }
    if 0 <= q < a {
      assert text[..a][q] == text[..b][q];
    }
  }

  lemma {:induction false} TrimEndPrefix(text: string, a: nat, b: nat)
    requires a <= b <= |text|
    ensures TrimEnd(text[..a]) <= TrimEnd(text[..b])
    decreases b
  {
    if a < b {
      assert text[..b][..b - 1] == text[..b - 1];
      if Trailing(text[..b][b - 1]) {
        TrimEndPrefix(text, a, b - 1);
      } else {
        assert TrimEnd(text[..a]) <= text[..a] <= text[..b];
      }
    }
  }

  /** A longer cap never cuts earlier. */
  lemma CutGrows(text: string, a: nat, b: nat)
    requires 0 < a <= b < |text|
    ensures CutAt(text, a) <= CutAt(text, b)
  {
    LastSpacePrefix(text, a, b);
  }

  /** What a text carries under a cap is a prefix of what it carries under any larger cap. */
  lemma CarriedGrows(text: string, a: int, b: int)
    requires a <= b
    ensures Carried(text, a) <= Carried(text, b)
  {
    if 0 < a < |text| && b < |text| {
      CutGrows(text, a, b);
      TrimEndPrefix(text, CutAt(text, a), CutAt(text, b));
    }
  }

  // ------------------------------------------------------------------ the materials

  datatype Perimeter = Near | Mid | Far | Unknown
  {
    function Order(): nat {
      match this case Near => 0 case Mid => 1 case Far => 2 case Unknown => 3
    }
  }

  datatype Row = Row(date: nat, title: string, text: string, angle: string, perimeter: Perimeter, rubrics: int)

  type Document = seq<Row>

  /** The sort key: perimeter, newest date first, title. */
  predicate Precedes(a: Row, b: Row) {
    var p, q := a.perimeter.Order(), b.perimeter.Order();
    p < q || (p == q && (a.date > b.date || (a.date == b.date && LexLe(a.title, b.title))))
  }

  /** Near before middle before far before anything else; then newer first; then by title. */
  lemma PriorityIff(a: Row, b: Row)
    ensures Precedes(a, b) <==>
      ((b.perimeter.Near? ==> a.perimeter.Near?) && (b.perimeter.Mid? ==> a.perimeter.Near? || a.perimeter.Mid?)
       && (a.perimeter.Unknown? ==> b.perimeter.Unknown?)
       && (a.perimeter == b.perimeter ==>
             a.date >= b.date && (a.date == b.date ==> LexLe(a.title, b.title))))
  {
  }

  lemma PrecedesIsOrder()
    ensures TotalPreorder(Precedes)
  {
    forall a, b ensures Precedes(a, b) || Precedes(b, a) {
      LexTotal(a.title, b.title);
    }
    forall a, b, c | Precedes(a, b) && Precedes(b, c) ensures Precedes(a, c) {
      if LexLe(a.title, b.title) && LexLe(b.title, c.title) {
        LexTransitive(a.title, b.title, c.title);
      }
    }
  }

  function AllRows(documents: seq<Document>): seq<Row> {
    if documents == [] then [] else AllRows(documents[..|documents| - 1]) + documents[|documents| - 1]
  }

  method MaterialRows(documents: seq<Document>) returns (rows: seq<Row>)
    ensures rows == Sort(AllRows(documents), Precedes)
  {
    rows := [];
    for i := 0 to |documents|
      invariant rows == AllRows(documents[..i])
    {
      assert documents[..i + 1][..i] == documents[..i];
      var before := rows;
      for j := 0 to |documents[i]|
        invariant rows == before + documents[i][..j]
      {
        rows := rows + [documents[i][j]];
      }
      assert documents[i][..|documents[i]|] == documents[i];
    }
    assert documents[..|documents|] == documents;
    rows := Sort(rows, Precedes);
  }

  predicate SameKey(a: Row, b: Row) {
    a.perimeter == b.perimeter && a.date == b.date && a.title == b.title
  }

  /** The priority order is a function of the set of materials: however the documents are arranged,
      materials with different keys come out in one order. */
  lemma OneOrder(a: seq<Row>, b: seq<Row>)
    requires multiset(a) == multiset(b)
    requires forall i, j | 0 <= i < j < |a| :: !SameKey(a[i], a[j])
    ensures Sort(a, Precedes) == Sort(b, Precedes)
  {
    PrecedesIsOrder();
    SortSorts(a, Precedes);
    SortSorts(b, Precedes);
    SortPermutes(a, Precedes);
    SortPermutes(b, Precedes);
    KeysStayDistinct(a);
    SortedUnique(Sort(a, Precedes), Sort(b, Precedes));
  }

  ghost predicate DistinctKeys(s: seq<Row>) {
    forall x, y | x in s && y in s && SameKey(x, y) :: x == y
  }

  lemma KeysStayDistinct(a: seq<Row>)
    requires forall i, j | 0 <= i < j < |a| :: !SameKey(a[i], a[j])
    ensures DistinctKeys(Sort(a, Precedes))
  {
    SortPermutes(a, Precedes);
    forall x, y | x in Sort(a, Precedes) && y in Sort(a, Precedes) && SameKey(x, y) ensures x == y {
      assert x in a && y in a;
      var i :| 0 <= i < |a| && a[i] == x;
      var j :| 0 <= j < |a| && a[j] == y;
    }
  }

  lemma BothWays(x: Row, y: Row)
    requires Precedes(x, y) && Precedes(y, x)
    ensures SameKey(x, y)
  {
    LexTotal(x.title, y.title);
  }

  lemma {:induction false} SortedUnique(a: seq<Row>, b: seq<Row>)
    requires multiset(a) == multiset(b) && Sorted(a, Precedes) && Sorted(b, Precedes) && DistinctKeys(a)
    ensures a == b
  {
    if a == [] {
      assert |multiset(b)| == 0;
    } else {
      assert a[0] in multiset(b) && b != [] && b[0] in multiset(a);
      HeadIsFirst(a, b[0]);
      HeadIsFirst(b, a[0]);
      BothWays(a[0], b[0]);
      assert a[0] == b[0];
      WithoutHead(a);
      WithoutHead(b);
      SortedUnique(a[1..], b[1..]);
      assert a == [a[0]] + a[1..] && b == [b[0]] + b[1..];
    }
  }

  lemma WithoutHead(s: seq<Row>)
    requires s != []
    ensures multiset(s[1..]) == multiset(s) - multiset{s[0]}
  {
    assert s == [s[0]] + s[1..];
  }

  lemma HeadIsFirst(s: seq<Row>, x: Row)
    requires s != [] && Sorted(s, Precedes) && x in s
    ensures Precedes(s[0], x)
  {
    PrecedesIsOrder();
    var i :| 0 <= i < |s| && s[i] == x;
    if i == 0 {
      assert Precedes(s[0], s[0]);
    }
  }

  // ------------------------------------------------------------------- the context

  datatype Caps = Caps(text: nat, angle: nat)

  datatype Shown = Shown(date: nat, title: string, perimeter: Perimeter, rubrics: int, summary: string, angle: string)

  datatype Context = Context(caps: Caps, issueCount: nat, total: nat, omitted: int, shown: seq<Shown>)

  const TEXT_CAPS: seq<Caps> := [
    Caps(700, 350), Caps(500, 250), Caps(360, 180), Caps(260, 130), Caps(200, 0), Caps(160, 0), Caps(120, 0),
    Caps(80, 0), Caps(0, 0)]

  /** An empty summary or angle stands for the absent field. */
  function ShownAs(r: Row, caps: Caps): Shown {
    Shown(r.date, r.title, r.perimeter, r.rubrics, Shorten(r.text, caps.text), Shorten(r.angle, caps.angle))
  }

  function ContextOf(rows: seq<Row>, issueCount: nat, caps: Caps, total: nat): Context {
    Context(caps, issueCount, total, total - |rows|,
      seq(|rows|, i requires 0 <= i < |rows| => ShownAs(rows[i], caps)))
  }

  /** How many rows the cut keeps next. */
  function Fewer(shown: nat): (r: nat)
    requires shown > 1
    ensures 1 <= r < shown && 4 * r <= 3 * shown < 4 * (r + 1)
  {
    Max(1, shown * 3 / 4)
  }

  function Max(a: int, b: int): int {
    if a < b then b else a
  }

  /** The prefix sizes tried once titles alone do not fit. */
  function Sizes(shown: nat): (r: seq<nat>)
    ensures forall k | k in r :: 1 <= k < shown
  {
    if shown <= 1 then [] else [Fewer(shown)] + Sizes(Fewer(shown))
  }

  /** Every context tried, in order: the whole window under each pair of caps, then shorter prefixes
      with titles only. */
  function Ladder(rows: seq<Row>, issueCount: nat): seq<Context> {
    Rungs(rows, issueCount, TEXT_CAPS) + Cuts(rows, issueCount, Sizes(|rows|))
  }

  function Rungs(rows: seq<Row>, issueCount: nat, caps: seq<Caps>): seq<Context> {
    seq(|caps|, i requires 0 <= i < |caps| => ContextOf(rows, issueCount, caps[i], |rows|))
  }

  function Cuts(rows: seq<Row>, issueCount: nat, sizes: seq<nat>): seq<Context>
    requires forall k | k in sizes :: k <= |rows|
  {
    seq(|sizes|, i requires 0 <= i < |sizes| =>
      assert sizes[i] in sizes; ContextOf(rows[..sizes[i]], issueCount, Caps(0, 0), |rows|))
  }

  /** The first of the tried contexts that fits, else the last. */
  function FirstFit(tried: seq<Context>, fits: Context -> bool): (r: Context)
    requires tried != []
    ensures r in tried
    ensures fits(r) || forall c | c in tried :: !fits(c)
  {
    if fits(tried[0]) || |tried| == 1 then tried[0] else FirstFit(tried[1..], fits)
  }

  lemma {:induction false} FirstFitJoin(a: seq<Context>, b: seq<Context>, fits: Context -> bool)
    requires a != []
    ensures FirstFit(a + b, fits) ==
      if fits(FirstFit(a, fits)) || b == [] then FirstFit(a, fits) else FirstFit(b, fits)
  {
    if |a| == 1 {
      assert (a + b)[1..] == b;
    } else {
      assert (a + b)[0] == a[0] && (a + b)[1..] == a[1..] + b;
      FirstFitJoin(a[1..], b, fits);
    }
  }

  /** The loop over the caps: stops at the first pair under which the whole window fits. */
  method TryCaps(rows: seq<Row>, issueCount: nat, fits: Context -> bool) returns (context: Context, ok: bool)
    ensures context == FirstFit(Rungs(rows, issueCount, TEXT_CAPS), fits) && ok == fits(context)
  {
    ghost var tried := Rungs(rows, issueCount, TEXT_CAPS);
    context := ContextOf(rows, issueCount, Caps(0, 0), |rows|);
    var i := 0;
    while i < |TEXT_CAPS|
      invariant i <= |TEXT_CAPS|
      invariant i < |TEXT_CAPS| ==> FirstFit(tried, fits) == FirstFit(tried[i..], fits)
      invariant i == |TEXT_CAPS| ==> context == FirstFit(tried, fits) && !fits(context)
    {
      context := ContextOf(rows, issueCount, TEXT_CAPS[i], |rows|);
      assert tried[i..][0] == context && tried[i..][1..] == tried[i + 1..];
      if fits(context) {
        return context, true;
      }
      i := i + 1;
    }
    ok := false;
  }

  /** The loop that shortens the window: each turn keeps three quarters, at least one material. */
  method CutDown(rows: seq<Row>, issueCount: nat, fits: Context -> bool, last: Context) returns (context: Context)
    requires !fits(last)
    ensures context == FirstFit([last] + Cuts(rows, issueCount, Sizes(|rows|)), fits)
  {
    context := last;
    var shown: nat := |rows|;
    ghost var goal := FirstFit([last] + Cuts(rows, issueCount, Sizes(shown)), fits);
    while shown > 1
      invariant shown <= |rows| && !fits(context)
      invariant FirstFit([context] + Cuts(rows, issueCount, Sizes(shown)), fits) == goal
    {
      var fewer: nat := Max(1, shown * 3 / 4);
      var shorter := ContextOf(rows[..fewer], issueCount, Caps(0, 0), |rows|);
      CutStep(rows, issueCount, shown, fewer, context, shorter, fits);
      shown, context := fewer, shorter;
      if fits(context) {
        return;
      }
    }
  }

  lemma CutStep(
    rows: seq<Row>, issueCount: nat, shown: nat, fewer: nat, context: Context, shorter: Context, fits: Context -> bool)
    requires 1 < shown <= |rows| && fewer == Fewer(shown) && !fits(context)
    requires shorter == ContextOf(rows[..fewer], issueCount, Caps(0, 0), |rows|)
    ensures FirstFit([context] + Cuts(rows, issueCount, Sizes(shown)), fits)
         == FirstFit([shorter] + Cuts(rows, issueCount, Sizes(fewer)), fits)
  {
    assert Sizes(shown) == [fewer] + Sizes(fewer);
    CutsFirst(rows, issueCount, fewer, Sizes(fewer));
    var tried := [context] + Cuts(rows, issueCount, Sizes(shown));
    assert tried[1..] == Cuts(rows, issueCount, Sizes(shown));
  }

  lemma CutsFirst(rows: seq<Row>, issueCount: nat, k: nat, sizes: seq<nat>)
    requires k <= |rows| && forall q | q in sizes :: q <= |rows|
    ensures Cuts(rows, issueCount, [k] + sizes)
         == [ContextOf(rows[..k], issueCount, Caps(0, 0), |rows|)] + Cuts(rows, issueCount, sizes)
  {
  }

  /** `fits` measures the prompt, with any repair text, against the budget. */
  method FitContext(documents: seq<Document>, fits: Context -> bool) returns (context: Context)
    ensures var rows := Sort(AllRows(documents), Precedes);
      context == FirstFit(Ladder(rows, |documents|), fits)
  {
    var rows := MaterialRows(documents);
    ghost var rungs, cuts := Rungs(rows, |documents|, TEXT_CAPS), Cuts(rows, |documents|, Sizes(|rows|));
    FirstFitJoin(rungs, cuts, fits);
    var ok: bool;
    context, ok := TryCaps(rows, |documents|, fits);
    if !ok {
      FirstFitJoin([context], cuts, fits);
      context := CutDown(rows, |documents|, fits, context);
    }
  }

  // --------------------------------------------------------------------- properties

  predicate Wider(a: Caps, b: Caps) {
    a.text >= b.text && a.angle >= b.angle
  }

  lemma CapsNarrow(i: nat, j: nat)
    requires i <= j < |TEXT_CAPS|
    ensures Wider(TEXT_CAPS[i], TEXT_CAPS[j])
  {
  }

  /** Every text under the wider caps extends the same text under the narrower ones. */
  lemma WiderCarriesMore(r: Row, a: Caps, b: Caps)
    requires Wider(a, b)
    ensures Carried(Normalized(r.text), b.text) <= Carried(Normalized(r.text), a.text)
    ensures Carried(Normalized(r.angle), b.angle) <= Carried(Normalized(r.angle), a.angle)
  {
    CarriedGrows(Normalized(r.text), b.text, a.text);
    CarriedGrows(Normalized(r.angle), b.angle, a.angle);
  }

  lemma {:induction false} FirstFitEarliest(tried: seq<Context>, fits: Context -> bool, n: nat)
    returns (k: nat)
    requires n < |tried| && fits(tried[n])
    ensures k <= n && FirstFit(tried, fits) == tried[k] && fits(tried[k])
  {
    if fits(tried[0]) {
      k := 0;
    } else {
      k := FirstFitEarliest(tried[1..], fits, n - 1);
      k := k + 1;
    }
  }

  /** If any pair of caps lets the whole window fit, nothing is dropped, and every shown text opens with
      all that any other fitting pair would carry of it. */
  lemma BestRung(rows: seq<Row>, issueCount: nat, fits: Context -> bool, j: nat)
    requires j < |TEXT_CAPS| && fits(ContextOf(rows, issueCount, TEXT_CAPS[j], |rows|))
    ensures var c := FirstFit(Ladder(rows, issueCount), fits);
      && c == ContextOf(rows, issueCount, c.caps, |rows|) && c.omitted == 0
      && c.caps in TEXT_CAPS && Wider(c.caps, TEXT_CAPS[j]) && fits(c) && |c.shown| == |rows|
      && forall i | 0 <= i < |rows| ::
        && c.shown[i].title == rows[i].title && c.shown[i].date == rows[i].date
        && Carried(Normalized(rows[i].text), TEXT_CAPS[j].text) <= c.shown[i].summary
        && Carried(Normalized(rows[i].angle), TEXT_CAPS[j].angle) <= c.shown[i].angle
  {
    var tried := Ladder(rows, issueCount);
    assert tried[j] == ContextOf(rows, issueCount, TEXT_CAPS[j], |rows|);
    var k := FirstFitEarliest(tried, fits, j);
    assert tried[k] == ContextOf(rows, issueCount, TEXT_CAPS[k], |rows|);
    CapsNarrow(k, j);
    forall i | 0 <= i < |rows|
      ensures Carried(Normalized(rows[i].text), TEXT_CAPS[j].text) <= ShownAs(rows[i], TEXT_CAPS[k]).summary
      ensures Carried(Normalized(rows[i].angle), TEXT_CAPS[j].angle) <= ShownAs(rows[i], TEXT_CAPS[k]).angle
    {
      WiderCarriesMore(rows[i], TEXT_CAPS[k], TEXT_CAPS[j]);
      ShortenCarries(rows[i].text, TEXT_CAPS[k].text);
      ShortenCarries(rows[i].angle, TEXT_CAPS[k].angle);
    }
  }

  /** What is shown is always a prefix of the priority order; the counts add up; materials are missing
      only when the titles of the whole window do not fit, and then texts are gone altogether. */
  lemma DropsTheTail(rows: seq<Row>, issueCount: nat, fits: Context -> bool)
    ensures var c := FirstFit(Ladder(rows, issueCount), fits);
      && |c.shown| <= |rows| && |c.shown| + c.omitted == c.total == |rows|
      && c == ContextOf(rows[..|c.shown|], issueCount, c.caps, |rows|)
      && (c.omitted > 0 ==> c.caps == Caps(0, 0) && !fits(ContextOf(rows, issueCount, Caps(0, 0), |rows|)))
      && (rows != [] ==> c.shown != [])
  {
    var tried := Ladder(rows, issueCount);
    var c := FirstFit(tried, fits);
    var i :| 0 <= i < |tried| && tried[i] == c;
    LadderMember(rows, issueCount, i);
    assert TEXT_CAPS[8] == Caps(0, 0);
    if fits(ContextOf(rows, issueCount, Caps(0, 0), |rows|)) {
      BestRung(rows, issueCount, fits, 8);
    }
  }

  /** Whatever is tried shows a prefix of the rows, all of them unless texts are gone. */
  lemma LadderMember(rows: seq<Row>, issueCount: nat, i: nat)
    requires i < |Ladder(rows, issueCount)|
    ensures var c := Ladder(rows, issueCount)[i];
      && |c.shown| <= |rows| && c == ContextOf(rows[..|c.shown|], issueCount, c.caps, |rows|)
      && (|c.shown| < |rows| ==> c.caps == Caps(0, 0)) && (rows != [] ==> c.shown != [])
  {
    assert rows[..|rows|] == rows;
    if i >= |TEXT_CAPS| {
      var sizes := Sizes(|rows|);
      assert sizes[i - |TEXT_CAPS|] in sizes;
    }
  }

  lemma {:induction false} SizesFall(n: nat, i: nat, j: nat)
    requires i < j < |Sizes(n)|
    ensures Sizes(n)[j] < Sizes(n)[i]
  {
    assert Sizes(n) == [Fewer(n)] + Sizes(Fewer(n));
    if i == 0 {
      assert Sizes(n)[j] == Sizes(Fewer(n))[j - 1];
      assert Sizes(Fewer(n))[j - 1] in Sizes(Fewer(n));
    } else {
      SizesFall(Fewer(n), i - 1, j - 1);
    }
  }

  lemma RungAt(rows: seq<Row>, issueCount: nat, i: nat)
    requires i < |TEXT_CAPS|
    ensures var c := Ladder(rows, issueCount)[i]; |c.shown| == |rows| && c.caps == TEXT_CAPS[i]
  {
    assert Ladder(rows, issueCount)[i] == ContextOf(rows, issueCount, TEXT_CAPS[i], |rows|);
  }

  lemma CutAtSize(rows: seq<Row>, issueCount: nat, i: nat, k: nat)
    requires |TEXT_CAPS| <= i < |Ladder(rows, issueCount)| && k == i - |TEXT_CAPS|
    ensures var c := Ladder(rows, issueCount)[i]; |c.shown| == Sizes(|rows|)[k] && c.caps == Caps(0, 0)
  {
    assert Sizes(|rows|)[k] in Sizes(|rows|);
    assert Ladder(rows, issueCount)[i] == Cuts(rows, issueCount, Sizes(|rows|))[k];
  }

  lemma RungsNarrow(rows: seq<Row>, issueCount: nat, i: nat, j: nat, a: Context, b: Context)
    requires i <= j < |TEXT_CAPS| && a == Ladder(rows, issueCount)[i] && b == Ladder(rows, issueCount)[j]
    ensures |b.shown| <= |a.shown| && Wider(a.caps, b.caps)
  {
    RungAt(rows, issueCount, i);
    RungAt(rows, issueCount, j);
    CapsNarrow(i, j);
  }

  lemma CutsNarrow(rows: seq<Row>, issueCount: nat, i: nat, j: nat, a: Context, b: Context, k: nat, l: nat)
    requires |TEXT_CAPS| <= i < j < |Ladder(rows, issueCount)|
    requires k == i - |TEXT_CAPS| && l == j - |TEXT_CAPS|
    requires a == Ladder(rows, issueCount)[i] && b == Ladder(rows, issueCount)[j]
    ensures |b.shown| <= |a.shown| && Wider(a.caps, b.caps)
  {
    CutAtSize(rows, issueCount, i, k);
    CutAtSize(rows, issueCount, j, l);
    SizesFall(|rows|, k, l);
  }

  lemma RungThenCut(rows: seq<Row>, issueCount: nat, i: nat, j: nat, a: Context, b: Context, l: nat)
    requires i < |TEXT_CAPS| <= j < |Ladder(rows, issueCount)| && l == j - |TEXT_CAPS|
    requires a == Ladder(rows, issueCount)[i] && b == Ladder(rows, issueCount)[j]
    ensures |b.shown| <= |a.shown| && Wider(a.caps, b.caps)
  {
    RungAt(rows, issueCount, i);
    LadderMember(rows, issueCount, j);
    CutAtSize(rows, issueCount, j, l);
  }

  /** Down the ladder of contexts tried, caps and prefixes only shrink. */
  lemma LadderNarrows(rows: seq<Row>, issueCount: nat, i: nat, j: nat, a: Context, b: Context)
    requires i <= j < |Ladder(rows, issueCount)|
    requires a == Ladder(rows, issueCount)[i] && b == Ladder(rows, issueCount)[j]
    ensures |b.shown| <= |a.shown| && Wider(a.caps, b.caps)
  {
    var n := |TEXT_CAPS|;
    if j < n {
      RungsNarrow(rows, issueCount, i, j, a, b);
    } else if i < n {
      var l := j - n;
      RungThenCut(rows, issueCount, i, j, a, b, l);
    } else if i < j {
      var k, l := i - n, j - n;
      CutsNarrow(rows, issueCount, i, j, a, b, k, l);
    }
  }

  lemma {:induction false} TighterFitsLater(
    tried: seq<Context>, loose: Context -> bool, tight: Context -> bool) returns (i: nat, j: nat)
    requires tried != [] && forall c | tight(c) :: loose(c)
    ensures i <= j < |tried| && FirstFit(tried, loose) == tried[i] && FirstFit(tried, tight) == tried[j]
  {
    if |tried| == 1 || tight(tried[0]) {
      i, j := 0, 0;
    } else if loose(tried[0]) {
      i := 0;
      j := FirstFitPlace(tried, tight);
    } else {
      i, j := TighterFitsLater(tried[1..], loose, tight);
      i, j := i + 1, j + 1;
    }
  }

  lemma {:induction false} FirstFitPlace(tried: seq<Context>, fits: Context -> bool) returns (k: nat)
    requires tried != []
    ensures k < |tried| && FirstFit(tried, fits) == tried[k]
  {
    if fits(tried[0]) || |tried| == 1 {
      k := 0;
    } else {
      k := FirstFitPlace(tried[1..], fits);
      k := k + 1;
    }
  }

  /** A longer repair text, hence a tighter fit, never shows more materials nor longer texts. */
  lemma TighterShowsLess(rows: seq<Row>, issueCount: nat, loose: Context -> bool, tight: Context -> bool)
    requires forall c | tight(c) :: loose(c)
    ensures var a, b := FirstFit(Ladder(rows, issueCount), loose), FirstFit(Ladder(rows, issueCount), tight);
      |b.shown| <= |a.shown| && Wider(a.caps, b.caps)
  {
    var i, j := TighterFitsLater(Ladder(rows, issueCount), loose, tight);
    var tried := Ladder(rows, issueCount);
    LadderNarrows(rows, issueCount, i, j, tried[i], tried[j]);
  }

  /** Nothing that was dropped has priority over anything shown. */
  lemma DroppedComeLast(documents: seq<Document>, fits: Context -> bool, i: nat, j: nat)
    requires var rows := Sort(AllRows(documents), Precedes);
      i < |FirstFit(Ladder(rows, |documents|), fits).shown| <= j < |rows|
    ensures var rows := Sort(AllRows(documents), Precedes); Precedes(rows[i], rows[j])
  {
    PrecedesIsOrder();
    SortSorts(AllRows(documents), Precedes);
  }
}
