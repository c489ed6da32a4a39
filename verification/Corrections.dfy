/** Corrections of an issue. */
module Corrections {
  // Owner-confirmed corrections: which removals an assessment authorises, what the corrected issue is, and
  // what any sequence of publications, edits, observations and corrections keeps.

  import opened Ordering
  import opened Observation

  datatype Verdict = Core | Adjacent | OtherVerdict

  datatype Perimeter = Near | Mid | Far | OtherPerimeter

  datatype Material = Material(id: string, verdict: Verdict, perimeter: Perimeter, content: int)

  datatype Row = Row(position: nat, material: Material)

  datatype Stats = Stats(
    viewed: int, included: nat, cut: int, near: nat, mid: nat, far: nat, core: nat, adjacent: nat)

  datatype Issue = Issue(date: nat, rows: seq<Row>, stats: Stats)

  function Ids(rows: seq<Row>): set<string> {
    set r | r in rows :: r.material.id
  }

  ghost predicate DistinctIds(rows: seq<Row>) {
    forall i, j | 0 <= i < j < |rows| :: rows[i].material.id != rows[j].material.id
  }

  // ------------------------------------------------------- the corrected issue

  function Materials(rows: seq<Row>): seq<Material> {
    seq(|rows|, i requires 0 <= i < |rows| => rows[i].material)
  }

  function NotIn(remove: set<string>): Material -> bool {
    (m: Material) => m.id !in remove
  }

  function Kept(ms: seq<Material>, remove: set<string>): seq<Material> {
    Filter(ms, NotIn(remove))
  }

  predicate IsNear(m: Material) { m.perimeter == Near }
  predicate IsMid(m: Material) { m.perimeter == Mid }
  predicate IsFar(m: Material) { m.perimeter == Far }
  predicate IsCore(m: Material) { m.verdict == Core }
  predicate IsAdjacent(m: Material) { m.verdict == Adjacent }

  function Numbered(ms: seq<Material>): seq<Row> {
    seq(|ms|, i requires 0 <= i < |ms| => Row(i + 1, ms[i]))
  }

  function Count(ms: seq<Material>, p: Material -> bool): nat {
    |Filter(ms, p)|
  }

  function Recount(viewed: int, ms: seq<Material>): Stats {
    Stats(viewed, |ms|, viewed - |ms|,
      Count(ms, IsNear), Count(ms, IsMid), Count(ms, IsFar), Count(ms, IsCore), Count(ms, IsAdjacent))
  }

  function Corrected(issue: Issue, remove: set<string>): Issue {
    var ms := Kept(Materials(issue.rows), remove);
    Issue(issue.date, Numbered(ms), Recount(issue.stats.viewed, ms))
  }

  datatype Desired = Desired(issue: Issue) | AbsentRemoval

  /** Appends the kept materials with running positions, then recounts. */
  method DesiredIssue(issue: Issue, remove: set<string>) returns (out: Desired)
    ensures remove <= Ids(issue.rows) ==> out == Desired(Corrected(issue, remove))
    ensures !(remove <= Ids(issue.rows)) ==> out == AbsentRemoval
  {
    var ms := Materials(issue.rows);
    var rows: seq<Row> := [];
    var stats := Stats(issue.stats.viewed, 0, issue.stats.viewed, 0, 0, 0, 0, 0);
    var i := 0;
    while i < |issue.rows|
      invariant i <= |ms| == |issue.rows|
      invariant rows == Numbered(Kept(ms[..i], remove))
      invariant stats == Recount(issue.stats.viewed, Kept(ms[..i], remove))
    {
      var m := issue.rows[i].material;
      assert ms[..i + 1] == ms[..i] + [ms[i]];
      FilterAppend(ms[..i], m, NotIn(remove));
      ghost var kept := Kept(ms[..i], remove);
      assert Kept(ms[..i + 1], remove) == if m.id in remove then kept else kept + [m];
      if m.id !in remove {
        RecountAppend(issue.stats.viewed, kept, m);
        rows := rows + [Row(|rows| + 1, m)];
        stats := WithOneMore(stats, m);
      }
      i := i + 1;
    }
    assert ms[..i] == ms;
    if !(remove <= (set r | r in issue.rows :: r.material.id)) {
      return AbsentRemoval;
    }
    return Desired(Issue(issue.date, rows, stats));
  }

  function WithOneMore(s: Stats, m: Material): Stats {
    Stats(s.viewed, s.included + 1, s.cut - 1,
      s.near + (if m.perimeter == Near then 1 else 0), s.mid + (if m.perimeter == Mid then 1 else 0),
      s.far + (if m.perimeter == Far then 1 else 0), s.core + (if m.verdict == Core then 1 else 0),
      s.adjacent + if m.verdict == Adjacent then 1 else 0)
  }

  lemma RecountAppend(viewed: int, ms: seq<Material>, m: Material)
    ensures Recount(viewed, ms + [m]) == WithOneMore(Recount(viewed, ms), m)
  {
    FilterAppend(ms, m, IsNear);
    FilterAppend(ms, m, IsMid);
    FilterAppend(ms, m, IsFar);
    FilterAppend(ms, m, IsCore);
    FilterAppend(ms, m, IsAdjacent);
  }

  lemma {:induction false} FilterTwice(ms: seq<Material>, a: set<string>, b: set<string>)
    ensures Kept(Kept(ms, a), b) == Kept(ms, a + b)
  {
    if ms != [] {
      FilterTwice(ms[1..], a, b);
      var rest := Kept(ms[1..], a);
      if ms[0].id !in a {
        assert Kept(ms, a) == [ms[0]] + rest;
        assert Kept(ms, a)[1..] == rest;
      } else {
        assert Kept(ms, a) == rest;
      }
    }
  }

  lemma NumberedMaterials(ms: seq<Material>)
    ensures Materials(Numbered(ms)) == ms
  {
  }

  /** Correcting twice is correcting once with both removals, so the order of corrections does not
      matter: membership, order, positions and every statistic agree. */
  lemma CorrectionsCompose(issue: Issue, a: set<string>, b: set<string>)
    ensures Corrected(Corrected(issue, a), b) == Corrected(issue, a + b)
    ensures Corrected(Corrected(issue, a), b) == Corrected(Corrected(issue, b), a)
  {
    var ms := Materials(issue.rows);
    NumberedMaterials(Kept(ms, a));
    NumberedMaterials(Kept(ms, b));
    FilterTwice(ms, a, b);
    FilterTwice(ms, b, a);
    assert a + b == b + a;
  }

  /** What a correction leaves: exactly the other cards in their order, numbered from one. */
  lemma CorrectedRows(issue: Issue, remove: set<string>)
    ensures Ids(Corrected(issue, remove).rows) == Ids(issue.rows) - remove
    ensures DistinctIds(issue.rows) ==> DistinctIds(Corrected(issue, remove).rows)
  {
    var ms := Materials(issue.rows);
    var kept := Kept(ms, remove);
    FilterMembers(ms, NotIn(remove));
    var rows := Corrected(issue, remove).rows;
    forall id | id in Ids(rows) ensures id in Ids(issue.rows) - remove {
      var r :| r in rows && r.material.id == id;
      assert r.material in kept;
      var i :| 0 <= i < |ms| && ms[i] == r.material;
      assert issue.rows[i] in issue.rows;
    }
    forall id | id in Ids(issue.rows) - remove ensures id in Ids(rows) {
      var r :| r in issue.rows && r.material.id == id;
      var i :| 0 <= i < |issue.rows| && issue.rows[i] == r;
      assert ms[i] in ms;
      assert r.material in kept;
      var k :| 0 <= k < |kept| && kept[k] == r.material;
      assert rows[k] in rows;
    }
    if DistinctIds(issue.rows) {
      KeptDistinct(ms, remove);
    }
  }

  /** The places of the cards of one kind. */
  function Where(ms: seq<Material>, p: Material -> bool): set<int> {
    set k | 0 <= k < |ms| && p(ms[k])
  }

  /** The numbers of a corrected issue describe its cards: positions run from one, each counter is the
      number of cards of its kind, and what was viewed is included or cut. */
  lemma CorrectedNumbers(issue: Issue, remove: set<string>)
    ensures var rows, s := Corrected(issue, remove).rows, Corrected(issue, remove).stats;
      && (forall k | 0 <= k < |rows| :: rows[k].position == k + 1)
      && s.included == |rows| && s.viewed == issue.stats.viewed == s.included + s.cut
      && s.near == |Where(Materials(rows), IsNear)| && s.mid == |Where(Materials(rows), IsMid)|
      && s.far == |Where(Materials(rows), IsFar)| && s.core == |Where(Materials(rows), IsCore)|
      && s.adjacent == |Where(Materials(rows), IsAdjacent)|
  {
    var ms := Kept(Materials(issue.rows), remove);
    NumberedMaterials(ms);
    CountPositions(ms, IsNear);
    CountPositions(ms, IsMid);
    CountPositions(ms, IsFar);
    CountPositions(ms, IsCore);
    CountPositions(ms, IsAdjacent);
  }

  lemma {:induction false} CountPositions(ms: seq<Material>, p: Material -> bool)
    ensures Count(ms, p) == |Where(ms, p)|
  {
    if ms == [] {
      assert Where(ms, p) == {};
    } else {
      var n := |ms| - 1;
      var init, last := ms[..n], ms[n];
      assert ms == init + [last];
      CountPositions(init, p);
      FilterAppend(init, last, p);
      assert Where(ms, p) == Where(init, p) + if p(last) then {n} else {};
    }
  }

  lemma {:induction false} KeptDistinct(ms: seq<Material>, remove: set<string>)
    requires forall i, j | 0 <= i < j < |ms| :: ms[i].id != ms[j].id
    ensures var k := Kept(ms, remove); forall i, j | 0 <= i < j < |k| :: k[i].id != k[j].id
  {
    if ms != [] {
      KeptDistinct(ms[1..], remove);
      FilterMembers(ms[1..], NotIn(remove));
      var rest := Kept(ms[1..], remove);
      forall j | 0 <= j < |rest| ensures rest[j].id != ms[0].id {
        assert rest[j] in ms[1..];
      }
    }
  }

  // ------------------------------------------------ authorising the removals

  datatype Label = SameEvent | DifferentEvent | Development | InsufficientEvidence

  /** The issue hash binds every public byte of the issue; being injective it is the issue itself. */
  datatype Report = Report(id: int, issueDate: nat, issueHash: Issue, pairs: seq<Pair>)

  datatype Job = Job(
    reportId: int, issueDate: nat, issueHash: Issue, labels: map<Pair, Label>, remove: seq<string>)

  /** The report's own check, on what it says of pairs: at most a hundred, none twice, all of its issue. */
  predicate ValidReport(r: Report) {
    && |r.pairs| <= REPORT_PAIRS
    && (forall i, j | 0 <= i < j < |r.pairs| :: r.pairs[i] != r.pairs[j])
    && (forall p | p in r.pairs :: p.left.ref.date == r.issueDate)
  }

  predicate Confirmed(job: Job, report: Report, p: Pair) {
    p in report.pairs && p in job.labels && job.labels[p] == SameEvent
  }

  predicate Removes(job: Job, c: Ref) {
    c.date == job.issueDate && c.id in job.remove
  }

  /** Cards of the issue in a pair the owner confirmed. */
  function Allowed(job: Job, report: Report): set<string> {
    set p, c | p in report.pairs && Confirmed(job, report, p)
      && c in {p.left.ref, p.right.ref} && c.date == job.issueDate :: c.id
  }

  datatype Decision = Accepted | InvalidReport | StaleIssue | NotAssessed | BothSides

  function ValidateSelection(job: Job, report: Report, issue: Issue): Decision {
    if !ValidReport(report) then InvalidReport
    else if
      || job.reportId != report.id || job.issueHash != report.issueHash
      || job.issueHash != issue || job.issueDate != issue.date
    then StaleIssue
    else
      var allowed := Allowed(job, report);
      var removed := set x | x in job.remove;
      var current := Ids(issue.rows);
      if removed == {} || !(removed <= allowed) || !(removed < current) then NotAssessed
      else if exists p | p in report.pairs ::
        Confirmed(job, report, p) && Removes(job, p.left.ref) && Removes(job, p.right.ref)
      then BothSides
      else Accepted
  }

  /** c and p are the two sides of a pair the owner labelled as one event. */
  ghost predicate SameEventPair(job: Job, report: Report, c: Ref, p: Ref) {
    exists pair | pair in report.pairs ::
      && pair in job.labels && job.labels[pair] == SameEvent
      && ((pair.left.ref == c && pair.right.ref == p) || (pair.left.ref == p && pair.right.ref == c))
  }

  /** The loop over the pairs, remembering the ones seen. */
  method ValidateReport(r: Report) returns (ok: bool)
    ensures ok <==> ValidReport(r)
  {
    if |r.pairs| > REPORT_PAIRS {
      return false;
    }
    var seen: set<Pair> := {};
    for k := 0 to |r.pairs|
      invariant seen == set p | p in r.pairs[..k]
      invariant forall i, j | 0 <= i < j < k :: r.pairs[i] != r.pairs[j]
      invariant forall i | 0 <= i < k :: r.pairs[i].left.ref.date == r.issueDate
    {
      assert r.pairs[..k + 1] == r.pairs[..k] + [r.pairs[k]];
      if r.pairs[k] in seen {
        assert exists i | 0 <= i < k :: r.pairs[i] == r.pairs[k];
        return false;
      }
      seen := seen + {r.pairs[k]};
      if r.pairs[k].left.ref.date != r.issueDate {
        assert r.pairs[k] in r.pairs;
        return false;
      }
    }
    forall i, j | 0 <= i < j < |r.pairs| ensures r.pairs[i] != r.pairs[j] {
    }
    return true;
  }

  /** Job, report and issue speak of one and the same issue, and the job of this report. */
  predicate SameIssue(job: Job, report: Report, issue: Issue) {
    && job.reportId == report.id && job.issueDate == issue.date
    && job.issueHash == issue && report.issueHash == issue
  }

  /** Something is removed, and something stays. */
  predicate ProperPart(job: Job, issue: Issue) {
    && job.remove != []
    && (forall id | id in job.remove :: id in Ids(issue.rows))
    && exists id | id in Ids(issue.rows) :: id !in job.remove
  }

  /** Each removed card is one of two that the owner called the same event. */
  ghost predicate Covered(job: Job, report: Report) {
    forall c | Removes(job, c) :: exists p :: SameEventPair(job, report, c, p)
  }

  /** Of no such two both are removed. */
  ghost predicate Independent(job: Job, report: Report) {
    forall c, p | SameEventPair(job, report, c, p) :: !(Removes(job, c) && Removes(job, p))
  }

  /** What each answer means: a selection is accepted exactly if all conditions hold, and a refusal names
      the first that fails. */
  lemma DecisionMeans(job: Job, report: Report, issue: Issue)
    ensures var d := ValidateSelection(job, report, issue);
      var valid, same := ValidReport(report), SameIssue(job, report, issue);
      var part := ProperPart(job, issue) && Covered(job, report);
      && (d == InvalidReport <==> !valid)
      && (d == StaleIssue <==> valid && !same)
      && (d == NotAssessed <==> valid && same && !part)
      && (d == BothSides <==> valid && same && part && !Independent(job, report))
      && (d == Accepted <==> valid && same && part && Independent(job, report))
  {
    AllowedIff(job, report);
    ProperIff(job, issue);
    ConflictIff(job, report);
  }

  lemma AllowedIff(job: Job, report: Report)
    ensures (set x | x in job.remove) <= Allowed(job, report) <==> Covered(job, report)
  {
    if (set x | x in job.remove) <= Allowed(job, report) {
      forall c | Removes(job, c) ensures exists p :: SameEventPair(job, report, c, p) {
        assert c.id in Allowed(job, report);
        var pair, d :| pair in report.pairs && Confirmed(job, report, pair)
          && d in {pair.left.ref, pair.right.ref} && d.date == job.issueDate && d.id == c.id;
        assert d == c;
        var other := if pair.left.ref == c then pair.right.ref else pair.left.ref;
        assert SameEventPair(job, report, c, other);
      }
    }
    if Covered(job, report) {
      forall id | id in job.remove ensures id in Allowed(job, report) {
        var c := Ref(job.issueDate, id);
        assert Removes(job, c);
        var p :| SameEventPair(job, report, c, p);
        var pair :| pair in report.pairs && Confirmed(job, report, pair)
          && ((pair.left.ref == c && pair.right.ref == p) || (pair.left.ref == p && pair.right.ref == c));
        assert c in {pair.left.ref, pair.right.ref};
      }
    }
  }

  lemma ProperIff(job: Job, issue: Issue)
    ensures var removed := set x | x in job.remove;
      removed != {} && removed < Ids(issue.rows) <==> ProperPart(job, issue)
  {
    var removed := set x | x in job.remove;
    if job.remove != [] {
      assert job.remove[0] in removed;
    }
    assert forall id :: id in job.remove <==> id in removed;
  }

  lemma ConflictIff(job: Job, report: Report)
    ensures Independent(job, report) <==> !exists p | p in report.pairs ::
      Confirmed(job, report, p) && Removes(job, p.left.ref) && Removes(job, p.right.ref)
  {
    forall p | p in report.pairs && Confirmed(job, report, p)
      ensures SameEventPair(job, report, p.left.ref, p.right.ref)
    {
    }
  }

  /** The removed cards are an independent set of the confirmed-pair graph in which every vertex has an
      edge, and they are a proper subset of the issue. */
  lemma AcceptedGraph(job: Job, report: Report, issue: Issue)
    requires ValidateSelection(job, report, issue) == Accepted
    ensures report.issueHash == issue && job.issueDate == issue.date
    ensures forall c | Removes(job, c) :: c.id in Ids(issue.rows)
    ensures exists id :: id in Ids(issue.rows) && id !in job.remove
    ensures forall c | Removes(job, c) :: exists p :: SameEventPair(job, report, c, p)
    ensures forall c, p | Removes(job, c) && SameEventPair(job, report, c, p) :: !Removes(job, p)
    ensures exists c :: Removes(job, c)
  {
    DecisionMeans(job, report, issue);
    assert Removes(job, Ref(job.issueDate, job.remove[0]));
  }
}
