/** The archive over time. */
module CorrectionHistory {
  // Whole runs of the published archive: issues appear, their texts are edited, they are observed, and
  // accepted corrections remove cards. However these interleave, every card ever removed is linked by
  // owner-confirmed same-event pairs to a card that is still published.

  import opened Ordering
  import opened Observation
  import opened Corrections

  const HISTORY_DAYS := 45

  datatype Correction = Correction(job: Job, report: Report)

  /** `shown` remembers every card ever published, `log` the corrections in the order they took effect. */
  datatype State = State(
    issues: map<nat, Issue>, reports: set<Report>, shown: set<Ref>, log: seq<Correction>)

  datatype Step =
    | Publish(issue: Issue)
    | Edit(issue: Issue)
    | Observe(report: Report, sc: Scorer)
    | Correct(job: Job, report: Report)

  const Empty := State(map[], {}, {}, [])

  function Refs(issue: Issue): set<Ref> {
    set r | r in issue.rows :: Ref(issue.date, r.material.id)
  }

  function Cards(issue: Issue): seq<Shown> {
    seq(|issue.rows|, i requires 0 <= i < |issue.rows| =>
      Shown(Ref(issue.date, issue.rows[i].material.id), issue.rows[i].material.content))
  }

  /** The cards of the published issues dated from lo up to, not including, hi. */
  function Between(issues: map<nat, Issue>, lo: nat, hi: nat): seq<Shown>
    decreases hi - lo
  {
    if lo >= hi then []
    else (if lo in issues then Cards(issues[lo]) else []) + Between(issues, lo + 1, hi)
  }

  function Window(issues: map<nat, Issue>, day: nat): seq<Shown> {
    Between(issues, if day < HISTORY_DAYS then 0 else day - HISTORY_DAYS, day)
  }

  ghost predicate Published(s: State, c: Ref) {
    c.date in s.issues && c.id in Ids(s.issues[c.date].rows)
  }

  ghost predicate Enabled(s: State, step: Step) {
    match step
    case Publish(issue) => issue.date !in s.issues && DistinctIds(issue.rows)
    case Edit(issue) =>
      issue.date in s.issues && DistinctIds(issue.rows) && Ids(issue.rows) == Ids(s.issues[issue.date].rows)
    case Observe(r, sc) =>
      && r.issueDate in s.issues && r.issueHash == s.issues[r.issueDate] && ValidReport(r)
      && forall p | p in r.pairs ::
        p in CandidateList(Cards(r.issueHash), Window(s.issues, r.issueDate), sc)
    case Correct(job, r) =>
      && r in s.reports && job.issueDate in s.issues
      && ValidateSelection(job, r, s.issues[job.issueDate]) == Accepted
  }

  function Removal(job: Job): set<string> {
    set x | x in job.remove
  }

  ghost function Apply(s: State, step: Step): State
    requires Enabled(s, step)
  {
    match step
    case Publish(issue) => s.(issues := s.issues[issue.date := issue], shown := s.shown + Refs(issue))
    case Edit(issue) => s.(issues := s.issues[issue.date := issue])
    case Observe(r, _) => s.(reports := s.reports + {r})
    case Correct(job, r) =>
      s.(issues := s.issues[job.issueDate := Corrected(s.issues[job.issueDate], Removal(job))],
         log := s.log + [Correction(job, r)])
  }

  ghost predicate RunsTo(s: State, steps: seq<Step>, end: State)
    decreases |steps|
  {
    if steps == [] then s == end
    else Enabled(s, steps[0]) && RunsTo(Apply(s, steps[0]), steps[1..], end)
  }

  ghost predicate RemovedBy(s: State, k: nat, c: Ref) {
    k < |s.log| && Removes(s.log[k].job, c)
  }

  ghost predicate LinkedBy(s: State, k: nat, c: Ref, p: Ref) {
    k < |s.log| && Removes(s.log[k].job, c) && SameEventPair(s.log[k].job, s.log[k].report, c, p)
  }

  /** Still published, or removed only by a later correction than number k. */
  ghost predicate OutlivesCorrection(s: State, k: nat, p: Ref) {
    Published(s, p) || exists later :: later > k && RemovedBy(s, later, p)
  }

  // ------------------------------------------------------------- invariants

  ghost predicate Dated(s: State) {
    && (forall d | d in s.issues :: s.issues[d].date == d && DistinctIds(s.issues[d].rows))
    && (forall c | Published(s, c) :: c in s.shown)
    && (forall c | c in s.shown :: c.date in s.issues)
  }

  /** Reports pair a card of the observed issue with another card of it or with an earlier issue's. */
  ghost predicate Grounded(s: State, r: Report) {
    && r.issueHash.date == r.issueDate && r.issueDate in s.issues
    && forall p | p in r.pairs :: PairGrounded(s, r, p)
  }

  ghost predicate PairGrounded(s: State, r: Report, p: Pair) {
    && p.left.ref in Refs(r.issueHash) && p.left.ref != p.right.ref && p.right.ref in s.shown
    && (p.right.ref in Refs(r.issueHash) || p.right.ref.date < r.issueDate)
  }

  ghost predicate RemovedOnce(s: State) {
    && (forall k, c | RemovedBy(s, k, c) :: !Published(s, c) && c in s.shown)
    && (forall k, l, c | RemovedBy(s, k, c) && RemovedBy(s, l, c) :: k == l)
  }

  ghost predicate Accounted(s: State) {
    forall c | c in s.shown :: Published(s, c) || exists k :: RemovedBy(s, k, c)
  }

  /** The confirmed partner is older, or belongs to the same issue and outlives the removed card. */
  ghost predicate Partner(s: State, k: nat, c: Ref, p: Ref) {
    && LinkedBy(s, k, c, p) && p in s.shown
    && (p.date < c.date || (p.date == c.date && OutlivesCorrection(s, k, p)))
  }

  ghost predicate Partnered(s: State) {
    forall k, c | RemovedBy(s, k, c) :: exists p :: Partner(s, k, c, p)
  }

  ghost predicate Inv(s: State) {
    && Dated(s) && RemovedOnce(s) && Accounted(s) && Partnered(s)
    && (forall r | r in s.reports :: Grounded(s, r))
  }

  lemma {:induction false} BetweenMembers(issues: map<nat, Issue>, lo: nat, hi: nat)
    requires forall d | d in issues :: issues[d].date == d
    ensures forall x | x in Between(issues, lo, hi) ::
      lo <= x.ref.date < hi && x.ref.date in issues && x.ref in Refs(issues[x.ref.date])
    decreases hi - lo
  {
    if lo < hi {
      BetweenMembers(issues, lo + 1, hi);
      if lo in issues {
        CardsMembers(issues[lo]);
      }
    }
  }

  /** The history window lists no card twice. */
  lemma {:induction false} BetweenDistinct(issues: map<nat, Issue>, lo: nat, hi: nat)
    requires forall d | d in issues :: issues[d].date == d && DistinctIds(issues[d].rows)
    ensures Distinct(Between(issues, lo, hi))
    decreases hi - lo
  {
    if lo < hi {
      BetweenDistinct(issues, lo + 1, hi);
      if lo in issues {
        BetweenMembers(issues, lo + 1, hi);
        CardsDistinct(issues[lo]);
        CardsMembers(issues[lo]);
        DistinctConcat(Cards(issues[lo]), Between(issues, lo + 1, hi));
      }
    }
  }

  lemma CardsDistinct(issue: Issue)
    requires DistinctIds(issue.rows)
    ensures Distinct(Cards(issue))
  {
  }

  /** The window is exactly the cards of the issues of the last 45 days before the issue's own. */
  lemma WindowExact(issues: map<nat, Issue>, day: nat, x: Shown)
    ensures x in Window(issues, day) <==>
      exists d: nat | d in issues :: d < day <= d + 45 && x in Cards(issues[d])
  {
    BetweenExact(issues, if day < HISTORY_DAYS then 0 else day - HISTORY_DAYS, day, x);
  }

  lemma {:induction false} BetweenExact(issues: map<nat, Issue>, lo: nat, hi: nat, x: Shown)
    ensures x in Between(issues, lo, hi) <==> exists d: nat | d in issues :: lo <= d < hi && x in Cards(issues[d])
    decreases hi - lo
  {
    if lo < hi {
      BetweenExact(issues, lo + 1, hi, x);
    }
  }

  /** A published issue and its history window show every card once. */
  lemma WindowDistinct(s: State, day: nat)
    requires Dated(s) && day in s.issues
    ensures Distinct(Cards(s.issues[day]) + Window(s.issues, day))
  {
    var lo := if day < HISTORY_DAYS then 0 else day - HISTORY_DAYS;
    BetweenMembers(s.issues, lo, day);
    BetweenDistinct(s.issues, lo, day);
    CardsDistinct(s.issues[day]);
    CardsMembers(s.issues[day]);
    DistinctConcat(Cards(s.issues[day]), Window(s.issues, day));
  }

  lemma CardsMembers(issue: Issue)
    ensures forall x | x in Cards(issue) :: x.ref in Refs(issue) && x.ref.date == issue.date
  {
    forall x | x in Cards(issue) ensures x.ref in Refs(issue) {
      var i :| 0 <= i < |issue.rows| && Cards(issue)[i] == x;
      assert issue.rows[i] in issue.rows;
    }
  }

  /** Whatever the candidate list pairs is a current card with another current or an earlier card. */
  lemma CandidateShape(issue: Issue, history: seq<Shown>, sc: Scorer, p: Pair)
    requires DistinctIds(issue.rows)
    requires forall x | x in history :: x.ref.date < issue.date
    requires p in CandidateList(Cards(issue), history, sc)
    ensures p.left.ref in Refs(issue) && p.left.ref != p.right.ref
    ensures p.right.ref in Refs(issue) || p.right in history
  {
    var current := Cards(issue);
    var xs := Candidates(|current|, |history|, sc);
    CandidateMembers(|current|, |history|, sc);
    var k :| 0 <= k < |xs| && p == PairsAt(current + history, xs)[k];
    assert xs[k] in xs;
    PairOfCards(issue, history, xs[k].i, xs[k].j);
  }

  lemma PairOfCards(issue: Issue, history: seq<Shown>, i: nat, j: nat)
    requires DistinctIds(issue.rows) && i < |issue.rows| && i < j < |issue.rows| + |history|
    requires forall x | x in history :: x.ref.date < issue.date
    ensures var all := Cards(issue) + history;
      && all[i].ref in Refs(issue) && all[i].ref != all[j].ref
      && (all[j].ref in Refs(issue) || all[j] in history)
  {
    var current := Cards(issue);
    CardsMembers(issue);
    assert (current + history)[i] == current[i] && current[i] in current;
    if j < |current| {
      assert (current + history)[j] == current[j] && current[j] in current;
    } else {
      assert (current + history)[j] == history[j - |current|] && history[j - |current|] in history;
    }
  }

  lemma ObserveGrounded(s: State, r: Report, sc: Scorer)
    requires Dated(s) && Enabled(s, Observe(r, sc))
    ensures Grounded(s, r)
  {
    forall p | p in r.pairs ensures PairGrounded(s, r, p) {
      ObservedPair(s, r, sc, p);
    }
  }

  lemma ObservedPair(s: State, r: Report, sc: Scorer, p: Pair)
    requires Dated(s) && r.issueDate in s.issues && r.issueHash == s.issues[r.issueDate]
    requires p in CandidateList(Cards(r.issueHash), Window(s.issues, r.issueDate), sc)
    ensures PairGrounded(s, r, p)
  {
    var history := Window(s.issues, r.issueDate);
    BetweenMembers(s.issues, if r.issueDate < HISTORY_DAYS then 0 else r.issueDate - HISTORY_DAYS, r.issueDate);
    CandidateShape(r.issueHash, history, sc, p);
    var d := p.right.ref.date;
    if p.right.ref in Refs(r.issueHash) {
      RefsPublished(s, r.issueDate, p.right.ref);
    } else {
      RefsPublished(s, d, p.right.ref);
    }
  }

  lemma RefsPublished(s: State, d: nat, c: Ref)
    requires Dated(s) && d in s.issues && c in Refs(s.issues[d])
    ensures Published(s, c) && c in s.shown
  {
  }

  lemma StillRemoved(s: State, t: State, k: nat, c: Ref)
    requires s.log <= t.log && RemovedBy(s, k, c)
    ensures RemovedBy(t, k, c)
  {
  }

  /** A partner stays a partner as long as its own fate is published-or-removed-later. */
  lemma PartnerCarries(s: State, t: State, k: nat, c: Ref, p: Ref)
    requires Partner(s, k, c, p) && s.log <= t.log && s.shown <= t.shown
    requires Published(s, p) ==> Published(t, p) || RemovedBy(t, |s.log|, p)
    ensures Partner(t, k, c, p)
  {
    assert LinkedBy(t, k, c, p);
    if p.date == c.date && !Published(s, p) {
      var later :| later > k && RemovedBy(s, later, p);
      StillRemoved(s, t, later, p);
    }
  }

  lemma AccountCarries(s: State, t: State, c: Ref)
    requires Accounted(s) && s.log <= t.log && c in s.shown
    ensures Published(s, c) || exists k :: RemovedBy(t, k, c)
  {
    if !Published(s, c) {
      var k :| RemovedBy(s, k, c);
      StillRemoved(s, t, k, c);
    }
  }

  lemma PublishKeeps(s: State, issue: Issue)
    requires Inv(s) && Enabled(s, Publish(issue))
    ensures Inv(Apply(s, Publish(issue)))
  {
    var t := Apply(s, Publish(issue));
    forall c ensures Published(t, c) <==> Published(s, c) || c in Refs(issue) {
      if c.date == issue.date {
        assert c in Refs(issue) <==> c.id in Ids(issue.rows) by {
          if c.id in Ids(issue.rows) {
            var r :| r in issue.rows && r.material.id == c.id;
            assert Ref(issue.date, r.material.id) == c;
          }
        }
      }
    }
    SameLogKeeps(s, t);
    forall c | c in t.shown ensures Published(t, c) || exists k :: RemovedBy(t, k, c) {
      if c in s.shown {
        AccountCarries(s, t, c);
      }
    }
    forall q | q in t.reports ensures Grounded(t, q) {
      assert forall p | p in q.pairs :: PairGrounded(s, q, p) && PairGrounded(t, q, p);
    }
  }

  /** Steps that leave the log alone and only add published cards keep everything said about removals. */
  lemma SameLogKeeps(s: State, t: State)
    requires RemovedOnce(s) && Partnered(s) && t.log == s.log && s.shown <= t.shown
    requires forall c | Published(s, c) :: Published(t, c)
    requires forall c | Published(t, c) && c in s.shown :: Published(s, c)
    ensures RemovedOnce(t) && Partnered(t)
  {
    forall k, c | RemovedBy(t, k, c) ensures exists p :: Partner(t, k, c, p) {
      assert RemovedBy(s, k, c);
      var p :| Partner(s, k, c, p);
      PartnerCarries(s, t, k, c, p);
    }
    forall k, c | RemovedBy(t, k, c) ensures !Published(t, c) && c in t.shown {
      assert RemovedBy(s, k, c);
    }
    forall k, l, c | RemovedBy(t, k, c) && RemovedBy(t, l, c) ensures k == l {
      assert RemovedBy(s, k, c) && RemovedBy(s, l, c);
    }
  }

  lemma EditKeeps(s: State, issue: Issue)
    requires Inv(s) && Enabled(s, Edit(issue))
    ensures Inv(Apply(s, Edit(issue)))
  {
    var t := Apply(s, Edit(issue));
    assert forall c :: Published(t, c) <==> Published(s, c);
    SameLogKeeps(s, t);
    forall c | c in t.shown ensures Published(t, c) || exists k :: RemovedBy(t, k, c) {
      AccountCarries(s, t, c);
    }
    forall q | q in t.reports ensures Grounded(t, q) {
      assert forall p | p in q.pairs :: PairGrounded(s, q, p) && PairGrounded(t, q, p);
    }
  }

  lemma ObserveKeeps(s: State, r: Report, sc: Scorer)
    requires Inv(s) && Enabled(s, Observe(r, sc))
    ensures Inv(Apply(s, Observe(r, sc)))
  {
    var t := Apply(s, Observe(r, sc));
    ObserveGrounded(s, r, sc);
    assert forall c :: Published(t, c) <==> Published(s, c);
    SameLogKeeps(s, t);
    forall c | c in t.shown ensures Published(t, c) || exists k :: RemovedBy(t, k, c) {
      AccountCarries(s, t, c);
    }
    forall q | q in t.reports ensures Grounded(t, q) {
      assert Grounded(s, q);
      assert forall p | p in q.pairs :: PairGrounded(s, q, p) && PairGrounded(t, q, p);
    }
  }

  /** What one correction does to publication: exactly the removed cards disappear. */
  lemma CorrectPublished(s: State, job: Job, r: Report)
    requires Inv(s) && Enabled(s, Correct(job, r))
    ensures forall c :: Published(Apply(s, Correct(job, r)), c) <==> Published(s, c) && !Removes(job, c)
    ensures forall c | Removes(job, c) :: Published(s, c)
    ensures exists c: Ref :: c.date == job.issueDate && Published(Apply(s, Correct(job, r)), c)
  {
    var issue := s.issues[job.issueDate];
    CorrectedRows(issue, Removal(job));
    AcceptedGraph(job, r, issue);
    var id :| id in Ids(issue.rows) && id !in job.remove;
    assert Published(Apply(s, Correct(job, r)), Ref(job.issueDate, id));
  }

  /** The partner a correction leans on: older, or kept in the same issue by this very correction. */
  lemma CorrectPartner(s: State, job: Job, r: Report, c: Ref) returns (p: Ref)
    requires Inv(s) && Enabled(s, Correct(job, r)) && Removes(job, c)
    ensures SameEventPair(job, r, c, p) && p in s.shown && !Removes(job, p)
    ensures p.date < c.date || (p.date == c.date && Published(s, p))
  {
    var issue := s.issues[job.issueDate];
    AcceptedGraph(job, r, issue);
    p :| SameEventPair(job, r, c, p);
    var pair :| pair in r.pairs && Confirmed(job, r, pair)
      && ((pair.left.ref == c && pair.right.ref == p) || (pair.left.ref == p && pair.right.ref == c));
    assert Grounded(s, r) && r.issueHash == issue;
    if p in Refs(issue) {
      RefsPublished(s, job.issueDate, p);
    }
  }

  lemma CorrectLog(s: State, job: Job, r: Report, k: nat, c: Ref)
    requires Enabled(s, Correct(job, r))
    ensures RemovedBy(Apply(s, Correct(job, r)), k, c) <==>
      RemovedBy(s, k, c) || (k == |s.log| && Removes(job, c))
  {
  }

  lemma CorrectKeepsPartners(s: State, job: Job, r: Report)
    requires Inv(s) && Enabled(s, Correct(job, r))
    ensures Partnered(Apply(s, Correct(job, r)))
  {
    var t := Apply(s, Correct(job, r));
    CorrectPublished(s, job, r);
    forall k, c | RemovedBy(t, k, c) ensures exists p :: Partner(t, k, c, p) {
      CorrectLog(s, job, r, k, c);
      if k == |s.log| {
        var p := CorrectPartner(s, job, r, c);
        assert LinkedBy(t, k, c, p);
        assert Partner(t, k, c, p);
      } else {
        var p :| Partner(s, k, c, p);
        CorrectLog(s, job, r, |s.log|, p);
        PartnerCarries(s, t, k, c, p);
      }
    }
  }

  lemma CorrectKeepsOnce(s: State, job: Job, r: Report)
    requires Inv(s) && Enabled(s, Correct(job, r))
    ensures RemovedOnce(Apply(s, Correct(job, r))) && Accounted(Apply(s, Correct(job, r)))
  {
    var t := Apply(s, Correct(job, r));
    CorrectPublished(s, job, r);
    forall k, c | RemovedBy(t, k, c) ensures !Published(t, c) && c in t.shown {
      CorrectLog(s, job, r, k, c);
    }
    forall k, l, c | RemovedBy(t, k, c) && RemovedBy(t, l, c) ensures k == l {
      CorrectLog(s, job, r, k, c);
      CorrectLog(s, job, r, l, c);
    }
    forall c | c in t.shown ensures Published(t, c) || exists k :: RemovedBy(t, k, c) {
      if !Published(t, c) {
        if Removes(job, c) {
          CorrectLog(s, job, r, |s.log|, c);
          assert RemovedBy(t, |s.log|, c);
        } else {
          AccountCarries(s, t, c);
        }
      }
    }
  }

  lemma CorrectKeeps(s: State, job: Job, r: Report)
    requires Inv(s) && Enabled(s, Correct(job, r))
    ensures Inv(Apply(s, Correct(job, r)))
  {
    var t := Apply(s, Correct(job, r));
    CorrectKeepsPartners(s, job, r);
    CorrectKeepsOnce(s, job, r);
    CorrectPublished(s, job, r);
    CorrectedRows(s.issues[job.issueDate], Removal(job));
    forall q | q in t.reports ensures Grounded(t, q) {
      assert Grounded(s, q);
      assert forall p | p in q.pairs :: PairGrounded(s, q, p) && PairGrounded(t, q, p);
    }
  }

  lemma StepKeeps(s: State, step: Step)
    requires Inv(s) && Enabled(s, step)
    ensures Inv(Apply(s, step))
  {
    match step
    case Publish(issue) => PublishKeeps(s, issue);
    case Edit(issue) => EditKeeps(s, issue);
    case Observe(r, sc) => ObserveKeeps(s, r, sc);
    case Correct(job, r) => CorrectKeeps(s, job, r);
  }

  lemma {:induction false} RunKeeps(s: State, steps: seq<Step>, end: State)
    requires Inv(s) && RunsTo(s, steps, end)
    ensures Inv(end)
    decreases |steps|
  {
    if steps != [] {
      StepKeeps(s, steps[0]);
      RunKeeps(Apply(s, steps[0]), steps[1..], end);
    }
  }

  // ------------------------------------------------------ representative chains

  /** The two sides of a confirmed pair of the correction that removed the first of them. */
  ghost predicate Represents(s: State, c: Ref, p: Ref) {
    p.date <= c.date && exists k :: LinkedBy(s, k, c, p)
  }

  /** Every card of the chain is represented by the next one; the last card is published now. */
  ghost predicate Chain(s: State, cs: seq<Ref>) {
    && cs != [] && Published(s, cs[|cs| - 1])
    && forall i | 0 <= i < |cs| - 1 :: Represents(s, cs[i], cs[i + 1])
  }

  /** The measure is lexicographic: the issue date, then the corrections that came after the removal. */
  lemma ChainFrom(s: State, c: Ref, k: nat) returns (cs: seq<Ref>)
    requires Inv(s) && RemovedBy(s, k, c)
    ensures Chain(s, cs) && |cs| > 1 && cs[0] == c
    decreases c.date, |s.log| - k
  {
    var p :| Partner(s, k, c, p);
    assert Represents(s, c, p);
    if Published(s, p) {
      cs := [c, p];
    } else {
      var l := NextRemoval(s, k, c, p);
      cs := ChainFrom(s, p, l);
      cs := Prepend(s, c, cs);
    }
  }

  lemma NextRemoval(s: State, k: nat, c: Ref, p: Ref) returns (l: nat)
    requires Inv(s) && Partner(s, k, c, p) && !Published(s, p)
    ensures RemovedBy(s, l, p) && (p.date < c.date || (p.date == c.date && l > k))
  {
    if p.date == c.date {
      l :| l > k && RemovedBy(s, l, p);
    } else {
      l :| RemovedBy(s, l, p);
    }
  }

  ghost function Prepend(s: State, c: Ref, cs: seq<Ref>): (r: seq<Ref>)
    requires Chain(s, cs) && Represents(s, c, cs[0])
    ensures Chain(s, r) && |r| > 1 && r[0] == c
  {
    var r := [c] + cs;
    assert forall i | 0 <= i < |r| - 1 :: i > 0 ==> r[i] == cs[i - 1] && r[i + 1] == cs[i];
    r
  }

  /** In every reachable archive each card ever shown is published or has a chain of confirmed
      same-event pairs to a card that is. */
  lemma EveryRemovedCardIsRepresented(steps: seq<Step>, end: State, c: Ref) returns (cs: seq<Ref>)
    requires RunsTo(Empty, steps, end) && c in end.shown
    ensures Chain(end, cs) && cs[0] == c
    ensures |cs| == 1 <==> Published(end, c)
  {
    RunKeeps(Empty, steps, end);
    if Published(end, c) {
      cs := [c];
    } else {
      var k :| RemovedBy(end, k, c);
      cs := ChainFrom(end, c, k);
    }
  }

  /** In every reachable archive a published issue of at most ten cards is fully observed after two
      attempts with a cooperative model, whatever was cached before, provided its report keeps the
      format's limits on texts and length; if not, the report is refused. */
  lemma TenCardIssueObserved(
    steps: seq<Step>, end: State, day: nat, sc: Scorer, cache: Cache, w1: World, w2: World)
    requires RunsTo(Empty, steps, end) && day in end.issues && |end.issues[day].rows| <= 10
    requires forall b | b in cache :: ValidFor(b, cache[b])
    requires var cands := CandidateList(Cards(end.issues[day]), Window(end.issues, day), sc);
      Cooperative(cands, w1) && Cooperative(cands, w2)
    ensures var cands := CandidateList(Cards(end.issues[day]), Window(end.issues, day), sc);
      var a1 := CheckFrom(cands, 0, Start(cache), w1);
      var a2 := CheckFrom(cands, 0, Start(a1.cache), w2);
      && Good(cands, Batches(|cands|), a2, a1.cache)
      && Finish(cands, a2, w2) == if w2.Takes(cands) then Reported(cands, Complete) else Rejected
  {
    RunKeeps(Empty, steps, end);
    WindowDistinct(end, day);
    TenCardsComplete(Cards(end.issues[day]), Window(end.issues, day), sc, cache, w1, w2);
  }

  /** What an attempt reports of a published issue is a valid report, and can be observed. */
  lemma FinishedReportEnters(
    steps: seq<Step>, end: State, day: nat, sc: Scorer, cache: Cache, w: World, a: Attempt, id: int)
    requires RunsTo(Empty, steps, end) && day in end.issues
    requires forall b | b in cache :: ValidFor(b, cache[b])
    requires var cands := CandidateList(Cards(end.issues[day]), Window(end.issues, day), sc);
      && a == CheckFrom(cands, 0, Start(cache), w) && Good(cands, Batches(|cands|), a, cache)
      && Finish(cands, a, w).Reported?
    ensures var cands := CandidateList(Cards(end.issues[day]), Window(end.issues, day), sc);
      Enabled(end, Observe(Report(id, day, end.issues[day], Finish(cands, a, w).pairs), sc))
  {
    RunKeeps(Empty, steps, end);
    var issue, history := end.issues[day], Window(end.issues, day);
    var cands := CandidateList(Cards(issue), history, sc);
    BetweenMembers(end.issues, if day < HISTORY_DAYS then 0 else day - HISTORY_DAYS, day);
    WindowDistinct(end, day);
    CandidatesDiffer(Cards(issue), history, sc);
    ReportedOnce(cands, a.done);
    forall p | p in Finish(cands, a, w).pairs ensures p in cands && p.left.ref.date == day {
      CandidateShape(issue, history, sc, p);
    }
  }

  /** An observation is kept: whatever it authorises can be applied to the issue as long as that stands
      as observed, and not once its text was edited. */
  lemma ObservedUntilEdited(s: State, r: Report, sc: Scorer, job: Job, edited: Issue)
    requires Enabled(s, Observe(r, sc))
    requires ValidateSelection(job, r, s.issues[r.issueDate]) == Accepted && job.issueDate == r.issueDate
    ensures Enabled(Apply(s, Observe(r, sc)), Correct(job, r))
    ensures var t := Apply(s, Observe(r, sc));
      Enabled(t, Edit(edited)) && edited.date == job.issueDate && edited != r.issueHash ==>
        !Enabled(Apply(t, Edit(edited)), Correct(job, r))
  {
    if edited.date == job.issueDate {
      DecisionMeans(job, r, edited);
    }
  }

  /** Corrections never empty an issue, and a removed card never comes back. */
  lemma CorrectionsNeverEmpty(s: State, job: Job, r: Report)
    requires Inv(s) && Enabled(s, Correct(job, r))
    ensures exists c: Ref :: c.date == job.issueDate && Published(Apply(s, Correct(job, r)), c)
    ensures var t := Apply(s, Correct(job, r)); forall c | Published(t, c) :: forall k :: !RemovedBy(t, k, c)
  {
    CorrectPublished(s, job, r);
    CorrectKeepsOnce(s, job, r);
  }
}
