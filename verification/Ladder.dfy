/** The acquisition ladder. */
module Ladder {
  // The acquisition ladder: which way of obtaining a document's text is tried next, and when and for whom it
  // ends.

  import opened Ordering
  import opened Sets
  import opened Wrappers

  datatype Rung =
    | Network | BrowserHeaders | RobotsOverride
    | SourceSpecificParse | BrowserRender | WebArchive | OperatorArtifact

  /** What the fetcher can do on its own. */
  predicate Automatic(r: Rung) {
    r == Network || r == BrowserHeaders || r == RobotsOverride
  }

  datatype Reason =
    | RemovedAtSource | RequiresCredentials | NoPublicText | BlockedByHost
    | LadderExhausted | RefusedByPolicy | TransientExhausted

  datatype Owner = Machine | HostOwner | Operator

  datatype Error =
    | NoError | Http(code: nat) | RobotsDenied | ContentParseError | WeakOrMissingText | BodyTooLarge
    | TooManyRedirects | Timeout | NetworkError | ParseOrIoError | EmptyResponse | RedirectWithoutLocation
    | OtherError(code: nat)

  datatype Step = Next(rung: Rung) | Stop(reason: Reason, owner: Owner)

  function EndsLadder(e: Error): Option<Step> {
    if e == Http(404) || e == Http(410) then Some(Stop(RemovedAtSource, Machine))
    else if e == Http(401) || e == Http(402) || e == Http(407) then Some(Stop(RequiresCredentials, HostOwner))
    else if e == Http(451) then Some(Stop(NoPublicText, HostOwner))
    else None
  }

  predicate Transient(e: Error) {
    || e == Timeout || e == NetworkError || e == ParseOrIoError || e == EmptyResponse || e == RedirectWithoutLocation
    || e == Http(500) || e == Http(502) || e == Http(503) || e == Http(504)
  }

  function Hint(e: Error): Option<Rung> {
    match e
    case RobotsDenied => Some(RobotsOverride)
    case Http(code) => if code == 403 || code == 429 then Some(BrowserHeaders) else None
    case ContentParseError => Some(SourceSpecificParse)
    case WeakOrMissingText => Some(BrowserRender)
    case BodyTooLarge => Some(WebArchive)
    case TooManyRedirects => Some(WebArchive)
    case _ => None
  }

  datatype Profile = Profile(rungs: seq<Rung>, overrideRecorded: bool)
  {
    predicate Allows(r: Rung) {
      r in rungs && (r == RobotsOverride ==> overrideRecorded)
    }
  }

  /** The first rung of the profile still to be climbed decides. */
  function Search(p: Profile, rungs: seq<Rung>, tried: set<Rung>): Step {
    if rungs == [] then Stop(LadderExhausted, Operator)
    else if rungs[0] in tried || !p.Allows(rungs[0]) then Search(p, rungs[1..], tried)
    else if !Automatic(rungs[0]) then Stop(LadderExhausted, Operator)
    else Next(rungs[0])
  }

  function NextStep(p: Profile, tried: set<Rung>, e: Error): Step {
    if p.rungs == [] then Stop(RefusedByPolicy, HostOwner)
    else if EndsLadder(e).Some? then EndsLadder(e).value
    else if Transient(e) then Stop(TransientExhausted, Machine)
    else
      var hint := Hint(e);
      if hint.Some? && hint.value !in tried then
        if p.Allows(hint.value) then
          if Automatic(hint.value) then Next(hint.value) else Stop(LadderExhausted, Operator)
        else if Automatic(hint.value) then Stop(BlockedByHost, HostOwner)
        else Stop(LadderExhausted, Operator)
      else Search(p, p.rungs, tried)
  }

  // ------------------------------------------------------------------- single steps

  function OwnerOf(reason: Reason): Owner {
    match reason
    case RemovedAtSource => Machine
    case TransientExhausted => Machine
    case LadderExhausted => Operator
    case _ => HostOwner
  }

  /** Whose move it is follows from the reason alone. */
  lemma ReasonNamesOwner(p: Profile, tried: set<Rung>, e: Error)
    ensures var s := NextStep(p, tried, e); s.Stop? ==> s.owner == OwnerOf(s.reason)
  {
    SearchReason(p, p.rungs, tried);
  }

  /** What ends the ladder of a host that is not refused altogether, whatever was tried: the page is gone,
      access or law forbids it, or nothing was learnt about it. */
  lemma EndsWhatever(p: Profile, tried: set<Rung>, e: Error)
    requires p.rungs != []
    ensures var s := NextStep(p, tried, e);
      && (s == Stop(RemovedAtSource, Machine) <==> e in {Http(404), Http(410)})
      && (s == Stop(RequiresCredentials, HostOwner) <==> e in {Http(401), Http(402), Http(407)})
      && (s == Stop(NoPublicText, HostOwner) <==> e == Http(451))
      && (s == Stop(TransientExhausted, Machine) <==>
            e in {Timeout, NetworkError, ParseOrIoError, EmptyResponse, RedirectWithoutLocation,
                  Http(500), Http(502), Http(503), Http(504)})
      && s != Stop(RefusedByPolicy, HostOwner)
  {
    SearchReason(p, p.rungs, tried);
  }

  /** Where an error points: what a host with every rung and a recorded override does about it first. */
  lemma FirstMoves(p: Profile)
    requires p.overrideRecorded && forall r :: r in p.rungs
    ensures NextStep(p, {Network}, RobotsDenied) == Next(RobotsOverride)
    ensures NextStep(p, {Network}, Http(403)) == NextStep(p, {Network}, Http(429)) == Next(BrowserHeaders)
  {
    assert Network in p.rungs;
  }

  /** No other error points anywhere. */
  lemma PointersAre(e: Error)
    ensures Hint(e).Some? <==>
      e in {RobotsDenied, Http(403), Http(429), ContentParseError, WeakOrMissingText, BodyTooLarge, TooManyRedirects}
  {
  }

  /** The other errors that point anywhere point at manual rungs, and stop there. */
  lemma ManualMoves(p: Profile, tried: set<Rung>)
    requires p.rungs != [] && SourceSpecificParse !in tried && BrowserRender !in tried && WebArchive !in tried
    ensures Hint(ContentParseError) == Some(SourceSpecificParse) && Hint(WeakOrMissingText) == Some(BrowserRender)
    ensures Hint(BodyTooLarge) == Hint(TooManyRedirects) == Some(WebArchive)
    ensures forall e | e in {ContentParseError, WeakOrMissingText, BodyTooLarge, TooManyRedirects} ::
      NextStep(p, tried, e) == Stop(LadderExhausted, Operator)
  {
  }

  lemma {:induction false} SearchGivesAllowed(p: Profile, rungs: seq<Rung>, tried: set<Rung>)
    ensures var s := Search(p, rungs, tried);
      s.Next? ==> s.rung in rungs && s.rung !in tried && p.Allows(s.rung) && Automatic(s.rung)
  {
    if rungs != [] {
      SearchGivesAllowed(p, rungs[1..], tried);
    }
  }

  /** A document only ever moves to an automatic rung that is new to it and that the profile allows,
      the robots override only where it is on record. */
  lemma StepIsAllowed(p: Profile, tried: set<Rung>, e: Error)
    ensures var s := NextStep(p, tried, e);
      s.Next? ==>
        && Automatic(s.rung) && s.rung !in tried && p.Allows(s.rung)
        && (s.rung == RobotsOverride ==> p.overrideRecorded)
  {
    SearchGivesAllowed(p, p.rungs, tried);
  }

  /** The k-th rung of the profile is the first that is still open. */
  predicate FirstOpen(p: Profile, rungs: seq<Rung>, tried: set<Rung>, k: int) {
    && 0 <= k < |rungs| && rungs[k] !in tried && p.Allows(rungs[k])
    && forall q | 0 <= q < k :: rungs[q] in tried || !p.Allows(rungs[q])
  }

  lemma {:induction false} SearchIff(p: Profile, rungs: seq<Rung>, tried: set<Rung>)
    ensures Search(p, rungs, tried).Next? <==> exists k :: FirstOpen(p, rungs, tried, k) && Automatic(rungs[k])
  {
    if rungs != [] {
      SearchIff(p, rungs[1..], tried);
      if rungs[0] in tried || !p.Allows(rungs[0]) {
        forall k | FirstOpen(p, rungs[1..], tried, k) ensures FirstOpen(p, rungs, tried, k + 1) {
          forall q | 0 <= q < k + 1 ensures rungs[q] in tried || !p.Allows(rungs[q]) {
            if q > 0 {
              assert rungs[1..][q - 1] == rungs[q];
            }
          }
        }
        forall k | FirstOpen(p, rungs, tried, k) ensures k > 0 && FirstOpen(p, rungs[1..], tried, k - 1) {
          assert forall q | 0 <= q < k - 1 :: rungs[1..][q] == rungs[q + 1];
        }
      } else {
        assert FirstOpen(p, rungs, tried, 0);
        forall k | FirstOpen(p, rungs, tried, k) ensures k == 0 {
        }
      }
    }
  }

  predicate HintOpen(tried: set<Rung>, e: Error) {
    Hint(e).Some? && Hint(e).value !in tried
  }

  predicate Judged(p: Profile, e: Error) {
    p.rungs != [] && EndsLadder(e).None? && !Transient(e)
  }

  /** A rung is open to go on to: nothing ends the ladder, and the rung the error points at, or else the
      first open rung of the profile, is automatic and allowed. */
  ghost predicate MayGoOn(p: Profile, tried: set<Rung>, e: Error) {
    Judged(p, e) &&
    if HintOpen(tried, e) then Automatic(Hint(e).value) && p.Allows(Hint(e).value)
    else exists k :: FirstOpen(p, p.rungs, tried, k) && Automatic(p.rungs[k])
  }

  /** Exactly when a document goes on: nothing ends the ladder, and the rung its error points at, or
      else the first open rung of the profile, is automatic and allowed.  A manual rung listed earlier
      therefore stops the document in front of automatic ones. */
  lemma ContinuesIff(p: Profile, tried: set<Rung>, e: Error)
    ensures NextStep(p, tried, e).Next? <==> MayGoOn(p, tried, e)
  {
    SearchIff(p, p.rungs, tried);
  }

  lemma ManualRungStopsEarly()
    ensures var manualFirst := Profile([Network, WebArchive, BrowserHeaders], false);
      var manualLast := Profile([Network, BrowserHeaders, WebArchive], false);
      && NextStep(manualFirst, {Network}, NoError) == Stop(LadderExhausted, Operator)
      && NextStep(manualLast, {Network}, NoError) == Next(BrowserHeaders)
  {
    var a, b := [Network, WebArchive, BrowserHeaders], [Network, BrowserHeaders, WebArchive];
    assert a[1..] == [WebArchive, BrowserHeaders] && b[1..] == [BrowserHeaders, WebArchive];
  }

  function Granted(p: Profile, r: Rung): Profile {
    Profile(if r in p.rungs then p.rungs else p.rungs + [r], p.overrideRecorded || r == RobotsOverride)
  }

  /** `blocked_by_host` means one decision is missing, and says which: allowing the rung the error
      points at moves the document to exactly that rung. */
  lemma BlockedIsOneGrantAway(p: Profile, tried: set<Rung>, e: Error)
    ensures NextStep(p, tried, e) == Stop(BlockedByHost, HostOwner) <==>
      (Judged(p, e) && HintOpen(tried, e) && !p.Allows(Hint(e).value)
       && NextStep(Granted(p, Hint(e).value), tried, e) == Next(Hint(e).value))
    ensures NextStep(p, tried, e).Stop? && NextStep(p, tried, e).reason == BlockedByHost ==>
      NextStep(p, tried, e).owner == HostOwner
  {
    SearchReason(p, p.rungs, tried);
  }

  lemma {:induction false} SearchReason(p: Profile, rungs: seq<Rung>, tried: set<Rung>)
    ensures Search(p, rungs, tried).Next? || Search(p, rungs, tried) == Stop(LadderExhausted, Operator)
  {
    if rungs != [] {
      SearchReason(p, rungs[1..], tried);
    }
  }

  lemma {:induction false} SearchLonger(p: Profile, q: Profile, a: seq<Rung>, b: seq<Rung>, tried: set<Rung>)
    requires q.rungs == p.rungs + b && q.overrideRecorded == p.overrideRecorded
    requires forall r | r in a :: r in p.rungs
    requires Search(p, a, tried).Next?
    ensures Search(q, a + b, tried) == Search(p, a, tried)
  {
    assert (a + b)[0] == a[0] && (a + b)[1..] == a[1..] + b;
    if a[0] in tried || !p.Allows(a[0]) {
      SearchLonger(p, q, a[1..], b, tried);
    }
  }

  /** Appending rungs to a profile never stops a document that would go on, nor redirects it. */
  lemma MoreRungsKeepGoing(p: Profile, more: seq<Rung>, tried: set<Rung>, e: Error)
    requires NextStep(p, tried, e).Next?
    ensures NextStep(p.(rungs := p.rungs + more), tried, e) == NextStep(p, tried, e)
  {
    if !HintOpen(tried, e) {
      SearchLonger(p, p.(rungs := p.rungs + more), p.rungs, more, tried);
    }
  }

  lemma {:induction false} SearchOverridden(p: Profile, rungs: seq<Rung>, tried: set<Rung>)
    requires Search(p, rungs, tried).Next?
    ensures var s := Search(p.(overrideRecorded := true), rungs, tried);
      s.Next? && (s == Search(p, rungs, tried) || s.rung == RobotsOverride)
  {
    if rungs[0] in tried || !p.Allows(rungs[0]) {
      SearchOverridden(p, rungs[1..], tried);
    }
  }

  /** Recording a robots override never stops a document either; at most it sends it there first. */
  lemma OverrideKeepsGoing(p: Profile, tried: set<Rung>, e: Error)
    requires NextStep(p, tried, e).Next?
    ensures var s := NextStep(p.(overrideRecorded := true), tried, e);
      s.Next? && (s == NextStep(p, tried, e) || s.rung == RobotsOverride)
  {
    if !HintOpen(tried, e) {
      SearchOverridden(p, p.rungs, tried);
    }
  }

  // --------------------------------------------------------------------- whole runs

  /** A row of the fetch queue. */
  datatype Doc = Doc(current: Rung, tried: seq<Rung>, terminal: Option<Step>)

  /** The rungs behind a document once the one it stands on is counted. */
  function TriedNow(d: Doc): seq<Rung> {
    if d.current in d.tried then d.tried else d.tried + [d.current]
  }

  /** The rung a document stands on is counted as tried, once. */
  lemma TriedOnce(d: Doc)
    requires Distinct(d.tried)
    ensures Distinct(TriedNow(d)) && SetOf(TriedNow(d)) == SetOf(d.tried) + {d.current}
    ensures d.tried <= TriedNow(d)
  {
  }

  /** One planning pass over a document: terminal rows are left out of the queue. */
  function Plan(d: Doc, p: Profile, e: Error): Doc {
    if d.terminal.Some? then d
    else
      var tried := TriedNow(d);
      var s := NextStep(p, SetOf(tried), e);
      match s
      case Next(rung) => Doc(rung, tried, None)
      case Stop(_, _) => Doc(d.current, tried, Some(s))
  }

  datatype Attempt = Attempt(profile: Profile, error: Error)

  function PlanAll(d: Doc, attempts: seq<Attempt>): Doc {
    if attempts == [] then d
    else
      var last := attempts[|attempts| - 1];
      Plan(PlanAll(d, attempts[..|attempts| - 1]), last.profile, last.error)
  }

  const Queued := Doc(Network, [], None)

  /** After n passes a document still on the ladder has n automatic rungs behind it and stands on a
      different one. */
  ghost predicate OnLadder(d: Doc, n: nat) {
    && Distinct(d.tried) && (forall r | r in d.tried :: Automatic(r))
    && (d.terminal.None? ==>
          |d.tried| == n && Automatic(d.current) && d.current !in d.tried)
    && (d.terminal.Some? ==> d.terminal.value.Stop?)
  }

  lemma {:induction false} AlwaysOnLadder(attempts: seq<Attempt>)
    ensures OnLadder(PlanAll(Queued, attempts), |attempts|)
  {
    if attempts != [] {
      var init, last := attempts[..|attempts| - 1], attempts[|attempts| - 1];
      AlwaysOnLadder(init);
      var d := PlanAll(Queued, init);
      if d.terminal.None? {
        StepIsAllowed(last.profile, SetOf(d.tried + [d.current]), last.error);
        assert d.current in d.tried + [d.current];
      }
    }
  }

  lemma AtMostThree(s: seq<Rung>)
    requires Distinct(s) && forall r | r in s :: Automatic(r)
    ensures |s| <= 3
  {
    SetSize(s);
    var three := {Network, BrowserHeaders, RobotsOverride};
    assert SetOf(s) <= three;
    SubsetSize(SetOf(s), three);
  }

  /** Whatever errors come back and however the host's profile is rewritten in between, no rung is
      tried twice, at most the three automatic ones are, and the third pass at the latest ends with a
      reason and an owner. */
  lemma LadderEnds(attempts: seq<Attempt>)
    ensures var d := PlanAll(Queued, attempts);
      && Distinct(d.tried) && |d.tried| <= 3 && (forall r | r in d.tried :: Automatic(r))
      && (|attempts| >= 3 ==> d.terminal.Some? && d.terminal.value.Stop?)
  {
    AlwaysOnLadder(attempts);
    var d := PlanAll(Queued, attempts);
    AtMostThree(d.tried);
    if d.terminal.None? {
      var all := d.tried + [d.current];
      forall r | r in all ensures Automatic(r) {
      }
      AtMostThree(all);
    }
  }

  /** Planning again with nothing fetched in between changes nothing exactly when the document is off the
      ladder already or has no rung to go on to.  Otherwise the rung just chosen counts as tried although
      it never was. */
  lemma PlanTwiceIff(d: Doc, p: Profile, e: Error)
    ensures Plan(Plan(d, p, e), p, e) == Plan(d, p, e) <==>
      d.terminal.Some? || !MayGoOn(p, SetOf(TriedNow(d)), e)
    ensures d.terminal.None? && MayGoOn(p, SetOf(TriedNow(d)), e) ==>
      Plan(d, p, e).current in Plan(Plan(d, p, e), p, e).tried
  {
    ContinuesIff(p, SetOf(TriedNow(d)), e);
    StepIsAllowed(p, SetOf(TriedNow(d)), e);
    var once := Plan(d, p, e);
    if once.terminal.None? {
      assert once.current !in once.tried;
      assert once.current in once.tried + [once.current];
    }
  }

  /** So a document granted a robots override is written off by the very next pass. */
  lemma OverrideNeverTried()
    ensures var p := Profile([Network, RobotsOverride], true);
      var once := Plan(Queued, p, RobotsDenied);
      once.current == RobotsOverride && once.terminal.None?
      && Plan(once, p, RobotsDenied).terminal == Some(Stop(LadderExhausted, Operator))
  {
    var p := Profile([Network, RobotsOverride], true);
    var once := Plan(Queued, p, RobotsDenied);
    assert p.rungs[1..] == [RobotsOverride] && p.rungs[1..][1..] == [];
    assert once.tried == [Network];
    var tried := SetOf([Network, RobotsOverride]);
    assert Network in [Network, RobotsOverride] && RobotsOverride in [Network, RobotsOverride];
    assert once.tried + [RobotsOverride] == [Network, RobotsOverride];
    assert Network in tried && RobotsOverride in tried;
    assert Search(p, p.rungs, tried) == Search(p, p.rungs[1..], tried);
  }
}
