/** The correction worker. */
module CorrectionWorker {
  // The worker that builds and publishes one owner-confirmed correction, as steps over durable files with a
  // crash possible between any two of them and with other publications moving the source.

  import opened Wrappers
  import P = Publisher

  type Pointer = P.Pointer

  /** build.json: the package with the base it was built from, and everything the publisher is given. */
  datatype Build = Build(
    attempt: nat, base: Pointer, package: int, createdAt: int, finishedAt: int, applicationRelease: int)

  type Desk = P.Desk<Build>

  type Request = P.Request<Build>

  /** Where the worker process is; a crash forgets it. */
  datatype Control =
    | Idle
    | Decided(kept: Option<Build>, pointer: Pointer)
    | Building(attempt: nat, pointer: Pointer, made: bool)
    | Built(build: Build)
    | Publishing(build: Build, stage: P.Stage)

  /** `builds` counts build directories, `desks` holds the publisher's files by candidate number, `sent`
      every request that reached transport. */
  datatype State = State(
    control: Control, builds: nat, buildFile: Option<Build>, resultFile: bool,
    desks: map<nat, Desk>, source: Pointer, retry: nat, sent: seq<Request>)

  datatype Step =
    | Crash
    | MoveSource(to: Pointer)
    | DropRelease(attempt: nat)
    | ConfirmAgain
    | Begin
    | StartBuild(retrySeen: nat)
    | MakeBuildDirectory
    | FinishBuild(package: int, createdAt: int, finishedAt: int, applicationRelease: int)
    | WriteBuild
    | EnterPublisher
    | Publish(step: P.Step)
    | WriteResult

  const BUILDS_PER_CONFIRMATION := 3

  function CallOf(b: Build): P.Call<Build> {
    P.Call(b, b.attempt, b.base, b.package)
  }

  function DeskOf(s: State, attempt: nat): Desk {
    if attempt in s.desks then s.desks[attempt] else P.Untouched()
  }

  /** build.json is used as it stands once its receipt exists; before that only on an unmoved source. */
  function Reusable(s: State): Option<Build> {
    if s.buildFile.Some? &&
       (DeskOf(s, s.buildFile.value.attempt).receipt.Some? || s.buildFile.value.base.state == s.source.state)
    then s.buildFile
    else None
  }

  /** What the publisher sees. */
  function WorldOf(s: State): P.World<Build>
    requires s.control.Publishing?
  {
    P.World(s.control.stage, DeskOf(s, s.control.build.attempt), s.source, s.sent)
  }

  function WithWorld(s: State, w: P.World<Build>): State
    requires s.control.Publishing?
  {
    s.(control := s.control.(stage := w.stage), desks := s.desks[s.control.build.attempt := w.desk],
       source := w.source, sent := w.sent)
  }

  predicate Enabled(s: State, step: Step) {
    match step
    case Crash => true
    case MoveSource(_) => true
    case DropRelease(a) => P.MayDrop(DeskOf(s, a), StageOf(s))
    case ConfirmAgain => true
    case Begin => s.control.Idle? && !s.resultFile
    case StartBuild(seen) =>
      && s.control.Decided? && s.control.kept.None? && seen <= s.retry
      && s.builds + 1 <= BUILDS_PER_CONFIRMATION * (seen + 1)
    case MakeBuildDirectory => s.control.Building? && !s.control.made
    case FinishBuild(_, _, _, _) => s.control.Building? && s.control.made
    case WriteBuild => s.control.Built?
    case EnterPublisher => s.control.Decided? && s.control.kept.Some?
    case Publish(p) => s.control.Publishing? && P.Can(CallOf(s.control.build), WorldOf(s), p)
    case WriteResult => s.control.Publishing? && s.control.stage.Returned?
  }

  function Apply(s: State, step: Step): State
    requires Enabled(s, step)
  {
    var c := s.control;
    match step
    case Crash => s.(control := Idle)
    case MoveSource(to) => s.(source := to)
    case DropRelease(a) => s.(desks := s.desks[a := P.Dropped(DeskOf(s, a))])
    case ConfirmAgain => s.(retry := s.retry + 1)
    case Begin => s.(control := Decided(Reusable(s), s.source))
    case StartBuild(_) => s.(control := Building(s.builds + 1, c.pointer, false))
    case MakeBuildDirectory => s.(control := c.(made := true), builds := s.builds + 1)
    case FinishBuild(package, created, finished, app) =>
      s.(control := Built(Build(c.attempt, c.pointer, package, created, finished, app)))
    case WriteBuild => s.(control := Publishing(c.build, P.Entered), buildFile := Some(c.build))
    case EnterPublisher => s.(control := Publishing(c.kept.value, P.Entered))
    case Publish(p) => WithWorld(s, P.Do(CallOf(c.build), WorldOf(s), p))
    case WriteResult => s.(control := Idle, resultFile := true)
  }

  predicate RunsTo(s: State, steps: seq<Step>, end: State)
    decreases |steps|
  {
    if steps == [] then s == end
    else Enabled(s, steps[0]) && RunsTo(Apply(s, steps[0]), steps[1..], end)
  }

  function Initial(source: Pointer): State {
    State(Idle, 0, None, false, map[], source, 0, [])
  }

  // -------------------------------------------------------------- invariant

  /** The publisher has begun to keep files for the package in build.json. */
  predicate Begun(s: State) {
    s.buildFile.Some? && DeskOf(s, s.buildFile.value.attempt).receipt.Some?
  }

  /** What the running process knows about the durable files. */
  predicate ControlFits(s: State) {
    match s.control
    case Idle => true
    case Decided(build, _) => if build.Some? then build == s.buildFile else !Begun(s)
    case Building(attempt, _, made) => !Begun(s) && attempt == s.builds + (if made then 0 else 1)
    case Built(b) => !Begun(s) && b.attempt == s.builds
    case Publishing(b, stage) =>
      s.buildFile == Some(b) && P.StageFits(CallOf(b), DeskOf(s, b.attempt), stage)
  }

  /** Files, requests and outcomes exist for the candidate in build.json only. */
  predicate DesksFit(s: State) {
    && (forall a | a in s.desks && s.desks[a] != P.Untouched() ::
          s.buildFile.Some? && s.buildFile.value.attempt == a)
    && (s.buildFile.Some? ==> P.DeskFits(CallOf(s.buildFile.value), DeskOf(s, s.buildFile.value.attempt)))
  }

  function StageOf(s: State): P.Stage {
    if s.control.Publishing? then s.control.stage else P.Entered
  }

  /** Nothing was sent but the request of the package in build.json; that one was, if its outcome is saved. */
  predicate SentFits(s: State) {
    && (forall q | q in s.sent ::
          && s.buildFile.Some? && q == P.TheRequest(CallOf(s.buildFile.value))
          && DeskOf(s, s.buildFile.value.attempt).request.Some?)
    && (s.buildFile.Some? ==>
          var b := s.buildFile.value; P.SentFits(CallOf(b), DeskOf(s, b.attempt), StageOf(s), s.sent))
  }

  predicate Inv(s: State) {
    && s.builds <= BUILDS_PER_CONFIRMATION * (s.retry + 1) - (if s.control.Building? && !s.control.made then 1 else 0)
    && DesksFit(s) && SentFits(s) && ControlFits(s)
    && (s.resultFile ==> s.control.Idle? && Begun(s) && DeskOf(s, s.buildFile.value.attempt).outcome)
  }

  /** A candidate whose files the publisher has not begun has none. */
  lemma NotBegun(s: State)
    requires DesksFit(s) && SentFits(s) && !Begun(s)
    ensures forall a :: DeskOf(s, a) == P.Untouched()
    ensures forall q :: q !in s.sent
  {
  }

  lemma WriteBuildKeeps(s: State)
    requires Inv(s) && Enabled(s, WriteBuild)
    ensures Inv(Apply(s, WriteBuild))
  {
    NotBegun(s);
    var t := Apply(s, WriteBuild);
    assert forall a :: DeskOf(t, a) == DeskOf(s, a);
  }

  lemma DropKeeps(s: State, a: nat)
    requires Inv(s) && Enabled(s, DropRelease(a))
    ensures Inv(Apply(s, DropRelease(a)))
  {
    var b := s.buildFile.value;
    assert b.attempt == a;
    P.DropFits(CallOf(b), DeskOf(s, a), StageOf(s));
  }

  lemma PublishKeeps(s: State, p: P.Step)
    requires Inv(s) && Enabled(s, Publish(p))
    ensures Inv(Apply(s, Publish(p)))
  {
    P.StepFits(CallOf(s.control.build), WorldOf(s), p);
  }

  lemma StepKeeps(s: State, step: Step)
    requires Inv(s) && Enabled(s, step)
    ensures Inv(Apply(s, step))
  {
    match step
    case WriteBuild => WriteBuildKeeps(s);
    case Publish(p) => PublishKeeps(s, p);
    case DropRelease(a) => DropKeeps(s, a);
    case _ =>
      assert forall a :: DeskOf(Apply(s, step), a) == DeskOf(s, a);
  }

  lemma {:induction false} RunKeeps(s: State, steps: seq<Step>, end: State)
    requires Inv(s) && RunsTo(s, steps, end)
    ensures Inv(end)
    decreases |steps|
  {
    if steps != [] {
      StepKeeps(s, steps[0]);
      RunKeeps(Apply(s, steps[0]), steps[1..], end);
    }
  }

  // ------------------------------------------------------------- whole runs

  /** However often the process dies and the source moves, every request a review sends is the same
      request: one candidate, one package, one set of timestamps, one base. */
  lemma OneRequestEver(source: Pointer, steps: seq<Step>, end: State, i: nat, j: nat)
    requires RunsTo(Initial(source), steps, end) && i < |end.sent| && j < |end.sent|
    ensures end.sent[i] == end.sent[j]
    ensures end.buildFile == Some(end.sent[i].input) && end.sent[i].base == end.sent[i].input.base
  {
    RunKeeps(Initial(source), steps, end);
    assert end.sent[i] in end.sent && end.sent[j] in end.sent;
  }

  /** A saved result means that the request of its package went out. */
  lemma ResultMeansSent(source: Pointer, steps: seq<Step>, end: State)
    requires RunsTo(Initial(source), steps, end) && end.resultFile
    ensures end.buildFile.Some? && P.TheRequest(CallOf(end.buildFile.value)) in end.sent
  {
    RunKeeps(Initial(source), steps, end);
  }

  /** Whatever happens in between, the worker moves the source only to the release of its package, only
      after that package's request went out, and never away from another publication's release. */
  lemma NeverOverwrites(s: State, step: Step)
    requires Inv(s) && Enabled(s, step) && !step.MoveSource? && Apply(s, step).source != s.source
    ensures s.buildFile.Some?
    ensures var c := CallOf(s.buildFile.value);
      Apply(s, step).source == P.TheRelease(c) && P.AtHome(c, s.source) && P.TheRequest(c) in s.sent
  {
    P.SourceMoves(CallOf(s.control.build), WorldOf(s), step.step);
  }

  function Confirmations(steps: seq<Step>): nat {
    if steps == [] then 0 else (if steps[0].ConfirmAgain? then 1 else 0) + Confirmations(steps[1..])
  }

  lemma {:induction false} RetryCounts(s: State, steps: seq<Step>, end: State)
    requires RunsTo(s, steps, end)
    ensures end.retry == s.retry + Confirmations(steps)
    decreases |steps|
  {
    if steps != [] {
      RetryCounts(Apply(s, steps[0]), steps[1..], end);
    }
  }

  /** At most three build directories per confirmation, the first one and each repeated one, and no build
      may start once that many exist. */
  lemma BuildsBounded(source: Pointer, steps: seq<Step>, end: State)
    requires RunsTo(Initial(source), steps, end)
    ensures end.builds <= 3 * (1 + Confirmations(steps))
    ensures end.builds >= 3 * (1 + Confirmations(steps)) ==> forall seen :: !Enabled(end, StartBuild(seen))
  {
    RunKeeps(Initial(source), steps, end);
    RetryCounts(Initial(source), steps, end);
    if end.builds >= BUILDS_PER_CONFIRMATION * (end.retry + 1) {
      forall seen: nat ensures !Enabled(end, StartBuild(seen)) {
      }
    }
  }

  lemma BegunStaysStep(s: State, step: Step)
    requires Inv(s) && Enabled(s, step) && Begun(s)
    ensures var t := Apply(s, step);
      && t.buildFile == s.buildFile && t.builds == s.builds && Begun(t)
      && DeskOf(t, s.buildFile.value.attempt).receipt == DeskOf(s, s.buildFile.value.attempt).receipt
  {
    if step.Publish? {
      P.StepFits(CallOf(s.control.build), WorldOf(s), step.step);
    }
  }

  /** Once the base-pointer receipt exists the package is never rebuilt or replaced. */
  lemma {:induction false} ReceiptFreezes(s: State, steps: seq<Step>, end: State)
    requires Inv(s) && RunsTo(s, steps, end) && Begun(s)
    ensures end.buildFile == s.buildFile && end.builds == s.builds && Begun(end)
    ensures DeskOf(end, s.buildFile.value.attempt).receipt == DeskOf(s, s.buildFile.value.attempt).receipt
    decreases |steps|
  {
    if steps != [] {
      BegunStaysStep(s, steps[0]);
      StepKeeps(s, steps[0]);
      ReceiptFreezes(Apply(s, steps[0]), steps[1..], end);
    }
  }

  /** A saved result ends the review: nothing is built, sent or saved any more. */
  lemma {:induction false} ResultIsFinal(s: State, steps: seq<Step>, end: State)
    requires Inv(s) && RunsTo(s, steps, end) && s.resultFile
    ensures end.sent == s.sent && end.builds == s.builds && end.buildFile == s.buildFile && end.resultFile
    ensures forall a :: P.Dropped(DeskOf(end, a)) == P.Dropped(DeskOf(s, a))
    decreases |steps|
  {
    if steps != [] {
      StepKeeps(s, steps[0]);
      ResultIsFinal(Apply(s, steps[0]), steps[1..], end);
    }
  }

  // --------------------------------------------- when a started review can finish

  /** No other publication and no retention in between; the operator may confirm again. */
  predicate Undisturbed(steps: seq<Step>) {
    forall step | step in steps :: !step.MoveSource? && !step.DropRelease?
  }

  predicate NothingDropped(steps: seq<Step>) {
    forall step | step in steps :: !step.DropRelease?
  }

  /** The publisher can take the retained package up again. */
  predicate Resumable(s: State)
    requires s.buildFile.Some?
  {
    P.TakesUp(CallOf(s.buildFile.value), DeskOf(s, s.buildFile.value.attempt), s.source)
  }

  predicate Wedged(s: State) {
    && Inv(s) && Begun(s) && !s.resultFile && !Resumable(s)
    && match s.control
       case Idle => true
       case Decided(kept, _) => kept.Some?
       case Publishing(b, _) => P.Stuck(CallOf(b), WorldOf(s))
       case _ => false
  }

  lemma WedgedStep(s: State, step: Step)
    requires Wedged(s) && Enabled(s, step) && !step.DropRelease?
    requires step.MoveSource? ==> DeskOf(s, s.buildFile.value.attempt).release == P.Copied
    ensures var t := Apply(s, step);
      && Wedged(t) && t.sent == s.sent && t.buildFile == s.buildFile
      && DeskOf(t, s.buildFile.value.attempt).release == DeskOf(s, s.buildFile.value.attempt).release
  {
    StepKeeps(s, step);
    if step.Publish? {
      P.StuckStays(CallOf(s.control.build), WorldOf(s), step.step);
    } else if step.MoveSource? {
      P.HalfMadeBlocks(CallOf(s.buildFile.value), DeskOf(s, s.buildFile.value.attempt), step.to);
    }
  }

  lemma {:induction false} WedgedStays(s: State, steps: seq<Step>, end: State)
    requires Wedged(s) && RunsTo(s, steps, end)
    requires NothingDropped(steps)
    requires Undisturbed(steps) || DeskOf(s, s.buildFile.value.attempt).release == P.Copied
    ensures Wedged(end) && end.sent == s.sent
    decreases |steps|
  {
    if steps != [] {
      assert steps[0] in steps;
      WedgedStep(s, steps[0]);
      assert NothingDropped(steps[1..]) && (Undisturbed(steps) ==> Undisturbed(steps[1..]));
      WedgedStays(Apply(s, steps[0]), steps[1..], end);
    }
  }

  lemma {:induction false} RunSnoc(s: State, steps: seq<Step>, mid: State, step: Step)
    requires RunsTo(s, steps, mid) && Enabled(mid, step)
    ensures RunsTo(s, steps + [step], Apply(mid, step))
    decreases |steps|
  {
    if steps == [] {
      assert [step][1..] == [];
      assert RunsTo(Apply(mid, step), [], Apply(mid, step));
    } else {
      RunSnoc(Apply(s, steps[0]), steps[1..], mid, step);
      assert (steps + [step])[1..] == steps[1..] + [step];
    }
  }

  lemma Do(s: State, steps: seq<Step>, mid: State, step: Step) returns (more: seq<Step>, end: State)
    requires Inv(mid) && RunsTo(s, steps, mid) && Undisturbed(steps) && Enabled(mid, step)
    requires !step.MoveSource? && !step.DropRelease?
    ensures RunsTo(s, more, end) && Undisturbed(more) && end == Apply(mid, step) && Inv(end)
  {
    RunSnoc(s, steps, mid, step);
    StepKeeps(mid, step);
    more, end := steps + [step], Apply(mid, step);
  }

  /** The publisher's own run, as steps of the worker. */
  lemma {:induction false} PublisherRun(s: State, steps: seq<Step>, mid: State, ps: seq<P.Step>, w: P.World<Build>)
    returns (more: seq<Step>, end: State)
    requires Inv(mid) && RunsTo(s, steps, mid) && Undisturbed(steps) && mid.control.Publishing?
    requires P.RunsTo(CallOf(mid.control.build), WorldOf(mid), ps, w)
    ensures RunsTo(s, more, end) && Undisturbed(more) && Inv(end)
    ensures end.control == Publishing(mid.control.build, w.stage) && WorldOf(end) == w
    ensures end.buildFile == mid.buildFile
    decreases |ps|
  {
    if ps == [] {
      more, end := steps, mid;
    } else {
      more, end := Do(s, steps, mid, Publish(ps[0]));
      assert WorldOf(end) == P.Do(CallOf(mid.control.build), WorldOf(mid), ps[0]);
      more, end := PublisherRun(s, more, end, ps[1..], w);
    }
  }

  // ----------------------------------------------- before the receipt exists

  /** The package in build.json is for the source's state, but was built from another release. */
  predicate SameStateElsewhere(s: State) {
    s.buildFile.Some? && s.buildFile.value.base.state == s.source.state && s.buildFile.value.base != s.source
  }

  /** Kept because the state hash is the source's, refused because the release is not. */
  predicate TurnedAway(s: State) {
    && Inv(s) && !Begun(s) && !s.resultFile && SameStateElsewhere(s)
    && match s.control
       case Idle => true
       case Decided(kept, _) => kept.Some?
       case Publishing(_, stage) => stage.Entered?
       case _ => false
  }

  lemma {:induction false} TurnedAwayStays(s: State, steps: seq<Step>, end: State)
    requires TurnedAway(s) && RunsTo(s, steps, end) && Undisturbed(steps)
    ensures TurnedAway(end) && end.sent == s.sent
    decreases |steps|
  {
    if steps != [] {
      assert steps[0] in steps;
      StepKeeps(s, steps[0]);
      NotBegun(s);
      TurnedAwayStays(Apply(s, steps[0]), steps[1..], end);
    }
  }

  /** One crash before the receipt and one release that leaves the state as it was lead there. */
  lemma OtherReleaseTurnsAway(source: Pointer, release: P.Release) returns (steps: seq<Step>, end: State)
    requires release != source.release
    ensures RunsTo(Initial(source), steps, end) && TurnedAway(end) && end.control.Idle?
    ensures end.source == P.Pointer(release, source.state)
  {
    var s := Initial(source);
    assert RunsTo(s, [], s);
    steps, end := Do(s, [], s, Begin);
    steps, end := BuildPackage(s, steps, end, 0, 0, 0, 0);
    steps, end := Do(s, steps, end, Crash);
    var to := MoveSource(P.Pointer(release, source.state));
    RunSnoc(s, steps, end, to);
    StepKeeps(end, to);
    steps, end := steps + [to], Apply(end, to);
  }

  /** This package is published: by one more request, with the source at its release, unless its outcome
      was there already. */
  predicate Concluded(s: State, end: State, b: Build) {
    if DeskOf(s, b.attempt).outcome then end.sent == s.sent && end.source == s.source
    else end.sent == s.sent + [P.TheRequest(CallOf(b))] && end.source == P.TheRelease(CallOf(b))
  }

  /** From a decided worker to the saved result, on a package the publisher can take up. */
  lemma PublishAndSave(s: State, steps: seq<Step>, mid: State) returns (more: seq<Step>, end: State)
    requires Inv(mid) && RunsTo(s, steps, mid) && Undisturbed(steps)
    requires mid.control.Publishing? && mid.control.stage.Entered? && mid.buildFile.Some? && Resumable(mid)
    ensures RunsTo(s, more, end) && Undisturbed(more) && end.resultFile
    ensures end.buildFile == mid.buildFile && Concluded(mid, end, mid.control.build)
  {
    var ps, w := P.Completes(CallOf(mid.control.build), WorldOf(mid));
    more, end := PublisherRun(s, steps, mid, ps, w);
    more, end := Do(s, more, end, WriteResult);
  }

  /** A further confirmation always makes room for the build that is needed. */
  lemma BuildAnew(s: State) returns (steps: seq<Step>, end: State)
    requires Inv(s) && s.control.Idle? && !s.resultFile && Reusable(s).None?
    ensures RunsTo(s, steps, end) && Undisturbed(steps) && end.resultFile
    ensures end.buildFile.Some? && end.buildFile.value.base == s.source && Concluded(s, end, end.buildFile.value)
  {
    assert RunsTo(s, [], s);
    steps, end := Do(s, [], s, ConfirmAgain);
    steps, end := Do(s, steps, end, Begin);
    NotBegun(s);
    steps, end := BuildPackage(s, steps, end, 0, 0, 0, 0);
    steps, end := PublishAndSave(s, steps, end);
  }

  /** One build, of a package for the source as it stands, to the publisher's door. */
  lemma BuildPackage(
    s: State, steps: seq<Step>, mid: State, package: int, created: int, finished: int, app: int)
    returns (more: seq<Step>, end: State)
    requires Inv(mid) && RunsTo(s, steps, mid) && Undisturbed(steps) && !mid.resultFile
    requires mid.control == Decided(None, mid.source) && mid.builds + 1 <= BUILDS_PER_CONFIRMATION * (mid.retry + 1)
    ensures RunsTo(s, more, end) && Undisturbed(more) && Inv(end) && !end.resultFile
    ensures var b := Build(mid.builds + 1, mid.source, package, created, finished, app);
      end.control == Publishing(b, P.Entered) && end.buildFile == Some(b) && DeskOf(end, b.attempt) == P.Untouched()
    ensures end.source == mid.source && end.sent == mid.sent
  {
    more, end := Do(s, steps, mid, StartBuild(mid.retry));
    more, end := Do(s, more, end, MakeBuildDirectory);
    more, end := Do(s, more, end, FinishBuild(package, created, finished, app));
    NotBegun(end);
    more, end := Do(s, more, end, WriteBuild);
  }

  lemma KeepAndFinish(s: State) returns (steps: seq<Step>, end: State)
    requires Inv(s) && s.control.Idle? && !s.resultFile && Reusable(s).Some? && Resumable(s)
    ensures RunsTo(s, steps, end) && Undisturbed(steps) && end.resultFile
    ensures end.buildFile == s.buildFile && Concluded(s, end, s.buildFile.value)
  {
    assert RunsTo(s, [], s);
    steps, end := Do(s, [], s, Begin);
    steps, end := Do(s, steps, end, EnterPublisher);
    steps, end := PublishAndSave(s, steps, end);
  }

  /** Nothing stands in the worker's way: with a receipt the publisher can take the package up; without
      one there is no package yet, or it is rebuilt, or it fits the source. */
  predicate CanFinish(s: State) {
    if Begun(s) then Resumable(s) else !SameStateElsewhere(s)
  }

  /** A review can be finished without the source moving exactly then.  Otherwise, a source moved
      elsewhere, a release file left half made, or a source on another release of the same state, it waits
      for the operator, and confirming again does not help. */
  lemma FinishesIffResumable(s: State)
    requires Inv(s) && s.control.Idle? && !s.resultFile
    ensures CanFinish(s) <==>
      exists steps, end :: RunsTo(s, steps, end) && Undisturbed(steps) && end.resultFile
  {
    if CanFinish(s) {
      if Reusable(s).Some? {
        if !Begun(s) {
          NotBegun(s);
        }
        var steps, end := KeepAndFinish(s);
      } else {
        var steps, end := BuildAnew(s);
      }
    } else if Begun(s) {
      forall steps, end | RunsTo(s, steps, end) && Undisturbed(steps) ensures !end.resultFile {
        WedgedStays(s, steps, end);
      }
    } else {
      forall steps, end | RunsTo(s, steps, end) && Undisturbed(steps) ensures !end.resultFile {
        TurnedAwayStays(s, steps, end);
      }
    }
  }

  /** A release file left half made stops the review while it lies there: no run whatever, with further
      confirmations and with the source moved at will, sends anything more or saves a result. */
  lemma HalfMadeStops(s: State, steps: seq<Step>, end: State)
    requires Inv(s) && s.control.Idle? && !s.resultFile && Begun(s)
    requires DeskOf(s, s.buildFile.value.attempt).release == P.Copied
    requires RunsTo(s, steps, end) && NothingDropped(steps)
    ensures !end.resultFile && end.sent == s.sent
  {
    P.HalfMadeBlocks(CallOf(s.buildFile.value), DeskOf(s, s.buildFile.value.attempt), s.source);
    WedgedStays(s, steps, end);
  }

  /** Retention may remove that file, because no saved request names it yet; then the review can be
      finished exactly if the source is still at the base of the package. */
  lemma DroppingFrees(s: State)
    requires Inv(s) && s.control.Idle? && !s.resultFile && Begun(s)
    requires DeskOf(s, s.buildFile.value.attempt).release == P.Copied
    requires s.source.release != P.OfCandidate(s.buildFile.value.attempt)
    ensures Enabled(s, DropRelease(s.buildFile.value.attempt))
    ensures s.source == s.buildFile.value.base <==>
      exists steps, end ::
        RunsTo(Apply(s, DropRelease(s.buildFile.value.attempt)), steps, end) && Undisturbed(steps) && end.resultFile
  {
    var b := s.buildFile.value;
    P.DropFits(CallOf(b), DeskOf(s, b.attempt), P.Entered);
    P.HalfMadeBlocks(CallOf(b), DeskOf(s, b.attempt), s.source);
    StepKeeps(s, DropRelease(b.attempt));
    FinishesIffResumable(Apply(s, DropRelease(b.attempt)));
  }

  /** Such a state is reached by a single crash, with the source still exactly at the retained base. */
  lemma CrashLeavesHalfMade(source: Pointer, package: int, created: int, finished: int, app: int)
    returns (steps: seq<Step>, end: State)
    ensures RunsTo(Initial(source), steps, end) && Inv(end) && end.control.Idle? && !end.resultFile && Begun(end)
    ensures end.source == source == end.buildFile.value.base
    ensures DeskOf(end, end.buildFile.value.attempt).release == P.Copied
  {
    var s := Initial(source);
    assert RunsTo(s, [], s);
    steps, end := Do(s, [], s, Begin);
    steps, end := BuildPackage(s, steps, end, package, created, finished, app);
    steps, end := CopyAndCrash(s, steps, end);
  }

  lemma CopyAndCrash(s: State, steps: seq<Step>, mid: State) returns (more: seq<Step>, end: State)
    requires Inv(mid) && RunsTo(s, steps, mid) && Undisturbed(steps) && !mid.resultFile
    requires mid.control.Publishing? && mid.control.stage.Entered? && mid.source == mid.control.build.base
    requires DeskOf(mid, mid.control.build.attempt) == P.Untouched()
    ensures RunsTo(s, more, end) && Inv(end) && end.control.Idle? && !end.resultFile && Begun(end)
    ensures end.source == mid.source && end.buildFile == mid.buildFile
    ensures DeskOf(end, end.buildFile.value.attempt).release == P.Copied
  {
    more, end := Do(s, steps, mid, Publish(P.CheckBase));
    more, end := Do(s, more, end, Publish(P.SaveReceipt));
    more, end := Do(s, more, end, Publish(P.CopyRelease));
    more, end := Do(s, more, end, Crash);
  }
}
