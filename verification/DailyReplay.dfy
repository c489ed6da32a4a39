/** One issue date, replayed. */
module DailyReplay {
  // The daily publication of one issue date: numbered attempts, a publication input retained before the
  // publisher is called, and replay of that input by every later run. A process may stop between any two
  // steps; runs of one date follow one another.

  import opened Wrappers
  import P = Publisher
  import C = Comparison

  type Pointer = P.Pointer

  /** The Legacy response: the URLs of its materials and everything else.  Its digest stands for it. */
  datatype Legacy = Legacy(urls: seq<string>, rest: int)

  /** The comparison accepts these URLs; it is made after publishing and before reporting. */
  predicate Comparable(l: Legacy) {
    C.UrlsOf(l.urls).UrlList?
  }

  /** What one invocation supplies: fresh timestamps, the roots it works on, the Legacy response. */
  datatype Args = Args(
    startedAt: int, finishedAt: int, durationMs: int, applicationRelease: Option<int>,
    sourceRoot: int, publisherRoot: int, legacy: Legacy)

  /** publication-input.json: everything the publisher is called with; `base` is the source pointer the
      package was built from. */
  datatype Input = Input(
    sourceRoot: int, publisherRoot: int, legacy: Legacy, build: int, base: Pointer,
    applicationRelease: int, startedAt: int, finishedAt: int, durationMs: int)

  /** A source root as this date sees it. */
  datatype Source = Source(pointer: Pointer, hasIssue: bool)

  predicate Matches(r: Input, a: Args) {
    r.sourceRoot == a.sourceRoot && r.publisherRoot == a.publisherRoot && r.legacy == a.legacy
  }

  /** The same roots and Legacy bytes; timestamps differ from run to run. */
  predicate Same(a: Args, b: Args) {
    a.sourceRoot == b.sourceRoot && a.publisherRoot == b.publisherRoot && a.legacy == b.legacy
  }

  /** The application release named on the command line, else the one the public health reports. */
  function Release(a: Args, health: int): int {
    if a.applicationRelease.Some? then a.applicationRelease.value else health
  }

  function FreshInput(a: Args, app: int, build: int, base: Pointer): Input {
    Input(a.sourceRoot, a.publisherRoot, a.legacy, build, base, app, a.startedAt, a.finishedAt, a.durationMs)
  }

  const MAX_ATTEMPTS := 9999

  type Attempts = map<nat, Option<Input>>

  predicate Free(attempts: Attempts, n: nat) {
    1 <= n <= MAX_ATTEMPTS && n !in attempts && forall m | 1 <= m < n :: m in attempts
  }

  predicate Retained(attempts: Attempts, m: nat) {
    m in attempts && attempts[m].Some?
  }

  // -------------------------------------------------- the run directory's methods

  datatype Prepared = Use(input: Input) | AlreadyPublished | Mismatch | BuildFailed

  class RunDirectory {
    var attempts: Attempts

    constructor (existing: Attempts)
      ensures attempts == existing
    {
      attempts := existing;
    }

    /** Takes the smallest unused attempt number; None when all 9999 are taken. */
    method NextAttemptRoot() returns (n: Option<nat>)
      modifies this
      ensures n.Some? ==> Free(old(attempts), n.value) && attempts == old(attempts)[n.value := None]
      ensures n.Some? <==> exists m | 1 <= m <= 9999 :: m !in old(attempts)
      ensures n.None? ==> attempts == old(attempts) && forall m: nat :: !Free(attempts, m)
    {
      for number := 1 to MAX_ATTEMPTS + 1
        invariant attempts == old(attempts)
        invariant forall m | 1 <= m < number :: m in attempts
      {
        if number !in attempts {
          attempts := attempts[number := None];
          return Some(number);
        }
      }
      return None;
    }

    /** Replays the retained input if there is one (`first` names the one read), otherwise builds unless
        the source already has the issue; whatever is used is retained in this attempt. */
    method PublicationForAttempt(
      a: Args, n: nat, first: Option<nat>, source: Source, health: int, build: Option<int>)
      returns (r: Prepared)
      requires n in attempts && attempts[n].None?
      requires first.Some? ==> Retained(attempts, first.value)
      requires first.None? ==> forall m :: !Retained(attempts, m)
      modifies this
      ensures Prepares(old(attempts), attempts, a, n, first, source, health, build, r)
    {
      var started, finished, duration := a.startedAt, a.finishedAt, a.durationMs;
      var app := Release(a, health);
      var made: int;
      var base := source.pointer;
      if first.Some? {
        var kept := attempts[first.value].value;
        if kept.sourceRoot != a.sourceRoot || kept.publisherRoot != a.publisherRoot || kept.legacy != a.legacy {
          return Mismatch;
        }
        made, base := kept.build, kept.base;
        app := kept.applicationRelease;
        started, finished := kept.startedAt, kept.finishedAt;
        duration := kept.durationMs;
      } else {
        if source.hasIssue {
          return AlreadyPublished;
        }
        if build.None? {
          return BuildFailed;
        }
        made := build.value;
      }
      var input := Input(a.sourceRoot, a.publisherRoot, a.legacy, made, base, app, started, finished, duration);
      attempts := attempts[n := Some(input)];
      return Use(input);
    }
  }

  /** What preparing a publication does to the attempts, and what comes of it. */
  predicate Prepares(
    before: Attempts, after: Attempts, a: Args, n: nat, first: Option<nat>, source: Source, health: int,
    build: Option<int>, r: Prepared)
    requires first.Some? ==> Retained(before, first.value)
  {
    && after == (if r.Use? then before[n := Some(r.input)] else before)
    && (first.Some? ==>
          var kept := before[first.value].value; r == if Matches(kept, a) then Use(kept) else Mismatch)
    && (first.None? ==>
          r == if source.hasIssue then AlreadyPublished
               else if build.None? then BuildFailed
               else Use(FreshInput(a, Release(a, health), build.value, source.pointer)))
  }

  // ------------------------------------------------------------ runs as steps

  type Desk = P.Desk<Input>

  type Request = P.Request<Input>

  datatype Control =
    | Idle
    | Started(args: Args)
    | InAttempt(args: Args, n: nat)
    | Building(args: Args, n: nat, app: int, base: Pointer)
    | Decided(n: nat, input: Input)
    | Ready(input: Input)
    | Publishing(input: Input, stage: P.Stage)
    | Comparing(legacy: Legacy)

  /** `desks` holds each publisher root's files under this date's one candidate id, `calls` every call of
      the publisher, `sent` every request that reached transport, `builds` the number of builds started. */
  datatype State = State(
    control: Control, attempts: Attempts, reported: bool, sources: map<int, Source>,
    desks: map<int, Desk>, calls: seq<Input>, sent: seq<Request>, builds: nat)

  datatype Step =
    | Crash
    | MoveSource(root: int, to: Source)
    | DropRelease(root: int)
    | Start(args: Args)
    | MakeAttempt(number: nat)
    | Resume(from: nat)
    | SkipPublished
    | StartBuild(health: int)
    | FinishBuild(build: int)
    | WriteInput
    | CallPublisher
    | Publish(step: P.Step)
    | WriteReport

  function CallOf(x: Input): P.Call<Input> {
    P.Call(x, 1, x.base, x.build)
  }

  function DeskOf(s: State, root: int): Desk {
    if root in s.desks then s.desks[root] else P.Untouched()
  }

  /** What the publisher sees. */
  function WorldOf(s: State): P.World<Input>
    requires s.control.Publishing? && s.control.input.sourceRoot in s.sources
  {
    var x := s.control.input;
    P.World(s.control.stage, DeskOf(s, x.publisherRoot), s.sources[x.sourceRoot].pointer, s.sent)
  }

  /** Where the publisher is on this root's files. */
  function StageAt(s: State, root: int): P.Stage {
    if s.control.Publishing? && s.control.input.publisherRoot == root then s.control.stage else P.Entered
  }

  /** Committing the candidate also brings the issue into the source. */
  function WithWorld(s: State, w: P.World<Input>, committed: bool): State
    requires s.control.Publishing? && s.control.input.sourceRoot in s.sources
  {
    var x := s.control.input;
    s.(control := s.control.(stage := w.stage), desks := s.desks[x.publisherRoot := w.desk], sent := w.sent,
       sources := s.sources[x.sourceRoot := Source(w.source, committed || s.sources[x.sourceRoot].hasIssue)])
  }

  ghost predicate Enabled(s: State, step: Step) {
    match step
    case Crash => true
    case MoveSource(root, _) => root in s.sources
    case DropRelease(root) => P.MayDrop(DeskOf(s, root), StageAt(s, root))
    case Start(a) => s.control.Idle? && !s.reported && a.sourceRoot in s.sources
    case MakeAttempt(n) => s.control.Started? && Free(s.attempts, n)
    case Resume(m) => s.control.InAttempt? && Retained(s.attempts, m) && Matches(s.attempts[m].value, s.control.args)
    case SkipPublished => Unretained(s) && s.sources[s.control.args.sourceRoot].hasIssue
    case StartBuild(_) => Unretained(s) && !s.sources[s.control.args.sourceRoot].hasIssue
    case FinishBuild(_) => s.control.Building?
    case WriteInput => s.control.Decided? && s.control.n in s.attempts && s.attempts[s.control.n].None?
    case CallPublisher => s.control.Ready?
    case Publish(p) =>
      && s.control.Publishing? && s.control.input.sourceRoot in s.sources
      && P.Can(CallOf(s.control.input), WorldOf(s), p)
    case WriteReport =>
      || (s.control.Comparing? && Comparable(s.control.legacy))
      || (s.control.Publishing? && s.control.stage.Returned? && Comparable(s.control.input.legacy))
  }

  ghost predicate Unretained(s: State) {
    s.control.InAttempt? && s.control.args.sourceRoot in s.sources && forall m :: !Retained(s.attempts, m)
  }

  ghost function Apply(s: State, step: Step): State
    requires Enabled(s, step)
  {
    var c := s.control;
    match step
    case Crash => s.(control := Idle)
    case MoveSource(root, to) => s.(sources := s.sources[root := to])
    case DropRelease(root) => s.(desks := s.desks[root := P.Dropped(DeskOf(s, root))])
    case Start(a) => s.(control := Started(a))
    case MakeAttempt(n) => s.(control := InAttempt(c.args, n), attempts := s.attempts[n := None])
    case Resume(m) => s.(control := Decided(c.n, s.attempts[m].value))
    case SkipPublished => s.(control := Comparing(c.args.legacy))
    case StartBuild(health) =>
      s.(control := Building(c.args, c.n, Release(c.args, health), s.sources[c.args.sourceRoot].pointer),
         builds := s.builds + 1)
    case FinishBuild(b) => s.(control := Decided(c.n, FreshInput(c.args, c.app, b, c.base)))
    case WriteInput => s.(control := Ready(c.input), attempts := s.attempts[c.n := Some(c.input)])
    case CallPublisher => s.(control := Publishing(c.input, P.Entered), calls := s.calls + [c.input])
    case Publish(p) => WithWorld(s, P.Do(CallOf(c.input), WorldOf(s), p), p.CommitSource?)
    case WriteReport => s.(control := Idle, reported := true)
  }

  ghost predicate RunsTo(s: State, steps: seq<Step>, end: State)
    decreases |steps|
  {
    if steps == [] then s == end
    else Enabled(s, steps[0]) && RunsTo(Apply(s, steps[0]), steps[1..], end)
  }

  function Initial(sources: map<int, Source>): State {
    State(Idle, map[], false, sources, map[], [], [], 0)
  }

  ghost predicate InUse(s: State, x: Input) {
    exists m :: Retained(s.attempts, m) && s.attempts[m].value == x
  }

  /** The publisher keeps files for inputs in use only, each written by that very input. */
  ghost predicate DesksFit(s: State) {
    && (forall m | Retained(s.attempts, m) :: InputFits(s, s.attempts[m].value))
    && (forall root | root in s.desks && s.desks[root] != P.Untouched() ::
          exists m :: Retained(s.attempts, m) && s.attempts[m].value.publisherRoot == root)
  }

  predicate InputFits(s: State, x: Input) {
    && x.sourceRoot in s.sources && P.DeskFits(CallOf(x), DeskOf(s, x.publisherRoot))
    && P.SentFits(CallOf(x), DeskOf(s, x.publisherRoot), StageAt(s, x.publisherRoot), s.sent)
  }

  /** Nothing is sent but the request of an input in use; that one was, once the date has its report. */
  ghost predicate SentFits(s: State) {
    && (forall q | q in s.sent :: InUse(s, q.input) && q == P.TheRequest(CallOf(q.input)))
    && (s.reported ==> ReportSent(s))
  }

  ghost predicate ReportSent(s: State) {
    forall m | Retained(s.attempts, m) :: P.TheRequest(CallOf(s.attempts[m].value)) in s.sent
  }

  ghost predicate ControlFits(s: State) {
    match s.control
    case Idle => true
    case Started(a) => a.sourceRoot in s.sources
    case InAttempt(a, n) => a.sourceRoot in s.sources && n in s.attempts && s.attempts[n].None?
    case Building(a, n, _, _) =>
      && a.sourceRoot in s.sources && n in s.attempts && s.attempts[n].None?
      && forall m :: !Retained(s.attempts, m)
    case Decided(n, x) =>
      && x.sourceRoot in s.sources && n in s.attempts && s.attempts[n].None?
      && forall m | Retained(s.attempts, m) :: s.attempts[m].value == x
    case Ready(x) => InUse(s, x)
    case Publishing(x, stage) => InUse(s, x) && P.StageFits(CallOf(x), DeskOf(s, x.publisherRoot), stage)
    case Comparing(_) => forall m :: !Retained(s.attempts, m)
  }

  ghost predicate Inv(s: State) {
    // One input per date: whatever is retained, called or sent is the same.
    && (forall m, n | Retained(s.attempts, m) && Retained(s.attempts, n) :: s.attempts[m] == s.attempts[n])
    && (forall x | x in s.calls :: InUse(s, x))
    && DesksFit(s) && SentFits(s) && ControlFits(s)
    && (s.reported ==> s.control.Idle?)
  }

  lemma StillInUse(s: State, t: State, n: nat)
    requires t.attempts == s.attempts || (n in t.attempts && (n !in s.attempts || s.attempts[n].None?)
      && t.attempts == s.attempts[n := t.attempts[n]])
    ensures forall y | InUse(s, y) :: InUse(t, y)
    ensures forall m | Retained(s.attempts, m) :: Retained(t.attempts, m) && t.attempts[m] == s.attempts[m]
  {
    forall y | InUse(s, y) ensures InUse(t, y) {
      var m :| Retained(s.attempts, m) && s.attempts[m].value == y;
      assert Retained(t.attempts, m);
    }
  }

  /** Steps that touch neither the attempts nor the publisher's files, and drop no source root. */
  lemma QuietKeeps(s: State, t: State)
    requires Inv(s) && t.attempts == s.attempts && t.desks == s.desks && t.sent == s.sent
    requires s.sources.Keys <= t.sources.Keys && ControlFits(t) && (t.reported ==> t.control.Idle?)
    requires forall x | x in t.calls :: InUse(s, x)
    requires t.control == s.control || (t.control.Publishing? ==> t.control.stage.Entered?)
    requires t.reported ==> ReportSent(s)
    ensures Inv(t)
  {
    StillInUse(s, t, 0);
    assert forall root :: DeskOf(t, root) == DeskOf(s, root);
  }

  lemma MakeAttemptKeeps(s: State, n: nat)
    requires Inv(s) && Enabled(s, MakeAttempt(n))
    ensures Inv(Apply(s, MakeAttempt(n)))
  {
    var t := Apply(s, MakeAttempt(n));
    StillInUse(s, t, n);
    assert forall m | Retained(t.attempts, m) :: Retained(s.attempts, m) && t.attempts[m] == s.attempts[m];
    assert forall root :: DeskOf(t, root) == DeskOf(s, root);
  }

  lemma WriteInputKeeps(s: State)
    requires Inv(s) && Enabled(s, WriteInput)
    ensures Inv(Apply(s, WriteInput))
  {
    var t := Apply(s, WriteInput);
    var n, x := s.control.n, s.control.input;
    StillInUse(s, t, n);
    assert Retained(t.attempts, n);
    forall m | Retained(t.attempts, m) ensures t.attempts[m] == Some(x) {
      if m != n {
        assert Retained(s.attempts, m);
      }
    }
    assert forall root :: DeskOf(t, root) == DeskOf(s, root);
    FirstInputFits(s, x);
  }

  /** An input about to be retained is the one in use, or no publisher file exists yet. */
  lemma FirstInputFits(s: State, x: Input)
    requires Inv(s) && s.control.Decided? && s.control.input == x
    ensures InputFits(s, x)
  {
    if DeskOf(s, x.publisherRoot) != P.Untouched() {
      var m :| Retained(s.attempts, m) && s.attempts[m].value.publisherRoot == x.publisherRoot;
    }
  }

  /** The publisher never meets a second input: its files stay those of the one in use. */
  lemma PublishKeeps(s: State, p: P.Step)
    requires Inv(s) && Enabled(s, Publish(p))
    ensures Inv(Apply(s, Publish(p)))
  {
    var t := Apply(s, Publish(p));
    StillInUse(s, t, 0);
    PublishKeepsDesks(s, p, t);
    P.StepFits(CallOf(s.control.input), WorldOf(s), p);
  }

  lemma PublishKeepsDesks(s: State, p: P.Step, t: State)
    requires Inv(s) && Enabled(s, Publish(p)) && t == Apply(s, Publish(p))
    ensures DesksFit(t)
  {
    var x := s.control.input;
    P.StepFits(CallOf(x), WorldOf(s), p);
    forall root | root in t.desks && t.desks[root] != P.Untouched()
      ensures exists m :: Retained(t.attempts, m) && t.attempts[m].value.publisherRoot == root
    {
      if root == x.publisherRoot {
        var m :| Retained(s.attempts, m) && s.attempts[m].value == x;
        assert Retained(t.attempts, m);
      }
    }
  }

  lemma DropKeeps(s: State, root: int)
    requires Inv(s) && Enabled(s, DropRelease(root))
    ensures Inv(Apply(s, DropRelease(root)))
  {
    var t := Apply(s, DropRelease(root));
    StillInUse(s, t, 0);
    forall m | Retained(s.attempts, m) ensures InputFits(t, s.attempts[m].value) {
      var x := s.attempts[m].value;
      DropKeepsInput(s, root, x);
    }
    var m :| Retained(s.attempts, m) && s.attempts[m].value.publisherRoot == root;
    P.DropFits(CallOf(s.attempts[m].value), DeskOf(s, root), StageAt(s, root));
  }

  lemma DropKeepsInput(s: State, root: int, x: Input)
    requires Enabled(s, DropRelease(root)) && InputFits(s, x)
    ensures InputFits(Apply(s, DropRelease(root)), x)
  {
    if root == x.publisherRoot {
      P.DropFits(CallOf(x), DeskOf(s, root), P.Entered);
    }
  }

  lemma StepKeeps(s: State, step: Step)
    requires Inv(s) && Enabled(s, step)
    ensures Inv(Apply(s, step))
  {
    match step
    case MakeAttempt(n) => MakeAttemptKeeps(s, n);
    case WriteInput => WriteInputKeeps(s);
    case Publish(p) => PublishKeeps(s, p);
    case DropRelease(root) => DropKeeps(s, root);
    case _ => OtherKeeps(s, step, Apply(s, step));
  }

  lemma OtherKeeps(s: State, step: Step, t: State)
    requires Inv(s) && Enabled(s, step) && t == Apply(s, step)
    requires !step.MakeAttempt? && !step.WriteInput? && !step.Publish? && !step.DropRelease?
    ensures Inv(t)
  {
    StillInUse(s, t, 0);
    QuietKeeps(s, t);
  }

  lemma {:induction false} RunKeeps(s: State, steps: seq<Step>, end: State)
    requires Inv(s) && RunsTo(s, steps, end)
    ensures Inv(end)
    decreases |steps|
  {
    if steps != [] {
      StepKeeps(s, steps[0]);
      RunKeeps(Apply(s, steps[0]), steps[1..], end);
    }
  }

  /** Over every run of every invocation of one date: all calls carry one input, all retained files are
      that input, and all requests that go out are that input's one request. */
  lemma OneInputPerDate(sources: map<int, Source>, steps: seq<Step>, end: State)
    requires RunsTo(Initial(sources), steps, end)
    ensures forall i, j | 0 <= i < |end.calls| && 0 <= j < |end.calls| :: end.calls[i] == end.calls[j]
    ensures forall m, i | Retained(end.attempts, m) && 0 <= i < |end.calls| :: end.attempts[m] == Some(end.calls[i])
    ensures forall m, n | Retained(end.attempts, m) && Retained(end.attempts, n) :: end.attempts[m] == end.attempts[n]
    ensures forall m, q | Retained(end.attempts, m) && q in end.sent ::
      q == P.Request(end.attempts[m].value, end.attempts[m].value.base)
  {
    RunKeeps(Initial(sources), steps, end);
    forall i | 0 <= i < |end.calls| ensures InUse(end, end.calls[i]) {
      assert end.calls[i] in end.calls;
    }
  }

  /** A date with a retained input has its report only after that input's request went out. */
  lemma ReportMeansSent(sources: map<int, Source>, steps: seq<Step>, end: State, m: nat)
    requires RunsTo(Initial(sources), steps, end) && end.reported && Retained(end.attempts, m)
    ensures P.TheRequest(CallOf(end.attempts[m].value)) in end.sent
  {
    RunKeeps(Initial(sources), steps, end);
  }

  /** A run moves a source only to the release of its input, only after the request went out, and never
      away from another publication's release. */
  lemma NeverOverwrites(s: State, step: Step, root: int)
    requires Inv(s) && Enabled(s, step) && !step.MoveSource?
    requires root in s.sources && Apply(s, step).sources[root] != s.sources[root]
    ensures s.control.Publishing? && s.control.input.sourceRoot == root
    ensures var c := CallOf(s.control.input);
      && Apply(s, step).sources[root] == Source(P.TheRelease(c), true)
      && P.AtHome(c, s.sources[root].pointer) && P.TheRequest(c) in s.sent
  {
    P.SourceMoves(CallOf(s.control.input), WorldOf(s), step.step);
  }

  /** So the publisher never finds retained bytes that differ from what it is about to save. */
  lemma NeverRefusedAsDifferent(sources: map<int, Source>, steps: seq<Step>, end: State)
    requires RunsTo(Initial(sources), steps, end) && end.control.Publishing?
    ensures end.control.stage.BaseChecked? ==> Enabled(end, Publish(P.SaveReceipt))
    ensures end.control.stage.Released? ==> Enabled(end, Publish(P.SaveRequest))
  {
    RunKeeps(Initial(sources), steps, end);
    P.NothingDiffers(CallOf(end.control.input), WorldOf(end));
  }

  /** After the combined report nothing is built, retained or published, whatever runs follow. */
  lemma {:induction false} ReportIsFinal(s: State, steps: seq<Step>, end: State)
    requires Inv(s) && RunsTo(s, steps, end) && s.reported
    ensures end.reported && end.calls == s.calls && end.builds == s.builds && end.attempts == s.attempts
    ensures end.sent == s.sent && forall root :: P.Dropped(DeskOf(end, root)) == P.Dropped(DeskOf(s, root))
    decreases |steps|
  {
    if steps != [] {
      StepKeeps(s, steps[0]);
      ReportIsFinal(Apply(s, steps[0]), steps[1..], end);
    }
  }

  /** A retained input ends building: later runs replay it or stop. */
  lemma {:induction false} RetainedEndsBuilding(s: State, steps: seq<Step>, end: State, m: nat)
    requires Inv(s) && RunsTo(s, steps, end) && Retained(s.attempts, m)
    ensures end.builds == s.builds && Retained(end.attempts, m) && end.attempts[m] == s.attempts[m]
    decreases |steps|
  {
    if steps != [] {
      StepKeeps(s, steps[0]);
      RetainedEndsBuilding(Apply(s, steps[0]), steps[1..], end, m);
    }
  }

  // ------------------------------------------- the directory's methods are these steps

  lemma {:induction false} RunSnoc(s: State, steps: seq<Step>, mid: State, step: Step)
    requires RunsTo(s, steps, mid) && Enabled(mid, step)
    ensures RunsTo(s, steps + [step], Apply(mid, step))
    decreases |steps|
  {
    if steps == [] {
      assert [step][1..] == [];
      assert RunsTo(Apply(mid, step), [], Apply(mid, step));
    } else {
      RunSnoc(Apply(s, steps[0]), steps[1..], mid, step);
      assert (steps + [step])[1..] == steps[1..] + [step];
    }
  }

  predicate StepWith(step: Step, a: Args) {
    && (step.Start? ==> Same(step.args, a))
    && (step.MoveSource? ==> step.root != a.sourceRoot)
    && (step.DropRelease? ==> step.root != a.publisherRoot)
  }

  /** Invocations of these roots and Legacy bytes only, with no other publication moving this source and
      no retention on this publisher's files in between. */
  predicate OnlyWith(steps: seq<Step>, a: Args) {
    forall step | step in steps :: StepWith(step, a)
  }

  lemma Do(s: State, steps: seq<Step>, mid: State, step: Step, a: Args) returns (more: seq<Step>, end: State)
    requires Inv(mid) && RunsTo(s, steps, mid) && OnlyWith(steps, a) && Enabled(mid, step)
    requires StepWith(step, a)
    ensures RunsTo(s, more, end) && OnlyWith(more, a) && end == Apply(mid, step) && Inv(end)
  {
    RunSnoc(s, steps, mid, step);
    StepKeeps(mid, step);
    more, end := steps + [step], Apply(mid, step);
  }

  /** Where preparing leaves the process: with an input to publish, at the comparison, or dead. */
  function After(r: Prepared, a: Args): Control {
    match r
    case Use(x) => Ready(x)
    case AlreadyPublished => Comparing(a.legacy)
    case Mismatch => Idle
    case BuildFailed => Idle
  }

  /** The attempt a run can make is the one whose number the method takes, if it takes any. */
  lemma NumberIsTheStep(s: State, n: Option<nat>, after: Attempts)
    requires s.control.Started?
    requires if n.Some? then Free(s.attempts, n.value) && after == s.attempts[n.value := None]
             else forall m: nat :: !Free(s.attempts, m)
    ensures forall k: nat :: Enabled(s, MakeAttempt(k)) <==> n == Some(k)
    ensures n.Some? ==>
      Apply(s, MakeAttempt(n.value)) == s.(control := InAttempt(s.control.args, n.value), attempts := after)
  {
    forall k: nat | Enabled(s, MakeAttempt(k)) ensures n == Some(k) {
      assert Free(s.attempts, k);
    }
  }

  /** Whatever the method that prepares a publication does, the steps can do, and end up where it does. */
  lemma PreparingIsARun(
    s: State, first: Option<nat>, health: int, build: Option<int>, r: Prepared, after: Attempts)
    returns (steps: seq<Step>, end: State)
    requires Inv(s) && s.control.InAttempt?
    requires first.Some? ==> Retained(s.attempts, first.value)
    requires first.None? ==> forall m :: !Retained(s.attempts, m)
    requires Prepares(s.attempts, after, s.control.args, s.control.n, first, s.sources[s.control.args.sourceRoot],
      health, build, r)
    ensures RunsTo(s, steps, end) && end.control == After(r, s.control.args) && end.attempts == after
    ensures end.sources == s.sources && end.desks == s.desks && end.calls == s.calls && end.sent == s.sent
  {
    var a := s.control.args;
    assert RunsTo(s, [], s);
    steps, end := [], s;
    if first.Some? {
      steps, end := Do(s, steps, end, if r.Use? then Resume(first.value) else Crash, a);
    } else if r.AlreadyPublished? {
      steps, end := Do(s, steps, end, SkipPublished, a);
    } else {
      steps, end := Do(s, steps, end, StartBuild(health), a);
      steps, end := Do(s, steps, end, if r.Use? then FinishBuild(build.value) else Crash, a);
    }
    if r.Use? {
      steps, end := Do(s, steps, end, WriteInput, a);
    }
  }

  // ------------------------------------------------------ what can stop a date

  /** The publisher can take the retained input up. */
  predicate TakenUp(s: State, x: Input)
    requires x.sourceRoot in s.sources
  {
    P.TakesUp(CallOf(x), DeskOf(s, x.publisherRoot), s.sources[x.sourceRoot].pointer)
  }

  /** The date has its input and no report yet. */
  ghost predicate Holding(s: State, m: nat, x: Input) {
    && Inv(s) && Retained(s.attempts, m) && s.attempts[m].value == x
    && !s.reported && !s.control.Comparing?
  }

  /** Whatever a process then decides, prepares or publishes is that input; only the report ends this. */
  lemma HoldingStep(s: State, step: Step, m: nat, x: Input)
    requires Holding(s, m, x) && Enabled(s, step)
    ensures s.control.Publishing? ==> s.control.input == x
    ensures step.WriteReport? ==> Comparable(x.legacy)
    ensures !step.WriteReport? ==> Holding(Apply(s, step), m, x)
  {
    StepKeeps(s, step);
  }

  /** A Legacy response that the comparison refuses ends every run after publishing and before its report,
      whatever runs follow. */
  lemma {:induction false} IncomparableNeverReports(s: State, m: nat, x: Input, steps: seq<Step>, end: State)
    requires Holding(s, m, x) && !Comparable(x.legacy) && RunsTo(s, steps, end)
    ensures Holding(end, m, x)
    decreases |steps|
  {
    if steps != [] {
      HoldingStep(s, steps[0], m, x);
      IncomparableNeverReports(Apply(s, steps[0]), m, x, steps[1..], end);
    }
  }

  /** The input cannot be taken up, and no process has got past that. */
  ghost predicate Barred(s: State, m: nat, x: Input) {
    && Holding(s, m, x) && x.sourceRoot in s.sources && !TakenUp(s, x)
    && (s.control.Publishing? ==> s.control.input == x && P.Stuck(CallOf(x), WorldOf(s)))
  }

  predicate HalfMade(s: State, x: Input) {
    DeskOf(s, x.publisherRoot).release == P.Copied
  }

  lemma BarredStep(s: State, step: Step, m: nat, x: Input)
    requires Barred(s, m, x) && Enabled(s, step) && step != DropRelease(x.publisherRoot)
    requires HalfMade(s, x) || !(step.MoveSource? && step.root == x.sourceRoot)
    ensures Barred(Apply(s, step), m, x) && Apply(s, step).sent == s.sent
    ensures HalfMade(Apply(s, step), x) == HalfMade(s, x)
  {
    HoldingStep(s, step, m, x);
    var t := Apply(s, step);
    if step.Publish? {
      P.StuckStays(CallOf(x), WorldOf(s), step.step);
    } else {
      assert DeskOf(t, x.publisherRoot) == DeskOf(s, x.publisherRoot);
      if HalfMade(s, x) {
        P.HalfMadeBlocks(CallOf(x), DeskOf(t, x.publisherRoot), t.sources[x.sourceRoot].pointer);
      }
    }
  }

  /** Nobody else touches this input's source or its publisher files; other invocations may. */
  predicate LeavesAlone(steps: seq<Step>, x: Input, source: bool) {
    forall step | step in steps ::
      step != DropRelease(x.publisherRoot) && (source ==> !(step.MoveSource? && step.root == x.sourceRoot))
  }

  lemma {:induction false} BarredStays(s: State, steps: seq<Step>, end: State, m: nat, x: Input)
    requires Barred(s, m, x) && RunsTo(s, steps, end) && LeavesAlone(steps, x, !HalfMade(s, x))
    ensures Barred(end, m, x) && end.sent == s.sent
    decreases |steps|
  {
    if steps != [] {
      assert steps[0] in steps;
      BarredStep(s, steps[0], m, x);
      assert LeavesAlone(steps[1..], x, !HalfMade(s, x));
      BarredStays(Apply(s, steps[0]), steps[1..], end, m, x);
    }
  }

  /** The input is another one's than these arguments', and no process has got past that. */
  ghost predicate Mismatched(s: State, m: nat, x: Input, a: Args) {
    && Holding(s, m, x) && !Matches(x, a)
    && match s.control
       case Idle => true
       case Started(b) => Same(b, a)
       case InAttempt(b, _) => Same(b, a)
       case _ => false
  }

  lemma {:induction false} MismatchedStays(s: State, steps: seq<Step>, end: State, m: nat, x: Input, a: Args)
    requires Mismatched(s, m, x, a) && RunsTo(s, steps, end) && OnlyWith(steps, a)
    ensures Mismatched(end, m, x, a)
    decreases |steps|
  {
    if steps != [] {
      assert steps[0] in steps;
      HoldingStep(s, steps[0], m, x);
      assert OnlyWith(steps[1..], a);
      MismatchedStays(Apply(s, steps[0]), steps[1..], end, m, x, a);
    }
  }

  // ------------------------------------------------------ when a run can finish

  /** The publisher's own run, as steps of the daily run. */
  lemma {:induction false} PublisherRun(
    s: State, steps: seq<Step>, mid: State, ps: seq<P.Step>, w: P.World<Input>, a: Args)
    returns (more: seq<Step>, end: State)
    requires Inv(mid) && RunsTo(s, steps, mid) && OnlyWith(steps, a)
    requires mid.control.Publishing? && mid.control.input.sourceRoot in mid.sources
    requires P.RunsTo(CallOf(mid.control.input), WorldOf(mid), ps, w)
    ensures RunsTo(s, more, end) && OnlyWith(more, a) && Inv(end)
    ensures end.control == Publishing(mid.control.input, w.stage) && end.builds == mid.builds
    ensures end.calls == mid.calls && end.reported == mid.reported && end.attempts == mid.attempts
    ensures mid.control.input.sourceRoot in end.sources && WorldOf(end) == w
    ensures var root := mid.control.input.sourceRoot;
      end.sources[root].hasIssue == (P.CommitSource in ps || mid.sources[root].hasIssue)
    decreases |ps|
  {
    if ps == [] {
      more, end := steps, mid;
    } else {
      assert ps == [ps[0]] + ps[1..];
      more, end := Do(s, steps, mid, Publish(ps[0]), a);
      assert WorldOf(end) == P.Do(CallOf(mid.control.input), WorldOf(mid), ps[0]);
      more, end := PublisherRun(s, more, end, ps[1..], w, a);
    }
  }

  /** This input is published: by one more request, with its release and the issue in the source, unless its
      outcome was there already. */
  predicate Concluded(s: State, end: State, x: Input) {
    && x.sourceRoot in s.sources && x.sourceRoot in end.sources && DeskOf(end, x.publisherRoot).outcome
    && if DeskOf(s, x.publisherRoot).outcome
       then end.sent == s.sent && end.sources[x.sourceRoot] == s.sources[x.sourceRoot]
       else
         && end.sent == s.sent + [P.TheRequest(CallOf(x))]
         && end.sources[x.sourceRoot] == Source(P.TheRelease(CallOf(x)), true)
  }

  /** From a retained input to the publisher's return. */
  lemma PublishSteps(s: State, steps: seq<Step>, mid: State, a: Args) returns (more: seq<Step>, end: State)
    requires Inv(mid) && RunsTo(s, steps, mid) && OnlyWith(steps, a) && mid.control.Ready?
    requires mid.control.input.sourceRoot in mid.sources && TakenUp(mid, mid.control.input)
    ensures RunsTo(s, more, end) && OnlyWith(more, a) && Inv(end)
    ensures end.control == Publishing(mid.control.input, P.Returned)
    ensures end.calls == mid.calls + [mid.control.input] && end.builds == mid.builds
    ensures end.reported == mid.reported && end.attempts == mid.attempts && Concluded(mid, end, mid.control.input)
  {
    more, end := Do(s, steps, mid, CallPublisher, a);
    var ps, w := P.Completes(CallOf(end.control.input), WorldOf(end));
    more, end := PublisherRun(s, more, end, ps, w, a);
  }

  lemma ReplaySteps(s: State, n: nat, m: nat, a: Args) returns (steps: seq<Step>, end: State)
    requires Inv(s) && s.control.Idle? && !s.reported && Free(s.attempts, n) && Retained(s.attempts, m)
    requires Matches(s.attempts[m].value, a) && a.sourceRoot in s.sources && TakenUp(s, s.attempts[m].value)
    requires Comparable(a.legacy)
    ensures RunsTo(s, steps, end) && OnlyWith(steps, a) && end.reported
    ensures end.calls == s.calls + [s.attempts[m].value] && end.builds == s.builds
    ensures Concluded(s, end, s.attempts[m].value)
  {
    var mid: State;
    steps, mid := TakeUpAgain(s, n, m, a);
    steps, mid := PublishSteps(s, steps, mid, a);
    steps, end := Do(s, steps, mid, WriteReport, a);
  }

  lemma NewAttempt(s: State, n: nat, a: Args) returns (steps: seq<Step>, end: State)
    requires Inv(s) && s.control.Idle? && !s.reported && Free(s.attempts, n) && a.sourceRoot in s.sources
    ensures RunsTo(s, steps, end) && OnlyWith(steps, a) && Inv(end)
    ensures end == s.(control := InAttempt(a, n), attempts := s.attempts[n := None])
  {
    assert RunsTo(s, [], s);
    steps, end := Do(s, [], s, Start(a), a);
    steps, end := Do(s, steps, end, MakeAttempt(n), a);
  }

  /** A later run, up to the input it retains once more. */
  lemma TakeUpAgain(s: State, n: nat, m: nat, a: Args) returns (steps: seq<Step>, end: State)
    requires Inv(s) && s.control.Idle? && !s.reported && Free(s.attempts, n) && Retained(s.attempts, m)
    requires Matches(s.attempts[m].value, a) && a.sourceRoot in s.sources
    ensures RunsTo(s, steps, end) && OnlyWith(steps, a) && Inv(end)
    ensures end == s.(control := Ready(s.attempts[m].value), attempts := s.attempts[n := s.attempts[m]])
  {
    steps, end := NewAttempt(s, n, a);
    steps, end := RetainAgain(s, steps, end, m, a);
    assert end.attempts == s.attempts[n := s.attempts[m]];
  }

  lemma RetainAgain(s: State, steps: seq<Step>, mid: State, m: nat, a: Args) returns (more: seq<Step>, end: State)
    requires Inv(mid) && RunsTo(s, steps, mid) && OnlyWith(steps, a) && mid.control.InAttempt?
    requires Retained(mid.attempts, m) && Matches(mid.attempts[m].value, mid.control.args)
    ensures RunsTo(s, more, end) && OnlyWith(more, a) && Inv(end)
    ensures var x := mid.attempts[m];
      end == mid.(control := Ready(x.value), attempts := mid.attempts[mid.control.n := x])
  {
    more, end := Do(s, steps, mid, Resume(m), a);
    more, end := Do(s, more, end, WriteInput, a);
  }

  /** After any stop with a retained input, runs of given roots and Legacy bytes can still bring the date
      to its report, with nobody else at this source and this publisher's files, exactly when they are the
      input's roots and bytes, the comparison accepts the Legacy URLs, and the publisher can take the input
      up: it has the outcome, or its release file is not left half made and the source is at the base of
      the package or at the candidate's own release. */
  lemma ReplayFinishesIff(s: State, n: nat, m: nat, a: Args)
    requires Inv(s) && s.control.Idle? && !s.reported && Free(s.attempts, n) && Retained(s.attempts, m)
    ensures s.attempts[m].value.sourceRoot in s.sources
    ensures Matches(s.attempts[m].value, a) && Comparable(a.legacy) && TakenUp(s, s.attempts[m].value) <==>
      exists steps, end :: RunsTo(s, steps, end) && OnlyWith(steps, a) && end.reported
  {
    var x := s.attempts[m].value;
    if Matches(x, a) && Comparable(a.legacy) && TakenUp(s, x) {
      var steps, end := ReplaySteps(s, n, m, a);
    } else {
      forall steps, end | RunsTo(s, steps, end) && OnlyWith(steps, a) ensures !end.reported {
        if !Matches(x, a) {
          MismatchedStays(s, steps, end, m, x, a);
        } else if !Comparable(x.legacy) {
          IncomparableNeverReports(s, m, x, steps, end);
        } else {
          BarredStays(s, steps, end, m, x);
        }
      }
    }
  }

  // ------------------------------------------------------ a date with no input yet

  /** Every process and every retained input has this Legacy response. */
  ghost predicate OneLegacy(s: State, l: Legacy) {
    && (forall m | Retained(s.attempts, m) :: s.attempts[m].value.legacy == l)
    && match s.control
       case Idle => true
       case Started(a) => a.legacy == l
       case InAttempt(a, _) => a.legacy == l
       case Building(a, _, _, _) => a.legacy == l
       case Decided(_, x) => x.legacy == l
       case Ready(x) => x.legacy == l
       case Publishing(x, _) => x.legacy == l
       case Comparing(k) => k == l
  }

  lemma {:induction false} IncomparableStays(s: State, steps: seq<Step>, end: State, a: Args)
    requires Inv(s) && OneLegacy(s, a.legacy) && !Comparable(a.legacy) && !s.reported
    requires RunsTo(s, steps, end) && OnlyWith(steps, a)
    ensures !end.reported
    decreases |steps|
  {
    if steps != [] {
      assert steps[0] in steps;
      StepKeeps(s, steps[0]);
      OneLegacyStep(s, steps[0], a);
      assert OnlyWith(steps[1..], a);
      IncomparableStays(Apply(s, steps[0]), steps[1..], end, a);
    }
  }

  lemma OneLegacyStep(s: State, step: Step, a: Args)
    requires OneLegacy(s, a.legacy) && Enabled(s, step) && StepWith(step, a)
    ensures OneLegacy(Apply(s, step), a.legacy)
  {
    var t := Apply(s, step);
    forall m | Retained(t.attempts, m) ensures t.attempts[m].value.legacy == a.legacy {
      if !Retained(s.attempts, m) {
        assert step.WriteInput?;
      }
    }
  }

  /** A run on a source that has the issue already compares and reports, and sends nothing. */
  lemma SkipAndReport(s: State, n: nat, a: Args) returns (steps: seq<Step>, end: State)
    requires Inv(s) && s.control.Idle? && !s.reported && Free(s.attempts, n) && a.sourceRoot in s.sources
    requires (forall m :: !Retained(s.attempts, m)) && s.sources[a.sourceRoot].hasIssue && Comparable(a.legacy)
    ensures RunsTo(s, steps, end) && OnlyWith(steps, a) && end.reported
    ensures end.sent == s.sent && end.calls == s.calls && end.builds == s.builds
  {
    steps, end := NewAttempt(s, n, a);
    steps, end := Do(s, steps, end, SkipPublished, a);
    steps, end := Do(s, steps, end, WriteReport, a);
  }

  /** A run on one that has not builds, publishes by one request, and reports. */
  lemma BuildAndReport(s: State, n: nat, a: Args) returns (steps: seq<Step>, end: State)
    requires Inv(s) && s.control.Idle? && !s.reported && Free(s.attempts, n) && a.sourceRoot in s.sources
    requires (forall m :: !Retained(s.attempts, m)) && !s.sources[a.sourceRoot].hasIssue && Comparable(a.legacy)
    ensures RunsTo(s, steps, end) && OnlyWith(steps, a) && end.reported
    ensures Concluded(s, end, FirstInput(s.sources, a, 0, 0)) && |end.sent| == |s.sent| + 1
    ensures end.builds == s.builds + 1
  {
    var x := FirstInput(s.sources, a, 0, 0);
    assert DeskOf(s, a.publisherRoot) == P.Untouched();
    steps, end := NewAttempt(s, n, a);
    steps, end := BuildAndRetain(s, steps, end, 0, 0, a);
    steps, end := PublishSteps(s, steps, end, a);
    steps, end := Do(s, steps, end, WriteReport, a);
  }

  /** Before anything is retained, runs of given roots and Legacy bytes can bring the date to its report
      exactly if the comparison accepts the Legacy URLs. */
  lemma FreshFinishesIff(s: State, n: nat, a: Args)
    requires Inv(s) && s.control.Idle? && !s.reported && Free(s.attempts, n) && a.sourceRoot in s.sources
    requires forall m :: !Retained(s.attempts, m)
    ensures Comparable(a.legacy) <==>
      exists steps, end :: RunsTo(s, steps, end) && OnlyWith(steps, a) && end.reported
  {
    if Comparable(a.legacy) {
      if s.sources[a.sourceRoot].hasIssue {
        var steps, end := SkipAndReport(s, n, a);
      } else {
        var steps, end := BuildAndReport(s, n, a);
      }
    } else {
      forall steps, end | RunsTo(s, steps, end) && OnlyWith(steps, a) ensures !end.reported {
        IncomparableStays(s, steps, end, a);
      }
    }
  }

  /** Another publication in the gap is enough: an attempt retains its input and dies before the
      publisher is reached, the source moves elsewhere, and from then on no run, whatever its arguments,
      sends or reports anything, although a rebuild on the new source is ruled out too. */
  lemma MovedSourceStopsReplay(s: State, m: nat, to: Source, steps: seq<Step>, end: State)
    requires Inv(s) && s.control.Idle? && !s.reported && Retained(s.attempts, m)
    requires var x := s.attempts[m].value;
      && DeskOf(s, x.publisherRoot) == P.Untouched() && x.sourceRoot in s.sources && to.pointer != x.base
    requires var x := s.attempts[m].value;
      RunsTo(Apply(s, MoveSource(x.sourceRoot, to)), steps, end) && LeavesAlone(steps, x, true)
    ensures !end.reported && end.sent == s.sent && end.builds == s.builds
  {
    var x := s.attempts[m].value;
    var t := Apply(s, MoveSource(x.sourceRoot, to));
    StepKeeps(s, MoveSource(x.sourceRoot, to));
    assert DeskOf(t, x.publisherRoot) == DeskOf(s, x.publisherRoot);
    BarredStays(t, steps, end, m, x);
    RetainedEndsBuilding(t, steps, end, m);
  }

  /** A release file left half made stops the date while it lies there, whatever runs follow, with
      whatever arguments and wherever the source moves.  Retention may remove it. */
  lemma HalfMadeStopsReplay(s: State, m: nat, x: Input, steps: seq<Step>, end: State)
    requires Holding(s, m, x) && s.control.Idle? && HalfMade(s, x)
    requires RunsTo(s, steps, end) && DropRelease(x.publisherRoot) !in steps
    ensures !end.reported && end.sent == s.sent
  {
    assert InputFits(s, x);
    P.HalfMadeBlocks(CallOf(x), DeskOf(s, x.publisherRoot), s.sources[x.sourceRoot].pointer);
    BarredStays(s, steps, end, m, x);
  }

  /** Once it is removed the date can be finished exactly by runs of the same roots and Legacy bytes, if
      the comparison accepts them, on a source still at the base of the package. */
  lemma DroppingFreesReplay(s: State, n: nat, m: nat, a: Args)
    requires Inv(s) && s.control.Idle? && !s.reported && Free(s.attempts, n) && Retained(s.attempts, m)
    requires HalfMade(s, s.attempts[m].value)
    ensures var x := s.attempts[m].value;
      && x.sourceRoot in s.sources && Enabled(s, DropRelease(x.publisherRoot))
      && (s.sources[x.sourceRoot].pointer.release != P.OfCandidate(1) ==>
            (Matches(x, a) && Comparable(a.legacy) && s.sources[x.sourceRoot].pointer == x.base <==>
              exists steps, end ::
                RunsTo(Apply(s, DropRelease(x.publisherRoot)), steps, end) && OnlyWith(steps, a) && end.reported))
  {
    var x := s.attempts[m].value;
    var desk := DeskOf(s, x.publisherRoot);
    P.DropFits(CallOf(x), desk, P.Entered);
    P.HalfMadeBlocks(CallOf(x), desk, s.sources[x.sourceRoot].pointer);
    StepKeeps(s, DropRelease(x.publisherRoot));
    var t := Apply(s, DropRelease(x.publisherRoot));
    assert DeskOf(t, x.publisherRoot) == P.Dropped(desk);
    ReplayFinishesIff(t, n, m, a);
  }

  // ------------------------------------------------------ one first run, and where it may end

  function FirstInput(sources: map<int, Source>, a: Args, health: int, build: int): Input
    requires a.sourceRoot in sources
  {
    Input(
      sourceRoot := a.sourceRoot, publisherRoot := a.publisherRoot, legacy := a.legacy, build := build,
      base := sources[a.sourceRoot].pointer,
      applicationRelease := if a.applicationRelease == None then health else a.applicationRelease.value,
      startedAt := a.startedAt, finishedAt := a.finishedAt, durationMs := a.durationMs)
  }

  /** The first run of a date, up to its retained input. */
  lemma FirstRun(sources: map<int, Source>, a: Args, health: int, build: int)
    returns (steps: seq<Step>, end: State)
    requires a.sourceRoot in sources && !sources[a.sourceRoot].hasIssue
    ensures RunsTo(Initial(sources), steps, end) && OnlyWith(steps, a) && Inv(end)
    ensures var x := FirstInput(sources, a, health, build);
      end == Initial(sources).(control := Ready(x), attempts := map[1 := Some(x)], builds := 1)
  {
    var s := Initial(sources);
    steps, end := NewAttempt(s, 1, a);
    steps, end := BuildAndRetain(s, steps, end, health, build, a);
    assert end.attempts == map[1 := end.attempts[1]];
  }

  lemma BuildAndRetain(s: State, steps: seq<Step>, mid: State, health: int, build: int, a: Args)
    returns (more: seq<Step>, end: State)
    requires Inv(mid) && RunsTo(s, steps, mid) && OnlyWith(steps, a) && Unretained(mid)
    requires mid.control.args == a && !mid.sources[a.sourceRoot].hasIssue
    ensures RunsTo(s, more, end) && OnlyWith(more, a) && Inv(end)
    ensures var x := FirstInput(mid.sources, a, health, build);
      end == mid.(control := Ready(x), attempts := mid.attempts[mid.control.n := Some(x)], builds := mid.builds + 1)
  {
    more, end := Do(s, steps, mid, StartBuild(health), a);
    more, end := Do(s, more, end, FinishBuild(build), a);
    more, end := Do(s, more, end, WriteInput, a);
  }

  /** It may stop there, with nothing published. */
  lemma StopBeforePublishing(sources: map<int, Source>, a: Args, health: int, build: int)
    returns (steps: seq<Step>, end: State)
    requires a.sourceRoot in sources && !sources[a.sourceRoot].hasIssue
    ensures RunsTo(Initial(sources), steps, end) && Holding(end, 1, FirstInput(sources, a, health, build))
    ensures end.control.Idle? && end.attempts.Keys == {1} && end.sources == sources && end.sent == []
    ensures DeskOf(end, a.publisherRoot) == P.Untouched()
  {
    steps, end := FirstRun(sources, a, health, build);
    steps, end := Do(Initial(sources), steps, end, Crash, a);
  }

  /** It may stop with the release file half made, the source unmoved. */
  lemma StopHalfMade(sources: map<int, Source>, a: Args, health: int, build: int)
    returns (steps: seq<Step>, end: State)
    requires a.sourceRoot in sources && !sources[a.sourceRoot].hasIssue
    ensures var x := FirstInput(sources, a, health, build);
      && RunsTo(Initial(sources), steps, end) && Holding(end, 1, x) && HalfMade(end, x)
      && x.sourceRoot in end.sources && end.sources[x.sourceRoot].pointer == x.base
    ensures end.control.Idle? && end.attempts.Keys == {1} && end.sent == []
  {
    var s := Initial(sources);
    steps, end := FirstRun(sources, a, health, build);
    steps, end := Do(s, steps, end, CallPublisher, a);
    var ps, w := P.CopyRun(CallOf(end.control.input), WorldOf(end));
    steps, end := PublisherRun(s, steps, end, ps, w, a);
    steps, end := Do(s, steps, end, Crash, a);
  }

  /** And with a Legacy response that the comparison refuses, an undisturbed first run publishes, and
      neither it nor any later run of the date reports. */
  lemma PublishedWithoutReport(sources: map<int, Source>, a: Args, health: int, build: int)
    returns (steps: seq<Step>, end: State)
    requires a.sourceRoot in sources && !sources[a.sourceRoot].hasIssue && !Comparable(a.legacy)
    ensures RunsTo(Initial(sources), steps, end) && OnlyWith(steps, a)
    ensures end.control == Publishing(FirstInput(sources, a, health, build), P.Returned)
    ensures DeskOf(end, a.publisherRoot).outcome
    ensures forall more, last | RunsTo(end, more, last) :: !last.reported
  {
    var x := FirstInput(sources, a, health, build);
    steps, end := FirstRun(sources, a, health, build);
    steps, end := PublishSteps(Initial(sources), steps, end, a);
    forall more, last | RunsTo(end, more, last) ensures !last.reported {
      IncomparableNeverReports(end, 1, x, more, last);
    }
  }

  /** One link that is not absolute, or one that repeats, is enough, even of a material the issue excludes. */
  lemma ComparableIff(l: Legacy)
    ensures Comparable(l) <==>
      ((forall u | u in l.urls :: C.ValidUrl(u)) && forall i, j | 0 <= i < j < |l.urls| :: l.urls[i] != l.urls[j])
  {
    C.UsableIff(l.urls);
  }
}
