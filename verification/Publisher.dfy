/** The publisher. */
module Publisher {
  // Publishing one candidate: the durable files kept under its id, in the order they are written, with a
  // stop possible between any two steps.

  import opened Wrappers

  /** Release ids are digests of candidate ids; candidates of one caller are numbered. */
  datatype Release = OfCandidate(attempt: nat) | Other(id: int)

  datatype Pointer = Pointer(release: Release, state: int)

  /** The release database is first copied from the staging file and then marked as a release; the two
      writes are separate. */
  datatype ReleaseFile = Absent | Copied | Marked

  /** What goes out: everything the caller passed, and the base pointer it is fenced to. */
  datatype Request<Q> = Request(input: Q, base: Pointer)

  /** The files of one candidate: base-pointer receipt, release database, request, outcome. */
  datatype Desk<Q> = Desk(receipt: Option<Pointer>, release: ReleaseFile, request: Option<Request<Q>>, outcome: bool)

  /** One caller's candidate: its number, the base its package expects, and what it publishes. */
  datatype Call<Q> = Call(input: Q, attempt: nat, base: Pointer, package: int)

  datatype Stage =
    | Entered
    | BaseChecked(base: Pointer, observed: Pointer)
    | Receipted(base: Pointer, observed: Pointer)
    | HalfMade(base: Pointer, observed: Pointer)
    | Released(base: Pointer, observed: Pointer)
    | Requested(base: Pointer, observed: Pointer)
    | Delivered(observed: Pointer)
    | Committed
    | Returned

  datatype World<Q> = World(stage: Stage, desk: Desk<Q>, source: Pointer, sent: seq<Request<Q>>)

  datatype Step =
    | FindOutcome | CheckBase | SaveReceipt | CopyRelease | MarkRelease | UseRelease
    | SaveRequest | Send | CommitSource | SaveOutcome

  function Untouched<Q>(): Desk<Q> {
    Desk(None, Absent, None, false)
  }

  /** A source already moved to this candidate's release is checked against the retained base. */
  function BaseFor<Q>(c: Call<Q>, desk: Desk<Q>, source: Pointer): Pointer {
    if source.release == OfCandidate(c.attempt) && desk.receipt.Some? then desk.receipt.value else source
  }

  /** A release file that exists is not made again; one without its marker does not pass inspection.
      Retained bytes are never overwritten, and the pointer moves only from where it was observed. */
  predicate Can<Q(==)>(c: Call<Q>, w: World<Q>, step: Step) {
    match step
    case FindOutcome => w.stage.Entered? && w.desk.outcome
    case CheckBase => w.stage.Entered? && !w.desk.outcome && BaseFor(c, w.desk, w.source) == c.base
    case SaveReceipt => w.stage.BaseChecked? && (w.desk.receipt.Some? ==> w.desk.receipt.value == w.stage.base)
    case CopyRelease => w.stage.Receipted? && w.desk.release == Absent
    case MarkRelease => w.stage.HalfMade?
    case UseRelease => w.stage.Receipted? && w.desk.release == Marked
    case SaveRequest =>
      w.stage.Released? && (w.desk.request.Some? ==> w.desk.request.value == Request(c.input, w.stage.base))
    case Send => w.stage.Requested?
    case CommitSource => w.stage.Delivered? && w.source == w.stage.observed
    case SaveOutcome => w.stage.Committed?
  }

  function Do<Q(==)>(c: Call<Q>, w: World<Q>, step: Step): World<Q>
    requires Can(c, w, step)
  {
    var desk := w.desk;
    match step
    case FindOutcome => w.(stage := Returned)
    case CheckBase => w.(stage := BaseChecked(BaseFor(c, desk, w.source), w.source))
    case SaveReceipt =>
      w.(stage := Receipted(w.stage.base, w.stage.observed), desk := desk.(receipt := Some(w.stage.base)))
    case CopyRelease => w.(stage := HalfMade(w.stage.base, w.stage.observed), desk := desk.(release := Copied))
    case MarkRelease => w.(stage := Released(w.stage.base, w.stage.observed), desk := desk.(release := Marked))
    case UseRelease => w.(stage := Released(w.stage.base, w.stage.observed))
    case SaveRequest =>
      w.(stage := Requested(w.stage.base, w.stage.observed),
         desk := desk.(request := Some(Request(c.input, w.stage.base))))
    case Send => w.(stage := Delivered(w.stage.observed), sent := w.sent + [Request(c.input, w.stage.base)])
    case CommitSource => w.(stage := Committed, source := Pointer(OfCandidate(c.attempt), c.package))
    case SaveOutcome => w.(stage := Returned, desk := desk.(outcome := true))
  }

  // -------------------------------------------------------------------- invariant

  /** All files are of this very call, and each was written after the ones before it. */
  predicate DeskFits<Q(==)>(c: Call<Q>, desk: Desk<Q>) {
    && (desk.receipt.Some? ==> desk.receipt.value == c.base)
    && (desk.release != Absent || desk.request.Some? ==> desk.receipt.Some?)
    && (desk.release == Copied ==> desk.request.None?)
    && (desk.request.Some? ==>
          (desk.release == Marked || desk.outcome) && desk.request.value == Request(c.input, c.base))
    && (desk.outcome ==> desk.request.Some?)
  }

  /** The request of this call, and where its publication leaves the source. */
  function TheRequest<Q>(c: Call<Q>): Request<Q> {
    Request(c.input, c.base)
  }

  function TheRelease<Q>(c: Call<Q>): Pointer {
    Pointer(OfCandidate(c.attempt), c.package)
  }

  /** At the base the package expects, or already at the candidate's own release. */
  predicate AtHome<Q>(c: Call<Q>, source: Pointer) {
    source == c.base || source.release == OfCandidate(c.attempt)
  }

  predicate StageFits<Q(==)>(c: Call<Q>, desk: Desk<Q>, stage: Stage) {
    match stage
    case Entered => true
    case BaseChecked(base, seen) => base == c.base && AtHome(c, seen) && !desk.outcome
    case Receipted(base, seen) => base == c.base && AtHome(c, seen) && desk.receipt.Some? && !desk.outcome
    case HalfMade(base, seen) => base == c.base && AtHome(c, seen) && desk.release == Copied
    case Released(base, seen) => base == c.base && AtHome(c, seen) && desk.release == Marked
    case Requested(base, seen) => base == c.base && AtHome(c, seen) && desk.request.Some?
    case Delivered(seen) => AtHome(c, seen) && desk.request.Some?
    case Committed => desk.request.Some?
    case Returned => desk.outcome
  }

  /** No outcome without its request having gone out. */
  predicate SentFits<Q(==)>(c: Call<Q>, desk: Desk<Q>, stage: Stage, sent: seq<Request<Q>>) {
    desk.outcome || stage.Delivered? || stage.Committed? ==> TheRequest(c) in sent
  }

  predicate Fits<Q(==)>(c: Call<Q>, w: World<Q>) {
    DeskFits(c, w.desk) && StageFits(c, w.desk, w.stage) && SentFits(c, w.desk, w.stage, w.sent)
  }

  /** Every step keeps the files in order, keeps a receipt and an outcome, and sends nothing but the one
      request, which is retained before it goes out. */
  lemma StepFits<Q>(c: Call<Q>, w: World<Q>, step: Step)
    requires Fits(c, w) && Can(c, w, step)
    ensures var t := Do(c, w, step);
      && Fits(c, t)
      && (w.desk.receipt.Some? ==> t.desk.receipt == w.desk.receipt)
      && (w.desk.request.Some? ==> t.desk.request == w.desk.request)
      && (w.desk.outcome ==> t.desk.outcome)
      && (t.sent == w.sent || (t.sent == w.sent + [TheRequest(c)] && w.desk.request == Some(TheRequest(c))))
  {
  }

  /** The source moves only after the request has gone out, only to the candidate's release, and never away
      from anybody else's; the outcome is saved only after that. */
  lemma SourceMoves<Q>(c: Call<Q>, w: World<Q>, step: Step)
    requires Fits(c, w) && Can(c, w, step)
    ensures var t := Do(c, w, step);
      && (t.source != w.source ==>
            t.source == TheRelease(c) && AtHome(c, w.source) && TheRequest(c) in w.sent && t.stage.Committed?)
      && (t.stage.Committed? ==> t.source == TheRelease(c))
      && (t.desk.outcome ==> w.desk.outcome || w.stage.Committed?)
  {
  }

  /** Retention may remove a release file that no unresolved request names, while no publication holds the
      lock they share. */
  predicate MayDrop<Q>(desk: Desk<Q>, stage: Stage) {
    desk.release != Absent && (desk.request.None? || desk.outcome) && (stage.Entered? || stage.Returned?)
  }

  function Dropped<Q>(desk: Desk<Q>): Desk<Q> {
    desk.(release := Absent)
  }

  /** The rest of the files stays, and a half-made release file may always go. */
  lemma DropFits<Q>(c: Call<Q>, desk: Desk<Q>, stage: Stage)
    requires DeskFits(c, desk) && StageFits(c, desk, stage) && (stage.Entered? || stage.Returned?)
    ensures MayDrop(desk, stage) ==> DeskFits(c, Dropped(desk)) && StageFits(c, Dropped(desk), stage)
    ensures desk.release == Copied ==> MayDrop(desk, stage)
  {
  }

  /** Comparing retained bytes never fails: what is about to be saved is what was saved. */
  lemma NothingDiffers<Q>(c: Call<Q>, w: World<Q>)
    requires Fits(c, w)
    ensures w.stage.BaseChecked? ==> Can(c, w, SaveReceipt)
    ensures w.stage.Released? ==> Can(c, w, SaveRequest)
  {
  }

  // ------------------------------------------------ when a candidate can be taken up

  /** Its outcome is saved; or its release file is not left half made, and the source is at the base the
      package expects or already at the candidate's own release. */
  predicate TakesUp<Q>(c: Call<Q>, desk: Desk<Q>, source: Pointer) {
    || desk.outcome
    || (desk.release != Copied
        && (source == c.base || (source.release == OfCandidate(c.attempt) && desk.receipt.Some?)))
  }

  predicate RunsTo<Q(==)>(c: Call<Q>, w: World<Q>, steps: seq<Step>, end: World<Q>)
    decreases |steps|
  {
    if steps == [] then w == end else Can(c, w, steps[0]) && RunsTo(c, Do(c, w, steps[0]), steps[1..], end)
  }

  lemma {:induction false} Prepend<Q>(c: Call<Q>, w: World<Q>, step: Step, steps: seq<Step>, end: World<Q>)
    requires Can(c, w, step) && RunsTo(c, Do(c, w, step), steps, end)
    ensures RunsTo(c, w, [step] + steps, end)
  {
    assert ([step] + steps)[1..] == steps;
  }

  /** A publication from beginning to end: one request more, the source at the candidate's release, and all
      four files in place. */
  predicate Published<Q(==)>(c: Call<Q>, w: World<Q>, end: World<Q>) {
    end == World(
      Returned, Desk(Some(c.base), Marked, Some(TheRequest(c)), true), TheRelease(c), w.sent + [TheRequest(c)])
  }

  /** From the saved request on nothing can get in the way of the outcome. */
  lemma FromReleased<Q>(c: Call<Q>, w: World<Q>) returns (steps: seq<Step>, end: World<Q>)
    requires Fits(c, w) && w.stage.Released? && w.source == w.stage.observed
    ensures RunsTo(c, w, steps, end) && Published(c, w, end) && CommitSource in steps
  {
    var a := Do(c, w, SaveRequest);
    var b := Do(c, a, Send);
    var d := Do(c, b, CommitSource);
    end := Do(c, d, SaveOutcome);
    steps := [];
    Prepend(c, d, SaveOutcome, steps, end);
    steps := [SaveOutcome] + steps;
    Prepend(c, b, CommitSource, steps, end);
    steps := [CommitSource] + steps;
    Prepend(c, a, Send, steps, end);
    steps := [Send] + steps;
    Prepend(c, w, SaveRequest, steps, end);
    steps := [SaveRequest] + steps;
  }

  lemma FromReceipted<Q>(c: Call<Q>, w: World<Q>) returns (steps: seq<Step>, end: World<Q>)
    requires Fits(c, w) && w.stage.Receipted? && w.source == w.stage.observed && w.desk.release != Copied
    ensures RunsTo(c, w, steps, end) && Published(c, w, end) && CommitSource in steps
  {
    if w.desk.release == Absent {
      var a := Do(c, w, CopyRelease);
      steps, end := FromReleased(c, Do(c, a, MarkRelease));
      Prepend(c, a, MarkRelease, steps, end);
      Prepend(c, w, CopyRelease, [MarkRelease] + steps, end);
      steps := [CopyRelease] + ([MarkRelease] + steps);
    } else {
      steps, end := FromReleased(c, Do(c, w, UseRelease));
      Prepend(c, w, UseRelease, steps, end);
      steps := [UseRelease] + steps;
    }
  }

  /** A candidate that can be taken up is carried to its outcome: published by exactly one further request,
      unless its outcome was saved before, when nothing is sent or moved. */
  lemma Completes<Q>(c: Call<Q>, w: World<Q>) returns (steps: seq<Step>, end: World<Q>)
    requires Fits(c, w) && w.stage.Entered? && TakesUp(c, w.desk, w.source)
    ensures RunsTo(c, w, steps, end) && if w.desk.outcome then end == w.(stage := Returned) else Published(c, w, end)
    ensures CommitSource in steps <==> !w.desk.outcome
  {
    if w.desk.outcome {
      end := Do(c, w, FindOutcome);
      Prepend(c, w, FindOutcome, [], end);
      steps := [FindOutcome] + [];
    } else {
      var a := Do(c, w, CheckBase);
      StepFits(c, w, CheckBase);
      steps, end := FromReceipted(c, Do(c, a, SaveReceipt));
      Prepend(c, a, SaveReceipt, steps, end);
      Prepend(c, w, CheckBase, [SaveReceipt] + steps, end);
      steps := [CheckBase] + ([SaveReceipt] + steps);
    }
  }

  /** The first three steps of a new candidate: its release file is copied and not yet marked. */
  lemma CopyRun<Q>(c: Call<Q>, w: World<Q>) returns (steps: seq<Step>, end: World<Q>)
    requires w.stage.Entered? && w.desk == Untouched() && w.source == c.base
    ensures RunsTo(c, w, steps, end)
    ensures end.desk.release == Copied && end.source == w.source && end.sent == w.sent && CommitSource !in steps
  {
    var a := Do(c, w, CheckBase);
    var b := Do(c, a, SaveReceipt);
    end := Do(c, b, CopyRelease);
    Prepend(c, b, CopyRelease, [], end);
    Prepend(c, a, SaveReceipt, [CopyRelease] + [], end);
    Prepend(c, w, CheckBase, [SaveReceipt] + ([CopyRelease] + []), end);
    steps := [CheckBase] + ([SaveReceipt] + ([CopyRelease] + []));
  }

  /** No outcome, no way to take the candidate up, and the process has not got past the obstacle. */
  predicate Stuck<Q(==)>(c: Call<Q>, w: World<Q>) {
    && Fits(c, w) && !TakesUp(c, w.desk, w.source)
    && (w.stage.Entered? || (w.desk.release == Copied && (w.stage.BaseChecked? || w.stage.Receipted?)))
  }

  /** A stuck candidate stays so: no step sends anything, moves the source or touches the release file. */
  lemma StuckStays<Q>(c: Call<Q>, w: World<Q>, step: Step)
    requires Stuck(c, w) && Can(c, w, step)
    ensures var t := Do(c, w, step);
      Stuck(c, t) && t.sent == w.sent && t.source == w.source && t.desk.release == w.desk.release && !t.desk.outcome
  {
  }

  /** A half-made release file stands in the way wherever the source moves.  Once it is removed the
      candidate can be taken up exactly on the base it expects. */
  lemma HalfMadeBlocks<Q>(c: Call<Q>, desk: Desk<Q>, source: Pointer)
    requires DeskFits(c, desk) && desk.release == Copied
    ensures !TakesUp(c, desk, source)
    ensures source.release != OfCandidate(c.attempt) ==> (TakesUp(c, Dropped(desk), source) <==> source == c.base)
  {
  }
}
