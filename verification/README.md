# Publication pipeline: verified model

A Dafny model of a pipeline that collects materials, queues them for daily issues, prints and re-reads
reports, publishes immutable releases, corrects issues, and deletes old releases. The proofs are about
whole runs: every sequence of days, every crash point, every order of errors.

`dafny verify dfyconfig.toml` checks the project.

## What is modelled

**The deferred queue** (`DeferredQueue`). Merging the queue with the period through an
insertion-ordered dictionary, selecting a capped batch oldest-deferred-first, and a report run that
writes the queue file last. Main result: an entry first deferred on day d leaves the queue within
ceil(N / limit) issues dated after d, N being the queued entries not younger than it, whatever arrives
or is dropped in between. On issues that repeat the date d the bound holds exactly while N is within one
issue's capacity (`SameDateBoundIff`): beyond that a newcomer of the same day can overtake, for every
date, limit and N. The deferral record counts exactly the issues that came out while an entry waited
(`RunCounts`).

**Corrections** (`Observation`, `Corrections`, `CorrectionHistory`, `Publisher`, `CorrectionWorker`).
Candidate pairs over an issue and its 45 days of history; checking them in batches of six with ten model calls
per attempt and a durable cache; the assessment that authorises removals; the corrected issue; the
publisher with the files it keeps per candidate; and the worker that builds and publishes a correction,
as crash-interruptible steps. Main results: over every sequence of publications, edits, observations and
corrections each removed card is linked by owner-confirmed same-event pairs to a card that is still
published (measure: issue date, then remaining corrections); a selection of removals is accepted under an
exact condition, and a refusal names its first violation (`Corrections.DecisionMeans`); an attempt is
complete exactly if every batch is answered validly within the limits and stored (`Observation.CompleteIff`);
however often the worker dies, every request a review sends is one and the same, a saved result means that
it went out, and no other publication's release is ever overwritten; and a review can be finished, with no other publication and no
retention in between, under an exact condition. Once the publisher has its receipt, the publisher must be
able to take the package up: its outcome is saved, or its release file is not left half made and the source
is at the package's base or at its own release. Before that, the package in build.json must not be for the
source's state and yet from another release: the worker keeps such a package by its state hash
(v2/tools/process_issue_reviews.py:117) and the publisher refuses it by its release id
(v2/packages/publisher/remote_orchestration.py:194-199), however often the operator confirms again.

The release file is made by two writes, a copy of the staging database
(v2/packages/delta/engine.py:716) and the insertion of its release marker (v2/packages/delta/engine.py:731-745),
and a file that exists is not made again (v2/packages/publisher/remote_orchestration.py:206-207). A
single crash between the two therefore stops the review, whatever the operator confirms and wherever the
source moves (`CorrectionWorker.CrashLeavesHalfMade`, `CorrectionWorker.HalfMadeStops`), until the
retention pass removes the file, which it may because no saved request names it; after that the review can
be finished exactly if the source has not moved (`CorrectionWorker.DroppingFrees`).

The batches reach 102 pairs, but the report format takes at most 100
(v2/packages/contracts/event_observation.py:119). Two attempts therefore check every issue of up to 100
candidates completely, hence every issue of up to ten cards in every reachable archive
(`CorrectionHistory.TenCardIssueObserved`), and the report is complete exactly if its texts and its encoded
length keep the format's limits (v2/packages/contracts/event_observation.py:43-45 and 176-177), and refused
otherwise. With 101 or 102 candidates every pair is checked and the report is then refused; beyond that no
attempt can be complete.

**Daily replay** (`DailyReplay`, `Publisher`). The run directory and its attempts as a class, and all
invocations of one date as steps with a crash possible between any two; what the class's methods do is a
sequence of those steps. The publisher is the one of the corrections. Main results: one input per date
over every run, so it never meets a second one; no build after a retained input; nothing at all after the
combined report, and that only after the input's request went out; a date without an input can be reported
exactly if the comparison accepts the Legacy URLs (`DailyReplay.FreshFinishesIff`); and later runs can bring a date to its report exactly if they name the same roots and
Legacy bytes, the publisher can take the retained input up, and the comparison accepts the Legacy URLs.
Each of the three ways of failing is exhibited by a first run of the date. One stop before publishing
leaves an input that does not survive another publication moving the source
(`DailyReplay.StopBeforePublishing`, `DailyReplay.MovedSourceStopsReplay`). One stop between copying and
marking leaves a release file that stops the date while it lies there (`DailyReplay.StopHalfMade`,
`DailyReplay.HalfMadeStopsReplay`, `DailyReplay.DroppingFreesReplay`). And since the Legacy URLs are looked
at only after publishing (v2/tools/run_stage15_dual.py:502-509), one unusable link, even of a material the
issue excludes, gives a date that is published and never reported (`DailyReplay.PublishedWithoutReport`).

**Retention** (`Retention`, `RetentionRemote`). Planning over files, pointers and requests on both
sides, the deletion loop with its re-check, safety after every prefix of the plan, and that a completed
pass leaves nothing to do for the next, on both sides. In terms of times and names alone, a file with fewer
than k others ahead of it survives every prefix.

**Reports** (`ReportText`, `ReportPrinter`, `ReportParser`, `ReportLayout`, `ApplyCards`,
`CardRewrite`, `CardPasses`). The printer, the parser, and between them the in-place edit that writes
generated card texts into the printed lines. Main results: printing then parsing recovers exactly the
items of the three perimeters, each once, in order; any number of editing passes keeps the parsed
perimeters, titles and links; a written card reads back as its own new texts. The edit adds one blank
line below the summary label each time, so a card as printed can be written eight times; from the ninth
pass on its new text is silently dropped (`NinthPassIsLost`), and the card counts neither as written nor
as a fallback. A summary longer than the search window is skipped in the same way.

**Bounded searches, caches, state machines** (`ContextFit`, `Registry`, `EventCache`, `Ladder`,
`StateMachineCheck`, `JsonPointer`, `Comparison`). Fitting materials into a prompt; merging candidates
into the registry; the validated model cache; the acquisition ladder; the contract check with its
breadth-first search; JSON Pointer decoding (sections 3 and 4 of RFC 6901); the daily two-version
comparison.

Where code and documentation disagree, the model follows the code:

- The publication input is retained so that an unfinished run can be replayed
  (v2/tools/run_stage15_dual.py:373-380). Replay finishes exactly under the condition of
  `DailyReplay.ReplayFinishesIff`.
- `plan_acquisition` is documented as changing nothing on a second run
  (kx/src/radar_kx/database.py:2804-2810). Without a fetch in between that holds exactly when the document
  had a terminal reason before, or may not go on once its current rung counts as tried
  (`Ladder.PlanTwiceIff`); otherwise the rung just chosen is written off.
- The shortened text may exceed its cap by the ellipsis (`ContextFit.ShortenCarries`).
- A new registry item is counted with one source even if its hit names none
  (pipeline/scripts/agpm_radar_collect.py:986), so its first real source goes unreported
  (`Registry.FirstSourceUnreported`). Collectors take the source id from the configuration or build a
  non-empty one, so only an empty configured id triggers it.
- "Explained" in the daily comparison compares counts, not sets: it is the truth exactly when the second
  version shows no excluded material (`Comparison.QuietIsTruthfulIff`), and swapping an eligible one for
  an excluded one is explained on every issue that has both (`Comparison.SwapGoesUnnoticed`).

Conventions: dates, modification times and sequence numbers are naturals; text is `seq<char>`; a report
is a sequence of lines without line breaks; digests are injective and stand for what they digest;
files are written whole, the release database by two such writes; runs for one date follow one another.
Shared helpers are in `Wrappers`, `Ordering`, `Sets` and `Splices`.

## Model

| member | source | states |
|---|---|---|
| DeferredQueue.MergeDeferredWithPeriod | pipeline/scripts/agpm_radar_report.py:1313-1320 | filling the dictionary from the period, then the queue, yields the merge |
| DeferredQueue.Dict.Store | pipeline/scripts/agpm_radar_report.py:1313-1320 | assignment overwrites a known key in place and appends a new one |
| DeferredQueue.MergeKeepsQueue | pipeline/scripts/agpm_radar_report.py:1313-1320 | no key twice, none lost, and a queued entry with its deferral record beats the period's copy |
| DeferredQueue.SelectionConserves | pipeline/scripts/agpm_radar_report.py:1338-1352 | every included item is selected or deferred once; the cap is kept and used up; a deferred one keeps its first date, gets this last date and counts one more |
| DeferredQueue.NoOvertaking | pipeline/scripts/agpm_radar_report.py:1338-1352 | whatever is selected goes before whatever is deferred; no fresh item while a deferred one waits again |
| DeferredQueue.TiesKeepRanking | pipeline/scripts/agpm_radar_report.py:1338-1352 | items that wait equally long are taken in ranking order |
| DeferredQueue.DailyReport.Run | pipeline/scripts/agpm_radar_report.py:1997-2046 | the queue is written after every other output; a run that fails or stops earlier leaves it unchanged |
| DeferredQueue.DayShrinks | pipeline/scripts/agpm_radar_report.py:1326-1352 | one issue: what is old was old before, and while an entry waits a whole batch of old entries leaves |
| DeferredQueue.RunShrinks | pipeline/scripts/agpm_radar_report.py:1326-1352 | over any run, old entries shrink by the capacity of the issues that came out while the entry waits |
| DeferredQueue.BoundedWait | pipeline/scripts/agpm_radar_report.py:1326-1352 | an entry is out of the queue after ceil(N / limit) issues dated after its first deferral |
| DeferredQueue.DayCounts | pipeline/scripts/agpm_radar_report.py:1326-1352 | an entry that still waits after an issue was put off once more, on its date; without an issue nothing changes |
| DeferredQueue.RunCounts | pipeline/scripts/agpm_radar_report.py:1326-1352 | over any run a waiting entry counts the issues that came out while it waited |
| DeferredQueue.LeavesPublishedOrDropped | pipeline/scripts/agpm_radar_report.py:1338-1352 | it leaves only by being published or by not surviving filtering |
| DeferredQueue.SameDateBoundIff | pipeline/scripts/agpm_radar_report.py:1326-1352 | on issues that repeat d the bound holds for n old entries if and only if n is at most the limit |
| DeferredQueue.SameDateOvertakes | pipeline/scripts/agpm_radar_report.py:1326-1352 | for every d, limit and n above it: n entries and ceil(n / limit) issues dated d that leave one waiting |
| Observation.CandidatePairs | v2/tools/observe_issue_events.py:90-145 | the loops and the final sort produce the candidate list |
| Observation.CandidateMembers | v2/tools/observe_issue_events.py:128-145 | every in-issue pair once, other candidates pair a current with a historical card, at most n(n-1)/2 + 5n |
| Observation.CandidatesRanked | v2/tools/observe_issue_events.py:128-145 | candidates run from the highest score down, ties by position |
| Observation.BestPartnersKept | v2/tools/observe_issue_events.py:128-145 | a historical partner is passed over only for five that rank no worse |
| Observation.Analyze | v2/tools/observe_issue_events.py:148-233 | the batch loop yields the report and cache of the attempt function and keeps its invariant |
| Observation.AttemptKeeps | v2/tools/observe_issue_events.py:148-233 | batches in order and once each, at most ten calls, the cache only grows and holds only valid answers |
| Observation.CompleteMeansAll | v2/tools/observe_issue_events.py:148-233 | status is complete exactly when all candidates were checked without an error |
| Observation.ValidForIff | v2/tools/observe_issue_events.py:198-216 | an answer is valid exactly if it predicts each pair of the batch once and every prediction is sound |
| Observation.AttemptEnds | v2/tools/observe_issue_events.py:176-224 | where an attempt ends, which batches its report holds, and that errors are the unanswered or unstored batches and the limit |
| Observation.CompleteIff | v2/tools/observe_issue_events.py:176-232 | complete exactly if every batch is answered validly within the limits and stored, and the batches cover the list |
| Observation.OneAttemptIff | v2/tools/observe_issue_events.py:148-233 | from an empty cache one cooperative attempt is complete up to 60 candidates and not beyond |
| Observation.ReportedOnce | v2/tools/observe_issue_events.py:148-233 | each candidate is reported at most once and nothing else is |
| Observation.AttemptProgress | v2/tools/observe_issue_events.py:148-233 | an attempt with a cooperative model pays off ten missing batches and finishes if that suffices |
| Observation.TwoAttemptsSuffice | v2/tools/observe_issue_events.py:426-430 | two attempts check any issue of up to 100 candidates, whatever was cached; complete exactly if texts and length keep the limits, else refused |
| Observation.NeverCompleteAboveHundred | v2/packages/contracts/event_observation.py:119 | above 100 candidates no attempt whatsoever is reported complete |
| Observation.OverrunIsRejected | v2/packages/contracts/event_observation.py:119 | with 101 or 102 all pairs are checked and the report is refused |
| Observation.TenCardsFit | v2/tools/observe_issue_events.py:128-145 | an issue of ten cards has at most 95 candidates |
| Observation.CandidatesDiffer | v2/tools/observe_issue_events.py:128-145 | cards listed once give candidates listed once |
| Observation.TenCardsComplete | v2/tools/observe_issue_events.py:426-430 | ten cards, with any history, are fully checked after two cooperative attempts; complete exactly within the format's limits |
| Observation.RefusedOverLimits | v2/packages/contracts/event_observation.py:43-177 | up to 100 distinct candidates, only the limits on texts and length can get a report refused |
| Observation.Observe | v2/tools/observe_issue_events.py:426-430 | three attempts on one cache: complete means all pairs; cooperative models complete up to 100, unless a report is over the limits |
| Corrections.DesiredIssue | v2/tools/build_stage14_correction.py:39-126 | the kept materials renumbered in order with statistics recounted; an absent removal is refused |
| Corrections.CorrectionsCompose | v2/tools/build_stage14_correction.py:39-126 | two corrections equal one with both removals, in either order |
| Corrections.CorrectedRows | v2/tools/build_stage14_correction.py:60-63 | exactly the removed cards disappear and ids stay distinct |
| Corrections.CorrectedNumbers | v2/tools/build_stage14_correction.py:90-126 | positions run from one, each counter is the number of cards of its kind, viewed is included plus cut |
| Corrections.ValidateReport | v2/packages/contracts/event_observation.py:119-159 | the loop accepts at most a hundred pairs, none twice, each of the issue |
| Corrections.DecisionMeans | v2/tools/process_issue_reviews.py:55-85 | a selection is accepted exactly if report, issue, proper part, cover and independence hold; a refusal names the first that fails |
| Corrections.AcceptedGraph | v2/tools/process_issue_reviews.py:55-85 | accepted removals are a non-empty independent set of confirmed pairs, each with a partner, never the whole issue |
| CorrectionHistory.CandidateShape | v2/tools/observe_issue_events.py:128-145 | a candidate pairs a card of the issue with another of it or with an earlier issue's |
| CorrectionHistory.BetweenMembers | v2/tools/observe_issue_events.py:236-250 | history cards are those of published issues strictly before the issue date |
| CorrectionHistory.WindowExact | v2/tools/observe_issue_events.py:236-250 | the window is exactly the cards of the issues of the 45 days before |
| CorrectionHistory.CorrectPartner | v2/tools/process_issue_reviews.py:55-85 | each removed card has a confirmed partner that is older or stays published in the same issue |
| CorrectionHistory.CorrectPublished | v2/tools/process_issue_reviews.py:55-85 | a correction unpublishes exactly its removals, all of them published before, and leaves a card |
| CorrectionHistory.StepKeeps | v2/tools/process_issue_reviews.py:55-85 | publishing, editing, observing and correcting keep the archive invariant |
| CorrectionHistory.ChainFrom | v2/tools/process_issue_reviews.py:55-85 | a removed card has a chain of confirmed pairs ending at a published card |
| CorrectionHistory.EveryRemovedCardIsRepresented | v2/tools/process_issue_reviews.py:55-85 | in every reachable archive each card ever shown is published or represented by such a chain |
| CorrectionHistory.WindowDistinct | v2/tools/observe_issue_events.py:236-250 | a published issue and its history window list every card once |
| CorrectionHistory.TenCardIssueObserved | v2/tools/observe_issue_events.py:426-430 | in every reachable archive an issue of ten cards is fully checked after two cooperative attempts, and complete exactly within the limits |
| CorrectionHistory.FinishedReportEnters | v2/tools/observe_issue_events.py:232-233 | what an attempt reports of a published issue is a valid report and can be observed |
| CorrectionHistory.ObservedUntilEdited | v2/tools/process_issue_reviews.py:55-65 | an observation authorises until the issue is edited, and not after |
| CorrectionHistory.CorrectionsNeverEmpty | v2/tools/process_issue_reviews.py:55-85 | no correction empties an issue and no removed card comes back |
| CorrectionWorker.StepKeeps | v2/tools/process_issue_reviews.py:108-207 | every step, crash, source move and removal by retention keeps the worker invariant |
| CorrectionWorker.OneRequestEver | v2/tools/process_issue_reviews.py:108-207 | all requests a review ever sends are equal: candidate, package, timestamps and base |
| CorrectionWorker.ResultMeansSent | v2/packages/publisher/remote_orchestration.py:258-366 | a saved result means that the request of its package went out |
| CorrectionWorker.NeverOverwrites | v2/packages/publisher/remote_orchestration.py:270-290 | the worker moves the source only to its release, after its request, and never away from another publication |
| CorrectionWorker.BuildsBounded | v2/tools/process_issue_reviews.py:108-207 | at most three build directories per confirmation, the first and the repeated ones, and no build may start once that many exist |
| CorrectionWorker.ReceiptFreezes | v2/packages/publisher/remote_orchestration.py:152-300 | once the base-pointer receipt exists the package is never rebuilt or replaced |
| CorrectionWorker.ResultIsFinal | v2/tools/process_issue_reviews.py:88-207 | after the saved result nothing is built, sent or saved |
| CorrectionWorker.KeepAndFinish | v2/packages/publisher/remote_orchestration.py:152-366 | an undisturbed pass takes a kept package that the publisher can take up to its saved result |
| CorrectionWorker.BuildAnew | v2/tools/process_issue_reviews.py:108-207 | a package that is missing or out of date is rebuilt, after a further confirmation, and published |
| CorrectionWorker.TurnedAwayStays | v2/tools/process_issue_reviews.py:112-119 | a package for the source's state but from another release is kept and refused in every run |
| CorrectionWorker.OtherReleaseTurnsAway | v2/tools/process_issue_reviews.py:112-119 | one crash and one release that leaves the state alone lead there |
| CorrectionWorker.FinishesIffResumable | v2/packages/publisher/remote_orchestration.py:152-366 | with or without a receipt, the exact condition under which an unfinished review can be finished |
| CorrectionWorker.CrashLeavesHalfMade | v2/packages/delta/engine.py:716-745 | one crash between copying and marking the release file, with the source still at the base |
| CorrectionWorker.HalfMadeStops | v2/packages/delta/engine.py:290-298 | while it lies there no run, with any confirmations and source moves, sends anything or saves a result |
| CorrectionWorker.DroppingFrees | v2/tools/rotate_content_state.py:302-318 | retention may remove it, and then the review can be finished exactly if the source is still at the base |
| Publisher.StepFits | v2/packages/publisher/remote_orchestration.py:152-366 | every step keeps the files of a candidate in order and its own, and sends only the retained request |
| Publisher.SourceMoves | v2/packages/publisher/remote_orchestration.py:258-366 | the source moves only after the request, only from home to the candidate's release, and the outcome comes after that |
| Publisher.NothingDiffers | v2/packages/publisher/remote_orchestration.py:204-252 | comparing what is about to be saved with what was saved never fails for one and the same call |
| Publisher.Completes | v2/packages/publisher/remote_orchestration.py:152-366 | a candidate that can be taken up is published by exactly one further request, with the source at its release and all files in place; a saved outcome sends and moves nothing |
| Publisher.StuckStays | v2/packages/publisher/remote_orchestration.py:191-220 | one that cannot is not sent, moves no source and gets no outcome |
| Publisher.DropFits | v2/tools/rotate_content_state.py:302-318 | removing a release file that no unresolved request names keeps a candidate's files in order |
| Publisher.HalfMadeBlocks | v2/packages/publisher/remote_orchestration.py:206-220 | a half-made release file keeps its candidate from being taken up wherever the source is |
| DailyReplay.RunDirectory.NextAttemptRoot | v2/tools/run_stage15_dual.py:214-223 | takes the smallest free attempt number, none once all 9999 are taken |
| DailyReplay.RunDirectory.PublicationForAttempt | v2/tools/run_stage15_dual.py:370-426 | replays a matching retained input, refuses a different one, else builds unless already published, and retains what it uses |
| DailyReplay.NumberIsTheStep | v2/tools/run_stage15_dual.py:214-223 | the attempt a run can make is the one whose number the method takes, and none when it takes none |
| DailyReplay.PreparingIsARun | v2/tools/run_stage15_dual.py:370-426 | whatever the preparation does is a sequence of steps of the run |
| DailyReplay.PublishKeeps | v2/packages/publisher/remote_orchestration.py:152-366 | the publisher's steps keep its files those of the input in use |
| DailyReplay.NeverRefusedAsDifferent | v2/tools/run_stage15_dual.py:345-426 | the publisher never meets retained bytes that differ |
| DailyReplay.OneInputPerDate | v2/tools/run_stage15_dual.py:370-503 | over all runs of a date every call and every retained file is one input |
| DailyReplay.ReportMeansSent | v2/tools/run_stage15_dual.py:449-556 | a date with a retained input is reported only after its request went out |
| DailyReplay.NeverOverwrites | v2/packages/publisher/remote_orchestration.py:270-290 | a run moves a source only to the release of its input, after its request, and never away from another publication |
| DailyReplay.RetainedEndsBuilding | v2/tools/run_stage15_dual.py:370-426 | after a retained input no build starts and that file stays |
| DailyReplay.ReportIsFinal | v2/tools/run_stage15_dual.py:449-503 | after the combined report nothing is built, retained or published |
| DailyReplay.ReplayFinishesIff | v2/tools/run_stage15_dual.py:370-509 | later runs can report exactly if they name the same roots and Legacy bytes, the comparison accepts these, and the publisher can take the input up |
| DailyReplay.FreshFinishesIff | v2/tools/run_stage15_dual.py:449-556 | before anything is retained, runs can report exactly if the comparison accepts the Legacy URLs |
| DailyReplay.StopBeforePublishing | v2/tools/run_stage15_dual.py:370-426 | one stop leaves an input retained and nothing published |
| DailyReplay.MovedSourceStopsReplay | v2/packages/publisher/remote_orchestration.py:191-204 | a source moved elsewhere in that gap ends it: no later run, whatever its arguments, sends, reports or rebuilds |
| DailyReplay.HoldingStep | v2/tools/run_stage15_dual.py:370-426 | while a date has its input and no report, every process publishes that input, and only an accepted Legacy response can be reported |
| DailyReplay.IncomparableNeverReports | v2/tools/run_stage15_dual.py:502-509 | a Legacy response with unusable URLs ends every run before its report |
| DailyReplay.PublishedWithoutReport | v2/tools/run_stage15_dual.py:502-509 | on such a response a first run publishes, and no run of the date ever reports |
| DailyReplay.StopHalfMade | v2/packages/delta/engine.py:716-745 | one stop of a first run leaves the release file half made on an unmoved source |
| DailyReplay.HalfMadeStopsReplay | v2/packages/publisher/remote_orchestration.py:206-220 | while a half-made release file lies there no run of any kind sends or reports anything |
| DailyReplay.DroppingFreesReplay | v2/tools/rotate_content_state.py:302-318 | once retention has removed it, the same roots and accepted Legacy bytes on an unmoved source report the date, and nothing else does |
| Retention.PlanSource | v2/tools/rotate_content_state.py:279-342 | lists exactly the unreferenced old files outside the newest k of both roots, in path order, or refuses |
| Retention.VerifyActive | v2/tools/rotate_content_state.py:105-132 | the active pointer parses, its file is regular and holds the same release |
| Retention.ValidatedResult | v2/tools/rotate_content_state.py:302-318 | no result, a success that agrees with its database, or a refusal |
| Retention.OrdinaryIsPlanned | v2/tools/rotate_content_state.py:279-342 | an ordinary store is not refused |
| Retention.DoubtRefuses | v2/tools/rotate_content_state.py:279-342 | a link, an unreadable pointer, a missing directory or an unproven result refuses the pass |
| Retention.NewestAreAhead | v2/tools/rotate_content_state.py:94-102 | the newest k are k of the files, each modified later than every file left out, or at the same time under a name not smaller |
| Retention.SafeAtEveryPrefix | v2/tools/rotate_content_state.py:279-342 | after any prefix of deletions the active database, references, newest k and young files are all there |
| Retention.RecentSurvives | v2/tools/rotate_content_state.py:94-102 | a file with fewer than k others ahead of it by time and name survives every prefix of the plan |
| Retention.NewestUnchanged | v2/tools/rotate_content_state.py:94-102 | deleting none of the newest k leaves the same newest k |
| Retention.StillPlannable | v2/tools/rotate_content_state.py:279-342 | a completed pass leaves a state the next one accepts |
| Retention.SecondPassIdle | v2/tools/rotate_content_state.py:259-342 | the second pass with the same cutoff plans no deletion |
| Retention.Store.Unlink | v2/tools/rotate_content_state.py:450-469 | only the very file that was planned is unlinked |
| Retention.Store.UnlinkNext | v2/tools/rotate_content_state.py:517-522 | each candidate is still there as planned when its turn comes |
| Retention.Store.UnlinkAll | v2/tools/rotate_content_state.py:517-522 | what is gone is the prefix of the plan reached when the process stopped |
| Retention.Store.Rotate | v2/tools/rotate_content_state.py:489-539 | a refused or unapplied plan deletes nothing; a completed pass verifies the active database |
| RetentionRemote.PlanRemote | v2/tools/rotate_content_state.py:345-428 | lists exactly the deletable releases and stale staging copies, or refuses |
| RetentionRemote.ReadRequests | v2/tools/rotate_content_state.py:345-428 | protected names are those of unresolved requests, completed ids those with a proven result |
| RetentionRemote.ReadStaging | v2/tools/rotate_content_state.py:409-418 | the old staging copies of completed requests, or a refusal when one is not the database it published |
| RetentionRemote.OrdinaryIsPlannedRemote | v2/tools/rotate_content_state.py:345-428 | an ordinary production store is not refused |
| RetentionRemote.DoubtRefusesRemote | v2/tools/rotate_content_state.py:345-428 | a reconciliation marker, a link or an unproven result refuses the pass |
| RetentionRemote.RemoteSafeAtEveryPrefix | v2/tools/rotate_content_state.py:345-428 | the same safety on the production side, including databases of unresolved publish and rollback requests |
| RetentionRemote.RemoteRecentSurvives | v2/tools/rotate_content_state.py:94-102 | a release with fewer than k others ahead of it by time and name survives every prefix |
| RetentionRemote.RemoteSecondPassIdle | v2/tools/rotate_content_state.py:345-428 | the production pass is a fixpoint too |
| RetentionRemote.RemoteStore.Unlink | v2/tools/rotate_content_state.py:450-469 | only the very file that was planned is unlinked |
| RetentionRemote.RemoteStore.UnlinkNext | v2/tools/rotate_content_state.py:517-522 | each production candidate is still there as planned when its turn comes |
| RetentionRemote.RemoteStore.UnlinkAll | v2/tools/rotate_content_state.py:517-522 | what is gone is the prefix of the plan reached when the process stopped |
| RetentionRemote.RemoteStore.Rotate | v2/tools/rotate_content_state.py:489-539 | a refused or unapplied plan deletes nothing; a completed pass verifies the active database |
| ReportPrinter.PrintCard | pipeline/scripts/agpm_radar_report.py:1789-1808 | one card; the links line goes in before its last blank |
| ReportPrinter.PrintDigestCard | pipeline/scripts/agpm_radar_report.py:1555-1572 | one card of the digest |
| ReportPrinter.PrintCards | pipeline/scripts/agpm_radar_report.py:1786-1808 | the cards of a list one after the other |
| ReportPrinter.PrintSection | pipeline/scripts/agpm_radar_report.py:1779-1808 | a section head, then its cards or the empty notice |
| ReportPrinter.RenderMarkdown | pipeline/scripts/agpm_radar_report.py:1725-1835 | the printed lines are those of the report's layout |
| ReportPrinter.SectionMembers | pipeline/scripts/agpm_radar_report.py:1691-1696 | a section shows every non-digest item of its perimeter exactly once |
| ReportPrinter.SectionRanked | pipeline/scripts/agpm_radar_report.py:1691-1696 | and in ranking order: more sources first, then the newer |
| ReportPrinter.DigestMembers | pipeline/scripts/agpm_radar_report.py:1382-1391 | the digest shows every digest item exactly once |
| ReportPrinter.DigestRanked | pipeline/scripts/agpm_radar_report.py:1382-1391 | newer first, on one day by descending title |
| ReportPrinter.RoundTrip | pipeline/scripts/agpm_radar_report.py:1725-1835 | parsing the print yields one material per non-digest item, in section and ranking order, with its perimeter, title, URL and texts |
| ReportParser.ReadBlock | pipeline/scripts/agpm_radar_docx_backfill.py:195-240 | a block ends at the next raw heading |
| ReportParser.ReadNext | pipeline/scripts/agpm_radar_docx_backfill.py:195-240 | one turn of the loop: what is added, and where and in which section reading goes on |
| ReportParser.ReadField | pipeline/scripts/agpm_radar_docx_backfill.py:243-268 | searching the label and collecting lines up to a stop label computes the field |
| ReportParser.ParseReportText | pipeline/scripts/agpm_radar_docx_backfill.py:195-240 | the index loop computes the parsing function |
| ReportLayout.FieldIs | pipeline/scripts/agpm_radar_docx_backfill.py:243-268 | a field is the stripped non-blank lines of its body up to the next label |
| ReportLayout.CardReads | pipeline/scripts/agpm_radar_docx_backfill.py:195-268 | the block of a card reads as its title, URL, summary and takeaway |
| ReportLayout.CardIsRead | pipeline/scripts/agpm_radar_docx_backfill.py:195-240 | inside a perimeter a card in front of a document reads as its meaning |
| ReportLayout.CardThenRest | pipeline/scripts/agpm_radar_docx_backfill.py:195-240 | a card in front of a document reads as its meaning, or is passed over outside the perimeters |
| ReportLayout.ParseFlat | pipeline/scripts/agpm_radar_docx_backfill.py:195-268 | any laid-out report parses to exactly the cards of its perimeter sections, in order |
| ApplyCards.LabelReappears | pipeline/scripts/agpm_radar_apply_llm_cards.py:92-96 | the search for the takeaway label after the first replacement never fails, and where it ends |
| ApplyCards.LabelsWithin | pipeline/scripts/agpm_radar_apply_llm_cards.py:78-91 | a label counts exactly if it is the first of its kind among the next eleven lines |
| ApplyCards.EndsIff | pipeline/scripts/agpm_radar_apply_llm_cards.py:101 | what ends the old takeaway |
| ApplyCards.CardEditor.ReplaceSection | pipeline/scripts/agpm_radar_apply_llm_cards.py:42-51 | the lines from the first non-blank one up to the stop label become blank, text, blank |
| ApplyCards.CardEditor.ReplaceSummary | pipeline/scripts/agpm_radar_apply_llm_cards.py:92-96 | the short text is in place and the label found again, inside the list |
| ApplyCards.CardEditor.ReplaceToHeading | pipeline/scripts/agpm_radar_apply_llm_cards.py:97-105 | the angle replaces the text up to the next heading or links line |
| ApplyCards.CardEditor.WriteNext | pipeline/scripts/agpm_radar_apply_llm_cards.py:69-111 | what the scan does at one position |
| ApplyCards.CardEditor.WriteCards | pipeline/scripts/agpm_radar_apply_llm_cards.py:66-111 | the moving index stays inside the changing list and yields the edit, written titles and fallback reasons |
| ApplyCards.SortedTitles | pipeline/scripts/agpm_radar_apply_llm_cards.py:114 | the fallback titles, each once, in ascending order |
| ApplyCards.ControlSays | pipeline/scripts/agpm_radar_apply_llm_cards.py:113-124 | three lines, and exactly if there are fallback cards three more and one for each |
| ApplyCards.FallbackSays | pipeline/scripts/agpm_radar_apply_llm_cards.py:107-122 | each fallback card with its recorded error, or the standing remark |
| ApplyCards.CardEditor.Apply | pipeline/scripts/agpm_radar_apply_llm_cards.py:54-125 | old control section dropped, cards written, new control section put in |
| CardRewrite.Windows | pipeline/scripts/agpm_radar_apply_llm_cards.py:78-91 | on a well-formed card the labels are found exactly if they lie within the search windows |
| CardRewrite.CardTurn | pipeline/scripts/agpm_radar_apply_llm_cards.py:69-111 | a card is written, noted as fallback or passed over, and where the scan goes on |
| CardRewrite.BeyondIs | pipeline/scripts/agpm_radar_apply_llm_cards.py:97-105 | the edit swallows exactly the blank lines before the next heading and keeps a links line |
| CardRewrite.AppliedDoc | pipeline/scripts/agpm_radar_apply_llm_cards.py:66-111 | the scan from any position of a printed report: new lines, written titles, fallback titles |
| CardPasses.AccountedIff | pipeline/scripts/agpm_radar_apply_llm_cards.py:74-111 | a card is counted as written or as fallback exactly when its labels are within reach |
| CardPasses.RewrittenGood | pipeline/scripts/agpm_radar_apply_llm_cards.py:92-105 | a written card is again well-formed |
| CardPasses.WrittenMeans | pipeline/scripts/agpm_radar_apply_llm_cards.py:92-105 | a written card reads as its short text and its angle, with a kept links line behind the angle |
| CardPasses.ApplySays | pipeline/scripts/agpm_radar_apply_llm_cards.py:54-125 | after the scan every card of a perimeter says what it should, in the old order |
| CardPasses.DropControl | pipeline/scripts/agpm_radar_apply_llm_cards.py:56-65 | dropping the old control section stays within the report's opening |
| CardPasses.InsertControl | pipeline/scripts/agpm_radar_apply_llm_cards.py:113-125 | the control section goes right behind the opening |
| CardPasses.PassIs | pipeline/scripts/agpm_radar_apply_llm_cards.py:54-125 | the lines one pass leaves are those of the edited report |
| CardPasses.PassSays | pipeline/scripts/agpm_radar_apply_llm_cards.py:54-125 | one pass and a re-reading: each successful card has its own texts |
| CardPasses.PassesKeepMaterials | pipeline/scripts/agpm_radar_apply_llm_cards.py:54-125 | any number of passes keeps the parsed perimeters, titles and links in order |
| CardPasses.CardsAfter | pipeline/scripts/agpm_radar_apply_llm_cards.py:66-111 | the scan adds, loses and moves no card |
| CardPasses.BlanksGrow | pipeline/scripts/agpm_radar_apply_llm_cards.py:42-51 | each writing leaves one more blank line below the label |
| CardPasses.EightWritings | pipeline/scripts/agpm_radar_apply_llm_cards.py:78-91 | a card as printed takes exactly eight writings; later ones are lost |
| CardPasses.CardAfterPasses | pipeline/scripts/agpm_radar_apply_llm_cards.py:54-125 | passes over the report write each of its cards one after the other |
| CardPasses.NinthPassIsLost | pipeline/scripts/agpm_radar_apply_llm_cards.py:54-125 | after eight passes a card shows the eighth text for good |
| CardPasses.PrintedReportSurvives | pipeline/scripts/agpm_radar_apply_llm_cards.py:54-125 | print, edit any number of times, read back: the promised materials |
| ContextFit.ShortenCarries | v2/tools/v2_period_analysis.py:172-187 | a shortened text carries a prefix of at most cap characters, with an ellipsis exactly when cut |
| ContextFit.CarriedGrows | v2/tools/v2_period_analysis.py:172-187 | what travels under a cap is a prefix of what travels under a larger one |
| ContextFit.NormalizedMeans | v2/tools/v2_period_analysis.py:178 | normalising keeps words and letters and puts one space between words, none around them |
| ContextFit.CutAt | v2/tools/v2_period_analysis.py:183-187 | a cut falls on the last space of the second half, or at the cap if there is none |
| ContextFit.PriorityIff | v2/tools/v2_period_analysis.py:211-217 | near before middle before far before the rest, then newer first, then by title |
| ContextFit.MaterialRows | v2/tools/v2_period_analysis.py:190-218 | all rows of all documents in priority order |
| ContextFit.OneOrder | v2/tools/v2_period_analysis.py:190-218 | the priority order does not depend on how the documents are arranged |
| ContextFit.TryCaps | v2/tools/v2_period_analysis.py:291-296 | the first pair of caps under which the window fits, else the last |
| ContextFit.CutDown | v2/tools/v2_period_analysis.py:297-305 | the shrinking loop ends with the first prefix that fits, else the shortest |
| ContextFit.Fewer | v2/tools/v2_period_analysis.py:297-299 | each cut keeps three quarters, rounded down |
| ContextFit.FitContext | v2/tools/v2_period_analysis.py:265-305 | the first of all contexts tried that fits, else the last |
| ContextFit.BestRung | v2/tools/v2_period_analysis.py:221-305 | if any pair of caps fits, nothing is dropped and every shown text opens with all that any other fitting pair carries |
| ContextFit.DropsTheTail | v2/tools/v2_period_analysis.py:221-305 | shown is a prefix, shown plus omitted is the total, and rows drop only when bare titles do not fit |
| ContextFit.TighterShowsLess | v2/tools/v2_period_analysis.py:285-305 | a longer repair text never shows more materials or longer texts |
| ContextFit.DroppedComeLast | v2/tools/v2_period_analysis.py:211-217 | nothing dropped has priority over anything shown |
| Registry.MaterialRegistry.Update | pipeline/scripts/agpm_radar_collect.py:933-1015 | the loop over candidates computes the run of the step function |
| Registry.EveryCandidateCounted | pipeline/scripts/agpm_radar_collect.py:933-1015 | growth of all hits plus growth of the notes is the number of candidates |
| Registry.RegistryGrows | pipeline/scripts/agpm_radar_collect.py:971-1006 | new ids are distinct, absent before and complete; hits, first dates and known publication dates stay |
| Registry.MergedMeans | pipeline/scripts/agpm_radar_collect.py:982-1013 | what a further hit does to dates, counts, publication date and texts of a known item |
| Registry.FreshExactIff | pipeline/scripts/agpm_radar_collect.py:973-988 | a fresh item's source count is exact if and only if its hit names a source |
| Registry.CountsExact | pipeline/scripts/agpm_radar_collect.py:1000-1004 | after a run counts are exact except for new items with a single sourceless hit |
| Registry.UpdatesAreNewSources | pipeline/scripts/agpm_radar_collect.py:1001-1015 | a known id is reported once for every source it gained, a new one never |
| Registry.FirstSourceUnreported | pipeline/scripts/agpm_radar_collect.py:986 | an item that entered without a source stays unreported when it gains its first |
| EventCache.EventModel.Ask | v2/tools/event_pipeline.py:152-182 | cache file, budget, call, validation and write, as the request function |
| EventCache.EventModel.Extract | v2/tools/event_pipeline.py:184-195 | on a sound directory the second validation never changes the answer |
| EventCache.ExtractionContext | v2/tools/event_pipeline.py:184-192 | the source text is the excerpt, else the summary, cut to 20000 characters |
| EventCache.AnsweredIff | v2/tools/event_pipeline.py:152-182 | exactly when a request is answered |
| EventCache.RestartServes | v2/tools/event_pipeline.py:145-182 | a restart renews the budget for every request without a file |
| EventCache.AnswersAreDirect | v2/tools/event_pipeline.py:152-182 | each request keeps the directory sound and answers as the model would |
| EventCache.Transparent | v2/tools/event_pipeline.py:145-182 | over any requests, failures, deaths and restarts an answer equals the model's own and the budget holds |
| EventCache.PaidOnce | v2/tools/event_pipeline.py:158-165 | a stored answer is free and the same for ever after |
| EventCache.AnswerOutlives | v2/tools/event_pipeline.py:158-182 | a request answered in a run of requests is answered in the rest of it |
| EventCache.TornStaysClosed | v2/tools/event_pipeline.py:158-182 | an interrupted write closes its request for good, without further calls |
| EventCache.EveryFileIsPaid | v2/tools/event_pipeline.py:163-182 | every file and refusal left behind was paid for by its own call |
| Ladder.ReasonNamesOwner | kx/src/radar_kx/acquisition.py:72-87 | a reason determines whose move it is |
| Ladder.EndsWhatever | kx/src/radar_kx/acquisition.py:72-105 | exactly which errors end the ladder, whatever was tried, and for which reason |
| Ladder.FirstMoves | kx/src/radar_kx/acquisition.py:107-126 | which automatic rung a refusal leads to first |
| Ladder.ManualMoves | kx/src/radar_kx/acquisition.py:107-126 | which errors point at manual rungs, and that those stop there |
| Ladder.PointersAre | kx/src/radar_kx/acquisition.py:107-126 | no other error points anywhere |
| Ladder.TriedOnce | kx/src/radar_kx/database.py:2833-2835 | the rung a document stands on is counted as tried once |
| Ladder.StepIsAllowed | kx/src/radar_kx/acquisition.py:196-274 | a document moves only to a new automatic rung the profile allows, robots override only if recorded |
| Ladder.ContinuesIff | kx/src/radar_kx/acquisition.py:203-274 | exactly when a document goes on |
| Ladder.ManualRungStopsEarly | kx/src/radar_kx/acquisition.py:264-272 | a manual rung listed before an automatic one stops the document in front of it |
| Ladder.BlockedIsOneGrantAway | kx/src/radar_kx/acquisition.py:218-252 | blocked_by_host holds exactly when granting the hinted rung moves the document to it |
| Ladder.MoreRungsKeepGoing | kx/src/radar_kx/acquisition.py:264-274 | appending rungs never stops or redirects a document |
| Ladder.OverrideKeepsGoing | kx/src/radar_kx/acquisition.py:148-151 | recording an override never stops a document |
| Ladder.LadderEnds | kx/src/radar_kx/database.py:2833-2865 | under any errors and profile changes at most three rungs, none twice, and an owner by the third pass |
| Ladder.PlanTwiceIff | kx/src/radar_kx/database.py:2804-2865 | planning twice without a fetch changes nothing exactly when the document has its reason, or may not go on with the current rung counted as tried |
| Ladder.OverrideNeverTried | kx/src/radar_kx/database.py:2833-2865 | a granted override is written off by the very next planning pass |
| StateMachineCheck.Graph | tools/contracts/validate_contracts.py:295-299 | successor sets of all states, or an edge outside them |
| StateMachineCheck.Search | tools/contracts/validate_contracts.py:300-306 | breadth-first search finds exactly the reachable states |
| StateMachineCheck.TerminalLeft | tools/contracts/validate_contracts.py:309-311 | an edge leaves a terminal state |
| StateMachineCheck.DuplicateSymbol | tools/contracts/validate_contracts.py:312-314 | comparing sizes detects exactly a symbol used twice |
| StateMachineCheck.CompareTables | tools/contracts/validate_contracts.py:315-319 | each error's exit code leads back to it; else an error whose code is missing or leads elsewhere |
| StateMachineCheck.Validate | tools/contracts/validate_contracts.py:286-319 | passes exactly the well-formed machines and tables, and otherwise the verdict is the first check that fails |
| StateMachineCheck.RunsStayInside | tools/contracts/validate_contracts.py:295-311 | runs of an accepted machine stay in its states and stop at terminal ones |
| StateMachineCheck.ExitCodesIdentifyErrors | tools/contracts/validate_contracts.py:312-319 | distinct errors have distinct exit codes |
| JsonPointer.TwoPassesAreOne | tools/contracts/validate_contracts.py:259 | replacing ~1 before ~0 equals reading every string's escapes once |
| JsonPointer.UnescapeEscape | tools/contracts/validate_contracts.py:259 | decoding undoes encoding of any token |
| JsonPointer.OtherOrderLoses | tools/contracts/validate_contracts.py:259 | the other order of replacement loses a token |
| JsonPointer.EscapeUnescapeIff | tools/contracts/validate_contracts.py:259 | encoding gives a reference part back exactly when it was well escaped |
| JsonPointer.PointerRoundTrip | tools/contracts/validate_contracts.py:258-259 | splitting and decoding a pointer gives its non-empty token list back |
| JsonPointer.ResolvePointer | tools/contracts/validate_contracts.py:254-260 | the loop follows the decoded tokens, or reports a non-local or missing reference |
| JsonPointer.PointerFollowsPath | tools/contracts/validate_contracts.py:254-260 | following the pointer written for a path follows that path in every document |
| Comparison.Partition | v2/tools/build_stage14_daily.py:341-361 | the loop splits the materials into eligible and excluded, keeping order |
| Comparison.PartitionConserves | v2/tools/build_stage14_daily.py:341-361 | every material is on exactly one side |
| Comparison.EligibleIff | v2/tools/build_stage14_daily.py:341-361 | settled dates count on the issue's day and the thirty before, unsettled ones only if absent |
| Comparison.NoFalseAlarm | v2/tools/run_stage15_dual.py:246-286 | with distinct URLs the verdict is matched or explained |
| Comparison.QuietMeans | v2/tools/run_stage15_dual.py:246-286 | matched means equal URL sets; explained means a proper subset with the counts adding up |
| Comparison.QuietIsTruthfulIff | v2/tools/run_stage15_dual.py:246-286 | a quiet verdict is the truth if and only if no excluded material is shown |
| Comparison.SwapGoesUnnoticed | v2/tools/run_stage15_dual.py:276-281 | on every issue, publishing an excluded material in place of an eligible one is explained all the same |
| Comparison.UsableIff | v2/tools/run_stage15_dual.py:105-119 | a response can be used exactly if all its URLs are absolute and none repeats |
| Comparison.ValidUrlIff | v2/tools/run_stage15_dual.py:105-119 | a URL is usable exactly if it starts with one of the two schemes |
| Comparison.ReadUrls | v2/tools/run_stage15_dual.py:105-119 | the loop refuses a response with an unusable or a repeated URL, else sorts its URLs |
| Comparison.RefusedOrQuiet | v2/tools/run_stage15_dual.py:505-515 | with the eligible materials shown, refused if and only if a URL is unusable or repeats; otherwise never an alarm |

## Left out

- Observation.Analyze: which texts keep the format's limits and how many bytes a report takes are parameters.
- Observation.Observe: the launch of the observation process and the sending of its report are not part of this model.
- ReportPrinter.RoundTrip: the text clean-up of parsed fields is a parameter; card texts, URLs and section texts are assumed not to read as headings or labels, as printed reports satisfy.
- ReportParser.ParseReportText: publication dates, source names and material ids of parsed materials are not modelled.
- ApplyCards.CardEditor.Apply: the trimming of trailing blank lines of the whole file and the splitting of texts that contain line breaks are not modelled; the three counts are printed by a parameter.
- CardPasses.PassesKeepMaterials: texts that read as headings or field labels are excluded, because the parser would take them for structure.
- CorrectionWorker.OneRequestEver: two reviews whose ids share their first sixteen hexadecimal digits, hence their candidate ids, are not modelled.
- CorrectionHistory.EveryRemovedCardIsRepresented: the local and the published archive are one state, as the base fence makes a correction take effect on the issue it was validated against.
- Corrections.DesiredIssue: the rewritten brief and analysis texts of a corrected issue are not modelled.
- DailyReplay.RunDirectory.PublicationForAttempt: which of several retained inputs is read (the code takes the first in ascending order) is a parameter; all of them are proved equal.
- DailyReplay.ReplayFinishesIff: the V2 response is taken to arrive and to be usable; its URLs are those of eligible Legacy materials.
- Publisher.Completes: production is taken to accept a request whose base fence holds; a failing transport is a crash, and refusals by the remote side are not modelled.
- Registry.MaterialRegistry.Update: raw excerpts and the repair of texts on a title change are one opaque value; title recovery is an outcome per candidate.
- EventCache.EventModel.Ask: strict JSON parsing and the two validators are abstract; the clock is an outcome per request.
- Ladder.LadderEnds: what a fetch attempt does on a rung is not modelled, only the error it leaves.
- JsonPointer.ResolvePointer: percent-encoded fragments (section 6 of RFC 6901) and list indices are not supported by the code either.
- The attempt loop of `generate_period` around the fitted prompt: at most six calls, one after the other.
- Relevance filtering, perimeter detection, similarity scores and Russian-prose checks: keyword lists and numeric scores, taken as given.
- `deduplicate`, `publication_gate`, `validate_passport` and the release builders: abstract outcomes only.
- HTTP, SSH, SQLite, subprocesses, file locks, DOCX and HTML output, argument parsing.
- Writes torn inside one file, except in the event cache, and two concurrent runs for one date.
- Legacy server, site export, browser application and knowledge-graph reports.
