/** Retention, production. */
module RetentionRemote {
  // The production side of retention: release databases and the staging copies of completed requests.

  import opened Wrappers
  import opened Ordering
  import opened Retention

  /** Release id and state hash. */
  datatype Identity = Identity(release: string, state: string)

  datatype RemoteResult = NoResult | Proven(identity: Identity) | Unproven

  /** `target` is the database name derived from the release id in the delta; None when that is invalid. */
  datatype Action =
    | Publish(base: Option<PointerFile>, target: Option<string>)
    | Rollback(database: Option<string>)
    | Status
    | Unknown

  datatype Request = Request(id: string, result: RemoteResult, action: Action)

  datatype Staging = Staging(file: File, request: string, identity: Option<Identity>)

  datatype Remote = Remote(
    reconciliationMarker: bool, releases: seq<File>, staging: seq<Staging>,
    active: PointerFile, identityHolds: bool, directoriesExist: bool, requests: seq<Request>)

  predicate RequestOk(q: Request) {
    match q.result
    case Proven(_) => true
    case Unproven => false
    case NoResult =>
      match q.action
      case Publish(base, target) => (base.Some? ==> base.value.Some?) && target.Some?
      case Rollback(database) => database.Some?
      case Status => true
      case Unknown => false
  }

  /** Every staging file is regular, and an old one of a completed request is the database it published. */
  predicate StagingOk(w: Remote, cutoff: nat, x: Staging) {
    && x.file.meta.regular
    && (x.file.meta.mtime < cutoff ==>
          forall q | q in w.requests && q.id == x.request && q.result.Proven? :: x.identity == Some(q.result.identity))
  }

  predicate Plannable(w: Remote, cutoff: nat) {
    && !w.reconciliationMarker
    && ActiveVerifies(w.releases, w.active, w.identityHolds) && AllRegular(w.releases)
    && w.directoriesExist
    && (forall q | q in w.requests :: RequestOk(q))
    && (forall x | x in w.staging :: StagingOk(w, cutoff, x))
  }

  /** An ordinary production store is not refused; a reconciliation marker, a link or an unproven result is. */
  lemma OrdinaryIsPlannedRemote(w: Remote, cutoff: nat)
    requires !w.reconciliationMarker && w.directoriesExist && w.identityHolds
    requires forall f | f in w.releases :: f.meta.regular
    requires exists f | f in w.releases :: w.active == Some(f.name)
    requires forall q | q in w.requests :: q.result.NoResult? && (q.action == Status || q.action.Publish?)
    requires forall q | q in w.requests && q.action.Publish? :: q.action.target.Some? && q.action.base != Some(None)
    requires forall x | x in w.staging :: x.file.meta.regular
    ensures Plannable(w, cutoff)
  {
  }

  lemma DoubtRefusesRemote(w: Remote, cutoff: nat)
    requires || w.reconciliationMarker || !w.directoriesExist || !w.identityHolds || w.active == None
      || (exists f | f in w.releases :: !f.meta.regular) || (exists x | x in w.staging :: !x.file.meta.regular)
      || (exists q | q in w.requests :: q.result.Unproven?)
    ensures !Plannable(w, cutoff)
  {
    if q :| q in w.requests && q.result.Unproven? {
      assert !RequestOk(q);
    }
  }

  predicate References(q: Request, name: string) {
    && q.result.NoResult?
    && match q.action
       case Publish(base, target) => base == Some(Some(name)) || target == Some(name)
       case Rollback(database) => database == Some(name)
       case Status => false
       case Unknown => false
  }

  predicate Referenced(w: Remote, name: string) {
    w.active == Some(name) || exists q | q in w.requests :: References(q, name)
  }

  predicate ReleaseDeletable(w: Remote, k: nat, cutoff: nat, f: File) {
    && f in w.releases && f.meta.mtime < cutoff && !Referenced(w, f.name)
    && forall g | g in Newest(w.releases, k) :: g.name != f.name
  }

  predicate Completed(w: Remote, id: string) {
    exists q | q in w.requests :: q.id == id && q.result.Proven?
  }

  predicate StagingDeletable(w: Remote, cutoff: nat, x: Staging) {
    x in w.staging && x.file.meta.mtime < cutoff && Completed(w, x.request)
  }

  predicate FileDeletable(w: Remote, k: nat, cutoff: nat, f: File) {
    || ReleaseDeletable(w, k, cutoff, f)
    || exists x | x in w.staging :: StagingDeletable(w, cutoff, x) && x.file == f
  }

  ghost predicate IsRemotePlan(w: Remote, k: nat, cutoff: nat, plan: Plan) {
    && (plan.Plan? <==> Plannable(w, cutoff))
    && (plan.Plan? ==>
          && Sorted(plan.candidates, PathBefore)
          && forall f :: f in plan.candidates <==> FileDeletable(w, k, cutoff, f))
  }

  ghost predicate DistinctRequests(w: Remote) {
    forall i, j | 0 <= i < j < |w.requests| :: w.requests[i].id != w.requests[j].id
  }

  method PlanRemote(w: Remote, k: nat, cutoff: nat) returns (plan: Plan)
    requires DistinctRequests(w)
    ensures IsRemotePlan(w, k, cutoff, plan)
    ensures plan.Plan? && PathsIdentifyRemote(w) && ListedOnce(w) ==> Distinct(plan.candidates)
  {
    var active := VerifyActive(w.releases, w.active, w.identityHolds);
    if w.reconciliationMarker || !active || !AllRegular(w.releases) || !w.directoriesExist {
      return Refused;
    }
    var ok, protected, completed := ReadRequests(w, {w.active.value} + Names(Newest(w.releases, k)));
    if !ok {
      return Refused;
    }
    var files := Filter(Sort(w.releases, NewerFirst), Unprotected(protected, cutoff));
    var known, stale := ReadStaging(w, cutoff, completed);
    if !known {
      return Refused;
    }
    plan := Plan(Sort(files + stale, PathBefore));
    RemoteLists(w, k, cutoff, protected, stale);
    if PathsIdentifyRemote(w) && ListedOnce(w) {
      RemoteDistinct(w, cutoff, protected, files, stale);
    }
  }

  /** The staging loop: old copies of completed requests, each of them the database it published. */
  method ReadStaging(w: Remote, cutoff: nat, completed: map<string, Identity>)
    returns (ok: bool, stale: seq<File>)
    requires forall id :: id in completed <==> Completed(w, id)
    requires forall q | q in w.requests && q.result.Proven? ::
      q.id in completed && completed[q.id] == q.result.identity
    ensures ok <==> forall x | x in w.staging :: StagingOk(w, cutoff, x)
    ensures ok ==> forall f :: f in stale <==>
      exists x | x in w.staging :: x.file.meta.mtime < cutoff && Completed(w, x.request) && x.file == f
    ensures ok && PathsIdentifyRemote(w) && ListedOnce(w) ==> Distinct(stale)
  {
    ok, stale := true, [];
    for i := 0 to |w.staging|
      invariant forall j | 0 <= j < i :: StagingOk(w, cutoff, w.staging[j])
      invariant stale == StaleFiles(w.staging[..i], cutoff, completed.Keys)
    {
      var x := w.staging[i];
      assert w.staging[..i + 1][..i] == w.staging[..i];
      assert x in w.staging;
      StagingOkIff(w, cutoff, completed, x);
      if !x.file.meta.regular {
        ok := false;
        return;
      }
      if x.file.meta.mtime < cutoff && x.request in completed {
        if x.identity != Some(completed[x.request]) {
          ok := false;
          return;
        }
        stale := stale + [x.file];
      }
    }
    assert w.staging[..|w.staging|] == w.staging;
    StaleMembers(w.staging, cutoff, completed.Keys);
    if PathsIdentifyRemote(w) && ListedOnce(w) {
      StaleDistinct(w.staging, cutoff, completed.Keys);
    }
  }

  lemma StagingOkIff(w: Remote, cutoff: nat, completed: map<string, Identity>, x: Staging)
    requires forall id :: id in completed <==> Completed(w, id)
    requires forall q | q in w.requests && q.result.Proven? ::
      q.id in completed && completed[q.id] == q.result.identity
    ensures StagingOk(w, cutoff, x) <==>
      (x.file.meta.regular
       && (x.file.meta.mtime < cutoff && x.request in completed ==> x.identity == Some(completed[x.request])))
  {
  }

  function StaleFiles(staging: seq<Staging>, cutoff: nat, completed: set<string>): seq<File> {
    if staging == [] then []
    else
      var init, x := staging[..|staging| - 1], staging[|staging| - 1];
      StaleFiles(init, cutoff, completed)
      + if x.file.meta.mtime < cutoff && x.request in completed then [x.file] else []
  }

  lemma {:induction false} StaleMembers(staging: seq<Staging>, cutoff: nat, completed: set<string>)
    ensures forall f :: f in StaleFiles(staging, cutoff, completed) <==>
      exists x | x in staging :: x.file.meta.mtime < cutoff && x.request in completed && x.file == f
  {
    if staging != [] {
      var init, x := staging[..|staging| - 1], staging[|staging| - 1];
      assert staging == init + [x];
      StaleMembers(init, cutoff, completed);
    }
  }

  lemma {:induction false} StaleDistinct(staging: seq<Staging>, cutoff: nat, completed: set<string>)
    requires Distinct(staging)
    requires forall x, y | x in staging && y in staging && x.file.path == y.file.path :: x == y
    ensures Distinct(StaleFiles(staging, cutoff, completed))
  {
    if staging != [] {
      var n := |staging| - 1;
      var init, x := staging[..n], staging[n];
      assert staging == init + [x];
      assert forall y | y in init :: y in staging && y != x;
      StaleDistinct(init, cutoff, completed);
      StaleMembers(init, cutoff, completed);
      DistinctConcat(StaleFiles(init, cutoff, completed), [x.file]);
    }
  }

  lemma RemoteDistinct(w: Remote, cutoff: nat, protected: set<string>, files: seq<File>, stale: seq<File>)
    requires PathsIdentifyRemote(w) && ListedOnce(w) && Distinct(stale)
    requires files == Filter(Sort(w.releases, NewerFirst), Unprotected(protected, cutoff))
    requires forall f | f in stale :: exists x | x in w.staging :: x.file == f
    ensures Distinct(Sort(files + stale, PathBefore))
  {
    SortDistinct(w.releases, NewerFirst);
    FilterDistinct(Sort(w.releases, NewerFirst), Unprotected(protected, cutoff));
    OldUnprotected(w.releases, protected, cutoff);
    DistinctConcat(files, stale);
    SortDistinct(files + stale, PathBefore);
  }

  /** The request loop: protected names grow with unresolved requests, `completed` with proven ones. */
  method ReadRequests(w: Remote, initial: set<string>)
    returns (ok: bool, protected: set<string>, completed: map<string, Identity>)
    requires DistinctRequests(w)
    ensures ok <==> forall q | q in w.requests :: RequestOk(q)
    ensures ok ==> forall n :: n in protected <==> n in initial || exists q | q in w.requests :: References(q, n)
    ensures ok ==> forall id :: id in completed <==> Completed(w, id)
    ensures ok ==> forall q | q in w.requests && q.result.Proven? ::
      q.id in completed && completed[q.id] == q.result.identity
  {
    ok, protected, completed := true, initial, map[];
    for i := 0 to |w.requests|
      invariant forall j | 0 <= j < i :: RequestOk(w.requests[j])
      invariant forall n :: n in protected <==> n in initial || exists q | q in w.requests[..i] :: References(q, n)
      invariant forall id :: id in completed <==> exists q | q in w.requests[..i] :: q.id == id && q.result.Proven?
      invariant forall j | 0 <= j < i && w.requests[j].result.Proven? ::
        w.requests[j].id in completed && completed[w.requests[j].id] == w.requests[j].result.identity
    {
      var q := w.requests[i];
      assert w.requests[..i + 1] == w.requests[..i] + [q];
      assert q in w.requests;
      ghost var before := protected;
      match q.result {
        case Proven(identity) => completed := completed[q.id := identity];
        case Unproven => ok := false;
        case NoResult =>
          match q.action {
            case Publish(base, target) =>
              if base.Some? && base.value.Some? {
                protected := protected + {base.value.value};
              }
              if target.Some? {
                protected := protected + {target.value};
              }
              ok := target.Some? && (base.Some? ==> base.value.Some?);
            case Rollback(database) =>
              if database.Some? {
                protected := protected + {database.value};
              }
              ok := database.Some?;
            case Status =>
            case Unknown => ok := false;
          }
      }
      if !ok {
        return;
      }
      assert forall n :: n in protected <==> n in before || References(q, n);
      assert forall n :: (exists r | r in w.requests[..i + 1] :: References(r, n)) <==>
        References(q, n) || exists r | r in w.requests[..i] :: References(r, n);
    }
    assert w.requests[..|w.requests|] == w.requests;
  }

  lemma RemoteLists(w: Remote, k: nat, cutoff: nat, protected: set<string>, stale: seq<File>)
    requires Plannable(w, cutoff)
    requires forall n :: n in protected <==> Referenced(w, n) || n in Names(Newest(w.releases, k))
    requires forall f :: f in stale <==>
      exists x | x in w.staging :: x.file.meta.mtime < cutoff && Completed(w, x.request) && x.file == f
    ensures var files := Filter(Sort(w.releases, NewerFirst), Unprotected(protected, cutoff));
      IsRemotePlan(w, k, cutoff, Plan(Sort(files + stale, PathBefore)))
  {
    var files := Filter(Sort(w.releases, NewerFirst), Unprotected(protected, cutoff));
    PathBeforeTotal();
    SortSorts(files + stale, PathBefore);
    SortPermutes(files + stale, PathBefore);
    OldUnprotected(w.releases, protected, cutoff);
    forall f ensures f in files <==> ReleaseDeletable(w, k, cutoff, f) {
      assert f.name in Names(Newest(w.releases, k)) <==> exists g | g in Newest(w.releases, k) :: g.name == f.name;
    }
  }

  // -------------------------------------------------------------- safety, fixpoint

  function KeptStaging(gone: set<string>): Staging -> bool {
    (x: Staging) => x.file.path !in gone
  }

  function WithoutRemote(w: Remote, gone: set<string>): Remote {
    w.(releases := Filter(w.releases, Kept(gone)), staging := Filter(w.staging, KeptStaging(gone)))
  }

  ghost predicate PathsIdentifyRemote(w: Remote) {
    && (forall f, g | f in w.releases && g in w.releases && f.path == g.path :: f == g)
    && (forall x, y | x in w.staging && y in w.staging && x.file.path == y.file.path :: x == y)
    && (forall f, x | f in w.releases && x in w.staging :: f.path != x.file.path)
  }

  /** The two listings name each file once. */
  ghost predicate ListedOnce(w: Remote) {
    Distinct(w.releases) && Distinct(w.staging)
  }

  lemma RemoteSurvives(w: Remote, k: nat, cutoff: nat, plan: Plan, n: nat)
    requires IsRemotePlan(w, k, cutoff, plan) && plan.Plan? && n <= |plan.candidates| && PathsIdentifyRemote(w)
    ensures var after := WithoutRemote(w, Paths(plan.candidates[..n]));
      && (forall f | f in w.releases && !ReleaseDeletable(w, k, cutoff, f) :: f in after.releases)
      && (forall x | x in w.staging && !StagingDeletable(w, cutoff, x) :: x in after.staging)
  {
    var gone := Paths(plan.candidates[..n]);
    FilterMembers(w.releases, Kept(gone));
    FilterMembers(w.staging, KeptStaging(gone));
    forall g | g in plan.candidates[..n] ensures FileDeletable(w, k, cutoff, g) {
      assert g in plan.candidates;
    }
  }

  /** At every point of the deletion loop the active database verifies, and the databases an unresolved
      publish or rollback request names, the newest k, everything young and the staging copies of
      requests without a proven result are all still there. */
  lemma RemoteSafeAtEveryPrefix(w: Remote, k: nat, cutoff: nat, plan: Plan, n: nat)
    requires IsRemotePlan(w, k, cutoff, plan) && plan.Plan? && n <= |plan.candidates| && PathsIdentifyRemote(w)
    ensures var after := WithoutRemote(w, Paths(plan.candidates[..n]));
      && ActiveVerifies(after.releases, w.active, w.identityHolds)
      && (forall f, q | f in w.releases && q in w.requests && References(q, f.name) :: f in after.releases)
      && (forall f | f in Newest(w.releases, k) :: f in after.releases)
      && (forall f | f in w.releases && f.meta.mtime >= cutoff :: f in after.releases)
      && (forall x | x in w.staging && (!Completed(w, x.request) || x.file.meta.mtime >= cutoff) :: x in after.staging)
  {
    RemoteSurvives(w, k, cutoff, plan, n);
    NewestMembers(w.releases, k);
  }

  /** In terms of times and names alone, as on the source side. */
  lemma RemoteRecentSurvives(w: Remote, k: nat, cutoff: nat, plan: Plan, n: nat, f: File)
    requires IsRemotePlan(w, k, cutoff, plan) && plan.Plan? && n <= |plan.candidates| && PathsIdentifyRemote(w)
    requires Distinct(w.releases) && f in w.releases && |OthersAhead(w.releases, f)| < k
    ensures f in WithoutRemote(w, Paths(plan.candidates[..n])).releases
  {
    RemoteSafeAtEveryPrefix(w, k, cutoff, plan, n);
    FewAheadIsNewest(w.releases, k, f);
  }

  lemma RemoteStillPlannable(w: Remote, k: nat, cutoff: nat, plan: Plan)
    requires IsRemotePlan(w, k, cutoff, plan) && plan.Plan? && PathsIdentifyRemote(w)
    ensures Plannable(WithoutRemote(w, Paths(plan.candidates)), cutoff)
  {
    var gone := Paths(plan.candidates);
    FilterMembers(w.releases, Kept(gone));
    FilterMembers(w.staging, KeptStaging(gone));
    assert plan.candidates[..|plan.candidates|] == plan.candidates;
    RemoteSafeAtEveryPrefix(w, k, cutoff, plan, |plan.candidates|);
    var after := WithoutRemote(w, gone);
    forall x | x in after.staging ensures StagingOk(after, cutoff, x) {
      assert StagingOk(w, cutoff, x);
    }
  }

  lemma RemoteNewestNotGone(w: Remote, k: nat, cutoff: nat, plan: Plan)
    requires IsRemotePlan(w, k, cutoff, plan) && plan.Plan? && PathsIdentifyRemote(w)
    ensures forall f | f in Newest(w.releases, k) :: f.path !in Paths(plan.candidates)
  {
    NewestMembers(w.releases, k);
    forall f, g | f in Newest(w.releases, k) && g in plan.candidates ensures g.path != f.path {
      assert FileDeletable(w, k, cutoff, g);
    }
  }

  lemma RemoteSecondPassIdle(w: Remote, k: nat, cutoff: nat, plan: Plan, next: Plan)
    requires IsRemotePlan(w, k, cutoff, plan) && plan.Plan? && PathsIdentifyRemote(w)
    requires IsRemotePlan(WithoutRemote(w, Paths(plan.candidates)), k, cutoff, next)
    ensures next == Plan([])
  {
    var gone := Paths(plan.candidates);
    var after := WithoutRemote(w, gone);
    RemoteStillPlannable(w, k, cutoff, plan);
    RemoteNewestNotGone(w, k, cutoff, plan);
    NewestUnchanged(w.releases, k, gone);
    FilterMembers(w.releases, Kept(gone));
    FilterMembers(w.staging, KeptStaging(gone));
    assert forall f | f in plan.candidates :: f.path in gone;
    forall f
      ensures ReleaseDeletable(after, k, cutoff, f) ==> FileDeletable(w, k, cutoff, f) && f.path !in gone
    {
    }
    forall x
      ensures StagingDeletable(after, cutoff, x) ==> FileDeletable(w, k, cutoff, x.file) && x.file.path !in gone
    {
    }
    NoMembers(next.candidates);
  }

  // ------------------------------------------------------------------- the pass

  function FilesOf(staging: seq<Staging>): set<File> {
    set x | x in staging :: x.file
  }

  /** Production's files, under the mutation lock. */
  class RemoteStore {
    var world: Remote

    constructor (w: Remote)
      ensures world == w
    {
      world := w;
    }

    /** Re-reads the metadata and unlinks only the very file that was planned. */
    method Unlink(c: File) returns (done: bool)
      modifies this
      ensures done == (c in old(world).releases || c in FilesOf(old(world).staging))
      ensures world == if done then WithoutRemote(old(world), {c.path}) else old(world)
    {
      done := c in world.releases || c in FilesOf(world.staging);
      if done {
        world := WithoutRemote(world, {c.path});
      }
    }

    /** One pass that may die after any number of deletions: what is gone is a prefix of the plan, a
        refused plan deletes nothing, and no unlink nor the final verification can fail. */
    method Rotate(k: nat, cutoff: nat, apply: bool, stopAfter: nat) returns (plan: Plan, deleted: nat, ok: bool)
      requires PathsIdentifyRemote(world) && ListedOnce(world) && DistinctRequests(world)
      modifies this
      ensures IsRemotePlan(old(world), k, cutoff, plan)
      ensures !apply || plan.Refused? ==> world == old(world) && deleted == 0
      ensures plan.Plan? ==> deleted <= |plan.candidates|
      ensures plan.Plan? ==> world == WithoutRemote(old(world), Paths(plan.candidates[..deleted]))
      ensures apply && plan.Plan? && stopAfter > |plan.candidates| ==> deleted == |plan.candidates| && ok
    {
      plan := PlanRemote(world, k, cutoff);
      deleted, ok := 0, false;
      NothingGoneRemote(world);
      if plan.Plan? {
        assert Paths(plan.candidates[..0]) == {};
      }
      if plan.Plan? && apply {
        deleted := UnlinkAll(plan.candidates, stopAfter, k, cutoff);
        if deleted < stopAfter {
          RemoteSafeAtEveryPrefix(old(world), k, cutoff, plan, deleted);
          ok := ActiveVerifies(world.releases, world.active, world.identityHolds);
        }
      }
    }

    /** One candidate: it is still there as planned, so its re-check succeeds. */
    method UnlinkNext(candidates: seq<File>, n: nat, ghost start: Remote, ghost k: nat, ghost cutoff: nat)
      requires PathsIdentifyRemote(start) && IsRemotePlan(start, k, cutoff, Plan(candidates)) && Distinct(candidates)
      requires n < |candidates| && world == WithoutRemote(start, Paths(candidates[..n]))
      modifies this
      ensures world == WithoutRemote(start, Paths(candidates[..n + 1]))
    {
      ghost var next := n + 1;
      NextStillThereRemote(start, k, cutoff, candidates, n);
      OneMoreGoneRemote(start, candidates, n, next);
      var done := Unlink(candidates[n]);
      assert done;
    }

    /** The deletion loop; `stopAfter` is where the process dies, if it does. */
    method UnlinkAll(candidates: seq<File>, stopAfter: nat, ghost k: nat, ghost cutoff: nat) returns (deleted: nat)
      requires PathsIdentifyRemote(world) && IsRemotePlan(world, k, cutoff, Plan(candidates)) && Distinct(candidates)
      modifies this
      ensures deleted == if stopAfter < |candidates| then stopAfter else |candidates|
      ensures world == WithoutRemote(old(world), Paths(candidates[..deleted]))
    {
      deleted := 0;
      NothingGoneRemote(world);
      assert Paths(candidates[..0]) == {};
      while deleted < |candidates| && deleted < stopAfter
        invariant deleted <= |candidates| && deleted <= stopAfter
        invariant world == WithoutRemote(old(world), Paths(candidates[..deleted]))
      {
        UnlinkNext(candidates, deleted, old(world), k, cutoff);
        deleted := deleted + 1;
      }
    }
  }

  lemma NothingGoneRemote(w: Remote)
    ensures WithoutRemote(w, {}) == w
  {
    FilterAll(w.releases, Kept({}));
    FilterAll(w.staging, KeptStaging({}));
  }

  lemma OneMoreGoneRemote(w: Remote, cs: seq<File>, n: nat, next: nat)
    requires n < |cs| && next == n + 1
    ensures WithoutRemote(WithoutRemote(w, Paths(cs[..n])), {cs[n].path}) == WithoutRemote(w, Paths(cs[..next]))
  {
    OneMorePath(cs, n, next);
    var before, path, after := Paths(cs[..n]), cs[n].path, Paths(cs[..next]);
    FilterTwice(w.releases, Kept(before), Kept({path}), Kept(after));
    FilterTwice(w.staging, KeptStaging(before), KeptStaging({path}), KeptStaging(after));
  }

  lemma NextStillThereRemote(w: Remote, k: nat, cutoff: nat, cs: seq<File>, n: nat)
    requires PathsIdentifyRemote(w) && IsRemotePlan(w, k, cutoff, Plan(cs)) && Distinct(cs) && n < |cs|
    ensures var after := WithoutRemote(w, Paths(cs[..n]));
      cs[n] in after.releases || cs[n] in FilesOf(after.staging)
  {
    var c := cs[n];
    var gone := Paths(cs[..n]);
    FilterMembers(w.releases, Kept(gone));
    FilterMembers(w.staging, KeptStaging(gone));
    assert c in cs && FileDeletable(w, k, cutoff, c);
    forall i | 0 <= i < n ensures cs[i].path != c.path {
      assert cs[i] in cs && FileDeletable(w, k, cutoff, cs[i]);
      OnePath(w, k, cutoff, cs[i], c);
    }
  }

  lemma OnePath(w: Remote, k: nat, cutoff: nat, f: File, g: File)
    requires PathsIdentifyRemote(w) && FileDeletable(w, k, cutoff, f) && FileDeletable(w, k, cutoff, g)
    ensures f.path == g.path ==> f == g
  {
  }
}
