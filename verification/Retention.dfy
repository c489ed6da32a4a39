/** Retention, source side. */
module Retention {
  // Reference-aware retention of release databases: what a pass may delete, at every point where it may stop,
  // and that a completed pass leaves nothing for the next one.

  import opened Wrappers
  import opened Ordering
  import opened Sets

  /** `regular` means a regular single-link file; the other fields are what the unlink re-checks. */
  datatype Meta = Meta(mtime: nat, size: nat, inode: nat, regular: bool)

  datatype File = File(path: string, name: string, meta: Meta)

  /** Newest first; equal times by descending name. */
  predicate NewerFirst(a: File, b: File) {
    if a.meta.mtime != b.meta.mtime then a.meta.mtime > b.meta.mtime else LexLe(b.name, a.name)
  }

  predicate PathBefore(a: File, b: File) {
    LexLe(a.path, b.path)
  }

  lemma NewerFirstTotal()
    ensures TotalPreorder(NewerFirst)
  {
    forall a, b ensures NewerFirst(a, b) || NewerFirst(b, a) {
      LexTotal(a.name, b.name);
    }
    forall a, b, c | NewerFirst(a, b) && NewerFirst(b, c) ensures NewerFirst(a, c) {
      if a.meta.mtime == b.meta.mtime == c.meta.mtime {
        LexTransitive(c.name, b.name, a.name);
      }
    }
  }

  lemma PathBeforeTotal()
    ensures TotalPreorder(PathBefore)
  {
    forall a, b ensures PathBefore(a, b) || PathBefore(b, a) {
      LexTotal(a.path, b.path);
    }
    forall a, b, c | PathBefore(a, b) && PathBefore(b, c) ensures PathBefore(a, c) {
      LexTransitive(a.path, b.path, c.path);
    }
  }

  function Newest(files: seq<File>, k: nat): seq<File> {
    Take(Sort(files, NewerFirst), k)
  }

  /** Modified later, or at the same time under a name that is not smaller. */
  predicate Ahead(f: File, g: File) {
    f.meta.mtime > g.meta.mtime || (f.meta.mtime == g.meta.mtime && LexLe(g.name, f.name))
  }

  function OthersAhead(files: seq<File>, f: File): set<File> {
    set g | g in files && g != f && Ahead(g, f)
  }

  /** The newest k are as many of the files as there are up to k, each ahead of every file left out. */
  lemma NewestAreAhead(files: seq<File>, k: nat)
    ensures |Newest(files, k)| == if |files| <= k then |files| else k
    ensures multiset(Newest(files, k)) <= multiset(files)
    ensures |files| <= k ==> multiset(Newest(files, k)) == multiset(files)
    ensures forall f, g | f in Newest(files, k) && g in files && g !in Newest(files, k) :: Ahead(f, g)
  {
    var sorted := Sort(files, NewerFirst);
    NewerFirstTotal();
    SortSorts(files, NewerFirst);
    SortPermutes(files, NewerFirst);
    TakeSize(sorted, k);
    forall f, g | f in Newest(files, k) && g in files && g !in Newest(files, k) ensures Ahead(f, g) {
      TakenFirst(sorted, k, NewerFirst, f, g);
    }
  }

  /** So a file with fewer than k others ahead of it is one of them. */
  lemma FewAheadIsNewest(files: seq<File>, k: nat, f: File)
    requires Distinct(files) && f in files && |OthersAhead(files, f)| < k
    ensures f in Newest(files, k)
  {
    NewestAreAhead(files, k);
    NewestDistinct(files, k);
    var newest := Newest(files, k);
    if |files| <= k {
      assert f in multiset(newest);
    } else if f !in newest {
      assert SetOf(newest) <= OthersAhead(files, f) by {
        assert forall g | g in newest :: g in multiset(files);
      }
      SubsetSize(SetOf(newest), OthersAhead(files, f));
      assert false;
    }
  }

  lemma NewestDistinct(files: seq<File>, k: nat)
    requires Distinct(files)
    ensures |SetOf(Newest(files, k))| == |Newest(files, k)|
  {
    SortDistinct(files, NewerFirst);
    SetSize(Newest(files, k));
  }

  predicate AllRegular(files: seq<File>) {
    forall f | f in files :: f.meta.regular
  }

  /** A pointer file: its database name, or None when it does not validate. */
  type PointerFile = Option<string>

  /** The active pointer verifies: it parses, its database is a regular file of the root, and the
      database holds the same release and state. */
  predicate ActiveVerifies(files: seq<File>, active: PointerFile, identityHolds: bool) {
    active.Some? && identityHolds && exists f | f in files :: f.name == active.value && f.meta.regular
  }

  // ------------------------------------------------------------ source side

  datatype ResultFile = NoResult | ProvenSuccess(databaseAgrees: bool) | Unproven

  /** A publisher request: its database, its result, and the base pointer retained with it. */
  datatype SourceRequest = SourceRequest(database: string, result: ResultFile, base: Option<PointerFile>)

  datatype Source = Source(
    source: seq<File>, publisher: seq<File>,
    active: PointerFile, identityHolds: bool, activePointers: seq<PointerFile>,
    directoriesExist: bool, requests: seq<SourceRequest>)

  /** A success result is honoured only if it agrees with the candidate database, when that exists. */
  predicate RequestOk(w: Source, q: SourceRequest) {
    match q.result
    case NoResult => q.base.Some? ==> q.base.value.Some?
    case ProvenSuccess(agrees) => agrees || !exists f | f in w.publisher :: f.name == q.database
    case Unproven => false
  }

  predicate SourcePlannable(w: Source) {
    && ActiveVerifies(w.source, w.active, w.identityHolds)
    && AllRegular(w.source) && AllRegular(w.publisher)
    && (forall p | p in w.activePointers :: p.Some?)
    && w.directoriesExist
    && forall q | q in w.requests :: RequestOk(w, q)
  }

  /** An ordinary store is not refused; a link, a pointer that does not parse or an unproven result is. */
  lemma OrdinaryIsPlanned(w: Source)
    requires w.directoriesExist && w.identityHolds
    requires forall f | f in w.source + w.publisher :: f.meta.regular
    requires exists f | f in w.source :: w.active == Some(f.name)
    requires forall p | p in w.activePointers :: p != None
    requires forall q | q in w.requests ::
      q.result == ProvenSuccess(true) || (q.result == NoResult && q.base != Some(None))
    ensures SourcePlannable(w)
  {
  }

  lemma DoubtRefuses(w: Source)
    requires || !w.directoriesExist || !w.identityHolds || w.active == None
      || (exists f | f in w.source + w.publisher :: !f.meta.regular)
      || (exists p | p in w.activePointers :: p == None)
      || (exists q | q in w.requests :: q.result == Unproven || (q.result == NoResult && q.base == Some(None)))
    ensures !SourcePlannable(w)
  {
    if q :| q in w.requests && (q.result == Unproven || (q.result == NoResult && q.base == Some(None))) {
      assert !RequestOk(w, q);
    }
  }

  predicate ReferencedBySource(w: Source, name: string) {
    || w.active == Some(name)
    || Some(name) in w.activePointers
    || exists q | q in w.requests :: q.result.NoResult? && q.base == Some(Some(name))
  }

  predicate ReferencedByPublisher(w: Source, name: string) {
    exists q | q in w.requests :: q.result.NoResult? && q.database == name
  }

  /** What must survive: referenced names, the newest k files' names, and everything not old enough. */
  predicate SourceDeletable(w: Source, k: nat, cutoff: nat, f: File) {
    && f in w.source && f.meta.mtime < cutoff && !ReferencedBySource(w, f.name)
    && forall g | g in Newest(w.source, k) :: g.name != f.name
  }

  predicate PublisherDeletable(w: Source, k: nat, cutoff: nat, f: File) {
    && f in w.publisher && f.meta.mtime < cutoff && !ReferencedByPublisher(w, f.name)
    && forall g | g in Newest(w.publisher, k) :: g.name != f.name
  }

  datatype Plan = Plan(candidates: seq<File>) | Refused

  /** A plan lists exactly the deletable files, in path order; any doubt refuses it as a whole. */
  ghost predicate IsSourcePlan(w: Source, k: nat, cutoff: nat, plan: Plan) {
    && (plan.Plan? <==> SourcePlannable(w))
    && (plan.Plan? ==>
          && Sorted(plan.candidates, PathBefore)
          && forall f :: f in plan.candidates <==>
               SourceDeletable(w, k, cutoff, f) || PublisherDeletable(w, k, cutoff, f))
  }

  function Unprotected(protected: set<string>, cutoff: nat): File -> bool {
    (f: File) => f.name !in protected && f.meta.mtime < cutoff
  }

  function Names(files: seq<File>): set<string> {
    set f | f in files :: f.name
  }

  method PlanSource(w: Source, k: nat, cutoff: nat) returns (plan: Plan)
    ensures IsSourcePlan(w, k, cutoff, plan)
    ensures plan.Plan? && PathsIdentify(w) ==> Distinct(plan.candidates)
  {
    var active := VerifyActive(w.source, w.active, w.identityHolds);
    if !active || !AllRegular(w.source) || !AllRegular(w.publisher) {
      return Refused;
    }
    var protectedSource := {w.active.value} + Names(Newest(w.source, k));
    var protectedPublisher := Names(Newest(w.publisher, k));
    for i := 0 to |w.activePointers|
      invariant forall j | 0 <= j < i :: w.activePointers[j].Some?
      invariant forall n :: n in protectedSource <==>
        w.active == Some(n) || n in Names(Newest(w.source, k)) || Some(n) in w.activePointers[..i]
    {
      if w.activePointers[i].None? {
        assert w.activePointers[i] in w.activePointers;
        return Refused;
      }
      protectedSource := protectedSource + {w.activePointers[i].value};
      assert w.activePointers[..i + 1] == w.activePointers[..i] + [w.activePointers[i]];
    }
    assert w.activePointers[..|w.activePointers|] == w.activePointers;
    if !w.directoriesExist {
      return Refused;
    }
    ghost var initial := protectedSource;
    for i := 0 to |w.requests|
      invariant forall j | 0 <= j < i :: RequestOk(w, w.requests[j])
      invariant forall n :: n in protectedSource <==>
        n in initial || exists q | q in w.requests[..i] :: q.result.NoResult? && q.base == Some(Some(n))
      invariant forall n :: n in protectedPublisher <==>
        n in Names(Newest(w.publisher, k)) || exists q | q in w.requests[..i] :: q.result.NoResult? && q.database == n
    {
      var q := w.requests[i];
      assert w.requests[..i + 1] == w.requests[..i] + [q];
      assert q in w.requests;
      var unresolved, ok := ValidatedResult(w, q);
      if !ok || (unresolved && q.base.Some? && q.base.value.None?) {
        return Refused;
      }
      if unresolved {
        protectedPublisher := protectedPublisher + {q.database};
        if q.base.Some? {
          protectedSource := protectedSource + {q.base.value.value};
        }
      }
    }
    assert w.requests[..|w.requests|] == w.requests;
    var fromSource := Filter(Sort(w.source, NewerFirst), Unprotected(protectedSource, cutoff));
    var fromPublisher := Filter(Sort(w.publisher, NewerFirst), Unprotected(protectedPublisher, cutoff));
    plan := Plan(Sort(fromSource + fromPublisher, PathBefore));
    PlanLists(w, k, cutoff, protectedSource, protectedPublisher);
    if PathsIdentify(w) {
      CandidatesDistinct(w, fromSource, fromPublisher, protectedSource, protectedPublisher, cutoff);
    }
  }

  /** The active pointer, its file, and the identity in it; anything else raises. */
  method VerifyActive(files: seq<File>, active: PointerFile, identityHolds: bool) returns (ok: bool)
    ensures ok <==> ActiveVerifies(files, active, identityHolds)
  {
    if active == None {
      return false;
    }
    ok := false;
    for i := 0 to |files|
      invariant ok <==> exists f | f in files[..i] :: f.name == active.value && f.meta.regular
    {
      assert files[..i + 1] == files[..i] + [files[i]];
      ok := ok || (files[i].name == active.value && files[i].meta.regular);
    }
    assert files[..|files|] == files;
    ok := ok && identityHolds;
  }

  /** No result, a proven success that agrees with its candidate database if that is still there, or an
      error. */
  method ValidatedResult(w: Source, q: SourceRequest) returns (unresolved: bool, ok: bool)
    ensures ok && (unresolved && q.base.Some? ==> q.base.value.Some?) <==> RequestOk(w, q)
    ensures unresolved <==> q.result == NoResult
  {
    unresolved, ok := false, false;
    match q.result {
      case NoResult => unresolved, ok := true, true;
      case Unproven =>
      case ProvenSuccess(agrees) =>
        ok := agrees || q.database !in (set f | f in w.publisher :: f.name);
    }
  }

  /** Protected sets that hold exactly the referenced and the newest names plan exactly the deletable. */
  lemma PlanLists(w: Source, k: nat, cutoff: nat, ps: set<string>, pp: set<string>)
    requires SourcePlannable(w)
    requires forall n :: n in ps <==> ReferencedBySource(w, n) || n in Names(Newest(w.source, k))
    requires forall n :: n in pp <==> ReferencedByPublisher(w, n) || n in Names(Newest(w.publisher, k))
    ensures var fromSource := Filter(Sort(w.source, NewerFirst), Unprotected(ps, cutoff));
      var fromPublisher := Filter(Sort(w.publisher, NewerFirst), Unprotected(pp, cutoff));
      IsSourcePlan(w, k, cutoff, Plan(Sort(fromSource + fromPublisher, PathBefore)))
  {
    var fromSource := Filter(Sort(w.source, NewerFirst), Unprotected(ps, cutoff));
    var fromPublisher := Filter(Sort(w.publisher, NewerFirst), Unprotected(pp, cutoff));
    PathBeforeTotal();
    SortSorts(fromSource + fromPublisher, PathBefore);
    SortPermutes(fromSource + fromPublisher, PathBefore);
    OldUnprotected(w.source, ps, cutoff);
    OldUnprotected(w.publisher, pp, cutoff);
    forall f ensures f in fromSource <==> SourceDeletable(w, k, cutoff, f) {
      assert f.name in Names(Newest(w.source, k)) <==> exists g | g in Newest(w.source, k) :: g.name == f.name;
    }
    forall f ensures f in fromPublisher <==> PublisherDeletable(w, k, cutoff, f) {
      assert f.name in Names(Newest(w.publisher, k)) <==> exists g | g in Newest(w.publisher, k) :: g.name == f.name;
    }
  }

  lemma CandidatesDistinct(
    w: Source, fromSource: seq<File>, fromPublisher: seq<File>, ps: set<string>, pp: set<string>, cutoff: nat)
    requires PathsIdentify(w)
    requires fromSource == Filter(Sort(w.source, NewerFirst), Unprotected(ps, cutoff))
    requires fromPublisher == Filter(Sort(w.publisher, NewerFirst), Unprotected(pp, cutoff))
    ensures Distinct(Sort(fromSource + fromPublisher, PathBefore))
  {
    SortDistinct(w.source, NewerFirst);
    SortDistinct(w.publisher, NewerFirst);
    FilterDistinct(Sort(w.source, NewerFirst), Unprotected(ps, cutoff));
    FilterDistinct(Sort(w.publisher, NewerFirst), Unprotected(pp, cutoff));
    OldUnprotected(w.source, ps, cutoff);
    OldUnprotected(w.publisher, pp, cutoff);
    DistinctConcat(fromSource, fromPublisher);
    SortDistinct(fromSource + fromPublisher, PathBefore);
  }

  lemma OldUnprotected(files: seq<File>, protected: set<string>, cutoff: nat)
    ensures forall f :: f in Filter(Sort(files, NewerFirst), Unprotected(protected, cutoff)) <==>
      f in files && f.name !in protected && f.meta.mtime < cutoff
  {
    SortPermutes(files, NewerFirst);
    FilterMembers(Sort(files, NewerFirst), Unprotected(protected, cutoff));
  }

  // ------------------------------------------------------- deleting, and stopping

  function Kept(gone: set<string>): File -> bool {
    (f: File) => f.path !in gone
  }

  function Without(w: Source, gone: set<string>): Source {
    w.(source := Filter(w.source, Kept(gone)), publisher := Filter(w.publisher, Kept(gone)))
  }

  function Paths(files: seq<File>): set<string> {
    set f | f in files :: f.path
  }

  /** The listings name each file once, and a path names one file, of one root. */
  ghost predicate PathsIdentify(w: Source) {
    && Distinct(w.source) && Distinct(w.publisher)
    && (forall f, g | f in w.source && g in w.source && f.path == g.path :: f == g)
    && (forall f, g | f in w.publisher && g in w.publisher && f.path == g.path :: f == g)
    && (forall f, g | f in w.source && g in w.publisher :: f.path != g.path)
  }

  lemma Survives(w: Source, k: nat, cutoff: nat, plan: Plan, n: nat, f: File)
    requires IsSourcePlan(w, k, cutoff, plan) && plan.Plan? && n <= |plan.candidates| && PathsIdentify(w)
    ensures f in w.source && !SourceDeletable(w, k, cutoff, f) ==>
      f in Without(w, Paths(plan.candidates[..n])).source
    ensures f in w.publisher && !PublisherDeletable(w, k, cutoff, f) ==>
      f in Without(w, Paths(plan.candidates[..n])).publisher
  {
    var gone := Paths(plan.candidates[..n]);
    FilterMembers(w.source, Kept(gone));
    FilterMembers(w.publisher, Kept(gone));
    if f.path in gone {
      var g :| g in plan.candidates[..n] && g.path == f.path;
      assert g in plan.candidates;
    }
  }

  /** After the first n deletions of a plan, whatever n: the active database still verifies, and every
      pointer target, every database an unresolved request refers to, the newest k of both roots and
      everything not older than the cutoff are still there. */
  lemma SafeAtEveryPrefix(w: Source, k: nat, cutoff: nat, plan: Plan, n: nat)
    requires IsSourcePlan(w, k, cutoff, plan) && plan.Plan? && n <= |plan.candidates| && PathsIdentify(w)
    ensures var after := Without(w, Paths(plan.candidates[..n]));
      && ActiveVerifies(after.source, w.active, w.identityHolds)
      && (forall f | f in w.source && ReferencedBySource(w, f.name) :: f in after.source)
      && (forall f | f in w.publisher && ReferencedByPublisher(w, f.name) :: f in after.publisher)
      && (forall f | f in Newest(w.source, k) :: f in after.source)
      && (forall f | f in Newest(w.publisher, k) :: f in after.publisher)
      && (forall f | f in w.source && f.meta.mtime >= cutoff :: f in after.source)
      && (forall f | f in w.publisher && f.meta.mtime >= cutoff :: f in after.publisher)
  {
    forall f | f in w.source && !SourceDeletable(w, k, cutoff, f)
      ensures f in Without(w, Paths(plan.candidates[..n])).source
    {
      Survives(w, k, cutoff, plan, n, f);
    }
    forall f | f in w.publisher && !PublisherDeletable(w, k, cutoff, f)
      ensures f in Without(w, Paths(plan.candidates[..n])).publisher
    {
      Survives(w, k, cutoff, plan, n, f);
    }
    NewestMembers(w.source, k);
    NewestMembers(w.publisher, k);
  }

  /** In terms of times and names alone: a release with fewer than k others ahead of it survives every
      prefix of the plan. */
  lemma RecentSurvives(w: Source, k: nat, cutoff: nat, plan: Plan, n: nat, f: File)
    requires IsSourcePlan(w, k, cutoff, plan) && plan.Plan? && n <= |plan.candidates| && PathsIdentify(w)
    ensures f in w.source && |OthersAhead(w.source, f)| < k ==>
      f in Without(w, Paths(plan.candidates[..n])).source
    ensures f in w.publisher && |OthersAhead(w.publisher, f)| < k ==>
      f in Without(w, Paths(plan.candidates[..n])).publisher
  {
    SafeAtEveryPrefix(w, k, cutoff, plan, n);
    if f in w.source && |OthersAhead(w.source, f)| < k {
      FewAheadIsNewest(w.source, k, f);
    }
    if f in w.publisher && |OthersAhead(w.publisher, f)| < k {
      FewAheadIsNewest(w.publisher, k, f);
    }
  }

  lemma NewestMembers(files: seq<File>, k: nat)
    ensures forall f | f in Newest(files, k) :: f in files
  {
    SortPermutes(files, NewerFirst);
    assert forall f | f in Take(Sort(files, NewerFirst), k) :: f in Sort(files, NewerFirst);
  }

  /** Deleting none of the newest k leaves the same newest k, in the same order. */
  lemma NewestUnchanged(files: seq<File>, k: nat, gone: set<string>)
    requires forall f | f in Newest(files, k) :: f.path !in gone
    ensures Newest(Filter(files, Kept(gone)), k) == Newest(files, k)
  {
    NewerFirstTotal();
    FilterSort(files, NewerFirst, Kept(gone));
    TakeFiltered(Sort(files, NewerFirst), k, Kept(gone));
  }

  lemma NewestNotGone(w: Source, k: nat, cutoff: nat, plan: Plan)
    requires IsSourcePlan(w, k, cutoff, plan) && plan.Plan? && PathsIdentify(w)
    ensures forall f | f in Newest(w.source, k) || f in Newest(w.publisher, k) :: f.path !in Paths(plan.candidates)
  {
    NewestMembers(w.source, k);
    NewestMembers(w.publisher, k);
    forall f, g | (f in Newest(w.source, k) || f in Newest(w.publisher, k)) && g in plan.candidates
      ensures g.path != f.path
    {
      assert SourceDeletable(w, k, cutoff, g) || PublisherDeletable(w, k, cutoff, g);
    }
  }

  lemma StillPlannable(w: Source, k: nat, cutoff: nat, plan: Plan)
    requires IsSourcePlan(w, k, cutoff, plan) && plan.Plan? && PathsIdentify(w)
    ensures SourcePlannable(Without(w, Paths(plan.candidates)))
  {
    var gone := Paths(plan.candidates);
    var after := Without(w, gone);
    FilterMembers(w.source, Kept(gone));
    FilterMembers(w.publisher, Kept(gone));
    assert plan.candidates[..|plan.candidates|] == plan.candidates;
    SafeAtEveryPrefix(w, k, cutoff, plan, |plan.candidates|);
    assert forall q | q in w.requests :: RequestOk(after, q);
  }

  /** With the same newest k, what a later pass may delete was deletable before and is still there. */
  lemma SourceShrinks(w: Source, k: nat, cutoff: nat, gone: set<string>, f: File)
    requires Newest(Filter(w.source, Kept(gone)), k) == Newest(w.source, k)
    requires SourceDeletable(Without(w, gone), k, cutoff, f)
    ensures SourceDeletable(w, k, cutoff, f) && f.path !in gone
  {
    FilterMembers(w.source, Kept(gone));
  }

  lemma PublisherShrinks(w: Source, k: nat, cutoff: nat, gone: set<string>, f: File)
    requires Newest(Filter(w.publisher, Kept(gone)), k) == Newest(w.publisher, k)
    requires PublisherDeletable(Without(w, gone), k, cutoff, f)
    ensures PublisherDeletable(w, k, cutoff, f) && f.path !in gone
  {
    FilterMembers(w.publisher, Kept(gone));
  }

  /** A completed pass is a fixpoint: with the same cutoff and references the next pass is not refused
      and plans no deletion at all. */
  lemma SecondPassIdle(w: Source, k: nat, cutoff: nat, plan: Plan, next: Plan)
    requires IsSourcePlan(w, k, cutoff, plan) && plan.Plan? && PathsIdentify(w)
    requires IsSourcePlan(Without(w, Paths(plan.candidates)), k, cutoff, next)
    ensures next == Plan([])
  {
    var gone := Paths(plan.candidates);
    StillPlannable(w, k, cutoff, plan);
    NewestNotGone(w, k, cutoff, plan);
    NewestUnchanged(w.source, k, gone);
    NewestUnchanged(w.publisher, k, gone);
    forall f | f in next.candidates ensures f in plan.candidates && f.path !in gone {
      if SourceDeletable(Without(w, gone), k, cutoff, f) {
        SourceShrinks(w, k, cutoff, gone, f);
      } else {
        PublisherShrinks(w, k, cutoff, gone, f);
      }
    }
    NoMembers(next.candidates);
  }

  lemma NoMembers(files: seq<File>)
    requires forall f :: f !in files
    ensures files == []
  {
    forall f ensures multiset(files)[f] == 0 {
      assert f !in files;
    }
    assert multiset(files) == multiset{};
    assert |multiset(files)| == |files|;
  }

  /** The files both the retention pass and the publisher work on, under the lock they share. */
  class Store {
    var world: Source

    constructor (w: Source)
      ensures world == w
    {
      world := w;
    }

    /** Re-reads the metadata and unlinks only the very file that was planned. */
    method Unlink(c: File) returns (done: bool)
      modifies this
      ensures done == (c in old(world).source || c in old(world).publisher)
      ensures world == if done then Without(old(world), {c.path}) else old(world)
    {
      done := c in world.source || c in world.publisher;
      if done {
        world := Without(world, {c.path});
      }
    }

    /** One pass that may die after any number of deletions: what is gone is a prefix of the plan, a
        refused plan deletes nothing, and no unlink nor the final verification can fail. */
    method Rotate(k: nat, cutoff: nat, apply: bool, stopAfter: nat) returns (plan: Plan, deleted: nat, ok: bool)
      requires PathsIdentify(world)
      modifies this
      ensures IsSourcePlan(old(world), k, cutoff, plan)
      ensures !apply || plan.Refused? ==> world == old(world) && deleted == 0
      ensures plan.Plan? ==> deleted <= |plan.candidates|
      ensures plan.Plan? ==> world == Without(old(world), Paths(plan.candidates[..deleted]))
      ensures apply && plan.Plan? && stopAfter > |plan.candidates| ==> deleted == |plan.candidates| && ok
    {
      plan := PlanSource(world, k, cutoff);
      deleted, ok := 0, false;
      NothingGone(world);
      if plan.Plan? {
        assert Paths(plan.candidates[..0]) == {};
      }
      if plan.Plan? && apply {
        deleted := UnlinkAll(plan.candidates, stopAfter, k, cutoff);
        if deleted < stopAfter {
          SafeAtEveryPrefix(old(world), k, cutoff, plan, deleted);
          ok := ActiveVerifies(world.source, world.active, world.identityHolds);
        }
      }
    }

    /** One candidate: it is still there as planned, so its re-check succeeds. */
    method UnlinkNext(candidates: seq<File>, n: nat, ghost start: Source, ghost k: nat, ghost cutoff: nat)
      requires PathsIdentify(start) && IsSourcePlan(start, k, cutoff, Plan(candidates)) && Distinct(candidates)
      requires n < |candidates| && world == Without(start, Paths(candidates[..n]))
      modifies this
      ensures world == Without(start, Paths(candidates[..n + 1]))
    {
      ghost var next := n + 1;
      NextStillThere(start, k, cutoff, Plan(candidates), n);
      OneMoreGone(start, candidates, n, next);
      var done := Unlink(candidates[n]);
      assert done;
    }

    /** The deletion loop; `stopAfter` is where the process dies, if it does. */
    method UnlinkAll(candidates: seq<File>, stopAfter: nat, ghost k: nat, ghost cutoff: nat) returns (deleted: nat)
      requires PathsIdentify(world) && IsSourcePlan(world, k, cutoff, Plan(candidates)) && Distinct(candidates)
      modifies this
      ensures deleted == if stopAfter < |candidates| then stopAfter else |candidates|
      ensures world == Without(old(world), Paths(candidates[..deleted]))
    {
      deleted := 0;
      NothingGone(world);
      assert Paths(candidates[..0]) == {};
      while deleted < |candidates| && deleted < stopAfter
        invariant deleted <= |candidates| && deleted <= stopAfter
        invariant world == Without(old(world), Paths(candidates[..deleted]))
      {
        UnlinkNext(candidates, deleted, old(world), k, cutoff);
        deleted := deleted + 1;
      }
    }
  }

  lemma NothingGone(w: Source)
    ensures Without(w, {}) == w
  {
    FilterAll(w.source, Kept({}));
    FilterAll(w.publisher, Kept({}));
  }

  lemma OneMoreGone(w: Source, cs: seq<File>, n: nat, next: nat)
    requires n < |cs| && next == n + 1
    ensures Without(Without(w, Paths(cs[..n])), {cs[n].path}) == Without(w, Paths(cs[..next]))
  {
    OneMorePath(cs, n, next);
    var before, path, after := Paths(cs[..n]), cs[n].path, Paths(cs[..next]);
    FilterTwice(w.source, Kept(before), Kept({path}), Kept(after));
    FilterTwice(w.publisher, Kept(before), Kept({path}), Kept(after));
  }

  lemma OneMorePath(cs: seq<File>, n: nat, next: nat)
    requires n < |cs| && next == n + 1
    ensures Paths(cs[..next]) == Paths(cs[..n]) + {cs[n].path}
  {
    assert cs[..next] == cs[..n] + [cs[n]];
  }

  lemma NextStillThere(w: Source, k: nat, cutoff: nat, plan: Plan, n: nat)
    requires IsSourcePlan(w, k, cutoff, plan) && plan.Plan? && n < |plan.candidates| && PathsIdentify(w)
    requires Distinct(plan.candidates)
    ensures var after := Without(w, Paths(plan.candidates[..n]));
      plan.candidates[n] in after.source || plan.candidates[n] in after.publisher
  {
    var c := plan.candidates[n];
    var gone := Paths(plan.candidates[..n]);
    FilterMembers(w.source, Kept(gone));
    FilterMembers(w.publisher, Kept(gone));
    assert c in plan.candidates;
    forall i | 0 <= i < n ensures plan.candidates[i].path != c.path {
      assert plan.candidates[i] in plan.candidates;
    }
  }
}
