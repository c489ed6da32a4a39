/** The deferred queue. */
module DeferredQueue {
  // The daily issue's deferred queue: merging it with fresh material, selecting a capped batch
  // oldest-deferred-first, and writing the rest back only after every other output.

  import opened Sets
  import opened Wrappers
  import opened Ordering

  /** Dates are day numbers; 0 stands for a deferral record without a date. */
  type Date = nat

  datatype Mark = Mark(first: Date, last: Date, count: nat)

  /** `key` is the queue identity (normalised URL), `mark` the deferral record an item carries. */
  datatype Item = Item(key: string, mark: Option<Mark>, payload: int)

  ghost predicate DistinctKeys(s: seq<Item>) {
    forall i, j | 0 <= i < j < |s| :: s[i].key != s[j].key
  }

  function Keys(s: seq<Item>): set<string> {
    set x | x in s :: x.key
  }

  // ---------------------------------------------------------------- merging

  /** Python's `d[key] = item`: overwrites in place, otherwise appends. */
  function Put(d: seq<Item>, x: Item): seq<Item> {
    if d == [] then [x]
    else if d[0].key == x.key then [x] + d[1..]
    else [d[0]] + Put(d[1..], x)
  }

  function PutAll(d: seq<Item>, xs: seq<Item>): seq<Item>
    decreases |xs|
  {
    if xs == [] then d else PutAll(Put(d, xs[0]), xs[1..])
  }

  function Merge(deferred: seq<Item>, period: seq<Item>): seq<Item> {
    PutAll(PutAll([], period), deferred)
  }

  /** The last item with this key, as a dictionary filled in order would hold it. */
  function LastWith(xs: seq<Item>, k: string): Option<Item> {
    if xs == [] then None
    else if xs[|xs| - 1].key == k then Some(xs[|xs| - 1])
    else LastWith(xs[..|xs| - 1], k)
  }

  lemma {:induction false} PutShape(d: seq<Item>, x: Item)
    requires DistinctKeys(d)
    ensures DistinctKeys(Put(d, x))
    ensures Keys(Put(d, x)) == Keys(d) + {x.key}
    ensures forall y :: y in Put(d, x) <==> y == x || (y in d && y.key != x.key)
  {
    PutMembers(d, x);
    if d != [] && d[0].key != x.key {
      PutShape(d[1..], x);
      var t := Put(d[1..], x);
      forall j | 0 <= j < |t| ensures d[0].key != t[j].key {
        assert t[j] in t;
      }
    }
  }

  lemma {:induction false} PutMembers(d: seq<Item>, x: Item)
    requires DistinctKeys(d)
    ensures forall y :: y in Put(d, x) <==> y == x || (y in d && y.key != x.key)
  {
    if d != [] {
      assert d == [d[0]] + d[1..];
      if d[0].key != x.key {
        PutMembers(d[1..], x);
      }
    }
  }

  lemma {:induction false} PutNew(d: seq<Item>, x: Item)
    requires forall i | 0 <= i < |d| :: d[i].key != x.key
    ensures Put(d, x) == d + [x]
  {
    if d != [] {
      PutNew(d[1..], x);
    }
  }

  lemma {:induction false} PutAllAppend(d: seq<Item>, xs: seq<Item>, x: Item)
    ensures PutAll(d, xs + [x]) == Put(PutAll(d, xs), x)
    decreases |xs|
  {
    if xs == [] {
      assert xs + [x] == [x];
    } else {
      assert (xs + [x])[1..] == xs[1..] + [x];
      PutAllAppend(Put(d, xs[0]), xs[1..], x);
    }
  }

  lemma {:induction false} PutAllShape(d: seq<Item>, xs: seq<Item>)
    requires DistinctKeys(d)
    ensures DistinctKeys(PutAll(d, xs))
    ensures forall y ::
      (y in PutAll(d, xs) <==> LastWith(xs, y.key) == Some(y) || (LastWith(xs, y.key) == None && y in d))
    decreases |xs|
  {
    if xs != [] {
      var init, x := xs[..|xs| - 1], xs[|xs| - 1];
      assert xs == init + [x];
      PutAllShape(d, init);
      PutAllAppend(d, init, x);
      PutShape(PutAll(d, init), x);
    }
  }

  lemma {:induction false} PutAllKeys(d: seq<Item>, xs: seq<Item>)
    requires DistinctKeys(d)
    ensures Keys(PutAll(d, xs)) == Keys(d) + Keys(xs)
    decreases |xs|
  {
    if xs != [] {
      PutShape(d, xs[0]);
      PutAllKeys(Put(d, xs[0]), xs[1..]);
      assert xs == [xs[0]] + xs[1..];
      assert Keys(xs) == {xs[0].key} + Keys(xs[1..]);
    }
  }

  lemma {:induction false} LastWithMember(xs: seq<Item>, k: string)
    ensures LastWith(xs, k).Some? ==> LastWith(xs, k).value in xs && LastWith(xs, k).value.key == k
    ensures LastWith(xs, k) == None <==> k !in Keys(xs)
  {
    if xs != [] {
      var init, x := xs[..|xs| - 1], xs[|xs| - 1];
      LastWithMember(init, k);
      KeysSnoc(xs, init, x);
    }
  }

  lemma KeysSnoc(xs: seq<Item>, init: seq<Item>, x: Item)
    requires xs == init + [x]
    ensures Keys(xs) == Keys(init) + {x.key}
    ensures x in xs && forall y | y in init :: y in xs
  {
  }

  /** No key twice, no queued key lost, and a queued entry's deferral record beats the copy of the
      same material that the period brings along. */
  lemma MergeKeepsQueue(deferred: seq<Item>, period: seq<Item>)
    ensures DistinctKeys(Merge(deferred, period))
    ensures Keys(Merge(deferred, period)) == Keys(deferred) + Keys(period)
    ensures forall y | y in Merge(deferred, period) ::
      if y.key in Keys(deferred) then LastWith(deferred, y.key) == Some(y)
      else LastWith(period, y.key) == Some(y)
  {
    PutAllShape([], period);
    PutAllShape(PutAll([], period), deferred);
    PutAllKeys([], period);
    PutAllKeys(PutAll([], period), deferred);
    forall y | y in Merge(deferred, period)
      ensures if y.key in Keys(deferred) then LastWith(deferred, y.key) == Some(y)
              else LastWith(period, y.key) == Some(y)
    {
      LastWithMember(deferred, y.key);
    }
  }

  ghost predicate IsDict(order: seq<string>, entries: map<string, Item>) {
    && (forall i, j | 0 <= i < j < |order| :: order[i] != order[j])
    && (forall k :: k in order <==> k in entries)
    && (forall k | k in entries :: entries[k].key == k)
  }

  function Listed(order: seq<string>, entries: map<string, Item>): seq<Item>
    requires forall k | k in order :: k in entries
  {
    seq(|order|, i requires 0 <= i < |order| => assert order[i] in order; entries[order[i]])
  }

  /** The insertion-ordered dictionary that the merge fills. */
  class Dict {
    var order: seq<string>
    var entries: map<string, Item>

    ghost predicate Valid()
      reads this
    {
      IsDict(order, entries)
    }

    function Values(): seq<Item>
      requires Valid()
      reads this
    {
      Listed(order, entries)
    }

    constructor ()
      ensures Valid() && Values() == []
    {
      order, entries := [], map[];
    }

    method Store(x: Item)
      requires Valid()
      modifies this
      ensures Valid() && Values() == Put(old(Values()), x)
    {
      if x.key in entries {
        StoreKnown(order, entries, x);
        entries := entries[x.key := x];
      } else {
        StoreNew(order, entries, x);
        order := order + [x.key];
        entries := entries[x.key := x];
      }
    }
  }

  lemma StoreKnown(order: seq<string>, entries: map<string, Item>, x: Item)
    requires IsDict(order, entries) && x.key in entries
    ensures IsDict(order, entries[x.key := x])
    ensures Listed(order, entries[x.key := x]) == Put(Listed(order, entries), x)
  {
    var was := Listed(order, entries);
    var k :| 0 <= k < |order| && order[k] == x.key;
    assert Listed(order, entries[x.key := x]) == was[k := x];
    PutAt(was, x, k);
  }

  lemma StoreNew(order: seq<string>, entries: map<string, Item>, x: Item)
    requires IsDict(order, entries) && x.key !in entries
    ensures IsDict(order + [x.key], entries[x.key := x])
    ensures Listed(order + [x.key], entries[x.key := x]) == Put(Listed(order, entries), x)
  {
    var was := Listed(order, entries);
    assert Listed(order + [x.key], entries[x.key := x]) == was + [x];
    PutNew(was, x);
  }

  lemma {:induction false} PutAt(d: seq<Item>, x: Item, k: nat)
    requires k < |d| && d[k].key == x.key && DistinctKeys(d)
    ensures Put(d, x) == d[k := x]
  {
    if k > 0 {
      PutAt(d[1..], x, k - 1);
    }
  }

  method MergeDeferredWithPeriod(deferred: seq<Item>, period: seq<Item>) returns (merged: seq<Item>)
    ensures merged == Merge(deferred, period)
  {
    var d := new Dict();
    for i := 0 to |period|
      invariant d.Valid() && fresh(d) && d.Values() == PutAll([], period[..i])
    {
      d.Store(period[i]);
      PutAllAppend([], period[..i], period[i]);
      assert period[..i + 1] == period[..i] + [period[i]];
    }
    assert period[..|period|] == period;
    for i := 0 to |deferred|
      invariant d.Valid() && fresh(d) && d.Values() == PutAll(PutAll([], period), deferred[..i])
    {
      d.Store(deferred[i]);
      PutAllAppend(PutAll([], period), deferred[..i], deferred[i]);
      assert deferred[..i + 1] == deferred[..i] + [deferred[i]];
    }
    assert deferred[..|deferred|] == deferred;
    merged := d.Values();
  }

  // -------------------------------------------------------------- selecting

  /** Already deferred items first, oldest first deferral first; ties keep the ranking order. */
  predicate Before(a: Item, b: Item) {
    if a.mark.Some? then b.mark.None? || a.mark.value.first <= b.mark.value.first
    else b.mark.None?
  }

  function MarkDeferred(x: Item, date: Date): Item {
    x.(mark := Some(
      if x.mark.Some?
      then Mark(if x.mark.value.first != 0 then x.mark.value.first else date, date, x.mark.value.count + 1)
      else Mark(date, date, 1)))
  }

  function MarkAll(s: seq<Item>, date: Date): seq<Item> {
    seq(|s|, i requires 0 <= i < |s| => MarkDeferred(s[i], date))
  }

  datatype Batch = Batch(selected: seq<Item>, deferred: seq<Item>)

  function SelectDailyBatch(included: seq<Item>, limit: int, date: Date): Batch {
    if limit <= 0 || |included| <= limit then Batch(included, [])
    else
      var ordered := Sort(included, Before);
      SortPermutes(included, Before);
      Batch(ordered[..limit], MarkAll(ordered[limit..], date))
  }

  /** q is x, put off on this date: first put off now, unless it has a first date already, last put off
      now, and put off once more. */
  predicate PutOff(x: Item, q: Item, date: Date) {
    && q.key == x.key && q.payload == x.payload
    && q.mark.Some? && q.mark.value.last == date
    && q.mark.value.count == (if x.mark.Some? then x.mark.value.count else 0) + 1
    && q.mark.value.first == (if x.mark.Some? && x.mark.value.first > 0 then x.mark.value.first else date)
  }

  /** Every included item is published or queued, once; the cap holds and is used up; a queued item
      keeps its first deferral date and counts one deferral more. */
  lemma SelectionConserves(included: seq<Item>, limit: nat, date: Date)
    requires limit > 0
    ensures var b := SelectDailyBatch(included, limit, date);
      && |b.selected| == (if |included| <= limit then |included| else limit)
      && exists rest: seq<Item> ::
        && multiset(b.selected) + multiset(rest) == multiset(included) && |b.deferred| == |rest|
        && forall i | 0 <= i < |rest| :: PutOff(rest[i], b.deferred[i], date)
  {
    var b := SelectDailyBatch(included, limit, date);
    if |included| <= limit {
      var none: seq<Item> := [];
      assert multiset(b.selected) + multiset(none) == multiset(included);
    } else {
      var ordered := Sort(included, Before);
      SortPermutes(included, Before);
      var rest := ordered[limit..];
      assert ordered == ordered[..limit] + rest;
      assert multiset(b.selected) + multiset(rest) == multiset(included);
      AllPutOff(rest, date);
    }
  }

  lemma AllPutOff(rest: seq<Item>, date: Date)
    ensures |MarkAll(rest, date)| == |rest|
    ensures forall i | 0 <= i < |rest| :: PutOff(rest[i], MarkAll(rest, date)[i], date)
  {
  }

  /** Nobody jumps the queue: whatever is published goes before whatever is deferred.  In particular
      no fresh item is published while an already deferred one is deferred again. */
  lemma NoOvertaking(included: seq<Item>, limit: int, date: Date, a: Item, q: Item)
    requires var b := SelectDailyBatch(included, limit, date); a in b.selected && q in b.deferred
    ensures exists x | x in included ::
      PutOff(x, q, date) && Before(a, x) && (a.mark.None? ==> x.mark.None?)
  {
    SortPermutes(included, Before);
    SortSorts(included, Before);
    var x := BehindInLine(Sort(included, Before), limit, date, a, q);
  }

  lemma BehindInLine(ordered: seq<Item>, limit: nat, date: Date, a: Item, q: Item) returns (x: Item)
    requires Sorted(ordered, Before) && limit <= |ordered|
    requires a in ordered[..limit] && q in MarkAll(ordered[limit..], date)
    ensures x in ordered && q == MarkDeferred(x, date) && Before(a, x)
  {
    var i :| 0 <= i < limit && ordered[i] == a;
    var j :| 0 <= j < |ordered| - limit && q == MarkAll(ordered[limit..], date)[j];
    x := ordered[limit + j];
    assert Before(ordered[i], ordered[limit + j]);
  }

  /** None for a fresh item, else the date of its first deferral. */
  function Turn(x: Item): Option<Date> {
    if x.mark.None? then None else Some(x.mark.value.first)
  }

  function HasTurn(turn: Option<Date>): Item -> bool {
    (x: Item) => Turn(x) == turn
  }

  /** Items that wait equally long are taken in the order in which they were ranked. */
  lemma TiesKeepRanking(included: seq<Item>, turn: Option<Date>)
    ensures Filter(Sort(included, Before), HasTurn(turn)) == Filter(included, HasTurn(turn))
  {
    var same := Filter(included, HasTurn(turn));
    FilterMembers(included, HasTurn(turn));
    forall i, j | 0 <= i < j < |same| ensures Before(same[i], same[j]) {
      assert same[i] in same && same[j] in same;
    }
    FilterSort(included, Before, HasTurn(turn));
    SortInOrder(same);
  }

  // ------------------------------------------------------------ running days

  datatype Output = TitleQuality | Markdown | Document | EventManifest | Queue

  /** One run of the report: `outcome` is what filtering and event preparation left of the merged
      list (None: they raised), `writes` how many file writes happen before the process stops. */
  datatype Day = Day(
    date: Date, limit: int, period: seq<Item>, outcome: Option<seq<Item>>,
    gatePasses: bool, observe: bool, writes: nat)
  {
    /** What is written in front of the queue; in observe mode there is no event manifest. */
    function Outputs(): seq<Output> {
      if observe then [TitleQuality, Markdown, Document] else [TitleQuality, Markdown, Document, EventManifest]
    }

    predicate Completes() {
      outcome.Some? && gatePasses && writes > |Outputs()|
    }
  }

  /** Filtering and preparation may drop, reorder and re-word entries in any way, but produce each
      key at most once and never touch a deferral record.  The material registry carries none. */
  ghost predicate Possible(queue: seq<Item>, day: Day) {
    && (forall x | x in day.period :: x.mark.None?)
    && (day.outcome.Some? ==>
          && DistinctKeys(day.outcome.value)
          && forall x | x in day.outcome.value ::
            exists y | y in Merge(queue, day.period) :: y.key == x.key && y.mark == x.mark)
  }

  function NextQueue(queue: seq<Item>, day: Day): seq<Item> {
    if day.Completes() then SelectDailyBatch(day.outcome.value, day.limit, day.date).deferred else queue
  }

  class DailyReport {
    var queue: seq<Item>
    var written: seq<Output>

    constructor (items: seq<Item>)
      ensures queue == items && written == []
    {
      queue, written := items, [];
    }

    /** The queue file is written last, so a run that raises or dies earlier leaves it as it was. */
    method Run(day: Day) returns (selected: seq<Item>)
      requires Possible(queue, day)
      modifies this
      ensures queue == NextQueue(old(queue), day)
      ensures day.Completes() ==> written == old(written) + day.Outputs() + [Queue]
      ensures !day.Completes() ==> queue == old(queue)
      ensures !day.Completes() ==> old(written) <= written && written[|old(written)|..] <= day.Outputs()
      ensures |written| <= |old(written)| + day.writes
      ensures day.Completes() ==>
        selected == SelectDailyBatch(day.outcome.value, day.limit, day.date).selected
    {
      selected := [];
      if day.outcome.None? {
        return;
      }
      var batch := SelectDailyBatch(day.outcome.value, day.limit, day.date);
      if !day.gatePasses {
        return;
      }
      var plan := [TitleQuality, Markdown, Document];
      if !day.observe {
        plan := plan + [EventManifest];
      }
      var done := 0;
      while done < |plan|
        invariant done <= |plan| && done <= day.writes && plan == day.Outputs()
        invariant written == old(written) + plan[..done] && queue == old(queue)
      {
        if done == day.writes {
          return;
        }
        written := written + [plan[done]];
        done := done + 1;
      }
      assert plan[..done] == plan;
      if done == day.writes {
        return;
      }
      queue, written := batch.deferred, written + [Queue];
      selected := batch.selected;
    }
  }

  ghost predicate PossibleRun(queue: seq<Item>, days: seq<Day>)
    decreases |days|
  {
    days == [] || (Possible(queue, days[0]) && PossibleRun(NextQueue(queue, days[0]), days[1..]))
  }

  function RunDays(queue: seq<Item>, days: seq<Day>): seq<Item>
    decreases |days|
  {
    if days == [] then queue else RunDays(NextQueue(queue, days[0]), days[1..])
  }

  /** How many issues actually came out. */
  function Issues(days: seq<Day>): nat {
    if days == [] then 0 else (if days[0].Completes() then 1 else 0) + Issues(days[1..])
  }

  predicate Old(x: Item, d: Date) {
    x.mark.Some? && x.mark.value.first <= d
  }

  /** Queued keys whose first deferral is not after d. */
  function OldKeys(s: seq<Item>, d: Date): set<string> {
    set x | x in s && Old(x, d) :: x.key
  }

  ghost predicate Waiting(queue: seq<Item>, k: string, d: Date) {
    exists x | x in queue :: x.key == k && x.mark.Some? && x.mark.value.first == d
  }

  /** The rank argument for one day: what is old after the day was old before it, and while the item
      waits a whole batch of old entries leaves the queue. */
  lemma DayShrinks(queue: seq<Item>, day: Day, k: string, d: Date)
    requires Possible(queue, day)
    requires day.date > d && day.limit > 0
    ensures Waiting(NextQueue(queue, day), k, d) ==> Waiting(queue, k, d)
    ensures |OldKeys(NextQueue(queue, day), d)| <= |OldKeys(queue, d)|
    ensures day.Completes() && Waiting(NextQueue(queue, day), k, d) ==>
      |OldKeys(NextQueue(queue, day), d)| + day.limit <= |OldKeys(queue, d)|
  {
    if day.Completes() {
      var included := day.outcome.value;
      SurvivorsAreOld(queue, day, d);
      if |included| <= day.limit {
        assert OldKeys([], d) == {};
        SubsetSize(OldKeys(included, d), OldKeys(queue, d));
      } else {
        BatchShrinks(included, day.limit, day.date, k, d);
        SubsetSize(OldKeys(included, d), OldKeys(queue, d));
        if Waiting(NextQueue(queue, day), k, d) {
          var x := WaitedBefore(included, day.limit, day.date, k, d);
          var y :| y in Merge(queue, day.period) && y.key == k && y.mark == x.mark;
          MarkedFromQueue(queue, day, y);
        }
      }
    }
  }

  lemma WaitedBefore(included: seq<Item>, limit: nat, date: Date, k: string, d: Date) returns (x: Item)
    requires 0 < limit < |included| && date > d
    requires Waiting(SelectDailyBatch(included, limit, date).deferred, k, d)
    ensures x in included && x.key == k && x.mark.Some? && x.mark.value.first == d
  {
    var q :| q in SelectDailyBatch(included, limit, date).deferred && q.key == k && q.mark.Some?
      && q.mark.value.first == d;
    x := PutOffFrom(included, limit, date, q);
  }

  lemma PutOffFrom(included: seq<Item>, limit: nat, date: Date, q: Item) returns (x: Item)
    requires q in SelectDailyBatch(included, limit, date).deferred
    ensures x in included && PutOff(x, q, date)
  {
    var ordered := Sort(included, Before);
    SortPermutes(included, Before);
    var after := MarkAll(ordered[limit..], date);
    var j :| 0 <= j < |after| && q == after[j];
    x := ordered[limit + j];
    assert x in ordered;
  }

  /** An entry that still waits after an issue was in the queue before and has been put off once more, on
      that issue's date; a run that brings out no issue changes nothing. */
  lemma DayCounts(queue: seq<Item>, day: Day, d: Date, q: Item) returns (x: Item)
    requires Possible(queue, day) && day.date > d
    requires q in NextQueue(queue, day) && q.mark.Some? && q.mark.value.first == d
    ensures x in queue && x.key == q.key && x.mark.Some? && x.mark.value.first == d
    ensures q.mark.value.count == x.mark.value.count + if day.Completes() then 1 else 0
    ensures q.mark.value.last == if day.Completes() then day.date else x.mark.value.last
  {
    if day.Completes() {
      var z := PutOffFrom(day.outcome.value, day.limit, day.date, q);
      x :| x in Merge(queue, day.period) && x.key == z.key && x.mark == z.mark;
      MarkedFromQueue(queue, day, x);
    } else {
      x := q;
    }
  }

  /** Over any run, what a waiting entry counts is the issues that came out while it waited. */
  lemma {:induction false} RunCounts(queue: seq<Item>, days: seq<Day>, d: Date, q: Item) returns (x: Item)
    requires PossibleRun(queue, days) && forall day | day in days :: day.date > d
    requires q in RunDays(queue, days) && q.mark.Some? && q.mark.value.first == d
    ensures x in queue && x.key == q.key && x.mark.Some? && x.mark.value.first == d
    ensures q.mark.value.count == x.mark.value.count + Issues(days)
    decreases |days|
  {
    if days == [] {
      x := q;
    } else {
      var day, rest := days[0], days[1..];
      var y := RunCounts(NextQueue(queue, day), rest, d, q);
      x := DayCounts(queue, day, d, y);
    }
  }

  lemma MarkedFromQueue(queue: seq<Item>, day: Day, y: Item)
    requires Possible(queue, day) && y in Merge(queue, day.period) && y.mark.Some?
    ensures y in queue
  {
    MergeKeepsQueue(queue, day.period);
    LastWithMember(queue, y.key);
    LastWithMember(day.period, y.key);
  }

  lemma SurvivorsAreOld(queue: seq<Item>, day: Day, d: Date)
    requires Possible(queue, day) && day.outcome.Some?
    ensures OldKeys(day.outcome.value, d) <= OldKeys(queue, d)
  {
    forall x | x in day.outcome.value && Old(x, d) ensures x.key in OldKeys(queue, d) {
      var y :| y in Merge(queue, day.period) && y.key == x.key && y.mark == x.mark;
      MarkedFromQueue(queue, day, y);
    }
  }

  lemma OnlyOldStaysOld(rest: seq<Item>, date: Date, d: Date)
    requires date > d
    ensures OldKeys(MarkAll(rest, date), d) <= OldKeys(rest, d)
  {
    var after := MarkAll(rest, date);
    forall k | k in OldKeys(after, d) ensures k in OldKeys(rest, d) {
      var q :| q in after && Old(q, d) && q.key == k;
      var j :| 0 <= j < |after| && after[j] == q;
      assert Old(rest[j], d) && rest[j].key == k && rest[j] in rest;
    }
  }

  lemma FrontIsOld(ordered: seq<Item>, limit: nat, d: Date, j: nat)
    requires Sorted(ordered, Before) && limit <= j < |ordered| && Old(ordered[j], d)
    ensures Keys(ordered[..limit]) <= OldKeys(ordered, d)
  {
    forall i | 0 <= i < limit ensures Old(ordered[i], d) {
      assert Before(ordered[i], ordered[j]);
    }
    forall k | k in Keys(ordered[..limit]) ensures k in OldKeys(ordered, d) {
      var x :| x in ordered[..limit] && x.key == k;
      var i :| 0 <= i < limit && ordered[i] == x;
      assert x in ordered && Old(x, d);
    }
  }

  lemma FrontAndRestDiffer(ordered: seq<Item>, limit: nat)
    requires DistinctKeys(ordered) && limit <= |ordered|
    ensures Keys(ordered[..limit]) !! Keys(ordered[limit..])
  {
    forall k | k in Keys(ordered[..limit]) ensures k !in Keys(ordered[limit..]) {
      var x :| x in ordered[..limit] && x.key == k;
      var i :| 0 <= i < limit && ordered[i] == x;
    }
  }

  /** The rank argument on the sorted list alone. */
  lemma SplitShrinks(ordered: seq<Item>, limit: nat, date: Date, k: string, d: Date)
    requires Sorted(ordered, Before) && DistinctKeys(ordered) && 0 < limit < |ordered| && date > d
    ensures var after := MarkAll(ordered[limit..], date);
      && OldKeys(after, d) <= OldKeys(ordered, d)
      && (Waiting(after, k, d) ==> |OldKeys(after, d)| + limit <= |OldKeys(ordered, d)|)
  {
    var rest := ordered[limit..];
    var after := MarkAll(rest, date);
    OnlyOldStaysOld(rest, date, d);
    assert OldKeys(rest, d) <= OldKeys(ordered, d) && OldKeys(rest, d) <= Keys(rest);
    if Waiting(after, k, d) {
      var q :| q in after && q.key == k && q.mark.Some? && q.mark.value.first == d;
      var j :| 0 <= j < |after| && after[j] == q;
      FrontIsOld(ordered, limit, d, limit + j);
      FrontAndRestDiffer(ordered, limit);
      KeysSize(ordered[..limit]);
      DisjointSize(Keys(ordered[..limit]), OldKeys(after, d), OldKeys(ordered, d));
    }
  }

  lemma BatchShrinks(included: seq<Item>, limit: nat, date: Date, k: string, d: Date)
    requires DistinctKeys(included) && 0 < limit < |included| && date > d
    ensures var after := SelectDailyBatch(included, limit, date).deferred;
      && |OldKeys(after, d)| <= |OldKeys(included, d)|
      && (Waiting(after, k, d) ==> |OldKeys(after, d)| + limit <= |OldKeys(included, d)|)
  {
    var ordered := Sort(included, Before);
    SortPermutes(included, Before);
    SortSorts(included, Before);
    SortKeepsDistinctKeys(included);
    SplitShrinks(ordered, limit, date, k, d);
    assert OldKeys(ordered, d) == OldKeys(included, d);
    SubsetSize(OldKeys(MarkAll(ordered[limit..], date), d), OldKeys(included, d));
  }

  lemma SortKeepsDistinctKeys(s: seq<Item>)
    requires DistinctKeys(s)
    ensures DistinctKeys(Sort(s, Before))
  {
    var t := Sort(s, Before);
    SortPermutes(s, Before);
    SortDistinct(s, Before);
    forall i, j | 0 <= i < j < |t| ensures t[i].key != t[j].key {
      assert t[i] in s && t[j] in s && t[i] != t[j];
    }
  }

  lemma {:induction false} KeysSize(s: seq<Item>)
    requires DistinctKeys(s)
    ensures |Keys(s)| == |s|
  {
    if s != [] {
      KeysSize(s[1..]);
      assert s == [s[0]] + s[1..];
      assert Keys(s) == {s[0].key} + Keys(s[1..]);
      assert s[0].key !in Keys(s[1..]);
    }
  }

  /** Total capacity of the issues that came out. */
  function Slots(days: seq<Day>): int {
    if days == [] then 0 else (if days[0].Completes() then days[0].limit else 0) + Slots(days[1..])
  }

  lemma {:induction false} RunShrinks(queue: seq<Item>, days: seq<Day>, k: string, d: Date)
    requires PossibleRun(queue, days)
    requires forall day | day in days :: day.date > d && day.limit > 0
    requires Waiting(RunDays(queue, days), k, d)
    ensures Waiting(queue, k, d)
    ensures |OldKeys(RunDays(queue, days), d)| + Slots(days) <= |OldKeys(queue, d)|
    decreases |days|
  {
    if days != [] {
      var first, rest := days[0], days[1..];
      RunShrinks(NextQueue(queue, first), rest, k, d);
      DayShrinks(queue, first, k, d);
    }
  }

  lemma {:induction false} SlotsOfEqualLimits(days: seq<Day>, limit: nat)
    requires forall day | day in days :: day.limit == limit
    ensures Slots(days) == Issues(days) * limit
  {
    if days != [] {
      SlotsOfEqualLimits(days[1..], limit);
      var n := Issues(days[1..]);
      assert (1 + n) * limit == limit + n * limit;
    }
  }

  /** Bounded wait.  Whatever arrives and whatever is dropped, an entry first deferred on day d with
      N entries not younger than itself is out of the queue after ceil(N / limit) issues, provided
      only that those issues are dated after d. */
  lemma BoundedWait(queue: seq<Item>, days: seq<Day>, k: string, d: Date, limit: nat)
    requires PossibleRun(queue, days) && limit > 0
    requires forall day | day in days :: day.date > d && day.limit == limit
    requires Issues(days) >= (|OldKeys(queue, d)| + limit - 1) / limit
    ensures !Waiting(RunDays(queue, days), k, d)
  {
    if Waiting(RunDays(queue, days), k, d) {
      RunShrinks(queue, days, k, d);
      SlotsOfEqualLimits(days, limit);
      var end := RunDays(queue, days);
      var x :| x in end && x.key == k && x.mark.Some? && x.mark.value.first == d;
      assert k in OldKeys(end, d);
      var n := |OldKeys(queue, d)|;
      CeilingCovers(n, limit, Issues(days));
    }
  }

  lemma CeilingCovers(n: nat, limit: nat, issues: nat)
    requires limit > 0 && issues >= (n + limit - 1) / limit
    ensures issues * limit >= n
  {
    var c := (n + limit - 1) / limit;
    assert c * limit >= n;
    assert issues * limit >= c * limit;
  }

  /** An entry leaves the queue in one of two ways only: it is published, or it did not survive. */
  lemma LeavesPublishedOrDropped(queue: seq<Item>, day: Day, k: string, d: Date)
    requires Possible(queue, day) && day.Completes() && day.date > d > 0
    requires Waiting(queue, k, d) && !Waiting(NextQueue(queue, day), k, d)
    ensures
      || (exists x | x in SelectDailyBatch(day.outcome.value, day.limit, day.date).selected :: x.key == k)
      || !Waiting(day.outcome.value, k, d)
  {
    var included := day.outcome.value;
    if Waiting(included, k, d) {
      var x :| x in included && x.key == k && x.mark.Some? && x.mark.value.first == d;
      if 0 < day.limit < |included| {
        SelectedOrQueued(included, day.limit, day.date, x);
        if x !in SelectDailyBatch(included, day.limit, day.date).selected {
          assert false;
        }
      }
    }
  }

  lemma SelectedOrQueued(included: seq<Item>, limit: nat, date: Date, x: Item)
    requires 0 < limit < |included| && x in included
    ensures var b := SelectDailyBatch(included, limit, date);
      x in b.selected || MarkDeferred(x, date) in b.deferred
  {
    var ordered := Sort(included, Before);
    SortPermutes(included, Before);
    var i :| 0 <= i < |ordered| && ordered[i] == x;
    if i < limit {
      assert ordered[..limit][i] == x;
    } else {
      assert MarkAll(ordered[limit..], date)[i - limit] == MarkDeferred(x, date);
    }
  }

  // ------------------------------------------------- when the issue date repeats

  /** n entries first deferred on day d, k among them, and ceil(n / limit) issues dated d itself. */
  ghost predicate SameDateRun(queue: seq<Item>, days: seq<Day>, k: string, d: Date, limit: nat, n: nat)
    requires limit > 0
  {
    && DistinctKeys(queue) && |OldKeys(queue, d)| == n && Waiting(queue, k, d) && PossibleRun(queue, days)
    && (forall day | day in days :: day.date == d && day.limit == limit)
    && Issues(days) == (n + limit - 1) / limit
  }

  ghost predicate SameDateBound(d: Date, limit: nat, n: nat)
    requires limit > 0
  {
    forall queue, days, k | SameDateRun(queue, days, k, d, limit, n) :: !Waiting(RunDays(queue, days), k, d)
  }

  /** On repeated dates the bound holds exactly for what one issue can take: beyond one issue's capacity
      a newcomer deferred on the same day can be ranked ahead, for every date, cap and queue size. */
  lemma SameDateBoundIff(d: Date, limit: nat, n: nat)
    requires d > 0 && limit > 0
    ensures SameDateBound(d, limit, n) <==> n <= limit
  {
    if n <= limit {
      forall queue, days, k | SameDateRun(queue, days, k, d, limit, n)
        ensures !Waiting(RunDays(queue, days), k, d)
      {
        OneIssueIsEnough(queue, days, k, d, limit, n);
      }
    } else {
      var queue, days, k := SameDateOvertakes(d, limit, n);
    }
  }

  lemma OneIssueIsEnough(queue: seq<Item>, days: seq<Day>, k: string, d: Date, limit: nat, n: nat)
    requires 0 < limit && n <= limit && SameDateRun(queue, days, k, d, limit, n)
    ensures !Waiting(RunDays(queue, days), k, d)
  {
    WaitingIsOld(queue, k, d);
    CeilingIsOne(n, limit);
    OneIssueSuffices(queue, days, k, d, limit);
  }

  lemma CeilingIsOne(n: nat, limit: nat)
    requires 0 < n <= limit
    ensures (n + limit - 1) / limit == 1
  {
  }

  lemma WaitingIsOld(queue: seq<Item>, k: string, d: Date)
    requires Waiting(queue, k, d)
    ensures k in OldKeys(queue, d) && |OldKeys(queue, d)| > 0
  {
    var x :| x in queue && x.key == k && x.mark.Some? && x.mark.value.first == d;
    assert Old(x, d);
  }

  /** One issue takes every old entry there is room for, whatever its date. */
  lemma AllOldTaken(included: seq<Item>, limit: nat, date: Date, k: string, d: Date)
    requires DistinctKeys(included) && limit > 0 && |OldKeys(included, d)| <= limit
    requires forall x | x in included && x.key == k :: Old(x, d)
    ensures k !in Keys(SelectDailyBatch(included, limit, date).deferred)
  {
    if limit < |included| {
      var ordered := Sort(included, Before);
      SortPermutes(included, Before);
      SortSorts(included, Before);
      SortKeepsDistinctKeys(included);
      assert OldKeys(ordered, d) == OldKeys(included, d);
      NotBehind(ordered, limit, date, k, d);
    }
  }

  lemma NotBehind(ordered: seq<Item>, limit: nat, date: Date, k: string, d: Date)
    requires Sorted(ordered, Before) && DistinctKeys(ordered) && limit <= |ordered| && |OldKeys(ordered, d)| <= limit
    requires forall x | x in ordered && x.key == k :: Old(x, d)
    ensures k !in Keys(MarkAll(ordered[limit..], date))
  {
    forall j | limit <= j < |ordered| ensures ordered[j].key != k {
      assert ordered[j] in ordered;
      if ordered[j].key == k {
        TooManyOld(ordered, limit, d, j);
      }
    }
  }

  lemma TooManyOld(ordered: seq<Item>, limit: nat, d: Date, j: nat)
    requires Sorted(ordered, Before) && DistinctKeys(ordered) && limit <= j < |ordered| && Old(ordered[j], d)
    ensures |OldKeys(ordered, d)| > limit
  {
    var front := ordered[..limit];
    FrontIsOld(ordered, limit, d, j);
    KeysSize(front);
    assert ordered[j].key in OldKeys(ordered, d);
    assert forall i | 0 <= i < limit :: front[i].key != ordered[j].key;
    assert ordered[j].key !in Keys(front);
    DisjointSize(Keys(front), {ordered[j].key}, OldKeys(ordered, d));
  }

  lemma {:induction false} OneIssueSuffices(queue: seq<Item>, days: seq<Day>, k: string, d: Date, limit: nat)
    requires DistinctKeys(queue) && |OldKeys(queue, d)| <= limit && limit > 0 && Waiting(queue, k, d)
    requires PossibleRun(queue, days) && (forall day | day in days :: day.limit == limit) && Issues(days) == 1
    ensures !Waiting(RunDays(queue, days), k, d)
    decreases |days|
  {
    var day, rest := days[0], days[1..];
    if day.Completes() {
      OneIssueTakes(queue, day, k, d);
      NoIssueNoChange(NextQueue(queue, day), rest);
    } else {
      OneIssueSuffices(queue, rest, k, d, limit);
    }
  }

  lemma OneIssueTakes(queue: seq<Item>, day: Day, k: string, d: Date)
    requires DistinctKeys(queue) && |OldKeys(queue, d)| <= day.limit && day.limit > 0 && Waiting(queue, k, d)
    requires Possible(queue, day) && day.Completes()
    ensures !Waiting(NextQueue(queue, day), k, d)
  {
    var included := day.outcome.value;
    SurvivorsAreOld(queue, day, d);
    SubsetSize(OldKeys(included, d), OldKeys(queue, d));
    forall x | x in included && x.key == k ensures Old(x, d) {
      var y :| y in Merge(queue, day.period) && y.key == x.key && y.mark == x.mark;
      QueuedCopy(queue, day.period, y, k, d);
    }
    AllOldTaken(included, day.limit, day.date, k, d);
  }

  /** The merged entry of a waiting key is the queue's. */
  lemma QueuedCopy(queue: seq<Item>, period: seq<Item>, y: Item, k: string, d: Date)
    requires DistinctKeys(queue) && Waiting(queue, k, d) && y in Merge(queue, period) && y.key == k
    ensures Old(y, d)
  {
    var x :| x in queue && x.key == k && x.mark.Some? && x.mark.value.first == d;
    MergeKeepsQueue(queue, period);
    LastWithMember(queue, k);
    assert y in queue && y.key == x.key;
    var i :| 0 <= i < |queue| && queue[i] == x;
    var j :| 0 <= j < |queue| && queue[j] == y;
    assert i == j;
  }

  lemma {:induction false} NoIssueNoChange(queue: seq<Item>, days: seq<Day>)
    requires Issues(days) == 0
    ensures RunDays(queue, days) == queue
    decreases |days|
  {
    if days != [] {
      NoIssueNoChange(queue, days[1..]);
    }
  }

  /** One completed run whose included list arrives already in order. */
  lemma OneIssue(queue: seq<Item>, period: seq<Item>, included: seq<Item>, date: Date, limit: nat) returns (day: Day)
    requires DistinctKeys(queue) && DistinctKeys(period) && Keys(queue) !! Keys(period)
    requires forall x | x in period :: x.mark.None?
    requires DistinctKeys(included) && forall x | x in included :: x in queue || x in period
    requires Sorted(included, Before) && |included| > limit > 0
    ensures day.date == date && day.limit == limit && day.Completes() && Possible(queue, day)
    ensures NextQueue(queue, day) == MarkAll(included[limit..], date)
  {
    day := Day(date, limit, period, Some(included), true, true, 4);
    assert |day.Outputs()| == 3;
    SortInOrder(included);
    forall x | x in included ensures x in Merge(queue, period) {
      EveryKeyMerged(queue, period, x);
    }
  }

  /** All of this queue has the same turn. */
  predicate AllFrom(queue: seq<Item>, d: Date) {
    forall i | 0 <= i < |queue| :: queue[i].mark.Some? && queue[i].mark.value.first == d
  }

  lemma MarkedAgain(rest: seq<Item>, d: Date)
    requires DistinctKeys(rest) && d > 0
    requires forall i | 0 <= i < |rest| :: rest[i].mark.None? || rest[i].mark.value.first == d
    ensures AllFrom(MarkAll(rest, d), d) && DistinctKeys(MarkAll(rest, d)) && |MarkAll(rest, d)| == |rest|
  {
  }

  function KeyAt(i: nat): (r: string)
    ensures |r| == i
  {
    seq(i, _ => 'k')
  }

  function Entries(from: nat, n: nat, mark: Option<Mark>): seq<Item> {
    seq(n, i requires 0 <= i < n => Item(KeyAt(from + i), mark, 0))
  }

  lemma EntriesDiffer(from: nat, n: nat, mark: Option<Mark>)
    ensures DistinctKeys(Entries(from, n, mark))
    ensures forall k | k in Keys(Entries(from, n, mark)) :: from <= |k| < from + n
  {
    var es := Entries(from, n, mark);
    forall i | 0 <= i < n ensures |es[i].key| == from + i {
      assert es[i].key == KeyAt(from + i);
    }
    forall k | k in Keys(es) ensures from <= |k| < from + n {
      var x :| x in es && x.key == k;
      var i :| 0 <= i < |es| && es[i] == x;
    }
  }

  /** The last of the first day's entries behind as many newcomers as one issue takes. */
  lemma FirstSameDay(queue: seq<Item>, news: seq<Item>, d: Date, limit: nat) returns (day: Day, left: seq<Item>)
    requires DistinctKeys(queue) && AllFrom(queue, d) && d > 0 && |queue| > limit > 0
    requires DistinctKeys(news) && Keys(queue) !! Keys(news) && forall x | x in news :: x.mark.None?
    ensures day.date == d && day.limit == limit && day.Completes() && Possible(queue, day)
    ensures left == queue[limit..] + news && NextQueue(queue, day) == MarkAll(left, d)
    ensures DistinctKeys(left) && forall i | 0 <= i < |left| :: left[i].mark.None? || left[i].mark.value.first == d
  {
    var included := NewsBehind(queue, news, d);
    day := OneIssue(queue, news, included, d, limit);
    left := queue[limit..] + news;
    assert included[limit..] == left;
    assert forall i | 0 <= i < |left| :: left[i] == included[limit + i];
  }

  /** Queued entries first, newcomers behind them: that is the selection's order already. */
  lemma NewsBehind(queue: seq<Item>, news: seq<Item>, d: Date) returns (included: seq<Item>)
    requires DistinctKeys(queue) && AllFrom(queue, d)
    requires DistinctKeys(news) && Keys(queue) !! Keys(news) && forall x | x in news :: x.mark.None?
    ensures included == queue + news && DistinctKeys(included) && Sorted(included, Before)
    ensures forall x | x in included :: x in queue || x in news
    ensures forall i | 0 <= i < |included| :: included[i].mark.None? || included[i].mark.value.first == d
  {
    included := queue + news;
    var q := |queue|;
    forall i | q <= i < |included| ensures included[i].mark.None? && included[i].key in Keys(news) {
      assert included[i] == news[i - q] && news[i - q] in news;
    }
    forall i | 0 <= i < q ensures included[i].key in Keys(queue) {
      assert queue[i] in queue;
    }
    forall i, j | 0 <= i < j < |included| ensures included[i].key != included[j].key {
      if q <= i {
        assert included[i] == news[i - q] && included[j] == news[j - q];
      }
    }
  }

  /** The same entries with one of them ranked last. */
  lemma RankedLast(queue: seq<Item>, last: nat, d: Date) returns (ranked: seq<Item>)
    requires DistinctKeys(queue) && AllFrom(queue, d) && last < |queue|
    ensures DistinctKeys(ranked) && AllFrom(ranked, d) && |ranked| == |queue|
    ensures forall x | x in ranked :: x in queue
    ensures ranked[|ranked| - 1] == queue[last]
  {
    ranked := queue[..last] + queue[last + 1..] + [queue[last]];
    assert forall i | 0 <= i < last :: ranked[i] == queue[i];
    assert forall i | last <= i < |queue| - 1 :: ranked[i] == queue[i + 1];
    assert ranked[|queue| - 1] == queue[last];
  }

  lemma SameTurnSorted(queue: seq<Item>, d: Date)
    requires AllFrom(queue, d)
    ensures Sorted(queue, Before)
  {
  }

  /** One issue that takes other entries of the same day than this one. */
  lemma PassedOver(queue: seq<Item>, last: nat, d: Date, limit: nat) returns (day: Day, tail: seq<Item>)
    requires DistinctKeys(queue) && AllFrom(queue, d) && last < |queue| && |queue| > limit > 0
    ensures day.date == d && day.limit == limit && day.Completes() && Possible(queue, day)
    ensures NextQueue(queue, day) == MarkAll(tail, d) && |tail| == |queue| - limit
    ensures DistinctKeys(tail) && AllFrom(tail, d) && tail[|tail| - 1] == queue[last]
  {
    var ranked := RankedLast(queue, last, d);
    SameTurnSorted(ranked, d);
    assert DistinctKeys([]) && Keys([]) == {};
    day := OneIssue(queue, [], ranked, d, limit);
    tail := ranked[limit..];
    assert forall i | 0 <= i < |tail| :: tail[i] == ranked[limit + i];
  }

  /** The newcomers are ranked first from the second day on. */
  lemma {:induction false} SecondOnwards(left: seq<Item>, last: nat, d: Date, limit: nat, r: nat)
    returns (days: seq<Day>)
    requires DistinctKeys(left) && d > 0 && limit > 0 && last < |left| && |left| > r * limit
    requires forall i | 0 <= i < |left| :: left[i].mark.None? || left[i].mark.value.first == d
    ensures PossibleRun(MarkAll(left, d), days) && Issues(days) == r
    ensures forall day | day in days :: day.date == d && day.limit == limit
    ensures Waiting(RunDays(MarkAll(left, d), days), left[last].key, d)
    decreases r
  {
    MarkedAgain(left, d);
    var queue := MarkAll(left, d);
    if r == 0 {
      days := [];
      assert queue[last] in queue;
    } else {
      var fewer := r - 1;
      assert r * limit == fewer * limit + limit;
      var day, tail := PassedOver(queue, last, d, limit);
      var end := |tail| - 1;
      var rest := SecondOnwards(tail, end, d, limit, fewer);
      days := [day] + rest;
      DayThenRest(queue, day, rest);
    }
  }

  lemma DayThenRest(queue: seq<Item>, day: Day, rest: seq<Day>)
    requires Possible(queue, day) && PossibleRun(NextQueue(queue, day), rest)
    ensures PossibleRun(queue, [day] + rest) && RunDays(queue, [day] + rest) == RunDays(NextQueue(queue, day), rest)
    ensures Issues([day] + rest) == Issues(rest) + if day.Completes() then 1 else 0
  {
    assert ([day] + rest)[1..] == rest;
  }

  lemma CeilingBelow(n: nat, limit: nat)
    requires 0 < limit < n
    ensures (n + limit - 1) / limit >= 2 && ((n + limit - 1) / limit - 1) * limit < n
  {
    var c := (n + limit - 1) / limit;
    assert c * limit <= n + limit - 1;
    assert (c - 1) * limit == c * limit - limit;
  }

  /** For every date, cap and larger queue: n entries of day d, ceil(n / limit) issues dated d, and one of
      the entries waits all the same. */
  lemma SameDateOvertakes(d: Date, limit: nat, n: nat) returns (queue: seq<Item>, days: seq<Day>, k: string)
    requires d > 0 && 0 < limit < n
    ensures SameDateRun(queue, days, k, d, limit, n) && Waiting(RunDays(queue, days), k, d)
  {
    var news;
    queue, news := QueueAndNews(d, limit, n);
    var day, left := FirstSameDay(queue, news, d, limit);
    CeilingBelow(n, limit);
    var c := (n + limit - 1) / limit;
    k := queue[n - 1].key;
    var last := n - 1 - limit;
    assert left[last] == queue[n - 1];
    var rest := SecondOnwards(left, last, d, limit, c - 1);
    days := [day] + rest;
    DayThenRest(queue, day, rest);
    EntriesAreOld(queue, d);
    assert queue[n - 1] in queue;
  }

  lemma QueueAndNews(d: Date, limit: nat, n: nat) returns (queue: seq<Item>, news: seq<Item>)
    ensures DistinctKeys(queue) && AllFrom(queue, d) && |queue| == n && |news| == limit
    ensures DistinctKeys(news) && Keys(queue) !! Keys(news) && forall x | x in news :: x.mark.None?
  {
    var mark := Some(Mark(d, d, 1));
    queue, news := Entries(0, n, mark), Entries(n, limit, None);
    EntriesDiffer(0, n, mark);
    EntriesDiffer(n, limit, None);
  }

  lemma EntriesAreOld(queue: seq<Item>, d: Date)
    requires DistinctKeys(queue) && AllFrom(queue, d)
    ensures |OldKeys(queue, d)| == |queue|
  {
    KeysSize(queue);
    assert OldKeys(queue, d) == Keys(queue);
  }

  lemma {:induction false} SortInOrder(s: seq<Item>)
    requires Sorted(s, Before)
    ensures Sort(s, Before) == s
  {
    if s != [] {
      SortInOrder(s[1..]);
      assert s == [s[0]] + s[1..];
    }
  }

  lemma EveryKeyMerged(queue: seq<Item>, period: seq<Item>, z: Item)
    requires DistinctKeys(queue) && DistinctKeys(period) && Keys(queue) !! Keys(period)
    requires z in queue || z in period
    ensures z in Merge(queue, period)
  {
    MergeKeepsQueue(queue, period);
    assert z.key in Keys(Merge(queue, period));
    var w :| w in Merge(queue, period) && w.key == z.key;
    LastWithMember(queue, z.key);
    LastWithMember(period, z.key);
  }
}
