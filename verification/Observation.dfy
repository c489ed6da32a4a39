/** Pair checking. */
module Observation {
  // Duplicate hypotheses over a published issue: choosing candidate pairs, and checking them in batches
  // against a model with a per-attempt call budget and a durable cache.

  import opened Wrappers
  import opened Ordering
  import opened Sets

  /** One card of one issue. */
  datatype Ref = Ref(date: nat, id: string)

  /** The card as published; the digest of its text is injective, so the text itself stands for it. */
  datatype Shown = Shown(ref: Ref, content: int)

  /** The pair id is a digest of both card digests: the pair itself. */
  datatype Pair = Pair(left: Shown, right: Shown)

  // -------------------------------------------------------- candidate pairs

  /** Positions in current + history. */
  datatype Ix = Ix(i: nat, j: nat)

  /** The TF-IDF score, the number of shared named entities, and the 0.12 score threshold. */
  datatype Scorer = Scorer(score: Ix -> int, shared: Ix -> nat, strong: Ix -> bool)
  {
    /** Ranking of one card's historical partners: shared entities, then score, then position. */
    predicate PartnerBefore(a: Ix, b: Ix) {
      if shared(a) != shared(b) then shared(a) > shared(b)
      else if score(a) != score(b) then score(a) > score(b)
      else a.j <= b.j
    }

    /** Order of the whole candidate list. */
    predicate ListBefore(a: Ix, b: Ix) {
      if score(a) != score(b) then score(a) > score(b)
      else if a.i != b.i then a.i < b.i
      else a.j <= b.j
    }

    predicate Keep(x: Ix) {
      strong(x) || shared(x) > 0
    }
  }

  const PARTNERS_PER_CARD := 5

  function Row(i: nat, from: nat, to: nat): seq<Ix> {
    seq(if from < to then to - from else 0, k requires k >= 0 => Ix(i, from + k))
  }

  function Combos(n: nat, upto: nat): seq<Ix> {
    if upto == 0 then [] else Combos(n, upto - 1) + Row(upto - 1, upto, n)
  }

  function Ranked(i: nat, n: nat, m: nat, sc: Scorer): seq<Ix> {
    Sort(Row(i, n, n + m), (a, b) => sc.PartnerBefore(a, b))
  }

  function Picked(i: nat, n: nat, m: nat, sc: Scorer): seq<Ix> {
    Filter(Take(Ranked(i, n, m, sc), PARTNERS_PER_CARD), x => sc.Keep(x))
  }

  function AllPicked(upto: nat, n: nat, m: nat, sc: Scorer): seq<Ix> {
    if upto == 0 then [] else AllPicked(upto - 1, n, m, sc) + Picked(upto - 1, n, m, sc)
  }

  function Selected(n: nat, m: nat, sc: Scorer): seq<Ix> {
    Combos(n, n) + AllPicked(n, n, m, sc)
  }

  function Candidates(n: nat, m: nat, sc: Scorer): seq<Ix> {
    Sort(Selected(n, m, sc), (a, b) => sc.ListBefore(a, b))
  }

  method CandidatePairs(current: seq<Shown>, history: seq<Shown>, sc: Scorer) returns (pairs: seq<Pair>)
    ensures forall x | x in Candidates(|current|, |history|, sc) :: x.i < |current| && x.j < |current| + |history|
    ensures pairs == PairsAt(current + history, Candidates(|current|, |history|, sc))
  {
    var n, m := |current|, |history|;
    var selected := [];
    for i := 0 to n
      invariant selected == Combos(n, i)
    {
      for j := i + 1 to n
        invariant selected == Combos(n, i) + Row(i, i + 1, j)
      {
        selected := selected + [Ix(i, j)];
        assert Row(i, i + 1, j) + [Ix(i, j)] == Row(i, i + 1, j + 1);
      }
      assert n <= i + 1 ==> Row(i, i + 1, n) == [];
    }
    for i := 0 to n
      invariant selected == Combos(n, n) + AllPicked(i, n, m, sc)
    {
      selected := selected + Picked(i, n, m, sc);
      assert Combos(n, n) + AllPicked(i, n, m, sc) + Picked(i, n, m, sc)
          == Combos(n, n) + (AllPicked(i, n, m, sc) + Picked(i, n, m, sc));
    }
    CandidateMembers(n, m, sc);
    var order := Sort(selected, (a, b) => sc.ListBefore(a, b));
    pairs := [];
    for k := 0 to |order|
      invariant pairs == PairsAt(current + history, order[..k])
    {
      assert order[k] in order;
      pairs := pairs + [Pair((current + history)[order[k].i], (current + history)[order[k].j])];
      assert order[..k + 1] == order[..k] + [order[k]];
    }
    assert order[..|order|] == order;
  }

  function PairsAt(docs: seq<Shown>, xs: seq<Ix>): seq<Pair>
    requires forall x | x in xs :: x.i < |docs| && x.j < |docs|
  {
    seq(|xs|, k requires 0 <= k < |xs| => assert xs[k] in xs; Pair(docs[xs[k].i], docs[xs[k].j]))
  }

  lemma {:induction false} CombosMembers(n: nat, upto: nat)
    requires upto <= n
    ensures forall x :: x in Combos(n, upto) <==> x.i < upto && x.i < x.j < n
    ensures Distinct(Combos(n, upto))
    ensures 2 * |Combos(n, upto)| == upto * (2 * n - upto - 1)
  {
    if upto > 0 {
      CombosMembers(n, upto - 1);
      var row := Row(upto - 1, upto, n);
      forall x ensures x in row <==> x.i == upto - 1 && upto <= x.j < n {
        if x.i == upto - 1 && upto <= x.j < n {
          assert row[x.j - upto] == x;
        }
      }
      DistinctConcat(Combos(n, upto - 1), row);
      Triangle(n, upto);
    }
  }

  lemma Triangle(n: nat, u: nat)
    requires u > 0
    ensures (u - 1) * (2 * n - (u - 1) - 1) + 2 * (n - u) == u * (2 * n - u - 1)
  {
  }

  lemma RankedMembers(i: nat, n: nat, m: nat, sc: Scorer)
    ensures forall x :: x in Ranked(i, n, m, sc) <==> x.i == i && n <= x.j < n + m
    ensures Distinct(Ranked(i, n, m, sc)) && |Ranked(i, n, m, sc)| == m
  {
    var row := Row(i, n, n + m);
    var le := (a, b) => sc.PartnerBefore(a, b);
    SortPermutes(row, le);
    SortDistinct(row, le);
    forall x ensures x in row <==> x.i == i && n <= x.j < n + m {
      if x.i == i && n <= x.j < n + m {
        assert row[x.j - n] == x;
      }
    }
  }

  lemma PickedMembers(i: nat, n: nat, m: nat, sc: Scorer)
    ensures forall x | x in Picked(i, n, m, sc) :: x.i == i && n <= x.j < n + m && sc.Keep(x)
    ensures Distinct(Picked(i, n, m, sc)) && |Picked(i, n, m, sc)| <= PARTNERS_PER_CARD
  {
    var ranked := Ranked(i, n, m, sc);
    var top := Take(ranked, PARTNERS_PER_CARD);
    RankedMembers(i, n, m, sc);
    FilterMembers(top, (x: Ix) => sc.Keep(x));
    FilterDistinct(top, (x: Ix) => sc.Keep(x));
    forall x | x in top ensures x in ranked {
    }
  }

  lemma {:induction false} AllPickedMembers(upto: nat, n: nat, m: nat, sc: Scorer)
    ensures forall x | x in AllPicked(upto, n, m, sc) :: x.i < upto && n <= x.j < n + m && sc.Keep(x)
    ensures Distinct(AllPicked(upto, n, m, sc)) && |AllPicked(upto, n, m, sc)| <= PARTNERS_PER_CARD * upto
  {
    if upto > 0 {
      var last := upto - 1;
      var before, here := AllPicked(last, n, m, sc), Picked(last, n, m, sc);
      AllPickedMembers(last, n, m, sc);
      PickedMembers(last, n, m, sc);
      assert forall x | x in here :: x !in before;
      DistinctConcat(before, here);
    }
  }

  lemma SelectedMembers(n: nat, m: nat, sc: Scorer)
    ensures forall x | x in Selected(n, m, sc) :: x.i < n && x.i < x.j < n + m && (x.j >= n ==> sc.Keep(x))
    ensures forall x: Ix | x.i < x.j < n :: x in Selected(n, m, sc)
    ensures Distinct(Selected(n, m, sc))
  {
    CombosMembers(n, n);
    AllPickedMembers(n, n, m, sc);
    DistinctConcat(Combos(n, n), AllPicked(n, n, m, sc));
    forall x: Ix | x.i < x.j < n ensures x in Selected(n, m, sc) {
      assert x in Combos(n, n);
    }
  }

  lemma SelectedSize(n: nat, m: nat, sc: Scorer)
    ensures 2 * |Selected(n, m, sc)| <= n * (n - 1) + 2 * PARTNERS_PER_CARD * n
  {
    CombosMembers(n, n);
    AllPickedMembers(n, n, m, sc);
  }

  /** Every in-issue pair is a candidate exactly once, every other candidate pairs a current card with
      a historical one, and there are at most n(n-1)/2 + 5n of them. */
  lemma CandidateMembers(n: nat, m: nat, sc: Scorer)
    ensures forall x | x in Candidates(n, m, sc) ::
      x.i < n && x.i < x.j < n + m && (x.j >= n ==> sc.strong(x) || sc.shared(x) > 0)
    ensures forall x: Ix | x.i < x.j < n :: x in Candidates(n, m, sc)
    ensures Distinct(Candidates(n, m, sc))
    ensures 2 * |Candidates(n, m, sc)| <= n * (n - 1) + 2 * PARTNERS_PER_CARD * n
  {
    var le := (a, b) => sc.ListBefore(a, b);
    SelectedMembers(n, m, sc);
    SelectedSize(n, m, sc);
    SortPermutes(Selected(n, m, sc), le);
    SortDistinct(Selected(n, m, sc), le);
  }

  /** The list runs from the highest score down, ties by position. */
  lemma CandidatesRanked(n: nat, m: nat, sc: Scorer, k: nat, l: nat)
    requires k < l < |Candidates(n, m, sc)|
    ensures var a, b := Candidates(n, m, sc)[k], Candidates(n, m, sc)[l];
      && sc.score(a) >= sc.score(b)
      && (sc.score(a) == sc.score(b) ==> a.i <= b.i && (a.i == b.i ==> a.j <= b.j))
  {
    var le := (a: Ix, b: Ix) => sc.ListBefore(a, b);
    SortSorts(Selected(n, m, sc), le);
    assert le(Candidates(n, m, sc)[k], Candidates(n, m, sc)[l]);
  }

  /** A historical partner worth keeping is passed over only for five that rank no worse. */
  lemma BestPartnersKept(i: nat, n: nat, m: nat, sc: Scorer, x: Ix)
    requires x.i == i && n <= x.j < n + m && (sc.strong(x) || sc.shared(x) >= 1) && x !in Picked(i, n, m, sc)
    ensures m > PARTNERS_PER_CARD
    ensures |Take(Ranked(i, n, m, sc), PARTNERS_PER_CARD)| == 5
    ensures forall y | y in Take(Ranked(i, n, m, sc), PARTNERS_PER_CARD) ::
      && y.i == i && n <= y.j < n + m && sc.shared(y) >= sc.shared(x)
      && (sc.shared(y) == sc.shared(x) ==>
            sc.score(y) >= sc.score(x) && (sc.score(y) == sc.score(x) ==> y.j <= x.j))
  {
    var ranked := Ranked(i, n, m, sc);
    var le := (a: Ix, b: Ix) => sc.PartnerBefore(a, b);
    RankedMembers(i, n, m, sc);
    FilterMembers(Take(ranked, PARTNERS_PER_CARD), (y: Ix) => sc.Keep(y));
    assert x in ranked && x !in Take(ranked, PARTNERS_PER_CARD);
    SortSorts(Row(i, n, n + m), le);
    var k :| 0 <= k < |ranked| && ranked[k] == x;
    assert ranked[k] !in Take(ranked, PARTNERS_PER_CARD);
    assert k >= PARTNERS_PER_CARD;
    forall y | y in Take(ranked, PARTNERS_PER_CARD) ensures y in ranked && sc.PartnerBefore(y, x) {
      var q :| 0 <= q < PARTNERS_PER_CARD && ranked[q] == y;
      assert le(ranked[q], ranked[k]);
    }
  }

  // ------------------------------------------------------- checking in batches

  const MAX_PAIRS := 100
  const BATCH_SIZE := 6
  const MAX_CALLS := 10
  /** The report format's own caps on pairs and on encoded bytes. */
  const REPORT_PAIRS := 100
  const REPORT_BYTES := 2 * 1024 * 1024

  datatype Prediction = Prediction(pair: Pair, wellFormed: bool, verbatim: bool)

  datatype Response = Malformed | Predictions(items: seq<Prediction>)

  /** What happens at batch k of one attempt: the model's reply (None: it raised), whether the time
      limit has passed, whether the cache write succeeds.  And what the report format makes of the cards:
      whether a card's texts keep its limits, and how long a report on these pairs gets. */
  datatype World = World(
    reply: nat -> Option<Response>, expired: nat -> bool, stored: nat -> bool,
    texts: Shown -> bool, bytes: seq<Pair> -> nat)
  {
    predicate Takes(pairs: seq<Pair>) {
      bytes(pairs) <= REPORT_BYTES && forall p | p in pairs :: texts(p.left) && texts(p.right)
    }
  }

  type Cache = map<seq<Pair>, Response>

  function FirstFor(items: seq<Prediction>, p: Pair): Option<Prediction> {
    if items == [] then None
    else if items[0].pair == p then Some(items[0])
    else FirstFor(items[1..], p)
  }

  /** One prediction per supplied pair, each well formed and quoting the cards verbatim. */
  predicate ValidFor(batch: seq<Pair>, r: Response) {
    && r.Predictions?
    && |r.items| == |batch|
    && (set x | x in r.items :: x.pair) == (set p | p in batch)
    && forall p | p in batch ::
      var first := FirstFor(r.items, p);
      first.Some? && first.value.wellFormed && first.value.verbatim
  }

  function PairsIn(items: seq<Prediction>): seq<Pair> {
    seq(|items|, i requires 0 <= i < |items| => items[i].pair)
  }

  /** An answer is valid exactly if it predicts each supplied pair once and every prediction is sound. */
  lemma ValidForIff(batch: seq<Pair>, r: Response)
    requires Distinct(batch)
    ensures ValidFor(batch, r) <==>
      (r.Predictions? && multiset(PairsIn(r.items)) == multiset(batch)
       && forall x | x in r.items :: x.wellFormed && x.verbatim)
  {
    if ValidFor(batch, r) {
      OnePerPair(batch, r.items);
    }
    if r.Predictions? && multiset(PairsIn(r.items)) == multiset(batch) {
      EachPairOnce(batch, r.items);
    }
  }

  lemma OnePerPair(batch: seq<Pair>, items: seq<Prediction>)
    requires Distinct(batch) && ValidFor(batch, Predictions(items))
    ensures multiset(PairsIn(items)) == multiset(batch)
    ensures forall x | x in items :: x.wellFormed && x.verbatim
  {
    var pairs := PairsIn(items);
    SamePairs(items);
    SetSize(batch);
    assert SetOf(pairs) == SetOf(batch);
    SizeDistinct(pairs);
    SameMultiset(pairs, batch);
    FirstIsOnly(items);
    forall x | x in items ensures x.pair in batch {
      assert x.pair in SetOf(pairs);
      assert x.pair in SetOf(batch);
    }
  }

  lemma EachPairOnce(batch: seq<Pair>, items: seq<Prediction>)
    requires multiset(PairsIn(items)) == multiset(batch)
    ensures |items| == |batch| && (set x | x in items :: x.pair) == (set p | p in batch)
    ensures forall p | p in batch :: FirstFor(items, p).Some? && FirstFor(items, p).value in items
  {
    var pairs := PairsIn(items);
    SamePairs(items);
    assert |multiset(pairs)| == |multiset(batch)|;
    forall p ensures p in pairs <==> p in batch {
      assert p in pairs <==> p in multiset(pairs);
      assert p in batch <==> p in multiset(batch);
    }
    forall p | p in batch ensures FirstFor(items, p).Some? && FirstFor(items, p).value in items {
      FirstFound(items, p);
    }
  }

  lemma SamePairs(items: seq<Prediction>)
    ensures (set x | x in items :: x.pair) == SetOf(PairsIn(items))
  {
    forall x | x in items ensures x.pair in PairsIn(items) {
      var i :| 0 <= i < |items| && items[i] == x;
      assert PairsIn(items)[i] == x.pair;
    }
  }

  lemma {:induction false} FirstFound(items: seq<Prediction>, p: Pair)
    requires p in PairsIn(items)
    ensures var first := FirstFor(items, p); first.Some? && first.value in items && first.value.pair == p
  {
    if items[0].pair != p {
      assert PairsIn(items) == [items[0].pair] + PairsIn(items[1..]);
      FirstFound(items[1..], p);
    }
  }

  lemma FirstIsOnly(items: seq<Prediction>)
    requires Distinct(PairsIn(items))
    ensures forall x | x in items :: FirstFor(items, x.pair) == Some(x)
  {
    forall x | x in items ensures FirstFor(items, x.pair) == Some(x) {
      var i :| 0 <= i < |items| && items[i] == x;
      assert PairsIn(items)[i] == x.pair;
      FirstFound(items, x.pair);
      var first := FirstFor(items, x.pair).value;
      var j :| 0 <= j < |items| && items[j] == first;
      assert PairsIn(items)[j] == first.pair;
    }
  }

  function Covered(n: nat): nat {
    if n <= MAX_PAIRS then n else MAX_PAIRS
  }

  /** Number of offsets 0, 6, 12, ... below min(n, 100). */
  function Batches(n: nat): nat {
    (Covered(n) + BATCH_SIZE - 1) / BATCH_SIZE
  }

  function BatchAt(cands: seq<Pair>, k: nat): seq<Pair>
    requires k < Batches(|cands|)
  {
    var lo := k * BATCH_SIZE;
    cands[lo..if lo + BATCH_SIZE <= |cands| then lo + BATCH_SIZE else |cands|]
  }

  /** `done` lists the batches whose pairs went into the report. */
  datatype Attempt = Attempt(done: seq<nat>, errors: nat, calls: nat, cache: Cache, stopped: bool)

  function CheckBatch(cands: seq<Pair>, k: nat, a: Attempt, w: World): Attempt
    requires k < Batches(|cands|)
  {
    var batch := BatchAt(cands, k);
    if batch in a.cache then Accept(cands, k, a, a.cache[batch], w)
    else if a.calls >= MAX_CALLS || w.expired(k) then a.(errors := a.errors + 1, stopped := true)
    else
      var called := a.(calls := a.calls + 1);
      match w.reply(k)
      case None => called.(errors := a.errors + 1)
      case Some(r) => Accept(cands, k, called, r, w)
  }

  /** Pairs enter the report before the cache is written, so a failed write costs an error only. */
  function Accept(cands: seq<Pair>, k: nat, a: Attempt, r: Response, w: World): Attempt
    requires k < Batches(|cands|)
  {
    if !ValidFor(BatchAt(cands, k), r) then a.(errors := a.errors + 1)
    else
      var kept := a.(done := a.done + [k]);
      if w.stored(k) then kept.(cache := a.cache[BatchAt(cands, k) := r])
      else kept.(errors := a.errors + 1)
  }

  function CheckFrom(cands: seq<Pair>, k: nat, a: Attempt, w: World): Attempt
    requires k <= Batches(|cands|)
    decreases Batches(|cands|) - k
  {
    if a.stopped || k == Batches(|cands|) then a else CheckFrom(cands, k + 1, CheckBatch(cands, k, a, w), w)
  }

  function Start(cache: Cache): Attempt {
    Attempt([], 0, 0, cache, false)
  }

  function PairsOf(cands: seq<Pair>, done: seq<nat>): seq<Pair>
    requires forall i | 0 <= i < |done| :: done[i] < Batches(|cands|)
  {
    if done == [] then [] else PairsOf(cands, done[..|done| - 1]) + BatchAt(cands, done[|done| - 1])
  }

  datatype Status = Complete | Partial | Error

  function StatusOf(pairs: seq<Pair>, n: nat, errors: nat): Status {
    if |pairs| == n && errors == 0 then Complete else if pairs != [] then Partial else Error
  }

  datatype Outcome = Reported(pairs: seq<Pair>, status: Status) | Rejected

  /** The format check the finished report must pass: at most a hundred pairs, none twice, and texts and
      length within the limits. */
  predicate ReportAccepted(pairs: seq<Pair>, w: World) {
    |pairs| <= REPORT_PAIRS && (forall i, j | 0 <= i < j < |pairs| :: pairs[i] != pairs[j]) && w.Takes(pairs)
  }

  function Finish(cands: seq<Pair>, a: Attempt, w: World): Outcome
    requires forall i | 0 <= i < |a.done| :: a.done[i] < Batches(|cands|)
  {
    var pairs := PairsOf(cands, a.done);
    if ReportAccepted(pairs, w) then Reported(pairs, StatusOf(pairs, |cands|, a.errors)) else Rejected
  }

  ghost predicate Increasing(done: seq<nat>, below: nat) {
    && (forall i, j | 0 <= i < j < |done| :: done[i] < done[j])
    && (forall i | 0 <= i < |done| :: done[i] < below)
  }

  /** What every batch keeps: batches in order and once each, at most ten model calls, and a cache that
      only grows and holds only answers that passed validation. */
  ghost predicate Good(cands: seq<Pair>, k: nat, a: Attempt, start: Cache) {
    && k <= Batches(|cands|)
    && Increasing(a.done, k)
    && a.calls <= MAX_CALLS
    && start.Keys <= a.cache.Keys
    && (forall b | b in a.cache :: ValidFor(b, a.cache[b]))
    && (forall b | b in a.cache :: b in start || exists q: nat | q < k :: b == BatchAt(cands, q))
  }

  lemma BatchKeeps(cands: seq<Pair>, k: nat, a: Attempt, w: World, start: Cache)
    requires k < Batches(|cands|) && Good(cands, k, a, start)
    ensures Good(cands, k + 1, CheckBatch(cands, k, a, w), start)
  {
    var batch := BatchAt(cands, k);
    if batch in a.cache {
      AcceptKeeps(cands, k, a, a.cache[batch], w, start);
    } else if a.calls < MAX_CALLS && !w.expired(k) && w.reply(k).Some? {
      AcceptKeeps(cands, k, a.(calls := a.calls + 1), w.reply(k).value, w, start);
    }
  }

  lemma AcceptKeeps(cands: seq<Pair>, k: nat, a: Attempt, r: Response, w: World, start: Cache)
    requires k < Batches(|cands|) && Good(cands, k, a, start)
    ensures Good(cands, k + 1, Accept(cands, k, a, r, w), start)
  {
  }

  lemma {:induction false} AttemptKeeps(cands: seq<Pair>, k: nat, a: Attempt, w: World, start: Cache)
    requires Good(cands, k, a, start)
    ensures Good(cands, Batches(|cands|), CheckFrom(cands, k, a, w), start)
    decreases Batches(|cands|) - k
  {
    if a.stopped || k == Batches(|cands|) {
    } else {
      BatchKeeps(cands, k, a, w, start);
      AttemptKeeps(cands, k + 1, CheckBatch(cands, k, a, w), w, start);
    }
  }

  /** One attempt, as the batch loop runs it; `cache` stands for the files it leaves behind. */
  method Analyze(cands: seq<Pair>, cache: Cache, w: World) returns (out: Outcome, left: Cache)
    requires forall b | b in cache :: ValidFor(b, cache[b])
    ensures var a := CheckFrom(cands, 0, Start(cache), w);
      && Good(cands, Batches(|cands|), a, cache)
      && left == a.cache
      && out == Finish(cands, a, w)
  {
    var pairs: seq<Pair>, errors, calls := [], 0, 0;
    left := cache;
    ghost var a := Start(cache);
    AttemptKeeps(cands, 0, a, w, cache);
    var k := 0;
    while k < Batches(|cands|)
      invariant k <= Batches(|cands|) && !a.stopped
      invariant forall i | 0 <= i < |a.done| :: a.done[i] < Batches(|cands|)
      invariant CheckFrom(cands, k, a, w) == CheckFrom(cands, 0, Start(cache), w)
      invariant errors == a.errors && calls == a.calls && left == a.cache
      invariant pairs == PairsOf(cands, a.done)
    {
      a := CheckBatch(cands, k, a, w);
      var batch := BatchAt(cands, k);
      var response := Malformed;
      var received := true;
      if batch in left {
        response := left[batch];
      } else if calls >= MAX_CALLS || w.expired(k) {
        errors := errors + 1;
        break;
      } else {
        calls := calls + 1;
        match w.reply(k) {
          case None => received := false;
          case Some(r) => response := r;
        }
      }
      if received && ValidFor(batch, response) {
        pairs := pairs + batch;
        if w.stored(k) {
          left := left[batch := response];
        } else {
          errors := errors + 1;
        }
      } else {
        errors := errors + 1;
      }
      k := k + 1;
    }
    out := if ReportAccepted(pairs, w) then Reported(pairs, StatusOf(pairs, |cands|, errors)) else Rejected;
  }

  // ------------------------------------------------------------- what a report means

  function AllBatches(k: nat): seq<nat> {
    seq(k, i => i)
  }

  lemma {:induction false} PairsOfSize(cands: seq<Pair>, done: seq<nat>)
    requires Increasing(done, Batches(|cands|))
    ensures done == [] ==> |PairsOf(cands, done)| == 0
    ensures done != [] ==> |PairsOf(cands, done)| <= EndOf(cands, done[|done| - 1])
    ensures done != [] && |PairsOf(cands, done)| == EndOf(cands, done[|done| - 1]) ==>
      done == AllBatches(done[|done| - 1] + 1)
  {
    if done != [] {
      var init := done[..|done| - 1];
      var last := done[|done| - 1];
      PairsOfSize(cands, init);
      assert |PairsOf(cands, done)| == |PairsOf(cands, init)| + |BatchAt(cands, last)|;
      if init == [] {
        FromStart(cands, last);
        assert last == 0 ==> done == AllBatches(1);
      } else {
        var before := init[|init| - 1];
        assert before == done[|done| - 2] < last;
        OneAfter(cands, before, last);
        if |PairsOf(cands, done)| == EndOf(cands, last) {
          assert done == AllBatches(last + 1);
        }
      }
    }
  }

  lemma FromStart(cands: seq<Pair>, k: nat)
    requires k < Batches(|cands|)
    ensures |BatchAt(cands, k)| <= EndOf(cands, k)
    ensures |BatchAt(cands, k)| == EndOf(cands, k) ==> k == 0
  {
  }

  /** Where batches end: an earlier one before a later one, and just before it only if it is the next. */
  lemma OneAfter(cands: seq<Pair>, before: nat, last: nat)
    requires before < last < Batches(|cands|)
    ensures EndOf(cands, before) + |BatchAt(cands, last)| <= EndOf(cands, last)
    ensures EndOf(cands, before) + |BatchAt(cands, last)| == EndOf(cands, last) ==> before + 1 == last
  {
  }

  /** Index just past batch k. */
  function EndOf(cands: seq<Pair>, k: nat): nat {
    if (k + 1) * BATCH_SIZE <= |cands| then (k + 1) * BATCH_SIZE else |cands|
  }

  lemma {:induction false} AllBatchesPairs(cands: seq<Pair>, k: nat)
    requires k <= Batches(|cands|)
    ensures PairsOf(cands, AllBatches(k)) == cands[..if k == 0 then 0 else EndOf(cands, k - 1)]
  {
    if k > 0 {
      AllBatchesPairs(cands, k - 1);
      var d := AllBatches(k);
      assert d[..k - 1] == AllBatches(k - 1) && d[k - 1] == k - 1;
      assert k == 1 || EndOf(cands, k - 2) == (k - 1) * BATCH_SIZE;
    }
  }

  /** A report's pairs are batches of the candidate list, in order and none twice; the status is
      Complete exactly when the report is the whole candidate list and nothing went wrong. */
  lemma CompleteMeansAll(cands: seq<Pair>, cache: Cache, w: World)
    requires forall b | b in cache :: ValidFor(b, cache[b])
    ensures var a := CheckFrom(cands, 0, Start(cache), w);
      && Increasing(a.done, Batches(|cands|))
      && var status, pairs := StatusOf(PairsOf(cands, a.done), |cands|, a.errors), PairsOf(cands, a.done);
      && (status == Complete <==> pairs == cands && a.errors == 0)
      && (status != Complete ==> (status == Error <==> pairs == []) && (status == Partial <==> pairs != []))
  {
    AttemptKeeps(cands, 0, Start(cache), w, cache);
    WholeList(cands, CheckFrom(cands, 0, Start(cache), w).done);
  }

  lemma WholeList(cands: seq<Pair>, done: seq<nat>)
    requires Increasing(done, Batches(|cands|))
    ensures |PairsOf(cands, done)| == |cands| ==> PairsOf(cands, done) == cands
    ensures |PairsOf(cands, done)| <= BATCH_SIZE * Batches(|cands|)
  {
    PairsOfSize(cands, done);
    if done != [] {
      var last := done[|done| - 1];
      var count := last + 1;
      if |PairsOf(cands, done)| == |cands| {
        AllBatchesPairs(cands, count);
      }
    }
  }

  /** A candidate of an issue is reported at most once (its candidates are pairwise distinct). */
  lemma {:induction false} ReportedOnce(cands: seq<Pair>, done: seq<nat>)
    requires Distinct(cands) && Increasing(done, Batches(|cands|))
    ensures Distinct(PairsOf(cands, done))
    ensures forall p | p in PairsOf(cands, done) :: p in cands
    ensures done != [] ==> forall p | p in PairsOf(cands, done) :: p in cands[..EndOf(cands, done[|done| - 1])]
  {
    if done != [] {
      var init, last := done[..|done| - 1], done[|done| - 1];
      ReportedOnce(cands, init);
      var lo := last * BATCH_SIZE;
      assert init != [] ==> EndOf(cands, init[|init| - 1]) <= lo;
      var batch := BatchAt(cands, last);
      forall p | p in batch ensures p !in cands[..lo] && p in cands[..EndOf(cands, last)] {
        var i :| 0 <= i < |batch| && batch[i] == p;
        assert cands[lo + i] == p;
      }
      forall p | p in PairsOf(cands, init) ensures p in cands[..lo] {
        var e := EndOf(cands, init[|init| - 1]);
        assert p in cands[..e];
        assert forall q | q in cands[..e] :: q in cands[..lo];
      }
      assert forall p | p in cands[..lo] :: p in cands[..EndOf(cands, last)];
      DistinctConcat(PairsOf(cands, init), batch);
    }
  }

  // ------------------------------------------------------ what the status says of the world

  /** The batch has an answer: from the cache, or from the model. */
  function Answer(cands: seq<Pair>, cache: Cache, w: World, k: nat): Option<Response>
    requires k < Batches(|cands|)
  {
    if BatchAt(cands, k) in cache then Some(cache[BatchAt(cands, k)]) else w.reply(k)
  }

  predicate Answered(cands: seq<Pair>, cache: Cache, w: World, k: nat)
    requires k < Batches(|cands|)
  {
    var r := Answer(cands, cache, w, k);
    r.Some? && ValidFor(BatchAt(cands, k), r.value)
  }

  /** Batches before number k that the model has to be asked about. */
  function Asked(cands: seq<Pair>, cache: Cache, k: nat): nat
    requires k <= Batches(|cands|)
  {
    if k == 0 then 0 else Asked(cands, cache, k - 1) + if BatchAt(cands, k - 1) in cache then 0 else 1
  }

  /** The model would have to be asked, but the calls are used up or the time is over. */
  predicate OutOfLimits(cands: seq<Pair>, cache: Cache, w: World, k: nat)
    requires k < Batches(|cands|)
  {
    BatchAt(cands, k) !in cache && (Asked(cands, cache, k) >= MAX_CALLS || w.expired(k))
  }

  /** Batches before number k without a valid answer, or with one that could not be stored. */
  function Failed(cands: seq<Pair>, cache: Cache, w: World, k: nat): set<nat>
    requires k <= Batches(|cands|)
  {
    set q: nat | q < k && !(Answered(cands, cache, w, q) && w.stored(q))
  }

  /** The attempt has got to batch k, and what it has noted by then. */
  ghost predicate Underway(cands: seq<Pair>, cache: Cache, w: World, k: nat, a: Attempt) {
    && k <= Batches(|cands|) && !a.stopped && Increasing(a.done, k)
    && (forall q: nat | q < k :: !OutOfLimits(cands, cache, w, q))
    && (forall q: nat | q < k :: q in a.done <==> Answered(cands, cache, w, q))
    && a.calls == Asked(cands, cache, k) && a.errors == |Failed(cands, cache, w, k)|
    && forall q: nat | k <= q < Batches(|cands|) :: SameEntry(BatchAt(cands, q), a.cache, cache)
  }

  predicate SameEntry(batch: seq<Pair>, a: Cache, b: Cache) {
    (batch in a <==> batch in b) && (batch in a ==> a[batch] == b[batch])
  }

  lemma BatchesDiffer(cands: seq<Pair>, k: nat, q: nat)
    requires Distinct(cands) && k < q < Batches(|cands|)
    ensures BatchAt(cands, k) != BatchAt(cands, q)
  {
    assert BatchAt(cands, k)[0] == cands[k * BATCH_SIZE] && BatchAt(cands, q)[0] == cands[q * BATCH_SIZE];
  }

  lemma OneMoreFailed(cands: seq<Pair>, cache: Cache, w: World, k: nat)
    requires k < Batches(|cands|)
    ensures |Failed(cands, cache, w, k + 1)| == |Failed(cands, cache, w, k)|
      + if Answered(cands, cache, w, k) && w.stored(k) then 0 else 1
  {
    var next := k + 1;
    assert Failed(cands, cache, w, next) == Failed(cands, cache, w, k)
      + if Answered(cands, cache, w, k) && w.stored(k) then {} else {k};
  }

  lemma UnderwayStep(cands: seq<Pair>, cache: Cache, w: World, k: nat, a: Attempt)
    requires Distinct(cands) && k < Batches(|cands|) && Underway(cands, cache, w, k, a)
    requires !OutOfLimits(cands, cache, w, k)
    ensures Underway(cands, cache, w, k + 1, CheckBatch(cands, k, a, w))
  {
    var next := k + 1;
    var e := CheckBatch(cands, k, a, w);
    assert SameEntry(BatchAt(cands, k), a.cache, cache);
    OneMoreFailed(cands, cache, w, k);
    forall q: nat | next <= q < Batches(|cands|) ensures SameEntry(BatchAt(cands, q), e.cache, cache) {
      BatchesDiffer(cands, k, q);
      assert SameEntry(BatchAt(cands, q), a.cache, cache);
    }
    assert e.done == if Answered(cands, cache, w, k) then a.done + [k] else a.done;
  }

  /** How an attempt ends: at batch n, the first one out of limits or the end of the list.  Its report holds
      the batches before n that were answered, and it counts an error for each that was not answered or not
      stored, and one for the limit. */
  lemma {:induction false} AttemptEnds(cands: seq<Pair>, cache: Cache, w: World, k: nat, a: Attempt)
    returns (n: nat)
    requires Distinct(cands) && Underway(cands, cache, w, k, a)
    ensures k <= n <= Batches(|cands|) && forall q: nat | q < n :: !OutOfLimits(cands, cache, w, q)
    ensures n < Batches(|cands|) ==> OutOfLimits(cands, cache, w, n)
    ensures var e := CheckFrom(cands, k, a, w);
      && Increasing(e.done, n) && (forall q: nat | q < n :: q in e.done <==> Answered(cands, cache, w, q))
      && e.errors == |Failed(cands, cache, w, n)| + (if n < Batches(|cands|) then 1 else 0)
      && e.calls == Asked(cands, cache, n)
    decreases Batches(|cands|) - k
  {
    n := k;
    if k < Batches(|cands|) {
      assert SameEntry(BatchAt(cands, k), a.cache, cache);
      var next := CheckBatch(cands, k, a, w);
      if OutOfLimits(cands, cache, w, k) {
        assert CheckFrom(cands, k, a, w) == CheckFrom(cands, k + 1, next, w) == next;
      } else {
        UnderwayStep(cands, cache, w, k, a);
        n := AttemptEnds(cands, cache, w, k + 1, next);
      }
    }
  }

  /** Every batch is answered in time, within the ten calls, validly, and the answer stored. */
  ghost predicate AllServed(cands: seq<Pair>, cache: Cache, w: World) {
    forall k: nat | k < Batches(|cands|) ::
      !OutOfLimits(cands, cache, w, k) && Answered(cands, cache, w, k) && w.stored(k)
  }

  /** The status in terms of the world and the cache alone: complete exactly if the batches cover the
      candidates and every one of them is served. */
  lemma CompleteIff(cands: seq<Pair>, cache: Cache, w: World)
    requires Distinct(cands) && forall b | b in cache :: ValidFor(b, cache[b])
    ensures var a := CheckFrom(cands, 0, Start(cache), w);
      && Increasing(a.done, Batches(|cands|))
      && (StatusOf(PairsOf(cands, a.done), |cands|, a.errors) == Complete
          <==> AllServed(cands, cache, w) && |cands| <= BATCH_SIZE * Batches(|cands|))
  {
    var a := CheckFrom(cands, 0, Start(cache), w);
    assert Failed(cands, cache, w, 0) == {};
    var n := AttemptEnds(cands, cache, w, 0, Start(cache));
    CompleteMeansAll(cands, cache, w);
    WholeList(cands, a.done);
    if AllServed(cands, cache, w) {
      ServedMeans(cands, cache, w, n, a);
    } else {
      assert a.errors > 0 by {
        UnservedMeans(cands, cache, w, n);
      }
    }
  }

  lemma ServedMeans(cands: seq<Pair>, cache: Cache, w: World, n: nat, a: Attempt)
    requires AllServed(cands, cache, w) && n <= Batches(|cands|) && Increasing(a.done, n)
    requires n < Batches(|cands|) ==> OutOfLimits(cands, cache, w, n)
    requires forall q: nat | q < n :: q in a.done <==> Answered(cands, cache, w, q)
    ensures n == Batches(|cands|) && Failed(cands, cache, w, n) == {}
    ensures |cands| <= BATCH_SIZE * Batches(|cands|) ==> PairsOf(cands, a.done) == cands
  {
    AllDone(a.done, n);
    AllBatchesPairs(cands, n);
  }

  lemma UnservedMeans(cands: seq<Pair>, cache: Cache, w: World, n: nat)
    requires !AllServed(cands, cache, w) && n <= Batches(|cands|)
    requires forall q: nat | q < n :: !OutOfLimits(cands, cache, w, q)
    ensures n < Batches(|cands|) || |Failed(cands, cache, w, n)| > 0
  {
    if n == Batches(|cands|) {
      var q: nat :| q < n && !(Answered(cands, cache, w, q) && w.stored(q));
      assert q in Failed(cands, cache, w, n);
    }
  }

  /** An increasing list of all numbers below n counts them up. */
  lemma AllDone(done: seq<nat>, n: nat)
    requires Increasing(done, n) && forall q: nat | q < n :: q in done
    ensures done == AllBatches(n)
  {
    IncreasingFloor(done, n);
    if n > 0 {
      var last := n - 1;
      InPlace(done, n, last);
    }
    forall i: nat | i < |done| ensures done[i] == i {
      InPlace(done, n, i);
    }
  }

  lemma InPlace(done: seq<nat>, n: nat, i: nat)
    requires Increasing(done, n) && i < n && forall q: nat | q < n :: q in done
    ensures i < |done| && done[i] == i
  {
    IncreasingFloor(done, n);
    assert i in done;
    var j :| 0 <= j < |done| && done[j] == i;
    UpTo(done, n, i, j);
  }

  lemma {:induction false} IncreasingFloor(done: seq<nat>, n: nat)
    requires Increasing(done, n)
    ensures |done| <= n && forall i | 0 <= i < |done| :: i <= done[i]
  {
    if done != [] {
      var last := |done| - 1;
      IncreasingFloor(done[..last], done[last]);
      assert forall i | 0 <= i < last :: done[i] == done[..last][i];
    }
  }

  /** Numbers below a listed one that are all listed are listed in front of it. */
  lemma {:induction false} UpTo(done: seq<nat>, n: nat, i: nat, j: nat)
    requires Increasing(done, n) && j < |done| && done[j] == i && forall q: nat | q < n :: q in done
    ensures i <= j
  {
    if i > 0 {
      var before := i - 1;
      assert before in done;
      var k :| 0 <= k < |done| && done[k] == before;
      assert k < j;
      UpTo(done, n, before, k);
    }
  }

  // --------------------------------------------------- how many attempts it takes

  function Misses(cands: seq<Pair>, k: nat, cache: Cache): nat
    requires k <= Batches(|cands|)
    decreases Batches(|cands|) - k
  {
    if k == Batches(|cands|) then 0
    else (if BatchAt(cands, k) in cache then 0 else 1) + Misses(cands, k + 1, cache)
  }

  /** The model answers every batch validly, in time, and the answers can be stored. */
  ghost predicate Cooperative(cands: seq<Pair>, w: World) {
    forall k: nat | k < Batches(|cands|) ::
      && w.reply(k).Some? && ValidFor(BatchAt(cands, k), w.reply(k).value)
      && !w.expired(k) && w.stored(k)
  }

  lemma {:induction false} MissesShrink(cands: seq<Pair>, k: nat, small: Cache, big: Cache)
    requires k <= Batches(|cands|) && small.Keys <= big.Keys
    ensures Misses(cands, k, big) <= Misses(cands, k, small) <= Batches(|cands|) - k
    decreases Batches(|cands|) - k
  {
    if k < Batches(|cands|) {
      MissesShrink(cands, k + 1, small, big);
    }
  }

  function Excess(misses: nat, budget: int): nat {
    if misses <= budget then 0 else misses - (if budget < 0 then 0 else budget)
  }

  lemma BatchProgress(cands: seq<Pair>, k: nat, a: Attempt, w: World)
    requires Cooperative(cands, w) && k < Batches(|cands|)
    requires forall b | b in a.cache :: ValidFor(b, a.cache[b])
    ensures var e := CheckBatch(cands, k, a, w);
      && (forall b | b in e.cache :: ValidFor(b, e.cache[b]))
      && if BatchAt(cands, k) !in a.cache && a.calls >= MAX_CALLS
         then e == a.(errors := a.errors + 1, stopped := true)
         else
           && e.done == a.done + [k] && e.errors == a.errors && e.stopped == a.stopped
           && e.cache.Keys == a.cache.Keys + {BatchAt(cands, k)}
           && e.calls == a.calls + (if BatchAt(cands, k) in a.cache then 0 else 1)
  {
  }

  /** One attempt with a cooperative model pays off ten missing batches, and finishes if that covers
      what was missing. */
  lemma {:induction false} AttemptProgress(cands: seq<Pair>, k: nat, a: Attempt, w: World)
    requires Cooperative(cands, w) && !a.stopped && a.calls <= MAX_CALLS && k <= Batches(|cands|)
    requires forall b | b in a.cache :: ValidFor(b, a.cache[b])
    requires a.done == AllBatches(k)
    ensures var e := CheckFrom(cands, k, a, w);
      && a.cache.Keys <= e.cache.Keys
      && Misses(cands, k, e.cache) <= Excess(Misses(cands, k, a.cache), MAX_CALLS - a.calls)
      && (Misses(cands, k, a.cache) <= MAX_CALLS - a.calls ==>
            e.done == AllBatches(Batches(|cands|)) && e.errors == a.errors)
    decreases Batches(|cands|) - k
  {
    if k < Batches(|cands|) {
      var next := CheckBatch(cands, k, a, w);
      BatchProgress(cands, k, a, w);
      assert CheckFrom(cands, k, a, w) == CheckFrom(cands, k + 1, next, w);
      var later := k + 1;
      var e := CheckFrom(cands, later, next, w);
      if !next.stopped {
        assert AllBatches(k) + [k] == AllBatches(later);
        AttemptProgress(cands, later, next, w);
        GoesOn(cands, k, a, next, e);
      } else {
        assert e == next;
      }
    }
  }

  /** One batch more, cached or paid for, in front of what the rest of the attempt achieves. */
  lemma GoesOn(cands: seq<Pair>, k: nat, a: Attempt, next: Attempt, e: Attempt)
    requires k < Batches(|cands|) && (BatchAt(cands, k) !in a.cache ==> a.calls < MAX_CALLS) && a.calls <= MAX_CALLS
    requires next.calls == a.calls + (if BatchAt(cands, k) in a.cache then 0 else 1)
    requires next.cache.Keys == a.cache.Keys + {BatchAt(cands, k)} && next.cache.Keys <= e.cache.Keys
    requires Misses(cands, k + 1, e.cache) <= Excess(Misses(cands, k + 1, next.cache), MAX_CALLS - next.calls)
    ensures Misses(cands, k, e.cache) <= Excess(Misses(cands, k, a.cache), MAX_CALLS - a.calls)
    ensures Misses(cands, k, a.cache) <= MAX_CALLS - a.calls ==>
      Misses(cands, k + 1, next.cache) <= MAX_CALLS - next.calls
  {
    var paid := if BatchAt(cands, k) in a.cache then 0 else 1;
    var later := k + 1;
    MissesShrink(cands, later, a.cache, next.cache);
    var before, after := Misses(cands, later, a.cache), Misses(cands, later, next.cache);
    assert Misses(cands, k, a.cache) == paid + before;
    assert BatchAt(cands, k) in e.cache;
    ExcessStep(after, before, paid, MAX_CALLS - a.calls);
  }

  lemma ExcessStep(after: nat, before: nat, paid: nat, budget: nat)
    requires after <= before && paid <= budget
    ensures Excess(after, budget - paid) <= Excess(paid + before, budget)
  {
  }

  lemma TwoAttempts(cands: seq<Pair>, cache: Cache, w1: World, w2: World) returns (a1: Attempt, a2: Attempt)
    requires forall b | b in cache :: ValidFor(b, cache[b])
    requires Cooperative(cands, w1) && Cooperative(cands, w2)
    ensures a1 == CheckFrom(cands, 0, Start(cache), w1) && Good(cands, Batches(|cands|), a1, cache)
    ensures a2 == CheckFrom(cands, 0, Start(a1.cache), w2) && Good(cands, Batches(|cands|), a2, a1.cache)
    ensures a2.done == AllBatches(Batches(|cands|)) && a2.errors == 0
  {
    a1 := CheckFrom(cands, 0, Start(cache), w1);
    AttemptKeeps(cands, 0, Start(cache), w1, cache);
    AttemptProgress(cands, 0, Start(cache), w1);
    MissesShrink(cands, 0, cache, cache);
    a2 := SecondAttempt(cands, a1.cache, w2);
  }

  lemma SecondAttempt(cands: seq<Pair>, cache: Cache, w: World) returns (a: Attempt)
    requires forall b | b in cache :: ValidFor(b, cache[b])
    requires Cooperative(cands, w) && Misses(cands, 0, cache) <= MAX_CALLS
    ensures a == CheckFrom(cands, 0, Start(cache), w) && Good(cands, Batches(|cands|), a, cache)
    ensures a.done == AllBatches(Batches(|cands|)) && a.errors == 0
  {
    a := CheckFrom(cands, 0, Start(cache), w);
    AttemptKeeps(cands, 0, Start(cache), w, cache);
    AttemptProgress(cands, 0, Start(cache), w);
  }

  lemma {:induction false} AskedFromEmpty(cands: seq<Pair>, k: nat)
    requires k <= Batches(|cands|)
    ensures Asked(cands, map[], k) == k
  {
    if k > 0 {
      AskedFromEmpty(cands, k - 1);
    }
  }

  /** One attempt from an empty cache is complete, with a cooperative model, up to 60 candidates and not
      beyond. */
  lemma OneAttemptIff(cands: seq<Pair>, w: World)
    requires Distinct(cands) && Cooperative(cands, w)
    ensures var a := CheckFrom(cands, 0, Start(map[]), w);
      && Increasing(a.done, Batches(|cands|))
      && (StatusOf(PairsOf(cands, a.done), |cands|, a.errors) == Complete <==> |cands| <= 60)
  {
    CompleteIff(cands, map[], w);
    forall k: nat | k < Batches(|cands|) ensures OutOfLimits(cands, map[], w, k) <==> k >= 10 {
      AskedFromEmpty(cands, k);
    }
    if |cands| > 60 {
      assert OutOfLimits(cands, map[], w, 10);
    } else {
      assert Batches(|cands|) <= 10;
    }
  }

  /** Any issue with at most 100 candidate pairs is fully checked after two attempts with a cooperative
      model, however many were cached before and whatever the first attempt left.  The report is then
      complete exactly if its texts and its length keep the format's limits, and refused otherwise. */
  lemma TwoAttemptsSuffice(cands: seq<Pair>, cache: Cache, w1: World, w2: World)
    requires Distinct(cands) && |cands| <= MAX_PAIRS
    requires forall b | b in cache :: ValidFor(b, cache[b])
    requires Cooperative(cands, w1) && Cooperative(cands, w2)
    ensures var a1 := CheckFrom(cands, 0, Start(cache), w1);
      var a2 := CheckFrom(cands, 0, Start(a1.cache), w2);
      && Good(cands, Batches(|cands|), a2, a1.cache)
      && Finish(cands, a2, w2) ==
         if w2.bytes(cands) <= 2_097_152 && forall p | p in cands :: w2.texts(p.left) && w2.texts(p.right)
         then Reported(cands, Complete) else Rejected
  {
    var a1, a2 := TwoAttempts(cands, cache, w1, w2);
    AllBatchesPairs(cands, Batches(|cands|));
    assert PairsOf(cands, a2.done) == cands;
  }

  /** The bound is exact.  From 101 candidates on no attempt whatsoever yields a complete report: up to
      102 the last batch overruns the hundred but the report format refuses the result, and beyond
      102 the batches do not cover the list. */
  lemma NeverCompleteAboveHundred(cands: seq<Pair>, cache: Cache, w: World)
    requires |cands| > 100
    requires forall b | b in cache :: ValidFor(b, cache[b])
    ensures var a := CheckFrom(cands, 0, Start(cache), w);
      Good(cands, Batches(|cands|), a, cache) &&
      (Finish(cands, a, w).Reported? ==> Finish(cands, a, w).status != Complete)
  {
    AttemptKeeps(cands, 0, Start(cache), w, cache);
  }

  /** With 101 or 102 candidates two cooperative attempts do check every pair, and exactly then the
      report is refused. */
  lemma OverrunIsRejected(cands: seq<Pair>, cache: Cache, w1: World, w2: World)
    requires |cands| == 101 || |cands| == 102
    requires forall b | b in cache :: ValidFor(b, cache[b])
    requires Cooperative(cands, w1) && Cooperative(cands, w2)
    ensures var a1 := CheckFrom(cands, 0, Start(cache), w1);
      var a2 := CheckFrom(cands, 0, Start(a1.cache), w2);
      Good(cands, Batches(|cands|), a2, a1.cache) &&
      PairsOf(cands, a2.done) == cands && a2.errors == 0 && Finish(cands, a2, w2) == Rejected
  {
    var a1, a2 := TwoAttempts(cands, cache, w1, w2);
    AllBatchesPairs(cands, Batches(|cands|));
  }

  /** The daily cap of ten cards keeps an issue inside the bound: at most 95 candidate pairs. */
  lemma TenCardsFit(n: nat, m: nat, sc: Scorer)
    requires n <= 10
    ensures |Candidates(n, m, sc)| <= 95
  {
    CandidateMembers(n, m, sc);
    NinetyAtMost(n);
  }

  lemma NinetyAtMost(n: nat)
    requires n <= 10
    ensures n * (n - 1) <= 90
  {
    if n > 0 {
      var fewer := n - 1;
      assert n * fewer <= 10 * fewer;
    }
  }

  /** The candidate list of an issue and the history before it. */
  function CandidateList(current: seq<Shown>, history: seq<Shown>, sc: Scorer): seq<Pair> {
    CandidateMembers(|current|, |history|, sc);
    PairsAt(current + history, Candidates(|current|, |history|, sc))
  }

  /** No pair of cards is a candidate twice, provided no card is listed twice. */
  lemma CandidatesDiffer(current: seq<Shown>, history: seq<Shown>, sc: Scorer)
    requires Distinct(current + history)
    ensures Distinct(CandidateList(current, history, sc))
  {
    var docs, xs := current + history, Candidates(|current|, |history|, sc);
    CandidateMembers(|current|, |history|, sc);
    var pairs := PairsAt(docs, xs);
    forall k, l | 0 <= k < l < |pairs| ensures pairs[k] != pairs[l] {
      var x, y := xs[k], xs[l];
      assert x in xs && y in xs;
      assert x.i != y.i || x.j != y.j;
      PositionsDiffer(docs, x, y);
    }
  }

  lemma PositionsDiffer(docs: seq<Shown>, x: Ix, y: Ix)
    requires Distinct(docs) && x != y && x.i < |docs| && x.j < |docs| && y.i < |docs| && y.j < |docs|
    ensures docs[x.i] != docs[y.i] || docs[x.j] != docs[y.j]
  {
  }

  /** An issue of ten cards, whatever its history, is fully checked after two attempts with a cooperative
      model, and complete if the report keeps the format's limits. */
  lemma TenCardsComplete(
    current: seq<Shown>, history: seq<Shown>, sc: Scorer, cache: Cache, w1: World, w2: World)
    requires |current| <= 10 && Distinct(current + history)
    requires forall b | b in cache :: ValidFor(b, cache[b])
    requires var cands := CandidateList(current, history, sc); Cooperative(cands, w1) && Cooperative(cands, w2)
    ensures var cands := CandidateList(current, history, sc);
      var a1 := CheckFrom(cands, 0, Start(cache), w1);
      var a2 := CheckFrom(cands, 0, Start(a1.cache), w2);
      && Good(cands, Batches(|cands|), a2, a1.cache)
      && Finish(cands, a2, w2) == if w2.Takes(cands) then Reported(cands, Complete) else Rejected
  {
    TenCardsFit(|current|, |history|, sc);
    CandidatesDiffer(current, history, sc);
    TwoAttemptsSuffice(CandidateList(current, history, sc), cache, w1, w2);
  }

  /** Some of the batches make a report that the format's limits refuse. */
  ghost predicate OverLimits(cands: seq<Pair>, w: World) {
    exists done :: Increasing(done, Batches(|cands|)) && !w.Takes(PairsOf(cands, done))
  }

  /** With at most 100 distinct candidates only those limits can get an attempt's report refused. */
  lemma RefusedOverLimits(cands: seq<Pair>, cache: Cache, w: World)
    requires Distinct(cands) && |cands| <= MAX_PAIRS
    requires forall b | b in cache :: ValidFor(b, cache[b])
    ensures var a := CheckFrom(cands, 0, Start(cache), w);
      Good(cands, Batches(|cands|), a, cache) && (Finish(cands, a, w).Rejected? ==> OverLimits(cands, w))
  {
    AttemptKeeps(cands, 0, Start(cache), w, cache);
    var a := CheckFrom(cands, 0, Start(cache), w);
    ReportedOnce(cands, a.done);
    ReportWithinHundred(cands, a.done);
  }

  ghost predicate AllCooperate(cands: seq<Pair>, worlds: seq<World>) {
    Distinct(cands) && |cands| <= MAX_PAIRS && forall w | w in worlds :: Cooperative(cands, w)
  }

  /** The run that follows a publication: up to three attempts on one cache, stopping at the first
      complete report and failing on the first refused one. */
  method Observe(cands: seq<Pair>, cache: Cache, worlds: seq<World>) returns (out: Outcome, left: Cache)
    requires |worlds| == 3
    requires forall b | b in cache :: ValidFor(b, cache[b])
    ensures forall b | b in left :: ValidFor(b, left[b])
    ensures cache.Keys <= left.Keys
    ensures out.Reported? && out.status == Complete ==> out.pairs == cands
    ensures AllCooperate(cands, worlds) ==>
      out == Reported(cands, Complete) || (out.Rejected? && exists w | w in worlds :: OverLimits(cands, w))
    ensures |cands| > REPORT_PAIRS ==> out.Rejected? || out.status != Complete
  {
    left := cache;
    out := Reported([], Error);
    for i := 0 to 3
      invariant forall b | b in left :: ValidFor(b, left[b])
      invariant cache.Keys <= left.Keys
      invariant i == 0 ==> left == cache
      invariant i > 0 ==> out.Reported? && out.status != Complete
      invariant i == 1 ==> left == CheckFrom(cands, 0, Start(cache), worlds[0]).cache
      invariant i >= 2 ==> !AllCooperate(cands, worlds)
    {
      var before := left;
      CompleteMeansAll(cands, before, worlds[i]);
      if |cands| > REPORT_PAIRS {
        NeverCompleteAboveHundred(cands, before, worlds[i]);
      }
      if AllCooperate(cands, worlds) {
        RefusedOverLimits(cands, before, worlds[i]);
        if i == 1 {
          TwoAttemptsSuffice(cands, cache, worlds[0], worlds[1]);
        }
      }
      out, left := Analyze(cands, before, worlds[i]);
      if out.Rejected? || out.status == Complete {
        break;
      }
    }
  }

  lemma ReportWithinHundred(cands: seq<Pair>, done: seq<nat>)
    requires |cands| <= MAX_PAIRS && Increasing(done, Batches(|cands|))
    ensures |PairsOf(cands, done)| <= REPORT_PAIRS
  {
    PairsOfSize(cands, done);
  }
}
