/** The daily comparison. */
module Comparison {
  // Which of an issue's materials the second version publishes, and what the daily comparison of the two
  // versions makes of the difference.

  import opened Sets
  import opened Wrappers
  import opened Ordering

  /** `dated` says whether the publication date is settled; `published` is its day. */
  datatype Material = Material(url: string, dated: bool, published: Option<int>)

  const WINDOW_DAYS := 30

  /** Undated throughout, or settled on a day of the window. */
  predicate Eligible(m: Material, issueDay: int) {
    if m.dated then m.published.Some? && issueDay - WINDOW_DAYS <= m.published.value <= issueDay
    else m.published.None?
  }

  /** A settled date counts if it is the issue's own day or one of the thirty before; an unsettled one only
      if there is none. */
  lemma EligibleIff(m: Material, issueDay: int)
    ensures m.dated ==>
      (Eligible(m, issueDay) <==> m.published.Some? && 0 <= issueDay - m.published.value <= 30)
    ensures !m.dated ==> (Eligible(m, issueDay) <==> m.published == None)
  {
  }

  function Kept(issueDay: int): Material -> bool {
    m => Eligible(m, issueDay)
  }

  function Dropped(issueDay: int): Material -> bool {
    m => !Eligible(m, issueDay)
  }

  method Partition(materials: seq<Material>, issueDay: int) returns (eligible: seq<Material>, excluded: seq<Material>)
    ensures eligible == Filter(materials, Kept(issueDay)) && excluded == Filter(materials, Dropped(issueDay))
  {
    eligible, excluded := [], [];
    for i := 0 to |materials|
      invariant eligible + Filter(materials[i..], Kept(issueDay)) == Filter(materials, Kept(issueDay))
      invariant excluded + Filter(materials[i..], Dropped(issueDay)) == Filter(materials, Dropped(issueDay))
    {
      var m := materials[i];
      assert materials[i..][0] == m && materials[i..][1..] == materials[i + 1..];
      var allowed := !m.dated && m.published.None?;
      if m.dated && m.published.Some? {
        allowed := issueDay - WINDOW_DAYS <= m.published.value <= issueDay;
      }
      if allowed {
        eligible := eligible + [m];
      } else {
        excluded := excluded + [m];
      }
    }
  }

  /** Every material is on exactly one side. */
  lemma {:induction false} PartitionConserves(materials: seq<Material>, issueDay: int)
    ensures multiset(Filter(materials, Kept(issueDay))) + multiset(Filter(materials, Dropped(issueDay)))
         == multiset(materials)
  {
    if materials != [] {
      PartitionConserves(materials[1..], issueDay);
      assert materials == [materials[0]] + materials[1..];
    }
  }

  // ----------------------------------------------------------------- the verdict

  datatype Verdict =
    | ContentDiffers | Matched | ForeignMaterial | Unverified | Explained | Unexplained
  {
    predicate Alert() {
      ContentDiffers? || ForeignMaterial? || Unexplained?
    }
  }

  function Urls(ms: seq<Material>): seq<string> {
    seq(|ms|, i requires 0 <= i < |ms| => ms[i].url)
  }

  function Compare(legacy: seq<string>, v2: seq<string>, excluded: Option<nat>, differs: bool): Verdict {
    var onlyLegacy, onlyV2 := SetOf(legacy) - SetOf(v2), SetOf(v2) - SetOf(legacy);
    if differs then ContentDiffers
    else if onlyLegacy == {} && onlyV2 == {} then Matched
    else if onlyV2 != {} then ForeignMaterial
    else if excluded.None? then Unverified
    else if excluded.value == |onlyLegacy| then Explained
    else Unexplained
  }

  lemma UrlMembers(ms: seq<Material>)
    ensures forall u :: u in Urls(ms) <==> exists m | m in ms :: m.url == u
  {
    forall m | m in ms ensures m.url in Urls(ms) {
      var i :| 0 <= i < |ms| && ms[i] == m;
      assert Urls(ms)[i] == m.url;
    }
    forall u | u in Urls(ms) ensures exists m | m in ms :: m.url == u {
      var i :| 0 <= i < |ms| && Urls(ms)[i] == u;
      assert ms[i] in ms;
    }
  }

  /** Legacy URLs are those of the two sides together. */
  lemma SidesCover(materials: seq<Material>, issueDay: int)
    ensures SetOf(Urls(materials)) ==
      SetOf(Urls(Filter(materials, Kept(issueDay)))) + SetOf(Urls(Filter(materials, Dropped(issueDay))))
  {
    var kept, dropped := Filter(materials, Kept(issueDay)), Filter(materials, Dropped(issueDay));
    UrlMembers(materials);
    UrlMembers(kept);
    UrlMembers(dropped);
    FilterMembers(materials, Kept(issueDay));
    FilterMembers(materials, Dropped(issueDay));
    forall u | u in Urls(materials) ensures u in Urls(kept) || u in Urls(dropped) {
      var m :| m in materials && m.url == u;
      assert m in kept || m in dropped;
    }
  }

  ghost predicate DistinctUrls(ms: seq<Material>) {
    forall i, j | 0 <= i < j < |ms| :: ms[i].url != ms[j].url
  }

  lemma {:induction false} DistinctFiltered(ms: seq<Material>, keep: Material -> bool)
    requires DistinctUrls(ms)
    ensures DistinctUrls(Filter(ms, keep))
  {
    if ms != [] {
      var rest := Filter(ms[1..], keep);
      DistinctFiltered(ms[1..], keep);
      FilterMembers(ms[1..], keep);
      forall k | 0 <= k < |rest| ensures rest[k].url != ms[0].url {
        assert rest[k] in rest && rest[k] in ms[1..];
        var i :| 0 <= i < |ms[1..]| && ms[1..][i] == rest[k];
        assert ms[i + 1] == rest[k];
      }
    }
  }

  lemma {:induction false} UrlsSize(ms: seq<Material>)
    requires DistinctUrls(ms)
    ensures |SetOf(Urls(ms))| == |ms|
  {
    if ms != [] {
      UrlsSize(ms[1..]);
      var rest := Urls(ms[1..]);
      assert Urls(ms) == [ms[0].url] + rest;
      assert SetOf(Urls(ms)) == {ms[0].url} + SetOf(rest);
      assert ms[0].url !in rest;
    }
  }

  lemma SidesDiffer(materials: seq<Material>, issueDay: int)
    requires DistinctUrls(materials)
    ensures SetOf(Urls(Filter(materials, Kept(issueDay)))) !! SetOf(Urls(Filter(materials, Dropped(issueDay))))
  {
    var kept, dropped := Filter(materials, Kept(issueDay)), Filter(materials, Dropped(issueDay));
    UrlMembers(kept);
    UrlMembers(dropped);
    FilterMembers(materials, Kept(issueDay));
    FilterMembers(materials, Dropped(issueDay));
    forall a, b | a in kept && b in dropped ensures a.url != b.url {
      var i :| 0 <= i < |materials| && materials[i] == a;
      var j :| 0 <= j < |materials| && materials[j] == b;
    }
  }

  /** With one URL per material, showing exactly the eligible ones matches when nothing was excluded and
      explains the difference otherwise. */
  lemma NoFalseAlarm(materials: seq<Material>, issueDay: int, v2: seq<string>)
    requires DistinctUrls(materials) && SetOf(v2) == SetOf(Urls(Filter(materials, Kept(issueDay))))
    ensures var excluded := Filter(materials, Dropped(issueDay));
      Compare(Urls(materials), v2, Some(|excluded|), false) == if excluded == [] then Matched else Explained
  {
    var excluded := Filter(materials, Dropped(issueDay));
    SidesCover(materials, issueDay);
    SidesDiffer(materials, issueDay);
    DistinctFiltered(materials, Dropped(issueDay));
    UrlsSize(excluded);
    assert SetOf(Urls(materials)) - SetOf(v2) == SetOf(Urls(excluded));
    assert SetOf(v2) - SetOf(Urls(materials)) == {};
  }

  lemma WithinIff(a: set<string>, b: set<string>)
    ensures a - b == {} <==> a <= b
  {
    if a - b == {} {
      forall x | x in a ensures x in b {
        assert x !in a - b;
      }
    }
  }

  /** What each quiet verdict guarantees about the two lists, whatever produced them. */
  lemma QuietMeans(legacy: seq<string>, v2: seq<string>, excluded: Option<nat>, differs: bool)
    ensures var verdict := Compare(legacy, v2, excluded, differs);
      && (verdict == Matched ==> SetOf(legacy) == SetOf(v2) && !differs)
      && (verdict == Explained ==>
            SetOf(v2) < SetOf(legacy) && excluded.Some?
            && |SetOf(legacy)| == |SetOf(v2)| + excluded.value)
      && (verdict == Unverified ==> SetOf(v2) < SetOf(legacy) && excluded.None?)
  {
    var a, b := SetOf(legacy), SetOf(v2);
    WithinIff(a, b);
    WithinIff(b, a);
    if b <= a {
      assert a == b + (a - b) && |a| == |b| + |a - b|;
    }
  }

  lemma SidesSize(materials: seq<Material>, issueDay: int)
    requires DistinctUrls(materials)
    ensures |SetOf(Urls(materials))| ==
      |SetOf(Urls(Filter(materials, Kept(issueDay))))| + |Filter(materials, Dropped(issueDay))|
  {
    var kept, dropped := Filter(materials, Kept(issueDay)), Filter(materials, Dropped(issueDay));
    SidesCover(materials, issueDay);
    SidesDiffer(materials, issueDay);
    DistinctFiltered(materials, Dropped(issueDay));
    UrlsSize(dropped);
    assert |SetOf(Urls(kept)) + SetOf(Urls(dropped))| == |SetOf(Urls(kept))| + |SetOf(Urls(dropped))|;
  }

  /** A quiet verdict compares counts only.  It is the truth, the second version showing exactly the
      eligible materials, if and only if that version shows no excluded one. */
  lemma QuietIsTruthfulIff(materials: seq<Material>, issueDay: int, v2: seq<string>)
    requires DistinctUrls(materials)
    requires var verdict := Compare(Urls(materials), v2, Some(|Filter(materials, Dropped(issueDay))|), false);
      verdict == Matched || verdict == Explained
    ensures var eligible, excluded := Filter(materials, Kept(issueDay)), Filter(materials, Dropped(issueDay));
      SetOf(v2) == SetOf(Urls(eligible)) <==> SetOf(v2) !! SetOf(Urls(excluded))
  {
    var eligible := SetOf(Urls(Filter(materials, Kept(issueDay))));
    var excluded := SetOf(Urls(Filter(materials, Dropped(issueDay))));
    QuietMeans(Urls(materials), v2, Some(|Filter(materials, Dropped(issueDay))|), false);
    SidesCover(materials, issueDay);
    SidesDiffer(materials, issueDay);
    SidesSize(materials, issueDay);
    if SetOf(v2) !! excluded {
      assert SetOf(v2) <= eligible;
      SameSize(SetOf(v2), eligible);
    }
  }

  lemma SameSize<T>(a: set<T>, b: set<T>)
    requires a <= b
    ensures |a| >= |b| ==> a == b
  {
    assert b == a + (b - a) && |b| == |a| + |b - a|;
  }

  /** On every issue with an eligible and an excluded material, publishing the latter in place of the
      former is explained all the same. */
  lemma SwapGoesUnnoticed(materials: seq<Material>, issueDay: int, a: Material, b: Material, v2: seq<string>)
    requires DistinctUrls(materials) && a in materials && b in materials
    requires Eligible(a, issueDay) && !Eligible(b, issueDay)
    requires SetOf(v2) == SetOf(Urls(Filter(materials, Kept(issueDay)))) - {a.url} + {b.url}
    ensures Compare(Urls(materials), v2, Some(|Filter(materials, Dropped(issueDay))|), false) == Explained
  {
    var dropped := Filter(materials, Dropped(issueDay));
    ShownUrl(materials, Kept(issueDay), a);
    ShownUrl(materials, Dropped(issueDay), b);
    SidesCover(materials, issueDay);
    SidesDiffer(materials, issueDay);
    DistinctFiltered(materials, Dropped(issueDay));
    UrlsSize(dropped);
    var kept := SetOf(Urls(Filter(materials, Kept(issueDay))));
    SwapExplained(kept, SetOf(Urls(dropped)), a.url, b.url, Urls(materials), v2);
  }

  lemma ShownUrl(ms: seq<Material>, keep: Material -> bool, m: Material)
    requires m in ms && keep(m)
    ensures m.url in SetOf(Urls(Filter(ms, keep)))
  {
    FilterMembers(ms, keep);
    UrlMembers(Filter(ms, keep));
  }

  lemma SwapExplained(
    kept: set<string>, dropped: set<string>, a: string, b: string, legacy: seq<string>, v2: seq<string>)
    requires kept !! dropped && a in kept && b in dropped
    requires SetOf(legacy) == kept + dropped && SetOf(v2) == kept - {a} + {b}
    ensures Compare(legacy, v2, Some(|dropped|), false) == Explained
  {
    Swapped(kept, dropped, a, b);
  }

  lemma Swapped<T>(kept: set<T>, dropped: set<T>, a: T, b: T)
    requires kept !! dropped && a in kept && b in dropped
    ensures var all, shown := kept + dropped, kept - {a} + {b};
      shown - all == {} && all - shown != {} && |all - shown| == |dropped|
  {
    var all, shown := kept + dropped, kept - {a} + {b};
    assert all - shown == dropped - {b} + {a};
    assert |dropped - {b} + {a}| == |dropped - {b}| + 1;
  }

  // -------------------------------------------------------- from the two responses

  datatype UrlList = UrlList(urls: seq<string>) | InvalidUrl | RepeatedUrl

  predicate ValidUrl(u: string) {
    "http://" <= u || "https://" <= u
  }

  predicate StartsWith(u: string, scheme: string) {
    |u| >= |scheme| && forall i | 0 <= i < |scheme| :: u[i] == scheme[i]
  }

  lemma ValidUrlIff(u: string)
    ensures ValidUrl(u) <==> StartsWith(u, "http://") || StartsWith(u, "https://")
  {
  }

  /** The URLs of a response, or why it is refused; an absent URL is empty. */
  function UrlsOf(values: seq<string>): UrlList {
    if exists u | u in values :: !ValidUrl(u) then InvalidUrl
    else if |SetOf(values)| != |values| then RepeatedUrl
    else UrlList(Sort(values, LexLe))
  }

  method ReadUrls(values: seq<string>) returns (r: UrlList)
    ensures r == UrlsOf(values)
  {
    for i := 0 to |values|
      invariant forall q | 0 <= q < i :: ValidUrl(values[q])
    {
      if !ValidUrl(values[i]) {
        assert values[i] in values;
        return InvalidUrl;
      }
    }
    if |SetOf(values)| != |values| {
      return RepeatedUrl;
    }
    r := UrlList(Sort(values, LexLe));
  }

  datatype Outcome = LegacyRefused | V2Refused | Compared(verdict: Verdict)

  function Judge(legacy: seq<string>, v2: seq<string>, excluded: Option<nat>, differs: bool): Outcome {
    var a, b := UrlsOf(legacy), UrlsOf(v2);
    if !a.UrlList? then LegacyRefused
    else if !b.UrlList? then V2Refused
    else Compared(Compare(a.urls, b.urls, excluded, differs))
  }

  /** A response can be used exactly if all its URLs are absolute and none repeats. */
  lemma UsableIff(values: seq<string>)
    ensures UrlsOf(values).UrlList? <==> (forall u | u in values :: ValidUrl(u)) && Distinct(values)
  {
    if Distinct(values) {
      SetSize(values);
    } else {
      var i, j :| 0 <= i < j < |values| && values[i] == values[j];
      OneLess(values, i, j);
    }
  }

  lemma RepeatsIff(ms: seq<Material>)
    ensures |SetOf(Urls(ms))| == |ms| <==> DistinctUrls(ms)
  {
    if DistinctUrls(ms) {
      UrlsSize(ms);
    } else {
      var i, j :| 0 <= i < j < |ms| && ms[i].url == ms[j].url;
      OneLess(Urls(ms), i, j);
    }
  }

  lemma OneLess(s: seq<string>, i: nat, j: nat)
    requires i < j < |s| && s[i] == s[j]
    ensures |SetOf(s)| < |s|
  {
    var rest := s[..j] + s[j + 1..];
    assert rest[i] == s[j];
    forall x | x in s ensures x in rest {
      var k :| 0 <= k < |s| && s[k] == x;
      if k < j {
        assert rest[k] == x;
      } else if k > j {
        assert rest[k - 1] == x;
      }
    }
    assert SetOf(s) == SetOf(rest);
    AtMost(rest);
  }

  lemma SameMembers(s: seq<string>)
    ensures SetOf(Sort(s, LexLe)) == SetOf(s)
  {
    SortPermutes(s, LexLe);
    forall x ensures x in Sort(s, LexLe) <==> x in s {
      assert x in multiset(Sort(s, LexLe)) <==> x in multiset(s);
    }
  }

  /** The day's comparison of a response that shows exactly the eligible materials: refused if and only
      if a URL is unusable or a response repeats one, and otherwise never an alarm. */
  lemma RefusedOrQuiet(materials: seq<Material>, issueDay: int, v2: seq<string>)
    requires SetOf(v2) == SetOf(Urls(Filter(materials, Kept(issueDay))))
    ensures var excluded := Filter(materials, Dropped(issueDay));
      var outcome := Judge(Urls(materials), v2, Some(|excluded|), false);
      && (outcome.Compared? <==>
            (forall m | m in materials :: ValidUrl(m.url)) && DistinctUrls(materials) && |SetOf(v2)| == |v2|)
      && (outcome.Compared? ==>
            outcome.verdict == (if excluded == [] then Matched else Explained) && !outcome.verdict.Alert())
  {
    var excluded := Filter(materials, Dropped(issueDay));
    SidesCover(materials, issueDay);
    ComparedIff(materials, v2, Some(|excluded|));
    SameMembers(Urls(materials));
    SameMembers(v2);
    if DistinctUrls(materials) {
      NoFalseAlarm(materials, issueDay, v2);
      CompareBySets(Urls(materials), v2, Sort(Urls(materials), LexLe), Sort(v2, LexLe), Some(|excluded|));
    }
  }

  lemma ComparedIff(materials: seq<Material>, v2: seq<string>, excluded: Option<nat>)
    requires SetOf(v2) <= SetOf(Urls(materials))
    ensures Judge(Urls(materials), v2, excluded, false).Compared? <==>
      (forall m | m in materials :: ValidUrl(m.url)) && DistinctUrls(materials) && |SetOf(v2)| == |v2|
  {
    RepeatsIff(materials);
    ValidSides(materials, v2);
  }

  lemma ValidSides(materials: seq<Material>, v2: seq<string>)
    requires SetOf(v2) <= SetOf(Urls(materials))
    ensures (exists u | u in Urls(materials) :: !ValidUrl(u)) <==> exists m | m in materials :: !ValidUrl(m.url)
    ensures (exists u | u in v2 :: !ValidUrl(u)) ==> exists u | u in Urls(materials) :: !ValidUrl(u)
  {
    UrlMembers(materials);
    if u :| u in v2 && !ValidUrl(u) {
      assert u in SetOf(v2);
      assert u in Urls(materials);
    }
    if m :| m in materials && !ValidUrl(m.url) {
      assert m.url in Urls(materials);
    }
  }

  /** Only the sets of URLs matter. */
  lemma CompareBySets(a: seq<string>, b: seq<string>, c: seq<string>, d: seq<string>, excluded: Option<nat>)
    requires SetOf(a) == SetOf(c) && SetOf(b) == SetOf(d)
    ensures Compare(a, b, excluded, false) == Compare(c, d, excluded, false)
  {
  }
}
