/** The material registry. */
module Registry {
  // The material registry: merging one run's candidates into it, one hit at a time.

  import opened Ordering
  import opened Wrappers

  type Id = string

  /** `source` may be empty: a hit without a source id. */
  datatype Hit = Hit(source: string, url: string, seen: nat)

  /** What title repair and longer summaries may rewrite. */
  datatype Texts = Texts(title: string, summary: string, perimeter: int)

  datatype Item = Item(
    texts: Texts, published: string, firstSeen: nat, lastSeen: nat, hits: seq<Hit>, sourceCount: nat, hitCount: nat)

  /** `resolved` is the outcome of title recovery and the title check: None when the title was
      refused.  `longer` is the text a web page offers, with its perimeter. */
  datatype Candidate = Candidate(
    id: Id, resolved: Option<Texts>, source: string, url: string, published: string, webPage: bool, markup: string)

  /** Title markup found for a candidate, applied to a known item: None when it is refused. */
  type Retitle = (Texts, string) -> Option<Texts>

  datatype State = State(
    materials: map<Id, Item>, notes: seq<Id>, newIds: seq<Id>, updatedIds: seq<Id>)

  function Sources(hits: seq<Hit>): set<string> {
    set h | h in hits && h.source != "" :: h.source
  }

  function HitOf(c: Candidate, now: nat): Hit {
    Hit(c.source, c.url, now)
  }

  function Fresh(c: Candidate, texts: Texts, now: nat): Item {
    Item(texts, c.published, now, now, [HitOf(c, now)], 1, 1)
  }

  /** A known item with one more hit. */
  function Merged(item: Item, c: Candidate, offered: Texts, texts: Texts, now: nat): Item {
    var hits := item.hits + [HitOf(c, now)];
    Item(
      if c.webPage && |offered.summary| > |texts.summary|
      then Texts(texts.title, offered.summary, offered.perimeter) else texts,
      if item.published == "" then c.published else item.published,
      item.firstSeen, now, hits, |Sources(hits)|, |hits|)
  }

  /** What a further hit does to a known item: the hit goes to the end and is counted, the last date moves
      on, the first stays; a publication date is filled in once; the title stays and the summary only ever
      gets longer, from web pages alone, and then brings its perimeter along. */
  lemma MergedMeans(item: Item, c: Candidate, offered: Texts, texts: Texts, now: nat)
    ensures var m := Merged(item, c, offered, texts, now);
      && m.hits == item.hits + [Hit(c.source, c.url, now)] && m.hitCount == |item.hits| + 1
      && m.sourceCount == |Sources(m.hits)| && m.firstSeen == item.firstSeen && m.lastSeen == now
      && (item.published != "" ==> m.published == item.published)
      && (item.published == "" ==> m.published == c.published)
      && m.texts.title == texts.title && |m.texts.summary| >= |texts.summary|
      && (m.texts != texts ==>
            c.webPage && m.texts.summary == offered.summary && m.texts.perimeter == offered.perimeter)
      && (c.webPage ==> |m.texts.summary| >= |offered.summary|)
      && (|m.texts.summary| == |texts.summary| ==> m.texts == texts)
  {
  }

  function Step(s: State, c: Candidate, now: nat, retitle: Retitle): State {
    if c.resolved.None? then s.(notes := s.notes + [c.id])
    else if c.id !in s.materials then
      s.(materials := s.materials[c.id := Fresh(c, c.resolved.value, now)], newIds := s.newIds + [c.id])
    else
      var item := s.materials[c.id];
      var texts := retitle(item.texts, c.markup);
      if texts.None? then s.(notes := s.notes + [c.id])
      else
        var merged := Merged(item, c, c.resolved.value, texts.value, now);
        s.(materials := s.materials[c.id := merged],
           updatedIds :=
             if merged.sourceCount != item.sourceCount && c.id !in s.newIds then s.updatedIds + [c.id]
             else s.updatedIds)
  }

  function Run(s: State, cs: seq<Candidate>, now: nat, retitle: Retitle): State {
    if cs == [] then s else Step(Run(s, cs[..|cs| - 1], now, retitle), cs[|cs| - 1], now, retitle)
  }

  function Begin(materials: map<Id, Item>, notes: seq<Id>): State {
    State(materials, notes, [], [])
  }

  /** The registry dictionary as one run changes it. */
  class MaterialRegistry {
    var materials: map<Id, Item>
    var notes: seq<Id>

    constructor (known: map<Id, Item>)
      ensures materials == known && notes == []
    {
      materials, notes := known, [];
    }

    method Update(cs: seq<Candidate>, now: nat, retitle: Retitle) returns (newIds: seq<Id>, updatedIds: seq<Id>)
      modifies this
      ensures State(materials, notes, newIds, updatedIds)
           == Run(Begin(old(materials), old(notes)), cs, now, retitle)
    {
      newIds, updatedIds := [], [];
      var created: set<Id> := {};
      for i := 0 to |cs|
        invariant State(materials, notes, newIds, updatedIds)
               == Run(Begin(old(materials), old(notes)), cs[..i], now, retitle)
        invariant forall id :: id in created <==> id in newIds
      {
        assert cs[..i + 1][..i] == cs[..i];
        var c := cs[i];
        if c.resolved.None? {
          notes := notes + [c.id];
          continue;
        }
        if c.id !in materials {
          materials := materials[c.id := Fresh(c, c.resolved.value, now)];
          newIds := newIds + [c.id];
          created := created + {c.id};
          continue;
        }
        var item := materials[c.id];
        var texts := retitle(item.texts, c.markup);
        if texts.None? {
          notes := notes + [c.id];
          continue;
        }
        var merged := Merged(item, c, c.resolved.value, texts.value, now);
        materials := materials[c.id := merged];
        if item.sourceCount != merged.sourceCount && c.id !in created {
          updatedIds := updatedIds + [c.id];
        }
      }
      assert cs[..|cs|] == cs;
    }
  }

  // ------------------------------------------------------------------ conservation

  ghost function TotalHits(m: map<Id, Item>): nat
    decreases |m|
  {
    if m == map[] then 0
    else
      var k :| k in m;
      |m[k].hits| + TotalHits(m - {k})
  }

  lemma {:induction false} TotalWithout(m: map<Id, Item>, k: Id)
    requires k in m
    ensures TotalHits(m) == |m[k].hits| + TotalHits(m - {k})
    decreases |m|
  {
    var j :| j in m && TotalHits(m) == |m[j].hits| + TotalHits(m - {j});
    if j != k {
      TotalWithout(m - {j}, k);
      TotalWithout(m - {k}, j);
      assert m - {j} - {k} == m - {k} - {j};
    }
  }

  lemma TotalPut(m: map<Id, Item>, k: Id, x: Item)
    ensures TotalHits(m[k := x]) == TotalHits(m) + |x.hits| - if k in m then |m[k].hits| else 0
  {
    TotalWithout(m[k := x], k);
    if k in m {
      TotalWithout(m, k);
      assert m[k := x] - {k} == m - {k};
    } else {
      assert m[k := x] - {k} == m;
    }
  }

  /** Every candidate ends up as exactly one hit or one note. */
  lemma {:induction false} EveryCandidateCounted(s: State, cs: seq<Candidate>, now: nat, retitle: Retitle)
    ensures var e := Run(s, cs, now, retitle);
      TotalHits(e.materials) + |e.notes| == TotalHits(s.materials) + |s.notes| + |cs|
  {
    if cs != [] {
      var init, c := cs[..|cs| - 1], cs[|cs| - 1];
      EveryCandidateCounted(s, init, now, retitle);
      var mid := Run(s, init, now, retitle);
      var e := Step(mid, c, now, retitle);
      if c.id in e.materials {
        TotalPut(mid.materials, c.id, e.materials[c.id]);
      }
    }
  }

  // ------------------------------------------------------------------- the registry

  /** Nothing leaves the registry; the ids reported as new are exactly the ones that came, once each;
      a known item keeps its hits, its first date and a publication date it already had. */
  lemma {:induction false} RegistryGrows(
    known: map<Id, Item>, notes: seq<Id>, cs: seq<Candidate>, now: nat, retitle: Retitle)
    ensures var e := Run(Begin(known, notes), cs, now, retitle);
      && Distinct(e.newIds)
      && (forall id :: id in e.newIds <==> id in e.materials && id !in known)
      && (forall id | id in known ::
            && id in e.materials && known[id].hits <= e.materials[id].hits
            && known[id].firstSeen == e.materials[id].firstSeen
            && (known[id].published != "" ==> e.materials[id].published == known[id].published))
  {
    if cs != [] {
      RegistryGrows(known, notes, cs[..|cs| - 1], now, retitle);
    }
  }

  predicate Exact(item: Item) {
    item.sourceCount == |Sources(item.hits)| && item.hitCount == |item.hits|
  }

  /** A fresh item is counted with one source even when its only hit names none. */
  lemma FreshExactIff(c: Candidate, texts: Texts, now: nat)
    ensures Exact(Fresh(c, texts, now)) <==> c.source != ""
  {
    var hits := [HitOf(c, now)];
    if c.source != "" {
      assert Sources(hits) == {c.source} by {
        assert HitOf(c, now) in hits;
      }
    } else {
      assert Sources(hits) == {};
    }
  }

  predicate Sourceless(item: Item) {
    |item.hits| == 1 && item.hits[0].source == ""
  }

  lemma StepExact(s: State, c: Candidate, now: nat, retitle: Retitle, id: Id)
    requires c.id in s.materials ==> s.materials[c.id].hits != []
    requires id in Step(s, c, now, retitle).materials
    requires id in s.materials ==> (Exact(s.materials[id]) <==> !(id in s.newIds && Sourceless(s.materials[id])))
    ensures var e := Step(s, c, now, retitle);
      Exact(e.materials[id]) <==> !(id in e.newIds && Sourceless(e.materials[id]))
  {
    if c.resolved.Some? && c.id == id && id !in s.materials {
      FreshExactIff(c, c.resolved.value, now);
    }
  }

  /** After a run the counts are exact for every item, except for one that came in this run and has a
      single hit, without a source id. */
  lemma {:induction false} CountsExact(
    known: map<Id, Item>, notes: seq<Id>, cs: seq<Candidate>, now: nat, retitle: Retitle, id: Id)
    requires forall k | k in known :: Exact(known[k]) && known[k].hits != []
    requires id in Run(Begin(known, notes), cs, now, retitle).materials
    ensures var e := Run(Begin(known, notes), cs, now, retitle);
      Exact(e.materials[id]) <==> !(id !in known && Sourceless(e.materials[id]))
  {
    RegistryGrows(known, notes, cs, now, retitle);
    if cs != [] {
      var init, c := cs[..|cs| - 1], cs[|cs| - 1];
      var mid := Run(Begin(known, notes), init, now, retitle);
      if id in mid.materials {
        CountsExact(known, notes, init, now, retitle, id);
      }
      RegistryGrows(known, notes, init, now, retitle);
      if c.id in mid.materials {
        HitsNonEmpty(known, notes, init, now, retitle, c.id);
      }
      StepExact(mid, c, now, retitle, id);
    }
  }

  lemma {:induction false} HitsNonEmpty(
    known: map<Id, Item>, notes: seq<Id>, cs: seq<Candidate>, now: nat, retitle: Retitle, id: Id)
    requires id in known ==> known[id].hits != []
    requires id in Run(Begin(known, notes), cs, now, retitle).materials
    ensures Run(Begin(known, notes), cs, now, retitle).materials[id].hits != []
  {
    if cs != [] {
      var init := cs[..|cs| - 1];
      if id in Run(Begin(known, notes), init, now, retitle).materials {
        HitsNonEmpty(known, notes, init, now, retitle, id);
      }
      StepHits(Run(Begin(known, notes), init, now, retitle), cs[|cs| - 1], now, retitle, id);
    }
  }

  lemma StepHits(s: State, c: Candidate, now: nat, retitle: Retitle, id: Id)
    requires id in Step(s, c, now, retitle).materials && (id in s.materials ==> s.materials[id].hits != [])
    ensures Step(s, c, now, retitle).materials[id].hits != []
  {
    if c.id == id && c.resolved.Some? {
      if id in s.materials {
        assert HitOf(c, now) in s.materials[id].hits + [HitOf(c, now)];
      } else {
        assert HitOf(c, now) in Fresh(c, c.resolved.value, now).hits;
      }
    }
  }

  lemma OneMoreSource(hits: seq<Hit>, h: Hit)
    ensures Sources(hits + [h]) == Sources(hits) + if h.source == "" then {} else {h.source}
  {
    assert h in hits + [h];
    forall x | x in hits ensures x in hits + [h] {
    }
  }

  /** What a step adds to the reports of one id. */
  lemma StepReports(s: State, c: Candidate, now: nat, retitle: Retitle, id: Id)
    requires id in s.materials && Exact(s.materials[id]) && id !in s.newIds
    ensures var e := Step(s, c, now, retitle);
      && id in e.materials && Exact(e.materials[id])
      && multiset(e.updatedIds)[id] - multiset(s.updatedIds)[id]
         == |Sources(e.materials[id].hits)| - |Sources(s.materials[id].hits)|
  {
    if c.id == id {
      var before := Sources(s.materials[id].hits);
      OneMoreSource(s.materials[id].hits, HitOf(c, now));
      if c.source == "" || c.source in before {
        assert before + (if c.source == "" then {} else {c.source}) == before;
      } else {
        assert |before + {c.source}| == |before| + 1;
      }
    }
  }

  lemma NewStayUnreported(s: State, c: Candidate, now: nat, retitle: Retitle, id: Id)
    requires id !in s.updatedIds && (id in s.materials ==> id in s.newIds)
    ensures id !in Step(s, c, now, retitle).updatedIds
  {
  }

  /** An id is reported as updated once for every source it gained, provided its counts were exact
      before the run; ids that are new in the run are not reported. */
  lemma {:induction false} UpdatesAreNewSources(
    known: map<Id, Item>, notes: seq<Id>, cs: seq<Candidate>, now: nat, retitle: Retitle, id: Id)
    requires id in known ==> Exact(known[id])
    ensures var e := Run(Begin(known, notes), cs, now, retitle);
      && (id !in known ==> id !in e.updatedIds)
      && (id in known ==>
            (id in e.materials && Exact(e.materials[id])
             && multiset(e.updatedIds)[id] == |Sources(e.materials[id].hits)| - |Sources(known[id].hits)|))
  {
    if cs != [] {
      var init, c := cs[..|cs| - 1], cs[|cs| - 1];
      UpdatesAreNewSources(known, notes, init, now, retitle, id);
      RegistryGrows(known, notes, init, now, retitle);
      var mid := Run(Begin(known, notes), init, now, retitle);
      if id in known {
        StepReports(mid, c, now, retitle, id);
      } else {
        NewStayUnreported(mid, c, now, retitle, id);
      }
    }
  }

  /** The provision is needed: an item that entered with a sourceless hit stays unreported when it
      gains its first source in a later run.  Only a configured source whose id is empty yields such a hit. */
  lemma FirstSourceUnreported(c: Candidate, d: Candidate, texts: Texts, now: nat, retitle: Retitle)
    requires c.source == "" && d.source != "" && d.id == c.id && d.resolved.Some?
    requires retitle(texts, d.markup).Some?
    ensures var known := map[c.id := Fresh(c, texts, now)];
      var e := Run(Begin(known, []), [d], now + 1, retitle);
      && e.updatedIds == [] && Sources(known[c.id].hits) == {} && Sources(e.materials[c.id].hits) == {d.source}
  {
    var known := map[c.id := Fresh(c, texts, now)];
    assert [d][..0] == [];
    assert Run(Begin(known, []), [], now + 1, retitle) == Begin(known, []);
    OneMoreSource([HitOf(c, now)], HitOf(d, now + 1));
    assert Sources([HitOf(c, now)]) == {};
  }
}
