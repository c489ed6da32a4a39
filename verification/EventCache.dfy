/** The event model cache. */
module EventCache {
  // The model behind event passports and arbitration: a call budget and a directory of validated answers that
  // outlives the process.

  import opened Wrappers

  datatype Prompt = Extraction | Arbitration

  /** `source` is the text a passport must quote; `rest` stands for the remaining fields. */
  datatype Context = Context(source: string, rest: int)

  datatype Request = Request(prompt: Prompt, context: Context)

  /** Any JSON value. */
  type Response = int

  type Key = nat

  /** What a file of the directory holds: a whole record, or what an interrupted write left. */
  datatype File = Entry(request: Request, response: Response) | Torn

  /** Everything the code takes from elsewhere: the file name of a request, the model's answer to it,
      and the two validators. */
  datatype World = World(
    key: Request -> Key, model: Request -> Response,
    passport: (Response, string) -> bool, decision: Response -> bool)
  {
    predicate Valid(q: Request, r: Response) {
      if q.prompt == Extraction then passport(r, q.context.source) else decision(r)
    }
  }

  const MAX_MODEL_CALLS := 120

  /** `calls` belongs to the process, the two directories to the disk. */
  datatype State = State(files: map<Key, File>, refused: map<Key, File>, calls: nat)

  datatype Answer = Ok(response: Response) | Corrupt | OverBudget | Unavailable | Invalid | Died

  /** One request's surroundings: is the time up, does the transport fail, and does the process die
      before the record is written, in the middle of it, or not at all. */
  datatype Luck = Luck(expired: bool, transportFails: bool, write: Write)

  datatype Write = Whole | Interrupted | Never

  datatype Event = Ask(request: Request, luck: Luck) | Restart

  function Asked(w: World, s: State, q: Request, luck: Luck): (State, Answer) {
    var k := w.key(q);
    if k in s.files then
      if s.files[k].Entry? && s.files[k].request == q then (s, Ok(s.files[k].response)) else (s, Corrupt)
    else if s.calls >= MAX_MODEL_CALLS || luck.expired then (s, OverBudget)
    else
      var paid := s.(calls := s.calls + 1);
      var r := w.model(q);
      if luck.transportFails then (paid, Unavailable)
      else if !w.Valid(q, r) then (paid.(refused := s.refused[k := Entry(q, r)]), Invalid)
      else match luck.write
        case Whole => (paid.(files := s.files[k := Entry(q, r)]), Ok(r))
        case Interrupted => (paid.(files := s.files[k := Torn]), Died)
        case Never => (paid, Died)
  }

  function Next(w: World, s: State, e: Event): State {
    match e
    case Ask(q, luck) => Asked(w, s, q, luck).0
    case Restart => s.(calls := 0)
  }

  function Run(w: World, s: State, es: seq<Event>): State {
    if es == [] then s else Next(w, Run(w, s, es[..|es| - 1]), es[|es| - 1])
  }

  const Empty := State(map[], map[], 0)

  // ---------------------------------------------------------------------- in place

  datatype Item = Item(rawExcerpt: string, summary: string, rest: int)

  const SOURCE_LIMIT := 20000

  function ExtractionContext(item: Item): (c: Context)
    ensures item.rawExcerpt != "" ==> c.source <= item.rawExcerpt
    ensures item.rawExcerpt == "" ==> c.source <= item.summary
    ensures var whole := if item.rawExcerpt == "" then |item.summary| else |item.rawExcerpt|;
      |c.source| <= 20000 && (|c.source| < whole ==> |c.source| == 20000)
  {
    var text := if item.rawExcerpt != "" then item.rawExcerpt else item.summary;
    Context(if |text| <= SOURCE_LIMIT then text else text[..SOURCE_LIMIT], item.rest)
  }

  /** One process's model object over the shared directory. */
  class EventModel {
    const world: World
    var files: map<Key, File>
    var refused: map<Key, File>
    var calls: nat

    function Now(): State
      reads this
    {
      State(files, refused, calls)
    }

    constructor (w: World, kept: map<Key, File>, keptRefused: map<Key, File>)
      ensures world == w && Now() == State(kept, keptRefused, 0)
    {
      world, files, refused, calls := w, kept, keptRefused, 0;
    }

    method Ask(q: Request, luck: Luck) returns (a: Answer)
      modifies this
      ensures (Now(), a) == Asked(world, old(Now()), q, luck)
    {
      var k := world.key(q);
      if k in files {
        if files[k].Torn? || files[k].request != q {
          return Corrupt;
        }
        return Ok(files[k].response);
      }
      if calls >= MAX_MODEL_CALLS || luck.expired {
        return OverBudget;
      }
      calls := calls + 1;
      if luck.transportFails {
        return Unavailable;
      }
      var response := world.model(q);
      if !world.Valid(q, response) {
        refused := refused[k := Entry(q, response)];
        return Invalid;
      }
      if luck.write != Whole {
        files := if luck.write == Interrupted then files[k := Torn] else files;
        return Died;
      }
      files := files[k := Entry(q, response)];
      a := Ok(response);
    }

    /** The answer is validated once more on the way out; on a sound directory that never changes it. */
    method Extract(item: Item, luck: Luck) returns (a: Answer)
      requires Sound(world, Now())
      modifies this
      ensures (Now(), a) == Asked(world, old(Now()), Request(Extraction, ExtractionContext(item)), luck)
      ensures a.Ok? ==> world.passport(a.response, ExtractionContext(item).source)
    {
      var q := Request(Extraction, ExtractionContext(item));
      AnswersAreDirect(world, Now(), q, luck);
      a := Ask(q, luck);
      if a.Ok? && !world.passport(a.response, q.context.source) {
        a := Invalid;
      }
    }
  }

  // -------------------------------------------------------------------- properties

  /** Every whole record sits under its own name and holds the model's own, valid answer; what was
      refused was invalid; the budget is kept. */
  ghost predicate Sound(w: World, s: State) {
    && s.calls <= MAX_MODEL_CALLS
    && (forall k | k in s.files && s.files[k].Entry? ::
          && k == w.key(s.files[k].request)
          && s.files[k].response == w.model(s.files[k].request)
          && w.Valid(s.files[k].request, s.files[k].response))
    && (forall k | k in s.refused ::
          s.refused[k].Entry? && !w.Valid(s.refused[k].request, s.refused[k].response))
  }

  /** Whatever an answer's history, it is the one the model gives directly, and it is valid. */
  lemma AnswersAreDirect(w: World, s: State, q: Request, luck: Luck)
    requires Sound(w, s)
    ensures var (after, a) := Asked(w, s, q, luck);
      && Sound(w, after)
      && (a.Ok? ==> a.response == w.model(q) && w.Valid(q, a.response))
      && (a.Invalid? ==> !w.Valid(q, w.model(q)))
  {
  }

  /** A request is answered exactly if its record is there and whole, or it is not there yet and may be
      asked for, the model replies with something valid, and the record can be written. */
  lemma AnsweredIff(w: World, s: State, q: Request, luck: Luck)
    requires Sound(w, s)
    ensures var k := w.key(q);
      Asked(w, s, q, luck).1.Ok? <==>
        (if k in s.files then s.files[k] != Torn && s.files[k].request == q
         else s.calls < 120 && !luck.expired && !luck.transportFails && w.Valid(q, w.model(q)) && luck.write == Whole)
  {
  }

  /** A restart renews the budget: a request without a file yet is then answered, whatever happened before. */
  lemma RestartServes(w: World, es: seq<Event>, q: Request)
    requires w.key(q) !in Run(w, Empty, es).files && w.Valid(q, w.model(q))
    ensures var again := Run(w, Empty, es + [Restart]);
      Asked(w, again, q, Luck(false, false, Whole)).1 == Ok(w.model(q)) && again.files == Run(w, Empty, es).files
  {
    assert (es + [Restart])[..|es|] == es;
  }

  lemma {:induction false} RunIsSound(w: World, s: State, es: seq<Event>)
    requires Sound(w, s)
    ensures Sound(w, Run(w, s, es))
  {
    if es != [] {
      RunIsSound(w, s, es[..|es| - 1]);
      var before := Run(w, s, es[..|es| - 1]);
      match es[|es| - 1]
      case Ask(q, luck) => AnswersAreDirect(w, before, q, luck);
      case Restart =>
    }
  }

  /** Transparency: after any requests, failures, deaths and restarts from an empty directory, a
      request that is answered at all is answered as the model itself would. */
  lemma {:induction false} Transparent(w: World, es: seq<Event>, q: Request, luck: Luck)
    ensures var a := Asked(w, Run(w, Empty, es), q, luck).1;
      && (a.Ok? ==> a.response == w.model(q) && w.Valid(q, a.response))
      && Run(w, Empty, es).calls <= MAX_MODEL_CALLS
  {
    RunIsSound(w, Empty, es);
    AnswersAreDirect(w, Run(w, Empty, es), q, luck);
  }

  /** A file, whole or torn, is never replaced. */
  lemma {:induction false} FilesStay(w: World, s: State, es: seq<Event>, k: Key)
    requires k in s.files
    ensures k in Run(w, s, es).files && Run(w, s, es).files[k] == s.files[k]
  {
    if es != [] {
      FilesStay(w, s, es[..|es| - 1], k);
    }
  }

  /** One answer is paid for once: after it is stored, every later request for it is free, and gives
      the same answer whatever the budget, the clock or the transport. */
  lemma {:induction false} PaidOnce(w: World, s: State, q: Request, luck: Luck, es: seq<Event>, later: Luck)
    requires Asked(w, s, q, luck).1.Ok?
    ensures var after := Run(w, Asked(w, s, q, luck).0, es);
      Asked(w, after, q, later) == (after, Asked(w, s, q, luck).1)
  {
    FilesStay(w, Asked(w, s, q, luck).0, es, w.key(q));
  }

  /** In particular a request answered once in a run of requests is answered in the rest of it. */
  lemma AnswerOutlives(w: World, es: seq<Event>, q: Request, luck: Luck, later: Luck)
    requires Asked(w, Run(w, Empty, es), q, luck).1.Ok?
    ensures Asked(w, Run(w, Empty, es + [Ask(q, luck)]), q, later).1 == Asked(w, Run(w, Empty, es), q, luck).1
    ensures Run(w, Empty, es + [Ask(q, luck)]).calls <= Run(w, Empty, es).calls + 1
  {
    var before := Run(w, Empty, es);
    assert (es + [Ask(q, luck)])[..|es|] == es;
    assert Run(w, Asked(w, before, q, luck).0, []) == Asked(w, before, q, luck).0;
    PaidOnce(w, before, q, luck, [], later);
  }

  /** An interrupted write fails closed for good: the request is never answered again, nor paid for. */
  lemma {:induction false} TornStaysClosed(w: World, s: State, q: Request, luck: Luck, es: seq<Event>, later: Luck)
    requires Asked(w, s, q, luck).1.Died? && luck.write == Interrupted
    ensures var after := Run(w, Asked(w, s, q, luck).0, es);
      Asked(w, after, q, later) == (after, Corrupt)
  {
    FilesStay(w, Asked(w, s, q, luck).0, es, w.key(q));
  }

  /** Model calls over a whole run, restarts included. */
  function Calls(w: World, s: State, es: seq<Event>): nat {
    if es == [] then 0
    else
      var before := Run(w, s, es[..|es| - 1]);
      Calls(w, s, es[..|es| - 1])
      + if es[|es| - 1].Ask? && Asked(w, before, es[|es| - 1].request, es[|es| - 1].luck).0.calls > before.calls
        then 1 else 0
  }

  /** Every file and every refusal left behind was paid for by a call of its own. */
  lemma {:induction false} EveryFileIsPaid(w: World, es: seq<Event>)
    ensures |Run(w, Empty, es).files| + |Run(w, Empty, es).refused| <= Calls(w, Empty, es)
  {
    if es != [] {
      EveryFileIsPaid(w, es[..|es| - 1]);
      var before := Run(w, Empty, es[..|es| - 1]);
      match es[|es| - 1]
      case Ask(q, luck) =>
        PutSize(before.files, w.key(q), Torn);
        PutSize(before.files, w.key(q), Entry(q, w.model(q)));
        PutSize(before.refused, w.key(q), Entry(q, w.model(q)));
      case Restart =>
    }
  }

  lemma PutSize(m: map<Key, File>, k: Key, f: File)
    ensures |m[k := f]| <= |m| + 1
  {
    assert m[k := f].Keys == m.Keys + {k};
    assert |m[k := f]| == |m[k := f].Keys| && |m| == |m.Keys|;
  }
}
