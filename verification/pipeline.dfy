/** Assembly of the document steps of one research run: the include filter, the conversion of source
    failures into fallback steps, the manifest, and the clerk scrape shared through the context. */
module Pipeline {
  import opened Catalog

  /** What a clerk scrape found: file names and references by key. */
  type Docs = map<string, string>

  /** dict.get; a missing entry and an empty one are alike false. */
  function Get(d: Docs, k: string): string {
    if k in d then d[k] else ""
  }

  datatype StepStatus = Ready | Link | Empty | Broken

  datatype SourceOutcome = Auto | LinkOnly | SourceBlocked | SourceBroken | Retryable | ManualReview

  datatype Confidence = High | Medium | Low | Nil

  /** A manifest entry: a file and where it came from. */
  datatype Record = Record(file: string, source: string)

  /** What an adapter returns, without its display texts. */
  datatype Fetched = Fetched(status: StepStatus, downloaded: seq<string>, records: seq<Record>,
                             confidence: Option<Confidence>, manualReview: bool)

  /** A step's machine-readable error; Http(0) is a response without a status. */
  datatype Code = Named(name: string) | Http(status: nat)

  datatype ErrorInfo = ErrorInfo(code: Code, retryable: bool)

  /** What an adapter may raise. */
  datatype Failure =
    | SourceError(outcome: SourceOutcome, code: string, retryable: bool)
    | HttpError(status: nat)
    | NetworkError
    | OtherError

  datatype Attempt = Got(fs: Fetched) | Threw(e: Failure)

  /** One adapter call: from the scrape results it has been given so far it decides whether to ask for
      them once more, at most `bound` times, and what to return or raise. Everything else it does, its
      own network and file access, is in these functions. */
  datatype Program = Program(bound: nat, asks: seq<Docs> -> bool, result: seq<Docs> -> Attempt)

  datatype Adapter = Adapter(fetch: Program, fallback: Program)

  type Registry = map<StepKey, Adapter>

  datatype Step = Step(key: StepKey, status: StepStatus, outcome: SourceOutcome, confidence: Confidence,
                       downloaded: seq<string>, records: seq<Record>, error: Option<ErrorInfo>)

  // ------------------------------------------------------------ steps._run_one

  function OutcomeFor(fs: Fetched): SourceOutcome {
    if fs.manualReview then ManualReview
    else if fs.status == Ready || fs.status == Empty then Auto
    else LinkOnly
  }

  function DefaultConfidence(fs: Fetched): Confidence {
    if fs.manualReview then Low
    else if fs.status == Ready then High
    else if fs.status == Empty then Medium
    else Low
  }

  function CodeFor(o: SourceOutcome): string {
    match o
    case SourceBlocked => "SOURCE_BLOCKED"
    case SourceBroken => "SOURCE_BROKEN"
    case Retryable => "SOURCE_UNREACHABLE"
    case LinkOnly => "LINK_ONLY"
    case Auto => "AUTO"
    case ManualReview => "MANUAL_REVIEW"
  }

  datatype Class = Class(outcome: SourceOutcome, error: ErrorInfo)

  /** sources.classify_exception; a SourceError names itself. */
  function Classify(e: Failure): Class {
    match e
    case SourceError(o, c, r) => Class(o, ErrorInfo(Named(if c != "" then c else CodeFor(o)), r))
    case HttpError(s) =>
      if s == 401 || s == 403 || s == 406 || s == 429 then Class(SourceBlocked, ErrorInfo(Http(s), false))
      else if s == 404 || s == 410 then Class(SourceBroken, ErrorInfo(Http(s), false))
      else Class(SourceBroken, ErrorInfo(Http(s), true))
    case NetworkError => Class(Retryable, ErrorInfo(Named("CONNECTION_FAILED"), true))
    case OtherError => Class(Retryable, ErrorInfo(Named("ADAPTER_ERROR"), true))
  }

  /** The step of last resort, and that of a document without an adapter. */
  const BARE_LINK := Fetched(Link, [], [], None, false)

  function Make(k: StepKey, fs: Fetched, o: SourceOutcome, error: Option<ErrorInfo>, confidence: Confidence): Step {
    Step(k, fs.status, o, confidence, fs.downloaded, fs.records, error)
  }

  /** How often a program asks when every scrape gives d, having asked n times. */
  function Asked(p: Program, d: Docs, n: nat): (m: nat)
    requires n <= p.bound
    decreases p.bound - n
  {
    if n < p.bound && p.asks(Same(d, n)) then Asked(p, d, n + 1) else n
  }

  function Same(d: Docs, n: nat): seq<Docs> {
    seq(n, i => d)
  }

  /** The program run where the scrape is simply known to give d. */
  function Eval(p: Program, d: Docs): Attempt {
    p.result(Same(d, Asked(p, d, 0)))
  }

  datatype Made = Made(step: Step) | Escaped(e: Failure)

  function RunOne(k: StepKey, a: Adapter, d: Docs): Made {
    match Eval(a.fetch, d)
    case Got(fs) =>
      Made(Make(k, fs, OutcomeFor(fs), None, if fs.confidence.Some? then fs.confidence.value else DefaultConfidence(fs)))
    case Threw(e) =>
      var c := Classify(e);
      match Eval(a.fallback, d)
      case Got(fs) => Made(Make(k, fs, c.outcome, Some(c.error), Nil))
      case Threw(e') =>
        if e.SourceError? then Escaped(e') else Made(Make(k, BARE_LINK, c.outcome, Some(c.error), Nil))
  }

  function StepFor(reg: Registry, k: StepKey, d: Docs): Made {
    if k in reg then RunOne(k, reg[k], d) else Made(Make(k, BARE_LINK, LinkOnly, None, Low))
  }

  // ------------------------------------------------------------ steps.build_steps

  function Wanted(keys: seq<StepKey>, only: Option<set<StepKey>>): seq<StepKey> {
    if keys == [] then []
    else (if only.Some? && keys[0] !in only.value then [] else [keys[0]]) + Wanted(keys[1..], only)
  }

  /** The steps made, up to the first exception that escapes. */
  datatype Built = Built(steps: seq<Step>, escaped: Option<Failure>)

  function Build(reg: Registry, keys: seq<StepKey>, d: Docs): Built {
    if keys == [] then Built([], None)
    else match StepFor(reg, keys[0], d)
      case Escaped(e) => Built([], Some(e))
      case Made(s) =>
        var rest := Build(reg, keys[1..], d);
        Built([s] + rest.steps, rest.escaped)
  }

  /** The whole of build_steps; without a directory it raises at once. */
  function RunSteps(reg: Registry, keys: seq<StepKey>, d: Docs, dirMade: bool): Built {
    if dirMade then Build(reg, keys, d) else Built([], Some(OtherError))
  }

  function Prepend(steps: seq<Step>, b: Built): Built {
    Built(steps + b.steps, b.escaped)
  }

  lemma SkipOne(keys: seq<StepKey>, only: Option<set<StepKey>>)
    requires keys != [] && only.Some? && keys[0] !in only.value
    ensures Wanted(keys, only) == Wanted(keys[1..], only)
  {}

  lemma TakeOne(reg: Registry, keys: seq<StepKey>, only: Option<set<StepKey>>, d: Docs, steps: seq<Step>)
    requires keys != [] && (only.Some? ==> keys[0] in only.value)
    ensures match StepFor(reg, keys[0], d)
      case Made(s) => Prepend(steps, Build(reg, Wanted(keys, only), d))
                      == Prepend(steps + [s], Build(reg, Wanted(keys[1..], only), d))
      case Escaped(e) => Prepend(steps, Build(reg, Wanted(keys, only), d)) == Built(steps, Some(e))
  {
    hide StepFor;
    assert Wanted(keys, only)[1..] == Wanted(keys[1..], only);
  }

  function RecordsOf(steps: seq<Step>): seq<Record> {
    if steps == [] then [] else steps[0].records + RecordsOf(steps[1..])
  }

  lemma {:induction false} RecordsOfSum(a: seq<Step>, b: seq<Step>)
    ensures RecordsOf(a + b) == RecordsOf(a) + RecordsOf(b)
  {
    if a == [] {
      assert a + b == b;
    } else {
      assert (a + b)[1..] == a[1..] + b;
      RecordsOfSum(a[1..], b);
    }
  }

  /** The mutable part of the property context that the adapters touch. */
  class Context {
    const site: nat -> Docs   // what the n-th scrape of the clerk's site would find
    var cache: Option<Docs>
    var scrapes: nat
    var manifest: seq<Record>

    constructor (site: nat -> Docs)
      ensures this.site == site && Valid() && manifest == [] && Seen() == site(0)
    {
      this.site, cache, scrapes, manifest := site, None, 0, [];
    }

    /** The clerk's site was scraped once if there is a cached result, and never otherwise. */
    predicate Valid()
      reads this
    {
      scrapes == (if cache.Some? then 1 else 0) && (cache.Some? ==> cache.value == site(0))
    }

    /** What every adapter of this run is given, whether it has been scraped yet or not. */
    function Seen(): Docs
      reads this
    {
      site(0)
    }

    /** sources._scrape_documents: an empty result is cached like any other. */
    method ScrapeDocuments() returns (docs: Docs)
      requires Valid()
      modifies this`cache, this`scrapes
      ensures Valid() && docs == Seen() && cache == Some(docs)
    {
      if cache.Some? { return cache.value; }
      docs := site(scrapes);
      scrapes := scrapes + 1;
      cache := Some(docs);
    }

    /** Run an adapter call against the cache. */
    method Execute(p: Program) returns (a: Attempt)
      requires Valid()
      modifies this`cache, this`scrapes
      ensures Valid() && a == Eval(p, Seen())
      ensures scrapes == old(scrapes) || scrapes == old(scrapes) + 1 == 1
    {
      var answers: seq<Docs> := [];
      while |answers| < p.bound && p.asks(answers)
        invariant Valid() && |answers| <= p.bound && answers == Same(Seen(), |answers|)
        invariant Asked(p, Seen(), |answers|) == Asked(p, Seen(), 0)
        invariant scrapes == old(scrapes) || scrapes == old(scrapes) + 1 == 1
        decreases p.bound - |answers|
      {
        var docs := ScrapeDocuments();
        answers := answers + [docs];
      }
      a := p.result(answers);
    }

    /** steps._assemble: the one place that logs to the manifest. */
    method Assemble(k: StepKey, fs: Fetched, o: SourceOutcome, error: Option<ErrorInfo>, confidence: Confidence)
      returns (s: Step)
      modifies this`manifest
      ensures s == Make(k, fs, o, error, confidence) && manifest == old(manifest) + s.records
    {
      manifest := manifest + fs.records;
      s := Make(k, fs, o, error, confidence);
    }

    method RunStep(k: StepKey, a: Adapter) returns (r: Made)
      requires Valid()
      modifies this
      ensures Valid() && r == RunOne(k, a, Seen())
      ensures manifest == old(manifest) + (if r.Made? then r.step.records else [])
    {
      hide Eval;
      var s: Step;
      var fetched := Execute(a.fetch);
      if fetched.Got? {
        var fs := fetched.fs;
        s := Assemble(k, fs, OutcomeFor(fs), None,
                      if fs.confidence.Some? then fs.confidence.value else DefaultConfidence(fs));
        return Made(s);
      }
      var verdict := Classify(fetched.e);
      var instead := Execute(a.fallback);
      if fetched.e.SourceError? && instead.Threw? { return Escaped(instead.e); }
      s := Assemble(k, if instead.Got? then instead.fs else BARE_LINK, verdict.outcome, Some(verdict.error), Nil);
      return Made(s);
    }

    /** build_steps over the reference documents: the wanted steps in reference order, each as if it
        were the only one, with the manifest grown by exactly their records. dirMade: the directory for
        the documents could be created, which is tried before anything else. */
    method BuildSteps(reg: Registry, only: Option<set<StepKey>>, dirMade: bool) returns (b: Built)
      requires Valid()
      modifies this
      ensures Valid() && b == RunSteps(reg, Wanted(REFERENCE, only), Seen(), dirMade)
      ensures manifest == old(manifest) + RecordsOf(b.steps)
    {
      if !dirMade { return Built([], Some(OtherError)); }
      b := AssembleAll(reg, only);
    }

    /** The loop of build_steps. */
    method AssembleAll(reg: Registry, only: Option<set<StepKey>>) returns (b: Built)
      requires Valid()
      modifies this
      ensures Valid() && b == Build(reg, Wanted(REFERENCE, only), Seen())
      ensures manifest == old(manifest) + RecordsOf(b.steps)
    {
      hide RunOne, Build, Wanted, Prepend, RecordsOf;
      ghost var all := Build(reg, Wanted(REFERENCE, only), Seen());
      var steps: seq<Step> := [];
      assert RecordsOf([]) == [] && all == Prepend([], all) by { NothingYet(all); }
      for i := 0 to |REFERENCE|
        invariant Valid()
        invariant manifest == old(manifest) + RecordsOf(steps)
        invariant all == Prepend(steps, Build(reg, Wanted(REFERENCE[i..], only), Seen()))
      {
        var k := REFERENCE[i];
        assert REFERENCE[i..][1..] == REFERENCE[i + 1..] && REFERENCE[i..][0] == k;
        if only.Some? && k !in only.value {
          SkipOne(REFERENCE[i..], only);
          continue;
        }
        TakeOne(reg, REFERENCE[i..], only, Seen(), steps);
        var made: Made;
        if k in reg {
          made := RunStep(k, reg[k]);
        } else {
          var s := Assemble(k, BARE_LINK, LinkOnly, None, Low);
          made := Made(s);
        }
        if made.Escaped? { return Built(steps, Some(made.e)); }
        RecordsGrow(steps, made.step);
        steps := steps + [made.step];
      }
      NothingLeft(reg, only, Seen(), steps);
      return Built(steps, None);
    }
  }

  lemma NothingYet(b: Built)
    ensures RecordsOf([]) == [] && b == Prepend([], b)
  {}

  lemma RecordsGrow(steps: seq<Step>, s: Step)
    ensures RecordsOf(steps + [s]) == RecordsOf(steps) + s.records
  {
    RecordsOfSum(steps, [s]);
  }

  lemma NothingLeft(reg: Registry, only: Option<set<StepKey>>, d: Docs, steps: seq<Step>)
    ensures Prepend(steps, Build(reg, Wanted(REFERENCE[|REFERENCE|..], only), d)) == Built(steps, None)
  {}

  // ------------------------------------------------------------ include is projection

  function StepsIn(steps: seq<Step>, wanted: set<StepKey>): seq<Step> {
    if steps == [] then []
    else (if steps[0].key in wanted then [steps[0]] else []) + StepsIn(steps[1..], wanted)
  }

  lemma KeyOfStep(reg: Registry, k: StepKey, d: Docs)
    ensures StepFor(reg, k, d).Made? ==> StepFor(reg, k, d).step.key == k
  {
    hide Classify, OutcomeFor, DefaultConfidence;
  }

  lemma {:induction false} BuildIsProjection(reg: Registry, keys: seq<StepKey>, wanted: set<StepKey>, d: Docs)
    requires Build(reg, keys, d).escaped.None?
    ensures Build(reg, Wanted(keys, Some(wanted)), d) == Built(StepsIn(Build(reg, keys, d).steps, wanted), None)
  {
    hide StepFor;
    if keys != [] {
      KeyOfStep(reg, keys[0], d);
      BuildIsProjection(reg, keys[1..], wanted, d);
      if keys[0] in wanted {
        TakeOne(reg, keys, Some(wanted), d, []);
      } else {
        SkipOne(keys, Some(wanted));
      }
    }
  }

  /** A run that includes only some steps makes exactly the steps, in the same order and with the same
      contents, that the run of all documents makes for them. */
  lemma IncludeIsProjection(reg: Registry, wanted: set<StepKey>, d: Docs)
    requires Build(reg, REFERENCE, d).escaped.None?
    ensures Wanted(REFERENCE, None) == REFERENCE
    ensures Build(reg, Wanted(REFERENCE, Some(wanted)), d) == Built(StepsIn(Build(reg, REFERENCE, d).steps, wanted), None)
  {
    WantedAll(REFERENCE);
    BuildIsProjection(reg, REFERENCE, wanted, d);
  }

  lemma {:induction false} WantedAll(keys: seq<StepKey>)
    ensures Wanted(keys, None) == keys
  {
    if keys != [] { WantedAll(keys[1..]); }
  }

  // ------------------------------------------------------------ what can escape, what failures become

  predicate Escapes(reg: Registry, k: StepKey, d: Docs) {
    k in reg && Eval(reg[k].fetch, d).Threw? && Eval(reg[k].fetch, d).e.SourceError? && Eval(reg[k].fallback, d).Threw?
  }

  /** The documented guarantee that no failure escapes a step has one exception: some wanted step
      raises a source error and then raises again in its fallback. */
  lemma {:induction false} EscapesIff(reg: Registry, keys: seq<StepKey>, d: Docs)
    ensures Build(reg, keys, d).escaped.Some? <==> exists i :: 0 <= i < |keys| && Escapes(reg, keys[i], d)
  {
    hide Eval, Classify, OutcomeFor, DefaultConfidence;
    if keys != [] {
      EscapesIff(reg, keys[1..], d);
      assert StepFor(reg, keys[0], d).Escaped? <==> Escapes(reg, keys[0], d);
      hide Escapes, StepFor;
      if exists i :: 0 <= i < |keys| && Escapes(reg, keys[i], d) {
        var i :| 0 <= i < |keys| && Escapes(reg, keys[i], d);
        if i > 0 { assert keys[1..][i - 1] == keys[i]; }
      }
      if Build(reg, keys[1..], d).escaped.Some? {
        var i :| 0 <= i < |keys[1..]| && Escapes(reg, keys[1..][i], d);
        assert keys[i + 1] == keys[1..][i];
      }
    }
  }

  /** The same for build_steps as a whole. */
  lemma RunRaisesIff(reg: Registry, keys: seq<StepKey>, d: Docs, dirMade: bool)
    ensures RunSteps(reg, keys, d, dirMade).escaped.Some?
      <==> !dirMade || exists i :: 0 <= i < |keys| && Escapes(reg, keys[i], d)
  {
    EscapesIff(reg, keys, d);
  }

  /** A step carries an error exactly when its fetch raised; then nothing of the failed fetch shows:
      status, files and records are the fallback's, or those of a bare link. */
  lemma ErrorMeansFallback(reg: Registry, k: StepKey, d: Docs)
    requires k in reg && StepFor(reg, k, d).Made?
    ensures var s := StepFor(reg, k, d).step;
      && (s.error.Some? <==> Eval(reg[k].fetch, d).Threw?)
      && (s.error.Some? ==>
            && s.confidence == Nil
            && match Eval(reg[k].fallback, d)
               case Got(fs) => s.status == fs.status && s.downloaded == fs.downloaded && s.records == fs.records
               case Threw(_) => s.status == Link && s.downloaded == [] && s.records == [])
  {
    hide Eval, Classify, OutcomeFor, DefaultConfidence;
  }

  /** A fetch that succeeds is shown as it is: its status, files and records, no error, its own
      confidence or else the default of its status, and manual review exactly if it asked for it. */
  lemma SuccessShows(reg: Registry, k: StepKey, d: Docs)
    requires k in reg && Eval(reg[k].fetch, d).Got?
    ensures StepFor(reg, k, d).Made?
    ensures var s, fs := StepFor(reg, k, d).step, Eval(reg[k].fetch, d).fs;
      && s.key == k && s.status == fs.status && s.downloaded == fs.downloaded && s.records == fs.records && s.error == None
      && (s.outcome == ManualReview <==> fs.manualReview)
      && (s.outcome == Auto <==> !fs.manualReview && (fs.status == Ready || fs.status == Empty))
      && (s.outcome == LinkOnly <==> !fs.manualReview && (fs.status == Link || fs.status == Broken))
      && (fs.confidence.Some? ==> s.confidence == fs.confidence.value)
      && (fs.confidence.None? ==>
            && (s.confidence == High <==> !fs.manualReview && fs.status == Ready)
            && (s.confidence == Medium <==> !fs.manualReview && fs.status == Empty)
            && (s.confidence == Low <==> fs.manualReview || fs.status == Link || fs.status == Broken))
  {
    hide Eval;
  }

  /** What a failed fetch says about its failure: a source error speaks for itself, an HTTP status tells
      a refusal from a broken source, and anything else is worth a retry. */
  lemma FailureShows(reg: Registry, k: StepKey, d: Docs)
    requires k in reg && Eval(reg[k].fetch, d).Threw? && StepFor(reg, k, d).Made?
    ensures var s, e := StepFor(reg, k, d).step, Eval(reg[k].fetch, d).e;
      && s.key == k && s.error.Some?
      && (e.SourceError? ==> s.outcome == e.outcome && s.error.value.retryable == e.retryable
                             && (e.code != "" ==> s.error.value.code == Named(e.code)))
      && (e.SourceError? && e.code == "" ==>
            && (e.outcome == SourceBlocked ==> s.error.value.code == Named("SOURCE_BLOCKED"))
            && (e.outcome == SourceBroken ==> s.error.value.code == Named("SOURCE_BROKEN"))
            && (e.outcome == Retryable ==> s.error.value.code == Named("SOURCE_UNREACHABLE"))
            && (e.outcome == LinkOnly ==> s.error.value.code == Named("LINK_ONLY"))
            && (e.outcome == Auto ==> s.error.value.code == Named("AUTO"))
            && (e.outcome == ManualReview ==> s.error.value.code == Named("MANUAL_REVIEW")))
      && (e.HttpError? ==> s.error.value.code == Http(e.status)
                           && s.outcome == (if e.status in {401, 403, 406, 429} then SourceBlocked else SourceBroken)
                           && (s.error.value.retryable <==> e.status !in {401, 403, 404, 406, 410, 429}))
      && (e.NetworkError? ==> s.outcome == Retryable && s.error.value == ErrorInfo(Named("CONNECTION_FAILED"), true))
      && (e.OtherError? ==> s.outcome == Retryable && s.error.value == ErrorInfo(Named("ADAPTER_ERROR"), true))
  {
    hide Eval, OutcomeFor, DefaultConfidence;
  }

  /** A document without an adapter is a link, by design and not by failure. */
  lemma NoAdapterShows(reg: Registry, k: StepKey, d: Docs)
    requires k !in reg
    ensures StepFor(reg, k, d) == Made(Step(k, Link, LinkOnly, Low, [], [], None))
  {}

  /** Without an include list every reference document gets its step; with one, exactly the included. */
  lemma {:induction false} StepKeys(reg: Registry, keys: seq<StepKey>, d: Docs)
    requires Build(reg, keys, d).escaped.None?
    ensures var steps := Build(reg, keys, d).steps;
      |steps| == |keys| && forall i :: 0 <= i < |keys| ==> Made(steps[i]) == StepFor(reg, keys[i], d) && steps[i].key == keys[i]
  {
    if keys != [] {
      KeyOfStep(reg, keys[0], d);
      hide StepFor;
      StepKeys(reg, keys[1..], d);
    }
  }
}
