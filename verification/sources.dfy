/** The registered source adapters as programs over the shared scrape. Everything they read besides,
    the resolved parcel, the downloaded files and the network, is given by a World. */
module Sources {
  import opened Catalog
  import opened Pipeline

  /** File names are "" where the code holds None. A fault is what a fetch or fallback raises. */
  datatype World = World(
    parcelOk: bool, arcgis: bool, hasParcels: bool, buffered: bool,
    parcelFile: string, taxFile: string,
    zone: bool, floodMap: string, floodReport: string,
    marks: bool, sheets: seq<string>,
    fetchFault: StepKey -> Option<Failure>, fallbackFault: StepKey -> Option<Failure>)

  /** No registered adapter raises a SourceError. */
  ghost predicate Plausible(w: World) {
    forall k :: !(w.fetchFault(k).Some? && w.fetchFault(k).value.SourceError?)
  }

  function FileOf(name: string): seq<string> {
    if name == "" then [] else [name]
  }

  function RecordFor(names: seq<string>, source: string): seq<Record> {
    seq(|names|, i requires 0 <= i < |names| => Record("documents/" + names[i], source))
  }

  function Once(fault: Option<Failure>, fs: Fetched): Program {
    Program(0, _ => false, _ => if fault.Some? then Threw(fault.value) else Got(fs))
  }

  function Plain(status: StepStatus, files: seq<string>, source: string): Fetched {
    Fetched(status, files, RecordFor(files, source), None, false)
  }

  function Links(fault: Option<Failure>): Program {
    Once(fault, BARE_LINK)
  }

  function FromClerk(answers: seq<Docs>, key: string): string {
    if answers == [] then "" else Get(answers[0], key)
  }

  /** DeedAdapter, PlatAdapter: the deed asks again for its reference once a deed was found. */
  function ClerkFetch(fault: Option<Failure>, key: string): Program {
    Program(2,
      (answers: seq<Docs>) => fault.None? && (answers == [] || (key == "deed" && |answers| == 1 && FromClerk(answers, key) != "")),
      (answers: seq<Docs>) =>
        if fault.Some? then Threw(fault.value)
        else
          var files := FileOf(FromClerk(answers, key));
          Got(Fetched(Ready, files, RecordFor(files, "clerk"), if files != [] then Some(Medium) else None, false)))
  }

  /** _attempt_clerk_adapter: looks at the scrape for its summary only. */
  function ClerkFamily(fault: Option<Failure>): Program {
    Program(1, (answers: seq<Docs>) => fault.None? && answers == [],
      (answers: seq<Docs>) => if fault.Some? then Threw(fault.value) else Got(Plain(Ready, [], "clerk")))
  }

  function ParcelFetched(w: World): Fetched {
    if w.parcelOk && w.arcgis && w.hasParcels then Plain(Ready, FileOf(w.parcelFile), "parcel")
    else BARE_LINK.(manualReview := w.hasParcels && w.buffered)
  }

  function AppraiserFetched(w: World): Fetched {
    if w.parcelOk && w.hasParcels then Plain(Ready, FileOf(w.taxFile), "appraiser") else BARE_LINK
  }

  function FloodFetched(w: World): Fetched {
    var report := if w.zone then FileOf(w.floodReport) else [];
    var files := FileOf(w.floodMap);
    Fetched(if w.zone || files != [] then Ready else Link, if report != [] then report else files,
            RecordFor(files + report, "nfhl"), None, false)
  }

  function NgsFetched(w: World): Fetched {
    Plain(if w.marks then Ready else Empty, w.sheets, "ngs")
  }

  function AdapterOf(w: World, k: StepKey): Adapter {
    var fault, later := w.fetchFault(k), Links(w.fallbackFault(k));
    match k
    case Parcel => Adapter(Once(fault, ParcelFetched(w)), later)
    case Appraiser => Adapter(Once(fault, AppraiserFetched(w)), later)
    case Deed => Adapter(ClerkFetch(fault, "deed"), later)
    case Plat => Adapter(ClerkFetch(fault, "plat"), later)
    case Flood => Adapter(Once(fault, FloodFetched(w)), later)
    case Benchmarks => Adapter(Once(fault, NgsFetched(w)), later)
    case Glo => Adapter(Links(fault), Links(fault))
    case Zoning => Adapter(Links(fault), Links(fault))
    case _ => Adapter(ClerkFamily(fault), ClerkFamily(fault))
  }

  function Shipped(w: World): Registry {
    map k | k in REFERENCE :: AdapterOf(w, k)
  }

  // ------------------------------------------------------------ what any run of them shows

  /** A registry whose steps never carry the status `error`. */
  ghost predicate Tame(reg: Registry, d: Docs) {
    forall k :: StepFor(reg, k, d).Made? ==> StepFor(reg, k, d).step.status != Broken
  }

  lemma FetchFacts(w: World, k: StepKey, d: Docs)
    ensures var fetched := Eval(AdapterOf(w, k).fetch, d);
      && (fetched.Threw? <==> w.fetchFault(k).Some?)
      && (fetched.Threw? ==> fetched.e == w.fetchFault(k).value)
      && (fetched.Got? ==> fetched.fs.status != Broken)
  {
    hide RecordFor, ParcelFetched, AppraiserFetched, FloodFetched, NgsFetched;
    Statuses(w);
  }

  /** What a fallback gives after its fetch raised: a bare link, unless it raises too. */
  lemma FallbackFacts(w: World, k: StepKey, d: Docs)
    requires w.fetchFault(k).Some?
    ensures var later := Eval(AdapterOf(w, k).fallback, d); later.Got? ==> later.fs == BARE_LINK
  {
    hide RecordFor, ParcelFetched, AppraiserFetched, FloodFetched, NgsFetched;
  }

  lemma ShippedStep(w: World, k: StepKey, d: Docs)
    requires Plausible(w) && k in REFERENCE
    ensures StepFor(Shipped(w), k, d).Made?
    ensures var s := StepFor(Shipped(w), k, d).step;
      && s.status != Broken
      && (s.error.Some? <==> w.fetchFault(k).Some?)
      && (s.error.Some? ==> s.status == Link && s.downloaded == [] && s.records == [])
  {
    hide Classify, OutcomeFor, DefaultConfidence, AdapterOf, Eval;
    FetchFacts(w, k, d);
    if w.fetchFault(k).Some? { FallbackFacts(w, k, d); }
  }

  lemma Statuses(w: World)
    ensures ParcelFetched(w).status != Broken && AppraiserFetched(w).status != Broken
    ensures FloodFetched(w).status != Broken && NgsFetched(w).status != Broken
  {}

  /** With the registered adapters no failure escapes a run, no step is an error, and a source that
      failed shows as a bare link. */
  lemma ShippedRunsReturn(w: World, only: Option<set<StepKey>>, d: Docs)
    requires Plausible(w)
    ensures Build(Shipped(w), Wanted(REFERENCE, only), d).escaped.None?
    ensures Tame(Shipped(w), d)
  {
    var keys := Wanted(REFERENCE, only);
    WantedIn(REFERENCE, only);
    forall k ensures k in REFERENCE && StepFor(Shipped(w), k, d).Made? && StepFor(Shipped(w), k, d).step.status != Broken {
      AllInReference(k);
      ShippedStep(w, k, d);
    }
    hide Shipped, StepFor;
    EscapesIff(Shipped(w), keys, d);
    forall i | 0 <= i < |keys| ensures !Escapes(Shipped(w), keys[i], d) { EscapedStep(Shipped(w), keys[i], d); }
  }

  lemma EscapedStep(reg: Registry, k: StepKey, d: Docs)
    ensures StepFor(reg, k, d).Made? <==> !Escapes(reg, k, d)
  {
    hide Eval, Classify, OutcomeFor, DefaultConfidence;
  }

  lemma AllInReference(k: StepKey)
    ensures k in REFERENCE
  {
    assert REFERENCE[0] == Parcel && REFERENCE[1] == Appraiser && REFERENCE[2] == Deed && REFERENCE[3] == Plat
        && REFERENCE[4] == Adjoiners && REFERENCE[5] == Easements && REFERENCE[6] == PriorSurvey && REFERENCE[7] == Flood
        && REFERENCE[8] == Benchmarks && REFERENCE[9] == Glo && REFERENCE[10] == Condo && REFERENCE[11] == Zoning;
  }

  lemma {:induction false} WantedIn(keys: seq<StepKey>, only: Option<set<StepKey>>)
    ensures forall k :: k in Wanted(keys, only) <==> k in keys && (only.Some? ==> k in only.value)
  {
    if keys != [] {
      assert keys == [keys[0]] + keys[1..];
      WantedIn(keys[1..], only);
    }
  }

  // ------------------------------------------------------------ what each registered step carries

  /** A fetched step of this document with exactly these files, logged under documents/. */
  predicate Carries(s: Step, k: StepKey, files: seq<string>, source: string) {
    && s.key == k && s.status == Ready && s.error.None? && s.downloaded == files
    && |s.records| == |files| && forall i :: 0 <= i < |files| ==> s.records[i] == Record("documents/" + files[i], source)
  }

  /** Asking once, or once more for the reference of a deed that was found, gives the same document. */
  lemma ClerkFetchEval(fault: Option<Failure>, key: string, d: Docs)
    requires fault.None?
    ensures var files := FileOf(Get(d, key));
      Eval(ClerkFetch(fault, key), d) ==
        Got(Fetched(Ready, files, RecordFor(files, "clerk"), if files != [] then Some(Medium) else None, false))
  {
    hide RecordFor, Get;
    var p := ClerkFetch(fault, key);
    assert Same(d, 0) == [] && Same(d, 1) == [d] && Same(d, 2)[0] == d;
    assert Asked(p, d, 0) == Asked(p, d, 1);
  }

  /** The deed step carries the scrape's deed and the plat step its plat, with medium confidence; a
      scrape without one leaves a fetched step without files. */
  lemma ClerkSteps(w: World, k: StepKey, d: Docs)
    requires (k == Deed || k == Plat) && w.fetchFault(k).None?
    ensures StepFor(Shipped(w), k, d).Made?
    ensures var s, file := StepFor(Shipped(w), k, d).step, Get(d, if k == Deed then "deed" else "plat");
      && Carries(s, k, if file == "" then [] else [file], "clerk")
      && s.confidence == (if file == "" then High else Medium) && s.outcome == Auto
  {
    AllInReference(k);
    ClerkFetchEval(w.fetchFault(k), if k == Deed then "deed" else "plat", d);
    assert Shipped(w)[k] == AdapterOf(w, k);
    hide Eval, Shipped, ClerkFetch;
    SuccessShows(Shipped(w), k, d);
  }

  /** The steps that only look at the scrape, or only link. */
  lemma FamilySteps(w: World, k: StepKey, d: Docs)
    requires k in {Adjoiners, Easements, PriorSurvey, Condo, Glo, Zoning} && w.fetchFault(k).None?
    ensures StepFor(Shipped(w), k, d).Made?
    ensures var s := StepFor(Shipped(w), k, d).step;
      if k == Glo || k == Zoning then s == Step(k, Link, LinkOnly, Low, [], [], None) else Carries(s, k, [], "clerk")
  {
    AllInReference(k);
    var fs := if k == Glo || k == Zoning then BARE_LINK else Plain(Ready, [], "clerk");
    assert Shipped(w)[k] == AdapterOf(w, k);
    assert Eval(AdapterOf(w, k).fetch, d) == Got(fs);
    hide Eval, Shipped, AdapterOf;
    SuccessShows(Shipped(w), k, d);
  }

  /** The parcel step is fetched exactly for a trusted parcel with records, and asks for review exactly
      if a parcel was found by a buffered match; the tax record needs a trusted parcel with records. */
  lemma ParcelSteps(w: World, d: Docs)
    requires w.fetchFault(Parcel).None? && w.fetchFault(Appraiser).None?
    ensures StepFor(Shipped(w), Parcel, d).Made? && StepFor(Shipped(w), Appraiser, d).Made?
    ensures var p, a := StepFor(Shipped(w), Parcel, d).step, StepFor(Shipped(w), Appraiser, d).step;
      && (if w.parcelOk && w.arcgis && w.hasParcels
          then Carries(p, Parcel, FileOf(w.parcelFile), "parcel")
          else p == Step(Parcel, Link, if w.hasParcels && w.buffered then ManualReview else LinkOnly, Low, [], [], None))
      && (if w.parcelOk && w.hasParcels
          then Carries(a, Appraiser, FileOf(w.taxFile), "appraiser")
          else a == Step(Appraiser, Link, LinkOnly, Low, [], [], None))
  {
    AllInReference(Parcel);
    AllInReference(Appraiser);
    assert Shipped(w)[Parcel] == AdapterOf(w, Parcel) && Shipped(w)[Appraiser] == AdapterOf(w, Appraiser);
    assert Eval(AdapterOf(w, Parcel).fetch, d) == Got(ParcelFetched(w));
    assert Eval(AdapterOf(w, Appraiser).fetch, d) == Got(AppraiserFetched(w));
    hide Eval, Shipped, AdapterOf;
    SuccessShows(Shipped(w), Parcel, d);
    SuccessShows(Shipped(w), Appraiser, d);
  }

  /** The flood step offers its report, or else the map, and logs both; the control step offers the
      data sheets and is empty without marks. */
  lemma FederalSteps(w: World, d: Docs)
    requires w.fetchFault(Flood).None? && w.fetchFault(Benchmarks).None?
    ensures StepFor(Shipped(w), Flood, d).Made? && StepFor(Shipped(w), Benchmarks, d).Made?
    ensures var f, b := StepFor(Shipped(w), Flood, d).step, StepFor(Shipped(w), Benchmarks, d).step;
      && (f.status == Ready <==> w.zone || w.floodMap != "") && (f.status == Link <==> !w.zone && w.floodMap == "")
      && f.downloaded == (if w.zone && w.floodReport != "" then [w.floodReport] else FileOf(w.floodMap))
      && (var logged := FileOf(w.floodMap) + (if w.zone then FileOf(w.floodReport) else []);
          |f.records| == |logged| && forall i :: 0 <= i < |logged| ==> f.records[i] == Record("documents/" + logged[i], "nfhl"))
      && (b.status == Ready <==> w.marks) && (b.status == Empty <==> !w.marks)
      && b.downloaded == w.sheets && |b.records| == |w.sheets|
      && (forall i :: 0 <= i < |w.sheets| ==> b.records[i] == Record("documents/" + w.sheets[i], "ngs"))
  {
    AllInReference(Flood);
    AllInReference(Benchmarks);
    assert Shipped(w)[Flood] == AdapterOf(w, Flood) && Shipped(w)[Benchmarks] == AdapterOf(w, Benchmarks);
    assert Eval(AdapterOf(w, Flood).fetch, d) == Got(FloodFetched(w));
    assert Eval(AdapterOf(w, Benchmarks).fetch, d) == Got(NgsFetched(w));
    hide Eval, Shipped, AdapterOf;
    SuccessShows(Shipped(w), Flood, d);
    SuccessShows(Shipped(w), Benchmarks, d);
  }
}
