/** The document fetcher that the worker calls: one research run for the requested types, its steps
    turned into documents, their artifacts uploaded. */
module Fetcher {
  import opened Catalog
  import opened Lifecycle
  import opened Uploads
  import BlobKeys
  import Pipeline
  import Protocol
  import Sources

  type Step = Pipeline.Step

  type Registry = Pipeline.Registry

  // ------------------------------------------------------------ adapters.fetch

  function MapStatus(s: Pipeline.StepStatus): FinalStatus {
    match s
    case Ready => Uploaded
    case Link => Fetched
    case Empty => Skipped
    case Broken => DocFailed
  }

  function ErrorFor(o: Pipeline.SourceOutcome, c: Pipeline.Code): DocError {
    if o == Pipeline.SourceBlocked || o == Pipeline.SourceBroken then SourceUnavailable
    else if o == Pipeline.Retryable then Timeout
    else if c == Pipeline.Named("PARCEL_NOT_FOUND") then ParcelNotFound
    else if c == Pipeline.Named("LINK_ONLY") then SourceUnavailable
    else InternalError
  }

  function DocOf(s: Step): Doc {
    Doc(MapStatus(s.status), None, if s.error.Some? then Some(ErrorFor(s.outcome, s.error.value.code)) else None)
  }

  /** The order the run is for, and the weather of each step's upload. */
  datatype Job = Job(tenant: Option<string>, order: string, weather: StepKey -> Weather, sha: Bytes -> Digest)

  function OwnerOf(j: Job, d: DocType): Owner {
    Owner(j.tenant, j.order, Name(d))
  }

  /** What a document's error says about the failure behind it: the source answered, or it did not. A
      plain failure is worth retrying unless the source refused us or the page is gone. */
  lemma ErrorTells(e: Pipeline.Failure)
    requires !e.SourceError?
    ensures var c := Pipeline.Classify(e);
      && ErrorFor(c.outcome, c.error.code) == (if e.HttpError? then SourceUnavailable else Timeout)
      && (!c.error.retryable <==> e.HttpError? && e.status in {401, 403, 404, 406, 410, 429})
  {}

  /** The error recorded for a source error is that of its outcome, or else of its code. */
  lemma SourceErrorTells(o: Pipeline.SourceOutcome, c: string)
    ensures var e := ErrorFor(o, Pipeline.Named(c));
      && (o == Pipeline.SourceBlocked || o == Pipeline.SourceBroken ==> e == SourceUnavailable)
      && (o == Pipeline.Retryable ==> e == Timeout)
      && (o == Pipeline.Auto || o == Pipeline.LinkOnly || o == Pipeline.ManualReview ==>
            && (e == ParcelNotFound <==> c == "PARCEL_NOT_FOUND")
            && (e == SourceUnavailable <==> c == "LINK_ONLY")
            && (e == InternalError <==> c != "PARCEL_NOT_FOUND" && c != "LINK_ONLY"))
  {}

  /** One step: its document, uploaded if the step is fine. */
  function Deliver(h: Holdings, s: Step, d: DocType, j: Job): Effect {
    if MapStatus(s.status) == Uploaded
    then Upload(h, DocOf(s), s.downloaded, OwnerOf(j, d), j.weather(s.key), j.sha)
    else Effect(h, DocOf(s))
  }

  predicate Requested(s: Step, names: seq<string>) {
    TypeOf(s.key).Some? && Name(TypeOf(s.key).value) in names
  }

  datatype Collected = Collected(after: Holdings, docs: map<DocType, Doc>)

  function Collect(h: Holdings, steps: seq<Step>, names: seq<string>, j: Job): Collected {
    if steps == [] then Collected(h, map[])
    else
      var before := Collect(h, steps[..|steps| - 1], names, j);
      var s := steps[|steps| - 1];
      if !Requested(s, names) then before
      else
        var d := TypeOf(s.key).value;
        var e := Deliver(before.after, s, d, j);
        Collected(e.after, before.docs[d := e.doc])
  }

  /** The steps that the requested names include; unknown names include none. */
  function StepsFor(names: seq<string>): set<StepKey> {
    set i | 0 <= i < |names| && ByName(names[i]).Some? :: StepOf(ByName(names[i]).value)
  }

  datatype Result = Returned(docs: map<DocType, Doc>) | Raised

  /** Whether a run's own files could be written: the directory for the documents, before its steps,
      and the manifest and result, after them. */
  datatype Disk = Disk(dirMade: bool, written: bool)

  predicate Writable(disk: Disk) {
    disk.dirMade && disk.written
  }

  function StepsOfRun(reg: Registry, names: seq<string>, seen: Pipeline.Docs): seq<Step> {
    Pipeline.Build(reg, Pipeline.Wanted(REFERENCE, Some(StepsFor(names))), seen).steps
  }

  /** The result of a run that had a context: it raises if build_steps does or if its manifest or
      result cannot be written, and then nothing is uploaded. */
  function ResultOf(h: Holdings, reg: Registry, names: seq<string>, j: Job, seen: Pipeline.Docs, disk: Disk): Result {
    var b := Pipeline.RunSteps(reg, Pipeline.Wanted(REFERENCE, Some(StepsFor(names))), seen, disk.dirMade);
    if b.escaped.Some? || !disk.written then Raised else Returned(Collect(h, b.steps, names, j).docs)
  }

  /** Resolution of the property context may raise; otherwise it gives the context of the run. */
  method Fetch(vault: Vault, context: Pipeline.Context?, reg: Registry, names: seq<string>, j: Job, disk: Disk)
    returns (r: Result)
    requires context != null ==> context.Valid()
    modifies vault, context
    ensures StepsFor(names) == {} ==> r == Returned(map[])
    ensures StepsFor(names) != {} ==>
      r == (if context == null then Raised else ResultOf(old(vault.Held()), reg, names, j, context.Seen(), disk))
    ensures r.Raised? || StepsFor(names) == {} ==> vault.Held() == old(vault.Held())
    ensures r.Returned? && StepsFor(names) != {} ==>
      vault.Held() == Collect(old(vault.Held()), StepsOfRun(reg, names, context.Seen()), names, j).after
  {
    var wanted := StepsFor(names);
    if wanted == {} { return Returned(map[]); }
    if context == null { return Raised; }
    var b := context.BuildSteps(reg, Some(wanted), disk.dirMade);
    if b.escaped.Some? { return Raised; }
    if !disk.written { return Raised; }
    hide Collect, StepsFor, Pipeline.Build, Pipeline.Wanted;
    var docs := DeliverAll(vault, b.steps, names, j);
    return Returned(docs);
  }

  /** The loop of the fetcher over the steps of the run. */
  method DeliverAll(vault: Vault, steps: seq<Step>, names: seq<string>, j: Job) returns (docs: map<DocType, Doc>)
    modifies vault
    ensures Collected(vault.Held(), docs) == Collect(old(vault.Held()), steps, names, j)
  {
    hide Upload, Name, TypeOf, OwnerOf;
    docs := map[];
    for i := 0 to |steps|
      invariant Collected(vault.Held(), docs) == Collect(old(vault.Held()), steps[..i], names, j)
    {
      var s := steps[i];
      assert steps[..i + 1][..i] == steps[..i];
      if !Requested(s, names) { continue; }
      var d := TypeOf(s.key).value;
      var doc := DocOf(s);
      if MapStatus(s.status) == Uploaded {
        doc := vault.UploadArtifact(doc, s.downloaded, OwnerOf(j, d), j.weather(s.key), j.sha);
      }
      docs := docs[d := doc];
    }
    assert steps[..|steps|] == steps;
  }

  // ------------------------------------------------------------ the keys

  lemma {:induction false} CollectKeys(h: Holdings, steps: seq<Step>, names: seq<string>, j: Job)
    ensures forall d ::
      d in Collect(h, steps, names, j).docs <==> exists i :: 0 <= i < |steps| && TypeOf(steps[i].key) == Some(d) && Name(d) in names
  {
    hide Deliver, TypeOf, Name;
    if steps != [] {
      var front, s := steps[..|steps| - 1], steps[|steps| - 1];
      CollectKeys(h, front, names, j);
      var now, before := Collect(h, steps, names, j).docs, Collect(h, front, names, j).docs;
      forall d ensures d in now <==> exists i :: 0 <= i < |steps| && TypeOf(steps[i].key) == Some(d) && Name(d) in names {
        assert d in now <==> d in before || (TypeOf(s.key) == Some(d) && Name(d) in names);
        if d in before {
          var i :| 0 <= i < |front| && TypeOf(front[i].key) == Some(d) && Name(d) in names;
          assert steps[i] == front[i];
        }
        if i :| 0 <= i < |steps| && TypeOf(steps[i].key) == Some(d) && Name(d) in names {
          assert i < |front| ==> front[i] == steps[i];
        }
      }
    }
  }

  lemma RequestedSteps(names: seq<string>, d: DocType)
    ensures Name(d) in names <==> StepOf(d) in StepsFor(names)
  {
    NamesRoundTrip(d);
    if Name(d) in names {
      var i :| 0 <= i < |names| && names[i] == Name(d);
      assert ByName(names[i]).Some?;
    }
    if StepOf(d) in StepsFor(names) {
      var i :| 0 <= i < |names| && ByName(names[i]).Some? && StepOf(ByName(names[i]).value) == StepOf(d);
      NamesRoundTrip(ByName(names[i]).value);
      NameOfByName(names[i]);
    }
  }

  lemma NameOfByName(t: string)
    ensures ByName(t).Some? ==> Name(ByName(t).value) == t
  {}

  lemma StepOfType(k: StepKey, d: DocType)
    ensures TypeOf(k) == Some(d) <==> k == StepOf(d)
  {}

  /** Whenever the run returns, the documents are exactly the canonical types among the requested
      names: the worker, asking for one, always finds it. */
  lemma FetchedExactly(h: Holdings, reg: Registry, names: seq<string>, j: Job, seen: Pipeline.Docs, disk: Disk)
    ensures var r := ResultOf(h, reg, names, j, seen, disk); r.Returned? ==>
      forall d :: d in r.docs <==> Name(d) in names
  {
    if ResultOf(h, reg, names, j, seen, disk).Raised? { return; }
    hide StepsFor, Collect, TypeOf, Name, Pipeline.Build, Pipeline.Wanted;
    var keys := Pipeline.Wanted(REFERENCE, Some(StepsFor(names)));
    var steps := Pipeline.Build(reg, keys, seen).steps;
    Sources.WantedIn(REFERENCE, Some(StepsFor(names)));
    Pipeline.StepKeys(reg, keys, seen);
    CollectKeys(h, steps, names, j);
    forall d | Name(d) in names ensures d in Collect(h, steps, names, j).docs {
      RequestedSteps(names, d);
      Sources.AllInReference(StepOf(d));
      var i :| 0 <= i < |keys| && keys[i] == StepOf(d);
      StepOfType(keys[i], d);
      assert TypeOf(steps[i].key) == Some(d);
    }
  }

  // ------------------------------------------------------------ one document, as the worker asks for it

  lemma WantedOne(keys: seq<StepKey>, k: StepKey)
    requires NoDuplicates(keys)
    ensures k in keys ==> Pipeline.Wanted(keys, Some({k})) == [k]
    ensures k !in keys ==> Pipeline.Wanted(keys, Some({k})) == []
  {
    if keys != [] {
      assert keys == [keys[0]] + keys[1..];
      WantedOne(keys[1..], k);
    }
  }

  lemma ReferenceIsDistinct()
    ensures NoDuplicates(REFERENCE)
  {}

  lemma OneStep(d: DocType)
    ensures StepsFor([Name(d)]) == {StepOf(d)}
    ensures Pipeline.Wanted(REFERENCE, Some(StepsFor([Name(d)]))) == [StepOf(d)]
  {
    NamesRoundTrip(d);
    hide Name, StepOf, ByName;
    var names := [Name(d)];
    assert names[0] == Name(d);
    assert forall i :: 0 <= i < |names| ==> names[i] == Name(d);
    assert StepsFor(names) == {StepOf(d)};
    ReferenceIsDistinct();
    WantedOne(REFERENCE, StepOf(d));
  }

  /** What one call of the fetcher for one document is to the worker; a missing key raises. */
  function OutcomeOf(r: Result, d: DocType): Protocol.Outcome {
    if r.Returned? && d in r.docs then Protocol.Returned(r.docs[d].status) else Protocol.Raised
  }

  lemma OneDocument(h: Holdings, reg: Registry, d: DocType, j: Job, seen: Pipeline.Docs, disk: Disk)
    ensures var made, r := Pipeline.StepFor(reg, StepOf(d), seen), ResultOf(h, reg, [Name(d)], j, seen, disk);
      r == if !Writable(disk) || made.Escaped? then Raised else Returned(map[d := Deliver(h, made.step, d, j).doc])
  {
    OneStep(d);
    StepOfType(StepOf(d), d);
    hide Name, StepOf, TypeOf, StepsFor, Deliver, Pipeline.StepFor, Pipeline.Wanted;
    var made, names := Pipeline.StepFor(reg, StepOf(d), seen), [Name(d)];
    assert Name(d) in names;
    if made.Made? {
      Pipeline.KeyOfStep(reg, StepOf(d), seen);
      var steps := [made.step];
      assert Pipeline.Build(reg, [StepOf(d)], seen) == Pipeline.Built(steps, None) by { BuildOne(reg, StepOf(d), seen); }
      CollectOne(h, made.step, d, names, j);
    } else {
      assert Pipeline.Build(reg, [StepOf(d)], seen).escaped.Some?;
    }
  }

  lemma BuildOne(reg: Registry, k: StepKey, seen: Pipeline.Docs)
    requires Pipeline.StepFor(reg, k, seen).Made?
    ensures Pipeline.Build(reg, [k], seen) == Pipeline.Built([Pipeline.StepFor(reg, k, seen).step], None)
  {
    hide Pipeline.StepFor;
    assert Pipeline.Build(reg, [k][1..], seen) == Pipeline.Built([], None);
  }

  lemma CollectOne(h: Holdings, s: Step, d: DocType, names: seq<string>, j: Job)
    requires TypeOf(s.key) == Some(d) && Name(d) in names
    ensures Collect(h, [s], names, j).docs == map[d := Deliver(h, s, d, j).doc]
  {
    hide Deliver, Name, TypeOf;
    assert Collect(h, [s][..0], names, j) == Collected(h, map[]);
  }

  /** What a step becomes where nothing is uploaded: a link counts as fetched, nothing found as skipped,
      an error as failed. */
  lemma StepBecomes(h: Holdings, s: Step, d: DocType, j: Job)
    requires s.status != Pipeline.Ready
    ensures var e := Deliver(h, s, d, j);
      && e.after == h && e.doc.artifact.None?
      && (s.status == Pipeline.Link <==> e.doc.status == Fetched)
      && (s.status == Pipeline.Empty <==> e.doc.status == Skipped)
      && (s.status == Pipeline.Broken <==> e.doc.status == DocFailed)
  {}

  /** A fetched source reaches the worker: the requested document whose fetch is ready, with one of its
      files on disk and a clean upload, comes back uploaded with the first such file's artifact, under
      the key of its tenant, order and type. */
  lemma ReadyIsUploaded(h: Holdings, reg: Registry, d: DocType, j: Job, seen: Pipeline.Docs, disk: Disk, fs: Pipeline.Fetched)
    returns (i: nat)
    requires Writable(disk) && StepOf(d) in reg && Pipeline.Eval(reg[StepOf(d)].fetch, seen) == Pipeline.Got(fs)
    requires fs.status == Pipeline.Ready && Clean(j.weather(StepOf(d)))
    requires exists n :: n in fs.downloaded && n in j.weather(StepOf(d)).staged
    ensures var r, staged := ResultOf(h, reg, [Name(d)], j, seen, disk), j.weather(StepOf(d)).staged;
      && r.Returned? && r.docs.Keys == {d} && r.docs[d].status == Uploaded && r.docs[d].artifact.Some?
      && i < |fs.downloaded| && fs.downloaded[i] in staged && (forall k :: 0 <= k < i ==> fs.downloaded[k] !in staged)
      && var a := r.docs[d].artifact.value;
         && a.filename == fs.downloaded[i] && a.size == |staged[a.filename]| && a.digest == j.sha(staged[a.filename])
         && Some(a.key) == BlobKeys.BuildKey(BlobKeys.OrgOf(j.tenant), j.order, Name(d), a.filename)
  {
    var k, o, w := StepOf(d), OwnerOf(j, d), j.weather(StepOf(d));
    Pipeline.SuccessShows(reg, k, seen);
    OneDocument(h, reg, d, j, seen, disk);
    var s := Pipeline.StepFor(reg, k, seen).step;
    NameIsId(d);
    i := ArtifactIsFirst(h, DocOf(s), fs.downloaded, o, w, j.sha);
    TargetExists(fs.downloaded, o, w);
    CleanUploadCompletes(h, DocOf(s), fs.downloaded, o, w, j.sha);
    hide Pipeline.StepFor, Pipeline.Eval, ResultOf, Upload, Target, Name, BlobKeys.BuildKey, BlobKeys.OrgOf, StepOf;
  }

  lemma NameIsId(d: DocType)
    ensures Name(d) != "" && Name(d) != "None"
  {}

  lemma TargetExists(names: seq<string>, o: Owner, w: Weather)
    requires o.document != "" && o.document != "None" && exists n :: n in names && n in w.staged
    ensures Target(names, o, w).Some?
  {
    FirstStagedIsStaged(names, w.staged);
  }

  /** For any adapters at all, a document fails exactly if the run could not write its own files, its
      fetch raised, its step is an error, or its upload went wrong; whatever comes back is final. */
  lemma WhyDocumentsFail(h: Holdings, reg: Registry, d: DocType, j: Job, seen: Pipeline.Docs, disk: Disk)
    ensures var o, made := OutcomeOf(ResultOf(h, reg, [Name(d)], j, seen, disk), d), Pipeline.StepFor(reg, StepOf(d), seen);
      && Final(Protocol.StatusOf(o))
      && (made.Escaped? <==> Pipeline.Escapes(reg, StepOf(d), seen))
      && (o.Raised? <==> !Writable(disk) || made.Escaped?)
      && (o.Returned? && made.step.status != Pipeline.Ready ==> o.status == MapStatus(made.step.status))
      && (Protocol.StatusOf(o) == DocFailed <==>
            !Writable(disk) || made.Escaped? || made.step.status == Pipeline.Broken
            || (made.step.status == Pipeline.Ready
                && GoesWrong(h, made.step.downloaded, OwnerOf(j, d), j.weather(StepOf(d)))))
  {
    OneDocument(h, reg, d, j, seen, disk);
    Sources.EscapedStep(reg, StepOf(d), seen);
    Pipeline.KeyOfStep(reg, StepOf(d), seen);
    var made := Pipeline.StepFor(reg, StepOf(d), seen);
    hide Pipeline.StepFor, Pipeline.Escapes, ResultOf, Name, StepOf, OwnerOf, GoesWrong, Upload, Writable;
    if made.Made? && made.step.status == Pipeline.Ready {
      var s := made.step;
      StatusAfterUpload(h, DocOf(s), s.downloaded, OwnerOf(j, d), j.weather(s.key), j.sha);
    }
  }

  /** With the registered adapters a source that failed leaves a link: the worker's document ends
      `failed` exactly if the run could not write its own files, or its step was fine and its upload
      went wrong. */
  lemma OnlyUploadsFail(h: Holdings, w: Sources.World, d: DocType, j: Job, seen: Pipeline.Docs, disk: Disk)
    requires Sources.Plausible(w)
    ensures var o, made := OutcomeOf(ResultOf(h, Sources.Shipped(w), [Name(d)], j, seen, disk), d),
                           Pipeline.StepFor(Sources.Shipped(w), StepOf(d), seen);
      && made.Made? && (o.Raised? <==> !Writable(disk))
      && (Protocol.StatusOf(o) == DocFailed <==>
            !Writable(disk)
            || (made.step.status == Pipeline.Ready
                && GoesWrong(h, made.step.downloaded, OwnerOf(j, d), j.weather(StepOf(d)))))
      && (Writable(disk) && w.fetchFault(StepOf(d)).Some? ==> o == Protocol.Returned(Fetched))
  {
    Sources.AllInReference(StepOf(d));
    Sources.ShippedStep(w, StepOf(d), seen);
    WhyDocumentsFail(h, Sources.Shipped(w), d, j, seen, disk);
    hide Sources.Shipped, Sources.Plausible, Pipeline.StepFor, Pipeline.Escapes, ResultOf, OutcomeOf, Name, StepOf, OwnerOf;
    hide GoesWrong, Writable;
  }
}
