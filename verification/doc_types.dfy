/** Normalisation of the requested document types, and retry chains over them. */
module DocTypes {
  import opened Lifecycle
  import opened Catalog

  datatype Normalised = Ok(types: seq<DocType>) | Unsupported(names: seq<string>)

  // ------------------------------------------------------------ service._validate_doc_types

  /** A requested name is a canonical type, or a step name in any case; lower is str.lower. */
  function Canon(t: string, lower: string -> string): Option<DocType> {
    if ByName(t).Some? then ByName(t) else ByStepName(lower(t))
  }

  /** dict.fromkeys: first occurrences, in order. */
  function Dedup<T(==)>(s: seq<T>): (r: seq<T>) {
    if s == [] then [] else
    var p := Dedup(s[..|s| - 1]);
    if s[|s| - 1] in p then p else p + [s[|s| - 1]]
  }

  function Known(ts: seq<string>, lower: string -> string): seq<DocType> {
    if ts == [] then [] else
    var c := Canon(ts[|ts| - 1], lower);
    Known(ts[..|ts| - 1], lower) + (if c.Some? then [c.value] else [])
  }

  function Unknown(ts: seq<string>, lower: string -> string): seq<string> {
    if ts == [] then [] else
    Unknown(ts[..|ts| - 1], lower) + (if Canon(ts[|ts| - 1], lower).None? then [ts[|ts| - 1]] else [])
  }

  function Normalise(ts: seq<string>, lower: string -> string): Normalised {
    if ts == [] then Ok(ALL_TYPES)
    else if Unknown(ts, lower) != [] then Unsupported(Unknown(ts, lower))
    else Ok(Dedup(Known(ts, lower)))
  }

  method ValidateDocTypes(ts: seq<string>, lower: string -> string) returns (r: Normalised)
    ensures r == Normalise(ts, lower)
  {
    hide ByName, ByStepName;
    if ts == [] { return Ok(ALL_TYPES); }
    var canonical: seq<DocType>, unknown: seq<string> := [], [];
    for i := 0 to |ts|
      invariant canonical == Known(ts[..i], lower) && unknown == Unknown(ts[..i], lower)
    {
      assert ts[..i + 1][..i] == ts[..i];
      var t := ts[i];
      if ByName(t).Some? {
        canonical := canonical + [ByName(t).value];
      } else if ByStepName(lower(t)).Some? {
        canonical := canonical + [ByStepName(lower(t)).value];
      } else {
        unknown := unknown + [t];
      }
    }
    assert ts[..|ts|] == ts;
    if unknown != [] { return Unsupported(unknown); }
    var distinct: seq<DocType> := [];
    for i := 0 to |canonical|
      invariant distinct == Dedup(canonical[..i])
    {
      assert canonical[..i + 1][..i] == canonical[..i];
      if canonical[i] !in distinct { distinct := distinct + [canonical[i]]; }
    }
    assert canonical[..|canonical|] == canonical;
    return Ok(distinct);
  }

  lemma {:induction false} DedupFacts<T>(s: seq<T>)
    ensures NoDuplicates(Dedup(s))
    ensures forall t :: t in Dedup(s) <==> t in s
    ensures NoDuplicates(s) ==> Dedup(s) == s
  {
    if s != [] {
      DedupFacts(s[..|s| - 1]);
      assert s == s[..|s| - 1] + [s[|s| - 1]];
    }
  }

  /** at[k] is where the k-th kept element first occurs; the places ascend. */
  predicate FirstPlaces<T(==)>(s: seq<T>, r: seq<T>, at: seq<nat>) {
    && |at| == |r|
    && (forall k :: 0 <= k < |at| ==> at[k] < |s| && s[at[k]] == r[k])
    && (forall k, j :: 0 <= k < |at| && 0 <= j < at[k] ==> s[j] != r[k])
    && (forall k, l :: 0 <= k < l < |at| ==> at[k] < at[l])
  }

  lemma PlacesStay<T>(front: seq<T>, x: T, r: seq<T>, at: seq<nat>)
    requires FirstPlaces(front, r, at)
    ensures FirstPlaces(front + [x], r, at)
  {}

  lemma PlacesGrow<T>(front: seq<T>, x: T, r: seq<T>, at: seq<nat>)
    requires FirstPlaces(front, r, at) && x !in front
    ensures FirstPlaces(front + [x], r + [x], at + [|front|])
  {
    var s, r', at' := front + [x], r + [x], at + [|front|];
    PlacesStay(front, x, r, at);
    forall k, j | 0 <= k < |at'| && 0 <= j < at'[k] ensures s[j] != r'[k] {
      if k < |at| { assert s[j] != r[k]; } else { assert s[j] in front; }
    }
  }

  lemma {:induction false} DedupKeepsOrder<T>(s: seq<T>) returns (at: seq<nat>)
    ensures FirstPlaces(s, Dedup(s), at)
  {
    if s == [] {
      at := [];
    } else {
      hide FirstPlaces;
      var front, x := s[..|s| - 1], s[|s| - 1];
      assert s == front + [x];
      at := DedupKeepsOrder(front);
      DedupFacts(front);
      if x in front {
        PlacesStay(front, x, Dedup(front), at);
      } else {
        PlacesGrow(front, x, Dedup(front), at);
        at := at + [|front|];
      }
    }
  }

  predicate Asks(ts: seq<string>, lower: string -> string, d: DocType) {
    exists i :: 0 <= i < |ts| && Canon(ts[i], lower) == Some(d)
  }

  lemma {:induction false} KnownIsAsked(ts: seq<string>, lower: string -> string, d: DocType)
    ensures d in Known(ts, lower) <==> Asks(ts, lower, d)
  {
    hide Canon;
    if ts != [] {
      var front := ts[..|ts| - 1];
      KnownIsAsked(front, lower, d);
      if Asks(front, lower, d) {
        var i :| 0 <= i < |front| && Canon(front[i], lower) == Some(d);
        assert ts[i] == front[i];
      }
      if Asks(ts, lower, d) {
        var i :| 0 <= i < |ts| && Canon(ts[i], lower) == Some(d);
        assert i < |front| ==> front[i] == ts[i];
      }
    }
  }

  lemma {:induction false} UnknownIsRefused(ts: seq<string>, lower: string -> string, t: string)
    ensures t in Unknown(ts, lower) <==> t in ts && Canon(t, lower).None?
  {
    hide Canon;
    if ts != [] {
      UnknownIsRefused(ts[..|ts| - 1], lower, t);
      assert ts == ts[..|ts| - 1] + [ts[|ts| - 1]];
    }
  }

  /** Normalisation never yields an empty list or a duplicate, so the one-row-per-type constraint of
      a job cannot fire; it yields exactly the types asked for, at their first places. */
  lemma NormaliseSound(ts: seq<string>, lower: string -> string) returns (at: seq<nat>)
    requires Normalise(ts, lower).Ok?
    ensures var v := Normalise(ts, lower).types;
      && v != [] && NoDuplicates(v)
      && (ts != [] ==> forall d :: d in v <==> Asks(ts, lower, d))
      && (ts != [] ==> FirstPlaces(Known(ts, lower), v, at))
  {
    hide Canon;
    var s := Known(ts, lower);
    DedupFacts(s);
    at := DedupKeepsOrder(s);
    forall d ensures d in s <==> Asks(ts, lower, d) { KnownIsAsked(ts, lower, d); }
    if ts != [] {
      UnknownIsRefused(ts, lower, ts[0]);
      var d := Canon(ts[0], lower).value;
      assert Asks(ts, lower, d);
      assert d in Dedup(s);
    }
  }

  /** An empty request asks for every type there is. */
  lemma EmptyAsksAll(lower: string -> string)
    ensures Normalise([], lower) == Ok([ParcelRecord, TaxRecord, RecordedPlat, SubjectDeed, FloodZone, NgsControl])
    ensures Normalise([], lower).Ok? && forall d :: d in Normalise([], lower).types
  {
    forall d ensures d in ALL_TYPES { NamesRoundTrip(d); }
  }

  /** One of the six names of the API. */
  predicate IsTypeName(t: string) {
    t in {"PARCEL_RECORD", "PROPERTY_APPRAISER_TAX_RECORD", "RECORDED_PLAT_SUBDIVISION_MAP", "DEED_SUBJECT_PARCEL",
          "FEMA_FLOOD_ZONE_FIRM", "NGS_CONTROL"}
  }

  lemma TypeNames(t: string)
    ensures ByName(t).Some? <==> IsTypeName(t)
  {}

  lemma OneName(t: string, lower: string -> string)
    ensures Normalise([t], lower) == if Canon(t, lower).Some? then Ok([Canon(t, lower).value]) else Unsupported([t])
  {
    hide Canon;
    assert [t][..0] == [];
    assert Known([t], lower) == if Canon(t, lower).Some? then [Canon(t, lower).value] else [];
    assert Unknown([t], lower) == if Canon(t, lower).None? then [t] else [];
    if Canon(t, lower).Some? {
      var d := Canon(t, lower).value;
      assert [d][..0] == [] && Dedup([d]) == [d];
    }
  }

  /** The six names of the API, each for its document. */
  lemma EachName(lower: string -> string)
    ensures Normalise(["PARCEL_RECORD"], lower) == Ok([ParcelRecord])
    ensures Normalise(["PROPERTY_APPRAISER_TAX_RECORD"], lower) == Ok([TaxRecord])
    ensures Normalise(["RECORDED_PLAT_SUBDIVISION_MAP"], lower) == Ok([RecordedPlat])
    ensures Normalise(["DEED_SUBJECT_PARCEL"], lower) == Ok([SubjectDeed])
    ensures Normalise(["FEMA_FLOOD_ZONE_FIRM"], lower) == Ok([FloodZone])
    ensures Normalise(["NGS_CONTROL"], lower) == Ok([NgsControl])
  {
    NameFound(ParcelRecord);
    NameFound(TaxRecord);
    NameFound(RecordedPlat);
    NameFound(SubjectDeed);
    NameFound(FloodZone);
    NameFound(NgsControl);
    hide Normalise, ByName, ByStepName;
    OneName("PARCEL_RECORD", lower);
    OneName("PROPERTY_APPRAISER_TAX_RECORD", lower);
    OneName("RECORDED_PLAT_SUBDIVISION_MAP", lower);
    OneName("DEED_SUBJECT_PARCEL", lower);
    OneName("FEMA_FLOOD_ZONE_FIRM", lower);
    OneName("NGS_CONTROL", lower);
  }

  lemma StepNames(k: string)
    ensures k == "parcel" ==> ByStepName(k) == Some(ParcelRecord)
    ensures k == "appraiser" ==> ByStepName(k) == Some(TaxRecord)
    ensures k == "plat" ==> ByStepName(k) == Some(RecordedPlat)
    ensures k == "deed" ==> ByStepName(k) == Some(SubjectDeed)
    ensures k == "flood" ==> ByStepName(k) == Some(FloodZone)
    ensures k == "benchmarks" ==> ByStepName(k) == Some(NgsControl)
    ensures k !in {"parcel", "appraiser", "plat", "deed", "flood", "benchmarks"} ==> ByStepName(k) == None
  {}

  /** Any other name is read in small letters: six aliases, and everything else is refused. */
  lemma EachAlias(t: string, lower: string -> string)
    requires !IsTypeName(t)
    ensures lower(t) == "parcel" ==> Normalise([t], lower) == Ok([ParcelRecord])
    ensures lower(t) == "appraiser" ==> Normalise([t], lower) == Ok([TaxRecord])
    ensures lower(t) == "plat" ==> Normalise([t], lower) == Ok([RecordedPlat])
    ensures lower(t) == "deed" ==> Normalise([t], lower) == Ok([SubjectDeed])
    ensures lower(t) == "flood" ==> Normalise([t], lower) == Ok([FloodZone])
    ensures lower(t) == "benchmarks" ==> Normalise([t], lower) == Ok([NgsControl])
    ensures lower(t) !in {"parcel", "appraiser", "plat", "deed", "flood", "benchmarks"} ==> Normalise([t], lower) == Unsupported([t])
  {
    TypeNames(t);
    StepNames(lower(t));
    hide Normalise, ByName, ByStepName, IsTypeName;
    OneName(t, lower);
  }

  /** A request is refused exactly when it names something unknown, and the refusal lists exactly
      the unknown names. */
  lemma NormaliseRefuses(ts: seq<string>, lower: string -> string)
    ensures Normalise(ts, lower).Unsupported? <==> exists t :: t in ts && Canon(t, lower).None?
    ensures Normalise(ts, lower).Unsupported? ==>
      forall t :: t in Normalise(ts, lower).names <==> t in ts && Canon(t, lower).None?
  {
    hide Canon;
    var u := Unknown(ts, lower);
    forall t ensures t in u <==> t in ts && Canon(t, lower).None? { UnknownIsRefused(ts, lower, t); }
    if u != [] { assert u[0] in u; }
  }

  function Names(ds: seq<DocType>): (ts: seq<string>)
    ensures |ts| == |ds|
  {
    seq(|ds|, i requires 0 <= i < |ds| => Name(ds[i]))
  }

  lemma {:induction false} KnownOfNames(ds: seq<DocType>, lower: string -> string)
    ensures Known(Names(ds), lower) == ds && Unknown(Names(ds), lower) == []
  {
    if ds != [] {
      var front := ds[..|ds| - 1];
      KnownOfNames(front, lower);
      NamesRoundTrip(ds[|ds| - 1]);
      hide Name, ByName, ByStepName;
      assert Names(ds)[..|ds| - 1] == Names(front);
      assert ds == front + [ds[|ds| - 1]];
    }
  }

  lemma NormaliseIdempotent(ts: seq<string>, lower: string -> string)
    requires Normalise(ts, lower).Ok?
    ensures Normalise(Names(Normalise(ts, lower).types), lower) == Normalise(ts, lower)
  {
    var v := Normalise(ts, lower).types;
    var _ := NormaliseSound(ts, lower);
    hide Canon, Normalise;
    KnownOfNames(v, lower);
    DedupFacts(v);
    NormaliseNames(v, lower);
  }

  /** On canonical names without repetition normalisation changes nothing. */
  lemma NormaliseNames(ds: seq<DocType>, lower: string -> string)
    requires ds != []
    ensures Normalise(Names(ds), lower) == Ok(Dedup(ds))
  {
    KnownOfNames(ds, lower);
  }

  // ------------------------------------------------------------ service.retry_job

  /** A stored job: one document row per type. */
  datatype Job = Job(status: JobStatus, types: seq<DocType>, docs: seq<DocStatus>)

  predicate Stored(j: Job) {
    |j.types| == |j.docs| && NoDuplicates(j.types)
  }

  predicate Retryable(s: JobStatus) {
    s == Completed || s == Partial || s == Failed || s == Cancelled
  }

  predicate FailedIn(j: Job, d: DocType)
    requires |j.types| == |j.docs|
  {
    exists i :: 0 <= i < |j.types| && j.types[i] == d && j.docs[i] == DocFailed
  }

  function FailedTypes(j: Job, n: nat): (r: seq<DocType>)
    requires n <= |j.types| == |j.docs|
    ensures forall d :: d in r <==> exists i :: 0 <= i < n && j.types[i] == d && j.docs[i] == DocFailed
  {
    if n == 0 then [] else FailedTypes(j, n - 1) + (if j.docs[n - 1] == DocFailed then [j.types[n - 1]] else [])
  }

  /** The caller's names are matched as written: a step alias selects nothing. */
  function Chosen(failed: seq<DocType>, asked: Option<seq<string>>): (r: seq<DocType>)
    ensures forall d :: d in r <==> d in failed && (asked.Some? ==> exists t :: t in asked.value && ByName(t) == Some(d))
  {
    if asked.None? then failed else Keep(asked.value, failed)
  }

  function Keep(ts: seq<string>, among: seq<DocType>): (r: seq<DocType>)
    ensures forall d :: d in r <==> d in among && exists t :: t in ts && ByName(t) == Some(d)
  {
    hide ByName;
    if ts == [] then [] else
    assert ts == [ts[0]] + ts[1..];
    var d := ByName(ts[0]);
    (if d.Some? && d.value in among then [d.value] else []) + Keep(ts[1..], among)
  }

  datatype Retried = Refused | Created(jobs: seq<Job>)

  /** retry_job, then create_job with a fresh idempotency key. */
  function Retry(jobs: seq<Job>, id: nat, asked: Option<seq<string>>, orderFound: bool, lower: string -> string): Retried
    requires id < |jobs| && Stored(jobs[id])
  {
    var chosen := Chosen(FailedTypes(jobs[id], |jobs[id].types|), asked);
    if !Retryable(jobs[id].status) || chosen == [] || !orderFound then Refused
    else match Normalise(Names(chosen), lower) {
      case Unsupported(_) => Refused
      case Ok(ts) => Created(jobs + [Job(Queued, ts, seq(|ts|, i => DocQueued))])
    }
  }

  /** What a retry may re-fetch. */
  predicate Selected(j: Job, asked: Option<seq<string>>, d: DocType)
    requires |j.types| == |j.docs|
  {
    FailedIn(j, d) && (asked.Some? ==> exists t :: t in asked.value && ByName(t) == Some(d))
  }

  lemma ChosenIsSelected(j: Job, asked: Option<seq<string>>, d: DocType)
    requires |j.types| == |j.docs|
    ensures d in Chosen(FailedTypes(j, |j.types|), asked) <==> Selected(j, asked, d)
    ensures Selected(j, asked, d) ==> d in j.types
  {
    hide ByName, FailedTypes, Chosen;
  }

  lemma RetryGives(jobs: seq<Job>, id: nat, asked: Option<seq<string>>, orderFound: bool, lower: string -> string)
    requires id < |jobs| && Stored(jobs[id])
    ensures var r, chosen := Retry(jobs, id, asked, orderFound, lower), Chosen(FailedTypes(jobs[id], |jobs[id].types|), asked);
      && (r.Created? <==> jobs[id].status in {Completed, Partial, Failed, Cancelled} && chosen != [] && orderFound)
      && (r.Created? ==>
            && |r.jobs| == |jobs| + 1 && r.jobs[..|jobs|] == jobs
            && r.jobs[|jobs|].status == Queued && r.jobs[|jobs|].types == Dedup(chosen)
            && |r.jobs[|jobs|].docs| == |Dedup(chosen)|
            && forall i :: 0 <= i < |r.jobs[|jobs|].docs| ==> r.jobs[|jobs|].docs[i] == DocQueued)
  {
    hide Normalise, Chosen, FailedTypes, Dedup;
    var chosen := Chosen(FailedTypes(jobs[id], |jobs[id].types|), asked);
    if chosen != [] { NormaliseNames(chosen, lower); }
  }

  /** A retry is refused, or adds one queued job whose types are exactly the selected failed types of
      its predecessor; every stored row stays as it was. */
  lemma RetryTakesFailed(jobs: seq<Job>, id: nat, asked: Option<seq<string>>, orderFound: bool, lower: string -> string)
    requires id < |jobs| && Stored(jobs[id])
    ensures match Retry(jobs, id, asked, orderFound, lower)
      case Refused =>
        jobs[id].status !in {Completed, Partial, Failed, Cancelled} || !orderFound || forall d :: !Selected(jobs[id], asked, d)
      case Created(after) =>
        && jobs[id].status in {Completed, Partial, Failed, Cancelled} && orderFound
        && |after| == |jobs| + 1 && after[..|jobs|] == jobs
        && Stored(after[|jobs|]) && after[|jobs|].types != [] && after[|jobs|].status == Queued
        && (forall i :: 0 <= i < |after[|jobs|].docs| ==> after[|jobs|].docs[i] == DocQueued)
        && (forall d :: d in after[|jobs|].types <==> Selected(jobs[id], asked, d))
        && (forall d :: d in after[|jobs|].types ==> d in jobs[id].types)
  {
    var j := jobs[id];
    var chosen := Chosen(FailedTypes(j, |j.types|), asked);
    forall d ensures d in chosen <==> Selected(j, asked, d) { ChosenIsSelected(j, asked, d); }
    forall d | Selected(j, asked, d) ensures d in j.types { ChosenIsSelected(j, asked, d); }
    DedupFacts(chosen);
    hide Retry, ByName, Chosen, FailedTypes, Selected, Dedup, FailedIn;
    RetryGives(jobs, id, asked, orderFound, lower);
    if chosen != [] { assert chosen[0] in Dedup(chosen); }
  }

  /** One link of a retry chain: the parent as stored at the retry, and what the caller asked. */
  datatype Link = Link(parent: Job, asked: Option<seq<string>>)

  /** Each link retries its parent; the parent of the next link is that new job, run in any way that
      changes statuses but not types. */
  ghost predicate IsChain(links: seq<Link>, lower: string -> string) {
    && (forall i :: 0 <= i < |links| ==> Stored(links[i].parent))
    && (forall i :: 0 <= i < |links| - 1 ==>
          var r := Retry([links[i].parent], 0, links[i].asked, true, lower);
          r.Created? && links[i + 1].parent.types == r.jobs[|r.jobs| - 1].types)
  }

  /** Along any retry chain the types only shrink, to what had failed at every earlier link. */
  lemma {:induction false} ChainShrinks(links: seq<Link>, i: nat, lower: string -> string)
    requires IsChain(links, lower) && i < |links|
    ensures forall d, k :: d in links[i].parent.types && 0 <= k < i ==> FailedIn(links[k].parent, d)
    decreases i
  {
    hide Retry;
    if i > 0 {
      ChainShrinks(links, i - 1, lower);
      var k := i - 1;
      var r := Retry([links[k].parent], 0, links[k].asked, true, lower);
      RetryTakesFailed([links[k].parent], 0, links[k].asked, true, lower);
      assert r.Created? && links[k + 1].parent.types == r.jobs[|r.jobs| - 1].types;
    }
  }
}
