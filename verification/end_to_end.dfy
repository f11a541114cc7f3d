/** The worker over the real fetcher: what the final status of a job says about its sources, its
    uploads and its property. */
module EndToEnd {
  import opened Catalog
  import opened Lifecycle
  import opened Protocol
  import Fetcher
  import Pipeline
  import Redelivery
  import SingleRun
  import Sources
  import Uploads

  /** One fetcher call of a delivery: whether the property's context resolved, what the run's disk did,
      the store it found, what its sources did and what the clerk's site held. */
  datatype Visit = Visit(resolved: bool, disk: Fetcher.Disk, held: Uploads.Holdings, sources: Sources.World, docType: DocType,
                         job: Fetcher.Job, site: Pipeline.Docs)

  function OutcomeAt(v: Visit): Outcome {
    if !v.resolved then Raised
    else
      var r := Fetcher.ResultOf(v.held, Sources.Shipped(v.sources), [Name(v.docType)], v.job, v.site, v.disk);
      Fetcher.OutcomeOf(r, v.docType)
  }

  /** The fetch plan of a delivery that makes these calls, with the registered adapters. */
  ghost predicate Follows(f: Plan, vs: seq<Visit>) {
    forall i :: 0 <= i < |vs| ==> Sources.Plausible(vs[i].sources) && f(i) == OutcomeAt(vs[i])
  }

  /** The property resolved and the run wrote its own files. */
  predicate Ran(v: Visit) {
    v.resolved && Fetcher.Writable(v.disk)
  }

  /** The artifact of this visit could not be stored or recorded. */
  predicate UploadWrong(v: Visit) {
    var made := Pipeline.StepFor(Sources.Shipped(v.sources), StepOf(v.docType), v.site);
    && made.Made? && made.step.status == Pipeline.Ready
    && Uploads.GoesWrong(v.held, made.step.downloaded, Fetcher.OwnerOf(v.job, v.docType),
                         v.job.weather(StepOf(v.docType)))
  }

  lemma VisitFails(v: Visit)
    requires Sources.Plausible(v.sources)
    ensures StatusOf(OutcomeAt(v)) == DocFailed <==> !Ran(v) || UploadWrong(v)
    ensures Ran(v) && v.sources.fetchFault(StepOf(v.docType)).Some? ==> OutcomeAt(v) == Returned(Fetched)
  {
    Fetcher.OnlyUploadsFail(v.held, v.sources, v.docType, v.job, v.site, v.disk);
    hide Sources.Shipped, Sources.Plausible, Pipeline.StepFor, Fetcher.ResultOf, Fetcher.OutcomeOf, Uploads.GoesWrong;
    hide Fetcher.OwnerOf, Name;
  }

  lemma DeliveredSize(db: Db, f: Plan)
    ensures |Redelivery.Delivered(db, f).docs| == |db.docs|
  {}

  lemma DeliveredDocs(db: Db, f: Plan, i: nat)
    requires !db.job.deleted && !Cancelish(db.job.status) && i < |db.docs|
    ensures |Redelivery.Delivered(db, f).docs| == |db.docs|
    ensures Redelivery.Delivered(db, f).docs[i] == StatusOf(f(i))
  {}

  lemma DeliveredStatus(db: Db, f: Plan)
    requires !db.job.deleted && !Cancelish(db.job.status)
    ensures var end := Redelivery.Delivered(db, f); end.job.status == Completed <==> end.docs != [] && DocFailed !in end.docs
  {
    var end := Redelivery.Delivered(db, f);
    SingleRun.ShapedFinal(f, |db.docs|, |db.docs|);
    CountersConserve(end.docs);
    ResolveMeaning(Running, end.docs);
    hide Resolve, Dictated, Recalc;
  }

  /** A document fails exactly when the property could not be resolved, the run could not write its own
      files, or the upload went wrong; the job is completed exactly when that happened to none of its
      documents: sources that are down leave a completed job of links. */
  lemma CompletedMeans(db: Db, f: Plan, vs: seq<Visit>)
    requires !db.job.deleted && !Cancelish(db.job.status) && |vs| == |db.docs| && Follows(f, vs)
    ensures var end := Redelivery.Delivered(db, f);
      && |end.docs| == |vs|
      && (forall i :: 0 <= i < |vs| ==> (end.docs[i] == DocFailed <==> !Ran(vs[i]) || UploadWrong(vs[i])))
      && (end.job.status == Completed <==> vs != [] && forall i :: 0 <= i < |vs| ==> Ran(vs[i]) && !UploadWrong(vs[i]))
  {
    hide OutcomeAt, UploadWrong, Ran, Sources.Plausible, Redelivery.Delivered;
    var end := Redelivery.Delivered(db, f);
    DeliveredStatus(db, f);
    DeliveredSize(db, f);
    forall i | 0 <= i < |vs| ensures (end.docs[i] == DocFailed <==> !Ran(vs[i]) || UploadWrong(vs[i])) {
      DeliveredDocs(db, f, i);
      VisitFails(vs[i]);
    }
  }
}
