/** Runs without API writes: what a delivery does is a function of the stored row and the fetcher,
    the reaper's sweeps leave no trace in it, and delivering again changes nothing. */
module Redelivery {
  import opened Lifecycle
  import opened Protocol
  import opened SingleRun

  /** The rows after one delivery that no API call disturbs. */
  function Delivered(db: Db, f: Plan): (r: Db) {
    var n := |db.docs|;
    if db.job.deleted then db
    else if Cancelish(db.job.status) then
      Db(db.job.(status := Cancelled, counters := Recalc(AllSkipped(n)), completed := true), AllSkipped(n))
    else
      var docs := ShapedDocs(f, n, n);
      Db(db.job.(status := Dictated(Recalc(docs)), counters := Recalc(docs), started := true, completed := true), docs)
  }

  predicate Quiet(es: seq<Event>) {
    forall i :: 0 <= i < |es| ==> es[i] == Work || es[i] == Sweep
  }

  /** A quiet run from db0, at any point. */
  predicate QuietInv(c: Config, f: Plan, db0: Db) {
    && (c.l.pc != Done ==> Inv(c, f, Visited(c.l.pc, |c.db.docs|)))
    && |c.db.docs| == |db0.docs| && !db0.job.deleted && !c.db.job.deleted
    && (c.l.pc == Reading ==>
          c.db.docs == db0.docs && (c.db.job == db0.job || c.db.job == EnvJob(db0.job, Sweep)))
    && (c.l.pc == Draining ==> Cancelish(db0.job.status) && c.db == db0)
    && (c.l.pc == PickingUp ==> !Cancelish(db0.job.status) && c.db.job.status != Cancelling)
    && (Live(c.l.pc) ==> !Cancelish(db0.job.status) && c.db.job.status != Cancelling && c.db.job.started)
    && (c.l.pc == Done ==> c.db == Delivered(db0, f))
  }

  lemma QuietSweep(c: Config, f: Plan, db0: Db)
    requires Fits(c) && QuietInv(c, f, db0)
    ensures QuietInv(Step(c, Sweep, f), f, db0)
  {
    hide WorkerStep, LiveInv, Settled, Recalc, ShapedDocs;
    if c.l.pc != Done { StepKeepsInv(c, Sweep, f, Visited(c.l.pc, |c.db.docs|)); }
  }

  lemma QuietFinish(c: Config, f: Plan, db0: Db)
    requires Fits(c) && QuietInv(c, f, db0) && (c.l.pc == Finalising || c.l.pc == Draining)
    ensures QuietInv(Step(c, Work, f), f, db0)
  {
    var n := |c.db.docs|;
    FinishKeepsInv(c, f, Visited(c.l.pc, n));
    AllSkippedIsShaped(f, n);
  }

  lemma AllSkippedIsShaped(f: Plan, n: nat)
    ensures ShapedDocs(f, 0, n) == AllSkipped(n)
  {}

  lemma QuietVisit(c: Config, f: Plan, db0: Db)
    requires Fits(c) && QuietInv(c, f, db0) && c.l.pc != Finalising && c.l.pc != Draining && c.l.pc != Done
    ensures QuietInv(Step(c, Work, f), f, db0)
  {
    var n := |c.db.docs|;
    VisitKeepsInv(c, f, Visited(c.l.pc, n));
    QuietRow(c, f, db0);
    hide Inv, Delivered, WorkerStep;
  }

  /** The part of QuietInv that is about the rows. */
  lemma QuietRow(c: Config, f: Plan, db0: Db)
    requires Fits(c) && QuietInv(c, f, db0) && c.l.pc != Finalising && c.l.pc != Draining && c.l.pc != Done
    ensures var next := Step(c, Work, f);
      && next.l.pc != Done && next.l.pc != Reading && !next.db.job.deleted
      && NextK(c, Work, Visited(c.l.pc, |c.db.docs|)) == Visited(next.l.pc, |c.db.docs|)
      && (next.l.pc == Draining ==> Cancelish(db0.job.status) && next.db == db0)
      && (next.l.pc == PickingUp ==> !Cancelish(db0.job.status) && next.db.job.status != Cancelling)
      && (Live(next.l.pc) ==> !Cancelish(db0.job.status) && next.db.job.status != Cancelling && next.db.job.started)
  {
    hide Delivered, Settled, ShapedDocs, Recalc, Dictated;
  }

  lemma QuietStep(c: Config, e: Event, f: Plan, db0: Db)
    requires Fits(c) && QuietInv(c, f, db0) && (e == Work || e == Sweep)
    ensures QuietInv(Step(c, e, f), f, db0)
  {
    if e == Sweep {
      QuietSweep(c, f, db0);
    } else if c.l.pc == Finalising || c.l.pc == Draining {
      QuietFinish(c, f, db0);
    } else if c.l.pc != Done {
      QuietVisit(c, f, db0);
    }
  }

  lemma {:induction false} QuietRun(c: Config, es: seq<Event>, f: Plan, db0: Db)
    requires Fits(c) && QuietInv(c, f, db0) && Quiet(es)
    ensures QuietInv(Run(c, es, f), f, db0)
    decreases es
  {
    if es != [] {
      QuietStep(c, es[0], f, db0);
      QuietRun(Step(c, es[0], f), es[1..], f, db0);
    }
  }

  /** The outcome of a delivery does not depend on when, or how often, the reaper sweeps. */
  lemma DeliveryIsDetermined(db: Db, es: seq<Event>, f: Plan)
    requires !db.job.deleted && Quiet(es) && Run(Start(db), es, f).l.pc == Done
    ensures Run(Start(db), es, f).db == Delivered(db, f)
  {
    QuietRun(Start(db), es, f, db);
  }

  function WithoutSweeps(es: seq<Event>): (r: seq<Event>)
    ensures Quiet(es) ==> forall i :: 0 <= i < |r| ==> r[i] == Work
  {
    if es == [] then [] else (if es[0] == Sweep then [] else [es[0]]) + WithoutSweeps(es[1..])
  }

  lemma {:induction false} StepsAgree(c: Config, d: Config, es: seq<Event>, f: Plan, db0: Db)
    requires Fits(c) && Fits(d) && QuietInv(c, f, db0) && QuietInv(d, f, db0) && Quiet(es) && c.l.pc == d.l.pc
    ensures Run(c, es, f).l.pc == Run(d, WithoutSweeps(es), f).l.pc
    decreases es
  {
    if es != [] {
      QuietStep(c, es[0], f, db0);
      if es[0] == Sweep {
        assert WithoutSweeps(es) == WithoutSweeps(es[1..]);
        StepsAgree(Step(c, Sweep, f), d, es[1..], f, db0);
      } else {
        QuietStep(d, Work, f, db0);
        assert WithoutSweeps(es) == [Work] + WithoutSweeps(es[1..]);
        StepsAgree(Step(c, Work, f), Step(d, Work, f), es[1..], f, db0);
      }
    }
  }

  /** Two-run form: adding the reaper's running-to-failed updates anywhere in a run gives the very
      rows, status, counters and documents, that the run without them gives. */
  lemma SweepsAreInvisible(db: Db, es: seq<Event>, f: Plan)
    requires !db.job.deleted && Quiet(es) && Run(Start(db), es, f).l.pc == Done
    ensures Run(Start(db), WithoutSweeps(es), f).l.pc == Done
    ensures Run(Start(db), WithoutSweeps(es), f).db == Run(Start(db), es, f).db
  {
    StepsAgree(Start(db), Start(db), es, f, db);
    DeliveryIsDetermined(db, es, f);
    DeliveryIsDetermined(db, WithoutSweeps(es), f);
  }

  // ------------------------------------------------------------ delivering again

  /** One delivery after the other, each with its own schedule of steps and sweeps. */
  function AfterRuns(db: Db, runs: seq<seq<Event>>, f: Plan): Db
    decreases runs
  {
    if runs == [] then db else AfterRuns(Run(Start(db), runs[0], f).db, runs[1..], f)
  }

  /** Every delivery is disturbed by sweeps at most, and ends. */
  predicate AllFinish(db: Db, runs: seq<seq<Event>>, f: Plan)
    decreases runs
  {
    runs == [] ||
    (Quiet(runs[0]) && Run(Start(db), runs[0], f).l.pc == Done && AllFinish(Run(Start(db), runs[0], f).db, runs[1..], f))
  }

  lemma DeliveredAgain(db: Db, f: Plan)
    ensures Delivered(Delivered(db, f), f) == Delivered(db, f)
    ensures Delivered(db, f).job.deleted == db.job.deleted
  {}

  /** Sequential redelivery is idempotent on the whole row set when the fetcher repeats itself: any
      number of finished deliveries leaves the rows that one leaves. */
  lemma {:induction false} RedeliveryIdempotent(db: Db, runs: seq<seq<Event>>, f: Plan)
    requires !db.job.deleted && runs != [] && AllFinish(db, runs, f)
    ensures AfterRuns(db, runs, f) == Run(Start(db), runs[0], f).db == Delivered(db, f)
    decreases runs
  {
    hide Delivered, Quiet;
    DeliveryIsDetermined(db, runs[0], f);
    DeliveredAgain(db, f);
    var next := Run(Start(db), runs[0], f).db;
    if |runs| > 1 {
      RedeliveryIdempotent(next, runs[1..], f);
    } else {
      assert runs[1..] == [];
    }
  }

  /** After a run that API calls did disturb: a further delivery keeps the job status, and keeps the
      documents and counters unless that run was cancelled with a document already fetched. */
  lemma RedeliveryAfterRun(c: Config, f: Plan, k: nat)
    requires c.l.pc == Done && Settled(c, f, k) && !c.db.job.deleted
    requires c.db.job.status !in {Reviewed, Archived}
    ensures Delivered(c.db, f).job.status == c.db.job.status
    ensures Delivered(c.db, f).docs == c.db.docs && Delivered(c.db, f).job.counters == c.db.job.counters
      <==> (c.db.job.status == Cancelled ==> forall d :: d in c.db.docs ==> d == Skipped)
  {
    var n := |c.db.docs|;
    if c.db.job.status == Cancelled {
      assert Delivered(c.db, f).docs == AllSkipped(n);
      assert forall j :: 0 <= j < n ==> AllSkipped(n)[j] == Skipped;
      if forall d :: d in c.db.docs ==> d == Skipped {
        assert forall j :: 0 <= j < n ==> c.db.docs[j] in c.db.docs;
        assert c.db.docs == AllSkipped(n);
      }
    }
  }

  /** The documented rule that a terminal status is left only by sign-off does not hold for a
      redelivery: it puts the job back to running exactly when its status is not a cancel. */
  lemma RedeliveryReopens(db: Db, f: Plan)
    requires !db.job.deleted
    ensures Run(Start(db), [Work, Work], f).db.job.status == Running <==> !Cancelish(db.job.status)
  {
    var c := Step(Start(db), Work, f);
    assert Run(Start(db), [Work, Work], f) == Run(c, [Work], f) == Run(Step(c, Work, f), [], f);
  }
}
