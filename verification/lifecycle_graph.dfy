/** When the committed statuses follow the declared lifecycle graph, and when they do not. */
module LifecycleGraph {
  import opened Lifecycle
  import opened Protocol
  import opened SingleRun

  /** Every status change the run commits is an edge of the graph (or no change). */
  predicate EdgesInGraph(c: Config, es: seq<Event>, f: Plan)
    requires Fits(c)
    decreases es
  {
    es == [] ||
    (InGraph(c.db.job.status, Step(c, es[0], f).db.job.status) && EdgesInGraph(Step(c, es[0], f), es[1..], f))
  }

  /** No cancel between the first read and the pick-up commit or after the last re-read, and no sweep
      over a live run: the tests a caller could make at each event. */
  predicate Calm(c: Config, e: Event) {
    && (e == Cancel ==> c.l.pc != PickingUp && (Live(c.l.pc) ==> CancelSeen(c.l, |c.db.docs|)))
    && (e == Sweep ==> !Live(c.l.pc))
  }

  predicate AllCalm(c: Config, es: seq<Event>, f: Plan)
    requires Fits(c)
    decreases es
  {
    es == [] || (Calm(c, es[0]) && AllCalm(Step(c, es[0], f), es[1..], f))
  }

  /** The first delivery of a new job. */
  predicate FirstDelivery(c: Config) {
    var s, held, n := c.db.job.status, c.l.snap.status, |c.db.docs|;
    && Fits(c)
    && (c.l.pc == Reading ==> s == Queued || s == Cancelled)
    && (c.l.pc == PickingUp ==> s == Queued == held)
    && (c.l.pc == Draining ==> s == Cancelled == held)
    && (Live(c.l.pc) ==>
          && (s == Running || s == Cancelling)
          && (held == Running || (held == Cancelling && s == Cancelling))
          && (RereadsLeft(c.l.pc, n) == 0 ==> s == held))
  }

  lemma CalmStep(c: Config, e: Event, f: Plan)
    requires FirstDelivery(c) && Calm(c, e)
    ensures FirstDelivery(Step(c, e, f)) && InGraph(c.db.job.status, Step(c, e, f).db.job.status)
  {}

  /** A job delivered once, with calm events only, never leaves the declared graph. */
  lemma {:induction false} CalmRunStaysInGraph(c: Config, es: seq<Event>, f: Plan)
    requires FirstDelivery(c) && AllCalm(c, es, f)
    ensures EdgesInGraph(c, es, f)
    decreases es
  {
    if es != [] {
      CalmStep(c, es[0], f);
      CalmRunStaysInGraph(Step(c, es[0], f), es[1..], f);
    }
  }

  lemma FreshJobFollowsGraph(db: Db, es: seq<Event>, f: Plan)
    requires db.job.status == Queued && AllCalm(Start(db), es, f)
    ensures EdgesInGraph(Start(db), es, f)
  {
    CalmRunStaysInGraph(Start(db), es, f);
  }

  // ------------------------------------------------------------ the conditions are needed

  function WorkSteps(m: nat): seq<Event> {
    if m == 0 then [] else [Work] + WorkSteps(m - 1)
  }

  lemma {:induction false} WorksAreCalm(c: Config, m: nat, f: Plan)
    requires Fits(c)
    ensures AllCalm(c, WorkSteps(m), f)
    decreases m
  {
    if m > 0 { WorksAreCalm(Step(c, Work, f), m - 1, f); }
  }

  lemma {:induction false} LateCancelLeaves(c: Config, f: Plan)
    requires Fits(c) && Live(c.l.pc) && RereadsLeft(c.l.pc, |c.db.docs|) == 0
    requires c.db.job.status == Cancelling && c.l.snap.status == Running
    ensures !EdgesInGraph(c, WorkSteps(StepsLeft(c.l.pc, |c.db.docs|)), f)
    decreases StepsLeft(c.l.pc, |c.db.docs|)
  {
    if c.l.pc != Finalising { LateCancelLeaves(Step(c, Work, f), f); }
  }

  /** A cancel the service accepts is harmless to the graph exactly when it is calm: otherwise the
      delivery, left alone, commits a change the graph does not have. */
  lemma CancelKeepsGraphIff(c: Config, f: Plan)
    requires FirstDelivery(c) && !c.db.job.deleted && c.l.pc != Done
    requires c.db.job.status != Cancelled
    ensures EdgesInGraph(c, [Cancel] + WorkSteps(StepsLeft(c.l.pc, |c.db.docs|)), f) <==> Calm(c, Cancel)
  {
    var m := StepsLeft(c.l.pc, |c.db.docs|);
    var next := Step(c, Cancel, f);
    assert ([Cancel] + WorkSteps(m))[1..] == WorkSteps(m);
    if Calm(c, Cancel) {
      WorksAreCalm(next, m, f);
      CalmRunStaysInGraph(c, [Cancel] + WorkSteps(m), f);
    } else if c.l.pc == PickingUp {
      assert next.db.job.status == Cancelled && Step(next, Work, f).db.job.status == Running;
      assert WorkSteps(m)[0] == Work;
    } else {
      LateCancelLeaves(next, f);
    }
  }

  /** A swept live run at its next visit: still failed, one step nearer the end, no edge committed. */
  lemma SweptVisit(c: Config, f: Plan, k: nat)
    requires Inv(c, f, k) && Live(c.l.pc) && !c.db.job.deleted && c.l.pc != Finalising
    requires c.db.job.status == Failed && k == Visited(c.l.pc, |c.db.docs|)
    ensures var next := Step(c, Work, f);
      && Live(next.l.pc) && next.db.job.status == Failed && !next.db.job.deleted
      && NextK(c, Work, k) == Visited(next.l.pc, |c.db.docs|)
      && StepsLeft(next.l.pc, |c.db.docs|) + 1 == StepsLeft(c.l.pc, |c.db.docs|)
  {}

  lemma SweptEnd(c: Config, f: Plan, k: nat)
    requires Inv(c, f, k) && c.l.pc == Finalising && !c.db.job.deleted
    requires c.db.job.status == Failed && k == |c.db.docs|
    ensures Step(c, Work, f).db.job.status == Dictated(Recalc(ShapedDocs(f, k, k)))
  {
    FinishKeepsInv(c, f, k);
  }

  lemma FirstEdge(c: Config, m: nat, f: Plan)
    requires Fits(c) && m > 0
    ensures EdgesInGraph(c, WorkSteps(m), f)
      <==> InGraph(c.db.job.status, Step(c, Work, f).db.job.status) && EdgesInGraph(Step(c, Work, f), WorkSteps(m - 1), f)
    ensures EdgesInGraph(Step(c, Work, f), WorkSteps(0), f)
  {
    assert WorkSteps(m)[0] == Work && WorkSteps(m)[1..] == WorkSteps(m - 1);
  }

  lemma {:induction false} SweptRun(c: Config, f: Plan, k: nat, m: nat)
    requires Inv(c, f, k) && Live(c.l.pc) && !c.db.job.deleted
    requires c.db.job.status == Failed && k == Visited(c.l.pc, |c.db.docs|) && m == StepsLeft(c.l.pc, |c.db.docs|)
    ensures EdgesInGraph(c, WorkSteps(m), f)
      <==> Dictated(Recalc(ShapedDocs(f, |c.db.docs|, |c.db.docs|))) == Failed
    decreases m
  {
    hide WorkerStep, LiveInv, Settled, EdgesInGraph, Recalc, Dictated;
    FirstEdge(c, m, f);
    if c.l.pc == Finalising {
      SweptEnd(c, f, k);
    } else {
      SweptVisit(c, f, k);
      StepKeepsInv(c, Work, f, k);
      SweptRun(Step(c, Work, f), f, NextK(c, Work, k), m - 1);
    }
  }

  /** The documents that the fetcher leaves: none delivered, and one failed unless there are none. */
  predicate NothingDelivered(f: Plan, n: nat) {
    && (forall i :: 0 <= i < n ==> StatusOf(f(i)) == DocFailed || StatusOf(f(i)) == Skipped)
    && (n == 0 || exists i :: 0 <= i < n && StatusOf(f(i)) == DocFailed)
  }

  lemma FailsIff(f: Plan, n: nat)
    ensures Dictated(Recalc(ShapedDocs(f, n, n))) == Failed <==> NothingDelivered(f, n)
  {
    var docs := ShapedDocs(f, n, n);
    ShapedFinal(f, n, n);
    CountersConserve(docs);
    ResolveMeaning(Running, docs);
    hide Dictated, Recalc, Resolve;
    assert |docs| == n && forall i :: 0 <= i < n ==> docs[i] == StatusOf(f(i));
    assert forall i :: 0 <= i < n ==> docs[i] in docs && Final(docs[i]);
    hide ShapedDocs;
    if Dictated(Recalc(docs)) == Failed {
      if n > 0 {
        var i :| 0 <= i < |docs| && docs[i] == DocFailed;
        assert StatusOf(f(i)) == DocFailed;
      }
    }
    if NothingDelivered(f, n) {
      assert forall d :: d in docs ==> d == DocFailed || d == Skipped;
      if n > 0 {
        var i :| 0 <= i < n && StatusOf(f(i)) == DocFailed;
        assert docs[i] == DocFailed;
      }
    }
  }

  /** The reaper sweeping a live run breaks the graph exactly when the run's own fetches deliver a
      document, or fail none of at least one: otherwise the run would have failed anyway. */
  lemma SweepKeepsGraphIff(c: Config, f: Plan, k: nat)
    requires FirstDelivery(c) && Inv(c, f, k) && Live(c.l.pc) && !c.db.job.deleted
    requires c.db.job.status == Running && c.db.job.started && k == Visited(c.l.pc, |c.db.docs|)
    ensures EdgesInGraph(c, [Sweep] + WorkSteps(StepsLeft(c.l.pc, |c.db.docs|)), f) <==> NothingDelivered(f, |c.db.docs|)
  {
    var m := StepsLeft(c.l.pc, |c.db.docs|);
    assert ([Sweep] + WorkSteps(m))[1..] == WorkSteps(m);
    StepKeepsInv(c, Sweep, f, k);
    SweptRun(Step(c, Sweep, f), f, k, m);
    FailsIff(f, |c.db.docs|);
    hide NothingDelivered, Dictated, Recalc, ShapedDocs, WorkerStep;
  }
}
