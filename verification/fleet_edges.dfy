/** The relation of committed status changes is tight: from a newly created job of two documents there
    is, for each of its edges, an execution that commits exactly that change. */
module FleetEdges {
  import opened Lifecycle
  import opened Protocol
  import opened SingleRun
  import opened Fleet

  const FRESH := System(Db(JobRow(Queued, Counters(2, 0, 0, 0, 0), false, false, false), [DocQueued, DocQueued]), 0, map[])

  /** A live job of two documents, among whose deliveries is w. */
  predicate Has(s: System, w: nat) {
    SysFits(s) && !s.db.job.deleted && |s.db.docs| == 2 && w in s.workers
  }

  /** The other deliveries are as before. */
  predicate OthersSame(s: System, s': System, w: nat) {
    forall v :: v in s.workers && v != w ==> v in s'.workers && s'.workers[v] == s.workers[v]
  }

  predicate At(s: System, w: nat, pc: Pc, held: JobStatus) {
    Has(s, w) && s.workers[w].pc == pc && s.workers[w].snap.status == held
  }

  lemma {:induction false} RunAllAppend(s: System, a: seq<Action>, b: seq<Action>, f: Plans)
    requires SysFits(s)
    ensures RunAll(s, a + b, f) == RunAll(RunAll(s, a, f), b, f)
    decreases a
  {
    hide Act, SysFits;
    if a == [] {
      assert a + b == b;
    } else {
      assert (a + b)[1..] == a[1..] + b;
      RunAllAppend(Act(s, a[0], f), a[1..], b, f);
    }
  }

  lemma RunOne(s: System, a: Action, f: Plans)
    requires SysFits(s)
    ensures RunAll(s, [a], f) == Act(s, a, f)
  {
    hide Act, SysFits;
    assert RunAll(Act(s, a, f), [][..], f) == Act(s, a, f);
  }

  /** What one action of delivery w does, in terms of its own configuration. */
  lemma WorkOf(s: System, w: nat, f: Plans)
    requires Has(s, w)
    ensures var s', next := Act(s, WorkBy(w), f), Step(Config(s.db, s.workers[w]), Work, f(w));
      && w in s'.workers && Config(s'.db, s'.workers[w]) == next && OthersSame(s, s', w)
      && SysFits(s') && |s'.db.docs| == 2 && s'.db.job.deleted == next.db.job.deleted
  {
    hide Step, WorkerStep, Fits;
  }

  // ------------------------------------------------------------ moves of one delivery

  lemma Claim(s: System, w: nat, f: Plans)
    requires At(s, w, PickingUp, Queued)
    ensures var s' := Act(s, WorkBy(w), f);
      At(s', w, Rereading(0), Running) && s'.db.job.status == Running && s'.db.job.started && OthersSame(s, s', w)
  {
    WorkOf(s, w, f);
    hide OthersSame, Act, SysFits;
  }

  /** Re-read, mark and fetch document i of a running job. */
  lemma Visit(s: System, w: nat, i: nat, f: Plans) returns (acts: seq<Action>)
    requires i < 2 && At(s, w, Rereading(i), Running) && s.db.job.status == Running
    ensures SysFits(s)
    ensures var s' := RunAll(s, acts, f);
      && At(s', w, NextVisit(i + 1, 2), Running) && s'.db.job.status == Running && OthersSame(s, s', w)
      && s'.workers[w].docs == s.workers[w].docs[i := StatusOf(f(w)(i))]
      && s'.db.job.started == s.db.job.started
  {
    hide OthersSame, Act, SysFits, Recalc, Resolve, EnvJob;
    var s1 := Act(s, WorkBy(w), f);
    WorkOf(s, w, f);
    assert s1.db == s.db && s1.workers[w] == s.workers[w].(pc := Marking(i), snap := s.db.job);
    var s2 := Act(s1, WorkBy(w), f);
    WorkOf(s1, w, f);
    assert s2.db.job == s.db.job && s2.workers[w].pc == Awaiting(i) && s2.workers[w].snap == s.db.job;
    assert s2.workers[w].docs == s.workers[w].docs[i := Fetching];
    var s3 := Act(s2, WorkBy(w), f);
    WorkOf(s2, w, f);
    OthersChain(s, s1, s2, w);
    OthersChain(s, s2, s3, w);
    acts := [WorkBy(w)] + ([WorkBy(w)] + [WorkBy(w)]);
    RunThree(s, WorkBy(w), f);
  }

  lemma RunThree(s: System, a: Action, f: Plans)
    requires SysFits(s)
    ensures RunAll(s, [a] + ([a] + [a]), f) == Act(Act(Act(s, a, f), a, f), a, f)
  {
    hide Act, SysFits;
    RunAllAppend(s, [a], [a] + [a], f);
    RunOne(s, a, f);
    var s1 := Act(s, a, f);
    RunAllAppend(s1, [a], [a], f);
    RunOne(s1, a, f);
    RunOne(Act(s1, a, f), a, f);
  }

  lemma OthersChain(a: System, b: System, c: System, w: nat)
    requires OthersSame(a, b, w) && OthersSame(b, c, w)
    ensures OthersSame(a, c, w)
  {}

  /** Claim the job and fetch both documents; the next commit finalises. */
  lemma Fetch(s: System, w: nat, f: Plans) returns (acts: seq<Action>)
    requires At(s, w, PickingUp, Queued)
    ensures SysFits(s)
    ensures var s' := RunAll(s, acts, f);
      && At(s', w, Finalising, Running) && s'.db.job.status == Running && OthersSame(s, s', w) && s'.db.job.started
      && s'.workers[w].docs == [StatusOf(f(w)(0)), StatusOf(f(w)(1))]
  {
    hide OthersSame, Act, SysFits, StatusOf;
    Claim(s, w, f);
    var s1 := Act(s, WorkBy(w), f);
    var first := Visit(s1, w, 0, f);
    var s2 := RunAll(s1, first, f);
    var second := Visit(s2, w, 1, f);
    var s3 := RunAll(s2, second, f);
    acts := [WorkBy(w)] + (first + second);
    RunOne(s, WorkBy(w), f);
    RunAllAppend(s, [WorkBy(w)], first + second, f);
    RunAllAppend(s1, first, second, f);
    OthersChain(s, s1, s2, w);
    OthersChain(s, s2, s3, w);
    TwoDocs(s1, w);
    assert s3.workers[w].docs == s1.workers[w].docs[0 := StatusOf(f(w)(0))][1 := StatusOf(f(w)(1))];
  }

  lemma TwoDocs(s: System, w: nat)
    requires At(s, w, Rereading(0), Running)
    ensures |s.workers[w].docs| == 2
  {}

  /** Claim the job, have it cancelled, and see that at both re-reads. */
  lemma FetchNothing(s: System, w: nat, f: Plans) returns (acts: seq<Action>)
    requires At(s, w, PickingUp, Queued)
    ensures SysFits(s)
    ensures var s' := RunAll(s, acts, f);
      At(s', w, Finalising, Cancelling) && s'.db.job.status == Cancelling && OthersSame(s, s', w)
  {
    hide OthersSame, Act, SysFits;
    Claim(s, w, f);
    var s1 := Act(s, WorkBy(w), f);
    var s2 := Act(s1, Outside(Cancel), f);
    ApiOf(s1, w, Cancel, f);
    WorkOf(s2, w, f);
    var s3 := Act(s2, WorkBy(w), f);
    WorkOf(s3, w, f);
    var s4 := Act(s3, WorkBy(w), f);
    OthersChain(s, s1, s2, w);
    OthersChain(s, s2, s3, w);
    OthersChain(s, s3, s4, w);
    acts := [WorkBy(w)] + ([Outside(Cancel)] + ([WorkBy(w)] + [WorkBy(w)]));
    RunOne(s, WorkBy(w), f);
    RunAllAppend(s, [WorkBy(w)], [Outside(Cancel)] + ([WorkBy(w)] + [WorkBy(w)]), f);
    RunOne(s1, Outside(Cancel), f);
    RunAllAppend(s1, [Outside(Cancel)], [WorkBy(w)] + [WorkBy(w)], f);
    RunOne(s2, WorkBy(w), f);
    RunAllAppend(s2, [WorkBy(w)], [WorkBy(w)], f);
    RunOne(s3, WorkBy(w), f);
  }

  lemma ApiOf(s: System, w: nat, e: Event, f: Plans)
    requires Has(s, w) && e != Delete
    ensures var s' := Act(s, Outside(e), f);
      && s'.workers == s.workers && s'.db.docs == s.db.docs && s'.db.job == EnvJob(s.db.job, e)
      && Has(s', w) && OthersSame(s, s', w)
  {
    hide Fits;
  }

  /** The finalising commit writes what the session resolves, whatever is stored. */
  lemma Finish(s: System, w: nat, held: JobStatus, f: Plans)
    requires At(s, w, Finalising, held)
    ensures var s', t := Act(s, WorkBy(w), f), Resolve(held, s.workers[w].docs);
      && Has(s', w) && OthersSame(s, s', w)
      && (t != held ==> s'.db.job.status == t)
  {
    WorkOf(s, w, f);
    hide OthersSame, Act, SysFits, Resolve, Recalc;
  }

  // ------------------------------------------------------------ a delivery about to write t

  function ResultsFor(t: JobStatus): seq<DocStatus> {
    match t
    case Completed => [Fetched, Fetched]
    case Partial => [Fetched, DocFailed]
    case _ => [DocFailed, DocFailed]
  }

  function PlanFor(t: JobStatus): Plan {
    (i: nat) => if t == Completed || (t == Partial && i == 0) then Returned(Fetched) else Raised
  }

  lemma PlanGives(t: JobStatus)
    requires t == Completed || t == Partial || t == Failed
    ensures [StatusOf(PlanFor(t)(0)), StatusOf(PlanFor(t)(1))] == ResultsFor(t)
    ensures Resolve(Running, ResultsFor(t)) == t
  {
    var docs := ResultsFor(t);
    assert docs == [docs[0], docs[1]];
    CountOfTwo(docs[0], docs[1], DocFailed);
    CountOfTwo(docs[0], docs[1], Skipped);
    hide CountOf;
  }

  lemma CountOfTwo(a: DocStatus, b: DocStatus, s: DocStatus)
    ensures CountOf([a, b], s) == (if a == s then 1 else 0) + (if b == s then 1 else 0)
  {
    assert [a, b][1..] == [b];
    assert CountOf([b], s) == if b == s then 1 else 0 by { assert [b][1..] == []; }
  }

  predicate WorkerStatus(t: JobStatus) {
    t == Running || t == Completed || t == Partial || t == Failed || t == Cancelled
  }

  /** The next commit of w writes t over any status. */
  predicate Ready(s: System, w: nat, t: JobStatus) {
    || (t == Running && At(s, w, PickingUp, Queued))
    || (exists held :: (held == Running || held == Cancelling) && At(s, w, Finalising, held)
                       && Resolve(held, s.workers[w].docs) == t && t != held)
  }

  lemma ReadyWrites(s: System, w: nat, t: JobStatus, f: Plans)
    requires Ready(s, w, t)
    ensures Has(s, w) && Has(Act(s, WorkBy(w), f), w)
    ensures Act(s, WorkBy(w), f).db.job.status == t && OthersSame(s, Act(s, WorkBy(w), f), w)
  {
    hide OthersSame, Act, SysFits, Resolve;
    if t == Running && At(s, w, PickingUp, Queued) {
      Claim(s, w, f);
    } else {
      var held :| (held == Running || held == Cancelling) && At(s, w, Finalising, held)
                  && Resolve(held, s.workers[w].docs) == t && t != held;
      Finish(s, w, held, f);
    }
  }

  lemma Prepare(s: System, w: nat, t: JobStatus, f: Plans) returns (acts: seq<Action>)
    requires At(s, w, PickingUp, Queued) && WorkerStatus(t) && f(w) == PlanFor(t)
    ensures SysFits(s) && Ready(RunAll(s, acts, f), w, t) && OthersSame(s, RunAll(s, acts, f), w)
  {
    if t == Running {
      acts := [];
    } else if t == Cancelled {
      hide OthersSame, Act, SysFits;
      acts := FetchNothing(s, w, f);
    } else {
      PlanGives(t);
      hide OthersSame, Act, SysFits, Resolve, ResultsFor, PlanFor;
      acts := Fetch(s, w, f);
    }
  }

  // ------------------------------------------------------------ reaching a status

  /** The status a delivery writes on the way to s, and the API call or sweep that then gives s. */
  function Via(s: JobStatus): (JobStatus, Event) {
    match s
    case Cancelling => (Running, Cancel)
    case Reviewed => (Completed, Review)
    case Archived => (Completed, Archive)
    case _ => (s, Archive)
  }

  lemma ViaIsWritten(s: JobStatus)
    requires s != Queued
    ensures WorkerStatus(Via(s).0)
  {}

  /** Two deliveries have read the queued job; w may take it to any status but queued, the other one
      keeping its session. */
  lemma Reach(s: System, w: nat, target: JobStatus, f: Plans) returns (acts: seq<Action>)
    requires At(s, w, PickingUp, Queued) && target != Queued && f(w) == PlanFor(Via(target).0)
    ensures SysFits(s)
    ensures var s' := RunAll(s, acts, f);
      Has(s', w) && s'.db.job.status == target && OthersSame(s, s', w)
  {
    hide OthersSame, Act, SysFits, PlanFor, Ready, At;
    ViaIsWritten(target);
    var t := Via(target).0;
    var before := Prepare(s, w, t, f);
    var s1 := RunAll(s, before, f);
    ReadyWrites(s1, w, t, f);
    var s2 := Act(s1, WorkBy(w), f);
    RunAllAppend(s, before, [WorkBy(w)], f);
    RunOne(s1, WorkBy(w), f);
    OthersChain(s, s1, s2, w);
    acts := before + [WorkBy(w)];
    if target == Cancelling || target == Reviewed {
      acts := Call(s, acts, w, Via(target).1, f);
    } else if target == Archived {
      acts := Call(s, acts, w, Review, f);
      acts := Call(s, acts, w, Archive, f);
    }
  }

  /** One API call after an execution. */
  lemma Call(s: System, acts: seq<Action>, w: nat, e: Event, f: Plans) returns (longer: seq<Action>)
    requires SysFits(s) && Has(RunAll(s, acts, f), w) && e != Delete && OthersSame(s, RunAll(s, acts, f), w)
    ensures longer == acts + [Outside(e)]
    ensures var s' := RunAll(s, acts, f);
      && Has(RunAll(s, longer, f), w) && OthersSame(s, RunAll(s, longer, f), w)
      && RunAll(s, longer, f).db.job == EnvJob(s'.db.job, e)
  {
    hide OthersSame, Act, SysFits;
    longer := acts + [Outside(e)];
    var s' := RunAll(s, acts, f);
    RunAllAppend(s, acts, [Outside(e)], f);
    RunOne(s', Outside(e), f);
    ApiOf(s', w, e, f);
    OthersChain(s, s', Act(s', Outside(e), f), w);
  }

  // ------------------------------------------------------------ from a newly created job

  const TWO_READERS: seq<Action> :=
    [Enqueue] + ([Enqueue] + ([Deliver(0)] + ([Deliver(1)] + ([WorkBy(0)] + [WorkBy(1)]))))

  function Opened(w: nat): Local {
    if w == 0 then Local(PickingUp, FRESH.db.job, FRESH.db.docs, FRESH.db.docs) else Start(FRESH.db).l
  }

  lemma TwoReaders(f: Plans)
    ensures SysFits(FRESH)
    ensures var s := RunAll(FRESH, TWO_READERS, f);
      At(s, 0, PickingUp, Queued) && At(s, 1, PickingUp, Queued) && s.db.job.status == Queued
  {
    var reading, picked := Start(FRESH.db).l, Opened(0);
    var s1 := FRESH.(queue := 1);
    var s2 := FRESH.(queue := 2);
    var s3 := FRESH.(queue := 1, workers := map[0 := reading]);
    var s4 := FRESH.(workers := map[0 := reading, 1 := reading]);
    var s5 := FRESH.(workers := map[0 := picked, 1 := reading]);
    var s6 := FRESH.(workers := map[0 := picked, 1 := picked]);
    assert Act(FRESH, Enqueue, f) == s1 && Act(s1, Enqueue, f) == s2;
    assert Act(s2, Deliver(0), f) == s3 && Act(s3, Deliver(1), f) == s4;
    assert Act(s4, WorkBy(0), f) == s5 && Act(s5, WorkBy(1), f) == s6;
    Chain(f, s1, s2, s3, s4, s5, s6);
  }

  lemma Chain(f: Plans, s1: System, s2: System, s3: System, s4: System, s5: System, s6: System)
    requires SysFits(FRESH) && SysFits(s1) && SysFits(s2) && SysFits(s3) && SysFits(s4) && SysFits(s5)
    requires Act(FRESH, Enqueue, f) == s1 && Act(s1, Enqueue, f) == s2 && Act(s2, Deliver(0), f) == s3
    requires Act(s3, Deliver(1), f) == s4 && Act(s4, WorkBy(0), f) == s5 && Act(s5, WorkBy(1), f) == s6
    ensures RunAll(FRESH, TWO_READERS, f) == s6
  {
    hide Act, SysFits;
    var e5 := [WorkBy(0)] + [WorkBy(1)];
    var e4 := [Deliver(1)] + e5;
    var e3 := [Deliver(0)] + e4;
    var e2 := [Enqueue] + e3;
    RunOne(FRESH, Enqueue, f);
    RunAllAppend(FRESH, [Enqueue], e2, f);
    RunOne(s1, Enqueue, f);
    RunAllAppend(s1, [Enqueue], e3, f);
    RunOne(s2, Deliver(0), f);
    RunAllAppend(s2, [Deliver(0)], e4, f);
    RunOne(s3, Deliver(1), f);
    RunAllAppend(s3, [Deliver(1)], e5, f);
    RunOne(s4, WorkBy(0), f);
    RunAllAppend(s4, [WorkBy(0)], [WorkBy(1)], f);
    RunOne(s5, WorkBy(1), f);
  }

  /** What the sources do for delivery 0, which is to write t, and delivery 1, which is to reach s. */
  function PlansFor(s: JobStatus, t: JobStatus): Plans {
    (w: nat) => PlanFor(if w == 0 then t else Via(s).0)
  }

  lemma ReadyStays(s: System, s': System, t: JobStatus)
    requires Ready(s, 0, t) && OthersSame(s, s', 1) && Has(s', 1)
    ensures Ready(s', 0, t)
  {
    hide Resolve, SysFits;
    assert s'.workers[0] == s.workers[0];
    if !(t == Running && At(s, 0, PickingUp, Queued)) {
      var held :| (held == Running || held == Cancelling) && At(s, 0, Finalising, held)
                  && Resolve(held, s.workers[0].docs) == t && t != held;
      assert At(s', 0, Finalising, held);
    }
  }

  /** Delivery 0 gets ready to write t, then delivery 1 takes the job to s. */
  lemma Arrange(two: System, s: JobStatus, t: JobStatus, f: Plans) returns (acts: seq<Action>)
    requires At(two, 0, PickingUp, Queued) && At(two, 1, PickingUp, Queued)
    requires s != Queued && WorkerStatus(t) && f(0) == PlanFor(t) && f(1) == PlanFor(Via(s).0)
    ensures SysFits(two)
    ensures var end := RunAll(two, acts, f); end.db.job.status == s && Ready(end, 0, t)
  {
    hide OthersSame, Act, PlanFor, Ready, Via;
    var first := Prepare(two, 0, t, f);
    var ready := RunAll(two, first, f);
    ReadyWrites(ready, 0, t, f);
    OtherIsAt(two, ready);
    var second := Reach(ready, 1, s, f);
    ReadyStays(ready, RunAll(ready, second, f), t);
    hide *;
    acts := first + second;
    RunAllAppend(two, first, second, f);
  }

  lemma WriteOver(s: JobStatus, t: JobStatus) returns (acts: seq<Action>)
    requires s != Queued && WorkerStatus(t)
    ensures SysFits(FRESH)
    ensures var f := PlansFor(s, t);
      && RunAll(FRESH, acts, f).db.job.status == s
      && RunAll(FRESH, acts + [WorkBy(0)], f).db.job.status == t
  {
    var f := PlansFor(s, t);
    assert f(0) == PlanFor(t) && f(1) == PlanFor(Via(s).0);
    hide *;
    TwoReaders(f);
    var two := RunAll(FRESH, TWO_READERS, f);
    var later := Arrange(two, s, t, f);
    ReadyWrites(RunAll(two, later, f), 0, t, f);
    acts := TWO_READERS + later;
    RunAllAppend(FRESH, TWO_READERS, later, f);
    RunAllAppend(FRESH, acts, [WorkBy(0)], f);
    RunOne(RunAll(two, later, f), WorkBy(0), f);
  }

  lemma OtherIsAt(two: System, ready: System)
    requires At(two, 1, PickingUp, Queued) && OthersSame(two, ready, 0) && SysFits(ready) && |ready.db.docs| == 2
    requires !ready.db.job.deleted
    ensures At(ready, 1, PickingUp, Queued)
  {
    hide SysFits;
  }

  /** The remaining edges: an API call on a job in status s, or no change. */
  lemma CallOn(s: JobStatus, a: Action, f: Plans) returns (acts: seq<Action>)
    requires s != Queued && f(1) == PlanFor(Via(s).0) && (a == Enqueue || (a.Outside? && a.e != Delete && a.e != Work))
    ensures SysFits(FRESH)
    ensures var end, next := RunAll(FRESH, acts, f), RunAll(FRESH, acts + [a], f);
      end.db.job.status == s && !end.db.job.deleted
      && next.db.job == (if a.Outside? then EnvJob(end.db.job, a.e) else end.db.job)
  {
    TwoReaders(f);
    var two := RunAll(FRESH, TWO_READERS, f);
    hide OthersSame, PlanFor, At, EnvJob;
    var second := Reach(two, 1, s, f);
    var end := RunAll(two, second, f);
    hide SysFits;
    acts := TWO_READERS + second;
    RunAllAppend(FRESH, TWO_READERS, second, f);
    RunAllAppend(FRESH, acts, [a], f);
    RunOne(end, a, f);
  }

  /** Tightness: every edge of the relation is committed by the last action of some execution that
      starts from a newly created job. */
  lemma EveryEdgeHappens(s: JobStatus, t: JobStatus) returns (acts: seq<Action>, a: Action, f: Plans)
    requires StatusEdge(s, t)
    ensures SysFits(FRESH)
    ensures RunAll(FRESH, acts, f).db.job.status == s && RunAll(FRESH, acts + [a], f).db.job.status == t
  {
    if s == Queued {
      acts, a, f := FromQueued(t);
    } else if s != t && WorkerStatus(t) {
      hide *;
      f, a := PlansFor(s, t), WorkBy(0);
      acts := WriteOver(s, t);
    } else {
      f := PlansFor(s, Running);
      assert f(1) == PlanFor(Via(s).0);
      a := if s == t then Enqueue
           else Outside(if t == Cancelling then Cancel else if t == Reviewed then Review else Archive);
      hide PlanFor, PlansFor, Act, SysFits, RunAll;
      acts := CallOn(s, a, f);
    }
  }

  lemma FromQueued(t: JobStatus) returns (acts: seq<Action>, a: Action, f: Plans)
    requires StatusEdge(Queued, t)
    ensures SysFits(FRESH)
    ensures RunAll(FRESH, acts, f).db.job.status == Queued && RunAll(FRESH, acts + [a], f).db.job.status == t
  {
    f := PlansFor(Running, Running);
    if t == Running {
      TwoReaders(f);
      acts, a := TWO_READERS, WorkBy(0);
      var two := RunAll(FRESH, TWO_READERS, f);
      Claim(two, 0, f);
      hide Act, SysFits, At, TWO_READERS;
      RunAllAppend(FRESH, acts, [a], f);
      RunOne(two, a, f);
    } else {
      acts, a := [], if t == Queued then Enqueue else Outside(Cancel);
      assert [] + [a] == [a];
      RunOne(FRESH, a, f);
    }
  }
}
