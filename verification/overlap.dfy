/** Overlapping deliveries of one job: duplicated tasks whose workers all run to their end leave no
    status in flight and no document unfinished, however they, the API and the reaper interleave. */
module Overlap {
  import opened Lifecycle
  import opened Protocol
  import opened SingleRun
  import opened Fleet

  predicate InFlight(s: JobStatus) {
    s == Running || s == Cancelling
  }

  /** This delivery will still resolve the status: it will re-read it, or holds one it overwrites. */
  predicate Responsible(l: Local) {
    Live(l.pc) && (l.pc.Rereading? || InFlight(l.snap.status))
  }

  /** What the session loaded as begun has begun in the store. */
  predicate BaseBegun(db: Db, l: Local) {
    && |l.base| == |l.docs| == |db.docs|
    && forall j :: 0 <= j < |db.docs| && db.docs[j] == DocQueued ==> l.base[j] == DocQueued
  }

  /** A session against the rows, whatever other deliveries have done to them. */
  predicate SessionOk(db: Db, l: Local) {
    && (l.pc != Reading ==> BaseBegun(db, l))
    && (l.pc == PickingUp ==> l.docs == l.base && (db.job.status == Queued ==> l.snap.status == Queued))
    && (l.pc == Draining ==> l.docs == l.base)
    && (l.pc != Reading && l.pc != PickingUp ==> db.job.status != Queued)
    && (Live(l.pc) ==> LiveOk(l, Visited(l.pc, |l.docs|)))
    && (l.pc == Done ==> forall j :: 0 <= j < |l.base| ==> Final(l.base[j]))
  }

  /** A live session has results for the documents behind it and has not touched the others; the one
      it fetches is marked, in its last commit too. */
  predicate LiveOk(l: Local, visited: nat) {
    && |l.base| == |l.docs|
    && (forall j :: 0 <= j < |l.docs| && j < visited ==> Final(l.docs[j]))
    && (forall j :: visited <= j < |l.docs| ==> l.docs[j] == l.base[j])
    && (l.pc.Awaiting? && visited < |l.docs| ==> l.docs[visited] == Fetching)
  }

  /** What one step of a delivery does to the document rows: it starts none anew, and leaves a document
      unfinished only if it awaits the result itself. */
  predicate DocsStep(c: Config, next: Config) {
    && |next.db.docs| == |c.db.docs|
    && (forall j :: 0 <= j < |c.db.docs| ==>
          || next.db.docs[j] == c.db.docs[j]
          || Final(next.db.docs[j])
          || (next.db.docs[j] == Fetching && next.l.pc == Awaiting(j)))
    && (c.l.pc.Awaiting? && c.l.pc.i < |c.db.docs| ==> Final(next.db.docs[c.l.pc.i]))
  }

  lemma CommitKeepsBegun(c: Config, pc: Pc)
    requires BaseBegun(c.db, c.l)
    ensures BaseBegun(Commit(c, pc).db, Commit(c, pc).l)
  {}

  lemma WorkKeepsSession(c: Config, f: Plan)
    requires Fits(c) && SessionOk(c.db, c.l) && !c.db.job.deleted
    ensures var next := Step(c, Work, f); SessionOk(next.db, next.l) && DocsStep(c, next)
  {
    hide Recalc;
    if Live(c.l.pc) && c.l.pc != Finalising { VisitKeepsSession(c, f); }
  }

  lemma VisitKeepsSession(c: Config, f: Plan)
    requires Fits(c) && SessionOk(c.db, c.l) && !c.db.job.deleted && Live(c.l.pc) && c.l.pc != Finalising
    ensures var next := Step(c, Work, f); SessionOk(next.db, next.l) && DocsStep(c, next)
  {
    hide EnvJob, Recalc, Resolve;
    match c.l.pc
    case Marking(i) => CommitKeepsBegun(c.(l := c.l.(docs := c.l.docs[i := Fetching])), Awaiting(i));
    case Awaiting(i) =>
      CommitKeepsBegun(c.(l := c.l.(docs := c.l.docs[i := StatusOf(f(i))])), NextVisit(i + 1, |c.db.docs|));
    case _ =>
  }

  lemma WorkKeepsDuty(c: Config, f: Plan)
    requires Fits(c) && SessionOk(c.db, c.l) && !c.db.job.deleted
    ensures var next := Step(c, Work, f);
      && !next.db.job.deleted && (c.db.job.status != Queued ==> next.db.job.status != Queued)
      && (InFlight(next.db.job.status) ==> Responsible(next.l) || (InFlight(c.db.job.status) && !Responsible(c.l)))
  {
    hide Recalc;
  }

  // ------------------------------------------------------------ all deliveries together

  /** A document row is untouched, finished, or awaited by some delivery. */
  predicate DocOk(s: System, j: nat)
    requires j < |s.db.docs|
  {
    || s.db.docs[j] == DocQueued || Final(s.db.docs[j])
    || (s.db.docs[j] == Fetching && exists w :: w in s.workers && s.workers[w].pc == Awaiting(j))
  }

  predicate DutyHeld(s: System) {
    InFlight(s.db.job.status) ==> exists w :: w in s.workers && Responsible(s.workers[w])
  }

  predicate OverlapInv(s: System) {
    && SysFits(s) && !s.db.job.deleted
    && (forall w :: w in s.workers ==> SessionOk(s.db, s.workers[w]))
    && (forall j :: 0 <= j < |s.db.docs| ==> DocOk(s, j))
    && DutyHeld(s)
  }

  /** Every delivery runs on: no crash, and the job is not deleted. */
  predicate Undying(acts: seq<Action>) {
    forall i :: 0 <= i < |acts| ==> !acts[i].Crash? && acts[i] != Outside(Delete)
  }

  lemma OthersKeepSession(db: Db, db': Db, l: Local)
    requires SessionOk(db, l) && |db'.docs| == |db.docs| && Fits(Config(db, l))
    requires forall j :: 0 <= j < |db.docs| && db'.docs[j] == DocQueued ==> db.docs[j] == DocQueued
    requires db.job.status != Queued ==> db'.job.status != Queued
    ensures SessionOk(db', l)
  {}

  lemma WorkByKeeps(s: System, w: nat, f: Plans)
    requires OverlapInv(s) && w in s.workers
    ensures OverlapInv(Act(s, WorkBy(w), f))
  {
    hide WorkerStep, Step, SessionOk, Responsible, Fits;
    var c := Config(s.db, s.workers[w]);
    var next, s' := Step(c, Work, f(w)), Act(s, WorkBy(w), f);
    WorkKeepsSession(c, f(w));
    WorkKeepsDuty(c, f(w));
    forall v | v in s'.workers ensures SessionOk(s'.db, s'.workers[v]) {
      if v != w { OthersKeepSession(s.db, s'.db, s.workers[v]); }
    }
    forall j | 0 <= j < |s'.db.docs| ensures DocOk(s', j) {
      assert DocOk(s, j);
      if s'.db.docs[j] == s.db.docs[j] && s.db.docs[j] == Fetching {
        var v :| v in s.workers && s.workers[v].pc == Awaiting(j);
        if v != w { assert s'.workers[v].pc == Awaiting(j); }
      } else if s'.db.docs[j] == Fetching {
        assert s'.workers[w].pc == Awaiting(j);
      }
    }
    if InFlight(s'.db.job.status) {
      if Responsible(next.l) {
        assert Responsible(s'.workers[w]);
      } else {
        var v :| v in s.workers && Responsible(s.workers[v]);
        assert v != w && Responsible(s'.workers[v]);
      }
    }
  }

  lemma OutsideKeeps(s: System, e: Event, f: Plans)
    requires OverlapInv(s) && e != Delete
    ensures OverlapInv(Act(s, Outside(e), f))
  {
    hide SessionOk, Responsible, Fits;
    var s' := Act(s, Outside(e), f);
    forall v | v in s'.workers ensures SessionOk(s'.db, s'.workers[v]) {
      OthersKeepSession(s.db, s'.db, s.workers[v]);
    }
    forall j | 0 <= j < |s'.db.docs| ensures DocOk(s', j) { assert DocOk(s, j); }
    if InFlight(s'.db.job.status) {
      var v :| v in s.workers && Responsible(s.workers[v]);
      assert Responsible(s'.workers[v]);
    }
  }

  lemma OtherKeeps(s: System, a: Action, f: Plans)
    requires OverlapInv(s) && (a.Enqueue? || a.Requeue? || a.Deliver?)
    ensures OverlapInv(Act(s, a, f))
  {
    hide Responsible, Fits, BaseBegun;
    var s' := Act(s, a, f);
    assert s'.db == s.db && forall v :: v in s.workers ==> v in s'.workers && s'.workers[v] == s.workers[v];
    forall j | 0 <= j < |s'.db.docs| ensures DocOk(s', j) {
      assert DocOk(s, j);
      if s.db.docs[j] == Fetching {
        var v :| v in s.workers && s.workers[v].pc == Awaiting(j);
        assert s'.workers[v].pc == Awaiting(j);
      }
    }
    if InFlight(s'.db.job.status) {
      var v :| v in s.workers && Responsible(s.workers[v]);
      assert Responsible(s'.workers[v]);
    }
  }

  lemma {:induction false} ExecutionKeeps(s: System, acts: seq<Action>, f: Plans)
    requires SysFits(s) && OverlapInv(s) && Undying(acts)
    ensures OverlapInv(RunAll(s, acts, f))
    decreases acts
  {
    hide OverlapInv, Act;
    if acts != [] {
      var a := acts[0];
      if a.WorkBy? {
        if a.w in s.workers { WorkByKeeps(s, a.w, f); } else { IdleKeeps(s, a.w, f); }
      } else if a.Outside? {
        OutsideKeeps(s, a.e, f);
      } else {
        OtherKeeps(s, a, f);
      }
      ExecutionKeeps(Act(s, a, f), acts[1..], f);
    }
  }

  lemma IdleKeeps(s: System, w: nat, f: Plans)
    requires OverlapInv(s) && w !in s.workers
    ensures OverlapInv(Act(s, WorkBy(w), f))
  {
    assert Act(s, WorkBy(w), f) == s;
  }

  /** A job that no delivery has begun yet. */
  predicate Unbegun(s: System) {
    && s.workers == map[] && !s.db.job.deleted && !InFlight(s.db.job.status)
    && forall j :: 0 <= j < |s.db.docs| ==> s.db.docs[j] == DocQueued
  }

  /** From a job that no delivery has begun, through any number of overlapping deliveries, API calls,
      sweeps and republications, without a crash or a deletion: once all deliveries begun are done, the
      job is not running or cancelling; and if there was one, every document is final and the job has
      left the queue. */
  lemma OverlapSettles(s: System, acts: seq<Action>, f: Plans)
    requires Unbegun(s) && Undying(acts)
    ensures SysFits(s)
    ensures var end := RunAll(s, acts, f);
      (forall w :: w in end.workers ==> end.workers[w].pc == Done) ==>
        && end.db.job.status != Running && end.db.job.status != Cancelling
        && (end.workers != map[] ==>
              end.db.job.status != Queued && forall j :: 0 <= j < |end.db.docs| ==> Final(end.db.docs[j]))
  {
    assert OverlapInv(s);
    ExecutionKeeps(s, acts, f);
    var end := RunAll(s, acts, f);
    if forall w :: w in end.workers ==> end.workers[w].pc == Done { AllDone(end); }
  }

  lemma AllDone(s: System)
    requires OverlapInv(s) && forall w :: w in s.workers ==> s.workers[w].pc == Done
    ensures !InFlight(s.db.job.status)
    ensures s.workers != map[] ==>
      s.db.job.status != Queued && forall j :: 0 <= j < |s.db.docs| ==> Final(s.db.docs[j])
  {
    hide Fits;
    if s.workers != map[] {
      var w :| w in s.workers;
      assert SessionOk(s.db, s.workers[w]);
      forall j | 0 <= j < |s.db.docs| ensures Final(s.db.docs[j]) {
        assert DocOk(s, j) && Final(s.workers[w].base[j]);
      }
    }
  }

  // ------------------------------------------------------------ a crash is excluded for a reason

  const ROW := JobRow(Queued, Counters(1, 0, 0, 0, 0), false, false, false)
  const CLAIMED := ROW.(status := Running, started := true)

  function Holding(row: JobRow, doc: DocStatus, queue: nat, l: Local): System {
    System(Db(row, [doc]), queue, map[0 := l])
  }

  /** The queued rows, and the sessions that the delivery holds on its way. */
  function Early(pc: Pc): System {
    Holding(ROW, DocQueued, 0, if pc == Reading then Start(Db(ROW, [DocQueued])).l else Local(pc, ROW, [DocQueued], [DocQueued]))
  }

  function Later(pc: Pc, doc: DocStatus): System {
    Holding(CLAIMED, doc, 0, Local(pc, CLAIMED, [doc], [doc]))
  }

  lemma FirstSteps(f: Plans)
    ensures var s := System(Db(ROW, [DocQueued]), 1, map[]);
      SysFits(s) && Act(Act(Act(s, Deliver(0), f), WorkBy(0), f), WorkBy(0), f) == Later(Rereading(0), DocQueued)
  {
    hide Recalc, Resolve;
    var s := System(Db(ROW, [DocQueued]), 1, map[]);
    assert Act(s, Deliver(0), f) == Early(Reading);
    assert Act(Early(Reading), WorkBy(0), f) == Early(PickingUp);
  }

  lemma LastSteps(f: Plans)
    ensures var s := Later(Rereading(0), DocQueued);
      && SysFits(s)
      && Act(Act(Act(s, WorkBy(0), f), WorkBy(0), f), Crash(0, false), f) == System(Db(CLAIMED, [Fetching]), 0, map[])
  {
    hide Recalc, Resolve;
    var s := Later(Rereading(0), DocQueued);
    assert Act(s, WorkBy(0), f) == Later(Marking(0), DocQueued);
    assert [DocQueued][0 := Fetching] == [Fetching];
    assert FlushDocs([DocQueued], [Fetching], [DocQueued]) == [Fetching];
    assert Act(Later(Marking(0), DocQueued), WorkBy(0), f) == Later(Awaiting(0), Fetching);
  }

  /** The job of a delivery that is lost, without its task coming back, stays running with the document
      it was fetching, until another delivery comes. */
  lemma CrashLeavesRunning(f: Plans)
    ensures var s := System(Db(ROW, [DocQueued]), 1, map[]);
      Unbegun(s) && SysFits(s)
      && RunAll(s, [Deliver(0)] + ([WorkBy(0)] + ([WorkBy(0)] + ([WorkBy(0)] + ([WorkBy(0)] + [Crash(0, false)])))), f)
         == System(Db(CLAIMED, [Fetching]), 0, map[])
  {
    FirstSteps(f);
    LastSteps(f);
    hide Act, Later, SysFits;
    var s := System(Db(ROW, [DocQueued]), 1, map[]);
    RunCons(s, Deliver(0), [WorkBy(0)] + ([WorkBy(0)] + ([WorkBy(0)] + ([WorkBy(0)] + [Crash(0, false)]))), f);
    var s1 := Act(s, Deliver(0), f);
    RunCons(s1, WorkBy(0), [WorkBy(0)] + ([WorkBy(0)] + ([WorkBy(0)] + [Crash(0, false)])), f);
    var s2 := Act(s1, WorkBy(0), f);
    RunCons(s2, WorkBy(0), [WorkBy(0)] + ([WorkBy(0)] + [Crash(0, false)]), f);
    var s3 := Act(s2, WorkBy(0), f);
    RunCons(s3, WorkBy(0), [WorkBy(0)] + [Crash(0, false)], f);
    var s4 := Act(s3, WorkBy(0), f);
    RunCons(s4, WorkBy(0), [Crash(0, false)], f);
    assert [Crash(0, false)] == [Crash(0, false)] + [];
    RunCons(Act(s4, WorkBy(0), f), Crash(0, false), [], f);
  }

  lemma RunCons(s: System, a: Action, rest: seq<Action>, f: Plans)
    requires SysFits(s)
    ensures RunAll(s, [a] + rest, f) == RunAll(Act(s, a, f), rest, f)
    ensures RunAll(s, [], f) == s
    ensures rest == [] ==> RunAll(s, [a] + rest, f) == Act(s, a, f)
  {
    hide Act, SysFits;
    assert ([a] + rest)[1..] == rest;
  }
}
