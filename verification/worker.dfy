/** The job's rows as the mutable store that the API, the reaper and the worker share, and the worker
    task as the loop it is. */
module Worker {
  import opened Lifecycle
  import opened Protocol
  import opened SingleRun
  import Redelivery

  predicate EnvOnly(es: seq<Event>) {
    forall i :: 0 <= i < |es| ==> es[i] != Work
  }

  function EnvAll(j: JobRow, es: seq<Event>): JobRow
    decreases es
  {
    if es == [] then j else EnvAll(EnvJob(j, es[0]), es[1..])
  }

  lemma {:induction false} EnvRun(c: Config, es: seq<Event>, f: Plan)
    requires Fits(c) && EnvOnly(es)
    ensures Run(c, es, f) == c.(db := c.db.(job := EnvAll(c.db.job, es)))
    decreases es
  {
    if es != [] { EnvRun(Step(c, es[0], f), es[1..], f); }
  }

  /** Interference followed by one worker step extends a run. */
  lemma Advance(start: Config, trace: seq<Event>, es: seq<Event>, f: Plan)
    requires Fits(start) && EnvOnly(es)
    ensures var c := Run(start, trace, f);
      Run(start, trace + es + [Work], f) == Step(c.(db := c.db.(job := EnvAll(c.db.job, es))), Work, f)
  {
    var c := Run(start, trace, f);
    RunAppend(start, trace + es, [Work], f);
    RunAppend(start, trace, es, f);
    EnvRun(c, es, f);
    var d := Run(c, es, f);
    assert Run(d, [Work], f) == Run(Step(d, Work, f), [], f);
  }

  /** The events of a delivery's first t steps, when env(i) are the foreign commits before its i-th. */
  function Schedule(env: nat -> seq<Event>, t: nat): seq<Event> {
    if t == 0 then [] else Schedule(env, t - 1) + env(t - 1) + [Work]
  }

  /** The delivery ends with exactly its t-th step, which it takes at `last`. */
  predicate EndsAt(start: Config, env: nat -> seq<Event>, t: nat, f: Plan, last: Pc)
    requires Fits(start)
  {
    && t > 0 && Run(start, Schedule(env, t), f).l.pc == Done
    && last != Done && Run(start, Schedule(env, t - 1), f).l.pc == last
  }

  lemma {:induction false} ScheduleKeeps(env: nat -> seq<Event>, t: nat)
    ensures (forall i :: NoDelete(env(i))) ==> NoDelete(Schedule(env, t))
    ensures (forall i :: Redelivery.Quiet(env(i))) ==> Redelivery.Quiet(Schedule(env, t))
  {
    if t > 0 {
      ScheduleKeeps(env, t - 1);
      var front, es := Schedule(env, t - 1), env(t - 1);
      assert forall j :: 0 <= j < |Schedule(env, t)| ==>
        Schedule(env, t)[j] == if j < |front| then front[j] else if j < |front| + |es| then es[j - |front|] else Work;
    }
  }

  lemma NothingYet(env: nat -> seq<Event>, start: Config, f: Plan)
    requires Fits(start)
    ensures Run(start, Schedule(env, 0), f) == start
  {}

  // ------------------------------------------------------------ single steps, written out

  lemma ReadStep(c: Config, f: Plan)
    requires Fits(c) && c.l.pc == Reading
    ensures Step(c, Work, f) ==
      if c.db.job.deleted then c.(l := c.l.(pc := Done))
      else c.(l := Local(if Cancelish(c.db.job.status) then Draining else PickingUp, c.db.job, c.db.docs, c.db.docs))
  {}

  lemma RereadStep(c: Config, f: Plan)
    requires Fits(c) && c.l.pc.Rereading?
    ensures var job, i := c.db.job, c.l.pc.i;
      Step(c, Work, f) ==
        if job.deleted then c.(l := c.l.(pc := Done, snap := job))
        else if Cancelish(job.status) then
          c.(l := c.l.(pc := NextVisit(i + 1, |c.db.docs|), snap := job, docs := c.l.docs[i := Skipped]))
        else c.(l := c.l.(pc := Marking(i), snap := job))
  {}

  lemma MarkStep(c: Config, f: Plan)
    requires Fits(c) && c.l.pc.Marking?
    ensures Step(c, Work, f) == Commit(c.(l := c.l.(docs := c.l.docs[c.l.pc.i := Fetching])), Awaiting(c.l.pc.i))
  {}

  lemma AwaitStep(c: Config, f: Plan)
    requires Fits(c) && c.l.pc.Awaiting?
    ensures var i := c.l.pc.i;
      Step(c, Work, f) == Commit(c.(l := c.l.(docs := c.l.docs[i := StatusOf(f(i))])), NextVisit(i + 1, |c.db.docs|))
  {}

  class JobStore {
    var job: JobRow
    var docs: seq<DocStatus>

    constructor (docs: seq<DocStatus>)
      ensures Rows() == Db(JobRow(Queued, Counters(|docs|, 0, 0, 0, 0), false, false, false), docs)
    {
      this.docs := docs;
      job := JobRow(Queued, Counters(|docs|, 0, 0, 0, 0), false, false, false);
    }

    function Rows(): Db
      reads this
    {
      Db(job, docs)
    }

    /** service.cancel_job: accepted exactly on a queued, running or cancelling job. */
    method CancelJob() returns (accepted: bool)
      modifies this`job
      ensures job == EnvJob(old(job), Cancel)
      ensures accepted <==> !old(job).deleted && old(job).status in {Queued, Running, Cancelling}
      ensures job == if !accepted then old(job)
                     else old(job).(status := if old(job).status == Queued then Cancelled else Cancelling, completed := false)
    {
      accepted := !job.deleted && (job.status == Queued || job.status == Running || job.status == Cancelling);
      if accepted {
        job := job.(status := if job.status == Queued then Cancelled else Cancelling, completed := false);
      }
    }

    /** service.mark_reviewed */
    method MarkReviewed() returns (accepted: bool)
      modifies this`job
      ensures job == EnvJob(old(job), Review)
      ensures accepted <==> !old(job).deleted && old(job).status in {Completed, Partial}
      ensures job == if accepted then old(job).(status := Reviewed) else old(job)
    {
      accepted := !job.deleted && (job.status == Completed || job.status == Partial);
      if accepted { job := job.(status := Reviewed); }
    }

    /** service.archive_job */
    method ArchiveJob() returns (accepted: bool)
      modifies this`job
      ensures job == EnvJob(old(job), Archive)
      ensures accepted <==> !old(job).deleted && old(job).status == Reviewed
      ensures job == if accepted then old(job).(status := Archived) else old(job)
    {
      accepted := !job.deleted && job.status == Reviewed;
      if accepted { job := job.(status := Archived); }
    }

    /** The bulk update of worker.reaper_research_jobs: no age limit, deleted rows included. */
    method ReapRunning() returns (failed: nat)
      modifies this`job
      ensures job == EnvJob(old(job), Sweep)
      ensures failed == if old(job).status == Running && old(job).started then 1 else 0
      ensures job == if failed == 1 then old(job).(status := Failed) else old(job)
    {
      failed := 0;
      if job.status == Running && job.started {
        job := job.(status := Failed);
        failed := 1;
      }
    }

    /** Other sessions commit while this one is between two of its statements. */
    method Interfere(es: seq<Event>)
      requires EnvOnly(es)
      modifies this`job
      ensures job == EnvAll(old(job), es)
    {
      var i := 0;
      while i < |es|
        invariant 0 <= i <= |es|
        invariant EnvAll(job, es[i..]) == EnvAll(old(job), es)
      {
        job := EnvJob(job, es[i]);
        i := i + 1;
      }
    }

    /** One session statement, the t-th read or commit: foreign commits happen first, then the caller
        reads or writes. */
    method Meanwhile(env: nat -> seq<Event>, t: nat, ghost start: Config, f: Plan, ghost l: Local)
      requires EnvOnly(env(t)) && Fits(start) && Run(start, Schedule(env, t), f) == Config(Rows(), l)
      modifies this`job
      ensures job == EnvAll(old(job), env(t)) && Fits(Config(Rows(), l))
      ensures Run(start, Schedule(env, t + 1), f) == Step(Config(Rows(), l), Work, f)
    {
      Advance(start, Schedule(env, t), env(t), f);
      Interfere(env(t));
    }

    /** A delivery that finds the job cancelled skips every document and fetches nothing. */
    method Drain(held: JobRow, base: seq<DocStatus>, env: nat -> seq<Event>, t: nat, ghost start: Config, f: Plan)
      requires EnvOnly(env(t)) && Fits(start)
      requires Run(start, Schedule(env, t), f) == Config(Rows(), Local(Draining, held, base, base))
      modifies this
      ensures Run(start, Schedule(env, t + 1), f).db == Rows() && EndsAt(start, env, t + 1, f, Draining)
      ensures Rows() == Db(FlushJob(held, held.(status := Cancelled, counters := Recalc(AllSkipped(|base|))),
                                    EnvAll(old(job), env(t))).(completed := true),
                           FlushDocs(base, AllSkipped(|base|), old(docs)))
    {
      Meanwhile(env, t, start, f, Local(Draining, held, base, base));
      var mine := base;
      for i := 0 to |base|
        invariant |mine| == |base| && forall j :: 0 <= j < i ==> mine[j] == Skipped
      {
        mine := mine[i := Skipped];
      }
      assert mine == AllSkipped(|docs|);
      var updated := held.(status := Cancelled, counters := Recalc(mine));
      job := FlushJob(held, updated, job).(completed := true);
      docs := FlushDocs(base, mine, docs);
    }

    /** Fetch document i: commit `fetching`, call the fetcher, commit its result. */
    method FetchOne(i: nat, held: JobRow, base: seq<DocStatus>, mine: seq<DocStatus>, fetch: Plan,
                    env: nat -> seq<Event>, t: nat, ghost start: Config)
      returns (mine': seq<DocStatus>)
      requires (forall t :: EnvOnly(env(t))) && Fits(start)
      requires Fits(Config(Rows(), Local(Marking(i), held, base, mine)))
      requires Run(start, Schedule(env, t), fetch) == Config(Rows(), Local(Marking(i), held, base, mine))
      modifies this
      ensures |docs| == |mine'| == old(|docs|) && mine' == mine[i := StatusOf(fetch(i))]
      ensures Run(start, Schedule(env, t + 2), fetch) == Config(Rows(), Local(NextVisit(i + 1, |docs|), held, mine', mine'))
    {
      hide Step, WorkerStep, EnvAll, Run, Schedule;
      Meanwhile(env, t, start, fetch, Local(Marking(i), held, base, mine));
      MarkStep(Config(Rows(), Local(Marking(i), held, base, mine)), fetch);
      var marked := mine[i := Fetching];
      docs := FlushDocs(base, marked, docs);
      Meanwhile(env, t + 1, start, fetch, Local(Awaiting(i), held, marked, marked));
      AwaitStep(Config(Rows(), Local(Awaiting(i), held, marked, marked)), fetch);
      mine' := marked[i := StatusOf(fetch(i))];
      docs := FlushDocs(marked, mine', docs);
    }

    /** Re-read the job, then skip document i or fetch it; a deleted job ends the run. */
    method VisitOne(i: nat, held: JobRow, base: seq<DocStatus>, mine: seq<DocStatus>, fetch: Plan,
                    env: nat -> seq<Event>, t: nat, ghost start: Config)
      returns (held': JobRow, base': seq<DocStatus>, mine': seq<DocStatus>, t': nat)
      requires (forall t :: EnvOnly(env(t))) && Fits(start)
      requires Fits(Config(Rows(), Local(Rereading(i), held, base, mine)))
      requires Run(start, Schedule(env, t), fetch) == Config(Rows(), Local(Rereading(i), held, base, mine))
      modifies this
      ensures |docs| == |mine'| == |base'| == old(|docs|)
      ensures held' == EnvAll(old(job), env(t))
      ensures t' == (if held'.deleted || Cancelish(held'.status) then t + 1 else t + 3)
      ensures Run(start, Schedule(env, t'), fetch) ==
        Config(Rows(), Local(if held'.deleted then Done else NextVisit(i + 1, |docs|), held', base', mine'))
      ensures held'.deleted ==> EndsAt(start, env, t', fetch, Rereading(i))
    {
      hide Step, WorkerStep, EnvAll, Run, Schedule;
      Meanwhile(env, t, start, fetch, Local(Rereading(i), held, base, mine));
      RereadStep(Config(Rows(), Local(Rereading(i), held, base, mine)), fetch);
      held', base', mine', t' := job, base, mine, t + 1;
      if held'.deleted { return; }
      if Cancelish(held'.status) {
        mine' := mine[i := Skipped];
      } else {
        mine' := FetchOne(i, held', base, mine, fetch, env, t', start);
        base', t' := mine', t' + 2;
      }
    }

    /** Resolve the run's status and counters from the documents it holds, and commit everything. */
    method Finalise(held: JobRow, base: seq<DocStatus>, mine: seq<DocStatus>, env: nat -> seq<Event>, t: nat,
                    ghost start: Config, f: Plan)
      requires EnvOnly(env(t)) && Fits(start)
      requires Run(start, Schedule(env, t), f) == Config(Rows(), Local(Finalising, held, base, mine))
      modifies this
      ensures Run(start, Schedule(env, t + 1), f).db == Rows() && EndsAt(start, env, t + 1, f, Finalising)
    {
      Meanwhile(env, t, start, f, Local(Finalising, held, base, mine));
      var resolved := held.(status := Resolve(held.status, mine), counters := Recalc(mine), completed := true);
      job := FlushJob(held, resolved, job).(completed := true);
      docs := FlushDocs(base, mine, docs);
    }

    /** Claim the job. */
    method PickUp(held: JobRow, base: seq<DocStatus>, env: nat -> seq<Event>, t: nat, ghost start: Config, f: Plan)
      returns (claimed: JobRow)
      requires EnvOnly(env(t)) && Fits(start)
      requires Run(start, Schedule(env, t), f) == Config(Rows(), Local(PickingUp, held, base, base))
      modifies this`job
      ensures claimed == held.(status := Running, started := true)
      ensures Run(start, Schedule(env, t + 1), f) == Config(Rows(), Local(NextVisit(0, |docs|), claimed, base, base))
    {
      Meanwhile(env, t, start, f, Local(PickingUp, held, base, base));
      claimed := held.(status := Running, started := true);
      job := FlushJob(held, claimed, job).(started := true);
    }

    /** worker.research_job against this store, with env(t) the foreign commits before its t-th read or
        commit. The rows it leaves are those of the transition system under exactly these commits, at
        the step where the delivery ends; finalised tells whether that was the finalising commit. */
    method ResearchJob(fetch: Plan, env: nat -> seq<Event>) returns (finalised: bool, steps: nat, ghost last: Pc)
      requires forall t :: EnvOnly(env(t))
      modifies this
      ensures EndsAt(Start(old(Rows())), env, steps, fetch, last)
      ensures Run(Start(old(Rows())), Schedule(env, steps), fetch).db == Rows()
      ensures finalised <==> last == Finalising
    {
      hide Step, WorkerStep, EnvAll, FlushJob;
      ghost var start := Start(Rows());
      var n := |docs|;
      finalised := false;
      NothingYet(env, start, fetch);
      hide Run, Schedule;
      Meanwhile(env, 0, start, fetch, start.l);
      ReadStep(Config(Rows(), start.l), fetch);
      if job.deleted { return false, 1, Reading; }
      var held, mine, base := job, docs, docs;
      if Cancelish(held.status) {
        Drain(held, base, env, 1, start, fetch);
        return false, 2, Draining;
      }
      held := PickUp(held, base, env, 1, start, fetch);
      steps := 2;

      for i := 0 to n
        invariant |docs| == |mine| == |base| == n
        invariant Run(start, Schedule(env, steps), fetch) == Config(Rows(), Local(NextVisit(i, n), held, base, mine))
      {
        held, base, mine, steps := VisitOne(i, held, base, mine, fetch, env, steps, start);
        if held.deleted { return false, steps, Rereading(i); }
      }

      Finalise(held, base, mine, env, steps, start, fetch);
      finalised, steps, last := true, steps + 1, Finalising;
    }

    /** The worker task where nobody soft-deletes the job: whatever else commits meanwhile, every
        document before the cut k has its own fetch result and the rest are skipped, the counters count
        them, and the status is the resolved one. If only the reaper interferes, the rows are those that
        one undisturbed delivery determines. */
    method ResearchToTheEnd(fetch: Plan, env: nat -> seq<Event>) returns (finalised: bool, steps: nat, ghost last: Pc, ghost k: nat)
      requires forall t :: EnvOnly(env(t)) && NoDelete(env(t))
      requires !job.deleted
      modifies this
      ensures var end := Run(Start(old(Rows())), Schedule(env, steps), fetch);
        EndsAt(Start(old(Rows())), env, steps, fetch, last) && end.db == Rows() && Settled(end, fetch, k)
      ensures finalised <==> last == Finalising
      ensures |docs| == old(|docs|) && forall d :: d in docs ==> Final(d)
      ensures job.counters.total == job.counters.fetched + job.counters.failed + job.counters.cancelled == |docs|
      ensures Counted(job.counters, docs)
      ensures job.status !in {Queued, Running, Cancelling}
      ensures (forall t :: Redelivery.Quiet(env(t))) ==> Rows() == Redelivery.Delivered(old(Rows()), fetch)
    {
      ghost var before := Rows();
      finalised, steps, last := ResearchJob(fetch, env);
      ScheduleKeeps(env, steps);
      k := RunRecovers(before, Schedule(env, steps), fetch);
      if forall t :: Redelivery.Quiet(env(t)) {
        Redelivery.DeliveryIsDetermined(before, Schedule(env, steps), fetch);
      }
    }
  }
}
