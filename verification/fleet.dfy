/** Any number of deliveries of one job at once: duplicated tasks, crashes with and without
    redelivery, the reaper, and the API, over the committed rows and the broker. */
module Fleet {
  import opened Lifecycle
  import opened Protocol
  import opened SingleRun
  import Redelivery

  /** queue counts the job's tasks waiting in the broker; workers are the deliveries begun so far. */
  datatype System = System(db: Db, queue: nat, workers: map<nat, Local>)

  datatype Action =
    | Enqueue                            // create_job publishes after its commit
    | Requeue                            // reaper: a stale queued job is published again
    | Deliver(w: nat)                    // the broker hands a task to a new delivery
    | WorkBy(w: nat)                     // a delivery takes its next step
    | Crash(w: nat, redelivered: bool)   // the session is lost; late acknowledgement returns the task
    | Outside(e: Event)                  // API call, reaper update, or soft delete

  type Plans = nat -> Plan

  predicate SysFits(s: System) {
    forall w :: w in s.workers ==> Fits(Config(s.db, s.workers[w]))
  }

  function Act(s: System, a: Action, f: Plans): (s': System)
    requires SysFits(s)
    ensures SysFits(s') && |s'.db.docs| == |s.db.docs|
  {
    match a
    case Enqueue => s.(queue := s.queue + 1)
    case Requeue =>
      if s.db.job.status == Queued && !s.db.job.deleted then s.(queue := s.queue + 1) else s
    case Deliver(w) =>
      if s.queue == 0 || w in s.workers then s
      else System(s.db, s.queue - 1, s.workers[w := Start(s.db).l])
    case WorkBy(w) =>
      if w !in s.workers then s
      else
        var c := Step(Config(s.db, s.workers[w]), Work, f(w));
        System(c.db, s.queue, s.workers[w := c.l])
    case Crash(w, redelivered) =>
      if w !in s.workers || s.workers[w].pc == Done then s
      else System(s.db, s.queue + (if redelivered then 1 else 0), s.workers - {w})
    case Outside(e) => s.(db := s.db.(job := EnvJob(s.db.job, e)))
  }

  function RunAll(s: System, acts: seq<Action>, f: Plans): (s': System)
    requires SysFits(s)
    ensures SysFits(s') && |s'.db.docs| == |s.db.docs|
    decreases acts
  {
    if acts == [] then s else RunAll(Act(s, acts[0], f), acts[1..], f)
  }

  // ------------------------------------------------------------ every committed status change

  /** The changes any number of deliveries can commit: queued is left once and for good, to running
      or cancelled only; from there a delivery may write running or any terminal status over
      whatever is stored; the rest are API edges. */
  predicate StatusEdge(s: JobStatus, t: JobStatus) {
    || s == t
    || t == Running || t == Cancelled
    || (s != Queued && (t == Completed || t == Partial || t == Failed))
    || (t == Cancelling && (s == Running || s == Cancelling))
    || (t == Reviewed && (s == Completed || s == Partial))
    || (t == Archived && s == Reviewed)
  }

  /** While the job is queued, no delivery is past its first read with another status in hand. */
  predicate QueuedQuiet(s: System) {
    s.db.job.status == Queued ==>
      forall w :: w in s.workers ==>
        var l := s.workers[w];
        l.pc == Reading || l.pc == Done || (l.pc == PickingUp && l.snap.status == Queued)
  }

  predicate QuietWhileQueued(db: Db, l: Local) {
    db.job.status == Queued ==> l.pc == Reading || l.pc == Done || (l.pc == PickingUp && l.snap.status == Queued)
  }

  lemma WorkEdge(c: Config, f: Plan)
    requires Fits(c) && QuietWhileQueued(c.db, c.l)
    ensures var next := Step(c, Work, f);
      && StatusEdge(c.db.job.status, next.db.job.status)
      && (c.db.job.status != Queued ==> next.db.job.status != Queued)
      && QuietWhileQueued(next.db, next.l)
  {
    hide Recalc;
  }

  lemma ActEdge(s: System, a: Action, f: Plans)
    requires SysFits(s) && QueuedQuiet(s)
    ensures QueuedQuiet(Act(s, a, f))
    ensures StatusEdge(s.db.job.status, Act(s, a, f).db.job.status)
    ensures s.db.job.status != Queued ==> Act(s, a, f).db.job.status != Queued
  {
    hide WorkerStep, Step;
    if a.WorkBy? && a.w in s.workers { WorkEdge(Config(s.db, s.workers[a.w]), f(a.w)); }
  }

  /** Along any execution from a newly created job each committed change is an edge, and a job that
      has left `queued` never comes back. */
  predicate EdgesAll(s: System, acts: seq<Action>, f: Plans)
    requires SysFits(s)
    decreases acts
  {
    acts == [] ||
    var next := Act(s, acts[0], f);
    && StatusEdge(s.db.job.status, next.db.job.status)
    && (s.db.job.status != Queued ==> next.db.job.status != Queued)
    && EdgesAll(next, acts[1..], f)
  }

  lemma {:induction false} EveryExecutionFollowsEdges(s: System, acts: seq<Action>, f: Plans)
    requires SysFits(s) && QueuedQuiet(s)
    ensures EdgesAll(s, acts, f)
    decreases acts
  {
    if acts != [] {
      ActEdge(s, acts[0], f);
      EveryExecutionFollowsEdges(Act(s, acts[0], f), acts[1..], f);
    }
  }

  // ------------------------------------------------------------ a stale queued job is never lost

  function WorkTimes(w: nat, m: nat): seq<Action> {
    if m == 0 then [] else [WorkBy(w)] + WorkTimes(w, m - 1)
  }

  function WorkEvents(m: nat): (es: seq<Event>)
    ensures |es| == m && Works(es) == m && forall i :: 0 <= i < m ==> es[i] == Work
  {
    if m == 0 then [] else [Work] + WorkEvents(m - 1)
  }

  lemma {:induction false} AloneIsSingleRun(s: System, w: nat, m: nat, f: Plans)
    requires SysFits(s) && w in s.workers
    ensures RunAll(s, WorkTimes(w, m), f).db == Run(Config(s.db, s.workers[w]), WorkEvents(m), f(w)).db
    decreases m
  {
    if m > 0 {
      assert WorkTimes(w, m)[1..] == WorkTimes(w, m - 1);
      assert WorkEvents(m)[1..] == WorkEvents(m - 1);
      AloneIsSingleRun(Act(s, WorkBy(w), f), w, m - 1, f);
    }
  }

  lemma DeliveredSettles(db: Db, f: Plan)
    requires !db.job.deleted
    ensures forall d :: d in Redelivery.Delivered(db, f).docs ==> Final(d)
    ensures Redelivery.Delivered(db, f).job.status in {Completed, Partial, Failed, Cancelled}
    ensures db.job.status == Queued ==> Redelivery.Delivered(db, f).job.status != Cancelled
  {
    ShapedFinal(f, |db.docs|, |db.docs|);
  }

  lemma StartedDelivery(db: Db, m: nat, f: Plan)
    requires !db.job.deleted && m == 3 * |db.docs| + 3
    ensures Run(Start(db), WorkEvents(m), f).db == Redelivery.Delivered(db, f)
  {
    RunTerminates(Start(db), WorkEvents(m), f);
    Redelivery.DeliveryIsDetermined(db, WorkEvents(m), f);
  }

  /** A delivery at its start, left alone for 3n + 3 steps. */
  lemma AloneSettles(s: System, w: nat, m: nat, f: Plans)
    requires SysFits(s) && !s.db.job.deleted && w in s.workers && s.workers[w] == Start(s.db).l
    requires m == 3 * |s.db.docs| + 3
    ensures RunAll(s, WorkTimes(w, m), f).db == Redelivery.Delivered(s.db, f(w))
  {
    AloneIsSingleRun(s, w, m, f);
    StartedDelivery(s.db, m, f(w));
  }

  /** Whatever crashes, duplicate deliveries and API calls led to the stored rows: one more delivery
      that runs alone settles the job within 3n + 3 steps. */
  lemma OneDeliverySettles(s: System, w: nat, f: Plans)
    requires SysFits(s) && !s.db.job.deleted && s.queue >= 1 && w !in s.workers
    ensures RunAll(Act(s, Deliver(w), f), WorkTimes(w, 3 * |s.db.docs| + 3), f).db == Redelivery.Delivered(s.db, f(w))
    ensures forall d :: d in Redelivery.Delivered(s.db, f(w)).docs ==> Final(d)
    ensures Redelivery.Delivered(s.db, f(w)).job.status in {Completed, Partial, Failed, Cancelled}
  {
    DeliveredSettles(s.db, f(w));
    AloneSettles(Act(s, Deliver(w), f), w, 3 * |s.db.docs| + 3, f);
  }

  /** Whatever the broker lost: after a sweep a task for the stale queued job is there, and from then
      on one delivery settles the job within 3n + 3 steps, every document final. */
  lemma StaleQueuedIsRescued(s: System, w: nat, f: Plans)
    requires SysFits(s) && s.db.job.status == Queued && !s.db.job.deleted && w !in s.workers
    ensures var swept := Act(s, Requeue, f);
      && swept.queue >= 1
      && RunAll(Act(swept, Deliver(w), f), WorkTimes(w, 3 * |s.db.docs| + 3), f).db == Redelivery.Delivered(s.db, f(w))
    ensures Redelivery.Delivered(s.db, f(w)).job.status in {Completed, Partial, Failed}
    ensures forall d :: d in Redelivery.Delivered(s.db, f(w)).docs ==> Final(d)
  {
    OneDeliverySettles(Act(s, Requeue, f), w, f);
    DeliveredSettles(s.db, f(w));
  }

  // ------------------------------------------------------------ tasks and deliveries

  /** Tasks with the broker and deliveries, the ended ones included. */
  function Tasks(s: System): nat {
    s.queue + |s.workers.Keys|
  }

  /** Whether the action publishes a task: creation does, and the sweep does exactly for a live queued
      job. */
  predicate Publishes(s: System, a: Action) {
    a == Enqueue || (a == Requeue && s.db.job.status == Queued && !s.db.job.deleted)
  }

  /** Whether the action loses one: a crash whose task the broker does not return. */
  predicate Loses(s: System, a: Action) {
    a.Crash? && !a.redelivered && a.w in s.workers && s.workers[a.w].pc != Done
  }

  lemma OneMore<T>(a: set<T>, x: T)
    requires x !in a
    ensures |a + {x}| == |a| + 1
  {}

  /** Which deliveries an action leaves. */
  lemma Deliveries(s: System, a: Action, f: Plans)
    requires SysFits(s)
    ensures var s' := Act(s, a, f);
      && (a.Deliver? && s.queue > 0 && a.w !in s.workers ==>
            s'.queue == s.queue - 1 && s'.workers.Keys == s.workers.Keys + {a.w})
      && (a.Crash? && a.w in s.workers && s.workers[a.w].pc != Done ==>
            s'.queue == s.queue + (if a.redelivered then 1 else 0) && a.w !in s'.workers.Keys
            && s.workers.Keys == s'.workers.Keys + {a.w})
      && (!a.Deliver? && !a.Crash? ==> s'.workers.Keys == s.workers.Keys)
  {
    hide Step, EnvJob;
  }

  /** Tasks are conserved: only publishing makes one, only a lost crash ends one. */
  lemma TasksConserved(s: System, a: Action, f: Plans)
    requires SysFits(s)
    ensures Tasks(Act(s, a, f)) == Tasks(s) + (if Publishes(s, a) then 1 else 0) - (if Loses(s, a) then 1 else 0)
    ensures a == Requeue && !Publishes(s, a) ==> Act(s, a, f) == s
  {
    Deliveries(s, a, f);
    hide SysFits, Step, EnvJob;
    var s' := Act(s, a, f);
    match a
    case Deliver(w) => if s.queue > 0 && w !in s.workers { OneMore(s.workers.Keys, w); }
    case Crash(w, _) => if w in s.workers && s.workers[w].pc != Done { OneMore(s'.workers.Keys, w); }
    case _ =>
  }

  /** Once a job has left the queue no sweep, crash or duplicate ever adds a delivery to those there are
      tasks for. */
  lemma {:induction false} NoNewTasks(s: System, acts: seq<Action>, f: Plans)
    requires SysFits(s) && QueuedQuiet(s) && s.db.job.status != Queued && Enqueue !in acts
    ensures Tasks(RunAll(s, acts, f)) <= Tasks(s)
    decreases acts
  {
    if acts != [] {
      ActEdge(s, acts[0], f);
      TasksConserved(s, acts[0], f);
      hide Act, QueuedQuiet, Tasks;
      NoNewTasks(Act(s, acts[0], f), acts[1..], f);
    }
  }
}
