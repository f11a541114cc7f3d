/** One research job as a transition system over its committed rows: the worker's steps between
    commits, taken from an in-memory snapshot, and the atomic API and reaper writes. */
module Protocol {
  import opened Lifecycle

  datatype JobRow = JobRow(status: JobStatus, counters: Counters, started: bool, completed: bool, deleted: bool)

  datatype Db = Db(job: JobRow, docs: seq<DocStatus>)

  /** What one call of the document fetcher did. */
  datatype Outcome = Returned(status: FinalStatus) | Raised

  /** A fetched document keeps the fetcher's status; a raised exception fails it. */
  function StatusOf(o: Outcome): DocStatus {
    if o.Raised? then DocFailed else o.status
  }

  /** Where a delivery stands. Rereading(i): about to re-read the job for document i.
      Marking(i): about to commit `fetching`. Awaiting(i): the fetcher runs; its result is next. */
  datatype Pc =
    | Reading | Draining | PickingUp
    | Rereading(i: nat) | Marking(i: nat) | Awaiting(i: nat)
    | Finalising | Done

  /** The session of one delivery: the job attributes it holds, the documents it holds, and the
      document values as of its last commit (what an UPDATE is computed against). */
  datatype Local = Local(pc: Pc, snap: JobRow, base: seq<DocStatus>, docs: seq<DocStatus>)

  datatype Config = Config(db: Db, l: Local)

  // ------------------------------------------------------------ the session's writes

  /** An UPDATE carries a column only when its value differs from the one the session loaded. */
  function Put<T(==)>(loaded: T, mine: T, stored: T): T {
    if mine == loaded then stored else mine
  }

  function FlushCounters(loaded: Counters, mine: Counters, stored: Counters): Counters {
    Counters(Put(loaded.total, mine.total, stored.total), Put(loaded.fetched, mine.fetched, stored.fetched),
             Put(loaded.uploaded, mine.uploaded, stored.uploaded), Put(loaded.failed, mine.failed, stored.failed),
             Put(loaded.cancelled, mine.cancelled, stored.cancelled))
  }

  /** Status and counters of the job row; timestamps always differ and are set by the caller. */
  function FlushJob(loaded: JobRow, mine: JobRow, stored: JobRow): JobRow {
    stored.(status := Put(loaded.status, mine.status, stored.status),
            counters := FlushCounters(loaded.counters, mine.counters, stored.counters))
  }

  function FlushDocs(base: seq<DocStatus>, mine: seq<DocStatus>, stored: seq<DocStatus>): (r: seq<DocStatus>)
    requires |base| == |mine| == |stored|
  {
    seq(|stored|, i requires 0 <= i < |stored| => Put(base[i], mine[i], stored[i]))
  }

  function AllSkipped(n: nat): (r: seq<DocStatus>) {
    seq(n, i => Skipped)
  }

  // ------------------------------------------------------------ worker.research_job

  function Start(db: Db): Config {
    Config(db, Local(Reading, db.job, [], []))
  }

  /** The session holds one value per stored document, and i is a document while one is visited. */
  predicate Fits(c: Config) {
    var n := |c.db.docs|;
    match c.l.pc
    case Reading => true
    case Done => true
    case Rereading(i) => |c.l.docs| == |c.l.base| == n && i < n
    case Marking(i) => |c.l.docs| == |c.l.base| == n && i < n
    case Awaiting(i) => |c.l.docs| == |c.l.base| == n && i < n
    case _ => |c.l.docs| == |c.l.base| == n
  }

  function NextVisit(i: nat, n: nat): Pc {
    if i < n then Rereading(i) else Finalising
  }

  /** One step of a delivery, up to and including its next read or commit. */
  function WorkerStep(c: Config, o: Outcome): (c': Config)
    requires Fits(c)
    ensures Fits(c') && |c'.db.docs| == |c.db.docs|
  {
    var n := |c.db.docs|;
    var l := c.l;
    match l.pc
    case Done => c
    case Reading =>
      if c.db.job.deleted then c.(l := l.(pc := Done))
      else
        var pc := if Cancelish(c.db.job.status) then Draining else PickingUp;
        c.(l := Local(pc, c.db.job, c.db.docs, c.db.docs))
    case Draining =>
      var docs := AllSkipped(n);
      var mine := l.snap.(status := Cancelled, counters := Recalc(docs));
      Config(Db(FlushJob(l.snap, mine, c.db.job).(completed := true), FlushDocs(l.base, docs, c.db.docs)),
             Local(Done, mine, docs, docs))
    case PickingUp =>
      var mine := l.snap.(status := Running, started := true);
      Config(c.db.(job := FlushJob(l.snap, mine, c.db.job).(started := true)),
             l.(pc := NextVisit(0, n), snap := mine))
    case Rereading(i) =>
      if c.db.job.deleted then c.(l := l.(pc := Done, snap := c.db.job))
      else if Cancelish(c.db.job.status) then
        c.(l := l.(pc := NextVisit(i + 1, n), snap := c.db.job, docs := l.docs[i := Skipped]))
      else
        c.(l := l.(pc := Marking(i), snap := c.db.job))
    case Marking(i) =>
      Commit(c.(l := l.(docs := l.docs[i := Fetching])), Awaiting(i))
    case Awaiting(i) =>
      Commit(c.(l := l.(docs := l.docs[i := StatusOf(o)])), NextVisit(i + 1, n))
    case Finalising =>
      var mine := l.snap.(status := Resolve(l.snap.status, l.docs), counters := Recalc(l.docs), completed := true);
      Config(Db(FlushJob(l.snap, mine, c.db.job).(completed := true), FlushDocs(l.base, l.docs, c.db.docs)),
             Local(Done, mine, l.docs, l.docs))
  }

  /** Commit the document changes the session holds and move on. */
  function Commit(c: Config, pc: Pc): (c': Config)
    requires |c.l.docs| == |c.l.base| == |c.db.docs|
  {
    Config(c.db.(docs := FlushDocs(c.l.base, c.l.docs, c.db.docs)), c.l.(pc := pc, base := c.l.docs))
  }

  // ------------------------------------------------------------ API and reaper writes

  datatype Event =
    | Work                               // the delivery takes its next step
    | Cancel | Review | Archive          // API calls, each one atomic
    | Sweep                              // reaper: running and started becomes failed
    | Delete                             // soft delete from outside

  /** service.cancel_job, mark_reviewed, archive_job; worker.reaper_research_jobs. A call the service
      refuses leaves the row as it is. */
  function EnvJob(j: JobRow, e: Event): JobRow {
    match e
    case Cancel =>
      if j.deleted then j
      else if j.status == Queued then j.(status := Cancelled, completed := false)
      else if j.status == Running || j.status == Cancelling then j.(status := Cancelling, completed := false)
      else j
    case Review => if !j.deleted && (j.status == Completed || j.status == Partial) then j.(status := Reviewed) else j
    case Archive => if !j.deleted && j.status == Reviewed then j.(status := Archived) else j
    case Sweep => if j.status == Running && j.started then j.(status := Failed) else j
    case Delete => j.(deleted := true)
    case Work => j
  }

  // ------------------------------------------------------------ runs of one delivery

  /** What the fetcher does for document i during this delivery. */
  type Plan = nat -> Outcome

  function NextOutcome(l: Local, f: Plan): Outcome {
    if l.pc.Awaiting? then f(l.pc.i) else Raised
  }

  function Step(c: Config, e: Event, f: Plan): (c': Config)
    requires Fits(c)
    ensures Fits(c') && |c'.db.docs| == |c.db.docs|
  {
    if e == Work then WorkerStep(c, NextOutcome(c.l, f))
    else c.(db := c.db.(job := EnvJob(c.db.job, e)))
  }

  function Run(c: Config, es: seq<Event>, f: Plan): (c': Config)
    requires Fits(c)
    ensures Fits(c') && |c'.db.docs| == |c.db.docs|
    decreases es
  {
    if es == [] then c else Run(Step(c, es[0], f), es[1..], f)
  }

  lemma {:induction false} RunAppend(c: Config, es: seq<Event>, fs: seq<Event>, f: Plan)
    requires Fits(c)
    ensures Run(c, es + fs, f) == Run(Run(c, es, f), fs, f)
    decreases es
  {
    if es == [] {
      assert es + fs == fs;
    } else {
      assert (es + fs)[1..] == es[1..] + fs;
      RunAppend(Step(c, es[0], f), es[1..], fs, f);
    }
  }

  // ------------------------------------------------------------ progress

  /** Worker steps to go, whatever the environment does meanwhile. */
  function StepsLeft(pc: Pc, n: nat): nat {
    match pc
    case Done => 0
    case Draining => 1
    case Finalising => 1
    case Rereading(i) => if i < n then 3 * (n - i) + 1 else 1
    case Marking(i) => if i < n then 3 * (n - i) else 1
    case Awaiting(i) => if i < n then 3 * (n - i) - 1 else 1
    case PickingUp => 3 * n + 2
    case Reading => 3 * n + 3
  }

  function Works(es: seq<Event>): nat {
    if es == [] then 0 else (if es[0] == Work then 1 else 0) + Works(es[1..])
  }

  lemma StepLowers(c: Config, e: Event, f: Plan)
    requires Fits(c)
    ensures var left, left' := StepsLeft(c.l.pc, |c.db.docs|), StepsLeft(Step(c, e, f).l.pc, |c.db.docs|);
      if e == Work && left > 0 then left' < left else left' == left
    ensures StepsLeft(c.l.pc, |c.db.docs|) <= 3 * |c.db.docs| + 3
    ensures StepsLeft(c.l.pc, |c.db.docs|) == 0 <==> c.l.pc == Done
  {}

  /** The measure: each worker step lowers it, nothing else touches it, so a run is over after at
      most 3n + 3 worker steps however the API, the reaper and deletions interleave. */
  lemma {:induction false} RunTerminates(c: Config, es: seq<Event>, f: Plan)
    requires Fits(c)
    ensures var left := StepsLeft(c.l.pc, |c.db.docs|);
      var left' := StepsLeft(Run(c, es, f).l.pc, |c.db.docs|);
      left' == 0 || left' + Works(es) <= left
    ensures Works(es) >= 3 * |c.db.docs| + 3 ==> Run(c, es, f).l.pc == Done
    decreases es
  {
    hide WorkerStep, StepsLeft, Step;
    StepLowers(c, Work, f);
    StepLowers(Run(c, es, f), Work, f);
    if es != [] {
      StepLowers(c, es[0], f);
      RunTerminates(Step(c, es[0], f), es[1..], f);
    }
  }
}
