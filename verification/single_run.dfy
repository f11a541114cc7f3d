/** Theorems about one delivery, interleaved in every way with API calls and reaper sweeps. */
module SingleRun {
  import opened Lifecycle
  import opened Protocol

  /** The document list a run leaves: its own fetch results up to k, skipped from k on. */
  function Shaped(f: Plan, k: nat, j: nat): DocStatus {
    if j < k then StatusOf(f(j)) else Skipped
  }

  function ShapedDocs(f: Plan, k: nat, n: nat): seq<DocStatus> {
    seq(n, j requires 0 <= j < n => Shaped(f, k, j))
  }

  /** Documents already behind the delivery; meaningful once it has picked the job up. */
  function Visited(pc: Pc, n: nat): nat {
    match pc
    case Rereading(i) => i
    case Marking(i) => i
    case Awaiting(i) => i
    case Finalising => n
    case _ => 0
  }

  predicate Live(pc: Pc) {
    pc.Rereading? || pc.Marking? || pc.Awaiting? || pc.Finalising?
  }

  predicate LiveStatus(s: JobStatus) {
    s == Running || s == Cancelling || s == Failed
  }

  // ------------------------------------------------------------ the invariant

  /** What holds while one delivery is the only worker. k is the first document whose re-read found
      the job cancelled, or the next document if none did yet. */
  predicate Inv(c: Config, f: Plan, k: nat) {
    var n, l, job := |c.db.docs|, c.l, c.db.job;
    && Fits(c)
    && (l.pc == Draining ==> l.docs == l.base == c.db.docs && l.snap.counters == job.counters
                             && Cancelish(l.snap.status) && job.status == l.snap.status)
    && (l.pc == PickingUp ==> l.docs == l.base == c.db.docs && l.snap.counters == job.counters
                              && !Cancelish(l.snap.status)
                              && (l.snap.status == Running ==> LiveStatus(job.status)))
    && (l.pc == Reading || l.pc == PickingUp || l.pc == Draining ==> k == 0)
    && (Live(l.pc) ==> LiveInv(c, f, k, Visited(l.pc, n)))
    && (l.pc == Done ==> Settled(c, f, k))
  }

  predicate LiveInv(c: Config, f: Plan, k: nat, i: nat)
    requires Fits(c) && i <= |c.db.docs| && Live(c.l.pc)
  {
    var l, job := c.l, c.db.job;
    && l.base == c.db.docs && l.snap.counters == job.counters
    && k <= i
    && (forall j :: 0 <= j < i ==> l.docs[j] == Shaped(f, k, j))
    && LiveStatus(job.status) && LiveStatus(l.snap.status)
    && (l.snap.status != Running ==> job.status == l.snap.status)
    && (l.snap.status == Cancelling <==> k < i)
    && (l.pc.Marking? || l.pc.Awaiting? ==> k == i)
  }

  /** A finished run: the documents are its results cut at k, the counters count them, and the status
      it resolved is what is stored, up to a later sign-off. */
  predicate Settled(c: Config, f: Plan, k: nat) {
    var n, resolved, job := |c.db.docs|, c.l.snap.status, c.db.job;
    && k <= n
    && c.db.docs == ShapedDocs(f, k, n)
    && job.counters == Recalc(c.db.docs)
    && (k < n ==> resolved == Cancelled)
    && (k == n > 0 ==> resolved == Dictated(job.counters))
    && (n == 0 ==> resolved == Cancelled || resolved == Failed)
    && (job.status == resolved
        || ((resolved == Completed || resolved == Partial) && (job.status == Reviewed || job.status == Archived)))
  }

  predicate NoDelete(es: seq<Event>) {
    Delete !in es
  }

  lemma FlushOwn(base: seq<DocStatus>, docs: seq<DocStatus>)
    requires |base| == |docs|
    ensures FlushDocs(base, docs, base) == docs
  {}

  lemma ShapedFinal(f: Plan, k: nat, n: nat)
    ensures forall d :: d in ShapedDocs(f, k, n) ==> Final(d)
    ensures Recalc(ShapedDocs(f, k, n)).total == n
  {}

  /** k moves with the delivery until a re-read sees a cancel. */
  function NextK(c: Config, e: Event, k: nat): nat {
    if e == Work && c.l.pc.Awaiting? then c.l.pc.i + 1 else k
  }

  lemma VisitKeepsInv(c: Config, f: Plan, k: nat)
    requires Inv(c, f, k) && !c.db.job.deleted && c.l.pc != Finalising && c.l.pc != Draining
    ensures Inv(Step(c, Work, f), f, NextK(c, Work, k))
  {
    match c.l.pc
    case Marking(i) => FlushOwn(c.l.base, c.l.docs[i := Fetching]);
    case Awaiting(i) => FlushOwn(c.l.base, c.l.docs[i := StatusOf(f(i))]);
    case _ =>
  }

  lemma DrainKeepsInv(c: Config, f: Plan, k: nat)
    requires Inv(c, f, k) && !c.db.job.deleted && c.l.pc == Draining
    ensures Inv(Step(c, Work, f), f, k)
  {
    var n := |c.db.docs|;
    FlushOwn(c.l.base, AllSkipped(n));
    assert AllSkipped(n) == ShapedDocs(f, 0, n);
    hide Dictated;
  }

  lemma FinaliseKeepsInv(c: Config, f: Plan, k: nat)
    requires Inv(c, f, k) && !c.db.job.deleted && c.l.pc == Finalising
    ensures Inv(Step(c, Work, f), f, k)
  {
    var n := |c.db.docs|;
    FlushOwn(c.l.base, c.l.docs);
    ShapedFinal(f, k, n);
    CountersConserve(ShapedDocs(f, k, n));
    assert c.l.docs == ShapedDocs(f, k, n);
    hide Dictated;
  }

  lemma FinishKeepsInv(c: Config, f: Plan, k: nat)
    requires Inv(c, f, k) && !c.db.job.deleted && (c.l.pc == Finalising || c.l.pc == Draining)
    ensures Inv(Step(c, Work, f), f, k)
  {
    hide Inv, WorkerStep;
    if c.l.pc == Finalising { FinaliseKeepsInv(c, f, k); } else { DrainKeepsInv(c, f, k); }
  }

  lemma EnvKeepsInv(c: Config, e: Event, f: Plan, k: nat)
    requires Inv(c, f, k) && !c.db.job.deleted && e != Delete && e != Work
    ensures Inv(Step(c, e, f), f, k) && !Step(c, e, f).db.job.deleted
  {}

  lemma WorkKeepsRow(c: Config, f: Plan)
    requires Fits(c)
    ensures Step(c, Work, f).db.job.deleted == c.db.job.deleted
  {}

  lemma StepKeepsInv(c: Config, e: Event, f: Plan, k: nat)
    requires Inv(c, f, k) && !c.db.job.deleted && e != Delete
    ensures Inv(Step(c, e, f), f, NextK(c, e, k)) && !Step(c, e, f).db.job.deleted
  {
    hide WorkerStep, Step, LiveInv, Settled;
    if e != Work {
      EnvKeepsInv(c, e, f, k);
    } else {
      WorkKeepsRow(c, f);
      if c.l.pc == Finalising || c.l.pc == Draining { FinishKeepsInv(c, f, k); } else { VisitKeepsInv(c, f, k); }
    }
  }

  lemma {:induction false} RunKeepsInv(c: Config, es: seq<Event>, f: Plan, k: nat) returns (k': nat)
    requires Inv(c, f, k) && !c.db.job.deleted && NoDelete(es)
    ensures Inv(Run(c, es, f), f, k') && !Run(c, es, f).db.job.deleted
    decreases es
  {
    if es == [] {
      k' := k;
    } else {
      StepKeepsInv(c, es[0], f, k);
      k' := RunKeepsInv(Step(c, es[0], f), es[1..], f, NextK(c, es[0], k));
    }
  }

  // ------------------------------------------------------------ recovery

  /** From any stored state of the rows, in particular one left by a crash after any commit, a
      delivery interleaved with any API calls and sweeps leaves every document final, the counters
      conserved, and a terminal status that the counters dictate unless the run was cancelled. */
  lemma RunRecovers(db: Db, es: seq<Event>, f: Plan) returns (k: nat)
    requires !db.job.deleted && NoDelete(es)
    requires Run(Start(db), es, f).l.pc == Done
    ensures Settled(Run(Start(db), es, f), f, k) && Run(Start(db), es, f).db.job.status !in {Queued, Running, Cancelling}
    ensures var end := Run(Start(db), es, f).db;
      && |end.docs| == |db.docs| && (forall d :: d in end.docs ==> Final(d))
      && end.job.counters.total == end.job.counters.fetched + end.job.counters.failed + end.job.counters.cancelled
      && end.job.counters.uploaded <= end.job.counters.fetched
      && Counted(end.job.counters, end.docs)
  {
    RecalcCounts(Run(Start(db), es, f).db.docs);
    k := RunKeepsInv(Start(db), es, f, 0);
    ShapedFinal(f, k, |db.docs|);
    CountersConserve(Run(Start(db), es, f).db.docs);
  }

  // ------------------------------------------------------------ cancellation

  function RereadsLeft(pc: Pc, n: nat): nat {
    match pc
    case Rereading(i) => if i < n then n - i else 0
    case Marking(i) => if i + 1 < n then n - i - 1 else 0
    case Awaiting(i) => if i + 1 < n then n - i - 1 else 0
    case _ => 0
  }

  /** The test a caller could make at the moment of the cancel: is another document still to be
      re-read, or did this run see an earlier cancel? */
  predicate CancelSeen(l: Local, n: nat) {
    RereadsLeft(l.pc, n) > 0 || l.snap.status == Cancelling
  }

  /** The document from which on a cancel committed now skips. */
  function Cut(pc: Pc, k: nat, n: nat): nat {
    if k < Visited(pc, n) then k
    else if pc.Marking? || pc.Awaiting? then pc.i + 1
    else Visited(pc, n)
  }

  lemma {:induction false} DoneStays(c: Config, es: seq<Event>, f: Plan)
    requires Fits(c) && c.l.pc == Done
    ensures Run(c, es, f).l == c.l && Run(c, es, f).db.docs == c.db.docs
    ensures c.db.job.status !in {Queued, Running, Cancelling} ==>
      (Run(c, es, f).db.job.status == Cancelled <==> c.db.job.status == Cancelled)
    decreases es
  {
    if es != [] { DoneStays(Step(c, es[0], f), es[1..], f); }
  }

  /** While a live job is `cancelling`, no step changes its fate. */
  lemma CancelFateStep(c: Config, e: Event, f: Plan, k: nat)
    requires Inv(c, f, k) && Live(c.l.pc) && !c.db.job.deleted && e != Delete
    requires c.db.job.status == Cancelling
    ensures var next, n := Step(c, e, f), |c.db.docs|;
      !(c.l.pc == Finalising && e == Work) ==>
        Live(next.l.pc) && next.db.job.status == Cancelling
        && Cut(next.l.pc, NextK(c, e, k), n) == Cut(c.l.pc, k, n)
        && (CancelSeen(next.l, n) <==> CancelSeen(c.l, n))
  {}

  lemma CancelFateEnd(c: Config, f: Plan, k: nat)
    requires Inv(c, f, k) && c.l.pc == Finalising && !c.db.job.deleted
    requires c.db.job.status == Cancelling
    ensures var next, n := Step(c, Work, f), |c.db.docs|;
      && next.l.pc == Done
      && next.db.docs == ShapedDocs(f, Cut(c.l.pc, k, n), n)
      && next.db.job.status == (if c.l.snap.status == Cancelling then Cancelled else Dictated(next.db.job.counters))
  {
    FinishKeepsInv(c, f, k);
  }

  /** A live job found `cancelling`: the run ends cancelled, with the documents before the cut
      keeping their fetch results and the rest skipped, exactly when a re-read was still to come;
      otherwise the cancel is overwritten and every document keeps its fetch result. */
  lemma {:induction false} CancelFate(c: Config, es: seq<Event>, f: Plan, k: nat)
    requires Inv(c, f, k) && Live(c.l.pc) && !c.db.job.deleted && NoDelete(es)
    requires c.db.job.status == Cancelling && Run(c, es, f).l.pc == Done
    ensures Run(c, es, f).db.docs == ShapedDocs(f, Cut(c.l.pc, k, |c.db.docs|), |c.db.docs|)
    ensures Run(c, es, f).db.job.status == Cancelled <==> CancelSeen(c.l, |c.db.docs|)
    decreases es
  {
    hide WorkerStep, LiveInv, Settled, Recalc, ShapedDocs;
    var next := Step(c, es[0], f);
    if c.l.pc == Finalising && es[0] == Work {
      CancelFateEnd(c, f, k);
      DoneStays(next, es[1..], f);
    } else {
      CancelFateStep(c, es[0], f, k);
      StepKeepsInv(c, es[0], f, k);
      CancelFate(next, es[1..], f, NextK(c, es[0], k));
    }
  }

  /** The service accepts a cancel while the job is live; then anything happens, to the end. */
  lemma CancelNow(c: Config, after: seq<Event>, f: Plan, k: nat)
    requires Inv(c, f, k) && Live(c.l.pc) && !c.db.job.deleted && NoDelete(after)
    requires c.db.job.status == Running || c.db.job.status == Cancelling
    requires Run(Step(c, Cancel, f), after, f).l.pc == Done
    ensures var end, n := Run(Step(c, Cancel, f), after, f).db, |c.db.docs|;
      && (end.job.status == Cancelled <==> CancelSeen(c.l, n))
      && end.docs == ShapedDocs(f, Cut(c.l.pc, k, n), n)
      && (forall j :: 0 <= j < Visited(c.l.pc, n) ==> end.docs[j] == c.l.docs[j])
  {
    StepKeepsInv(c, Cancel, f, k);
    CancelFate(Step(c, Cancel, f), after, f, k);
  }

  /** The same for a whole run, from any stored rows and with any events before the cancel. */
  lemma CancelHonoured(db: Db, before: seq<Event>, after: seq<Event>, f: Plan) returns (mid: Config, end: Config, k: nat)
    requires !db.job.deleted && NoDelete(before) && NoDelete(after)
    requires Live(Run(Start(db), before, f).l.pc)
    requires Run(Start(db), before, f).db.job.status in {Running, Cancelling}
    requires Run(Start(db), before + ([Cancel] + after), f).l.pc == Done
    ensures mid == Run(Start(db), before, f) && end == Run(Start(db), before + ([Cancel] + after), f)
    ensures mid.l.snap.status == Cancelling <==> k < Visited(mid.l.pc, |db.docs|)
    ensures end.db.job.status == Cancelled <==> CancelSeen(mid.l, |db.docs|)
    ensures end.db.docs == ShapedDocs(f, Cut(mid.l.pc, k, |db.docs|), |db.docs|)
    ensures forall j :: 0 <= j < Visited(mid.l.pc, |db.docs|) ==> end.db.docs[j] == mid.l.docs[j]
  {
    k := RunKeepsInv(Start(db), before, f, 0);
    RunAppend(Start(db), before, [Cancel] + after, f);
    assert ([Cancel] + after)[1..] == after;
    mid, end := Run(Start(db), before, f), Run(Start(db), before + ([Cancel] + after), f);
    assert LiveInv(mid, f, k, Visited(mid.l.pc, |mid.db.docs|));
    hide Step, Settled, LiveInv;
    CancelNow(mid, after, f, k);
  }

  // ------------------------------------------------------------ what a commit overwrites

  /** A cancel between the first read and the pick-up survives the pick-up exactly if the job was read
      as running, because then the commit carries no status; any other held status is overwritten. */
  lemma PickUpKeepsCancelIff(c: Config, f: Plan)
    requires Fits(c) && c.l.pc == PickingUp && c.db.job.status == Cancelling
    ensures Step(c, Work, f).db.job.status == Cancelling <==> c.l.snap.status == Running
    ensures c.l.snap.status != Running ==> Step(c, Work, f).db.job.status == Running
  {}

  /** The finalising commit leaves a foreign status alone exactly if the run resolves to the status it
      last read; a document it has not changed keeps what another session stored. */
  lemma FinaliseOverwritesIff(c: Config, f: Plan)
    requires Fits(c) && c.l.pc == Finalising && c.db.job.status != Resolve(c.l.snap.status, c.l.docs)
    ensures Step(c, Work, f).db.job.status == c.db.job.status <==> Resolve(c.l.snap.status, c.l.docs) == c.l.snap.status
    ensures forall j :: 0 <= j < |c.db.docs| ==>
      Step(c, Work, f).db.docs[j] == if c.l.docs[j] == c.l.base[j] then c.db.docs[j] else c.l.docs[j]
  {
    hide Resolve, Recalc;
  }

  // ------------------------------------------------------------ a job deleted meanwhile

  /** The only trace that events leave on a deleted job: the reaper may have failed it. */
  predicate OnlySwept(now: JobRow, was: JobRow) {
    now == was || (was.status == Running && was.started && now == was.(status := Failed))
  }

  /** A delivery that is still to read, or to re-read, a deleted job writes nothing more, whatever else
      happens: its next step is its last. */
  lemma {:induction false} DeletedIsLeft(c: Config, es: seq<Event>, f: Plan)
    requires Fits(c) && c.db.job.deleted && (c.l.pc == Reading || c.l.pc.Rereading? || c.l.pc == Done)
    ensures var e := Run(c, es, f);
      e.db.docs == c.db.docs && OnlySwept(e.db.job, c.db.job) && (Works(es) > 0 ==> e.l.pc == Done)
    decreases es
  {
    if es != [] {
      var next := Step(c, es[0], f);
      DeletedIsLeft(next, es[1..], f);
      if next.l.pc == Done { DoneStays(next, es[1..], f); }
    }
  }

  /** One that is at a document other than the last finishes that document and stops there. */
  lemma {:induction false} DeletedAtDocument(c: Config, es: seq<Event>, f: Plan, i: nat)
    requires Fits(c) && c.db.job.deleted && c.l.docs == c.l.base && i + 1 < |c.db.docs|
    requires c.l.pc == Marking(i) || c.l.pc == Awaiting(i)
    ensures var e := Run(c, es, f);
      && OnlySwept(e.db.job, c.db.job) && (forall j :: 0 <= j < |c.db.docs| && j != i ==> e.db.docs[j] == c.db.docs[j])
      && (Works(es) > (if c.l.pc.Marking? then 2 else 1) ==> e.l.pc == Done)
    decreases es
  {
    if es != [] {
      var next := Step(c, es[0], f);
      if next.l.pc.Rereading? {
        DeletedIsLeft(next, es[1..], f);
      } else {
        DeletedAtDocument(next, es[1..], f, i);
      }
    }
  }
}
