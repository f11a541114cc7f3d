/** The vocabulary of a research job: the persisted statuses, the denormalized
    counters, and the rule that turns a document list into a terminal status. */
module Lifecycle {

  datatype JobStatus =
    Queued | Running | Completed | Partial | Failed | Cancelling | Cancelled | Reviewed | Archived

  datatype DocStatus =
    DocQueued | Fetching | Fetched | Uploading | Uploaded | DocFailed | Skipped

  datatype Counters = Counters(total: nat, fetched: nat, uploaded: nat, failed: nat, cancelled: nat)

  /** The statuses a run may leave a document in. */
  predicate Final(s: DocStatus) {
    s == Fetched || s == Uploaded || s == DocFailed || s == Skipped
  }

  type FinalStatus = s: DocStatus | Final(s) witness Skipped

  predicate Cancelish(s: JobStatus) {
    s == Cancelled || s == Cancelling
  }

  function CountOf(docs: seq<DocStatus>, s: DocStatus): nat {
    if docs == [] then 0 else (if docs[0] == s then 1 else 0) + CountOf(docs[1..], s)
  }

  /** service.recalc_job_counters */
  function Recalc(docs: seq<DocStatus>): Counters {
    Counters(|docs|, CountOf(docs, Fetched) + CountOf(docs, Uploaded), CountOf(docs, Uploaded),
             CountOf(docs, DocFailed), CountOf(docs, Skipped))
  }

  /** service.resolve_job_terminal_status, given the status the session holds in memory. */
  function Resolve(held: JobStatus, docs: seq<DocStatus>): JobStatus {
    var total := |docs|;
    var failed := CountOf(docs, DocFailed);
    var ok: int := total - failed - CountOf(docs, Skipped);
    if held == Cancelling then Cancelled
    else if total == 0 then Failed
    else if failed == 0 then Completed
    else if ok == 0 then Failed
    else Partial
  }

  /** The terminal status that the stored counters alone dictate. */
  function Dictated(c: Counters): JobStatus {
    if c.total == 0 then Failed
    else if c.failed == 0 then Completed
    else if c.failed + c.cancelled == c.total then Failed
    else Partial
  }

  lemma {:induction false} CountsPartition(docs: seq<DocStatus>)
    requires forall d :: d in docs ==> Final(d)
    ensures CountOf(docs, Fetched) + CountOf(docs, Uploaded) + CountOf(docs, DocFailed) + CountOf(docs, Skipped) == |docs|
  {
    if docs != [] {
      assert Final(docs[0]);
      CountsPartition(docs[1..]);
    }
  }

  /** Conservation: once every document is final, no document escapes the counters, and the status
      resolved from the documents is a function of the counters. */
  lemma CountersConserve(docs: seq<DocStatus>)
    requires forall d :: d in docs ==> Final(d)
    ensures var c := Recalc(docs);
      c.total == c.fetched + c.failed + c.cancelled && c.uploaded <= c.fetched
    ensures forall held :: held != Cancelling ==> Resolve(held, docs) == Dictated(Recalc(docs))
  {
    CountsPartition(docs);
  }

  lemma {:induction false} CountZero(docs: seq<DocStatus>, s: DocStatus)
    ensures CountOf(docs, s) == 0 <==> s !in docs
  {
    if docs != [] {
      CountZero(docs[1..], s);
      assert docs == [docs[0]] + docs[1..];
    }
  }

  /** What the resolved status says about the documents: completed means none failed, failed means
      nothing was delivered, partial means both happened. */
  lemma ResolveMeaning(held: JobStatus, docs: seq<DocStatus>)
    requires held != Cancelling && forall d :: d in docs ==> Final(d)
    ensures Resolve(held, docs) == Completed <==> docs != [] && DocFailed !in docs
    ensures Resolve(held, docs) == Partial <==> DocFailed in docs && (Fetched in docs || Uploaded in docs)
    ensures Resolve(held, docs) == Failed
      <==> Fetched !in docs && Uploaded !in docs && (docs == [] || DocFailed in docs)
  {
    CountsPartition(docs);
    CountZero(docs, DocFailed);
    CountZero(docs, Fetched);
    CountZero(docs, Uploaded);
    if docs != [] && DocFailed !in docs && Fetched !in docs && Uploaded !in docs {
      assert Resolve(held, docs) == Completed;
    }
  }

  /** The transitions documented on ResearchJobStatus, with self-loops. */
  predicate InGraph(s: JobStatus, t: JobStatus) {
    s == t ||
    match s
    case Queued => t == Running || t == Cancelled
    case Running => t == Completed || t == Partial || t == Failed || t == Cancelling
    case Cancelling => t == Cancelled
    case Completed => t == Reviewed
    case Partial => t == Reviewed
    case Reviewed => t == Archived
    case _ => false
  }

  // ------------------------------------------------------------ what the counters count

  /** The documents with one of the given statuses. */
  function Having(docs: seq<DocStatus>, statuses: set<DocStatus>): set<int> {
    set i | 0 <= i < |docs| && docs[i] in statuses
  }

  /** Each counter is the number of documents in the statuses it stands for. */
  predicate Counted(c: Counters, docs: seq<DocStatus>) {
    && c.total == |docs|
    && c.fetched == |Having(docs, {Fetched, Uploaded})|
    && c.uploaded == |Having(docs, {Uploaded})|
    && c.failed == |Having(docs, {DocFailed})|
    && c.cancelled == |Having(docs, {Skipped})|
  }

  lemma {:induction false} CountOfSum(a: seq<DocStatus>, b: seq<DocStatus>, s: DocStatus)
    ensures CountOf(a + b, s) == CountOf(a, s) + CountOf(b, s)
  {
    if a == [] {
      assert a + b == b;
    } else {
      assert (a + b)[1..] == a[1..] + b;
      CountOfSum(a[1..], b, s);
    }
  }

  lemma HavingGrows(front: seq<DocStatus>, x: DocStatus, s: DocStatus)
    ensures |Having(front + [x], {s})| == |Having(front, {s})| + (if x == s then 1 else 0)
  {
    var all := front + [x];
    if x == s {
      assert Having(all, {s}) == Having(front, {s}) + {|front|};
    } else {
      assert Having(all, {s}) == Having(front, {s});
    }
  }

  lemma CountOfOne(x: DocStatus, s: DocStatus)
    ensures CountOf([x], s) == if x == s then 1 else 0
  {
    assert [x][1..] == [];
  }

  lemma {:induction false} CountIsSize(docs: seq<DocStatus>, s: DocStatus)
    ensures CountOf(docs, s) == |Having(docs, {s})|
  {
    if docs == [] {
      assert Having(docs, {s}) == {};
    } else {
      hide Having;
      var front, last := docs[..|docs| - 1], docs[|docs| - 1];
      assert docs == front + [last];
      CountIsSize(front, s);
      CountOfSum(front, [last], s);
      CountOfOne(last, s);
      HavingGrows(front, last, s);
    }
  }

  lemma RecalcCounts(docs: seq<DocStatus>)
    ensures Counted(Recalc(docs), docs)
  {
    CountIsSize(docs, Fetched);
    CountIsSize(docs, Uploaded);
    CountIsSize(docs, DocFailed);
    CountIsSize(docs, Skipped);
    assert Having(docs, {Fetched, Uploaded}) == Having(docs, {Fetched}) + Having(docs, {Uploaded});
    assert Having(docs, {Fetched}) * Having(docs, {Uploaded}) == {};
  }
}
