/** Any number of concurrent create_job calls over one jobs table, interleaved between the lookup,
    the insert with its commit, the recovery lookup, and the publish; with crashes and deletions. */
module CreateJobs {
  import opened Catalog

  /** A key the client sent, or the fresh one generated for the call that sent none. */
  datatype Key = Given(id: nat) | Fresh(caller: nat)

  /** A committed job row with its document rows; owner is the call that inserted it. */
  datatype Row = Row(tenant: nat, key: Key, types: seq<DocType>, owner: nat, deleted: bool)

  datatype Pc =
    | Looking | Inserting | Recovering | Publishing(job: nat)
    | Returned(job: nat) | Conflict | Dead

  datatype Call = Call(tenant: nat, key: Option<nat>, types: seq<DocType>, pc: Pc)

  /** published[j]: how often create_job enqueued job j. */
  datatype World = World(rows: seq<Row>, calls: seq<Call>, published: seq<nat>)

  datatype Action =
    | Advance(i: nat)      // call i takes its next step
    | Die(i: nat)          // its process is lost; an uncommitted insert is rolled back with it
    | SoftDelete(j: nat)

  function KeyOf(i: nat, c: Call): Key {
    if c.key.Some? then Given(c.key.value) else Fresh(i)
  }

  predicate Matches(r: Row, tenant: nat, key: Key) {
    r.tenant == tenant && r.key == key
  }

  /** repository.get_by_idempotency: deleted rows are invisible. */
  function Lookup(rows: seq<Row>, tenant: nat, key: Key): (r: Option<nat>)
    ensures r.Some? ==> r.value < |rows| && Matches(rows[r.value], tenant, key) && !rows[r.value].deleted
    ensures r.None? ==> forall j :: 0 <= j < |rows| && Matches(rows[j], tenant, key) ==> rows[j].deleted
  {
    if rows == [] then None
    else if Matches(rows[0], tenant, key) && !rows[0].deleted then Some(0)
    else
      var r := Lookup(rows[1..], tenant, key);
      if r.Some? then Some(r.value + 1)
      else
        assert forall j :: 1 <= j < |rows| ==> rows[j] == rows[1..][j - 1];
        None
  }

  /** The unique constraint covers deleted rows too. */
  predicate Taken(rows: seq<Row>, tenant: nat, key: Key) {
    exists j :: 0 <= j < |rows| && Matches(rows[j], tenant, key)
  }

  /** service.create_job, one step of call i. */
  function AdvanceCall(w: World, i: nat): (w': World)
    requires i < |w.calls|
    ensures |w'.calls| == |w.calls|
  {
    var c := w.calls[i];
    var key := KeyOf(i, c);
    match c.pc
    case Looking =>
      if c.key.None? then Goto(w, i, Inserting)
      else
        var found := Lookup(w.rows, c.tenant, key);
        Goto(w, i, if found.Some? then Returned(found.value) else Inserting)
    case Inserting =>
      if Taken(w.rows, c.tenant, key) then Goto(w, i, Recovering)
      else
        Goto(w.(rows := w.rows + [Row(c.tenant, key, c.types, i, false)], published := w.published + [0]),
             i, Publishing(|w.rows|))
    case Recovering =>
      var found := if c.key.None? then None else Lookup(w.rows, c.tenant, key);
      Goto(w, i, if found.Some? then Returned(found.value) else Conflict)
    case Publishing(j) =>
      var done := Goto(w, i, Returned(j));
      if j < |w.published| then done.(published := w.published[j := w.published[j] + 1]) else done
    case _ => w
  }

  function Goto(w: World, i: nat, pc: Pc): World
    requires i < |w.calls|
  {
    w.(calls := w.calls[i := w.calls[i].(pc := pc)])
  }

  function Act(w: World, a: Action): World {
    match a
    case Advance(i) => if i < |w.calls| then AdvanceCall(w, i) else w
    case Die(i) => if i < |w.calls| && Pending(w.calls[i].pc) then Goto(w, i, Dead) else w
    case SoftDelete(j) => if j < |w.rows| then w.(rows := w.rows[j := w.rows[j].(deleted := true)]) else w
  }

  predicate Pending(pc: Pc) {
    pc.Looking? || pc.Inserting? || pc.Recovering? || pc.Publishing?
  }

  // ------------------------------------------------------------ the invariant

  predicate OnePerKey(rows: seq<Row>) {
    forall j, k :: 0 <= j < k < |rows| ==> !Matches(rows[k], rows[j].tenant, rows[j].key)
  }

  /** Row j was inserted by a call with its tenant, key and types, which is now at or past publishing it. */
  predicate RowOk(w: World, j: nat)
    requires j < |w.rows| == |w.published|
  {
    var r := w.rows[j];
    && r.owner < |w.calls|
    && var c := w.calls[r.owner];
      && Matches(r, c.tenant, KeyOf(r.owner, c)) && r.types == c.types
      && (c.pc == Publishing(j) || c.pc == Returned(j) || c.pc == Dead)
      && w.published[j] <= 1
      && (c.pc == Publishing(j) ==> w.published[j] == 0)
      && (c.pc == Returned(j) ==> w.published[j] == 1)
  }

  predicate CallOk(w: World, i: nat)
    requires i < |w.calls|
  {
    var c := w.calls[i];
    match c.pc
    case Publishing(j) => j < |w.rows| && w.rows[j].owner == i
    case Returned(j) => j < |w.rows| && Matches(w.rows[j], c.tenant, KeyOf(i, c))
    case Recovering => c.key.Some? && Taken(w.rows, c.tenant, KeyOf(i, c))
    case Conflict => c.key.Some? && exists j :: 0 <= j < |w.rows| && Matches(w.rows[j], c.tenant, KeyOf(i, c)) && w.rows[j].deleted
    case _ => true
  }

  predicate Inv(w: World) {
    && |w.published| == |w.rows|
    && OnePerKey(w.rows)
    && (forall j :: 0 <= j < |w.rows| ==> RowOk(w, j))
    && (forall i :: 0 <= i < |w.calls| ==> CallOk(w, i))
  }

  predicate Initial(w: World) {
    w.rows == [] && w.published == [] && forall i :: 0 <= i < |w.calls| ==> w.calls[i].pc == Looking
  }

  function RunAll(w: World, acts: seq<Action>): World
    decreases acts
  {
    if acts == [] then w else RunAll(Act(w, acts[0]), acts[1..])
  }

  lemma InsertKeepsInv(w: World, i: nat)
    requires Inv(w) && i < |w.calls| && w.calls[i].pc == Inserting
    ensures Inv(AdvanceCall(w, i))
  {
    var c, key := w.calls[i], KeyOf(i, w.calls[i]);
    var w' := AdvanceCall(w, i);
    forall j | 0 <= j < |w.rows| ensures RowOk(w', j) {
      assert RowOk(w, j);
    }
    forall k | 0 <= k < |w.calls| ensures CallOk(w', k) {
      assert CallOk(w, k);
      if Taken(w.rows, c.tenant, key) {
        var j :| 0 <= j < |w.rows| && Matches(w.rows[j], c.tenant, key);
        assert RowOk(w, j);
      } else {
        assert forall j :: 0 <= j < |w.rows| ==> w'.rows[j] == w.rows[j];
      }
    }
  }

  lemma OtherStepKeepsInv(w: World, i: nat)
    requires Inv(w) && i < |w.calls| && w.calls[i].pc != Inserting
    ensures Inv(AdvanceCall(w, i))
  {
    var w' := AdvanceCall(w, i);
    forall j | 0 <= j < |w.rows| ensures RowOk(w', j) {
      assert RowOk(w, j) && CallOk(w, i);
    }
    forall k | 0 <= k < |w.calls| ensures CallOk(w', k) {
      assert CallOk(w, k);
      if w.calls[k].pc.Publishing? { assert RowOk(w, w.calls[k].pc.job); }
    }
  }

  lemma ActKeepsInv(w: World, a: Action)
    requires Inv(w)
    ensures Inv(Act(w, a))
    ensures |Act(w, a).calls| == |w.calls|
    ensures forall i :: 0 <= i < |w.calls| ==> Act(w, a).calls[i].(pc := Dead) == w.calls[i].(pc := Dead)
  {
    match a
    case Advance(i) =>
      if i < |w.calls| {
        if w.calls[i].pc == Inserting { InsertKeepsInv(w, i); } else { OtherStepKeepsInv(w, i); }
      }
    case Die(i) =>
      forall j | 0 <= j < |w.rows| ensures RowOk(Act(w, a), j) { assert RowOk(w, j); }
      forall k | 0 <= k < |w.calls| ensures CallOk(Act(w, a), k) { assert CallOk(w, k); }
    case SoftDelete(d) =>
      var w' := Act(w, a);
      forall j | 0 <= j < |w.rows| ensures RowOk(w', j) { assert RowOk(w, j); }
      forall k | 0 <= k < |w.calls| ensures CallOk(w', k) {
        assert CallOk(w, k);
        assert forall j :: 0 <= j < |w.rows| ==> w'.rows[j].(deleted := true) == w.rows[j].(deleted := true);
      }
  }

  lemma {:induction false} RunKeepsInv(w: World, acts: seq<Action>)
    requires Inv(w)
    ensures Inv(RunAll(w, acts))
    ensures |RunAll(w, acts).calls| == |w.calls|
    ensures forall i :: 0 <= i < |w.calls| ==> RunAll(w, acts).calls[i].(pc := Dead) == w.calls[i].(pc := Dead)
    decreases acts
  {
    if acts != [] {
      ActKeepsInv(w, acts[0]);
      RunKeepsInv(Act(w, acts[0]), acts[1..]);
    }
  }

  // ------------------------------------------------------------ idempotency

  /** Successful callers of one tenant and key get one job, of their own tenant. */
  predicate SameJob(e: World) {
    && (forall i :: 0 <= i < |e.calls| && e.calls[i].pc.Returned? ==>
          e.calls[i].pc.job < |e.rows| && Matches(e.rows[e.calls[i].pc.job], e.calls[i].tenant, KeyOf(i, e.calls[i])))
    && (forall i, k :: 0 <= i < |e.calls| && 0 <= k < |e.calls| && e.calls[i].pc.Returned? && e.calls[k].pc.Returned? ==>
          e.calls[i].tenant == e.calls[k].tenant && KeyOf(i, e.calls[i]) == KeyOf(k, e.calls[k]) ==>
            e.calls[i].pc.job == e.calls[k].pc.job)
  }

  /** A call owns no row but the one it is publishing, returned, or died with: losers leave nothing. */
  predicate LosersLeaveNothing(e: World) {
    && (forall j :: 0 <= j < |e.rows| ==>
          e.rows[j].owner < |e.calls| && e.calls[e.rows[j].owner].pc in {Publishing(j), Returned(j), Dead})
    && (forall j, k :: 0 <= j < k < |e.rows| ==> e.rows[j].owner != e.rows[k].owner)
  }

  /** Only committed jobs are published, each at most once, and for sure once its creator returned. */
  predicate PublishedOnce(e: World) {
    && |e.published| == |e.rows|
    && (forall j :: 0 <= j < |e.rows| ==> e.published[j] <= 1)
    && (forall j :: 0 <= j < |e.rows| && e.rows[j].owner < |e.calls| && e.calls[e.rows[j].owner].pc.Returned? ==> e.published[j] == 1)
  }

  predicate ConflictMeansDeleted(e: World) {
    forall i :: 0 <= i < |e.calls| && e.calls[i].pc == Conflict ==>
      exists j :: 0 <= j < |e.rows| && Matches(e.rows[j], e.calls[i].tenant, KeyOf(i, e.calls[i])) && e.rows[j].deleted
  }

  lemma InvMeansIdempotent(e: World)
    requires Inv(e)
    ensures OnePerKey(e.rows) && SameJob(e) && LosersLeaveNothing(e) && PublishedOnce(e) && ConflictMeansDeleted(e)
  {
    forall j | 0 <= j < |e.rows|
      ensures e.rows[j].owner < |e.calls| && e.calls[e.rows[j].owner].pc in {Publishing(j), Returned(j), Dead}
      ensures e.published[j] <= 1 && (e.calls[e.rows[j].owner].pc.Returned? ==> e.published[j] == 1)
    {
      assert RowOk(e, j);
    }
    forall i | 0 <= i < |e.calls| && e.calls[i].pc.Returned?
      ensures e.calls[i].pc.job < |e.rows| && Matches(e.rows[e.calls[i].pc.job], e.calls[i].tenant, KeyOf(i, e.calls[i]))
    {
      assert CallOk(e, i);
    }
    forall j, k | 0 <= j < k < |e.rows| ensures e.rows[j].owner != e.rows[k].owner {
      assert RowOk(e, j) && RowOk(e, k);
    }
    forall i, k | 0 <= i < |e.calls| && 0 <= k < |e.calls| && e.calls[i].pc.Returned? && e.calls[k].pc.Returned?
        && e.calls[i].tenant == e.calls[k].tenant && KeyOf(i, e.calls[i]) == KeyOf(k, e.calls[k])
      ensures e.calls[i].pc.job == e.calls[k].pc.job
    {
      assert CallOk(e, i) && CallOk(e, k);
    }
    forall i | 0 <= i < |e.calls| && e.calls[i].pc == Conflict
      ensures exists j :: 0 <= j < |e.rows| && Matches(e.rows[j], e.calls[i].tenant, KeyOf(i, e.calls[i])) && e.rows[j].deleted
    {
      assert CallOk(e, i);
    }
  }

  /** In every world reachable by any interleaving of any calls, crashes and deletions. */
  lemma CreateIsIdempotent(w: World, acts: seq<Action>)
    requires Initial(w)
    ensures var e := RunAll(w, acts);
      OnePerKey(e.rows) && SameJob(e) && LosersLeaveNothing(e) && PublishedOnce(e) && ConflictMeansDeleted(e)
  {
    RunKeepsInv(w, acts);
    hide OnePerKey, SameJob, LosersLeaveNothing, PublishedOnce, ConflictMeansDeleted, Act;
    InvMeansIdempotent(RunAll(w, acts));
  }

  /** A soft-deleted winner blocks its key: a later call ends in a conflict and adds no row. */
  lemma DeletedWinnerConflicts(w: World, i: nat, j: nat)
    requires Inv(w) && i < |w.calls| && w.calls[i].pc == Looking && w.calls[i].key.Some?
    requires j < |w.rows| && Matches(w.rows[j], w.calls[i].tenant, KeyOf(i, w.calls[i])) && w.rows[j].deleted
    ensures AdvanceCall(AdvanceCall(AdvanceCall(w, i), i), i) == Goto(w, i, Conflict)
  {
    assert Lookup(w.rows, w.calls[i].tenant, KeyOf(i, w.calls[i])).None?;
    var w1 := AdvanceCall(w, i);
    assert w1 == Goto(w, i, Inserting);
    var w2 := AdvanceCall(w1, i);
    assert w2 == Goto(w1, i, Recovering) == Goto(w, i, Recovering);
    assert AdvanceCall(w2, i) == Goto(w2, i, Conflict) == Goto(w, i, Conflict);
  }

  lemma {:induction false} ReturnedStays(w: World, acts: seq<Action>, i: nat)
    requires i < |w.calls| && w.calls[i].pc.Returned?
    ensures i < |RunAll(w, acts).calls| && RunAll(w, acts).calls[i] == w.calls[i]
    decreases acts
  {
    if acts != [] { ReturnedStays(Act(w, acts[0]), acts[1..], i); }
  }

  /** A call that finds its key's live job when it looks returns that job, whatever the others do
      afterwards: deleting the job then does not make the call a conflict, as it would for a call that
      had not looked. */
  lemma FoundIsReturned(w: World, i: nat, j: nat, acts: seq<Action>)
    requires Inv(w) && i < |w.calls| && w.calls[i].pc == Looking && w.calls[i].key.Some?
    requires j < |w.rows| && Matches(w.rows[j], w.calls[i].tenant, KeyOf(i, w.calls[i])) && !w.rows[j].deleted
    ensures i < |RunAll(Act(w, Advance(i)), acts).calls| && RunAll(Act(w, Advance(i)), acts).calls[i].pc == Returned(j)
  {
    var next := Act(w, Advance(i));
    assert next.calls[i].pc.Returned?;
    assert !(next.calls[i].pc.job < j) && !(j < next.calls[i].pc.job);
    hide Act, Inv;
    ReturnedStays(next, acts, i);
  }

  /** Call i left alone to its end. */
  function Alone(w: World, i: nat): World
    requires i < |w.calls|
  {
    AdvanceCall(AdvanceCall(AdvanceCall(AdvanceCall(w, i), i), i), i)
  }

  /** The jobs table as the service mutates it. */
  class JobTable {
    var rows: seq<Row>
    var published: seq<nat>

    /** service.create_job where no other call interferes: the live job of the key if there is one, a
        conflict if only a deleted one holds the key, and otherwise a new row, published once. It takes
        the steps of the concurrent model. */
    method CreateJob(i: nat, calls: seq<Call>) returns (job: Option<nat>)
      requires i < |calls| && calls[i].pc == Looking && |published| == |rows|
      modifies this
      ensures var e := Alone(World(old(rows), calls, old(published)), i);
        rows == e.rows && published == e.published
        && e.calls[i].pc == (if job.Some? then Returned(job.value) else Conflict)
      ensures !Taken(old(rows), calls[i].tenant, KeyOf(i, calls[i])) ==>
        && job == Some(|old(rows)|) && rows[..|old(rows)|] == old(rows) && |rows| == |old(rows)| + 1
        && published == old(published) + [1]
      ensures Taken(old(rows), calls[i].tenant, KeyOf(i, calls[i])) ==> rows == old(rows) && published == old(published)
    {
      var c := calls[i];
      var key := KeyOf(i, c);
      if c.key.Some? {
        job := Lookup(rows, c.tenant, key);
        if job.Some? { return; }
      }
      if Taken(rows, c.tenant, key) {
        job := if c.key.None? then None else Lookup(rows, c.tenant, key);
        return;
      }
      job := Some(|rows|);
      rows := rows + [Row(c.tenant, key, c.types, i, false)];
      published := published + [0];
      published := published[job.value := published[job.value] + 1];
    }
  }
}
