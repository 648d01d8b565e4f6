/**
 * What direct uploads do to the drain. An upload in one request rewrites the row of an existing file,
 * whatever its status and without a look at the backlog: two runs show what that costs.
 */
module DrainOverwrites {
  import opened Common
  import opened PendingStore
  import opened DrainMachine
  import opened DrainRuns

  /** Nothing is running, and rows 0 to n - 1 wait in this order, each an empty file uploaded anew in chunks. */
  ghost predicate Waiters(s: State, n: nat, procs: nat) {
    && |s.procs| == procs && (forall p :: 0 <= p < procs ==> s.procs[p] == STOPPED) && s.checked == 0
    && (forall id: nat :: id in s.rows <==> id < n)
    && (forall id :: id in s.rows ==> InLine(s.rows[id], s.clock))
    && (forall i, j :: i in s.rows && j in s.rows && i < j ==> s.rows[i].updatedAt < s.rows[j].updatedAt)
    && Backlog(s.rows) == 0 && s.past.claims == map[]
    && s.pushed == {} && forall file :: file in s.staged ==> file < n
  }

  predicate InLine(r: Row, clock: Time) {
    r.status.Pending? && r.attempts == 0 && r.size == 0 && r.updatedAt <= clock
  }

  /** A row joins the end of the line; the backlog does not change, since the file is empty. */
  lemma JoinLine(s: State, t: State, n: nat, procs: nat)
    requires Waiters(s, n, procs) && t.procs == s.procs && t.checked == 0 && t.past.claims == map[]
    requires t.staged == s.staged + {n} && t.pushed == s.pushed
    requires t.clock > s.clock && n in t.rows && t.rows == s.rows[n := t.rows[n]]
    requires InLine(t.rows[n], t.clock) && t.rows[n].updatedAt > s.clock
    ensures Waiters(t, n + 1, procs)
  {
    hide Backlog;
    BacklogUpdate(s.rows, n, t.rows[n]);
  }

  /** A file uploaded directly, then once more in chunks: its object is there when the row is rewritten. */
  lemma OneWaiter(s: State, n: nat, procs: nat, limit: nat) returns (t: State)
    requires Reachable(s, procs, limit, Unwatched) && Waiters(s, n, procs) && limit > 0
    ensures Reachable(t, procs, limit, Unwatched) && Waiters(t, n + 1, procs)
  {
    hide Reachable;
    var ready := Row(Ready, 0, s.clock + 1, None, 0);
    BacklogUpdate(s.rows, n, ready);
    t := Reach(s, DirectUpload(n, 0), procs, limit, Unwatched);
    t := Reach(t, CheckBacklog, procs, limit, Unwatched);
    assert NobodyWatches(t, n);
    t := Reach(t, Requeue(n, n), procs, limit, Unwatched);
    assert t.rows == s.rows[n := t.rows[n]];
    JoinLine(s, t, n, procs);
  }

  lemma {:induction false} AllWaiters(n: nat, procs: nat, limit: nat) returns (t: State)
    requires limit > 0
    ensures Reachable(t, procs, limit, Unwatched) && Waiters(t, n, procs)
  {
    if n == 0 {
      t := ReachInit(procs, limit, Unwatched);
    } else {
      t := AllWaiters(n - 1, procs, limit);
      t := OneWaiter(t, n - 1, procs, limit);
    }
  }

  // ---------- The backlog ----------

  /** Of `all` waiting rows the first `n` carry a full-sized file each. */
  ghost predicate Filled(s: State, all: nat, n: nat) {
    && s.checked == 0 && Backlog(s.rows) == n * MAX_UPLOAD_SIZE
    && (forall id: nat :: id in s.rows <==> id < all)
    && (forall id: nat :: n <= id < all ==> s.rows[id].status.Pending? && s.rows[id].size == 0)
  }

  lemma {:induction false} Refilled(all: nat, n: nat, procs: nat, limit: nat) returns (t: State)
    requires limit > 0 && n <= all
    ensures Reachable(t, procs, limit, Unwatched) && Filled(t, all, n)
  {
    hide Reachable;
    if n == 0 {
      t := AllWaiters(all, procs, limit);
    } else {
      var s := Refilled(all, n - 1, procs, limit);
      t := Reach(s, Overwrite(n - 1, MAX_UPLOAD_SIZE), procs, limit, Unwatched);
      BacklogUpdate(s.rows, n - 1, t.rows[n - 1]);
    }
  }

  /** With no completion under way the backlog can stand above what any number of them could explain. */
  lemma BacklogExceeded(procs: nat, limit: nat) returns (t: State)
    requires limit > 0
    ensures Reachable(t, procs, limit, Unwatched) && t.checked == 0 && !BelowLimit(t, limit)
  {
    t := Refilled(10 + limit, 10 + limit, procs, limit);
  }

  // ---------- Progress ----------

  const FULL := PENDING_UPLOAD_BATCH_SIZE

  /** Row FULL waits behind FULL others: `found` is what the drain query returns for the others. */
  function Front(rows: Rows): (found: seq<Snapshot>)
    requires forall id: nat :: id < FULL ==> id in rows
  {
    seq(FULL, i requires 0 <= i < FULL => Snapshot(i, rows[i]))
  }

  /** The front rows are in order and no younger than row FULL. */
  ghost predicate Lined(rows: Rows) {
    && (forall id: nat :: id in rows <==> id <= FULL)
    && (forall id: nat :: id <= FULL ==> rows[id].status.Pending?)
    && (forall i: nat, j: nat :: i < j <= FULL ==> rows[i].updatedAt <= rows[j].updatedAt)
  }

  lemma FrontIsOldest(rows: Rows)
    requires Lined(rows)
    ensures OldestPending(rows, FULL, Front(rows))
    ensures forall id: nat :: id in IdsOf(Front(rows)) <==> id < FULL
  {
    var found := Front(rows);
    forall id: nat | id < FULL
      ensures id in IdsOf(found)
    {
      assert found[id].id == id;
    }
  }

  /** The rows tried so far are younger in turn, and none has been claimed but the front ones. */
  ghost predicate Turned(s: State, n: nat) {
    && FULL !in s.past.claims
    && (forall id: nat :: id in s.rows <==> id <= FULL)
    && (forall id: nat :: id <= FULL ==> s.rows[id].status.Pending? && s.rows[id].updatedAt <= s.clock)
    && (forall i: nat, j: nat :: i < j < n <= FULL ==> s.rows[i].updatedAt <= s.rows[j].updatedAt)
  }

  ghost predicate FrontBatch(found: seq<Snapshot>) {
    |found| == FULL && forall i: nat :: i < FULL ==> found[i].id == i && found[i].row.attempts == 0
  }

  /** The drain of process 0 has tried the first `n` rows of its batch and put them back. */
  ghost predicate Tried(s: State, found: seq<Snapshot>, n: nat) {
    && |s.procs| > 0 && FrontBatch(found) && n <= FULL && Turned(s, n)
    && var drain := s.procs[0];
    && drain.running && drain.clean && drain.jobs == found[n..] && drain.workers == Idles(PENDING_UPLOAD_WORKERS)
    && drain.attempted == IdsOf(found) && FULL in drain.owed
  }

  lemma TurnedAt(s: State, n: nat)
    requires Turned(s, n) && n < FULL
    ensures IsPending(s.rows, n) && FULL !in s.past.claims
  {
  }

  lemma TurnedNext(s: State, t: State, n: nat)
    requires Turned(s, n) && n < FULL && n in t.rows && t.rows == s.rows[n := t.rows[n]] && FULL !in t.past.claims
    requires t.rows[n].status.Pending? && t.rows[n].updatedAt == t.clock > s.clock
    ensures Turned(t, n + 1)
  {
  }

  /** One worker takes the next row, claims it, fails to push it and puts it back. */
  lemma TryNext(s: State, found: seq<Snapshot>, n: nat, procs: nat, limit: nat) returns (t: State)
    requires Reachable(s, procs, limit, Unwatched) && Tried(s, found, n) && n < FULL
    ensures Reachable(t, procs, limit, Unwatched) && Tried(t, found, n + 1)
  {
    hide Reachable, IdsOf, Turned;
    var snap := found[n];
    TurnedAt(s, n);
    t := Reach(s, Take(0, 0), procs, limit, Unwatched);
    assert t.procs[0].workers[0] == Taken(snap) && t.procs[0].jobs == found[n + 1..] && t.rows == s.rows;
    t := Reach(t, Claim(0, 0), procs, limit, Unwatched);
    assert t.procs[0].workers[0] == Owning(snap, false) && t.past.claims == s.past.claims[n := s.clock + 1];
    t := Reach(t, FinishRetry(0, 0), procs, limit, Unwatched);
    assert t.rows == s.rows[n := t.rows[n]] && t.procs[0].workers == s.procs[0].workers;
    TurnedNext(s, t, n);
  }

  lemma {:induction false} TryAll(s: State, found: seq<Snapshot>, n: nat, procs: nat, limit: nat) returns (t: State)
    requires Reachable(s, procs, limit, Unwatched) && Tried(s, found, n)
    ensures Reachable(t, procs, limit, Unwatched) && Tried(t, found, FULL)
    decreases FULL - n
  {
    t := s;
    if n < FULL {
      t := TryNext(s, found, n, procs, limit);
      t := TryAll(t, found, n + 1, procs, limit);
    }
  }

  lemma FrontTaken(procs: nat, limit: nat) returns (t: State, found: seq<Snapshot>)
    requires procs > 0 && limit > 0
    ensures Reachable(t, procs, limit, Unwatched) && Tried(t, found, 0)
  {
    hide Reachable;
    var s := AllWaiters(FULL + 1, procs, limit);
    assert Lined(s.rows);
    found := Front(s.rows);
    t := StartOn(s, found, procs, limit);
  }

  lemma StartOn(s: State, found: seq<Snapshot>, procs: nat, limit: nat) returns (t: State)
    requires Reachable(s, procs, limit, Unwatched) && Lined(s.rows) && found == Front(s.rows) && Turned(s, 0)
    requires |s.procs| > 0 && s.procs[0] == STOPPED && FrontBatch(found)
    ensures Reachable(t, procs, limit, Unwatched) && Tried(t, found, 0)
  {
    hide Reachable, IdsOf;
    t := Reach(s, Start(0), procs, limit, Unwatched);
    FrontIsOldest(s.rows);
    NewOnesAll(found);
    t := Reach(t, NextBatch(0, found), procs, limit, Unwatched);
  }

  /** The batch ends, and row FULL gets a new file in one request. */
  lemma Rewritten(s: State, found: seq<Snapshot>, procs: nat, limit: nat) returns (t: State)
    requires Reachable(s, procs, limit, Unwatched) && Tried(s, found, FULL)
    ensures Reachable(t, procs, limit, Unwatched) && Lined(t.rows) && |t.procs| == |s.procs| && FULL !in t.past.claims
    ensures var drain := t.procs[0];
            && drain.running && drain.clean && drain.jobs == [] && drain.workers == []
            && FULL in drain.owed && forall id: nat :: id < FULL ==> id in drain.attempted
  {
    hide Reachable;
    t := Reach(s, EndBatch(0), procs, limit, Unwatched);
    t := Reach(t, Overwrite(FULL, 0), procs, limit, Unwatched);
    assert t.rows == s.rows[FULL := t.rows[FULL]] && t.rows[FULL].updatedAt == t.clock;
    forall id: nat | id < FULL
      ensures id in IdsOf(found)
    {
      assert found[id].id == id;
    }
  }

  /**
   * A drain ends of itself, all its claims answered, though a row that was waiting when it began is
   * waiting still and nobody ever claimed it: a direct upload made the row younger than the twenty
   * rows that were tried and put back.
   */
  lemma RowPassedOver(procs: nat, limit: nat) returns (t: State, found: seq<Snapshot>, id: FileId)
    requires procs > 0 && limit > 0
    ensures Reachable(t, procs, limit, Unwatched) && |t.procs| > 0
    ensures t.procs[0].clean && Enabled(t, NextBatch(0, found), limit, Unwatched)
    ensures t.procs[0].running && !Apply(t, NextBatch(0, found)).procs[0].running
    ensures id in t.procs[0].owed && IsPending(t.rows, id) && id !in t.past.claims
  {
    hide Reachable;
    id := FULL;
    t, found := FrontTaken(procs, limit);
    t := TryAll(t, found, 0, procs, limit);
    t := Rewritten(t, found, procs, limit);
    found := Front(t.rows);
    FrontIsOldest(t.rows);
    NoneNew(found, t.procs[0].attempted);
  }
}
