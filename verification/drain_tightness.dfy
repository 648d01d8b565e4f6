/** The retry bound is exact: with P processes a row enqueued once can be tried MAX_UPLOAD_ATTEMPTS + P - 1 times. */
module DrainTightness {
  import opened Common
  import opened PendingStore
  import opened DrainMachine

  ghost predicate Reached(s: State, procs: nat, limit: nat) { Reachable(s, procs, limit, Unwatched) }

  /** One row, waiting, tried `a` times so far. */
  predicate Queue(s: State, a: nat) {
    s.rows.Keys == {0} && s.rows[0].status.Pending? && s.rows[0].attempts == a
  }

  /** The process has taken the row's snapshot `snap` and not claimed it yet. */
  predicate Holds(s: State, q: nat, snap: Snapshot) {
    && q < |s.procs| && s.procs[q].running && s.procs[q].jobs == [] && s.procs[q].workers == [Taken(snap)]
    && snap.id == 0
  }

  predicate OnlyProc(s: State, t: State, q: nat) {
    |t.procs| == |s.procs| && forall p :: 0 <= p < |s.procs| && p != q ==> t.procs[p] == s.procs[p]
  }

  lemma StillHolds(s: State, t: State, q: nat, lo: nat, hi: nat, snap: Snapshot)
    requires OnlyProc(s, t, q) && hi <= |s.procs| && !(lo <= q < hi)
    requires forall p: nat :: lo <= p < hi ==> Holds(s, p, snap)
    ensures forall p: nat :: lo <= p < hi ==> Holds(t, p, snap)
  {
    forall p: nat | lo <= p < hi
      ensures Holds(t, p, snap)
    {
      assert Holds(s, p, snap) && t.procs[p] == s.procs[p];
    }
  }

  /** The process has read the row and handed it to its workers; none has taken it yet. */
  predicate Offers(s: State, q: nat, snap: Snapshot) {
    && q < |s.procs| && s.procs[q].running && s.procs[q].jobs == [snap] && s.procs[q].workers == [Idle]
    && snap.id == 0
  }

  lemma Batched(s: State, q: nat, a: nat, procs: nat, limit: nat) returns (t: State)
    requires Reached(s, procs, limit) && Queue(s, a) && q < |s.procs| && !s.procs[q].running
    ensures Reached(t, procs, limit) && t.rows == s.rows && OnlyProc(s, t, q)
    ensures t.pushed == s.pushed && t.staged == s.staged && t.checked == s.checked
    ensures Offers(t, q, Snapshot(0, s.rows[0]))
  {
    hide Reachable;
    var snap := Snapshot(0, s.rows[0]);
    t := Reach(s, Start(q), procs, limit, Unwatched);
    assert IdsOf([snap]) == {0} by { assert [snap][0].id == 0; }
    assert OldestPending(t.rows, PENDING_UPLOAD_BATCH_SIZE, [snap]);
    t := Reach(t, NextBatch(q, [snap]), procs, limit, Unwatched);
    assert [snap][1..] == [] && NewOnes([snap], {}) == [snap];
  }

  lemma Pick(s: State, q: nat, a: nat, procs: nat, limit: nat) returns (t: State)
    requires Reached(s, procs, limit) && Queue(s, a) && q < |s.procs| && !s.procs[q].running
    ensures Reached(t, procs, limit) && t.rows == s.rows && OnlyProc(s, t, q)
    ensures t.pushed == s.pushed && t.staged == s.staged && t.checked == s.checked
    ensures Holds(t, q, Snapshot(0, s.rows[0]))
  {
    hide Reachable;
    t := Batched(s, q, a, procs, limit);
    t := Reach(t, Take(q, 0), procs, limit, Unwatched);
  }

  /** A try that fails: claimed on the strength of a snapshot that still leaves a retry, and put back. */
  lemma Try(s: State, q: nat, a: nat, snap: Snapshot, procs: nat, limit: nat) returns (t: State)
    requires Reached(s, procs, limit) && Queue(s, a) && Holds(s, q, snap) && !LastTry(snap)
    ensures Reached(t, procs, limit) && Queue(t, a + 1) && OnlyProc(s, t, q) && !t.procs[q].running
  {
    hide Reachable;
    t := Reach(s, Claim(q, 0), procs, limit, Unwatched);
    t := Reach(t, FinishRetry(q, 0), procs, limit, Unwatched);
    t := Reach(t, EndBatch(q), procs, limit, Unwatched);
    t := Reach(t, Abort(q), procs, limit, Unwatched);
  }

  /** Processes 1 to n - 1 all read the row before it is tried a fourth time. */
  lemma {:induction false} AllPick(s: State, n: nat, a: nat, procs: nat, limit: nat) returns (t: State)
    requires Reached(s, procs, limit) && Queue(s, a) && |s.procs| == procs && 0 < n <= procs
    requires forall q :: 0 <= q < procs ==> !s.procs[q].running
    ensures Reached(t, procs, limit) && t.rows == s.rows && |t.procs| == procs
    ensures forall q :: 0 <= q < procs && !(1 <= q < n) ==> !t.procs[q].running
    ensures forall q: nat :: 1 <= q < n ==> Holds(t, q, Snapshot(0, s.rows[0]))
  {
    t := s;
    if n > 1 {
      var u := AllPick(s, n - 1, a, procs, limit);
      t := Pick(u, n - 1, a, procs, limit);
      StillHolds(u, t, n - 1, 1, n - 1, Snapshot(0, s.rows[0]));
    }
  }

  /** They then claim it one after the other, each counting from what it read. */
  lemma {:induction false} AllTry(s: State, n: nat, a: nat, snap: Snapshot, procs: nat, limit: nat) returns (t: State)
    requires Reached(s, procs, limit) && Queue(s, a) && |s.procs| == procs && 0 < n <= procs && !LastTry(snap)
    requires !s.procs[0].running && forall q: nat :: 1 <= q < n ==> Holds(s, q, snap)
    ensures Reached(t, procs, limit) && Queue(t, a + n - 1) && |t.procs| == procs && !t.procs[0].running
    decreases n
  {
    t := s;
    if n > 1 {
      t := Try(s, n - 1, a, snap, procs, limit);
      StillHolds(s, t, n - 1, 1, n - 1, snap);
      t := AllTry(t, n - 1, a + 1, snap, procs, limit);
    }
  }

  lemma Enqueued(procs: nat, limit: nat) returns (t: State)
    requires procs > 0 && limit > 0
    ensures Reached(t, procs, limit) && Queue(t, 0) && |t.procs| == procs
    ensures forall q :: 0 <= q < procs ==> !t.procs[q].running
    ensures t.rows[0].source == Some(0) && t.rows[0].size == 0 && t.pushed == {} && t.staged == {0} && t.checked == 0
  {
    hide Reachable;
    t := ReachInit(procs, limit, Unwatched);
    t := Reach(t, CheckBacklog, procs, limit, Unwatched);
    t := Reach(t, Enqueue(0, 0, 0), procs, limit, Unwatched);
  }

  /** Process 0 tries the row `n` times, in as many drains. */
  lemma {:induction false} Rounds(n: nat, procs: nat, limit: nat) returns (t: State)
    requires procs > 0 && limit > 0 && n <= MAX_UPLOAD_ATTEMPTS - 2
    ensures Reached(t, procs, limit) && Queue(t, n) && |t.procs| == procs
    ensures forall q :: 0 <= q < procs ==> !t.procs[q].running
  {
    if n == 0 {
      t := Enqueued(procs, limit);
    } else {
      t := Rounds(n - 1, procs, limit);
      var row := t.rows[0];
      t := Pick(t, 0, n - 1, procs, limit);
      t := Try(t, 0, n - 1, Snapshot(0, row), procs, limit);
    }
  }

  /** The bound of the retry budget is reached, for every number of processes. */
  lemma BoundIsReached(procs: nat, limit: nat) returns (t: State)
    requires procs > 0 && limit > 0
    ensures Reached(t, procs, limit) && 0 in t.rows && t.rows[0].attempts == MAX_UPLOAD_ATTEMPTS + procs - 1
  {
    var few := MAX_UPLOAD_ATTEMPTS - 2;
    t := Rounds(few, procs, limit);
    var snap := Snapshot(0, t.rows[0]);
    var u := AllPick(t, procs, few, procs, limit);
    t := Pick(u, 0, few, procs, limit);
    StillHolds(u, t, 0, 1, procs, snap);
    u := Try(t, 0, few, snap, procs, limit);
    StillHolds(t, u, 0, 1, procs, snap);
    t := AllTry(u, procs, few + 1, snap, procs, limit);
    t := Pick(t, 0, few + procs, procs, limit);
    t := Reach(t, Claim(0, 0), procs, limit, Unwatched);
  }
}
