/** Three ways in which the code can reach a state where an overwrite is erased, and one where it is not. */
module DrainErasures {
  import opened Common
  import opened PendingStore
  import opened DrainMachine
  import opened DrainSafety
  import opened DrainSources
  import opened DrainTightness

  /** Row 0 may be overwritten here by the staged file 1, and then end up ready without it. */
  ghost predicate Vulnerable(s: State, procs: nat, limit: nat) {
    && Reachable(s, procs, limit, Unwatched) && Enabled(s, Requeue(0, 1), limit, Anytime)
    && MayErase(Apply(s, Requeue(0, 1)), 0, 1, limit)
  }

  /** Another completion passes its backlog check. */
  lemma Checked(s: State, procs: nat, limit: nat) returns (t: State)
    requires Reachable(s, procs, limit, Unwatched) && s.checked == 0 && limit > 0
    requires s.rows.Keys == {0} && s.rows[0].size == 0
    ensures Reachable(t, procs, limit, Unwatched) && t == s.(checked := 1)
  {
    BacklogSplit(s.rows, 0);
    assert s.rows - {0} == map[];
    t := Reach(s, CheckBacklog, procs, limit, Unwatched);
  }

  lemma IsVulnerable(s: State, procs: nat, limit: nat)
    requires Reachable(s, procs, limit, Unwatched) && Enabled(s, Requeue(0, 1), limit, Anytime) && Armed(s, 0)
    ensures Vulnerable(s, procs, limit)
  {
    OverwriteErasableWhen(s, 0, 1, procs, limit, Unwatched);
  }

  /** The row waits in the batch of a drain, not yet taken by a worker. */
  lemma ErasedWhileWaiting(procs: nat, limit: nat) returns (s: State)
    requires procs > 0 && limit > 0
    ensures Vulnerable(s, procs, limit) && IsPending(s.rows, 0)
    ensures NobodyOwns(s, 0) && |s.procs| > 0 && Waiting(s.procs[0], 0)
  {
    hide Reachable, Vulnerable;
    s := Enqueued(procs, limit);
    s := Batched(s, 0, 0, procs, limit);
    s := Checked(s, procs, limit);
    assert HeldIn(s, 0, s.procs[0].jobs[0]);
    assert Waiting(s.procs[0], 0);
    OwnedThroughout(s, procs, limit, Unwatched);
    IsVulnerable(s, procs, limit);
  }

  /** A worker is pushing the row from an open file. */
  lemma ErasedWhileUploading(procs: nat, limit: nat) returns (s: State)
    requires procs > 0 && limit > 0
    ensures Vulnerable(s, procs, limit) && IsUploading(s.rows, 0) && ReadBy(s, 0, 0, 0)
  {
    hide Reachable, Vulnerable;
    s := Enqueued(procs, limit);
    s := Pick(s, 0, 0, procs, limit);
    s := Reach(s, Claim(0, 0), procs, limit, Unwatched);
    s := Reach(s, Open(0, 0), procs, limit, Unwatched);
    s := Checked(s, procs, limit);
    assert ReadBy(s, 0, 0, 0);
    IsVulnerable(s, procs, limit);
  }

  /** Process 0 pushes the row it has in hand; its file is still there. */
  lemma PushedByZero(s: State, snap: Snapshot, procs: nat, limit: nat) returns (t: State)
    requires Reachable(s, procs, limit, Unwatched) && Queue(s, 0) && Holds(s, 0, snap)
    requires snap.row.source == Some(0) && s.staged == {0} && s.pushed == {}
    ensures Reachable(t, procs, limit, Unwatched) && OnlyProc(s, t, 0) && t.checked == s.checked
    ensures t.rows.Keys == {0} && t.rows[0].status.Ready? && t.rows[0].size == 0 && t.staged == t.pushed == {0}
    ensures AllIdle(t.procs[0])
  {
    hide Reachable;
    t := Reach(s, Claim(0, 0), procs, limit, Unwatched);
    assert t.procs[0].workers == [Owning(snap, false)];
    t := Reach(t, Open(0, 0), procs, limit, Unwatched);
    assert t.procs[0].workers == [Owning(snap, true)];
    t := Reach(t, FinishReady(0, 0, 0), procs, limit, Unwatched);
    assert t.procs[0].workers == [Idle];
  }

  /** Process 0 has pushed the row that process 1 had read before; the pushed file is still there. */
  lemma PushedByAnother(procs: nat, limit: nat) returns (s: State)
    requires procs > 1 && limit > 0
    ensures Reachable(s, procs, limit, Unwatched) && Enabled(s, Requeue(0, 1), limit, Anytime)
    ensures s.rows[0].status.Ready? && s.staged == s.pushed == {0} && |s.procs| == procs
    ensures exists snap :: Holds(s, 1, snap) && snap.row.source == Some(0)
    ensures AllIdle(s.procs[0]) && forall q :: 2 <= q < procs ==> !s.procs[q].running
  {
    hide Reachable, AllIdle;
    s := Enqueued(procs, limit);
    var snap := Snapshot(0, s.rows[0]);
    s := Pick(s, 1, 0, procs, limit);
    s := Pick(s, 0, 0, procs, limit);
    s := PushedByZero(s, snap, procs, limit);
    s := Checked(s, procs, limit);
    assert Holds(s, 1, snap);
  }

  /** The row is ready, but its pushed file could not be removed, or is still to be. */
  lemma ErasedThoughReady(procs: nat, limit: nat) returns (s: State)
    requires procs > 1 && limit > 0
    ensures Vulnerable(s, procs, limit) && 0 in s.rows && s.rows[0].status.Ready? && s.staged == s.pushed
  {
    hide Reachable, Vulnerable;
    s := PushedByAnother(procs, limit);
    var snap :| Holds(s, 1, snap) && snap.row.source == Some(0);
    assert HeldBy(s.procs[1], 0, snap);
    assert HeldIn(s, 1, snap);
    IsVulnerable(s, procs, limit);
  }

  /** Once it has been removed the overwrite is safe, though a process still has the row in hand. */
  lemma SafeOnceRemoved(procs: nat, limit: nat) returns (s: State)
    requires procs > 1 && limit > 0
    ensures Reachable(s, procs, limit, Unwatched) && Enabled(s, Requeue(0, 1), limit, Anytime)
    ensures |s.procs| > 1 && Waiting(s.procs[1], 0) && !MayErase(Apply(s, Requeue(0, 1)), 0, 1, limit)
  {
    hide Reachable;
    s := PushedByAnother(procs, limit);
    var snap :| Holds(s, 1, snap) && snap.row.source == Some(0);
    s := Reach(s, Clear(0), procs, limit, Unwatched);
    assert Holds(s, 1, snap);
    assert s.procs[1].workers[0].Taken? && s.procs[1].workers[0].snap.id == 0;
    NobodyReads(s, procs, limit);
    OverwriteErasableWhen(s, 0, 1, procs, limit, Unwatched);
  }

  /** With nothing staged only open files count, and none of these processes has one. */
  lemma NobodyReads(s: State, procs: nat, limit: nat)
    requires Reachable(s, procs, limit, Unwatched) && |s.procs| == procs > 1 && s.staged == {}
    requires AllIdle(s.procs[0]) && (exists snap :: Holds(s, 1, snap))
    requires forall q :: 2 <= q < procs ==> !s.procs[q].running
    ensures !Armed(s, 0)
  {
    OwnedThroughout(s, procs, limit, Unwatched);
    forall p, w
      ensures !ReadBy(s, p, w, 0)
    {
      assert 0 <= p < procs ==> ProcShape(s.procs[p], s.rows.Keys);
    }
  }
}
