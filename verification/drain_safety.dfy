/** What every reachable state of the drain keeps: ownership, the retry budget and the staging backlog. */
module DrainSafety {
  import opened Common
  import opened PendingStore
  import opened DrainMachine

  // ---------- Shape of one process ----------

  /** Every row appears at most once among a process's jobs and workers, and only if tried in this drain. */
  ghost predicate ProcShape(proc: Proc, keys: set<FileId>) {
    && |proc.workers| <= PENDING_UPLOAD_WORKERS
    && proc.attempted <= keys && proc.passes <= |proc.attempted|
    && (proc.workers == [] ==> proc.jobs == [])
    && (!proc.running ==> proc.workers == [])
    && (forall i :: 0 <= i < |proc.jobs| ==> proc.jobs[i].id in proc.attempted)
    && (forall w :: 0 <= w < |proc.workers| && !proc.workers[w].Idle? ==> proc.workers[w].snap.id in proc.attempted)
    && DistinctIds(proc.jobs)
    && (forall v, w :: 0 <= v < w < |proc.workers| && !proc.workers[v].Idle? && !proc.workers[w].Idle? ==>
          proc.workers[v].snap.id != proc.workers[w].snap.id)
    && (forall i, w :: 0 <= i < |proc.jobs| && 0 <= w < |proc.workers| && !proc.workers[w].Idle? ==>
          proc.jobs[i].id != proc.workers[w].snap.id)
  }

  ghost predicate Shape(s: State, procs: nat) {
    && |s.procs| == procs
    && (forall p :: 0 <= p < procs ==> ProcShape(s.procs[p], s.rows.Keys))
    && (forall id :: id in s.rows ==> s.rows[id].updatedAt <= s.clock)
  }

  lemma {:induction false} NewOnesDistinct(found: seq<Snapshot>, attempted: set<FileId>)
    requires DistinctIds(found)
    ensures DistinctIds(NewOnes(found, attempted))
  {
    if found != [] {
      NewOnesDistinct(found[1..], attempted);
      var rest := NewOnes(found[1..], attempted);
      assert forall i :: 0 <= i < |rest| ==> rest[i] in found[1..];
      assert forall t :: t in found[1..] ==> t.id != found[0].id;
    }
  }

  lemma {:induction false} DistinctCount(snaps: seq<Snapshot>)
    requires DistinctIds(snaps)
    ensures |IdsOf(snaps)| == |snaps|
  {
    if snaps != [] {
      var n := |snaps| - 1;
      DistinctCount(snaps[..n]);
      assert snaps == snaps[..n] + [snaps[n]];
      IdsOfAppend(snaps[..n], snaps[n]);
    }
  }

  lemma BatchShape(proc: Proc, rows: Rows, found: seq<Snapshot>)
    requires ProcShape(proc, rows.Keys) && proc.running && proc.workers == []
    requires OldestPending(rows, PENDING_UPLOAD_BATCH_SIZE, found)
    ensures ProcShape(NextBatchOf(proc, found), rows.Keys)
  {
    var batch := NewOnes(found, proc.attempted);
    NewOnesDistinct(found, proc.attempted);
    DistinctCount(batch);
    forall id | id in IdsOf(batch)
      ensures id in rows && id !in proc.attempted
    {
      var i :| 0 <= i < |batch| && batch[i].id == id;
      assert batch[i] in found;
    }
    assert |proc.attempted + IdsOf(batch)| == |proc.attempted| + |IdsOf(batch)|;
  }

  /** Only process p changed, to a well-shaped one, and rows did not disappear. */
  lemma OneProcShape(s: State, t: State, procs: nat, p: nat)
    requires Shape(s, procs) && p < procs && |t.procs| == procs
    requires forall q :: 0 <= q < procs && q != p ==> t.procs[q] == s.procs[q]
    requires s.rows.Keys <= t.rows.Keys && ProcShape(t.procs[p], s.rows.Keys)
    requires forall id :: id in t.rows ==> t.rows[id].updatedAt <= t.clock
    ensures Shape(t, procs)
  {
  }

  lemma TakeShape(s: State, procs: nat, p: nat, w: nat)
    requires Shape(s, procs) && At(s, p, w) && s.procs[p].workers[w].Idle? && s.procs[p].jobs != []
    ensures Shape(Apply(s, Take(p, w)), procs)
  {
    OneProcShape(s, Apply(s, Take(p, w)), procs, p);
  }

  /** A worker moving on with the snapshot it has, or done with it. */
  lemma WorkerMoves(s: State, t: State, procs: nat, p: nat, w: nat)
    requires Shape(s, procs) && At(s, p, w) && |t.procs| == procs
    requires forall q :: 0 <= q < procs && q != p ==> t.procs[q] == s.procs[q]
    requires t.procs[p] == s.procs[p].(workers := t.procs[p].workers, clean := t.procs[p].clean)
    requires At(t, p, w) && t.procs[p].workers == s.procs[p].workers[w := t.procs[p].workers[w]]
    requires t.procs[p].workers[w].Idle? ||
             (!s.procs[p].workers[w].Idle? && t.procs[p].workers[w].snap == s.procs[p].workers[w].snap)
    requires t.rows.Keys == s.rows.Keys
    requires forall id :: id in t.rows ==> t.rows[id].updatedAt <= t.clock
    ensures Shape(t, procs)
  {
    WorkerShape(s.procs[p], s.rows.Keys, w, t.procs[p].workers[w]);
    OneProcShape(s, t, procs, p);
  }

  lemma WorkerShape(proc: Proc, keys: set<FileId>, w: nat, worker: Worker)
    requires ProcShape(proc, keys) && w < |proc.workers|
    requires worker.Idle? || (!proc.workers[w].Idle? && worker.snap == proc.workers[w].snap)
    ensures ProcShape(proc.(workers := proc.workers[w := worker]), keys)
  {
  }

  lemma ClaimShape(s: State, procs: nat, p: nat, w: nat)
    requires Shape(s, procs) && At(s, p, w) && s.procs[p].workers[w].Taken?
    ensures Shape(Apply(s, Claim(p, w)), procs)
    ensures Shape(Apply(s, ClaimError(p, w)), procs)
  {
    hide ProcShape;
    WorkerMoves(s, Apply(s, Claim(p, w)), procs, p, w);
    WorkerMoves(s, Apply(s, ClaimError(p, w)), procs, p, w);
  }

  lemma FinishShape(s: State, procs: nat, p: nat, w: nat, size: nat)
    requires Shape(s, procs) && At(s, p, w) && s.procs[p].workers[w].Owning?
    ensures Shape(Apply(s, FinishReady(p, w, size)), procs)
    ensures Shape(Apply(s, FinishRetry(p, w)), procs)
    ensures Shape(Apply(s, FinishLost(p, w)), procs)
    ensures Shape(Apply(s, Open(p, w)), procs)
  {
    hide ProcShape;
    WorkerMoves(s, Apply(s, Open(p, w)), procs, p, w);
    WorkerMoves(s, Apply(s, FinishReady(p, w, size)), procs, p, w);
    WorkerMoves(s, Apply(s, FinishRetry(p, w)), procs, p, w);
    WorkerMoves(s, Apply(s, FinishLost(p, w)), procs, p, w);
  }

  /** Starting and stopping a process. */
  lemma ControlShape(s: State, step: Step, procs: nat, p: nat)
    requires Shape(s, procs) && p < procs && step in {Start(p), Abort(p), EndBatch(p), Cancel(p), Crash(p)}
    requires step.Start? ==> !s.procs[p].running
    requires step.Abort? || step.EndBatch? ==> s.procs[p].jobs == []
    requires step.Abort? ==> s.procs[p].workers == []
    ensures Shape(Apply(s, step), procs)
  {
    OneProcShape(s, Apply(s, step), procs, p);
  }

  lemma NextBatchShape(s: State, p: nat, found: seq<Snapshot>, procs: nat, limit: nat, rule: RequeueRule)
    requires Shape(s, procs) && Enabled(s, NextBatch(p, found), limit, rule)
    ensures Shape(Apply(s, NextBatch(p, found)), procs)
  {
    BatchShape(s.procs[p], s.rows, found);
    OneProcShape(s, Apply(s, NextBatch(p, found)), procs, p);
  }

  /** Rows may be added and rewritten as long as the processes stay as they are. */
  lemma RowsShape(s: State, t: State, procs: nat)
    requires Shape(s, procs) && t.procs == s.procs && s.rows.Keys <= t.rows.Keys
    requires forall id :: id in t.rows ==> t.rows[id].updatedAt <= t.clock
    ensures Shape(t, procs)
  {
  }

  lemma ShapeKept(s: State, step: Step, procs: nat, limit: nat, rule: RequeueRule)
    requires Shape(s, procs) && Enabled(s, step, limit, rule)
    ensures Shape(Apply(s, step), procs)
  {
    hide Backlog, RequeueAllowed, ProcShape, OldestPending;
    match step
    case Start(p) => ControlShape(s, step, procs, p);
    case NextBatch(p, found) => NextBatchShape(s, p, found, procs, limit, rule);
    case Abort(p) => ControlShape(s, step, procs, p);
    case EndBatch(p) => ControlShape(s, step, procs, p);
    case Cancel(p) => ControlShape(s, step, procs, p);
    case Crash(p) => ControlShape(s, step, procs, p);
    case Take(p, w) => TakeShape(s, procs, p, w);
    case Claim(p, w) => ClaimShape(s, procs, p, w);
    case ClaimError(p, w) => ClaimShape(s, procs, p, w);
    case Open(p, w) => FinishShape(s, procs, p, w, 0);
    case FinishReady(p, w, size) => FinishShape(s, procs, p, w, size);
    case FinishRetry(p, w) => FinishShape(s, procs, p, w, 0);
    case FinishLost(p, w) => FinishShape(s, procs, p, w, 0);
    case _ => RowsShape(s, Apply(s, step), procs);
  }

  // ---------- Ownership ----------

  /** A claimed row is uploading and has one owner; an uploading row without owner is stranded. */
  ghost predicate Ownership(s: State) {
    && (forall p, w, id :: OwnedBy(s, p, w, id) ==> IsUploading(s.rows, id) && id !in s.stranded)
    && (forall p, w, q, v, id :: OwnedBy(s, p, w, id) && OwnedBy(s, q, v, id) ==> p == q && w == v)
    && (forall id :: IsUploading(s.rows, id) && id !in s.stranded ==> exists p, w :: OwnedBy(s, p, w, id))
    && (forall id :: id in s.stranded ==> IsUploading(s.rows, id))
  }

  /** Owners are the same pairs in both states and no row changed between uploading and not. */
  lemma SameOwners(s: State, t: State)
    requires Ownership(s) && t.stranded == s.stranded
    requires forall p, w, id :: OwnedBy(t, p, w, id) <==> OwnedBy(s, p, w, id)
    requires forall id :: IsUploading(t.rows, id) <==> IsUploading(s.rows, id)
    ensures Ownership(t)
  {
    forall id | IsUploading(t.rows, id) && id !in t.stranded
      ensures exists p, w :: OwnedBy(t, p, w, id)
    {
      var p, w :| OwnedBy(s, p, w, id);
      assert OwnedBy(t, p, w, id);
    }
  }

  /** One worker gained or lost the row `own`; everything else is as before. */
  lemma OwnerChanged(s: State, t: State, p: nat, w: nat, own: FileId, gained: bool)
    requires Ownership(s) && At(s, p, w)
    requires forall q, v, id :: q != p || v != w ==> (OwnedBy(t, q, v, id) <==> OwnedBy(s, q, v, id))
    requires forall id :: OwnedBy(t, p, w, id) <==> gained && id == own
    requires forall id :: OwnedBy(s, p, w, id) <==> !gained && id == own
    requires forall id :: id != own ==> (IsUploading(t.rows, id) <==> IsUploading(s.rows, id))
    requires IsUploading(t.rows, own) <==> gained || own in t.stranded
    requires gained ==> !IsUploading(s.rows, own)
    requires t.stranded == s.stranded || (!gained && t.stranded == s.stranded + {own})
    ensures Ownership(t)
  {
    assert gained || OwnedBy(s, p, w, own);
    forall q, v, id | OwnedBy(t, q, v, id)
      ensures IsUploading(t.rows, id) && id !in t.stranded
      ensures id == own ==> q == p && v == w
    {
      if q != p || v != w {
        assert OwnedBy(s, q, v, id) && IsUploading(s.rows, id);
      }
    }
    forall id | IsUploading(t.rows, id) && id !in t.stranded
      ensures exists q, v :: OwnedBy(t, q, v, id)
    {
      if id == own {
        assert OwnedBy(t, p, w, id);
      } else {
        var q, v :| OwnedBy(s, q, v, id);
        assert OwnedBy(t, q, v, id);
      }
    }
  }

  lemma FinishOwnership(s: State, step: Step, p: nat, w: nat)
    requires Ownership(s) && At(s, p, w) && s.procs[p].workers[w].Owning?
    requires step in {FinishRetry(p, w), FinishLost(p, w)} || (step.FinishReady? && step.p == p && step.w == w)
    ensures Ownership(Apply(s, step))
  {
    var own := s.procs[p].workers[w].snap.id;
    assert OwnedBy(s, p, w, own);
    OwnerChanged(s, Apply(s, step), p, w, own, false);
  }

  lemma CrashOwnership(s: State, p: nat)
    requires Ownership(s) && p < |s.procs|
    ensures Ownership(Apply(s, Crash(p)))
  {
    var t := Apply(s, Crash(p));
    var lost := OwnedIds(s.procs[p]);
    assert forall w, id :: OwnedBy(s, p, w, id) ==> id in lost;
    forall q, w, id
      ensures OwnedBy(t, q, w, id) <==> OwnedBy(s, q, w, id) && q != p
    {
    }
    forall id | id in OwnedIds(s.procs[p])
      ensures IsUploading(s.rows, id) && forall q, w :: !OwnedBy(t, q, w, id)
    {
      var w :| 0 <= w < |s.procs[p].workers| && s.procs[p].workers[w].Owning? && s.procs[p].workers[w].snap.id == id;
      assert OwnedBy(s, p, w, id);
    }
    forall id | IsUploading(t.rows, id) && id !in t.stranded
      ensures exists q, w :: OwnedBy(t, q, w, id)
    {
      var q, w :| OwnedBy(s, q, w, id);
      assert OwnedBy(t, q, w, id);
    }
  }

  lemma ClaimOwnership(s: State, p: nat, w: nat)
    requires Ownership(s) && At(s, p, w) && s.procs[p].workers[w].Taken?
    ensures Ownership(Apply(s, Claim(p, w)))
  {
    var t := Apply(s, Claim(p, w));
    var id := s.procs[p].workers[w].snap.id;
    if IsPending(s.rows, id) {
      OwnerChanged(s, t, p, w, id, true);
    } else {
      SameOwners(s, t);
    }
  }

  /** An overwrite puts back a settled or pending row, or rescues a stranded one. */
  lemma RequeueOwnership(s: State, id: FileId, source: Path)
    requires Ownership(s) && NobodyOwns(s, id)
    ensures Ownership(Apply(s, Requeue(id, source)))
  {
    var t := Apply(s, Requeue(id, source));
    forall i | IsUploading(t.rows, i) && i !in t.stranded
      ensures exists p, w :: OwnedBy(t, p, w, i)
    {
      var p, w :| OwnedBy(s, p, w, i);
      assert OwnedBy(t, p, w, i);
    }
    forall p, w, i | OwnedBy(t, p, w, i)
      ensures OwnedBy(s, p, w, i) && i != id
    {
      assert OwnedBy(s, p, w, i) && !OwnedBy(s, p, w, id);
    }
  }

  /** The code overwrites at any time; owned rows stay uploading exactly when nobody is pushing the row. */
  lemma RequeueKeepsOwnershipWhen(s: State, id: FileId, source: Path)
    requires Ownership(s) && id in s.rows
    ensures Ownership(Apply(s, Requeue(id, source))) <==> NobodyOwns(s, id)
  {
    if p, w :| OwnedBy(s, p, w, id) {
      assert OwnedBy(Apply(s, Requeue(id, source)), p, w, id);
    } else {
      RequeueOwnership(s, id, source);
    }
  }

  predicate ByHandler(step: Step) {
    || step.CheckBacklog? || step.Leave? || step.Enqueue? || step.Requeue? || step.DirectUpload?
    || step.Overwrite? || step.Touch? || step.Clear?
  }

  /** Handlers leave the workers alone, and all but an overwrite in chunks leave an uploading row uploading. */
  lemma HandlerOwnership(s: State, step: Step, limit: nat, rule: RequeueRule)
    requires Ownership(s) && Enabled(s, step, limit, rule) && ByHandler(step) && !step.Requeue?
    ensures Ownership(Apply(s, step))
  {
    hide Ownership, OldestPending, Backlog, RequeueAllowed;
    var t := Apply(s, step);
    assert t.procs == s.procs && forall id :: IsUploading(t.rows, id) <==> IsUploading(s.rows, id);
    assert forall p, w, id :: OwnedBy(t, p, w, id) <==> OwnedBy(s, p, w, id);
    SameOwners(s, t);
  }

  /** So do the steps of a process that touch no row: workers start, stop or take a job only when idle. */
  lemma QuietOwnership(s: State, step: Step, procs: nat, limit: nat, rule: RequeueRule)
    requires Shape(s, procs) && Ownership(s) && Enabled(s, step, limit, rule)
    requires step.Start? || step.NextBatch? || step.Abort? || step.Take? || step.ClaimError? || step.Open?
             || step.EndBatch? || step.Cancel?
    ensures Ownership(Apply(s, step))
  {
    hide Ownership, OldestPending, Backlog, RequeueAllowed, IdsOf;
    var t := Apply(s, step);
    assert t.rows == s.rows && t.stranded == s.stranded;
    assert ProcShape(s.procs[step.p], s.rows.Keys);
    hide ProcShape;
    forall p, w, id
      ensures OwnedBy(t, p, w, id) <==> OwnedBy(s, p, w, id)
    {
      assert p != step.p ==> (OwnedBy(t, p, w, id) <==> OwnedBy(s, p, w, id));
    }
    SameOwners(s, t);
  }

  lemma OwnershipKept(s: State, step: Step, procs: nat, limit: nat, rule: RequeueRule)
    requires Shape(s, procs) && Ownership(s) && Enabled(s, step, limit, rule) && !rule.Anytime?
    ensures Ownership(Apply(s, step))
  {
    match step
    case Claim(p, w) => ClaimOwnership(s, p, w);
    case FinishReady(p, w, _) => FinishOwnership(s, step, p, w);
    case FinishRetry(p, w) => FinishOwnership(s, step, p, w);
    case FinishLost(p, w) => FinishOwnership(s, step, p, w);
    case Crash(p) => CrashOwnership(s, p);
    case Requeue(id, source) => RequeueOwnership(s, id, source);
    case _ =>
      if ByHandler(step) {
        HandlerOwnership(s, step, limit, rule);
      } else {
        QuietOwnership(s, step, procs, limit, rule);
      }
  }

  /** Only the owner of a row moves it out of uploading; a row nobody owns, only a new upload of it. */
  lemma OnlyOwnerMoves(s: State, step: Step, procs: nat, limit: nat, rule: RequeueRule, id: FileId)
    requires Shape(s, procs) && Ownership(s) && Enabled(s, step, limit, rule) && !rule.Anytime?
    requires IsUploading(s.rows, id) && !IsUploading(Apply(s, step).rows, id)
    ensures if id in s.stranded then step.Requeue? && step.id == id
            else (step.FinishReady? || step.FinishRetry?) && OwnedBy(s, step.p, step.w, id)
  {
    match step
    case FinishReady(p, w, _) => assert OwnedBy(s, p, w, id);
    case FinishRetry(p, w) => assert OwnedBy(s, p, w, id);
    case Requeue(i, _) => assert i == id;
    case _ =>
  }

  /** While a worker pushes a row, nobody else changes its status, its count or its staged file. */
  lemma OthersLeaveOwned(s: State, step: Step, procs: nat, limit: nat, rule: RequeueRule, p: nat, w: nat, id: FileId)
    requires Shape(s, procs) && Ownership(s) && Enabled(s, step, limit, rule) && !rule.Anytime?
    requires OwnedBy(s, p, w, id) && OwnedBy(Apply(s, step), p, w, id)
    ensures id in Apply(s, step).rows && SameJob(s.rows[id], Apply(s, step).rows[id])
  {
    hide ProcShape, OldestPending, Backlog;
    assert IsUploading(s.rows, id);
    match step
    case FinishReady(q, v, _) => assert OwnedBy(s, q, v, s.procs[q].workers[v].snap.id);
    case FinishRetry(q, v) => assert OwnedBy(s, q, v, s.procs[q].workers[v].snap.id);
    case _ =>
  }

  lemma {:induction false} OwnedCount(proc: Proc, n: nat)
    requires n <= |proc.workers|
    ensures |set w | 0 <= w < n && proc.workers[w].Owning? :: proc.workers[w].snap.id| <= n
  {
    if n > 0 {
      OwnedCount(proc, n - 1);
      var fewer := set w | 0 <= w < n - 1 && proc.workers[w].Owning? :: proc.workers[w].snap.id;
      var all := set w | 0 <= w < n && proc.workers[w].Owning? :: proc.workers[w].snap.id;
      if proc.workers[n - 1].Owning? {
        assert all == fewer + {proc.workers[n - 1].snap.id};
      } else {
        assert all == fewer;
      }
    }
  }

  /** A crash strands the rows its process owned, and those are never more than its workers. */
  lemma CrashStrandsFew(s: State, p: nat, procs: nat)
    requires Shape(s, procs) && Ownership(s) && p < procs
    ensures var t := Apply(s, Crash(p));
            |t.stranded - s.stranded| <= PENDING_UPLOAD_WORKERS &&
            forall id :: id in t.stranded - s.stranded <==> exists w :: OwnedBy(s, p, w, id)
  {
    var t := Apply(s, Crash(p));
    var proc := s.procs[p];
    OwnedCount(proc, |proc.workers|);
    forall id
      ensures id in OwnedIds(proc) <==> exists w :: OwnedBy(s, p, w, id)
    {
      if id in OwnedIds(proc) {
        var w :| 0 <= w < |proc.workers| && proc.workers[w].Owning? && proc.workers[w].snap.id == id;
        assert OwnedBy(s, p, w, id);
      }
    }
    assert t.stranded - s.stranded == OwnedIds(proc);
  }

  // ---------- Whole runs ----------

  lemma {:induction false} RunShape(run: seq<State>, procs: nat, limit: nat, rule: RequeueRule, i: nat)
    requires IsRun(run, procs, limit, rule) && i < |run|
    ensures Shape(run[i], procs)
  {
    hide Enabled, Apply, Backlog;
    if i > 0 {
      RunShape(run, procs, limit, rule, i - 1);
      assert Next(run[i - 1], run[i], limit, rule);
      var step :| Enabled(run[i - 1], step, limit, rule) && run[i] == Apply(run[i - 1], step);
      ShapeKept(run[i - 1], step, procs, limit, rule);
    }
  }

  lemma {:induction false} RunOwnership(run: seq<State>, procs: nat, limit: nat, rule: RequeueRule, i: nat)
    requires IsRun(run, procs, limit, rule) && !rule.Anytime? && i < |run|
    ensures Ownership(run[i])
  {
    hide Enabled, Apply, ProcShape, Backlog;
    if i > 0 {
      RunOwnership(run, procs, limit, rule, i - 1);
      RunShape(run, procs, limit, rule, i - 1);
      assert Next(run[i - 1], run[i], limit, rule);
      var step :| Enabled(run[i - 1], step, limit, rule) && run[i] == Apply(run[i - 1], step);
      OwnershipKept(run[i - 1], step, procs, limit, rule);
    } else {
      assert forall p, w, id :: !OwnedBy(run[0], p, w, id);
    }
  }

  lemma OwnedThroughout(s: State, procs: nat, limit: nat, rule: RequeueRule)
    requires Reachable(s, procs, limit, rule) && !rule.Anytime?
    ensures Shape(s, procs) && Ownership(s)
  {
    var run :| IsRun(run, procs, limit, rule) && run[|run| - 1] == s;
    RunShape(run, procs, limit, rule, |run| - 1);
    RunOwnership(run, procs, limit, rule, |run| - 1);
  }
}
