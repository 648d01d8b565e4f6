/**
 * How often one upload can be tried. The retry decision reads the count in a possibly stale snapshot,
 * so with several processes the count on the row can pass MAX_UPLOAD_ATTEMPTS, but by less than one
 * per other process: whatever the handlers do, rows overwritten while they are pushed included.
 */
module DrainBudget {
  import opened Common
  import opened PendingStore
  import opened DrainMachine
  import opened DrainSafety

  /** The process works from a snapshot of the row that would still send it back for a retry. */
  ghost predicate HoldsStale(proc: Proc, id: FileId) {
    || (exists i :: 0 <= i < |proc.jobs| && proc.jobs[i].id == id && !LastTry(proc.jobs[i]))
    || (exists w :: StaleWorker(proc, w, id))
  }

  predicate StaleWorker(proc: Proc, w: int, id: FileId) {
    && 0 <= w < |proc.workers| && !proc.workers[w].Idle?
    && proc.workers[w].snap.id == id && !LastTry(proc.workers[w].snap)
  }

  ghost function Holders(procs: seq<Proc>, id: FileId): nat {
    if procs == [] then 0
    else Holders(procs[..|procs| - 1], id) + (if HoldsStale(procs[|procs| - 1], id) then 1 else 0)
  }

  lemma {:induction false} HoldersUpdate(procs: seq<Proc>, p: nat, q: Proc, id: FileId)
    requires p < |procs|
    ensures Holders(procs[p := q], id) + (if HoldsStale(procs[p], id) then 1 else 0) ==
            Holders(procs, id) + (if HoldsStale(q, id) then 1 else 0)
  {
    var n := |procs| - 1;
    if p < n {
      HoldersUpdate(procs[..n], p, q, id);
      assert procs[p := q][..n] == procs[..n][p := q];
    } else {
      assert procs[p := q][..n] == procs[..n];
    }
  }

  lemma {:induction false} HoldersBound(procs: seq<Proc>, id: FileId)
    ensures Holders(procs, id) <= |procs|
  {
    if procs != [] {
      HoldersBound(procs[..|procs| - 1], id);
    }
  }

  /** The tries still to come once retries run out: one if the row waits, one for each stale snapshot. */
  ghost function Coming(s: State, id: FileId): nat {
    Holders(s.procs, id) + (if IsPending(s.rows, id) then 1 else 0)
  }

  /** Few tries so far, or few enough together with those to come. */
  ghost predicate Roomy(s: State, id: FileId)
    requires id in s.rows
  {
    s.rows[id].attempts < MAX_UPLOAD_ATTEMPTS - 1 ||
    s.rows[id].attempts + Coming(s, id) <= MAX_UPLOAD_ATTEMPTS + |s.procs| - 1
  }

  ghost predicate Budget(s: State) {
    forall id :: id in s.rows ==> Roomy(s, id)
  }

  /** A process that spends snapshots, or takes fresh ones of rows tried few times, keeps room. */
  lemma RoomyKept(s: State, t: State, p: nat, id: FileId)
    requires p < |s.procs| == |t.procs| && t.procs == s.procs[p := t.procs[p]]
    requires id in s.rows && id in t.rows && t.rows[id].attempts == s.rows[id].attempts
    requires IsPending(t.rows, id) ==>
               IsPending(s.rows, id) || (HoldsStale(s.procs[p], id) && !HoldsStale(t.procs[p], id))
    requires HoldsStale(t.procs[p], id) ==>
               HoldsStale(s.procs[p], id) || t.rows[id].attempts < MAX_UPLOAD_ATTEMPTS - 1
    requires Roomy(s, id)
    ensures Roomy(t, id)
  {
    HoldersUpdate(s.procs, p, t.procs[p], id);
  }

  /** A worker moving on with its snapshot, or putting it down, brings the process no stale snapshot. */
  lemma StaleBefore(proc: Proc, after: Proc, w: nat, id: FileId)
    requires w < |proc.workers| == |after.workers| && after.jobs == proc.jobs
    requires after.workers == proc.workers[w := after.workers[w]]
    requires after.workers[w].Idle? || (!proc.workers[w].Idle? && after.workers[w].snap == proc.workers[w].snap)
    requires HoldsStale(after, id)
    ensures HoldsStale(proc, id)
  {
    if v :| StaleWorker(after, v, id) {
      assert StaleWorker(proc, v, id);
    }
  }

  lemma TakeStaleBefore(proc: Proc, w: nat, id: FileId)
    requires w < |proc.workers| && proc.jobs != []
    requires HoldsStale(proc.(jobs := proc.jobs[1..], workers := proc.workers[w := Taken(proc.jobs[0])]), id)
    ensures HoldsStale(proc, id)
  {
    var after := proc.(jobs := proc.jobs[1..], workers := proc.workers[w := Taken(proc.jobs[0])]);
    if v :| StaleWorker(after, v, id) {
      assert v != w ==> StaleWorker(proc, v, id);
    } else {
      var i :| 0 <= i < |after.jobs| && after.jobs[i].id == id && !LastTry(after.jobs[i]);
      assert proc.jobs[i + 1] == after.jobs[i];
    }
  }

  /** A claim turns the waiting row's try to come into one that counts. */
  lemma ClaimBudget(s: State, procs: nat, p: nat, w: nat)
    requires Shape(s, procs) && Budget(s) && At(s, p, w) && s.procs[p].workers[w].Taken?
    ensures Budget(Apply(s, Claim(p, w)))
  {
    hide ProcShape;
    var t := Apply(s, Claim(p, w));
    var own := s.procs[p].workers[w].snap.id;
    forall id | id in s.rows
      ensures Roomy(t, id)
    {
      if HoldsStale(t.procs[p], id) {
        StaleBefore(s.procs[p], t.procs[p], w, id);
      }
      if id == own && IsPending(s.rows, id) {
        HoldersUpdate(s.procs, p, t.procs[p], id);
        HoldersBound(t.procs, id);
        assert Coming(t, id) == Holders(t.procs, id);
      } else {
        RoomyKept(s, t, p, id);
      }
    }
  }

  /** A worker that puts the row back for a retry spends the process's one snapshot of it. */
  lemma SnapshotSpent(proc: Proc, keys: set<FileId>, w: nat)
    requires ProcShape(proc, keys) && w < |proc.workers| && !proc.workers[w].Idle?
    ensures !HoldsStale(proc.(workers := proc.workers[w := Idle]), proc.workers[w].snap.id)
  {
  }

  lemma FinishBudget(s: State, step: Step, procs: nat, p: nat, w: nat)
    requires Shape(s, procs) && Budget(s) && At(s, p, w) && s.procs[p].workers[w].Owning?
    requires step in {FinishRetry(p, w), FinishLost(p, w)} || (step.FinishReady? && step.p == p && step.w == w)
    ensures Budget(Apply(s, step))
  {
    hide ProcShape;
    var t := Apply(s, step);
    var snap := s.procs[p].workers[w].snap;
    forall id | id in s.rows
      ensures id in t.rows && Roomy(t, id)
    {
      if HoldsStale(t.procs[p], id) {
        StaleBefore(s.procs[p], t.procs[p], w, id);
      }
      if step.FinishRetry? && id == snap.id && !LastTry(snap) {
        assert StaleWorker(s.procs[p], w, id);
        SnapshotSpent(s.procs[p], s.rows.Keys, w);
      }
      RoomyKept(s, t, p, id);
    }
  }

  /** A batch just read holds no snapshot older than the row. */
  lemma BatchIsFresh(rows: Rows, proc: Proc, found: seq<Snapshot>, id: FileId)
    requires OldestPending(rows, PENDING_UPLOAD_BATCH_SIZE, found) && proc.jobs == [] && proc.workers == []
    requires HoldsStale(NextBatchOf(proc, found), id)
    ensures id in rows && rows[id].attempts < MAX_UPLOAD_ATTEMPTS - 1
  {
    var after := NextBatchOf(proc, found);
    assert forall w :: !StaleWorker(after, w, id);
    var i :| 0 <= i < |after.jobs| && after.jobs[i].id == id && !LastTry(after.jobs[i]);
    assert after.jobs[i] in found;
  }

  lemma NextBatchBudget(s: State, p: nat, found: seq<Snapshot>, limit: nat, rule: RequeueRule)
    requires Budget(s) && Enabled(s, NextBatch(p, found), limit, rule)
    ensures Budget(Apply(s, NextBatch(p, found)))
  {
    var t := Apply(s, NextBatch(p, found));
    forall id | id in s.rows
      ensures Roomy(t, id)
    {
      if HoldsStale(t.procs[p], id) {
        BatchIsFresh(s.rows, s.procs[p], found, id);
      }
      RoomyKept(s, t, p, id);
    }
  }

  /** Starting, taking a job, losing a claim statement and stopping only spend snapshots. */
  lemma SpendingBudget(s: State, step: Step, p: nat, limit: nat, rule: RequeueRule)
    requires Budget(s) && Enabled(s, step, limit, rule)
    requires step in {Start(p), Abort(p), EndBatch(p), Cancel(p), Crash(p)}
             || ((step.Take? || step.ClaimError? || step.Open?) && step.p == p)
    ensures Budget(Apply(s, step))
  {
    hide OldestPending, Backlog, RequeueAllowed;
    var t := Apply(s, step);
    forall id | id in s.rows
      ensures Roomy(t, id)
    {
      if HoldsStale(t.procs[p], id) {
        if step.Take? {
          TakeStaleBefore(s.procs[p], step.w, id);
        } else if step.ClaimError? || step.Open? {
          StaleBefore(s.procs[p], t.procs[p], step.w, id);
        }
      }
      RoomyKept(s, t, p, id);
    }
  }

  /** Handlers leave the processes alone, and a row they put into the queue has been tried no times. */
  lemma OutsideBudget(s: State, step: Step, limit: nat, rule: RequeueRule)
    requires Budget(s) && Enabled(s, step, limit, rule)
    requires ByHandler(step)
    ensures Budget(Apply(s, step))
  {
    hide OldestPending, Backlog, RequeueAllowed, Holders;
    var t := Apply(s, step);
    forall id | id in t.rows
      ensures Roomy(t, id)
    {
      assert t.rows[id].attempts == 0 || (id in s.rows && Roomy(s, id));
    }
  }

  /** No step breaks the budget, whenever overwrites come. */
  lemma BudgetKept(s: State, step: Step, procs: nat, limit: nat, rule: RequeueRule)
    requires Shape(s, procs) && Budget(s) && Enabled(s, step, limit, rule)
    ensures Budget(Apply(s, step))
  {
    hide Shape, Budget, OldestPending, Backlog, RequeueAllowed;
    match step
    case NextBatch(p, found) => NextBatchBudget(s, p, found, limit, rule);
    case Claim(p, w) => ClaimBudget(s, procs, p, w);
    case FinishReady(p, w, _) => FinishBudget(s, step, procs, p, w);
    case FinishRetry(p, w) => FinishBudget(s, step, procs, p, w);
    case FinishLost(p, w) => FinishBudget(s, step, procs, p, w);
    case Start(p) => SpendingBudget(s, step, p, limit, rule);
    case Abort(p) => SpendingBudget(s, step, p, limit, rule);
    case EndBatch(p) => SpendingBudget(s, step, p, limit, rule);
    case Cancel(p) => SpendingBudget(s, step, p, limit, rule);
    case Crash(p) => SpendingBudget(s, step, p, limit, rule);
    case Take(p, w) => SpendingBudget(s, step, p, limit, rule);
    case ClaimError(p, w) => SpendingBudget(s, step, p, limit, rule);
    case Open(p, w) => SpendingBudget(s, step, p, limit, rule);
    case _ => OutsideBudget(s, step, limit, rule);
  }

  lemma {:induction false} RunKeepsBudget(run: seq<State>, procs: nat, limit: nat, rule: RequeueRule, i: nat)
    requires IsRun(run, procs, limit, rule) && i < |run|
    ensures Budget(run[i])
  {
    hide Enabled, Apply, Backlog;
    if i > 0 {
      RunKeepsBudget(run, procs, limit, rule, i - 1);
      RunShape(run, procs, limit, rule, i - 1);
      assert Next(run[i - 1], run[i], limit, rule);
      var step :| Enabled(run[i - 1], step, limit, rule) && run[i] == Apply(run[i - 1], step);
      BudgetKept(run[i - 1], step, procs, limit, rule);
    }
  }

  /** In every reachable state: 5 tries for one process, one more for each other process. */
  lemma TriesBounded(s: State, procs: nat, limit: nat, rule: RequeueRule, id: FileId)
    requires Reachable(s, procs, limit, rule) && id in s.rows && procs > 0
    ensures s.rows[id].attempts <= MAX_UPLOAD_ATTEMPTS + procs - 1
  {
    var run :| IsRun(run, procs, limit, rule) && run[|run| - 1] == s;
    RunKeepsBudget(run, procs, limit, rule, |run| - 1);
    RunShape(run, procs, limit, rule, |run| - 1);
    assert Roomy(s, id);
  }

  lemma {:induction false} SubsetCount(a: set<FileId>, b: set<FileId>)
    requires a <= b
    ensures |a| <= |b|
  {
    if a != {} {
      var x :| x in a;
      SubsetCount(a - {x}, b - {x});
    }
  }

  /** And no drain makes more passes than there are rows. */
  lemma PassesBounded(s: State, procs: nat, limit: nat, rule: RequeueRule, p: nat)
    requires Reachable(s, procs, limit, rule) && p < procs
    ensures p < |s.procs| && s.procs[p].passes <= |s.rows|
  {
    var run :| IsRun(run, procs, limit, rule) && run[|run| - 1] == s;
    RunShape(run, procs, limit, rule, |run| - 1);
    assert ProcShape(s.procs[p], s.rows.Keys);
    SubsetCount(s.procs[p].attempted, s.rows.Keys);
    assert |s.rows.Keys| == |s.rows|;
  }
}
