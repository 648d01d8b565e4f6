/**
 * Which staged file a finished upload really pushed. Workers push the file named in their snapshot,
 * so an overwrite enqueued behind a snapshot's back can be marked ready without ever being pushed.
 */
module DrainSources {
  import opened Common
  import opened PendingStore
  import opened DrainMachine
  import opened DrainSafety

  // ---------- Snapshots in hand ----------

  predicate HeldBy(proc: Proc, w: int, snap: Snapshot) {
    0 <= w < |proc.workers| && !proc.workers[w].Idle? && proc.workers[w].snap == snap
  }

  /** The process works from this snapshot, claimed or not. */
  ghost predicate Held(proc: Proc, snap: Snapshot) {
    snap in proc.jobs || exists w :: HeldBy(proc, w, snap)
  }

  lemma HeldIsWatched(s: State, p: nat, snap: Snapshot)
    requires p < |s.procs| && Held(s.procs[p], snap)
    ensures !NobodyWatches(s, snap.id)
  {
    var proc := s.procs[p];
    if i :| 0 <= i < |proc.jobs| && proc.jobs[i] == snap {
      assert Waiting(proc, snap.id);
    } else {
      var w :| HeldBy(proc, w, snap);
      assert proc.workers[w].Taken? ==> Waiting(proc, snap.id);
      assert proc.workers[w].Owning? ==> OwnedBy(s, p, w, snap.id);
    }
  }

  /** One worker moves on with the snapshot it has, or puts it down. */
  lemma HeldByWorker(proc: Proc, after: Proc, w: nat, snap: Snapshot)
    requires w < |proc.workers| == |after.workers| && after.jobs == proc.jobs
    requires after.workers == proc.workers[w := after.workers[w]]
    requires after.workers[w].Idle? || HeldBy(proc, w, after.workers[w].snap)
    requires Held(after, snap)
    ensures Held(proc, snap)
  {
    if snap !in after.jobs {
      var v :| HeldBy(after, v, snap);
      assert HeldBy(proc, v, snap);
    }
  }

  lemma HeldByTaker(proc: Proc, w: nat, snap: Snapshot)
    requires w < |proc.workers| && proc.jobs != []
    requires Held(proc.(jobs := proc.jobs[1..], workers := proc.workers[w := Taken(proc.jobs[0])]), snap)
    ensures Held(proc, snap)
  {
    var after := proc.(jobs := proc.jobs[1..], workers := proc.workers[w := Taken(proc.jobs[0])]);
    if snap !in after.jobs && snap != proc.jobs[0] {
      var v :| HeldBy(after, v, snap);
      assert HeldBy(proc, v, snap);
    }
  }

  lemma HeldInBatch(proc: Proc, found: seq<Snapshot>, snap: Snapshot)
    requires proc.jobs == [] && proc.workers == [] && Held(NextBatchOf(proc, found), snap)
    ensures snap in found
  {
    var batch := NewOnes(found, proc.attempted);
    var after := NextBatchOf(proc, found);
    assert forall w :: !HeldBy(after, w, snap);
    assert forall i :: 0 <= i < |batch| ==> batch[i] in found;
  }

  predicate MovesWorker(step: Step) {
    step.Claim? || step.ClaimError? || step.Open? || step.FinishReady? || step.FinishRetry? || step.FinishLost?
  }

  /** Such a step changes one worker, which keeps its snapshot or puts it down. */
  lemma WorkerMoved(s: State, step: Step, limit: nat, rule: RequeueRule)
    requires Enabled(s, step, limit, rule) && MovesWorker(step)
    ensures At(s, step.p, step.w) && !s.procs[step.p].workers[step.w].Idle?
    ensures var t := Apply(s, step);
            && |t.procs| == |s.procs| && (forall q :: 0 <= q < |s.procs| && q != step.p ==> t.procs[q] == s.procs[q])
            && var before, after := s.procs[step.p], t.procs[step.p];
            && after.jobs == before.jobs && |after.workers| == |before.workers|
            && after.workers == before.workers[step.w := after.workers[step.w]]
            && (after.workers[step.w].Idle? || after.workers[step.w].snap == before.workers[step.w].snap)
  {
    hide OldestPending, Backlog, RequeueAllowed;
  }

  /** The other steps leave every snapshot where it is, hand one over, drop some or read new ones. */
  lemma HeldElsewhere(s: State, step: Step, limit: nat, rule: RequeueRule, p: nat, snap: Snapshot)
    requires Enabled(s, step, limit, rule) && !MovesWorker(step) && p < |s.procs| == |Apply(s, step).procs|
    requires Held(Apply(s, step).procs[p], snap)
    ensures Held(s.procs[p], snap) || (step.NextBatch? && step.p == p && snap in step.found)
  {
    hide OldestPending, Backlog, RequeueAllowed;
    if Apply(s, step).procs[p] != s.procs[p] {
      match step
      case NextBatch(_, found) => HeldInBatch(s.procs[p], found, snap);
      case Take(_, w) => HeldByTaker(s.procs[p], w, snap);
      case _ =>
    }
  }

  /** A step gives a process no snapshot it did not hold, unless it has just read it. */
  lemma HeldBefore(s: State, step: Step, limit: nat, rule: RequeueRule, p: nat, snap: Snapshot)
    requires Enabled(s, step, limit, rule) && p < |s.procs| && |Apply(s, step).procs| == |s.procs|
    requires Held(Apply(s, step).procs[p], snap)
    ensures Held(s.procs[p], snap) || (step.NextBatch? && step.p == p && snap in step.found)
  {
    hide Enabled, Apply, Held;
    if MovesWorker(step) {
      WorkerMoved(s, step, limit, rule);
      if step.p == p {
        HeldByWorker(s.procs[p], Apply(s, step).procs[p], step.w, snap);
      }
    } else {
      HeldElsewhere(s, step, limit, rule, p, snap);
    }
  }

  // ---------- When overwrites keep off watched rows ----------

  /** A snapshot is out of date at worst in that its row has been settled since. */
  predicate Current(s: State, snap: Snapshot) {
    snap.id in s.rows && (s.rows[snap.id].source == snap.row.source || s.rows[snap.id].source == None)
  }

  ghost predicate ProcSources(s: State, proc: Proc) {
    forall snap :: Held(proc, snap) ==> Current(s, snap)
  }

  /** Rows in the queue name a staged file, and so do the snapshots of them. */
  ghost predicate Sources(s: State) {
    && (forall id :: IsPending(s.rows, id) || IsUploading(s.rows, id) ==> s.rows[id].source.Some?)
    && (forall p :: 0 <= p < |s.procs| ==> ProcSources(s, s.procs[p]))
  }

  /** Rows keep their staged file or lose it; only an overwrite of an unwatched row brings a new one. */
  ghost predicate SourcesSettle(s: State, t: State) {
    forall id :: id in s.rows ==>
      id in t.rows &&
      (t.rows[id].source == s.rows[id].source || t.rows[id].source == None || NobodyWatches(s, id))
  }

  /** Writing one row: its staged file stays, goes, or belongs to nobody at work. */
  lemma RowSettles(s: State, t: State, id: FileId)
    requires id in t.rows && t.rows == s.rows[id := t.rows[id]]
    requires id in s.rows ==>
               t.rows[id].source == s.rows[id].source || t.rows[id].source == None || NobodyWatches(s, id)
    ensures SourcesSettle(s, t)
  {
  }

  /** The workers' own writes. */
  lemma WorkSettles(s: State, step: Step, procs: nat, limit: nat)
    requires Shape(s, procs) && Ownership(s) && Enabled(s, step, limit, Unwatched)
    requires step.Claim? || step.FinishReady? || step.FinishRetry?
    ensures SourcesSettle(s, Apply(s, step))
  {
    hide ProcShape, SourcesSettle;
    var t := Apply(s, step);
    var id := s.procs[step.p].workers[step.w].snap.id;
    if step.Claim? {
      if IsPending(s.rows, id) {
        RowSettles(s, t, id);
      } else {
        SameSettles(s, t);
      }
    } else {
      assert OwnedBy(s, step.p, step.w, id);
      RowSettles(s, t, id);
    }
  }

  lemma SameSettles(s: State, t: State)
    requires t.rows == s.rows
    ensures SourcesSettle(s, t)
  {
  }

  lemma StepSettles(s: State, step: Step, procs: nat, limit: nat)
    requires Shape(s, procs) && Ownership(s) && Enabled(s, step, limit, Unwatched)
    ensures SourcesSettle(s, Apply(s, step))
  {
    hide OldestPending, Backlog, ProcShape, Ownership;
    var t := Apply(s, step);
    match step
    case Claim(_, _) => WorkSettles(s, step, procs, limit);
    case FinishReady(_, _, _) => WorkSettles(s, step, procs, limit);
    case FinishRetry(_, _) => WorkSettles(s, step, procs, limit);
    case Enqueue(id, _, _) => RowSettles(s, t, id);
    case Requeue(id, _) => RowSettles(s, t, id);
    case DirectUpload(id, _) => RowSettles(s, t, id);
    case Overwrite(id, _) => RowSettles(s, t, id);
    case Touch(id) => RowSettles(s, t, id);
    case _ => SameSettles(s, t);
  }

  lemma StepKeepsFiles(s: State, step: Step, procs: nat, limit: nat)
    requires Shape(s, procs) && Ownership(s) && Sources(s) && Enabled(s, step, limit, Unwatched)
    ensures forall id :: IsPending(Apply(s, step).rows, id) || IsUploading(Apply(s, step).rows, id) ==>
              Apply(s, step).rows[id].source.Some?
  {
    hide OldestPending, Backlog, ProcSources, ProcShape, RequeueAllowed;
    if step.FinishRetry? {
      var id := s.procs[step.p].workers[step.w].snap.id;
      assert OwnedBy(s, step.p, step.w, id) && IsUploading(s.rows, id);
    }
    hide Ownership, Shape;
  }

  lemma SourcesKept(s: State, step: Step, procs: nat, limit: nat)
    requires Shape(s, procs) && Ownership(s) && Sources(s) && Enabled(s, step, limit, Unwatched)
    ensures Sources(Apply(s, step))
  {
    hide Ownership, OldestPending, Backlog, Held, ProcShape, NobodyWatches;
    var t := Apply(s, step);
    StepSettles(s, step, procs, limit);
    StepKeepsFiles(s, step, procs, limit);
    ShapeKept(s, step, procs, limit, Unwatched);
    forall p, snap | 0 <= p < procs && Held(t.procs[p], snap)
      ensures Current(t, snap)
    {
      HeldBefore(s, step, limit, Unwatched, p, snap);
      if Held(s.procs[p], snap) {
        HeldIsWatched(s, p, snap);
        assert ProcSources(s, s.procs[p]) && Current(s, snap);
      } else {
        FreshIsCurrent(s, step, limit, snap);
      }
    }
  }

  /** What the drain query returned a moment ago. */
  lemma FreshIsCurrent(s: State, step: Step, limit: nat, snap: Snapshot)
    requires Enabled(s, step, limit, Unwatched) && step.NextBatch? && snap in step.found
    ensures Current(Apply(s, step), snap)
  {
  }

  lemma {:induction false} RunSources(run: seq<State>, procs: nat, limit: nat, i: nat)
    requires IsRun(run, procs, limit, Unwatched) && i < |run|
    ensures Sources(run[i])
  {
    hide Enabled, Apply, ProcShape, Backlog;
    if i > 0 {
      RunSources(run, procs, limit, i - 1);
      RunShape(run, procs, limit, Unwatched, i - 1);
      RunOwnership(run, procs, limit, Unwatched, i - 1);
      assert Next(run[i - 1], run[i], limit, Unwatched);
      var step :| Enabled(run[i - 1], step, limit, Unwatched) && run[i] == Apply(run[i - 1], step);
      SourcesKept(run[i - 1], step, procs, limit);
    } else {
      assert forall p, snap, w :: 0 <= p < procs ==> !HeldBy(run[0].procs[p], w, snap);
    }
  }

  /** As long as overwrites keep off watched rows, every snapshot names its row's file until that is settled. */
  lemma SourcesTheorem(s: State, procs: nat, limit: nat)
    requires Reachable(s, procs, limit, Unwatched)
    ensures Shape(s, procs) && Ownership(s) && Sources(s)
  {
    var run :| IsRun(run, procs, limit, Unwatched) && run[|run| - 1] == s;
    RunSources(run, procs, limit, |run| - 1);
    OwnedThroughout(s, procs, limit, Unwatched);
  }

  /** Then a row is marked ready only once its own staged file is pushed. */
  lemma ReadyMeansPushed(s: State, p: nat, w: nat, size: nat, procs: nat, limit: nat)
    requires Reachable(s, procs, limit, Unwatched) && Enabled(s, FinishReady(p, w, size), limit, Unwatched)
    ensures var id, t := s.procs[p].workers[w].snap.id, Apply(s, FinishReady(p, w, size));
            IsUploading(s.rows, id) && t.rows[id].status.Ready? &&
            s.rows[id].source.Some? && s.rows[id].source.value in t.pushed
  {
    SourcesTheorem(s, procs, limit);
    var snap := s.procs[p].workers[w].snap;
    assert OwnedBy(s, p, w, snap.id) && HeldBy(s.procs[p], w, snap);
    assert Held(s.procs[p], snap);
  }

  // ---------- When an overwrite can be erased ----------

  /** The row counts as uploaded, and the file its overwrite staged was never pushed. */
  predicate Erased(s: State, id: FileId, b: Path) {
    id in s.rows && s.rows[id].status.Ready? && b !in s.pushed
  }

  /** Anything the code may do next, short of overwriting this row once more. */
  ghost predicate Follows(s: State, t: State, id: FileId, limit: nat) {
    exists step :: Enabled(s, step, limit, Anytime) && t == Apply(s, step) && !(step.Requeue? && step.id == id)
  }

  ghost predicate IsAftermath(run: seq<State>, s: State, id: FileId, limit: nat) {
    && run != [] && run[0] == s
    && forall i :: 0 <= i < |run| - 1 ==> Follows(run[i], run[i + 1], id, limit)
  }

  /** Some run from here ends with the overwrite erased. */
  ghost predicate MayErase(s: State, id: FileId, b: Path, limit: nat) {
    exists run :: IsAftermath(run, s, id, limit) && Erased(run[|run| - 1], id, b)
  }

  /** Some worker is pushing the row from an open file, or some process may still open one for it. */
  ghost predicate Armed(s: State, id: FileId) {
    || (exists p, w :: ReadBy(s, p, w, id))
    || (exists p, snap :: HeldIn(s, p, snap) && snap.id == id && IsStaged(s, snap))
  }

  ghost predicate ReadBy(s: State, p: int, w: int, id: FileId) {
    OwnedBy(s, p, w, id) && s.procs[p].workers[w].reading
  }

  ghost predicate HeldIn(s: State, p: int, snap: Snapshot) {
    0 <= p < |s.procs| && Held(s.procs[p], snap)
  }

  // ---------- Staged files ----------

  predicate IsKnown(s: State, source: Option<Path>) { source.Some? ==> !IsNew(s, source.value) }

  /** Every file that a row or a snapshot names is there, or was pushed. */
  ghost predicate Known(s: State) {
    && (forall id :: id in s.rows ==> IsKnown(s, s.rows[id].source))
    && (forall p, snap :: HeldIn(s, p, snap) ==> IsKnown(s, snap.row.source))
  }

  /** A file once known stays known: it goes only when it has been pushed. */
  lemma StaysKnown(s: State, step: Step, limit: nat, rule: RequeueRule)
    requires Enabled(s, step, limit, rule)
    ensures s.pushed <= Apply(s, step).pushed
    ensures forall file :: !IsNew(s, file) ==> !IsNew(Apply(s, step), file)
    ensures forall file :: file in s.pushed && file !in s.staged ==> file !in Apply(s, step).staged
  {
    hide OldestPending, Backlog, RequeueAllowed;
  }

  lemma RowsKnown(s: State, step: Step, limit: nat, rule: RequeueRule)
    requires Known(s) && Enabled(s, step, limit, rule)
    ensures forall id :: id in Apply(s, step).rows ==> IsKnown(Apply(s, step), Apply(s, step).rows[id].source)
  {
    hide OldestPending, Backlog, RequeueAllowed;
    StaysKnown(s, step, limit, rule);
  }

  lemma KnownKept(s: State, step: Step, limit: nat, rule: RequeueRule)
    requires Known(s) && Enabled(s, step, limit, rule) && |Apply(s, step).procs| == |s.procs|
    ensures Known(Apply(s, step))
  {
    hide Backlog, RequeueAllowed, Held;
    var t := Apply(s, step);
    StaysKnown(s, step, limit, rule);
    RowsKnown(s, step, limit, rule);
    forall p, snap | HeldIn(t, p, snap)
      ensures IsKnown(t, snap.row.source)
    {
      HeldBefore(s, step, limit, rule, p, snap);
      assert Held(s.procs[p], snap) ==> HeldIn(s, p, snap);
    }
  }

  lemma {:induction false} RunKnown(run: seq<State>, procs: nat, limit: nat, rule: RequeueRule, i: nat)
    requires IsRun(run, procs, limit, rule) && i < |run|
    ensures Known(run[i])
  {
    hide Enabled, Apply, ProcShape, Backlog;
    if i > 0 {
      RunKnown(run, procs, limit, rule, i - 1);
      RunShape(run, procs, limit, rule, i - 1);
      RunShape(run, procs, limit, rule, i);
      assert Next(run[i - 1], run[i], limit, rule);
      var step :| Enabled(run[i - 1], step, limit, rule) && run[i] == Apply(run[i - 1], step);
      KnownKept(run[i - 1], step, limit, rule);
    } else {
      assert forall p, w, snap :: 0 <= p < procs ==> !HeldBy(run[0].procs[p], w, snap);
    }
  }

  // ---------- Not armed: the row is not ready until its new file is pushed ----------

  /** Too late to be opened. */
  predicate IsGone(s: State, snap: Snapshot) {
    snap.row.source.Some? ==> snap.row.source.value in s.pushed && snap.row.source.value !in s.staged
  }

  ghost predicate Faithful(s: State, id: FileId, b: Path) {
    b in s.pushed ||
    (&& id in s.rows && s.rows[id].source == Some(b) && !s.rows[id].status.Ready?
     && (forall p, w :: ReadBy(s, p, w, id) ==> s.procs[p].workers[w].snap.row.source == Some(b))
     && (forall p, snap :: HeldIn(s, p, snap) && snap.id == id ==> snap.row.source == Some(b) || IsGone(s, snap)))
  }

  /** The row keeps its staged file until a worker records the push of it. */
  lemma RowFaithful(s: State, step: Step, id: FileId, b: Path, limit: nat)
    requires Faithful(s, id, b) && Enabled(s, step, limit, Anytime) && !(step.Requeue? && step.id == id)
    ensures var t := Apply(s, step);
            b in t.pushed || (id in t.rows && t.rows[id].source == Some(b) && !t.rows[id].status.Ready?)
  {
    hide OldestPending, Backlog, Held;
    match step
    case FinishReady(p, w, _) => assert ReadBy(s, p, w, s.procs[p].workers[w].snap.id);
    case _ =>
  }

  /** A worker with an open file had it open before, or has just opened it. */
  lemma ReadBefore(s: State, step: Step, limit: nat, p: int, w: int, id: FileId)
    requires Enabled(s, step, limit, Anytime) && ReadBy(Apply(s, step), p, w, id)
    ensures OwnedBy(s, p, w, id) && s.procs[p].workers[w].snap == Apply(s, step).procs[p].workers[w].snap
    ensures s.procs[p].workers[w].reading || (step == Open(p, w) && IsStaged(s, s.procs[p].workers[w].snap))
  {
    hide OldestPending, Backlog, RequeueAllowed;
  }

  /** Only a file that is there is opened. */
  lemma ReadersFaithful(s: State, step: Step, id: FileId, b: Path, limit: nat)
    requires Faithful(s, id, b) && Enabled(s, step, limit, Anytime) && b !in s.pushed
    ensures forall p, w :: ReadBy(Apply(s, step), p, w, id) ==>
              Apply(s, step).procs[p].workers[w].snap.row.source == Some(b)
  {
    hide Enabled, Apply;
    forall p, w | ReadBy(Apply(s, step), p, w, id)
      ensures OwnedBy(s, p, w, id) && s.procs[p].workers[w].snap.row.source == Some(b)
      ensures Apply(s, step).procs[p].workers[w].snap == s.procs[p].workers[w].snap
    {
      ReadBefore(s, step, limit, p, w, id);
      if s.procs[p].workers[w].reading {
        assert ReadBy(s, p, w, id);
      } else {
        assert HeldBy(s.procs[p], w, s.procs[p].workers[w].snap);
        assert HeldIn(s, p, s.procs[p].workers[w].snap);
      }
    }
  }

  lemma FaithfulKept(s: State, step: Step, id: FileId, b: Path, limit: nat)
    requires Faithful(s, id, b) && Enabled(s, step, limit, Anytime) && !(step.Requeue? && step.id == id)
    ensures Faithful(Apply(s, step), id, b)
  {
    hide Held, OldestPending, Backlog, RequeueAllowed;
    var t := Apply(s, step);
    RowFaithful(s, step, id, b, limit);
    if b !in t.pushed {
      StaysKnown(s, step, limit, Anytime);
      ReadersFaithful(s, step, id, b, limit);
      forall p, snap | HeldIn(t, p, snap) && snap.id == id
        ensures snap.row.source == Some(b) || IsGone(t, snap)
      {
        HeldBefore(s, step, limit, Anytime, p, snap);
        if Held(s.procs[p], snap) {
          assert HeldIn(s, p, snap);
        } else {
          FreshSnapshot(s, step, limit, snap);
        }
      }
    }
  }

  lemma FreshSnapshot(s: State, step: Step, limit: nat, snap: Snapshot)
    requires Enabled(s, step, limit, Anytime) && step.NextBatch? && snap in step.found
    ensures snap.id in s.rows && snap.row == s.rows[snap.id]
  {
  }

  lemma {:induction false} FaithfulThroughout(run: seq<State>, s: State, id: FileId, b: Path, limit: nat, i: nat)
    requires IsAftermath(run, s, id, limit) && Faithful(s, id, b) && i < |run|
    ensures Faithful(run[i], id, b)
  {
    if i > 0 {
      FaithfulThroughout(run, s, id, b, limit, i - 1);
      assert Follows(run[i - 1], run[i], id, limit);
      var step :| Enabled(run[i - 1], step, limit, Anytime) && run[i] == Apply(run[i - 1], step)
                  && !(step.Requeue? && step.id == id);
      FaithfulKept(run[i - 1], step, id, b, limit);
    }
  }

  lemma UnarmedIsSafe(s: State, id: FileId, b: Path, limit: nat)
    requires Known(s) && Enabled(s, Requeue(id, b), limit, Anytime) && !Armed(s, id)
    ensures !MayErase(Apply(s, Requeue(id, b)), id, b, limit)
  {
    hide Held;
    var t := Apply(s, Requeue(id, b));
    assert Faithful(t, id, b) by {
      forall p, w
        ensures !ReadBy(t, p, w, id)
      {
        assert !ReadBy(s, p, w, id);
      }
      forall p, snap | HeldIn(t, p, snap) && snap.id == id
        ensures IsGone(t, snap)
      {
        assert HeldIn(s, p, snap) && IsKnown(s, snap.row.source);
      }
    }
    forall run | IsAftermath(run, t, id, limit)
      ensures !Erased(run[|run| - 1], id, b)
    {
      FaithfulThroughout(run, t, id, b, limit, |run| - 1);
    }
  }

  // ---------- Armed: the old file can be pushed over the new one ----------

  /** Before an overwrite takes effect nobody knows its file. */
  ghost predicate Unheard(s: State, b: Path) {
    b !in s.pushed && forall p, snap :: HeldIn(s, p, snap) ==> snap.row.source != Some(b)
  }

  lemma LongerAftermath(s: State, step: Step, id: FileId, limit: nat, run: seq<State>) returns (longer: seq<State>)
    requires Enabled(s, step, limit, Anytime) && !step.Requeue? && IsAftermath(run, Apply(s, step), id, limit)
    ensures IsAftermath(longer, s, id, limit) && longer[|longer| - 1] == run[|run| - 1]
  {
    longer := [s] + run;
    assert Follows(s, run[0], id, limit);
    forall i | 0 <= i < |longer| - 1
      ensures Follows(longer[i], longer[i + 1], id, limit)
    {
      if i > 0 {
        assert Follows(run[i - 1], run[i], id, limit);
      }
    }
  }

  lemma OneMore(s: State, step: Step, id: FileId, b: Path, limit: nat)
    requires Enabled(s, step, limit, Anytime) && !step.Requeue? && MayErase(Apply(s, step), id, b, limit)
    ensures MayErase(s, id, b, limit)
  {
    var run :| IsAftermath(run, Apply(s, step), id, limit) && Erased(run[|run| - 1], id, b);
    var longer := LongerAftermath(s, step, id, limit, run);
  }

  lemma ReaderErases(s: State, p: nat, w: nat, id: FileId, b: Path, limit: nat)
    requires ReadBy(s, p, w, id) && id in s.rows && Unheard(s, b)
    ensures MayErase(s, id, b, limit)
  {
    var snap := s.procs[p].workers[w].snap;
    var t := Apply(s, FinishReady(p, w, 0));
    assert HeldBy(s.procs[p], w, snap) && HeldIn(s, p, snap);
    assert IsAftermath([t], t, id, limit) && Erased(t, id, b);
    OneMore(s, FinishReady(p, w, 0), id, b, limit);
  }

  /** No step but a read brings a snapshot of the new file. */
  lemma StaysUnheard(s: State, step: Step, b: Path, limit: nat)
    requires Unheard(s, b) && Enabled(s, step, limit, Anytime)
    requires step.Take? || step.Claim? || step.Open? || step.FinishRetry?
    ensures Unheard(Apply(s, step), b) && Apply(s, step).staged == s.staged
  {
    var t := Apply(s, step);
    forall p, snap | HeldIn(t, p, snap)
      ensures snap.row.source != Some(b)
    {
      HeldBefore(s, step, limit, Anytime, p, snap);
      assert HeldIn(s, p, snap);
    }
  }

  lemma OwnerErases(s: State, p: nat, w: nat, id: FileId, b: Path, limit: nat)
    requires OwnedBy(s, p, w, id) && id in s.rows && Unheard(s, b) && IsStaged(s, s.procs[p].workers[w].snap)
    ensures MayErase(s, id, b, limit)
  {
    if s.procs[p].workers[w].reading {
      ReaderErases(s, p, w, id, b, limit);
    } else {
      var t := Apply(s, Open(p, w));
      StaysUnheard(s, Open(p, w), b, limit);
      ReaderErases(t, p, w, id, b, limit);
      OneMore(s, Open(p, w), id, b, limit);
    }
  }

  lemma TakerErases(s: State, p: nat, w: nat, id: FileId, b: Path, limit: nat)
    requires At(s, p, w) && s.procs[p].workers[w].Taken? && s.procs[p].workers[w].snap.id == id
    requires IsPending(s.rows, id) && Unheard(s, b) && IsStaged(s, s.procs[p].workers[w].snap)
    ensures MayErase(s, id, b, limit)
  {
    var t := Apply(s, Claim(p, w));
    StaysUnheard(s, Claim(p, w), b, limit);
    OwnerErases(t, p, w, id, b, limit);
    OneMore(s, Claim(p, w), id, b, limit);
  }

  /**
   * Worker 0 gets rid of the job in its hands, and then the process works through the jobs before ours,
   * failing to push them.
   */
  lemma {:induction false} WaiterErases(s: State, p: nat, i: nat, id: FileId, b: Path, limit: nat)
    requires At(s, p, 0) && i < |s.procs[p].jobs| && s.procs[p].jobs[i].id == id && IsStaged(s, s.procs[p].jobs[i])
    requires !s.procs[p].workers[0].Idle? ==> s.procs[p].workers[0].snap.id != id
    requires forall j :: 0 <= j < i ==> s.procs[p].jobs[j].id != id
    requires IsPending(s.rows, id) && Unheard(s, b)
    ensures MayErase(s, id, b, limit)
    decreases i, match s.procs[p].workers[0] case Idle => 0 case Taken(_) => 2 case Owning(_, _) => 1
  {
    hide Held;
    match s.procs[p].workers[0]
    case Idle =>
      StaysUnheard(s, Take(p, 0), b, limit);
      var t := Apply(s, Take(p, 0));
      if i == 0 {
        TakerErases(t, p, 0, id, b, limit);
      } else {
        WaiterErases(t, p, i - 1, id, b, limit);
      }
      OneMore(s, Take(p, 0), id, b, limit);
    case Taken(_) =>
      StaysUnheard(s, Claim(p, 0), b, limit);
      WaiterErases(Apply(s, Claim(p, 0)), p, i, id, b, limit);
      OneMore(s, Claim(p, 0), id, b, limit);
    case Owning(_, _) =>
      StaysUnheard(s, FinishRetry(p, 0), b, limit);
      WaiterErases(Apply(s, FinishRetry(p, 0)), p, i, id, b, limit);
      OneMore(s, FinishRetry(p, 0), id, b, limit);
  }

  lemma HolderErases(s: State, procs: nat, p: nat, snap: Snapshot, id: FileId, b: Path, limit: nat)
    requires Shape(s, procs) && IsPending(s.rows, id) && Unheard(s, b)
    requires HeldIn(s, p, snap) && snap.id == id && IsStaged(s, snap)
    ensures MayErase(s, id, b, limit)
  {
    var proc := s.procs[p];
    assert ProcShape(proc, s.rows.Keys);
    if w :| HeldBy(proc, w, snap) {
      if proc.workers[w].Taken? {
        TakerErases(s, p, w, id, b, limit);
      } else {
        OwnerErases(s, p, w, id, b, limit);
      }
    } else {
      var i :| 0 <= i < |proc.jobs| && proc.jobs[i] == snap;
      WaiterErases(s, p, i, id, b, limit);
    }
  }

  /**
   * The code lets an overwrite put a row back into the queue at any time. In whatever state it does so,
   * the row can end up ready with the new file never pushed exactly when some worker is pushing the row
   * from an open file, or some process holds a snapshot of it whose file is still staged.
   */
  lemma OverwriteErasableWhen(s: State, id: FileId, b: Path, procs: nat, limit: nat, rule: RequeueRule)
    requires Reachable(s, procs, limit, rule) && Enabled(s, Requeue(id, b), limit, Anytime)
    ensures MayErase(Apply(s, Requeue(id, b)), id, b, limit) <==> Armed(s, id)
  {
    hide Held, Reachable;
    ReachableKnown(s, procs, limit, rule);
    if Armed(s, id) {
      var t := Apply(s, Requeue(id, b));
      ShapeKept(s, Requeue(id, b), procs, limit, Anytime);
      assert Unheard(t, b) by {
        forall p, snap | HeldIn(t, p, snap)
          ensures snap.row.source != Some(b)
        {
          assert HeldIn(s, p, snap);
        }
      }
      if p, w :| ReadBy(s, p, w, id) {
        assert ReadBy(t, p, w, id);
        ReaderErases(t, p, w, id, b, limit);
      } else {
        var p, snap :| HeldIn(s, p, snap) && snap.id == id && IsStaged(s, snap);
        assert HeldIn(t, p, snap) && IsStaged(t, snap);
        HolderErases(t, procs, p, snap, id, b, limit);
      }
    } else {
      UnarmedIsSafe(s, id, b, limit);
    }
  }

  lemma ReachableKnown(s: State, procs: nat, limit: nat, rule: RequeueRule)
    requires Reachable(s, procs, limit, rule)
    ensures Shape(s, procs) && Known(s)
  {
    var run :| IsRun(run, procs, limit, rule) && run[|run| - 1] == s;
    RunShape(run, procs, limit, rule, |run| - 1);
    RunKnown(run, procs, limit, rule, |run| - 1);
  }

  /** Nobody watching is enough: nothing is armed. */
  lemma UnwatchedIsUnarmed(s: State, id: FileId)
    requires NobodyWatches(s, id)
    ensures !Armed(s, id)
  {
    forall p, snap | HeldIn(s, p, snap)
      ensures snap.id != id
    {
      HeldIsWatched(s, p, snap);
    }
    assert forall p, w :: !OwnedBy(s, p, w, id);
  }
}
