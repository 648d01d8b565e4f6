/** The drain's remaining invariants, and the theorems over whole runs. */
module DrainRuns {
  import opened Common
  import opened PendingStore
  import opened DrainMachine
  import opened DrainSafety
  import opened DrainBudget

  // ---------- The staging backlog ----------

  /** Completions past their check still have room for a full-sized file each, growth past the check apart. */
  ghost predicate BacklogBound(s: State, limit: nat) {
    && s.checked <= limit
    && (forall id :: id in s.rows ==> s.rows[id].size <= MAX_UPLOAD_SIZE)
    && Backlog(s.rows) + s.checked * MAX_UPLOAD_SIZE < MAX_PENDING_UPLOAD_BACKLOG + limit * MAX_UPLOAD_SIZE + s.grown
  }

  /** Claiming a row, and reverting a claimed one, leave the backlog figure unchanged. */
  lemma ClaimAndRevertKeepBacklog(rows: Rows, id: FileId, now: Time)
    ensures Backlog(Claimed(rows, id, now)) == Backlog(rows)
    ensures IsUploading(rows, id) ==> Backlog(WithStatus(rows, id, Pending, now)) == Backlog(rows)
  {
    if id in rows {
      BacklogUpdate(rows, id, Claimed(rows, id, now)[id]);
      BacklogUpdate(rows, id, WithStatus(rows, id, Pending, now)[id]);
      assert !IsPending(rows, id) ==> Claimed(rows, id, now) == rows;
    }
  }

  /** A step on one row that frees at least what it takes keeps the bound. */
  lemma RowBacklog(s: State, t: State, id: FileId, limit: nat)
    requires BacklogBound(s, limit) && id in t.rows && t.rows == s.rows[id := t.rows[id]]
    requires t.rows[id].size <= MAX_UPLOAD_SIZE && t.checked <= s.checked
    requires Staged(t.rows[id]) + t.checked * MAX_UPLOAD_SIZE + s.grown <=
             (if id in s.rows then Staged(s.rows[id]) else 0) + s.checked * MAX_UPLOAD_SIZE + t.grown
    ensures BacklogBound(t, limit)
  {
    BacklogUpdate(s.rows, id, t.rows[id]);
  }

  /** The workers' own writes free what they take, or are put down as growth. */
  lemma WorkKeepsBacklog(s: State, step: Step, procs: nat, limit: nat, rule: RequeueRule)
    requires Shape(s, procs) && BacklogBound(s, limit)
    requires Enabled(s, step, limit, rule) && (step.Claim? || step.FinishReady? || step.FinishRetry?)
    ensures BacklogBound(Apply(s, step), limit)
  {
    var t := Apply(s, step);
    var id := s.procs[step.p].workers[step.w].snap.id;
    if step.Claim? {
      if IsPending(s.rows, id) { RowBacklog(s, t, id, limit); }
    } else {
      assert ProcShape(s.procs[step.p], s.rows.Keys) && id in s.rows;
      RowBacklog(s, t, id, limit);
    }
  }

  lemma BacklogKept(s: State, step: Step, procs: nat, limit: nat, rule: RequeueRule)
    requires Shape(s, procs) && BacklogBound(s, limit) && Enabled(s, step, limit, rule)
    ensures BacklogBound(Apply(s, step), limit)
  {
    hide ProcShape, OldestPending, RequeueAllowed;
    var t := Apply(s, step);
    match step
    case Claim(_, _) => WorkKeepsBacklog(s, step, procs, limit, rule);
    case FinishReady(_, _, _) => WorkKeepsBacklog(s, step, procs, limit, rule);
    case FinishRetry(_, _) => WorkKeepsBacklog(s, step, procs, limit, rule);
    case Enqueue(id, _, _) => RowBacklog(s, t, id, limit);
    case Requeue(id, _) => RowBacklog(s, t, id, limit);
    case DirectUpload(id, _) => RowBacklog(s, t, id, limit);
    case Overwrite(id, _) => RowBacklog(s, t, id, limit);
    case Touch(id) => RowBacklog(s, t, id, limit);
    case _ => assert t.rows == s.rows;
  }

  /**
   * The limit the backlog check is meant to keep, without allowance for overwrites: one full-sized file
   * for each completion that may be past its check.
   */
  ghost predicate BelowLimit(s: State, limit: nat) {
    Backlog(s.rows) + s.checked * MAX_UPLOAD_SIZE < MAX_PENDING_UPLOAD_BACKLOG + limit * MAX_UPLOAD_SIZE
  }

  predicate Queued(rows: Rows, id: FileId) { IsPending(rows, id) || IsUploading(rows, id) }

  /**
   * The two steps that no backlog check precedes: a direct overwrite of a queued row has to fit, and so
   * has a settled row that a worker puts back because it was overwritten behind its back.
   */
  ghost predicate Fits(s: State, step: Step, limit: nat) {
    var room := MAX_PENDING_UPLOAD_BACKLOG + limit * MAX_UPLOAD_SIZE - s.checked * MAX_UPLOAD_SIZE;
    match step
    case Overwrite(id, size) => Queued(s.rows, id) ==> Backlog(s.rows) - s.rows[id].size + size < room
    case FinishRetry(p, w) =>
      At(s, p, w) && !s.procs[p].workers[w].Idle? ==>
        var snap := s.procs[p].workers[w].snap;
        snap.id in s.rows && !Queued(s.rows, snap.id) && !LastTry(snap) ==>
          Backlog(s.rows) + s.rows[snap.id].size < room
    case _ => true
  }

  lemma UncheckedStep(s: State, step: Step, procs: nat, limit: nat, rule: RequeueRule)
    requires Shape(s, procs) && BelowLimit(s, limit) && Enabled(s, step, limit, rule)
    requires step.Overwrite? || step.FinishRetry?
    ensures BelowLimit(Apply(s, step), limit) <==> Fits(s, step, limit)
  {
    hide OldestPending, RequeueAllowed;
    var t := Apply(s, step);
    match step
    case Overwrite(id, _) => BacklogUpdate(s.rows, id, t.rows[id]);
    case FinishRetry(p, w) =>
      var id := s.procs[p].workers[w].snap.id;
      assert ProcShape(s.procs[p], s.rows.Keys) && id in s.rows;
      BacklogUpdate(s.rows, id, t.rows[id]);
  }

  /** To the other steps the allowance for growth does not matter. */
  lemma CheckedStep(s: State, plain: State, step: Step, procs: nat, limit: nat, rule: RequeueRule)
    requires Shape(s, procs) && Enabled(s, step, limit, rule) && !step.Overwrite? && !step.FinishRetry?
    requires plain == s.(grown := 0)
    ensures Shape(plain, procs) && Enabled(plain, step, limit, rule)
    ensures Apply(plain, step).rows == Apply(s, step).rows && Apply(plain, step).checked == Apply(s, step).checked
    ensures Apply(plain, step).grown == 0
  {
    hide IdsOf, NewOnes;
    hide ProcShape, OldestPending, Backlog;
    assert forall p, w, id :: OwnedBy(plain, p, w, id) <==> OwnedBy(s, p, w, id);
  }

  /** A step keeps the limit exactly when it fits, and every step that a backlog check precedes does. */
  lemma LimitKeptWhen(s: State, step: Step, procs: nat, limit: nat, rule: RequeueRule)
    requires Shape(s, procs) && s.checked <= limit && BelowLimit(s, limit) && Enabled(s, step, limit, rule)
    requires forall id :: id in s.rows ==> s.rows[id].size <= MAX_UPLOAD_SIZE
    ensures BelowLimit(Apply(s, step), limit) <==> Fits(s, step, limit)
  {
    if step.Overwrite? || step.FinishRetry? {
      UncheckedStep(s, step, procs, limit, rule);
    } else {
      hide Shape, Enabled, Apply;
      var plain := s.(grown := 0);
      CheckedStep(s, plain, step, procs, limit, rule);
      BacklogKept(plain, step, procs, limit, rule);
    }
  }

  // ---------- What a drain owes the rows it found pending ----------

  /**
   * While its claim statements get through, a running drain keeps three promises: each row pending at
   * its start has been claimed since, or is still pending, and then renewed since or untouched; each row
   * waiting in its batch has been claimed since or is still pending; and each row it tried has been
   * claimed since or is still waiting.
   */
  ghost predicate OnTrack(s: State, proc: Proc) {
    proc.running && proc.clean ==>
      && proc.startedAt <= s.clock
      && (forall id :: id in proc.owed && !s.past.ClaimedSince(id, proc.startedAt) ==>
            IsPending(s.rows, id) &&
            (s.past.RenewedSince(id, proc.startedAt) || s.rows[id].updatedAt <= proc.startedAt))
      && (forall id :: Waiting(proc, id) && !s.past.ClaimedSince(id, proc.startedAt) ==> IsPending(s.rows, id))
      && (forall id :: id in proc.attempted && !s.past.ClaimedSince(id, proc.startedAt) ==> Waiting(proc, id))
  }

  /** A claim's stamp is never younger than the row's own. */
  ghost predicate Stamped(s: State) {
    && (forall id :: id in s.past.claims ==> id in s.rows && s.past.claims[id] <= s.rows[id].updatedAt)
    && (forall id :: id in s.past.renewals ==> s.past.renewals[id] <= s.clock)
  }

  ghost predicate Progress(s: State) {
    Stamped(s) && forall p :: 0 <= p < |s.procs| ==> OnTrack(s, s.procs[p])
  }

  ghost predicate Later(s: State, t: State) {
    Onward(s.rows, s.clock, s.past, t.rows, t.clock, t.past)
  }

  /** Writing one row, with the claim or renewal of a pending one on record. */
  lemma WriteIsLater(s: State, t: State, id: FileId)
    requires Stamped(s) && (forall i :: i in s.rows ==> s.rows[i].updatedAt <= s.clock)
    requires t.clock == s.clock + 1 && id in t.rows && t.rows[id].updatedAt == t.clock
    requires t.rows == s.rows[id := t.rows[id]]
    requires t.past == s.past || t.past == s.past.(claims := s.past.claims[id := t.clock]) ||
             t.past == s.past.(renewals := s.past.renewals[id := t.clock])
    requires IsPending(s.rows, id) ==>
               t.past.ClaimedSince(id, s.clock) || (IsPending(t.rows, id) && t.past.RenewedSince(id, s.clock))
    ensures Later(s, t) && Stamped(t)
  {
  }

  /** The workers' own writes. */
  lemma WorkIsLater(s: State, step: Step, procs: nat, limit: nat, rule: RequeueRule)
    requires Shape(s, procs) && Progress(s)
    requires Enabled(s, step, limit, rule) && (step.Claim? || step.FinishReady? || step.FinishRetry?)
    ensures Later(s, Apply(s, step)) && Stamped(Apply(s, step))
  {
    var t := Apply(s, step);
    var id := s.procs[step.p].workers[step.w].snap.id;
    if step.Claim? {
      if IsPending(s.rows, id) { WriteIsLater(s, t, id); }
    } else {
      assert ProcShape(s.procs[step.p], s.rows.Keys) && id in s.rows;
      WriteIsLater(s, t, id);
    }
  }

  /** Every step, by whichever process or handler, moves the queue onward: what the drain loop relies on. */
  lemma StepIsLater(s: State, step: Step, procs: nat, limit: nat, rule: RequeueRule)
    requires Shape(s, procs) && Progress(s) && Enabled(s, step, limit, rule)
    ensures Later(s, Apply(s, step)) && Stamped(Apply(s, step))
  {
    var t := Apply(s, step);
    match step
    case Claim(_, _) => WorkIsLater(s, step, procs, limit, rule);
    case FinishReady(_, _, _) => WorkIsLater(s, step, procs, limit, rule);
    case FinishRetry(_, _) => WorkIsLater(s, step, procs, limit, rule);
    case Enqueue(id, _, _) => WriteIsLater(s, t, id);
    case Requeue(id, _) => WriteIsLater(s, t, id);
    case DirectUpload(id, _) => WriteIsLater(s, t, id);
    case Overwrite(id, _) => WriteIsLater(s, t, id);
    case Touch(id) => WriteIsLater(s, t, id);
    case _ => assert t.rows == s.rows && t.past == s.past;
  }

  /** A process that keeps its snapshots waiting stays on track whatever the others do. */
  lemma OnTrackLater(s: State, t: State, proc: Proc, proc': Proc)
    requires OnTrack(s, proc) && Later(s, t)
    requires proc'.running && proc'.clean ==> proc.running && proc.clean
    requires proc'.startedAt == proc.startedAt && proc'.owed == proc.owed && proc'.attempted == proc.attempted
    requires proc'.running && proc'.clean ==>
               forall id :: Waiting(proc, id) ==> Waiting(proc', id) || t.past.ClaimedSince(id, proc.startedAt)
    requires forall id :: Waiting(proc', id) ==> Waiting(proc, id)
    ensures OnTrack(t, proc')
  {
  }

  lemma TakeWaits(proc: Proc, w: nat, id: FileId)
    requires w < |proc.workers| && proc.workers[w].Idle? && proc.jobs != [] && Waiting(proc, id)
    ensures Waiting(proc.(jobs := proc.jobs[1..], workers := proc.workers[w := Taken(proc.jobs[0])]), id)
  {
    var after := proc.(jobs := proc.jobs[1..], workers := proc.workers[w := Taken(proc.jobs[0])]);
    if i :| 0 <= i < |proc.jobs| && proc.jobs[i].id == id {
      if i == 0 {
        assert after.workers[w].Taken? && after.workers[w].snap.id == id;
      } else {
        assert after.jobs[i - 1].id == id;
      }
    } else {
      var v :| 0 <= v < |proc.workers| && proc.workers[v].Taken? && proc.workers[v].snap.id == id;
      assert after.workers[v].Taken? && after.workers[v].snap.id == id;
    }
  }

  /** Replacing one worker leaves every row waiting that it was not itself waiting on. */
  lemma WorkerWaits(proc: Proc, w: nat, worker: Worker)
    requires w < |proc.workers| && !worker.Taken?
    ensures var after := proc.(workers := proc.workers[w := worker]);
            forall id :: Waiting(proc, id) && !(proc.workers[w].Taken? && proc.workers[w].snap.id == id) ==>
              Waiting(after, id)
    ensures var after := proc.(workers := proc.workers[w := worker]);
            forall id :: Waiting(after, id) ==> Waiting(proc, id)
  {
    var after := proc.(workers := proc.workers[w := worker]);
    forall id | Waiting(proc, id) && !(proc.workers[w].Taken? && proc.workers[w].snap.id == id)
      ensures Waiting(after, id)
    {
      if i :| 0 <= i < |proc.jobs| && proc.jobs[i].id == id {
        assert after.jobs[i].id == id;
      } else {
        var v :| 0 <= v < |proc.workers| && proc.workers[v].Taken? && proc.workers[v].snap.id == id;
        assert after.workers[v].Taken? && after.workers[v].snap.id == id;
      }
    }
  }

  /** The batch's candidates wait in its jobs; rows tried earlier were claimed. */
  lemma BatchOnTrack(s: State, proc: Proc, found: seq<Snapshot>)
    requires OnTrack(s, proc) && proc.workers == [] && proc.jobs == []
    requires OldestPending(s.rows, PENDING_UPLOAD_BATCH_SIZE, found)
    ensures OnTrack(s, NextBatchOf(proc, found))
  {
    var after := NextBatchOf(proc, found);
    var batch := NewOnes(found, proc.attempted);
    forall id | id in IdsOf(batch) && batch != []
      ensures Waiting(after, id)
    {
      var i :| 0 <= i < |batch| && batch[i].id == id;
      assert after.jobs[i].id == id;
    }
    assert forall id :: !Waiting(proc, id);
    forall id | Waiting(after, id)
      ensures IsPending(s.rows, id)
    {
      var i :| 0 <= i < |after.jobs| && after.jobs[i].id == id;
      assert after.jobs[i] in found;
    }
  }

  lemma TakeOnTrack(s: State, p: nat, w: nat)
    requires At(s, p, w) && s.procs[p].workers[w].Idle? && s.procs[p].jobs != [] && OnTrack(s, s.procs[p])
    ensures OnTrack(Apply(s, Take(p, w)), Apply(s, Take(p, w)).procs[p])
  {
    var proc, proc' := s.procs[p], Apply(s, Take(p, w)).procs[p];
    forall id | Waiting(proc, id)
      ensures Waiting(proc', id)
    {
      TakeWaits(proc, w, id);
    }
    forall id | Waiting(proc', id)
      ensures Waiting(proc, id)
    {
      if i :| 0 <= i < |proc'.jobs| && proc'.jobs[i].id == id {
        assert proc.jobs[i + 1].id == id;
      } else {
        var v :| 0 <= v < |proc'.workers| && proc'.workers[v].Taken? && proc'.workers[v].snap.id == id;
        assert v == w ==> proc.jobs[0].id == id;
        assert v != w ==> proc.workers[v].Taken? && proc.workers[v].snap.id == id;
      }
    }
    OnTrackLater(s, Apply(s, Take(p, w)), proc, proc');
  }

  /** A worker that claims, loses or finishes a row: a lost claim means another process had it first. */
  lemma WorkerOnTrack(s: State, step: Step, p: nat, w: nat)
    requires At(s, p, w) && OnTrack(s, s.procs[p]) && Later(s, Apply(s, step))
    requires (step == Claim(p, w) && s.procs[p].workers[w].Taken?)
             || ((step in {Open(p, w), FinishRetry(p, w), FinishLost(p, w)} ||
                  (step.FinishReady? && step.p == p && step.w == w))
                 && s.procs[p].workers[w].Owning?)
    ensures OnTrack(Apply(s, step), Apply(s, step).procs[p])
  {
    var t := Apply(s, step);
    var proc := s.procs[p];
    WorkerWaits(proc, w, t.procs[p].workers[w]);
    assert t.procs[p] == proc.(workers := proc.workers[w := t.procs[p].workers[w]]);
    if step.Claim? {
      assert Waiting(proc, proc.workers[w].snap.id);
    }
    OnTrackLater(s, t, proc, t.procs[p]);
  }

  lemma StartOnTrack(s: State, procs: nat, p: nat)
    requires Shape(s, procs) && p < procs
    ensures OnTrack(Apply(s, Start(p)), Apply(s, Start(p)).procs[p])
  {
    assert forall id :: !Waiting(Apply(s, Start(p)).procs[p], id);
  }

  lemma EndBatchOnTrack(s: State, p: nat)
    requires p < |s.procs| && OnTrack(s, s.procs[p]) && s.procs[p].jobs == [] && AllIdle(s.procs[p])
    ensures OnTrack(Apply(s, EndBatch(p)), Apply(s, EndBatch(p)).procs[p])
  {
    assert forall id :: !Waiting(s.procs[p], id) && !Waiting(Apply(s, EndBatch(p)).procs[p], id);
  }

  lemma NextBatchOnTrack(s: State, p: nat, found: seq<Snapshot>)
    requires p < |s.procs| && OnTrack(s, s.procs[p]) && s.procs[p].workers == [] && s.procs[p].jobs == []
    requires OldestPending(s.rows, PENDING_UPLOAD_BATCH_SIZE, found)
    ensures OnTrack(Apply(s, NextBatch(p, found)), Apply(s, NextBatch(p, found)).procs[p])
  {
    BatchOnTrack(s, s.procs[p], found);
    OnTrackLater(s, Apply(s, NextBatch(p, found)), NextBatchOf(s.procs[p], found), NextBatchOf(s.procs[p], found));
  }

  /** A drain that has ended, or lost a claim statement, promises nothing. */
  lemma NoPromise(s: State, step: Step, p: nat)
    requires p < |s.procs|
    requires step in {Abort(p), Cancel(p), Crash(p)} || (step.ClaimError? && step.p == p && At(s, p, step.w))
    ensures OnTrack(Apply(s, step), Apply(s, step).procs[p])
  {
    assert !Apply(s, step).procs[p].running || !Apply(s, step).procs[p].clean;
  }

  /** The process that a step changes, -1 when none. */
  function Actor(step: Step): int {
    match step
    case Start(p) => p
    case NextBatch(p, _) => p
    case Abort(p) => p
    case Take(p, _) => p
    case Claim(p, _) => p
    case ClaimError(p, _) => p
    case Open(p, _) => p
    case FinishReady(p, _, _) => p
    case FinishRetry(p, _) => p
    case FinishLost(p, _) => p
    case EndBatch(p) => p
    case Cancel(p) => p
    case Crash(p) => p
    case _ => -1
  }

  lemma ActorOnTrack(s: State, step: Step, procs: nat, limit: nat, rule: RequeueRule, p: nat)
    requires Shape(s, procs) && p < procs && OnTrack(s, s.procs[p])
    requires Enabled(s, step, limit, rule) && Later(s, Apply(s, step)) && Actor(step) == p
    ensures OnTrack(Apply(s, step), Apply(s, step).procs[p])
  {
    match step
    case NextBatch(_, found) => NextBatchOnTrack(s, p, found);
    case Take(_, w) => TakeOnTrack(s, p, w);
    case Claim(_, w) => WorkerOnTrack(s, step, p, w);
    case Open(_, w) => WorkerOnTrack(s, step, p, w);
    case FinishReady(_, w, _) => WorkerOnTrack(s, step, p, w);
    case FinishRetry(_, w) => WorkerOnTrack(s, step, p, w);
    case FinishLost(_, w) => WorkerOnTrack(s, step, p, w);
    case Start(_) => StartOnTrack(s, procs, p);
    case EndBatch(_) => EndBatchOnTrack(s, p);
    case _ => NoPromise(s, step, p);
  }

  lemma ProgressKept(s: State, step: Step, procs: nat, limit: nat, rule: RequeueRule)
    requires Shape(s, procs) && Progress(s) && Enabled(s, step, limit, rule)
    ensures Progress(Apply(s, step))
  {
    var t := Apply(s, step);
    StepIsLater(s, step, procs, limit, rule);
    forall p | 0 <= p < procs
      ensures OnTrack(t, t.procs[p])
    {
      if Actor(step) == p {
        ActorOnTrack(s, step, procs, limit, rule, p);
      } else {
        OnTrackLater(s, t, s.procs[p], s.procs[p]);
      }
    }
  }

  predicate AllTried(proc: Proc, found: seq<Snapshot>) {
    forall i :: 0 <= i < |found| ==> found[i].id in proc.attempted
  }

  /** The row waits behind twenty older ones that the drain has tried, and it was given its stamp meanwhile. */
  ghost predicate PassedOver(s: State, proc: Proc, found: seq<Snapshot>, id: FileId) {
    && IsPending(s.rows, id) && s.past.RenewedSince(id, proc.startedAt) && id !in proc.attempted
    && |found| == PENDING_UPLOAD_BATCH_SIZE && AllTried(proc, found)
    && forall i :: 0 <= i < |found| ==> found[i].row.updatedAt <= s.rows[id].updatedAt
  }

  /**
   * A drain that ends on its own, with every claim statement answered, ends only after every row it
   * tried has been claimed since, and so has every row pending at its start unless it is passed over: an
   * untouched row cannot be, for the rows tried carry younger stamps.
   */
  lemma DrainLeavesNothing(s: State, p: nat, found: seq<Snapshot>, procs: nat, limit: nat, rule: RequeueRule)
    requires Shape(s, procs) && Progress(s) && Enabled(s, NextBatch(p, found), limit, rule)
    requires s.procs[p].clean && !Apply(s, NextBatch(p, found)).procs[p].running
    ensures forall id :: id in s.procs[p].attempted ==> s.past.ClaimedSince(id, s.procs[p].startedAt)
    ensures forall id :: id in s.procs[p].owed ==>
              s.past.ClaimedSince(id, s.procs[p].startedAt) || PassedOver(s, s.procs[p], found, id)
  {
    hide ProcShape;
    var proc := s.procs[p];
    NoneNew(found, proc.attempted);
    assert forall id :: !Waiting(proc, id);
    assert OnTrack(s, proc);
    forall id | id in proc.owed && !s.past.ClaimedSince(id, proc.startedAt)
      ensures PassedOver(s, proc, found, id)
    {
      assert forall i :: 0 <= i < |found| ==> found[i].id != id;
      assert id !in IdsOf(found);
      assert found[0].id in proc.attempted && s.past.ClaimedSince(found[0].id, proc.startedAt);
    }
  }

  /** Each pass that does not end the drain tries a row it had not tried before. */
  lemma PassTriesNewRow(s: State, p: nat, found: seq<Snapshot>, procs: nat, limit: nat, rule: RequeueRule)
    requires Shape(s, procs) && Enabled(s, NextBatch(p, found), limit, rule)
    ensures var t := Apply(s, NextBatch(p, found));
            t.procs[p].running ==>
              s.procs[p].attempted < t.procs[p].attempted <= s.rows.Keys && t.procs[p].passes == s.procs[p].passes + 1
  {
    var batch := NewOnes(found, s.procs[p].attempted);
    if batch != [] {
      assert batch[0].id in IdsOf(batch) && batch[0].id !in s.procs[p].attempted;
      BatchShape(s.procs[p], s.rows, found);
    }
  }

  // ---------- Whole runs ----------

  ghost predicate Invariant(s: State, procs: nat, limit: nat) {
    Shape(s, procs) && BacklogBound(s, limit) && Progress(s)
  }

  lemma InitKeeps(s: State, procs: nat, limit: nat)
    requires Init(s, procs)
    ensures Invariant(s, procs, limit)
  {
  }

  lemma {:induction false} RunKeeps(run: seq<State>, procs: nat, limit: nat, rule: RequeueRule, i: nat)
    requires IsRun(run, procs, limit, rule) && i < |run|
    ensures Invariant(run[i], procs, limit)
  {
    hide Enabled, Apply, ProcShape, Backlog;
    if i > 0 {
      RunKeeps(run, procs, limit, rule, i - 1);
      assert Next(run[i - 1], run[i], limit, rule);
      var step :| Enabled(run[i - 1], step, limit, rule) && run[i] == Apply(run[i - 1], step);
      ShapeKept(run[i - 1], step, procs, limit, rule);
      BacklogKept(run[i - 1], step, procs, limit, rule);
      ProgressKept(run[i - 1], step, procs, limit, rule);
    } else {
      InitKeeps(run[0], procs, limit);
    }
  }

  lemma ReachableKeeps(s: State, procs: nat, limit: nat, rule: RequeueRule)
    requires Reachable(s, procs, limit, rule)
    ensures Invariant(s, procs, limit)
  {
    var run :| IsRun(run, procs, limit, rule) && run[|run| - 1] == s;
    RunKeeps(run, procs, limit, rule, |run| - 1);
  }

  /**
   * Every reachable state, for any number of processes and any crashes, errors, cancellations,
   * overwrites and writes by others.
   */
  lemma DrainTheorem(s: State, procs: nat, limit: nat, rule: RequeueRule)
    requires Reachable(s, procs, limit, rule) && procs > 0
    ensures |s.procs| == procs
    // The retry budget: 5 for one process, one more for each other process.
    ensures forall id :: id in s.rows ==> s.rows[id].attempts <= MAX_UPLOAD_ATTEMPTS + procs - 1
    // The staging backlog, up to what it has grown past its check.
    ensures Backlog(s.rows) < MAX_PENDING_UPLOAD_BACKLOG + limit * MAX_UPLOAD_SIZE + s.grown
    // No drain makes more passes than there are rows.
    ensures forall p :: 0 <= p < procs ==> s.procs[p].passes <= |s.rows|
    // What a drain still owes: untouched rows, until it ends.
    ensures forall p :: 0 <= p < procs ==> OnTrack(s, s.procs[p])
    // One owner per uploading row, unless it is stranded, while overwrites keep off rows being pushed.
    ensures !rule.Anytime? ==>
              (forall id :: IsUploading(s.rows, id) && id !in s.stranded ==> exists p, w :: OwnedBy(s, p, w, id)) &&
              forall p, w, q, v, id :: OwnedBy(s, p, w, id) && OwnedBy(s, q, v, id) ==> p == q && w == v
  {
    hide Reachable, ProcShape, OnTrack;
    ReachableKeeps(s, procs, limit, rule);
    forall id | id in s.rows
      ensures s.rows[id].attempts <= MAX_UPLOAD_ATTEMPTS + procs - 1
    {
      TriesBounded(s, procs, limit, rule, id);
    }
    forall p | 0 <= p < procs
      ensures s.procs[p].passes <= |s.rows|
    {
      PassesBounded(s, procs, limit, rule, p);
    }
    if !rule.Anytime? {
      OwnedThroughout(s, procs, limit, rule);
    }
  }

  /** In every run: a drain that ends on its own has seen every row it owed claimed, or passes it over. */
  lemma DrainCompletes(s: State, p: nat, found: seq<Snapshot>, procs: nat, limit: nat, rule: RequeueRule)
    requires Reachable(s, procs, limit, rule) && Enabled(s, NextBatch(p, found), limit, rule)
    requires s.procs[p].clean && !Apply(s, NextBatch(p, found)).procs[p].running
    ensures forall id :: id in s.procs[p].attempted ==> s.past.ClaimedSince(id, s.procs[p].startedAt)
    ensures forall id :: id in s.procs[p].owed ==>
              s.past.ClaimedSince(id, s.procs[p].startedAt) || PassedOver(s, s.procs[p], found, id)
  {
    ReachableKeeps(s, procs, limit, rule);
    DrainLeavesNothing(s, p, found, procs, limit, rule);
  }

  /**
   * Between two batches, with every claim statement answered and a row pending at the start not yet
   * claimed: the drain ends there exactly when the query fills up with rows it has tried.
   */
  lemma DrainEndsWhen(s: State, p: nat, found: seq<Snapshot>, id: FileId,
                      procs: nat, limit: nat, rule: RequeueRule)
    requires Reachable(s, procs, limit, rule) && Enabled(s, NextBatch(p, found), limit, rule)
    requires s.procs[p].clean && id in s.procs[p].owed && !s.past.ClaimedSince(id, s.procs[p].startedAt)
    ensures !Apply(s, NextBatch(p, found)).procs[p].running <==>
            |found| == PENDING_UPLOAD_BATCH_SIZE && AllTried(s.procs[p], found)
  {
    hide Reachable;
    NoneNew(found, s.procs[p].attempted);
    if !Apply(s, NextBatch(p, found)).procs[p].running {
      DrainCompletes(s, p, found, procs, limit, rule);
    }
  }
}
