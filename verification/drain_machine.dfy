/**
 * The pending-upload drain as a state machine: several processes, each with one drain at a time and a
 * pool of workers, race for rows through the atomic claim while uploads keep arriving.
 */
module DrainMachine {
  import opened Common
  import opened PendingStore

  /**
   * A worker between jobs, holding a job it has not claimed yet, or pushing a row it has claimed, with or
   * without having opened the staged file that its snapshot names. An open file outlives its removal.
   */
  datatype Worker = Idle | Taken(snap: Snapshot) | Owning(snap: Snapshot, reading: bool)

  /**
   * One process. `jobs` and `workers` belong to the batch in progress. The last four fields are
   * history: passes made, when the drain began, the rows pending then, and whether every claim
   * statement since then reached the database.
   */
  datatype Proc = Proc(running: bool, attempted: set<FileId>, jobs: seq<Snapshot>, workers: seq<Worker>,
                       passes: nat, startedAt: Time, owed: set<FileId>, clean: bool)

  const STOPPED := Proc(false, {}, [], [], 0, 0, {}, true)

  /**
   * `checked` counts completions between their backlog check and their enqueue, `staged` is what lies in
   * the staging directory. The other extra fields are history: claims and renewals, rows left uploading
   * with nobody working on them, the staged files whose push was recorded, and the bytes by which the
   * backlog has grown past its check: direct overwrites of queued rows, and settled rows that a worker
   * put back after they were overwritten behind its back.
   */
  datatype State = State(rows: Rows, clock: Time, procs: seq<Proc>, checked: nat, staged: set<Path>,
                         past: History, stranded: set<FileId>, pushed: set<Path>, grown: nat)

  /**
   * When a chunked overwrite may put an existing row back into the queue. The code's rule is Anytime;
   * Unowned keeps off rows a worker is pushing, Unwatched also off rows a process is about to claim.
   */
  datatype RequeueRule = Anytime | Unowned | Unwatched

  datatype Step =
    | Start(p: nat)
    | NextBatch(p: nat, found: seq<Snapshot>)
    | Abort(p: nat)
    | Take(p: nat, w: nat)
    | Claim(p: nat, w: nat)
    | ClaimError(p: nat, w: nat)
    | Open(p: nat, w: nat)
    | FinishReady(p: nat, w: nat, size: nat)
    | FinishRetry(p: nat, w: nat)
    | FinishLost(p: nat, w: nat)
    | EndBatch(p: nat)
    | Cancel(p: nat)
    | Crash(p: nat)
    | Clear(file: Path)
    | CheckBacklog
    | Leave
    | Enqueue(id: FileId, source: Path, size: nat)
    | Requeue(id: FileId, source: Path)
    | DirectUpload(id: FileId, size: nat)
    | Overwrite(id: FileId, size: nat)
    | Touch(id: FileId)

  // ---------- Helpers over one process ----------

  predicate AllIdle(proc: Proc) {
    forall w :: 0 <= w < |proc.workers| ==> proc.workers[w].Idle?
  }

  /** Some snapshot of the row is waiting in the process, not yet claimed. */
  predicate Waiting(proc: Proc, id: FileId) {
    || (exists i :: 0 <= i < |proc.jobs| && proc.jobs[i].id == id)
    || (exists w :: 0 <= w < |proc.workers| && proc.workers[w].Taken? && proc.workers[w].snap.id == id)
  }

  predicate Owns(proc: Proc, w: int, id: FileId) {
    0 <= w < |proc.workers| && proc.workers[w].Owning? && proc.workers[w].snap.id == id
  }

  ghost predicate OwnedBy(s: State, p: int, w: int, id: FileId) {
    0 <= p < |s.procs| && Owns(s.procs[p], w, id)
  }

  /** No worker is pushing the row. */
  ghost predicate NobodyOwns(s: State, id: FileId) {
    forall p, w :: !OwnedBy(s, p, w, id)
  }

  /** No worker is pushing the row, and no process has it in hand to claim it. */
  ghost predicate NobodyWatches(s: State, id: FileId) {
    NobodyOwns(s, id) && forall p :: 0 <= p < |s.procs| ==> !Waiting(s.procs[p], id)
  }

  function OwnedIds(proc: Proc): set<FileId> {
    set w | 0 <= w < |proc.workers| && proc.workers[w].Owning? :: proc.workers[w].snap.id
  }

  /** nextPendingBatch: candidates not yet tried in this drain, in query order. */
  function NewOnes(found: seq<Snapshot>, attempted: set<FileId>): (batch: seq<Snapshot>)
    ensures forall i :: 0 <= i < |batch| ==> batch[i] in found && batch[i].id !in attempted
    ensures forall i :: 0 <= i < |found| && found[i].id !in attempted ==> found[i] in batch
  {
    if found == [] then []
    else if found[0].id in attempted then NewOnes(found[1..], attempted)
    else [found[0]] + NewOnes(found[1..], attempted)
  }

  lemma {:induction false} NewOnesAll(found: seq<Snapshot>)
    ensures NewOnes(found, {}) == found
  {
    if found != [] {
      NewOnesAll(found[1..]);
    }
  }

  lemma {:induction false} NoneNew(found: seq<Snapshot>, attempted: set<FileId>)
    ensures NewOnes(found, attempted) == [] <==> forall i :: 0 <= i < |found| ==> found[i].id in attempted
  {
    if found != [] {
      NoneNew(found[1..], attempted);
    }
  }

  function Idles(n: nat): seq<Worker> { seq(n, _ => Idle) }

  /** One pass: hand the new candidates to a fresh pool, or end the drain when there are none. */
  function NextBatchOf(proc: Proc, found: seq<Snapshot>): Proc {
    var batch := NewOnes(found, proc.attempted);
    if batch == [] then proc.(running := false)
    else proc.(attempted := proc.attempted + IdsOf(batch), jobs := batch,
               workers := Idles(Min(PENDING_UPLOAD_WORKERS, |batch|)), passes := proc.passes + 1)
  }

  /** finalizeClaimed decides from the snapshot's count, not from the row's. */
  predicate LastTry(snap: Snapshot) { snap.row.attempts + 1 >= MAX_UPLOAD_ATTEMPTS }

  // ---------- Steps ----------

  predicate At(s: State, p: nat, w: nat) { p < |s.procs| && w < |s.procs[p].workers| }

  ghost predicate RequeueAllowed(s: State, id: FileId, rule: RequeueRule) {
    match rule
    case Anytime => true
    case Unowned => NobodyOwns(s, id)
    case Unwatched => NobodyWatches(s, id)
  }

  /** The file named in the snapshot is there to be opened. */
  predicate IsStaged(s: State, snap: Snapshot) { snap.row.source.Some? && snap.row.source.value in s.staged }

  /** Assembled files get names of their own: only pushed files are ever removed. */
  predicate IsNew(s: State, file: Path) { file !in s.staged && file !in s.pushed }

  /** `limit` is how many completions may be between check and enqueue at once. */
  ghost predicate Enabled(s: State, step: Step, limit: nat, rule: RequeueRule) {
    match step
    case Start(p) => p < |s.procs| && !s.procs[p].running
    case NextBatch(p, found) =>
      && p < |s.procs| && s.procs[p].running && s.procs[p].workers == [] && s.procs[p].jobs == []
      && OldestPending(s.rows, PENDING_UPLOAD_BATCH_SIZE, found)
    case Abort(p) => p < |s.procs| && s.procs[p].running && s.procs[p].workers == [] && s.procs[p].jobs == []
    case Take(p, w) => At(s, p, w) && s.procs[p].workers[w].Idle? && s.procs[p].jobs != []
    case Claim(p, w) => At(s, p, w) && s.procs[p].workers[w].Taken?
    case ClaimError(p, w) => At(s, p, w) && s.procs[p].workers[w].Taken?
    case Open(p, w) =>
      && At(s, p, w) && s.procs[p].workers[w].Owning? && !s.procs[p].workers[w].reading
      && IsStaged(s, s.procs[p].workers[w].snap)
    case FinishReady(p, w, size) =>
      At(s, p, w) && s.procs[p].workers[w].Owning? && s.procs[p].workers[w].reading && size <= MAX_UPLOAD_SIZE
    case FinishRetry(p, w) => At(s, p, w) && s.procs[p].workers[w].Owning?
    case FinishLost(p, w) => At(s, p, w) && s.procs[p].workers[w].Owning?
    case EndBatch(p) => p < |s.procs| && s.procs[p].workers != [] && s.procs[p].jobs == [] && AllIdle(s.procs[p])
    case Cancel(p) => p < |s.procs| && s.procs[p].workers != [] && AllIdle(s.procs[p])
    case Crash(p) => p < |s.procs|
    case Clear(file) => file in s.pushed
    case CheckBacklog => Backlog(s.rows) < MAX_PENDING_UPLOAD_BACKLOG && s.checked < limit
    case Leave => s.checked > 0
    case Enqueue(id, source, size) =>
      s.checked > 0 && id !in s.rows && size <= MAX_UPLOAD_SIZE && IsNew(s, source)
    case Requeue(id, source) => s.checked > 0 && id in s.rows && IsNew(s, source) && RequeueAllowed(s, id, rule)
    case DirectUpload(id, size) => id !in s.rows && size <= MAX_UPLOAD_SIZE
    case Overwrite(id, size) => id in s.rows && size <= MAX_UPLOAD_SIZE
    case Touch(id) => id in s.rows
  }

  function WithProc(s: State, p: nat, proc: Proc): State
    requires p < |s.procs|
  {
    s.(procs := s.procs[p := proc])
  }

  function WithWorker(s: State, p: nat, w: nat, worker: Worker): State
    requires At(s, p, w)
  {
    WithProc(s, p, s.procs[p].(workers := s.procs[p].workers[w := worker]))
  }

  /** A write to the row that is not a claim. */
  function Renewed(s: State, id: FileId, now: Time): History {
    if IsPending(s.rows, id) then s.past.(renewals := s.past.renewals[id := now]) else s.past
  }

  /** A worker's last write to a row: one that is waiting again by then has been dealt with. */
  function Handled(s: State, id: FileId, now: Time): History {
    if IsPending(s.rows, id) then s.past.(claims := s.past.claims[id := now]) else s.past
  }

  /** How much more staged data the backlog figure shows after one row is rewritten. */
  function Growth(rows: Rows, id: FileId, r: Row): nat {
    if id in rows && Staged(r) > Staged(rows[id]) then Staged(r) - Staged(rows[id]) else 0
  }

  function Apply(s: State, step: Step): State {
    var now := s.clock + 1;
    match step
    case Start(p) =>
      if p >= |s.procs| then s else
      WithProc(s, p, Proc(true, {}, [], [], 0, s.clock,
                          set id | id in s.rows && IsPending(s.rows, id), true))
    case NextBatch(p, found) =>
      if p >= |s.procs| then s else
      WithProc(s, p, NextBatchOf(s.procs[p], found))
    case Abort(p) => if p >= |s.procs| then s else WithProc(s, p, s.procs[p].(running := false))
    case Take(p, w) =>
      if !At(s, p, w) || s.procs[p].jobs == [] then s else
      var proc := s.procs[p];
      WithProc(s, p, proc.(jobs := proc.jobs[1..], workers := proc.workers[w := Taken(proc.jobs[0])]))
    case Claim(p, w) =>
      if !At(s, p, w) || !s.procs[p].workers[w].Taken? then s else
      var snap := s.procs[p].workers[w].snap;
      if IsPending(s.rows, snap.id) then
        WithWorker(s, p, w, Owning(snap, false))
          .(rows := Claimed(s.rows, snap.id, now), clock := now,
            past := s.past.(claims := s.past.claims[snap.id := now]))
      else WithWorker(s, p, w, Idle).(clock := now)
    case ClaimError(p, w) =>
      if !At(s, p, w) then s else
      var t := WithWorker(s, p, w, Idle);
      WithProc(t, p, t.procs[p].(clean := false))
    case Open(p, w) =>
      if !At(s, p, w) || !s.procs[p].workers[w].Owning? then s else
      WithWorker(s, p, w, Owning(s.procs[p].workers[w].snap, true))
    case FinishReady(p, w, size) =>
      if !At(s, p, w) || !s.procs[p].workers[w].Owning? then s else
      var snap := s.procs[p].workers[w].snap;
      WithWorker(s, p, w, Idle)
        .(rows := Readied(s.rows, snap.id, size, now), clock := now, past := Handled(s, snap.id, now),
          pushed := if snap.row.source.Some? then s.pushed + {snap.row.source.value} else s.pushed)
    case FinishRetry(p, w) =>
      if !At(s, p, w) || !s.procs[p].workers[w].Owning? then s else
      var snap := s.procs[p].workers[w].snap;
      var status := if LastTry(snap) then Failed else Pending;
      WithWorker(s, p, w, Idle)
        .(rows := WithStatus(s.rows, snap.id, status, now), clock := now, past := Handled(s, snap.id, now),
          grown := if snap.id in s.rows then s.grown + Growth(s.rows, snap.id, s.rows[snap.id].(status := status))
                   else s.grown)
    case FinishLost(p, w) =>
      if !At(s, p, w) || !s.procs[p].workers[w].Owning? then s else
      WithWorker(s, p, w, Idle).(stranded := s.stranded + {s.procs[p].workers[w].snap.id})
    case EndBatch(p) => if p >= |s.procs| then s else WithProc(s, p, s.procs[p].(workers := []))
    case Cancel(p) =>
      if p >= |s.procs| then s else WithProc(s, p, s.procs[p].(running := false, jobs := [], workers := []))
    case Crash(p) =>
      if p >= |s.procs| then s else
      WithProc(s, p, STOPPED).(stranded := s.stranded + OwnedIds(s.procs[p]))
    // Removing a pushed file is the last thing its worker tries; it may come late, or fail and never come.
    case Clear(file) => s.(staged := s.staged - {file})
    case CheckBacklog => s.(checked := s.checked + 1)
    case Leave => s.(checked := if s.checked > 0 then s.checked - 1 else 0)
    case Enqueue(id, source, size) =>
      s.(rows := s.rows[id := Row(Pending, 0, now, Some(source), size)], clock := now,
         staged := s.staged + {source}, checked := if s.checked > 0 then s.checked - 1 else 0)
    case Requeue(id, source) =>
      s.(rows := Requeued(s.rows, id, source, now), clock := now,
         staged := s.staged + {source}, past := Renewed(s, id, now), stranded := s.stranded - {id},
         checked := if s.checked > 0 then s.checked - 1 else 0)
    case DirectUpload(id, size) =>
      s.(rows := s.rows[id := Row(Ready, 0, now, None, size)], clock := now)
    case Overwrite(id, size) =>
      if id !in s.rows then s else
      s.(rows := s.rows[id := s.rows[id].(size := size, updatedAt := now)], clock := now,
         past := Renewed(s, id, now), grown := s.grown + Growth(s.rows, id, s.rows[id].(size := size)))
    case Touch(id) =>
      if id !in s.rows then s else
      s.(rows := s.rows[id := s.rows[id].(updatedAt := now)], clock := now, past := Renewed(s, id, now))
  }

  ghost predicate Next(s: State, t: State, limit: nat, rule: RequeueRule) {
    exists step :: Enabled(s, step, limit, rule) && t == Apply(s, step)
  }

  /** Any processes count, every row settled, nothing running. */
  ghost predicate Init(s: State, procs: nat) {
    && |s.procs| == procs && (forall p :: 0 <= p < procs ==> s.procs[p] == STOPPED)
    && s.rows == map[] && s.checked == 0 && s.past == History(map[], map[])
    && s.staged == {} && s.stranded == {} && s.pushed == {} && s.grown == 0
  }

  ghost predicate IsRun(run: seq<State>, procs: nat, limit: nat, rule: RequeueRule) {
    && run != [] && Init(run[0], procs)
    && forall i :: 0 <= i < |run| - 1 ==> Next(run[i], run[i + 1], limit, rule)
  }

  ghost predicate Reachable(s: State, procs: nat, limit: nat, rule: RequeueRule) {
    exists run :: IsRun(run, procs, limit, rule) && run[|run| - 1] == s
  }

  /** One more step from a reachable state. */
  lemma Reach(s: State, step: Step, procs: nat, limit: nat, rule: RequeueRule) returns (t: State)
    requires Reachable(s, procs, limit, rule) && Enabled(s, step, limit, rule)
    ensures t == Apply(s, step) && Reachable(t, procs, limit, rule)
  {
    t := Apply(s, step);
    var run :| IsRun(run, procs, limit, rule) && run[|run| - 1] == s;
    var longer := run + [t];
    forall i | 0 <= i < |longer| - 1
      ensures Next(longer[i], longer[i + 1], limit, rule)
    {
      if i < |run| - 1 {
        assert Next(run[i], run[i + 1], limit, rule);
      }
    }
    assert IsRun(longer, procs, limit, rule);
  }

  lemma ReachInit(procs: nat, limit: nat, rule: RequeueRule) returns (s: State)
    ensures Reachable(s, procs, limit, rule) && Init(s, procs) && s.clock == 0
  {
    s := State(map[], 0, seq(procs, _ => STOPPED), 0, {}, History(map[], map[]), {}, {}, 0);
    assert IsRun([s], procs, limit, rule);
  }
}
