/** What an overwrite of a row that is being pushed does to its ownership. */
module DrainOwners {
  import opened Common
  import opened PendingStore
  import opened DrainMachine
  import opened DrainSafety
  import opened DrainSources

  ghost predicate TwoOwners(s: State, id: FileId) {
    exists p, w, q, v :: OwnedBy(s, p, w, id) && OwnedBy(s, q, v, id) && (p != q || w != v)
  }

  /** Some run from here, without another overwrite of the row in chunks, ends with two workers pushing it. */
  ghost predicate MayShare(s: State, id: FileId, limit: nat) {
    exists run :: IsAftermath(run, s, id, limit) && TwoOwners(run[|run| - 1], id)
  }

  // ---------- One process never pushes a row twice ----------

  lemma {:induction false} AftermathShape(run: seq<State>, s: State, id: FileId, procs: nat, limit: nat, i: nat)
    requires IsAftermath(run, s, id, limit) && Shape(s, procs) && i < |run|
    ensures Shape(run[i], procs)
  {
    hide Enabled, Apply, ProcShape, Backlog;
    if i > 0 {
      AftermathShape(run, s, id, procs, limit, i - 1);
      assert Follows(run[i - 1], run[i], id, limit);
      var step :| Enabled(run[i - 1], step, limit, Anytime) && run[i] == Apply(run[i - 1], step);
      ShapeKept(run[i - 1], step, procs, limit, Anytime);
    }
  }

  lemma OwnersApart(s: State, procs: nat, id: FileId)
    requires Shape(s, procs) && TwoOwners(s, id)
    ensures procs > 1
  {
    var p, w, q, v :| OwnedBy(s, p, w, id) && OwnedBy(s, q, v, id) && (p != q || w != v);
    assert ProcShape(s.procs[p], s.rows.Keys);
  }

  // ---------- Another process gets to the row ----------

  lemma {:induction false} OldestOf(rows: Rows, ids: set<FileId>) returns (oldest: FileId)
    requires ids != {} && ids <= rows.Keys
    ensures oldest in ids && forall id :: id in ids ==> rows[oldest].updatedAt <= rows[id].updatedAt
  {
    oldest :| oldest in ids;
    if ids != {oldest} {
      var other := OldestOf(rows, ids - {oldest});
      if rows[other].updatedAt < rows[oldest].updatedAt {
        oldest := other;
      }
    }
  }

  /** The drain query always has an answer. */
  lemma QueryAnswers(rows: Rows, limit: nat) returns (found: seq<Snapshot>)
    ensures OldestPending(rows, limit, found)
  {
    found := [];
    var rest := set id | id in rows && rows[id].status.Pending?;
    while rest != {} && |found| < limit
      invariant |found| <= limit && OldestSoFar(rows, found, rest)
      decreases rest
    {
      var oldest := OldestOf(rows, rest);
      NextOldest(rows, found, rest, oldest);
      found := found + [Snapshot(oldest, rows[oldest])];
      rest := rest - {oldest};
    }
  }

  lemma OneMore(s: State, step: Step, id: FileId, limit: nat)
    requires Enabled(s, step, limit, Anytime) && !step.Requeue? && MayShare(Apply(s, step), id, limit)
    ensures MayShare(s, id, limit)
  {
    var run :| IsAftermath(run, Apply(s, step), id, limit) && TwoOwners(run[|run| - 1], id);
    var longer := LongerAftermath(s, step, id, limit, run);
  }

  /** An idle process starts a drain and a worker takes the oldest row. */
  function Grab(s: State, q: nat, found: seq<Snapshot>): State {
    Apply(Apply(Apply(s, Start(q)), NextBatch(q, found)), Take(q, 0))
  }

  lemma GrabIs(s: State, q: nat, found: seq<Snapshot>)
    requires q < |s.procs| && !s.procs[q].running && 0 < |found|
    ensures var t := Grab(s, q, found);
            && At(t, q, 0) && t.procs[q].workers[0] == Taken(found[0]) && t.rows == s.rows
            && |t.procs| == |s.procs| && forall p :: 0 <= p < |s.procs| && p != q ==> t.procs[p] == s.procs[p]
  {
    NewOnesAll(found);
    hide IdsOf, NewOnes;
    var batched := Apply(Apply(s, Start(q)), NextBatch(q, found)).procs[q];
    assert batched.jobs == found && batched.workers[0].Idle?;
  }

  lemma GrabShares(s: State, q: nat, found: seq<Snapshot>, id: FileId, limit: nat)
    requires q < |s.procs| && !s.procs[q].running && 0 < |found|
    requires OldestPending(s.rows, PENDING_UPLOAD_BATCH_SIZE, found) && MayShare(Grab(s, q, found), id, limit)
    ensures MayShare(s, id, limit)
  {
    hide OldestPending, MayShare;
    NewOnesAll(found);
    var t := Apply(s, Start(q));
    var u := Apply(t, NextBatch(q, found));
    OneMore(u, Take(q, 0), id, limit);
    OneMore(t, NextBatch(q, found), id, limit);
    OneMore(s, Start(q), id, limit);
  }

  lemma FewerPending(rows: Rows, id: FileId, now: Time)
    requires IsPending(rows, id)
    ensures PendingIds(Claimed(rows, id, now)) == PendingIds(rows) - {id}
    ensures |PendingIds(Claimed(rows, id, now))| < |PendingIds(rows)|
  {
  }

  /** A claim by one process, and then its death, leave another process's worker at its row. */
  lemma ClaimAndDie(s: State, p: nat, w: nat, q: nat, id: FileId)
    requires OwnedBy(s, p, w, id) && p != q && At(s, q, 0) && s.procs[q].workers[0].Taken?
    requires IsPending(s.rows, s.procs[q].workers[0].snap.id)
    ensures var own, t := s.procs[q].workers[0].snap.id, Apply(s, Claim(q, 0));
            var u := Apply(t, Crash(q));
            && OwnedBy(t, p, w, id) && OwnedBy(t, q, 0, own) && OwnedBy(u, p, w, id)
            && |u.procs| == |s.procs| && !u.procs[q].running
            && u.rows == Claimed(s.rows, own, s.clock + 1)
  {
  }

  /** An idle process works its way to the row, dying and starting again after each row that is not it. */
  lemma {:induction false} IdleShares(s: State, p: nat, w: nat, q: nat, id: FileId, limit: nat)
    requires OwnedBy(s, p, w, id) && q < |s.procs| && q != p && !s.procs[q].running && IsPending(s.rows, id)
    ensures MayShare(s, id, limit)
    decreases |PendingIds(s.rows)|
  {
    hide MayShare, Apply, IdsOf, PendingIds;
    var found := QueryAnswers(s.rows, PENDING_UPLOAD_BATCH_SIZE);
    SomeFound(s.rows, found, id);
    var first := found[0].id;
    GrabIs(s, q, found);
    var t := Grab(s, q, found);
    var u := Apply(t, Claim(q, 0));
    hide Grab;
    ClaimAndDie(t, p, w, q, id);
    if first == id {
      SharedNow(u, p, w, q, 0, id, limit);
    } else {
      FewerPending(s.rows, first, t.clock + 1);
      IdleShares(Apply(u, Crash(q)), p, w, q, id, limit);
      OneMore(u, Crash(q), id, limit);
    }
    OneMore(t, Claim(q, 0), id, limit);
    GrabShares(s, q, found, id, limit);
  }

  lemma SomeFound(rows: Rows, found: seq<Snapshot>, id: FileId)
    requires OldestPending(rows, PENDING_UPLOAD_BATCH_SIZE, found) && IsPending(rows, id)
    ensures found != []
  {
    assert found == [] ==> id !in IdsOf(found);
  }

  lemma SharedNow(s: State, p: nat, w: nat, q: nat, v: nat, id: FileId, limit: nat)
    requires OwnedBy(s, p, w, id) && OwnedBy(s, q, v, id) && p != q
    ensures MayShare(s, id, limit)
  {
    assert IsAftermath([s], s, id, limit) && TwoOwners(s, id);
  }

  /**
   * When the code overwrites a row while a worker is pushing it, a second worker can come to push it at
   * the same time exactly when there is a second process.
   */
  lemma SharedWhen(s: State, p: nat, w: nat, id: FileId, b: Path, procs: nat, limit: nat, rule: RequeueRule)
    requires Reachable(s, procs, limit, rule) && OwnedBy(s, p, w, id)
    requires Enabled(s, Requeue(id, b), limit, Anytime)
    ensures MayShare(Apply(s, Requeue(id, b)), id, limit) <==> procs > 1
  {
    hide Reachable;
    var t := Apply(s, Requeue(id, b));
    ReachableShape(s, procs, limit, rule);
    ShapeKept(s, Requeue(id, b), procs, limit, Anytime);
    if procs > 1 {
      var q := if p == 0 then 1 else 0;
      var u := Apply(t, Crash(q));
      assert OwnedBy(t, p, w, id) && OwnedBy(u, p, w, id);
      IdleShares(u, p, w, q, id, limit);
      OneMore(t, Crash(q), id, limit);
    } else if run :| IsAftermath(run, t, id, limit) && TwoOwners(run[|run| - 1], id) {
      AftermathShape(run, t, id, procs, limit, |run| - 1);
      OwnersApart(run[|run| - 1], procs, id);
      assert false;
    }
  }

  lemma ReachableShape(s: State, procs: nat, limit: nat, rule: RequeueRule)
    requires Reachable(s, procs, limit, rule)
    ensures Shape(s, procs)
  {
    var run :| IsRun(run, procs, limit, rule) && run[|run| - 1] == s;
    RunShape(run, procs, limit, rule, |run| - 1);
  }
}
