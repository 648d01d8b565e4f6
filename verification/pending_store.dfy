/** The upload columns of the file table and the statements that move a row through them. */
module PendingStore {
  import opened Common

  type FileId = nat
  type Path = nat                              // local assembled file

  datatype Status = Pending | Uploading | Ready | Failed

  /** `size` is in bytes; `source` names the staged file, None once it has been pushed. */
  datatype Row = Row(status: Status, attempts: nat, updatedAt: Time, source: Option<Path>, size: nat)

  type Rows = map<FileId, Row>

  /** A row as a drain read it, possibly long before acting on it. */
  datatype Snapshot = Snapshot(id: FileId, row: Row)

  const MAX_UPLOAD_ATTEMPTS := 5
  const PENDING_UPLOAD_BATCH_SIZE := 20
  const PENDING_UPLOAD_WORKERS := 4
  const MAX_UPLOAD_SIZE := 2 * 1024 * 1024 * 1024
  const MAX_PENDING_UPLOAD_BACKLOG := 20 * 1024 * 1024 * 1024

  // ---------- Statements, as functions on the table ----------

  predicate IsPending(rows: Rows, id: FileId) { id in rows && rows[id].status.Pending? }

  predicate IsUploading(rows: Rows, id: FileId) { id in rows && rows[id].status.Uploading? }

  function PendingIds(rows: Rows): set<FileId> {
    set id | id in rows && rows[id].status.Pending?
  }

  lemma PendingOnes(rows: Rows)
    ensures forall id :: id in PendingIds(rows) <==> IsPending(rows, id)
  {
  }

  function Claimed(rows: Rows, id: FileId, now: Time): Rows {
    if IsPending(rows, id)
    then rows[id := rows[id].(status := Uploading, attempts := rows[id].attempts + 1, updatedAt := now)]
    else rows
  }

  function WithStatus(rows: Rows, id: FileId, status: Status, now: Time): Rows {
    if id in rows then rows[id := rows[id].(status := status, updatedAt := now)] else rows
  }

  function Readied(rows: Rows, id: FileId, size: nat, now: Time): Rows {
    if id in rows
    then rows[id := rows[id].(status := Ready, source := None, size := size, updatedAt := now)]
    else rows
  }

  /** A chunked overwrite: whatever the row's status, it is pending again with a fresh retry budget. */
  function Requeued(rows: Rows, id: FileId, source: Path, now: Time): Rows {
    if id in rows
    then rows[id := rows[id].(status := Pending, attempts := 0, source := Some(source), updatedAt := now)]
    else rows
  }

  ghost predicate DistinctIds(snaps: seq<Snapshot>) {
    forall i, j :: 0 <= i < j < |snaps| ==> snaps[i].id != snaps[j].id
  }

  function IdsOf(snaps: seq<Snapshot>): set<FileId> {
    set i | 0 <= i < |snaps| :: snaps[i].id
  }

  lemma IdsOfAppend(snaps: seq<Snapshot>, s: Snapshot)
    ensures IdsOf(snaps + [s]) == IdsOf(snaps) + {s.id}
  {
    var all := snaps + [s];
    assert all[|snaps|] == s;
    forall id | id in IdsOf(snaps)
      ensures id in IdsOf(all)
    {
      var i :| 0 <= i < |snaps| && snaps[i].id == id;
      assert all[i] == snaps[i];
    }
  }

  /** Result of the drain query: the `limit` oldest pending rows, oldest first. */
  ghost predicate OldestPending(rows: Rows, limit: nat, found: seq<Snapshot>) {
    && |found| <= limit
    && (forall i :: 0 <= i < |found| ==> IsPending(rows, found[i].id) && found[i].row == rows[found[i].id])
    && DistinctIds(found)
    && (forall i, j :: 0 <= i < j < |found| ==> found[i].row.updatedAt <= found[j].row.updatedAt)
    && (forall id :: IsPending(rows, id) && id !in IdsOf(found) ==>
          |found| == limit && forall i :: 0 <= i < |found| ==> found[i].row.updatedAt <= rows[id].updatedAt)
  }

  /** The query half done: `found` in order, and `rest` the pending rows not younger than any of it. */
  ghost predicate OldestSoFar(rows: Rows, found: seq<Snapshot>, rest: set<FileId>) {
    && (forall i :: 0 <= i < |found| ==>
          IsPending(rows, found[i].id) && found[i].row == rows[found[i].id] && found[i].id !in rest)
    && (forall i, j :: 0 <= i < j < |found| ==>
          found[i].id != found[j].id && found[i].row.updatedAt <= found[j].row.updatedAt)
    && (forall id :: IsPending(rows, id) && id !in IdsOf(found) ==> id in rest)
    && (forall id :: id in rest ==>
          IsPending(rows, id) && forall i :: 0 <= i < |found| ==> found[i].row.updatedAt <= rows[id].updatedAt)
  }

  lemma NextOldest(rows: Rows, found: seq<Snapshot>, rest: set<FileId>, oldest: FileId)
    requires OldestSoFar(rows, found, rest) && oldest in rest
    requires forall id :: id in rest ==> rows[oldest].updatedAt <= rows[id].updatedAt
    ensures OldestSoFar(rows, found + [Snapshot(oldest, rows[oldest])], rest - {oldest})
  {
    IdsOfAppend(found, Snapshot(oldest, rows[oldest]));
  }

  /**
   * When each row was last claimed while pending, or written by a worker finishing an older claim of it,
   * and when it was last written while pending by anyone else.
   */
  datatype History = History(claims: map<FileId, Time>, renewals: map<FileId, Time>) {
    predicate ClaimedSince(id: FileId, since: Time) { id in claims && claims[id] > since }

    predicate RenewedSince(id: FileId, since: Time) { id in renewals && renewals[id] > since }
  }

  /** Stamps are never forgotten. */
  ghost predicate StampsKept(stamps: map<FileId, Time>, stamps': map<FileId, Time>) {
    forall id :: id in stamps ==> id in stamps' && stamps[id] <= stamps'[id]
  }

  /**
   * What any step of any process does to the queue: time moves on, history is never forgotten, and a
   * pending row is claimed, or stays pending and is untouched unless its stamp was renewed.
   */
  ghost predicate Onward(rows: Rows, clock: Time, past: History, rows': Rows, clock': Time, past': History) {
    && clock <= clock' && StampsKept(past.claims, past'.claims) && StampsKept(past.renewals, past'.renewals)
    && (forall id :: IsPending(rows, id) ==>
          || past'.ClaimedSince(id, clock)
          || (IsPending(rows', id) && (rows'[id] == rows[id] || past'.RenewedSince(id, clock))))
  }

  /** The same upload in the same phase; size and stamp may have been rewritten. */
  predicate SameJob(r: Row, r': Row) {
    r'.status == r.status && r'.attempts == r.attempts && r'.source == r.source
  }

  // ---------- The backlog figure ----------

  /** What a row contributes: both pending and uploading rows hold a staged file. */
  function Staged(r: Row): nat {
    if r.status.Pending? || r.status.Uploading? then r.size else 0
  }

  ghost function Backlog(rows: Rows): nat {
    if rows == map[] then 0
    else
      var id :| id in rows;
      Staged(rows[id]) + Backlog(rows - {id})
  }

  /** The sum does not depend on the order of the rows. */
  lemma {:induction false} BacklogSplit(rows: Rows, id: FileId)
    requires id in rows
    ensures Backlog(rows) == Staged(rows[id]) + Backlog(rows - {id})
    decreases |rows|
  {
    var first :| first in rows && Backlog(rows) == Staged(rows[first]) + Backlog(rows - {first});
    if first != id {
      BacklogSplit(rows - {first}, id);
      BacklogSplit(rows - {id}, first);
      assert rows - {first} - {id} == rows - {id} - {first};
    }
  }

  lemma BacklogUpdate(rows: Rows, id: FileId, r: Row)
    ensures Backlog(rows[id := r]) == Backlog(rows) + Staged(r) - (if id in rows then Staged(rows[id]) else 0)
  {
    BacklogSplit(rows[id := r], id);
    assert rows[id := r] - {id} == rows - {id};
    if id in rows {
      BacklogSplit(rows, id);
    } else {
      assert rows - {id} == rows;
    }
  }

  // ---------- The store ----------

  /** Whether the database carries out a statement is its parameter `works`. */
  class MetadataStore {
    var rows: Rows
    var clock: Time

    ghost predicate Valid()
      reads this
    {
      forall id :: id in rows ==> rows[id].updatedAt <= clock
    }

    constructor ()
      ensures Valid() && rows == map[]
    {
      rows, clock := map[], 0;
    }

    /** Atomic pending -> uploading; true only for the caller that made the transition. */
    method ClaimPendingUpload(id: FileId, works: bool) returns (ok: bool, won: bool)
      requires Valid()
      modifies this
      ensures Valid() && clock == old(clock) + 1 && ok == works
      ensures rows == if ok then Claimed(old(rows), id, clock) else old(rows)
      ensures won <==> ok && IsPending(old(rows), id)
    {
      clock := clock + 1;
      ok := works;
      won := ok && id in rows && rows[id].status.Pending?;
      if won {
        var r := rows[id];
        rows := rows[id := Row(Uploading, r.attempts + 1, clock, r.source, r.size)];
      }
    }

    method MarkFileUploadReady(id: FileId, size: nat, works: bool) returns (ok: bool)
      requires Valid()
      modifies this
      ensures Valid() && clock == old(clock) + 1 && ok == works
      ensures rows == if ok then Readied(old(rows), id, size, clock) else old(rows)
    {
      clock := clock + 1;
      ok := works;
      if ok && id in rows {
        var r := rows[id];
        rows := rows[id := Row(Ready, r.attempts, clock, None, size)];
      }
    }

    method RevertUploadToPending(id: FileId, works: bool) returns (ok: bool)
      requires Valid()
      modifies this
      ensures Valid() && clock == old(clock) + 1 && ok == works
      ensures rows == if ok then WithStatus(old(rows), id, Pending, clock) else old(rows)
    {
      clock := clock + 1;
      ok := works;
      if ok && id in rows {
        var r := rows[id];
        rows := rows[id := Row(Pending, r.attempts, clock, r.source, r.size)];
      }
    }

    method MarkFileUploadFailed(id: FileId, works: bool) returns (ok: bool)
      requires Valid()
      modifies this
      ensures Valid() && clock == old(clock) + 1 && ok == works
      ensures rows == if ok then WithStatus(old(rows), id, Failed, clock) else old(rows)
    {
      clock := clock + 1;
      ok := works;
      if ok && id in rows {
        var r := rows[id];
        rows := rows[id := Row(Failed, r.attempts, clock, r.source, r.size)];
      }
    }

    method MarkFileMetadataPending(id: FileId, source: Path, works: bool) returns (ok: bool)
      requires Valid()
      modifies this
      ensures Valid() && clock == old(clock) + 1 && ok == works
      ensures rows == if ok then Requeued(old(rows), id, source, clock) else old(rows)
    {
      clock := clock + 1;
      ok := works;
      if ok && id in rows {
        rows := rows[id := Row(Pending, 0, clock, Some(source), rows[id].size)];
      }
    }

    /** Oldest pending rows first, at most `limit` of them. */
    method GetPendingFileUploads(limit: nat, works: bool) returns (ok: bool, found: seq<Snapshot>)
      requires Valid()
      ensures ok == works && if ok then OldestPending(rows, limit, found) else found == []
    {
      found := [];
      ok := works;
      if !ok {
        return;
      }
      var rest := set id | id in rows && rows[id].status.Pending?;
      while rest != {} && |found| < limit
        invariant |found| <= limit && OldestSoFar(rows, found, rest)
        decreases rest
      {
        var oldest := Oldest(rest);
        NextOldest(rows, found, rest, oldest);
        found := found + [Snapshot(oldest, rows[oldest])];
        rest := rest - {oldest};
      }
    }

    method Oldest(ids: set<FileId>) returns (oldest: FileId)
      requires ids != {} && ids <= rows.Keys
      ensures oldest in ids && forall id :: id in ids ==> rows[oldest].updatedAt <= rows[id].updatedAt
    {
      oldest :| oldest in ids;
      var rest := ids - {oldest};
      while rest != {}
        invariant oldest in ids && rest <= ids
        invariant forall id :: id in ids - rest ==> rows[oldest].updatedAt <= rows[id].updatedAt
      {
        var id :| id in rest;
        if rows[id].updatedAt < rows[oldest].updatedAt {
          oldest := id;
        }
        rest := rest - {id};
      }
    }

    /** SUM(size) over the rows that hold a staged file. */
    method PendingUploadBacklog() returns (total: nat)
      ensures total == Backlog(rows)
    {
      total := 0;
      var rest := rows;
      while rest != map[]
        invariant forall id :: id in rest ==> id in rows && rest[id] == rows[id]
        invariant total + Backlog(rest) == Backlog(rows)
        decreases |rest|
      {
        var id :| id in rest;
        BacklogSplit(rest, id);
        if rest[id].status.Pending? || rest[id].status.Uploading? {
          total := total + rest[id].size;
        }
        rest := rest - {id};
      }
    }
  }
}
