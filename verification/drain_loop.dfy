/** ProcessPendingUploads as it runs in one process, with everything other processes do as interference. */
module DrainLoop {
  import opened Common
  import opened PendingStore
  import opened DrainMachine

  datatype DrainResult = AlreadyRunning | Cancelled | QueryFailed | Drained

  datatype Outcome = Pushed | Retried | GaveUp | Lost

  lemma OnwardTrans(r0: Rows, c0: Time, k0: History, r1: Rows, c1: Time, k1: History,
                    r2: Rows, c2: Time, k2: History)
    requires Onward(r0, c0, k0, r1, c1, k1) && Onward(r1, c1, k1, r2, c2, k2)
    ensures Onward(r0, c0, k0, r2, c2, k2)
  {
  }

  lemma SameOnward(rows: Rows, clock: Time, past: History, clock': Time)
    requires clock <= clock'
    ensures Onward(rows, clock, past, rows, clock', past)
  {
  }

  /** Writing one row: if it was waiting the write goes on record. */
  lemma WriteOnward(rows: Rows, clock: Time, past: History, rows': Rows, clock': Time, past': History, id: FileId)
    requires clock < clock' && id in rows && id in rows' && rows' == rows[id := rows'[id]]
    requires forall i :: i in past.claims ==> past.claims[i] <= clock
    requires past' == if IsPending(rows, id) then past.(claims := past.claims[id := clock']) else past
    ensures Onward(rows, clock, past, rows', clock', past')
  {
  }

  /** Each row is claimed since, or still pending and then renewed since or untouched. */
  ghost predicate StillOwed(rows: Rows, past: History, ids: set<FileId>, start: Time) {
    forall id :: id in ids ==>
      || past.ClaimedSince(id, start)
      || (IsPending(rows, id) && (past.RenewedSince(id, start) || rows[id].updatedAt <= start))
  }

  lemma OwedOnward(r0: Rows, c0: Time, k0: History, r1: Rows, c1: Time, k1: History,
                   ids: set<FileId>, start: Time)
    requires Onward(r0, c0, k0, r1, c1, k1) && start <= c0 && StillOwed(r0, k0, ids, start)
    ensures StillOwed(r1, k1, ids, start)
  {
  }

  lemma {:induction false} NewOnesAppend(found: seq<Snapshot>, snap: Snapshot, attempted: set<FileId>)
    ensures NewOnes(found + [snap], attempted) ==
            NewOnes(found, attempted) + if snap.id in attempted then [] else [snap]
  {
    if found == [] {
      assert found + [snap] == [snap] && [snap][1..] == [];
    } else {
      assert (found + [snap])[1..] == found[1..] + [snap];
      NewOnesAppend(found[1..], snap, attempted);
    }
  }

  /** The row after a try that went through, or did not, and was recorded. */
  predicate Concluded(before: Row, after: Row, pushed: bool) {
    && after.attempts == before.attempts + 1
    && if pushed then after.status.Ready? && after.source == None
       else after.source == before.source && after.size == before.size &&
            (if before.attempts + 1 >= 5 then after.status.Failed? else after.status.Pending?)
  }

  /** A claim's stamp is never younger than the row's own, and no stamp comes from the future. */
  ghost predicate StampsFit(rows: Rows, past: History, clock: Time) {
    && (forall id :: id in past.claims ==> id in rows && past.claims[id] <= rows[id].updatedAt)
    && (forall id :: id in rows ==> rows[id].updatedAt <= clock)
    && (forall id :: id in past.renewals ==> past.renewals[id] <= clock)
  }

  lemma StampsFitAfter(rows: Rows, past: History, clock: Time, rows': Rows, past': History, clock': Time, id: FileId)
    requires StampsFit(rows, past, clock) && clock < clock'
    requires past' == past || past' == past.(claims := past.claims[id := clock'])
    requires (rows' == rows && past' == past) ||
             (id in rows && id in rows' && rows' == rows[id := rows'[id]] && rows'[id].updatedAt == clock')
    ensures StampsFit(rows', past', clock')
  {
  }

  lemma ClaimStamps(rows: Rows, past: History, clock: Time)
    requires StampsFit(rows, past, clock)
    ensures forall i :: i in past.claims ==> past.claims[i] <= clock
  {
  }

  /** From `rows` and `was` to `now` and `past`, only these rows were written, and only they claimed since. */
  ghost predicate OnlyThese(ids: set<FileId>, rows: Rows, was: History, start: Time, now: Rows, past: History) {
    && past.renewals == was.renewals && now.Keys == rows.Keys
    && (forall id :: id in rows && id !in ids ==> now[id] == rows[id])
    && (forall id :: id !in ids && past.ClaimedSince(id, start) ==> was.ClaimedSince(id, start))
  }

  lemma TheseGrow(ids: set<FileId>, next: FileId, rows: Rows, was: History, start: Time, mid: Rows, mid': History,
                  now: Rows, past: History)
    requires OnlyThese(ids, rows, was, start, mid, mid') && OnlyThese({next}, mid, mid', start, now, past)
    ensures OnlyThese(ids + {next}, rows, was, start, now, past)
  {
  }

  lemma NotThese(ids: set<FileId>, id: FileId, rows: Rows, was: History, start: Time, now: Rows, past: History)
    requires OnlyThese(ids, rows, was, start, now, past) && id in rows && id !in ids
    ensures id in now && now[id] == rows[id]
  {
  }

  /** The first rows of the batch are concluded. */
  ghost predicate Tried(batch: seq<Snapshot>, n: nat, rows: Rows, now: Rows, pushes: map<FileId, bool>) {
    forall j :: 0 <= j < n && j < |batch| ==>
      && batch[j].id in rows && batch[j].id in now && batch[j].id in pushes
      && Concluded(rows[batch[j].id], now[batch[j].id], pushes[batch[j].id])
  }

  lemma NoneTried(batch: seq<Snapshot>, rows: Rows, past: History, start: Time, pushes: map<FileId, bool>)
    ensures Tried(batch, 0, rows, rows, pushes) && OnlyThese({}, rows, past, start, rows, past)
  {
  }

  lemma TriedNext(batch: seq<Snapshot>, n: nat, rows: Rows, mid: Rows, mid': History, start: Time, now: Rows,
                  past: History, before: map<FileId, bool>, pushes: map<FileId, bool>)
    requires Tried(batch, n, rows, mid, before) && n < |batch| && DistinctIds(batch)
    requires OnlyThese({batch[n].id}, mid, mid', start, now, past)
    requires forall id :: id in before && id != batch[n].id ==> id in pushes && pushes[id] == before[id]
    requires batch[n].id in rows && batch[n].id in now && batch[n].id in pushes
    requires Concluded(rows[batch[n].id], now[batch[n].id], pushes[batch[n].id])
    ensures Tried(batch, n + 1, rows, now, pushes)
  {
    hide Concluded;
  }

  lemma AllTried(batch: seq<Snapshot>, rows: Rows, now: Rows, pushes: map<FileId, bool>)
    ensures Tried(batch, |batch|, rows, now, pushes) ==>
              forall id :: id in IdsOf(batch) ==>
                id in rows && id in now && id in pushes && Concluded(rows[id], now[id], pushes[id])
  {
    hide Concluded;
    forall id | id in IdsOf(batch)
      ensures exists j :: 0 <= j < |batch| && batch[j].id == id
    {
    }
  }

  /** What an undisturbed drain with every statement working has done to the table it found. */
  ghost predicate DoneSoFar(attempted: set<FileId>, rows: Rows, was: History, start: Time, now: Rows, past: History,
                            pushes: map<FileId, bool>)
  {
    && OnlyThese(attempted, rows, was, start, now, past)
    && forall id :: id in attempted ==>
         IsPending(rows, id) && id in pushes && Concluded(rows[id], now[id], pushes[id])
  }

  lemma NothingDone(rows: Rows, was: History, start: Time)
    ensures DoneSoFar({}, rows, was, start, rows, was, map[])
  {
  }

  /** A new batch is of rows nobody has touched yet. */
  lemma BatchUntouched(batch: seq<Snapshot>, attempted: set<FileId>, rows: Rows, was: History, start: Time,
                       now: Rows, past: History, pushes: map<FileId, bool>)
    requires DoneSoFar(attempted, rows, was, start, now, past, pushes) && IdsOf(batch) !! attempted
    requires forall i :: 0 <= i < |batch| ==> IsPending(now, batch[i].id) && batch[i].row == now[batch[i].id]
    ensures forall id :: id in IdsOf(batch) ==> IsPending(rows, id) && id in now && now[id] == rows[id]
  {
  }

  lemma BatchDone(batch: set<FileId>, attempted: set<FileId>, rows: Rows, was: History, start: Time,
                  mid: Rows, mid': History, pushed: map<FileId, bool>,
                  now: Rows, past: History, pushes: map<FileId, bool>)
    requires DoneSoFar(attempted, rows, was, start, mid, mid', pushed) && batch !! attempted
    requires forall id :: id in batch ==> IsPending(rows, id) && id in mid && mid[id] == rows[id]
    requires OnlyThese(batch, mid, mid', start, now, past)
    requires forall id :: id in pushed && id !in batch ==> id in pushes && pushes[id] == pushed[id]
    requires forall id :: id in batch ==> id in now && id in pushes && Concluded(mid[id], now[id], pushes[id])
    ensures DoneSoFar(attempted + batch, rows, was, start, now, past, pushes)
  {
    hide Concluded;
  }

  class S3Drain {
    const store: MetadataStore
    /** pendingDrainRunning. */
    var draining: bool
    /** The context has been cancelled; it never recovers. */
    var done: bool
    /** Claims and renewals, by any process or handler. */
    ghost var past: History
    /** The rows this drain has pushed, and whether the push went through. */
    ghost var pushes: map<FileId, bool>
    /** Nobody else has written to the table while this drain runs. */
    ghost var alone: bool
    /** Every statement of this drain has worked, and it has not been cancelled. */
    ghost var smooth: bool

    constructor (store: MetadataStore)
      requires store.Valid()
      ensures this.store == store && !draining && !done && Valid()
    {
      this.store, draining, done, past := store, false, false, History(map[], map[]);
      pushes, alone, smooth := map[], true, true;
    }

    ghost predicate Valid()
      reads this, store
    {
      && store.Valid() && (smooth ==> !done) && StampsFit(store.rows, past, store.clock)
    }

    ghost predicate Since(id: FileId, start: Time)
      reads this
    {
      past.ClaimedSince(id, start)
    }

    /** Renewed while it waited, and now behind twenty rows that have been claimed since. */
    ghost predicate PassedOver(id: FileId, start: Time)
      reads this, store
    {
      && IsPending(store.rows, id) && past.RenewedSince(id, start)
      && exists found: seq<Snapshot> ::
           && OldestPending(store.rows, PENDING_UPLOAD_BATCH_SIZE, found)
           && |found| == PENDING_UPLOAD_BATCH_SIZE && id !in IdsOf(found)
           && forall other :: other in IdsOf(found) ==> Since(other, start)
    }

    /** What was pending at `start` is claimed since, or still pending. */
    ghost predicate Owed(ids: set<FileId>, start: Time)
      reads this, store
    {
      StillOwed(store.rows, past, ids, start)
    }

    /**
     * Any number of steps of other processes, of this one's other workers and of the upload handlers.
     * Rows stay, and the table is finite: none outside `universe` appears while the drain runs. `calm`
     * tells whether chunked overwrites kept off the rows this process owns; if so each stays in its
     * phase, though a direct upload may rewrite its size.
     */
    method Interference(ghost owned: set<FileId>, ghost universe: set<FileId>) returns (ghost calm: bool)
      requires Valid() && store.rows.Keys <= universe
      modifies this`past, this`done, this`alone, this`smooth, store
      ensures Valid() && store.rows.Keys <= universe
      ensures Onward(old(store.rows), old(store.clock), old(past), store.rows, store.clock, past)
      ensures old(store.rows).Keys <= store.rows.Keys
      ensures calm ==> forall id :: id in owned && id in old(store.rows) ==>
                SameJob(old(store.rows)[id], store.rows[id])
      ensures alone ==> old(alone) && store.rows == old(store.rows) && past == old(past)
      ensures (old(done) ==> done) && (smooth ==> old(smooth))
    {
      calm := true;
      var undisturbed: bool := *;
      alone := alone && undisturbed;
      if !done {
        done := *;
      }
      smooth := smooth && !done;
    }

    /** Next candidates, oldest first; rows already tried in this drain are skipped. */
    method NextPendingBatch(attempted: set<FileId>, works: bool)
      returns (ok: bool, batch: seq<Snapshot>, tried: set<FileId>, ghost pending: seq<Snapshot>)
      requires draining && Valid()
      ensures ok == works
      ensures ok ==> tried == attempted + IdsOf(batch) && IdsOf(batch) !! attempted && IdsOf(batch) <= store.rows.Keys
      ensures ok ==> forall i :: 0 <= i < |batch| ==>
                IsPending(store.rows, batch[i].id) && batch[i].row == store.rows[batch[i].id]
      ensures ok ==> OldestPending(store.rows, 20, pending) && batch == NewOnes(pending, attempted)
      ensures ok ==> DistinctIds(batch)
      ensures ok && batch == [] ==> IdsOf(pending) <= attempted
    {
      batch, tried, pending := [], attempted, [];
      var found;
      ok, found := store.GetPendingFileUploads(PENDING_UPLOAD_BATCH_SIZE, works);
      if !ok {
        return;
      }
      pending := found;
      NoneSifted(found, attempted);
      hide Sifted;
      for i := 0 to |found|
        invariant Sifted(found, i, attempted, batch, tried)
        invariant forall j :: 0 <= j < |batch| ==>
                    IsPending(store.rows, batch[j].id) && batch[j].row == store.rows[batch[j].id]
      {
        SiftNext(found, i, attempted, batch, tried);
        if found[i].id in tried {
          continue;
        }
        tried := tried + {found[i].id};
        batch := batch + [found[i]];
      }
      AllSifted(found, attempted, batch, tried);
    }

    /** Of the first `i` found, those not tried before are in the batch, and all of them count as tried. */
    ghost predicate Sifted(found: seq<Snapshot>, i: int, attempted: set<FileId>, batch: seq<Snapshot>,
                           tried: set<FileId>)
    {
      && 0 <= i <= |found| && DistinctIds(batch) && batch == NewOnes(found[..i], attempted)
      && tried == attempted + IdsOf(batch) && IdsOf(batch) !! attempted
      && IdsOf(batch) <= IdsOf(found[..i]) <= tried
    }

    lemma NoneSifted(found: seq<Snapshot>, attempted: set<FileId>)
      ensures Sifted(found, 0, attempted, [], attempted)
    {
      assert found[..0] == [] && IdsOf([]) == {};
    }

    lemma SiftNext(found: seq<Snapshot>, i: nat, attempted: set<FileId>, batch: seq<Snapshot>, tried: set<FileId>)
      requires Sifted(found, i, attempted, batch, tried) && i < |found| && DistinctIds(found)
      ensures found[i].id in tried ==> Sifted(found, i + 1, attempted, batch, tried)
      ensures found[i].id !in tried ==>
                Sifted(found, i + 1, attempted, batch + [found[i]], tried + {found[i].id})
    {
      hide NewOnes, IdsOf, DistinctIds;
      var before, snap := found[..i], found[i];
      IdsOfAppend(before, snap);
      NewOnesAppend(before, snap, attempted);
      assert found[..i + 1] == before + [snap];
      Unseen(found, i);
      if snap.id in tried {
        assert snap.id in attempted;
      } else {
        IdsOfAppend(batch, snap);
        AppendDistinct(batch, snap);
      }
    }

    lemma AllSifted(found: seq<Snapshot>, attempted: set<FileId>, batch: seq<Snapshot>, tried: set<FileId>)
      requires Sifted(found, |found|, attempted, batch, tried)
      ensures tried == attempted + IdsOf(batch) && IdsOf(batch) !! attempted && DistinctIds(batch)
      ensures batch == NewOnes(found, attempted) && IdsOf(batch) <= IdsOf(found) <= tried
    {
      assert found[..|found|] == found;
    }

    lemma AppendDistinct(batch: seq<Snapshot>, snap: Snapshot)
      requires DistinctIds(batch) && snap.id !in IdsOf(batch)
      ensures DistinctIds(batch + [snap])
    {
      forall i | 0 <= i < |batch|
        ensures batch[i].id != snap.id
      {
        assert batch[i].id in IdsOf(batch);
      }
    }

    lemma Unseen(found: seq<Snapshot>, i: nat)
      requires DistinctIds(found) && i < |found|
      ensures found[i].id !in IdsOf(found[..i])
    {
    }

    /** The statements behind `RecordOutcome`. */
    method WriteOutcome(fm: Snapshot, pushed: bool, marks: bool, falls: bool) returns (r: Outcome)
      requires store.Valid() && fm.id in store.rows
      modifies store
      ensures store.Valid() && store.clock > old(store.clock)
      ensures r == if pushed && marks then Pushed
                   else if !falls then Lost
                   else if fm.row.attempts + 1 >= 5 then GaveUp else Retried
      ensures fm.id in store.rows
      ensures store.rows == if r.Lost? then old(store.rows) else old(store.rows)[fm.id := store.rows[fm.id]]
      ensures !r.Lost? ==> store.rows[fm.id].updatedAt == store.clock
      ensures store.rows[fm.id].attempts == old(store.rows)[fm.id].attempts
      ensures r.Pushed? ==> store.rows[fm.id].status.Ready? && store.rows[fm.id].source == None
      ensures r.Retried? || r.GaveUp? ==>
                && store.rows[fm.id].source == old(store.rows)[fm.id].source
                && store.rows[fm.id].size == old(store.rows)[fm.id].size
                && store.rows[fm.id].status == if r.Retried? then Pending else Failed
    {
      var ok := false;
      if pushed {
        var size: nat := *;
        ok := store.MarkFileUploadReady(fm.id, size, marks);
        r := Pushed;
      }
      if !ok {
        var attempt := fm.row.attempts + 1;
        if attempt >= MAX_UPLOAD_ATTEMPTS {
          ok := store.MarkFileUploadFailed(fm.id, falls);
          r := if ok then GaveUp else Lost;
        } else {
          ok := store.RevertUploadToPending(fm.id, falls);
          r := if ok then Retried else Lost;
        }
      }
    }

    /**
     * Records how a push went, counting tries from the snapshot. `marks` and `falls` say whether the
     * statement that marks the row ready works, and the one that puts it back or gives it up.
     */
    method RecordOutcome(fm: Snapshot, pushed: bool, marks: bool, falls: bool) returns (r: Outcome)
      requires Valid() && fm.id in store.rows
      modifies this`past, this`smooth, store
      ensures Valid() && store.rows.Keys == old(store.rows).Keys
      ensures Onward(old(store.rows), old(store.clock), old(past), store.rows, store.clock, past)
      ensures r == if pushed && marks then Pushed
                   else if !falls then Lost
                   else if fm.row.attempts + 1 >= 5 then GaveUp else Retried
      ensures forall id :: id in store.rows && id != fm.id ==> store.rows[id] == old(store.rows)[id]
      ensures store.rows[fm.id].attempts == old(store.rows)[fm.id].attempts
      ensures r.Pushed? ==> store.rows[fm.id].status.Ready? && store.rows[fm.id].source == None
      ensures r.Retried? ==> store.rows[fm.id].status.Pending?
      ensures r.GaveUp? ==> store.rows[fm.id].status.Failed?
      ensures r.Retried? || r.GaveUp? ==>
                store.rows[fm.id].source == old(store.rows)[fm.id].source &&
                store.rows[fm.id].size == old(store.rows)[fm.id].size
      ensures r.Lost? ==> store.rows == old(store.rows)
      ensures past == old(past) || IsPending(old(store.rows), fm.id)
      ensures smooth <==> old(smooth) && (pushed ==> marks) && (pushed || falls)
    {
      hide Onward, StampsFit;
      smooth := smooth && (pushed ==> marks) && (pushed || falls);
      r := WriteOutcome(fm, pushed, marks, falls);
      if !r.Lost? && old(IsPending(store.rows, fm.id)) {
        past := past.(claims := past.claims[fm.id := store.clock]);
      }
      ClaimStamps(old(store.rows), old(past), old(store.clock));
      StampsFitAfter(old(store.rows), old(past), old(store.clock), store.rows, past, store.clock, fm.id);
      if r.Lost? {
        SameOnward(old(store.rows), old(store.clock), old(past), store.clock);
      } else {
        WriteOnward(old(store.rows), old(store.clock), old(past), store.rows, store.clock, past, fm.id);
      }
    }

    /** Pushes one claimed row and records how it went. */
    method FinalizeClaimed(fm: Snapshot, ghost universe: set<FileId>) returns (r: Outcome, ghost calm: bool)
      requires Valid() && store.rows.Keys <= universe && IsUploading(store.rows, fm.id)
      modifies this`past, this`done, this`alone, this`smooth, this`pushes, store
      ensures Valid() && store.rows.Keys <= universe && fm.id in store.rows
      ensures old(store.rows).Keys <= store.rows.Keys
      ensures Onward(old(store.rows), old(store.clock), old(past), store.rows, store.clock, past)
      // One push, and what becomes of the row is decided by it and the snapshot's count.
      ensures fm.id in pushes && pushes == old(pushes)[fm.id := pushes[fm.id]]
      ensures r.Pushed? ==> pushes[fm.id] && store.rows[fm.id].status.Ready? && store.rows[fm.id].source == None
      ensures r.Retried? ==> fm.row.attempts + 1 < 5 && store.rows[fm.id].status.Pending?
      ensures r.GaveUp? ==> fm.row.attempts + 1 >= 5 && store.rows[fm.id].status.Failed?
      ensures calm ==> store.rows[fm.id].attempts == old(store.rows)[fm.id].attempts
      ensures calm && r.Lost? ==> SameJob(old(store.rows)[fm.id], store.rows[fm.id])
      ensures smooth ==> (r.Pushed? <==> pushes[fm.id]) && !r.Lost?
      ensures alone ==> old(alone) && past == old(past) && store.rows.Keys == old(store.rows).Keys
      ensures alone ==> forall id :: id in store.rows && id != fm.id ==> store.rows[id] == old(store.rows)[id]
      ensures alone ==> store.rows[fm.id].attempts == old(store.rows)[fm.id].attempts
      ensures alone && !r.Pushed? ==> store.rows[fm.id].source == old(store.rows)[fm.id].source &&
                                      store.rows[fm.id].size == old(store.rows)[fm.id].size
      ensures (old(done) ==> done) && (smooth ==> old(smooth))
    {
      hide Onward, StampsFit;
      calm := Interference({fm.id}, universe); // while the bytes are pushed
      label Tried:
      var pushed: bool, marks: bool, falls: bool := *, *, *;
      pushes := pushes[fm.id := pushed];
      r := RecordOutcome(fm, pushed, marks, falls);
      OnwardTrans(old(store.rows), old(store.clock), old(past),
                  old@Tried(store.rows), old@Tried(store.clock), old@Tried(past), store.rows, store.clock, past);
    }

    /** The claim statement, and the claim on record if it won. */
    method ClaimRow(id: FileId) returns (ok: bool, won: bool)
      requires Valid()
      modifies this`past, this`smooth, store
      ensures Valid() && store.clock == old(store.clock) + 1
      ensures Onward(old(store.rows), old(store.clock), old(past), store.rows, store.clock, past)
      ensures store.rows == if ok then Claimed(old(store.rows), id, store.clock) else old(store.rows)
      ensures won <==> ok && IsPending(old(store.rows), id)
      ensures past == if won then old(past).(claims := old(past).claims[id := store.clock]) else old(past)
      ensures smooth <==> old(smooth) && ok
    {
      hide Onward, StampsFit;
      var works: bool := *;
      smooth := smooth && works;
      ok, won := store.ClaimPendingUpload(id, works);
      if won {
        past := past.(claims := past.claims[id := store.clock]);
      }
      ClaimStamps(old(store.rows), old(past), old(store.clock));
      StampsFitAfter(old(store.rows), old(past), old(store.clock), store.rows, past, store.clock, id);
      if won {
        WriteOnward(old(store.rows), old(store.clock), old(past), store.rows, store.clock, past, id);
      } else {
        SameOnward(old(store.rows), old(store.clock), old(past), store.clock);
      }
    }

    /**
     * A worker takes one candidate: it claims the row and, if it won the race, pushes it. Unless the
     * claim statement failed or the drain was cancelled, the row has been claimed by someone, or dealt
     * with by a worker that had claimed it before it was overwritten. `result` is the outcome of a won
     * claim.
     */
    method Attempt(fm: Snapshot, ghost universe: set<FileId>, ghost start: Time)
      returns (ghost clean: bool, ghost result: Option<Outcome>)
      requires Valid() && store.rows.Keys <= universe && start <= store.clock
      requires Since(fm.id, start) || IsPending(store.rows, fm.id)
      modifies this`past, this`done, this`alone, this`smooth, this`pushes, store
      ensures Valid() && store.rows.Keys <= universe && old(store.rows).Keys <= store.rows.Keys
      ensures Onward(old(store.rows), old(store.clock), old(past), store.rows, store.clock, past)
      ensures clean && !done ==> Since(fm.id, start)
      ensures smooth ==> clean
      // Nothing is claimed once the drain is cancelled; a won claim is followed by one push and one
      // recorded outcome.
      ensures old(done) ==> result.None?
      ensures result.None? ==> pushes == old(pushes) && (alone ==> store.rows == old(store.rows))
      ensures result.Some? ==> fm.id in pushes && pushes == old(pushes)[fm.id := pushes[fm.id]]
      ensures result == Some(Pushed) ==> pushes[fm.id] && store.rows[fm.id].status.Ready?
      ensures result == Some(Retried) ==> fm.row.attempts + 1 < 5 && store.rows[fm.id].status.Pending?
      ensures result == Some(GaveUp) ==> fm.row.attempts + 1 >= 5 && store.rows[fm.id].status.Failed?
      // Undisturbed and with every statement working, a pending row is tried, and settled or put back.
      ensures alone ==> old(alone) && OnlyThese({fm.id}, old(store.rows), old(past), start, store.rows, past)
      ensures alone && smooth && IsPending(old(store.rows), fm.id) && fm.row == old(store.rows)[fm.id] ==>
                fm.id in pushes && Concluded(old(store.rows)[fm.id], store.rows[fm.id], pushes[fm.id])
      ensures (old(done) ==> done) && (smooth ==> old(smooth))
    {
      hide Onward, StampsFit;
      clean, result := true, None;
      var _ := Interference({}, universe);
      ClaimedOrPending(old(store.rows), old(store.clock), old(past), fm.id, start);
      if done {
        return;                                // nothing claimed: the row stays pending
      }
      label Before:
      var ok, won := ClaimRow(fm.id);
      OnwardTrans(old(store.rows), old(store.clock), old(past),
                  old@Before(store.rows), old@Before(store.clock), old@Before(past), store.rows, store.clock, past);
      if !ok || !won {
        clean := ok;                           // not won: another process got it first
        return;
      }
      label Claimed:
      var r, _ := FinalizeClaimed(fm, universe);
      result := Some(r);
      KeptClaim(old@Claimed(store.rows), old@Claimed(store.clock), old@Claimed(past), fm.id);
      OnwardTrans(old(store.rows), old(store.clock), old(past),
                  old@Claimed(store.rows), old@Claimed(store.clock), old@Claimed(past), store.rows, store.clock, past);
    }

    lemma ClaimedOrPending(rows: Rows, clock: Time, was: History, id: FileId, start: Time)
      requires Onward(rows, clock, was, store.rows, store.clock, past) && start <= clock
      requires was.ClaimedSince(id, start) || IsPending(rows, id)
      ensures Since(id, start) || IsPending(store.rows, id)
    {
    }

    lemma KeptClaim(rows: Rows, clock: Time, was: History, id: FileId)
      requires Onward(rows, clock, was, store.rows, store.clock, past)
      ensures id in was.claims ==> id in past.claims && was.claims[id] <= past.claims[id]
    {
    }

    /** Works through a batch: each row is claimed by the worker about to push it. */
    method UploadBatch(batch: seq<Snapshot>, ghost universe: set<FileId>, ghost start: Time) returns (ghost clean: bool)
      requires Valid() && store.rows.Keys <= universe && start <= store.clock && DistinctIds(batch)
      requires forall i :: 0 <= i < |batch| ==>
                 IsPending(store.rows, batch[i].id) && batch[i].row == store.rows[batch[i].id]
      modifies this`past, this`done, this`alone, this`smooth, this`pushes, store
      ensures Valid() && store.rows.Keys <= universe
      ensures Onward(old(store.rows), old(store.clock), old(past), store.rows, store.clock, past)
      ensures clean && !done ==> forall id :: id in IdsOf(batch) ==> Since(id, start)
      ensures smooth ==> clean
      ensures forall id :: id in old(pushes) && id !in IdsOf(batch) ==> id in pushes && pushes[id] == old(pushes)[id]
      ensures pushes.Keys <= old(pushes).Keys + IdsOf(batch)
      // Undisturbed and with every statement working, each row of the batch is tried, and settled or put back.
      ensures alone ==> old(alone) && OnlyThese(IdsOf(batch), old(store.rows), old(past), start, store.rows, past)
      ensures alone && smooth ==>
                forall id :: id in IdsOf(batch) ==>
                  id in pushes && Concluded(old(store.rows)[id], store.rows[id], pushes[id])
      ensures (old(done) ==> done) && (smooth ==> old(smooth))
    {
      hide Onward, StampsFit, Concluded, IdsOf, OnlyThese, Tried;
      clean := true;
      NoneTried(batch, store.rows, past, start, pushes);
      SameOnward(store.rows, store.clock, past, store.clock);
      NoIds(batch);
      for i := 0 to |batch|
        invariant Valid() && store.rows.Keys <= universe && start <= store.clock
        invariant Onward(old(store.rows), old(store.clock), old(past), store.rows, store.clock, past)
        invariant clean && !done ==> forall j :: 0 <= j < i ==> Since(batch[j].id, start)
        invariant smooth ==> clean
        invariant pushes.Keys <= old(pushes).Keys + IdsOf(batch[..i])
        invariant forall id :: id in old(pushes) && id !in IdsOf(batch[..i]) ==>
                    id in pushes && pushes[id] == old(pushes)[id]
        invariant alone ==> old(alone)
        invariant alone ==> OnlyThese(IdsOf(batch[..i]), old(store.rows), old(past), start, store.rows, past)
        invariant alone && smooth ==> Tried(batch, i, old(store.rows), store.rows, pushes)
        invariant (old(done) ==> done) && (smooth ==> old(smooth))
      {
        assert batch[..i + 1] == batch[..i] + [batch[i]];
        IdsOfAppend(batch[..i], batch[i]);
        Unseen(batch, i);
        ClaimedOrPending(old(store.rows), old(store.clock), old(past), batch[i].id, start);
        if alone {
          NotThese(IdsOf(batch[..i]), batch[i].id, old(store.rows), old(past), start, store.rows, past);
        }
        label Before:
        ghost var answered, _ := Attempt(batch[i], universe, start);
        clean := clean && answered;
        if alone {
          TheseGrow(IdsOf(batch[..i]), batch[i].id, old(store.rows), old(past), start,
                    old@Before(store.rows), old@Before(past), store.rows, past);
          if smooth {
            TriedNext(batch, i, old(store.rows), old@Before(store.rows), old@Before(past), start, store.rows, past,
                      old@Before(pushes), pushes);
          }
        }
        SinceKept(old@Before(store.rows), old@Before(store.clock), old@Before(past), start);
        OnwardTrans(old(store.rows), old(store.clock), old(past),
                    old@Before(store.rows), old@Before(store.clock), old@Before(past), store.rows, store.clock, past);
      }
      assert batch[..|batch|] == batch;
      EachId(batch);
      AllTried(batch, old(store.rows), store.rows, pushes);
    }

    lemma NoIds(batch: seq<Snapshot>)
      ensures IdsOf(batch[..0]) == {}
    {
    }

    lemma EachId(batch: seq<Snapshot>)
      ensures forall id :: id in IdsOf(batch) ==> exists j :: 0 <= j < |batch| && batch[j].id == id
    {
    }

    lemma SinceKept(rows: Rows, clock: Time, was: History, start: Time)
      requires Onward(rows, clock, was, store.rows, store.clock, past)
      ensures clock <= store.clock && forall id :: was.ClaimedSince(id, start) ==> Since(id, start)
    {
    }

    /** One batch of a drain, and what it leaves of the promises made for the whole. */
    method UploadNext(batch: seq<Snapshot>, ghost attempted: set<FileId>, ghost universe: set<FileId>,
                      ghost rows: Rows, ghost was: History, ghost start: Time, ghost owed: set<FileId>)
      returns (ghost clean: bool)
      requires draining && Valid() && store.rows.Keys <= universe && start <= store.clock
      requires DistinctIds(batch) && IdsOf(batch) !! attempted && pushes.Keys <= attempted && Owed(owed, start)
      requires forall i :: 0 <= i < |batch| ==>
                 IsPending(store.rows, batch[i].id) && batch[i].row == store.rows[batch[i].id]
      requires alone && smooth ==> DoneSoFar(attempted, rows, was, start, store.rows, past, pushes)
      modifies this`past, this`done, this`alone, this`smooth, this`pushes, store
      ensures Valid() && store.rows.Keys <= universe && start <= store.clock && Owed(owed, start)
      ensures clean && !done ==> forall id :: id in IdsOf(batch) ==> Since(id, start)
      ensures forall id :: old(past).ClaimedSince(id, start) ==> Since(id, start)
      ensures (smooth ==> clean) && pushes.Keys <= attempted + IdsOf(batch)
      ensures alone && smooth ==>
                DoneSoFar(attempted + IdsOf(batch), rows, was, start, store.rows, past, pushes)
      ensures (old(done) ==> done) && (smooth ==> old(smooth)) && (alone ==> old(alone))
    {
      hide Onward, Concluded, IdsOf, DoneSoFar, OnlyThese, StampsFit, StillOwed, DistinctIds;
      if alone && smooth {
        BatchUntouched(batch, attempted, rows, was, start, store.rows, past, pushes);
      }
      clean := UploadBatch(batch, universe, start);
      OwedOnward(old(store.rows), old(store.clock), old(past), store.rows, store.clock, past, owed, start);
      SinceKept(old(store.rows), old(store.clock), old(past), start);
      if alone && smooth {
        SameKeys(IdsOf(batch), old(store.rows), old(past), start);
        BatchDone(IdsOf(batch), attempted, rows, was, start, old(store.rows), old(past), old(pushes),
                  store.rows, past, pushes);
      }
    }

    lemma SameKeys(ids: set<FileId>, rows: Rows, was: History, start: Time)
      requires OnlyThese(ids, rows, was, start, store.rows, past)
      ensures store.rows.Keys == rows.Keys
    {
    }

    /** A drain starts with a clean record. */
    ghost method StartRecord()
      modifies this`smooth, this`alone, this`pushes
      ensures alone && pushes == map[] && (smooth <==> !done)
    {
      smooth, alone, pushes := !done, true, map[];
    }

    /**
     * Keeps taking passes until one turns up nothing new. It terminates over any finite table, and when
     * it ends on its own with every claim answered, every row pending at its start has been claimed
     * since, or waits behind twenty rows that have, with a stamp another writer gave it meanwhile.
     * Undisturbed and with every statement working, every such row has been pushed once and is ready if
     * that went through, and otherwise pending with one more try, or failed at the fifth.
     */
    method ProcessPendingUploads(ghost universe: set<FileId>) returns (r: DrainResult, ghost clean: bool)
      requires Valid() && store.rows.Keys <= universe
      modifies this, store
      ensures Valid()
      ensures r.AlreadyRunning? <==> old(draining)
      ensures r.AlreadyRunning? ==> store.rows == old(store.rows) && draining
      ensures !r.AlreadyRunning? ==> !draining
      ensures !r.AlreadyRunning? && !r.Drained? ==> !smooth
      ensures r.Drained? && clean ==>
                forall id :: IsPending(old(store.rows), id) ==>
                  Since(id, old(store.clock)) || PassedOver(id, old(store.clock))
      ensures r.Drained? && smooth && alone ==>
                && store.rows.Keys == old(store.rows).Keys && pushes.Keys == PendingIds(old(store.rows))
                && forall id :: id in store.rows ==>
                     if IsPending(old(store.rows), id)
                     then Concluded(old(store.rows)[id], store.rows[id], pushes[id])
                     else store.rows[id] == old(store.rows)[id]
    {
      hide Onward, Concluded, IdsOf, DoneSoFar, OnlyThese, OldestPending, StillOwed, DistinctIds, NewOnes, StampsFit,
           PendingIds;
      clean := true;
      if draining {
        return AlreadyRunning, clean;
      }
      draining := true;
      StartRecord();
      ghost var start := store.clock;
      ghost var rows, was := store.rows, past;
      ghost var owed := PendingIds(store.rows);
      var attempted: set<FileId> := {};
      NothingDone(rows, was, start);
      AllOwed();
      PendingOnes(rows);
      while true
        invariant draining && Valid() && store.rows.Keys <= universe && start <= store.clock && attempted <= universe
        invariant Owed(owed, start)
        invariant clean && !done ==> forall id :: id in attempted ==> Since(id, start)
        invariant smooth ==> clean
        invariant pushes.Keys <= attempted
        invariant alone && smooth ==> DoneSoFar(attempted, rows, was, start, store.rows, past, pushes)
        decreases universe - attempted
      {
        label Pass:
        var _ := Interference({}, universe);
        OwedOnward(old@Pass(store.rows), old@Pass(store.clock), old@Pass(past),
                   store.rows, store.clock, past, owed, start);
        SinceKept(old@Pass(store.rows), old@Pass(store.clock), old@Pass(past), start);
        if done {
          draining := false;
          return Cancelled, clean;
        }
        var works: bool := *;
        smooth := smooth && works;
        var ok, batch, tried, pending := NextPendingBatch(attempted, works);
        if !ok {
          draining := false;
          return QueryFailed, clean;
        }
        if |batch| == 0 {
          draining := false;
          if clean {
            NothingLeft(attempted, start, owed, pending);
          }
          if smooth && alone {
            AllDone(attempted, rows, was, start, owed);
          }
          return Drained, clean;
        }
        FirstIsNew(batch);
        ghost var answered := UploadNext(batch, attempted, universe, rows, was, start, owed);
        clean := clean && answered;
        attempted := tried;
      }
    }

    lemma FirstIsNew(batch: seq<Snapshot>)
      requires batch != []
      ensures batch[0].id in IdsOf(batch)
    {
    }

    lemma AllOwed()
      requires Valid()
      ensures Owed(PendingIds(store.rows), store.clock)
    {
    }

    /** An empty pass means no owed row is untouched: rows tried before carry younger stamps. */
    lemma NothingLeft(attempted: set<FileId>, start: Time, owed: set<FileId>, found: seq<Snapshot>)
      requires Valid() && Owed(owed, start)
      requires forall id :: id in attempted ==> Since(id, start)
      requires OldestPending(store.rows, PENDING_UPLOAD_BATCH_SIZE, found) && IdsOf(found) <= attempted
      ensures forall id :: id in owed ==> Since(id, start) || PassedOver(id, start)
    {
      forall i | 0 <= i < |found|
        ensures found[i].row.updatedAt > start
      {
        assert found[i].id in IdsOf(found);
      }
      forall id | IsPending(store.rows, id)
        ensures store.rows[id].updatedAt > start
      {
        if id in IdsOf(found) {
          var i :| 0 <= i < |found| && found[i].id == id;
        } else {
          assert |found| == PENDING_UPLOAD_BATCH_SIZE && found[0].row.updatedAt <= store.rows[id].updatedAt;
        }
      }
    }

    /** Undisturbed, no row can be passed over, so every one has been tried. */
    lemma AllDone(attempted: set<FileId>, rows: Rows, was: History, start: Time, owed: set<FileId>)
      requires DoneSoFar(attempted, rows, was, start, store.rows, past, pushes) && owed == PendingIds(rows)
      requires StampsFit(rows, was, start) && pushes.Keys <= attempted
      requires forall id :: id in owed ==> Since(id, start) || PassedOver(id, start)
      ensures pushes.Keys == owed && store.rows.Keys == rows.Keys
      ensures forall id :: id in store.rows ==>
                if IsPending(rows, id) then id in pushes && Concluded(rows[id], store.rows[id], pushes[id])
                else store.rows[id] == rows[id]
    {
      hide Concluded;
    }
  }
}
