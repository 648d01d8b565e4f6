/** Moves, deletions, restores and purges on the disk backend: renames, row updates and compensating renames. */
module DiskRecycle {
  import opened Common
  import opened DiskFs
  import opened FolderStore
  import opened Paths

  /**
   * How an operation ended: refused before anything was touched, nothing to do, stopped at the rename,
   * the rows could not be written, everything done, or done but for its last row.
   */
  datatype Outcome = Refused | AlreadyThere | RenameFailed | RecordFailed | Done | LastRowKept

  datatype Op =
    | Move(id: RowId, name: string, dstPrefix: Key)
    | DeleteFile(id: RowId, name: string, uuid: string, itemId: ItemId)
    | DeleteFolder(slug: string, trimmed: string, uuid: string, itemId: ItemId)
    | Restore(itemId: ItemId, newRow: RowId)

  function BinDir(home: Key, uuid: string): Key { home + "/.recyclebin/" + uuid }

  /** Two items' directories never overlap. */
  lemma BinDirsApart(home: Key, u: string, v: string, k: Key)
    requires Segment(u) && Segment(v) && u != v && At(BinDir(home, v), k)
    ensures !At(BinDir(home, u), k)
  {
    var lead := home + "/.recyclebin/";
    var rest := k[|lead|..];
    assert k == lead + rest && BinDir(home, u) == lead + u && BinDir(home, v) == lead + v;
    if At(BinDir(home, u), k) {
      assert At(u, rest) && At(v, rest) by {
        assert forall w: string {:trigger lead + w} :: lead + w == k ==> w == rest;
        assert forall w: string {:trigger lead + w + "/"} :: lead + w + "/" <= k ==> w + "/" <= rest;
      }
      SegmentsClash(u, v, rest);
    }
  }

  lemma SegmentsClash(u: string, v: string, rest: string)
    requires Segment(u) && Segment(v) && At(u, rest) && At(v, rest)
    ensures u == v
  {
    var x, y := rest[|u|..], rest[|v|..];
    assert rest == u + x && rest == v + y;
    assert u + "/" <= rest ==> rest[|u|] == '/';
    assert v + "/" <= rest ==> rest[|v|] == '/';
  }

  /** The last element of a path. */
  function BaseOf(path: string): string {
    if path == "" then ""
    else if path[|path| - 1] == '/' then ""
    else BaseOf(path[..|path| - 1]) + [path[|path| - 1]]
  }

  /** A name is the last element of its path. */
  lemma {:induction false} BaseOfJoin(dir: string, name: string)
    requires '/' !in name && (dir == "" || dir[|dir| - 1] == '/')
    ensures BaseOf(dir + name) == name
  {
    var path := dir + name;
    if name != "" {
      var short := name[..|name| - 1];
      assert path[..|path| - 1] == dir + short;
      assert path[|path| - 1] == name[|name| - 1];
      BaseOfJoin(dir, short);
    }
  }

  /** A drive's folder lies neither in the bin nor above it. */
  lemma DriveOutsideBin(home: Key, slug: string, trimmed: string, uuid: string, name: string)
    requires '/' !in slug && slug != ".recyclebin"
    ensures var root, rp := home + "/" + slug + "/" + trimmed, home + "/.recyclebin/" + uuid + "/" + name;
            !At(root, rp) && !At(rp, root)
  {
    var root, rp := home + "/" + slug + "/" + trimmed, home + "/.recyclebin/" + uuid + "/" + name;
    var r, b := slug + "/" + trimmed, ".recyclebin" + "/" + (uuid + "/" + name);
    assert root == home + "/" + r && rp == home + "/" + b;
    if At(root, rp) {
      assert r <= b by {
        assert forall i :: 0 <= i < |r| ==> r[i] == root[|home| + 1 + i] == rp[|home| + 1 + i] == b[i];
      }
      FirstSlash(slug, ".recyclebin", trimmed, uuid + "/" + name);
    }
    if At(rp, root) {
      assert b <= r by {
        assert forall i :: 0 <= i < |b| ==> b[i] == rp[|home| + 1 + i] == root[|home| + 1 + i] == r[i];
      }
      FirstSlash(".recyclebin", slug, uuid + "/" + name, trimmed);
    }
  }

  /** The tables after a file's deletion: the item is there unless it failed, the row until the very end. */
  ghost predicate FileBinned(r: Outcome, id: RowId, src: Key, prefix: Key, rp: Key, itemId: ItemId,
                             rows: Rows, items: Items, clock: Time, rows': Rows, items': Items)
  {
    && rows' == (if r.Done? then rows - {id} else rows)
    && items' == if r.Done? || r.LastRowKept? then items[itemId := Item(src, prefix, rp, false, clock + 1)]
                 else items
  }

  lemma FileUnbinned(id: RowId, src: Key, prefix: Key, rp: Key, itemId: ItemId,
                     rows: Rows, items: Items, clock: Time, rows': Rows, items': Items)
    requires FileBinned(Done, id, src, prefix, rp, itemId, rows, items, clock, rows', items') && itemId !in items
    ensures items'[itemId] == Item(src, prefix, rp, false, clock + 1) && items' - {itemId} == items
    ensures rows' == rows - {id}
  {
  }

  /** The same row, under a new id. */
  ghost predicate Reborn(id: RowId, newRow: RowId, before: Rows, after: Rows) {
    && id in before
    && after == (before - {id})[newRow := before[id]]
  }

  class DiskManager {
    const home: Key
    const store: Store
    const disk: Disk

    /** How many steps of either kind have gone wrong so far. */
    ghost function Failures(): nat
      reads disk, store
    {
      disk.failures + store.failures
    }

    constructor (home: Key, store: Store, disk: Disk)
      ensures this.home == home && this.store == store && this.disk == disk
    {
      this.home, this.store, this.disk := home, store, disk;
    }

    /** A place inside a free one has nothing to move. */
    lemma NothingToMove(files: Files, src: Key, dst: Key)
      requires !Occupied(files, dst) && At(dst, src)
      ensures Moved(files, src, dst) == files
    {
      hide Moved;
      forall k
        ensures k in Moved(files, src, dst) <==> k in files
        ensures k in files ==> Moved(files, src, dst)[k] == files[k]
      {
        MovedAt(files, src, dst, k);
        if At(src, k) { AtTrans(dst, src, k); }
        if At(dst, k) {
          RebaseBack(k, dst, src);
          AtTrans(dst, src, Rebase(k, dst, src));
        }
      }
    }

    /** The compensating rename; when it fails the files stay where the operation put them. */
    method Undo(src: Key, dst: Key, ghost before: Files) returns (warned: bool)
      requires disk.files == Moved(before, src, dst) && Separate(src, dst)
      modifies disk`files, disk`alive, disk`failures
      ensures disk.alive ==> old(disk.alive)
      ensures !Occupied(before, dst) ==> disk.files == before || disk.files == Moved(before, src, dst)
      ensures !Occupied(before, dst) ==> Conserved(before, disk.files)
      ensures !Occupied(before, dst) && disk.alive ==> disk.files == if warned then Moved(before, src, dst) else before
      ensures old(disk.failures) <= disk.failures <= old(disk.failures) + 1
      ensures !Occupied(before, dst) && disk.failures == old(disk.failures) ==> disk.files == before
    {
      if !Occupied(before, dst) {
        MovedThereAndBack(before, src, dst);
        MovedConserves(before, src, dst);
        if At(dst, src) {
          NothingToMove(before, src, dst);
        } else if src != dst {
          MovedAway(before, src, dst);
        }
      }
      var back := disk.Rename(dst, src);
      warned := !back;
    }

    /** Nothing is lost or duplicated, unless a Stat failed and hid a file that was in the way. */
    ghost predicate Kept(before: Files)
      reads disk
    {
      disk.sighted ==> Conserved(before, disk.files)
    }

    lemma KeptMoved(before: Files, src: Key, dst: Key)
      requires disk.sighted ==>
                 disk.files == before ||
                 (disk.files == Moved(before, src, dst) && !Occupied(before, dst))
      ensures Kept(before)
    {
      if disk.sighted && !Occupied(before, dst) {
        MovedConserves(before, src, dst);
      }
    }

    /** Renames into a place checked to be free, making the directory it should be in. */
    method Relocate(src: Key, dst: Key, dir: Key) returns (r: Outcome)
      modifies disk
      ensures r.Refused? || r.RenameFailed? || r.Done?
      ensures disk.files == old(disk.files) || disk.files == Moved(old(disk.files), src, dst)
      ensures r.Done? ==> disk.files == Moved(old(disk.files), src, dst) && Separate(src, dst)
      ensures disk.sighted ==> disk.files == old(disk.files) || !Occupied(old(disk.files), dst)
      ensures disk.sighted && r.Done? ==> !Occupied(old(disk.files), dst)
      ensures disk.alive && !r.Done? ==> disk.files == old(disk.files)
      ensures (disk.alive ==> old(disk.alive)) && (disk.sighted ==> old(disk.sighted))
      ensures Kept(old(disk.files))
      ensures disk.failures >= old(disk.failures) && (disk.sighted && r.Done? ==> disk.failures == old(disk.failures))
      ensures disk.failures == old(disk.failures) ==>
                (r.Done? <==> !Occupied(old(disk.files), dst) && Separate(src, dst))
    {
      ghost var before := disk.files;
      var taken := disk.Stat(dst);
      if taken {
        return Refused;
      }
      var made := disk.MkdirAll(dir);
      if !made {
        return Refused;
      }
      var renamed := disk.Rename(src, dst);
      KeptMoved(before, src, dst);
      r := if renamed then Done else RenameFailed;
    }

    /** A file row as MoveFile and DeleteFileV2 look it up. */
    predicate FileRow(id: RowId)
      reads store
    {
      id in store.rows && !store.rows[id].isDir && store.rows[id].Live()
    }

    /** Relocates a file into another folder, keeping its name. */
    method MoveFile(id: RowId, name: string, dstPrefix: Key) returns (r: Outcome, warned: bool)
      requires store.Valid() && '/' !in name
      modifies disk, store
      ensures store.Valid() && store.items == old(store.items) && Kept(old(disk.files))
      ensures r.Done? ==> old(FileRow(id))
      ensures r.Done? ==>
                disk.files == Moved(old(disk.files), old(store.rows[id].pathKey), dstPrefix + "/" + name)
      ensures r.Done? ==> store.rows == old(store.rows)[id :=
                            old(store.rows[id]).(pathKey := dstPrefix + "/" + name, prefix := dstPrefix)]
      // The row is rewritten only once the file is at its new place.
      ensures store.rows == old(store.rows) || r.Done?
      ensures !r.Done? && disk.alive && disk.sighted && !warned ==> disk.files == old(disk.files)
      ensures r.AlreadyThere? <==> old(FileRow(id)) && old(store.rows[id].pathKey) == dstPrefix + "/" + name
      ensures (disk.alive ==> old(disk.alive)) && (disk.sighted ==> old(disk.sighted))
      // One step gone wrong is undone.
      ensures !r.Done? && disk.alive && disk.sighted && Failures() <= old(Failures()) + 1 ==>
                disk.files == old(disk.files)
      // With every step working, it fails only if something is there already or the way leads into itself.
      ensures Failures() >= old(Failures()) && (disk.sighted && r.Done? ==> Failures() == old(Failures()))
      ensures Failures() == old(Failures()) && old(FileRow(id)) && !r.AlreadyThere? ==>
                (r.Done? <==> !Occupied(old(disk.files), dstPrefix + "/" + name) &&
                              Separate(old(store.rows[id].pathKey), dstPrefix + "/" + name))
      ensures warned ==> r.RecordFailed?
    {
      hide Moved;
      warned := false;
      ghost var before := disk.files;
      if !FileRow(id) {
        return Refused, false;
      }
      var src, dst := store.rows[id].pathKey, dstPrefix + "/" + name;
      if dst == src {
        return AlreadyThere, false;
      }
      DirOfJoin(dstPrefix, name);
      r := Relocate(src, dst, dstPrefix);
      if !r.Done? {
        return;
      }
      var up := disk.Survive();
      var updated := false;
      if up {
        updated := store.UpdateFileMetadataLocation(id, dst, dstPrefix);
      }
      if !updated {
        warned := Undo(src, dst, before);
        KeptMoved(before, src, dst);
        r := RecordFailed;
      }
    }

    // ---------- Files ----------

    lemma BinFree(uuid: string, name: string)
      requires !Occupied(disk.files, BinDir(home, uuid))
      ensures !Occupied(disk.files, BinFile(uuid, name))
    {
      var rp := BinFile(uuid, name);
      forall k | At(rp, k)
        ensures k !in disk.files
      {
        AtTrans(BinDir(home, uuid), rp, k);
      }
    }

    /** Renames into a fresh directory of the bin: no check is needed for that place to be free. */
    method ToBin(src: Key, rp: Key) returns (ok: bool)
      requires !Occupied(disk.files, rp)
      modifies disk`files, disk`alive, disk`failures
      ensures disk.files == old(disk.files) || disk.files == Moved(old(disk.files), src, rp)
      ensures ok ==> disk.files == Moved(old(disk.files), src, rp) && Separate(src, rp)
      ensures disk.alive && !ok ==> disk.files == old(disk.files)
      ensures (disk.alive ==> old(disk.alive)) && Conserved(old(disk.files), disk.files)
      ensures disk.failures >= old(disk.failures) && (ok ==> disk.failures == old(disk.failures))
      ensures !ok && Separate(src, rp) ==> disk.failures > old(disk.failures)
    {
      MovedConserves(disk.files, src, rp);
      ok := disk.MkdirAll(DirOf(rp));
      if ok {
        ok := disk.Rename(src, rp);
      }
    }

    /** Moves a file into the bin: bytes first, then the item, then its row goes. */
    method RecycleFile(id: RowId, src: Key, prefix: Key, rp: Key, itemId: ItemId)
      returns (r: Outcome, warned: bool)
      requires store.Valid() && itemId !in store.items && !Occupied(disk.files, rp)
      modifies disk`files, disk`alive, disk`failures, store
      ensures store.Valid() && Conserved(old(disk.files), disk.files)
      ensures r.RenameFailed? || r.RecordFailed? || r.Done? || r.LastRowKept?
      ensures r.Done? || r.LastRowKept? ==> disk.files == Moved(old(disk.files), src, rp) && Separate(src, rp)
      ensures FileBinned(r, id, src, prefix, rp, itemId, old(store.rows), old(store.items), old(store.clock),
                         store.rows, store.items)
      ensures (r.RenameFailed? || r.RecordFailed?) && disk.alive && !warned ==> disk.files == old(disk.files)
      ensures disk.alive ==> old(disk.alive)
      ensures Failures() >= old(Failures()) && (r.Done? ==> Failures() == old(Failures()))
      ensures Failures() == old(Failures()) && Separate(src, rp) ==> r.Done?
      ensures (r.RenameFailed? || r.RecordFailed?) && disk.alive && Failures() <= old(Failures()) + 1 ==>
                disk.files == old(disk.files)
      ensures warned ==> r.RecordFailed?
    {
      hide Moved, Conserved;
      warned := false;
      ghost var before := disk.files;
      var ok := ToBin(src, rp);
      if !ok {
        return RenameFailed, false;
      }
      ghost var moved := disk.files;
      assert Conserved(before, moved) && moved == Moved(before, src, rp);
      r := RecordFile(id, src, prefix, rp, itemId);
      assert disk.files == moved;
      if r.RecordFailed? {
        warned := Undo(src, rp, before);
      }
    }

    /** The two statements behind a file's deletion: its item, then its row. */
    method RecordFile(id: RowId, src: Key, prefix: Key, rp: Key, itemId: ItemId) returns (r: Outcome)
      requires store.Valid() && itemId !in store.items
      modifies disk`alive, disk`failures, store
      ensures store.Valid() && (r.RecordFailed? || r.Done? || r.LastRowKept?)
      ensures FileBinned(r, id, src, prefix, rp, itemId, old(store.rows), old(store.items), old(store.clock),
                         store.rows, store.items)
      ensures disk.alive ==> old(disk.alive)
      ensures if r.Done? then Failures() == old(Failures()) else Failures() > old(Failures())
      ensures disk.failures >= old(disk.failures)
    {
      var up := disk.Survive();
      if !up {
        return RecordFailed;
      }
      var recorded := store.CreateRecycleBinItem(itemId, src, prefix, rp, false);
      if !recorded {
        return RecordFailed;
      }
      up := disk.Survive();
      var dropped := false;
      if up {
        dropped := store.DeleteFileMetadataByID(id);
      }
      r := if dropped then Done else LastRowKept;
    }

    method DeleteFileV2(id: RowId, name: string, uuid: string, itemId: ItemId) returns (r: Outcome, warned: bool)
      requires store.Valid() && itemId !in store.items && !Occupied(disk.files, BinDir(home, uuid))
      modifies disk`files, disk`alive, disk`failures, store
      ensures store.Valid() && Conserved(old(disk.files), disk.files)
      ensures r.Refused? <==> !old(FileRow(id))
      ensures r.Refused? ==> store.rows == old(store.rows) && store.items == old(store.items)
      ensures !r.Refused? ==> FileBinned(r, id, old(store.rows[id].pathKey), old(store.rows[id].prefix),
                                         BinFile(uuid, name), itemId,
                                         old(store.rows), old(store.items), old(store.clock), store.rows, store.items)
      ensures r.Done? || r.LastRowKept? ==>
                && store.items[itemId].originalPathKey == old(store.rows[id].pathKey)
                && store.items[itemId].recyclePathKey == home + "/.recyclebin/" + uuid + "/" + name
                && disk.files == Moved(old(disk.files), old(store.rows[id].pathKey), BinFile(uuid, name))
                && Separate(old(store.rows[id].pathKey), BinFile(uuid, name))
      ensures !r.Done? && !r.LastRowKept? && disk.alive && !warned ==> disk.files == old(disk.files)
      ensures disk.alive ==> old(disk.alive)
      // One step gone wrong before the item is there is undone; with every step working, the file is deleted.
      ensures !r.Done? && !r.LastRowKept? && disk.alive && Failures() <= old(Failures()) + 1 ==>
                disk.files == old(disk.files)
      ensures Failures() >= old(Failures()) && (r.Done? ==> Failures() == old(Failures()))
      ensures Failures() == old(Failures()) && old(FileRow(id)) &&
              Separate(old(store.rows[id].pathKey), BinFile(uuid, name)) ==>
                r.Done?
      ensures warned ==> r.RecordFailed?
    {
      if !FileRow(id) {
        return Refused, false;
      }
      BinFree(uuid, name);
      r, warned := RecycleFile(id, store.rows[id].pathKey, store.rows[id].prefix, BinFile(uuid, name), itemId);
    }

    function BinFile(uuid: string, name: string): Key { BinDir(home, uuid) + "/" + name }

    /** Puts a file back where it was, gives it a new row and drops the item. */
    method PutFileBack(itemId: ItemId, newRow: RowId) returns (r: Outcome, warned: bool)
      requires store.Valid() && newRow !in store.rows && itemId in store.items
      modifies disk, store
      ensures store.Valid() && Kept(old(disk.files))
      ensures r.Done? || r.LastRowKept? ==>
                var item := old(store.items[itemId]);
                && disk.files == Moved(old(disk.files), item.recyclePathKey, item.originalPathKey)
                && store.rows == old(store.rows)[newRow :=
                     Row(false, item.originalPathKey, item.originalPrefix, None)]
      ensures store.items == if r.Done? then old(store.items) - {itemId} else old(store.items)
      ensures r.Done? || r.LastRowKept? || store.rows == old(store.rows)
      ensures !r.Done? && !r.LastRowKept? && disk.alive && disk.sighted && !warned ==> disk.files == old(disk.files)
      ensures (disk.alive ==> old(disk.alive)) && (disk.sighted ==> old(disk.sighted))
      // One step gone wrong before the rows are back is undone.
      ensures !r.Done? && !r.LastRowKept? && disk.alive && disk.sighted && Failures() <= old(Failures()) + 1 ==>
                disk.files == old(disk.files)
      ensures Failures() >= old(Failures()) && (disk.sighted && r.Done? ==> Failures() == old(Failures()))
      ensures Failures() == old(Failures()) ==>
                var item := old(store.items[itemId]);
                r.Done? <==> !Occupied(old(disk.files), item.originalPathKey) &&
                             Separate(item.recyclePathKey, item.originalPathKey)
      ensures warned ==> r.RecordFailed?
    {
      hide Moved, Conserved;
      warned := false;
      ghost var before := disk.files;
      var item := store.items[itemId];
      var rp, path := item.recyclePathKey, item.originalPathKey;
      r := Relocate(rp, path, item.originalPrefix);
      if !r.Done? {
        return;
      }
      var up := disk.Survive();
      var created := false;
      if up {
        created := store.CreateFileMetadata(newRow, path, item.originalPrefix);
      }
      if !created {
        warned := Undo(rp, path, before);
        KeptMoved(before, rp, path);
        return RecordFailed, warned;
      }
      r := DropItem(itemId);
    }

    /** Folder items move their whole tree back and revive the hidden rows; files follow the classic path. */
    method RestoreFile(itemId: ItemId, newRow: RowId) returns (r: Outcome, warned: bool)
      requires store.Valid() && newRow !in store.rows && itemId in store.items
      modifies disk, store
      ensures store.Valid() && Kept(old(disk.files))
      ensures r.Done? || r.LastRowKept? ==>
                var item := old(store.items[itemId]);
                && disk.files == Moved(old(disk.files), item.recyclePathKey, item.originalPathKey)
                && store.rows == if item.isDir then Unhide(old(store.rows), item.originalPathKey, item.createdAt)
                   else old(store.rows)[newRow := Row(false, item.originalPathKey, item.originalPrefix, None)]
      ensures store.items == if r.Done? then old(store.items) - {itemId} else old(store.items)
      ensures r.Done? || r.LastRowKept? || store.rows == old(store.rows)
      ensures !r.Done? && !r.LastRowKept? && disk.alive && disk.sighted && !warned ==> disk.files == old(disk.files)
      ensures (disk.alive ==> old(disk.alive)) && (disk.sighted ==> old(disk.sighted))
      // One step gone wrong before the rows are back is undone.
      ensures !r.Done? && !r.LastRowKept? && disk.alive && disk.sighted && Failures() <= old(Failures()) + 1 ==>
                disk.files == old(disk.files)
      ensures Failures() >= old(Failures()) && (disk.sighted && r.Done? ==> Failures() == old(Failures()))
      ensures Failures() == old(Failures()) ==>
                var item := old(store.items[itemId]);
                r.Done? <==> !Occupied(old(disk.files), item.originalPathKey) &&
                             Separate(item.recyclePathKey, item.originalPathKey)
      ensures warned ==> r.RecordFailed?
    {
      if store.items[itemId].isDir {
        r, warned := RestoreFolder(itemId);
      } else {
        r, warned := PutFileBack(itemId, newRow);
      }
    }

    method DropItem(itemId: ItemId) returns (r: Outcome)
      requires store.Valid()
      modifies disk`alive, disk`failures, store`items, store`failures
      ensures store.Valid() && (r.Done? || r.LastRowKept?)
      ensures store.items == if r.Done? then old(store.items) - {itemId} else old(store.items)
      ensures disk.alive ==> old(disk.alive)
      ensures if r.Done? then Failures() == old(Failures()) else Failures() > old(Failures())
    {
      var up := disk.Survive();
      var dropped := false;
      if up {
        dropped := store.DeleteRecycleBinItemByID(itemId);
      }
      r := if dropped then Done else LastRowKept;
    }

    // ---------- Folders ----------

    /** Puts a folder's whole tree back and revives the rows hidden with it. */
    method RestoreFolder(itemId: ItemId) returns (r: Outcome, warned: bool)
      requires store.Valid() && itemId in store.items
      modifies disk, store
      ensures store.Valid() && Kept(old(disk.files))
      ensures r.Done? || r.LastRowKept? ==>
                var item := old(store.items[itemId]);
                && disk.files == Moved(old(disk.files), item.recyclePathKey, item.originalPathKey)
                && store.rows == Unhide(old(store.rows), item.originalPathKey, item.createdAt)
      ensures store.items == if r.Done? then old(store.items) - {itemId} else old(store.items)
      ensures r.Done? || r.LastRowKept? || store.rows == old(store.rows)
      ensures !r.Done? && !r.LastRowKept? && disk.alive && disk.sighted && !warned ==> disk.files == old(disk.files)
      ensures (disk.alive ==> old(disk.alive)) && (disk.sighted ==> old(disk.sighted))
      // One step gone wrong before the rows are back is undone.
      ensures !r.Done? && !r.LastRowKept? && disk.alive && disk.sighted && Failures() <= old(Failures()) + 1 ==>
                disk.files == old(disk.files)
      ensures Failures() >= old(Failures()) && (disk.sighted && r.Done? ==> Failures() == old(Failures()))
      ensures Failures() == old(Failures()) ==>
                var item := old(store.items[itemId]);
                r.Done? <==> !Occupied(old(disk.files), item.originalPathKey) &&
                             Separate(item.recyclePathKey, item.originalPathKey)
      ensures warned ==> r.RecordFailed?
    {
      hide Moved, Conserved;
      warned := false;
      ghost var before := disk.files;
      var item := store.items[itemId];
      r := Relocate(item.recyclePathKey, item.originalPathKey, DirOf(item.originalPathKey));
      if !r.Done? {
        return;
      }
      var up := disk.Survive();
      var unhidden := false;
      if up {
        unhidden := store.UnhideFolderSubtree(item.originalPathKey, item.createdAt);
      }
      if !unhidden {
        warned := Undo(item.recyclePathKey, item.originalPathKey, before);
        KeptMoved(before, item.recyclePathKey, item.originalPathKey);
        return RecordFailed, warned;
      }
      r := DropItem(itemId);
    }

    /** Moves a folder's whole tree into the bin as one rename; item and hidden rows in one transaction. */
    method RecycleFolder(root: Key, prefix: Key, rp: Key, itemId: ItemId) returns (r: Outcome, warned: bool)
      requires RootRow(store.rows, root, prefix) && store.Valid() && itemId !in store.items && !Occupied(disk.files, rp)
      modifies disk`files, disk`alive, disk`failures, store
      ensures store.Valid() && Conserved(old(disk.files), disk.files)
      ensures r.RenameFailed? || r.RecordFailed? || r.Done?
      ensures r.Done? ==>
                && disk.files == Moved(old(disk.files), root, rp) && Separate(root, rp)
                && Recorded(old(store.rows), old(store.items), old(store.clock),
                            store.rows, store.items, root, rp, itemId)
      ensures !r.Done? ==> store.items == old(store.items) && store.rows == old(store.rows)
      ensures !r.Done? && disk.alive && !warned ==> disk.files == old(disk.files)
      ensures disk.alive ==> old(disk.alive)
      ensures Failures() >= old(Failures()) && (r.Done? ==> Failures() == old(Failures()))
      ensures Failures() == old(Failures()) && Separate(root, rp) ==> r.Done?
      ensures !r.Done? && disk.alive && Failures() <= old(Failures()) + 1 ==> disk.files == old(disk.files)
      ensures warned ==> r.RecordFailed?
    {
      hide Moved, Conserved;
      warned := false;
      ghost var before := disk.files;
      var ok := ToBin(root, rp);
      if !ok {
        return RenameFailed, false;
      }
      ghost var moved := disk.files;
      assert Conserved(before, moved) && moved == Moved(before, root, rp);
      var up := disk.Survive();
      var recorded := false;
      if up {
        recorded := store.RecordFolderDeletion(itemId, root, prefix, rp);
      }
      assert disk.files == moved;
      if recorded {
        return Done, false;
      }
      warned := Undo(root, rp, before);
      r := RecordFailed;
    }

    method DeleteDir(slug: string, trimmed: string, uuid: string, itemId: ItemId) returns (r: Outcome, warned: bool)
      requires store.Valid() && itemId !in store.items && !Occupied(disk.files, BinDir(home, uuid))
      modifies disk`files, disk`alive, disk`failures, store
      ensures store.Valid() && Conserved(old(disk.files), disk.files)
      ensures r.Refused? <==> trimmed == "" || !old(store.DirectoryExists(home + "/" + slug + "/" + trimmed))
      ensures r.Done? ==>
                var root := home + "/" + slug + "/" + trimmed;
                var rp := home + "/.recyclebin/" + uuid + "/" + BaseOf(trimmed);
                && disk.files == Moved(old(disk.files), root, rp) && Separate(root, rp)
                && Recorded(old(store.rows), old(store.items), old(store.clock),
                            store.rows, store.items, root, rp, itemId)
      ensures !r.Done? ==> store.items == old(store.items) && store.rows == old(store.rows)
      ensures !r.Done? && disk.alive && !warned ==> disk.files == old(disk.files)
      ensures disk.alive ==> old(disk.alive)
      // One step gone wrong is undone; with every step working, an existing folder is deleted.
      ensures !r.Done? && disk.alive && Failures() <= old(Failures()) + 1 ==> disk.files == old(disk.files)
      ensures Failures() >= old(Failures()) && (r.Done? ==> Failures() == old(Failures()))
      ensures Failures() == old(Failures()) && !r.Refused? &&
              Separate(home + "/" + slug + "/" + trimmed, BinFile(uuid, BaseOf(trimmed))) ==>
                r.Done?
      ensures warned ==> r.RecordFailed?
    {
      if trimmed == "" || !store.DirectoryExists(home + "/" + slug + "/" + trimmed) {
        return Refused, false;
      }
      BinFree(uuid, BaseOf(trimmed));
      var root := home + "/" + slug + "/" + trimmed;
      var row :| row in store.rows && store.rows[row].isDir && store.rows[row].Live()
                 && store.rows[row].pathKey == root;
      r, warned := RecycleFolder(root, store.rows[row].prefix, BinFile(uuid, BaseOf(trimmed)), itemId);
    }

    /** Deleting a folder and restoring it at once is the identity on the disk, on every row and on the bin. */
    method DeleteThenRestore(slug: string, trimmed: string, uuid: string, itemId: ItemId, newRow: RowId)
      returns (deleted: Outcome, restored: Outcome)
      requires store.Valid() && itemId !in store.items && !Occupied(disk.files, BinDir(home, uuid))
      requires newRow !in store.rows
      modifies disk, store
      ensures store.Valid()
      ensures deleted.Done? && restored.Done? ==>
                disk.files == old(disk.files) && store.rows == old(store.rows) && store.items == old(store.items)
      // With every step working, a drive's folder goes and comes back.
      ensures Failures() == old(Failures()) && trimmed != "" &&
              old(store.DirectoryExists(home + "/" + slug + "/" + trimmed)) && '/' !in slug && slug != ".recyclebin" ==>
                deleted.Done? && restored.Done?
    {
      ghost var root, rp := home + "/" + slug + "/" + trimmed, BinFile(uuid, BaseOf(trimmed));
      ghost var files, rows, items, clock := disk.files, store.rows, store.items, store.clock;
      BinFree(uuid, BaseOf(trimmed));
      if '/' !in slug && slug != ".recyclebin" {
        DriveOutsideBin(home, slug, trimmed, uuid, BaseOf(trimmed));
      }
      var warned;
      deleted, warned := DeleteDir(slug, trimmed, uuid, itemId);
      restored := Refused;
      if deleted.Done? {
        RowsComeBack(rows, items, clock, store.rows, store.items, root, rp, itemId);
        MovedThereAndBack(files, root, rp);
        if '/' !in slug && slug != ".recyclebin" {
          MovedAway(files, root, rp);
        }
        restored, warned := RestoreFile(itemId, newRow);
      }
    }

    /** Deleting a file and restoring it at once puts its bytes back and lists it where it was, under a new id. */
    method DeleteThenRestoreFile(id: RowId, name: string, uuid: string, itemId: ItemId, newRow: RowId)
      returns (deleted: Outcome, restored: Outcome)
      requires store.Valid() && itemId !in store.items && !Occupied(disk.files, BinDir(home, uuid))
      requires newRow !in store.rows
      modifies disk, store
      ensures store.Valid()
      ensures deleted.Done? && restored.Done? ==>
                && disk.files == old(disk.files) && store.items == old(store.items)
                && Reborn(id, newRow, old(store.rows), store.rows)
      // With every step working, so it does unless the file lies above its place in the bin or below it.
      ensures Failures() == old(Failures()) && old(FileRow(id)) &&
              !At(old(store.rows[id].pathKey), BinFile(uuid, name)) &&
              !At(BinFile(uuid, name), old(store.rows[id].pathKey)) ==>
                deleted.Done? && restored.Done?
    {
      ghost var files, rows, items, clock, rp := disk.files, store.rows, store.items, store.clock, BinFile(uuid, name);
      BinFree(uuid, name);
      var warned;
      deleted, warned := DeleteFileV2(id, name, uuid, itemId);
      restored := Refused;
      if deleted.Done? {
        FileUnbinned(id, rows[id].pathKey, rows[id].prefix, rp, itemId, rows, items, clock, store.rows, store.items);
        MovedThereAndBack(files, rows[id].pathKey, rp);
        if !At(rows[id].pathKey, rp) {
          MovedAway(files, rows[id].pathKey, rp);
        }
        restored, warned := PutFileBack(itemId, newRow);
      }
    }

    // ---------- Purging ----------

    /** What a purge may not touch: everything outside the item's own directory. */
    ghost predicate OnlyOwn(before: Files, after: Files, dir: Key) {
      && (forall k :: k in after ==> k in before && after[k] == before[k])
      && (forall k :: k in before && !At(dir, k) ==> k in after)
    }

    /** Removes an item's bytes, a folder item's hidden rows, and then the item. */
    method PurgeRecycleBinItem(itemId: ItemId) returns (ok: bool)
      requires store.Valid() && itemId in store.items
      modifies disk`files, disk`alive, disk`failures, store
      ensures store.Valid() && OnlyOwn(old(disk.files), disk.files, DirOf(old(store.items[itemId]).recyclePathKey))
      ensures ok <==> store.items != old(store.items)
      ensures ok ==> store.items == old(store.items) - {itemId}
      // Rows go only after the bytes, the item only after both.
      ensures store.rows == old(store.rows) ||
              (old(store.items[itemId]).isDir &&
               !Occupied(disk.files, DirOf(old(store.items[itemId]).recyclePathKey)) &&
               store.rows == Purge(old(store.rows), old(store.items[itemId]).originalPathKey,
                                   old(store.items[itemId]).createdAt))
      ensures ok ==> !Occupied(disk.files, DirOf(old(store.items[itemId]).recyclePathKey))
      ensures ok && old(store.items[itemId]).isDir ==>
              store.rows == Purge(old(store.rows), old(store.items[itemId]).originalPathKey,
                                  old(store.items[itemId]).createdAt)
      ensures Listing(store.rows) == Listing(old(store.rows))
      ensures disk.alive ==> old(disk.alive)
      // It is done exactly if every step worked.
      ensures Failures() >= old(Failures()) && (ok <==> Failures() == old(Failures()))
    {
      var item := store.items[itemId];
      PurgeKeepsListing(store.rows, item.originalPathKey, item.createdAt);
      var thumbnails := disk.OtherStep();      // one that cannot be removed stops the purge
      if item.isDir && !thumbnails {
        return false;
      }
      ok := disk.RemoveAll(DirOf(item.recyclePathKey));
      if !ok || (!item.isDir && !thumbnails) {
        return false;
      }
      var up := disk.Survive();
      if up && item.isDir {
        ok := store.HardDeleteHiddenFolderSubtree(item.originalPathKey, item.createdAt);
        up := disk.Survive();
      }
      if !ok || !up {
        return false;
      }
      ok := store.DeleteRecycleBinItemByID(itemId);
    }

    /** With fresh directories, purging one item leaves every other item's bytes and every drive's alone. */
    lemma PurgeSparesOthers(before: Files, after: Files, uuid: string, name: string, k: Key)
      requires OnlyOwn(before, after, DirOf(BinFile(uuid, name))) && '/' !in name && Segment(uuid)
      requires k in before
      requires !At(home + "/.recyclebin", k) ||
               exists other :: Segment(other) && other != uuid && At(BinDir(home, other), k)
      ensures k in after && after[k] == before[k]
    {
      DirOfJoin(BinDir(home, uuid), name);
      if At(home + "/.recyclebin", k) {
        var other :| Segment(other) && other != uuid && At(BinDir(home, other), k);
        BinDirsApart(home, uuid, other, k);
      } else {
        assert At(home + "/.recyclebin", BinDir(home, uuid));
        if At(BinDir(home, uuid), k) {
          AtTrans(home + "/.recyclebin", BinDir(home, uuid), k);
        }
      }
    }

    ghost predicate InSome(dirs: set<Key>, k: Key) { exists dir :: dir in dirs && At(dir, k) }

    /** Purges every expired item; one that fails is skipped and stays for the next pass. */
    method PurgeExpired(expired: seq<ItemId>)
      requires store.Valid()
      modifies disk`files, disk`alive, disk`failures, store
      ensures store.Valid() && Listing(store.rows) == Listing(old(store.rows))
      ensures forall k :: k in disk.files ==> k in old(disk.files) && disk.files[k] == old(disk.files)[k]
      ensures forall k :: k in old(disk.files) && !InSome(DirsOf(old(store.items), expired), k) ==> k in disk.files
      ensures forall i :: i in store.items ==> i in old(store.items) && store.items[i] == old(store.items)[i]
      ensures forall i :: i in old(store.items) && i !in expired ==> i in store.items
      ensures forall i :: i in old(store.items) && i !in store.items ==>
                !Occupied(disk.files, DirOf(old(store.items)[i].recyclePathKey))
      // With every step working, every expired item goes.
      ensures Failures() == old(Failures()) ==> forall i :: i in expired ==> i !in store.items
    {
      for n := 0 to |expired|
        invariant store.Valid() && Listing(store.rows) == Listing(old(store.rows))
        invariant forall k :: k in disk.files ==> k in old(disk.files) && disk.files[k] == old(disk.files)[k]
        invariant forall k :: k in old(disk.files) && !InSome(DirsOf(old(store.items), expired), k) ==> k in disk.files
        invariant forall i :: i in store.items ==> i in old(store.items) && store.items[i] == old(store.items)[i]
        invariant forall i :: i in old(store.items) && i !in expired ==> i in store.items
        invariant Failures() >= old(Failures())
        invariant Failures() == old(Failures()) ==> forall j :: 0 <= j < n ==> expired[j] !in store.items
        invariant forall i :: i in old(store.items) && i !in store.items ==>
                    !Occupied(disk.files, DirOf(old(store.items)[i].recyclePathKey))
      {
        if expired[n] in store.items {
          ghost var dir := DirOf(store.items[expired[n]].recyclePathKey);
          assert dir in DirsOf(old(store.items), expired);
          var _ := PurgeRecycleBinItem(expired[n]);
        }
      }
    }

    function DirsOf(items: Items, ids: seq<ItemId>): set<Key> {
      set i | i in ids && i in items :: DirOf(items[i].recyclePathKey)
    }

    // ---------- Any sequence of operations ----------

    /** A new process takes over: it sees the same disk and the same tables. */
    method Restart()
      modifies disk`alive
      ensures disk.alive
    {
      disk.alive := true;
    }

    /**
     * Whatever is moved, deleted and restored, wherever each step fails, and however often the process
     * dies and is started again, no stored file is lost.
     */
    method Work(ops: seq<Op>)
      requires store.Valid()
      modifies disk, store
      ensures store.Valid() && Kept(old(disk.files))
      ensures disk.sighted ==> old(disk.sighted)
    {
      for n := 0 to |ops|
        invariant store.Valid() && Kept(old(disk.files))
        invariant disk.sighted ==> old(disk.sighted)
      {
        Restart();
        match ops[n]
        case Move(id, name, dstPrefix) =>
          if '/' !in name {
            var r, warned := MoveFile(id, name, dstPrefix);
          }
        case DeleteFile(id, name, uuid, itemId) =>
          if itemId !in store.items && !Occupied(disk.files, BinDir(home, uuid)) {
            var r, warned := DeleteFileV2(id, name, uuid, itemId);
          }
        case DeleteFolder(slug, trimmed, uuid, itemId) =>
          if itemId !in store.items && !Occupied(disk.files, BinDir(home, uuid)) {
            var r, warned := DeleteDir(slug, trimmed, uuid, itemId);
          }
        case Restore(itemId, newRow) =>
          if itemId in store.items && newRow !in store.rows {
            var r, warned := RestoreFile(itemId, newRow);
          }
      }
    }
  }
}
