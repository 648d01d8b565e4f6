/** Directory and file rows with soft deletion, and the recycle bin items that refer to them. */
module FolderStore {
  import opened Common
  import opened Paths
  import opened SubtreeMatch

  type RowId = nat
  type ItemId = nat

  /** One directory or file row; `deletedAt` is its soft-delete stamp. */
  datatype Row = Row(isDir: bool, pathKey: string, prefix: string, deletedAt: Option<Time>) {
    predicate Live() { deletedAt.None? }
    predicate HiddenSince(since: Time) { deletedAt.Some? && since <= deletedAt.value }
  }

  type Rows = map<RowId, Row>

  datatype Item = Item(originalPathKey: string, originalPrefix: string, recyclePathKey: string, isDir: bool,
                       createdAt: Time)

  type Items = map<ItemId, Item>

  /** The clause shared by list, hide, unhide and hard delete. */
  predicate Selected(root: string, r: Row) {
    if r.isDir then DirMatches(root, r.pathKey) else FileMatches(root, r.prefix)
  }

  // ---------- Where the rows lie ----------

  type Places = map<RowId, seq<string>>

  /** A directory row lies at its own segments, a file row in the folder that holds it. */
  ghost predicate LaidOut(rows: Rows, c: Convention, place: Places) {
    forall id :: id in rows ==>
      && id in place && Segments(place[id]) && place[id] != []
      && if rows[id].isDir then rows[id].pathKey == c.DirKey(place[id]) else rows[id].prefix == c.FilePrefix(place[id])
  }

  /** A folder whose names hold no wildcard, and no folder's path differs from its own in case alone. */
  ghost predicate PlainFolder(root: seq<string>, place: Places) {
    && root != [] && Segments(root)
    && (forall i :: 0 <= i < |root| ==> '%' !in root[i] && '_' !in root[i])
    && forall id :: id in place ==> CaseDistinct(root, place[id])
  }

  lemma {:induction false} PlainJoin(root: seq<string>)
    requires forall i :: 0 <= i < |root| ==> '%' !in root[i] && '_' !in root[i]
    ensures WildcardFree(Join(root))
  {
    if |root| > 1 {
      PlainJoin(root[1..]);
    }
  }

  /** For such a folder the clause picks the rows that lie in it, directories and files alike. */
  lemma SelectedIsInside(rows: Rows, c: Convention, place: Places, root: seq<string>, id: RowId)
    requires LaidOut(rows, c, place) && PlainFolder(root, place) && id in rows
    ensures Selected(c.DirKey(root), rows[id]) <==> root <= place[id]
  {
    PlainJoin(root);
    MatchIsSubtree(c, root, place[id]);
  }

  // ---------- The statements, as functions on the table ----------

  /** Stands where there is no row. */
  const NO_ROW := Row(false, "", "", None)

  /** Soft-deletes the live selected rows of one kind. */
  function HideKind(rows: Rows, root: string, dirs: bool, now: Time): Rows {
    map id | id in rows ::
      if id !in rows then NO_ROW
      else if rows[id].isDir == dirs && Selected(root, rows[id]) && rows[id].Live()
      then rows[id].(deletedAt := Some(now)) else rows[id]
  }

  /** Revives the selected rows of one kind hidden at or after `since`. */
  function UnhideKind(rows: Rows, root: string, dirs: bool, since: Time): Rows {
    map id | id in rows ::
      if id !in rows then NO_ROW
      else if rows[id].isDir == dirs && Selected(root, rows[id]) && rows[id].HiddenSince(since)
      then rows[id].(deletedAt := None) else rows[id]
  }

  /** Removes for good the selected rows of one kind hidden at or after `since`. */
  function PurgeKind(rows: Rows, root: string, dirs: bool, since: Time): Rows {
    rows - set id | id in rows && rows[id].isDir == dirs && Selected(root, rows[id]) && rows[id].HiddenSince(since)
  }

  function Hide(rows: Rows, root: string, dirNow: Time, fileNow: Time): (h: Rows)
    ensures h.Keys == rows.Keys
    ensures forall id :: id in rows ==>
              h[id] == if Selected(root, rows[id]) && rows[id].Live()
                       then rows[id].(deletedAt := Some(if rows[id].isDir then dirNow else fileNow))
                       else rows[id]
  {
    HideKind(HideKind(rows, root, true, dirNow), root, false, fileNow)
  }

  function Unhide(rows: Rows, root: string, since: Time): (u: Rows)
    ensures u.Keys == rows.Keys
    ensures forall id :: id in rows ==>
              u[id] == if Selected(root, rows[id]) && rows[id].HiddenSince(since)
                       then rows[id].(deletedAt := None) else rows[id]
  {
    UnhideKind(UnhideKind(rows, root, true, since), root, false, since)
  }

  function Purge(rows: Rows, root: string, since: Time): (p: Rows)
    ensures forall id :: id in p <==> id in rows && !(Selected(root, rows[id]) && rows[id].HiddenSince(since))
    ensures forall id :: id in p ==> p[id] == rows[id]
  {
    PurgeKind(PurgeKind(rows, root, true, since), root, false, since)
  }

  /** The listing a user sees. */
  function Listing(rows: Rows): (live: Rows)
  {
    rows - set id | id in rows && !rows[id].Live()
  }

  /** Rows of the folder hidden at or after `since`. */
  function HiddenGeneration(rows: Rows, root: string, since: Time): set<RowId> {
    set id | id in rows && Selected(root, rows[id]) && rows[id].HiddenSince(since)
  }

  // ---------- What the statements do to a folder ----------

  /** Hiding a folder leaves listed exactly the listed rows outside it. */
  lemma HideIsSubtree(rows: Rows, c: Convention, place: Places, root: seq<string>, dirNow: Time, fileNow: Time)
    requires LaidOut(rows, c, place) && PlainFolder(root, place)
    ensures forall id :: id in rows ==>
              (id in Listing(Hide(rows, c.DirKey(root), dirNow, fileNow)) <==>
                 id in Listing(rows) && !(root <= place[id]))
  {
    forall id | id in rows
      ensures Selected(c.DirKey(root), rows[id]) <==> root <= place[id]
    {
      SelectedIsInside(rows, c, place, root, id);
    }
  }

  /** Whatever the folder is called, hiding it leaves none of its rows listed. */
  lemma HideCoversSubtree(rows: Rows, c: Convention, place: Places, root: seq<string>, dirNow: Time, fileNow: Time)
    requires LaidOut(rows, c, place) && root != [] && Segments(root)
    ensures forall id :: id in rows && root <= place[id] ==>
              id !in Listing(Hide(rows, c.DirKey(root), dirNow, fileNow))
  {
    forall id | id in rows && root <= place[id]
      ensures Selected(c.DirKey(root), rows[id])
    {
      MatchCoversSubtree(c, root, place[id]);
    }
  }

  /** Reviving it touches exactly its rows hidden at or after the stamp. */
  lemma UnhideIsSubtree(rows: Rows, c: Convention, place: Places, root: seq<string>, since: Time)
    requires LaidOut(rows, c, place) && PlainFolder(root, place)
    ensures forall id :: id in rows ==>
              Unhide(rows, c.DirKey(root), since)[id] ==
              if root <= place[id] && rows[id].deletedAt.Some? && rows[id].deletedAt.value >= since
              then rows[id].(deletedAt := None) else rows[id]
  {
    forall id | id in rows
      ensures Selected(c.DirKey(root), rows[id]) <==> root <= place[id]
    {
      SelectedIsInside(rows, c, place, root, id);
    }
  }

  /** Purging it removes exactly those. */
  lemma PurgeIsSubtree(rows: Rows, c: Convention, place: Places, root: seq<string>, since: Time)
    requires LaidOut(rows, c, place) && PlainFolder(root, place)
    ensures Purge(rows, c.DirKey(root), since) ==
            rows - set id | id in rows && root <= place[id] &&
                              rows[id].deletedAt.Some? && rows[id].deletedAt.value >= since
  {
    forall id | id in rows
      ensures Selected(c.DirKey(root), rows[id]) <==> root <= place[id]
    {
      SelectedIsInside(rows, c, place, root, id);
    }
  }

  // ---------- What the statements mean together ----------

  /** Hiding takes exactly the folder's rows out of the listing, and nothing else changes. */
  lemma HideEmptiesFolder(rows: Rows, root: string, dirNow: Time, fileNow: Time)
    ensures Listing(Hide(rows, root, dirNow, fileNow)) ==
            Listing(rows) - set id | id in rows && Selected(root, rows[id])
    ensures forall id :: id in rows && !Selected(root, rows[id]) ==>
              id in Hide(rows, root, dirNow, fileNow) && Hide(rows, root, dirNow, fileNow)[id] == rows[id]
  {
  }

  /**
   * Restoring what was just hidden is the identity on the whole table, older hidden generations
   * included, exactly when nothing of the folder was already hidden at or after the item's stamp.
   */
  lemma UnhideUndoesHide(rows: Rows, root: string, since: Time, dirNow: Time, fileNow: Time)
    requires since <= dirNow && since <= fileNow
    ensures Unhide(Hide(rows, root, dirNow, fileNow), root, since) == rows
            <==> HiddenGeneration(rows, root, since) == {}
  {
    var hidden := Hide(rows, root, dirNow, fileNow);
    var back := Unhide(hidden, root, since);
    forall id | id in rows
      ensures back[id] == if id in HiddenGeneration(rows, root, since)
                          then rows[id].(deletedAt := None) else rows[id]
    {
      assert Selected(root, hidden[id]) == Selected(root, rows[id]);
    }
    if back == rows {
      assert forall id :: id in rows ==> back[id] == rows[id] && id !in HiddenGeneration(rows, root, since);
    }
  }

  /** The rows a folder deletion hides. */
  function OwnRows(rows: Rows, root: string): set<RowId> {
    set id | id in rows && Selected(root, rows[id]) && rows[id].Live()
  }

  /** What is expected of a restore: the deletion's rows as they were, everything else as it is. */
  ghost predicate BringsBack(rows: Rows, later: Rows, restored: Rows, own: set<RowId>)
    requires own <= rows.Keys
  {
    && restored.Keys == later.Keys
    && forall id :: id in later ==> restored[id] == if id in own then rows[id] else later[id]
  }

  /**
   * The same with any other work in between, `own` being the rows that are still as the deletion hid
   * them: restoring brings back those and keeps that work exactly when no other row of the folder has
   * been hidden since the item was made.
   */
  lemma RestoreExactWhen(rows: Rows, later: Rows, own: set<RowId>, root: string,
                         since: Time, dirNow: Time, fileNow: Time)
    requires since <= dirNow && since <= fileNow && own <= OwnRows(rows, root)
    requires forall id :: id in own ==> id in later && later[id] == Hide(rows, root, dirNow, fileNow)[id]
    ensures BringsBack(rows, later, Unhide(later, root, since), own) <==> HiddenGeneration(later, root, since) <= own
  {
    var back := Unhide(later, root, since);
    forall id | id in own
      ensures back[id] == rows[id]
    {
      assert Selected(root, later[id]) == Selected(root, rows[id]);
    }
    forall id | id in later && id !in own
      ensures back[id] == later[id] <==> id !in HiddenGeneration(later, root, since)
    {
    }
    if BringsBack(rows, later, back, own) {
      forall id | id in HiddenGeneration(later, root, since)
        ensures id in own
      {
        assert id in later;
      }
    }
  }

  /** So work that keeps off the folder's rows survives, and the folder comes back. */
  lemma UnhideAfterOtherWork(rows: Rows, later: Rows, root: string, since: Time, dirNow: Time, fileNow: Time)
    requires since <= dirNow && since <= fileNow
    requires HiddenGeneration(rows, root, since) == {}
    requires forall id :: id in later && Selected(root, later[id]) ==>
               id in Hide(rows, root, dirNow, fileNow) && later[id] == Hide(rows, root, dirNow, fileNow)[id]
    requires forall id :: id in rows && Selected(root, rows[id]) ==> id in later
    ensures forall id :: id in later && Selected(root, later[id]) ==> id in rows
    ensures forall id :: id in later ==>
              id in Unhide(later, root, since) &&
              Unhide(later, root, since)[id] == if Selected(root, later[id]) then rows[id] else later[id]
    ensures Unhide(later, root, since).Keys == later.Keys
  {
    var own := set id | id in OwnRows(rows, root) && Selected(root, later[id]);
    forall id | id in later && Selected(root, later[id]) && id !in own
      ensures id in rows && later[id] == rows[id] && id !in HiddenGeneration(rows, root, since)
    {
      assert id in Hide(rows, root, dirNow, fileNow) && Selected(root, rows[id]);
    }
    assert HiddenGeneration(later, root, since) <= own;
    RestoreExactWhen(rows, later, own, root, since, dirNow, fileNow);
  }

  /** Purging right after hiding removes exactly the rows the item hid. */
  lemma PurgeRemovesGeneration(rows: Rows, root: string, since: Time, dirNow: Time, fileNow: Time)
    requires since <= dirNow && since <= fileNow
    ensures Purge(Hide(rows, root, dirNow, fileNow), root, since) ==
            rows - set id | id in rows && Selected(root, rows[id]) &&
                              (rows[id].Live() || rows[id].HiddenSince(since))
  {
    var hidden := Hide(rows, root, dirNow, fileNow);
    forall id | id in rows
      ensures id in Purge(hidden, root, since) <==>
              !(Selected(root, rows[id]) && (rows[id].Live() || rows[id].HiddenSince(since)))
    {
      assert Selected(root, hidden[id]) == Selected(root, rows[id]);
    }
  }

  /** Purging removes no listed row ever. */
  lemma PurgeKeepsListing(rows: Rows, root: string, since: Time)
    ensures Listing(Purge(rows, root, since)) == Listing(rows)
  {
    assert forall id :: id in rows && rows[id].Live() ==> id in Purge(rows, root, since);
  }

  /**
   * The stamp is the only guard: with a folder deleted, recreated and deleted again, restoring the
   * older item revives both generations, so two live rows end up with one key.
   */
  lemma StampRevivesYoungerGeneration(root: string, parent: string)
    ensures var folder := Row(true, root, parent, None);
            var rows := Hide(map[0 := folder], root, 2, 3);       // item created at 1
            var again := Hide(rows[1 := folder], root, 5, 6);     // recreated, second item created at 4
            Unhide(again, root, 1) == map[0 := folder, 1 := folder]
  {
    var folder := Row(true, root, parent, None);
    var rows := Hide(map[0 := folder], root, 2, 3);
    var again := Hide(rows[1 := folder], root, 5, 6);
    assert Selected(root, folder) && Selected(root, rows[0]) && Selected(root, again[0]) && Selected(root, again[1]);
  }

  /** A live row of the folder itself, whose prefix the item records. */
  ghost predicate RootRow(rows: Rows, root: string, prefix: string) {
    exists id :: id in rows && rows[id].isDir && rows[id].Live() &&
                 rows[id].pathKey == root && rows[id].prefix == prefix
  }

  /** What the deletion's transaction writes: the item, and the folder's rows hidden after it. */
  ghost predicate Recorded(rows: Rows, items: Items, clock: Time, rows': Rows, items': Items,
                           root: string, rp: string, id: ItemId)
  {
    && rows' == Hide(rows, root, clock + 2, clock + 3)
    && id in items' && items' == items[id := items'[id]]
    && items'[id] == Item(root, items'[id].originalPrefix, rp, true, clock + 1)
    && RootRow(rows, root, items'[id].originalPrefix)
  }

  lemma RecordedIs(rows: Rows, items: Items, clock: Time, rows': Rows, items': Items,
                   root: string, prefix: string, rp: string, id: ItemId, dirNow: Time, fileNow: Time)
    requires dirNow == clock + 2 && fileNow == clock + 3 && rows' == Hide(rows, root, dirNow, fileNow)
    requires items' == items[id := Item(root, prefix, rp, true, clock + 1)] && RootRow(rows, root, prefix)
    ensures Recorded(rows, items, clock, rows', items', root, rp, id)
  {
  }

  /** Reviving what the transaction hid, and dropping its item, gives back both tables. */
  lemma RowsComeBack(rows: Rows, items: Items, clock: Time, rows': Rows, items': Items,
                     root: string, rp: string, id: ItemId)
    requires Recorded(rows, items, clock, rows', items', root, rp, id) && id !in items
    requires forall i :: i in rows && rows[i].deletedAt.Some? ==> rows[i].deletedAt.value <= clock
    ensures items'[id] == Item(root, items'[id].originalPrefix, rp, true, clock + 1)
    ensures Unhide(rows', root, clock + 1) == rows && items' - {id} == items
  {
    assert HiddenGeneration(rows, root, clock + 1) == {};
    UnhideUndoesHide(rows, root, clock + 1, clock + 2, clock + 3);
  }

  // ---------- The store ----------

  class Store {
    var rows: Rows
    var items: Items
    var clock: Time
    /** How many statements have failed so far. */
    ghost var failures: nat

    /** Nothing carries a stamp from the future. */
    ghost predicate Valid()
      reads this
    {
      && (forall id :: id in rows && rows[id].deletedAt.Some? ==> rows[id].deletedAt.value <= clock)
      && (forall i :: i in items ==> items[i].createdAt <= clock)
    }

    constructor ()
      ensures Valid() && rows == map[] && items == map[] && failures == 0
    {
      rows, items, clock, failures := map[], map[], 0, 0;
    }

    /** Every statement reads a strictly later clock. */
    method Now() returns (t: Time)
      requires Valid()
      modifies this`clock
      ensures Valid() && t == clock == old(clock) + 1
    {
      clock := clock + 1;
      t := clock;
    }

    /** Live directory row with exactly this key. */
    predicate DirectoryExists(pathKey: string)
      reads this
    {
      exists id :: id in rows && rows[id].isDir && rows[id].Live() && rows[id].pathKey == pathKey
    }

    /** Two statements in one transaction: either both apply or the table is as it was. */
    method HideFolderSubtree(root: string) returns (ok: bool)
      requires Valid()
      modifies this`rows, this`clock, this`failures
      ensures failures == old(failures) + if ok then 0 else 1
      ensures Valid() && clock == old(clock) + 2
      ensures rows == if ok then Hide(old(rows), root, old(clock) + 1, old(clock) + 2) else old(rows)
    {
      var before := rows;
      var dirNow := Now();
      var fileNow := Now();
      ok := *;
      if ok {
        rows := HideKind(rows, root, true, dirNow);
        ok := *;
        if ok {
          rows := HideKind(rows, root, false, fileNow);
        } else {
          rows := before;
        }
      }
      failures := failures + if ok then 0 else 1;
    }

    method UnhideFolderSubtree(root: string, hiddenSince: Time) returns (ok: bool)
      requires Valid()
      modifies this`rows, this`failures
      ensures failures == old(failures) + if ok then 0 else 1
      ensures Valid()
      ensures rows == if ok then Unhide(old(rows), root, hiddenSince) else old(rows)
    {
      var before := rows;
      ok := *;
      if ok {
        rows := UnhideKind(rows, root, true, hiddenSince);
        ok := *;
        if ok {
          rows := UnhideKind(rows, root, false, hiddenSince);
        } else {
          rows := before;
        }
      }
      failures := failures + if ok then 0 else 1;
    }

    method HardDeleteHiddenFolderSubtree(root: string, hiddenSince: Time) returns (ok: bool)
      requires Valid()
      modifies this`rows, this`failures
      ensures failures == old(failures) + if ok then 0 else 1
      ensures Valid()
      ensures rows == if ok then Purge(old(rows), root, hiddenSince) else old(rows)
    {
      var before := rows;
      ok := *;
      if ok {
        rows := PurgeKind(rows, root, true, hiddenSince);
        ok := *;
        if ok {
          rows := PurgeKind(rows, root, false, hiddenSince);
        } else {
          rows := before;
        }
      }
      failures := failures + if ok then 0 else 1;
    }

    /** The transaction of a folder deletion: the item row, then the hidden subtree; all or nothing. */
    method RecordFolderDeletion(id: ItemId, root: string, prefix: string, recyclePathKey: string)
      returns (ok: bool)
      requires Valid() && id !in items && RootRow(rows, root, prefix)
      modifies this
      ensures failures == old(failures) + if ok then 0 else 1
      ensures Valid()
      ensures ok ==> Recorded(old(rows), old(items), old(clock), rows, items, root, recyclePathKey, id)
      ensures !ok ==> items == old(items) && rows == old(rows)
    {
      hide Recorded, RootRow, Hide;
      var now := Now();
      ok := *;
      failures := failures + if ok then 0 else 1;
      if ok {
        var before := items;
        items := items[id := Item(root, prefix, recyclePathKey, true, now)];
        ghost var dirNow, fileNow := clock + 1, clock + 2;
        assert dirNow == old(clock) + 2 && fileNow == old(clock) + 3;
        ok := HideFolderSubtree(root);
        if ok {
          RecordedIs(old(rows), old(items), old(clock), rows, items, root, prefix, recyclePathKey, id,
                     dirNow, fileNow);
        }
        if !ok {
          items := before;
        }
      }
    }

    method CreateRecycleBinItem(id: ItemId, originalPathKey: string, originalPrefix: string,
                                recyclePathKey: string, isDir: bool)
      returns (ok: bool)
      requires Valid() && id !in items
      modifies this`items, this`clock, this`failures
      ensures failures == old(failures) + if ok then 0 else 1
      ensures Valid()
      ensures ok ==>
                items == old(items)[id := Item(originalPathKey, originalPrefix, recyclePathKey, isDir, old(clock) + 1)]
      ensures !ok ==> items == old(items)
    {
      var now := Now();
      ok := *;
      if ok {
        items := items[id := Item(originalPathKey, originalPrefix, recyclePathKey, isDir, now)];
      }
      failures := failures + if ok then 0 else 1;
    }

    method UpdateFileMetadataLocation(id: RowId, pathKey: string, prefix: string) returns (ok: bool)
      requires Valid() && id in rows
      modifies this`rows, this`failures
      ensures failures == old(failures) + if ok then 0 else 1
      ensures Valid()
      ensures rows == if ok then old(rows)[id := old(rows)[id].(pathKey := pathKey, prefix := prefix)] else old(rows)
    {
      ok := *;
      if ok {
        rows := rows[id := rows[id].(pathKey := pathKey, prefix := prefix)];
      }
      failures := failures + if ok then 0 else 1;
    }

    /** Removes the row for good: the recycle bin item owns the file now. */
    method DeleteFileMetadataByID(id: RowId) returns (ok: bool)
      requires Valid()
      modifies this`rows, this`failures
      ensures failures == old(failures) + if ok then 0 else 1
      ensures Valid()
      ensures rows == if ok then old(rows) - {id} else old(rows)
    {
      ok := *;
      if ok {
        rows := rows - {id};
      }
      failures := failures + if ok then 0 else 1;
    }

    method CreateFileMetadata(id: RowId, pathKey: string, prefix: string) returns (ok: bool)
      requires Valid() && id !in rows
      modifies this`rows, this`failures
      ensures failures == old(failures) + if ok then 0 else 1
      ensures Valid()
      ensures rows == if ok then old(rows)[id := Row(false, pathKey, prefix, None)] else old(rows)
    {
      ok := *;
      if ok {
        rows := rows[id := Row(false, pathKey, prefix, None)];
      }
      failures := failures + if ok then 0 else 1;
    }

    method DeleteRecycleBinItemByID(id: ItemId) returns (ok: bool)
      requires Valid()
      modifies this`items, this`failures
      ensures failures == old(failures) + if ok then 0 else 1
      ensures Valid()
      ensures items == if ok then old(items) - {id} else old(items)
    {
      ok := *;
      if ok {
        items := items - {id};
      }
      failures := failures + if ok then 0 else 1;
    }
  }
}
