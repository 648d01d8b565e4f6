/** Folder deletion and restoration on object storage: copy loops, batched deletes, one transaction, compensations. */
module S3Recycle {
  import opened Common
  import opened ObjectStore
  import opened FolderStore
  import opened Paths

  function RecycleKey(rp: Key, k: Key): Key { rp + "/" + k }

  /** The key a recycled copy came from: strings.TrimPrefix of the recycle prefix and its slash. */
  function Original(rp: Key, x: Key): Key {
    if rp + "/" <= x then x[|rp| + 1..] else x
  }

  lemma RecycleKeyRoundTrip(rp: Key, k: Key)
    ensures rp + "/" <= RecycleKey(rp, k) && Original(rp, RecycleKey(rp, k)) == k
  {
  }

  lemma RecycleKeyInjective(rp: Key, a: Key, b: Key)
    requires RecycleKey(rp, a) == RecycleKey(rp, b)
    ensures a == b
  {
    RecycleKeyRoundTrip(rp, a);
    RecycleKeyRoundTrip(rp, b);
  }

  /** Keys ending in a slash are directory markers; they carry no content. */
  predicate Marker(k: Key) { k == "" || k[|k| - 1] == '/' }

  /** The markers below a folder. */
  function Markers(objects: Objects, root: Key): set<Key> {
    set k | k in objects && root + "/" <= k && k[|k| - 1] == '/'
  }

  predicate Fresh(objects: Objects, rp: Key) { Under(objects, rp + "/") == {} }

  /** The bytes `data` are stored at `k`. */
  predicate Holds(objects: Objects, k: Key, data: Bytes) { k in objects && objects[k] == data }

  /** No loss: everything `before` had at `keys` is at its own key or at its recycle key. */
  ghost predicate Kept(before: Objects, now: Objects, keys: set<Key>, rp: Key) {
    forall k :: k in keys && k in before ==> Holds(now, k, before[k]) || Holds(now, RecycleKey(rp, k), before[k])
  }

  /** What lies under the recycle prefix are copies of the folder's objects, and of nothing in the bin itself. */
  ghost predicate Backed(objects: Objects, root: Key, rp: Key) {
    forall x :: x in objects && rp + "/" <= x ==>
      root + "/" <= Original(rp, x) && !(rp + "/" <= Original(rp, x))
  }

  /** The two bucket states agree away from `keys` and from the recycle prefix. */
  ghost predicate SameElsewhere(before: Objects, now: Objects, keys: set<Key>, rp: Key) {
    forall k :: k !in keys && !(rp + "/" <= k) ==>
      (k in now <==> k in before) && (k in now ==> now[k] == before[k])
  }

  /** The two bucket states agree away from `keys`. */
  ghost predicate Agree(before: Objects, now: Objects, keys: set<Key>) {
    forall k :: k !in keys ==> (k in now <==> k in before) && (k in now ==> now[k] == before[k])
  }

  /** Each of these keys holds again what its recycled copy held. */
  ghost predicate BackSoFar(before: Objects, now: Objects, rp: Key, recycled: seq<Key>, restored: seq<Key>) {
    forall d :: d in restored ==>
      RecycleKey(rp, d) in recycled && RecycleKey(rp, d) in before && Holds(now, d, before[RecycleKey(rp, d)])
  }

  ghost predicate AllHold(before: Objects, now: Objects, keys: seq<Key>) {
    forall x :: x in keys ==> x in before && Holds(now, x, before[x])
  }

  lemma StillHold(before: Objects, now: Objects, next: Objects, keys: seq<Key>, dst: Key)
    requires AllHold(before, now, keys) && Agree(now, next, {dst}) && dst !in keys
    ensures AllHold(before, next, keys)
  {
  }

  lemma BackOneMore(before: Objects, now: Objects, next: Objects, rp: Key, recycled: seq<Key>,
                    restored: seq<Key>, dst: Key)
    requires BackSoFar(before, now, rp, recycled, restored)
    requires RecycleKey(rp, dst) in recycled && RecycleKey(rp, dst) in before
    requires Holds(now, RecycleKey(rp, dst), before[RecycleKey(rp, dst)])
    requires next == now || next == now[dst := now[RecycleKey(rp, dst)]]
    ensures BackSoFar(before, next, rp, recycled, restored)
    ensures next == now[dst := now[RecycleKey(rp, dst)]] ==> BackSoFar(before, next, rp, recycled, restored + [dst])
  {
  }

  /** Under the recycle prefix lie only copies of these keys. */
  ghost predicate OnlyCopiesOf(now: Objects, rp: Key, keys: seq<Key>) {
    forall x :: x in now && rp + "/" <= x ==> Original(rp, x) in keys
  }

  /** Half way through copying into the bin. */
  ghost predicate Copying(before: Objects, now: Objects, rp: Key, keys: seq<Key>, copied: seq<Key>) {
    && SameElsewhere(before, now, {}, rp) && OnlyCopiesOf(now, rp, keys)
    && CopiesHeld(before, now, rp, keys, |copied|)
    && forall k :: k in copied ==> rp + "/" <= k
  }

  lemma NothingIn(before: Objects, rp: Key, keys: seq<Key>)
    requires Fresh(before, rp)
    ensures Copying(before, before, rp, keys, [])
  {
    assert forall x :: x in before && rp + "/" <= x ==> x in Under(before, rp + "/");
  }

  lemma CopyingMeans(before: Objects, now: Objects, rp: Key, keys: seq<Key>, copied: seq<Key>)
    requires Copying(before, now, rp, keys, copied)
    ensures SameElsewhere(before, now, {}, rp) && OnlyCopiesOf(now, rp, keys)
    ensures CopiesHeld(before, now, rp, keys, |copied|)
    ensures forall k :: k in copied ==> rp + "/" <= k
  {
  }

  lemma OnlyCopiesShrink(mid: Objects, now: Objects, rp: Key, keys: seq<Key>, copied: seq<Key>)
    requires OnlyCopiesOf(mid, rp, keys) && Shrunk(mid, now, Elements(copied))
    ensures OnlyCopiesOf(now, rp, keys)
  {
  }

  lemma NothingOut(before: Objects, rp: Key, recycled: seq<Key>)
    requires Lists(recycled, Under(before, rp + "/"))
    ensures AllHold(before, before, recycled) && BackSoFar(before, before, rp, recycled, [])
    ensures Agree(before, before, Elements([]))
  {
  }

  lemma OutOfTheBin(before: Objects, rp: Key, recycled: seq<Key>, k: Key)
    requires Lists(recycled, Under(before, rp + "/")) && k in recycled && !(rp + "/" <= Original(rp, k))
    ensures RecycleKey(rp, Original(rp, k)) == k && Original(rp, k) !in recycled
  {
    assert k in Under(before, rp + "/");
    assert forall x :: x in recycled ==> x in Under(before, rp + "/");
  }

  lemma AgreeWiden(before: Objects, now: Objects, some: seq<Key>, all: seq<Key>)
    requires Agree(before, now, Elements(some)) && some <= all
    ensures Agree(before, now, Elements(all))
  {
    forall k | k in some
      ensures k in all
    {
      var i :| 0 <= i < |some| && some[i] == k;
      assert all[i] == k;
    }
  }

  /** The first `n` keys have their copies under the recycle prefix. */
  ghost predicate CopiesHeld(before: Objects, now: Objects, rp: Key, keys: seq<Key>, n: nat) {
    forall j :: 0 <= j < n && j < |keys| ==> keys[j] in before && Holds(now, RecycleKey(rp, keys[j]), before[keys[j]])
  }

  lemma OneMoreCopy(before: Objects, now: Objects, next: Objects, rp: Key, keys: seq<Key>, n: nat)
    requires n < |keys| && CopiesHeld(before, now, rp, keys, n)
    requires keys[n] in before && Holds(now, keys[n], before[keys[n]])
    requires next == now[RecycleKey(rp, keys[n]) := now[keys[n]]]
    ensures CopiesHeld(before, next, rp, keys, n + 1)
  {
    forall j | 0 <= j < n && RecycleKey(rp, keys[j]) == RecycleKey(rp, keys[n])
      ensures keys[j] == keys[n]
    {
      RecycleKeyInjective(rp, keys[j], keys[n]);
    }
  }

  /** Of the first `n` sources, those listed as copied have arrived. */
  ghost predicate Arrived(now: Objects, srcs: seq<Key>, dsts: seq<Key>, data: seq<Bytes>, copied: seq<Key>, n: nat)
    requires |srcs| == |dsts| == |data|
  {
    forall j :: 0 <= j < n && j < |srcs| && srcs[j] in copied ==> Holds(now, dsts[j], data[j])
  }

  lemma OneMoreArrived(now: Objects, next: Objects, srcs: seq<Key>, dsts: seq<Key>, data: seq<Bytes>,
                       copied: seq<Key>, n: nat, ok: bool)
    requires |srcs| == |dsts| == |data| && n < |srcs| && Arrived(now, srcs, dsts, data, copied, n)
    requires forall i, j :: 0 <= i < j < |srcs| ==> srcs[i] != srcs[j] && dsts[i] != dsts[j]
    requires Agree(now, next, {dsts[n]}) && srcs[n] !in copied
    requires ok ==> Holds(next, dsts[n], data[n])
    ensures Arrived(next, srcs, dsts, data, if ok then copied + [srcs[n]] else copied, n + 1)
  {
    forall j | 0 <= j < n && (srcs[j] in copied || srcs[j] == srcs[n])
      ensures Holds(next, dsts[j], data[j])
    {
      assert Holds(now, dsts[j], data[j]);
    }
  }

  lemma AgreeGrows(before: Objects, now: Objects, next: Objects, keys: set<Key>, k: Key)
    requires Agree(before, now, keys) && Agree(now, next, {k})
    ensures Agree(before, next, keys + {k})
  {
  }

  /** Distinct sources holding `data`, with distinct destinations apart from every source. */
  ghost predicate Pairing(objects: Objects, srcs: seq<Key>, dsts: seq<Key>, data: seq<Bytes>) {
    && |srcs| == |dsts| == |data|
    && Elements(srcs) !! Elements(dsts)
    && (forall i, j :: 0 <= i < j < |srcs| ==> srcs[i] != srcs[j] && dsts[i] != dsts[j])
    && (forall i :: 0 <= i < |srcs| ==> Holds(objects, srcs[i], data[i]))
  }

  // ---------- What a completed delete and a completed restore do to the bucket ----------

  /** Every object under the folder moved under the recycle prefix. */
  function Recycled(objects: Objects, root: Key, rp: Key): Objects
    requires Fresh(objects, rp)
  {
    var moved := Under(objects, root + "/");
    var copies := set k | k in moved :: RecycleKey(rp, k);
    objects - moved + map x | x in copies && Original(rp, x) in objects ::
      if x in copies && Original(rp, x) in objects then objects[Original(rp, x)] else []
  }

  /** The original keys of the recycled contents, markers left out. */
  function Contents(objects: Objects, rp: Key): set<Key> {
    set x | x in Under(objects, rp + "/") && !Marker(Original(rp, x)) :: Original(rp, x)
  }

  /** Every recycled content back at its original key, the recycle prefix empty. */
  function Restored(objects: Objects, rp: Key): Objects {
    var contents := Contents(objects, rp);
    objects - Under(objects, rp + "/") + map d | d in contents && RecycleKey(rp, d) in objects ::
      if d in contents && RecycleKey(rp, d) in objects then objects[RecycleKey(rp, d)] else []
  }

  /** Original keys of the listed recycled contents, in listing order. */
  function ContentKeys(rp: Key, recycled: seq<Key>): seq<Key> {
    if recycled == [] then []
    else
      var n := |recycled| - 1;
      var earlier := ContentKeys(rp, recycled[..n]);
      if Marker(Original(rp, recycled[n])) then earlier else earlier + [Original(rp, recycled[n])]
  }

  lemma {:induction false} ContentKeysGrow(rp: Key, recycled: seq<Key>, i: nat)
    requires i <= |recycled|
    ensures ContentKeys(rp, recycled[..i]) <= ContentKeys(rp, recycled)
    decreases |recycled| - i
  {
    if i < |recycled| {
      ContentKeysGrow(rp, recycled, i + 1);
      assert recycled[..i + 1][..i] == recycled[..i];
    } else {
      assert recycled[..i] == recycled;
    }
  }

  /** One more key of the bin's listing: a content, or a marker to skip. */
  lemma ContentKeysNext(rp: Key, recycled: seq<Key>, i: nat)
    requires i < |recycled|
    ensures ContentKeys(rp, recycled[..i + 1]) ==
            ContentKeys(rp, recycled[..i]) +
            if Marker(Original(rp, recycled[i])) then [] else [Original(rp, recycled[i])]
    ensures ContentKeys(rp, recycled[..i]) <= ContentKeys(rp, recycled)
    ensures ContentKeys(rp, recycled[..i + 1]) <= ContentKeys(rp, recycled)
  {
    assert recycled[..i + 1][..i] == recycled[..i];
    ContentKeysGrow(rp, recycled, i);
    ContentKeysGrow(rp, recycled, i + 1);
  }

  /** The listing of the bin yields each recycled content once. */
  lemma {:induction false} ContentKeysList(rp: Key, recycled: seq<Key>)
    requires forall i :: 0 <= i < |recycled| ==> rp + "/" <= recycled[i]
    requires forall i, j :: 0 <= i < j < |recycled| ==> recycled[i] != recycled[j]
    ensures forall d :: d in ContentKeys(rp, recycled) <==> RecycleKey(rp, d) in recycled && !Marker(d)
    ensures forall i, j :: 0 <= i < j < |ContentKeys(rp, recycled)| ==>
              ContentKeys(rp, recycled)[i] != ContentKeys(rp, recycled)[j]
  {
    if recycled != [] {
      var n := |recycled| - 1;
      ContentKeysList(rp, recycled[..n]);
      var last := Original(rp, recycled[n]);
      assert RecycleKey(rp, last) == recycled[n];
      assert recycled[n] !in recycled[..n];
      assert recycled == recycled[..n] + [recycled[n]];
      forall d
        ensures d in ContentKeys(rp, recycled) <==> RecycleKey(rp, d) in recycled && !Marker(d)
      {
        RecycleKeyRoundTrip(rp, d);
      }
    }
  }

  lemma ContentsAreRecycled(objects: Objects, rp: Key, k: Key)
    ensures k in Contents(objects, rp) <==> RecycleKey(rp, k) in objects && !Marker(k)
  {
    RecycleKeyRoundTrip(rp, k);
    if k in Contents(objects, rp) {
      var x :| x in Under(objects, rp + "/") && Original(rp, x) == k;
      assert x == RecycleKey(rp, k);
    }
    if RecycleKey(rp, k) in objects && !Marker(k) {
      assert RecycleKey(rp, k) in Under(objects, rp + "/");
    }
  }

  lemma RecycledKeys(objects: Objects, root: Key, rp: Key, k: Key)
    requires Fresh(objects, rp)
    ensures !(rp + "/" <= k) ==> (k in Recycled(objects, root, rp) <==> k in objects && !(root + "/" <= k))
    ensures !(rp + "/" <= k) && k in Recycled(objects, root, rp) ==> Recycled(objects, root, rp)[k] == objects[k]
    ensures rp + "/" <= k ==>
              (k in Recycled(objects, root, rp) <==> Original(rp, k) in objects && root + "/" <= Original(rp, k))
    ensures rp + "/" <= k && k in Recycled(objects, root, rp) ==>
              Recycled(objects, root, rp)[k] == objects[Original(rp, k)]
  {
    var moved := Under(objects, root + "/");
    assert k in objects && rp + "/" <= k ==> k in Under(objects, rp + "/");
    forall j | j in moved && RecycleKey(rp, j) == k
      ensures rp + "/" <= k && j == Original(rp, k)
    {
      RecycleKeyRoundTrip(rp, j);
    }
    assert rp + "/" <= k ==> RecycleKey(rp, Original(rp, k)) == k;
  }

  lemma RestoredKeys(objects: Objects, rp: Key, k: Key)
    ensures RecycleKey(rp, k) in objects && !Marker(k) ==>
              k in Restored(objects, rp) && Restored(objects, rp)[k] == objects[RecycleKey(rp, k)]
    ensures !(RecycleKey(rp, k) in objects && !Marker(k)) ==>
              (k in Restored(objects, rp) <==> k in objects && !(rp + "/" <= k))
    ensures !(RecycleKey(rp, k) in objects && !Marker(k)) && k in Restored(objects, rp) ==>
              Restored(objects, rp)[k] == objects[k]
  {
    hide Contents;
    ContentsAreRecycled(objects, rp, k);
    assert k in Under(objects, rp + "/") <==> k in objects && rp + "/" <= k;
  }

  /** Delete then restore is the identity on every object that is not a marker of the folder. */
  lemma RestoreUndoesDelete(objects: Objects, root: Key, rp: Key)
    requires Fresh(objects, rp)
    ensures Restored(Recycled(objects, root, rp), rp) ==
            objects - Markers(objects, root)
    ensures forall k :: k in objects && (k == "" || k[|k| - 1] != '/') ==>
              Holds(Restored(Recycled(objects, root, rp), rp), k, objects[k])
  {
    hide Restored, Recycled;
    var binned := Recycled(objects, root, rp);
    var back := Restored(binned, rp);
    forall k
      ensures k in back <==> k in objects && !(root + "/" <= k && k[|k| - 1] == '/')
      ensures k in back ==> k in objects && back[k] == objects[k]
    {
      RestoredKeys(binned, rp, k);
      RecycledKeys(objects, root, rp, k);
      RecycledKeys(objects, root, rp, RecycleKey(rp, k));
      RecycleKeyRoundTrip(rp, k);
      assert k in objects ==> k !in Under(objects, rp + "/");
    }
  }

  // ---------- What others may do between a delete and a restore ----------

  /** Writes by other requests, which the model only lets through where they keep off the deleted folder. */
  datatype Edit =
    | PutObject(key: Key, data: Bytes)
    | RemoveObject(key: Key)
    | PutRow(id: RowId, row: Row)
    | RemoveRow(id: RowId)
    | PutItem(itemId: ItemId, item: Item)
    | RemoveItem(itemId: ItemId)

  predicate Inside(k: Key, root: Key, rp: Key) { root + "/" <= k || rp + "/" <= k }

  function EditedObjects(objects: Objects, e: Edit, root: Key, rp: Key): Objects {
    match e
    case PutObject(key, data) => if Inside(key, root, rp) then objects else objects[key := data]
    case RemoveObject(key) => if Inside(key, root, rp) then objects else objects - {key}
    case _ => objects
  }

  function EditedRows(rows: Rows, e: Edit, root: Key): Rows {
    match e
    case PutRow(id, row) =>
      if Selected(root, row) || (id in rows && Selected(root, rows[id])) then rows else rows[id := row]
    case RemoveRow(id) => if id in rows && Selected(root, rows[id]) then rows else rows - {id}
    case _ => rows
  }

  function EditedItems(items: Items, e: Edit, own: ItemId): Items {
    match e
    case PutItem(itemId, item) => if itemId == own then items else items[itemId := item]
    case RemoveItem(itemId) => if itemId == own then items else items - {itemId}
    case _ => items
  }

  function ObjectsAfter(objects: Objects, edits: seq<Edit>, root: Key, rp: Key): Objects {
    if edits == [] then objects
    else EditedObjects(ObjectsAfter(objects, edits[..|edits| - 1], root, rp), edits[|edits| - 1], root, rp)
  }

  function RowsAfter(rows: Rows, edits: seq<Edit>, root: Key): Rows {
    if edits == [] then rows
    else EditedRows(RowsAfter(rows, edits[..|edits| - 1], root), edits[|edits| - 1], root)
  }

  function ItemsAfter(items: Items, edits: seq<Edit>, own: ItemId): Items {
    if edits == [] then items
    else EditedItems(ItemsAfter(items, edits[..|edits| - 1], own), edits[|edits| - 1], own)
  }

  /** Nobody else puts anything under the recycle prefix. */
  lemma {:induction false} StaysBacked(objects: Objects, edits: seq<Edit>, root: Key, rp: Key)
    requires Backed(objects, root, rp)
    ensures Backed(ObjectsAfter(objects, edits, root, rp), root, rp)
  {
    if edits != [] {
      StaysBacked(objects, edits[..|edits| - 1], root, rp);
    }
  }

  /** Hiding a folder's rows and purging them takes the listed ones, when no stamp lies ahead of the clock. */
  lemma PurgeTakesLive(rows: Rows, root: string, clock: Time)
    requires forall id :: id in rows && rows[id].deletedAt.Some? ==> rows[id].deletedAt.value <= clock
    ensures var left := Purge(Hide(rows, root, clock + 2, clock + 3), root, clock + 1);
            && (forall id :: id in left <==> id in rows && !(Selected(root, rows[id]) && rows[id].Live()))
            && (forall id :: id in left ==> left[id] == rows[id])
  {
    hide Purge, Hide, Selected;
    PurgeRemovesGeneration(rows, root, clock + 1, clock + 2, clock + 3);
  }

  lemma RecordedItem(rows: Rows, items: Items, clock: Time, rows': Rows, items': Items,
                     root: string, rp: string, id: ItemId)
    requires Recorded(rows, items, clock, rows', items', root, rp, id)
    ensures rows' == Hide(rows, root, clock + 2, clock + 3)
    ensures id in items' && items'[id].originalPathKey == root && items'[id].recyclePathKey == rp
    ensures items'[id].createdAt == clock + 1
  {
  }

  /** Recycling a folder and writing elsewhere can be done in either order. */
  lemma EditCommutesWithRecycling(objects: Objects, e: Edit, root: Key, rp: Key)
    requires Fresh(objects, rp)
    ensures Fresh(EditedObjects(objects, e, root, rp), rp)
    ensures EditedObjects(Recycled(objects, root, rp), e, root, rp) ==
            Recycled(EditedObjects(objects, e, root, rp), root, rp)
  {
    hide Recycled;
    var edited := EditedObjects(objects, e, root, rp);
    forall k
      ensures k !in Under(edited, rp + "/")
    {
      assert k !in Under(objects, rp + "/");
    }
    forall k
      ensures k in EditedObjects(Recycled(objects, root, rp), e, root, rp) <==> k in Recycled(edited, root, rp)
      ensures k in Recycled(edited, root, rp) ==>
                EditedObjects(Recycled(objects, root, rp), e, root, rp)[k] == Recycled(edited, root, rp)[k]
    {
      RecycledKeys(objects, root, rp, k);
      RecycledKeys(edited, root, rp, k);
    }
  }

  lemma {:induction false} WorkCommutesWithRecycling(objects: Objects, edits: seq<Edit>, root: Key, rp: Key)
    requires Fresh(objects, rp)
    ensures Fresh(ObjectsAfter(objects, edits, root, rp), rp)
    ensures ObjectsAfter(Recycled(objects, root, rp), edits, root, rp) ==
            Recycled(ObjectsAfter(objects, edits, root, rp), root, rp)
  {
    if edits != [] {
      var n := |edits| - 1;
      WorkCommutesWithRecycling(objects, edits[..n], root, rp);
      EditCommutesWithRecycling(ObjectsAfter(objects, edits[..n], root, rp), edits[n], root, rp);
    }
  }

  /** So can hiding the folder's rows and writing others; the folder's own rows stay as they are. */
  lemma {:induction false} WorkCommutesWithHiding(rows: Rows, edits: seq<Edit>, root: Key,
                                                  since: Time, dirNow: Time, fileNow: Time)
    ensures RowsAfter(Hide(rows, root, dirNow, fileNow), edits, root) ==
            Hide(RowsAfter(rows, edits, root), root, dirNow, fileNow)
    ensures HiddenGeneration(RowsAfter(rows, edits, root), root, since) == HiddenGeneration(rows, root, since)
  {
    if edits != [] {
      var n := |edits| - 1;
      WorkCommutesWithHiding(rows, edits[..n], root, since, dirNow, fileNow);
      EditCommutesWithHiding(RowsAfter(rows, edits[..n], root), edits[n], root, since, dirNow, fileNow);
    }
  }

  /** The clause does not look at the stamp. */
  lemma SelectedByPlace(root: Key, r: Row, stamp: Option<Time>)
    ensures Selected(root, r.(deletedAt := stamp)) == Selected(root, r)
  {
  }

  lemma EditCommutesWithHiding(rows: Rows, e: Edit, root: Key, since: Time, dirNow: Time, fileNow: Time)
    ensures EditedRows(Hide(rows, root, dirNow, fileNow), e, root) ==
            Hide(EditedRows(rows, e, root), root, dirNow, fileNow)
    ensures HiddenGeneration(EditedRows(rows, e, root), root, since) == HiddenGeneration(rows, root, since)
  {
    hide Selected, Hide;
    var hidden := Hide(rows, root, dirNow, fileNow);
    forall id | id in rows
      ensures Selected(root, hidden[id]) == Selected(root, rows[id])
    {
      SelectedByPlace(root, rows[id], hidden[id].deletedAt);
    }
    forall id
      ensures id in HiddenGeneration(EditedRows(rows, e, root), root, since) <==>
              id in HiddenGeneration(rows, root, since)
    {
    }
  }

  lemma {:induction false} WorkKeepsItem(items: Items, edits: seq<Edit>, own: ItemId, item: Item)
    requires own !in items
    ensures own !in ItemsAfter(items, edits, own)
    ensures ItemsAfter(items[own := item], edits, own) == ItemsAfter(items, edits, own)[own := item]
  {
    if edits != [] {
      WorkKeepsItem(items, edits[..|edits| - 1], own, item);
    }
  }

  /** Every object outside the bin is as it was. */
  ghost predicate OthersKept(before: Objects, now: Objects, rp: Key) {
    forall k :: k in before && !(rp + "/" <= k) ==> Holds(now, k, before[k])
  }

  /**
   * A restore keeps every object outside the bin exactly when each recycled content finds its key free,
   * or holding the same bytes already: what the occupied check stands for.
   */
  lemma RestoreKeepsOthersWhen(objects: Objects, rp: Key)
    ensures OthersKept(objects, Restored(objects, rp), rp) <==>
            forall d :: d in objects && rp + "/" + d in objects && !(rp + "/" <= d) &&
                        d != "" && d[|d| - 1] != '/' ==>
              objects[d] == objects[rp + "/" + d]
  {
    forall k
      ensures k in Contents(objects, rp) <==> RecycleKey(rp, k) in objects && !Marker(k)
    {
      ContentsAreRecycled(objects, rp, k);
    }
    var now := Restored(objects, rp);
    forall k | k in objects && !(rp + "/" <= k)
      ensures k in now && now[k] == if k in Contents(objects, rp) then objects[RecycleKey(rp, k)] else objects[k]
    {
    }
  }

  /** When the listing behind the check fails, an object written in the meantime is overwritten. */
  lemma UnguardedRestoreOverwrites(root: Key, rp: Key, k: Key, recycled: Bytes, written: Bytes)
    requires root + "/" <= k && k[|k| - 1] != '/' && !(rp + "/" <= k) && recycled != written
    ensures var objects := map[RecycleKey(rp, k) := recycled, k := written];
            && Backed(objects, root, rp) && Restored(objects, rp) == map[k := recycled]
            && !OthersKept(objects, Restored(objects, rp), rp)
  {
    hide Restored;
    var objects := map[RecycleKey(rp, k) := recycled, k := written];
    RecycleKeyRoundTrip(rp, k);
    var now := Restored(objects, rp);
    forall d
      ensures d in now <==> d == k
      ensures d in now ==> now[d] == recycled
    {
      RestoredKeys(objects, rp, d);
      RecycleKeyRoundTrip(rp, d);
    }
    assert !Holds(now, k, objects[k]);
  }

  /** All copies made and all originals removed is exactly the completed move. */
  lemma RecycledIs(before: Objects, now: Objects, root: Key, rp: Key)
    requires Fresh(before, rp)
    requires SameElsewhere(before, now, Under(before, root + "/"), rp)
    requires forall k :: k in Under(before, root + "/") ==> k !in now && Holds(now, RecycleKey(rp, k), before[k])
    requires forall x :: x in now && rp + "/" <= x ==> Original(rp, x) in Under(before, root + "/")
    ensures now == Recycled(before, root, rp)
  {
    var folder := Under(before, root + "/");
    var want := Recycled(before, root, rp);
    forall x
      ensures x in now <==> x in want
      ensures x in now ==> now[x] == want[x]
    {
      assert x in before ==> x !in Under(before, rp + "/");
      if rp + "/" <= x {
        assert x == RecycleKey(rp, Original(rp, x));
        assert x in now ==> Original(rp, x) in folder;
        if x in want {
          var k :| k in folder && RecycleKey(rp, k) == x;
          RecycleKeyRoundTrip(rp, k);
        }
      } else {
        forall k | k in folder
          ensures RecycleKey(rp, k) != x
        {
          RecycleKeyRoundTrip(rp, k);
        }
      }
    }
  }

  /** Originals back and copies gone is exactly the state before the delete. */
  lemma RolledBack(before: Objects, now: Objects, keys: set<Key>, rp: Key)
    requires Fresh(before, rp) && keys <= before.Keys
    requires SameElsewhere(before, now, keys, rp)
    requires forall k :: k in keys ==> Holds(now, k, before[k]) && RecycleKey(rp, k) !in now
    requires forall x :: x in now && rp + "/" <= x ==> Original(rp, x) in keys
    ensures now == before
  {
    forall x
      ensures x in now <==> x in before
      ensures x in now ==> now[x] == before[x]
    {
      assert x in before ==> x !in Under(before, rp + "/");
      assert rp + "/" <= x ==> x == RecycleKey(rp, Original(rp, x));
    }
  }

  /** Removing copies keeps everything else, and removing all of them restores the bucket. */
  lemma CopiesRemoved(before: Objects, mid: Objects, now: Objects, copies: set<Key>, rp: Key)
    requires Fresh(before, rp) && SameElsewhere(before, mid, {}, rp)
    requires Shrunk(mid, now, copies) && forall k :: k in copies ==> rp + "/" <= k
    ensures SameElsewhere(before, now, {}, rp)
    ensures mid.Keys == before.Keys + copies && (forall k :: k in copies ==> k !in now) ==> now == before
  {
    assert forall k :: k in before ==> k !in Under(before, rp + "/");
    if mid.Keys == before.Keys + copies && forall k :: k in copies ==> k !in now {
      assert forall k :: k in now <==> k in before;
    }
  }

  /** `keys` names each element of `named` once. */
  ghost predicate Lists(keys: seq<Key>, named: set<Key>) {
    && (forall k :: k in keys <==> k in named)
    && (forall i, j :: 0 <= i < j < |keys| ==> keys[i] != keys[j])
  }

  /** Copying the originals back after a completed move keeps to the folder and the recycle prefix. */
  lemma UndoneDelete(before: Objects, binned: Objects, now: Objects, root: Key, rp: Key, keys: seq<Key>)
    requires Fresh(before, rp) && Lists(keys, Under(before, root + "/"))
    requires SameElsewhere(before, binned, Under(before, root + "/"), rp)
    requires SameElsewhere(binned, now, Elements(keys), rp)
    requires Kept(before, now, Elements(keys), rp)
    ensures SameElsewhere(before, now, Under(before, root + "/"), rp)
    ensures Kept(before, now, Under(before, root + "/"), rp)
  {
    assert Elements(keys) == Under(before, root + "/");
  }

  /** After a completed move the recycle prefix holds copies of the folder's objects only. */
  lemma BinnedBefore(before: Objects, binned: Objects, now: Objects, root: Key, rp: Key, keys: seq<Key>)
    requires Fresh(before, rp) && binned == Recycled(before, root, rp)
    requires forall x :: rp + "/" <= x && x in now ==> x in binned
    ensures forall x :: x in now && rp + "/" <= x ==> Original(rp, x) in Under(before, root + "/")
  {
    forall x | x in now && rp + "/" <= x
      ensures Original(rp, x) in Under(before, root + "/")
    {
      assert x !in Under(before, rp + "/");
      var k :| k in Under(before, root + "/") && RecycleKey(rp, k) == x;
      RecycleKeyRoundTrip(rp, k);
    }
  }

  // ---------- Restoring ----------

  /** No loss: every recycled content is still in the bin or back at its original key. */
  ghost predicate Survives(before: Objects, now: Objects, rp: Key) {
    forall x :: x in before && rp + "/" <= x && !Marker(Original(rp, x)) ==>
      Holds(now, Original(rp, x), before[x]) || Holds(now, x, before[x])
  }

  /** Every recycled content is back at its original key. */
  ghost predicate Out(before: Objects, now: Objects, rp: Key) {
    forall x :: x in before && rp + "/" <= x && !Marker(Original(rp, x)) ==> Holds(now, Original(rp, x), before[x])
  }

  /** The same in full: each recycled copy of a key not ending in a slash is back at that key. */
  ghost predicate Back(before: Objects, now: Objects, rp: Key) {
    forall k :: rp + "/" + k in before && k != "" && k[|k| - 1] != '/' ==> Holds(now, k, before[rp + "/" + k])
  }

  /** Or still in the bin. */
  ghost predicate BackOrInBin(before: Objects, now: Objects, rp: Key) {
    forall k :: rp + "/" + k in before && k != "" && k[|k| - 1] != '/' ==>
      Holds(now, k, before[rp + "/" + k]) || Holds(now, rp + "/" + k, before[rp + "/" + k])
  }

  lemma OutIsBack(before: Objects, now: Objects, rp: Key)
    ensures Out(before, now, rp) ==> Back(before, now, rp) && BackOrInBin(before, now, rp)
    ensures Survives(before, now, rp) ==> BackOrInBin(before, now, rp)
  {
    forall k | rp + "/" + k in before && k != "" && k[|k| - 1] != '/'
      ensures Out(before, now, rp) ==> Holds(now, k, before[rp + "/" + k])
      ensures Survives(before, now, rp) ==>
                Holds(now, k, before[rp + "/" + k]) || Holds(now, rp + "/" + k, before[rp + "/" + k])
    {
      RecycleKeyRoundTrip(rp, k);
    }
  }

  lemma NothingMoved(before: Objects, rp: Key)
    ensures BackOrInBin(before, before, rp) && forall keys :: Agree(before, before, keys)
  {
  }

  /** A completed restore leaves nothing in the bin. */
  lemma RestoredEmptiesBin(before: Objects, root: Key, rp: Key)
    requires Backed(before, root, rp)
    ensures forall x :: x in Restored(before, rp) ==> !(rp + "/" <= x)
  {
    forall x | x in Contents(before, rp)
      ensures !(rp + "/" <= x)
    {
      ContentsAreRecycled(before, rp, x);
      RecycleKeyRoundTrip(rp, x);
    }
    assert forall x :: x in before && rp + "/" <= x ==> x in Under(before, rp + "/");
  }

  ghost predicate BinIntact(before: Objects, now: Objects, rp: Key) {
    forall x :: x in before && rp + "/" <= x ==> Holds(now, x, before[x])
  }

  /** What the listing of the bin yields are its contents. */
  lemma ContentsListed(before: Objects, rp: Key, recycled: seq<Key>)
    requires Lists(recycled, Under(before, rp + "/"))
    ensures Elements(ContentKeys(rp, recycled)) == Contents(before, rp)
    ensures forall i, j :: 0 <= i < j < |ContentKeys(rp, recycled)| ==>
              ContentKeys(rp, recycled)[i] != ContentKeys(rp, recycled)[j]
  {
    forall i | 0 <= i < |recycled|
      ensures rp + "/" <= recycled[i]
    {
      assert recycled[i] in recycled;
    }
    ContentKeysList(rp, recycled);
    forall d
      ensures d in ContentKeys(rp, recycled) <==> d in Contents(before, rp)
    {
      ContentsAreRecycled(before, rp, d);
      RecycleKeyRoundTrip(rp, d);
    }
  }

  /** Contents out and bin empty is exactly the completed restore. */
  lemma RestoredIs(before: Objects, now: Objects, root: Key, rp: Key)
    requires Backed(before, root, rp) && Out(before, now, rp)
    requires Agree(before, now, Contents(before, rp) + Under(before, rp + "/"))
    requires forall x :: x in before && rp + "/" <= x ==> x !in now
    ensures now == Restored(before, rp)
  {
    var want := Restored(before, rp);
    forall k
      ensures k in now <==> k in want
      ensures k in now ==> now[k] == want[k]
    {
      ContentsAreRecycled(before, rp, k);
      RecycleKeyRoundTrip(rp, k);
    }
  }

  /** The bucket without the bin's markers. */
  function MarkersDropped(objects: Objects, rp: Key): Objects {
    objects - set x | x in objects && rp + "/" <= x && x[|x| - 1] == '/'
  }

  /** On their way back into the bin each of these is at one of its two keys; nothing else has changed. */
  ghost predicate AsReturned(out: Objects, now: Objects, rp: Key, restored: seq<Key>) {
    && (forall d :: d in restored && d in out ==> Holds(now, RecycleKey(rp, d), out[d]) || Holds(now, d, out[d]))
    && (forall k :: k !in restored && !(rp + "/" <= k) ==>
          (k in now <==> k in out) && (k in now ==> now[k] == out[k]))
    && (forall x :: rp + "/" <= x && Original(rp, x) !in restored ==>
          (x in now <==> x in out) && (x in now ==> now[x] == out[x]))
  }

  /** Contents back in the bin and gone from the folder: only the bin's markers are missing. */
  lemma BinnedAgain(before: Objects, now: Objects, root: Key, rp: Key)
    requires Backed(before, root, rp)
    requires Agree(before, now, Contents(before, rp) + Under(before, rp + "/"))
    requires forall d :: d in Contents(before, rp) ==> d !in now && d !in before
    requires forall x :: x in before && rp + "/" <= x && !Marker(Original(rp, x)) ==> Holds(now, x, before[x])
    requires forall x :: x in before && rp + "/" <= x && Marker(Original(rp, x)) ==> x !in now
    ensures now == MarkersDropped(before, rp)
  {
    hide Contents, Backed;
    var want := MarkersDropped(before, rp);
    forall k
      ensures k in now <==> k in want
      ensures k in now ==> now[k] == want[k]
    {
      ContentsAreRecycled(before, rp, k);
      MarkerInBin(rp, k);
      assert k in Under(before, rp + "/") <==> k in before && rp + "/" <= k;
    }
  }

  lemma MarkerInBin(rp: Key, x: Key)
    ensures rp + "/" <= x ==> (Marker(Original(rp, x)) <==> x[|x| - 1] == '/')
  {
  }

  // ---------- The manager ----------

  datatype DeleteResult = Deleted | DriveRoot | NoFolder | ListFailed | CopyFailed | DeleteFailed | RecordFailed

  datatype RestoreResult = RestoredAll | BinListFailed | Occupied | RestoreCopyFailed | UnhideFailed | ItemKept

  /** A completed deletion leaves nothing under the folder; the bin lies outside every drive. */
  lemma FolderEmptied(before: Objects, slug: string, trimmed: string, uuid: string)
    requires Fresh(before, ".recyclebin/" + uuid) && '/' !in slug && slug != ".recyclebin"
    ensures Under(Recycled(before, slug + "/" + trimmed, ".recyclebin/" + uuid), slug + "/" + trimmed + "/") == {}
  {
    hide Recycled;
    var root, rp := slug + "/" + trimmed, ".recyclebin/" + uuid;
    forall x | x in Recycled(before, root, rp)
      ensures !(root + "/" <= x)
    {
      RecycledKeys(before, root, rp, x);
      if rp + "/" <= x && root + "/" <= x {
        assert x == ".recyclebin" + "/" + x[12..];
        assert slug + "/" + (trimmed + "/") == root + "/";
        FirstSlash(slug, ".recyclebin", trimmed + "/", x[12..]);
      }
    }
  }

  /** Emptying the recycle prefix after a completed move leaves exactly what was outside the folder. */
  lemma PurgedIs(before: Objects, binned: Objects, after: Objects, root: Key, rp: Key)
    requires Fresh(before, rp) && binned == Recycled(before, root, rp)
    requires Shrunk(binned, after, Under(binned, rp + "/")) && Under(after, rp + "/") == {}
    ensures after == before - Under(before, root + "/")
  {
    hide Recycled;
    forall k
      ensures k in after <==> k in before && !(root + "/" <= k)
      ensures k in after ==> k in before && after[k] == before[k]
    {
      if rp + "/" <= k {
        assert k !in Under(after, rp + "/") && k !in Under(before, rp + "/");
      } else {
        RecycledKeys(before, root, rp, k);
        assert k in binned ==> k !in Under(binned, rp + "/");
      }
    }
  }

  class S3Manager {
    const bucket: Bucket
    const store: Store

    /** How many steps of either kind have gone wrong so far. */
    ghost function Failures(): nat
      reads bucket, store
    {
      bucket.failures + store.failures
    }

    constructor (bucket: Bucket, store: Store)
      ensures this.bucket == bucket && this.store == store
    {
      this.bucket, this.store := bucket, store;
    }

    /** Splits the deletion into protocol-sized batches and stops at the first one that fails. */
    method DeleteObjectsBatched(keys: seq<Key>) returns (ok: bool)
      modifies bucket
      ensures Shrunk(old(bucket.objects), bucket.objects, Elements(keys))
      ensures ok && keys != [] ==> bucket.alive
      ensures ok && bucket.truthful ==> forall k :: k in keys ==> k !in bucket.objects
      ensures bucket.alive ==> old(bucket.alive)
      ensures old(bucket.alive) || bucket.objects == old(bucket.objects)
      ensures bucket.truthful ==> old(bucket.truthful)
      ensures bucket.failures == old(bucket.failures) + if ok then 0 else 1
    {
      var start := 0;
      ok := true;
      while start < |keys|
        invariant start <= |keys| + DELETE_BATCH_SIZE
        invariant Shrunk(old(bucket.objects), bucket.objects, Elements(keys))
        invariant start > 0 ==> bucket.alive
        invariant bucket.truthful ==>
                    forall i :: 0 <= i < start && i < |keys| ==> keys[i] !in bucket.objects
        invariant bucket.alive ==> old(bucket.alive)
        invariant old(bucket.alive) || bucket.objects == old(bucket.objects)
        invariant ok && bucket.failures == old(bucket.failures)
        invariant bucket.truthful ==> old(bucket.truthful)
      {
        var end := start + DELETE_BATCH_SIZE;
        if end > |keys| {
          end := |keys|;
        }
        var batch := keys[start..end];
        ok := bucket.DeleteObjects(batch);
        if !ok {
          return;
        }
        assert forall i :: start <= i < end ==> keys[i] in batch by {
          assert forall i :: start <= i < end ==> keys[i] == batch[i - start];
        }
        start := start + DELETE_BATCH_SIZE;
      }
    }

    /** Copies every source it can over its destination and lists the sources that made it. */
    method CopyEach(srcs: seq<Key>, dsts: seq<Key>, ghost data: seq<Bytes>)
      returns (copied: seq<Key>, warned: bool)
      requires Pairing(bucket.objects, srcs, dsts, data)
      modifies bucket
      ensures Elements(copied) <= Elements(srcs)
      ensures !warned ==> Elements(copied) == Elements(srcs)
      ensures forall i :: 0 <= i < |srcs| && srcs[i] in copied ==> Holds(bucket.objects, dsts[i], data[i])
      ensures forall i :: 0 <= i < |srcs| ==> Holds(bucket.objects, srcs[i], data[i])
      ensures Agree(old(bucket.objects), bucket.objects, Elements(dsts))
      ensures bucket.alive ==> old(bucket.alive)
      ensures old(bucket.alive) || bucket.objects == old(bucket.objects)
      ensures bucket.truthful ==> old(bucket.truthful)
      ensures bucket.failures >= old(bucket.failures) && (warned <==> bucket.failures > old(bucket.failures))
    {
      copied, warned := [], false;
      for i := 0 to |srcs|
        invariant Elements(copied) <= Elements(srcs[..i])
        invariant !warned ==> Elements(copied) == Elements(srcs[..i])
        invariant Arrived(bucket.objects, srcs, dsts, data, copied, i)
        invariant Agree(old(bucket.objects), bucket.objects, Elements(dsts))
        invariant bucket.alive ==> old(bucket.alive)
        invariant old(bucket.alive) || bucket.objects == old(bucket.objects)
        invariant bucket.failures >= old(bucket.failures) && (warned <==> bucket.failures > old(bucket.failures))
        invariant bucket.truthful ==> old(bucket.truthful)
      {
        assert Holds(old(bucket.objects), srcs[i], data[i]) && srcs[i] !in Elements(dsts);
        label request:
        var ok := bucket.CopyObject(srcs[i], dsts[i]);
        assert srcs[..i + 1] == srcs[..i] + [srcs[i]];
        ElementsAppend(srcs[..i], srcs[i]);
        ghost var before := copied;
        assert Agree(old@request(bucket.objects), bucket.objects, {dsts[i]});
        if !ok {
          warned := true;
        } else {
          ElementsAppend(copied, srcs[i]);
          copied := copied + [srcs[i]];
        }
        OneMoreArrived(old@request(bucket.objects), bucket.objects, srcs, dsts, data, before, i, ok);
      }
      assert srcs[..|srcs|] == srcs;
    }

    /**
     * Best-effort compensation: copies every source back over its destination and removes the
     * sources that made it. Failures are logged, never returned.
     */
    method MoveBack(srcs: seq<Key>, dsts: seq<Key>, ghost data: seq<Bytes>) returns (warned: bool)
      requires Pairing(bucket.objects, srcs, dsts, data)
      modifies bucket
      ensures forall i :: 0 <= i < |srcs| ==>
                Holds(bucket.objects, dsts[i], data[i]) || Holds(bucket.objects, srcs[i], data[i])
      ensures Agree(old(bucket.objects), bucket.objects, Elements(srcs) + Elements(dsts))
      ensures forall k :: k in bucket.objects && k !in dsts ==> k in old(bucket.objects)
      ensures bucket.alive && bucket.truthful && !warned ==>
                forall i :: 0 <= i < |srcs| ==>
                  Holds(bucket.objects, dsts[i], data[i]) && srcs[i] !in bucket.objects
      ensures bucket.alive ==> old(bucket.alive)
      ensures old(bucket.alive) || bucket.objects == old(bucket.objects)
      ensures bucket.truthful ==> old(bucket.truthful)
      ensures bucket.failures >= old(bucket.failures) && (warned <==> bucket.failures > old(bucket.failures))
    {
      var copied, missed := CopyEach(srcs, dsts, data);
      label copies:
      var removed := DeleteObjectsBatched(copied);
      warned := missed || !removed;
      forall i | 0 <= i < |srcs|
        ensures if srcs[i] in copied then Holds(bucket.objects, dsts[i], data[i])
                else Holds(bucket.objects, srcs[i], data[i])
      {
        assert dsts[i] !in Elements(copied);
        assert srcs[i] in copied ==> Holds(old@copies(bucket.objects), dsts[i], data[i]);
      }
      if bucket.alive && bucket.truthful && !warned {
        forall i | 0 <= i < |srcs|
          ensures Holds(bucket.objects, dsts[i], data[i]) && srcs[i] !in bucket.objects
        {
          assert srcs[i] in Elements(srcs) && srcs[i] in Elements(copied);
        }
      }
    }

    /** Puts the originals back from their recycled copies. */
    method CopyRecycledBack(rp: Key, keys: seq<Key>, ghost before: Objects) returns (warned: bool)
      requires forall i :: 0 <= i < |keys| ==> keys[i] in before && !(rp + "/" <= keys[i])
      requires forall i, j :: 0 <= i < j < |keys| ==> keys[i] != keys[j]
      requires forall i :: 0 <= i < |keys| ==> Holds(bucket.objects, RecycleKey(rp, keys[i]), before[keys[i]])
      modifies bucket
      ensures Kept(before, bucket.objects, Elements(keys), rp)
      ensures SameElsewhere(old(bucket.objects), bucket.objects, Elements(keys), rp)
      ensures bucket.alive && bucket.truthful && !warned ==>
                forall k :: k in keys ==>
                  Holds(bucket.objects, k, before[k]) && RecycleKey(rp, k) !in bucket.objects
      ensures forall k :: rp + "/" <= k && k in bucket.objects ==> k in old(bucket.objects)
      ensures bucket.alive ==> old(bucket.alive)
      ensures old(bucket.alive) || bucket.objects == old(bucket.objects)
      ensures bucket.truthful ==> old(bucket.truthful)
      ensures bucket.failures >= old(bucket.failures) && (warned <==> bucket.failures > old(bucket.failures))
    {
      var srcs := seq(|keys|, i requires 0 <= i < |keys| => RecycleKey(rp, keys[i]));
      ghost var data := seq(|keys|, i requires 0 <= i < |keys| => before[keys[i]]);
      forall i, j | 0 <= i < |keys| && 0 <= j < |keys| && srcs[i] == srcs[j]
        ensures i == j
      {
        RecycleKeyInjective(rp, keys[i], keys[j]);
      }
      forall i | 0 <= i < |keys|
        ensures rp + "/" <= srcs[i]
      {
        RecycleKeyRoundTrip(rp, keys[i]);
      }
      warned := MoveBack(srcs, keys, data);
      forall k | k in keys
        ensures Holds(bucket.objects, k, before[k]) || Holds(bucket.objects, RecycleKey(rp, k), before[k])
        ensures bucket.alive && bucket.truthful && !warned ==>
                  Holds(bucket.objects, k, before[k]) && RecycleKey(rp, k) !in bucket.objects
      {
        var i :| 0 <= i < |keys| && keys[i] == k;
        assert srcs[i] == RecycleKey(rp, k) && data[i] == before[k];
      }
    }

    /** Copies one object under the recycle prefix. */
    method CopyOneIn(rp: Key, ghost keys: seq<Key>, ghost before: Objects, ghost copied: seq<Key>, k: Key)
      returns (ok: bool)
      requires Fresh(before, rp) && k in before && k in keys && |copied| < |keys| && keys[|copied|] == k
      requires Copying(before, bucket.objects, rp, keys, copied)
      requires bucket.truthful ==> bucket.objects.Keys == before.Keys + Elements(copied)
      modifies bucket
      ensures ok ==> Copying(before, bucket.objects, rp, keys, copied + [RecycleKey(rp, k)])
      ensures ok && bucket.truthful ==> bucket.objects.Keys == before.Keys + Elements(copied + [RecycleKey(rp, k)])
      ensures !ok ==> SameElsewhere(before, bucket.objects, {}, rp) && OnlyCopiesOf(bucket.objects, rp, keys)
      ensures !ok && bucket.alive && bucket.truthful ==> bucket.objects.Keys == before.Keys + Elements(copied)
      ensures bucket.alive ==> old(bucket.alive)
      ensures old(bucket.alive) || bucket.objects == old(bucket.objects)
      ensures bucket.truthful ==> old(bucket.truthful)
      ensures bucket.failures == old(bucket.failures) + if ok then 0 else 1
    {
      RecycleKeyRoundTrip(rp, k);
      assert k !in Under(before, rp + "/");
      ok := bucket.CopyObject(k, RecycleKey(rp, k));
      if ok {
        OneMoreCopy(before, old(bucket.objects), bucket.objects, rp, keys, |copied|);
        ElementsAppend(copied, RecycleKey(rp, k));
      }
    }

    /** Copies the folder's objects under the recycle prefix, undoing the copies if one fails. */
    method CopyToBin(rp: Key, keys: seq<Key>) returns (ok: bool, warned: bool)
      requires Fresh(bucket.objects, rp)
      requires forall k :: k in keys ==> k in bucket.objects
      modifies bucket
      ensures SameElsewhere(old(bucket.objects), bucket.objects, {}, rp)
      ensures ok ==> CopiesHeld(old(bucket.objects), bucket.objects, rp, keys, |keys|)
      ensures OnlyCopiesOf(bucket.objects, rp, keys)
      ensures !ok && bucket.alive && bucket.truthful && !warned ==> bucket.objects == old(bucket.objects)
      ensures bucket.alive ==> old(bucket.alive)
      ensures old(bucket.alive) || bucket.objects == old(bucket.objects)
      ensures bucket.truthful ==> old(bucket.truthful)
      ensures ok ==> !warned
      ensures bucket.failures == old(bucket.failures) + if ok then 0 else if warned then 2 else 1
    {
      hide Copying, SameElsewhere, OnlyCopiesOf, CopiesHeld;
      ghost var before := bucket.objects;
      var copiedKeys: seq<Key> := [];
      ok, warned := true, false;
      NothingIn(before, rp, keys);
      for i := 0 to |keys|
        invariant |copiedKeys| == i && Copying(before, bucket.objects, rp, keys, copiedKeys)
        invariant bucket.truthful ==> bucket.objects.Keys == before.Keys + Elements(copiedKeys)
        invariant bucket.alive ==> old(bucket.alive)
        invariant old(bucket.alive) || bucket.objects == old(bucket.objects)
        invariant bucket.failures == old(bucket.failures)
        invariant bucket.truthful ==> old(bucket.truthful)
      {
        CopyingMeans(before, bucket.objects, rp, keys, copiedKeys);
        ok := CopyOneIn(rp, keys, before, copiedKeys, keys[i]);
        if !ok {
          ghost var mid := bucket.objects;
          var removed := DeleteObjectsBatched(copiedKeys);
          warned := !removed;
          CopiesRemoved(before, mid, bucket.objects, Elements(copiedKeys), rp);
          OnlyCopiesShrink(mid, bucket.objects, rp, keys, copiedKeys);
          return;
        }
        copiedKeys := copiedKeys + [RecycleKey(rp, keys[i])];
      }
      CopyingMeans(before, bucket.objects, rp, keys, copiedKeys);
    }

    /** The folder's own keys and their recycle keys do not meet. */
    lemma FolderApart(before: Objects, root: Key, rp: Key)
      requires Fresh(before, rp)
      ensures forall k :: k in Under(before, root + "/") ==>
                !(rp + "/" <= k) && RecycleKey(rp, k) !in Under(before, root + "/")
      ensures Kept(before, before, Under(before, root + "/"), rp)
      ensures SameElsewhere(before, before, Under(before, root + "/"), rp) && Backed(before, root, rp)
    {
      forall k | k in before
        ensures !(rp + "/" <= k) && RecycleKey(rp, k) !in before
      {
        assert k !in Under(before, rp + "/");
        RecycleKeyRoundTrip(rp, k);
        assert RecycleKey(rp, k) !in Under(before, rp + "/");
      }
    }

    lemma ListedApart(before: Objects, root: Key, rp: Key, keys: seq<Key>)
      requires Fresh(before, rp) && Lists(keys, Under(before, root + "/"))
      ensures forall i :: 0 <= i < |keys| ==> keys[i] in before && !(rp + "/" <= keys[i])
      ensures forall i, j :: 0 <= i < j < |keys| ==> keys[i] != keys[j]
    {
      FolderApart(before, root, rp);
      assert forall i :: 0 <= i < |keys| ==> keys[i] in keys;
    }

    lemma CopiedOnly(before: Objects, binned: Objects, root: Key, rp: Key, keys: seq<Key>)
      requires Fresh(before, rp) && Lists(keys, Under(before, root + "/"))
      requires SameElsewhere(before, binned, {}, rp) && OnlyCopiesOf(binned, rp, keys)
      ensures Kept(before, binned, Under(before, root + "/"), rp) && Backed(binned, root, rp)
      ensures SameElsewhere(before, binned, Under(before, root + "/"), rp)
    {
      FolderApart(before, root, rp);
    }

    lemma NothingShrunk(now: Objects)
      ensures Shrunk(now, now, {})
    {
    }

    /** Removing the originals leaves the copies. */
    lemma Emptied(before: Objects, binned: Objects, now: Objects, root: Key, rp: Key, keys: seq<Key>)
      requires Fresh(before, rp) && Lists(keys, Under(before, root + "/"))
      requires SameElsewhere(before, binned, {}, rp) && OnlyCopiesOf(binned, rp, keys)
      requires CopiesHeld(before, binned, rp, keys, |keys|)
      requires Shrunk(binned, now, Elements(keys)) || (keys == [] && Shrunk(binned, now, {}))
      ensures forall i :: 0 <= i < |keys| ==> Holds(now, RecycleKey(rp, keys[i]), before[keys[i]])
      ensures forall k :: k in keys ==> k in before && Holds(now, RecycleKey(rp, k), before[k])
      ensures forall x :: x in now && rp + "/" <= x ==> Original(rp, x) in Under(before, root + "/")
      ensures Kept(before, now, Under(before, root + "/"), rp) && Backed(now, root, rp)
      ensures SameElsewhere(before, now, Under(before, root + "/"), rp)
    {
      FolderApart(before, root, rp);
      forall i | 0 <= i < |keys|
        ensures keys[i] in before && Holds(now, RecycleKey(rp, keys[i]), before[keys[i]])
      {
        assert keys[i] in keys;
      }
      assert Elements(keys) == Under(before, root + "/");
    }

    lemma CopiesStayFew(before: Objects, moved: Objects, now: Objects, root: Key, rp: Key, keys: seq<Key>)
      requires Fresh(before, rp)
      requires forall x :: x in moved && rp + "/" <= x ==> Original(rp, x) in Under(before, root + "/")
      requires forall x :: rp + "/" <= x && x in now ==> x in moved
      ensures Backed(now, root, rp)
      ensures forall x :: x in now && rp + "/" <= x ==> Original(rp, x) in Under(before, root + "/")
    {
      FolderApart(before, root, rp);
    }

    /** Moves every object of the folder under the recycle prefix; on an error puts back what it can. */
    method MoveToBin(root: Key, rp: Key) returns (r: DeleteResult, keys: seq<Key>, warned: bool)
      requires Fresh(bucket.objects, rp)
      modifies bucket
      ensures r in {Deleted, ListFailed, CopyFailed, DeleteFailed}
      ensures Kept(old(bucket.objects), bucket.objects, Under(old(bucket.objects), root + "/"), rp)
      ensures SameElsewhere(old(bucket.objects), bucket.objects, Under(old(bucket.objects), root + "/"), rp)
      ensures r.Deleted? ==> Lists(keys, Under(old(bucket.objects), root + "/"))
      ensures r.Deleted? ==> forall k :: k in keys ==> Holds(bucket.objects, RecycleKey(rp, k), old(bucket.objects)[k])
      ensures r.Deleted? && bucket.truthful ==> bucket.objects == Recycled(old(bucket.objects), root, rp)
      ensures Backed(bucket.objects, root, rp)
      ensures !r.Deleted? && bucket.alive && bucket.truthful && !warned ==> bucket.objects == old(bucket.objects)
      ensures bucket.alive ==> old(bucket.alive)
      ensures bucket.truthful ==> old(bucket.truthful)
      ensures bucket.failures >= old(bucket.failures) + if r.Deleted? then 0 else if warned then 2 else 1
      ensures r.Deleted? ==> bucket.failures == old(bucket.failures) && !warned
    {
      hide Kept, SameElsewhere, Backed, Recycled, OnlyCopiesOf, CopiesHeld, Shrunk;
      ghost var before := bucket.objects;
      ghost var folder := Under(before, root + "/");
      warned := false;
      var ok;
      ok, keys := bucket.ListObjects(root + "/");
      FolderApart(before, root, rp);
      if !ok {
        return ListFailed, keys, false;
      }
      assert Lists(keys, folder) by {
        assert forall k :: k in keys <==> k in Elements(keys);
      }
      ListedApart(before, root, rp, keys);
      ok, warned := CopyToBin(rp, keys);
      ghost var binned := bucket.objects;
      CopiedOnly(before, binned, root, rp, keys);
      if !ok {
        return CopyFailed, keys, warned;
      }
      if |keys| > 0 {
        ok := DeleteObjectsBatched(keys);
      } else {
        NothingShrunk(binned);
      }
      ghost var moved := bucket.objects;
      Emptied(before, binned, moved, root, rp, keys);
      if !ok {
        warned := CopyRecycledBack(rp, keys, before);
        UndoneDelete(before, moved, bucket.objects, root, rp, keys);
        CopiesStayFew(before, moved, bucket.objects, root, rp, keys);
        if bucket.alive && bucket.truthful && !warned {
          RolledBack(before, bucket.objects, folder, rp);
        }
        return DeleteFailed, keys, warned;
      }
      if bucket.truthful {
        RecycledIs(before, bucket.objects, root, rp);
      }
      return Deleted, keys, false;
    }

    /** Undoes a completed move after its transaction failed. */
    method PutBack(root: Key, rp: Key, keys: seq<Key>, ghost before: Objects) returns (warned: bool)
      requires Fresh(before, rp) && Lists(keys, Under(before, root + "/"))
      requires SameElsewhere(before, bucket.objects, Under(before, root + "/"), rp)
      requires forall k :: k in keys ==> Holds(bucket.objects, RecycleKey(rp, k), before[k])
      requires bucket.truthful ==> bucket.objects == Recycled(before, root, rp)
      requires Backed(bucket.objects, root, rp)
      modifies bucket
      ensures Kept(before, bucket.objects, Under(before, root + "/"), rp)
      ensures SameElsewhere(before, bucket.objects, Under(before, root + "/"), rp)
      ensures Backed(bucket.objects, root, rp)
      ensures bucket.alive && bucket.truthful && !warned ==> bucket.objects == before
      ensures bucket.alive ==> old(bucket.alive)
      ensures old(bucket.alive) || bucket.objects == old(bucket.objects)
      ensures bucket.truthful ==> old(bucket.truthful)
      ensures bucket.failures >= old(bucket.failures) && (warned <==> bucket.failures > old(bucket.failures))
    {
      ghost var binned := bucket.objects;
      forall i | 0 <= i < |keys|
        ensures keys[i] in before && !(rp + "/" <= keys[i])
        ensures Holds(bucket.objects, RecycleKey(rp, keys[i]), before[keys[i]])
      {
        assert keys[i] in keys && keys[i] !in Under(before, rp + "/");
      }
      warned := CopyRecycledBack(rp, keys, before);
      UndoneDelete(before, binned, bucket.objects, root, rp, keys);
      if bucket.alive && bucket.truthful && !warned {
        BinnedBefore(before, binned, bucket.objects, root, rp, keys);
        RolledBack(before, bucket.objects, Under(before, root + "/"), rp);
      }
    }

    /** The transaction behind a completed move, and the process still there to see it commit. */
    method RecordMove(root: Key, prefix: Key, rp: Key, itemId: ItemId) returns (recorded: bool)
      requires RootRow(store.rows, root, prefix) && store.Valid() && itemId !in store.items
      modifies bucket`alive, bucket`failures, store
      ensures store.Valid()
      ensures (store.rows == old(store.rows) && store.items == old(store.items) && !recorded)
              || (Recorded(old(store.rows), old(store.items), old(store.clock),
                           store.rows, store.items, root, rp, itemId)
                  && (recorded || !bucket.alive))
      ensures bucket.alive ==> old(bucket.alive)
      ensures if recorded then Failures() == old(Failures()) else Failures() > old(Failures())
    {
      hide Recorded, RootRow;
      recorded := bucket.Survive();
      if recorded {
        recorded := store.RecordFolderDeletion(itemId, root, prefix, rp);
        var up := bucket.Survive();
        recorded := recorded && up;
      }
    }

    /** The move and the transaction behind it; a failed transaction puts the originals back. */
    method RecycleFolder(root: Key, prefix: Key, rp: Key, itemId: ItemId) returns (r: DeleteResult, warned: bool)
      requires RootRow(store.rows, root, prefix) && store.Valid() && itemId !in store.items
      requires Fresh(bucket.objects, rp)
      modifies bucket, store
      ensures store.Valid() && !r.DriveRoot? && Backed(bucket.objects, root, rp)
      ensures Kept(old(bucket.objects), bucket.objects, Under(old(bucket.objects), root + "/"), rp)
      ensures SameElsewhere(old(bucket.objects), bucket.objects, Under(old(bucket.objects), root + "/"), rp)
      ensures (store.rows == old(store.rows) && store.items == old(store.items) && !r.Deleted?)
              || (Recorded(old(store.rows), old(store.items), old(store.clock),
                           store.rows, store.items, root, rp, itemId)
                  && (r.Deleted? || !bucket.alive)
                  && (bucket.truthful ==> bucket.objects == Recycled(old(bucket.objects), root, rp)))
      ensures !r.Deleted? && bucket.alive && bucket.truthful && !warned ==> bucket.objects == old(bucket.objects)
      ensures bucket.alive ==> old(bucket.alive)
      ensures bucket.truthful ==> old(bucket.truthful)
      ensures r.Deleted? ==>
                forall k :: k in old(bucket.objects) && root + "/" <= k ==>
                  Holds(bucket.objects, rp + "/" + k, old(bucket.objects)[k])
      ensures r.Deleted? ==> Failures() == old(Failures()) && !warned
      ensures !r.Deleted? ==> Failures() >= old(Failures()) + if warned then 2 else 1
    {
      ghost var before := bucket.objects;
      var keys;
      r, keys, warned := MoveToBin(root, rp);
      if !r.Deleted? {
        return;
      }
      var recorded := RecordMove(root, prefix, rp, itemId);
      if recorded {
        return Deleted, false;
      }
      warned := PutBack(root, rp, keys, before);
      return RecordFailed, warned;
    }

    /** Folder deletion, from the requested path to the committed item. */
    method DeleteDir(slug: string, trimmed: string, uuid: string, itemId: ItemId)
      returns (r: DeleteResult, warned: bool)
      requires store.Valid() && itemId !in store.items
      requires Fresh(bucket.objects, ".recyclebin/" + uuid)
      modifies bucket, store
      ensures store.Valid()
      // At every step, under any pattern of failures, nothing of the folder is lost ...
      ensures Kept(old(bucket.objects), bucket.objects,
                   Under(old(bucket.objects), slug + "/" + trimmed + "/"), ".recyclebin/" + uuid)
      ensures Backed(bucket.objects, slug + "/" + trimmed, ".recyclebin/" + uuid)
      // ... and nothing outside it is touched.
      ensures SameElsewhere(old(bucket.objects), bucket.objects,
                            Under(old(bucket.objects), slug + "/" + trimmed + "/"), ".recyclebin/" + uuid)
      // Rows and items change together, and only once every object is in the bin.
      ensures (store.rows == old(store.rows) && store.items == old(store.items) && !r.Deleted?)
              || (Recorded(old(store.rows), old(store.items), old(store.clock), store.rows, store.items,
                           slug + "/" + trimmed, ".recyclebin/" + uuid, itemId)
                  && (r.Deleted? || !bucket.alive)
                  && (bucket.truthful ==>
                        bucket.objects == Recycled(old(bucket.objects), slug + "/" + trimmed, ".recyclebin/" + uuid)))
      // An error whose compensations all succeeded leaves the bucket exactly as it was.
      ensures !r.Deleted? && bucket.alive && bucket.truthful && !warned ==>
                bucket.objects == old(bucket.objects)
      // The drive root and unknown folders are refused before anything happens.
      ensures r.DriveRoot? <==> trimmed == ""
      ensures r.Deleted? ==> old(store.DirectoryExists(slug + "/" + trimmed))
      ensures bucket.alive ==> old(bucket.alive)
      ensures bucket.truthful ==> old(bucket.truthful)
      // A single step gone wrong is undone; with every step working, an existing folder is deleted.
      ensures !r.Deleted? && bucket.alive && bucket.truthful && Failures() <= old(Failures()) + 1 ==>
                bucket.objects == old(bucket.objects)
      ensures Failures() >= old(Failures()) && (r.Deleted? ==> Failures() == old(Failures()) && !warned)
      ensures warned ==> Failures() >= old(Failures()) + 2
      ensures Failures() == old(Failures()) && trimmed != "" && old(store.DirectoryExists(slug + "/" + trimmed)) ==>
                r.Deleted?
      // What lay under the folder then lies in the bin.
      ensures r.Deleted? ==>
                forall k :: k in old(bucket.objects) && slug + "/" + trimmed + "/" <= k ==>
                  Holds(bucket.objects, ".recyclebin/" + uuid + "/" + k, old(bucket.objects)[k])
    {
      assert forall x :: x in bucket.objects && ".recyclebin/" + uuid + "/" <= x ==>
        x in Under(bucket.objects, ".recyclebin/" + uuid + "/");
      if trimmed == "" {
        return DriveRoot, false;
      }
      var root := slug + "/" + trimmed;
      var up := bucket.Survive();
      var found := store.DirectoryExists(root);
      if !up || !found {
        return NoFolder, false;
      }
      var row :| row in store.rows && store.rows[row].isDir && store.rows[row].Live()
                 && store.rows[row].pathKey == root;
      r, warned := RecycleFolder(root, store.rows[row].prefix, ".recyclebin/" + uuid, itemId);
    }

    /** Copies one recycled content to its original key. */
    method CopyOneOut(rp: Key, ghost recycled: seq<Key>, ghost before: Objects, ghost restored: seq<Key>, k: Key)
      returns (ok: bool)
      requires AllHold(before, bucket.objects, recycled) && BackSoFar(before, bucket.objects, rp, recycled, restored)
      requires Agree(before, bucket.objects, Elements(restored))
      requires k in recycled && RecycleKey(rp, Original(rp, k)) == k && Original(rp, k) !in recycled
      modifies bucket
      ensures AllHold(before, bucket.objects, recycled) && BackSoFar(before, bucket.objects, rp, recycled, restored)
      ensures Agree(before, bucket.objects, Elements(restored + [Original(rp, k)]))
      ensures ok ==> BackSoFar(before, bucket.objects, rp, recycled, restored + [Original(rp, k)])
      ensures bucket.alive ==> old(bucket.alive)
      ensures bucket.truthful ==> old(bucket.truthful)
      ensures bucket.failures == old(bucket.failures) + if ok then 0 else 1
    {
      var dst := Original(rp, k);
      ok := bucket.CopyObject(k, dst);
      ElementsAppend(restored, dst);
      AgreeGrows(before, old(bucket.objects), bucket.objects, Elements(restored), dst);
      StillHold(before, old(bucket.objects), bucket.objects, recycled, dst);
      BackOneMore(before, old(bucket.objects), bucket.objects, rp, recycled, restored, dst);
    }

    /** Copies every recycled content to its original key; markers are skipped. Stops at the first failure. */
    method CopyOutOfBin(rp: Key, recycled: seq<Key>) returns (ok: bool, restored: seq<Key>)
      requires Lists(recycled, Under(bucket.objects, rp + "/"))
      requires forall x :: x in recycled ==> !(rp + "/" <= Original(rp, x))
      modifies bucket
      ensures AllHold(old(bucket.objects), bucket.objects, recycled)
      ensures Agree(old(bucket.objects), bucket.objects, Elements(ContentKeys(rp, recycled)))
      ensures restored <= ContentKeys(rp, recycled)
      ensures BackSoFar(old(bucket.objects), bucket.objects, rp, recycled, restored)
      ensures ok ==> restored == ContentKeys(rp, recycled)
      ensures bucket.alive ==> old(bucket.alive)
      ensures bucket.truthful ==> old(bucket.truthful)
      ensures bucket.failures == old(bucket.failures) + if ok then 0 else 1
    {
      hide AllHold, BackSoFar, Agree, Elements;
      ghost var before := bucket.objects;
      NothingOut(before, rp, recycled);
      ok, restored := true, [];
      for i := 0 to |recycled|
        invariant restored == ContentKeys(rp, recycled[..i])
        invariant AllHold(before, bucket.objects, recycled)
        invariant BackSoFar(before, bucket.objects, rp, recycled, restored)
        invariant Agree(before, bucket.objects, Elements(restored))
        invariant bucket.alive ==> old(bucket.alive)
        invariant bucket.failures == old(bucket.failures)
        invariant bucket.truthful ==> old(bucket.truthful)
      {
        var k := recycled[i];
        ContentKeysNext(rp, recycled, i);
        if Marker(Original(rp, k)) {
          continue;
        }
        OutOfTheBin(before, rp, recycled, k);
        ok := CopyOneOut(rp, recycled, before, restored, k);
        if !ok {
          AgreeWiden(before, bucket.objects, restored + [Original(rp, k)], ContentKeys(rp, recycled));
          return;
        }
        restored := restored + [Original(rp, k)];
      }
      assert recycled[..|recycled|] == recycled;
    }

    /** Undoes a partial restore by copying what was restored over its recycled copy again. */
    method UnwindRestores(rp: Key, restored: seq<Key>) returns (warned: bool)
      requires forall d :: d in restored ==>
                 d in bucket.objects && Holds(bucket.objects, RecycleKey(rp, d), bucket.objects[d])
      modifies bucket
      ensures bucket.objects == old(bucket.objects)
      ensures bucket.alive ==> old(bucket.alive)
      ensures bucket.truthful ==> old(bucket.truthful)
      ensures bucket.failures >= old(bucket.failures) && (warned <==> bucket.failures > old(bucket.failures))
    {
      warned := false;
      for i := 0 to |restored|
        invariant bucket.objects == old(bucket.objects)
        invariant bucket.alive ==> old(bucket.alive)
        invariant bucket.failures >= old(bucket.failures) && (warned <==> bucket.failures > old(bucket.failures))
        invariant bucket.truthful ==> old(bucket.truthful)
      {
        assert restored[i] in restored;
        var ok := bucket.CopyObject(restored[i], RecycleKey(rp, restored[i]));
        warned := warned || !ok;
      }
    }

    lemma PlacesInBin(rp: Key, restored: seq<Key>, dsts: seq<Key>)
      requires |dsts| == |restored| && forall i :: 0 <= i < |dsts| ==> dsts[i] == RecycleKey(rp, restored[i])
      requires forall i :: 0 <= i < |restored| ==> !(rp + "/" <= restored[i])
      requires forall i, j :: 0 <= i < j < |restored| ==> restored[i] != restored[j]
      ensures forall i, j :: 0 <= i < j < |dsts| ==> dsts[i] != dsts[j]
      ensures Elements(restored) !! Elements(dsts)
    {
      forall i, j | 0 <= i < |dsts| && 0 <= j < |dsts| && dsts[i] == dsts[j]
        ensures i == j
      {
        RecycleKeyInjective(rp, restored[i], restored[j]);
      }
      forall i | 0 <= i < |dsts|
        ensures rp + "/" <= dsts[i]
      {
        RecycleKeyRoundTrip(rp, restored[i]);
      }
    }

    lemma EachReturned(out: Objects, now: Objects, rp: Key, restored: seq<Key>, dsts: seq<Key>, data: seq<Bytes>)
      requires |dsts| == |data| == |restored| && Agree(out, now, Elements(restored) + Elements(dsts))
      requires forall i :: 0 <= i < |restored| ==>
                 restored[i] in out && dsts[i] == RecycleKey(rp, restored[i]) && data[i] == out[restored[i]]
      requires forall i :: 0 <= i < |restored| ==> !(rp + "/" <= restored[i])
      requires forall i :: 0 <= i < |restored| ==> Holds(now, dsts[i], data[i]) || Holds(now, restored[i], data[i])
      ensures AsReturned(out, now, rp, restored)
    {
      hide RecycleKey, Original, Holds;
      forall d | d in restored
        ensures Holds(now, RecycleKey(rp, d), out[d]) || Holds(now, d, out[d])
      {
        var i :| 0 <= i < |restored| && restored[i] == d;
        assert dsts[i] == RecycleKey(rp, d) && data[i] == out[d];
      }
      forall x | x in dsts
        ensures rp + "/" <= x && Original(rp, x) in restored
      {
        var i :| 0 <= i < |dsts| && dsts[i] == x;
        RecycleKeyRoundTrip(rp, restored[i]);
      }
    }

    /** Returns already restored objects to the bin after the metadata could not be revived. */
    method CopyRecycledBackToBin(rp: Key, restored: seq<Key>) returns (warned: bool)
      requires forall i :: 0 <= i < |restored| ==> restored[i] in bucket.objects && !(rp + "/" <= restored[i])
      requires forall i, j :: 0 <= i < j < |restored| ==> restored[i] != restored[j]
      modifies bucket
      ensures AsReturned(old(bucket.objects), bucket.objects, rp, restored)
      ensures bucket.alive && bucket.truthful && !warned ==>
                forall d :: d in restored ==>
                  Holds(bucket.objects, RecycleKey(rp, d), old(bucket.objects)[d]) && d !in bucket.objects
      ensures bucket.alive ==> old(bucket.alive)
      ensures bucket.truthful ==> old(bucket.truthful)
      ensures bucket.failures >= old(bucket.failures) && (warned <==> bucket.failures > old(bucket.failures))
    {
      hide AsReturned, Agree;
      ghost var before := bucket.objects;
      var dsts := seq(|restored|, i requires 0 <= i < |restored| => RecycleKey(rp, restored[i]));
      ghost var data := seq(|restored|, i requires 0 <= i < |restored| => before[restored[i]]);
      PlacesInBin(rp, restored, dsts);
      warned := MoveBack(restored, dsts, data);
      EachReturned(before, bucket.objects, rp, restored, dsts, data);
      if bucket.alive && bucket.truthful && !warned {
        forall d | d in restored
          ensures Holds(bucket.objects, RecycleKey(rp, d), before[d]) && d !in bucket.objects
        {
          var i :| 0 <= i < |restored| && restored[i] == d;
          assert dsts[i] == RecycleKey(rp, d) && data[i] == before[d];
        }
      }
    }

    /** Removing recycled copies leaves the contents where they are. */
    lemma ContentsStay(before: Objects, out: Objects, now: Objects, rp: Key, recycled: seq<Key>)
      requires Lists(recycled, Under(before, rp + "/")) && Out(before, out, rp)
      requires Agree(before, out, Contents(before, rp) + Under(before, rp + "/"))
      requires forall d :: d in Contents(before, rp) ==> !(rp + "/" <= d)
      requires Shrunk(out, now, Elements(recycled))
      ensures Out(before, now, rp)
      ensures Agree(before, now, Contents(before, rp) + Under(before, rp + "/"))
    {
      assert forall x :: x in recycled ==> x in Under(before, rp + "/");
      forall x | x in before && rp + "/" <= x && !Marker(Original(rp, x))
        ensures Holds(now, Original(rp, x), before[x])
      {
        assert Holds(out, Original(rp, x), before[x]);
        assert x in Under(before, rp + "/") && Original(rp, x) in Contents(before, rp);
        assert Original(rp, x) !in Elements(recycled);
      }
    }

    /** The recycled copies go once every content is back; what cannot be removed is left, with a warning. */
    method ClearBin(root: Key, rp: Key, recycled: seq<Key>, ghost before: Objects) returns (warned: bool)
      requires Backed(before, root, rp) && Lists(recycled, Under(before, rp + "/"))
      requires Out(before, bucket.objects, rp)
      requires Agree(before, bucket.objects, Contents(before, rp) + Under(before, rp + "/"))
      requires forall d :: d in Contents(before, rp) ==> !(rp + "/" <= d)
      modifies bucket
      ensures Out(before, bucket.objects, rp)
      ensures Agree(before, bucket.objects, Contents(before, rp) + Under(before, rp + "/"))
      ensures bucket.truthful && !warned ==> bucket.objects == Restored(before, rp)
      ensures bucket.alive ==> old(bucket.alive)
      ensures bucket.truthful ==> old(bucket.truthful)
      ensures bucket.failures == old(bucket.failures) + if warned then 1 else 0
    {
      hide Restored, Out, Agree, Contents, Backed;
      ghost var out := bucket.objects;
      warned := false;
      if |recycled| > 0 {
        var ok := DeleteObjectsBatched(recycled);
        warned := !ok;
      }
      ContentsStay(before, out, bucket.objects, rp, recycled);
      if bucket.truthful && !warned {
        assert forall x :: x in before && rp + "/" <= x ==> x in Under(before, rp + "/") && x in recycled;
        RestoredIs(before, bucket.objects, root, rp);
      }
    }

    /** Where the recycled contents are to go, and what the occupied check says about those places. */
    lemma PlacesOf(objects: Objects, root: Key, rp: Key, recycled: seq<Key>)
      requires Backed(objects, root, rp) && Lists(recycled, Under(objects, rp + "/"))
      ensures Lists(ContentKeys(rp, recycled), Contents(objects, rp))
      ensures forall d :: d in Contents(objects, rp) ==>
                root + "/" <= d && !(rp + "/" <= d) && RecycleKey(rp, d) in recycled
      ensures Under(objects, root + "/") == {} ==> forall d :: d in Contents(objects, rp) ==> d !in objects
      ensures forall x :: x in recycled ==> x in objects && rp + "/" <= x && !(rp + "/" <= Original(rp, x))
    {
      ContentsListed(objects, rp, recycled);
      assert forall d :: d in ContentKeys(rp, recycled) <==> d in Elements(ContentKeys(rp, recycled));
      assert forall x :: x in recycled ==> x in Under(objects, rp + "/");
      forall d | d in Contents(objects, rp)
        ensures root + "/" <= d && !(rp + "/" <= d) && RecycleKey(rp, d) in recycled
        ensures d in objects ==> d in Under(objects, root + "/")
      {
        ContentsAreRecycled(objects, rp, d);
        RecycleKeyRoundTrip(rp, d);
        assert RecycleKey(rp, d) in Under(objects, rp + "/");
      }
    }

    /** All recycled contents back means every one of them. */
    lemma AllOut(before: Objects, now: Objects, rp: Key, recycled: seq<Key>, restored: seq<Key>)
      requires Lists(restored, Contents(before, rp)) && BackSoFar(before, now, rp, recycled, restored)
      ensures Out(before, now, rp)
    {
      forall x | x in before && rp + "/" <= x && !Marker(Original(rp, x))
        ensures Holds(now, Original(rp, x), before[x])
      {
        assert RecycleKey(rp, Original(rp, x)) == x;
        ContentsAreRecycled(before, rp, Original(rp, x));
      }
    }

    /** Copies restored so far are what the bin still holds. */
    lemma StillInBin(before: Objects, now: Objects, rp: Key, recycled: seq<Key>, restored: seq<Key>)
      requires Lists(recycled, Under(before, rp + "/")) && AllHold(before, now, recycled)
      requires BackSoFar(before, now, rp, recycled, restored)
      ensures BinIntact(before, now, rp) && Survives(before, now, rp)
      ensures forall d :: d in restored ==> d in now && Holds(now, RecycleKey(rp, d), now[d])
    {
      assert forall x :: x in before && rp + "/" <= x ==> x in Under(before, rp + "/");
    }

    /** The copying half of it: every content to its key, then the bin is cleared. */
    method CarryOut(root: Key, rp: Key, recycled: seq<Key>) returns (r: RestoreResult, restored: seq<Key>, warned: bool)
      requires Backed(bucket.objects, root, rp) && Lists(recycled, Under(bucket.objects, rp + "/"))
      modifies bucket
      ensures r in {RestoreCopyFailed, RestoredAll}
      ensures BackOrInBin(old(bucket.objects), bucket.objects, rp)
      ensures Agree(old(bucket.objects), bucket.objects,
                    Contents(old(bucket.objects), rp) + Under(old(bucket.objects), rp + "/"))
      ensures r.RestoreCopyFailed? ==> BinIntact(old(bucket.objects), bucket.objects, rp)
      ensures r.RestoredAll? ==> Out(old(bucket.objects), bucket.objects, rp)
      ensures r.RestoredAll? ==> Back(old(bucket.objects), bucket.objects, rp)
      ensures r.RestoredAll? ==> Lists(restored, Contents(old(bucket.objects), rp))
      ensures r.RestoredAll? && bucket.truthful && !warned ==>
                bucket.objects == Restored(old(bucket.objects), rp)
      ensures bucket.alive ==> old(bucket.alive)
      ensures bucket.truthful ==> old(bucket.truthful)
      ensures r.RestoredAll? ==> bucket.failures == old(bucket.failures) + if warned then 1 else 0
      ensures r.RestoreCopyFailed? ==> bucket.failures >= old(bucket.failures) + if warned then 2 else 1
    {
      hide Restored, Contents, Backed, AllHold, BackSoFar, BinIntact, Survives, Out, Back, BackOrInBin, Agree;
      ghost var before := bucket.objects;
      PlacesOf(before, root, rp, recycled);
      var ok;
      ok, restored := CopyOutOfBin(rp, recycled);
      StillInBin(before, bucket.objects, rp, recycled, restored);
      OutIsBack(before, bucket.objects, rp);
      PlacesWiden(before, bucket.objects, rp, recycled);
      if !ok {
        warned := UnwindRestores(rp, restored);
        return RestoreCopyFailed, restored, warned;
      }
      AllOut(before, bucket.objects, rp, recycled, restored);
      warned := ClearBin(root, rp, recycled, before);
      OutIsBack(before, bucket.objects, rp);
      return RestoredAll, restored, warned;
    }

    lemma PlacesWiden(before: Objects, now: Objects, rp: Key, recycled: seq<Key>)
      requires Agree(before, now, Elements(ContentKeys(rp, recycled)))
      requires Lists(ContentKeys(rp, recycled), Contents(before, rp))
      ensures Agree(before, now, Contents(before, rp) + Under(before, rp + "/"))
    {
      assert Elements(ContentKeys(rp, recycled)) == Contents(before, rp);
    }

    /**
     * The bucket half of a restore. `guarded` records that the check for an occupied destination was
     * really made: when that listing itself fails the check is skipped.
     */
    method TakeOut(root: Key, rp: Key)
      returns (r: RestoreResult, restored: seq<Key>, warned: bool, ghost guarded: bool)
      requires Backed(bucket.objects, root, rp)
      modifies bucket
      ensures r in {BinListFailed, Occupied, RestoreCopyFailed, RestoredAll}
      ensures BackOrInBin(old(bucket.objects), bucket.objects, rp)
      ensures Agree(old(bucket.objects), bucket.objects,
                    Contents(old(bucket.objects), rp) + Under(old(bucket.objects), rp + "/"))
      ensures r.BinListFailed? || r.Occupied? ==> bucket.objects == old(bucket.objects)
      ensures r.Occupied? ==> Under(old(bucket.objects), root + "/") != {}
      ensures r.RestoreCopyFailed? ==> BinIntact(old(bucket.objects), bucket.objects, rp)
      ensures guarded ==> forall d :: d in Contents(old(bucket.objects), rp) ==> d !in old(bucket.objects)
      ensures r.RestoredAll? ==> Out(old(bucket.objects), bucket.objects, rp)
      ensures r.RestoredAll? ==> Back(old(bucket.objects), bucket.objects, rp)
      ensures r.RestoredAll? ==> Lists(restored, Contents(old(bucket.objects), rp))
      ensures r.RestoredAll? && bucket.truthful && !warned ==>
                bucket.objects == Restored(old(bucket.objects), rp)
      ensures r.RestoredAll? && bucket.truthful && !warned ==> forall x :: x in bucket.objects ==> !(rp + "/" <= x)
      ensures bucket.alive ==> old(bucket.alive)
      ensures bucket.truthful ==> old(bucket.truthful)
      ensures bucket.failures >= old(bucket.failures) && (warned ==> bucket.failures > old(bucket.failures))
      ensures bucket.failures == old(bucket.failures) ==> guarded || r.Occupied?
      ensures bucket.failures == old(bucket.failures) ==>
                r == if Under(old(bucket.objects), root + "/") != {} then Occupied else RestoredAll
    {
      hide Restored, Contents, Backed, BinIntact, Out, Back, BackOrInBin, Agree;
      ghost var before := bucket.objects;
      restored, warned, guarded := [], false, false;
      NothingMoved(before, rp);
      var listed, recycled := bucket.ListObjects(rp + "/");
      if !listed {
        return BinListFailed, restored, warned, guarded;
      }
      var known, existing := bucket.ListObjects(root + "/");
      if known && |existing| > 0 {
        assert existing[0] in Elements(existing);
        return Occupied, restored, warned, guarded;
      }
      guarded := known;
      assert Lists(recycled, Under(before, rp + "/")) by {
        assert forall k :: k in recycled <==> k in Elements(recycled);
      }
      PlacesOf(before, root, rp, recycled);
      RestoredEmptiesBin(before, root, rp);
      assert known ==> Elements(existing) == {};
      r, restored, warned := CarryOut(root, rp, recycled);
    }

    /** The metadata half of a restore: the rows first, then the item goes. */
    method ReviveRows(id: ItemId) returns (r: RestoreResult)
      requires store.Valid() && id in store.items
      modifies bucket`alive, bucket`failures, store`rows, store`items, store`failures
      ensures store.Valid() && r in {RestoredAll, UnhideFailed, ItemKept}
      ensures store.rows ==
              if r.UnhideFailed? then old(store.rows)
              else Unhide(old(store.rows), old(store.items[id].originalPathKey), old(store.items[id].createdAt))
      ensures r.RestoredAll? ==> store.items == old(store.items) - {id}
      ensures store.items == old(store.items) ||
              (store.items == old(store.items) - {id} && !r.UnhideFailed? && (r.RestoredAll? || !bucket.alive))
      ensures bucket.alive ==> old(bucket.alive)
      ensures if r.RestoredAll? then Failures() == old(Failures()) else Failures() > old(Failures())
      ensures bucket.failures >= old(bucket.failures)
    {
      hide Unhide;
      var item := store.items[id];
      var up := bucket.Survive();
      var unhidden := false;
      if up {
        unhidden := store.UnhideFolderSubtree(item.originalPathKey, item.createdAt);
        up := bucket.Survive();
      }
      if !unhidden {
        return UnhideFailed;
      }
      var dropped := false;
      if up {
        dropped := store.DeleteRecycleBinItemByID(id);
        up := bucket.Survive();
      }
      return if dropped && up then RestoredAll else ItemKept;
    }

    /** Puts a folder item back: its objects, then its rows, then drops the item. */
    method RestoreFolder(id: ItemId) returns (r: RestoreResult, warned: bool, ghost guarded: bool)
      requires store.Valid() && id in store.items
      requires Backed(bucket.objects, store.items[id].originalPathKey, store.items[id].recyclePathKey)
      modifies bucket, store
      ensures store.Valid()
      // At every step what was recycled from a key not ending in a slash is in the bin or at that key ...
      ensures BackOrInBin(old(bucket.objects), bucket.objects, old(store.items[id].recyclePathKey))
      // ... at that key once the restore is through, with the bin then empty ...
      ensures r.RestoredAll? || r.ItemKept? ==>
                var rp := old(store.items[id].recyclePathKey);
                forall k :: rp + "/" + k in old(bucket.objects) && k != "" && k[|k| - 1] != '/' ==>
                  Holds(bucket.objects, k, old(bucket.objects)[rp + "/" + k])
      ensures (r.RestoredAll? || r.ItemKept?) && bucket.truthful && !warned ==>
                forall x :: x in bucket.objects ==> !(old(store.items[id].recyclePathKey) + "/" <= x)
      // ... and nobody else's object is touched ...
      ensures Agree(old(bucket.objects), bucket.objects,
                    Contents(old(bucket.objects), old(store.items[id].recyclePathKey)) +
                    Under(old(bucket.objects), old(store.items[id].recyclePathKey) + "/"))
      // ... nor overwritten, provided the listing behind the occupied check succeeded.
      ensures guarded ==> forall d :: d in Contents(old(bucket.objects), old(store.items[id].recyclePathKey)) ==>
                d !in old(bucket.objects)
      // Rows come back only once every content is back, the item goes only after the rows.
      ensures store.rows == old(store.rows) ||
              (store.rows == Unhide(old(store.rows), old(store.items[id].originalPathKey),
                                    old(store.items[id].createdAt))
               && Back(old(bucket.objects), bucket.objects, old(store.items[id].recyclePathKey)))
      ensures store.items == old(store.items) ||
              (store.items == old(store.items) - {id} && (r.RestoredAll? || !bucket.alive) &&
               store.rows == Unhide(old(store.rows), old(store.items[id].originalPathKey),
                                    old(store.items[id].createdAt)))
      ensures r.RestoredAll? ==> store.items == old(store.items) - {id}
      ensures (r.RestoredAll? || r.ItemKept?) && bucket.truthful && !warned ==>
                bucket.objects == Restored(old(bucket.objects), old(store.items[id].recyclePathKey))
      // What each failure leaves behind.
      ensures r.BinListFailed? || r.Occupied? ==> bucket.objects == old(bucket.objects)
      ensures r.RestoreCopyFailed? ==>
                BinIntact(old(bucket.objects), bucket.objects, old(store.items[id].recyclePathKey))
      ensures !r.RestoredAll? && !r.ItemKept? ==> store.rows == old(store.rows) && store.items == old(store.items)
      ensures r.UnhideFailed? && bucket.alive && bucket.truthful && !warned && guarded ==>
                bucket.objects == MarkersDropped(old(bucket.objects), old(store.items[id].recyclePathKey))
      ensures bucket.alive ==> old(bucket.alive)
      ensures bucket.truthful ==> old(bucket.truthful)
      // A single statement that failed is made up for: the contents are in the bin as before.
      ensures r.UnhideFailed? && bucket.alive && bucket.truthful && bucket.failures == old(bucket.failures) ==>
                bucket.objects == MarkersDropped(old(bucket.objects), old(store.items[id].recyclePathKey))
      // With every step working, the folder comes back unless something is in its place.
      ensures Failures() >= old(Failures()) && (Failures() == old(Failures()) ==> !warned)
      ensures Failures() == old(Failures()) ==>
                r == if Under(old(bucket.objects), old(store.items[id].originalPathKey) + "/") != {}
                  then Occupied else RestoredAll
    {
      hide Unhide, Survives, Restored, BinIntact, Out, Agree, Contents, BackOrInBin, MarkersDropped, Listing;
      var item := store.items[id];
      var rp := item.recyclePathKey;
      ghost var before := bucket.objects;
      var restored;
      r, restored, warned, guarded := TakeOut(item.originalPathKey, rp);
      if !r.RestoredAll? {
        return;
      }
      r := ReviveRows(id);
      if r.UnhideFailed? {
        var missed := ReturnToBin(item.originalPathKey, rp, restored, before, warned, guarded);
        warned := warned || missed;
      }
    }

    lemma ReadyToReturn(before: Objects, out: Objects, root: Key, rp: Key, restored: seq<Key>)
      requires Backed(before, root, rp) && Lists(restored, Contents(before, rp)) && Out(before, out, rp)
      ensures forall i :: 0 <= i < |restored| ==> restored[i] in out && !(rp + "/" <= restored[i])
      ensures forall i, j :: 0 <= i < j < |restored| ==> restored[i] != restored[j]
    {
      forall d | d in Contents(before, rp)
        ensures d in out && !(rp + "/" <= d)
      {
        ContentsAreRecycled(before, rp, d);
        RecycleKeyRoundTrip(rp, d);
      }
      assert forall i :: 0 <= i < |restored| ==> restored[i] in restored;
    }

    lemma NoneLost(before: Objects, out: Objects, now: Objects, rp: Key, restored: seq<Key>)
      requires Lists(restored, Contents(before, rp)) && Out(before, out, rp)
      requires Agree(before, out, Contents(before, rp) + Under(before, rp + "/"))
      requires (forall d :: d in restored ==> d in out) && AsReturned(out, now, rp, restored)
      ensures Survives(before, now, rp)
      ensures Agree(before, now, Contents(before, rp) + Under(before, rp + "/"))
    {
      hide Contents;
      forall x | rp + "/" <= x
        ensures RecycleKey(rp, Original(rp, x)) == x
        ensures Original(rp, x) in restored <==> x in before && !Marker(Original(rp, x))
      {
        ContentsAreRecycled(before, rp, Original(rp, x));
      }
    }

    lemma AllReturned(before: Objects, now: Objects, root: Key, rp: Key, restored: seq<Key>)
      requires Backed(before, root, rp) && Lists(restored, Contents(before, rp))
      requires forall d :: d in Contents(before, rp) ==> d !in before
      requires AsReturned(Restored(before, rp), now, rp, restored)
      requires Agree(before, now, Contents(before, rp) + Under(before, rp + "/"))
      requires forall d :: d in restored ==>
                 d in Restored(before, rp) && Holds(now, RecycleKey(rp, d), Restored(before, rp)[d]) && d !in now
      ensures now == MarkersDropped(before, rp)
    {
      var out := Restored(before, rp);
      forall x | x in before && rp + "/" <= x
        ensures if Marker(Original(rp, x)) then x !in now else Holds(now, x, before[x])
      {
        assert RecycleKey(rp, Original(rp, x)) == x;
        ContentsAreRecycled(before, rp, x);
        ContentsAreRecycled(before, rp, Original(rp, x));
      }
      BinnedAgain(before, now, root, rp);
    }

    /** The compensation of a restore whose rows could not be revived. */
    method ReturnToBin(root: Key, rp: Key, restored: seq<Key>, ghost before: Objects, ghost warnedBefore: bool,
                       ghost guarded: bool) returns (warned: bool)
      requires Backed(before, root, rp) && Lists(restored, Contents(before, rp))
      requires Out(before, bucket.objects, rp)
      requires Agree(before, bucket.objects, Contents(before, rp) + Under(before, rp + "/"))
      requires guarded ==> forall d :: d in Contents(before, rp) ==> d !in before
      requires bucket.truthful && !warnedBefore ==> bucket.objects == Restored(before, rp)
      modifies bucket
      ensures BackOrInBin(before, bucket.objects, rp)
      ensures Agree(before, bucket.objects, Contents(before, rp) + Under(before, rp + "/"))
      ensures bucket.alive && bucket.truthful && !warned && !warnedBefore && guarded ==>
                bucket.objects == MarkersDropped(before, rp)
      ensures bucket.alive ==> old(bucket.alive)
      ensures bucket.truthful ==> old(bucket.truthful)
      ensures bucket.failures >= old(bucket.failures) && (warned <==> bucket.failures > old(bucket.failures))
    {
      hide Contents, Backed, Out, Agree, Restored, Survives, BackOrInBin, MarkersDropped, AsReturned;
      ghost var out := bucket.objects;
      ReadyToReturn(before, out, root, rp, restored);
      warned := CopyRecycledBackToBin(rp, restored);
      NoneLost(before, out, bucket.objects, rp, restored);
      OutIsBack(before, bucket.objects, rp);
      if bucket.alive && bucket.truthful && !warned && !warnedBefore && guarded {
        AllReturned(before, bucket.objects, root, rp, restored);
      }
    }

    /**
     * Deleting a folder and restoring it, nothing else happening in between, gives back every row of
     * the table, hidden older generations included, and every object but the folder's markers.
     */
    method DeleteThenRestore(slug: string, trimmed: string, uuid: string, itemId: ItemId) returns (done: bool)
      requires store.Valid() && itemId !in store.items
      requires Fresh(bucket.objects, ".recyclebin/" + uuid)
      modifies bucket, store
      ensures done ==> store.rows == old(store.rows) && store.items == old(store.items)
      ensures done && bucket.truthful ==>
                forall k :: k in old(bucket.objects) && (k == "" || k[|k| - 1] != '/') ==>
                  Holds(bucket.objects, k, old(bucket.objects)[k])
      ensures done && bucket.truthful ==>
                bucket.objects ==
                old(bucket.objects) - Markers(old(bucket.objects), slug + "/" + trimmed)
      // With every step working, an existing folder of a drive comes through.
      ensures Failures() == old(Failures()) && bucket.truthful && '/' !in slug && slug != ".recyclebin" &&
              trimmed != "" && old(store.DirectoryExists(slug + "/" + trimmed)) ==>
                done
    {
      ghost var rows, items, clock, objects := store.rows, store.items, store.clock, bucket.objects;
      ghost var root, rp := slug + "/" + trimmed, ".recyclebin/" + uuid;
      var deleted, _ := DeleteDir(slug, trimmed, uuid, itemId);
      if !deleted.Deleted? {
        return false;
      }
      assert Recorded(rows, items, clock, store.rows, store.items, root, rp, itemId);
      RowsComeBack(rows, items, clock, store.rows, store.items, root, rp, itemId);
      RestoreUndoesDelete(objects, root, rp);
      if '/' !in slug && slug != ".recyclebin" {
        FolderEmptied(objects, slug, trimmed, uuid);
      }
      var r, warned, _ := RestoreFolder(itemId);
      done := r.RestoredAll? && !warned;
    }

    /** Other requests at work elsewhere; their writes carry stamps of their own time. */
    method OthersWork(edits: seq<Edit>, root: Key, rp: Key, own: ItemId)
      requires store.Valid()
      modifies bucket`objects, store`rows, store`items, store`clock
      ensures store.Valid()
      ensures bucket.objects == ObjectsAfter(old(bucket.objects), edits, root, rp)
      ensures store.rows == RowsAfter(old(store.rows), edits, root)
      ensures store.items == ItemsAfter(old(store.items), edits, own)
    {
      hide Selected, Inside;
      for n := 0 to |edits|
        invariant store.Valid()
        invariant bucket.objects == ObjectsAfter(old(bucket.objects), edits[..n], root, rp)
        invariant store.rows == RowsAfter(old(store.rows), edits[..n], root)
        invariant store.items == ItemsAfter(old(store.items), edits[..n], own)
      {
        assert edits[..n + 1][..n] == edits[..n];
        match edits[n]
        case PutObject(_, _) => bucket.objects := EditedObjects(bucket.objects, edits[n], root, rp);
        case RemoveObject(_) => bucket.objects := EditedObjects(bucket.objects, edits[n], root, rp);
        case PutRow(_, row) =>
          if row.deletedAt.Some? && row.deletedAt.value > store.clock {
            store.clock := row.deletedAt.value;
          }
          store.rows := EditedRows(store.rows, edits[n], root);
        case RemoveRow(_) => store.rows := EditedRows(store.rows, edits[n], root);
        case PutItem(_, item) =>
          if item.createdAt > store.clock {
            store.clock := item.createdAt;
          }
          store.items := EditedItems(store.items, edits[n], own);
        case RemoveItem(_) => store.items := EditedItems(store.items, edits[n], own);
      }
      assert edits[..|edits|] == edits;
    }

    /** On the tables, what a deletion hid comes back as if the others had worked without it. */
    lemma RowsComeBackAmongOthers(rows: Rows, items: Items, clock: Time, hidden: Rows, recorded: Items,
                                  edits: seq<Edit>, root: Key, rp: Key, own: ItemId)
      requires Recorded(rows, items, clock, hidden, recorded, root, rp, own) && own !in items
      requires forall i :: i in rows && rows[i].deletedAt.Some? ==> rows[i].deletedAt.value <= clock
      ensures Unhide(RowsAfter(hidden, edits, root), root, clock + 1) == RowsAfter(rows, edits, root)
      ensures own in ItemsAfter(recorded, edits, own) && ItemsAfter(recorded, edits, own)[own] == recorded[own]
      ensures ItemsAfter(recorded, edits, own) - {own} == ItemsAfter(items, edits, own)
    {
      assert HiddenGeneration(rows, root, clock + 1) == {};
      WorkCommutesWithHiding(rows, edits, root, clock + 1, clock + 2, clock + 3);
      UnhideUndoesHide(RowsAfter(rows, edits, root), root, clock + 1, clock + 2, clock + 3);
      WorkKeepsItem(items, edits, own, recorded[own]);
      assert recorded == items[own := recorded[own]];
    }

    /** And on the bucket. */
    lemma ObjectsComeBackAmongOthers(objects: Objects, binned: Objects, mid: Objects, edits: seq<Edit>,
                                     slug: string, trimmed: string, uuid: string)
      requires Fresh(objects, ".recyclebin/" + uuid)
      requires binned == Recycled(objects, slug + "/" + trimmed, ".recyclebin/" + uuid)
      requires mid == ObjectsAfter(binned, edits, slug + "/" + trimmed, ".recyclebin/" + uuid)
      ensures var after := ObjectsAfter(objects, edits, slug + "/" + trimmed, ".recyclebin/" + uuid);
              && Restored(mid, ".recyclebin/" + uuid) ==
                 after - Markers(after, slug + "/" + trimmed)
              && forall k :: k in after && (k == "" || k[|k| - 1] != '/') ==>
                   Holds(Restored(mid, ".recyclebin/" + uuid), k, after[k])
      ensures '/' !in slug && slug != ".recyclebin" ==> Under(mid, slug + "/" + trimmed + "/") == {}
    {
      hide Restored, Recycled, ObjectsAfter;
      var root, rp := slug + "/" + trimmed, ".recyclebin/" + uuid;
      var after := ObjectsAfter(objects, edits, root, rp);
      WorkCommutesWithRecycling(objects, edits, root, rp);
      RestoreUndoesDelete(after, root, rp);
      if '/' !in slug && slug != ".recyclebin" {
        FolderEmptied(after, slug, trimmed, uuid);
      }
    }

    /**
     * Deleting a folder and restoring it while other requests work elsewhere comes to the same as their
     * work alone, but for the folder's markers: on the bucket, on every row and on every item.
     */
    method DeleteOthersRestore(slug: string, trimmed: string, uuid: string, itemId: ItemId, edits: seq<Edit>)
      returns (done: bool)
      requires store.Valid() && itemId !in store.items
      requires Fresh(bucket.objects, ".recyclebin/" + uuid)
      modifies bucket, store
      ensures done ==> store.rows == RowsAfter(old(store.rows), edits, slug + "/" + trimmed)
      ensures done ==> store.items == ItemsAfter(old(store.items), edits, itemId)
      ensures done && bucket.truthful ==>
                var after := ObjectsAfter(old(bucket.objects), edits, slug + "/" + trimmed, ".recyclebin/" + uuid);
                forall k :: k in after && (k == "" || k[|k| - 1] != '/') ==> Holds(bucket.objects, k, after[k])
      ensures done && bucket.truthful ==>
                var after := ObjectsAfter(old(bucket.objects), edits, slug + "/" + trimmed, ".recyclebin/" + uuid);
                bucket.objects == after - Markers(after, slug + "/" + trimmed)
      // With every step working, an existing folder of a drive comes through.
      ensures Failures() == old(Failures()) && bucket.truthful && '/' !in slug && slug != ".recyclebin" &&
              trimmed != "" && old(store.DirectoryExists(slug + "/" + trimmed)) ==>
                done
    {
      hide Restored, Recycled, RowsAfter, ItemsAfter, ObjectsAfter, Recorded, Unhide, Hide, Kept, SameElsewhere,
        BinIntact, Back, BackOrInBin, Agree, Contents, MarkersDropped, Backed, Markers, Store.DirectoryExists;
      var root, rp := slug + "/" + trimmed, ".recyclebin/" + uuid;
      ghost var rows, items, clock, objects := store.rows, store.items, store.clock, bucket.objects;
      var deleted, _ := DeleteDir(slug, trimmed, uuid, itemId);
      if !deleted.Deleted? {
        return false;
      }
      ghost var hidden, recorded, binned := store.rows, store.items, bucket.objects;
      OthersWork(edits, root, rp, itemId);
      RowsComeBackAmongOthers(rows, items, clock, hidden, recorded, edits, root, rp, itemId);
      RecordedItem(rows, items, clock, hidden, recorded, root, rp, itemId);
      StaysBacked(binned, edits, root, rp);
      if bucket.truthful {
        ObjectsComeBackAmongOthers(objects, binned, bucket.objects, edits, slug, trimmed, uuid);
      }
      var r, warned, _ := RestoreFolder(itemId);
      done := r.RestoredAll? && !warned;
    }

    // ---------- Purging ----------

    /** Removes a folder item's objects, then its hidden rows. */
    method PurgeFolderItem(id: ItemId) returns (ok: bool)
      requires store.Valid() && id in store.items
      modifies bucket, store`rows, store`failures
      ensures store.Valid() && Listing(store.rows) == Listing(old(store.rows))
      // Nothing outside the item's own prefix is touched ...
      ensures Shrunk(old(bucket.objects), bucket.objects,
                     Under(old(bucket.objects), old(store.items[id].recyclePathKey) + "/"))
      // ... and the rows go only once the objects have.
      ensures store.rows == old(store.rows) ||
              (store.rows == Purge(old(store.rows), old(store.items[id].originalPathKey),
                                   old(store.items[id].createdAt))
               && (bucket.truthful ==> Under(bucket.objects, old(store.items[id].recyclePathKey) + "/") == {}))
      ensures ok ==>
                store.rows == Purge(old(store.rows), old(store.items[id].originalPathKey),
                                    old(store.items[id].createdAt))
      ensures ok && bucket.truthful ==> Under(bucket.objects, old(store.items[id].recyclePathKey) + "/") == {}
      ensures bucket.alive ==> old(bucket.alive)
      ensures bucket.truthful ==> old(bucket.truthful)
      // It is done exactly if every step worked.
      ensures Failures() >= old(Failures()) && (ok <==> Failures() == old(Failures()))
    {
      var item := store.items[id];
      PurgeKeepsListing(store.rows, item.originalPathKey, item.createdAt);
      var thumbnails := bucket.OtherStep();    // one that cannot be removed stops the purge
      if !thumbnails {
        return false;
      }
      var keys;
      ok, keys := bucket.ListObjects(item.recyclePathKey + "/");
      if !ok {
        return;
      }
      ok := DeleteObjectsBatched(keys);
      if !ok {
        return;
      }
      forall k | k in bucket.objects && bucket.truthful
        ensures k !in Under(bucket.objects, item.recyclePathKey + "/")
      {
        assert k !in keys && k !in Under(old(bucket.objects), item.recyclePathKey + "/");
      }
      ok := bucket.Survive();
      if ok {
        ok := store.HardDeleteHiddenFolderSubtree(item.originalPathKey, item.createdAt);
      }
    }

    /** Deleting a folder and purging it removes its objects and its rows, and nothing else anywhere. */
    method DeleteThenPurge(slug: string, trimmed: string, uuid: string, itemId: ItemId) returns (done: bool)
      requires store.Valid() && itemId !in store.items
      requires Fresh(bucket.objects, ".recyclebin/" + uuid)
      modifies bucket, store
      ensures done && bucket.truthful ==>
                bucket.objects ==
                old(bucket.objects) - Under(old(bucket.objects), slug + "/" + trimmed + "/")
      ensures done ==> forall id :: id in store.rows <==>
                id in old(store.rows) &&
                    !(Selected(slug + "/" + trimmed, old(store.rows)[id]) && old(store.rows)[id].Live())
      ensures done ==> forall id :: id in store.rows ==> store.rows[id] == old(store.rows)[id]
      ensures Failures() == old(Failures()) && trimmed != "" && old(store.DirectoryExists(slug + "/" + trimmed)) ==>
                done
    {
      hide Recycled, Hide, Purge, Recorded, Kept, SameElsewhere, Selected, Backed, Shrunk, Store.DirectoryExists;
      ghost var rows, items, clock, objects := store.rows, store.items, store.clock, bucket.objects;
      ghost var root, rp := slug + "/" + trimmed, ".recyclebin/" + uuid;
      var deleted, _ := DeleteDir(slug, trimmed, uuid, itemId);
      if !deleted.Deleted? {
        return false;
      }
      ghost var binned := bucket.objects;
      RecordedItem(rows, items, clock, store.rows, store.items, root, rp, itemId);
      PurgeTakesLive(rows, root, clock);
      done := PurgeFolderItem(itemId);
      if done && bucket.truthful {
        PurgedIs(objects, binned, bucket.objects, root, rp);
      }
    }
  }
}
