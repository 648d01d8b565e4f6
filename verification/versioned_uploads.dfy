/** Overwriting uploads on object storage: the previous version is archived before it is replaced. */
module VersionedUploads {
  import opened Common
  import opened ObjectStore

  // ---------- Archive keys ----------

  function Digit(n: nat): char
    requires n < 10
  {
    ('0' as int + n) as char
  }

  /** Decimal rendering of a timestamp. */
  function Decimal(n: nat): (s: string)
    ensures s != "" && forall i :: 0 <= i < |s| ==> '0' <= s[i] <= '9'
  {
    if n < 10 then [Digit(n)] else Decimal(n / 10) + [Digit(n % 10)]
  }

  /** The number a string of digits stands for. */
  function Reading(s: string): int {
    if s == "" then 0 else 10 * Reading(s[..|s| - 1]) + (s[|s| - 1] as int - '0' as int)
  }

  lemma {:induction false} DecimalReads(n: nat)
    ensures Reading(Decimal(n)) == n
  {
    var s := Decimal(n);
    assert s[|s| - 1] == Digit(n % 10);
    if n >= 10 {
      DecimalReads(n / 10);
      assert s[..|s| - 1] == Decimal(n / 10);
    }
  }

  /** Length of the extension: from the last dot of the last path element to the end. */
  function ExtLength(key: Key): (n: nat)
    ensures n <= |key|
    ensures n > 0 ==> key[|key| - n] == '.' && '/' !in key[|key| - n..] && '.' !in key[|key| - n + 1..]
    decreases |key|
  {
    ExtFrom(key, |key|)
  }

  function ExtFrom(key: Key, i: nat): (n: nat)
    requires i <= |key| && '/' !in key[i..] && '.' !in key[i..]
    ensures n <= |key|
    ensures n > 0 ==> key[|key| - n] == '.' && '/' !in key[|key| - n..] && '.' !in key[|key| - n + 1..]
    decreases i
  {
    if i == 0 then 0
    else
      assert key[i - 1..] == [key[i - 1]] + key[i..];
      if key[i - 1] == '/' then 0
      else if key[i - 1] == '.' then |key| - (i - 1)
      else ExtFrom(key, i - 1)
  }

  /** "dir/report.pdf" archived at time t is "dir/report.v<t>.pdf". */
  function VersionedKey(key: Key, t: Time): Key {
    var n := |key| - ExtLength(key);
    key[..n] + ".v" + Decimal(t) + key[n..]
  }

  /** Archives of one key taken at different times never share a key, nor take the key itself. */
  lemma VersionedKeyFresh(key: Key, t: Time, u: Time)
    ensures VersionedKey(key, t) != key
    ensures VersionedKey(key, t) == VersionedKey(key, u) ==> t == u
  {
    var n := |key| - ExtLength(key);
    var a, b := VersionedKey(key, t), VersionedKey(key, u);
    assert |a| == |key| + 2 + |Decimal(t)| && |b| == |key| + 2 + |Decimal(u)|;
    if a == b {
      assert Decimal(t) == a[n + 2..|a| - ExtLength(key)];
      assert Decimal(u) == b[n + 2..|b| - ExtLength(key)];
      DecimalReads(t);
      DecimalReads(u);
    }
  }

  lemma {:induction false} ExtAtDot(key: Key, dot: nat, i: nat)
    requires dot < i <= |key| && key[dot] == '.' && '/' !in key[dot + 1..] && '.' !in key[dot + 1..]
    ensures '/' !in key[i..] && '.' !in key[i..] && ExtFrom(key, i) == |key| - dot
  {
    assert forall j :: i <= j < |key| ==> key[j] in key[dot + 1..];
    if i > dot + 1 {
      ExtAtDot(key, dot, i - 1);
      assert key[i - 1] in key[dot + 1..];
    }
  }

  lemma {:induction false} NoExt(key: Key, start: nat, i: nat)
    requires start <= i <= |key| && (start > 0 ==> key[start - 1] == '/')
    requires '/' !in key[start..] && '.' !in key[start..]
    ensures '/' !in key[i..] && '.' !in key[i..] && ExtFrom(key, i) == 0
  {
    assert forall j :: i <= j < |key| ==> key[j] in key[start..];
    if i > start {
      NoExt(key, start, i - 1);
      assert key[i - 1] in key[start..];
    }
  }

  lemma ArchivedAtDot(base: string, ext: string, t: Time)
    requires '/' !in ext && '.' !in ext
    ensures VersionedKey(base + "." + ext, t) == base + ".v" + Decimal(t) + "." + ext
  {
    hide ExtFrom, Decimal;
    var key := base + "." + ext;
    assert key[|base| + 1..] == ext;
    ExtAtDot(key, |base|, |key|);
    assert key[..|base|] == base && key[|base|..] == "." + ext;
  }

  lemma ArchivedAtEnd(folder: string, name: string, t: Time)
    requires folder == "" || folder[|folder| - 1] == '/'
    requires '/' !in name && '.' !in name
    ensures VersionedKey(folder + name, t) == folder + name + ".v" + Decimal(t)
  {
    hide ExtFrom, Decimal;
    var key := folder + name;
    assert key[|folder|..] == name;
    NoExt(key, |folder|, |key|);
    assert key[..|key|] == key && key[|key|..] == "";
  }

  /** The archive stays in the key's folder, under the key's name with ".v<t>" put before the extension. */
  lemma ArchivedBeside(folder: string, name: string, ext: string, t: Time)
    requires folder == "" || folder[|folder| - 1] == '/'
    requires '/' !in name && '/' !in ext && '.' !in ext
    ensures VersionedKey(folder + name + "." + ext, t) == folder + name + ".v" + Decimal(t) + "." + ext
    ensures '.' !in name ==> VersionedKey(folder + name, t) == folder + name + ".v" + Decimal(t)
  {
    hide VersionedKey, Decimal;
    ArchivedAtDot(folder + name, ext, t);
    if '.' !in name {
      ArchivedAtEnd(folder, name, t);
    }
  }

  /** The key a content reaches after being archived at each of `times` in turn. */
  function Chain(key: Key, times: seq<Time>): Key {
    if times == [] then key
    else VersionedKey(Chain(key, times[..|times| - 1]), times[|times| - 1])
  }

  // ---------- What must never be lost ----------

  predicate Holds(objects: Objects, k: Key, data: Bytes) { k in objects && objects[k] == data }

  /** The content sits, with a metadata row, at its canonical key or at an archive key of it. */
  ghost predicate StoredAt(objects: Objects, rows: set<Key>, key: Key, data: Bytes, times: seq<Time>) {
    Holds(objects, Chain(key, times), data) && Chain(key, times) in rows
  }

  ghost predicate Stored(objects: Objects, rows: set<Key>, key: Key, data: Bytes) {
    exists times :: StoredAt(objects, rows, key, data, times)
  }

  ghost predicate AllStored(objects: Objects, rows: set<Key>, accepted: set<(Key, Bytes)>) {
    forall a :: a in accepted ==> Stored(objects, rows, a.0, a.1)
  }

  /** Archiving `key` and then writing over it keeps every accepted content stored. */
  lemma ArchivedOverwriteKeeps(before: Objects, rows: set<Key>, accepted: set<(Key, Bytes)>,
                               after: Objects, key: Key, now: Time)
    requires AllStored(before, rows, accepted)
    requires VersionedKey(key, now) !in before
    requires forall k :: k in before && k != key ==> Holds(after, k, before[k])
    requires key in before ==> Holds(after, VersionedKey(key, now), before[key])
    ensures AllStored(after, rows + {VersionedKey(key, now)}, accepted)
  {
    var archive := VersionedKey(key, now);
    forall a | a in accepted
      ensures Stored(after, rows + {archive}, a.0, a.1)
    {
      var times :| StoredAt(before, rows, a.0, a.1, times);
      if Chain(a.0, times) == key {
        assert (times + [now])[..|times|] == times;
        assert StoredAt(after, rows + {archive}, a.0, a.1, times + [now]);
      } else {
        assert StoredAt(after, rows + {archive}, a.0, a.1, times);
      }
    }
  }

  /** Writes at a key no accepted content relies on keep every accepted content stored. */
  lemma UntouchedKeeps(before: Objects, rows: set<Key>, accepted: set<(Key, Bytes)>,
                       after: Objects, rows': set<Key>, free: Key)
    requires AllStored(before, rows, accepted) && rows <= rows'
    requires free !in rows || free !in before
    requires forall k :: k in before && k != free ==> Holds(after, k, before[k])
    ensures AllStored(after, rows', accepted)
  {
    forall a | a in accepted
      ensures Stored(after, rows', a.0, a.1)
    {
      var times :| StoredAt(before, rows, a.0, a.1, times);
      assert StoredAt(after, rows', a.0, a.1, times);
    }
  }

  lemma AcceptedNow(objects: Objects, rows: set<Key>, accepted: set<(Key, Bytes)>, key: Key, data: Bytes)
    requires AllStored(objects, rows, accepted) && Holds(objects, key, data) && key in rows
    ensures AllStored(objects, rows, accepted + {(key, data)})
  {
    assert StoredAt(objects, rows, key, data, []);
  }

  /**
   * Why the head request must be right: writing over a key without archiving it loses every
   * content kept only there.
   */
  lemma UnarchivedOverwriteLoses(objects: Objects, rows: set<Key>, key: Key, data: Bytes, previous: Bytes)
    requires Holds(objects, key, previous) && data != previous
    requires forall k :: k in objects && k != key ==> objects[k] != previous
    ensures !Stored(objects[key := data], rows, key, previous)
  {
    var after := objects[key := data];
    forall times
      ensures !StoredAt(after, rows, key, previous, times)
    {
      assert Holds(after, Chain(key, times), previous) ==> Chain(key, times) in objects;
    }
  }

  /** Nowhere but at `key` is this content stored. */
  ghost predicate OnlyAt(objects: Objects, rows: set<Key>, key: Key, a: (Key, Bytes)) {
    forall times :: StoredAt(objects, rows, a.0, a.1, times) ==> Chain(a.0, times) == key
  }

  /**
   * A write over a key that was not archived keeps every accepted content stored exactly when those
   * stored nowhere else are the very bytes written.
   */
  lemma UnarchivedOverwriteKeepsWhen(objects: Objects, rows: set<Key>, accepted: set<(Key, Bytes)>,
                                     key: Key, data: Bytes)
    requires AllStored(objects, rows, accepted)
    ensures AllStored(objects[key := data], rows, accepted) <==>
            forall a :: a in accepted && OnlyAt(objects, rows, key, a) ==> a.1 == data
  {
    var after := objects[key := data];
    forall a | a in accepted
      ensures Stored(after, rows, a.0, a.1) <==> (OnlyAt(objects, rows, key, a) ==> a.1 == data)
    {
      if times :| StoredAt(objects, rows, a.0, a.1, times) && Chain(a.0, times) != key {
        assert StoredAt(after, rows, a.0, a.1, times);
      } else {
        var times :| StoredAt(objects, rows, a.0, a.1, times);
        assert a.1 == data ==> StoredAt(after, rows, a.0, a.1, times);
        if Stored(after, rows, a.0, a.1) {
          var there :| StoredAt(after, rows, a.0, a.1, there);
          assert Chain(a.0, there) != key ==> StoredAt(objects, rows, a.0, a.1, there);
        }
      }
    }
  }

  lemma MoreRows(objects: Objects, rows: set<Key>, more: set<Key>, accepted: set<(Key, Bytes)>)
    requires AllStored(objects, rows, accepted) && rows <= more
    ensures AllStored(objects, more, accepted)
  {
    forall a | a in accepted
      ensures Stored(objects, more, a.0, a.1)
    {
      var times :| StoredAt(objects, rows, a.0, a.1, times);
      assert StoredAt(objects, more, a.0, a.1, times);
    }
  }

  // ---------- The two upload paths ----------

  datatype Request =
    | Direct(key: Key, data: Bytes, now: Time)
    | Enqueue(key: Key, size: nat)
    | Finalize(key: Key, data: Bytes, now: Time)

  class Uploads {
    const bucket: Bucket
    /** The size each key's file row records. */
    var rows: map<Key, nat>
    /** Contents whose upload was reported as done. */
    ghost var accepted: set<(Key, Bytes)>
    /** Every head request for an existing object has said so. */
    ghost var headed: bool

    ghost predicate Valid()
      reads this, bucket
    {
      headed ==> AllStored(bucket.objects, rows.Keys, accepted)
    }

    constructor (bucket: Bucket)
      ensures this.bucket == bucket && rows == map[] && accepted == {} && headed && Valid()
    {
      this.bucket, rows, accepted, headed := bucket, map[], {}, true;
    }

    /** One row write: it commits or it does not. */
    method WriteRow(key: Key, size: nat) returns (ok: bool)
      modifies this`rows, bucket`alive, bucket`failures
      ensures rows == old(rows) || (old(bucket.alive) && rows == old(rows)[key := size])
      ensures ok ==> bucket.alive && rows == old(rows)[key := size]
      ensures !ok && bucket.alive ==> rows == old(rows)
      ensures bucket.alive ==> old(bucket.alive)
      ensures bucket.failures == old(bucket.failures) + if ok then 0 else 1
    {
      ok := bucket.Survive();
      if ok {
        ok := bucket.OtherStep();
        if ok {
          rows := rows[key := size];
          ok := bucket.Survive();
        }
      }
    }

    /** Asks whether an object exists. Any error reads as "no object", which matters only if there is one. */
    method HeadObject(key: Key) returns (found: bool)
      modifies this`headed, bucket`alive, bucket`failures
      ensures found ==> bucket.alive && key in bucket.objects && headed == old(headed)
      ensures headed ==> old(headed) && (found || key !in bucket.objects || !bucket.alive)
      ensures bucket.alive ==> old(bucket.alive)
      ensures bucket.failures ==
              old(bucket.failures) + if found || (bucket.alive && key !in bucket.objects) then 0 else 1
    {
      found := bucket.Survive();
      if found && key in bucket.objects {
        found := bucket.OtherStep();
        headed := headed && found;
      } else {
        found := false;
      }
    }

    /** Copies the current object to its archive key and records the copy; undoes a copy it cannot record. */
    method Archive(key: Key, now: Time) returns (ok: bool)
      requires Valid() && VersionedKey(key, now) !in bucket.objects && VersionedKey(key, now) !in rows && key in rows
      modifies this`rows, bucket
      ensures Valid()
      ensures ok ==> bucket.alive && key in old(bucket.objects)
      ensures ok ==> bucket.objects == old(bucket.objects)[VersionedKey(key, now) := old(bucket.objects)[key]]
      ensures ok ==> rows == old(rows)[VersionedKey(key, now) := old(rows)[key]]
      ensures forall k :: k in old(bucket.objects) ==> Holds(bucket.objects, k, old(bucket.objects)[k])
      ensures forall k :: k in bucket.objects && k != VersionedKey(key, now) ==> k in old(bucket.objects)
      ensures rows == old(rows) || rows == old(rows)[VersionedKey(key, now) := old(rows)[key]]
      ensures bucket.alive ==> old(bucket.alive)
      ensures bucket.truthful ==> old(bucket.truthful)
      ensures bucket.failures >=
              old(bucket.failures) + if ok || (bucket.alive && key !in old(bucket.objects)) then 0 else 1
      ensures ok ==> bucket.failures == old(bucket.failures)
      // One step gone wrong leaves no trace.
      ensures !ok && bucket.alive && bucket.truthful && bucket.failures <= old(bucket.failures) + 1 ==>
                bucket.objects == old(bucket.objects) && rows == old(rows)
    {
      ghost var before, known := bucket.objects, rows;
      var archive := VersionedKey(key, now);
      VersionedKeyFresh(key, now, now);
      ok := bucket.CopyObject(key, archive);
      if ok {
        ok := WriteRow(archive, rows[key]);
        if !ok {
          var _ := bucket.DeleteObject(archive);
        }
      }
      if headed {
        UntouchedKeeps(before, known.Keys, accepted, bucket.objects, rows.Keys, archive);
      }
    }

    /** Puts a content at its key and has the key's row record its size. */
    method PutAndRecord(key: Key, data: Bytes) returns (ok: bool)
      requires key in rows
      modifies this`rows, bucket
      ensures bucket.objects == old(bucket.objects) || bucket.objects == old(bucket.objects)[key := data]
      ensures rows == old(rows) || rows == old(rows)[key := |data|]
      ensures ok ==> bucket.objects == old(bucket.objects)[key := data] && rows == old(rows)[key := |data|]
      ensures ok ==> bucket.alive
      ensures old(bucket.alive) || (bucket.objects == old(bucket.objects) && rows == old(rows))
      ensures bucket.alive ==> old(bucket.alive)
      ensures bucket.truthful ==> old(bucket.truthful)
      ensures bucket.failures == old(bucket.failures) + if ok then 0 else 1
    {
      ok := bucket.PutObjectMultipart(key, data);
      if ok {
        ok := WriteRow(key, |data|);
      }
    }

    /** The first upload of a key; an object whose row cannot be written goes again. */
    method PutFirst(key: Key, data: Bytes) returns (ok: bool)
      requires key !in rows
      modifies this`rows, bucket
      ensures forall k :: k != key ==> (k in bucket.objects <==> k in old(bucket.objects))
      ensures forall k :: k != key && k in bucket.objects ==> bucket.objects[k] == old(bucket.objects)[k]
      ensures rows == old(rows) || rows == old(rows)[key := |data|]
      ensures ok ==> bucket.objects == old(bucket.objects)[key := data] && rows == old(rows)[key := |data|]
      ensures ok ==> bucket.failures == old(bucket.failures)
      ensures !ok ==> bucket.failures > old(bucket.failures)
      // One step gone wrong leaves no trace.
      ensures !ok && bucket.alive && bucket.truthful && bucket.failures <= old(bucket.failures) + 1 &&
              key !in old(bucket.objects) ==>
                bucket.objects == old(bucket.objects) && rows == old(rows)
      ensures bucket.alive ==> old(bucket.alive)
      ensures bucket.truthful ==> old(bucket.truthful)
    {
      ok := bucket.PutObjectMultipart(key, data);
      if ok {
        ok := WriteRow(key, |data|);
        if !ok {
          var _ := bucket.DeleteObject(key);
        }
      }
    }

    /** The synchronous upload: archives by looking at the row. */
    method UploadFileV2(key: Key, data: Bytes, now: Time) returns (ok: bool)
      requires Valid() && VersionedKey(key, now) !in bucket.objects && VersionedKey(key, now) !in rows
      modifies this`rows, this`accepted, bucket
      ensures Valid()
      ensures accepted == if ok then old(accepted) + {(key, data)} else old(accepted)
      ensures ok ==> bucket.failures == old(bucket.failures)
      ensures ok && key in old(rows) ==>
                && key in old(bucket.objects)
                && bucket.objects ==
                   old(bucket.objects)[VersionedKey(key, now) := old(bucket.objects)[key]][key := data]
                && rows == old(rows)[VersionedKey(key, now) := old(rows)[key]][key := |data|]
      ensures ok && key !in old(rows) ==>
                bucket.objects == old(bucket.objects)[key := data] && rows == old(rows)[key := |data|]
      ensures forall k :: k in old(bucket.objects) && k != key ==> Holds(bucket.objects, k, old(bucket.objects)[k])
      ensures old(rows).Keys <= rows.Keys <= old(rows).Keys + {key, VersionedKey(key, now)}
      ensures forall k :: k in old(rows) && k != key ==> rows[k] == old(rows)[k]
      // With every step working it fails only over a row that has no object yet.
      ensures bucket.failures == old(bucket.failures) ==> (ok <==> key !in old(rows) || key in old(bucket.objects))
      // Of the first upload of a key, one step gone wrong leaves no trace.
      ensures !ok && bucket.alive && bucket.truthful && bucket.failures <= old(bucket.failures) + 1 &&
              key !in old(rows) && key !in old(bucket.objects) ==>
                bucket.objects == old(bucket.objects) && rows == old(rows)
    {
      hide VersionedKey, AllStored, Stored;
      ghost var before, known := bucket.objects, rows;
      var archive := VersionedKey(key, now);
      VersionedKeyFresh(key, now, now);
      ok := bucket.Survive();
      var looked := bucket.OtherStep();
      if !ok || !looked {
        return false;
      }
      if key in rows {
        ok := Archive(key, now);
        if !ok {
          return;
        }
        ok := PutAndRecord(key, data);
        if headed {
          ArchivedOverwriteKeeps(before, known.Keys, accepted, bucket.objects, key, now);
          assert rows.Keys == known.Keys + {archive};
        }
      } else {
        ok := PutFirst(key, data);
        if headed {
          UntouchedKeeps(before, known.Keys, accepted, bucket.objects, rows.Keys, key);
        }
      }
      if ok {
        if headed {
          AcceptedNow(bucket.objects, rows.Keys, accepted, key, data);
        }
        accepted := accepted + {(key, data)};
      }
    }

    /**
     * A completed chunked upload: its row goes into the queue, its bytes stay in the staging area. The row
     * of a key that has one keeps its size until the push.
     */
    method EnqueuePendingUpload(key: Key, size: nat) returns (ok: bool)
      requires Valid()
      modifies this`rows, bucket`alive, bucket`failures
      ensures Valid() && (rows == old(rows) || (key !in old(rows) && rows == old(rows)[key := size]))
      ensures ok ==> bucket.alive && key in rows
      ensures bucket.alive ==> old(bucket.alive)
      ensures bucket.failures == old(bucket.failures) + if ok then 0 else 1
    {
      ghost var known := rows;
      ok := WriteRow(key, if key in rows then rows[key] else size);
      if headed {
        MoreRows(bucket.objects, known.Keys, rows.Keys, accepted);
      }
    }

    /** The background push of a staged file, run again after every failure: archives by asking the bucket. */
    method FinalizePendingUpload(key: Key, data: Bytes, now: Time) returns (ok: bool)
      requires Valid() && VersionedKey(key, now) !in bucket.objects && VersionedKey(key, now) !in rows
      requires key in rows                     // the pending row
      modifies this, bucket
      ensures Valid() && (headed ==> old(headed))
      ensures accepted == if ok then old(accepted) + {(key, data)} else old(accepted)
      ensures ok && headed ==> bucket.failures == old(bucket.failures)
      ensures ok && headed ==>
                if key in old(bucket.objects) then
                  && bucket.objects ==
                     old(bucket.objects)[VersionedKey(key, now) := old(bucket.objects)[key]][key := data]
                  && rows == old(rows)[VersionedKey(key, now) := old(rows)[key]][key := |data|]
                else bucket.objects == old(bucket.objects)[key := data] && rows == old(rows)[key := |data|]
      ensures ok ==> Holds(bucket.objects, key, data) && key in rows && rows[key] == |data|
      ensures forall k :: k in old(bucket.objects) && k != key ==> Holds(bucket.objects, k, old(bucket.objects)[k])
      ensures old(rows).Keys <= rows.Keys <= old(rows).Keys + {VersionedKey(key, now)}
      ensures forall k :: k in old(rows) && k != key ==> rows[k] == old(rows)[k]
      // With every step working the staged file is pushed.
      ensures bucket.failures == old(bucket.failures) ==> ok
    {
      hide VersionedKey, AllStored, Stored;
      ghost var before, known := bucket.objects, rows;
      VersionedKeyFresh(key, now, now);
      ok := bucket.Survive();
      var readable := bucket.OtherStep();
      if !ok || !readable {
        return false;
      }
      var found := HeadObject(key);
      if found {
        ok := Archive(key, now);
        if !ok {
          return;
        }
      }
      ok := PutAndRecord(key, data);           // the row is then ready
      if headed {
        if found {
          ArchivedOverwriteKeeps(before, known.Keys, accepted, bucket.objects, key, now);
          assert rows.Keys == known.Keys + {VersionedKey(key, now)};
        } else if key !in before {
          UntouchedKeeps(before, known.Keys, accepted, bucket.objects, rows.Keys, key);
        }
      }
      if ok {
        if headed {
          AcceptedNow(bucket.objects, rows.Keys, accepted, key, data);
        }
        accepted := accepted + {(key, data)};
      }
    }

    /** A new process takes over: it sees the same bucket and the same rows. */
    method Restart()
      modifies bucket`alive
      ensures bucket.alive
    {
      bucket.alive := true;
    }

    /**
     * Any sequence of non-overlapping uploads, each under a fresh timestamp and each ending well, in an
     * error or in a crash after which a new process takes over, loses no accepted content.
     */
    method Run(requests: seq<Request>)
      requires Valid()
      modifies this, bucket
      ensures Valid() && old(accepted) <= accepted
    {
      for i := 0 to |requests|
        invariant Valid() && old(accepted) <= accepted
      {
        Restart();
        match requests[i]
        case Enqueue(key, size) => var _ := EnqueuePendingUpload(key, size);
        case Direct(key, data, now) =>
          if VersionedKey(key, now) !in bucket.objects && VersionedKey(key, now) !in rows {
            var _ := UploadFileV2(key, data, now);
          }
        case Finalize(key, data, now) =>
          if VersionedKey(key, now) !in bucket.objects && VersionedKey(key, now) !in rows && key in rows {
            var _ := FinalizePendingUpload(key, data, now);
          }
      }
    }
  }
}
