/** The part of the local file system the recycle bin uses: where each stored file currently is. */
module DiskFs {
  import opened Common

  type Key = string                            // absolute path

  /** A stored file keeps its identity, and with it its bytes, wherever it is renamed to. */
  type FileId = nat

  type Files = map<Key, FileId>

  /** `k` is `path` itself or lies below it. */
  predicate At(path: Key, k: Key) {
    k == path || path + "/" <= k
  }

  predicate Occupied(files: Files, path: Key) {
    exists k :: k in files && At(path, k)
  }

  function Rebase(k: Key, src: Key, dst: Key): Key {
    if At(src, k) then dst + k[|src|..] else k
  }

  lemma RebaseBack(k: Key, src: Key, dst: Key)
    requires At(src, k)
    ensures At(dst, Rebase(k, src, dst)) && Rebase(Rebase(k, src, dst), dst, src) == k
  {
    var rest := k[|src|..];
    assert k == src + rest && (rest == "" || rest[0] == '/');
    assert Rebase(k, src, dst)[|dst|..] == rest;
  }

  /** Where the file now at `k` was before the rename. */
  function Came(files: Files, src: Key, dst: Key, k: Key): Key {
    if At(dst, k) && Rebase(k, dst, src) in files then Rebase(k, dst, src) else k
  }

  /** Everything at `src` renamed to be at `dst`. */
  function Moved(files: Files, src: Key, dst: Key): Files {
    var here := set k | k in files && At(src, k);
    var there := set k | k in here :: Rebase(k, src, dst);
    files - here + map k | k in there && Rebase(k, dst, src) in files ::
      if k in there && Rebase(k, dst, src) in files then files[Rebase(k, dst, src)] else 0
  }

  lemma MovedAt(files: Files, src: Key, dst: Key, k: Key)
    ensures At(dst, k) && Rebase(k, dst, src) in files ==>
              k in Moved(files, src, dst) && Moved(files, src, dst)[k] == files[Rebase(k, dst, src)]
    ensures !(At(dst, k) && Rebase(k, dst, src) in files) ==>
              (k in Moved(files, src, dst) <==> k in files && !At(src, k))
    ensures !(At(dst, k) && Rebase(k, dst, src) in files) && k in Moved(files, src, dst) ==>
              Moved(files, src, dst)[k] == files[k]
  {
    var here := set x | x in files && At(src, x);
    var there := set x | x in here :: Rebase(x, src, dst);
    if At(dst, k) && Rebase(k, dst, src) in files {
      RebaseBack(k, dst, src);
      assert Rebase(Rebase(k, dst, src), src, dst) in there;
    }
    if k in there {
      var x :| x in here && Rebase(x, src, dst) == k;
      RebaseBack(x, src, dst);
    }
  }

  /** No two paths are the same file. */
  ghost predicate Distinct(files: Files) {
    forall a, b :: a in files && b in files && files[a] == files[b] ==> a == b
  }

  /** Exactly the same stored files, each still at exactly one path. */
  ghost predicate Conserved(before: Files, after: Files) {
    after.Values == before.Values && (Distinct(before) ==> Distinct(after))
  }

  /** A rename into a free place conserves every stored file. */
  lemma MovedConserves(files: Files, src: Key, dst: Key)
    requires !Occupied(files, dst)
    ensures Conserved(files, Moved(files, src, dst))
  {
    var moved := Moved(files, src, dst);
    forall k | k in files
      ensures files[k] in moved.Values
    {
      var to := if At(src, k) then Rebase(k, src, dst) else k;
      MovedAt(files, src, dst, to);
      if At(src, k) { RebaseBack(k, src, dst); }
      assert to in moved && moved[to] == files[k];
    }
    forall k | k in moved
      ensures Came(files, src, dst, k) in files && moved[k] == files[Came(files, src, dst, k)]
    {
      MovedAt(files, src, dst, k);
    }
    if Distinct(files) {
      forall a, b | a in moved && b in moved && moved[a] == moved[b]
        ensures a == b
      {
        CameInjective(files, src, dst, a, b);
      }
    }
  }

  lemma CameInjective(files: Files, src: Key, dst: Key, a: Key, b: Key)
    requires a in Moved(files, src, dst) && b in Moved(files, src, dst)
    requires Came(files, src, dst, a) == Came(files, src, dst, b)
    ensures a == b
  {
    MovedAt(files, src, dst, a);
    MovedAt(files, src, dst, b);
    if At(dst, a) { RebaseBack(a, dst, src); }
    if At(dst, b) { RebaseBack(b, dst, src); }
  }

  lemma AtTrans(a: Key, b: Key, c: Key)
    requires At(a, b) && At(b, c)
    ensures At(a, c)
  {
  }

  lemma MovedSelf(files: Files, path: Key)
    ensures Moved(files, path, path) == files
  {
    forall k
      ensures k in Moved(files, path, path) <==> k in files
      ensures k in files ==> Moved(files, path, path)[k] == files[k]
    {
      MovedAt(files, path, path, k);
      assert At(path, k) ==> Rebase(k, path, path) == k;
    }
  }

  /** Renaming into a free place and back, one path at a time. */
  lemma MovedBackAt(files: Files, src: Key, dst: Key, k: Key)
    requires !Occupied(files, dst) && !At(src, dst) && (At(dst, src) ==> !Occupied(files, src))
    ensures var back := Moved(Moved(files, src, dst), dst, src);
            (k in back <==> k in files) && (k in files ==> back[k] == files[k])
  {
    hide Moved;
    MovedAt(Moved(files, src, dst), dst, src, k);
    MovedAt(files, src, dst, k);
    MovedAt(files, src, dst, Rebase(k, src, dst));
    if At(src, k) { RebaseBack(k, src, dst); }
  }

  /** Renaming into a free place and back is the identity. */
  lemma MovedBack(files: Files, src: Key, dst: Key)
    requires !Occupied(files, dst) && !At(src, dst)
    ensures Moved(Moved(files, src, dst), dst, src) == files
  {
    hide Moved;
    if At(dst, src) {
      forall k | At(src, k)
        ensures k !in files
      {
        AtTrans(dst, src, k);
      }
    }
    forall k
      ensures var back := Moved(Moved(files, src, dst), dst, src);
              (k in back <==> k in files) && (k in files ==> back[k] == files[k])
    {
      MovedBackAt(files, src, dst, k);
    }
  }

  /** What rename(2) demands of its arguments: no moving a tree into itself. */
  predicate Separate(src: Key, dst: Key) {
    src == dst || !At(src, dst)
  }

  lemma MovedThereAndBack(files: Files, src: Key, dst: Key)
    requires !Occupied(files, dst) && Separate(src, dst)
    ensures Moved(Moved(files, src, dst), dst, src) == files
  {
    if src == dst {
      MovedSelf(files, src);
    } else {
      MovedBack(files, src, dst);
    }
  }

  /** After a rename into a free place there is nothing left where it came from. */
  lemma MovedAway(files: Files, src: Key, dst: Key)
    requires !Occupied(files, dst) && !At(src, dst)
    ensures !Occupied(Moved(files, src, dst), src)
  {
    hide Moved;
    forall k | At(src, k)
      ensures k !in Moved(files, src, dst)
    {
      MovedAt(files, src, dst, k);
      if At(dst, k) && Rebase(k, dst, src) in files {
        RebaseBack(k, dst, src);
        BelowBoth(src, dst, k);
        AtTrans(dst, src, Rebase(k, dst, src));
      }
    }
  }

  /** Of two paths above a third, one is above the other. */
  lemma BelowBoth(a: Key, b: Key, k: Key)
    requires At(a, k) && At(b, k)
    ensures At(a, b) || At(b, a)
  {
    assert a == k[..|a|] && b == k[..|b|];
    if |a| < |b| {
      assert k[|a|] == '/' && a + "/" == k[..|a| + 1];
    } else if |b| < |a| {
      assert k[|b|] == '/' && b + "/" == k[..|b| + 1];
    }
  }

  /** Why the check before a rename matters: onto an existing file, that file's bytes are gone. */
  lemma RenameOverFileLoses(files: Files, src: Key, dst: Key)
    requires src in files && dst in files && !At(src, dst) && Distinct(files)
    ensures files[dst] !in Moved(files, src, dst).Values && !Conserved(files, Moved(files, src, dst))
  {
    var moved := Moved(files, src, dst);
    forall k | k in moved
      ensures moved[k] != files[dst]
    {
      MovedAt(files, src, dst, k);
      assert Rebase(dst, dst, src) == src;
      if At(dst, k) { RebaseBack(k, dst, src); }
    }
    assert files[dst] in files.Values;
  }

  /** What rename(2) carries out: into a free place, onto itself, or a file onto a file. */
  ghost predicate Renamable(files: Files, src: Key, dst: Key) {
    Separate(src, dst) && (src == dst || !Occupied(files, dst) || (src in files && dst in files))
  }

  /** A rename that is carried out conserves the stored files exactly when no other file was in its place. */
  lemma RenameConservesWhen(files: Files, src: Key, dst: Key)
    requires Renamable(files, src, dst) && Distinct(files)
    ensures Conserved(files, Moved(files, src, dst)) <==> src == dst || dst !in files
  {
    if src == dst {
      MovedSelf(files, src);
    } else if dst in files {
      assert Occupied(files, dst);
      RenameOverFileLoses(files, src, dst);
    } else {
      MovedConserves(files, src, dst);
    }
  }

  /** The directory part of a path. */
  function DirOf(path: Key): Key {
    if path == "" then ""
    else if path[|path| - 1] == '/' then path[..|path| - 1]
    else DirOf(path[..|path| - 1])
  }

  lemma {:induction false} DirOfJoin(dir: Key, name: string)
    requires '/' !in name
    ensures DirOf(dir + "/" + name) == dir
  {
    var path := dir + "/" + name;
    if name == "" {
      assert path[..|path| - 1] == dir;
    } else {
      var short := name[..|name| - 1];
      assert path[..|path| - 1] == dir + "/" + short;
      assert path[|path| - 1] == name[|name| - 1];
      DirOfJoin(dir, short);
    }
  }

  /** One process at work on the file system; it may die between any two calls. */
  class Disk {
    var files: Files
    /** The process is still running. Once it is not, no call of it has any effect. */
    var alive: bool
    /** Every Stat so far told whether something was there: none failed on an occupied path. */
    ghost var sighted: bool
    /**
     * How many steps have not worked so far: calls that failed although their arguments allowed them,
     * Stats that failed or met a directory without files, and the process's own end.
     */
    ghost var failures: nat

    constructor ()
      ensures files == map[] && alive && sighted && failures == 0
    {
      files, alive, sighted, failures := map[], true, true, 0;
    }

    method Survive() returns (up: bool)
      modifies this`alive, this`failures
      ensures up == alive && (alive ==> old(alive))
      ensures failures == old(failures) + if up then 0 else 1
    {
      if alive {
        alive := *;
      }
      up := alive;
      failures := failures + if up then 0 else 1;
    }

    /** Some other step of the process, which may fail. */
    method OtherStep() returns (ok: bool)
      modifies this`failures
      ensures failures == old(failures) + if ok then 0 else 1
    {
      ok := *;
      failures := failures + if ok then 0 else 1;
    }

    /** "err == nil": something is there. A failing Stat reads as nothing there. */
    method Stat(path: Key) returns (found: bool)
      modifies this`sighted, this`failures
      ensures sighted ==> old(sighted)
      ensures sighted && !found ==> !Occupied(files, path)
      ensures failures == old(failures) + if found == Occupied(files, path) then 0 else 1
    {
      found := *;
      sighted := sighted && (found || !Occupied(files, path));
      failures := failures + if found == Occupied(files, path) then 0 else 1;
    }

    /** Makes directories only, which hold no bytes. */
    method MkdirAll(path: Key) returns (ok: bool)
      modifies this`alive, this`failures
      ensures ok ==> alive
      ensures alive ==> old(alive)
      ensures failures == old(failures) + if ok then 0 else 1
    {
      ok := Survive();
      if ok {
        ok := OtherStep();
      }
    }

    /** rename(2): a file may replace a file; nothing else may be overwritten; all or nothing. */
    method Rename(src: Key, dst: Key) returns (ok: bool)
      modifies this`files, this`alive, this`failures
      ensures files == old(files) || files == Moved(old(files), src, dst)
      ensures ok ==> files == Moved(old(files), src, dst)
      ensures ok ==> alive
      ensures alive && !ok ==> files == old(files)
      ensures alive ==> old(alive)
      ensures ok || files != old(files) ==> Renamable(old(files), src, dst)
      ensures ok ==> failures == old(failures)
      ensures !ok && Separate(src, dst) && !Occupied(old(files), dst) ==> failures == old(failures) + 1
      ensures old(failures) <= failures <= old(failures) + 1
    {
      ok := Survive();
      if !ok {
        return;
      }
      var under := set k | k in files && At(dst, k);
      assert Occupied(files, dst) ==> under != {} by {
        if Occupied(files, dst) {
          var k :| k in files && At(dst, k);
          assert k in under;
        }
      }
      assert under == {dst} ==> dst in under;
      if src == dst {
        MovedSelf(files, src);
        ok := OtherStep();
        return;
      }
      if At(src, dst) || !(under == {} || (under == {dst} && src in files)) {
        ok := false;
        return;
      }
      ok := OtherStep();
      if ok {
        files := Moved(files, src, dst);
        ok := Survive();
      }
    }

    /** Removes a tree; on failure any part of it may be gone. */
    method RemoveAll(path: Key) returns (ok: bool)
      modifies this`files, this`alive, this`failures
      ensures forall k :: k in files ==> k in old(files) && files[k] == old(files)[k]
      ensures forall k :: k in old(files) && !At(path, k) ==> k in files
      ensures ok ==> alive && !Occupied(files, path)
      ensures alive ==> old(alive)
      ensures failures == old(failures) + if ok then 0 else 1
    {
      ok := Survive();
      if !ok {
        return;
      }
      var under := set k | k in files && At(path, k);
      var gone: set<Key> := *;
      ok := OtherStep();
      files := files - (if ok then under else under * gone);
      if ok {
        ok := Survive();
      }
    }
  }
}
