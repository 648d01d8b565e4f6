/** The shared object bucket, seen by one process that may die between any two requests. */
module ObjectStore {
  import opened Common

  type Key = string
  type Objects = map<Key, Bytes>

  /** Keys of `objects` under a prefix. */
  function Under(objects: Objects, prefix: Key): set<Key> {
    set k | k in objects && prefix <= k
  }

  /** `after` is `before` with some of `keys` removed and nothing else changed. */
  ghost predicate Shrunk(before: Objects, after: Objects, keys: set<Key>) {
    && (forall k :: k in after ==> k in before && after[k] == before[k])
    && (forall k :: k in before && k !in keys ==> k in after)
  }

  /** S3 accepts at most this many keys in one DeleteObjects request. */
  const DELETE_BATCH_SIZE := 1000

  class Bucket {
    var objects: Objects
    /** The process is still running. Once it is not, no request of it has any effect. */
    var alive: bool
    /**
     * No reply has misled the process so far: a copy or put reported as failed had not landed, and a batch
     * delete reported as done had removed every key (S3 reports per-key refusals in a field the
     * client drops).
     */
    ghost var truthful: bool
    /** How many steps have not worked so far: requests that failed, and the process's own end. */
    ghost var failures: nat

    constructor ()
      ensures objects == map[] && alive && truthful && failures == 0
    {
      objects, alive, truthful, failures := map[], true, true, 0;
    }

    /** The process reaches its next step, or has died before it. */
    method Survive() returns (up: bool)
      modifies this`alive, this`failures
      ensures up == alive && (alive ==> old(alive))
      ensures failures == old(failures) + if up then 0 else 1
    {
      if alive {
        alive := *;
      }
      up := alive;
      failures := failures + if up then 0 else 1;
    }

    /** Some other step of the process, which may fail. */
    method OtherStep() returns (ok: bool)
      modifies this`failures
      ensures failures == old(failures) + if ok then 0 else 1
    {
      ok := *;
      failures := failures + if ok then 0 else 1;
    }

    method ListObjects(prefix: Key) returns (ok: bool, keys: seq<Key>)
      modifies this`alive, this`failures
      ensures failures == old(failures) + if ok then 0 else 1
      ensures ok ==> alive && Elements(keys) == Under(objects, prefix)
      ensures ok ==> forall i, j :: 0 <= i < j < |keys| ==> keys[i] != keys[j]
      ensures alive ==> old(alive)
    {
      keys := [];
      ok := Survive();
      if ok {
        ok := OtherStep();
      }
      if ok {
        var rest := Under(objects, prefix);
        while rest != {}
          invariant Elements(keys) + rest == Under(objects, prefix)
          invariant forall k :: k in rest ==> k !in keys
          invariant forall i, j :: 0 <= i < j < |keys| ==> keys[i] != keys[j]
        {
          var k :| k in rest;
          keys := keys + [k];
          rest := rest - {k};
        }
      }
    }

    /** A source that is not there is the caller's mistake, and not counted. */
    method CopyObject(src: Key, dst: Key) returns (ok: bool)
      modifies this
      ensures objects == old(objects) ||
              (src in old(objects) && objects == old(objects)[dst := old(objects)[src]])
      ensures ok ==> alive && src in old(objects) && objects == old(objects)[dst := old(objects)[src]]
      ensures alive ==> old(alive)
      ensures old(alive) || objects == old(objects)
      ensures truthful ==> old(truthful)
      ensures alive && truthful && !ok ==> objects == old(objects)
      ensures failures == old(failures) + if ok || (alive && src !in old(objects)) then 0 else 1
    {
      ok := Survive();
      if !ok || src !in objects {
        return false;
      }
      var lands: bool := *;
      if lands {
        objects := objects[dst := objects[src]];
        ok := Survive();
        if ok {
          ok := OtherStep();                  // the reply may be lost
          truthful := truthful && ok;
        }
      } else {
        ok, failures := false, failures + 1;
      }
    }

    /** One DeleteObjects request. An error reply says nothing about which keys are gone. */
    method DeleteObjects(keys: seq<Key>) returns (ok: bool)
      requires 0 < |keys| <= DELETE_BATCH_SIZE
      modifies this
      ensures Shrunk(old(objects), objects, Elements(keys))
      ensures ok ==> alive
      ensures ok && truthful ==> forall k :: k in keys ==> k !in objects
      ensures alive ==> old(alive)
      ensures old(alive) || objects == old(objects)
      ensures truthful ==> old(truthful)
      ensures failures == old(failures) + if ok then 0 else 1
    {
      ok := Survive();
      if ok {
        var named := Elements(keys);
        var gone: set<Key> :| gone <= named;
        objects := objects - gone;
        ok := Survive();
        if ok {
          ok := OtherStep();
          truthful := truthful && (ok ==> gone == named);
        }
      }
    }

    method DeleteObject(key: Key) returns (ok: bool)
      modifies this
      ensures objects == old(objects) || objects == old(objects) - {key}
      ensures ok ==> alive && objects == old(objects) - {key}
      ensures alive ==> old(alive)
      ensures old(alive) || objects == old(objects)
      ensures truthful == old(truthful)
      ensures failures == old(failures) + if ok then 0 else 1
    {
      ok := Survive();
      if ok {
        var lands: bool := *;
        if lands {
          objects := objects - {key};
          ok := Survive();
          if ok {
            ok := OtherStep();
          }
        } else {
          ok, failures := false, failures + 1;
        }
      }
    }

    /** A multipart put: the object appears whole or not at all. */
    method PutObjectMultipart(key: Key, data: Bytes) returns (ok: bool)
      modifies this
      ensures objects == old(objects) || objects == old(objects)[key := data]
      ensures ok ==> alive && objects == old(objects)[key := data]
      ensures alive ==> old(alive)
      ensures old(alive) || objects == old(objects)
      ensures truthful ==> old(truthful)
      ensures alive && truthful && !ok ==> objects == old(objects)
      ensures failures == old(failures) + if ok then 0 else 1
    {
      ok := Survive();
      if ok {
        var lands: bool := *;
        if lands {
          objects := objects[key := data];
          ok := Survive();
          if ok {
            ok := OtherStep();
            truthful := truthful && ok;
          }
        } else {
          ok, failures := false, failures + 1;
        }
      }
    }
  }
}
