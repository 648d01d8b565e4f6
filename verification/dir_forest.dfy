/** Directory rows of one drive: a forest grown one path at a time. */
module DirForest {
  import opened Common
  import opened Paths

  type DirId = nat

  datatype Dir = Dir(name: string, parent: Option<DirId>, prefix: string, pathKey: string, deleted: bool)

  type Dirs = map<DirId, Dir>

  predicate IsLive(dirs: Dirs, id: DirId) { id in dirs && !dirs[id].deleted }

  predicate Child(dirs: Dirs, id: DirId, parent: Option<DirId>, name: string) {
    IsLive(dirs, id) && dirs[id].parent == parent && dirs[id].name == name
  }

  // ---------- Segments ----------

  function TrimLeft(s: string): string {
    if s != "" && s[0] == '/' then TrimLeft(s[1..]) else s
  }

  function TrimRight(s: string): string {
    if s != "" && s[|s| - 1] == '/' then TrimRight(s[..|s| - 1]) else s
  }

  /** strings.Trim(seg, "/"). */
  function Trim(s: string): string { TrimRight(TrimLeft(s)) }

  /** The slashes on the outside go, and nothing else. */
  lemma {:induction false} TrimIsInner(before: string, s: string, after: string)
    requires forall i :: 0 <= i < |before| ==> before[i] == '/'
    requires forall i :: 0 <= i < |after| ==> after[i] == '/'
    requires s != "" ==> s[0] != '/' && s[|s| - 1] != '/'
    ensures Trim(before + s + after) == s
    decreases |before| + |after|
  {
    if before != "" {
      assert (before + s + after)[1..] == before[1..] + s + after;
      TrimIsInner(before[1..], s, after);
    } else if s == "" {
      assert before + s + after == after;
      if after != "" {
        TrimIsInner("", s, after[1..]);
        assert before + s + after[1..] == after[1..];
      }
    } else {
      assert before + s + after == s + after;
      if after == "" {
        assert s + after == s;
      } else {
        var shorter := after[..|after| - 1];
        TrimIsInner("", s, shorter);
        assert "" + s + shorter == s + shorter;
        assert (s + after)[..|s + after| - 1] == s + shorter;
      }
    }
  }

  /** The directory names a segment list stands for: trimmed, empty ones dropped. */
  function Names(segments: seq<string>): (names: seq<string>)
    ensures forall i :: 0 <= i < |names| ==> names[i] != ""
  {
    if segments == [] then []
    else
      var n := |segments| - 1;
      var name := Trim(segments[n]);
      Names(segments[..n]) + if name == "" then [] else [name]
  }

  lemma {:induction false} NamesAppend(a: seq<string>, b: seq<string>)
    ensures Names(a + b) == Names(a) + Names(b)
    decreases |b|
  {
    if b == [] {
      assert a + b == a;
    } else {
      var n := |b| - 1;
      assert (a + b)[..|a + b| - 1] == a + b[..n];
      NamesAppend(a, b[..n]);
    }
  }

  /** A proper segment names itself, whatever slashes stand around it; one of slashes only names nothing. */
  lemma SegmentsAreNames(segments: seq<string>, before: string, s: string, after: string, rest: seq<string>)
    requires forall i :: 0 <= i < |before| ==> before[i] == '/'
    requires forall i :: 0 <= i < |after| ==> after[i] == '/'
    requires s == "" || Segment(s)
    ensures Names(segments + [before + s + after] + rest) ==
            Names(segments) + (if s == "" then [] else [s]) + Names(rest)
  {
    TrimIsInner(before, s, after);
    NamesAppend(segments, [before + s + after]);
    NamesAppend(segments + [before + s + after], rest);
    assert [before + s + after][..0] == [];
  }

  lemma {:induction false} NamesPrefix(segments: seq<string>, n: nat)
    requires n <= |segments|
    ensures Names(segments[..n]) <= Names(segments)
  {
    if n < |segments| {
      assert segments[..|segments| - 1][..n] == segments[..n];
      NamesPrefix(segments[..|segments| - 1], n);
    } else {
      assert segments[..n] == segments;
    }
  }

  /** How the names grow with the segments walked. */
  lemma NameAt(segments: seq<string>, i: nat, k: nat)
    requires i < |segments| && k <= |Names(segments)| && Names(segments[..i]) == Names(segments)[..k]
    ensures Trim(segments[i]) == "" ==> Names(segments[..i + 1]) == Names(segments)[..k]
    ensures Trim(segments[i]) != "" ==>
              && k < |Names(segments)| && Names(segments)[k] == Trim(segments[i])
              && Names(segments[..i + 1]) == Names(segments)[..k + 1] == Names(segments)[..k] + [Trim(segments[i])]
  {
    hide Trim;
    var names, walked := Names(segments), Names(segments[..i + 1]);
    assert segments[..i + 1][..i] == segments[..i];
    assert walked == names[..k] + if Trim(segments[i]) == "" then [] else [Trim(segments[i])];
    NamesPrefix(segments, i + 1);
    assert walked == names[..|walked|];
  }

  // ---------- The forest ----------

  /** A row hangs below a live parent, or below the drive, and its key says so. */
  predicate Hangs(dirs: Dirs, slug: string, id: DirId) {
    && id in dirs && dirs[id].name != "" && dirs[id].pathKey == dirs[id].prefix + "/" + dirs[id].name
    && match dirs[id].parent
       case None => dirs[id].prefix == slug
       case Some(p) => IsLive(dirs, p) && dirs[id].prefix == dirs[p].pathKey
  }

  ghost predicate Linked(dirs: Dirs, slug: string) {
    forall id {:trigger Hangs(dirs, slug, id)} :: IsLive(dirs, id) ==> Hangs(dirs, slug, id)
  }

  ghost predicate UniqueNames(dirs: Dirs) {
    forall i, j :: IsLive(dirs, i) && IsLive(dirs, j) &&
                   dirs[i].parent == dirs[j].parent && dirs[i].name == dirs[j].name ==>
      i == j
  }

  ghost predicate Forest(dirs: Dirs, slug: string) {
    Linked(dirs, slug) && UniqueNames(dirs)
  }

  function Last(ids: seq<DirId>): Option<DirId> {
    if ids == [] then None else Some(ids[|ids| - 1])
  }

  /** `ids` are the rows of a path from the drive root down. */
  ghost predicate Chain(dirs: Dirs, names: seq<string>, ids: seq<DirId>)
    decreases |names|
  {
    && |ids| == |names|
    && (names != [] ==>
          var n := |names| - 1;
          Chain(dirs, names[..n], ids[..n]) && Child(dirs, ids[n], Last(ids[..n]), names[n]))
  }

  lemma ChainAppend(dirs: Dirs, names: seq<string>, ids: seq<DirId>, name: string, id: DirId)
    requires Chain(dirs, names, ids) && Child(dirs, id, Last(ids), name)
    ensures Chain(dirs, names + [name], ids + [id])
  {
    assert (names + [name])[..|names|] == names && (ids + [id])[..|ids|] == ids;
  }

  lemma {:induction false} ChainGrows(dirs: Dirs, grown: Dirs, names: seq<string>, ids: seq<DirId>)
    requires Chain(dirs, names, ids) && forall id :: id in dirs ==> id in grown && grown[id] == dirs[id]
    ensures Chain(grown, names, ids)
    decreases |names|
  {
    if names != [] {
      ChainGrows(dirs, grown, names[..|names| - 1], ids[..|names| - 1]);
    }
  }

  /** The first rows of a chain are the chain of the first names. */
  lemma {:induction false} ChainPrefix(dirs: Dirs, names: seq<string>, ids: seq<DirId>, n: nat)
    requires Chain(dirs, names, ids) && n <= |names|
    ensures Chain(dirs, names[..n], ids[..n])
    ensures n < |names| ==> Child(dirs, ids[n], Last(ids[..n]), names[n])
    decreases |names|
  {
    var m := |names| - 1;
    if n <= m {
      ChainPrefix(dirs, names[..m], ids[..m], n);
      assert names[..m][..n] == names[..n] && ids[..m][..n] == ids[..n];
    } else {
      assert names[..n] == names && ids[..n] == ids;
    }
  }

  /** A path has at most one chain of rows. */
  lemma {:induction false} ChainUnique(dirs: Dirs, names: seq<string>, a: seq<DirId>, b: seq<DirId>)
    requires UniqueNames(dirs) && Chain(dirs, names, a) && Chain(dirs, names, b)
    ensures a == b
    decreases |names|
  {
    if names != [] {
      var n := |names| - 1;
      ChainUnique(dirs, names[..n], a[..n], b[..n]);
      assert a == a[..n] + [a[n]] && b == b[..n] + [b[n]];
    }
  }

  /** The key of a row is the drive's slug followed by the names down to it. */
  lemma {:induction false} PathKeyIsNames(dirs: Dirs, slug: string, names: seq<string>, ids: seq<DirId>)
    requires Linked(dirs, slug) && Chain(dirs, names, ids) && names != []
    ensures ids[|ids| - 1] in dirs && dirs[ids[|ids| - 1]].pathKey == slug + "/" + Join(names)
    decreases |names|
  {
    var n := |names| - 1;
    assert Hangs(dirs, slug, ids[n]);
    if n > 0 {
      PathKeyIsNames(dirs, slug, names[..n], ids[..n]);
      JoinLast(names);
      assert ids[..n][n - 1] == ids[n - 1];
    }
  }

  /** Every live row sits at the end of a chain from the root: the parent links have no cycle. */
  lemma {:induction false} HasChain(dirs: Dirs, slug: string, id: DirId) returns (names: seq<string>, ids: seq<DirId>)
    requires Forest(dirs, slug) && IsLive(dirs, id)
    ensures Chain(dirs, names, ids) && ids != [] && ids[|ids| - 1] == id
    decreases |dirs[id].pathKey|
  {
    assert Hangs(dirs, slug, id);
    match dirs[id].parent
    case None =>
      names, ids := [dirs[id].name], [id];
      ChainAppend(dirs, [], [], dirs[id].name, id);
    case Some(p) =>
      names, ids := HasChain(dirs, slug, p);
      ChainAppend(dirs, names, ids, dirs[id].name, id);
      names, ids := names + [dirs[id].name], ids + [id];
  }

  lemma {:induction false} ChainSegments(dirs: Dirs, names: seq<string>, ids: seq<DirId>)
    requires Chain(dirs, names, ids) && forall id :: IsLive(dirs, id) ==> Segment(dirs[id].name)
    ensures Segments(names)
    decreases |names|
  {
    if names != [] {
      var n := |names| - 1;
      ChainSegments(dirs, names[..n], ids[..n]);
      assert forall i :: 0 <= i < n ==> names[i] == names[..n][i];
    }
  }

  /** With slash-free names, no two live rows share a key. */
  lemma PathKeysUnique(dirs: Dirs, slug: string, a: DirId, b: DirId)
    requires Forest(dirs, slug) && IsLive(dirs, a) && IsLive(dirs, b)
    requires forall id :: IsLive(dirs, id) ==> Segment(dirs[id].name)
    requires dirs[a].pathKey == dirs[b].pathKey
    ensures a == b
  {
    var names, ids := HasChain(dirs, slug, a);
    var names', ids' := HasChain(dirs, slug, b);
    PathKeyIsNames(dirs, slug, names, ids);
    PathKeyIsNames(dirs, slug, names', ids');
    assert Join(names) == dirs[a].pathKey[|slug| + 1..] == Join(names');
    ChainSegments(dirs, names, ids);
    ChainSegments(dirs, names', ids');
    JoinInjective(names, names');
    ChainUnique(dirs, names, ids, ids');
  }

  // ---------- Growing it ----------

  /** A new leaf below the drive or below a live row that has no child of that name. */
  function WithDir(dirs: Dirs, id: DirId, parent: Option<DirId>, prefix: string, name: string): Dirs {
    dirs[id := Dir(name, parent, prefix, prefix + "/" + name, false)]
  }

  lemma LeafKeepsForest(dirs: Dirs, slug: string, id: DirId, parent: Option<DirId>, prefix: string, name: string)
    requires Forest(dirs, slug) && id !in dirs && name != ""
    requires forall d :: IsLive(dirs, d) ==> dirs[d].parent != Some(id)
    requires parent.None? ==> prefix == slug
    requires parent.Some? ==> IsLive(dirs, parent.value) && prefix == dirs[parent.value].pathKey
    requires forall d :: !Child(dirs, d, parent, name)
    ensures Forest(WithDir(dirs, id, parent, prefix, name), slug)
  {
    var grown := WithDir(dirs, id, parent, prefix, name);
    assert forall d :: IsLive(grown, d) && d != id ==> IsLive(dirs, d) && grown[d] == dirs[d];
    assert forall d :: IsLive(dirs, d) ==> IsLive(grown, d);
    forall d | IsLive(grown, d)
      ensures Hangs(grown, slug, d)
    {
      assert d != id ==> Hangs(dirs, slug, d);
    }
    forall i, j | IsLive(grown, i) && IsLive(grown, j) &&
                  grown[i].parent == grown[j].parent && grown[i].name == grown[j].name
      ensures i == j
    {
      assert !Child(dirs, i, parent, name) && !Child(dirs, j, parent, name);
    }
  }

  ghost predicate IsPath(dirs: Dirs, names: seq<string>) { exists ids :: Chain(dirs, names, ids) }

  /** The rows found so far lead to every chain the whole path has. */
  ghost predicate OnTheWay(dirs: Dirs, names: seq<string>, ids: seq<DirId>) {
    forall whole :: Chain(dirs, names, whole) ==> ids <= whole
  }

  lemma WayGoesOn(dirs: Dirs, names: seq<string>, ids: seq<DirId>)
    requires UniqueNames(dirs) && IsPath(dirs, names) && OnTheWay(dirs, names, ids) && |ids| < |names|
    ensures exists d :: Child(dirs, d, Last(ids), names[|ids|])
    ensures forall d :: Child(dirs, d, Last(ids), names[|ids|]) ==> OnTheWay(dirs, names, ids + [d])
  {
    var whole :| Chain(dirs, names, whole);
    ChainPrefix(dirs, names, whole, |ids|);
    assert whole[..|ids|] == ids;
    var next := whole[|ids|];
    forall d, w | Child(dirs, d, Last(ids), names[|ids|]) && Chain(dirs, names, w)
      ensures ids + [d] <= w
    {
      ChainUnique(dirs, names, whole, w);
      assert d == next;
    }
  }

  class DirectoryTable {
    const slug: string
    var dirs: Dirs
    var nextId: DirId

    constructor (slug: string)
      ensures this.slug == slug && Valid() && dirs == map[]
    {
      this.slug, dirs, nextId := slug, map[], 0;
    }

    ghost predicate Valid()
      reads this
    {
      Forest(dirs, slug) && forall id :: id in dirs ==> id < nextId
    }

    /** The live child of that name; a nil parent means the drive itself. */
    method FindChild(parent: Option<DirId>, name: string) returns (r: Option<DirId>)
      ensures r.Some? ==> Child(dirs, r.value, parent, name)
      ensures r.None? ==> forall id :: !Child(dirs, id, parent, name)
    {
      if exists id :: id in dirs && Child(dirs, id, parent, name) {
        var id :| id in dirs && Child(dirs, id, parent, name);
        return Some(id);
      }
      r := None;
    }

    /**
     * The row for one name below `parent`, made if it is not there. `works` tells whether the statements
     * for this name get through: neither a failed lookup nor a failed insert leaves anything behind.
     */
    method EnsureOne(parent: Option<DirId>, prefix: string, name: string, works: bool) returns (ok: bool, id: DirId)
      requires Valid() && name != "" && (parent.Some? ==> IsLive(dirs, parent.value))
      requires prefix == if parent.None? then slug else dirs[parent.value].pathKey
      modifies this`dirs, this`nextId
      ensures Valid() && (ok <==> works)
      ensures forall d :: d in old(dirs) ==> d in dirs && dirs[d] == old(dirs)[d]
      ensures forall d :: d in dirs && d !in old(dirs) ==> ok && d == id
      ensures ok ==> Child(dirs, id, parent, name)
      ensures !ok || (exists d :: Child(old(dirs), d, parent, name)) ==> dirs == old(dirs)
    {
      ok, id := works, 0;
      if !works {
        return;
      }
      var found := FindChild(parent, name);
      if found.Some? {
        id := found.value;
      } else {
        id := nextId;
        forall d | IsLive(dirs, d)
          ensures dirs[d].parent != Some(id)
        {
          assert Hangs(dirs, slug, d);
        }
        LeafKeepsForest(dirs, slug, id, parent, prefix, name);
        nextId := nextId + 1;
        dirs := WithDir(dirs, id, parent, prefix, name);
      }
    }

    /** `result` is the chain of the first names of `all`, grown from `start` by nothing but its own rows. */
    ghost predicate Walked(start: Dirs, all: seq<string>, result: seq<DirId>, prefix: string)
      reads this
    {
      && Valid()
      && (forall id :: id in start ==> id in dirs && dirs[id] == start[id])
      && (forall id :: id in dirs && id !in start ==> id in result)
      && |result| <= |all| && Chain(dirs, all[..|result|], result)
      && (IsPath(start, all) ==> dirs == start && OnTheWay(start, all, result))
      && (result != [] ==> IsLive(dirs, result[|result| - 1]))
      && prefix == if result == [] then slug else dirs[result[|result| - 1]].pathKey
    }

    /** One more name of the path: found, or made. */
    method Descend(ghost start: Dirs, ghost all: seq<string>, result: seq<DirId>, prefix: string, name: string,
                   works: bool)
      returns (made: bool, longer: seq<DirId>, next: string)
      requires Walked(start, all, result, prefix) && |result| < |all| && all[|result|] == name != ""
      modifies this`dirs, this`nextId
      ensures Walked(start, all, longer, next)
      ensures made == works && |longer| == if made then |result| + 1 else |result|
    {
      hide Chain, OnTheWay, Linked, UniqueNames, IsPath;
      if IsPath(start, all) {
        WayGoesOn(start, all, result);
      }
      ghost var before := dirs;
      var id;
      made, id := EnsureOne(Last(result), prefix, name, works);
      ChainGrows(before, dirs, all[..|result|], result);
      if !made {
        return false, result, prefix;
      }
      ChainAppend(dirs, all[..|result|], result, name, id);
      assert all[..|result| + 1] == all[..|result|] + [name];
      longer, next := result + [id], dirs[id].pathKey;
    }

    /**
     * Makes every directory of the path exist, unless the database fails, at the name numbered `failAt`.
     * The inserts do not go through the surrounding transaction, so the rows made for the names before
     * it stay: they are a live chain after the failure.
     */
    method EnsureDirectoryMetadata(segments: seq<string>, failAt: nat) returns (ok: bool, result: seq<DirId>)
      requires Valid()
      modifies this`dirs, this`nextId
      ensures Valid()
      ensures ok <==> failAt >= |Names(segments)|
      ensures |result| == Min(failAt, |Names(segments)|) && Chain(dirs, Names(segments)[..|result|], result)
      ensures forall id :: id in old(dirs) ==> id in dirs && dirs[id] == old(dirs)[id]
      ensures forall id :: id in dirs && id !in old(dirs) ==> id in result
      ensures ok ==> Chain(dirs, Names(segments), result)
      ensures IsPath(old(dirs), Names(segments)) ==> dirs == old(dirs) && OnTheWay(dirs, Names(segments), result)
    {
      result := [];
      ghost var all, start := Names(segments), dirs;
      var prefix := slug;
      for i := 0 to |segments|
        invariant Walked(start, all, result, prefix) && Names(segments[..i]) == all[..|result|] && |result| <= failAt
      {
        NameAt(segments, i, |result|);
        var name := Trim(segments[i]);
        if name == "" {
          continue;
        }
        ok, result, prefix := Descend(start, all, result, prefix, name, |result| != failAt);
        if !ok {
          return;
        }
      }
      assert segments[..|segments|] == segments && all[..|all|] == all;
      ok := true;
    }

    /**
     * A second call finds the rows of the first in place, also of one that failed half way, and only adds
     * what is missing below them.
     */
    method EnsureTwice(segments: seq<string>, failAt: nat)
      returns (ok: bool, first: seq<DirId>, again: bool, second: seq<DirId>)
      requires Valid()
      modifies this`dirs, this`nextId
      ensures Valid()
      ensures ok <==> failAt >= |Names(segments)|
      ensures again && first <= second && Chain(dirs, Names(segments), second)
      ensures forall id :: id in dirs && id !in old(dirs) ==> id in second
      ensures ok ==> first == second
    {
      var all := Names(segments);
      ok, first := EnsureDirectoryMetadata(segments, failAt);
      ghost var before := dirs;
      again, second := EnsureDirectoryMetadata(segments, |all|);
      ChainGrows(before, dirs, all[..|first|], first);
      ChainPrefix(dirs, all, second, |first|);
      ChainUnique(dirs, all[..|first|], first, second[..|first|]);
    }
  }
}
