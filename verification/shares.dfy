/** Which of a user's shares authorizes a path. */
module Shares {
  import opened Common
  import opened Paths
  import opened RelPath

  datatype AccessLevel = Read | Write

  datatype SharedInfo = SharedInfo(rootPathKey: string, accessLevel: AccessLevel)

  predicate Covers(share: SharedInfo, path: string) { PathWithinRoot(share.rootPathKey, path) }

  /** The share names exactly the root the client asked for, and covers the path. */
  predicate Named(share: SharedInfo, rootPath: string, path: string) {
    rootPath != "" && share.rootPathKey == rootPath && Covers(share, path)
  }

  predicate FirstNamed(shares: seq<SharedInfo>, i: int, rootPath: string, path: string)
    requires 0 <= i < |shares|
  {
    Named(shares[i], rootPath, path) && forall j :: 0 <= j < i ==> !Named(shares[j], rootPath, path)
  }

  /** Of the shares covering the path, one of the deepest, and of those the first. */
  predicate FirstDeepest(shares: seq<SharedInfo>, i: int, path: string)
    requires 0 <= i < |shares|
  {
    && Covers(shares[i], path)
    && (forall j :: 0 <= j < i && Covers(shares[j], path) ==> |shares[j].rootPathKey| < |shares[i].rootPathKey|)
    && (forall j :: i < j < |shares| && Covers(shares[j], path) ==> |shares[j].rootPathKey| <= |shares[i].rootPathKey|)
  }

  ghost predicate Deepest(share: SharedInfo, shares: seq<SharedInfo>, path: string) {
    forall i :: 0 <= i < |shares| && Covers(shares[i], path) ==> |shares[i].rootPathKey| <= |share.rootPathKey|
  }

  /** What resolving a path against a list of shares comes to. */
  ghost predicate Resolved(shares: seq<SharedInfo>, rootPath: string, path: string, r: Option<SharedInfo>) {
    match r
    case None => forall i :: 0 <= i < |shares| ==> !Covers(shares[i], path)
    case Some(share) =>
      && share in shares && Covers(share, path)
      && if exists s :: s in shares && Named(s, rootPath, path) then share.rootPathKey == rootPath
         else Deepest(share, shares, path)
  }

  method ResolveShare(shares: seq<SharedInfo>, rootPath: string, path: string) returns (r: Option<SharedInfo>)
    ensures Resolved(shares, rootPath, path, r)
    // Of several grants on the same root, named or deepest, the first listed counts.
    ensures forall i :: 0 <= i < |shares| && FirstNamed(shares, i, rootPath, path) ==> r == Some(shares[i])
    ensures (forall s :: s in shares ==> !Named(s, rootPath, path)) ==>
              forall i :: 0 <= i < |shares| && FirstDeepest(shares, i, path) ==> r == Some(shares[i])
  {
    r := None;
    if rootPath != "" {
      for i := 0 to |shares|
        invariant forall j :: 0 <= j < i ==> !Named(shares[j], rootPath, path)
      {
        if shares[i].rootPathKey == rootPath && PathWithinRoot(rootPath, path) {
          assert Named(shares[i], rootPath, path);
          return Some(shares[i]);
        }
      }
    }
    ghost var at := 0;
    for i := 0 to |shares|
      invariant r.Some? ==> at < i && r.value == shares[at] && FirstDeepest(shares[..i], at, path)
      invariant r.None? ==> forall j :: 0 <= j < i ==> !Covers(shares[j], path)
      invariant r.Some? ==> r.value in shares && Covers(r.value, path)
      invariant r.Some? ==> Deepest(r.value, shares[..i], path)
    {
      if !PathWithinRoot(shares[i].rootPathKey, path) {
        continue;
      }
      if r.None? || |shares[i].rootPathKey| > |r.value.rootPathKey| {
        r, at := Some(shares[i]), i;
      }
    }
    assert shares[..|shares|] == shares;
  }

  /** Access depends on which shares there are, not on the order they are listed in. */
  lemma RootIsUnique(shares: seq<SharedInfo>, reordered: seq<SharedInfo>, rootPath: string, path: string,
                     r: Option<SharedInfo>, s: Option<SharedInfo>)
    requires forall x :: x in shares <==> x in reordered
    requires Resolved(shares, rootPath, path, r) && Resolved(reordered, rootPath, path, s)
    ensures r.Some? <==> s.Some?
    ensures r.Some? ==> r.value.rootPathKey == s.value.rootPathKey
  {
    if r.Some? && s.Some? {
      assert r.value in reordered && s.value in shares;
      RootsFormChain(r.value.rootPathKey, s.value.rootPathKey, path);
    }
  }

  /** Seen as components: without a matching client root, the share's root is the longest covering prefix. */
  lemma DeepestIsLongestPrefix(shares: seq<SharedInfo>, roots: seq<seq<string>>, path: seq<string>, r: SharedInfo,
                               i: nat, k: nat)
    requires |roots| == |shares| && AllProper(path)
    requires forall n :: 0 <= n < |roots| ==> AllProper(roots[n]) && shares[n].rootPathKey == Join(roots[n])
    requires Resolved(shares, "", Join(path), Some(r))
    requires i < |shares| && r == shares[i] && k < |shares| && roots[k] <= path
    ensures roots[i] <= path && roots[k] <= roots[i]
  {
    WithinIsSegmentPrefix(roots[i], path);
    WithinIsSegmentPrefix(roots[k], path);
    assert Covers(shares[k], Join(path));
    RootsFormChain(shares[k].rootPathKey, r.rootPathKey, Join(path));
    WithinIsSegmentPrefix(roots[k], roots[i]);
  }
}
