/** Drive-relative paths: cleaning what a client sends, and containment. */
module RelPath {
  import opened Paths

  /** strings.ReplaceAll of one character. */
  function ForwardSlashes(p: string): (q: string)
    ensures |q| == |p| && '\\' !in q
    ensures '\\' !in p ==> q == p
  {
    if p == "" then "" else [if p[0] == '\\' then '/' else p[0]] + ForwardSlashes(p[1..])
  }

  function Split(p: string): (parts: seq<string>)
    ensures parts != []
    ensures forall i :: 0 <= i < |parts| ==> '/' !in parts[i]
    ensures '\\' !in p ==> forall i :: 0 <= i < |parts| ==> '\\' !in parts[i]
  {
    if p == "" then [""]
    else
      var rest := Split(p[1..]);
      if p[0] == '/' then [""] + rest else [[p[0]] + rest[0]] + rest[1..]
  }

  /** One path element met while cleaning a rooted path: ".." at the root goes nowhere. */
  function Enter(stack: seq<string>, part: string): seq<string> {
    if part == "" || part == "." then stack
    else if part == ".." then (if stack == [] then [] else stack[..|stack| - 1])
    else stack + [part]
  }

  function Resolve(stack: seq<string>, parts: seq<string>): seq<string>
    decreases |parts|
  {
    if parts == [] then stack else Resolve(Enter(stack, parts[0]), parts[1..])
  }

  /** path.Clean of a rooted path. */
  function Clean(p: string): string {
    "/" + Join(Resolve([], Split(p)))
  }

  function NormalizeRelPath(p: string): string {
    var q := Clean("/" + ForwardSlashes(p));
    var r := if "/" <= q then q[1..] else q;
    if r == "." then "" else r
  }

  predicate PathWithinRoot(root: string, relPath: string) {
    root == "" || relPath == root || root + "/" <= relPath
  }

  // ---------- Normal paths ----------

  /** A proper component: no separators of either kind, and neither "." nor "..". */
  predicate Proper(s: string) {
    Segment(s) && '\\' !in s && s != "." && s != ".."
  }

  predicate AllProper(segs: seq<string>) {
    forall i :: 0 <= i < |segs| ==> Proper(segs[i])
  }

  /** The components a client's path comes down to. */
  function NormalSegments(p: string): seq<string> {
    Resolve([], Split("/" + ForwardSlashes(p)))
  }

  ghost predicate Normal(p: string) { exists segs :: AllProper(segs) && p == Join(segs) }

  lemma {:induction false} ResolveProper(stack: seq<string>, parts: seq<string>)
    requires AllProper(stack)
    requires forall i :: 0 <= i < |parts| ==> '/' !in parts[i] && '\\' !in parts[i]
    ensures AllProper(Resolve(stack, parts))
    decreases |parts|
  {
    if parts != [] {
      ResolveProper(Enter(stack, parts[0]), parts[1..]);
    }
  }

  lemma {:induction false} ResolveOwn(stack: seq<string>, segs: seq<string>)
    requires AllProper(segs)
    ensures Resolve(stack, segs) == stack + segs
    decreases |segs|
  {
    if segs != [] {
      ResolveOwn(stack + [segs[0]], segs[1..]);
      assert stack + [segs[0]] + segs[1..] == stack + segs;
    }
  }

  lemma {:induction false} ResolveAppend(stack: seq<string>, xs: seq<string>, ys: seq<string>)
    ensures Resolve(stack, xs + ys) == Resolve(Resolve(stack, xs), ys)
    decreases |xs|
  {
    if xs == [] {
      assert xs + ys == ys;
    } else {
      assert (xs + ys)[1..] == xs[1..] + ys;
      ResolveAppend(Enter(stack, xs[0]), xs[1..], ys);
    }
  }

  lemma {:induction false} SplitAt(a: string, b: string)
    ensures Split(a + "/" + b) == Split(a) + Split(b)
  {
    var s := a + "/" + b;
    if a == "" {
      assert s[1..] == b;
    } else {
      assert s[1..] == a[1..] + "/" + b;
      SplitAt(a[1..], b);
    }
  }

  lemma {:induction false} SplitSegment(s: string)
    requires '/' !in s
    ensures Split(s) == [s]
  {
    if s != "" {
      SplitSegment(s[1..]);
      assert s == [s[0]] + s[1..];
    }
  }

  lemma {:induction false} SplitJoin(segs: seq<string>)
    requires segs != [] && Segments(segs)
    ensures Split(Join(segs)) == segs
  {
    SplitSegment(segs[0]);
    if |segs| > 1 {
      SplitJoin(segs[1..]);
      SplitAt(segs[0], Join(segs[1..]));
      assert segs == [segs[0]] + segs[1..];
    }
  }

  lemma {:induction false} JoinPlain(segs: seq<string>)
    requires AllProper(segs)
    ensures '\\' !in Join(segs) && Join(segs) != "."
    ensures segs != [] ==> Join(segs) != ""
  {
    if |segs| > 1 {
      JoinPlain(segs[1..]);
      assert |Join(segs)| >= 3;
    }
  }

  /** Whatever the client sent, the result is its components joined, and every component is proper. */
  lemma NormalizedIsNormal(p: string)
    ensures AllProper(NormalSegments(p)) && NormalizeRelPath(p) == Join(NormalSegments(p))
    ensures Normal(NormalizeRelPath(p))
  {
    var q := "/" + ForwardSlashes(p);
    assert '\\' !in q;
    ResolveProper([], Split(q));
    JoinPlain(NormalSegments(p));
    assert Clean(q)[1..] == Join(NormalSegments(p));
  }

  lemma NormalFixed(segs: seq<string>)
    requires AllProper(segs)
    ensures NormalSegments(Join(segs)) == segs
  {
    JoinPlain(segs);
    SplitAt("", Join(segs));
    assert "" + "/" + Join(segs) == "/" + Join(segs);
    var parts := Split(Join(segs));
    assert Split("/" + Join(segs)) == [""] + parts;
    ResolveAppend([], [""], parts);
    assert Resolve([], [""]) == [];
    if segs == [] {
      assert parts == [""];
    } else {
      SplitJoin(segs);
      ResolveOwn([], segs);
    }
  }

  /** Normalizing twice is normalizing once, and normal paths are left as they are. */
  lemma NormalizeIdempotent(p: string)
    ensures NormalizeRelPath(NormalizeRelPath(p)) == NormalizeRelPath(p)
    ensures Normal(p) <==> NormalizeRelPath(p) == p
  {
    NormalizedIsNormal(p);
    NormalFixed(NormalSegments(p));
    NormalizedIsNormal(NormalizeRelPath(p));
    if Normal(p) {
      var segs :| AllProper(segs) && p == Join(segs);
      NormalFixed(segs);
    }
  }

  lemma {:induction false} ForwardAppend(p: string, q: string)
    ensures ForwardSlashes(p + q) == ForwardSlashes(p) + ForwardSlashes(q)
  {
    if p == "" {
      assert p + q == q;
    } else {
      assert (p + q)[1..] == p[1..] + q;
      ForwardAppend(p[1..], q);
    }
  }

  lemma ForwardJoin(p: string, q: string)
    ensures ForwardSlashes(p + "/" + q) == ForwardSlashes(p) + "/" + ForwardSlashes(q)
  {
    var tail := "/" + q;
    assert p + "/" + q == p + tail && tail[1..] == q;
    ForwardAppend(p, tail);
  }

  lemma SegmentsDescend(p: string, q: string)
    ensures NormalSegments(p + "/" + q) == Resolve(NormalSegments(p), Split(ForwardSlashes(q)))
  {
    hide ForwardSlashes, Split, Resolve;
    var a, b := "/" + ForwardSlashes(p), ForwardSlashes(q);
    ForwardJoin(p, q);
    calc {
      NormalSegments(p + "/" + q);
      Resolve([], Split("/" + (ForwardSlashes(p) + "/" + b)));
      { assert "/" + (ForwardSlashes(p) + "/" + b) == a + "/" + b; SplitAt(a, b); }
      Resolve([], Split(a) + Split(b));
      { ResolveAppend([], Split(a), Split(b)); }
      Resolve(Resolve([], Split(a)), Split(b));
    }
  }

  /** Going into `q` from `p`: q's elements are resolved against p's components, never leaving the drive. */
  lemma NormalizeDescends(p: string, q: string)
    ensures NormalizeRelPath(p + "/" + q) == Join(Resolve(NormalSegments(p), Split(ForwardSlashes(q))))
  {
    SegmentsDescend(p, q);
    NormalizedIsNormal(p + "/" + q);
  }

  lemma StepInto(p: string, s: string)
    requires '/' !in s && '\\' !in s
    ensures NormalSegments(p + "/" + s) == Enter(NormalSegments(p), s)
  {
    SegmentsDescend(p, s);
    SplitSegment(s);
  }

  lemma NoParentOfRoot()
    ensures NormalSegments("..") == NormalSegments("") == []
  {
    SplitAt("", "..");
    assert "" + "/" + ".." == "/..";
    SplitSegment("..");
    assert ForwardSlashes("..") == "..";
    ResolveAppend([], [""], [".."]);
  }

  /** Nothing comes before the root, so a path from there is the path itself. */
  lemma FromRoot(p: string)
    ensures NormalSegments("" + "/" + p) == NormalSegments(".." + "/" + p) == NormalSegments(p)
  {
    hide Enter;
    var q := ForwardSlashes(p);
    SegmentsDescend("", p);
    SegmentsDescend("..", p);
    NoParentOfRoot();
    SplitAt("", q);
    assert "" + "/" + q == "/" + q;
    ResolveAppend([], [""], Split(q));
    RootStaysRoot();
  }

  lemma RootStaysRoot()
    ensures Resolve([], [""]) == []
  {
  }

  /** A trailing slash, a leading one, a "." and a ".." at the root change nothing. */
  lemma NormalizeLaws(p: string)
    ensures NormalizeRelPath(p + "/") == NormalizeRelPath(p)
    ensures NormalizeRelPath("/" + p) == NormalizeRelPath(p)
    ensures NormalizeRelPath(p + "/.") == NormalizeRelPath(p)
    ensures NormalizeRelPath("../" + p) == NormalizeRelPath(p)
  {
    hide Resolve, Split, ForwardSlashes, Join, Clean, NormalizeRelPath;
    NormalizedIsNormal(p);
    StepInto(p, "");
    assert p + "/" + "" == p + "/";
    NormalizedIsNormal(p + "/");
    StepInto(p, ".");
    assert p + "/" + "." == p + "/.";
    NormalizedIsNormal(p + "/.");
    FromRoot(p);
    assert "" + "/" + p == "/" + p;
    NormalizedIsNormal("/" + p);
    assert ".." + "/" + p == "../" + p;
    NormalizedIsNormal("../" + p);
  }

  /** A proper name goes one level down, and ".." comes back from it. */
  lemma DownAndUp(p: string, s: string)
    requires Proper(s)
    ensures NormalizeRelPath(p + "/" + s) ==
            if NormalizeRelPath(p) == "" then s else NormalizeRelPath(p) + "/" + s
    ensures NormalizeRelPath(p + "/" + s + "/..") == NormalizeRelPath(p)
  {
    hide Resolve, Split;
    var segs := NormalSegments(p);
    NormalizedIsNormal(p);
    NormalizedIsNormal(p + "/" + s);
    NormalizedIsNormal(p + "/" + s + "/..");
    JoinPlain(segs);
    StepInto(p, s);
    StepInto(p + "/" + s, "..");
    assert p + "/" + s + "/" + ".." == p + "/" + s + "/..";
    if segs != [] {
      JoinLast(segs + [s]);
    }
  }

  /** Either kind of slash will do. */
  lemma EitherSlash(p: string, q: string)
    ensures NormalizeRelPath(p + "\\" + q) == NormalizeRelPath(p + "/" + q)
  {
    ForwardAppend(p, "\\" + q);
    ForwardAppend(p, "/" + q);
    assert p + "\\" + q == p + ("\\" + q) && p + "/" + q == p + ("/" + q);
    assert ("\\" + q)[1..] == q == ("/" + q)[1..];
  }

  // ---------- Containment ----------

  /** On normal paths, lying within a root is having its components as a prefix. */
  lemma WithinIsSegmentPrefix(root: seq<string>, path: seq<string>)
    requires AllProper(root) && AllProper(path)
    ensures PathWithinRoot(Join(root), Join(path)) <==> root <= path
  {
    if root != [] {
      PrefixIsSegmentPrefix(root, path);
      JoinPlain(root);
    }
  }

  /** Roots containing the same path form a chain, ordered by the length of their keys. */
  lemma RootsFormChain(a: string, b: string, path: string)
    requires PathWithinRoot(a, path) && PathWithinRoot(b, path) && |a| <= |b|
    ensures PathWithinRoot(a, b)
    ensures |a| == |b| ==> a == b
  {
    assert a <= path && b <= path;
    assert a == path[..|a|] && b == path[..|b|];
    if a != "" && |a| < |b| {
      assert path[|a|] == '/';
      assert a + "/" == path[..|a| + 1];
    }
  }
}
