/** The WHERE clause that list, hide, unhide and hard delete share to pick the rows of a folder. */
module SubtreeMatch {
  import opened Paths

  // ---------- SQLite's LIKE ----------

  /** ASCII case folding, the only folding SQLite's LIKE does. */
  function Lower(c: char): char {
    if 'A' <= c <= 'Z' then (c as int + 32) as char else c
  }

  function Fold(s: string): (f: string)
    ensures |f| == |s|
    ensures forall i :: 0 <= i < |s| ==> f[i] == Lower(s[i])
  {
    seq(|s|, i requires 0 <= i < |s| => Lower(s[i]))
  }

  function FoldAll(segs: seq<string>): (f: seq<string>)
    ensures |f| == |segs|
    ensures forall i :: 0 <= i < |segs| ==> f[i] == Fold(segs[i])
  {
    seq(|segs|, i requires 0 <= i < |segs| => Fold(segs[i]))
  }

  /** Strings fold to the same exactly when they differ at most in the case of their ASCII letters. */
  lemma FoldIsCaseBlind(s: string, t: string)
    ensures Fold(s) == Fold(t) <==>
            |s| == |t| && forall i :: 0 <= i < |s| ==>
              s[i] == t[i] || ('A' <= s[i] <= 'Z' && t[i] as int == s[i] as int + 32)
                           || ('A' <= t[i] <= 'Z' && s[i] as int == t[i] as int + 32)
  {
    if Fold(s) == Fold(t) {
      forall i | 0 <= i < |s|
        ensures Lower(s[i]) == Lower(t[i])
      {
        assert Fold(s)[i] == Fold(t)[i];
      }
    }
  }

  /** `s LIKE pattern` without an ESCAPE clause. */
  predicate Like(pattern: string, s: string)
    decreases |pattern|, |s|
  {
    if pattern == "" then s == ""
    else if pattern[0] == '%' then
      Like(pattern[1..], s) || (s != "" && Like(pattern, s[1..]))
    else
      s != "" && (pattern[0] == '_' || Lower(pattern[0]) == Lower(s[0])) && Like(pattern[1..], s[1..])
  }

  predicate WildcardFree(s: string) {
    '%' !in s && '_' !in s
  }

  lemma {:induction false} PercentMatchesAll(s: string)
    ensures Like("%", s)
    decreases |s|
  {
    if s == "" {
      assert Like("%"[1..], s);
    } else {
      PercentMatchesAll(s[1..]);
    }
  }

  /** A literal pattern ending in '%' is a case-blind prefix test. */
  lemma {:induction false} LiteralPrefix(p: string, s: string)
    requires WildcardFree(p)
    ensures Like(p + "%", s) <==> Fold(p) <= Fold(s)
  {
    if p == "" {
      assert p + "%" == "%";
      PercentMatchesAll(s);
    } else if s != "" {
      assert (p + "%")[1..] == p[1..] + "%";
      LiteralPrefix(p[1..], s[1..]);
      assert Fold(p) == [Lower(p[0])] + Fold(p[1..]) && Fold(s) == [Lower(s[0])] + Fold(s[1..]);
    }
  }

  predicate Wildcard(ch: char) { ch == '%' || ch == '_' }

  /** Character by character, `p` is `s` but for wildcards standing for one character each. */
  predicate Stands(p: string, s: string) {
    |p| == |s| && forall i :: 0 <= i < |p| ==> Wildcard(p[i]) || p[i] == s[i]
  }

  /** Such a pattern matches every string that starts with what it stands for; in particular with itself. */
  lemma {:induction false} StandsMatches(p: string, q: string, s: string)
    requires Stands(p, q) && q <= s
    ensures Like(p + "%", s)
  {
    if p == "" {
      assert p + "%" == "%";
      PercentMatchesAll(s);
    } else {
      assert (p + "%")[1..] == p[1..] + "%";
      StandsMatches(p[1..], q[1..], s[1..]);
      if p[0] == '%' {
        assert Like(p + "%", s[1..]);
      }
    }
  }

  // ---------- The row match ----------

  /** Directory rows: path_key = root OR path_key LIKE root/%. */
  predicate DirMatches(root: string, pathKey: string) {
    pathKey == root || Like(root + "/%", pathKey)
  }

  /** File rows: prefix = root OR prefix = root/ OR prefix LIKE root/%. */
  predicate FileMatches(root: string, prefix: string) {
    prefix == root || prefix == root + "/" || Like(root + "/%", prefix)
  }

  /** How a backend spells the key of a folder and the prefix of the files directly inside it. */
  datatype Convention = S3 | Disk {
    /** Disk keys are absolute paths, S3 keys start at the drive slug. */
    function Lead(): string { if Disk? then "/" else "" }
    function DirKey(segs: seq<string>): string { Lead() + Join(segs) }
    /** S3 prefixes end in a slash, disk prefixes do not. */
    function FilePrefix(segs: seq<string>): string { DirKey(segs) + (if S3? then "/" else "") }
  }

  lemma {:induction false} FoldSlashed(segs: seq<string>)
    requires Segments(segs)
    ensures Segments(FoldAll(segs))
    ensures Fold(Slashed(segs)) == Slashed(FoldAll(segs))
  {
    if segs != [] {
      FoldSlashed(segs[1..]);
      assert FoldAll(segs)[1..] == FoldAll(segs[1..]);
      assert Fold(Slashed(segs)) == Fold(segs[0]) + "/" + Fold(Slashed(segs[1..]));
      assert Segment(Fold(segs[0])) by {
        assert forall i :: 0 <= i < |segs[0]| ==> segs[0][i] != '/';
      }
    }
  }

  lemma FoldConcat(a: string, b: string)
    ensures Fold(a + b) == Fold(a) + Fold(b)
  {
  }

  /** Folding commutes with joining. */
  lemma FoldJoin(segs: seq<string>)
    requires Segments(segs)
    ensures Segments(FoldAll(segs)) && Fold(Join(segs)) == Join(FoldAll(segs))
  {
    FoldSlashed(segs);
    if segs != [] {
      SlashedIsJoin(segs);
      SlashedIsJoin(FoldAll(segs));
      FoldConcat(Join(segs), "/");
      assert Fold(Join(segs)) == Fold(Slashed(segs))[..|Join(segs)|];
      assert Join(FoldAll(segs)) == Slashed(FoldAll(segs))[..|Join(segs)|];
    }
  }

  /** Case-blind version of the segment-prefix theorem, on the strings LIKE compares. */
  lemma FoldedBelow(lead: string, root: seq<string>, dir: seq<string>)
    requires Segments(root) && Segments(dir) && root != [] && dir != []
    ensures Fold(lead + Join(root) + "/") <= Fold(lead + Join(dir)) <==>
            |root| < |dir| && FoldAll(root) <= FoldAll(dir)
    ensures Fold(lead + Join(root) + "/") <= Fold(lead + Join(dir) + "/") <==> FoldAll(root) <= FoldAll(dir)
  {
    var fr, fd := FoldAll(root), FoldAll(dir);
    FoldJoin(root);
    FoldJoin(dir);
    PrefixIsSegmentPrefix(fr, fd);
    SlashedIsJoin(fr);
    SlashedIsJoin(fd);
    SlashedPrefix(fr, fd);
    assert fr <= fd ==> (fr != fd <==> |root| < |dir|);
    FoldConcat(lead + Join(root), "/");
    FoldConcat(lead + Join(dir), "/");
    FoldConcat(lead, Join(root));
    FoldConcat(lead, Join(dir));
    assert Fold("/") == "/";
    assert Fold(lead + Join(root) + "/") == Fold(lead) + (Join(fr) + "/");
    assert Fold(lead + Join(dir) + "/") == Fold(lead) + (Join(fd) + "/");
    PrefixUnderLead(Fold(lead), Join(fr) + "/", Join(fd));
    PrefixUnderLead(Fold(lead), Join(fr) + "/", Join(fd) + "/");
  }

  lemma PrefixUnderLead(lead: string, p: string, s: string)
    ensures lead + p <= lead + s <==> p <= s
  {
    assert (lead + p)[|lead|..] == p && (lead + s)[|lead|..] == s;
    if lead + p <= lead + s {
      assert forall i :: 0 <= i < |p| ==> p[i] == (lead + p)[|lead| + i] == (lead + s)[|lead| + i] == s[i];
    }
  }

  /** Keys tell folders apart, and none is another's with a slash added. */
  lemma KeysApart(c: Convention, root: seq<string>, dir: seq<string>)
    requires Segments(root) && Segments(dir) && root != [] && dir != []
    ensures c.DirKey(dir) == c.DirKey(root) <==> dir == root
    ensures c.DirKey(dir) != c.DirKey(root) + "/"
  {
    PrefixIsSegmentPrefix(root, dir);
    JoinEndsInSegment(dir);
    assert c.DirKey(root)[|c.Lead()|..] == Join(root) && c.DirKey(dir)[|c.Lead()|..] == Join(dir);
  }

  /** The LIKE half of the clause, for a root without wildcards. */
  lemma LikeSelects(c: Convention, root: seq<string>, s: string)
    requires WildcardFree(Join(root))
    ensures Like(c.DirKey(root) + "/%", s) <==> Fold(c.Lead() + Join(root) + "/") <= Fold(s)
  {
    var r := c.DirKey(root);
    assert r + "/%" == (r + "/") + "%";
    LiteralPrefix(r + "/", s);
    assert r + "/" == c.Lead() + Join(root) + "/";
  }

  lemma DirSelects(c: Convention, root: seq<string>, dir: seq<string>)
    requires Segments(root) && Segments(dir) && root != [] && dir != []
    requires WildcardFree(Join(root))
    ensures DirMatches(c.DirKey(root), c.DirKey(dir)) <==>
            dir == root || (|root| < |dir| && FoldAll(root) <= FoldAll(dir))
  {
    hide Like, Fold;
    KeysApart(c, root, dir);
    FoldedBelow(c.Lead(), root, dir);
    LikeSelects(c, root, c.DirKey(dir));
  }

  lemma FileSelects(c: Convention, root: seq<string>, dir: seq<string>)
    requires Segments(root) && Segments(dir) && root != [] && dir != []
    requires WildcardFree(Join(root))
    ensures FileMatches(c.DirKey(root), c.FilePrefix(dir)) <==>
            dir == root || ((c.S3? || |root| < |dir|) && FoldAll(root) <= FoldAll(dir))
  {
    hide Like, Fold;
    var r, d := c.DirKey(root), c.DirKey(dir);
    KeysApart(c, root, dir);
    KeysApart(c, dir, root);
    FoldedBelow(c.Lead(), root, dir);
    LikeSelects(c, root, c.FilePrefix(dir));
    if c.S3? {
      assert c.FilePrefix(dir) == c.Lead() + Join(dir) + "/";
      if d + "/" == r + "/" {
        assert d == (d + "/")[..|d|] && r == (r + "/")[..|r|];
      }
    } else {
      assert c.FilePrefix(dir) == d;
    }
  }

  /**
   * What the clause selects, exactly, for a root without wildcards: the folder itself, and
   * everything below any folder spelled like it up to ASCII case.
   */
  lemma MatchSelects(c: Convention, root: seq<string>, dir: seq<string>)
    requires Segments(root) && Segments(dir) && root != [] && dir != []
    requires WildcardFree(Join(root))
    ensures DirMatches(c.DirKey(root), c.DirKey(dir)) <==>
            dir == root || (|root| < |dir| && FoldAll(root) <= FoldAll(dir))
    ensures FileMatches(c.DirKey(root), c.FilePrefix(dir)) <==>
            dir == root || ((c.S3? || |root| < |dir|) && FoldAll(root) <= FoldAll(dir))
  {
    DirSelects(c, root, dir);
    FileSelects(c, root, dir);
  }

  lemma {:induction false} JoinEndsInSegment(segs: seq<string>)
    requires Segments(segs) && segs != []
    ensures Join(segs) != "" && Join(segs)[|Join(segs)| - 1] != '/'
  {
    if |segs| > 1 {
      JoinEndsInSegment(segs[1..]);
    }
  }

  /** No folder on the path to `dir` differs from `root` only in case. */
  predicate CaseDistinct(root: seq<string>, dir: seq<string>) {
    FoldAll(root) <= FoldAll(dir) ==> root <= dir
  }

  /**
   * For wildcard-free roots and case-distinct keys the clause picks exactly the folder and its
   * descendants, under both key conventions; a sibling with a longer name is never among them.
   */
  lemma MatchIsSubtree(c: Convention, root: seq<string>, dir: seq<string>)
    requires Segments(root) && Segments(dir) && root != [] && dir != []
    requires WildcardFree(Join(root)) && CaseDistinct(root, dir)
    ensures DirMatches(c.DirKey(root), c.DirKey(dir)) <==> root <= dir
    ensures FileMatches(c.DirKey(root), c.FilePrefix(dir)) <==> root <= dir
  {
    MatchSelects(c, root, dir);
    if root <= dir {
      assert FoldAll(root) <= FoldAll(dir);
    }
  }

  /** Descendants are always selected, wildcards or not: hiding never misses a row of the folder. */
  lemma MatchCoversSubtree(c: Convention, root: seq<string>, dir: seq<string>)
    requires Segments(root) && Segments(dir) && root != [] && root <= dir
    ensures DirMatches(c.DirKey(root), c.DirKey(dir))
    ensures FileMatches(c.DirKey(root), c.FilePrefix(dir))
  {
    var r, d := c.DirKey(root), c.DirKey(dir);
    if root != dir {
      PrefixIsSegmentPrefix(root, dir);
      PrefixUnderLead(c.Lead(), Join(root) + "/", Join(dir));
      assert r + "/" == c.Lead() + (Join(root) + "/");
      assert r + "/" <= d <= c.FilePrefix(dir);
      assert r + "/%" == (r + "/") + "%";
      StandsMatches(r + "/", r + "/", d);
      StandsMatches(r + "/", r + "/", c.FilePrefix(dir));
    }
  }

  /** For a wildcard-free root the clause is right about a row exactly when the case hypothesis holds of it. */
  lemma MatchExactWhen(c: Convention, root: seq<string>, dir: seq<string>)
    requires Segments(root) && Segments(dir) && root != [] && dir != []
    requires WildcardFree(Join(root))
    ensures (DirMatches(c.DirKey(root), c.DirKey(dir)) <==> root <= dir) <==>
            (|root| < |dir| ==> CaseDistinct(root, dir))
    ensures (FileMatches(c.DirKey(root), c.FilePrefix(dir)) <==> root <= dir) <==>
            (c.S3? || |root| < |dir| ==> CaseDistinct(root, dir))
  {
    MatchSelects(c, root, dir);
    assert root <= dir ==> FoldAll(root) <= FoldAll(dir);
    assert root <= dir && |root| == |dir| ==> root == dir;
  }

  lemma {:induction false} SlashedStands(root: seq<string>, i: nat, seg: string)
    requires i < |root| && Stands(root[i], seg)
    ensures Stands(Slashed(root), Slashed(root[i := seg]))
  {
    var other := root[i := seg];
    if i == 0 {
      assert other[1..] == root[1..];
    } else {
      assert other[1..] == root[1..][i - 1 := seg];
      SlashedStands(root[1..], i - 1, seg);
    }
  }

  lemma {:induction false} SlashedAppend(a: seq<string>, last: string)
    ensures Slashed(a + [last]) == Slashed(a) + last + "/"
  {
    if a == [] {
      assert a + [last] == [last];
    } else {
      assert (a + [last])[1..] == a[1..] + [last];
      SlashedAppend(a[1..], last);
    }
  }

  /** A folder's key and the key of a file in it, written out. */
  lemma KeysWritten(c: Convention, root: seq<string>, sibling: seq<string>)
    requires Segments(root) && root != [] && Segments(sibling) && sibling != []
    ensures c.DirKey(root) + "/%" == c.Lead() + Slashed(root) + "%"
    ensures c.DirKey(sibling + ["f"]) == c.Lead() + Slashed(sibling) + "f"
  {
    var dir := sibling + ["f"];
    SlashedAppend(sibling, "f");
    SlashedIsJoin(root);
    SlashedIsJoin(dir);
    assert c.DirKey(root) + "/" == c.Lead() + Slashed(root);
    assert c.DirKey(root) + "/%" == (c.DirKey(root) + "/") + "%";
    assert Join(dir) + "/" == Slashed(sibling) + "f" + "/";
    assert Join(dir) == (Join(dir) + "/")[..|Join(dir)|] == Slashed(sibling) + "f";
  }

  /**
   * A wildcard in the root always does harm: deleting the folder would also take rows below a sibling
   * whose name has another character in the wildcard's place.
   */
  lemma WildcardSelectsSibling(c: Convention, root: seq<string>, i: nat, j: nat) returns (dir: seq<string>)
    requires Segments(root) && i < |root| && j < |root[i]| && Wildcard(root[i][j])
    ensures Segments(dir) && dir != [] && !(root <= dir)
    ensures DirMatches(c.DirKey(root), c.DirKey(dir)) && FileMatches(c.DirKey(root), c.FilePrefix(dir))
  {
    var seg := root[i][j := 'x'];
    var sibling := root[i := seg];
    dir := sibling + ["f"];
    assert sibling[i][j] != root[i][j] && dir[i] == seg;
    SlashedStands(root, i, seg);
    KeysWritten(c, root, sibling);
    var p, q := c.Lead() + Slashed(root), c.Lead() + Slashed(sibling);
    assert Stands(p, q);
    StandsMatches(p, q, c.DirKey(dir));
    StandsMatches(p, q, c.FilePrefix(dir));
  }
}
