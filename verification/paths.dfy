/** Slash-separated keys and the segment lists they stand for. */
module Paths {

  /** One path component: non-empty and free of slashes. */
  predicate Segment(s: string) {
    s != "" && '/' !in s
  }

  predicate Segments(segs: seq<string>) {
    forall i :: 0 <= i < |segs| ==> Segment(segs[i])
  }

  function Join(segs: seq<string>): string {
    if segs == [] then ""
    else if |segs| == 1 then segs[0]
    else segs[0] + "/" + Join(segs[1..])
  }

  lemma {:induction false} JoinLast(segs: seq<string>)
    requires |segs| > 1
    ensures Join(segs) == Join(segs[..|segs| - 1]) + "/" + segs[|segs| - 1]
  {
    var n := |segs| - 1;
    if |segs| > 2 {
      JoinLast(segs[1..]);
      assert segs[1..][..n - 1] == segs[..n][1..];
    }
  }

  /** Every component followed by a slash: the key prefix of everything below `segs`. */
  function Slashed(segs: seq<string>): string {
    if segs == [] then "" else segs[0] + "/" + Slashed(segs[1..])
  }

  lemma {:induction false} SlashedIsJoin(segs: seq<string>)
    requires segs != []
    ensures Slashed(segs) == Join(segs) + "/"
  {
    if |segs| > 1 {
      SlashedIsJoin(segs[1..]);
    }
  }

  /** The slash closing the first component is the first slash of the key. */
  lemma FirstSlash(x: string, y: string, r: string, s: string)
    requires '/' !in x && '/' !in y
    requires x + "/" + r <= y + "/" + s
    ensures x == y && r <= s
  {
    var k := y + "/" + s;
    assert forall i :: 0 <= i < |x| ==> k[i] == (x + "/" + r)[i] == x[i];
    assert forall i :: 0 <= i < |y| ==> k[i] == y[i];
    assert k[|x|] == (x + "/" + r)[|x|] == '/' && k[|y|] == '/';
    assert forall i :: 0 <= i < |r| ==> r[i] == (x + "/" + r)[|x| + 1 + i] == s[i];
  }

  /** Slash-terminated keys form a prefix code over segment lists. */
  lemma {:induction false} SlashedPrefix(a: seq<string>, b: seq<string>)
    requires Segments(a) && Segments(b)
    ensures Slashed(a) <= Slashed(b) <==> a <= b
  {
    if a != [] && b != [] {
      SlashedPrefix(a[1..], b[1..]);
      assert a == [a[0]] + a[1..] && b == [b[0]] + b[1..];
      if Slashed(a) <= Slashed(b) {
        FirstSlash(a[0], b[0], Slashed(a[1..]), Slashed(b[1..]));
      }
    }
  }

  /** A key equals another, or lies below it, exactly when its segments do. */
  lemma PrefixIsSegmentPrefix(a: seq<string>, b: seq<string>)
    requires Segments(a) && Segments(b) && a != []
    ensures Join(b) == Join(a) <==> a == b
    ensures Join(a) + "/" <= Join(b) <==> a <= b && a != b
  {
    SlashedIsJoin(a);
    SlashedPrefix(a, b);
    SlashedPrefix(b, a);
    if b == [] {
      assert Join(a) == Slashed(a)[..|Slashed(a)| - 1] && |Slashed(a)| >= 2;
    } else {
      SlashedIsJoin(b);
      assert Slashed(a) == Slashed(b) ==> a == b;
      assert Join(a) + "/" <= Join(b) ==> Slashed(a) <= Slashed(b);
      assert Join(a) == Join(b) ==> Slashed(a) == Slashed(b);
      assert a <= b && a != b ==> |Slashed(a)| < |Slashed(b)| by {
        if a <= b && a != b { assert !(Slashed(b) <= Slashed(a)); }
      }
    }
  }

  /** Different segment lists have different keys. */
  lemma JoinInjective(a: seq<string>, b: seq<string>)
    requires Segments(a) && Segments(b) && Join(a) == Join(b)
    ensures a == b
  {
    if a != [] {
      PrefixIsSegmentPrefix(a, b);
    } else if b != [] {
      PrefixIsSegmentPrefix(b, a);
    }
  }
}
