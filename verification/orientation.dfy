/** Turning a decoded image upright according to its Exif orientation. */
module Orientation {

  /** Size of the upright image. */
  function OutSize(orientation: int, w: nat, h: nat): (nat, nat) {
    if 5 <= orientation <= 8 then (h, w) else (w, h)
  }

  /** mapXY: the source pixel shown at (x, y), column first. */
  function SourceOf(orientation: int, w: int, h: int, x: int, y: int): (int, int) {
    match orientation
    case 2 => (w - 1 - x, y)
    case 3 => (w - 1 - x, h - 1 - y)
    case 4 => (x, h - 1 - y)
    case 5 => (y, x)
    case 6 => (y, h - 1 - x)
    case 7 => (w - 1 - y, h - 1 - x)
    case 8 => (w - 1 - y, x)
    case _ => (x, y)
  }

  predicate Inside(size: (nat, nat), x: int, y: int) { 0 <= x < size.0 && 0 <= y < size.1 }

  /** The orientation that undoes another. */
  function Inverse(orientation: int): int {
    match orientation
    case 6 => 8
    case 8 => 6
    case o => o
  }

  /** Turning there and back shows every pixel where it was: 6 and 8 are mutual inverses, the rest their own. */
  lemma InverseUndoes(orientation: int, w: nat, h: nat, x: int, y: int)
    requires Inside((w, h), x, y)
    ensures var size := OutSize(orientation, w, h);
            var at := SourceOf(Inverse(orientation), size.0, size.1, x, y);
            && Inside(size, at.0, at.1)
            && SourceOf(orientation, w, h, at.0, at.1) == (x, y)
            && OutSize(Inverse(orientation), size.0, size.1) == (w, h)
  {
  }

  /** Every output pixel has a source pixel. */
  lemma SourceInside(orientation: int, w: nat, h: nat, x: int, y: int)
    requires Inside(OutSize(orientation, w, h), x, y)
    ensures Inside((w, h), SourceOf(orientation, w, h, x, y).0, SourceOf(orientation, w, h, x, y).1)
  {
  }

  /** No source pixel is shown twice. */
  lemma SourceInjective(orientation: int, w: nat, h: nat, x: int, y: int, i: int, j: int)
    requires SourceOf(orientation, w, h, x, y) == SourceOf(orientation, w, h, i, j)
    ensures x == i && y == j
  {
  }

  /** Each source pixel is shown at exactly one place of the output, and the output shows nothing else. */
  lemma OrientationIsBijection(orientation: int, w: nat, h: nat, sx: int, sy: int)
    ensures Inside((w, h), sx, sy) <==> ShownSomewhere(orientation, w, h, sx, sy)
    ensures forall x, y, i, j ::
              ShownAt(orientation, w, h, x, y, sx, sy) && ShownAt(orientation, w, h, i, j, sx, sy) ==> x == i && y == j
  {
    if Inside((w, h), sx, sy) {
      InverseUndoes(orientation, w, h, sx, sy);
      var size := OutSize(orientation, w, h);
      var at := SourceOf(Inverse(orientation), size.0, size.1, sx, sy);
      assert ShownAt(orientation, w, h, at.0, at.1, sx, sy);
    }
    forall x, y | ShownAt(orientation, w, h, x, y, sx, sy)
      ensures Inside((w, h), sx, sy)
    {
      SourceInside(orientation, w, h, x, y);
    }
    forall x, y, i, j | ShownAt(orientation, w, h, x, y, sx, sy) && ShownAt(orientation, w, h, i, j, sx, sy)
      ensures x == i && y == j
    {
      SourceInjective(orientation, w, h, x, y, i, j);
    }
  }

  predicate ShownAt(orientation: int, w: nat, h: nat, x: int, y: int, sx: int, sy: int) {
    Inside(OutSize(orientation, w, h), x, y) && SourceOf(orientation, w, h, x, y) == (sx, sy)
  }

  ghost predicate ShownSomewhere(orientation: int, w: nat, h: nat, sx: int, sy: int) {
    exists x, y :: ShownAt(orientation, w, h, x, y, sx, sy)
  }

  // ---------- The Exif table ----------

  datatype Side = Top | Bottom | Left | Right

  /** Section 4.6.4 of Exif 2.32: where the stored 0th row and 0th column belong when shown. */
  function Row0(orientation: int): Side {
    match orientation
    case 3 => Bottom case 4 => Bottom
    case 5 => Left case 8 => Left
    case 6 => Right case 7 => Right
    case _ => Top
  }

  function Column0(orientation: int): Side {
    match orientation
    case 2 => Right case 3 => Right
    case 5 => Top case 6 => Top
    case 7 => Bottom case 8 => Bottom
    case _ => Left
  }

  /** How far a pixel of the shown image is from one of its sides. */
  function Distance(side: Side, size: (nat, nat), x: int, y: int): int {
    match side
    case Top => y
    case Bottom => size.1 - 1 - y
    case Left => x
    case Right => size.0 - 1 - x
  }

  /**
   * A shown pixel comes from the row, and the column, whose number is its distance from the side the
   * standard names for the 0th row, and for the 0th column.
   */
  lemma AgreesWithExif(orientation: int, w: nat, h: nat, x: int, y: int)
    requires 1 <= orientation <= 8 && Inside(OutSize(orientation, w, h), x, y)
    ensures SourceOf(orientation, w, h, x, y).1 == Distance(Row0(orientation), OutSize(orientation, w, h), x, y)
    ensures SourceOf(orientation, w, h, x, y).0 == Distance(Column0(orientation), OutSize(orientation, w, h), x, y)
  {
  }

  // ---------- The transformation ----------

  /** `dst` is `src` turned upright. */
  ghost predicate Upright<T>(orientation: int, src: array2<T>, dst: array2<T>)
    reads src, dst
  {
    && (dst.Length0, dst.Length1) == OutSize(orientation, src.Length0, src.Length1)
    && forall x, y :: 0 <= x < dst.Length0 && 0 <= y < dst.Length1 ==>
         var at := SourceOf(orientation, src.Length0, src.Length1, x, y);
         0 <= at.0 < src.Length0 && 0 <= at.1 < src.Length1 && dst[x, y] == src[at.0, at.1]
  }

  method TransformOrientation<T(0)>(src: array2<T>, orientation: int) returns (dst: array2<T>)
    ensures Upright(orientation, src, dst)
    ensures 2 <= orientation <= 8 ==> fresh(dst)
    ensures !(2 <= orientation <= 8) ==> dst == src
  {
    if !(2 <= orientation <= 8) {
      return src;
    }
    var w, h := src.Length0, src.Length1;
    var outW, outH := OutSize(orientation, w, h).0, OutSize(orientation, w, h).1;
    dst := new T[outW, outH];
    forall i, j | Inside((outW, outH), i, j)
      ensures Inside((w, h), SourceOf(orientation, w, h, i, j).0, SourceOf(orientation, w, h, i, j).1)
    {
      SourceInside(orientation, w, h, i, j);
    }
    for y := 0 to outH
      invariant forall i, j :: 0 <= i < outW && 0 <= j < y ==>
                  dst[i, j] == src[SourceOf(orientation, w, h, i, j).0, SourceOf(orientation, w, h, i, j).1]
    {
      for x := 0 to outW
        invariant forall i, j :: 0 <= i < outW && 0 <= j < outH && (j < y || (j == y && i < x)) ==>
                    dst[i, j] == src[SourceOf(orientation, w, h, i, j).0, SourceOf(orientation, w, h, i, j).1]
      {
        var at := SourceOf(orientation, w, h, x, y);
        SourceInside(orientation, w, h, x, y);
        dst[x, y] := src[at.0, at.1];
      }
    }
  }

  /** Turning an image and turning it back by the inverse orientation gives the same image. */
  method ThereAndBack<T(0)>(src: array2<T>, orientation: int) returns (back: array2<T>)
    ensures back.Length0 == src.Length0 && back.Length1 == src.Length1
    ensures forall x, y :: 0 <= x < src.Length0 && 0 <= y < src.Length1 ==> back[x, y] == src[x, y]
  {
    var turned := TransformOrientation(src, orientation);
    back := TransformOrientation(turned, Inverse(orientation));
    forall x, y | 0 <= x < src.Length0 && 0 <= y < src.Length1
      ensures x < back.Length0 && y < back.Length1 && back[x, y] == src[x, y]
    {
      InverseUndoes(orientation, src.Length0, src.Length1, x, y);
    }
  }
}
