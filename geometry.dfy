/** Integer axis-aligned rectangles, as OpenDB's odb::Rect stores them. */
module Geometry {

  /** The 32-bit limits that Rect::mergeInit stores as sentinels. */
  const INT_MAX: int := 0x7fff_ffff
  const INT_MIN: int := -0x8000_0000

  function Min(a: int, b: int): int { if a <= b then a else b }
  function Max(a: int, b: int): int { if a >= b then a else b }

  /** A closed box [xlo, xhi] x [ylo, yhi]. Building a Rect from corners
      orders them, but the single-coordinate setters store any value. */
  datatype Rect = Rect(xlo: int, ylo: int, xhi: int, yhi: int)

  predicate WellFormed(r: Rect) { r.xlo <= r.xhi && r.ylo <= r.yhi }

  /** Rect(x1, y1, x2, y2) and Rect::init: the corners may come in either order. */
  function MakeRect(x1: int, y1: int, x2: int, y2: int): (r: Rect)
    ensures WellFormed(r)
    ensures {r.xlo, r.xhi} == {x1, x2} && {r.ylo, r.yhi} == {y1, y2}
  {
    Rect(Min(x1, x2), Min(y1, y2), Max(x1, x2), Max(y1, y2))
  }

  function Dx(r: Rect): int { r.xhi - r.xlo }
  function Dy(r: Rect): int { r.yhi - r.ylo }
  function Area(r: Rect): int { Dx(r) * Dy(r) }

  /** The accessors of shape.h: a shape runs along its longer side. */
  predicate IsHorizontal(r: Rect) { Dx(r) > Dy(r) }
  predicate IsVertical(r: Rect) { Dy(r) > Dx(r) }
  function Width(r: Rect): int { Min(Dx(r), Dy(r)) }
  function Length(r: Rect): int { Max(Dx(r), Dy(r)) }

  /** Every coordinate of inner lies within outer's bounds. */
  predicate Contains(outer: Rect, inner: Rect) {
    outer.xlo <= inner.xlo && inner.xhi <= outer.xhi &&
    outer.ylo <= inner.ylo && inner.yhi <= outer.yhi
  }

  /** Rect::overlaps: the interiors of the two boxes meet. */
  predicate Overlaps(a: Rect, b: Rect) {
    a.xlo < b.xhi && b.xlo < a.xhi && a.ylo < b.yhi && b.ylo < a.yhi
  }

  /** Rect::intersects, and the R-tree's intersects on boxes: the closed boxes meet. */
  predicate Intersects(a: Rect, b: Rect) {
    a.xlo <= b.xhi && b.xlo <= a.xhi && a.ylo <= b.yhi && b.ylo <= a.yhi
  }

  /** Rect::merge: the smallest box containing both. */
  function Merge(a: Rect, b: Rect): (r: Rect)
    ensures Contains(r, a) && Contains(r, b)
    ensures forall c :: Contains(c, a) && Contains(c, b) ==> Contains(c, r)
  {
    Rect(Min(a.xlo, b.xlo), Min(a.ylo, b.ylo), Max(a.xhi, b.xhi), Max(a.yhi, b.yhi))
  }

  /** Rect::mergeInit: an inverted box that the first merge overwrites. */
  function EmptyRect(): Rect { Rect(INT_MAX, INT_MAX, INT_MIN, INT_MIN) }

  /** Rect::bloat(margin, result): every side pushed out by margin. */
  function Bloat(r: Rect, margin: int): (b: Rect)
    ensures margin >= 0 && WellFormed(r) ==> Contains(b, r)
    ensures margin >= 0 && WellFormed(r) ==> Dx(b) == Dx(r) + 2 * margin && Dy(b) == Dy(r) + 2 * margin
  {
    MakeRect(r.xlo - margin, r.ylo - margin, r.xhi + margin, r.yhi + margin)
  }

  /** Every coordinate fits a 32-bit int, as odb::Rect's fields do. */
  predicate Fits32(r: Rect) {
    INT_MIN <= r.xlo <= INT_MAX && INT_MIN <= r.ylo <= INT_MAX &&
    INT_MIN <= r.xhi <= INT_MAX && INT_MIN <= r.yhi <= INT_MAX
  }

  /** r is what merging every box of S into init gives, in any order:
      it contains init and all of S, and each of its sides comes from init or from a box of S. */
  ghost predicate IsMergeOf(r: Rect, init: Rect, S: set<Rect>) {
    && Contains(r, init)
    && (forall s :: s in S ==> Contains(r, s))
    && (r.xlo == init.xlo || exists s :: s in S && s.xlo == r.xlo)
    && (r.ylo == init.ylo || exists s :: s in S && s.ylo == r.ylo)
    && (r.xhi == init.xhi || exists s :: s in S && s.xhi == r.xhi)
    && (r.yhi == init.yhi || exists s :: s in S && s.yhi == r.yhi)
  }

  /** r is the bounding box of the non-empty set S. */
  ghost predicate IsBoundingBox(r: Rect, S: set<Rect>) {
    && S != {}
    && (forall s :: s in S ==> Contains(r, s))
    && (exists s :: s in S && s.xlo == r.xlo)
    && (exists s :: s in S && s.ylo == r.ylo)
    && (exists s :: s in S && s.xhi == r.xhi)
    && (exists s :: s in S && s.yhi == r.yhi)
  }

  /** Merging one more box extends a merge by that box. */
  lemma IsMergeOfStep(r: Rect, init: Rect, S: set<Rect>, x: Rect)
    requires IsMergeOf(r, init, S)
    ensures IsMergeOf(Merge(r, x), init, S + {x})
  {
  }

  /** Merges chain: merging S1 and then S2 is merging their union. */
  lemma IsMergeOfChain(r1: Rect, r2: Rect, init: Rect, S1: set<Rect>, S2: set<Rect>)
    requires IsMergeOf(r1, init, S1) && IsMergeOf(r2, r1, S2)
    ensures IsMergeOf(r2, init, S1 + S2)
  {
  }

  /** Merging boxes that fit 32 bits into mergeInit's sentinel gives their exact bounding box,
      and merging nothing leaves the inverted sentinel. */
  lemma MergeFromEmpty(r: Rect, S: set<Rect>)
    requires IsMergeOf(r, EmptyRect(), S)
    requires forall s :: s in S ==> Fits32(s)
    ensures S == {} ==> r == EmptyRect()
    ensures S != {} ==> IsBoundingBox(r, S)
  {
  }
}
