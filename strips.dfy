/** Subtraction of axis strips from a shape's extent.

    Shape::cut stretches every violating obstruction across the shape's whole
    cross-axis before subtracting it, so the 2-D polygon subtraction removes whole
    strips and leaves full-width pieces. Along the shape's axis that is interval
    subtraction, modelled here over unit cells: with integer coordinates the
    region [lo, hi] is made of the cells [c, c + 1] for lo <= c < hi. */
module Strips {
  import opened Geometry

  /** The run of cells lo <= c < hi, i.e. the closed interval [lo, hi]. */
  datatype Span = Span(lo: int, hi: int)

  predicate Covers(s: Span, c: int) { s.lo <= c < s.hi }

  /** Some piece of ps covers cell c. */
  ghost predicate Covered(ps: seq<Span>, c: int) {
    exists i :: 0 <= i < |ps| && Covers(ps[i], c)
  }

  /** Non-empty pieces in increasing order with a gap between neighbours:
      each piece is a maximal run of covered cells. */
  ghost predicate Separated(ps: seq<Span>) {
    && (forall i :: 0 <= i < |ps| ==> ps[i].lo < ps[i].hi)
    && (forall i, j :: 0 <= i < j < |ps| ==> ps[i].hi < ps[j].lo)
  }

  /** Every piece lies within [lo, hi]. */
  ghost predicate Within(ps: seq<Span>, lo: int, hi: int) {
    forall i :: 0 <= i < |ps| ==> lo <= ps[i].lo && ps[i].hi <= hi
  }

  /** What is left of piece p once the cells of a non-empty cut are removed. */
  function SplitAround(p: Span, cut: Span): seq<Span> {
    (if p.lo < Min(p.hi, cut.lo) then [Span(p.lo, Min(p.hi, cut.lo))] else []) +
    (if Max(p.lo, cut.hi) < p.hi then [Span(Max(p.lo, cut.hi), p.hi)] else [])
  }

  function SubtractEach(ps: seq<Span>, cut: Span): seq<Span> {
    if ps == [] then [] else SplitAround(ps[0], cut) + SubtractEach(ps[1..], cut)
  }

  /** The polygon-set difference `pieces -= violation`; a violation without area removes nothing. */
  function Subtract(ps: seq<Span>, cut: Span): seq<Span> {
    if cut.lo < cut.hi then SubtractEach(ps, cut) else ps
  }

  /** The pieces left after subtracting every cut, in order, from the initial pieces. */
  function Remainder(init: seq<Span>, cuts: seq<Span>): seq<Span>
    decreases |cuts|
  {
    if cuts == [] then init else Subtract(Remainder(init, cuts[..|cuts| - 1]), cuts[|cuts| - 1])
  }

  lemma {:induction false} SubtractEachCells(ps: seq<Span>, cut: Span, c: int)
    requires cut.lo < cut.hi
    ensures Covered(SubtractEach(ps, cut), c) <==> Covered(ps, c) && !Covers(cut, c)
  {
    if ps != [] {
      var head, rest := SplitAround(ps[0], cut), SubtractEach(ps[1..], cut);
      SubtractEachCells(ps[1..], cut, c);
      assert SubtractEach(ps, cut) == head + rest;
      if Covered(head + rest, c) {
        var i :| 0 <= i < |head + rest| && Covers((head + rest)[i], c);
        if i >= |head| {
          assert Covers(rest[i - |head|], c);
          var j :| 0 <= j < |ps[1..]| && Covers(ps[1..][j], c);
          assert Covers(ps[j + 1], c);
        } else {
          assert Covers(ps[0], c);
        }
      }
      if Covered(ps, c) && !Covers(cut, c) {
        var i :| 0 <= i < |ps| && Covers(ps[i], c);
        if i == 0 {
          if c < cut.lo {
            assert Covers(head[0], c);
          } else {
            assert Covers(head[|head| - 1], c);
          }
          assert Covers((head + rest)[if c < cut.lo then 0 else |head| - 1], c);
        } else {
          assert Covers(ps[1..][i - 1], c);
          var j :| 0 <= j < |rest| && Covers(rest[j], c);
          assert Covers((head + rest)[|head| + j], c);
        }
      }
    }
  }

  /** A cell survives a subtraction exactly when it was covered and the cut misses it. */
  lemma SubtractCells(ps: seq<Span>, cut: Span, c: int)
    ensures Covered(Subtract(ps, cut), c) <==> Covered(ps, c) && !Covers(cut, c)
  {
    if cut.lo < cut.hi { SubtractEachCells(ps, cut, c); }
  }

  lemma {:induction false} SubtractEachBounds(ps: seq<Span>, cut: Span, lo: int, hi: int)
    requires Within(ps, lo, hi)
    ensures Within(SubtractEach(ps, cut), lo, hi)
  {
    if ps != [] {
      SubtractEachBounds(ps[1..], cut, lo, hi);
    }
  }

  lemma {:induction false} SubtractEachSeparated(ps: seq<Span>, cut: Span)
    requires cut.lo < cut.hi && Separated(ps)
    ensures Separated(SubtractEach(ps, cut))
  {
    if ps != [] {
      var head, rest := SplitAround(ps[0], cut), SubtractEach(ps[1..], cut);
      SubtractEachSeparated(ps[1..], cut);
      if |ps| > 1 {
        assert Within(ps[1..], ps[1].lo, ps[|ps| - 1].hi);
        SubtractEachBounds(ps[1..], cut, ps[1].lo, ps[|ps| - 1].hi);
      } else {
        assert rest == [];
      }
      var all := head + rest;
      assert SubtractEach(ps, cut) == all;
      forall i, j | 0 <= i < j < |all| ensures all[i].hi < all[j].lo {
        if j < |head| {
          assert i == 0 && j == 1;
        } else if i < |head| {
          assert all[i].hi <= ps[0].hi < ps[1].lo <= rest[j - |head|].lo;
        } else {
          assert all[i] == rest[i - |head|] && all[j] == rest[j - |head|];
        }
      }
    }
  }

  lemma SubtractSeparated(ps: seq<Span>, cut: Span)
    requires Separated(ps)
    ensures Separated(Subtract(ps, cut))
  {
    if cut.lo < cut.hi { SubtractEachSeparated(ps, cut); }
  }

  /** The remainder keeps exactly the cells of the initial pieces that no cut covers. */
  lemma {:induction false} RemainderCells(init: seq<Span>, cuts: seq<Span>, c: int)
    ensures Covered(Remainder(init, cuts), c) <==>
              Covered(init, c) && forall k :: 0 <= k < |cuts| ==> !Covers(cuts[k], c)
    decreases |cuts|
  {
    if cuts != [] {
      var n := |cuts| - 1;
      RemainderCells(init, cuts[..n], c);
      SubtractCells(Remainder(init, cuts[..n]), cuts[n], c);
      assert forall k :: 0 <= k < n ==> cuts[..n][k] == cuts[k];
    }
  }

  /** The remainder's pieces stay separated and inside the initial bounds. */
  lemma {:induction false} RemainderShape(init: seq<Span>, cuts: seq<Span>, lo: int, hi: int)
    requires Separated(init) && Within(init, lo, hi)
    ensures Separated(Remainder(init, cuts)) && Within(Remainder(init, cuts), lo, hi)
    decreases |cuts|
  {
    if cuts != [] {
      var n := |cuts| - 1;
      RemainderShape(init, cuts[..n], lo, hi);
      SubtractSeparated(Remainder(init, cuts[..n]), cuts[n]);
      if cuts[n].lo < cuts[n].hi {
        SubtractEachBounds(Remainder(init, cuts[..n]), cuts[n], lo, hi);
      }
    }
  }

  /** Nothing is left of nothing. */
  lemma {:induction false} RemainderOfNothing(cuts: seq<Span>)
    ensures Remainder([], cuts) == []
    decreases |cuts|
  {
    if cuts != [] {
      RemainderOfNothing(cuts[..|cuts| - 1]);
    }
  }
}
