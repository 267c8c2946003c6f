/** The power-grid Shape: a rectangle on one layer with its obstruction halo,
    its terminal connections and the vias that land on it. A FollowPinShape
    (a standard-cell rail) is a Shape whose isFollowPin flag is set; the virtual
    operations dispatch on that flag. */
module Shapes {
  import opened Geometry
  import opened Tech
  import opened Obstruction
  import opened Strips

  /** The shape's category: an ordinary shape or a grid-level obstruction. */
  datatype ShapeType = Ordinary | GridObs

  /** odb::dbWireShapeType, as far as the engine sets it. */
  datatype WireShapeType = NoWireType | FollowPinWire | OtherWire(code: int)

  /** One R-tree value: the indexed box and the shape it belongs to. */
  datatype TreeEntry = TreeEntry(box: Rect, shape: Shape)

  function ShapesOf(tree: seq<TreeEntry>): set<Shape> {
    set e | e in tree :: e.shape
  }

  /** The minimum-area rule: a layer without one accepts any rectangle. */
  predicate AreaValid(layer: Layer, r: Rect) {
    !(layer.hasArea && Area(r) < layer.minArea)
  }

  /** Growing a well-formed rectangle never breaks the minimum-area rule. */
  lemma AreaValidGrows(layer: Layer, small: Rect, big: Rect)
    requires WellFormed(small) && Contains(big, small) && AreaValid(layer, small)
    ensures AreaValid(layer, big)
  {
  }

  /** The run along the shape's axis (x when horizontal, y otherwise). */
  function AxisSpan(r: Rect, horizontal: bool): Span {
    if horizontal then Span(r.xlo, r.xhi) else Span(r.ylo, r.yhi)
  }

  /** The run across the shape's axis. */
  function CrossSpan(r: Rect, horizontal: bool): Span {
    if horizontal then Span(r.ylo, r.yhi) else Span(r.xlo, r.xhi)
  }

  /** The R-tree query of Shape::cut: the entry's box meets the rectangle and
      its shape is on the same layer or on no layer. */
  predicate CutHit(e: TreeEntry, rect: Rect, layer: Layer?) {
    Intersects(e.box, rect) && (layer == e.shape.layer || e.shape.layer == null)
  }

  /** A violating obstruction widened to span the whole cross-axis of rect. */
  function StretchAcross(v: Rect, rect: Rect, horizontal: bool): (s: Rect)
    ensures AxisSpan(s, horizontal) == AxisSpan(v, horizontal)
    ensures CrossSpan(s, horizontal).lo <= CrossSpan(rect, horizontal).lo
    ensures CrossSpan(rect, horizontal).hi <= CrossSpan(s, horizontal).hi
  {
    if horizontal then v.(ylo := Min(rect.ylo, v.ylo), yhi := Max(rect.yhi, v.yhi))
    else v.(xlo := Min(rect.xlo, v.xlo), xhi := Max(rect.xhi, v.xhi))
  }

  /** The axis runs that the hit entries' stretched obstructions remove, in tree order. */
  ghost function Violations(tree: seq<TreeEntry>, rect: Rect, layer: Layer?, horizontal: bool): seq<Span>
    reads ShapesOf(tree)
    decreases |tree|
  {
    if tree == [] then []
    else
      var prefix := tree[..|tree| - 1];
      var e := tree[|tree| - 1];
      assert ShapesOf(prefix) <= ShapesOf(tree) by {
        forall x | x in prefix ensures x in tree { }
      }
      Violations(prefix, rect, layer, horizontal) +
      (if CutHit(e, rect, layer) then [AxisSpan(StretchAcross(e.shape.obs, rect, horizontal), horizontal)] else [])
  }

  /** The shape as one polygon; a rectangle without area is an empty polygon set. */
  function InitialPieces(rect: Rect, horizontal: bool): seq<Span> {
    var a, c := AxisSpan(rect, horizontal), CrossSpan(rect, horizontal);
    if a.lo < a.hi && c.lo < c.hi then [a] else []
  }

  /** The full-width rectangle over one remaining piece. */
  function PieceRect(rect: Rect, p: Span, horizontal: bool): Rect {
    if horizontal then MakeRect(p.lo, rect.ylo, p.hi, rect.yhi)
    else MakeRect(rect.xlo, p.lo, rect.xhi, p.hi)
  }

  /** cut's acceptance test: only pieces as wide as the shape are kept. */
  predicate SameWidth(rect: Rect, r: Rect, horizontal: bool) {
    if horizontal then Dy(rect) == Dy(r) else Dx(rect) == Dx(r)
  }

  /** The rectangles cut keeps from the pieces, in order. */
  function AcceptedRects(rect: Rect, pieces: seq<Span>, horizontal: bool): seq<Rect>
    decreases |pieces|
  {
    if pieces == [] then []
    else
      var r := PieceRect(rect, pieces[|pieces| - 1], horizontal);
      AcceptedRects(rect, pieces[..|pieces| - 1], horizontal) + (if SameWidth(rect, r, horizontal) then [r] else [])
  }

  /** The replacement rectangles of Shape::cut. */
  ghost function CutRects(tree: seq<TreeEntry>, rect: Rect, layer: Layer?): seq<Rect>
    reads ShapesOf(tree)
  {
    var h := IsHorizontal(rect);
    AcceptedRects(rect, Remainder(InitialPieces(rect, h), Violations(tree, rect, layer, h)), h)
  }

  /** Every piece left from a shape with area spans its full width, so the width test keeps them all. */
  lemma {:induction false} AllPiecesAccepted(rect: Rect, pieces: seq<Span>, horizontal: bool)
    requires pieces != [] ==> CrossSpan(rect, horizontal).lo < CrossSpan(rect, horizontal).hi
    requires Separated(pieces)
    ensures AcceptedRects(rect, pieces, horizontal) == seq(|pieces|, k requires 0 <= k < |pieces| => PieceRect(rect, pieces[k], horizontal))
    decreases |pieces|
  {
    if pieces != [] {
      var n := |pieces| - 1;
      AllPiecesAccepted(rect, pieces[..n], horizontal);
    }
  }

  /** The pieces cut works on: full-width, inside the shape, separated, and covering
      exactly the cells of the shape's axis that no violation covers. */
  lemma CutPieces(tree: seq<TreeEntry>, rect: Rect, layer: Layer?)
    ensures var h := IsHorizontal(rect);
            var pieces := Remainder(InitialPieces(rect, h), Violations(tree, rect, layer, h));
            && Separated(pieces)
            && Within(pieces, AxisSpan(rect, h).lo, AxisSpan(rect, h).hi)
            && (pieces != [] ==> CrossSpan(rect, h).lo < CrossSpan(rect, h).hi)
            && CutRects(tree, rect, layer) == seq(|pieces|, k requires 0 <= k < |pieces| => PieceRect(rect, pieces[k], h))
  {
    var h := IsHorizontal(rect);
    var init := InitialPieces(rect, h);
    var vs := Violations(tree, rect, layer, h);
    RemainderShape(init, vs, AxisSpan(rect, h).lo, AxisSpan(rect, h).hi);
    if init == [] { RemainderOfNothing(vs); }
    AllPiecesAccepted(rect, Remainder(init, vs), h);
  }

  /** Every replacement rectangle lies within the shape and has the shape's cross-axis extent. */
  lemma CutRectsFullWidth(tree: seq<TreeEntry>, rect: Rect, layer: Layer?, k: nat)
    requires k < |CutRects(tree, rect, layer)|
    ensures var r := CutRects(tree, rect, layer)[k];
            var h := IsHorizontal(rect);
            Contains(rect, r) && CrossSpan(r, h) == CrossSpan(rect, h) && WellFormed(r)
  {
    CutPieces(tree, rect, layer);
  }

  /** A unit cell of the shape's axis is in some replacement exactly when it lies in the
      shape (which has area) and no hit obstruction covers it. */
  lemma CutRectsCells(tree: seq<TreeEntry>, rect: Rect, layer: Layer?, c: int)
    ensures var h := IsHorizontal(rect);
            var rs := CutRects(tree, rect, layer);
            var vs := Violations(tree, rect, layer, h);
            (exists k :: 0 <= k < |rs| && Covers(AxisSpan(rs[k], h), c)) <==>
              (Covers(AxisSpan(rect, h), c) && CrossSpan(rect, h).lo < CrossSpan(rect, h).hi &&
               forall j :: 0 <= j < |vs| ==> !Covers(vs[j], c))
  {
    var h := IsHorizontal(rect);
    var init := InitialPieces(rect, h);
    var vs := Violations(tree, rect, layer, h);
    var pieces := Remainder(init, vs);
    CutPieces(tree, rect, layer);
    RemainderCells(init, vs, c);
    var rs := CutRects(tree, rect, layer);
    assert forall k :: 0 <= k < |rs| ==> AxisSpan(rs[k], h) == pieces[k];
    assert Covered(init, c) <==> Covers(AxisSpan(rect, h), c) && CrossSpan(rect, h).lo < CrossSpan(rect, h).hi by {
      if init != [] { assert init[0] == AxisSpan(rect, h); }
    }
    if Covered(pieces, c) {
      var k :| 0 <= k < |pieces| && Covers(pieces[k], c);
      assert Covers(AxisSpan(rs[k], h), c);
    }
    if exists k :: 0 <= k < |rs| && Covers(AxisSpan(rs[k], h), c) {
      var k :| 0 <= k < |rs| && Covers(AxisSpan(rs[k], h), c);
      assert Covers(pieces[k], c);
      assert Covered(pieces, c);
    }
  }

  /** The grown rectangle of extendTo: the shape stretched along its own axis to reach the target. */
  function GrownRect(r: Rect, target: Rect): (g: Rect)
    requires IsHorizontal(r) || IsVertical(r)
    ensures Contains(g, r)
    ensures var h := IsHorizontal(r);
            && CrossSpan(g, h) == CrossSpan(r, h)
            && AxisSpan(g, h).lo <= AxisSpan(target, h).lo && AxisSpan(target, h).hi <= AxisSpan(g, h).hi
            && (AxisSpan(g, h).lo == AxisSpan(r, h).lo || AxisSpan(g, h).lo == AxisSpan(target, h).lo)
            && (AxisSpan(g, h).hi == AxisSpan(r, h).hi || AxisSpan(g, h).hi == AxisSpan(target, h).hi)
  {
    if IsHorizontal(r) then r.(xlo := Min(r.xlo, target.xlo), xhi := Max(r.xhi, target.xhi))
    else r.(ylo := Min(r.ylo, target.ylo), yhi := Max(r.yhi, target.yhi))
  }

  /** A row's bounding box laid across the shape: its axis run with the shape's cross-axis run. */
  function RowSpan(row: Row, rect: Rect, horizontal: bool): Rect {
    if horizontal then Rect(row.bbox.xlo, rect.ylo, row.bbox.xhi, rect.yhi)
    else Rect(rect.xlo, row.bbox.ylo, rect.xhi, row.bbox.yhi)
  }

  function RowSpans(rows: set<Row>, rect: Rect, horizontal: bool): set<Rect> {
    set row | row in rows :: RowSpan(row, rect, horizontal)
  }

  /** m with its cross-axis run replaced by rect's. */
  function WithCrossOf(m: Rect, rect: Rect, horizontal: bool): Rect {
    if horizontal then m.(ylo := rect.ylo, yhi := rect.yhi) else m.(xlo := rect.xlo, xhi := rect.xhi)
  }

  /** The terminals that updateTermConnections removes: exactly those that do not overlap r. */
  method NotOverlapping(r: Rect, terms: set<Rect>) returns (remove: set<Rect>)
    ensures remove <= terms
    ensures forall t :: t in terms ==> (t in remove <==> !Overlaps(r, t))
  {
    remove := {};
    var todo := terms;
    while todo != {}
      invariant todo <= terms
      invariant remove <= terms - todo
      invariant forall t :: t in terms - todo ==> (t in remove <==> !Overlaps(r, t))
      decreases |todo|
    {
      var t :| t in todo;
      if !Overlaps(r, t) {
        remove := remove + {t};
      }
      todo := todo - {t};
    }
  }

  /** The rows that FollowPinShape::updateTermConnections removes: exactly those whose box misses r. */
  method RowsApart(r: Rect, rows: set<Row>) returns (remove: set<Row>)
    ensures remove <= rows
    ensures forall row :: row in rows ==> (row in remove <==> !Intersects(r, row.bbox))
  {
    remove := {};
    var todo := rows;
    while todo != {}
      invariant todo <= rows
      invariant remove <= rows - todo
      invariant forall row :: row in rows - todo ==> (row in remove <==> !Intersects(r, row.bbox))
      decreases |todo|
    {
      var row :| row in todo;
      if !Intersects(r, row.bbox) {
        remove := remove + {row};
      }
      todo := todo - {row};
    }
  }

  /** Merges every rectangle of a set into acc, one at a time. */
  method MergeAll(acc: Rect, rects: set<Rect>) returns (m: Rect)
    ensures IsMergeOf(m, acc, rects)
  {
    m := acc;
    var todo := rects;
    while todo != {}
      invariant todo <= rects
      invariant IsMergeOf(m, acc, rects - todo)
      decreases |todo|
    {
      var r :| r in todo;
      IsMergeOfStep(m, acc, rects - todo, r);
      assert rects - todo + {r} == rects - (todo - {r});
      m := Geometry.Merge(m, r);
      todo := todo - {r};
    }
  }

  /** The row loop of FollowPinShape::getMinimumRect: m's axis run grows over each row's. */
  method StretchOverRows(start: Rect, rect: Rect, rows: set<Row>, h: bool) returns (m: Rect)
    requires CrossSpan(start, h) == CrossSpan(rect, h)
    ensures CrossSpan(m, h) == CrossSpan(rect, h)
    ensures IsMergeOf(m, start, RowSpans(rows, rect, h))
  {
    m := start;
    var todo := rows;
    while todo != {}
      invariant todo <= rows
      invariant CrossSpan(m, h) == CrossSpan(rect, h)
      invariant IsMergeOf(m, start, RowSpans(rows - todo, rect, h))
      decreases |todo|
    {
      var row :| row in todo;
      var rowRect := row.bbox;
      ghost var before := m;
      if h {
        m := m.(xlo := Min(m.xlo, rowRect.xlo));
        m := m.(xhi := Max(m.xhi, rowRect.xhi));
      } else {
        m := m.(ylo := Min(m.ylo, rowRect.ylo));
        m := m.(yhi := Max(m.yhi, rowRect.yhi));
      }
      assert m == Geometry.Merge(before, RowSpan(row, rect, h));
      IsMergeOfStep(before, start, RowSpans(rows - todo, rect, h), RowSpan(row, rect, h));
      assert RowSpans(rows - todo, rect, h) + {RowSpan(row, rect, h)} == RowSpans(rows - (todo - {row}), rect, h);
      todo := todo - {row};
    }
    assert rows - todo == rows;
  }

  /** The subtraction loop of Shape::cut: the violations removed one after another. */
  method SubtractAll(init: seq<Span>, violations: seq<Span>) returns (pieces: seq<Span>)
    ensures pieces == Remainder(init, violations)
  {
    pieces := init;
    var k := 0;
    while k < |violations|
      invariant 0 <= k <= |violations|
      invariant pieces == Remainder(init, violations[..k])
    {
      assert violations[..k + 1][..k] == violations[..k];
      pieces := Subtract(pieces, violations[k]);
      k := k + 1;
    }
    assert violations[..k] == violations;
  }

  /** The R-tree query of extendTo: is some entry other than self's in the way of box? */
  method AnyOtherIntersecting(tree: seq<TreeEntry>, box: Rect, self: Shape) returns (found: bool)
    ensures found <==> exists i :: 0 <= i < |tree| && Intersects(tree[i].box, box) && tree[i].shape != self
  {
    found := false;
    var i := 0;
    while i < |tree| && !found
      invariant 0 <= i <= |tree|
      invariant found <==> exists j :: 0 <= j < i && Intersects(tree[j].box, box) && tree[j].shape != self
    {
      found := Intersects(tree[i].box, box) && tree[i].shape != self;
      i := i + 1;
    }
  }

  /** The entries FollowPinShape::cut keeps: all but the grid-level obstructions, in order. */
  ghost function NonGridObs(tree: seq<TreeEntry>): seq<TreeEntry>
    reads ShapesOf(tree)
    decreases |tree|
  {
    if tree == [] then []
    else
      var prefix := tree[..|tree| - 1];
      var e := tree[|tree| - 1];
      assert ShapesOf(prefix) <= ShapesOf(tree) by {
        forall x | x in prefix ensures x in tree { }
      }
      NonGridObs(prefix) + (if e.shape.shapeType == GridObs then [] else [e])
  }

  /** An entry survives the follow-pin filter exactly when it is in the tree and not a grid obstruction. */
  lemma {:induction false} NonGridObsMembers(tree: seq<TreeEntry>, e: TreeEntry)
    ensures e in NonGridObs(tree) <==> e in tree && e.shape.shapeType != GridObs
    decreases |tree|
  {
    if tree != [] {
      var prefix := tree[..|tree| - 1];
      NonGridObsMembers(prefix, e);
      assert tree == prefix + [tree[|tree| - 1]];
    }
  }

  /** Builds the filtered tree the way FollowPinShape::cut does. */
  method WithoutGridObstructions(tree: seq<TreeEntry>) returns (filtered: seq<TreeEntry>)
    ensures filtered == NonGridObs(tree)
  {
    filtered := [];
    var i := 0;
    while i < |tree|
      invariant 0 <= i <= |tree|
      invariant filtered == NonGridObs(tree[..i])
    {
      assert tree[..i + 1][..i] == tree[..i];
      var shape := tree[i].shape;
      if shape.shapeType == GridObs {
        i := i + 1;
        continue;
      }
      filtered := filtered + [tree[i]];
      i := i + 1;
    }
    assert tree[..i] == tree;
  }

  class Shape {
    const layer: Layer?
    const net: Net?
    const wireType: WireShapeType
    /** The shape is a FollowPinShape. */
    const isFollowPin: bool
    var shapeType: ShapeType
    var rect: Rect
    /** The obstruction halo, recomputed by GenerateObstruction. */
    var obs: Rect
    var iterms: set<Rect>
    var bterms: set<Rect>
    var vias: set<Via>
    /** The placement rows a follow-pin rail powers; empty for other shapes. */
    var rows: set<Row>

    constructor (layer: Layer?, net: Net?, rect: Rect, wireType: WireShapeType)
      ensures this.layer == layer && this.net == net && this.rect == rect && this.wireType == wireType
      ensures !isFollowPin && shapeType == Ordinary && obs == rect
      ensures iterms == {} && bterms == {} && vias == {} && rows == {}
    {
      this.layer := layer;
      this.net := net;
      this.rect := rect;
      this.wireType := wireType;
      isFollowPin := false;
      shapeType := Ordinary;
      obs := rect;
      iterms, bterms, vias, rows := {}, {}, {}, {};
    }

    /** A shape without a net, such as an obstruction. */
    constructor OfType(layer: Layer?, rect: Rect, shapeType: ShapeType)
      ensures this.layer == layer && net == null && this.rect == rect && wireType == NoWireType
      ensures !isFollowPin && this.shapeType == shapeType && obs == rect
      ensures iterms == {} && bterms == {} && vias == {} && rows == {}
    {
      this.layer := layer;
      net := null;
      this.rect := rect;
      wireType := NoWireType;
      isFollowPin := false;
      this.shapeType := shapeType;
      obs := rect;
      iterms, bterms, vias, rows := {}, {}, {}, {};
    }

    /** FollowPinShape's constructor. */
    constructor FollowPin(layer: Layer?, net: Net?, rect: Rect)
      ensures this.layer == layer && this.net == net && this.rect == rect && wireType == FollowPinWire
      ensures isFollowPin && shapeType == Ordinary && obs == rect
      ensures iterms == {} && bterms == {} && vias == {} && rows == {}
    {
      this.layer := layer;
      this.net := net;
      this.rect := rect;
      wireType := FollowPinWire;
      isFollowPin := true;
      shapeType := Ordinary;
      obs := rect;
      iterms, bterms, vias, rows := {}, {}, {}, {};
    }

    function NumberOfConnections(): nat
      reads this
    {
      |vias| + |iterms| + |bterms|
    }

    predicate IsModifiable() { true }

    /** A shape with at most one connection is a dangling stub that may be removed. */
    function IsRemovable(): (removable: bool)
      reads this
      ensures removable <==> |vias| + |iterms| + |bterms| < 2
    {
      if !IsModifiable() then false
      else if NumberOfConnections() < 2 then true
      else false
    }

    function IsValid(): (valid: bool)
      requires layer != null
      reads this
      ensures valid <==> !layer.hasArea || Area(rect) >= layer.minArea
    {
      if layer.hasArea && Area(rect) < layer.minArea then false else true
    }

    function IsWrongWay(): (wrongWay: bool)
      requires layer != null
      reads this
      ensures wrongWay <==> WrongWay(rect, layer.direction)
    {
      if IsHorizontal(rect) && layer.direction == Horizontal then true
      else if IsVertical(rect) && layer.direction == Vertical then true
      else false
    }

    /** All connection rectangles: bterms, iterms and the areas of the vias. */
    ghost function ConnectionRects(): set<Rect>
      reads this
    {
      bterms + iterms + (set v | v in vias :: v.area)
    }

    /** s carries what copy() gives it, apart from its rectangle and connections. */
    ghost predicate DerivedFrom(s: Shape)
      reads this, s
      requires isFollowPin ==> layer != null
    {
      && s.layer == layer && s.net == net && s.isFollowPin == isFollowPin && s.vias == {}
      && (if isFollowPin
          then s.wireType == FollowPinWire && s.shapeType == Ordinary && s.obs == ObstructionOf(rect, layer)
          else s.wireType == wireType && s.shapeType == shapeType && s.obs == obs)
    }

    /** s is the replacement cut makes for the rectangle r. */
    ghost predicate IsCutPiece(s: Shape, r: Rect)
      reads this, s
      requires isFollowPin ==> layer != null
    {
      && DerivedFrom(s) && s.rect == r
      && s.iterms == (if isFollowPin then {} else set t | t in iterms && Overlaps(r, t))
      && s.bterms == (if isFollowPin then {} else set t | t in bterms && Overlaps(r, t))
      && s.rows == (if isFollowPin then set row | row in rows && Intersects(r, row.bbox) else {})
    }

    /** Shape::copy and FollowPinShape::copy. A follow-pin copy regenerates its obstruction
        and keeps the rows but, as written, not the terminal connections. */
    method Copy() returns (s: Shape)
      requires isFollowPin ==> layer != null
      ensures fresh(s) && DerivedFrom(s) && s.rect == rect
      ensures s.iterms == (if isFollowPin then {} else iterms)
      ensures s.bterms == (if isFollowPin then {} else bterms)
      ensures s.rows == (if isFollowPin then rows else {})
    {
      if isFollowPin {
        s := new Shape.FollowPin(layer, net, rect);
        s.GenerateObstruction();
        s.rows := rows;
      } else {
        s := new Shape(layer, net, rect, wireType);
        s.shapeType := shapeType;
        s.obs := obs;
        s.iterms := iterms;
        s.bterms := bterms;
      }
    }

    /** Recomputes the obstruction from the rectangle and the layer's rules. */
    method GenerateObstruction()
      requires layer != null
      modifies this`obs
      ensures obs == ObstructionOf(rect, layer)
      ensures Contains(obs, rect)
    {
      var width := Width(rect);
      var length := Length(rect);
      var dbSpacing := layer.spacing(width, length);
      var spacingRect := Bloat(rect, dbSpacing);
      var wrongWay := IsWrongWay();
      var tableRect := ApplyPrlRules(rect, width, length, wrongWay, layer.prlRules);
      var horizontal := IsHorizontal(rect);
      var eolRect := ApplyEolRules(rect, width, horizontal, layer.eolRules);
      obs := EmptyRect();
      obs := Geometry.Merge(obs, spacingRect);
      obs := Geometry.Merge(obs, tableRect);
      obs := Geometry.Merge(obs, eolRect);
      ObstructionContainsRect(rect, layer);
    }

    /** Shape::merge and FollowPinShape::merge: coalesces other into this shape. */
    method Merge(other: Shape)
      requires layer != null
      modifies this`rect, this`iterms, this`bterms, this`obs, this`rows
      ensures rect == Geometry.Merge(old(rect), old(other.rect))
      ensures iterms == old(iterms) + old(other.iterms)
      ensures bterms == old(bterms) + old(other.bterms)
      ensures obs == ObstructionOf(rect, layer)
      ensures rows == if isFollowPin && other.isFollowPin then old(rows) + old(other.rows) else old(rows)
      ensures other != this ==> unchanged(other)
      ensures Contains(rect, old(rect)) && Contains(rect, old(other.rect))
      ensures NumberOfConnections() >= old(NumberOfConnections())
      ensures WellFormed(old(rect)) && old(IsValid()) ==> IsValid()
    {
      ghost var before := rect;
      rect := Geometry.Merge(rect, other.rect);
      iterms := iterms + other.iterms;
      bterms := bterms + other.bterms;
      GenerateObstruction();
      if isFollowPin && other.isFollowPin {
        rows := rows + other.rows;
      }
      SubsetCard(old(iterms), iterms);
      SubsetCard(old(bterms), bterms);
      if WellFormed(before) && AreaValid(layer, before) {
        AreaValidGrows(layer, before, rect);
      }
    }

    /** Shape::updateTermConnections and FollowPinShape::updateTermConnections:
        drops the connections (and follow-pin rows) the rectangle no longer reaches. */
    method UpdateTermConnections()
      modifies this`iterms, this`bterms, this`rows
      ensures iterms == set t | t in old(iterms) && Overlaps(rect, t)
      ensures bterms == set t | t in old(bterms) && Overlaps(rect, t)
      ensures rows == if isFollowPin then set row | row in old(rows) && Intersects(rect, row.bbox) else old(rows)
      ensures NumberOfConnections() <= old(NumberOfConnections())
    {
      var removeIterms := NotOverlapping(rect, iterms);
      assert iterms - removeIterms == set t | t in iterms && Overlaps(rect, t);
      iterms := iterms - removeIterms;
      var removeBterms := NotOverlapping(rect, bterms);
      assert bterms - removeBterms == set t | t in bterms && Overlaps(rect, t);
      bterms := bterms - removeBterms;
      if isFollowPin {
        var removeRows := RowsApart(rect, rows);
        rows := rows - removeRows;
      }
      SubsetCard(iterms, old(iterms));
      SubsetCard(bterms, old(bterms));
    }

    /** Shape::getMinimumRect: the merge of all connection rectangles into mergeInit's
        inverted box, which is what is left when there are none. */
    method ShapeMinimumRect() returns (m: Rect)
      ensures IsMergeOf(m, EmptyRect(), ConnectionRects())
    {
      var m0 := EmptyRect();
      var m1 := MergeAll(m0, bterms);
      var m2 := MergeAll(m1, iterms);
      var viaAreas := set v | v in vias :: v.area;
      m := MergeAll(m2, viaAreas);
      IsMergeOfChain(m1, m2, m0, bterms, iterms);
      IsMergeOfChain(m2, m, m0, bterms + iterms, viaAreas);
    }

    /** getMinimumRect, dispatched: a follow-pin rail also keeps its full width and
        stretches along its axis over every row it powers. */
    method MinimumRect() returns (m: Rect)
      ensures !isFollowPin ==> IsMergeOf(m, EmptyRect(), ConnectionRects())
      ensures isFollowPin ==> CrossSpan(m, IsHorizontal(rect)) == CrossSpan(rect, IsHorizontal(rect))
      ensures isFollowPin ==>
        exists base ::
          IsMergeOf(base, EmptyRect(), ConnectionRects()) &&
          IsMergeOf(m, WithCrossOf(base, rect, IsHorizontal(rect)), RowSpans(rows, rect, IsHorizontal(rect)))
      ensures isFollowPin ==> forall row :: row in rows ==>
                AxisSpan(m, IsHorizontal(rect)).lo <= AxisSpan(row.bbox, IsHorizontal(rect)).lo &&
                AxisSpan(row.bbox, IsHorizontal(rect)).hi <= AxisSpan(m, IsHorizontal(rect)).hi
    {
      var base := ShapeMinimumRect();
      if !isFollowPin {
        return base;
      }
      var h := IsHorizontal(rect);
      var start := base;
      if h {
        start := start.(ylo := rect.ylo);
        start := start.(yhi := rect.yhi);
      } else {
        start := start.(xlo := rect.xlo);
        start := start.(xhi := rect.xhi);
      }
      assert start == WithCrossOf(base, rect, h);
      m := StretchOverRows(start, rect, rows, h);
      forall row | row in rows
        ensures AxisSpan(m, h).lo <= AxisSpan(row.bbox, h).lo && AxisSpan(row.bbox, h).hi <= AxisSpan(m, h).hi
      {
        assert RowSpan(row, rect, h) in RowSpans(rows, rect, h);
      }
    }

    /** The query loop of Shape::cut: the axis run of every hit entry's stretched obstruction. */
    method CollectViolations(tree: seq<TreeEntry>, h: bool) returns (violations: seq<Span>)
      ensures violations == Violations(tree, rect, layer, h)
      ensures violations != [] <==> exists i :: 0 <= i < |tree| && CutHit(tree[i], rect, layer)
    {
      violations := [];
      var i := 0;
      while i < |tree|
        invariant 0 <= i <= |tree|
        invariant violations == Violations(tree[..i], rect, layer, h)
        invariant violations != [] <==> exists j :: 0 <= j < i && CutHit(tree[j], rect, layer)
      {
        assert tree[..i + 1][..i] == tree[..i];
        var otherShape := tree[i].shape;
        if CutHit(tree[i], rect, layer) {
          var vio := otherShape.obs;
          if h {
            vio := vio.(ylo := Min(rect.ylo, vio.ylo));
            vio := vio.(yhi := Max(rect.yhi, vio.yhi));
          } else {
            vio := vio.(xlo := Min(rect.xlo, vio.xlo));
            vio := vio.(xhi := Max(rect.xhi, vio.xhi));
          }
          violations := violations + [AxisSpan(vio, h)];
        }
        i := i + 1;
      }
      assert tree[..i] == tree;
    }

    /** The append loop of Shape::cut: one copy per piece as wide as the shape,
        with its connections trimmed to the piece. */
    method AppendPieces(pieces: seq<Span>, h: bool, replacements: seq<Shape>) returns (result: seq<Shape>)
      requires isFollowPin ==> layer != null
      ensures |result| == |replacements| + |AcceptedRects(rect, pieces, h)|
      ensures result[..|replacements|] == replacements
      ensures forall q :: |replacements| <= q < |result| ==> fresh(result[q])
      ensures forall q :: 0 <= q < |AcceptedRects(rect, pieces, h)| ==>
                IsCutPiece(result[|replacements| + q], AcceptedRects(rect, pieces, h)[q])
    {
      result := replacements;
      var j := 0;
      while j < |pieces|
        invariant 0 <= j <= |pieces|
        invariant |result| == |replacements| + |AcceptedRects(rect, pieces[..j], h)|
        invariant result[..|replacements|] == replacements
        invariant forall q :: |replacements| <= q < |result| ==> fresh(result[q])
        invariant forall q :: 0 <= q < |AcceptedRects(rect, pieces[..j], h)| ==>
                    IsCutPiece(result[|replacements| + q], AcceptedRects(rect, pieces[..j], h)[q])
      {
        assert pieces[..j + 1][..j] == pieces[..j];
        var newRect := PieceRect(rect, pieces[j], h);
        var accept := false;
        if h {
          accept := Dy(rect) == Dy(newRect);
        } else {
          accept := Dx(rect) == Dx(newRect);
        }
        ghost var prev := AcceptedRects(rect, pieces[..j], h);
        assert AcceptedRects(rect, pieces[..j + 1], h) == prev + (if accept then [newRect] else []);
        if accept {
          var s := Copy();
          s.rect := newRect;
          s.UpdateTermConnections();
          assert IsCutPiece(s, newRect);
          result := result + [s];
        }
        j := j + 1;
      }
      assert pieces[..j] == pieces;
    }

    /** Shape::cut: splits the shape around the obstructions the tree holds on its layer.
        Returns false, adding nothing, when no entry is hit; otherwise appends one replacement
        per remaining full-width piece (possibly none) and returns true. */
    method ShapeCut(tree: seq<TreeEntry>, replacements: seq<Shape>) returns (cut: bool, result: seq<Shape>)
      requires isFollowPin ==> layer != null
      ensures cut <==> exists i :: 0 <= i < |tree| && CutHit(tree[i], rect, layer)
      ensures !cut ==> result == replacements
      ensures cut ==> |result| == |replacements| + |CutRects(tree, rect, layer)|
      ensures |result| >= |replacements| && result[..|replacements|] == replacements
      ensures forall q :: |replacements| <= q < |result| ==> fresh(result[q])
      ensures cut ==> forall k :: 0 <= k < |CutRects(tree, rect, layer)| ==>
                IsCutPiece(result[|replacements| + k], CutRects(tree, rect, layer)[k])
    {
      assert forall o | o in ShapesOf(tree) :: allocated(o);
      var h := IsHorizontal(rect);
      var violations := CollectViolations(tree, h);
      if violations == [] {
        return false, replacements;
      }
      var pieces := SubtractAll(InitialPieces(rect, h), violations);
      result := AppendPieces(pieces, h, replacements);
      cut := true;
    }

    /** The tree cut actually queries: a follow-pin rail ignores grid-level obstructions. */
    ghost function CutTree(tree: seq<TreeEntry>): seq<TreeEntry>
      reads ShapesOf(tree)
    {
      if isFollowPin then NonGridObs(tree) else tree
    }

    /** cut, dispatched: FollowPinShape::cut drops the grid obstructions, then cuts as a Shape. */
    method Cut(tree: seq<TreeEntry>, replacements: seq<Shape>) returns (cut: bool, result: seq<Shape>)
      requires isFollowPin ==> layer != null
      ensures cut <==> exists i :: 0 <= i < |CutTree(tree)| && CutHit(CutTree(tree)[i], rect, layer)
      ensures !cut ==> result == replacements
      ensures cut ==> |result| == |replacements| + |CutRects(CutTree(tree), rect, layer)|
      ensures |result| >= |replacements| && result[..|replacements|] == replacements
      ensures forall q :: |replacements| <= q < |result| ==> fresh(result[q])
      ensures cut ==> forall k :: 0 <= k < |CutRects(CutTree(tree), rect, layer)| ==>
                IsCutPiece(result[|replacements| + k], CutRects(CutTree(tree), rect, layer)[k])
    {
      var effective := tree;
      if isFollowPin {
        effective := WithoutGridObstructions(tree);
      }
      assert effective == CutTree(tree);
      assert forall o | o in ShapesOf(tree) :: allocated(o);
      cut, result := ShapeCut(effective, replacements);
      // the tree's shapes were allocated before the call, so CutTree still reads the same values
      assert effective == CutTree(tree);
    }

    /** Shape::extendTo: a copy grown along the shape's axis to reach target, or null when
        the shape is square, nothing would change, or another tree entry is in the way. */
    method ExtendTo(target: Rect, tree: seq<TreeEntry>) returns (s: Shape?)
      requires isFollowPin ==> layer != null
      ensures s == null <==>
                !(IsHorizontal(rect) || IsVertical(rect)) ||
                GrownRect(rect, target) == rect ||
                exists i :: 0 <= i < |tree| && Intersects(tree[i].box, GrownRect(rect, target)) && tree[i].shape != this
      ensures s != null ==> fresh(s) && DerivedFrom(s) && s.rect == GrownRect(rect, target)
      ensures s != null ==> s.iterms == (if isFollowPin then {} else iterms) &&
                            s.bterms == (if isFollowPin then {} else bterms) &&
                            s.rows == (if isFollowPin then rows else {})
    {
      var newShape := Copy();
      if IsHorizontal(rect) {
        newShape.rect := newShape.rect.(xlo := Min(rect.xlo, target.xlo));
        newShape.rect := newShape.rect.(xhi := Max(rect.xhi, target.xhi));
      } else if IsVertical(rect) {
        newShape.rect := newShape.rect.(ylo := Min(rect.ylo, target.ylo));
        newShape.rect := newShape.rect.(yhi := Max(rect.yhi, target.yhi));
      } else {
        return null;
      }
      if rect == newShape.rect {
        return null;
      }
      var blocked := AnyOtherIntersecting(tree, newShape.rect, this);
      if blocked {
        return null;
      }
      return newShape;
    }
  }

  lemma SubsetCard<T>(a: set<T>, b: set<T>)
    requires a <= b
    ensures |a| <= |b|
  {
    assert b == a + (b - a);
    assert a * (b - a) == {};
  }

  /** The materialised via between a lower and an upper shape. */
  class Via {
    const net: Net?
    const area: Rect
    var lower: Shape?
    var upper: Shape?

    constructor (net: Net?, area: Rect, lower: Shape?, upper: Shape?)
      ensures Net() == net && Area() == area && LowerShape() == lower && UpperShape() == upper
    {
      this.net := net;
      this.area := area;
      this.lower := lower;
      this.upper := upper;
    }

    function Net(): Net? reads this { net }
    function Area(): Rect reads this { area }
    function LowerShape(): Shape? reads this { lower }
    function UpperShape(): Shape? reads this { upper }

    /** Replaces only the lower endpoint. */
    method SetLowerShape(shape: Shape?)
      modifies this`lower
      ensures LowerShape() == shape && UpperShape() == old(UpperShape())
      ensures Net() == old(Net()) && Area() == old(Area())
    {
      lower := shape;
    }

    /** Replaces only the upper endpoint. */
    method SetUpperShape(shape: Shape?)
      modifies this`upper
      ensures UpperShape() == shape && LowerShape() == old(LowerShape())
      ensures Net() == old(Net()) && Area() == old(Area())
    {
      upper := shape;
    }
  }
}
