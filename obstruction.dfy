/** The obstruction halo of Shape::generateObstruction: the bounding box of the
    rectangle bloated by the plain spacing rule, by the parallel-run-length
    spacing-table rules and by the end-of-line rules. */
module Obstruction {
  import opened Geometry
  import opened Tech

  /** isWrongWay, as written: the shape runs along the layer's own direction. */
  predicate WrongWay(r: Rect, dir: Direction) {
    (IsHorizontal(r) && dir == Horizontal) || (IsVertical(r) && dir == Vertical)
  }

  /** A spacing-table rule is skipped when it is the wrong-direction table and the shape is not wrong-way. */
  predicate PrlApplies(rule: PrlRule, wrongWay: bool) {
    !(rule.wrongDirection && !wrongWay)
  }

  /** The box one applicable spacing-table rule asks for. */
  function PrlRuleRect(r: Rect, rule: PrlRule, width: int, length: int): Rect {
    Bloat(r, rule.spacing(width, length))
  }

  /** The spacing-table rectangle after the given rules: it starts at r and merges in
      the bloat of every applicable rule. */
  function PrlBloat(r: Rect, width: int, length: int, wrongWay: bool, rules: seq<PrlRule>): Rect
    decreases |rules|
  {
    if rules == [] then r
    else
      var acc := PrlBloat(r, width, length, wrongWay, rules[..|rules| - 1]);
      var rule := rules[|rules| - 1];
      if PrlApplies(rule, wrongWay) then Merge(acc, PrlRuleRect(r, rule, width, length)) else acc
  }

  /** An end-of-line rule applies to wires no wider than its eolWidth. */
  predicate EolApplies(rule: EolRule, width: int) { width <= rule.eolWidth }

  /** The box one applicable end-of-line rule asks for: only the two ends move, along the axis. */
  function EolRuleRect(r: Rect, horizontal: bool, space: int): Rect {
    if horizontal then r.(xlo := r.xlo - space, xhi := r.xhi + space)
    else r.(ylo := r.ylo - space, yhi := r.yhi + space)
  }

  /** The end-of-line rectangle after the given rules: it starts at r and merges in
      the box of every applicable rule. */
  function EolBloat(r: Rect, width: int, horizontal: bool, rules: seq<EolRule>): Rect
    decreases |rules|
  {
    if rules == [] then r
    else
      var acc := EolBloat(r, width, horizontal, rules[..|rules| - 1]);
      var rule := rules[|rules| - 1];
      if EolApplies(rule, width) then Merge(acc, EolRuleRect(r, horizontal, rule.eolSpace)) else acc
  }

  /** The plain spacing rule's box. */
  function SpacingRect(r: Rect, layer: Layer): Rect {
    Bloat(r, layer.spacing(Width(r), Length(r)))
  }

  /** What generateObstruction stores in obs_: mergeInit, then the three boxes merged in. */
  function ObstructionOf(r: Rect, layer: Layer): Rect {
    var prl := PrlBloat(r, Width(r), Length(r), WrongWay(r, layer.direction), layer.prlRules);
    var eol := EolBloat(r, Width(r), IsHorizontal(r), layer.eolRules);
    Merge(Merge(Merge(EmptyRect(), SpacingRect(r, layer)), prl), eol)
  }

  /** The spacing-table rectangle contains r and every applicable rule's box... */
  lemma {:induction false} PrlBloatCovers(r: Rect, width: int, length: int, wrongWay: bool, rules: seq<PrlRule>)
    ensures Contains(PrlBloat(r, width, length, wrongWay, rules), r)
    ensures forall i :: 0 <= i < |rules| && PrlApplies(rules[i], wrongWay) ==>
              Contains(PrlBloat(r, width, length, wrongWay, rules), PrlRuleRect(r, rules[i], width, length))
    decreases |rules|
  {
    if rules != [] {
      var n := |rules| - 1;
      PrlBloatCovers(r, width, length, wrongWay, rules[..n]);
      assert forall i :: 0 <= i < n ==> rules[..n][i] == rules[i];
    }
  }

  /** ...and lies inside every box that contains them: it is their bounding box.
      A skipped rule therefore has no effect. */
  lemma {:induction false} PrlBloatLeast(r: Rect, width: int, length: int, wrongWay: bool, rules: seq<PrlRule>, c: Rect)
    requires Contains(c, r)
    requires forall i :: 0 <= i < |rules| && PrlApplies(rules[i], wrongWay) ==>
               Contains(c, PrlRuleRect(r, rules[i], width, length))
    ensures Contains(c, PrlBloat(r, width, length, wrongWay, rules))
    decreases |rules|
  {
    if rules != [] {
      var n := |rules| - 1;
      assert forall i :: 0 <= i < n ==> rules[..n][i] == rules[i];
      PrlBloatLeast(r, width, length, wrongWay, rules[..n], c);
    }
  }

  /** The end-of-line rectangle contains r and every applicable rule's box... */
  lemma {:induction false} EolBloatCovers(r: Rect, width: int, horizontal: bool, rules: seq<EolRule>)
    ensures Contains(EolBloat(r, width, horizontal, rules), r)
    ensures forall i :: 0 <= i < |rules| && EolApplies(rules[i], width) ==>
              Contains(EolBloat(r, width, horizontal, rules), EolRuleRect(r, horizontal, rules[i].eolSpace))
    decreases |rules|
  {
    if rules != [] {
      var n := |rules| - 1;
      EolBloatCovers(r, width, horizontal, rules[..n]);
      assert forall i :: 0 <= i < n ==> rules[..n][i] == rules[i];
    }
  }

  /** ...and lies inside every box that contains them, so a rule for wider wires has no effect. */
  lemma {:induction false} EolBloatLeast(r: Rect, width: int, horizontal: bool, rules: seq<EolRule>, c: Rect)
    requires Contains(c, r)
    requires forall i :: 0 <= i < |rules| && EolApplies(rules[i], width) ==>
               Contains(c, EolRuleRect(r, horizontal, rules[i].eolSpace))
    ensures Contains(c, EolBloat(r, width, horizontal, rules))
    decreases |rules|
  {
    if rules != [] {
      var n := |rules| - 1;
      assert forall i :: 0 <= i < n ==> rules[..n][i] == rules[i];
      EolBloatLeast(r, width, horizontal, rules[..n], c);
    }
  }

  /** End-of-line rules only move the two ends: the cross-axis extent stays r's. */
  lemma {:induction false} EolBloatAlongAxis(r: Rect, width: int, horizontal: bool, rules: seq<EolRule>)
    ensures var e := EolBloat(r, width, horizontal, rules);
            if horizontal then e.ylo == r.ylo && e.yhi == r.yhi else e.xlo == r.xlo && e.xhi == r.xhi
    decreases |rules|
  {
    if rules != [] {
      EolBloatAlongAxis(r, width, horizontal, rules[..|rules| - 1]);
    }
  }

  /** The obstruction always contains the shape's rectangle, whatever the rules' signs. */
  lemma ObstructionContainsRect(r: Rect, layer: Layer)
    ensures Contains(ObstructionOf(r, layer), r)
  {
    PrlBloatCovers(r, Width(r), Length(r), WrongWay(r, layer.direction), layer.prlRules);
  }

  /** When the spacing box fits 32 bits, the obstruction is exactly the bounding box of
      the spacing box, the spacing-table rectangle and the end-of-line rectangle. */
  lemma ObstructionIsBoundingBox(r: Rect, layer: Layer)
    requires Fits32(SpacingRect(r, layer))
    ensures var prl := PrlBloat(r, Width(r), Length(r), WrongWay(r, layer.direction), layer.prlRules);
            var eol := EolBloat(r, Width(r), IsHorizontal(r), layer.eolRules);
            ObstructionOf(r, layer) == Merge(Merge(SpacingRect(r, layer), prl), eol)
  {
  }

  /** Computes the spacing-table rectangle the way the rule loop does. */
  method ApplyPrlRules(r: Rect, width: int, length: int, wrongWay: bool, rules: seq<PrlRule>) returns (acc: Rect)
    ensures acc == PrlBloat(r, width, length, wrongWay, rules)
  {
    acc := r;
    var i := 0;
    while i < |rules|
      invariant 0 <= i <= |rules|
      invariant acc == PrlBloat(r, width, length, wrongWay, rules[..i])
    {
      assert rules[..i + 1][..i] == rules[..i];
      var rule := rules[i];
      if !PrlApplies(rule, wrongWay) {
        i := i + 1;
        continue;
      }
      var spacing := rule.spacing(width, length);
      var ruleRect := Bloat(r, spacing);
      acc := Merge(acc, ruleRect);
      i := i + 1;
    }
    assert rules[..i] == rules;
  }

  /** Computes the end-of-line rectangle the way the rule loop does. */
  method ApplyEolRules(r: Rect, width: int, horizontal: bool, rules: seq<EolRule>) returns (acc: Rect)
    ensures acc == EolBloat(r, width, horizontal, rules)
  {
    acc := r;
    var i := 0;
    while i < |rules|
      invariant 0 <= i <= |rules|
      invariant acc == EolBloat(r, width, horizontal, rules[..i])
    {
      assert rules[..i + 1][..i] == rules[..i];
      var rule := rules[i];
      if width > rule.eolWidth {
        i := i + 1;
        continue;
      }
      var space := rule.eolSpace;
      var ruleRect := r;
      if horizontal {
        ruleRect := ruleRect.(xlo := ruleRect.xlo - space);
        ruleRect := ruleRect.(xhi := ruleRect.xhi + space);
      } else {
        ruleRect := ruleRect.(ylo := ruleRect.ylo - space);
        ruleRect := ruleRect.(yhi := ruleRect.yhi + space);
      }
      acc := Merge(acc, ruleRect);
      i := i + 1;
    }
    assert rules[..i] == rules;
  }
}
