/** The via-planning classes of the power-grid generator, as far as their bodies are
    inline: the patch rule of the built vias and the state of a via generator. */
module Vias {
  import opened Geometry

  /** A cut-class rule of the technology (odb::dbTechLayerCutClassRule); only its identity matters. */
  class CutClassRule {
    constructor ()
    {
    }
  }

  /** The DbVia family: the vias a generator builds in the database. A tech via
      carries its array shape; the others carry nothing the patch rule looks at. */
  datatype DbVia =
    | TechVia(rows: int, rowPitch: int, cols: int, colPitch: int)
    | GenerateVia
    | SplitCutVia
    | ArrayVia
    | GenerateStackedVia
    | GenerateDummyVia

  /** requiresPatch, with DbTechVia's and DbArrayVia's overrides of DbVia's default. */
  function RequiresPatch(v: DbVia): (patch: bool)
    ensures patch <==> v.ArrayVia? || (v.TechVia? && (v.rows > 1 || v.cols > 1))
    ensures v.TechVia? && v.rows <= 1 && v.cols <= 1 ==> !patch
  {
    match v
    case TechVia(rows, _, cols, _) => rows > 1 || cols > 1
    case ArrayVia => true
    case _ => false
  }

  /** Every field of a ViaGenerator at one moment. */
  datatype GeneratorState = GeneratorState(
    lowerRect: Rect, upperRect: Rect, intersectionRect: Rect, cut: Rect, cutClass: CutClassRule?,
    cutPitchX: int, cutPitchY: int, maxRows: int, maxCols: int,
    coreRow: int, coreCol: int, endRow: int, endCol: int,
    splitCutsBottom: bool, splitCutsTop: bool,
    arraySpacingX: int, arraySpacingY: int, arrayCoreX: int, arrayCoreY: int,
    bottomXEnclosure: int, bottomYEnclosure: int, topXEnclosure: int, topYEnclosure: int)

  /** The shared state of GenerateViaGenerator and TechViaGenerator. */
  class ViaGenerator {
    var lowerRect: Rect
    var upperRect: Rect
    var intersectionRect: Rect
    var cut: Rect
    var cutClass: CutClassRule?
    var cutPitchX: int
    var cutPitchY: int
    var maxRows: int
    var maxCols: int
    var coreRow: int
    var coreCol: int
    var endRow: int
    var endCol: int
    var splitCutsBottom: bool
    var splitCutsTop: bool
    var arraySpacingX: int
    var arraySpacingY: int
    var arrayCoreX: int
    var arrayCoreY: int
    var bottomXEnclosure: int
    var bottomYEnclosure: int
    var topXEnclosure: int
    var topYEnclosure: int

    ghost function State(): GeneratorState
      reads this
    {
      GeneratorState(lowerRect, upperRect, intersectionRect, cut, cutClass,
                     cutPitchX, cutPitchY, maxRows, maxCols,
                     coreRow, coreCol, endRow, endCol,
                     splitCutsBottom, splitCutsTop,
                     arraySpacingX, arraySpacingY, arrayCoreX, arrayCoreY,
                     bottomXEnclosure, bottomYEnclosure, topXEnclosure, topYEnclosure)
    }

    /** Starts from the given field values; the computing constructor is not part of this model.
        Each getter then returns its field's initial value. */
    constructor (init: GeneratorState)
      ensures State() == init
      ensures Cut() == init.cut && CutClass() == init.cutClass
      ensures CutPitchX() == init.cutPitchX && CutPitchY() == init.cutPitchY
      ensures LowerRect() == init.lowerRect && UpperRect() == init.upperRect
      ensures IntersectionRect() == init.intersectionRect
      ensures BottomEnclosureX() == init.bottomXEnclosure && BottomEnclosureY() == init.bottomYEnclosure
      ensures TopEnclosureX() == init.topXEnclosure && TopEnclosureY() == init.topYEnclosure
      ensures MaxRows() == init.maxRows && MaxColumns() == init.maxCols
      ensures ViaCoreRows() == init.coreRow && ViaCoreColumns() == init.coreCol
      ensures ViaLastRows() == init.endRow && ViaLastColumns() == init.endCol
      ensures ArraySpacingX() == init.arraySpacingX && ArraySpacingY() == init.arraySpacingY
      ensures ArrayCoresX() == init.arrayCoreX && ArrayCoresY() == init.arrayCoreY
    {
      lowerRect, upperRect, intersectionRect, cut, cutClass := init.lowerRect, init.upperRect, init.intersectionRect, init.cut, init.cutClass;
      cutPitchX, cutPitchY, maxRows, maxCols := init.cutPitchX, init.cutPitchY, init.maxRows, init.maxCols;
      coreRow, coreCol, endRow, endCol := init.coreRow, init.coreCol, init.endRow, init.endCol;
      splitCutsBottom, splitCutsTop := init.splitCutsBottom, init.splitCutsTop;
      arraySpacingX, arraySpacingY, arrayCoreX, arrayCoreY := init.arraySpacingX, init.arraySpacingY, init.arrayCoreX, init.arrayCoreY;
      bottomXEnclosure, bottomYEnclosure := init.bottomXEnclosure, init.bottomYEnclosure;
      topXEnclosure, topYEnclosure := init.topXEnclosure, init.topYEnclosure;
    }

    function Cut(): Rect reads this { cut }
    function CutPitchX(): int reads this { cutPitchX }
    function CutPitchY(): int reads this { cutPitchY }
    function CutClass(): CutClassRule? reads this { cutClass }
    function LowerRect(): Rect reads this { lowerRect }
    function UpperRect(): Rect reads this { upperRect }
    function IntersectionRect(): Rect reads this { intersectionRect }
    function BottomEnclosureX(): int reads this { bottomXEnclosure }
    function BottomEnclosureY(): int reads this { bottomYEnclosure }
    function TopEnclosureX(): int reads this { topXEnclosure }
    function TopEnclosureY(): int reads this { topYEnclosure }
    function MaxRows(): int reads this { maxRows }
    function MaxColumns(): int reads this { maxCols }
    function ViaCoreRows(): int reads this { coreRow }
    function ViaCoreColumns(): int reads this { coreCol }
    function ViaLastRows(): int reads this { endRow }
    function ViaLastColumns(): int reads this { endCol }
    function ArraySpacingX(): int reads this { arraySpacingX }
    function ArraySpacingY(): int reads this { arraySpacingY }
    function ArrayCoresX(): int reads this { arrayCoreX }
    function ArrayCoresY(): int reads this { arrayCoreY }

    function HasCutClass(): (has: bool)
      reads this
      ensures has <==> CutClass() != null
    {
      cutClass != null
    }

    /** The cuts are split on either layer. */
    function IsSplitCutArray(): (split: bool)
      reads this
      ensures split <==> splitCutsTop || splitCutsBottom
    {
      splitCutsTop || splitCutsBottom
    }

    /** An unsplit via whose core is repeated in some direction. */
    function IsCutArray(): (cutArray: bool)
      reads this
      ensures cutArray ==> !IsSplitCutArray()
      ensures !IsSplitCutArray() ==> (cutArray <==> ArrayCoresX() != 1 || ArrayCoresY() != 1)
    {
      !IsSplitCutArray() && (arrayCoreX != 1 || arrayCoreY != 1)
    }

    function HasViaLastRows(): (has: bool)
      reads this
      ensures has <==> ViaLastRows() != 0
    {
      endRow != 0
    }

    function HasViaLastColumns(): (has: bool)
      reads this
      ensures has <==> ViaLastColumns() != 0
    {
      endCol != 0
    }

    method SetCutPitchX(pitch: int)
      modifies this`cutPitchX
      ensures CutPitchX() == pitch
      ensures State() == old(State()).(cutPitchX := pitch)
    {
      cutPitchX := pitch;
    }

    method SetCutPitchY(pitch: int)
      modifies this`cutPitchY
      ensures CutPitchY() == pitch
      ensures State() == old(State()).(cutPitchY := pitch)
    {
      cutPitchY := pitch;
    }

    method SetMaxRows(rows: int)
      modifies this`maxRows
      ensures MaxRows() == rows
      ensures State() == old(State()).(maxRows := rows)
    {
      maxRows := rows;
    }

    method SetMaxColumns(columns: int)
      modifies this`maxCols
      ensures MaxColumns() == columns
      ensures State() == old(State()).(maxCols := columns)
    {
      maxCols := columns;
    }
  }
}
