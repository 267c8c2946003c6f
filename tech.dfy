/** The technology objects the shape engine consults: layers with their rules,
    nets and placement rows. The database owns them; here they only carry what
    the engine reads from them. */
module Tech {
  import opened Geometry

  /** dbTechLayerDir: a routing layer's preferred direction. */
  datatype Direction = NoDirection | Horizontal | Vertical

  /** A parallel-run-length spacing-table rule: whether it is the wrong-direction
      table, and its spacing as a function of (width, length). */
  datatype PrlRule = PrlRule(wrongDirection: bool, spacing: (int, int) -> int)

  /** An end-of-line spacing rule: it applies to wires no wider than eolWidth. */
  datatype EolRule = EolRule(eolWidth: int, eolSpace: int)

  /** A routing layer (odb::dbTechLayer) and the rules the engine asks it for. */
  class Layer {
    const direction: Direction
    /** hasArea() and getArea(): the minimum-area rule, when there is one. */
    const hasArea: bool
    const minArea: int
    /** TechLayer::getSpacing(width, length). */
    const spacing: (int, int) -> int
    const prlRules: seq<PrlRule>
    const eolRules: seq<EolRule>

    constructor (direction: Direction, hasArea: bool, minArea: int, spacing: (int, int) -> int,
                 prlRules: seq<PrlRule>, eolRules: seq<EolRule>)
      ensures this.direction == direction && this.hasArea == hasArea && this.minArea == minArea
      ensures this.spacing == spacing && this.prlRules == prlRules && this.eolRules == eolRules
    {
      this.direction := direction;
      this.hasArea := hasArea;
      this.minArea := minArea;
      this.spacing := spacing;
      this.prlRules := prlRules;
      this.eolRules := eolRules;
    }
  }

  /** A net (odb::dbNet); only its identity matters here. */
  class Net {
    constructor ()
    {
    }
  }

  /** A placement row (odb::dbRow) and its bounding box. */
  class Row {
    const bbox: Rect

    constructor (bbox: Rect)
      ensures this.bbox == bbox
    {
      this.bbox := bbox;
    }
  }
}
