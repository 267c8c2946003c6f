# Power-grid shapes, via state and segment styles

This project models three pieces of OpenROAD.

- **The power-distribution-network `Shape` engine** (`src/pdn/src/shape.cpp`). A `Shape` is an integer rectangle on one routing layer. It carries three things:
  - an obstruction halo derived from the layer's spacing rules;
  - the iterm and bterm rectangles it connects to;
  - the vias that land on it.

  The engine builds the halo (`generateObstruction`), coalesces shapes (`merge`) and splits a shape around obstructions (`cut`). It grows a shape towards a target (`extendTo`), trims stale connections (`updateTermConnections`) and computes the smallest rectangle that still reaches every connection (`getMinimumRect`). A `FollowPinShape` is a standard-cell rail. It also tracks the placement rows it powers, ignores grid-level obstructions when cut, and keeps its full width and row span in its minimum rectangle.
- **The inline parts of `src/pdn/src/via.h`.** These are:
  - the patch rule of the `DbVia` family;
  - the state of a `ViaGenerator`, with its classification predicates, setters and getters;
  - the endpoint setters of `Via`.
- **The detailed router's segment style** (`src/drt/src/db/infra/frSegStyle.h`): `frEndStyle` and `frSegStyle`.

The files follow that structure:

- `geometry.dfy` (`Geometry`): `odb::Rect` as a closed integer box, with `merge`, `bloat`, `overlaps`, `intersects` and `mergeInit`. It also defines what merging a set of boxes into a start box gives (`IsMergeOf`).
- `tech.dfy` (`Tech`): the layer, net and row objects the engine consults. A layer's rules are inputs: a spacing function of (width, length), parallel-run-length table rules and end-of-line rules.
- `obstruction.dfy` (`Obstruction`): the obstruction halo as a function of the rectangle and the layer, plus the two rule loops that compute it.
- `strips.dfy` (`Strips`): interval subtraction along a shape's axis. This is what `cut`'s polygon subtraction does once every obstruction has been stretched across the shape's full width.
- `shape.dfy` (`Shapes`): the `Shape` class. Its virtual operations dispatch on `isFollowPin`. The file also holds the `Via` class, because shapes and vias refer to each other.
- `via.dfy` (`Vias`): `DbVia`'s patch rule and the `ViaGenerator` class.
- `seg_style.dfy` (`SegStyles`): `frEndStyle` and `frSegStyle`.

### Assumptions about code that is not part of this model

`geom.h` and `shape.h` are not part of this model, so their behaviour is assumed as follows:

- `Rect::overlaps` asks whether the interiors meet. `Rect::intersects` and the R-tree's `intersects` ask whether the closed boxes meet.
- `Rect::merge` is the componentwise min/max. `mergeInit` stores the inverted sentinel (INT_MAX, INT_MAX, INT_MIN, INT_MIN).
- `bloat` and the corner constructor order the corners.
- A shape's width is the smaller side and its length the larger. It is horizontal when dx > dy and vertical when dy > dx.
- `setRect` and `removeITermConnection`/`removeBTermConnection` are plain assignment and erasure.

`frBaseTypes.h` is not part of this model either. `frEndStyleEnum` is given the three styles the router names, and `frUInt4` is an unsigned 32-bit subset type.

### Where the model follows the code rather than its description

`isWrongWay` (src/pdn/src/shape.cpp:153-163) returns true when the shape's orientation *matches* the layer's preferred direction. Its name suggests the opposite: a shape running against the preferred direction. The model takes the code literally (`Obstruction.WrongWay`, `Shapes.Shape.IsWrongWay`). Consequently, a spacing-table rule marked wrong-direction is applied only to shapes that run along the layer's direction.

`extendTo` (src/pdn/src/shape.cpp:498-529) returns a copy whose rectangle is grown but whose obstruction is not regenerated. A plain shape's copy keeps the original obstruction, and a follow-pin copy keeps the obstruction built for the original rectangle. The returned shape's obstruction may therefore fail to contain its new rectangle. "The obstruction contains the rectangle" holds after the constructors, `GenerateObstruction` and `Merge`, but it is not an invariant of every shape. The model states the returned shape's relation to the original through `Shapes.Shape.DerivedFrom`, and it claims no such invariant.

### How `cut` is modelled

Lines 234-241 stretch every hit obstruction across the shape's whole cross-axis before it is subtracted. The polygon-set difference therefore removes whole strips, and the remainder is a sequence of full-width pieces along the axis.

The model represents those pieces as runs of unit cells. A run `Span(lo, hi)` covers the cells lo <= c < hi, which is the closed interval [lo, hi]. Details:

- An obstruction without extent along the axis removes nothing.
- A shape without area starts as no pieces at all.
- The width test of lines 283-290 is modelled as written. `Shapes.AllPiecesAccepted` proves it never rejects a piece.

## Model

| member | source | states |
|---|---|---|
| Geometry.Merge | src/pdn/src/shape.cpp:91-94 | `rect_.merge` gives a box containing both rectangles that lies inside every box containing both: their bounding box |
| Geometry.MergeFromEmpty | src/pdn/src/shape.cpp:188-208 | merging boxes that fit 32 bits into `mergeInit`'s sentinel gives their exact bounding box; merging none leaves the inverted sentinel |
| Geometry.IsMergeOfChain | src/pdn/src/shape.cpp:192-205 | merging one set and then another is the same as merging their union, as getMinimumRect's three loops do |
| Obstruction.ApplyPrlRules | src/pdn/src/shape.cpp:402-415 | the spacing-table loop computes `PrlBloat`: it starts at the rectangle and merges in each applicable rule's bloat |
| Obstruction.ApplyEolRules | src/pdn/src/shape.cpp:417-436 | the end-of-line loop computes `EolBloat`: it starts at the rectangle and merges in each applicable rule's end extension |
| Obstruction.PrlBloatCovers | src/pdn/src/shape.cpp:402-415 | the spacing-table rectangle contains the shape and the bloat of every rule that applies |
| Obstruction.PrlBloatLeast | src/pdn/src/shape.cpp:404-408 | the spacing-table rectangle lies inside every box that contains the shape and the applicable rules' bloats; a wrong-direction rule on a shape that is not wrong-way is skipped and has no effect |
| Obstruction.EolBloatCovers | src/pdn/src/shape.cpp:420-436 | the end-of-line rectangle contains the shape and the box of every rule for which width <= eolWidth |
| Obstruction.EolBloatLeast | src/pdn/src/shape.cpp:421-423 | the end-of-line rectangle lies inside every box that contains the shape and the applicable rules' boxes; a rule for narrower wires has no effect |
| Obstruction.EolBloatAlongAxis | src/pdn/src/shape.cpp:427-434 | end-of-line rules move only the two ends along the shape's axis: the cross-axis extent stays the shape's |
| Obstruction.ObstructionContainsRect | src/pdn/src/shape.cpp:438-442 | the obstruction always contains the shape's rectangle, whatever the signs of the rules' spacings |
| Obstruction.ObstructionIsBoundingBox | src/pdn/src/shape.cpp:397-442 | when the spacing box fits 32 bits, `mergeInit` drops out and the obstruction is exactly the bounding box of the spacing box, the spacing-table rectangle and the end-of-line rectangle |
| Strips.SubtractCells | src/pdn/src/shape.cpp:270-273 | a cell survives one subtraction exactly when it was covered and the violation misses it |
| Strips.RemainderCells | src/pdn/src/shape.cpp:270-273 | after all the subtractions, a cell is left exactly when the shape covered it and no violation covers it |
| Strips.RemainderShape | src/pdn/src/shape.cpp:270-276 | the remainder is a sequence of non-empty, increasing pieces with gaps between them, inside the shape's extent |
| Strips.RemainderOfNothing | src/pdn/src/shape.cpp:259-273 | subtracting from an empty polygon set leaves nothing |
| Shapes.Shape.constructor | src/pdn/src/shape.cpp:45-57 | a new shape has the given layer, net, rectangle and wire type; it is an ordinary shape whose obstruction is its rectangle, and it has no connections |
| Shapes.Shape.OfType | src/pdn/src/shape.cpp:59-70 | a shape without a net has wire type NONE, the given shape type and its rectangle as obstruction |
| Shapes.Shape.FollowPin | src/pdn/src/shape.cpp:533-538 | a follow-pin rail is an ordinary shape of wire type FOLLOWPIN |
| Shapes.Shape.Copy | src/pdn/src/shape.cpp:81-89 | a copy is fresh, with the same layer, net and rectangle and no vias. A plain copy keeps shape type, obstruction and terminal connections. A follow-pin copy (lines 540-546) regenerates its obstruction and keeps the rows but not the terminal connections |
| Shapes.Shape.GenerateObstruction | src/pdn/src/shape.cpp:391-443 | the new obstruction is `ObstructionOf(rect, layer)` and contains the rectangle; nothing else changes |
| Shapes.Shape.Merge | src/pdn/src/shape.cpp:91-99 | the rectangle becomes the bounding box of both; iterms and bterms become unions; the obstruction is regenerated; rows are unioned only when both shapes are follow-pins (lines 548-558); the other shape is unchanged; the connection count does not decrease; a valid well-formed shape stays valid |
| Shapes.Shape.UpdateTermConnections | src/pdn/src/shape.cpp:165-186 | exactly the iterms and bterms that overlap the rectangle are kept and the others removed; a follow-pin rail (lines 560-578) also keeps exactly the rows whose box intersects it; the connection count does not grow |
| Shapes.NotOverlapping | src/pdn/src/shape.cpp:167-172 | the terminals marked for removal are exactly those that do not overlap the rectangle |
| Shapes.RowsApart | src/pdn/src/shape.cpp:565-572 | the rows marked for removal are exactly those whose box misses the rectangle |
| Shapes.Shape.ShapeMinimumRect | src/pdn/src/shape.cpp:188-208 | the result is the merge of every bterm, iterm and via area into `mergeInit`'s sentinel |
| Shapes.MergeAll | src/pdn/src/shape.cpp:193-205 | each merge loop merges every rectangle of its set into the accumulator |
| Shapes.Shape.MinimumRect | src/pdn/src/shape.cpp:580-609 | a plain shape returns the merge of its connections (lines 188-208). A follow-pin rail keeps its own cross-axis extent, and along its axis the result is the connections' merge widened over every row; every row's axis run lies inside it |
| Shapes.StretchOverRows | src/pdn/src/shape.cpp:594-606 | the row loop widens the result's axis run over each row's and leaves the cross-axis run alone |
| Shapes.StretchAcross | src/pdn/src/shape.cpp:234-241 | a stretched violation keeps its axis run and spans at least the shape's whole cross-axis |
| Shapes.Shape.CollectViolations | src/pdn/src/shape.cpp:221-252 | the query loop collects one axis run per tree entry that intersects the rectangle on the same layer or no layer, in tree order; it collects none exactly when no entry is hit |
| Shapes.SubtractAll | src/pdn/src/shape.cpp:270-273 | the subtraction loop computes the remainder of the shape after every violation |
| Shapes.Shape.AppendPieces | src/pdn/src/shape.cpp:275-297 | one fresh replacement per piece that passes the width test is appended, after the existing entries and in order. Each replacement is a copy of the shape set to the piece's rectangle, with its connections trimmed to that rectangle |
| Shapes.Shape.ShapeCut | src/pdn/src/shape.cpp:210-299 | cut returns false and appends nothing exactly when no entry is hit; otherwise it returns true and appends one replacement per remaining full-width piece, possibly none |
| Shapes.Shape.Cut | src/pdn/src/shape.cpp:611-625 | the dispatched cut: a follow-pin rail first drops every grid-level obstruction from the tree |
| Shapes.WithoutGridObstructions | src/pdn/src/shape.cpp:614-622 | the filter loop keeps the entries whose shape is not a grid obstruction, in order |
| Shapes.NonGridObsMembers | src/pdn/src/shape.cpp:614-622 | an entry survives the filter exactly when it is in the tree and its shape is not a grid obstruction |
| Shapes.AllPiecesAccepted | src/pdn/src/shape.cpp:278-297 | when the shape has width, every remaining piece passes the width test, so each piece yields one replacement |
| Shapes.CutPieces | src/pdn/src/shape.cpp:259-297 | the pieces are separated, lie inside the shape's axis extent, and exist only when the shape has width; the replacement rectangles are the full-width rectangles over them |
| Shapes.CutRectsFullWidth | src/pdn/src/shape.cpp:278-293 | every replacement rectangle is well formed, lies within the original and has the original's cross-axis extent |
| Shapes.CutRectsCells | src/pdn/src/shape.cpp:221-297 | a cell along the axis is in some replacement exactly when it is in the shape, the shape has width, and no hit obstruction covers it |
| Shapes.GrownRect | src/pdn/src/shape.cpp:503-511 | the grown rectangle contains the original, keeps its cross-axis extent and covers the target's axis run; each axis end is the original's or the target's |
| Shapes.AnyOtherIntersecting | src/pdn/src/shape.cpp:518-522 | the R-tree query of extendTo finds an entry exactly when one intersects the grown rectangle and belongs to another shape |
| Shapes.Shape.ExtendTo | src/pdn/src/shape.cpp:498-529 | the result is null exactly when the shape is square, the grown rectangle equals the old one, or another shape's entry intersects the grown rectangle. Otherwise it is a fresh copy whose rectangle is the grown one |
| Shapes.Shape.IsValid | src/pdn/src/shape.cpp:141-151 | a shape is valid unless its layer has a minimum area and the rectangle's area is below it |
| Shapes.AreaValidGrows | src/pdn/src/shape.cpp:141-151 | growing a well-formed rectangle never breaks the minimum-area rule |
| Shapes.Shape.IsWrongWay | src/pdn/src/shape.cpp:153-163 | true exactly when the shape runs along its layer's preferred direction (`WrongWay`, the predicate the obstruction uses) |
| Shapes.Shape.IsRemovable | src/pdn/src/shape.cpp:462-479 | since a shape is always modifiable, it is removable exactly when vias, iterms and bterms (counted by getNumberOfConnections, lines 112-115) number fewer than two together |
| Shapes.Via.constructor | src/pdn/src/via.h:555-567 | a via holds its net, its area and its two endpoint shapes, as `getNet`, `getArea`, `getLowerShape` and `getUpperShape` return them |
| Shapes.Via.SetLowerShape | src/pdn/src/via.h:564-565 | after `setLowerShape`, `getLowerShape` returns the given shape; `getUpperShape`, `getNet` and `getArea` return what they returned before |
| Shapes.Via.SetUpperShape | src/pdn/src/via.h:566-567 | after `setUpperShape`, `getUpperShape` returns the given shape; `getLowerShape`, `getNet` and `getArea` return what they returned before |
| Vias.RequiresPatch | src/pdn/src/via.h:106-253 | DbVia's default (line 106) and its two overrides (lines 136 and 253): an array via always needs a patch, a tech via needs one exactly when it has more than one row or column, and every other via never does |
| Vias.ViaGenerator.constructor | src/pdn/src/via.h:323-405 | the generator starts from the given field values, and each getter (`getCut`, `getCutPitchX`, ..., `getArrayCoresY`) then returns the initial value of its own field |
| Vias.ViaGenerator.HasCutClass | src/pdn/src/via.h:334-335 | a cut class is present exactly when `cutclass_` is not null |
| Vias.ViaGenerator.IsSplitCutArray | src/pdn/src/via.h:359 | the cuts are split exactly when they are split on the top or the bottom layer |
| Vias.ViaGenerator.IsCutArray | src/pdn/src/via.h:360-363 | a split via is never a cut array; an unsplit one is a cut array exactly when its core repeats in x or y |
| Vias.ViaGenerator.HasViaLastRows | src/pdn/src/via.h:397 | there are last rows exactly when their count is not zero |
| Vias.ViaGenerator.HasViaLastColumns | src/pdn/src/via.h:399 | there are last columns exactly when their count is not zero |
| Vias.ViaGenerator.SetCutPitchX | src/pdn/src/via.h:326-327 | the getter returns the new pitch and no other field changes |
| Vias.ViaGenerator.SetCutPitchY | src/pdn/src/via.h:328-329 | the getter returns the new pitch and no other field changes |
| Vias.ViaGenerator.SetMaxRows | src/pdn/src/via.h:331 | the getter (line 371) returns the new maximum and no other field changes |
| Vias.ViaGenerator.SetMaxColumns | src/pdn/src/via.h:332 | the getter (line 372) returns the new maximum and no other field changes |
| SegStyles.EndStyle.constructor | src/drt/src/db/infra/frSegStyle.h:39 | the default end style is the extend style |
| SegStyles.EndStyle.Of | src/drt/src/db/infra/frSegStyle.h:41 | an end style built from a style holds it |
| SegStyles.EndStyle.CopyOf | src/drt/src/db/infra/frSegStyle.h:40 | a copied end style holds the original's style |
| SegStyles.EndStyle.Set | src/drt/src/db/infra/frSegStyle.h:43-47 | after `set`, `getValue` returns the style set |
| SegStyles.EndStyle.SetFrom | src/drt/src/db/infra/frSegStyle.h:44-47 | after `set` from another end style, `getValue` returns that style's value |
| SegStyles.EndStyle.AsEnum | src/drt/src/db/infra/frSegStyle.h:46-47 | the conversion to the enum agrees with `getValue` |
| SegStyles.SegStyle.constructor | src/drt/src/db/infra/frSegStyle.h:65-67 | a default segment style has zero extensions and width, and both ends extended |
| SegStyles.SegStyle.CopyOf | src/drt/src/db/infra/frSegStyle.h:68-75 | the copy has all five fields of the original |
| SegStyles.SegStyle.SetWidth | src/drt/src/db/infra/frSegStyle.h:77 | the width getter (line 91) returns the new width and no other field changes |
| SegStyles.SegStyle.SetBeginStyle | src/drt/src/db/infra/frSegStyle.h:78-82 | the begin style and begin extension (0 when omitted) are set and no other field changes |
| SegStyles.SegStyle.SetEndStyle | src/drt/src/db/infra/frSegStyle.h:83-87 | the end style and end extension (0 when omitted) are set and no other field changes |
| SegStyles.SegStyle.SetBeginExt | src/drt/src/db/infra/frSegStyle.h:88 | the begin-extension getter (line 92) returns the new value and no other field changes |
| SegStyles.SegStyle.SetEndExt | src/drt/src/db/infra/frSegStyle.h:89 | the end-extension getter (line 94) returns the new value and no other field changes |

## Left out

- `getNumberOfConnectionsBelow`/`getNumberOfConnectionsAbove` (src/pdn/src/shape.cpp:117-139): they compare a via's upper or lower layer, and `Via::getUpperLayer`/`getLowerLayer` are implemented in via.cpp, which is not part of this model.
- `getRectBox`/`getObstructionBox` (src/pdn/src/shape.cpp:101-110): the R-tree box has the rectangle's corners, so the model indexes rectangles directly.
- `writeToDb`, `addBPinToDb`, `populateMapFromDb` (src/pdn/src/shape.cpp:301-389): OpenDB persistence.
- `getDisplayText`, `getReportText`, `getRectText`, `getLogger` (src/pdn/src/shape.cpp:76-79, 445-496): string formatting and logging.
- The grid component a shape belongs to is not modelled; no modelled operation reads it.
- Shapes.Shape.ShapeCut: the order in which Boost.Polygon's `get_rectangles` returns the pieces is not modelled; the replacements come out in increasing order along the axis.
- Shapes.Shape.Cut and Shapes.Shape.ExtendTo: the R-tree is a sequence of (box, shape) entries, queried in sequence order; Boost's spatial index and its visiting order are not modelled.
- Shapes.Shape.Merge and the other rectangle operations use unbounded integers: 32-bit overflow of a coordinate plus a spacing is not modelled. Only `mergeInit`'s sentinel values are 32-bit limits.
- Shapes.Via.constructor: the `Connect` object a via belongs to is not modelled, and neither are `getBox`, `getLowerLayer`, `getUpperLayer`, `removeShape`, `isValid`, `containsIntermediateLayer`, `overlaps`, `startsBelow`, `writeToDb`, `getGrid`, `getDisplayText` or `copy` (their bodies are in via.cpp, which is not part of this model).
- Vias.ViaGenerator.constructor: the computing constructors of `ViaGenerator`, `GenerateViaGenerator` and `TechViaGenerator` are in via.cpp, which is not part of this model; the model's constructor takes the field values.
- `determineRowsAndColumns`, `getRows`, `getColumns`, `getTotalCuts`, `getCuts`, `getCutsWidth`, `checkConstraints`, `checkMinCuts`, `checkMinEnclosure`, `isSetupValid`, `setSplitCutArray`, `getCutArea`, `ViaGenerator::generate` and `makeBaseVia` (src/pdn/src/via.h:338-352, 377-392, 452-458): declared only, their bodies are in via.cpp, which is not part of this model.
- Every `DbVia::generate` body, `DbTechVia::getViaRect`, `TechViaGenerator::fitsShapes`, `mostlyContains` and the `GenerateViaGenerator` rule accessors: declared only.
- `TechViaGenerator::getBottomLayer`, `getTopLayer`, `getCutLayer` and `getVia` (src/pdn/src/via.h:516-518, 525): each returns a stored database object that the model has no counterpart for.
- `frEndStyle` and `frSegStyle` serialization: Boost archive plumbing.
