/** The detailed router's segment style: a wire width, and for each end of the
    segment an end style and an extension. */
module SegStyles {

  /** frEndStyleEnum; its declaration (frBaseTypes.h) is not part of this model, so only
      the three styles the router names are listed. */
  datatype EndStyleEnum = TruncateEndStyle | ExtendEndStyle | VariableEndStyle

  /** frUInt4: an unsigned 32-bit value. */
  type UInt4 = x: int | 0 <= x < 0x1_0000_0000

  /** frEndStyle: a mutable holder of one end style. */
  class EndStyle {
    var style: EndStyleEnum

    /** The default end style extends the wire. */
    constructor ()
      ensures Value() == ExtendEndStyle
    {
      style := ExtendEndStyle;
    }

    constructor Of(style: EndStyleEnum)
      ensures Value() == style
    {
      this.style := style;
    }

    constructor CopyOf(other: EndStyle)
      ensures Value() == other.Value()
    {
      style := other.style;
    }

    method Set(style: EndStyleEnum)
      modifies this
      ensures Value() == style
    {
      this.style := style;
    }

    method SetFrom(other: EndStyle)
      modifies this
      ensures Value() == old(other.Value())
    {
      style := other.style;
    }

    function Value(): EndStyleEnum
      reads this
    {
      style
    }

    /** The conversion to frEndStyleEnum gives the same style as Value. */
    function AsEnum(): (e: EndStyleEnum)
      reads this
      ensures e == Value()
    {
      style
    }
  }

  /** Every field of a segment style at one moment. */
  datatype SegStyleValue = SegStyleValue(
    beginExt: UInt4, endExt: UInt4, width: UInt4, beginStyle: EndStyleEnum, endStyle: EndStyleEnum)

  /** frSegStyle. Its two frEndStyle members are held by value in the source, so they are
      stored here as the styles themselves: no other object can alias them. */
  class SegStyle {
    var beginExt: UInt4
    var endExt: UInt4
    var width: UInt4
    var beginStyle: EndStyleEnum
    var endStyle: EndStyleEnum

    function Value(): SegStyleValue
      reads this
    {
      SegStyleValue(beginExt, endExt, width, beginStyle, endStyle)
    }

    /** All extents zero and both ends extended. */
    constructor ()
      ensures Value() == SegStyleValue(0, 0, 0, ExtendEndStyle, ExtendEndStyle)
    {
      beginExt, endExt, width := 0, 0, 0;
      beginStyle, endStyle := ExtendEndStyle, ExtendEndStyle;
    }

    /** The copy has all five fields of the original. */
    constructor CopyOf(other: SegStyle)
      ensures Value() == other.Value()
    {
      beginExt, endExt, width := other.beginExt, other.endExt, other.width;
      beginStyle, endStyle := other.beginStyle, other.endStyle;
    }

    function Width(): UInt4 reads this { width }
    function BeginExt(): UInt4 reads this { beginExt }
    function EndExt(): UInt4 reads this { endExt }
    function BeginStyleValue(): EndStyleEnum reads this { beginStyle }
    function EndStyleValue(): EndStyleEnum reads this { endStyle }

    method SetWidth(w: UInt4)
      modifies this
      ensures Width() == w
      ensures Value() == old(Value()).(width := w)
    {
      width := w;
    }

    /** Sets the begin style and, with the same call, the begin extension (0 when omitted). */
    method SetBeginStyle(style: EndStyle, ext: UInt4 := 0)
      modifies this
      ensures BeginStyleValue() == old(style.Value()) && BeginExt() == ext
      ensures Value() == old(Value()).(beginStyle := old(style.Value()), beginExt := ext)
    {
      beginStyle := style.style;
      beginExt := ext;
    }

    /** Sets the end style and, with the same call, the end extension (0 when omitted). */
    method SetEndStyle(style: EndStyle, ext: UInt4 := 0)
      modifies this
      ensures EndStyleValue() == old(style.Value()) && EndExt() == ext
      ensures Value() == old(Value()).(endStyle := old(style.Value()), endExt := ext)
    {
      endStyle := style.style;
      endExt := ext;
    }

    method SetBeginExt(ext: UInt4)
      modifies this
      ensures BeginExt() == ext
      ensures Value() == old(Value()).(beginExt := ext)
    {
      beginExt := ext;
    }

    method SetEndExt(ext: UInt4)
      modifies this
      ensures EndExt() == ext
      ensures Value() == old(Value()).(endExt := ext)
    {
      endExt := ext;
    }
  }
}
