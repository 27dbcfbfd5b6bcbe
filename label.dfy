// A Label: a component that renders one piece of text, horizontally or turned
// a quarter to the left or right, with padding around it. The text size comes
// from an external measurer and is an input here.

module Labels {
  import opened Wrappers

  /** The size of the text as the measurer reports it. */
  datatype TextSize = TextSize(width: real, height: real)

  /** The space a component asks its parent for. */
  datatype SpaceRequest = SpaceRequest(minWidth: real, minHeight: real)

  /** What a rejected setter throws. */
  datatype LabelError = InvalidOrientation(orientation: string) | InvalidPadding(amount: real)

  /**
   * Where the text is drawn: the offsets of the text container, the size of
   * the box handed to the writer and the rotation of the text.
   */
  datatype RenderBox = RenderBox(widthPadding: real, heightPadding: real,
                                 writeWidth: real, writeHeight: real, rotation: Option<int>)

  /** A measured size is never negative. */
  predicate ValidSize(m: TextSize) {
    m.width >= 0.0 && m.height >= 0.0
  }

  /** `toLowerCase` on one character (ASCII letters only). */
  function LowerChar(c: char): (r: char)
    ensures 'A' <= c <= 'Z' ==> r as int == c as int + 32
    ensures !('A' <= c <= 'Z') ==> r == c
    ensures !('A' <= r <= 'Z')
  {
    if 'A' <= c <= 'Z' then (c as int + 32) as char else c
  }

  /** `toLowerCase` on a string, character by character. */
  function ToLowerCase(s: string): (r: string)
    ensures |r| == |s|
    ensures forall i :: 0 <= i < |s| ==> r[i] == LowerChar(s[i])
    ensures forall i :: 0 <= i < |r| ==> !('A' <= r[i] <= 'Z')
  {
    seq(|s|, i requires 0 <= i < |s| => LowerChar(s[i]))
  }

  /** Lower-casing twice is lower-casing once. */
  lemma ToLowerCaseIdempotent(s: string)
    ensures ToLowerCase(ToLowerCase(s)) == ToLowerCase(s)
  {
  }

  /** The orientations a Label accepts. */
  predicate IsOrientation(o: string) {
    o == "horizontal" || o == "left" || o == "right"
  }

  /** Every accepted orientation is already lower case. */
  lemma OrientationsAreLowerCase(o: string)
    requires IsOrientation(o)
    ensures ToLowerCase(o) == o
  {
  }

  /**
   * `requestedSpace`: the measured text plus twice the padding in each
   * direction, width and height swapped unless the label is horizontal.
   */
  function RequestedSpace(measured: TextSize, orientation: string, padding: real): (r: SpaceRequest)
    ensures orientation == "horizontal" ==>
      r.minWidth == measured.width + 2.0 * padding && r.minHeight == measured.height + 2.0 * padding
    ensures orientation != "horizontal" ==>
      r.minWidth == measured.height + 2.0 * padding && r.minHeight == measured.width + 2.0 * padding
  {
    var width := if orientation == "horizontal" then measured.width else measured.height;
    var height := if orientation == "horizontal" then measured.height else measured.width;
    SpaceRequest(width + 2.0 * padding, height + 2.0 * padding)
  }

  /** A left and a right label ask for the same space, the horizontal one's turned over. */
  lemma RotatedRequestSwaps(measured: TextSize, padding: real)
    ensures RequestedSpace(measured, "left", padding) == RequestedSpace(measured, "right", padding)
    ensures RequestedSpace(measured, "left", padding).minWidth == RequestedSpace(measured, "horizontal", padding).minHeight
    ensures RequestedSpace(measured, "left", padding).minHeight == RequestedSpace(measured, "horizontal", padding).minWidth
  {
  }

  /** `{horizontal: 0, right: 90, left: -90}[orientation]`; undefined for anything else. */
  function TextRotation(orientation: string): (r: Option<int>)
    ensures r.Some? <==> IsOrientation(orientation)
    ensures orientation == "horizontal" ==> r == Some(0)
    ensures orientation == "right" ==> r == Some(90)
    ensures orientation == "left" ==> r == Some(-90)
  {
    if orientation == "horizontal" then Some(0)
    else if orientation == "right" then Some(90)
    else if orientation == "left" then Some(-90)
    else None
  }

  /** The padding `_render` applies along one axis: half the slack, at most `padding`, at least 0. */
  function AppliedPadding(size: real, measured: real, padding: real): (r: real)
    ensures r >= 0.0
    ensures padding >= 0.0 ==> r <= padding
    ensures size >= measured ==> 2.0 * r <= size - measured || r == 0.0
    ensures size - measured >= 2.0 * padding && padding >= 0.0 ==> r == padding
    ensures size <= measured ==> r == 0.0
  {
    var half := (size - measured) / 2.0;
    var capped := if half < padding then half else padding;
    if capped > 0.0 then capped else 0.0
  }

  /**
   * The layout `_render` computes for a label of the given size: the padding
   * on each axis from the measured text as it is (not turned for a rotated
   * label), and what is left for the writer.
   */
  function RenderLayout(width: real, height: real, measured: TextSize, padding: real, orientation: string): (r: RenderBox)
    ensures r.widthPadding == AppliedPadding(width, measured.width, padding)
    ensures r.heightPadding == AppliedPadding(height, measured.height, padding)
    ensures r.writeWidth == width - 2.0 * r.widthPadding && r.writeHeight == height - 2.0 * r.heightPadding
    ensures r.rotation == TextRotation(orientation)
  {
    var heightPadding := AppliedPadding(height, measured.height, padding);
    var widthPadding := AppliedPadding(width, measured.width, padding);
    RenderBox(widthPadding, heightPadding, width - 2.0 * widthPadding, height - 2.0 * heightPadding,
              TextRotation(orientation))
  }

  /** The write area is never negative, and never smaller than the text when the label is not. */
  lemma RenderLayoutFits(width: real, height: real, measured: TextSize, padding: real, orientation: string)
    requires width >= 0.0 && height >= 0.0 && padding >= 0.0 && ValidSize(measured)
    ensures var r := RenderLayout(width, height, measured, padding, orientation);
      && 0.0 <= r.widthPadding <= padding && 0.0 <= r.heightPadding <= padding
      && r.writeWidth >= 0.0 && r.writeHeight >= 0.0
      && (width >= measured.width ==> r.writeWidth >= measured.width)
      && (height >= measured.height ==> r.writeHeight >= measured.height)
  {
    var r := RenderLayout(width, height, measured, padding, orientation);
    assert r.writeWidth >= 0.0 by {
      if width >= measured.width {
        assert 2.0 * r.widthPadding <= width - measured.width || r.widthPadding == 0.0;
      }
    }
  }

  /**
   * A horizontal label laid out in exactly the space it asked for gets its
   * whole padding on both axes, and the writer gets exactly the text's size.
   */
  lemma HorizontalRequestGetsFullPadding(measured: TextSize, padding: real)
    requires padding >= 0.0
    ensures var q := RequestedSpace(measured, "horizontal", padding);
      var r := RenderLayout(q.minWidth, q.minHeight, measured, padding, "horizontal");
      r.widthPadding == padding && r.heightPadding == padding
      && r.writeWidth == measured.width && r.writeHeight == measured.height
  {
  }

  /**
   * A rotated label laid out in exactly the space it asked for can lose its
   * width padding: text measured 100 by 10 with padding 5 asks for 20 by 110,
   * and `_render` then pads 0 across and 5 along.
   */
  lemma RotatedRequestLosesPadding()
    ensures var q := RequestedSpace(TextSize(100.0, 10.0), "left", 5.0);
      q == SpaceRequest(20.0, 110.0)
      && RenderLayout(q.minWidth, q.minHeight, TextSize(100.0, 10.0), 5.0, "left").widthPadding == 0.0
  {
  }

  /**
   * The layout with the measured text turned for a rotated label, as
   * `requestedSpace` turns it.
   */
  function RotatedRenderLayout(width: real, height: real, measured: TextSize, padding: real, orientation: string): (r: RenderBox)
    ensures var turned := if orientation == "horizontal" then measured else TextSize(measured.height, measured.width);
      r == RenderLayout(width, height, turned, padding, orientation)
  {
    var turned := if orientation == "horizontal" then measured else TextSize(measured.height, measured.width);
    RenderLayout(width, height, turned, padding, orientation)
  }

  /** With the measured text turned, every label given its requested space gets its whole padding. */
  lemma RequestGetsFullPadding(measured: TextSize, padding: real, orientation: string)
    requires padding >= 0.0
    ensures var q := RequestedSpace(measured, orientation, padding);
      var r := RotatedRenderLayout(q.minWidth, q.minHeight, measured, padding, orientation);
      r.widthPadding == padding && r.heightPadding == padding
  {
  }

  /** A Label's state. */
  class Label {
    var text: string
    var orientation: string
    var padding: real
    var xAlignment: string
    var yAlignment: string
    const fixedWidthFlag: bool
    const fixedHeightFlag: bool

    /** The orientation is one of the three accepted, and the padding is not negative. */
    ghost predicate Valid()
      reads this
    {
      IsOrientation(orientation) && padding >= 0.0 && fixedWidthFlag && fixedHeightFlag
    }

    /** `new Label(displayText)`: horizontal, centred, no padding, fixed in both directions. */
    constructor (displayText: string)
      ensures Valid()
      ensures text == displayText && orientation == "horizontal" && padding == 0.0
      ensures xAlignment == "center" && yAlignment == "center"
      ensures fixedWidthFlag && fixedHeightFlag
    {
      text := displayText;
      orientation := "horizontal";
      padding := 0.0;
      xAlignment := "center";
      yAlignment := "center";
      fixedWidthFlag := true;
      fixedHeightFlag := true;
    }

    /**
     * `new Label(displayText, orientation)`: as the one-argument form, but
     * the orientation goes through the setter, which may throw.
     */
    static method Create(displayText: string, orientation: string) returns (r: Result<Label, LabelError>)
      ensures r.Ok? <==> IsOrientation(ToLowerCase(orientation))
      ensures r.Err? ==> r.error == InvalidOrientation(ToLowerCase(orientation))
      ensures r.Ok? ==> (fresh(r.value) && r.value.Valid()
        && r.value.text == displayText && r.value.orientation == ToLowerCase(orientation)
        && r.value.padding == 0.0 && r.value.fixedWidthFlag && r.value.fixedHeightFlag
        && r.value.xAlignment == "center" && r.value.yAlignment == "center")
    {
      var created := new Label(displayText);
      var outcome := created.SetOrientation(orientation);
      if outcome.Fail? {
        return Err(outcome.error);
      }
      r := Ok(created);
    }

    /** `_isFixedWidth()`: a Label never grows to fill its space. */
    function IsFixedWidth(): (r: bool)
      reads this
      requires Valid()
      ensures r
    {
      fixedWidthFlag
    }

    /** `_isFixedHeight()`: a Label never grows to fill its space. */
    function IsFixedHeight(): (r: bool)
      reads this
      requires Valid()
      ensures r
    {
      fixedHeightFlag
    }

    /** `text(displayText)`: any string is accepted and becomes what `text()` returns. */
    method SetText(displayText: string)
      modifies this
      ensures text == displayText
      ensures orientation == old(orientation) && padding == old(padding)
      ensures old(Valid()) ==> Valid()
      ensures xAlignment == old(xAlignment) && yAlignment == old(yAlignment)
    {
      text := displayText;
    }

    /**
     * `orientation(o)`: lower-cases o; stores it when it is horizontal,
     * left or right, and otherwise throws, leaving the orientation as it was.
     */
    method SetOrientation(o: string) returns (outcome: Outcome<LabelError>)
      modifies this
      ensures outcome.Pass? <==> IsOrientation(ToLowerCase(o))
      ensures outcome.Pass? ==> orientation == ToLowerCase(o)
      ensures outcome.Fail? ==> outcome.error == InvalidOrientation(ToLowerCase(o)) && orientation == old(orientation)
      ensures text == old(text) && padding == old(padding)
      ensures old(Valid()) ==> Valid()
      ensures xAlignment == old(xAlignment) && yAlignment == old(yAlignment)
    {
      var lowered := ToLowerCase(o);
      if IsOrientation(lowered) {
        orientation := lowered;
        outcome := Pass;
      } else {
        outcome := Fail(InvalidOrientation(lowered));
      }
    }

    /** `padding(p)`: a negative amount throws and changes nothing; any other is stored. */
    method SetPadding(p: real) returns (outcome: Outcome<LabelError>)
      modifies this
      ensures outcome.Pass? <==> p >= 0.0
      ensures outcome.Pass? ==> padding == p
      ensures outcome.Fail? ==> outcome.error == InvalidPadding(p) && padding == old(padding)
      ensures text == old(text) && orientation == old(orientation)
      ensures old(Valid()) ==> Valid()
      ensures xAlignment == old(xAlignment) && yAlignment == old(yAlignment)
    {
      if p < 0.0 {
        outcome := Fail(InvalidPadding(p));
      } else {
        padding := p;
        outcome := Pass;
      }
    }

    /**
     * `requestedSpace(offeredWidth, offeredHeight)`, which ignores the offer:
     * the measured text turned as the label is, plus the padding on every side.
     */
    function Request(measured: TextSize): (r: SpaceRequest)
      reads this
      ensures orientation == "horizontal" ==>
        r == SpaceRequest(measured.width + 2.0 * padding, measured.height + 2.0 * padding)
      ensures orientation != "horizontal" ==>
        r == SpaceRequest(measured.height + 2.0 * padding, measured.width + 2.0 * padding)
      ensures Valid() && ValidSize(measured) ==> r.minWidth >= 0.0 && r.minHeight >= 0.0
    {
      RequestedSpace(measured, orientation, padding)
    }
  }
}
