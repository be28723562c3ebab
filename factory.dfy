/** The objects the page builds: the guide overlay of `createGuides`, the objects of the
    toolbar's add buttons, the copy made by the duplicate button and the background image.
    Each is given here as the state the new Fabric.js object starts with. */
module Factory {
  import opened JsText
  import opened CardGeometry
  import opened Scene

  /** The choices the Streamlit sidebar bakes into the page. */
  datatype Settings = Settings(
    format: CardFormat,
    orientation: Orientation,
    dpi: Dpi,
    showBleed: bool,
    showSafeZone: bool,
    showCenterGuides: bool,
    showGrid: bool,
    includeBleed: bool,
    roundedCorners: bool,
    primaryColor: string)

  /** `canvasW` and `canvasH`: the trimmed card in pixels. */
  function Trim(s: Settings): PixelSize
  {
    TrimSize(s.format, s.orientation, s.dpi)
  }

  /** `bleedMarginPx`, which is also `safeMarginPx`. */
  function Bleed(s: Settings): nat
  {
    MarginPx(DpiValue(s.dpi))
  }

  /** The canvas element, bleed included. */
  function Canvas(s: Settings): PixelSize
  {
    CanvasSize(Trim(s), Bleed(s))
  }

  // ---- Guides ----

  /** A guide: excluded from export, neither selectable nor reacting to events, without an id. */
  function Guide(shape: Shape, left: real, top: real, fill: string, stroke: string, strokeWidth: real): (st: ObjectState)
    ensures IsGuide(st)
  {
    Plain(shape, NoId, left, top).(fill := fill, stroke := stroke, strokeWidth := Num(strokeWidth),
      selectable := false, evented := false, excludeFromExport := true)
  }

  predicate IsGuide(st: ObjectState)
  {
    st.excludeFromExport && !st.selectable && !st.evented && st.id == NoId && st.visible
  }

  /** A Fabric.js line whose position is not given starts at its smaller end coordinates. */
  function GuideLine(x1: real, y1: real, x2: real, y2: real, stroke: string, strokeWidth: real): (st: ObjectState)
    ensures IsGuide(st)
  {
    Guide(LineShape(x1, y1, x2, y2), if x1 <= x2 then x1 else x2, if y1 <= y2 then y1 else y2,
      "rgb(0,0,0)", stroke, strokeWidth)
  }

  /** The tinted rectangle over the whole canvas: from the top-left corner, one bleed margin
      wider and higher than the trim box on each side. */
  function BleedRect(s: Settings): (r: ObjectState)
    ensures IsGuide(r) && r.shape.RectShape? && r.left == Num(0.0) && r.top == Num(0.0)
    ensures r.shape.width == Canvas(s).w as real && r.shape.height == Canvas(s).h as real
    ensures r.shape.width - Trim(s).w as real == 2.0 * Bleed(s) as real
    ensures r.shape.height - Trim(s).h as real == 2.0 * Bleed(s) as real
  {
    var c := Canvas(s);
    Guide(RectShape(c.w as real, c.h as real, 0.0, 0.0), 0.0, 0.0, "rgba(255,0,0,0.05)", "rgba(255,0,0,0.3)", 1.0)
  }

  /** The safe-zone outline, one safe margin inside the trim box on every side: its left and
      top edges are a bleed and a safe margin from the canvas edge, and so are its right and
      bottom edges. */
  function SafeRect(s: Settings): (r: ObjectState)
    ensures IsGuide(r) && r.shape.RectShape? && r.left.Num? && r.top.Num?
    ensures r.left.x == 2.0 * Bleed(s) as real && r.top.x == 2.0 * Bleed(s) as real
    ensures Canvas(s).w as real - (r.left.x + r.shape.width) == r.left.x
    ensures Canvas(s).h as real - (r.top.x + r.shape.height) == r.top.x
  {
    var t := Trim(s);
    var b := Bleed(s);
    Guide(RectShape(t.w as real - 2.0 * b as real, t.h as real - 2.0 * b as real, 0.0, 0.0),
      (b + b) as real, (b + b) as real, "rgba(0,0,0,0)", "rgba(0,0,255,0.4)", 1.0)
  }

  /** The vertical and the horizontal centre line. */
  function CenterLines(s: Settings): (r: seq<ObjectState>)
    ensures |r| == 2 && IsGuide(r[0]) && IsGuide(r[1])
  {
    var c := Canvas(s);
    var cx := c.w as real / 2.0;
    var cy := c.h as real / 2.0;
    [GuideLine(cx, 0.0, cx, c.h as real, "rgba(0,255,0,0.5)", 1.0),
     GuideLine(0.0, cy, c.w as real, cy, "rgba(0,255,0,0.5)", 1.0)]
  }

  /** The grid step, an eighth of an inch: `dpi / 8`, exact for every offered resolution. */
  function GridSize(s: Settings): real
  {
    DpiValue(s.dpi) as real / 8.0
  }

  /** How many passes `for (i = gridSize; i < limit; i += gridSize)` makes: the number of
      multiples `k * dpi / 8` with `k >= 1` below `limit` (see `GridStopBelow`). */
  function GridCount(limit: nat, dpi: nat): (r: nat)
    requires dpi > 0
    ensures limit == 0 ==> r == 0
    ensures limit > 0 ==> r * dpi < 8 * limit <= (r + 1) * dpi
  {
    if limit == 0 then 0 else (8 * limit - 1) / dpi
  }

  /** The loop variable on pass k (from 1): `gridSize` added k times. */
  function GridStop(k: nat, dpi: nat): real
  {
    if k == 0 then 0.0 else GridStop(k - 1, dpi) + dpi as real / 8.0
  }

  /** The repeated addition lands on `k * dpi / 8` exactly; since dpi / 8 is a short binary
      fraction for every resolution offered, JavaScript's floating-point sum does the same. */
  lemma {:induction false} GridStopClosed(k: nat, dpi: nat)
    ensures GridStop(k, dpi) == (k * dpi) as real / 8.0
  {
    if k > 0 {
      GridStopClosed(k - 1, dpi);
      assert k * dpi == (k - 1) * dpi + dpi;
    }
  }

  /** A vertical grid line at x across a canvas of height h. */
  function GridVertical(h: nat, x: real): (st: ObjectState)
    ensures IsGuide(st)
  {
    GuideLine(x, 0.0, x, h as real, "rgba(0,0,0,0.1)", 0.5)
  }

  /** A horizontal grid line at y across a canvas of width w. */
  function GridHorizontal(w: nat, y: real): (st: ObjectState)
    ensures IsGuide(st)
  {
    GuideLine(0.0, y, w as real, y, "rgba(0,0,0,0.1)", 0.5)
  }

  /** The grid on a w x h canvas at the given resolution: vertical lines at every step across,
      then horizontal ones down. */
  function Grid(w: nat, h: nat, dpi: nat): (r: seq<ObjectState>)
    requires dpi > 0
    ensures |r| == GridCount(w, dpi) + GridCount(h, dpi)
    ensures forall st :: st in r ==> IsGuide(st)
  {
    GridColumns(w, h, dpi) + GridRows(w, h, dpi)
  }

  /** The vertical lines of the first grid loop, left to right. */
  function GridColumns(w: nat, h: nat, dpi: nat): (r: seq<ObjectState>)
    requires dpi > 0
    ensures |r| == GridCount(w, dpi) && forall st :: st in r ==> IsGuide(st)
  {
    var r := seq(GridCount(w, dpi), k requires 0 <= k < GridCount(w, dpi) => GridVertical(h, GridStop(k + 1, dpi)));
    assert forall i :: 0 <= i < |r| ==> IsGuide(r[i]);
    r
  }

  /** The horizontal lines of the second grid loop, top to bottom. */
  function GridRows(w: nat, h: nat, dpi: nat): (r: seq<ObjectState>)
    requires dpi > 0
    ensures |r| == GridCount(h, dpi) && forall st :: st in r ==> IsGuide(st)
  {
    var r := seq(GridCount(h, dpi), k requires 0 <= k < GridCount(h, dpi) => GridHorizontal(w, GridStop(k + 1, dpi)));
    assert forall i :: 0 <= i < |r| ==> IsGuide(r[i]);
    r
  }

  function GridLines(s: Settings): seq<ObjectState>
  {
    Grid(Canvas(s).w, Canvas(s).h, DpiValue(s.dpi))
  }

  /** `createGuides` on an empty canvas: bleed rectangle, safe zone, centre lines and grid, each
      when its option is on, in this paint order. */
  function GuideStates(s: Settings): (r: seq<ObjectState>)
    ensures forall st :: st in r ==> IsGuide(st)
    ensures |r| == (if s.showBleed then 1 else 0) + (if s.showSafeZone then 1 else 0)
      + (if s.showCenterGuides then 2 else 0) + (if s.showGrid then |GridLines(s)| else 0)
  {
    var bleed := if s.showBleed then [BleedRect(s)] else [];
    var safe := if s.showSafeZone then [SafeRect(s)] else [];
    var center := if s.showCenterGuides then CenterLines(s) else [];
    var grid := if s.showGrid then GridLines(s) else [];
    bleed + safe + center + grid
  }

  /** The loop test `i < limit` on pass k holds exactly for the passes `GridCount` counts. */
  lemma GridStopBelow(k: nat, dpi: nat, limit: nat)
    requires dpi > 0 && k >= 1
    ensures GridStop(k, dpi) < limit as real <==> k <= GridCount(limit, dpi)
  {
    GridStopClosed(k, dpi);
    EighthBelow(k * dpi, limit);
    var c := GridCount(limit, dpi);
    if k <= c {
      MulMono(k, c, dpi);
    } else {
      MulMono(c + 1, k, dpi);
    }
  }

  lemma EighthBelow(m: nat, limit: nat)
    ensures (m as real) / 8.0 < limit as real <==> m < 8 * limit
  {
  }

  lemma MulMono(a: nat, b: nat, d: nat)
    requires a <= b
    ensures a * d <= b * d
  {
  }

  /** Every vertical grid line lies strictly inside the canvas, the k-th (from 0) is k + 1 grid
      steps from the left edge, consecutive lines are one step apart, and one more step after
      the last would leave the canvas. The horizontal lines follow in the same way. */
  lemma GridSpan(w: nat, h: nat, dpi: nat, k: nat)
    requires dpi > 0 && k < GridCount(w, dpi)
    ensures Grid(w, h, dpi)[k] == GridVertical(h, GridStop(k + 1, dpi))
    ensures 0.0 < GridStop(k + 1, dpi) < w as real
    ensures GridStop(k + 2, dpi) - GridStop(k + 1, dpi) == dpi as real / 8.0
    ensures k + 1 == GridCount(w, dpi) ==> GridStop(k + 2, dpi) >= w as real
  {
    GridStopBelow(k + 1, dpi, w);
    GridStopBelow(k + 2, dpi, w);
    GridStopClosed(k + 1, dpi);
  }

  /** The guides never reach the history: a canvas holding only guides has an empty snapshot. */
  lemma GuidesLeaveNoJson(s: Settings)
    ensures NonGuides(GuideStates(s)) == []
  {
    var g := GuideStates(s);
    forall i | 0 <= i < |g| ensures g[i].excludeFromExport {
      assert g[i] in g;
    }
    NonGuidesOfGuides(g);
  }

  /** At 300 DPI on a US Standard card the grid step is 37.5 px and the 1126 x 676 canvas gets
      30 vertical and 18 horizontal grid lines. */
  lemma GridAtUsStandard300(s: Settings)
    requires s.format == UsStandard && s.orientation == Landscape && s.dpi == Dpi300
    ensures GridSize(s) == 37.5
    ensures |GridLines(s)| == 48
    ensures GridCount(Canvas(s).w, 300) == 30 && GridCount(Canvas(s).h, 300) == 18
  {
    UsStandardAt300();
  }

  // ---- Objects made by the toolbar ----

  datatype Tool = AddText | AddHeading | AddContact | AddRect | AddCircle | AddLine | AddTriangle

  /** The toolbar's font size, text colour and font family inputs, as text. */
  datatype ToolbarInputs = ToolbarInputs(fontSize: string, textColor: string, fontFamily: string)

  /** The part in front of the counter in each tool's id. */
  function ToolPrefix(t: Tool): (p: string)
    ensures PlainPrefix(p)
  {
    match t
    case AddText => "text"
    case AddHeading => "heading"
    case AddContact => "contact"
    case AddRect => "rect"
    case AddCircle => "circle"
    case AddLine => "line"
    case AddTriangle => "triangle"
  }

  predicate MakesText(t: Tool) { t == AddText || t == AddHeading || t == AddContact }

  const ContactText: string :=
    "\U{1F4E7} email@company.com\n\U{1F4DE} (555) 123-4567\n\U{1F3E2} Your Company Name"

  function TextObject(text: string, n: nat, prefix: string, b: nat, dx: nat, dy: nat, size: real, fill: string, font: string): ObjectState
  {
    Plain(TextBox(text), Serial(prefix, n), (b + dx) as real, (b + dy) as real)
      .(fontSize := Num(size), fill := fill, fontFamily := Str(font))
  }

  function ShapeObject(shape: Shape, n: nat, prefix: string, b: nat, dx: nat, dy: nat, fill: string, stroke: string, strokeWidth: real): ObjectState
  {
    Plain(shape, Serial(prefix, n), (b + dx) as real, (b + dy) as real)
      .(fill := fill, stroke := stroke, strokeWidth := Num(strokeWidth))
  }

  function Min(a: real, b: real): real { if a <= b then a else b }

  /** The state of the object an add button creates with counter value `n`. */
  function CreatedState(t: Tool, s: Settings, input: ToolbarInputs, n: nat): (st: ObjectState)
    ensures st.id == Serial(ToolPrefix(t), n)
    ensures IsText(st) <==> MakesText(t)
    ensures !st.excludeFromExport && st.selectable && st.visible && !Locked(st)
    ensures st.left.Num? && st.left.x > Bleed(s) as real && st.top.Num? && st.top.x > Bleed(s) as real
    ensures t == AddText ==>
      && st.fontSize == Num(IntOr(input.fontSize, 24) as real)
      && st.fill == TextOr(input.textColor, "#000")
      && st.fontFamily == Str(TextOr(input.fontFamily, "Arial"))
    ensures t == AddHeading ==> st.fontWeight == "bold" && st.fill == s.primaryColor
  {
    var b := Bleed(s);
    var tw := Trim(s).w as real;
    var th := Trim(s).h as real;
    var font := TextOr(input.fontFamily, "Arial");
    match t
    case AddText =>
      TextObject("Click to edit text", n, "text", b, 50, 50, IntOr(input.fontSize, 24) as real,
        TextOr(input.textColor, "#000"), font)
    case AddHeading =>
      TextObject("Your Name", n, "heading", b, 50, 30, 36.0, s.primaryColor, font).(fontWeight := "bold")
    case AddContact =>
      TextObject(ContactText, n, "contact", b, 50, 120, 16.0, "#666666", font)
    case AddRect =>
      var r := if s.roundedCorners then 8.0 else 0.0;
      ShapeObject(RectShape(tw * 0.3, th * 0.25, r, r), n, "rect", b, 60, 60,
        "rgba(102, 126, 234, 0.3)", "#667eea", 2.0)
    case AddCircle =>
      ShapeObject(CircleShape(Min(tw, th) * 0.08), n, "circle", b, 80, 80,
        "rgba(240, 147, 251, 0.3)", "#f093fb", 2.0)
    case AddLine =>
      ShapeObject(LineShape(50.0, 50.0, 200.0, 50.0), n, "line", b, 50, 100,
        "rgb(0,0,0)", "#333333", 3.0)
    case AddTriangle =>
      ShapeObject(TriangleShape(80.0, 80.0), n, "triangle", b, 100, 100,
        "rgba(231, 76, 60, 0.3)", "#e74c3c", 2.0)
  }

  /** The copy the duplicate button adds. `obj.clone` passes the object through `toObject` and
      `fromObject` (`JsonOf`), so the copy has no lock, is selectable, and holds its position
      as a number rounded to hundredths, or NaN; `+ 20` then moves it by 20 on each axis, and it
      gets the id `<type>_<n>`, where the type of a text object is `i-text`. Every other
      property is the one the written-out source has. */
  function DuplicateState(st: ObjectState, n: nat): (r: ObjectState)
    ensures r.id == Serial(TypeName(st.shape), n) && PlainPrefix(r.id.prefix)
    ensures r.left == PlusTwenty(Fixed2(st.left)) && r.top == PlusTwenty(Fixed2(st.top))
    ensures !r.left.Str? && !r.top.Str?
    ensures r.(id := NoId, left := JsonOf(st).left, top := JsonOf(st).top) == JsonOf(st)
    ensures !r.excludeFromExport && r.selectable && r.evented && LockFlagsAre(r, false)
  {
    var c := JsonOf(st);
    c.(id := Serial(TypeName(st.shape), n), left := PlusTwenty(c.left), top := PlusTwenty(c.top))
  }

  /** A position held as a number moves by 20 pixels on each axis, up to the rounding to
      hundredths. */
  lemma DuplicateOffset(st: ObjectState, n: nat)
    requires st.left.Num? && st.top.Num?
    ensures DuplicateState(st, n).left == Num(Round2(st.left.x) + 20.0)
    ensures DuplicateState(st, n).top == Num(Round2(st.top.x) + 20.0)
    ensures st.left.x + 19.995 <= DuplicateState(st, n).left.x <= st.left.x + 20.005
    ensures st.left.x >= 0.0 ==> st.left.x + 19.995 < DuplicateState(st, n).left.x
    ensures st.left.x < 0.0 ==> DuplicateState(st, n).left.x < st.left.x + 20.005
  {
  }

  /** A locked object whose left position was typed as 0 (and so is held as the text "0") is
      copied unlocked, 20 pixels from the left edge. */
  lemma DuplicateOfTypedZero(st: ObjectState, n: nat)
    requires st.left == Str("0") && Locked(st)
    ensures DuplicateState(st, n).left == Num(20.0) && !Locked(DuplicateState(st, n))
  {
    JsonOfTypedZero(st);
  }

  // ---- Background image ----

  /** The image `st` spans the whole cw x ch canvas: it starts at or before the top-left
      corner and its scaled size reaches past the opposite edges. */
  predicate Covers(st: ObjectState, cw: nat, ch: nat)
  {
    && st.shape.ImageShape? && st.left.Num? && st.top.Num?
    && st.left.x <= 0.0 && st.left.x + st.shape.naturalWidth as real * st.scale >= cw as real
    && st.top.x <= 0.0 && st.top.x + st.shape.naturalHeight as real * st.scale >= ch as real
  }

  /** An image of natural size w x h cover-fitted to a cw x ch canvas and centred on it. */
  function CoverImage(cw: nat, ch: nat, w: nat, h: nat, opacity: real): (st: ObjectState)
    requires w > 0 && h > 0
    ensures st.id == BackgroundId && !st.excludeFromExport && !st.selectable && st.visible
    ensures st.shape == ImageShape(w, h) && st.opacity == Num(opacity)
    ensures st.left.Num? && st.top.Num?
    ensures w as real * st.scale >= cw as real && h as real * st.scale >= ch as real
    ensures w as real * st.scale == cw as real || h as real * st.scale == ch as real
    ensures Covers(st, cw, ch)
  {
    var scale := CoverScale(cw as real, ch as real, w as real, h as real);
    CoverFitCovers(cw as real, ch as real, w as real, h as real);
    Plain(ImageShape(w, h), BackgroundId, CenteredOffset(cw as real, w as real * scale),
      CenteredOffset(ch as real, h as real * scale))
      .(scale := scale, selectable := false, opacity := Num(opacity))
  }

  /** The uploaded image as `setBackgroundFromDataUrl` places it: cover-fitted to the whole
      canvas, bleed included, not selectable, with the id `background_image`. */
  function BackgroundState(s: Settings, w: nat, h: nat, opacity: real): (st: ObjectState)
    requires w > 0 && h > 0
    ensures st.id == BackgroundId && !st.excludeFromExport && !st.selectable && st.shape == ImageShape(w, h)
    ensures Covers(st, Canvas(s).w, Canvas(s).h)
  {
    CoverImage(Canvas(s).w, Canvas(s).h, w, h, opacity)
  }
}
