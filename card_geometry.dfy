/** Canvas geometry: the Streamlit side's card formats, orientation and DPI, the page
    script's bleed and safe margins, the PNG export crop region and the cover-fit
    placement of a background image. */
module CardGeometry {

  datatype CardFormat = UsStandard | EuStandard | Square | Mini | Jumbo
  datatype Orientation = Landscape | Portrait
  datatype Dpi = Dpi150 | Dpi300 | Dpi600

  function DpiValue(d: Dpi): (v: nat)
    ensures v == 150 || v == 300 || v == 600
  {
    match d
    case Dpi150 => 150
    case Dpi300 => 300
    case Dpi600 => 600
  }

  /** A physical size in thousandths of an inch (every format is given to three decimals). */
  datatype Mils = Mils(w: nat, h: nat)

  /** The landscape width and height of each format. */
  function FormatDims(f: CardFormat): (m: Mils)
    ensures m.w >= m.h > 0
  {
    match f
    case UsStandard => Mils(3500, 2000)
    case EuStandard => Mils(3346, 2165)
    case Square => Mils(2500, 2500)
    case Mini => Mils(2750, 1750)
    case Jumbo => Mils(4250, 2750)
  }

  /** The format's size turned to the orientation: the same two sides, the longer one across
      in landscape and down in portrait. */
  function Oriented(f: CardFormat, o: Orientation): (r: Mils)
    ensures multiset{r.w, r.h} == multiset{FormatDims(f).w, FormatDims(f).h}
    ensures o == Landscape ==> r.w >= r.h
    ensures o == Portrait ==> r.w <= r.h
  {
    var m := FormatDims(f);
    if o == Portrait then Mils(m.h, m.w) else m
  }

  /** `int(inches * dpi)`: truncation of a non-negative product, so the largest whole pixel
      count not above the exact one. */
  function PixelLength(mils: nat, dpi: nat): (px: nat)
    ensures px * 1000 <= mils * dpi < (px + 1) * 1000
  {
    mils * dpi / 1000
  }

  datatype PixelSize = PixelSize(w: nat, h: nat)

  /** `pixels_w` and `pixels_h`: the trimmed card in pixels, each side truncated from the
      exact product of inches and resolution. */
  function TrimSize(f: CardFormat, o: Orientation, d: Dpi): (r: PixelSize)
    ensures r.w * 1000 <= Oriented(f, o).w * DpiValue(d) < (r.w + 1) * 1000
    ensures r.h * 1000 <= Oriented(f, o).h * DpiValue(d) < (r.h + 1) * 1000
  {
    var m := Oriented(f, o);
    PixelSize(PixelLength(m.w, DpiValue(d)), PixelLength(m.h, DpiValue(d)))
  }

  /** `Math.round(0.125 * dpi)`: the nearest whole pixel to an eighth of an inch, halves
      rounding up. Both the bleed and the safe margin have this size. */
  function MarginPx(dpi: nat): (px: nat)
    ensures (px as real) - 0.5 <= 0.125 * (dpi as real) < (px as real) + 0.5
  {
    (dpi + 4) / 8
  }

  /** The canvas element: the trimmed card with a bleed margin on every side. */
  function CanvasSize(trim: PixelSize, bleed: nat): (c: PixelSize)
    ensures c.w - trim.w == 2 * bleed && c.h - trim.h == 2 * bleed
  {
    PixelSize(trim.w + 2 * bleed, trim.h + 2 * bleed)
  }

  function FullCanvas(f: CardFormat, o: Orientation, d: Dpi): PixelSize
  {
    CanvasSize(TrimSize(f, o, d), MarginPx(DpiValue(d)))
  }

  /** Turning the card to portrait swaps the two pixel dimensions of both the trimmed card
      and the canvas. */
  lemma PortraitSwaps(f: CardFormat, d: Dpi)
    ensures TrimSize(f, Portrait, d) == PixelSize(TrimSize(f, Landscape, d).h, TrimSize(f, Landscape, d).w)
    ensures FullCanvas(f, Portrait, d) == PixelSize(FullCanvas(f, Landscape, d).h, FullCanvas(f, Landscape, d).w)
  {
  }

  /** The margins at the three offered resolutions; 37.5 rounds up to 38. */
  lemma MarginTable()
    ensures MarginPx(150) == 19 && MarginPx(300) == 38 && MarginPx(600) == 75
  {
  }

  /** A US Standard card at 300 DPI is 1050 x 600 pixels, and its canvas 1126 x 676. */
  lemma UsStandardAt300()
    ensures TrimSize(UsStandard, Landscape, Dpi300) == PixelSize(1050, 600)
    ensures FullCanvas(UsStandard, Landscape, Dpi300) == PixelSize(1126, 676)
  {
  }

  /** The crop rectangle handed to the rasteriser, in canvas pixels. */
  datatype Region = Region(left: nat, top: nat, width: nat, height: nat)

  /** The PNG export region: the whole canvas when the bleed is included, otherwise the trim
      box, which leaves exactly one bleed margin on every side. */
  function ExportRegion(trim: PixelSize, bleed: nat, includeBleed: bool): (r: Region)
    ensures r.left + r.width <= CanvasSize(trim, bleed).w
    ensures r.top + r.height <= CanvasSize(trim, bleed).h
    ensures includeBleed ==>
      r.left == 0 && r.top == 0 && r.width == CanvasSize(trim, bleed).w && r.height == CanvasSize(trim, bleed).h
    ensures !includeBleed ==>
      && r.left == bleed && CanvasSize(trim, bleed).w - (r.left + r.width) == bleed
      && r.top == bleed && CanvasSize(trim, bleed).h - (r.top + r.height) == bleed
  {
    var w := if includeBleed then trim.w + 2 * bleed else trim.w;
    var h := if includeBleed then trim.h + 2 * bleed else trim.h;
    var left := if includeBleed then 0 else bleed;
    var top := if includeBleed then 0 else bleed;
    Region(left, top, w, h)
  }

  /** A crop request to Fabric's `toDataURL`, in display pixels, with its multiplier. */
  datatype CropRequest = CropRequest(left: real, top: real, width: real, height: real, multiplier: real)

  /** Fabric's `toCanvasElement` with display zoom `zoom` (the view is not panned), a crop
      starting at `start` display pixels and multiplier `m`: the canvas coordinate `x` is drawn
      at output pixel `m * (zoom * x - start)`. The output is `width * m` pixels wide. */
  function DrawnAt(x: real, zoom: real, start: real, m: real): real
  {
    m * (zoom * x - start)
  }

  /** The picture shows the region pixel for pixel: it has the region's size and every canvas
      coordinate lands at its offset from the region's corner. */
  ghost predicate ExactCrop(q: CropRequest, zoom: real, r: Region)
  {
    && q.width * q.multiplier == r.width as real && q.height * q.multiplier == r.height as real
    && (forall x: real :: DrawnAt(x, zoom, q.left, q.multiplier) == x - r.left as real)
    && (forall y: real :: DrawnAt(y, zoom, q.top, q.multiplier) == y - r.top as real)
  }

  /** The export request as the page writes it: the region in canvas pixels, multiplier 1. */
  function AsWrittenRequest(r: Region): CropRequest
  {
    CropRequest(r.left as real, r.top as real, r.width as real, r.height as real, 1.0)
  }

  /** As written, the picture has the region's size at every zoom, but it shows the region
      pixel for pixel exactly when the display zoom is 1. The page shrinks the zoom below 1
      whenever the window is narrower than the canvas plus the panels. */
  lemma AsWrittenExactOnlyAtZoomOne(r: Region, zoom: real)
    requires 0.0 < zoom <= 1.0
    ensures AsWrittenRequest(r).width * AsWrittenRequest(r).multiplier == r.width as real
    ensures ExactCrop(AsWrittenRequest(r), zoom, r) <==> zoom == 1.0
  {
    var q := AsWrittenRequest(r);
    if ExactCrop(q, zoom, r) {
      var x := r.left as real + 1.0;
      assert DrawnAt(x, zoom, q.left, 1.0) == x - r.left as real;
      assert zoom * x == x;
    }
  }

  /** At display zoom 0.5, the US Standard trim box at 300 DPI (from 38 px, 1050 px wide) is
      drawn from output pixel -19 to 506 of a 1050-pixel picture: the left edge is cut off and
      half the picture stays empty. */
  lemma AsWrittenAtHalfZoom()
    ensures var q := AsWrittenRequest(Region(38, 38, 1050, 600));
      && q.width * q.multiplier == 1050.0
      && DrawnAt(38.0, 0.5, q.left, q.multiplier) == -19.0
      && DrawnAt(1088.0, 0.5, q.left, q.multiplier) == 506.0
  {
  }

  /** A request that does not depend on the display zoom: the region scaled to display pixels
      and the multiplier 1/zoom. */
  function ZoomedRequest(r: Region, zoom: real): (q: CropRequest)
    requires zoom > 0.0
    ensures ExactCrop(q, zoom, r)
  {
    var m := 1.0 / zoom;
    var q := CropRequest(r.left as real * zoom, r.top as real * zoom, r.width as real * zoom, r.height as real * zoom, m);
    assert zoom * m == 1.0;
    assert q.width * m == r.width as real * (zoom * m);
    assert q.height * m == r.height as real * (zoom * m);
    forall x: real ensures DrawnAt(x, zoom, q.left, m) == x - r.left as real {
      assert m * (zoom * x - r.left as real * zoom) == (zoom * m) * (x - r.left as real);
    }
    forall y: real ensures DrawnAt(y, zoom, q.top, m) == y - r.top as real {
      assert m * (zoom * y - r.top as real * zoom) == (zoom * m) * (y - r.top as real);
    }
    q
  }


  function Max(a: real, b: real): real { if a >= b then a else b }

  /** `Math.max(W / w, H / h)`: the smallest scale at which an image of natural size w x h
      covers a W x H target; one of the two sides fits exactly. */
  function CoverScale(targetW: real, targetH: real, w: real, h: real): (s: real)
    requires w > 0.0 && h > 0.0
    ensures w * s >= targetW && h * s >= targetH
    ensures w * s == targetW || h * s == targetH
  {
    Max(targetW / w, targetH / h)
  }

  /** `(W - w * s) / 2`: the offset that centres a scaled side on the target; it overhangs both
      ends by the same amount, and never leaves a gap when the side covers the target. */
  function CenteredOffset(target: real, scaled: real): (o: real)
    ensures scaled >= target ==> o <= 0.0
    ensures 0.0 - o == (o + scaled) - target
  {
    (target - scaled) / 2.0
  }

  /** A cover-fitted, centred image spans the whole target in both directions. */
  lemma CoverFitCovers(targetW: real, targetH: real, w: real, h: real)
    requires w > 0.0 && h > 0.0
    ensures var s := CoverScale(targetW, targetH, w, h);
      && CenteredOffset(targetW, w * s) <= 0.0 && CenteredOffset(targetW, w * s) + w * s >= targetW
      && CenteredOffset(targetH, h * s) <= 0.0 && CenteredOffset(targetH, h * s) + h * s >= targetH
  {
  }

  /** A 2000 x 1000 image on the US Standard 300 DPI canvas (1126 x 676) is scaled by 0.676,
      becomes 1352 x 676 and is shifted 113 pixels to the left. */
  lemma CoverFitExample()
    ensures CoverScale(1126.0, 676.0, 2000.0, 1000.0) == 0.676
    ensures CenteredOffset(1126.0, 2000.0 * 0.676) == -113.0
    ensures CenteredOffset(676.0, 1000.0 * 0.676) == 0.0
  {
  }
}
