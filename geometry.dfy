/** Sizing rules of the image resizer: for each of the four modes, the
    output canvas, the rectangle the source is drawn into, and the JPEG
    quality. Browser floats are modelled as exact rationals. */
module Geometry {

  /** A decoded image dimension: always at least one pixel. */
  type Pos = x: int | x > 0 witness 1

  /** JavaScript's Math.round: the nearest integer, halves rounded up. */
  function Round(x: real): (r: int)
    ensures r as real - 0.5 <= x < r as real + 0.5
  {
    (x + 0.5).Floor
  }

  /** The keys of the print-size table. */
  datatype PrintSize = P4x6 | P5x7 | P8x10 | P8x12 | P10x12 | P11x14 | P12x18 | P16x20 | P20x24

  /** The (minW, minH) box of each print size, as the table lists it. */
  function Box(s: PrintSize): (r: (Pos, Pos))
    ensures 800 <= r.0 <= 4800 && 800 <= r.1 <= 6000
  {
    match s
    case P4x6 => (1200, 800)
    case P5x7 => (1500, 2100)
    case P8x10 => (2400, 3000)
    case P8x12 => (2400, 3600)
    case P10x12 => (3000, 3600)
    case P11x14 => (3300, 4200)
    case P12x18 => (3600, 5400)
    case P16x20 => (4800, 6000)
    case P20x24 => (4800, 6000)
  }

  /** The settings of one batch, one variant per mode. */
  datatype Settings =
    | PercentageSettings(percent: int)
    | PurposeSettings(size: int)
    | PrintSettings(target: PrintSize)
    | QualitySettings(quality: real)

  /** What one image becomes: canvas size, the rectangle the whole source is
      drawn into (in canvas coordinates), and the encoder quality. */
  datatype Plan = Plan(width: int, height: int, dx: real, dy: real, dw: real, dh: real, quality: real)

  /** Quality used by every mode except the quality-only one. */
  const DefaultQuality: real := 0.92

  /** Percentage mode: both sides scaled by percent/100 and rounded. */
  function PercentagePlan(w: Pos, h: Pos, percent: int): (r: Plan)
    ensures r.width as real - 0.5 <= (w * percent) as real / 100.0 < r.width as real + 0.5
    ensures r.height as real - 0.5 <= (h * percent) as real / 100.0 < r.height as real + 0.5
    ensures r.dx == r.dy == 0.0 && r.dw == r.width as real && r.dh == r.height as real
    ensures r.quality == DefaultQuality
  {
    var ratio := percent as real / 100.0;
    var finalW := Round(w as real * ratio);
    var finalH := Round(h as real * ratio);
    assert w as real * ratio == (w * percent) as real / 100.0 by { ScaleAssoc(w, percent, 100.0); }
    assert h as real * ratio == (h * percent) as real / 100.0 by { ScaleAssoc(h, percent, 100.0); }
    Plan(finalW, finalH, 0.0, 0.0, finalW as real, finalH as real, DefaultQuality)
  }

  /** (a * b) / d computed as a * (b / d), as the source does. */
  lemma ScaleAssoc(a: int, b: int, d: real)
    requires d != 0.0
    ensures (a * b) as real / d == a as real * (b as real / d)
  {
  }

  /** Math.max. */
  function Max(a: real, b: real): (r: real)
    ensures r >= a && r >= b && (r == a || r == b)
  {
    if a >= b then a else b
  }

  /** Purpose mode: scaled by size / max(w, h), so the longer edge becomes size. */
  function PurposePlan(w: Pos, h: Pos, size: int): (r: Plan)
    ensures w >= h ==> r.width == size && r.height as real - 0.5 <= (h * size) as real / w as real < r.height as real + 0.5
    ensures h >= w ==> r.height == size && r.width as real - 0.5 <= (w * size) as real / h as real < r.width as real + 0.5
    ensures r.dx == r.dy == 0.0 && r.dw == r.width as real && r.dh == r.height as real
    ensures r.quality == DefaultQuality
  {
    var scale := size as real / Max(w as real, h as real);
    var finalW := Round(w as real * scale);
    var finalH := Round(h as real * scale);
    LongEdgeScale(w, h, size, scale);
    LongEdgeScale(h, w, size, scale);
    Plan(finalW, finalH, 0.0, 0.0, finalW as real, finalH as real, DefaultQuality)
  }

  /** Scaling by size / max(w, h) takes a longest edge w to size, and the
      other edge h to h * size / w. */
  lemma LongEdgeScale(w: Pos, h: Pos, size: int, scale: real)
    requires scale == size as real / Max(w as real, h as real)
    ensures w >= h ==> w as real * scale == size as real
    ensures w >= h ==> h as real * scale == (h * size) as real / w as real
  {
  }

  /** The print box turned to the source's orientation: swapped exactly when
      the source is landscape and the box portrait, or the reverse. */
  function Orient(w: Pos, h: Pos, tW: Pos, tH: Pos): (r: (Pos, Pos))
    ensures r == (tW, tH) || r == (tH, tW)
    ensures w > h ==> r.0 >= r.1
    ensures w < h ==> r.0 <= r.1
    ensures w == h ==> r == (tW, tH)
  {
    if (w > h && tW < tH) || (w < h && tW > tH) then (tH, tW) else (tW, tH)
  }

  /** Print mode: cover-crop. The source is scaled by the smallest ratio that
      covers the oriented box on both axes and drawn centred, so the canvas
      is exactly the box and the overflow is cut evenly from both sides. */
  function PrintPlan(w: Pos, h: Pos, target: PrintSize): (r: Plan)
    ensures (r.width, r.height) == Orient(w, h, Box(target).0, Box(target).1)
    ensures r.dw >= r.width as real && r.dh >= r.height as real
    ensures r.dw == r.width as real || r.dh == r.height as real
    ensures r.dw * h as real == r.dh * w as real
    ensures r.dx <= 0.0 && r.dy <= 0.0 && (r.dx == 0.0 || r.dy == 0.0)
    ensures 2.0 * r.dx + r.dw == r.width as real && 2.0 * r.dy + r.dh == r.height as real
    ensures r.quality == DefaultQuality
  {
    var (tW, tH) := Box(target);
    var (targetW, targetH) := Orient(w, h, tW, tH);
    CoverPlan(w, h, targetW, targetH)
  }

  /** Scales w x h to cover targetW x targetH and centres it on that canvas. */
  function CoverPlan(w: Pos, h: Pos, targetW: Pos, targetH: Pos): (r: Plan)
    ensures r.width == targetW && r.height == targetH
    ensures r.dw >= targetW as real && r.dh >= targetH as real
    ensures r.dw == targetW as real || r.dh == targetH as real
    ensures r.dw * h as real == r.dh * w as real
    ensures r.dx <= 0.0 && r.dy <= 0.0 && (r.dx == 0.0 || r.dy == 0.0)
    ensures 2.0 * r.dx + r.dw == targetW as real && 2.0 * r.dy + r.dh == targetH as real
    ensures r.quality == DefaultQuality
  {
    var ratioW := targetW as real / w as real;
    var ratioH := targetH as real / h as real;
    var ratio := Max(ratioW, ratioH);
    var sw := w as real * ratio;
    var sh := h as real * ratio;
    var centerW := (sw - targetW as real) / 2.0;
    var centerH := (sh - targetH as real) / 2.0;
    CoverRatio(w, h, targetW, targetH, ratio);
    assert sw * h as real == sh * w as real by {
      MulSwap(w as real, h as real, ratio);
    }
    Plan(targetW, targetH, -centerW, -centerH, sw, sh, DefaultQuality)
  }

  lemma MulSwap(a: real, b: real, c: real)
    ensures (a * c) * b == (b * c) * a
  {
  }

  /** The larger of the two per-axis ratios covers both axes, and meets one exactly. */
  lemma CoverRatio(w: Pos, h: Pos, tW: Pos, tH: Pos, ratio: real)
    requires ratio == Max(tW as real / w as real, tH as real / h as real)
    ensures w as real * ratio >= tW as real && h as real * ratio >= tH as real
    ensures w as real * ratio == tW as real || h as real * ratio == tH as real
  {
  }

  /** Quality mode: the image keeps its size, only the quality changes. */
  function QualityPlan(w: Pos, h: Pos, quality: real): (r: Plan)
    ensures r.width == w && r.height == h
    ensures r.dx == r.dy == 0.0 && r.dw == w as real && r.dh == h as real
    ensures r.quality == quality
  {
    Plan(w, h, 0.0, 0.0, w as real, h as real, quality)
  }

  /** The plan for one image of size w x h under the batch's settings. */
  function PlanFor(w: Pos, h: Pos, s: Settings): (r: Plan)
    ensures !s.QualitySettings? ==> r.quality == DefaultQuality
    ensures s.QualitySettings? ==> r.quality == s.quality && r.width == w && r.height == h
    ensures s.PrintSettings? ==> (r.width, r.height) == Orient(w, h, Box(s.target).0, Box(s.target).1)
  {
    match s
    case PercentageSettings(p) => PercentagePlan(w, h, p)
    case PurposeSettings(size) => PurposePlan(w, h, size)
    case PrintSettings(t) => PrintPlan(w, h, t)
    case QualitySettings(q) => QualityPlan(w, h, q)
  }

  /** Round is the unique integer within half a unit of x, halves going up. */
  lemma RoundUnique(x: real, k: int)
    requires k as real - 0.5 <= x < k as real + 0.5
    ensures k == Round(x)
  {
  }

  /** At 100 percent the image keeps its size. */
  lemma PercentageHundredKeepsSize(w: Pos, h: Pos)
    ensures PercentagePlan(w, h, 100).width == w && PercentagePlan(w, h, 100).height == h
  {
  }

  /** Percentage output is Math.round(w * p / 100) x Math.round(h * p / 100). */
  lemma PercentageIsRounded(w: Pos, h: Pos, percent: int)
    ensures PercentagePlan(w, h, percent).width == Round((w * percent) as real / 100.0)
    ensures PercentagePlan(w, h, percent).height == Round((h * percent) as real / 100.0)
  {
  }

  /** No ratio smaller than the one the cover-crop uses still covers the box:
      the drawn image is the smallest scaled copy that fills the canvas. */
  lemma CoverIsSmallest(w: Pos, h: Pos, targetW: Pos, targetH: Pos, k: real)
    requires w as real * k >= targetW as real && h as real * k >= targetH as real
    ensures CoverPlan(w, h, targetW, targetH).dw <= w as real * k
    ensures CoverPlan(w, h, targetW, targetH).dh <= h as real * k
  {
  }

  /** Example: a 4000 x 3000 photo on a 4x6 print becomes
      1200 x 800, scaled by 0.3 and cropped 50 pixels top and bottom. */
  lemma PrintExampleFourBySix()
    ensures PrintPlan(4000, 3000, P4x6) == Plan(1200, 800, 0.0, -50.0, 1200.0, 900.0, DefaultQuality)
  {
  }

  /** A square source keeps the box as the table gives it; otherwise the box
      ends up with the source's orientation. */
  lemma PrintFollowsOrientation(w: Pos, h: Pos, target: PrintSize)
    ensures var r := PrintPlan(w, h, target);
      && (w == h ==> (r.width, r.height) == Box(target))
      && (w > h ==> r.width >= r.height)
      && (w < h ==> r.width <= r.height)
      && {r.width, r.height} == {Box(target).0, Box(target).1}
  {
  }

  /** "20x24" reuses the 16x20 box of the table; every other key but "4x6" is portrait. */
  lemma BoxTable(s: PrintSize)
    ensures Box(P20x24) == Box(P16x20)
    ensures s != P4x6 ==> Box(s).0 < Box(s).1
    ensures Box(P4x6).0 > Box(P4x6).1
  {
  }
}
