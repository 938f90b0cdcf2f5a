/** Choice of the HDMI video mode for the external display (hwc/hwc.c). */
module HdmiMode {
  import opened HwcCrop
  import opened HwcGeometry
  import opened HwcLayers
  import opened Wrappers

  // ---------------------------------------------------------------- the packed score

  /** `(s << k) | x` for a field that fits its `k` bits, with `m == 2^k`. */
  function Packed(s: nat, m: nat, x: nat): nat
    requires x < m
  {
    s * m + x
  }

  /** A fitting field never disturbs the comparison of the more significant ones. */
  lemma PackedCompares(s: nat, t: nat, m: nat, x: nat, y: nat)
    requires x < m && y < m
    ensures Packed(s, m, x) < Packed(t, m, y) <==> s < t || (s == t && x < y)
  {
    if s < t {
      MulMono(s + 1, t, m);
      Distr(s, 1, m);
    } else if t < s {
      MulMono(t + 1, s, m);
      Distr(t, 1, m);
    }
  }

  /** What the score says about a mode, most significant first. */
  datatype Merits = Merits(cea: nat, upscale: nat, same: nat, scaling: nat, leftover: nat, notSlower: nat,
                           closeness: nat)

  predicate FitBits(q: Merits) {
    && q.cea < 2 && q.upscale < 2 && q.same < 2
    && q.scaling <= 16 && q.leftover <= 16
    && q.notSlower < 2 && q.closeness <= 240
  }

  /** The score as the code assembles it: `upscale` is inserted above the lowest bit. */
  function Assemble(q: Merits): nat
    requires FitBits(q)
  {
    var s0 := Packed(q.cea, 2, q.same);
    var s1 := Packed(s0 - s0 % 2 + q.upscale, 2, s0 % 2);
    Packed(Packed(Packed(Packed(s1, 32, q.scaling), 32, q.leftover), 2, q.notSlower), 256, q.closeness)
  }

  /** Lexicographic order of merits. */
  predicate Worse(p: Merits, q: Merits) {
    p.cea < q.cea || (p.cea == q.cea &&
    (p.upscale < q.upscale || (p.upscale == q.upscale &&
    (p.same < q.same || (p.same == q.same &&
    (p.scaling < q.scaling || (p.scaling == q.scaling &&
    (p.leftover < q.leftover || (p.leftover == q.leftover &&
    (p.notSlower < q.notSlower || (p.notSlower == q.notSlower &&
    p.closeness < q.closeness)))))))))))
  }

  function Head(q: Merits): nat
    requires FitBits(q)
  {
    Packed(Packed(q.cea, 2, q.upscale), 2, q.same)
  }

  lemma HeadInserted(q: Merits)
    requires FitBits(q)
    ensures var s0 := Packed(q.cea, 2, q.same);
            Packed(s0 - s0 % 2 + q.upscale, 2, s0 % 2) == Head(q)
  {
    if q.cea == 0 {
      assert Packed(q.cea, 2, q.same) == q.same;
    } else {
      assert Packed(q.cea, 2, q.same) == 2 + q.same;
    }
  }

  lemma HeadCompares(p: Merits, q: Merits)
    requires FitBits(p) && FitBits(q)
    ensures Head(p) < Head(q) <==>
            p.cea < q.cea || (p.cea == q.cea && (p.upscale < q.upscale || (p.upscale == q.upscale && p.same < q.same)))
    ensures Head(p) == Head(q) <==> p.cea == q.cea && p.upscale == q.upscale && p.same == q.same
  {
  }

  /** Comparing packed scores is comparing merits lexicographically. */
  lemma ScoresCompareMerits(p: Merits, q: Merits)
    requires FitBits(p) && FitBits(q)
    ensures Assemble(p) < Assemble(q) <==> Worse(p, q)
    ensures Assemble(p) == Assemble(q) <==> p == q
    ensures Assemble(p) < 0x40_0000
  {
    AssembledAs(p);
    AssembledAs(q);
    HeadCompares(p, q);
    HeadCompares(q, p);
    TailCompares(Head(p), Head(q), p, q);
    TailCompares(Head(q), Head(p), q, p);
    TailBounds(Head(p), p);
  }

  lemma AssembledAs(q: Merits)
    requires FitBits(q)
    ensures Assemble(q) == Tail(Head(q), q) && Head(q) < 8
  {
    HeadInserted(q);
  }

  function Tail(h: nat, q: Merits): nat
    requires FitBits(q)
  {
    Packed(Packed(Packed(Packed(h, 32, q.scaling), 32, q.leftover), 2, q.notSlower), 256, q.closeness)
  }

  lemma TailBounds(h: nat, q: Merits)
    requires FitBits(q) && h < 8
    ensures Tail(h, q) < 0x40_0000
  {
  }

  lemma TailCompares(h: nat, g: nat, p: Merits, q: Merits)
    requires FitBits(p) && FitBits(q)
    ensures Tail(h, p) < Tail(g, q) <==>
            h < g || (h == g &&
            (p.scaling < q.scaling || (p.scaling == q.scaling &&
            (p.leftover < q.leftover || (p.leftover == q.leftover &&
            (p.notSlower < q.notSlower || (p.notSlower == q.notSlower &&
            p.closeness < q.closeness)))))))
  {
    var s, t := Packed(h, 32, p.scaling), Packed(g, 32, q.scaling);
    PackedCompares(h, g, 32, p.scaling, q.scaling);
    PackedCompares(g, h, 32, q.scaling, p.scaling);
    var s1, t1 := Packed(s, 32, p.leftover), Packed(t, 32, q.leftover);
    PackedCompares(s, t, 32, p.leftover, q.leftover);
    PackedCompares(t, s, 32, q.leftover, p.leftover);
    var s2, t2 := Packed(s1, 2, p.notSlower), Packed(t1, 2, q.notSlower);
    PackedCompares(s1, t1, 2, p.notSlower, q.notSlower);
    PackedCompares(t1, s1, 2, q.notSlower, p.notSlower);
    PackedCompares(s2, t2, 256, p.closeness, q.closeness);
  }

  // ---------------------------------------------------------------- merits of a mode

  /** An entry of the mode database; `otherVmode` stands for every scan mode but interlacing. */
  datatype VideoMode = VideoMode(xres: nat, yres: nat, pixclock: nat, interlaced: bool, otherVmode: bool,
                                 ratio4to3: bool, ratio16to9: bool, refresh: nat)

  /** What the display reports, with its current timings. */
  datatype Info = Info(widthMm: nat, heightMm: nat, xres: nat, yres: nat, pixelClock: nat, digit: bool,
                       modes: seq<VideoMode>)

  /** What the picture to be shown and the device settings require. */
  datatype Wanted = Wanted(xres: nat, yres: nat, xpy: real, avoidModeChange: bool, mirrorMode: Option<nat>,
                           limits: Limits)

  const MIRROR_REFRESH := 60

  function Lines(v: VideoMode): nat { if v.interlaced then v.yres / 2 else v.yres }

  /** Resolution of a mode, and its picture size as a ratio or in millimetres. */
  function ModeScreen(d: Info, v: VideoMode): Screen {
    if v.ratio4to3 then Screen(v.xres, Lines(v), 4, 3)
    else if v.ratio16to9 then Screen(v.xres, Lines(v), 16, 9)
    else Screen(v.xres, Lines(v), d.widthMm, d.heightMm)
  }

  predicate Showable(w: Wanted) { w.xres * w.yres != 0 && w.xpy > 0.0 }

  function Fitted(w: Wanted, s: Screen): (nat, nat)
    requires w.xpy > 0.0
  {
    MaxDimensions(w.xres, w.yres, w.xpy, s)
  }

  /** Even 2D buffers must be scalable to the mode. */
  predicate Feasible(w: Wanted, d: Info, v: VideoMode)
    requires w.xpy > 0.0
  {
    && v.xres != 0 && Lines(v) != 0
    && v.pixclock != 0 && !v.otherVmode
    && var (x, y) := Fitted(w, ModeScreen(d, v));
       CanScale(w.xres, w.yres, x, y, true, Display(d.digit, d.pixelClock), w.limits, 1000000000 / v.pixclock, None)
  }

  function Refresh(v: VideoMode): nat {
    var r := if v.refresh == 0 then 1 else v.refresh;
    if r % 6 == 5 then r + 1 else r
  }

  /** Smaller over larger area, in sixteenths. */
  function ScalingField(area: nat, extArea: nat): nat
    requires area > 0
  {
    if extArea > area then 16 * area / extArea else 16 * extArea / area
  }

  function LeftoverField(extArea: nat, modeArea: nat): nat
    requires modeArea > 0
  {
    (16 * extArea + modeArea / 2) / modeArea
  }

  function ClosenessField(refresh: nat, modeRefresh: nat): nat
    requires refresh > 0
  {
    if modeRefresh > refresh then 240 * refresh / modeRefresh else 240 * modeRefresh / refresh
  }

  function MeritsOf(w: Wanted, d: Info, v: VideoMode, same: bool): Merits
    requires Showable(w) && v.xres * Lines(v) != 0
  {
    var (x, y) := Fitted(w, ModeScreen(d, v));
    MeritsFor(w, v, x, y, same)
  }

  /** The merits of a mode that shows the picture with `x` by `y` pixels. */
  function MeritsFor(w: Wanted, v: VideoMode, x: nat, y: nat, same: bool): Merits
    requires Showable(w) && v.xres * Lines(v) != 0
  {
    Merits(if v.ratio4to3 || v.ratio16to9 then 1 else 0,
           if x >= w.xres * 99 / 100 && y >= w.yres * 99 / 100 then 1 else 0,
           if same then 1 else 0,
           ScalingField(w.xres * w.yres, x * y),
           LeftoverField(x * y, v.xres * Lines(v)),
           if Refresh(v) >= MIRROR_REFRESH then 1 else 0,
           ClosenessField(MIRROR_REFRESH, Refresh(v)))
  }

  lemma QuotientBound(x: nat, y: nat, n: nat)
    requires y > 0 && x < (n + 1) * y
    ensures x / y <= n
  {
    if x / y > n {
      MulMono(n + 1, x / y, y);
    }
  }

  lemma ScalingFits(area: nat, extArea: nat)
    requires area > 0
    ensures ScalingField(area, extArea) <= 16
    ensures ScalingField(area, extArea) == 16 <==> area == extArea
  {
    if extArea > area {
      QuotientBound(16 * area, extArea, 15);
    } else {
      QuotientBound(16 * extArea, area, 16);
      if extArea < area {
        QuotientBound(16 * extArea, area, 15);
      }
    }
  }

  lemma LeftoverFits(extArea: nat, modeArea: nat)
    requires modeArea > 0 && extArea <= modeArea
    ensures LeftoverField(extArea, modeArea) <= 16
  {
    QuotientBound(16 * extArea + modeArea / 2, modeArea, 16);
  }

  lemma ExactQuotient(n: nat, y: nat)
    requires y > 0
    ensures n * y / y == n
  {
    QuotientBound(n * y, y, n);
    if n * y / y < n {
      MulMono(n * y / y + 1, n, y);
    }
  }

  lemma ClosenessFits(refresh: nat, modeRefresh: nat)
    requires refresh > 0
    ensures ClosenessField(refresh, modeRefresh) <= 240
    ensures ClosenessField(refresh, modeRefresh) == 240 <==> refresh == modeRefresh
  {
    if modeRefresh > refresh {
      QuotientBound(240 * refresh, modeRefresh, 239);
    } else if modeRefresh < refresh {
      QuotientBound(240 * modeRefresh, refresh, 239);
    } else {
      ExactQuotient(240, refresh);
    }
  }

  lemma AreaMono(x: nat, y: nat, x': nat, y': nat)
    requires x <= x' && y <= y'
    ensures x * y <= x' * y'
  {
    MulMono(x, x', y);
    MulMono(y, y', x');
  }

  /** Every field fits its bits, because the picture never exceeds the mode. */
  lemma MeritsFit(w: Wanted, d: Info, v: VideoMode, same: bool)
    requires Showable(w) && v.xres * Lines(v) != 0
    ensures FitBits(MeritsOf(w, d, v, same))
  {
    var (x, y) := Fitted(w, ModeScreen(d, v));
    AreaMono(x, y, v.xres, Lines(v));
    ScalingFits(w.xres * w.yres, x * y);
    LeftoverFits(x * y, v.xres * Lines(v));
    ClosenessFits(MIRROR_REFRESH, Refresh(v));
  }

  // ---------------------------------------------------------------- feasible modes

  /** The surface a mode is shown on: a ratio, or the display in millimetres, or square pixels. */
  function ModeSurface(d: Info, v: VideoMode, lines: nat): (nat, nat) {
    if v.ratio4to3 then (4, 3)
    else if v.ratio16to9 then (16, 9)
    else if d.widthMm > 0 && d.heightMm > 0 then (d.widthMm, d.heightMm)
    else (v.xres, lines)
  }

  /** The picture has the shape of the source on the surface of the mode, interlaced modes having half
      the lines. */
  lemma PictureKeepsShape(w: Wanted, d: Info, v: VideoMode, lines: nat, x: real, y: real)
    requires w.xpy > 0.0 && lines == v.yres / (if v.interlaced then 2 else 1)
    requires var (width, height) := ModeSurface(d, v, lines);
             x == w.xres as real * w.xpy * height as real && y == w.yres as real * width as real
    ensures var (pw, ph) := Fitted(w, ModeScreen(d, v)); Shaped(x, y, v.xres, lines, pw as real, ph as real)
  {
    assert ModeScreen(d, v).xres == v.xres && ModeScreen(d, v).yres == lines;
    assert Surface(ModeScreen(d, v)) == ModeSurface(d, v, lines);
    MaxDimensionsKeepShape(w.xres, w.yres, w.xpy, ModeScreen(d, v), x, y);
  }

  /** A feasible mode has pixels and a clock, scans in no way but interlaced, and does not shrink the picture
      to less than a quarter. */
  lemma FeasibleShows(w: Wanted, d: Info, v: VideoMode)
    requires w.xpy > 0.0 && Feasible(w, d, v)
    ensures v.xres > 0 && v.yres > 0 && (v.interlaced ==> v.yres > 1) && v.pixclock > 0 && !v.otherVmode
    ensures var p := Fitted(w, ModeScreen(d, v));
            w.yres < 4 * (p.1 + 1) && (v.pixclock <= 1000000000 ==> w.xres <= 4 * p.0)
  {
    var p, pclk := Fitted(w, ModeScreen(d, v)), 1000000000 / v.pixclock;
    ShrinksWithin(w.xres, w.yres, p.0, p.1, true, Display(d.digit, d.pixelClock), w.limits, pclk, None);
  }

  /** A mode of the size and shape of the picture is feasible, unless it scans otherwise or is too narrow,
      if the scaler keeps up with its clock. */
  lemma SameSizeFeasible(w: Wanted, d: Info, v: VideoMode, x: real, y: real)
    requires w.xpy > 0.0 && v.pixclock > 0 && v.xres == w.xres > 0
    requires w.yres == v.yres / (if v.interlaced then 2 else 1) && w.yres > 0
    requires var (width, height) := ModeSurface(d, v, w.yres);
             x == w.xres as real * w.xpy * height as real && y == w.yres as real * width as real
    requires !(x < y * 0.98) && !(y < x * 0.98)
    requires var pclk := 1000000000 / v.pixclock;
             InRange(w.limits, pclk, w.xres, w.yres) && pclk <= w.limits.fclk / 1000
    ensures Feasible(w, d, v) <==> !v.otherVmode && (d.digit || w.xres >= w.limits.minWidth)
  {
    PictureKeepsShape(w, d, v, w.yres, x, y);
    UnscaledFits(w.xres, w.yres, true, Display(d.digit, d.pixelClock), w.limits, 1000000000 / v.pixclock, None);
  }

  // ---------------------------------------------------------------- what the merits are

  /** `q` is the smaller of `x` and `y` as a share of the larger, in `n`-ths, rounded down. */
  ghost predicate ShareOf(q: nat, n: nat, x: nat, y: nat) {
    var lo, hi := if x < y then x else y, if x < y then y else x;
    q * hi <= n * lo < (q + 1) * hi
  }

  /** `q` is `x` as a share of `y`, in `n`-ths, rounded to nearest. */
  ghost predicate NearestShare(q: nat, n: nat, x: nat, y: nat) { 0 <= 2 * (q * y - n * x) + y <= 2 * y }

  /** The rate of a mode, at least one, where one below a multiple of six stands for that multiple. */
  ghost predicate IsRate(v: VideoMode, rate: nat) {
    if v.refresh == 0 then rate == 1
    else if (v.refresh + 1) % 6 == 0 then rate == v.refresh + 1
    else rate == v.refresh
  }

  lemma DivisionRounds(n: nat, y: nat)
    requires y > 0
    ensures n / y * y <= n < (n / y + 1) * y
  {
  }

  lemma ScalingMeans(area: nat, picture: nat)
    requires area > 0
    ensures ShareOf(ScalingField(area, picture), 16, area, picture)
  {
    if picture > area {
      DivisionRounds(16 * area, picture);
    } else {
      DivisionRounds(16 * picture, area);
    }
  }

  lemma LeftoverMeans(picture: nat, modeArea: nat)
    requires modeArea > 0
    ensures NearestShare(LeftoverField(picture, modeArea), 16, picture, modeArea)
  {
    DivisionRounds(16 * picture + modeArea / 2, modeArea);
    var q := LeftoverField(picture, modeArea);
    assert (q + 1) * modeArea == q * modeArea + modeArea;
  }

  lemma ClosenessMeans(rate: nat, modeRate: nat)
    requires rate > 0
    ensures ShareOf(ClosenessField(rate, modeRate), 240, rate, modeRate)
  {
    if modeRate > rate {
      DivisionRounds(240 * rate, modeRate);
    } else {
      DivisionRounds(240 * modeRate, rate);
    }
  }

  lemma Upscales(x: nat, n: nat)
    ensures x >= n * 99 / 100 <==> 100 * (x + 1) > 99 * n
  {
  }

  /** What each merit says, in terms of the mode and of the picture (x, y) that fits it. */
  ghost predicate MeritsSay(q: Merits, w: Wanted, v: VideoMode, x: nat, y: nat, same: bool, rate: nat) {
    && (q.cea == 1 <==> v.ratio4to3 || v.ratio16to9)
    && (q.upscale == 1 <==> 100 * (x + 1) > 99 * w.xres && 100 * (y + 1) > 99 * w.yres)
    && (q.same == 1 <==> same)
    && (q.notSlower == 1 <==> rate >= 60)
    && FieldsSay(q, w.xres * w.yres, x * y, v.xres * Lines(v), rate)
  }

  ghost predicate FieldsSay(q: Merits, area: nat, picture: nat, modeArea: nat, rate: nat) {
    && ShareOf(q.scaling, 16, area, picture)
    && NearestShare(q.leftover, 16, picture, modeArea)
    && ShareOf(q.closeness, 240, 60, rate)
  }

  lemma MeritsMean(w: Wanted, v: VideoMode, x: nat, y: nat, same: bool, rate: nat)
    requires Showable(w) && v.xres * Lines(v) != 0 && IsRate(v, rate)
    ensures MeritsSay(MeritsFor(w, v, x, y, same), w, v, x, y, same, rate)
  {
    FlagsMean(w, v, x, y, same, rate);
    Product(w.xres, w.yres);
    Product(x, y);
    Product(v.xres, Lines(v));
    FieldsAre(w, v, x, y, same, rate, w.xres * w.yres, x * y, v.xres * Lines(v));
  }

  lemma FieldsAre(w: Wanted, v: VideoMode, x: nat, y: nat, same: bool, rate: nat, area: nat, picture: nat,
                  modeArea: nat)
    requires Showable(w) && v.xres * Lines(v) != 0 && IsRate(v, rate)
    requires area == w.xres * w.yres && picture == x * y && modeArea == v.xres * Lines(v)
    ensures FieldsSay(MeritsFor(w, v, x, y, same), area, picture, modeArea, rate)
  {
    FieldsByArea(w, v, x, y, same, area, picture, modeArea);
    RefreshIs(v, rate);
    FieldsMean(MeritsFor(w, v, x, y, same), area, picture, modeArea, rate);
  }

  lemma FieldsByArea(w: Wanted, v: VideoMode, x: nat, y: nat, same: bool, area: nat, picture: nat, modeArea: nat)
    requires Showable(w) && v.xres * Lines(v) != 0
    requires area == w.xres * w.yres && picture == x * y && modeArea == v.xres * Lines(v)
    ensures area > 0 && modeArea > 0
    ensures var q := MeritsFor(w, v, x, y, same);
            && q.scaling == ScalingField(area, picture) && q.leftover == LeftoverField(picture, modeArea)
            && q.closeness == ClosenessField(60, Refresh(v))
  {
  }

  lemma RefreshIs(v: VideoMode, rate: nat)
    requires IsRate(v, rate)
    ensures Refresh(v) == rate
  {
  }

  lemma Product(x: nat, y: nat)
    ensures x * y >= 0
  {
  }

  lemma FlagsMean(w: Wanted, v: VideoMode, x: nat, y: nat, same: bool, rate: nat)
    requires Showable(w) && v.xres * Lines(v) != 0 && IsRate(v, rate)
    ensures var q := MeritsFor(w, v, x, y, same);
            && (q.cea == 1 <==> v.ratio4to3 || v.ratio16to9)
            && (q.upscale == 1 <==> 100 * (x + 1) > 99 * w.xres && 100 * (y + 1) > 99 * w.yres)
            && (q.same == 1 <==> same) && (q.notSlower == 1 <==> rate >= 60)
  {
    Upscales(x, w.xres);
    Upscales(y, w.yres);
  }

  /** The merits that modes are chosen by. */
  lemma MeritsAtMean(w: Wanted, d: Info, i: nat, rate: nat)
    requires Showable(w) && i < |d.modes| && Feasible(w, d, d.modes[i]) && IsRate(d.modes[i], rate)
    ensures var p := Fitted(w, ModeScreen(d, d.modes[i]));
            MeritsSay(MeritsAt(w, d, i), w, d.modes[i], p.0, p.1, w.avoidModeChange && w.mirrorMode == Some(i), rate)
  {
    var v, p := d.modes[i], Fitted(w, ModeScreen(d, d.modes[i]));
    NonZero(v.xres, Lines(v));
    MeritsMean(w, v, p.0, p.1, w.avoidModeChange && w.mirrorMode == Some(i), rate);
  }

  lemma FieldsMean(q: Merits, area: nat, picture: nat, modeArea: nat, rate: nat)
    requires area > 0 && modeArea > 0
    requires q.scaling == ScalingField(area, picture) && q.leftover == LeftoverField(picture, modeArea)
    requires q.closeness == ClosenessField(60, rate)
    ensures FieldsSay(q, area, picture, modeArea, rate)
  {
    ScalingMeans(area, picture);
    LeftoverMeans(picture, modeArea);
    ClosenessMeans(60, rate);
  }

  function MeritsAt(w: Wanted, d: Info, i: nat): (q: Merits)
    requires Showable(w) && i < |d.modes| && Feasible(w, d, d.modes[i])
    ensures FitBits(q)
  {
    NonZero(d.modes[i].xres, Lines(d.modes[i]));
    MeritsFit(w, d, d.modes[i], w.avoidModeChange && w.mirrorMode == Some(i));
    MeritsOf(w, d, d.modes[i], w.avoidModeChange && w.mirrorMode == Some(i))
  }

  lemma NonZero(x: nat, y: nat)
    requires x != 0 && y != 0
    ensures x * y != 0
  {
  }

  function Score(w: Wanted, d: Info, i: nat): nat
    requires Showable(w) && i < |d.modes| && Feasible(w, d, d.modes[i])
  {
    Assemble(MeritsAt(w, d, i))
  }

  // ---------------------------------------------------------------- the choice

  /** `b` is the first mode with the highest score among the first `n`; none if all scores are 0. */
  ghost predicate IsBest(w: Wanted, d: Info, n: nat, b: Option<nat>)
    requires Showable(w) && n <= |d.modes|
  {
    match b
    case None => forall i :: 0 <= i < n && Feasible(w, d, d.modes[i]) ==> Score(w, d, i) == 0
    case Some(k) =>
      && k < n && Feasible(w, d, d.modes[k]) && Score(w, d, k) > 0
      && forall i :: 0 <= i < n && Feasible(w, d, d.modes[i]) ==>
           Score(w, d, i) < Score(w, d, k) || (Score(w, d, i) == Score(w, d, k) && k <= i)
  }

  lemma BestIsUnique(w: Wanted, d: Info, b: Option<nat>, b': Option<nat>)
    requires Showable(w) && IsBest(w, d, |d.modes|, b) && IsBest(w, d, |d.modes|, b')
    ensures b == b'
  {
    if b.Some? && b'.Some? {
      assert Score(w, d, b'.value) <= Score(w, d, b.value);
    }
  }

  /** The chosen mode has the lexicographically best merits, and is the first of its equals. */
  lemma BestHasBestMerits(w: Wanted, d: Info, b: nat, i: nat)
    requires Showable(w) && IsBest(w, d, |d.modes|, Some(b)) && i < |d.modes| && Feasible(w, d, d.modes[i])
    ensures !Worse(MeritsAt(w, d, b), MeritsAt(w, d, i))
    ensures i < b ==> Worse(MeritsAt(w, d, i), MeritsAt(w, d, b))
  {
    ScoresCompareMerits(MeritsAt(w, d, b), MeritsAt(w, d, i));
    ScoresCompareMerits(MeritsAt(w, d, i), MeritsAt(w, d, b));
    assert Score(w, d, i) <= Score(w, d, b);
  }

  function ScoreOf(w: Wanted, d: Info, best: Option<nat>): nat
    requires Showable(w) && (best.Some? ==> best.value < |d.modes| && Feasible(w, d, d.modes[best.value]))
  {
    if best.Some? then Score(w, d, best.value) else 0
  }

  /** One turn of the loop: mode `i` takes over exactly if its score is strictly higher. */
  lemma BestStep(w: Wanted, d: Info, i: nat, best: Option<nat>)
    requires Showable(w) && i < |d.modes| && IsBest(w, d, i, best)
    ensures var better := Feasible(w, d, d.modes[i]) && ScoreOf(w, d, best) < Score(w, d, i);
            IsBest(w, d, i + 1, if better then Some(i) else best)
  {
  }

  datatype Status = Ok | QueryFailed | InvalidSize | CannotScale

  predicate Timed(d: Info) { d.xres * d.yres != 0 }

  /** The picture at the current timings. */
  function CurrentPicture(w: Wanted, d: Info): (nat, nat)
    requires w.xpy > 0.0
  {
    Fitted(w, Screen(d.xres, d.yres, d.widthMm, d.heightMm))
  }

  /** Can the current timings show the picture, if no mode is chosen? */
  predicate CurrentWorks(w: Wanted, d: Info)
    requires w.xpy > 0.0
  {
    var (x, y) := CurrentPicture(w, d);
    d.pixelClock != 0 &&
    CanScale(w.xres, w.yres, x, y, true, Display(d.digit, d.pixelClock), w.limits, d.pixelClock, None)
  }

  /** The surface that the current timings are shown on. */
  function CurrentSurface(d: Info): (nat, nat) {
    if d.widthMm > 0 && d.heightMm > 0 then (d.widthMm, d.heightMm) else (d.xres, d.yres)
  }

  /** The picture has the shape of the source on the display as it is. */
  lemma CurrentKeepsShape(w: Wanted, d: Info, x: real, y: real)
    requires w.xpy > 0.0
    requires var (width, height) := CurrentSurface(d);
             x == w.xres as real * w.xpy * height as real && y == w.yres as real * width as real
    ensures var p := CurrentPicture(w, d); Shaped(x, y, d.xres, d.yres, p.0 as real, p.1 as real)
  {
    var s := Screen(d.xres, d.yres, d.widthMm, d.heightMm);
    assert Surface(s) == CurrentSurface(d);
    MaxDimensionsKeepShape(w.xres, w.yres, w.xpy, s, x, y);
  }

  /** The timings work only with a pixel clock, and without shrinking the picture below a quarter. */
  lemma CurrentShows(w: Wanted, d: Info)
    requires w.xpy > 0.0 && CurrentWorks(w, d)
    ensures var p := CurrentPicture(w, d); d.pixelClock > 0 && w.xres <= 4 * p.0 && w.yres < 4 * (p.1 + 1)
  {
    var p := CurrentPicture(w, d);
    ShrinksWithin(w.xres, w.yres, p.0, p.1, true, Display(d.digit, d.pixelClock), w.limits, d.pixelClock, None);
  }

  class ExternalDisplay {
    var screen: Screen
    var lastMode: Option<nat>
    var lastUsed: (nat, nat, real)
    var onTv: bool

    constructor ()
      ensures lastMode.None? && !onTv
    {
      screen, lastMode, lastUsed, onTv := Screen(0, 0, 0, 0), None, (0, 0, 0.0), false;
    }

    /** Go through the mode database; `screen` follows the best mode so far. */
    method SelectMode(w: Wanted, d: Info) returns (best: Option<nat>)
      requires Showable(w)
      modifies this`screen
      ensures IsBest(w, d, |d.modes|, best)
      ensures screen == if best.Some? then ModeScreen(d, d.modes[best.value]) else old(screen)
    {
      best := None;
      var bestScore := 0;
      for i := 0 to |d.modes|
        invariant IsBest(w, d, i, best)
        invariant bestScore == ScoreOf(w, d, best)
        invariant screen == if best.Some? then ModeScreen(d, d.modes[best.value]) else old(screen)
      {
        BestStep(w, d, i, best);
        if Feasible(w, d, d.modes[i]) {
          var score := Score(w, d, i);
          if bestScore < score {
            screen := ModeScreen(d, d.modes[i]);
            best := Some(i);
            bestScore := score;
          }
        }
      }
    }

    /** `set_best_hdmi_mode`; `setup` is the mode that the display is switched to. */
    method SetBestMode(w: Wanted, info: Option<Info>) returns (r: Status, setup: Option<nat>)
      requires w.xpy > 0.0
      modifies this
      ensures info.None? ==> r == QueryFailed
      ensures info.Some? && !(Timed(info.value) && Showable(w)) ==> r == InvalidSize
      ensures r == QueryFailed || r == InvalidSize ==> setup.None? && unchanged(this)
      ensures r == CannotScale ==> setup.None? && lastUsed == old(lastUsed) && onTv == old(onTv)
      ensures r == Ok ==> lastUsed == (w.xres, w.yres, w.xpy) && onTv == (old(onTv) || info.value.digit)
      ensures r == Ok || r == CannotScale ==>
                && info.Some? && Showable(w)
                && var d := info.value;
                   exists best :: IsBest(w, d, |d.modes|, best) &&
                     match best
                     case Some(b) =>
                       && r == Ok && screen == ModeScreen(d, d.modes[b]) && lastMode == Some(b)
                       && setup == if old(lastMode) == Some(b) then None else Some(b)
                     case None =>
                       && (r == Ok <==> CurrentWorks(w, d)) && setup.None? && lastMode == old(lastMode)
                       && screen == Screen(d.xres, d.yres, d.widthMm, d.heightMm)
    {
      setup := None;
      if info.None? {
        return QueryFailed, None;
      }
      var d := info.value;
      if d.xres * d.yres == 0 || w.xres * w.yres == 0 {
        return InvalidSize, None;
      }
      screen := Screen(d.xres, d.yres, d.widthMm, d.heightMm);
      if screen.xres == 0 || screen.yres == 0 {
        // the 640x480 default is dead code: the check above already excludes it
        assert false;
      }
      var best := SelectMode(w, d);
      match best {
        case Some(b) =>
          if lastMode != Some(b) {
            setup := Some(b);
          }
          lastMode := Some(b);
        case None =>
          if !CurrentWorks(w, d) {
            return CannotScale, None;
          }
      }
      lastUsed := (w.xres, w.yres, w.xpy);
      if d.digit {
        onTv := true;
      }
      return Ok, setup;
    }
  }

  // ---------------------------------------------------------------- machine width

  /** For pictures and modes below 16000 pixels a side no 32-bit product of the score wraps. */
  lemma NoOverflow(w: Wanted, d: Info, v: VideoMode)
    requires Showable(w) && v.xres * Lines(v) != 0
    requires w.xres < 16000 && w.yres < 16000 && v.xres < 16000 && v.yres < 16000 && v.refresh < 16000
    ensures var (x, y) := Fitted(w, ModeScreen(d, v));
            && w.xres * 99 < 0x1_0000_0000 && w.yres * 99 < 0x1_0000_0000
            && 16 * (w.xres * w.yres) < 0x1_0000_0000
            && 16 * (x * y) + v.xres * Lines(v) / 2 < 0x1_0000_0000
            && 240 * Refresh(v) < 0x1_0000_0000
  {
    var (x, y) := Fitted(w, ModeScreen(d, v));
    AreaMono(w.xres, w.yres, 16000, 16000);
    AreaMono(v.xres, Lines(v), 16000, 16000);
    AreaMono(x, y, 16000, 16000);
  }
}
