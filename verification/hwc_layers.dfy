/** Layers and the predicates that decide whether a display overlay can show one
    (hwc/hwc.c). */
module HwcLayers {
  import opened HwcCrop
  import opened Wrappers

  datatype Format = BGRA8888 | BGRX8888 | RGBX8888 | RGBA8888 | RGB565 | NV12 | NV12_1D | OtherFormat

  datatype Handle = Handle(format: Format, width: nat, height: nat, isProtected: bool, externalDisplay: bool)

  datatype Transform = Transform(flipH: bool, flipV: bool, rot90: bool)

  datatype Blending = Opaque | Premultiplied | Coverage

  datatype Layer = Layer(skip: bool, handle: Option<Handle>, transform: Transform, blending: Blending,
                         source: Rect, frame: Rect)

  /** What the display controller can do; the kernel reports positive divisors. */
  datatype PlatformLimits = PlatformLimits(
    fclk: nat, maxXdecim2d: nat, maxYdecim2d: nat, maxXdecim1d: nat, maxYdecim1d: nat,
    minWidth: nat, maxDownscale: nat, integerScaleRatioLimit: nat, tilerSlotSize: nat)

  type Limits = l: PlatformLimits |
      l.maxXdecim2d > 0 && l.maxYdecim2d > 0 && l.maxXdecim1d > 0 && l.maxYdecim1d > 0 && l.maxDownscale > 0
    witness PlatformLimits(0, 1, 1, 1, 1, 0, 1, 0, 0)

  /** `digit` is the HDMI channel; `pclk` is 0 for manually updated panels. */
  datatype Display = Display(digit: bool, pclk: nat)

  function Width(r: Rect): int { r.right - r.left }

  function Height(r: Rect): int { r.bottom - r.top }

  predicate IsNV12(h: Handle) { h.format.NV12? || h.format.NV12_1D? }

  predicate IsBGRFormat(f: Format) { f.RGBX8888? || f.RGBA8888? }

  predicate IsBGR(h: Handle) { IsBGRFormat(h.format) }

  predicate IsRGB(h: Handle) { h.format.BGRA8888? || h.format.BGRX8888? || h.format.RGB565? }

  predicate IsBlended(l: Layer) { !l.blending.Opaque? }

  predicate Dockable(l: Layer) { l.handle.Some? && l.handle.value.externalDisplay }

  predicate Protected(l: Layer) { l.handle.Some? && l.handle.value.isProtected }

  /** Source size as seen on the display. */
  function SourceSize(l: Layer): (int, int) {
    if l.transform.rot90 then (Height(l.source), Width(l.source)) else (Width(l.source), Height(l.source))
  }

  predicate Scaled(l: Layer) {
    var (w, h) := SourceSize(l);
    Width(l.frame) != w || Height(l.frame) != h
  }

  /** Only a scaling pipe can show this layer. */
  predicate NeedsScaler(l: Layer) {
    Scaled(l) || (l.handle.Some? && IsNV12(l.handle.value))
  }

  predicate UpscaledNV12(l: Layer, limit: real) {
    var (w, h) := SourceSize(l);
    && l.handle.Some? && IsNV12(l.handle.value)
    && (Width(l.frame) as real >= w as real * limit || Height(l.frame) as real >= h as real * limit)
  }

  function BitsPerPixel(f: Format): nat {
    match f
    case BGRA8888 | BGRX8888 | RGBX8888 | RGBA8888 => 32
    case RGB565 => 16
    case NV12 | NV12_1D => 8
    case OtherFormat => 0
  }

  function Align32(x: nat): nat { (x + 31) / 32 * 32 }

  /** TILER 1D memory of a buffer in bytes. */
  function Mem1d(h: Option<Handle>): nat {
    match h
    case None => 0
    case Some(b) =>
      if IsNV12(b) then 0 else Align32(b.width) * (if b.format.RGB565? then 2 else 4) * b.height
  }

  /** A buffer that is not video takes its lines, each padded to a multiple of 32 pixels. */
  lemma MemoryMeans(b: Handle)
    requires !IsNV12(b) && b.format != OtherFormat
    ensures exists padded: nat :: IsPadded(padded, b.width) &&
              Mem1d(Some(b)) == padded * (BitsPerPixel(b.format) / 8) * b.height
  {
    assert IsPadded(Align32(b.width), b.width);
  }

  predicate IsPadded(padded: nat, width: nat) { padded % 32 == 0 && width <= padded < width + 32 }

  function U32(x: int): nat { x % 0x1_0000_0000 }

  /** The clock of the scaler: at most what downscaling can use, and a multiple of the pixel clock for
      narrow sources. */
  function ScalerClock(limits: Limits, pclk: nat, srcW: nat): int
    requires pclk > 0
  {
    var fclk0 := limits.fclk / 1000;
    var fclk1 := if fclk0 > U32(pclk * limits.maxDownscale) then U32(pclk * limits.maxDownscale) else fclk0;
    if srcW < limits.integerScaleRatioLimit then fclk1 / pclk * pclk else fclk1
  }

  function Decimated(n: nat, decim: nat): nat
    requires decim > 0
  {
    U32(n + decim - 1) / decim
  }

  predicate CanScaleHeight(srcH: nat, dstH: nat, ydecim: nat, limits: Limits)
    requires ydecim > 0
  {
    !(dstH < srcH / 4) && !(U32(dstH * limits.maxDownscale) < Decimated(srcH, ydecim))
  }

  predicate CanScaleWidth(srcW: nat, dstW: nat, xdecim: nat, limits: Limits, pclk: nat, bpp: Option<nat>)
    requires xdecim > 0
  {
    if pclk == 0 then !(dstW < srcW / limits.maxDownscale / xdecim)
    else WideEnough(srcW, dstW, bpp) && KeepsPace(srcW, dstW, xdecim, limits, pclk)
  }

  predicate WideEnough(srcW: nat, dstW: nat, bpp: Option<nat>) {
    !(U32(dstW * 4) < srcW) && !(bpp == Some(32) && srcW > 1280 && U32(dstW * 3) < srcW)
  }

  predicate KeepsPace(srcW: nat, dstW: nat, xdecim: nat, limits: Limits, pclk: nat)
    requires xdecim > 0 && pclk > 0
  {
    !(U32(dstW * ScalerClock(limits, pclk, srcW)) < U32(Decimated(srcW, xdecim) * pclk))
  }

  /** `can_scale`: all arithmetic is unsigned 32-bit. */
  predicate CanScale(srcW: nat, srcH: nat, dstW: nat, dstH: nat, is2d: bool, dis: Display,
                     limits: Limits, pclk: nat, bpp: Option<nat>) {
    && !(!dis.digit && dstW < limits.minWidth)
    && CanScaleHeight(srcH, dstH, if is2d then limits.maxYdecim2d else limits.maxYdecim1d, limits)
    && CanScaleWidth(srcW, dstW, if is2d then limits.maxXdecim2d else limits.maxXdecim1d, limits, pclk, bpp)
  }

  /** No unsigned product of the test wraps, for sizes up to these. */
  ghost predicate InRange(limits: Limits, pclk: nat, w: nat, h: nat) {
    && w + limits.maxXdecim2d + limits.maxXdecim1d < 0x1_0000_0000
    && h + limits.maxYdecim2d + limits.maxYdecim1d < 0x1_0000_0000
    && w * 4 < 0x1_0000_0000 && h * limits.maxDownscale < 0x1_0000_0000
    && pclk * limits.maxDownscale < 0x1_0000_0000 && w * (limits.fclk / 1000) < 0x1_0000_0000
  }

  lemma Monotone(x: nat, y: nat, z: nat)
    requires x <= y
    ensures x * z <= y * z && z * x <= z * y
  {
  }

  lemma RoundedUp(n: nat, d: nat)
    requires d > 0
    ensures (n + d - 1) / d <= n
  {
    if n > 0 {
      Monotone(1, d, n);
      DividedBelow(n + d - 1, d, n);
    }
  }

  lemma DividedBelow(x: nat, d: nat, n: nat)
    requires d > 0 && x < n * d + d
    ensures x / d <= n
  {
    if x / d > n {
      Monotone(n + 1, x / d, d);
    }
  }

  lemma AtLeastOnce(x: nat, d: nat)
    requires 0 < d <= x
    ensures x / d * d >= d
  {
    assert x / d >= 1;
    Monotone(1, x / d, d);
  }

  /** The clock that the scaler runs at is at least the pixel clock, if that of the platform is. */
  lemma ClockSuffices(limits: Limits, pclk: nat, srcW: nat)
    requires 0 < pclk <= limits.fclk / 1000 && pclk * limits.maxDownscale < 0x1_0000_0000
    ensures pclk <= ScalerClock(limits, pclk, srcW) <= limits.fclk / 1000
  {
    Monotone(1, limits.maxDownscale, pclk);
    var fclk0, top := limits.fclk / 1000, U32(pclk * limits.maxDownscale);
    AtLeastOnce(if fclk0 > top then top else fclk0, pclk);
  }

  /** It is the greatest clock that downscaling can use; for narrow sources, the greatest such multiple of the
      pixel clock. */
  lemma ScalerClockMeans(limits: Limits, pclk: nat, srcW: nat)
    requires pclk > 0 && pclk * limits.maxDownscale < 0x1_0000_0000
    ensures var clock, most := ScalerClock(limits, pclk, srcW), pclk * limits.maxDownscale;
            var top := if limits.fclk / 1000 < most then limits.fclk / 1000 else most;
            if srcW < limits.integerScaleRatioLimit then clock <= top < clock + pclk && IsMultiple(clock, pclk)
            else clock == top
  {
    var most := pclk * limits.maxDownscale;
    Monotone(0, limits.maxDownscale, pclk);
    WholePart(if limits.fclk / 1000 < most then limits.fclk / 1000 else most, pclk);
  }

  ghost predicate IsMultiple(n: int, d: nat) { exists q: nat :: Times(q, d) == n }

  function Times(q: nat, d: nat): int { q * d }

  lemma WholePart(x: nat, d: nat)
    requires d > 0
    ensures x / d * d <= x < x / d * d + d && IsMultiple(x / d * d, d)
  {
    assert Times(x / d, d) == x / d * d;
  }

  lemma HeightFits(h: nat, ydecim: nat, limits: Limits)
    requires ydecim > 0 && h + ydecim < 0x1_0000_0000 && h * limits.maxDownscale < 0x1_0000_0000
    ensures CanScaleHeight(h, h, ydecim, limits)
  {
    RoundedUp(h, ydecim);
    Monotone(1, limits.maxDownscale, h);
  }

  lemma WidthFits(w: nat, xdecim: nat, limits: Limits, pclk: nat, bpp: Option<nat>)
    requires xdecim > 0 && w + xdecim < 0x1_0000_0000 && w * 4 < 0x1_0000_0000
    requires pclk * limits.maxDownscale < 0x1_0000_0000 && w * (limits.fclk / 1000) < 0x1_0000_0000
    requires pclk <= limits.fclk / 1000
    ensures CanScaleWidth(w, w, xdecim, limits, pclk, bpp)
  {
    if pclk > 0 {
      ClockKeepsUp(w, xdecim, limits, pclk);
      WideEnoughUnscaled(w, bpp);
    } else {
      NotBelow(w, limits.maxDownscale, xdecim);
    }
  }

  lemma WideEnoughUnscaled(w: nat, bpp: Option<nat>)
    requires w * 4 < 0x1_0000_0000
    ensures WideEnough(w, w, bpp)
  {
    assert U32(w * 4) == w * 4 && U32(w * 3) == w * 3;
  }

  lemma ClockKeepsUp(w: nat, xdecim: nat, limits: Limits, pclk: nat)
    requires xdecim > 0 && w + xdecim < 0x1_0000_0000
    requires pclk * limits.maxDownscale < 0x1_0000_0000 && w * (limits.fclk / 1000) < 0x1_0000_0000
    requires 0 < pclk <= limits.fclk / 1000
    ensures KeepsPace(w, w, xdecim, limits, pclk)
  {
    RoundedUp(w, xdecim);
    ClockSuffices(limits, pclk, w);
    var clock, most := ScalerClock(limits, pclk, w), limits.fclk / 1000;
    KeepsUp(Decimated(w, xdecim), w, pclk, clock, most);
  }

  /** An unscaled picture can be shown wherever the clock keeps up, unless it is too narrow for a panel. */
  lemma UnscaledFits(w: nat, h: nat, is2d: bool, dis: Display, limits: Limits, pclk: nat, bpp: Option<nat>)
    requires InRange(limits, pclk, w, h) && pclk <= limits.fclk / 1000
    ensures CanScale(w, h, w, h, is2d, dis, limits, pclk, bpp) <==> dis.digit || w >= limits.minWidth
  {
    HeightFits(h, if is2d then limits.maxYdecim2d else limits.maxYdecim1d, limits);
    WidthFits(w, if is2d then limits.maxXdecim2d else limits.maxXdecim1d, limits, pclk, bpp);
  }

  lemma KeepsUp(minSrcW: nat, w: nat, pclk: nat, fclk: nat, top: nat)
    requires minSrcW <= w && pclk <= fclk <= top && w * top < 0x1_0000_0000
    ensures U32(w * fclk) >= U32(minSrcW * pclk)
  {
    Monotone(fclk, top, w);
    Monotone(minSrcW, w, pclk);
    Monotone(pclk, fclk, w);
  }

  lemma NotBelow(w: nat, d: nat, e: nat)
    requires d > 0 && e > 0
    ensures w / d / e <= w
  {
    Monotone(1, d, w);
    DividedBelow(w, d, w);
    Monotone(1, e, w / d);
    DividedBelow(w / d, e, w / d);
  }

  lemma HeightShrinksWithin(srcH: nat, dstH: nat, ydecim: nat, limits: Limits)
    requires ydecim > 0 && CanScaleHeight(srcH, dstH, ydecim, limits)
    ensures srcH < 4 * (dstH + 1)
  {
  }

  lemma WidthShrinksWithin(srcW: nat, dstW: nat, bpp: Option<nat>)
    requires WideEnough(srcW, dstW, bpp)
    ensures srcW <= 4 * dstW && (bpp == Some(32) && srcW > 1280 ==> srcW <= 3 * dstW)
  {
  }

  /** Nothing is shrunk to less than a quarter in height, nor, against a pixel clock, in width: wide 32-bit
      pictures not to less than a third. */
  lemma ShrinksWithin(srcW: nat, srcH: nat, dstW: nat, dstH: nat, is2d: bool, dis: Display, limits: Limits, pclk: nat,
                      bpp: Option<nat>)
    requires CanScale(srcW, srcH, dstW, dstH, is2d, dis, limits, pclk, bpp)
    ensures srcH < 4 * (dstH + 1) && (dis.digit || dstW >= limits.minWidth)
    ensures pclk > 0 ==> srcW <= 4 * dstW && (bpp == Some(32) && srcW > 1280 ==> srcW <= 3 * dstW)
  {
    HeightShrinksWithin(srcH, dstH, if is2d then limits.maxYdecim2d else limits.maxYdecim1d, limits);
    if pclk > 0 {
      WidthShrinksWithin(srcW, dstW, bpp);
    }
  }

  predicate CanScaleLayer(limits: Limits, dis: Display, l: Layer) {
    var (w, h) := SourceSize(l);
    l.handle.Some? &&
    CanScale(U32(w), U32(h), U32(Width(l.frame)), U32(Height(l.frame)), IsNV12(l.handle.value), dis, limits, dis.pclk,
             Some(BitsPerPixel(l.handle.value.format)))
  }

  /** The scaling test of a given platform and display, as the allocator uses it.  Everything
      proved about the allocator holds for any such test. */
  function PlatformScaling(limits: Limits, dis: Display): Layer -> bool {
    l => CanScaleLayer(limits, dis, l)
  }

  predicate ValidLayer(canScale: Layer -> bool, tilerSlotSize: nat, l: Layer) {
    && !l.skip && l.handle.Some?
    && !l.handle.value.format.OtherFormat?
    && (IsNV12(l.handle.value) ||
        (l.transform == Transform(false, false, false) && Mem1d(l.handle) <= tilerSlotSize))
    && canScale(l)
  }
}
