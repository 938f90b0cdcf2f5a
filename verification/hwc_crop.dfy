/** Cropping of an overlay to a visible rectangle, in integer pixels
    (`crop_to_rect` in hwc/hwc.c). */
module HwcCrop {

  datatype Rect = Rect(left: int, top: int, right: int, bottom: int)

  /** A dispc rectangle: position and size. */
  datatype Box = Box(x: int, y: int, w: int, h: int)

  /** The geometric part of an overlay configuration.  `rotation` counts clockwise quarter
      turns; the picture is rotated first and then flipped left to right when `mirror` is set. */
  datatype Geom = Geom(win: Box, crop: Box, rotation: int, mirror: bool, enabled: bool)

  /** One axis of a rectangle.  A negative length means the axis runs backwards. */
  datatype Span = Span(pos: int, len: int)

  datatype AxisResult = Miss | Hit(crop: Span, win: Span)

  datatype CropResult = Outside | Cropped(geom: Geom)

  /** C integer division, which truncates towards zero. */
  function TruncDiv(a: int, b: int): int
    requires b > 0
  {
    if a >= 0 then a / b else -((-a) / b)
  }

  /** The share of `y` that `x` is of `W`, truncated. */
  function Share(x: int, y: int, W: int): int
    requires W > 0
  {
    TruncDiv(x * y, W)
  }

  function Flip(s: Span): Span {
    Span(s.pos + s.len, -s.len)
  }

  function FlipIf(flip: bool, s: Span): Span {
    if flip then Flip(s) else s
  }

  predicate Odd(rotation: int) { rotation % 2 == 1 }

  predicate Upper(rotation: int) { rotation / 2 % 2 == 1 }

  /** Does horizontal buffer axis run against its display axis? */
  predicate FlipX(g: Geom) {
    if Odd(g.rotation) then Upper(g.rotation) else g.mirror != Upper(g.rotation)
  }

  /** Does the vertical buffer axis run against its display axis? */
  predicate FlipY(g: Geom) {
    if Odd(g.rotation) then g.mirror == Upper(g.rotation) else Upper(g.rotation)
  }

  function CropX(g: Geom): Span { Span(g.crop.x, g.crop.w) }

  function CropY(g: Geom): Span { Span(g.crop.y, g.crop.h) }

  function Span0(b: Box): Span { Span(b.x, b.w) }

  function Span1(b: Box): Span { Span(b.y, b.h) }

  /** The crop spans in display coordinates: horizontal display axis first. */
  function Aligned(g: Geom): (Span, Span) {
    var x := FlipIf(FlipX(g), CropX(g));
    var y := FlipIf(FlipY(g), CropY(g));
    if Odd(g.rotation) then (y, x) else (x, y)
  }

  /** Crop one axis: `crop` and `win` are its source and display spans, [lo, hi) is visible. */
  function CropAxis(crop: Span, win: Span, lo: int, hi: int): AxisResult {
    if win.len <= 0 || hi <= lo || win.pos + win.len <= lo || win.pos >= hi || crop.len == 0 then Miss
    else
      var a := if win.pos < lo then Share(lo - win.pos, crop.len, win.len) else 0;
      var crop1 := Span(crop.pos + a, crop.len - a);
      var win1 := if win.pos < lo then Span(lo, win.len - (lo - win.pos)) else win;
      var clip := win1.pos + win1.len > hi;
      var crop2 := if clip then Span(crop1.pos, Share(crop1.len, hi - win1.pos, win1.len)) else crop1;
      var win2 := if clip then Span(win1.pos, hi - win1.pos) else win1;
      if crop2.len == 0 || win2.len == 0 then Miss else Hit(crop2, win2)
  }

  /** Reassemble a geometry from the two display axes, undoing the alignment. */
  function Realigned(g: Geom, h: AxisResult, v: AxisResult): Geom
    requires h.Hit? && v.Hit?
  {
    var x := FlipIf(FlipX(g), if Odd(g.rotation) then v.crop else h.crop);
    var y := FlipIf(FlipY(g), if Odd(g.rotation) then h.crop else v.crop);
    g.(win := Box(h.win.pos, v.win.pos, h.win.len, v.win.len), crop := Box(x.pos, y.pos, x.len, y.len))
  }

  function Crop(g: Geom, vis: Rect): CropResult {
    var (ch, cv) := Aligned(g);
    var h := CropAxis(ch, Span0(g.win), vis.left, vis.right);
    var v := CropAxis(cv, Span1(g.win), vis.top, vis.bottom);
    if h.Hit? && v.Hit? then Cropped(Realigned(g, h, v)) else Outside
  }

  // ---------------------------------------------------------------- the imperative routine

  method FlipEntry(pos: array<int>, len: array<int>, i: int)
    requires pos.Length == len.Length == 2 && pos != len && 0 <= i < 2
    modifies pos, len
    ensures Span(pos[i], len[i]) == Flip(old(Span(pos[i], len[i])))
    ensures pos[1 - i] == old(pos[1 - i]) && len[1 - i] == old(len[1 - i])
  {
    len[i] := -len[i];
    pos[i] := pos[i] - len[i];
  }

  /** Align the crop window with display coordinates. */
  method AlignEntries(pos: array<int>, len: array<int>, g: Geom)
    requires pos.Length == len.Length == 2 && pos != len
    modifies pos, len
    ensures Span(pos[0], len[0]) == FlipIf(FlipX(g), old(Span(pos[0], len[0])))
    ensures Span(pos[1], len[1]) == FlipIf(FlipY(g), old(Span(pos[1], len[1])))
  {
    var swap, upper := if Odd(g.rotation) then 1 else 0, Upper(g.rotation);
    if swap == 1 { FlipEntry(pos, len, 1); }
    if upper { FlipEntry(pos, len, 1 - swap); }
    if g.mirror != upper { FlipEntry(pos, len, swap); }
  }

  /** Realign the crop window with buffer coordinates: the same flips in the other order. */
  method RealignEntries(pos: array<int>, len: array<int>, g: Geom)
    requires pos.Length == len.Length == 2 && pos != len
    modifies pos, len
    ensures Span(pos[0], len[0]) == FlipIf(FlipX(g), old(Span(pos[0], len[0])))
    ensures Span(pos[1], len[1]) == FlipIf(FlipY(g), old(Span(pos[1], len[1])))
  {
    var swap, upper := if Odd(g.rotation) then 1 else 0, Upper(g.rotation);
    if upper { FlipEntry(pos, len, 1 - swap); }
    if g.mirror != upper { FlipEntry(pos, len, swap); }
    if swap == 1 { FlipEntry(pos, len, 1); }
  }

  /** The loop body: crop display axis `c` of the window and entry `b` of the crop rectangle. */
  method CropEntry(winPos: array<int>, winLen: array<int>, c: int,
                   cropPos: array<int>, cropLen: array<int>, b: int, lo: int, hi: int)
    returns (hit: bool)
    requires winPos.Length == winLen.Length == cropPos.Length == cropLen.Length == 2
    requires winPos != winLen && winPos != cropPos && winPos != cropLen
    requires winLen != cropPos && winLen != cropLen && cropPos != cropLen
    requires 0 <= b < 2 && 0 <= c < 2
    modifies winPos, winLen, cropPos, cropLen
    ensures var axis := CropAxis(old(Span(cropPos[b], cropLen[b])), old(Span(winPos[c], winLen[c])), lo, hi);
            && hit == axis.Hit?
            && (hit ==> Span(cropPos[b], cropLen[b]) == axis.crop && Span(winPos[c], winLen[c]) == axis.win)
    ensures winPos[1 - c] == old(winPos[1 - c]) && winLen[1 - c] == old(winLen[1 - c])
    ensures cropPos[1 - b] == old(cropPos[1 - b]) && cropLen[1 - b] == old(cropLen[1 - b])
  {
    if winLen[c] <= 0 || hi <= lo || winPos[c] + winLen[c] <= lo || winPos[c] >= hi || cropLen[b] == 0 {
      return false;
    }
    if winPos[c] < lo {
      var a := Share(lo - winPos[c], cropLen[b], winLen[c]);
      cropPos[b] := cropPos[b] + a;
      cropLen[b] := cropLen[b] - a;
      winLen[c] := winLen[c] - (lo - winPos[c]);
      winPos[c] := lo;
    }
    if winPos[c] + winLen[c] > hi {
      cropLen[b] := Share(cropLen[b], hi - winPos[c], winLen[c]);
      winLen[c] := hi - winPos[c];
    }
    return cropLen[b] != 0 && winLen[c] != 0;
  }

  /** An overlay configuration as the kernel interface stores it, updated in place. */
  class DssOverlay {
    var geom: Geom

    constructor (g: Geom)
      ensures geom == g
    {
      geom := g;
    }

    method CropToRect(vis: Rect) returns (hit: bool)
      modifies this
      ensures hit == Crop(old(geom), vis).Cropped?
      ensures geom == if hit then Crop(old(geom), vis).geom else old(geom)
    {
      var winPos, winLen, cropPos, cropLen := new int[2], new int[2], new int[2], new int[2];
      winPos[0], winPos[1], winLen[0], winLen[1] := geom.win.x, geom.win.y, geom.win.w, geom.win.h;
      cropPos[0], cropPos[1], cropLen[0], cropLen[1] := geom.crop.x, geom.crop.y, geom.crop.w, geom.crop.h;
      var lo, hi := [vis.left, vis.top], [vis.right, vis.bottom];
      var swap := if Odd(geom.rotation) then 1 else 0;
      AlignEntries(cropPos, cropLen, geom);
      ghost var (h, v) := Aligned(geom);
      ghost var axis0 := CropAxis(h, Span0(geom.win), vis.left, vis.right);
      ghost var axis1 := CropAxis(v, Span1(geom.win), vis.top, vis.bottom);
      for c := 0 to 2
        invariant c > 0 ==> axis0.Hit?
        invariant c > 1 ==> axis1.Hit?
        invariant Span(cropPos[swap], cropLen[swap]) == if c > 0 then axis0.crop else h
        invariant Span(cropPos[1 - swap], cropLen[1 - swap]) == if c > 1 then axis1.crop else v
        invariant Span(winPos[0], winLen[0]) == if c > 0 then axis0.win else Span0(geom.win)
        invariant Span(winPos[1], winLen[1]) == if c > 1 then axis1.win else Span1(geom.win)
        invariant geom == old(geom)
      {
        hit := CropEntry(winPos, winLen, c, cropPos, cropLen, if c == 0 then swap else 1 - swap, lo[c], hi[c]);
        if !hit { return; }
      }
      RealignEntries(cropPos, cropLen, geom);
      geom := geom.(win := Box(winPos[0], winPos[1], winLen[0], winLen[1]),
                    crop := Box(cropPos[0], cropPos[1], cropLen[0], cropLen[1]));
      hit := true;
    }
  }

  // ---------------------------------------------------------------- what cropping promises

  function Max(a: int, b: int): int { if a > b then a else b }

  function Min(a: int, b: int): int { if a < b then a else b }

  function Abs(a: int): int { if a < 0 then -a else a }

  lemma DivBounds(n: int, m: int)
    requires m > 0
    ensures n / m * m <= n < n / m * m + m
  {
  }

  lemma MulMono(x: int, y: int, z: int)
    requires x <= y && z >= 0
    ensures x * z <= y * z
  {
  }

  lemma MulStrict(x: int, y: int, z: int)
    requires x < y && z > 0
    ensures x * z < y * z
  {
  }
  lemma Swap3(a: int, b: int, c: int)
    ensures a * b * c == a * c * b && a * b * c == b * c * a
  {}
  lemma Distr(a: int, b: int, c: int)
    ensures (a + b) * c == a * c + b * c
    ensures (a - b) * c == a * c - b * c
  {}

  lemma UpperBound(L: int, W1: int, C1: int, V: int, W: int, C: int)
    requires L * W1 <= C1 * V && C1 * W < C * W1 + W
    requires 0 < V <= W1 && W > 0
    ensures L * W < V * C + W
  {
    if V * C + W <= L * W {
      calc {
        V * C * W1 + W * W1;
        { Distr(V * C, W, W1); }
        (V * C + W) * W1;
        <= { MulMono(V * C + W, L * W, W1); }
        L * W * W1;
        { Swap3(L, W, W1); }
        L * W1 * W;
        <= { MulMono(L * W1, C1 * V, W); }
        C1 * V * W;
        { Swap3(C1, V, W); }
        C1 * W * V;
        < { MulStrict(C1 * W, C * W1 + W, V); }
        (C * W1 + W) * V;
        { Distr(C * W1, W, V); }
        C * W1 * V + W * V;
        { Swap3(C, W1, V); Swap3(V, C, W1); }
        V * C * W1 + V * W;
        <= { MulMono(V, W1, W); }
        V * C * W1 + W1 * W;
      }
      assert false;
    }
  }

  lemma LowerBound(L: int, W1: int, C1: int, V: int, W: int, C: int)
    requires C1 * V < L * W1 + W1 && C * W1 <= C1 * W
    requires 0 < V <= W1 && W > 0
    ensures V * C < L * W + W
  {
    if L * W + W <= V * C {
      calc {
        (L * W + W) * W1;
        <= { MulMono(L * W + W, V * C, W1); }
        V * C * W1;
        { Swap3(V, C, W1); Swap3(C, W1, V);}
        C * W1 * V;
        <= { MulMono(C * W1, C1 * W, V); }
        C1 * W * V;
        { Swap3(C1, W, V); }
        C1 * V * W;
        < { MulStrict(C1 * V, L * W1 + W1, W); }
        (L * W1 + W1) * W;
        { Distr(L * W1, W1, W); Distr(L * W, W, W1); Swap3(L, W1, W); }
        (L * W + W) * W1;
      }
      assert false;
    }
  }

  /** Distance of source length `x` from the exact share of display length `y`, times `W`. */
  function Error(x: int, W: int, y: int, C: int): int { x * W - y * C }

  /** Twice-truncated proportional cropping: `d` of `W` display pixels go on the left and `V` stay. */
  lemma CropArithmetic(C: int, W: int, d: int, V: int)
    requires C > 0 && 0 <= d && 0 < V && d + V <= W
    ensures var a := Share(d, C, W); var L := Share(C - a, V, W - d);
            && 0 <= a && -W < Error(a, W, d, C) <= 0
            && 0 <= L <= C - a && -W < Error(L, W, V, C) < W
  {
    MulMono(0, d, C);
    var a := d * C / W;
    var W1, C1 := W - d, C - a;
    DivBounds(d * C, W);
    ShareBounds(d, C, W);
    assert C1 * W == C * W - a * W by { Distr(C, a, W); }
    assert C * W1 == C * W - d * C by { Distr(W, d, C); }
    MulMono(0, C1, V);
    var L := C1 * V / W1;
    DivBounds(C1 * V, W1);
    ShareBounds(V, C1, W1);
    UpperBound(L, W1, C1, V, W, C);
    LowerBound(L, W1, C1, V, W, C);
  }

  /** A truncated share of `C` is between 0 and `C`. */
  lemma ShareBounds(d: int, C: int, W: int)
    requires 0 <= d <= W && W > 0 && C >= 0
    ensures 0 <= d * C / W <= C && 0 <= C * d / W <= C
  {
    var a := d * C / W;
    DivBounds(d * C, W);
    MulMono(0, d, C);
    MulMono(d, W, C);
    if a > C { MulMono(C + 1, a, W); assert false; }
    if a < 0 { MulMono(a, -1, W); assert false; }
  }

  function Neg(s: Span): Span { Span(-s.pos, -s.len) }

  lemma MulNeg(x: int, y: int)
    ensures x * -y == -(x * y) && -x * y == -(x * y)
  {
  }

  lemma ShareNeg(x: int, y: int, W: int)
    requires W > 0
    ensures Share(x, -y, W) == -Share(x, y, W) && Share(-x, y, W) == -Share(x, y, W)
  {
    MulNeg(x, y);
  }

  /** Running an axis backwards mirrors the result: truncation is symmetric about zero. */
  lemma CropAxisMirrors(crop: Span, win: Span, lo: int, hi: int)
    ensures CropAxis(Neg(crop), win, lo, hi)
         == match CropAxis(crop, win, lo, hi) case Miss => Miss case Hit(c, w) => Hit(Neg(c), w)
  {
    if win.len > 0 && lo < hi && lo < win.pos + win.len && win.pos < hi {
      ShareNeg(lo - win.pos, crop.len, win.len);
      var a := if win.pos < lo then Share(lo - win.pos, crop.len, win.len) else 0;
      var win1 := if win.pos < lo then Span(lo, win.len - (lo - win.pos)) else win;
      ShareNeg(crop.len - a, hi - win1.pos, win1.len);
    }
  }

  lemma ErrorNeg(x: int, W: int, y: int, C: int)
    ensures Error(-x, W, y, -C) == -Error(x, W, y, C)
  {
    MulNeg(x, W);
    MulNeg(y, C);
  }

  lemma ErrorSum(x: int, x': int, W: int, y: int, y': int, C: int)
    ensures Error(x + x', W, y + y', C) == Error(x, W, y, C) + Error(x', W, y', C)
  {
    Distr(x, x', W);
    Distr(y, y', C);
  }

  /** What one axis of a successful crop satisfies: `d` display pixels went on the left. */
  ghost predicate AxisExact(crop: Span, win: Span, lo: int, hi: int, crop': Span, win': Span) {
    var d := win'.pos - win.pos;
    && win'.pos == Max(win.pos, lo)
    && win'.pos + win'.len == Min(win.pos + win.len, hi)
    && win'.len > 0
    // same direction, non-empty, nested
    && (if crop.len > 0
        then crop'.len > 0 && crop.pos <= crop'.pos && crop'.pos + crop'.len <= crop.pos + crop.len
        else crop'.len < 0 && crop'.pos <= crop.pos && crop.pos + crop.len <= crop'.pos + crop'.len)
    // start, length and end against exact proportionality, scaled by the window length
    && Abs(Error(crop'.pos - crop.pos, win.len, d, crop.len)) < win.len
    && Abs(Error(crop'.len, win.len, win'.len, crop.len)) < win.len
    && Abs(Error(crop'.pos - crop.pos + crop'.len, win.len, d + win'.len, crop.len)) < 2 * win.len
  }

  lemma ShareEnds(n: int, m: int)
    requires n >= 0 && m > 0
    ensures Share(0, n, m) == 0 && Share(n, m, m) == n
  {
    DivBounds(n * m, m);
    var q := n * m / m;
    if q < n { MulMono(q + 1, n, m); }
    if q > n { MulMono(n + 1, q, m); }
    MulMono(0, n, m);
  }

  lemma CropAxisForward(crop: Span, win: Span, lo: int, hi: int)
    requires crop.len > 0 && win.len > 0 && lo < hi && lo < win.pos + win.len && win.pos < hi
    ensures var d := Max(win.pos, lo) - win.pos;
            var V := Min(win.pos + win.len, hi) - Max(win.pos, lo);
            var a := Share(d, crop.len, win.len);
            var L := Share(crop.len - a, V, win.len - d);
            CropAxis(crop, win, lo, hi)
              == if L == 0 then Miss else Hit(Span(crop.pos + a, L), Span(Max(win.pos, lo), V))
  {
    var d := Max(win.pos, lo) - win.pos;
    var V := Min(win.pos + win.len, hi) - Max(win.pos, lo);
    CropArithmetic(crop.len, win.len, d, V);
    ShareEnds(crop.len, win.len);
    var a := Share(d, crop.len, win.len);
    ShareEnds(crop.len - a, V);
  }

  /** What is left of an axis, `a` source pixels and `d` display pixels going on the left. */
  lemma KeptExact(crop: Span, win: Span, lo: int, hi: int, d: int, V: int, a: int, L: int)
    requires crop.len > 0 && d == Max(win.pos, lo) - win.pos && V == Min(win.pos + win.len, hi) - Max(win.pos, lo) > 0
    requires 0 <= a && 0 < L <= crop.len - a
    requires -win.len < Error(a, win.len, d, crop.len) <= 0 && -win.len < Error(L, win.len, V, crop.len) < win.len
    ensures AxisExact(crop, win, lo, hi, Span(crop.pos + a, L), Span(Max(win.pos, lo), V))
  {
    ErrorSum(a, L, win.len, d, V, crop.len);
  }

  lemma CropAxisExactForward(crop: Span, win: Span, lo: int, hi: int)
    requires crop.len > 0 && win.len > 0 && lo < hi && lo < win.pos + win.len && win.pos < hi
    ensures CropAxis(crop, win, lo, hi).Hit? ==>
              AxisExact(crop, win, lo, hi, CropAxis(crop, win, lo, hi).crop, CropAxis(crop, win, lo, hi).win)
    ensures CropAxis(crop, win, lo, hi).Miss? ==>
              (Min(win.pos + win.len, hi) - Max(win.pos, lo)) * crop.len < win.len
  {
    var d := Max(win.pos, lo) - win.pos;
    var V := Min(win.pos + win.len, hi) - Max(win.pos, lo);
    CropAxisForward(crop, win, lo, hi);
    CropArithmetic(crop.len, win.len, d, V);
    var a := Share(d, crop.len, win.len);
    var L := Share(crop.len - a, V, win.len - d);
    if L == 0 {
      assert Error(0, win.len, V, crop.len) == -(V * crop.len);
    } else {
      KeptExact(crop, win, lo, hi, d, V, a, L);
    }
  }

  /** One axis, either direction: on success the window is cropped exactly and the source span
      is nested and within one (start, length) or two (end) source pixels of proportional;
      failure means that less than one source pixel is visible. */
  lemma CropAxisExact(crop: Span, win: Span, lo: int, hi: int)
    requires crop.len != 0
    ensures CropAxis(crop, win, lo, hi).Hit? ==>
              AxisExact(crop, win, lo, hi, CropAxis(crop, win, lo, hi).crop, CropAxis(crop, win, lo, hi).win)
    ensures CropAxis(crop, win, lo, hi).Miss? && win.len > 0 && lo < hi ==>
              (Min(win.pos + win.len, hi) - Max(win.pos, lo)) * Abs(crop.len) < win.len
  {
    var V := Min(win.pos + win.len, hi) - Max(win.pos, lo);
    if win.len > 0 && lo < hi && lo < win.pos + win.len && win.pos < hi {
      if crop.len > 0 {
        CropAxisExactForward(crop, win, lo, hi);
      } else {
        CropAxisMirrors(crop, win, lo, hi);
        CropAxisExactForward(Neg(crop), win, lo, hi);
        var r := CropAxis(crop, win, lo, hi);
        if r.Hit? {
          AxisExactMirrors(Neg(crop), win, lo, hi, Neg(r.crop), r.win);
        }
      }
    } else if win.len > 0 && lo < hi {
      MulMono(V, 0, Abs(crop.len));
    }
  }

  lemma AxisExactMirrors(crop: Span, win: Span, lo: int, hi: int, crop': Span, win': Span)
    requires crop.len > 0 && AxisExact(crop, win, lo, hi, crop', win')
    ensures AxisExact(Neg(crop), win, lo, hi, Neg(crop'), win')
  {
    var d := win'.pos - win.pos;
    ErrorNeg(crop'.pos - crop.pos, win.len, d, crop.len);
    ErrorNeg(crop'.len, win.len, win'.len, crop.len);
    ErrorNeg(crop'.pos - crop.pos + crop'.len, win.len, d + win'.len, crop.len);
    assert -crop'.pos - -crop.pos == -(crop'.pos - crop.pos);
    assert -crop'.pos - -crop.pos + -crop'.len == -(crop'.pos - crop.pos + crop'.len);
  }

  /** `crop_to_rect` for every rotation and mirror: both display axes are cropped exactly, and
      rotation, mirror and the enabled flag are untouched. */
  lemma CropExact(g: Geom, vis: Rect)
    requires Crop(g, vis).Cropped?
    ensures var g' := Crop(g, vis).geom;
            && AxisExact(Aligned(g).0, Span0(g.win), vis.left, vis.right, Aligned(g').0, Span0(g'.win))
            && AxisExact(Aligned(g).1, Span1(g.win), vis.top, vis.bottom, Aligned(g').1, Span1(g'.win))
            && g' == g.(win := g'.win, crop := g'.crop)
  {
    CropAxisExact(Aligned(g).0, Span0(g.win), vis.left, vis.right);
    CropAxisExact(Aligned(g).1, Span1(g.win), vis.top, vis.bottom);
  }

  /** In buffer coordinates the new crop rectangle is non-empty and inside the old one. */
  lemma CropNested(g: Geom, vis: Rect)
    requires g.crop.w > 0 && g.crop.h > 0
    requires Crop(g, vis).Cropped?
    ensures var c := Crop(g, vis).geom.crop;
            && c.w > 0 && c.h > 0
            && g.crop.x <= c.x && c.x + c.w <= g.crop.x + g.crop.w
            && g.crop.y <= c.y && c.y + c.h <= g.crop.y + g.crop.h
  {
    CropExact(g, vis);
  }

  /** An overlay is only dropped when it misses the rectangle or when, on some axis, the exact
      share of the source that is visible is shorter than one pixel. */
  lemma CropDropsOnlySlivers(g: Geom, vis: Rect)
    requires g.win.w > 0 && g.win.h > 0 && g.crop.w != 0 && g.crop.h != 0
    requires vis.left < vis.right && vis.top < vis.bottom
    requires Crop(g, vis).Outside?
    ensures
      var (h, v) := Aligned(g);
      || (Min(g.win.x + g.win.w, vis.right) - Max(g.win.x, vis.left)) * Abs(h.len) < g.win.w
      || (Min(g.win.y + g.win.h, vis.bottom) - Max(g.win.y, vis.top)) * Abs(v.len) < g.win.h
  {
    CropAxisExact(Aligned(g).0, Span0(g.win), vis.left, vis.right);
    CropAxisExact(Aligned(g).1, Span1(g.win), vis.top, vis.bottom);
  }

  /** An axis that has been cropped is left alone. */
  lemma CropAxisAgain(crop: Span, win: Span, lo: int, hi: int)
    requires CropAxis(crop, win, lo, hi).Hit?
    ensures var r := CropAxis(crop, win, lo, hi); CropAxis(r.crop, r.win, lo, hi) == r
  {
  }

  /** Taking the axes apart again gives what they were put together from. */
  lemma RealignedAligns(g: Geom, h: AxisResult, v: AxisResult)
    requires h.Hit? && v.Hit?
    ensures var g' := Realigned(g, h, v);
            && Aligned(g') == (h.crop, v.crop) && Span0(g'.win) == h.win && Span1(g'.win) == v.win
            && Realigned(g', h, v) == g'
  {
  }

  /** Cropping again with the same rectangle changes nothing. */
  lemma CropIdempotent(g: Geom, vis: Rect)
    requires Crop(g, vis).Cropped?
    ensures Crop(Crop(g, vis).geom, vis) == Crop(g, vis)
  {
    var (ch, cv) := Aligned(g);
    var h := CropAxis(ch, Span0(g.win), vis.left, vis.right);
    var v := CropAxis(cv, Span1(g.win), vis.top, vis.bottom);
    CropAxisAgain(ch, Span0(g.win), vis.left, vis.right);
    CropAxisAgain(cv, Span1(g.win), vis.top, vis.bottom);
    RealignedAligns(g, h, v);
  }
}
