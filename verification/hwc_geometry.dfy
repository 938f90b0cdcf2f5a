/** Reorientation matrices and the rotate/mirror algebra of external displays
    (hwc/hwc.c), in exact real arithmetic with one explicit rounding step. */
module HwcGeometry {
  import opened HwcCrop

  /** A 2x3 matrix: rows (a, b, tx) and (c, d, ty). */
  datatype Mat = Mat(a: real, b: real, tx: real, c: real, d: real, ty: real)

  datatype Pt = Pt(x: real, y: real)

  datatype RBox = RBox(x: real, y: real, w: real, h: real)

  const UNIT := Mat(1.0, 0.0, 0.0, 0.0, 1.0, 0.0)

  /** Aspect ratios closer than 2% count as equal. */
  const TOLERANCE := 0.02

  function Translate(m: Mat, dx: real, dy: real): Mat {
    m.(tx := m.tx + dx, ty := m.ty + dy)
  }

  function Scale(m: Mat, xFrom: real, xTo: real, yFrom: real, yTo: real): Mat
    requires xFrom != 0.0 && yFrom != 0.0
  {
    Mat(m.a * xTo / xFrom, m.b * xTo / xFrom, m.tx * xTo / xFrom,
        m.c * yTo / yFrom, m.d * yTo / yFrom, m.ty * yTo / yFrom)
  }

  function Rotate(m: Mat, quarterTurns: int): Mat {
    var m1 := if Upper(quarterTurns) then Scale(m, 1.0, -1.0, 1.0, -1.0) else m;
    if Odd(quarterTurns) then Mat(-m1.c, -m1.d, -m1.ty, m1.a, m1.b, m1.tx) else m1
  }

  /** Round half away from zero: the C cast truncates. */
  function MRound(x: real): int {
    if x < 0.0 then -((0.5 - x).Floor) else (x + 0.5).Floor
  }

  lemma MRoundError(x: real)
    ensures -0.5 <= MRound(x) as real - x <= 0.5
  {
    var k := MRound(x);
    if x < 0.0 {
      assert (-k) as real <= 0.5 - x < (-k) as real + 1.0;
      assert (-k) as real == -(k as real);
    }
  }

  /** Settings of the external display that the matrix is built from. */
  datatype Screen = Screen(xres: nat, yres: nat, width: nat, height: nat)

  /** `n` scaled by f/g and rounded to nearest. */
  function Shrunk(f: real, n: nat, g: real): int
    requires g != 0.0
  {
    (f * n as real / g + 0.5).Floor
  }

  /** The largest size with the source aspect ratio that fits the screen (`get_max_dimensions`). */
  function MaxDimensions(ow: nat, oh: nat, xpy: real, s: Screen): (r: (nat, nat))
    requires xpy > 0.0
    ensures r.0 <= s.xres && r.1 <= s.yres
    ensures r.0 == s.xres || r.1 == s.yres
  {
    var physical := s.width != 0 && s.height != 0;
    MulNonNeg(ow as real, xpy);
    Trimmed(Times(ow as real * xpy, if physical then s.height else s.yres),
            Times(oh as real, if physical then s.width else s.xres), s)
  }

  /** The screen, trimmed on one side to the shape xf : yf. */
  function Trimmed(xf: real, yf: real, s: Screen): (r: (nat, nat))
    requires xf >= 0.0 && yf >= 0.0
    ensures r.0 <= s.xres && r.1 <= s.yres
    ensures r.0 == s.xres || r.1 == s.yres
  {
    if xf < yf * (1.0 - TOLERANCE) then
      ShrinkBounds(xf, s.xres, yf);
      (Shrunk(xf, s.xres, yf), s.yres)
    else if xf * (1.0 - TOLERANCE) > yf then
      ShrinkBounds(yf, s.yres, xf);
      (s.xres, Shrunk(yf, s.yres, xf))
    else
      (s.xres, s.yres)
  }

  function Times(x: real, n: nat): (r: real)
    requires x >= 0.0
    ensures r >= 0.0
  {
    MulNonNeg(x, n as real);
    x * n as real
  }

  lemma MulNonNeg(x: real, y: real)
    requires x >= 0.0 && y >= 0.0
    ensures x * y >= 0.0
  {
  }

  lemma MulMonoReal(x: real, y: real, z: real)
    requires x <= y && z >= 0.0
    ensures x * z <= y * z
  {
  }

  lemma DivBoundsReal(x: real, y: real, z: real)
    requires y > 0.0 && 0.0 <= x <= z * y
    ensures 0.0 <= x / y <= z
  {
    var q := x / y;
    assert q * y == x;
    if q < 0.0 { MulStrictReal(q, 0.0, y); assert false; }
    if q > z { MulStrictReal(z, q, y); assert false; }
  }

  lemma MulStrictReal(x: real, y: real, z: real)
    requires x < y && z > 0.0
    ensures x * z < y * z
  {
  }

  /** A screen edge scaled by a factor below one and rounded never exceeds the edge. */
  lemma ShrinkBounds(f: real, n: nat, g: real)
    requires 0.0 <= f < g * (1.0 - TOLERANCE) && g >= 0.0
    ensures g > 0.0 && 0 <= Shrunk(f, n, g) <= n
  {
    assert g > 0.0;
    MulNonNeg(f, n as real);
    MulMonoReal(f, g, n as real);
    DivBoundsReal(f * n as real, g, n as real);
    var k := Shrunk(f, n, g);
    assert k as real <= n as real + 0.5;
  }

  /** Width and height of the screen's surface; square pixels if it does not tell. */
  function Surface(s: Screen): (nat, nat) {
    if s.width != 0 && s.height != 0 then (s.width, s.height) else (s.xres, s.yres)
  }

  /** On the surface, a source of `ow` by `oh` pixels, of pixel ratio `xpy`, has the shape x : y; the screen
      itself has the shape 1 : 1. */
  ghost predicate HasShape(ow: nat, oh: nat, xpy: real, s: Screen, x: real, y: real) {
    var (width, height) := Surface(s);
    x == ow as real * xpy * height as real && y == oh as real * width as real
  }

  /** A picture of `w` by `h` pixels on a screen of `xres` by `yres` has the shape x : y, up to half a pixel,
      and is as large as fits; but it fills the screen if the two shapes differ by no more than 2%. */
  ghost predicate Shaped(x: real, y: real, xres: nat, yres: nat, w: real, h: real) {
    if x < y * 0.98 then h == yres as real && Halves(w, y, x, xres)
    else if y < x * 0.98 then w == xres as real && Halves(h, x, y, yres)
    else w == xres as real && h == yres as real
  }

  /** `k` is `n` times x / y, up to one half. */
  ghost predicate Halves(k: real, y: real, x: real, n: nat) {
    -y / 2.0 <= k * y - x * n as real <= y / 2.0 && 0.0 <= k <= n as real
  }

  lemma ShrunkHalves(f: real, n: nat, g: real)
    requires g > 0.0 && 0 <= Shrunk(f, n, g) <= n
    ensures Halves(Shrunk(f, n, g) as real, g, f, n)
  {
    var all := f * n as real;
    var q := all / g;
    Quotient(all, g);
    var k := Shrunk(f, n, g) as real;
    HalfOff(k, q, g, all, k - q, k * g);
  }

  lemma HalfOff(k: real, q: real, g: real, all: real, d: real, p: real)
    requires g > 0.0 && q * g == all && q - 0.5 <= k <= q + 0.5 && d == k - q && p == k * g
    ensures -g / 2.0 <= p - all <= g / 2.0
  {
    WithinHalf(d, g);
    assert d * g == p - all by {
      Distribute(k, q, g);
    }
  }

  lemma WithinHalf(d: real, g: real)
    requires g > 0.0 && -0.5 <= d <= 0.5
    ensures -g / 2.0 <= d * g <= g / 2.0
  {
    MulMonoReal(-0.5, d, g);
    MulMonoReal(d, 0.5, g);
  }

  lemma Distribute(k: real, q: real, g: real)
    ensures (k - q) * g == k * g - q * g
  {
  }

  lemma TrimmedShape(x: real, y: real, s: Screen)
    requires x >= 0.0 && y >= 0.0
    ensures var (w, h) := Trimmed(x, y, s); Shaped(x, y, s.xres, s.yres, w as real, h as real)
  {
    if x < y * (1.0 - TOLERANCE) {
      ShrinkBounds(x, s.xres, y);
      ShrunkHalves(x, s.xres, y);
    } else if x * (1.0 - TOLERANCE) > y {
      ShrinkBounds(y, s.yres, x);
      ShrunkHalves(y, s.yres, x);
    }
  }

  /** The adjusted size keeps the shape of the source. */
  lemma MaxDimensionsKeepShape(ow: nat, oh: nat, xpy: real, s: Screen, x: real, y: real)
    requires xpy > 0.0 && HasShape(ow, oh, xpy, s, x, y)
    ensures var (w, h) := MaxDimensions(ow, oh, xpy, s); Shaped(x, y, s.xres, s.yres, w as real, h as real)
  {
    MaxDimensionsTrim(ow, oh, xpy, s, x, y);
    TrimmedShape(x, y, s);
  }

  lemma MaxDimensionsTrim(ow: nat, oh: nat, xpy: real, s: Screen, x: real, y: real)
    requires xpy > 0.0 && HasShape(ow, oh, xpy, s, x, y)
    ensures x >= 0.0 && y >= 0.0 && MaxDimensions(ow, oh, xpy, s) == Trimmed(x, y, s)
  {
    var (width, height) := Surface(s);
    var a := ow as real * xpy;
    assert a >= 0.0 by {
      MulNonNeg(ow as real, xpy);
    }
    Factor(a, height, x);
    Factor(oh as real, width, y);
  }

  lemma Factor(a: real, n: nat, x: real)
    requires a >= 0.0 && x == a * n as real
    ensures x >= 0.0 && x == Times(a, n)
  {
  }

  /** The region's centre moved to the origin, turned and flipped. */
  function Oriented(region: Rect, rotation: int, hflip: bool): Mat {
    var ow, oh := region.right - region.left, region.bottom - region.top;
    var m1 := Translate(UNIT, -(ow as real / 2.0) - region.left as real, -(oh as real / 2.0) - region.top as real);
    var m2 := Rotate(m1, rotation);
    if hflip then Scale(m2, 1.0, -1.0, 1.0, 1.0) else m2
  }

  /** The size of the region's picture on the external screen. */
  function Target(region: Rect, rotation: int, xpy: real, s: Screen): (nat, nat)
    requires region.left < region.right && region.top < region.bottom && xpy > 0.0
  {
    var (w, h) := Upright(region.right - region.left, region.bottom - region.top, rotation);
    MaxDimensions(w, h, if Odd(rotation) then 1.0 / xpy else xpy, s)
  }

  /** The matrix of `set_ext_matrix`. */
  function ExtMatrix(region: Rect, rotation: int, hflip: bool, xpy: real, s: Screen): Mat
    requires region.left < region.right && region.top < region.bottom && xpy > 0.0
  {
    var (w, h) := Upright(region.right - region.left, region.bottom - region.top, rotation);
    var (aw, ah) := Target(region, rotation, xpy, s);
    Translate(Scale(Oriented(region, rotation, hflip), w as real, aw as real, h as real, ah as real),
              (s.xres / 2) as real, (s.yres / 2) as real)
  }

  function Upright(ow: nat, oh: nat, rotation: int): (nat, nat) {
    if Odd(rotation) then (oh, ow) else (ow, oh)
  }

  /** Image of a point, and of an extent, under one matrix row. */
  function RowAt(a: real, b: real, t: real, p: Pt): real { a * p.x + b * p.y + t }

  function RowExtent(a: real, b: real, win: RBox): real { a * win.w + b * win.h }

  function RowStart(a: real, b: real, t: real, win: RBox): real {
    var x := RowAt(a, b, t, Pt(win.x, win.y));
    var w := RowExtent(a, b, win);
    if w > 0.0 then x else x + w
  }

  function RowSize(a: real, b: real, win: RBox): real {
    var w := RowExtent(a, b, win);
    if w > 0.0 then w else -w
  }

  /** Display position of a window under a matrix, before rounding (`apply_transform`). */
  function Window(m: Mat, win: RBox): RBox {
    RBox(RowStart(m.a, m.b, m.tx, win), RowStart(m.c, m.d, m.ty, win),
         RowSize(m.a, m.b, win), RowSize(m.c, m.d, win))
  }

  function Real(b: Box): RBox { RBox(b.x as real, b.y as real, b.w as real, b.h as real) }

  function Rounded(b: RBox): Box { Box(MRound(b.x), MRound(b.y), MRound(b.w), MRound(b.h)) }

  /** F^a R^b F^i R^j = F^(a+i) R^(j + b (-1)^i): the rotation after `b` more turns. */
  function Turned(g: Geom, b: int): int {
    (g.rotation + (if g.mirror then -1 else 1) * b) % 4
  }

  /** External display settings used while cloning. */
  datatype Ext = Ext(rotation: int, hflip: bool, docking: bool, region: Rect, m: Mat)

  /** `adjust_ext_layer`: crop when mirroring, transform, combine orientations. */
  function AdjustExt(e: Ext, g: Geom): Geom {
    if !e.docking && Crop(g, e.region).Outside? then g.(enabled := false)
    else
      var g1 := if e.docking then g else Crop(g, e.region).geom;
      g1.(win := Rounded(Window(e.m, Real(g1.win))),
          rotation := Turned(g1, e.rotation),
          mirror := g1.mirror != e.hflip)
  }

  /** `adjust_primary_display_layer`. */
  function AdjustPrimary(m: Mat, rotation: int, region: Rect, g: Geom): Geom {
    match Crop(g, region)
    case Outside => g.(enabled := false)
    case Cropped(g1) =>
      g1.(win := Rounded(Window(m, Real(g1.win))), rotation := Turned(g1, rotation))
  }

  // ---------------------------------------------------------------- the imperative routines

  /** The external display: screen, current settings and reorientation matrix. */
  class ExtDisplay {
    var screen: Screen
    var xpy: real
    var current: Ext

    constructor (screen: Screen, xpy: real, current: Ext)
      ensures this.screen == screen && this.xpy == xpy && this.current == current
    {
      this.screen, this.xpy, this.current := screen, xpy, current;
    }

    method SetExtMatrix(region: Rect)
      requires region.left < region.right && region.top < region.bottom && xpy > 0.0
      modifies this`current
      ensures current == old(current).(m := ExtMatrix(region, current.rotation, current.hflip, xpy, screen))
    {
      var w, h, ratio := region.right - region.left, region.bottom - region.top, xpy;
      var m := UNIT;
      m := Translate(m, -(w as real / 2.0) - region.left as real, -(h as real / 2.0) - region.top as real);
      m := Rotate(m, current.rotation);
      if current.hflip {
        m := Scale(m, 1.0, -1.0, 1.0, 1.0);
      }
      if Odd(current.rotation) {
        w, h, ratio := h, w, 1.0 / ratio;
      }
      var (adjXres, adjYres) := MaxDimensions(w, h, ratio, screen);
      m := Scale(m, w as real, adjXres as real, h as real, adjYres as real);
      m := Translate(m, (screen.xres / 2) as real, (screen.yres / 2) as real);
      current := current.(m := m);
    }

    /** Crop when mirroring, then transform the window and combine the orientations. */
    method AdjustLayer(ovl: DssOverlay)
      modifies ovl
      ensures ovl.geom == AdjustExt(current, old(ovl.geom))
    {
      if !current.docking {
        var hit := ovl.CropToRect(current.region);
        if !hit {
          ovl.geom := ovl.geom.(enabled := false);
          return;
        }
      }
      ovl.geom := ovl.geom.(win := Rounded(Window(current.m, Real(ovl.geom.win))));
      var turns := (if ovl.geom.mirror then -1 else 1) * current.rotation;
      ovl.geom := ovl.geom.(rotation := (ovl.geom.rotation + turns) % 4);
      if current.hflip {
        ovl.geom := ovl.geom.(mirror := !ovl.geom.mirror);
      }
    }
  }

  // ---------------------------------------------------------------- what the picture does

  /** A point of the plane turned clockwise by quarter turns (y points down). */
  function Turn(p: Pt, quarterTurns: int): Pt {
    match quarterTurns % 4
    case 0 => p
    case 1 => Pt(-p.y, p.x)
    case 2 => Pt(-p.x, -p.y)
    case _ => Pt(p.y, -p.x)
  }

  function Mirrored(p: Pt, mirror: bool): Pt { if mirror then Pt(-p.x, p.y) else p }

  function Apply(m: Mat, p: Pt): Pt {
    Pt(RowAt(m.a, m.b, m.tx, p), RowAt(m.c, m.d, m.ty, p))
  }

  /** Position of a source point relative to the crop centre, in units of the crop size. */
  function Normal(crop: RBox, p: Pt): Pt
    requires crop.w != 0.0 && crop.h != 0.0
  {
    Pt((p.x - crop.x - crop.w / 2.0) / crop.w, (p.y - crop.y - crop.h / 2.0) / crop.h)
  }

  /** The point of an edge at relative position `t`, -1/2 to 1/2. */
  function Along(pos: real, len: real, t: real): real { pos + len / 2.0 + t * len }

  function Placed(win: RBox, q: Pt): Pt {
    Pt(Along(win.x, win.w, q.x), Along(win.y, win.h, q.y))
  }

  /** Where an overlay shows a source point: rotate, then flip, then stretch over the window. */
  function ToScreen(crop: RBox, win: RBox, rotation: int, mirror: bool, p: Pt): Pt
    requires crop.w != 0.0 && crop.h != 0.0
  {
    Placed(win, Mirrored(Turn(Normal(crop, p), rotation), mirror))
  }

  /** A matrix whose linear part turns, then flips, then scales by positive factors. */
  ghost predicate Reorients(m: Mat, rotation: int, hflip: bool, sx: real, sy: real) {
    var f := if hflip then -sx else sx;
    && sx >= 0.0 && sy >= 0.0
    && match rotation % 4
       case 0 => m.a == f && m.b == 0.0 && m.c == 0.0 && m.d == sy
       case 1 => m.a == 0.0 && m.b == -f && m.c == sy && m.d == 0.0
       case 2 => m.a == -f && m.b == 0.0 && m.c == 0.0 && m.d == -sy
       case _ => m.a == 0.0 && m.b == f && m.c == -sy && m.d == 0.0
  }

  lemma OrientedReorients(region: Rect, rotation: int, hflip: bool)
    requires 0 <= rotation < 4
    ensures Reorients(Oriented(region, rotation, hflip), rotation, hflip, 1.0, 1.0)
  {
  }

  lemma ScaleReorients(m: Mat, rotation: int, hflip: bool, w: nat, aw: nat, h: nat, ah: nat)
    requires Reorients(m, rotation, hflip, 1.0, 1.0) && w > 0 && h > 0
    ensures Reorients(Scale(m, w as real, aw as real, h as real, ah as real), rotation, hflip,
                      aw as real / w as real, ah as real / h as real)
  {
    ScaleSigns(m.a, w as real, aw as real);
    ScaleSigns(m.b, w as real, aw as real);
    ScaleSigns(m.c, h as real, ah as real);
    ScaleSigns(m.d, h as real, ah as real);
  }

  /** `set_ext_matrix` turns, flips and then scales the region to its target size. */
  lemma ExtMatrixReorients(region: Rect, rotation: int, hflip: bool, xpy: real, s: Screen)
    requires 0 <= rotation < 4
    requires region.left < region.right && region.top < region.bottom && xpy > 0.0
    ensures var (w, h) := Upright(region.right - region.left, region.bottom - region.top, rotation);
            var (aw, ah) := Target(region, rotation, xpy, s);
            Reorients(ExtMatrix(region, rotation, hflip, xpy, s), rotation, hflip,
                      aw as real / w as real, ah as real / h as real)
  {
    var (w, h) := Upright(region.right - region.left, region.bottom - region.top, rotation);
    var (aw, ah) := Target(region, rotation, xpy, s);
    OrientedReorients(region, rotation, hflip);
    ScaleReorients(Oriented(region, rotation, hflip), rotation, hflip, w, aw, h, ah);
  }

  /** Scaling an entry of -1, 0 or 1. */
  lemma ScaleSigns(e: real, from: real, to: real)
    requires from > 0.0 && to >= 0.0
    ensures to / from >= 0.0
    ensures e == 1.0 ==> e * to / from == to / from
    ensures e == -1.0 ==> e * to / from == -(to / from)
    ensures e == 0.0 ==> e * to / from == 0.0
  {
    var q := to / from;
    assert q * from == to;
    if q < 0.0 { MulStrictReal(q, 0.0, from); assert false; }
    assert -1.0 * to == (-q) * from;
    DivCancel(-q, from);
  }

  lemma DivCancel(q: real, y: real)
    requires y > 0.0
    ensures q * y / y == q
  {
  }

  /** F^a R^b F^i R^j = F^(a+i) R^(j + b (-1)^i): the combined (rotation, mirror) pair turns and
      flips like the two orientations one after the other. */
  lemma TurnsAdd(n: Pt, a: int, b: int)
    requires 0 <= a < 4 && -4 < b < 4
    ensures Turn(Turn(n, a), b) == Turn(n, (a + b) % 4)
  {
  }

  lemma MirrorReverses(n: Pt, b: int)
    requires 0 <= b < 4
    ensures Turn(Mirrored(n, true), b) == Mirrored(Turn(n, -b), true)
  {
  }

  lemma MirroredCombine(t: Pt, n: Pt, r: int, b: int, flip: bool)
    requires 0 <= r < 4 && 0 <= b < 4 && t == Turn(n, r)
    ensures Mirrored(Turn(n, (r - b) % 4), !flip) == Mirrored(Turn(Mirrored(t, true), b), flip)
  {
    MirrorReverses(t, b);
    TurnsAdd(n, r, -b);
  }

  lemma OrientationsCombine(g: Geom, b: int, flip: bool, n: Pt)
    requires 0 <= g.rotation < 4 && 0 <= b < 4
    ensures Mirrored(Turn(n, Turned(g, b)), g.mirror != flip)
         == Mirrored(Turn(Mirrored(Turn(n, g.rotation), g.mirror), b), flip)
  {
    if g.mirror {
      MirroredCombine(Turn(n, g.rotation), n, g.rotation, b, flip);
    } else {
      TurnsAdd(n, g.rotation, b);
    }
  }

  /** Output coordinate, under factor `k` and offset `t`, of the point at relative position `r` of
      an edge; a negative length is normalised. */
  function EdgePoint(k: real, t: real, pos: real, len: real, r: real): real {
    var x, w := k * pos + t, k * len;
    var start, size := if w > 0.0 then x else x + w, if w > 0.0 then w else -w;
    start + size / 2.0 + r * size
  }

  function EdgeMap(k: real, t: real, pos: real, len: real, q: real): real {
    k * (pos + len / 2.0 + q * len) + t
  }

  /** Normalising keeps the picture when the relative coordinate is flipped along. */
  lemma EdgeFollows(k: real, t: real, pos: real, len: real, q: real, r: real)
    requires len >= 0.0 && (k > 0.0 ==> r == q) && (k < 0.0 ==> r == -q)
    ensures EdgePoint(k, t, pos, len, r) == EdgeMap(k, t, pos, len, q)
  {
    var w := k * len;
    Entries(k, pos, len, q);
    if k > 0.0 {
      MulNonNeg(k, len);
    } else if k < 0.0 {
      MulNonNeg(-k, len);
      assert -k * len == -w;
      assert -q * -w == q * w;
    } else {
      assert w == 0.0;
    }
  }

  lemma Entries(k: real, pos: real, len: real, t: real)
    ensures k * (pos + len / 2.0 + t * len) == k * pos + k * len / 2.0 + t * (k * len)
  {
  }

  /** A reorienting matrix moves a window so that a point of its picture moves with the matrix. */
  lemma WindowFollows(m: Mat, rotation: int, hflip: bool, sx: real, sy: real, win: RBox, q: Pt)
    requires 0 <= rotation < 4 && Reorients(m, rotation, hflip, sx, sy) && win.w >= 0.0 && win.h >= 0.0
    ensures Placed(Window(m, win), Mirrored(Turn(q, rotation), hflip)) == Apply(m, Placed(win, q))
  {
    var r := Mirrored(Turn(q, rotation), hflip);
    SignsAgree(m, rotation, hflip, sx, sy, q);
    RowFollows(m.a, m.b, m.tx, win, q, r.x, !Odd(rotation));
    RowFollows(m.c, m.d, m.ty, win, q, r.y, Odd(rotation));
    WindowByRows(m, win, q, r);
  }

  lemma SignsAgree(m: Mat, rotation: int, hflip: bool, sx: real, sy: real, q: Pt)
    requires 0 <= rotation < 4 && Reorients(m, rotation, hflip, sx, sy)
    ensures var r := Mirrored(Turn(q, rotation), hflip);
            if Odd(rotation)
            then && m.a == 0.0 && m.d == 0.0
                 && (m.b > 0.0 ==> r.x == q.y) && (m.b < 0.0 ==> r.x == -q.y)
                 && (m.c > 0.0 ==> r.y == q.x) && (m.c < 0.0 ==> r.y == -q.x)
            else && m.b == 0.0 && m.c == 0.0
                 && (m.a > 0.0 ==> r.x == q.x) && (m.a < 0.0 ==> r.x == -q.x)
                 && (m.d > 0.0 ==> r.y == q.y) && (m.d < 0.0 ==> r.y == -q.y)
  {
  }

  /** One coordinate of the transformed window agrees with the matrix row (a, b, t). */
  ghost predicate RowAgrees(a: real, b: real, t: real, win: RBox, q: Pt, r: real) {
    Along(RowStart(a, b, t, win), RowSize(a, b, win), r) == RowAt(a, b, t, Placed(win, q))
  }

  lemma WindowByRows(m: Mat, win: RBox, q: Pt, r: Pt)
    requires RowAgrees(m.a, m.b, m.tx, win, q, r.x) && RowAgrees(m.c, m.d, m.ty, win, q, r.y)
    ensures Placed(Window(m, win), r) == Apply(m, Placed(win, q))
  {
  }

  /** A matrix row that reads only the horizontal or only the vertical coordinate. */
  lemma RowFollows(a: real, b: real, t: real, win: RBox, q: Pt, r: real, horizontal: bool)
    requires win.w >= 0.0 && win.h >= 0.0
    requires if horizontal then b == 0.0 && (a > 0.0 ==> r == q.x) && (a < 0.0 ==> r == -q.x)
             else a == 0.0 && (b > 0.0 ==> r == q.y) && (b < 0.0 ==> r == -q.y)
    ensures RowAgrees(a, b, t, win, q, r)
  {
    if horizontal {
      EdgeFollows(a, t, win.x, win.w, q.x, r);
    } else {
      EdgeFollows(b, t, win.y, win.h, q.y, r);
    }
  }

  /** An overlay's new source-to-screen map is the matrix applied to its old one: window, rotation
      and mirror are updated consistently. */
  lemma AdjustComposes(m: Mat, rotation: int, hflip: bool, sx: real, sy: real, g: Geom, p: Pt)
    requires 0 <= rotation < 4 && Reorients(m, rotation, hflip, sx, sy)
    requires 0 <= g.rotation < 4 && g.win.w >= 0 && g.win.h >= 0 && g.crop.w != 0 && g.crop.h != 0
    ensures ToScreen(Real(g.crop), Window(m, Real(g.win)), Turned(g, rotation), g.mirror != hflip, p)
         == Apply(m, ToScreen(Real(g.crop), Real(g.win), g.rotation, g.mirror, p))
  {
    var n := Normal(Real(g.crop), p);
    OrientationsCombine(g, rotation, hflip, n);
    WindowFollows(m, rotation, hflip, sx, sy, Real(g.win), Mirrored(Turn(n, g.rotation), g.mirror));
  }

  /** `adjust_ext_layer` with the matrix of `set_ext_matrix`: before rounding, every source point
      lands where the matrix takes its old position; rounding moves no edge by more than half a pixel. */
  lemma AdjustExtFaithful(e: Ext, mapped: Rect, xpy: real, s: Screen, g: Geom, p: Pt)
    requires 0 <= e.rotation < 4 && 0 <= g.rotation < 4
    requires mapped.left < mapped.right && mapped.top < mapped.bottom && xpy > 0.0
    requires e.m == ExtMatrix(mapped, e.rotation, e.hflip, xpy, s)
    requires e.docking || Crop(g, e.region) == Cropped(g)
    requires g.win.w >= 0 && g.win.h >= 0 && g.crop.w != 0 && g.crop.h != 0
    ensures var g' := AdjustExt(e, g); var exact := Window(e.m, Real(g.win));
            && g'.crop == g.crop && g'.enabled == g.enabled
            && ToScreen(Real(g'.crop), exact, g'.rotation, g'.mirror, p)
                 == Apply(e.m, ToScreen(Real(g.crop), Real(g.win), g.rotation, g.mirror, p))
            && Near(g'.win.x, exact.x) && Near(g'.win.y, exact.y)
            && Near(g'.win.w, exact.w) && Near(g'.win.h, exact.h)
  {
    var (w, h) := Upright(mapped.right - mapped.left, mapped.bottom - mapped.top, e.rotation);
    var (aw, ah) := Target(mapped, e.rotation, xpy, s);
    ExtMatrixReorients(mapped, e.rotation, e.hflip, xpy, s);
    AdjustComposes(e.m, e.rotation, e.hflip, aw as real / w as real, ah as real / h as real, g, p);
    var exact := Window(e.m, Real(g.win));
    MRoundError(exact.x);
    MRoundError(exact.y);
    MRoundError(exact.w);
    MRoundError(exact.h);
  }

  ghost predicate Near(k: int, x: real) { -0.5 <= k as real - x <= 0.5 }

  function RegionBox(region: Rect): RBox {
    RBox(region.left as real, region.top as real,
         (region.right - region.left) as real, (region.bottom - region.top) as real)
  }

  /** The transformed window measures its turned extents, scaled. */
  lemma WindowSize(m: Mat, rotation: int, hflip: bool, sx: real, sy: real, win: RBox, x: real, y: real)
    requires 0 <= rotation < 4 && Reorients(m, rotation, hflip, sx, sy) && win.w >= 0.0 && win.h >= 0.0
    requires x == if Odd(rotation) then win.h else win.w
    requires y == if Odd(rotation) then win.w else win.h
    ensures Window(m, win).w == sx * x && Window(m, win).h == sy * y
  {
    RowSizes(m.a, m.b, win, sx, x);
    RowSizes(m.c, m.d, win, sy, y);
  }

  /** A matrix row with a single entry, of either sign, scales one extent. */
  lemma RowSizes(a: real, b: real, win: RBox, s: real, l: real)
    requires s >= 0.0 && l >= 0.0
    requires ((a == s || a == -s) && b == 0.0 && l == win.w) || (a == 0.0 && (b == s || b == -s) && l == win.h)
    ensures RowSize(a, b, win) == s * l
  {
    SizeScaled(s, l);
  }

  lemma SizeScaled(s: real, l: real)
    requires s >= 0.0 && l >= 0.0
    ensures s * l >= 0.0 && -s * l == -(s * l)
  {
  }

  lemma Quotient(x: real, y: real)
    requires y > 0.0
    ensures x / y * y == x
  {
  }

  /** The mapped region itself fills its target size ... */
  lemma RegionFillsTarget(region: Rect, rotation: int, hflip: bool, xpy: real, s: Screen)
    requires 0 <= rotation < 4
    requires region.left < region.right && region.top < region.bottom && xpy > 0.0
    ensures var shown := Window(ExtMatrix(region, rotation, hflip, xpy, s), RegionBox(region));
            var (aw, ah) := Target(region, rotation, xpy, s);
            shown.w == aw as real && shown.h == ah as real
  {
    var (w, h) := Upright(region.right - region.left, region.bottom - region.top, rotation);
    var (aw, ah) := Target(region, rotation, xpy, s);
    var m := ExtMatrix(region, rotation, hflip, xpy, s);
    ExtMatrixReorients(region, rotation, hflip, xpy, s);
    SizeFills(m, rotation, hflip, w as real, aw as real, h as real, ah as real, RegionBox(region));
  }

  lemma SizeFills(m: Mat, rotation: int, hflip: bool, w: real, aw: real, h: real, ah: real, win: RBox)
    requires w > 0.0 && h > 0.0 && win.w >= 0.0 && win.h >= 0.0
    requires 0 <= rotation < 4 && Reorients(m, rotation, hflip, aw / w, ah / h)
    requires if Odd(rotation) then win.h == w && win.w == h else win.w == w && win.h == h
    ensures Window(m, win).w == aw && Window(m, win).h == ah
  {
    var sx, sy := aw / w, ah / h;
    Quotient(aw, w);
    Quotient(ah, h);
    SizeScales(m, rotation, hflip, sx, w, aw, sy, h, ah, win);
  }

  lemma SizeScales(m: Mat, rotation: int, hflip: bool, sx: real, w: real, aw: real, sy: real, h: real, ah: real,
                   win: RBox)
    requires sx * w == aw && sy * h == ah && win.w >= 0.0 && win.h >= 0.0
    requires 0 <= rotation < 4 && Reorients(m, rotation, hflip, sx, sy)
    requires if Odd(rotation) then win.h == w && win.w == h else win.w == w && win.h == h
    ensures Window(m, win).w == aw && Window(m, win).h == ah
  {
    WindowSize(m, rotation, hflip, sx, sy, win, w, h);
  }

  /** ... which has the shape of the region, turned, ... */
  lemma RegionKeepsShape(region: Rect, rotation: int, hflip: bool, xpy: real, s: Screen, x: real, y: real)
    requires 0 <= rotation < 4
    requires region.left < region.right && region.top < region.bottom && xpy > 0.0
    requires var w, h := region.right - region.left, region.bottom - region.top;
             if rotation == 1 || rotation == 3 then HasShape(h, w, 1.0 / xpy, s, x, y) else HasShape(w, h, xpy, s, x, y)
    ensures var shown := Window(ExtMatrix(region, rotation, hflip, xpy, s), RegionBox(region));
            Shaped(x, y, s.xres, s.yres, shown.w, shown.h)
  {
    var w, h := region.right - region.left, region.bottom - region.top;
    RegionFillsTarget(region, rotation, hflip, xpy, s);
    if Odd(rotation) {
      MaxDimensionsKeepShape(h, w, 1.0 / xpy, s, x, y);
    } else {
      MaxDimensionsKeepShape(w, h, xpy, s, x, y);
    }
  }

  /** ... centred on the external screen. */
  lemma RegionCentred(region: Rect, rotation: int, hflip: bool, xpy: real, s: Screen)
    requires 0 <= rotation < 4
    requires region.left < region.right && region.top < region.bottom && xpy > 0.0
    ensures var shown := Window(ExtMatrix(region, rotation, hflip, xpy, s), RegionBox(region));
            Placed(shown, Pt(0.0, 0.0)) == Pt((s.xres / 2) as real, (s.yres / 2) as real)
  {
    var (w, h) := Upright(region.right - region.left, region.bottom - region.top, rotation);
    var (aw, ah) := Target(region, rotation, xpy, s);
    var m := ExtMatrix(region, rotation, hflip, xpy, s);
    ExtMatrixReorients(region, rotation, hflip, xpy, s);
    CentreFollows(m, rotation, hflip, aw as real / w as real, ah as real / h as real, RegionBox(region));
    CentreMoves(region, rotation, hflip, w as real, aw as real, h as real, ah as real,
                (s.xres / 2) as real, (s.yres / 2) as real);
  }

  lemma CentreFollows(m: Mat, rotation: int, hflip: bool, sx: real, sy: real, win: RBox)
    requires 0 <= rotation < 4 && Reorients(m, rotation, hflip, sx, sy) && win.w >= 0.0 && win.h >= 0.0
    ensures Placed(Window(m, win), Pt(0.0, 0.0)) == Apply(m, Placed(win, Pt(0.0, 0.0)))
  {
    WindowFollows(m, rotation, hflip, sx, sy, win, Pt(0.0, 0.0));
    assert Mirrored(Turn(Pt(0.0, 0.0), rotation), hflip) == Pt(0.0, 0.0);
  }

  lemma CentreMoves(region: Rect, rotation: int, hflip: bool, w: real, aw: real, h: real, ah: real, dx: real, dy: real)
    requires 0 <= rotation < 4 && w > 0.0 && h > 0.0
    ensures Apply(Translate(Scale(Oriented(region, rotation, hflip), w, aw, h, ah), dx, dy),
                  Placed(RegionBox(region), Pt(0.0, 0.0))) == Pt(dx, dy)
  {
    var o, centre := Oriented(region, rotation, hflip), Placed(RegionBox(region), Pt(0.0, 0.0));
    OrientedCentre(region, rotation, hflip);
    ScaledCentre(o, w, aw, h, ah, centre);
    TranslateMoves(Scale(o, w, aw, h, ah), dx, dy, centre);
  }

  lemma TranslateMoves(m: Mat, dx: real, dy: real, p: Pt)
    ensures Apply(Translate(m, dx, dy), p) == Pt(Apply(m, p).x + dx, Apply(m, p).y + dy)
  {
  }

  lemma OrientedCentre(region: Rect, rotation: int, hflip: bool)
    requires 0 <= rotation < 4
    ensures Apply(Oriented(region, rotation, hflip), Placed(RegionBox(region), Pt(0.0, 0.0))) == Pt(0.0, 0.0)
  {
  }

  lemma ScaledCentre(m: Mat, xFrom: real, xTo: real, yFrom: real, yTo: real, p: Pt)
    requires xFrom > 0.0 && yFrom > 0.0 && Apply(m, p) == Pt(0.0, 0.0)
    ensures Apply(Scale(m, xFrom, xTo, yFrom, yTo), p) == Pt(0.0, 0.0)
  {
    ScaledX(m, xFrom, xTo, yFrom, yTo, p);
    ScaledY(m, xFrom, xTo, yFrom, yTo, p);
  }

  lemma ScaledX(m: Mat, xFrom: real, xTo: real, yFrom: real, yTo: real, p: Pt)
    requires xFrom > 0.0 && yFrom > 0.0 && Apply(m, p).x == 0.0
    ensures Apply(Scale(m, xFrom, xTo, yFrom, yTo), p).x == 0.0
  {
    RowScaled(m.a, m.b, m.tx, xFrom, xTo, p);
  }

  lemma ScaledY(m: Mat, xFrom: real, xTo: real, yFrom: real, yTo: real, p: Pt)
    requires xFrom > 0.0 && yFrom > 0.0 && Apply(m, p).y == 0.0
    ensures Apply(Scale(m, xFrom, xTo, yFrom, yTo), p).y == 0.0
  {
    RowScaled(m.c, m.d, m.ty, yFrom, yTo, p);
  }

  lemma RowScaled(a: real, b: real, t: real, from: real, to: real, p: Pt)
    requires from > 0.0 && a * p.x + b * p.y + t == 0.0
    ensures a * to / from * p.x + b * to / from * p.y + t * to / from == 0.0
  {
    Ratio(a, to, from);
    Ratio(b, to, from);
    Ratio(t, to, from);
    Spread(a, b, t, to / from, p);
  }

  lemma Spread(a: real, b: real, t: real, k: real, p: Pt)
    ensures a * k * p.x + b * k * p.y + t * k == (a * p.x + b * p.y + t) * k
  {
  }

  lemma Ratio(a: real, to: real, from: real)
    requires from > 0.0
    ensures a * to / from == a * (to / from)
  {
    var k := to / from;
    assert k * from == to;
    assert a * to == a * k * from;
    DivCancel(a * k, from);
  }

  // ---------------------------------------------------------------- agreement with cropping

  /** A corner of the unit square: -1/2 or 1/2 on each axis. */
  function Half(far: bool): real { if far then 0.5 else -0.5 }

  /** The position of a span's first (or last) edge. */
  function Edge(s: Span, far: bool): real { (if far then s.pos + s.len else s.pos) as real }

  lemma NormalCorner(g: Geom, farX: bool, farY: bool)
    requires g.crop.w != 0 && g.crop.h != 0
    ensures Normal(Real(g.crop), Pt(Edge(CropX(g), farX), Edge(CropY(g), farY))) == Pt(Half(farX), Half(farY))
  {
    HalfEdge(CropX(g), farX);
    HalfEdge(CropY(g), farY);
  }

  lemma HalfEdge(s: Span, far: bool)
    requires s.len != 0
    ensures (Edge(s, far) - s.pos as real - s.len as real / 2.0) / s.len as real == Half(far)
  {
    var l := s.len as real;
    assert Edge(s, far) - s.pos as real - l / 2.0 == Half(far) * l;
  }

  lemma WindowCorner(win: RBox, far: bool)
    ensures Placed(win, Pt(Half(far), Half(far)))
         == if far then Pt(win.x + win.w, win.y + win.h) else Pt(win.x, win.y)
  {
  }

  /** The display axes that `crop_to_rect` aligns to are the axes of the source-to-screen map: the
      aligned crop starts at the window's top left corner and ends at its bottom right one. */
  lemma AlignmentAgrees(g: Geom, far: bool)
    requires 0 <= g.rotation < 4 && g.crop.w != 0 && g.crop.h != 0
    ensures var (h, v) := Aligned(g);
            var source := if Odd(g.rotation) then Pt(Edge(v, far), Edge(h, far)) else Pt(Edge(h, far), Edge(v, far));
            ToScreen(Real(g.crop), Real(g.win), g.rotation, g.mirror, source)
              == if far then Pt((g.win.x + g.win.w) as real, (g.win.y + g.win.h) as real)
                 else Pt(g.win.x as real, g.win.y as real)
  {
    var (h, v) := Aligned(g);
    var source := if Odd(g.rotation) then Pt(Edge(v, far), Edge(h, far)) else Pt(Edge(h, far), Edge(v, far));
    assert source == Pt(Edge(CropX(g), far != FlipX(g)), Edge(CropY(g), far != FlipY(g)));
    NormalCorner(g, far != FlipX(g), far != FlipY(g));
    CornerTurns(g, far);
    WindowCorner(Real(g.win), far);
  }

  lemma CornerTurns(g: Geom, far: bool)
    requires 0 <= g.rotation < 4
    ensures Mirrored(Turn(Pt(Half(far != FlipX(g)), Half(far != FlipY(g))), g.rotation), g.mirror)
         == Pt(Half(far), Half(far))
  {
  }

  /** Rotation and mirror that `setup_layer` derives from the three transform flags. */
  function LayerOrientation(flipH: bool, flipV: bool, rot90: bool): (int, bool) {
    var mirror1 := flipH;
    var (rotation2, mirror2) := if flipV then (2, !mirror1) else (0, mirror1);
    (if rot90 then (rotation2 + (if mirror2 then -1 else 1)) % 4 else rotation2, mirror2)
  }

  /** They turn and flip like the flags: flip horizontally, flip vertically, then turn clockwise. */
  lemma LayerOrientationMeans(flipH: bool, flipV: bool, rot90: bool, n: Pt)
    ensures var (rotation, mirror) := LayerOrientation(flipH, flipV, rot90);
            var h := if flipH then Pt(-n.x, n.y) else n;
            var v := if flipV then Pt(h.x, -h.y) else h;
            && 0 <= rotation < 4
            && Mirrored(Turn(n, rotation), mirror) == if rot90 then Turn(v, 1) else v
  {
  }
}
