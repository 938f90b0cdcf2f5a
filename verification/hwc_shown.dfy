/** Where the overlays of a frame show their layers: window, crop and orientation, on the primary
    display and on the external one (hwc/hwc.c). */
module HwcShown {
  import opened HwcCrop
  import opened HwcGeometry
  import opened HwcLayers
  import opened HwcComposer
  import opened HwcComposition
  import opened Wrappers

  // ---------------------------------------------------------------- layers

  /** The rectangle between these edges. */
  ghost predicate Spans(b: Box, r: Rect) {
    b.x == r.left && b.x + b.w == r.right && b.y == r.top && b.y + b.h == r.bottom
  }

  /** Flip horizontally, flip vertically, then turn clockwise. */
  function Flagged(t: Transform, n: Pt): Pt {
    var h := if t.flipH then Pt(-n.x, n.y) else n;
    var v := if t.flipV then Pt(h.x, -h.y) else h;
    if t.rot90 then Pt(-v.y, v.x) else v
  }

  /** The window covers the place of the layer on the screen, the crop its part of the buffer, and the
      picture is oriented as its three flags say. */
  ghost predicate Depicts(g: Geom, l: Layer) {
    && g.enabled && Spans(g.win, l.frame) && Spans(g.crop, l.source)
    && forall n: Pt :: Mirrored(Turn(n, g.rotation), g.mirror) == Flagged(l.transform, n)
  }

  lemma LayerGeomDepicts(l: Layer)
    ensures Depicts(LayerGeom(l), l)
  {
    var g := LayerGeom(l);
    forall n: Pt ensures Mirrored(Turn(n, g.rotation), g.mirror) == Flagged(l.transform, n) {
      LayerOrientationMeans(l.transform.flipH, l.transform.flipV, l.transform.rot90, n);
    }
  }

  /** Every overlay but the framebuffer depicts its layer, from the buffer of its own slot. */
  ghost predicate Depicted(ovls: seq<Overlay>, ls: seq<Layer>) {
    forall j :: 0 <= j < |ovls| ==> DepictedAt(ovls[j], j, ls)
  }

  ghost predicate DepictedAt(o: Overlay, j: int, ls: seq<Layer>) {
    o.ba == j && (o.layer != FRAMEBUFFER ==> 0 <= o.layer < |ls| && Depicts(o.geom, ls[o.layer]))
  }

  lemma {:induction false} AcceptDepicted(c: Config, mode: Mode, s: Placement, ls: seq<Layer>, i: nat)
    requires i < |ls| && Depicted(s.ovls, ls)
    ensures Depicted(Accept(c, mode, s, ls[i], i).ovls, ls)
  {
    var s' := Accept(c, mode, s, ls[i], i);
    LayerGeomDepicts(ls[i]);
    forall j | 0 <= j < |s.ovls| ensures DepictedAt(s'.ovls[j], j, ls) {
      assert DepictedAt(s.ovls[j], j, ls);
      assert s'.ovls[j] == s.ovls[j].(ix := s'.ovls[j].ix);
    }
  }

  lemma {:induction false} RejectDepicted(mode: Mode, s: Placement, ls: seq<Layer>)
    requires Depicted(s.ovls, ls)
    ensures Depicted(Reject(mode, s).ovls, ls)
  {
    var s' := Reject(mode, s);
    forall j | 0 <= j < |s.ovls| ensures DepictedAt(s'.ovls[j], j, ls) {
      assert DepictedAt(s.ovls[j], j, ls);
      assert s'.ovls[j] == s.ovls[j].(z := s'.ovls[j].z);
    }
  }

  lemma {:induction false} PlaceOneDepicted(c: Config, p: Plan, mode: Mode, s: Placement, ls: seq<Layer>, i: nat)
    requires i < |ls| && Depicted(s.ovls, ls)
    ensures Depicted(PlaceOne(c, p, mode, s, ls[i], i).ovls, ls)
  {
    AcceptDepicted(c, mode, s, ls, i);
    RejectDepicted(mode, s, ls);
  }

  lemma {:induction false} PlaceDepicted(c: Config, p: Plan, mode: Mode, ls: seq<Layer>, k: nat)
    requires k <= |ls|
    ensures Depicted(Place(c, p, mode, ls, k).ovls, ls)
  {
    var inv := (s: Placement, i: nat) => Depicted(s.ovls, ls);
    forall s: Placement, i: nat | i < |ls| && inv(s, i) ensures inv(PlaceOne(c, p, mode, s, ls[i], i), i + 1) {
      PlaceOneDepicted(c, p, mode, s, ls, i);
    }
    PlaceKeeps(c, p, mode, ls, k, inv);
  }

  lemma FinishDepicted(c: Config, mode: Mode, s: Placement, ls: seq<Layer>)
    requires Depicted(s.ovls, ls)
    ensures Depicted(Finish(c, mode, s).ovls, ls)
  {
    var s' := Finish(c, mode, s);
    forall j | 0 <= j < |s.ovls| ensures DepictedAt(s'.ovls[j], j, ls) {
      assert DepictedAt(s.ovls[j], j, ls);
    }
  }

  /** In every frame, every overlay of the placement but the framebuffer depicts its layer. */
  lemma OverlaysDepictLayers(c: Config, m: Memory, ls: seq<Layer>)
    ensures Depicted(Prepared(c, m, ls).placement.ovls, ls)
  {
    var f := Prepared(c, m, ls);
    PlaceDepicted(c, f.plan, f.mode, ls, |ls|);
    FinishDepicted(c, f.mode, Place(c, f.plan, f.mode, ls, |ls|), ls);
  }

  function WholeScreen(c: Config): Geom {
    var size := Box(0, 0, c.fbWidth, c.fbHeight);
    Geom(size, size, 0, false, true)
  }

  /** The framebuffer, and nothing else, is shown whole, in slot 0, when the GPU composes. */
  lemma FramebufferShown(c: Config, m: Memory, ls: seq<Layer>)
    ensures var f := Prepared(c, m, ls); var ovls := f.placement.ovls;
            && (forall j :: 0 <= j < |ovls| ==> (ovls[j].layer == FRAMEBUFFER <==> f.mode.useSgx && j == 0))
            && (f.mode.useSgx ==> |ovls| > 0 && ovls[0].geom == WholeScreen(c))
  {
    var f := Prepared(c, m, ls);
    PlaceTracked(c, f.plan, f.mode, ls, |ls|);
    PlaceLayered(c, f.plan, f.mode, ls, |ls|);
    var s := Place(c, f.plan, f.mode, ls, |ls|);
    assert forall j :: 1 <= j < |s.ovls| ==> f.placement.ovls[j].layer == s.ovls[j].layer;
  }

  /** A depicted layer: each point of its part of the buffer is where the flags put it in its frame. */
  lemma DepictsPoints(g: Geom, l: Layer, p: Pt)
    requires Depicts(g, l) && Width(l.source) != 0 && Height(l.source) != 0
    ensures ToScreen(Real(g.crop), Real(g.win), g.rotation, g.mirror, p)
         == Placed(RegionBox(l.frame), Flagged(l.transform, Normal(RegionBox(l.source), p)))
  {
    assert Real(g.crop) == RegionBox(l.source) && Real(g.win) == RegionBox(l.frame);
  }

  // ---------------------------------------------------------------- transformed overlays

  /** `g'` is the picture `g` carried along by matrix `m`, which turns and flips it; the edges of its
      window are rounded to whole pixels. */
  ghost predicate Carries(g: Geom, m: Mat, rotation: int, flip: bool, g': Geom) {
    var exact := Window(m, Real(g.win));
    && g'.crop == g.crop && g'.enabled == g.enabled
    && Near(g'.win.x, exact.x) && Near(g'.win.y, exact.y) && Near(g'.win.w, exact.w) && Near(g'.win.h, exact.h)
    && forall n: Pt :: Mirrored(Turn(n, g'.rotation), g'.mirror) == Reoriented(g, rotation, flip, n)
  }

  /** The orientation of `g`, then some more turns and a flip. */
  function Reoriented(g: Geom, rotation: int, flip: bool, n: Pt): Pt {
    Mirrored(Turn(Mirrored(Turn(n, g.rotation), g.mirror), rotation), flip)
  }

  /** What is left of `g` in a visible rectangle, carried along; nothing is shown if nothing is left. */
  ghost predicate CarriesVisible(g: Geom, visible: Rect, m: Mat, rotation: int, flip: bool, g': Geom) {
    match Crop(g, visible)
    case Outside => !g'.enabled
    case Cropped(g1) => Carries(g1, m, rotation, flip, g')
  }

  lemma QuarterTurns(a: int, b: int)
    ensures (a + b) % 4 == (a % 4 + b % 4) % 4 && (a - b) % 4 == (a % 4 - b % 4) % 4
  {
    WholeTurns(a % 4 + b % 4, a / 4 + b / 4);
    WholeTurns(a % 4 - b % 4, a / 4 - b / 4);
  }

  lemma WholeTurns(a: int, n: int)
    ensures (a + 4 * n) % 4 == a % 4
  {
  }

  lemma TurnedMeans(g: Geom, rotation: int, flip: bool, n: Pt)
    ensures Mirrored(Turn(n, Turned(g, rotation)), g.mirror != flip) == Reoriented(g, rotation, flip, n)
  {
    var r, b := g.rotation % 4, rotation % 4;
    OrientationsCombine(g.(rotation := r), b, flip, n);
    QuarterTurns(g.rotation, rotation);
    assert Turned(g, rotation) == Turned(g.(rotation := r), b);
    TurnAgain(n, g.rotation);
    TurnAgain(Mirrored(Turn(n, r), g.mirror), rotation);
  }

  lemma TurnAgain(n: Pt, quarterTurns: int)
    ensures Turn(n, quarterTurns) == Turn(n, quarterTurns % 4)
  {
  }

  lemma RoundedCarries(g: Geom, m: Mat, rotation: int, flip: bool)
    ensures var win := Rounded(Window(m, Real(g.win)));
            Carries(g, m, rotation, flip, g.(win := win, rotation := Turned(g, rotation), mirror := g.mirror != flip))
  {
    var exact := Window(m, Real(g.win));
    MRoundError(exact.x);
    MRoundError(exact.y);
    MRoundError(exact.w);
    MRoundError(exact.h);
    forall n: Pt {
      TurnedMeans(g, rotation, flip, n);
    }
  }

  lemma AdjustExtCarries(e: Ext, g: Geom)
    ensures if e.docking then Carries(g, e.m, e.rotation, e.hflip, AdjustExt(e, g))
            else CarriesVisible(g, e.region, e.m, e.rotation, e.hflip, AdjustExt(e, g))
  {
    if e.docking {
      RoundedCarries(g, e.m, e.rotation, e.hflip);
    } else if Crop(g, e.region).Cropped? {
      RoundedCarries(Crop(g, e.region).geom, e.m, e.rotation, e.hflip);
    }
  }

  lemma AdjustPrimaryCarries(m: Mat, rotation: int, region: Rect, g: Geom)
    ensures CarriesVisible(g, region, m, rotation, false, AdjustPrimary(m, rotation, region, g))
  {
    if Crop(g, region).Cropped? {
      RoundedCarries(Crop(g, region).geom, m, rotation, false);
    }
  }

  /** With a matrix that turns, flips and scales accordingly, every source point moves with it, before
      rounding. */
  lemma CarriesPoints(g: Geom, m: Mat, rotation: int, flip: bool, sx: real, sy: real, g': Geom, p: Pt)
    requires Carries(g, m, rotation, flip, g') && 0 <= rotation < 4 && Reorients(m, rotation, flip, sx, sy)
    requires g.win.w >= 0 && g.win.h >= 0 && g.crop.w != 0 && g.crop.h != 0
    ensures ToScreen(Real(g'.crop), Window(m, Real(g.win)), g'.rotation, g'.mirror, p)
         == Apply(m, ToScreen(Real(g.crop), Real(g.win), g.rotation, g.mirror, p))
  {
    var n := Normal(Real(g.crop), p);
    WindowFollows(m, rotation, flip, sx, sy, Real(g.win), Mirrored(Turn(n, g.rotation), g.mirror));
    assert Reoriented(g, rotation, flip, n) == Mirrored(Turn(n, g'.rotation), g'.mirror);
  }

  // ---------------------------------------------------------------- the overlays of a frame

  /** The overlays of the primary display are those of the placement; with a primary transform, what is
      left of them in the primary region, carried along by the primary matrix. */
  lemma PrimaryShown(c: Config, m: Memory, ls: seq<Layer>, j: nat)
    requires j < Prepared(c, m, ls).post2
    ensures var f := Prepared(c, m, ls); var g := f.placement.ovls[j].geom;
            && f.ovls[j].layer == f.placement.ovls[j].layer
            && if c.primaryTransform
               then CarriesVisible(g, c.primaryRegion, c.primaryM, c.primaryRotation, false, f.ovls[j].geom)
               else f.ovls[j].geom == g
  {
    var f := Prepared(c, m, ls);
    var r := CloneAll(c, m, f.plan, f.counts, f.placement).ovls;
    CloneExtends(c, m, f.plan, f.counts, f.placement);
    PrimaryManaged(c, m, ls);
    assert r[j].geom == f.placement.ovls[j].geom by {
      ClonesKeepGeometry(c, m, f.plan, f.counts, f.placement, j);
    }
    assert f.ovls[j] == Adjusted(c, r[j]);
    AdjustPrimaryCarries(c.primaryM, c.primaryRotation, c.primaryRegion, r[j].geom);
  }

  lemma PrimaryManaged(c: Config, m: Memory, ls: seq<Layer>)
    ensures var s := Prepared(c, m, ls).placement; forall i :: 0 <= i < |s.ovls| ==> s.ovls[i].mgr == 0
  {
    var f := Prepared(c, m, ls);
    PlacePrimary(c, f.plan, f.mode, ls, |ls|);
  }

  lemma ClonesKeepGeometry(c: Config, m: Memory, p: Plan, n: Counts, s: Placement, j: nat)
    requires j < |s.ovls|
    ensures var r := CloneAll(c, m, p, n, s).ovls; |s.ovls| <= |r| && r[j] == s.ovls[j]
  {
    var r := MirrorUpTo(c, p.current, s.ovls, |s.ovls|);
    assert r[j] == r[..|s.ovls|][j];
  }
}
