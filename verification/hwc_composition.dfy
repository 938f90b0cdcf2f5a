/** Composition preserves meaning: stacking the chosen overlays by z-order, with the framebuffer
    that the GPU filled at its own z-order, shows what painting all layers back to front shows. */
module HwcComposition {
  import opened HwcCrop
  import opened HwcGeometry
  import opened HwcLayers
  import opened HwcComposer
  import opened Wrappers

  /** Any way of painting one colour over another; `clear` is the transparent colour. */
  datatype Blend<!C(!new)> = Blend(over: (C, C) -> C, clear: C)

  ghost predicate Associates<C(!new)>(b: Blend<C>, x: C, y: C, z: C) {
    b.over(x, b.over(y, z)) == b.over(b.over(x, y), z)
  }

  ghost predicate Neutral<C(!new)>(b: Blend<C>, x: C) {
    b.over(x, b.clear) == x && b.over(b.clear, x) == x
  }

  ghost predicate Lawful<C(!new)>(b: Blend<C>) {
    && (forall x, y, z :: Associates(b, x, y, z))
    && (forall x :: Neutral(b, x))
  }

  /** What one layer contributes to the pixel under consideration. */
  datatype Sample<+C> = Sample(colour: C, covered: bool)

  /** A layer that does not cover the pixel is transparent there; an opaque one hides all below. */
  ghost predicate Sampled<C(!new)>(b: Blend<C>, ls: seq<Layer>, pix: seq<Sample<C>>) {
    && |pix| == |ls|
    && forall i :: 0 <= i < |ls| ==>
         && (!pix[i].covered ==> pix[i].colour == b.clear)
         && (pix[i].covered && !IsBlended(ls[i]) ==> Hides(b, pix[i].colour))
  }

  ghost predicate Hides<C(!new)>(b: Blend<C>, x: C) { forall y :: b.over(x, y) == x }

  /** Reference meaning: the first `k` layers painted back to front. */
  ghost function Paint<C(!new)>(b: Blend<C>, pix: seq<Sample<C>>, k: nat): C
    requires k <= |pix|
  {
    if k == 0 then b.clear else b.over(pix[k - 1].colour, Paint(b, pix, k - 1))
  }

  /** The framebuffer after the GPU has gone through the first `k` layers. */
  ghost function Rendered<C(!new)>(b: Blend<C>, pix: seq<Sample<C>>, composition: seq<Composition>, k: nat): C
    requires k <= |pix| && k <= |composition|
  {
    if k == 0 then b.clear
    else
      var fb := Rendered(b, pix, composition, k - 1);
      match composition[k - 1]
      case Gpu => b.over(pix[k - 1].colour, fb)
      case Dss => fb
      case DssClearFb => if pix[k - 1].covered then b.clear else fb
  }

  ghost function Colour<C(!new)>(pix: seq<Sample<C>>, fb: C, layer: int): C {
    if 0 <= layer < |pix| then pix[layer].colour else fb
  }

  /** First primary overlay at z-order `z`, or |ovls|. */
  ghost function AtZ(ovls: seq<Overlay>, z: int, from: nat): nat
    requires from <= |ovls|
    ensures from <= AtZ(ovls, z, from) <= |ovls|
    decreases |ovls| - from
  {
    if from == |ovls| || (ovls[from].z == z && ovls[from].mgr == 0) then from else AtZ(ovls, z, from + 1)
  }

  /** The display controller: the `k` lowest z-orders of the primary display painted upwards. */
  ghost function Stack<C(!new)>(b: Blend<C>, pix: seq<Sample<C>>, fb: C, ovls: seq<Overlay>, k: nat): C {
    if k == 0 then b.clear
    else
      var i := AtZ(ovls, k - 1, 0);
      b.over(if i < |ovls| then Colour(pix, fb, ovls[i].layer) else b.clear, Stack(b, pix, fb, ovls, k - 1))
  }

  /** Overlays in slots `lo`..`hi - 1` painted upwards in slot order. */
  ghost function Slots<C(!new)>(b: Blend<C>, pix: seq<Sample<C>>, fb: C, ovls: seq<Overlay>, lo: nat, hi: nat): C
    requires hi <= |ovls|
  {
    if hi <= lo then b.clear else b.over(Colour(pix, fb, ovls[hi - 1].layer), Slots(b, pix, fb, ovls, lo, hi - 1))
  }

  ghost predicate SameLayers(ovls: seq<Overlay>, ovls': seq<Overlay>, n: nat)
  {
    n <= |ovls| && n <= |ovls'| && forall k :: 0 <= k < n ==> ovls'[k].layer == ovls[k].layer
  }

  lemma {:induction false} SlotsSame<C(!new)>(b: Blend<C>, pix: seq<Sample<C>>, fb: C, fb': C,
                                              ovls: seq<Overlay>, ovls': seq<Overlay>, lo: nat, hi: nat)
    requires hi <= |ovls| && hi <= |ovls'|
    requires forall k :: lo <= k < hi ==> 0 <= ovls[k].layer < |pix| && ovls'[k].layer == ovls[k].layer
    ensures Slots(b, pix, fb, ovls, lo, hi) == Slots(b, pix, fb', ovls', lo, hi)
  {
    if lo < hi {
      SlotsSame(b, pix, fb, fb', ovls, ovls', lo, hi - 1);
    }
  }

  lemma {:induction false} SlotsSplit<C(!new)>(b: Blend<C>, pix: seq<Sample<C>>, fb: C, ovls: seq<Overlay>,
                                               lo: nat, mid: nat, hi: nat)
    requires Lawful(b) && lo <= mid <= hi <= |ovls|
    ensures Slots(b, pix, fb, ovls, lo, hi)
         == b.over(Slots(b, pix, fb, ovls, mid, hi), Slots(b, pix, fb, ovls, lo, mid))
  {
    if mid < hi {
      SlotsSplit(b, pix, fb, ovls, lo, mid, hi - 1);
      assert Associates(b, Colour(pix, fb, ovls[hi - 1].layer),
                        Slots(b, pix, fb, ovls, mid, hi - 1), Slots(b, pix, fb, ovls, lo, mid));
    } else {
      assert Neutral(b, Slots(b, pix, fb, ovls, lo, mid));
    }
  }

  /** First slot above the framebuffer during placement. */
  function Cut(s: Placement): nat
    requires -1 <= s.fbZ
  {
    if s.fbZ < 0 then |s.ovls| else 1 + s.fbZ
  }

  /** Slots of layer overlays name layers that have been seen, and every layer has a verdict. */
  ghost predicate Tracked(mode: Mode, s: Placement, k: nat) {
    && |s.composition| == k
    && forall j :: (if mode.useSgx then 1 else 0) <= j < |s.ovls| ==> 0 <= s.ovls[j].layer < k
  }

  lemma {:induction false} AcceptTracked(c: Config, mode: Mode, s: Placement, l: Layer, k: nat)
    requires Tracked(mode, s, k)
    ensures Tracked(mode, Accept(c, mode, s, l, k), k + 1)
  {
  }

  lemma {:induction false} RejectTracked(mode: Mode, s: Placement, k: nat)
    requires Tracked(mode, s, k)
    ensures Tracked(mode, Reject(mode, s), k + 1)
  {
  }

  lemma {:induction false} PlaceOneTracked(c: Config, p: Plan, mode: Mode, s: Placement, l: Layer, k: nat)
    requires Tracked(mode, s, k)
    ensures Tracked(mode, PlaceOne(c, p, mode, s, l, k), k + 1)
  {
    AcceptTracked(c, mode, s, l, k);
    RejectTracked(mode, s, k);
  }

  lemma {:induction false} PlaceTracked(c: Config, p: Plan, mode: Mode, ls: seq<Layer>, k: nat)
    requires k <= |ls|
    ensures Tracked(mode, Place(c, p, mode, ls, k), k)
  {
    var inv := (s: Placement, i: nat) => Tracked(mode, s, i);
    forall s: Placement, i: nat | i < |ls| && inv(s, i) ensures inv(PlaceOne(c, p, mode, s, ls[i], i), i + 1) {
      PlaceOneTracked(c, p, mode, s, ls[i], i);
    }
    PlaceKeeps(c, p, mode, ls, k, inv);
  }

  /** The heart of the argument.  `above` and `below` are the overlays above and below the
      framebuffer: together they show the layers placed so far, and an overlay above the
      framebuffer never shares a pixel with what the GPU has drawn. */
  ghost predicate Shows<C(!new)>(b: Blend<C>, pix: seq<Sample<C>>, s: Placement, k: nat)
    requires k <= |pix| && k <= |s.composition|
    requires -1 <= s.fbZ < |s.ovls|
  {
    var (fb, below, above) := Parts(b, pix, s, k);
    && b.over(above, b.over(fb, below)) == Paint(b, pix, k)
    && (fb == b.clear || above == b.clear)
    && (s.fbZ < 0 ==> fb == b.clear)
  }

  ghost predicate Good<C(!new)>(b: Blend<C>, pix: seq<Sample<C>>, mode: Mode, s: Placement, k: nat) {
    && k <= |pix| && mode.useSgx && Layered(mode, s) && Tracked(mode, s, k)
    && Shows(b, pix, s, k)
  }

  lemma RenderedPrefix<C(!new)>(b: Blend<C>, pix: seq<Sample<C>>, x: seq<Composition>, y: seq<Composition>, k: nat)
    requires k <= |pix| && k <= |x| && x <= y
    ensures Rendered(b, pix, x, k) == Rendered(b, pix, y, k)
  {
  }

  /** What accepting a layer changes for the picture. */
  lemma AcceptSlots<C(!new)>(b: Blend<C>, pix: seq<Sample<C>>, c: Config, mode: Mode, s: Placement, l: Layer, k: nat)
    requires k < |pix| && mode.useSgx && Layered(mode, s) && Tracked(mode, s, k)
    ensures var s' := Accept(c, mode, s, l, k); var n := |s.ovls|;
            && Layered(mode, s') && Tracked(mode, s', k + 1) && |s'.ovls| == n + 1
            && Rendered(b, pix, s'.composition, k) == Rendered(b, pix, s.composition, k)
            && SameLayers(s.ovls, s'.ovls, n) && s'.ovls[n].layer == k
            && Slots(b, pix, b.clear, s'.ovls, 1, Cut(s)) == Slots(b, pix, b.clear, s.ovls, 1, Cut(s))
            && Slots(b, pix, b.clear, s'.ovls, Cut(s), n) == Slots(b, pix, b.clear, s.ovls, Cut(s), n)
  {
    var s' := Accept(c, mode, s, l, k);
    assert s'.composition[..k] == s.composition;
    RenderedPrefix(b, pix, s.composition, s'.composition, k);
    SlotsSame(b, pix, b.clear, b.clear, s.ovls, s'.ovls, 1, Cut(s));
    SlotsSame(b, pix, b.clear, b.clear, s.ovls, s'.ovls, Cut(s), |s.ovls|);
  }

  /** A layer accepted before anything went to the GPU joins the overlays below the framebuffer. */
  lemma AcceptShowsBelow<C(!new)>(b: Blend<C>, pix: seq<Sample<C>>, c: Config, mode: Mode, s: Placement, l: Layer,
                           k: nat)
    requires Lawful(b) && k < |pix| && Good(b, pix, mode, s, k) && s.fbZ < 0
    ensures Good(b, pix, mode, Accept(c, mode, s, l, k), k + 1)
  {
    AcceptSlots(b, pix, c, mode, s, l, k);
    var s' := Accept(c, mode, s, l, k);
    var n := |s.ovls|;
    AboveGrows(b, pix, s', 1, n, k);
    var below := Slots(b, pix, b.clear, s.ovls, 1, n);
    assert Parts(b, pix, s, k) == (b.clear, below, b.clear);
    assert Parts(b, pix, s', k + 1) == (b.clear, b.over(pix[k].colour, below), b.clear);
    assert Neutral(b, below) && Neutral(b, b.over(pix[k].colour, below));
  }

  /** Painting an opaque layer over the stack, and clearing the framebuffer under it. */
  lemma OpaqueOnTop<C(!new)>(b: Blend<C>, x: Sample<C>, above: C, fb: C, below: C)
    requires Lawful(b)
    requires if x.covered then Hides(b, x.colour) else x.colour == b.clear
    requires fb == b.clear || above == b.clear
    ensures var fb' := if x.covered then b.clear else fb;
            && b.over(b.over(x.colour, above), b.over(fb', below)) == b.over(x.colour, b.over(above, b.over(fb, below)))
            && (fb' == b.clear || b.over(x.colour, above) == b.clear)
  {
    if x.covered {
      assert b.over(x.colour, above) == x.colour;
    } else {
      assert Neutral(b, above) && Neutral(b, b.over(above, b.over(fb, below)));
    }
  }

  /** The parts of the picture: framebuffer, overlays below it, overlays above it. */
  ghost function Parts<C(!new)>(b: Blend<C>, pix: seq<Sample<C>>, s: Placement, k: nat): (C, C, C)
    requires k <= |pix| && k <= |s.composition| && -1 <= s.fbZ < |s.ovls|
  {
    (Rendered(b, pix, s.composition, k), Slots(b, pix, b.clear, s.ovls, 1, Cut(s)),
     Slots(b, pix, b.clear, s.ovls, Cut(s), |s.ovls|))
  }

  lemma AcceptAboveParts<C(!new)>(b: Blend<C>, pix: seq<Sample<C>>, c: Config, mode: Mode, s: Placement, l: Layer,
                           k: nat)
    requires k < |pix| && mode.useSgx && Layered(mode, s) && Tracked(mode, s, k) && s.fbZ >= 0 && !IsBlended(l)
    ensures var s' := Accept(c, mode, s, l, k); var (fb, below, above) := Parts(b, pix, s, k);
            && Layered(mode, s') && Tracked(mode, s', k + 1) && s'.fbZ == s.fbZ
            && Parts(b, pix, s', k + 1)
                 == (if pix[k].covered then b.clear else fb, below, b.over(pix[k].colour, above))
  {
    AcceptSlots(b, pix, c, mode, s, l, k);
    AboveGrows(b, pix, Accept(c, mode, s, l, k), Cut(s), |s.ovls|, k);
  }

  /** A later one is opaque: it joins the overlays above, and the framebuffer is cleared under it. */
  lemma AcceptShowsAbove<C(!new)>(b: Blend<C>, pix: seq<Sample<C>>, c: Config, mode: Mode, s: Placement, l: Layer,
                           k: nat)
    requires Lawful(b) && k < |pix| && Good(b, pix, mode, s, k) && s.fbZ >= 0 && !IsBlended(l)
    requires if pix[k].covered then Hides(b, pix[k].colour) else pix[k].colour == b.clear
    ensures Good(b, pix, mode, Accept(c, mode, s, l, k), k + 1)
  {
    AcceptAboveParts(b, pix, c, mode, s, l, k);
    var (fb, below, above) := Parts(b, pix, s, k);
    OpaqueOnTop(b, pix[k], above, fb, below);
  }

  lemma AboveGrows<C(!new)>(b: Blend<C>, pix: seq<Sample<C>>, s: Placement, cut: nat, n: nat, k: nat)
    requires cut <= n && |s.ovls| == n + 1 && k < |pix| && s.ovls[n].layer == k
    ensures Slots(b, pix, b.clear, s.ovls, cut, n + 1) == b.over(pix[k].colour, Slots(b, pix, b.clear, s.ovls, cut, n))
  {
  }

  lemma RejectParts<C(!new)>(b: Blend<C>, pix: seq<Sample<C>>, mode: Mode, s: Placement, k: nat)
    requires k < |pix| && mode.useSgx && Layered(mode, s) && Tracked(mode, s, k)
    ensures var s' := Reject(mode, s); var fb := Rendered(b, pix, s.composition, k);
            && Layered(mode, s') && Tracked(mode, s', k + 1) && s'.fbZ >= 0
            && Parts(b, pix, s', k + 1)
                 == (b.over(pix[k].colour, fb), Slots(b, pix, b.clear, s.ovls, 1, |s.ovls|), b.clear)
  {
    var s' := Reject(mode, s);
    assert s'.composition[..k] == s.composition;
    RenderedPrefix(b, pix, s.composition, s'.composition, k);
    SlotsSame(b, pix, b.clear, b.clear, s.ovls, s'.ovls, 1, |s.ovls|);
  }

  /** The framebuffer commutes with what lies above it, so it may move on top. */
  lemma GpuOnTop<C(!new)>(b: Blend<C>, colour: C, above: C, fb: C, below: C)
    requires Lawful(b) && (fb == b.clear || above == b.clear)
    ensures b.over(b.clear, b.over(b.over(colour, fb), b.over(above, below)))
         == b.over(colour, b.over(above, b.over(fb, below)))
  {
    assert Neutral(b, below) && Neutral(b, b.over(above, below));
    assert Neutral(b, b.over(fb, below));
    assert Associates(b, colour, fb, b.over(above, below));
    assert Neutral(b, b.over(b.over(colour, fb), b.over(above, below)));
  }

  /** A layer left to the GPU moves the framebuffer over all overlays. */
  lemma RejectShows<C(!new)>(b: Blend<C>, pix: seq<Sample<C>>, mode: Mode, s: Placement, k: nat)
    requires Lawful(b) && k < |pix| && Good(b, pix, mode, s, k)
    ensures Good(b, pix, mode, Reject(mode, s), k + 1)
  {
    RejectParts(b, pix, mode, s, k);
    SlotsSplit(b, pix, b.clear, s.ovls, 1, Cut(s), |s.ovls|);
    var (fb, below, above) := Parts(b, pix, s, k);
    GpuOnTop(b, pix[k].colour, above, fb, below);
  }

  lemma StartGood<C(!new)>(b: Blend<C>, pix: seq<Sample<C>>, mode: Mode)
    requires Lawful(b) && mode.useSgx
    ensures Good(b, pix, mode, Start(mode), 0)
  {
    assert Neutral(b, b.clear);
  }

  lemma StepShows<C(!new)>(b: Blend<C>, pix: seq<Sample<C>>, c: Config, p: Plan, mode: Mode, s: Placement, l: Layer,
                    k: nat)
    requires Lawful(b) && k < |pix| && Good(b, pix, mode, s, k)
    requires !pix[k].covered ==> pix[k].colour == b.clear
    requires pix[k].covered && !IsBlended(l) ==> Hides(b, pix[k].colour)
    ensures Good(b, pix, mode, PlaceOne(c, p, mode, s, l, k), k + 1)
  {
    if !Accepts(c, p, mode, s, l) {
      RejectShows(b, pix, mode, s, k);
    } else if s.fbZ < 0 {
      AcceptShowsBelow(b, pix, c, mode, s, l, k);
    } else {
      AcceptShowsAbove(b, pix, c, mode, s, l, k);
    }
  }

  lemma {:induction false} PlaceShows<C(!new)>(b: Blend<C>, pix: seq<Sample<C>>, c: Config, p: Plan, mode: Mode,
                                        ls: seq<Layer>, k: nat)
    requires Lawful(b) && Sampled(b, ls, pix) && k <= |ls| && mode.useSgx
    ensures Good(b, pix, mode, Place(c, p, mode, ls, k), k)
  {
    var inv := (s: Placement, i: nat) => Good(b, pix, mode, s, i);
    StartGood(b, pix, mode);
    forall s: Placement, i: nat | i < |ls| && inv(s, i) ensures inv(PlaceOne(c, p, mode, s, ls[i], i), i + 1) {
      StepShows(b, pix, c, p, mode, s, ls[i], i);
    }
    PlaceKeeps(c, p, mode, ls, k, inv);
  }

  // ---------------------------------------------------------------- from slots to z-orders

  lemma {:induction false} AtZFinds(ovls: seq<Overlay>, z: int, i: nat, from: nat)
    requires from <= i < |ovls| && ovls[i].z == z && ovls[i].mgr == 0
    requires forall j :: from <= j < i ==> !(ovls[j].z == z && ovls[j].mgr == 0)
    ensures AtZ(ovls, z, from) == i
    decreases i - from
  {
    if from < i {
      AtZFinds(ovls, z, i, from + 1);
    }
  }

  /** Final numbering of the primary overlays: slot 0 is the framebuffer at `fbZ`, the layer
      overlays are numbered around it; every other overlay belongs to another display. */
  ghost predicate Numbered(ovls: seq<Overlay>, n: nat, fbZ: int) {
    && 1 <= n <= |ovls| && 0 <= fbZ < n
    && ovls[0].z == fbZ && ovls[0].layer == FRAMEBUFFER
    && (forall k :: 1 <= k < n ==> ovls[k].z == if k - 1 < fbZ then k - 1 else k)
    && (forall k :: 0 <= k < |ovls| ==> (ovls[k].mgr == 0 <==> k < n))
  }

  lemma {:induction false} StackIsSlots<C(!new)>(b: Blend<C>, pix: seq<Sample<C>>, fb: C, ovls: seq<Overlay>, n: nat,
                                        fbZ: int, k: nat)
    requires Lawful(b) && Numbered(ovls, n, fbZ) && k <= n
    ensures Stack(b, pix, fb, ovls, k)
         == if k <= fbZ then Slots(b, pix, fb, ovls, 1, 1 + k)
            else b.over(Slots(b, pix, fb, ovls, 1 + fbZ, k), b.over(fb, Slots(b, pix, fb, ovls, 1, 1 + fbZ)))
  {
    if k > 0 {
      StackIsSlots(b, pix, fb, ovls, n, fbZ, k - 1);
      var i := if k - 1 == fbZ then 0 else if k - 1 < fbZ then k else k - 1;
      AtZFinds(ovls, k - 1, i, 0);
      if k - 1 > fbZ {
        var top, mid := Colour(pix, fb, ovls[k - 1].layer), Slots(b, pix, fb, ovls, 1 + fbZ, k - 1);
        assert Associates(b, top, mid, b.over(fb, Slots(b, pix, fb, ovls, 1, 1 + fbZ)));
      } else if k - 1 == fbZ {
        assert Neutral(b, b.over(fb, Slots(b, pix, fb, ovls, 1, 1 + fbZ)));
      }
    }
  }

  lemma FinishNumbered(c: Config, p: Plan, mode: Mode, ls: seq<Layer>)
    requires mode.useSgx
    ensures var s := Place(c, p, mode, ls, |ls|); var s' := Finish(c, mode, s);
            && -1 <= s.fbZ < |s.ovls| && |s'.ovls| == |s.ovls|
            && (forall k :: 1 <= k < |s.ovls| ==> s'.ovls[k] == s.ovls[k])
            && Cut(s) == 1 + s'.fbZ && s'.composition == s.composition
            && Numbered(s'.ovls, |s'.ovls|, s'.fbZ)
  {
    PlaceLayered(c, p, mode, ls, |ls|);
    PlacePrimary(c, p, mode, ls, |ls|);
  }

  /** Placement only uses overlays of the primary display. */
  lemma {:induction false} PlacePrimary(c: Config, p: Plan, mode: Mode, ls: seq<Layer>, k: nat)
    requires k <= |ls|
    ensures forall j :: 0 <= j < |Place(c, p, mode, ls, k).ovls| ==> Place(c, p, mode, ls, k).ovls[j].mgr == 0
  {
    if k > 0 {
      PlacePrimary(c, p, mode, ls, k - 1);
    }
  }

  // ---------------------------------------------------------------- cloning leaves the primary alone

  /** `ovls` starts with the primary overlays up to geometry, followed by external ones. */
  ghost predicate Extends(ovls: seq<Overlay>, primary: seq<Overlay>) {
    && |primary| <= |ovls|
    && (forall k :: 0 <= k < |primary| ==> ovls[k].(geom := primary[k].geom) == primary[k])
    && (forall k :: |primary| <= k < |ovls| ==> ovls[k].mgr == 1)
  }

  lemma {:induction false} MirrorExtends(c: Config, t: ExtTransform, ovls: seq<Overlay>, k: nat)
    requires k <= |ovls|
    ensures Extends(MirrorUpTo(c, t, ovls, k), ovls)
  {
    if k > 0 {
      MirrorExtends(c, t, ovls, k - 1);
    } else {
    }
  }

  lemma {:induction false} CloneExtends(c: Config, m: Memory, p: Plan, n: Counts, s: Placement)
    ensures Extends(CloneAll(c, m, p, n, s).ovls, s.ovls)
  {
    MirrorExtends(c, p.current, s.ovls, |s.ovls|);
  }

  lemma {:induction false} AdjustExtends(c: Config, ovls: seq<Overlay>, primary: seq<Overlay>)
    requires Extends(ovls, primary)
    ensures Extends(AdjustAll(c, ovls), primary)
  {
  }

  lemma {:induction false} PreparedExtends(c: Config, m: Memory, ls: seq<Layer>)
    ensures var f := Prepared(c, m, ls);
            Extends(f.ovls, f.placement.ovls) && f.post2 == |f.placement.ovls|
  {
    var f := Prepared(c, m, ls);
    CloneExtends(c, m, f.plan, f.counts, f.placement);
    AdjustExtends(c, CloneAll(c, m, f.plan, f.counts, f.placement).ovls, f.placement.ovls);
  }

  // ---------------------------------------------------------------- main theorem

  /** What the overlays built for the primary display show at the pixel.  They are handed to the
      display as they are, unless its TV mode is being changed: then it gets none, and stays dark. */
  ghost function Displayed<C(!new)>(b: Blend<C>, pix: seq<Sample<C>>, f: Frame): C
    requires |f.placement.composition| == |pix|
  {
    Stack(b, pix, Rendered(b, pix, f.placement.composition, |pix|), f.ovls, f.post2)
  }

  /** The finished frame numbers the overlays of the placement around the framebuffer. */
  lemma {:induction false} FrameNumbered(c: Config, m: Memory, ls: seq<Layer>)
    requires Prepared(c, m, ls).mode.useSgx
    ensures var f := Prepared(c, m, ls); var s := Place(c, f.plan, f.mode, ls, |ls|);
            && -1 <= s.fbZ < |s.ovls| && f.post2 == |s.ovls| && Cut(s) == 1 + f.placement.fbZ
            && f.placement.composition == s.composition
            && Numbered(f.ovls, f.post2, f.placement.fbZ)
            && |s.ovls| <= |f.ovls| && forall k :: 1 <= k < |s.ovls| ==> f.ovls[k].layer == s.ovls[k].layer
  {
    var f := Prepared(c, m, ls);
    FinishNumbered(c, f.plan, f.mode, ls);
    PreparedExtends(c, m, ls);
  }

  /** GPU-assisted composition shows exactly the layers painted back to front, for every layer list,
      configuration, history, blending and pixel. */
  lemma {:induction false} GpuCompositionPreservesMeaning<C(!new)>(b: Blend<C>, pix: seq<Sample<C>>, c: Config,
                                                                   m: Memory, ls: seq<Layer>)
    requires Lawful(b) && Sampled(b, ls, pix) && Prepared(c, m, ls).mode.useSgx
    ensures var f := Prepared(c, m, ls);
            |f.placement.composition| == |pix| && Displayed(b, pix, f) == Paint(b, pix, |ls|)
  {
    var f := Prepared(c, m, ls);
    var s := Place(c, f.plan, f.mode, ls, |ls|);
    PlaceShows(b, pix, c, f.plan, f.mode, ls, |ls|);
    FrameNumbered(c, m, ls);
    var fb := Rendered(b, pix, s.composition, |ls|);
    StackIsSlots(b, pix, fb, f.ovls, f.post2, f.placement.fbZ, f.post2);
    SlotsSame(b, pix, b.clear, fb, s.ovls, f.ovls, 1, Cut(s));
    SlotsSame(b, pix, b.clear, fb, s.ovls, f.ovls, Cut(s), |s.ovls|);
  }

  /** Every layer was given an overlay. */
  ghost predicate AllPlaced(f: Frame) {
    forall i :: 0 <= i < |f.placement.composition| ==> f.placement.composition[i] != Gpu
  }

  /** Slot, z-order and layer index coincide for the first `k` layers. */
  ghost predicate Aligned(s: Placement, k: nat) {
    |s.ovls| == k && forall j :: 0 <= j < k ==> s.ovls[j].layer == j && s.ovls[j].z == j && s.ovls[j].mgr == 0
  }

  lemma AcceptAligned(c: Config, mode: Mode, s: Placement, l: Layer, k: nat)
    requires !mode.useSgx && Layered(mode, s) && Aligned(s, k)
    ensures Aligned(Accept(c, mode, s, l, k), k + 1)
  {
  }

  lemma {:induction false} NotLeftOut(c: Config, p: Plan, mode: Mode, ls: seq<Layer>, k: nat)
    requires 0 < k <= |ls| && !mode.useSgx
    requires var s := Place(c, p, mode, ls, k); forall i :: 0 <= i < |s.composition| ==> s.composition[i] != Gpu
    ensures var s := Place(c, p, mode, ls, k - 1);
            && Place(c, p, mode, ls, k) == Accept(c, mode, s, ls[k - 1], k - 1)
            && forall i :: 0 <= i < |s.composition| ==> s.composition[i] != Gpu
  {
    PlaceTracked(c, p, mode, ls, k - 1);
    var s := Place(c, p, mode, ls, k - 1);
    var a := Accept(c, mode, s, ls[k - 1], k - 1);
    assert Reject(mode, s).composition[k - 1] == Gpu;
    assert forall i :: 0 <= i < |s.composition| ==> a.composition[i] == s.composition[i];
  }

  /** Without the GPU they coincide as long as no layer is left out. */
  lemma {:induction false} PlaceInOrder(c: Config, p: Plan, mode: Mode, ls: seq<Layer>, k: nat)
    requires k <= |ls| && !mode.useSgx
    requires var s := Place(c, p, mode, ls, k); forall i :: 0 <= i < |s.composition| ==> s.composition[i] != Gpu
    ensures Aligned(Place(c, p, mode, ls, k), k)
  {
    if k > 0 {
      PlaceTracked(c, p, mode, ls, k - 1);
      var s := Place(c, p, mode, ls, k - 1);
      NotLeftOut(c, p, mode, ls, k);
      PlaceInOrder(c, p, mode, ls, k - 1);
      PlaceLayered(c, p, mode, ls, k - 1);
      AcceptAligned(c, mode, s, ls[k - 1], k - 1);
    }
  }

  lemma {:induction false} StackInOrder<C(!new)>(b: Blend<C>, pix: seq<Sample<C>>, fb: C, ovls: seq<Overlay>, k: nat)
    requires k <= |ovls| && k <= |pix|
    requires forall j :: 0 <= j < k ==> ovls[j].layer == j && ovls[j].z == j && ovls[j].mgr == 0
    ensures Stack(b, pix, fb, ovls, k) == Paint(b, pix, k)
  {
    if k > 0 {
      StackInOrder(b, pix, fb, ovls, k - 1);
      AtZFinds(ovls, k - 1, k - 1, 0);
    }
  }

  /** GPU-free composition shows the same picture whenever every layer found an overlay. */
  lemma {:induction false} OverlayCompositionPreservesMeaning<C(!new)>(b: Blend<C>, pix: seq<Sample<C>>, c: Config,
                                                                       m: Memory, ls: seq<Layer>)
    requires |pix| == |ls|
    requires !Prepared(c, m, ls).mode.useSgx && AllPlaced(Prepared(c, m, ls))
    ensures var f := Prepared(c, m, ls);
            |f.placement.composition| == |pix| && Displayed(b, pix, f) == Paint(b, pix, |ls|)
  {
    var f := Prepared(c, m, ls);
    PlaceTracked(c, f.plan, f.mode, ls, |ls|);
    PlaceInOrder(c, f.plan, f.mode, ls, |ls|);
    PreparedExtends(c, m, ls);
    StackInOrder(b, pix, Rendered(b, pix, f.placement.composition, |pix|), f.ovls, |ls|);
  }
}
