/** The overlay budget: what the counts promise to the placement loop, and how overlays are
    handed over between the two displays from frame to frame (hwc/hwc.c). */
module HwcBudget {
  import opened HwcCrop
  import opened HwcGeometry
  import opened HwcLayers
  import opened HwcComposer
  import opened HwcComposition
  import opened HwcShown
  import opened Wrappers

  // ---------------------------------------------------------------- the counts

  predicate Valid(c: Config, l: Layer) { ValidLayer(c.canScale, c.tilerSlotSize, l) }

  /** What the statistics say about each of the first `k` layers. */
  ghost predicate CountsSay(c: Config, n: Counts, ls: seq<Layer>, k: nat)
    requires k <= |ls|
  {
    && n.possible <= k && n.nv12 <= n.possible
    && (n.possible == k ==> forall i :: 0 <= i < k ==> Valid(c, ls[i]))
    && forall i :: 0 <= i < k && Valid(c, ls[i]) ==>
         && (n.bgr == 0 ==> !IsBGR(ls[i].handle.value))
         && (n.rgb == 0 ==> !IsRGB(ls[i].handle.value))
         && (n.nv12 == n.possible ==> IsNV12(ls[i].handle.value))
         && (n.dockable == 0 ==> !Dockable(ls[i]))
  }

  lemma {:induction false} TallySays(c: Config, ls: seq<Layer>, k: nat)
    requires k <= |ls|
    ensures Tally(c, ls, k).composited == |ls|
    ensures CountsSay(c, Tally(c, ls, k), ls, k)
  {
    if k > 0 {
      TallySays(c, ls, k - 1);
    }
  }

  lemma {:induction false} TallyMemGrows(c: Config, ls: seq<Layer>, k: nat, n: nat)
    requires k <= n <= |ls|
    ensures Tally(c, ls, k).mem <= Tally(c, ls, n).mem
  {
    if k < n {
      TallyMemGrows(c, ls, k, n - 1);
    }
  }

  // ---------------------------------------------------------------- limits of the placement

  /** What a placement after `k` layers has used up. */
  ghost predicate Within(c: Config, p: Plan, mode: Mode, ls: seq<Layer>, s: Placement, k: nat)
    requires k <= |ls|
  {
    var reserved := if mode.useSgx then 1 else 0;
    && reserved <= |s.ovls| <= Max(reserved, p.maxHw)
    && |s.ovls| <= reserved + k
    && s.memUsed <= c.tilerSlotSize && s.memUsed <= Tally(c, ls, k).mem
    && s.ixDocking < |s.ovls|
  }

  lemma {:induction false} PlaceOneWithin(c: Config, p: Plan, mode: Mode, ls: seq<Layer>, s: Placement, k: nat)
    requires k < |ls| && Within(c, p, mode, ls, s, k)
    ensures Within(c, p, mode, ls, PlaceOne(c, p, mode, s, ls[k], k), k + 1)
  {
    assert Tally(c, ls, k + 1) == CountLayer(c, Tally(c, ls, k), ls[k]);
  }

  /** No placement uses more than the granted overlays (one is always kept for the framebuffer),
      nor more TILER memory than a slot has. */
  lemma {:induction false} PlaceWithinLimits(c: Config, p: Plan, mode: Mode, ls: seq<Layer>, k: nat)
    requires k <= |ls|
    ensures Within(c, p, mode, ls, Place(c, p, mode, ls, k), k)
  {
    var inv := (s: Placement, i: nat) => i <= |ls| && Within(c, p, mode, ls, s, i);
    forall s: Placement, i: nat | i < |ls| && inv(s, i) ensures inv(PlaceOne(c, p, mode, s, ls[i], i), i + 1) {
      PlaceOneWithin(c, p, mode, ls, s, i);
    }
    PlaceKeeps(c, p, mode, ls, k, inv);
  }

  // ---------------------------------------------------------------- aggregate check and greedy loop

  /** A layer that the aggregate check lets pass but no overlay may show: a docked, non-NV12 layer
      under an external transform, or a BGR layer on a TV. */
  predicate Unplaceable(c: Config, p: Plan, l: Layer) {
    && l.handle.Some?
    && ((Cloning(p, l) && p.current.docking && Transforms(p.current) && !IsNV12(l.handle.value))
        || (IsBGR(l.handle.value) && (c.onTv || (c.extOnTv && Cloning(p, l)))))
  }

  lemma AggregateDecidesLayer(c: Config, p: Plan, ls: seq<Layer>, i: nat)
    requires i < |ls| && CanRenderAll(c, p, Tally(c, ls, |ls|))
    ensures Valid(c, ls[i])
    ensures CanRenderLayer(c, p, ChooseMode(c, p, Tally(c, ls, |ls|)), ls[i]) <==> !Unplaceable(c, p, ls[i])
  {
    TallySays(c, ls, |ls|);
  }

  /** One step without the GPU: overlays and memory cannot run out. */
  lemma GreedyStep(c: Config, p: Plan, ls: seq<Layer>, s: Placement, k: nat)
    requires k < |ls| && CanRenderAll(c, p, Tally(c, ls, |ls|))
    requires s.fbZ < 0 && |s.ovls| <= k && s.memUsed <= Tally(c, ls, k).mem
    ensures Accepts(c, p, ChooseMode(c, p, Tally(c, ls, |ls|)), s, ls[k]) <==> !Unplaceable(c, p, ls[k])
  {
    TallySays(c, ls, |ls|);
    TallyMemGrows(c, ls, k + 1, |ls|);
    AggregateDecidesLayer(c, p, ls, k);
    assert Tally(c, ls, k + 1).mem == Tally(c, ls, k).mem + Mem1d(ls[k].handle);
  }

  /** The first `k` layers have been placed, except the unplaceable ones. */
  ghost predicate PlacedExactly(c: Config, p: Plan, ls: seq<Layer>, s: Placement, k: nat)
    requires k <= |ls|
  {
    && |s.composition| == k && s.fbZ < 0
    && forall i :: 0 <= i < k ==> (s.composition[i] != Gpu <==> !Unplaceable(c, p, ls[i]))
  }

  lemma AcceptPlaces(c: Config, p: Plan, mode: Mode, ls: seq<Layer>, s: Placement, k: nat)
    requires k < |ls| && PlacedExactly(c, p, ls, s, k) && !Unplaceable(c, p, ls[k])
    ensures PlacedExactly(c, p, ls, Accept(c, mode, s, ls[k], k), k + 1)
  {
  }

  lemma RejectPlaces(c: Config, p: Plan, mode: Mode, ls: seq<Layer>, s: Placement, k: nat)
    requires k < |ls| && PlacedExactly(c, p, ls, s, k) && Unplaceable(c, p, ls[k]) && !mode.useSgx
    ensures PlacedExactly(c, p, ls, Reject(mode, s), k + 1)
  {
  }

  lemma {:induction false} PlaceOneExactly(c: Config, p: Plan, mode: Mode, ls: seq<Layer>, s: Placement, k: nat)
    requires k < |ls| && PlacedExactly(c, p, ls, s, k) && !mode.useSgx
    requires Accepts(c, p, mode, s, ls[k]) <==> !Unplaceable(c, p, ls[k])
    ensures PlacedExactly(c, p, ls, PlaceOne(c, p, mode, s, ls[k], k), k + 1)
  {
    if Unplaceable(c, p, ls[k]) {
      RejectPlaces(c, p, mode, ls, s, k);
    } else {
      AcceptPlaces(c, p, mode, ls, s, k);
    }
  }

  /** Without the GPU a layer is placed iff it may be shown. */
  lemma {:induction false} GreedyPlaces(c: Config, p: Plan, ls: seq<Layer>, k: nat)
    requires k <= |ls| && CanRenderAll(c, p, Tally(c, ls, |ls|))
    ensures PlacedExactly(c, p, ls, Place(c, p, ChooseMode(c, p, Tally(c, ls, |ls|)), ls, k), k)
  {
    if k > 0 {
      GreedyPlaces(c, p, ls, k - 1);
      var mode := ChooseMode(c, p, Tally(c, ls, |ls|));
      var s := Place(c, p, mode, ls, k - 1);
      PlaceWithinLimits(c, p, mode, ls, k - 1);
      GreedyStep(c, p, ls, s, k - 1);
      PlaceOneExactly(c, p, mode, ls, s, k - 1);
      assert Place(c, p, mode, ls, k) == PlaceOne(c, p, mode, s, ls[k - 1], k - 1);
    }
  }

  /** Layer i sits in slot i at z-order i. */
  ghost predicate InOrder(ovls: seq<Overlay>, n: nat) {
    |ovls| == n && forall i :: 0 <= i < n ==> ovls[i].layer == i && ovls[i].z == i
  }

  /** If the aggregate check passes, the greedy loop places every layer exactly when none is
      unplaceable; layer i then has z-order i and slot i. */
  lemma AggregateImpliesGreedy(c: Config, m: Memory, ls: seq<Layer>)
    requires CanRenderAll(c, Prepared(c, m, ls).plan, Prepared(c, m, ls).counts)
    ensures var f := Prepared(c, m, ls);
            && (AllPlaced(f) <==> forall i :: 0 <= i < |ls| ==> !Unplaceable(c, f.plan, ls[i]))
            && (AllPlaced(f) ==> InOrder(f.placement.ovls, |ls|))
  {
    var f := Prepared(c, m, ls);
    GreedyPlaces(c, f.plan, ls, |ls|);
    TallySays(c, ls, |ls|);
    var s := Place(c, f.plan, f.mode, ls, |ls|);
    assert f.placement.composition == s.composition;
    if AllPlaced(f) {
      PlaceInOrder(c, f.plan, f.mode, ls, |ls|);
    }
    forall i | 0 <= i < |ls| && AllPlaced(f) ensures !Unplaceable(c, f.plan, ls[i]) {
      assert s.composition[i] != Gpu;
    }
  }

  /** With consistent RGB ordering, and NV12 wherever docking transforms, nothing is unplaceable. */
  lemma ConsistentLayersArePlaced(c: Config, m: Memory, ls: seq<Layer>)
    requires CanRenderAll(c, Prepared(c, m, ls).plan, Prepared(c, m, ls).counts) && c.rgbOrder
    requires var t := Prepared(c, m, ls).plan.current;
             t.enabled && t.docking && Transforms(t) ==>
               forall i :: 0 <= i < |ls| && Dockable(ls[i]) ==> IsNV12(ls[i].handle.value)
    ensures AllPlaced(Prepared(c, m, ls))
  {
    var f := Prepared(c, m, ls);
    TallySays(c, ls, |ls|);
    AggregateImpliesGreedy(c, m, ls);
  }

  /** With consistent RGB ordering, and NV12 wherever docking transforms, every frame shows exactly the
      layers painted back to front, whether or not the GPU takes part. */
  lemma {:induction false} ConsistentLayersAreShown<C(!new)>(b: Blend<C>, pix: seq<Sample<C>>, c: Config, m: Memory,
                                                             ls: seq<Layer>)
    requires Lawful(b) && Sampled(b, ls, pix) && c.rgbOrder
    requires var t := Prepared(c, m, ls).plan.current;
             t.enabled && t.docking && Transforms(t) ==>
               forall i :: 0 <= i < |ls| && Dockable(ls[i]) ==> IsNV12(ls[i].handle.value)
    ensures var f := Prepared(c, m, ls);
            && |f.placement.composition| == |pix| && Displayed(b, pix, f) == Paint(b, pix, |ls|)
            && f.shown == if c.modeChanging && c.onTv then [] else f.ovls
  {
    if Prepared(c, m, ls).mode.useSgx {
      GpuCompositionPreservesMeaning(b, pix, c, m, ls);
    } else {
      ConsistentLayersArePlaced(c, m, ls);
      OverlayCompositionPreservesMeaning(b, pix, c, m, ls);
    }
  }

  // ---------------------------------------------------------------- the counts, counted independently

  /** Which of the first `k` layers have property `p`. */
  ghost function Which(ls: seq<Layer>, p: Layer -> bool, k: nat): set<nat>
    requires k <= |ls|
  {
    set i: nat | i < k && p(ls[i])
  }

  ghost function HowMany(ls: seq<Layer>, p: Layer -> bool, k: nat): nat
    requires k <= |ls|
  {
    |Which(ls, p, k)|
  }

  lemma NoneYet(ls: seq<Layer>, p: Layer -> bool)
    ensures HowMany(ls, p, 0) == 0
  {
    assert Which(ls, p, 0) == {};
  }

  lemma OneMore(ls: seq<Layer>, p: Layer -> bool, k: nat)
    requires k < |ls|
    ensures HowMany(ls, p, k + 1) == HowMany(ls, p, k) + if p(ls[k]) then 1 else 0
  {
    assert Which(ls, p, k + 1) == if p(ls[k]) then Which(ls, p, k) + {k} else Which(ls, p, k);
  }

  /** What a count is meant to count, among the layers that an overlay could show at all. */
  datatype Kind = Possible | NeedsScaling | Rgb | Bgr | Nv12 | Dockables | Protecteds

  predicate IsKind(c: Config, kind: Kind, l: Layer) {
    Valid(c, l) &&
    match kind
    case Possible => true
    case NeedsScaling => NeedsScaler(l) || c.primaryTransform
    case Rgb => IsRGB(l.handle.value)
    case Bgr => IsBGR(l.handle.value)
    case Nv12 => IsNV12(l.handle.value)
    case Dockables => Dockable(l)
    case Protecteds => Protected(l)
  }

  function Counted(n: Counts, kind: Kind): nat {
    match kind
    case Possible => n.possible
    case NeedsScaling => n.scaled
    case Rgb => n.rgb
    case Bgr => n.bgr
    case Nv12 => n.nv12
    case Dockables => n.dockable
    case Protecteds => n.isProtected
  }

  lemma CountedOnce(c: Config, n: Counts, l: Layer, kind: Kind)
    ensures Counted(CountLayer(c, n, l), kind) == Counted(n, kind) + if IsKind(c, kind, l) then 1 else 0
  {
  }

  /** Every count is the number of layers of its kind. */
  lemma {:induction false} TallyCounts(c: Config, ls: seq<Layer>, k: nat, kind: Kind)
    requires k <= |ls|
    ensures Counted(Tally(c, ls, k), kind) == HowMany(ls, l => IsKind(c, kind, l), k)
  {
    var p := l => IsKind(c, kind, l);
    if k > 0 {
      TallyCounts(c, ls, k - 1, kind);
      CountedOnce(c, Tally(c, ls, k - 1), ls[k - 1], kind);
      OneMore(ls, p, k - 1);
    } else {
      NoneYet(ls, p);
    }
  }

  // ---------------------------------------------------------------- what placed layers have in common

  /** Every overlay but the framebuffer shows a layer that passed the test of its own. */
  ghost predicate OnlyRenderable(c: Config, p: Plan, mode: Mode, s: Placement, ls: seq<Layer>, k: nat) {
    forall j :: 0 <= j < |s.ovls| && s.ovls[j].layer != FRAMEBUFFER ==>
      0 <= s.ovls[j].layer < k && k <= |ls| && CanRenderLayer(c, p, mode, ls[s.ovls[j].layer])
  }

  lemma AcceptRenderable(c: Config, p: Plan, mode: Mode, s: Placement, ls: seq<Layer>, k: nat)
    requires k < |ls| && OnlyRenderable(c, p, mode, s, ls, k) && CanRenderLayer(c, p, mode, ls[k])
    ensures OnlyRenderable(c, p, mode, Accept(c, mode, s, ls[k], k), ls, k + 1)
  {
    var s' := Accept(c, mode, s, ls[k], k);
    forall j | 0 <= j < |s'.ovls| ensures s'.ovls[j].layer == if j < |s.ovls| then s.ovls[j].layer else k {
    }
  }

  lemma RejectRenderable(c: Config, p: Plan, mode: Mode, s: Placement, ls: seq<Layer>, k: nat)
    requires k < |ls| && OnlyRenderable(c, p, mode, s, ls, k)
    ensures OnlyRenderable(c, p, mode, Reject(mode, s), ls, k + 1)
  {
    forall j | 0 <= j < |s.ovls| ensures Reject(mode, s).ovls[j].layer == s.ovls[j].layer {
    }
  }

  lemma {:induction false} PlaceOneRenderable(c: Config, p: Plan, mode: Mode, s: Placement, ls: seq<Layer>, k: nat)
    requires k < |ls| && OnlyRenderable(c, p, mode, s, ls, k)
    ensures OnlyRenderable(c, p, mode, PlaceOne(c, p, mode, s, ls[k], k), ls, k + 1)
  {
    if Accepts(c, p, mode, s, ls[k]) {
      AcceptRenderable(c, p, mode, s, ls, k);
    } else {
      RejectRenderable(c, p, mode, s, ls, k);
    }
  }

  lemma {:induction false} PlaceRenderable(c: Config, p: Plan, mode: Mode, ls: seq<Layer>, k: nat)
    requires k <= |ls|
    ensures OnlyRenderable(c, p, mode, Place(c, p, mode, ls, k), ls, k)
  {
    var inv := (s: Placement, i: nat) => OnlyRenderable(c, p, mode, s, ls, i);
    forall s: Placement, i: nat | i < |ls| && inv(s, i) ensures inv(PlaceOne(c, p, mode, s, ls[i], i), i + 1) {
      PlaceOneRenderable(c, p, mode, s, ls, i);
    }
    PlaceKeeps(c, p, mode, ls, k, inv);
  }

  /** With the order flag set, the overlays of a frame never mix red-blue orders, and match the one
      that the display is switched to; no overlay on a TV shows a BGR layer. */
  lemma OneByteOrder(c: Config, m: Memory, ls: seq<Layer>, j: nat)
    requires var f := Prepared(c, m, ls); j < |f.placement.ovls| && f.placement.ovls[j].layer != FRAMEBUFFER
    ensures var f := Prepared(c, m, ls); var l := f.placement.ovls[j].layer;
            && 0 <= l < |ls| && ls[l].handle.Some?
            && (c.rgbOrder && IsRGB(ls[l].handle.value) ==> !f.mode.swapRb)
            && (c.rgbOrder && IsBGR(ls[l].handle.value) ==> f.mode.swapRb)
            && (c.onTv ==> !IsBGR(ls[l].handle.value))
  {
    var f := Prepared(c, m, ls);
    PlaceRenderable(c, f.plan, f.mode, ls, |ls|);
    PlaceLayered(c, f.plan, f.mode, ls, |ls|);
    var s := Place(c, f.plan, f.mode, ls, |ls|);
    assert f.placement.ovls[j].layer == s.ovls[j].layer;
  }

  // ---------------------------------------------------------------- the docked layer

  ghost predicate ShowsDockable(s: Placement, ls: seq<Layer>, j: int) {
    && 0 <= j < |s.ovls| && 0 <= s.ovls[j].layer < |ls| && Dockable(ls[s.ovls[j].layer])
  }

  function FrameArea(l: Layer): int { Width(l.frame) * Height(l.frame) }

  /** The area that overlay `j` covers is that of the layer it shows. */
  function ShownArea(s: Placement, ls: seq<Layer>, j: int): int
    requires ShowsDockable(s, ls, j)
  {
    FrameArea(ls[s.ovls[j].layer])
  }

  /** The remembered slot shows the dockable layer that is largest on the screen; there is one as soon as
      any is shown. */
  ghost predicate DocksLargest(s: Placement, ls: seq<Layer>) {
    && (s.ixDocking >= 0 ==> ShowsDockable(s, ls, s.ixDocking))
    && forall j :: ShowsDockable(s, ls, j) ==>
         s.ixDocking >= 0 && s.ixDocking < |s.ovls| && ShownArea(s, ls, j) <= ShownArea(s, ls, s.ixDocking)
  }

  lemma DepictedArea(s: Placement, ls: seq<Layer>, j: int)
    requires ShowsDockable(s, ls, j) && Depicted(s.ovls, ls)
    ensures DisplayArea(s.ovls[j]) == ShownArea(s, ls, j)
  {
    assert DepictedAt(s.ovls[j], j, ls);
  }

  /** The same layers, whatever z-orders and pipes. */
  ghost predicate SameShown(s: Placement, s': Placement) {
    |s.ovls| <= |s'.ovls| && forall j :: 0 <= j < |s.ovls| ==> s'.ovls[j].layer == s.ovls[j].layer
  }

  lemma AcceptDocks(c: Config, mode: Mode, s: Placement, ls: seq<Layer>, k: nat)
    requires k < |ls| && Depicted(s.ovls, ls) && DocksLargest(s, ls)
    ensures DocksLargest(Accept(c, mode, s, ls[k], k), ls)
  {
    var s', n := Accept(c, mode, s, ls[k], k), |s.ovls|;
    assert SameShown(s, s') && |s'.ovls| == n + 1 && s'.ovls[n].layer == k;
    assert DisplayArea(LayerOverlay(c, s, ls[k], k)) == FrameArea(ls[k]) by {
      LayerGeomDepicts(ls[k]);
    }
    if s.ixDocking >= 0 {
      DepictedArea(s, ls, s.ixDocking);
    }
    forall j | ShowsDockable(s', ls, j)
      ensures 0 <= s'.ixDocking <= n && ShowsDockable(s', ls, s'.ixDocking)
      ensures ShownArea(s', ls, j) <= ShownArea(s', ls, s'.ixDocking)
    {
      assert j < n ==> ShowsDockable(s, ls, j);
    }
  }

  lemma RejectDocks(mode: Mode, s: Placement, ls: seq<Layer>)
    requires DocksLargest(s, ls)
    ensures DocksLargest(Reject(mode, s), ls)
  {
    var s' := Reject(mode, s);
    assert SameShown(s, s') && |s'.ovls| == |s.ovls|;
    forall j | ShowsDockable(s', ls, j) ensures ShowsDockable(s, ls, j) {
    }
  }

  lemma {:induction false} PlaceDocks(c: Config, p: Plan, mode: Mode, ls: seq<Layer>, k: nat)
    requires k <= |ls|
    ensures DocksLargest(Place(c, p, mode, ls, k), ls)
  {
    var inv := (s: Placement, i: nat) => Depicted(s.ovls, ls) && DocksLargest(s, ls);
    forall s: Placement, i: nat | i < |ls| && inv(s, i) ensures inv(PlaceOne(c, p, mode, s, ls[i], i), i + 1) {
      AcceptDocks(c, mode, s, ls, i);
      RejectDocks(mode, s, ls);
      PlaceOneDepicted(c, p, mode, s, ls, i);
    }
    PlaceKeeps(c, p, mode, ls, k, inv);
  }

  lemma FinishDocks(c: Config, mode: Mode, s: Placement, ls: seq<Layer>)
    requires DocksLargest(s, ls) && (mode.useSgx && |s.ovls| > 0 ==> s.ovls[0].layer == FRAMEBUFFER)
    ensures DocksLargest(Finish(c, mode, s), ls)
  {
    var s' := Finish(c, mode, s);
    assert SameShown(s, s') && |s'.ovls| == |s.ovls|;
    forall j ensures ShowsDockable(s', ls, j) <==> ShowsDockable(s, ls, j) {
    }
  }

  lemma {:induction false} StaysFirst(c: Config, p: Plan, mode: Mode, s: Placement, l: Layer, i: nat)
    requires mode.useSgx && |s.ovls| > 0 && s.ovls[0].layer == FRAMEBUFFER
    ensures var s' := PlaceOne(c, p, mode, s, l, i); |s'.ovls| > 0 && s'.ovls[0].layer == FRAMEBUFFER
  {
  }

  lemma {:induction false} FramebufferFirst(c: Config, p: Plan, mode: Mode, ls: seq<Layer>, k: nat)
    requires k <= |ls| && mode.useSgx
    ensures var s := Place(c, p, mode, ls, k); |s.ovls| > 0 && s.ovls[0].layer == FRAMEBUFFER
  {
    var inv := (s: Placement, i: nat) => |s.ovls| > 0 && s.ovls[0].layer == FRAMEBUFFER;
    forall s: Placement, i: nat | i < |ls| && inv(s, i) ensures inv(PlaceOne(c, p, mode, s, ls[i], i), i + 1) {
      StaysFirst(c, p, mode, s, ls[i], i);
    }
    PlaceKeeps(c, p, mode, ls, k, inv);
  }

  /** While docking, the external display shows a dockable layer that is largest among all dockable
      layers with an overlay; or the dock image, if no dockable layer has one. */
  lemma DockedIsLargest(c: Config, m: Memory, ls: seq<Layer>)
    requires var f := Prepared(c, m, ls); f.plan.current.docking && |f.ovls| > f.post2
    ensures var f := Prepared(c, m, ls); var s := f.placement;
            && |f.ovls| == f.post2 + 1 && DocksLargest(s, ls)
            && f.ovls[f.post2].layer == if s.ixDocking >= 0 then s.ovls[s.ixDocking].layer else FRAMEBUFFER
  {
    var f := Prepared(c, m, ls);
    var s := Place(c, f.plan, f.mode, ls, |ls|);
    PlaceDocks(c, f.plan, f.mode, ls, |ls|);
    if f.mode.useSgx {
      FramebufferFirst(c, f.plan, f.mode, ls, |ls|);
    }
    FinishDocks(c, f.mode, s, ls);
    var clones := CloneAll(c, m, f.plan, f.counts, f.placement).ovls;
    assert f.ovls[f.post2] == Adjusted(c, clones[f.post2]);
  }
}
