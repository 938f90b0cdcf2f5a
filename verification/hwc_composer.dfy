/** The overlay allocator of the hardware composer: one `hwc_prepare` / `hwc_set` frame
    (hwc/hwc.c, built without S3D and with the blitter disabled). */
module HwcComposer {
  import opened HwcCrop
  import opened HwcGeometry
  import opened HwcLayers
  import opened Wrappers

  const MAX_HW_OVERLAYS := 4
  const NUM_NONSCALING_OVERLAYS := 1

  datatype ExtTransform = ExtTransform(rotation: int, hflip: bool, enabled: bool, docking: bool)

  /** Everything a frame reads but does not compute: device settings, hotplug state, and the
      answers of mode setting (`dockModeOk`, `mirrorModeOk`, the external matrix in force). */
  datatype Config = Config(
    canScale: Layer -> bool, tilerSlotSize: nat, rgbOrder: bool, nv12Only: bool, upscaledNv12Limit: real,
    onTv: bool, forceSgx: bool,
    primaryTransform: bool, primaryRotation: int, primaryRegion: Rect, primaryM: Mat,
    mirror: ExtTransform, dock: ExtTransform, forceDock: bool, extOnTv: bool, mirrorRegion: Rect, extM: Mat,
    dockModeOk: bool, mirrorModeOk: bool, modeChanging: bool,
    fbFormat: Format, fbWidth: nat, fbHeight: nat, dockImageWidth: nat, dockImageHeight: nat)

  /** What the allocator remembers between frames. */
  datatype Memory = Memory(lastExtOvls: int, lastIntOvls: int, extOvls: int, current: ExtTransform, last: ExtTransform)

  /** Hotplug handling marks docking settings as docking and mirroring settings as not. */
  ghost predicate WellFormed(c: Config) {
    && (c.dock.enabled ==> c.dock.docking)
    && (c.mirror.enabled ==> !c.mirror.docking)
  }

  datatype Counts = Counts(possible: nat, composited: nat, scaled: nat, rgb: nat, bgr: nat, nv12: nat,
                           dockable: nat, isProtected: nat, mem: nat)

  const NO_COUNTS := Counts(0, 0, 0, 0, 0, 0, 0, 0, 0)

  function CountLayer(c: Config, n: Counts, l: Layer): Counts {
    if !ValidLayer(c.canScale, c.tilerSlotSize, l) then n
    else
      var h := l.handle.value;
      n.(possible := n.possible + 1,
         scaled := n.scaled + (if NeedsScaler(l) || c.primaryTransform then 1 else 0),
         bgr := n.bgr + (if IsBGR(h) then 1 else 0),
         rgb := n.rgb + (if IsRGB(h) then 1 else 0),
         nv12 := n.nv12 + (if IsNV12(h) then 1 else 0),
         dockable := n.dockable + (if Dockable(l) then 1 else 0),
         isProtected := n.isProtected + (if Protected(l) then 1 else 0),
         mem := n.mem + Mem1d(l.handle))
  }

  /** `gather_layer_statistics` over the first `k` layers. */
  function Tally(c: Config, ls: seq<Layer>, k: nat): Counts
    requires k <= |ls|
  {
    if k == 0 then NO_COUNTS.(composited := |ls|) else CountLayer(c, Tally(c, ls, k - 1), ls[k - 1])
  }

  /** Outcome of `decide_supported_cloning`: `granted` external overlays out of `wanted`. */
  datatype Plan = Plan(current: ExtTransform, granted: int, wanted: int, maxHw: int, maxScaling: int)

  predicate DockingBranch(c: Config, n: Counts) {
    c.dock.enabled && !(c.mirror.enabled && !(n.dockable > 0 || c.forceDock))
  }

  function Decide(c: Config, m: Memory, n: Counts): Plan {
    var wanted := if DockingBranch(c, n) then (if n.dockable > 0 || c.forceDock then 1 else 0)
                  else if c.mirror.enabled then MAX_HW_OVERLAYS / 2 else 0;
    var current := if DockingBranch(c, n) then (if c.mirror.enabled then c.mirror.(docking := true) else c.dock)
                   else if c.mirror.enabled then c.mirror else m.current.(enabled := false);
    var nonscaling := if !DockingBranch(c, n) && c.mirror.enabled then NUM_NONSCALING_OVERLAYS / 2
                      else NUM_NONSCALING_OVERLAYS;
    var maxHw0 := if DockingBranch(c, n) then MAX_HW_OVERLAYS - Max(wanted, m.lastExtOvls)
                  else if c.mirror.enabled then MAX_HW_OVERLAYS / 2 else MAX_HW_OVERLAYS - m.lastExtOvls;
    var granted := Min(MAX_HW_OVERLAYS - m.lastIntOvls, wanted);
    var maxHw1 := if n.isProtected == 0 && granted != 0 && current.enabled && !current.docking then granted else maxHw0;
    if c.primaryTransform
    then Plan(current, granted, wanted, maxHw1 - NUM_NONSCALING_OVERLAYS, maxHw1 - NUM_NONSCALING_OVERLAYS)
    else Plan(current, granted, wanted, maxHw1, maxHw1 - nonscaling)
  }

  predicate Transforms(t: ExtTransform) { t.rotation != 0 || t.hflip }

  /** Can the display controller show all layers without the GPU? */
  predicate CanRenderAll(c: Config, p: Plan, n: Counts) {
    var onTv := c.onTv || (c.extOnTv && p.current.enabled);
    var tform := p.current.enabled && Transforms(p.current);
    && !c.forceSgx
    && 0 < n.possible <= p.maxHw
    && n.possible == n.composited
    && n.scaled <= p.maxScaling
    && n.nv12 <= p.maxScaling
    && n.mem <= c.tilerSlotSize
    && (!tform || n.nv12 == n.possible || (n.nv12 > 0 && p.current.docking))
    && (n.bgr == 0 || (n.rgb == 0 && !onTv) || !c.rgbOrder)
    && (!c.nv12Only || (n.bgr == 0 && n.rgb == 0))
  }

  datatype Mode = Mode(useSgx: bool, swapRb: bool)

  function ChooseMode(c: Config, p: Plan, n: Counts): Mode {
    if CanRenderAll(c, p, n) then Mode(false, n.bgr != 0) else Mode(true, IsBGRFormat(c.fbFormat))
  }

  predicate Cloning(p: Plan, l: Layer) { p.current.enabled && (!p.current.docking || Dockable(l)) }

  /** Can one overlay show this layer next to the others? */
  predicate CanRenderLayer(c: Config, p: Plan, mode: Mode, l: Layer) {
    && ValidLayer(c.canScale, c.tilerSlotSize, l)
    && var h := l.handle.value;
       && (!(Cloning(p, l) && Transforms(p.current)) || IsNV12(h))
       && (!c.nv12Only || !mode.useSgx || IsNV12(h))
       && (!(if mode.swapRb then IsRGB(h) else IsBGR(h)) || !c.rgbOrder)
       && !((c.onTv || (c.extOnTv && Cloning(p, l))) && IsBGR(h))
  }

  /** An overlay of the composition.  `layer` is the index of the layer it shows, or FRAMEBUFFER. */
  datatype Overlay = Overlay(layer: int, z: int, ix: int, mgr: int, ba: int, geom: Geom)

  const FRAMEBUFFER := -1

  /** What the GPU does with a layer: draw it, leave it to an overlay, or also clear under it. */
  datatype Composition = Gpu | Dss | DssClearFb

  /** State of the placement loop. */
  datatype Placement = Placement(ovls: seq<Overlay>, z: int, fbZ: int, scaledGfx: bool, ixDocking: int,
                                 memUsed: nat, composition: seq<Composition>)

  const EMPTY_BOX := Box(0, 0, 0, 0)

  const BLANK := Overlay(FRAMEBUFFER, 0, 0, 0, 0, Geom(EMPTY_BOX, EMPTY_BOX, 0, false, false))

  /** Slot 0 is kept for the framebuffer when the GPU composes. */
  function Start(mode: Mode): Placement {
    Placement(if mode.useSgx then [BLANK] else [], 0, -1, false, -1, 0, [])
  }

  predicate Accepts(c: Config, p: Plan, mode: Mode, s: Placement, l: Layer) {
    && |s.ovls| < p.maxHw
    && CanRenderLayer(c, p, mode, l)
    && (!c.forceSgx || Protected(l) || UpscaledNV12(l, c.upscaledNv12Limit)
        || (p.current.docking && p.current.enabled && Dockable(l)))
    && s.memUsed + Mem1d(l.handle) <= c.tilerSlotSize
    && !(IsBlended(l) && s.fbZ >= 0)
  }

  function LayerGeom(l: Layer): Geom {
    var (rotation, mirror) := LayerOrientation(l.transform.flipH, l.transform.flipV, l.transform.rot90);
    Geom(Box(l.frame.left, l.frame.top, Width(l.frame), Height(l.frame)),
         Box(l.source.left, l.source.top, Width(l.source), Height(l.source)), rotation, mirror, true)
  }

  function Skip(c: Config): nat { if c.primaryTransform then 1 else 0 }

  function DisplayArea(o: Overlay): int { o.geom.win.w * o.geom.win.h }

  /** Slot of the largest dockable layer once `l` is shown by overlay `o`; the first one wins ties. */
  function LargestDockable(ovls: seq<Overlay>, ixDocking: int, l: Layer, o: Overlay): int {
    if Dockable(l) && (!(0 <= ixDocking < |ovls|) || DisplayArea(o) > DisplayArea(ovls[ixDocking]))
    then |ovls| else ixDocking
  }

  /** Append overlay `o`; the GFX pipe (index 0) must not scale, so a layer that needs no scaler
      takes it over from a first layer that does.  Also returns whether GFX still scales. */
  function Append(c: Config, ovls: seq<Overlay>, scaledGfx: bool, o: Overlay, needsScaler: bool): (seq<Overlay>, bool) {
    var k := |ovls|;
    if k == 0 then ([o], if c.primaryTransform then scaledGfx else needsScaler)
    else if scaledGfx && !needsScaler then (ovls[0 := ovls[0].(ix := k)] + [o.(ix := 0)], false)
    else (ovls + [o], scaledGfx)
  }

  function LayerOverlay(c: Config, s: Placement, l: Layer, i: nat): Overlay {
    Overlay(i, s.z, |s.ovls| + Skip(c), 0, |s.ovls|, LayerGeom(l))
  }

  /** Give layer `i` the next overlay. */
  function Accept(c: Config, mode: Mode, s: Placement, l: Layer, i: nat): Placement {
    var o := LayerOverlay(c, s, l, i);
    var (ovls, scaledGfx) := Append(c, s.ovls, s.scaledGfx, o, NeedsScaler(l));
    Placement(ovls, s.z + 1, s.fbZ, scaledGfx, LargestDockable(s.ovls, s.ixDocking, l, o),
              s.memUsed + Mem1d(l.handle),
              s.composition + [if mode.useSgx && !IsBlended(l) then DssClearFb else Dss])
  }

  /** Lower the z-order of overlays `lo`..`hi - 1`. */
  function Lower(ovls: seq<Overlay>, lo: int, hi: int): seq<Overlay> {
    seq(|ovls|, k requires 0 <= k < |ovls| => if lo <= k < hi then ovls[k].(z := ovls[k].z - 1) else ovls[k])
  }

  /** Leave a layer to the GPU: the framebuffer goes on top of everything placed so far. */
  function Reject(mode: Mode, s: Placement): Placement {
    var s' := s.(composition := s.composition + [Gpu]);
    if !mode.useSgx then s'
    else if s.fbZ < 0 then s'.(fbZ := s.z, z := s.z + 1)
    else s'.(ovls := Lower(s.ovls, 1 + s.fbZ, s.z), fbZ := Max(s.fbZ, s.z - 1))
  }

  /** One pass of the placement loop. */
  function PlaceOne(c: Config, p: Plan, mode: Mode, s: Placement, l: Layer, i: nat): Placement {
    if Accepts(c, p, mode, s, l) then Accept(c, mode, s, l, i) else Reject(mode, s)
  }

  /** The placement loop over the first `k` layers. */
  function Place(c: Config, p: Plan, mode: Mode, ls: seq<Layer>, k: nat): Placement
    requires k <= |ls|
  {
    if k == 0 then Start(mode) else PlaceOne(c, p, mode, Place(c, p, mode, ls, k - 1), ls[k - 1], k - 1)
  }

  /** After the loop: move a scaled first layer off GFX, and set up the framebuffer overlay. */
  function Finish(c: Config, mode: Mode, s: Placement): Placement {
    if mode.useSgx && |s.ovls| > 0 then
      var fbZ := if s.fbZ < 0 then s.z else s.fbZ;
      var size := Box(0, 0, c.fbWidth, c.fbHeight);
      s.(ovls := s.ovls[0 := Overlay(FRAMEBUFFER, fbZ, Skip(c), 0, 0, Geom(size, size, 0, false, true))],
         fbZ := fbZ, z := if s.fbZ < 0 then s.z + 1 else s.z)
    else if s.scaledGfx && |s.ovls| > 0 then s.(ovls := s.ovls[0 := s.ovls[0].(ix := |s.ovls|)])
    else s
  }

  function ExtSettings(c: Config, t: ExtTransform): Ext {
    Ext(t.rotation, t.hflip, t.docking, c.mirrorRegion, c.extM)
  }

  /** `clone_layer`: copy overlay `o` (slot `ix`) to the external display, pipes counted from the end. */
  function Cloned(c: Config, t: ExtTransform, ovls: seq<Overlay>, post2: nat, o: Overlay, ix: nat): seq<Overlay> {
    ovls + [Overlay(o.layer, o.z + post2, MAX_HW_OVERLAYS - 1 - (|ovls| - post2), 1, ix,
                    AdjustExt(ExtSettings(c, t), o.geom))]
  }

  predicate Busy(ovls: seq<Overlay>) { |ovls| >= MAX_HW_OVERLAYS }

  /** Mirror the first `k` primary overlays, stopping at the first EBUSY. */
  function MirrorUpTo(c: Config, t: ExtTransform, ovls: seq<Overlay>, k: nat): seq<Overlay>
    requires k <= |ovls|
    ensures |MirrorUpTo(c, t, ovls, k)| <= |ovls| + k && |ovls| <= |MirrorUpTo(c, t, ovls, k)|
    ensures MirrorUpTo(c, t, ovls, k)[..|ovls|] == ovls
  {
    if k == 0 then ovls
    else
      var r := MirrorUpTo(c, t, ovls, k - 1);
      if |r| < |ovls| + k - 1 || Busy(r) then r else Cloned(c, t, r, |ovls|, ovls[k - 1], k - 1)
  }

  predicate MayClone(p: Plan, n: Counts) {
    p.current.enabled && ((n.isProtected == 0 && p.granted != 0) || (p.wanted != 0 && p.granted >= p.wanted))
  }

  /** What the external display shows, and whether cloning has to be switched off. */
  datatype Clones = Clones(ovls: seq<Overlay>, enabled: bool, busy: bool)

  /** The clone of a docked layer gets the next z-order `z`; the dock image already has its own. */
  function DockClone(c: Config, t: ExtTransform, ovls: seq<Overlay>, o: Overlay, ix: nat, z: int): Clones {
    if !c.dockModeOk then Clones(ovls, false, false)
    else if Busy(ovls) then Clones(ovls, true, true)
    else
      var r := Cloned(c, t, ovls, |ovls|, o, ix);
      Clones(if ix < |ovls| then r[|ovls| := r[|ovls|].(z := z)] else r[|ovls| := r[|ovls|].(ba := 0)], true, false)
  }

  function DockImage(c: Config): Overlay {
    var size := Box(0, 0, c.dockImageWidth, c.dockImageHeight);
    Overlay(FRAMEBUFFER, 0, 0, 0, 0, Geom(size, size, 0, false, true))
  }

  function CloneAll(c: Config, m: Memory, p: Plan, n: Counts, s: Placement): Clones {
    var ovls := s.ovls;
    if !MayClone(p, n) then Clones(ovls, p.current.enabled, false)
    else if p.current.docking then
      if 0 <= s.ixDocking < |ovls| then DockClone(c, p.current, ovls, ovls[s.ixDocking], s.ixDocking, s.z)
      else if c.forceDock then DockClone(c, p.current, ovls, DockImage(c), |ovls|, s.z)
      else Clones(ovls, true, false)
    else if m.last.docking && !c.mirrorModeOk then Clones(ovls, true, false)
    else
      var r := MirrorUpTo(c, p.current, ovls, |ovls|);
      Clones(r, true, |r| < 2 * |ovls|)
  }

  function Adjusted(c: Config, o: Overlay): Overlay {
    if c.primaryTransform && o.mgr == 0
    then o.(geom := AdjustPrimary(c.primaryM, c.primaryRotation, c.primaryRegion, o.geom))
    else o
  }

  function AdjustAll(c: Config, ovls: seq<Overlay>): seq<Overlay> {
    seq(|ovls|, k requires 0 <= k < |ovls| => Adjusted(c, ovls[k]))
  }

  /** One prepared frame.  `ovls` are the overlays built, the first `post2` of them for the primary
      display; `shown` is empty while the TV mode is being changed. */
  datatype Frame = Frame(counts: Counts, plan: Plan, mode: Mode, placement: Placement, post2: nat,
                         ovls: seq<Overlay>, busy: bool, current: ExtTransform, extOvls: int, shown: seq<Overlay>)

  function Prepared(c: Config, m: Memory, ls: seq<Layer>): Frame {
    var n := Tally(c, ls, |ls|);
    var p := Decide(c, m, n);
    var mode := ChooseMode(c, p, n);
    var s := Finish(c, mode, Place(c, p, mode, ls, |ls|));
    var clones := CloneAll(c, m, p, n, s);
    var current := p.current.(enabled := clones.enabled);
    var ovls := AdjustAll(c, clones.ovls);
    Frame(n, p, mode, s, |s.ovls|, ovls, clones.busy, current,
          if current.enabled || m.lastExtOvls != 0 then |ovls| - |s.ovls| else p.granted,
          if c.modeChanging && c.onTv then [] else ovls)
  }

  /** Memory after `hwc_prepare`. */
  function AfterPrepare(m: Memory, f: Frame): Memory {
    m.(extOvls := f.extOvls, current := f.current, last := f.current)
  }

  /** Memory after a `hwc_set` that reached the display; a failed buffer swap leaves it unchanged. */
  function AfterSet(m: Memory, post2: nat): Memory {
    m.(lastExtOvls := m.extOvls, lastIntOvls := post2)
  }

  // ---------------------------------------------------------------- layering of the placement

  /** Z-orders during placement: overlays are numbered in list order, with a gap for the
      framebuffer once a layer has been left to the GPU. */
  ghost predicate Layered(mode: Mode, s: Placement) {
    if mode.useSgx then
      && |s.ovls| >= 1
      && -1 <= s.fbZ < |s.ovls|
      && s.z == (if s.fbZ < 0 then |s.ovls| - 1 else |s.ovls|)
      && forall k :: 1 <= k < |s.ovls| ==>
           s.ovls[k].z == if s.fbZ < 0 || k - 1 < s.fbZ then k - 1 else k
    else
      && s.fbZ == -1 && s.z == |s.ovls|
      && forall k :: 0 <= k < |s.ovls| ==> s.ovls[k].z == k
  }

  lemma {:induction false} AcceptLayered(c: Config, mode: Mode, s: Placement, l: Layer, i: nat)
    requires Layered(mode, s)
    ensures Layered(mode, Accept(c, mode, s, l, i))
  {
  }

  lemma {:induction false} RejectLayered(mode: Mode, s: Placement)
    requires Layered(mode, s)
    ensures Layered(mode, Reject(mode, s))
  {
  }

  lemma {:induction false} PlaceOneLayered(c: Config, p: Plan, mode: Mode, s: Placement, l: Layer, i: nat)
    requires Layered(mode, s)
    ensures Layered(mode, PlaceOne(c, p, mode, s, l, i))
  {
    AcceptLayered(c, mode, s, l, i);
    RejectLayered(mode, s);
  }

  /** An invariant of one pass is an invariant of the loop. */
  lemma {:induction false} PlaceKeeps(c: Config, p: Plan, mode: Mode, ls: seq<Layer>, k: nat,
                                      inv: (Placement, nat) -> bool)
    requires k <= |ls| && inv(Start(mode), 0)
    requires forall s: Placement, i: nat :: i < |ls| && inv(s, i) ==> inv(PlaceOne(c, p, mode, s, ls[i], i), i + 1)
    ensures inv(Place(c, p, mode, ls, k), k)
  {
    if k > 0 {
      PlaceKeeps(c, p, mode, ls, k - 1, inv);
    }
  }

  lemma {:induction false} PlaceLayered(c: Config, p: Plan, mode: Mode, ls: seq<Layer>, k: nat)
    requires k <= |ls|
    ensures Layered(mode, Place(c, p, mode, ls, k))
  {
    var inv := (s: Placement, i: nat) => Layered(mode, s);
    forall s: Placement, i: nat | i < |ls| && inv(s, i) ensures inv(PlaceOne(c, p, mode, s, ls[i], i), i + 1) {
      PlaceOneLayered(c, p, mode, s, ls[i], i);
    }
    PlaceKeeps(c, p, mode, ls, k, inv);
  }

  // ---------------------------------------------------------------- the imperative routines

  class ComposerDevice {
    var memory: Memory
    var counts: Counts
    var plan: Plan
    var mode: Mode
    var ovls: seq<Overlay>
    var composition: seq<Composition>
    var post2Layers: nat
    // state of the placement loop
    var z: int
    var fbZ: int
    var scaledGfx: bool
    var ixDocking: int

    constructor (current: ExtTransform)
      ensures memory == Memory(0, 0, 0, current, current)
    {
      memory := Memory(0, 0, 0, current, current);
      counts, plan, mode := NO_COUNTS, Plan(current, 0, 0, 0, 0), Mode(true, false);
      ovls, composition, post2Layers := [], [], 0;
      z, fbZ, scaledGfx, ixDocking := 0, -1, false, -1;
    }

    method GatherLayerStatistics(c: Config, list: seq<Layer>)
      modifies this`counts
      ensures counts == Tally(c, list, |list|)
    {
      counts := NO_COUNTS.(composited := |list|);
      for i := 0 to |list|
        invariant counts == Tally(c, list, i)
      {
        if ValidLayer(c.canScale, c.tilerSlotSize, list[i]) {
          GatherLayer(c, list[i]);
        }
      }
    }

    /** One layer that an overlay could show. */
    method GatherLayer(c: Config, layer: Layer)
      requires ValidLayer(c.canScale, c.tilerSlotSize, layer)
      modifies this`counts
      ensures counts == CountLayer(c, old(counts), layer)
    {
      var handle := layer.handle.value;
      counts := counts.(possible := counts.possible + 1);
      if Scaled(layer) || IsNV12(handle) || c.primaryTransform {
        counts := counts.(scaled := counts.scaled + 1);
      }
      if IsBGR(handle) {
        counts := counts.(bgr := counts.bgr + 1);
      } else if IsRGB(handle) {
        counts := counts.(rgb := counts.rgb + 1);
      } else if IsNV12(handle) {
        counts := counts.(nv12 := counts.nv12 + 1);
      }
      if Dockable(layer) {
        counts := counts.(dockable := counts.dockable + 1);
      }
      if Protected(layer) {
        counts := counts.(isProtected := counts.isProtected + 1);
      }
      counts := counts.(mem := counts.mem + Mem1d(layer.handle));
    }

    method DecideSupportedCloning(c: Config)
      modifies this`plan
      ensures plan == Decide(c, memory, counts)
    {
      var nonscaling, maxHw, extOvls := NUM_NONSCALING_OVERLAYS, MAX_HW_OVERLAYS, 0;
      var current := memory.current;
      if c.dock.enabled && !(c.mirror.enabled && !(counts.dockable > 0 || c.forceDock)) {
        extOvls := if counts.dockable > 0 || c.forceDock then 1 else 0;
        maxHw := maxHw - Max(extOvls, memory.lastExtOvls);
        if c.mirror.enabled {
          current := c.mirror;
          current := current.(docking := true);
        } else {
          current := c.dock;
        }
      } else if c.mirror.enabled {
        maxHw := maxHw / 2;
        nonscaling := nonscaling / 2;
        extOvls := MAX_HW_OVERLAYS - maxHw;
        current := c.mirror;
      } else {
        maxHw := maxHw - memory.lastExtOvls;
        current := current.(enabled := false);
      }
      var wanted := extOvls;
      extOvls := Min(MAX_HW_OVERLAYS - memory.lastIntOvls, extOvls);
      if counts.isProtected == 0 && extOvls != 0 && current.enabled && !current.docking {
        maxHw := extOvls;
      }
      var maxScaling := maxHw - nonscaling;
      if c.primaryTransform {
        maxHw := maxHw - NUM_NONSCALING_OVERLAYS;
        maxScaling := maxHw;
      }
      plan := Plan(current, extOvls, wanted, maxHw, maxScaling);
    }

    /** The state of the placement loop, gathered up. */
    function Placed(memUsed: nat): Placement
      reads this
    {
      Placement(ovls, z, fbZ, scaledGfx, ixDocking, memUsed, composition)
    }

    /** Move the framebuffer up by lowering the overlays above it. */
    method RaiseFramebuffer()
      requires 0 <= fbZ && z <= |ovls|
      modifies this`ovls, this`fbZ
      ensures ovls == Lower(old(ovls), 1 + old(fbZ), z) && fbZ == Max(old(fbZ), z - 1)
    {
      ghost var start, before := fbZ, ovls;
      while fbZ < z - 1
        invariant start <= fbZ <= Max(start, z - 1)
        invariant ovls == Lower(before, 1 + start, 1 + fbZ)
      {
        ovls := ovls[1 + fbZ := ovls[1 + fbZ].(z := ovls[1 + fbZ].z - 1)];
        fbZ := fbZ + 1;
      }
    }

    method AppendOverlay(c: Config, overlay: Overlay, needsScaler: bool)
      modifies this`ovls, this`scaledGfx
      ensures (ovls, scaledGfx) == Append(c, old(ovls), old(scaledGfx), overlay, needsScaler)
    {
      var o := overlay;
      if |ovls| == 0 {
        if !c.primaryTransform {
          scaledGfx := needsScaler;
        }
      } else if scaledGfx && !needsScaler {
        // swap the GFX layer with this one
        o := o.(ix := 0);
        ovls := ovls[0 := ovls[0].(ix := |ovls|)];
        scaledGfx := false;
      }
      ovls := ovls + [o];
      assert old(ovls) == [] ==> ovls == [o];
    }

    /** Render a layer via the next overlay. */
    method AcceptLayer(c: Config, layer: Layer, i: nat, memUsed: nat) returns (memUsed': nat)
      modifies this`ovls, this`composition, this`z, this`scaledGfx, this`ixDocking
      ensures Placed(memUsed') == Accept(c, mode, old(Placed(memUsed)), layer, i)
    {
      memUsed' := memUsed + Mem1d(layer.handle);
      composition := composition + [if mode.useSgx && !IsBlended(layer) then DssClearFb else Dss];
      var o := Overlay(i, z, |ovls| + Skip(c), 0, |ovls|, LayerGeom(layer));
      ixDocking := LargestDockable(ovls, ixDocking, layer, o);
      AppendOverlay(c, o, NeedsScaler(layer));
      z := z + 1;
    }

    /** Leave a layer to the GPU. */
    method RejectLayer(ghost memUsed: nat)
      requires Layered(mode, Placed(memUsed))
      modifies this`ovls, this`composition, this`z, this`fbZ
      ensures Placed(memUsed) == Reject(mode, old(Placed(memUsed)))
    {
      composition := composition + [Gpu];
      if mode.useSgx {
        if fbZ < 0 {
          fbZ := z;
          z := z + 1;
        } else {
          RaiseFramebuffer();
        }
      }
    }

    method SetupPipes(c: Config, list: seq<Layer>) returns (memUsed: nat)
      modifies this`ovls, this`composition, this`z, this`fbZ, this`scaledGfx, this`ixDocking
      ensures Placed(memUsed) == Finish(c, mode, Place(c, plan, mode, list, |list|))
    {
      z, fbZ, ixDocking, scaledGfx := 0, -1, -1, false;
      ovls, composition := if mode.useSgx then [BLANK] else [], [];
      memUsed := 0;
      for i := 0 to |list|
        invariant Placed(memUsed) == Place(c, plan, mode, list, i)
      {
        PlaceLayered(c, plan, mode, list, i);
        var layer := list[i];
        if |ovls| < plan.maxHw && CanRenderLayer(c, plan, mode, layer)
           && (!c.forceSgx || Protected(layer) || UpscaledNV12(layer, c.upscaledNv12Limit)
               || (plan.current.docking && plan.current.enabled && Dockable(layer)))
           && memUsed + Mem1d(layer.handle) <= c.tilerSlotSize
           && !(IsBlended(layer) && fbZ >= 0) {
          assert Accepts(c, plan, mode, Placed(memUsed), layer);
          memUsed := AcceptLayer(c, layer, i, memUsed);
        } else {
          assert !Accepts(c, plan, mode, Placed(memUsed), layer);
          RejectLayer(memUsed);
        }
      }
      PlaceLayered(c, plan, mode, list, |list|);
      FinishPipes(c, memUsed);
    }

    /** Move a scaled first layer off GFX, and set up the framebuffer overlay. */
    method FinishPipes(c: Config, ghost memUsed: nat)
      requires Layered(mode, Placed(memUsed))
      modifies this`ovls, this`z, this`fbZ
      ensures Placed(memUsed) == Finish(c, mode, old(Placed(memUsed)))
    {
      if scaledGfx && |ovls| > 0 {
        ovls := ovls[0 := ovls[0].(ix := |ovls|)];
      }
      if mode.useSgx {
        if fbZ < 0 {
          fbZ := z;
          z := z + 1;
        }
        var size := Box(0, 0, c.fbWidth, c.fbHeight);
        ovls := ovls[0 := Overlay(FRAMEBUFFER, fbZ, Skip(c), 0, 0, Geom(size, size, 0, false, true))];
      }
    }

    /** Returns false for -EBUSY. */
    method CloneLayer(c: Config, o: Overlay, ix: nat) returns (ok: bool)
      requires post2Layers <= |ovls|
      modifies this`ovls
      ensures ok == !Busy(old(ovls))
      ensures ovls == if ok then Cloned(c, plan.current, old(ovls), post2Layers, o, ix) else old(ovls)
    {
      if |ovls| >= MAX_HW_OVERLAYS {
        return false;
      }
      var extOvlIx := |ovls| - post2Layers;
      var clone := o.(ix := MAX_HW_OVERLAYS - 1 - extOvlIx, mgr := 1, ba := ix);
      clone := clone.(z := clone.z + post2Layers);
      clone := clone.(geom := AdjustExt(ExtSettings(c, plan.current), clone.geom));
      ovls := ovls + [clone];
      return true;
    }

    /** Copy every primary overlay to the external display until one does not fit. */
    method MirrorLayers(c: Config)
      requires post2Layers == |ovls|
      modifies this`ovls
      ensures ovls == MirrorUpTo(c, plan.current, old(ovls), |old(ovls)|)
    {
      ghost var before := ovls;
      var ix, ok := 0, true;
      while ok && ix < post2Layers
        invariant 0 <= ix <= post2Layers
        invariant ok ==> |ovls| == |before| + ix
        invariant before <= ovls
        invariant ovls == MirrorUpTo(c, plan.current, before, ix)
        invariant !ok ==> Busy(ovls)
        decreases post2Layers - ix, ok
      {
        ok := CloneLayer(c, ovls[ix], ix);
        if ok {
          ix := ix + 1;
        }
      }
      if !ok {
        MirrorStays(c, plan.current, before, ix, post2Layers);
      }
    }

    /** External overlays; returns whether cloning stays enabled. */
    method CloneLayers(c: Config) returns (enabled: bool)
      requires post2Layers == |ovls|
      modifies this`ovls
      ensures var r := CloneAll(c, memory, plan, counts, old(Placed(0)));
              ovls == r.ovls && enabled == r.enabled
    {
      enabled := plan.current.enabled;
      if !(plan.current.enabled && ((counts.isProtected == 0 && plan.granted != 0)
                                    || (plan.wanted != 0 && plan.granted >= plan.wanted))) {
        return;
      }
      if plan.current.docking && 0 <= ixDocking < |ovls| {
        if !c.dockModeOk { return false; }
        var ok := CloneLayer(c, ovls[ixDocking], ixDocking);
        if ok {
          ovls := ovls[|ovls| - 1 := ovls[|ovls| - 1].(z := z)];
        }
      } else if plan.current.docking && c.forceDock {
        if !c.dockModeOk { return false; }
        var ok := CloneLayer(c, DockImage(c), |ovls|);
        if ok {
          ovls := ovls[|ovls| - 1 := ovls[|ovls| - 1].(ba := 0)];
        }
      } else if !plan.current.docking {
        if memory.last.docking && !c.mirrorModeOk { return; }
        MirrorLayers(c);
      }
    }

    /** Apply the transform of the primary display. */
    method AdjustPrimaryLayers(c: Config)
      modifies this`ovls
      ensures ovls == AdjustAll(c, old(ovls))
    {
      if c.primaryTransform {
        for i := 0 to |ovls|
          invariant |ovls| == |old(ovls)|
          invariant forall k :: 0 <= k < |ovls| ==> ovls[k] == if k < i then Adjusted(c, old(ovls)[k]) else old(ovls)[k]
        {
          if ovls[i].mgr == 0 {
            ovls := ovls[i := Adjusted(c, ovls[i])];
          }
        }
      }
    }

    /** Statistics, budget and the choice between GPU and overlays. */
    method PlanFrame(c: Config, list: seq<Layer>)
      modifies this`counts, this`plan, this`mode
      ensures counts == Tally(c, list, |list|) && plan == Decide(c, memory, counts)
      ensures mode == ChooseMode(c, plan, counts)
    {
      GatherLayerStatistics(c, list);
      DecideSupportedCloning(c);
      if CanRenderAll(c, plan, counts) {
        mode := Mode(false, counts.bgr != 0);
      } else {
        mode := Mode(true, IsBGRFormat(c.fbFormat));
      }
    }

    /** Clone the placed overlays, transform the primary ones and update the memory. */
    method FinishFrame(c: Config, ghost memUsed: nat)
      requires post2Layers == |ovls|
      modifies this`ovls, this`memory
      ensures var r := CloneAll(c, old(memory), plan, counts, old(Placed(memUsed)));
              var current := plan.current.(enabled := r.enabled);
              && ovls == AdjustAll(c, r.ovls)
              && memory == old(memory).(
                   extOvls := if current.enabled || old(memory).lastExtOvls != 0 then |ovls| - post2Layers
                              else plan.granted,
                   current := current, last := current)
    {
      CloneAllIgnoresMemory(c, memory, plan, counts, Placed(memUsed), 0);
      var enabled := CloneLayers(c);
      var current := plan.current.(enabled := enabled);
      AdjustPrimaryLayers(c);
      var extOvls := plan.granted;
      if current.enabled || memory.lastExtOvls != 0 {
        extOvls := |ovls| - post2Layers;
      }
      memory := memory.(extOvls := extOvls, current := current, last := current);
    }

    /** One `hwc_prepare`; returns the overlays handed to the display controller. */
    method Prepare(c: Config, list: seq<Layer>) returns (shown: seq<Overlay>)
      modifies this
      ensures var f := Prepared(c, old(memory), list);
              && counts == f.counts && plan == f.plan && mode == f.mode
              && ovls == f.ovls && post2Layers == f.post2 && shown == f.shown
              && composition == f.placement.composition
              && memory == AfterPrepare(old(memory), f)
    {
      PlanFrame(c, list);
      var memUsed := SetupPipes(c, list);
      post2Layers := |ovls|;
      FinishFrame(c, memUsed);
      shown := if c.modeChanging && c.onTv then [] else ovls;
    }

    /** One `hwc_set`; `swapOk` is the outcome of the buffer swap that GPU composition needs. */
    method Set(swapOk: bool)
      modifies this`memory
      ensures memory == if mode.useSgx && !swapOk then old(memory) else AfterSet(old(memory), post2Layers)
    {
      if mode.useSgx && !swapOk {
        return;
      }
      memory := memory.(lastExtOvls := memory.extOvls, lastIntOvls := post2Layers);
    }
  }

  /** Once mirroring has stopped it adds nothing more. */
  lemma {:induction false} MirrorStays(c: Config, t: ExtTransform, ovls: seq<Overlay>, k: nat, n: nat)
    requires k <= n <= |ovls| && Busy(MirrorUpTo(c, t, ovls, k))
    ensures MirrorUpTo(c, t, ovls, n) == MirrorUpTo(c, t, ovls, k)
  {
    if n > k {
      MirrorStays(c, t, ovls, k, n - 1);
    }
  }

  lemma CloneAllIgnoresMemory(c: Config, m: Memory, p: Plan, n: Counts, s: Placement, memUsed: nat)
    ensures CloneAll(c, m, p, n, s.(memUsed := memUsed)) == CloneAll(c, m, p, n, s)
  {
  }
}
