/** Which layers of a frame get an overlay, stated on the outcome (hwc/hwc.c). */
module HwcChoice {
  import opened HwcLayers
  import opened HwcComposer
  import opened HwcBudget
  import opened Wrappers

  // ---------------------------------------------------------------- what suits an overlay

  /** Is this buffer also shown on the external display? */
  predicate ShownExternally(t: ExtTransform, h: Handle) { t.enabled && (t.docking ==> h.externalDisplay) }

  predicate Untransformed(l: Layer) { !l.transform.flipH && !l.transform.flipV && !l.transform.rot90 }

  /** The display controller can show such a buffer at all: only video buffers are turned, and the others
      must fit into a slot of TILER memory. */
  predicate Presentable(c: Config, l: Layer, h: Handle) {
    && !l.skip && h.format != OtherFormat && c.canScale(l)
    && (h.format in {NV12, NV12_1D} || (Untransformed(l) && Mem1d(l.handle) <= c.tilerSlotSize))
  }

  /** The external display can show it, if it has to: a transformed picture must be a video buffer, and on a
      TV red must not be first. */
  predicate Clonable(c: Config, t: ExtTransform, h: Handle) {
    ShownExternally(t, h) ==>
      (t.rotation != 0 || t.hflip ==> h.format in {NV12, NV12_1D}) && (c.extOnTv ==> h.format !in {RGBX8888, RGBA8888})
  }

  /** It goes with the other buffers of the frame. */
  predicate Compatible(c: Config, mode: Mode, h: Handle) {
    && (c.nv12Only && mode.useSgx ==> h.format in {NV12, NV12_1D})
    && (c.rgbOrder ==> h.format !in if mode.swapRb then {BGRA8888, BGRX8888, RGB565} else {RGBX8888, RGBA8888})
    && (c.onTv ==> h.format !in {RGBX8888, RGBA8888})
  }

  /** What keeps an overlay although the GPU is to compose everything: protected buffers, videos shown
      larger than a limit, and what is docked. */
  predicate Insists(c: Config, t: ExtTransform, l: Layer, h: Handle) {
    || h.isProtected || (t.enabled && t.docking && h.externalDisplay)
    || (h.format in {NV12, NV12_1D} &&
        var w, k := Width(l.source), Height(l.source);
        || Width(l.frame) as real >= (if l.transform.rot90 then k else w) as real * c.upscaledNv12Limit
        || Height(l.frame) as real >= (if l.transform.rot90 then w else k) as real * c.upscaledNv12Limit)
  }

  predicate Suits(c: Config, t: ExtTransform, mode: Mode, l: Layer) {
    l.handle.Some? &&
    var h := l.handle.value;
    && Presentable(c, l, h) && Clonable(c, t, h) && Compatible(c, mode, h)
    && (c.forceSgx ==> Insists(c, t, l, h))
  }

  // ---------------------------------------------------------------- what is left to give

  /** Overlays given to the layers with these verdicts, and the TILER memory of those layers. */
  function Given(composition: seq<Composition>): nat {
    if composition == [] then 0
    else
      var k := |composition| - 1;
      Given(composition[..k]) + if composition[k] == Gpu then 0 else 1
  }

  function MemoryGiven(composition: seq<Composition>, ls: seq<Layer>): nat
    requires |composition| <= |ls|
  {
    if composition == [] then 0
    else
      var k := |composition| - 1;
      MemoryGiven(composition[..k], ls) + if composition[k] == Gpu then 0 else Mem1d(ls[k].handle)
  }

  /** There is room for a layer after those with the verdicts `before`: an overlay (one being kept for the
      framebuffer), memory, and, for a blended layer, nothing left to the GPU below it. */
  predicate Room(c: Config, p: Plan, mode: Mode, before: seq<Composition>, ls: seq<Layer>, l: Layer)
    requires |before| <= |ls|
  {
    && Given(before) + (if mode.useSgx then 1 else 0) < p.maxHw
    && MemoryGiven(before, ls) + Mem1d(l.handle) <= c.tilerSlotSize
    && !(mode.useSgx && !l.blending.Opaque? && Gpu in before)
  }

  /** The verdict on layer `i`. */
  ghost predicate Judged(c: Config, p: Plan, mode: Mode, composition: seq<Composition>, ls: seq<Layer>, i: nat)
    requires i < |composition| <= |ls|
  {
    composition[i] == if !(Suits(c, p.current, mode, ls[i]) && Room(c, p, mode, composition[..i], ls, ls[i])) then Gpu
                      else if mode.useSgx && ls[i].blending.Opaque? then DssClearFb
                      else Dss
  }

  // ---------------------------------------------------------------- the placement loop

  /** What the placement remembers follows from the verdicts so far, and these are right. */
  ghost predicate Booked(c: Config, p: Plan, mode: Mode, s: Placement, ls: seq<Layer>, k: nat) {
    && k <= |ls| && |s.composition| == k && Layered(mode, s)
    && |s.ovls| == Given(s.composition) + (if mode.useSgx then 1 else 0)
    && s.memUsed == MemoryGiven(s.composition, ls)
    && (s.fbZ >= 0 <==> mode.useSgx && Gpu in s.composition)
    && forall i :: 0 <= i < k ==> Judged(c, p, mode, s.composition, ls, i)
  }

  lemma RendersIfSuits(c: Config, p: Plan, mode: Mode, l: Layer)
    ensures CanRenderLayer(c, p, mode, l) && (!c.forceSgx || Protected(l) || UpscaledNV12(l, c.upscaledNv12Limit)
              || (p.current.docking && p.current.enabled && Dockable(l)))
            <==> Suits(c, p.current, mode, l)
  {
    assert Untransformed(l) <==> l.transform == Transform(false, false, false);
  }

  lemma AcceptsExactly(c: Config, p: Plan, mode: Mode, s: Placement, ls: seq<Layer>, k: nat)
    requires k < |ls| && Booked(c, p, mode, s, ls, k)
    ensures Accepts(c, p, mode, s, ls[k])
            <==> Suits(c, p.current, mode, ls[k]) && Room(c, p, mode, s.composition, ls, ls[k])
  {
    RendersIfSuits(c, p, mode, ls[k]);
  }

  lemma OneMoreVerdict(c: Config, p: Plan, mode: Mode, before: seq<Composition>, v: Composition, ls: seq<Layer>)
    requires |before| < |ls|
    requires forall i :: 0 <= i < |before| ==> Judged(c, p, mode, before, ls, i)
    requires var l := ls[|before|];
             v == if !(Suits(c, p.current, mode, l) && Room(c, p, mode, before, ls, l)) then Gpu
                  else if mode.useSgx && l.blending.Opaque? then DssClearFb else Dss
    ensures forall i :: 0 <= i < |before| + 1 ==> Judged(c, p, mode, before + [v], ls, i)
    ensures Given(before + [v]) == Given(before) + if v == Gpu then 0 else 1
    ensures MemoryGiven(before + [v], ls)
         == MemoryGiven(before, ls) + if v == Gpu then 0 else Mem1d(ls[|before|].handle)
  {
    var after := before + [v];
    assert after[..|before|] == before;
    forall i | 0 <= i < |before| ensures Judged(c, p, mode, after, ls, i) {
      assert Judged(c, p, mode, before, ls, i);
      assert after[..i] == before[..i];
    }
  }

  lemma AcceptBooked(c: Config, p: Plan, mode: Mode, s: Placement, ls: seq<Layer>, k: nat)
    requires k < |ls| && Booked(c, p, mode, s, ls, k) && Accepts(c, p, mode, s, ls[k])
    ensures Booked(c, p, mode, Accept(c, mode, s, ls[k], k), ls, k + 1)
  {
    var v := if mode.useSgx && ls[k].blending.Opaque? then DssClearFb else Dss;
    assert Accept(c, mode, s, ls[k], k).composition == s.composition + [v];
    AcceptsExactly(c, p, mode, s, ls, k);
    AcceptLayered(c, mode, s, ls[k], k);
    OneMoreVerdict(c, p, mode, s.composition, v, ls);
  }

  lemma RejectBooked(c: Config, p: Plan, mode: Mode, s: Placement, ls: seq<Layer>, k: nat)
    requires k < |ls| && Booked(c, p, mode, s, ls, k) && !Accepts(c, p, mode, s, ls[k])
    ensures Booked(c, p, mode, Reject(mode, s), ls, k + 1)
  {
    assert Reject(mode, s).composition == s.composition + [Gpu];
    AcceptsExactly(c, p, mode, s, ls, k);
    RejectLayered(mode, s);
    OneMoreVerdict(c, p, mode, s.composition, Gpu, ls);
  }

  lemma PlaceOneBooked(c: Config, p: Plan, mode: Mode, s: Placement, ls: seq<Layer>, k: nat)
    requires k < |ls| && Booked(c, p, mode, s, ls, k)
    ensures Booked(c, p, mode, PlaceOne(c, p, mode, s, ls[k], k), ls, k + 1)
  {
    if Accepts(c, p, mode, s, ls[k]) {
      AcceptBooked(c, p, mode, s, ls, k);
    } else {
      RejectBooked(c, p, mode, s, ls, k);
    }
  }

  lemma PlaceBooked(c: Config, p: Plan, mode: Mode, ls: seq<Layer>, k: nat)
    requires k <= |ls|
    ensures Booked(c, p, mode, Place(c, p, mode, ls, k), ls, k)
  {
    var inv := (s: Placement, i: nat) => Booked(c, p, mode, s, ls, i);
    forall s: Placement, i: nat | i < |ls| && inv(s, i) ensures inv(PlaceOne(c, p, mode, s, ls[i], i), i + 1) {
      PlaceOneBooked(c, p, mode, s, ls, i);
    }
    PlaceKeeps(c, p, mode, ls, k, inv);
  }

  /** In every frame, a layer gets an overlay if and only if it suits one and there is room. */
  lemma ChosenExactly(c: Config, m: Memory, ls: seq<Layer>, i: nat)
    requires i < |ls|
    ensures var f := Prepared(c, m, ls);
            |f.placement.composition| == |ls| && Judged(c, f.plan, f.mode, f.placement.composition, ls, i)
  {
    var f := Prepared(c, m, ls);
    PlaceBooked(c, f.plan, f.mode, ls, |ls|);
    assert f.placement.composition == Place(c, f.plan, f.mode, ls, |ls|).composition;
  }

  // ---------------------------------------------------------------- when the GPU stays off

  predicate Shown(l: Layer, formats: set<Format>) { l.handle.Some? && l.handle.value.format in formats }

  const VIDEO := {NV12, NV12_1D}

  const BLUE_FIRST := {BGRA8888, BGRX8888, RGB565}

  const RED_FIRST := {RGBX8888, RGBA8888}

  /** Its place on the screen and its part of the buffer, as turned, differ in size. */
  predicate Resized(l: Layer) {
    var w, h := Width(l.source), Height(l.source);
    Width(l.frame) != (if l.transform.rot90 then h else w) || Height(l.frame) != (if l.transform.rot90 then w else h)
  }

  /** Needs a pipe that scales. */
  predicate Scales(c: Config, l: Layer) { Resized(l) || Shown(l, VIDEO) || c.primaryTransform }

  /** These as properties of a layer. */
  function Fitting(c: Config): Layer -> bool { (l: Layer) => l.handle.Some? && Presentable(c, l, l.handle.value) }

  function Scaling(c: Config): Layer -> bool { l => Scales(c, l) }

  function Of(formats: set<Format>): Layer -> bool { l => Shown(l, formats) }

  function TilerMemory(ls: seq<Layer>): nat {
    if ls == [] then 0 else TilerMemory(ls[..|ls| - 1]) + Mem1d(ls[|ls| - 1].handle)
  }

  ghost function Number(ls: seq<Layer>, p: Layer -> bool): nat { HowMany(ls, p, |ls|) }

  predicate Every(ls: seq<Layer>, p: Layer -> bool) { forall i :: 0 <= i < |ls| ==> p(ls[i]) }

  predicate Any(ls: seq<Layer>, p: Layer -> bool) { exists i :: 0 <= i < |ls| && p(ls[i]) }

  /** The overlays can show all these layers: none but presentable ones, within overlays, scalers and memory;
      all video if the external display transforms (or some, when docking) or if nothing else is allowed; and
      not red and blue first at once, nor red first on a TV, if the order counts. */
  ghost predicate OverlaysSuffice(c: Config, p: Plan, ls: seq<Layer>) {
    var t := p.current;
    && 0 < |ls| <= p.maxHw
    && Every(ls, Fitting(c))
    && Number(ls, Scaling(c)) <= p.maxScaling && Number(ls, Of(VIDEO)) <= p.maxScaling
    && TilerMemory(ls) <= c.tilerSlotSize
    && (t.enabled && (t.rotation != 0 || t.hflip) ==>
          Every(ls, Of(VIDEO)) || (t.docking && Any(ls, Of(VIDEO))))
    && (c.rgbOrder && Any(ls, Of(RED_FIRST)) ==>
          !Any(ls, Of(BLUE_FIRST)) && !c.onTv && !(c.extOnTv && t.enabled))
    && (c.nv12Only ==> Every(ls, Of(VIDEO)))
  }

  lemma SameNumber(ls: seq<Layer>, p: Layer -> bool, q: Layer -> bool)
    requires forall i :: 0 <= i < |ls| ==> (p(ls[i]) <==> q(ls[i]))
    ensures Number(ls, p) == Number(ls, q)
  {
    assert Which(ls, p, |ls|) == Which(ls, q, |ls|);
  }

  lemma SameKind(c: Config, ls: seq<Layer>, kind: Kind, q: Layer -> bool)
    requires forall i :: 0 <= i < |ls| ==> (IsKind(c, kind, ls[i]) <==> q(ls[i]))
    ensures Counted(Tally(c, ls, |ls|), kind) == Number(ls, q)
  {
    TallyCounts(c, ls, |ls|, kind);
    SameNumber(ls, l => IsKind(c, kind, l), q);
  }

  lemma {:induction false} NumberUpTo(ls: seq<Layer>, p: Layer -> bool, k: nat)
    requires k <= |ls|
    ensures HowMany(ls, p, k) <= k
    ensures HowMany(ls, p, k) == k <==> forall i :: 0 <= i < k ==> p(ls[i])
    ensures HowMany(ls, p, k) == 0 <==> forall i :: 0 <= i < k ==> !p(ls[i])
  {
    if k == 0 {
      NoneYet(ls, p);
    } else {
      NumberUpTo(ls, p, k - 1);
      OneMore(ls, p, k - 1);
    }
  }

  lemma NumberAll(ls: seq<Layer>, p: Layer -> bool)
    ensures Number(ls, p) <= |ls|
    ensures Number(ls, p) == |ls| <==> Every(ls, p)
    ensures Number(ls, p) == 0 <==> !Any(ls, p)
  {
    NumberUpTo(ls, p, |ls|);
  }

  lemma ValidIfPresentable(c: Config, l: Layer)
    ensures Valid(c, l) <==> l.handle.Some? && Presentable(c, l, l.handle.value)
  {
    assert Untransformed(l) <==> l.transform == Transform(false, false, false);
  }

  lemma AllPresentable(c: Config, ls: seq<Layer>)
    ensures var n := Tally(c, ls, |ls|);
            n.composited == |ls| && n.possible <= |ls|
            && (n.possible == |ls| <==> Every(ls, Fitting(c)))
  {
    TallySays(c, ls, |ls|);
    forall l: Layer {
      ValidIfPresentable(c, l);
    }
    SameKind(c, ls, Possible, Fitting(c));
    NumberAll(ls, Fitting(c));
  }

  lemma KindsAre(c: Config, l: Layer)
    requires Fitting(c)(l)
    ensures IsKind(c, NeedsScaling, l) <==> Scaling(c)(l)
    ensures IsKind(c, Nv12, l) <==> Of(VIDEO)(l)
    ensures IsKind(c, Bgr, l) <==> Of(RED_FIRST)(l)
    ensures IsKind(c, Rgb, l) <==> Of(BLUE_FIRST)(l)
  {
    ValidIfPresentable(c, l);
  }

  /** Among presentable layers, the counts are the numbers of layers of each sort. */
  lemma CountsAre(c: Config, ls: seq<Layer>)
    requires Every(ls, Fitting(c))
    ensures var n := Tally(c, ls, |ls|);
            && n.scaled == Number(ls, Scaling(c)) && n.nv12 == Number(ls, Of(VIDEO))
            && n.bgr == Number(ls, Of(RED_FIRST)) && n.rgb == Number(ls, Of(BLUE_FIRST))
  {
    forall i | 0 <= i < |ls|
      ensures IsKind(c, NeedsScaling, ls[i]) <==> Scaling(c)(ls[i])
      ensures IsKind(c, Nv12, ls[i]) <==> Of(VIDEO)(ls[i])
      ensures IsKind(c, Bgr, ls[i]) <==> Of(RED_FIRST)(ls[i])
      ensures IsKind(c, Rgb, ls[i]) <==> Of(BLUE_FIRST)(ls[i])
    {
      assert Fitting(c)(ls[i]);
      KindsAre(c, ls[i]);
    }
    SameKind(c, ls, NeedsScaling, Scaling(c));
    SameKind(c, ls, Nv12, Of(VIDEO));
    SameKind(c, ls, Bgr, Of(RED_FIRST));
    SameKind(c, ls, Rgb, Of(BLUE_FIRST));
  }

  lemma {:induction false} MemoryIs(c: Config, ls: seq<Layer>, k: nat)
    requires k <= |ls| && forall i :: 0 <= i < k ==> Valid(c, ls[i])
    ensures Tally(c, ls, k).mem == TilerMemory(ls[..k])
  {
    if k > 0 {
      MemoryIs(c, ls, k - 1);
      assert ls[..k][..k - 1] == ls[..k - 1];
    }
  }

  /** The aggregate check passes if and only if the overlays suffice for all layers. */
  lemma CheckPassesExactly(c: Config, p: Plan, ls: seq<Layer>)
    ensures CanRenderAll(c, p, Tally(c, ls, |ls|)) <==> !c.forceSgx && OverlaysSuffice(c, p, ls)
  {
    AllPresentable(c, ls);
    if Every(ls, Fitting(c)) {
      CountsAre(c, ls);
      forall i | 0 <= i < |ls| ensures Valid(c, ls[i]) {
        assert Fitting(c)(ls[i]);
        ValidIfPresentable(c, ls[i]);
      }
      MemoryIs(c, ls, |ls|);
      assert ls[..|ls|] == ls;
      NumberAll(ls, Of(VIDEO));
      NumberAll(ls, Of(RED_FIRST));
      NumberAll(ls, Of(BLUE_FIRST));
      OnlyVideo(c, ls);
    }
  }

  /** Presentable layers are video, or have red or blue first. */
  lemma OnlyVideo(c: Config, ls: seq<Layer>)
    requires Every(ls, Fitting(c))
    ensures Every(ls, Of(VIDEO)) <==> !Any(ls, Of(RED_FIRST)) && !Any(ls, Of(BLUE_FIRST))
  {
    forall i | 0 <= i < |ls|
      ensures Of(VIDEO)(ls[i]) <==> !Of(RED_FIRST)(ls[i]) && !Of(BLUE_FIRST)(ls[i])
    {
      assert Fitting(c)(ls[i]);
    }
  }

  /** In every frame, the GPU stays off if and only if it is not forced on and the overlays suffice; red goes
      first on the display if some layer, or the framebuffer, has it first. */
  lemma GpuOffExactly(c: Config, m: Memory, ls: seq<Layer>)
    ensures var f := Prepared(c, m, ls);
            && (!f.mode.useSgx <==> !c.forceSgx && OverlaysSuffice(c, f.plan, ls))
            && f.mode.swapRb == if f.mode.useSgx then c.fbFormat in RED_FIRST else Any(ls, Of(RED_FIRST))
  {
    var f := Prepared(c, m, ls);
    CheckPassesExactly(c, f.plan, ls);
    if !f.mode.useSgx {
      CountsAre(c, ls);
      NumberAll(ls, Of(RED_FIRST));
    }
  }
}
