/** Sharing four overlays between two displays: handover from frame to frame, z-orders and
    hardware pipes (hwc/hwc.c). */
module HwcHandoff {
  import opened HwcCrop
  import opened HwcGeometry
  import opened HwcLayers
  import opened HwcComposer
  import opened HwcComposition
  import opened HwcBudget
  import opened HwcShown
  import opened Wrappers

  // ---------------------------------------------------------------- one frame

  /** Remembered overlay counts that a run can produce. */
  ghost predicate Sane(m: Memory) {
    0 <= m.lastExtOvls <= MAX_HW_OVERLAYS / 2 && 0 <= m.lastIntOvls && m.lastIntOvls + m.lastExtOvls <= MAX_HW_OVERLAYS
  }

  function External(f: Frame): int { |f.ovls| - f.post2 }

  lemma {:induction false} MirrorFits(c: Config, t: ExtTransform, ovls: seq<Overlay>, k: nat)
    requires k <= |ovls| && 2 * |ovls| <= MAX_HW_OVERLAYS
    ensures |MirrorUpTo(c, t, ovls, k)| == |ovls| + k
  {
    if k > 0 {
      MirrorFits(c, t, ovls, k - 1);
    }
  }

  /** Number of primary overlays against what the plan allows. */
  lemma PrimaryCount(c: Config, m: Memory, ls: seq<Layer>)
    ensures var f := Prepared(c, m, ls);
            && f.post2 == |f.placement.ovls|
            && (if f.mode.useSgx then 1 else 0) <= f.post2 <= Max(if f.mode.useSgx then 1 else 0, f.plan.maxHw)
            && f.placement.ixDocking < f.post2
            && f.placement.z == f.post2
  {
    var f := Prepared(c, m, ls);
    PlaceWithinLimits(c, f.plan, f.mode, ls, |ls|);
    PlaceLayered(c, f.plan, f.mode, ls, |ls|);
  }

  /** The plan leaves room for what either display still shows and for what it wants. */
  lemma PlanBudget(c: Config, m: Memory, n: Counts)
    requires WellFormed(c) && Sane(m)
    ensures var p := Decide(c, m, n); var used := Max(1, p.maxHw);
            && 0 <= p.granted <= p.wanted <= MAX_HW_OVERLAYS / 2
            && m.lastIntOvls + p.granted <= MAX_HW_OVERLAYS
            && used + m.lastExtOvls <= MAX_HW_OVERLAYS && used + p.wanted <= MAX_HW_OVERLAYS
            && (MayClone(p, n) ==> p.granted > 0)
            && (MayClone(p, n) && !p.current.docking ==> used <= p.granted)
            && (!p.current.enabled ==> p.wanted == 0)
  {
  }

  /** Cloning adds nothing, one docked overlay, or a copy of every primary overlay. */
  lemma CloneCount(c: Config, m: Memory, p: Plan, n: Counts, s: Placement)
    requires MayClone(p, n) ==> |s.ovls| < MAX_HW_OVERLAYS && (!p.current.docking ==> 2 * |s.ovls| <= MAX_HW_OVERLAYS)
    ensures var r := CloneAll(c, m, p, n, s); var e := |r.ovls| - |s.ovls|;
            && !r.busy
            && (e == 0 || (MayClone(p, n) && r.enabled && e == if p.current.docking then 1 else |s.ovls|))
  {
    if 2 * |s.ovls| <= MAX_HW_OVERLAYS {
      MirrorFits(c, p.current, s.ovls, |s.ovls|);
    }
  }

  /** What a frame does to the overlay budget. */
  ghost predicate KeepsBudget(m: Memory, f: Frame) {
    var n, e := f.post2, External(f);
    && 0 <= n && 0 <= e
    && n + e <= MAX_HW_OVERLAYS
    && n + m.lastExtOvls <= MAX_HW_OVERLAYS
    && m.lastIntOvls + e <= MAX_HW_OVERLAYS
    && !f.busy
    && e <= f.extOvls <= MAX_HW_OVERLAYS / 2 && n + f.extOvls <= MAX_HW_OVERLAYS
    && n + f.plan.wanted <= MAX_HW_OVERLAYS
    && (e == 0 || (MayClone(f.plan, f.counts) && e == if f.plan.current.docking then 1 else n))
  }

  /** No frame takes an overlay that the other display may still be using, and cloning never runs
      out of overlays (-EBUSY). */
  lemma HandoffStep(c: Config, m: Memory, ls: seq<Layer>)
    requires WellFormed(c) && Sane(m)
    ensures KeepsBudget(m, Prepared(c, m, ls))
  {
    var n := Tally(c, ls, |ls|);
    var p := Decide(c, m, n);
    var mode := ChooseMode(c, p, n);
    var s := Finish(c, mode, Place(c, p, mode, ls, |ls|));
    PrimaryCount(c, m, ls);
    PlanBudget(c, m, n);
    CloneCount(c, m, p, n, s);
  }

  // ---------------------------------------------------------------- whole runs

  /** One frame of a run: settings and layers may change at will; a frame is posted unless its
      buffer swap fails. */
  datatype Event = Event(c: Config, ls: seq<Layer>, swapOk: bool)

  function Step(m: Memory, e: Event): Memory {
    var f := Prepared(e.c, m, e.ls);
    var m' := AfterPrepare(m, f);
    if f.mode.useSgx && !e.swapOk then m' else AfterSet(m', f.post2)
  }

  /** What is remembered, and how many overlays the last posted frame left on the two displays. */
  datatype World = World(memory: Memory, shown: (int, int))

  function Next(w: World, e: Event): World { World(Step(w.memory, e), PostedAfter(w.memory, e, w.shown)) }

  /** A run of `k` steps. */
  function Fold<S, E>(step: (S, E) -> S, s: S, es: seq<E>, k: nat): S
    requires k <= |es|
  {
    if k == 0 then s else step(Fold(step, s, es, k - 1), es[k - 1])
  }

  /** An invariant of the steps holds after every run. */
  lemma {:induction false} FoldKeeps<S(!new), E(!new)>(step: (S, E) -> S, inv: S -> bool, ok: E -> bool, s: S,
                                                       es: seq<E>, k: nat)
    requires k <= |es| && inv(s) && forall i :: 0 <= i < |es| ==> ok(es[i])
    requires forall s, e :: inv(s) && ok(e) ==> inv(step(s, e))
    ensures inv(Fold(step, s, es, k))
  {
    if k > 0 {
      FoldKeeps(step, inv, ok, s, es, k - 1);
    }
  }

  function After(m: Memory, es: seq<Event>, k: nat): World
    requires k <= |es|
  {
    Fold(Next, World(m, (0, 0)), es, k)
  }

  /** Memory after the first `k` frames. */
  function Run(m: Memory, es: seq<Event>, k: nat): Memory
    requires k <= |es|
  {
    After(m, es, k).memory
  }

  /** Overlays that the last posted frame left on the two displays. */
  function Posted(m: Memory, es: seq<Event>, k: nat): (int, int)
    requires k <= |es|
  {
    After(m, es, k).shown
  }

  function PostedAfter(m: Memory, e: Event, before: (int, int)): (int, int) {
    var f := Prepared(e.c, m, e.ls);
    if f.mode.useSgx && !e.swapOk then before else (f.post2, External(f))
  }

  ghost predicate Fresh(m: Memory) { m.lastExtOvls == 0 && m.lastIntOvls == 0 }

  lemma StepSane(m: Memory, e: Event)
    requires Sane(m) && WellFormed(e.c)
    ensures var f := Prepared(e.c, m, e.ls); var m' := Step(m, e);
            && Sane(m') && KeepsBudget(m, f)
            && (m'.lastIntOvls, m'.lastExtOvls)
                 == if f.mode.useSgx && !e.swapOk then (m.lastIntOvls, m.lastExtOvls) else (f.post2, f.extOvls)
  {
    HandoffStep(e.c, m, e.ls);
  }

  /** The memory bounds what the displays show. */
  ghost predicate Remembers(m: Memory, shown: (int, int)) {
    Sane(m) && m.lastIntOvls == shown.0 && m.lastExtOvls >= shown.1 >= 0
  }

  lemma StepRemembers(m: Memory, e: Event, shown: (int, int))
    requires Remembers(m, shown) && WellFormed(e.c)
    ensures Remembers(Step(m, e), PostedAfter(m, e, shown))
  {
    StepSane(m, e);
  }

  lemma {:induction false} RunSane(m: Memory, es: seq<Event>, k: nat)
    requires Fresh(m) && k <= |es| && forall i :: 0 <= i < |es| ==> WellFormed(es[i].c)
    ensures Remembers(Run(m, es, k), Posted(m, es, k))
  {
    var inv := (w: World) => Remembers(w.memory, w.shown);
    var ok := (e: Event) => WellFormed(e.c);
    forall w: World, e: Event | inv(w) && ok(e) ensures inv(Next(w, e)) {
      StepRemembers(w.memory, e, w.shown);
    }
    FoldKeeps(Next, inv, ok, World(m, (0, 0)), es, k);
  }

  /** In every run, a frame's overlays fit beside each other and beside everything the displays are
      still showing, so an overlay is never moved before it has been released. */
  lemma HandoffSafe(m: Memory, es: seq<Event>, k: nat)
    requires Fresh(m) && k < |es| && forall i :: 0 <= i < |es| ==> WellFormed(es[i].c)
    ensures var f := Prepared(es[k].c, Run(m, es, k), es[k].ls); var (n, e) := Posted(m, es, k);
            && f.post2 + External(f) <= MAX_HW_OVERLAYS
            && f.post2 + e <= MAX_HW_OVERLAYS
            && n + External(f) <= MAX_HW_OVERLAYS
            && !f.busy
  {
    RunSane(m, es, k);
    HandoffStep(es[k].c, Run(m, es, k), es[k].ls);
  }

  /** A posted frame makes room: when the next frame wants as many external overlays, it gets them. */
  lemma GrantSettles(m: Memory, es: seq<Event>, k: nat)
    requires Fresh(m) && k + 1 < |es| && forall i :: 0 <= i < |es| ==> WellFormed(es[i].c)
    requires var f := Prepared(es[k].c, Run(m, es, k), es[k].ls);
             var f' := Prepared(es[k + 1].c, Run(m, es, k + 1), es[k + 1].ls);
             f.plan.wanted == f'.plan.wanted && (f.mode.useSgx ==> es[k].swapOk)
    ensures var f' := Prepared(es[k + 1].c, Run(m, es, k + 1), es[k + 1].ls);
            f'.plan.granted == f'.plan.wanted
  {
    RunSane(m, es, k);
    StepSane(Run(m, es, k), es[k]);
    PlanBudget(es[k + 1].c, Run(m, es, k + 1), Tally(es[k + 1].c, es[k + 1].ls, |es[k + 1].ls|));
  }

  /** What the plan gives to either display.  Docking is wanted if there is something to dock, or the dock
      image is forced; what is not wanted externally, nor still shown there, is for the primary display (less
      the GFX pipe, if that display is transformed); a mirrored picture gets as many overlays as its original. */
  lemma PlanSpendsAll(c: Config, m: Memory, n: Counts)
    requires WellFormed(c) && Sane(m)
    ensures var p := Decide(c, m, n);
            var docks := c.dock.enabled && (n.dockable > 0 || c.forceDock);
            var all := p.maxHw + if c.primaryTransform then 1 else 0;
            && p.granted == Min(p.wanted, MAX_HW_OVERLAYS - m.lastIntOvls)
            && (docks ==> p.wanted == 1 && all + Max(1, m.lastExtOvls) == 4 && p.current.enabled && p.current.docking)
            && (docks ==> p.current == if c.mirror.enabled then c.mirror.(docking := true) else c.dock)
            && (!docks && c.mirror.enabled ==> p.wanted == 2 && p.current == c.mirror)
            && (!docks && c.mirror.enabled ==> all == if n.isProtected > 0 || p.granted == 0 then 2 else p.granted)
            && (!docks && !c.mirror.enabled ==> p.wanted == 0 && all + m.lastExtOvls == 4)
  {
  }

  /** Once what the external display wants is granted, it shows it: the docked layer or the dock image, or a
      clone of every primary overlay; otherwise nothing. */
  lemma GrantedIsShown(c: Config, m: Memory, ls: seq<Layer>)
    requires WellFormed(c) && Sane(m) && c.dockModeOk && c.mirrorModeOk
    requires var p := Prepared(c, m, ls).plan; p.granted == p.wanted
    ensures var f := Prepared(c, m, ls);
            External(f) == if c.dock.enabled && (f.counts.dockable > 0 || c.forceDock)
                           then if f.placement.ixDocking >= 0 || c.forceDock then 1 else 0
                           else if c.mirror.enabled then f.post2 else 0
  {
    var f := Prepared(c, m, ls);
    PlanSpendsAll(c, m, f.counts);
    PrimaryCount(c, m, ls);
    PlanBudget(c, m, f.counts);
    ClonesGranted(c, m, f.plan, f.counts, f.placement);
  }

  lemma ClonesGranted(c: Config, m: Memory, p: Plan, n: Counts, s: Placement)
    requires c.dockModeOk && c.mirrorModeOk && p.granted == p.wanted >= 0
    requires p.wanted > 0 ==> p.current.enabled && |s.ovls| < MAX_HW_OVERLAYS
    requires p.wanted > 0 && !p.current.docking ==> 2 * |s.ovls| <= MAX_HW_OVERLAYS
    requires s.ixDocking < |s.ovls|
    ensures |CloneAll(c, m, p, n, s).ovls| - |s.ovls|
            == if p.wanted == 0 then 0
               else if p.current.docking then if s.ixDocking >= 0 || c.forceDock then 1 else 0
               else |s.ovls|
  {
    if 2 * |s.ovls| <= MAX_HW_OVERLAYS {
      MirrorFits(c, p.current, s.ovls, |s.ovls|);
    }
  }

  /** In every run: after a posted frame that wanted as much, the external display gets its picture. */
  lemma ExternalServed(m: Memory, es: seq<Event>, k: nat)
    requires Fresh(m) && k + 1 < |es| && forall i :: 0 <= i < |es| ==> WellFormed(es[i].c)
    requires var f := Prepared(es[k].c, Run(m, es, k), es[k].ls);
             var f' := Prepared(es[k + 1].c, Run(m, es, k + 1), es[k + 1].ls);
             f.plan.wanted == f'.plan.wanted && (f.mode.useSgx ==> es[k].swapOk)
    requires es[k + 1].c.dockModeOk && es[k + 1].c.mirrorModeOk
    ensures var c, f' := es[k + 1].c, Prepared(es[k + 1].c, Run(m, es, k + 1), es[k + 1].ls);
            External(f') == if c.dock.enabled && (f'.counts.dockable > 0 || c.forceDock)
                            then if f'.placement.ixDocking >= 0 || c.forceDock then 1 else 0
                            else if c.mirror.enabled then f'.post2 else 0
  {
    GrantSettles(m, es, k);
    RunSane(m, es, k + 1);
    GrantedIsShown(es[k + 1].c, Run(m, es, k + 1), es[k + 1].ls);
  }

  /** Mirroring right after docking first needs the mode of the mirror: without it nothing is mirrored. */
  lemma MirrorNeedsMode(m: Memory, es: seq<Event>, k: nat)
    requires k + 1 < |es|
    requires var f := Prepared(es[k].c, Run(m, es, k), es[k].ls);
             var f' := Prepared(es[k + 1].c, Run(m, es, k + 1), es[k + 1].ls);
             f.current.docking && !f'.plan.current.docking && !es[k + 1].c.mirrorModeOk
    ensures External(Prepared(es[k + 1].c, Run(m, es, k + 1), es[k + 1].ls)) == 0
  {
    assert Run(m, es, k + 1) == Step(Run(m, es, k), es[k]);
  }

  /** What a frame remembers for the external display: the overlays it shows there, or, while none is to be
      shown and none was, what had been granted. */
  lemma RemembersGrant(c: Config, m: Memory, ls: seq<Layer>)
    requires WellFormed(c) && Sane(m)
    ensures var f := Prepared(c, m, ls);
            AfterPrepare(m, f).extOvls == if External(f) > 0 || f.current.enabled || m.lastExtOvls > 0 then External(f)
                                          else f.plan.granted
  {
    HandoffStep(c, m, ls);
  }

  // ---------------------------------------------------------------- z-orders

  ghost predicate PermutesZ(ovls: seq<Overlay>) {
    && (forall i :: 0 <= i < |ovls| ==> 0 <= ovls[i].z < |ovls|)
    && (forall i, j :: 0 <= i < j < |ovls| ==> ovls[i].z != ovls[j].z)
  }

  lemma PrimaryZ(c: Config, m: Memory, ls: seq<Layer>)
    ensures PermutesZ(Prepared(c, m, ls).placement.ovls)
  {
    var f := Prepared(c, m, ls);
    PlaceLayered(c, f.plan, f.mode, ls, |ls|);
  }

  lemma {:induction false} MirrorCopies(c: Config, t: ExtTransform, ovls: seq<Overlay>, k: nat)
    requires k <= |ovls| && 2 * |ovls| <= MAX_HW_OVERLAYS
    ensures |MirrorUpTo(c, t, ovls, k)| == |ovls| + k
    ensures var r, n := MirrorUpTo(c, t, ovls, k), |ovls|;
            && r[..n] == ovls
            && forall i :: n <= i < n + k ==>
                 && r[i].z == ovls[i - n].z + n && r[i].layer == ovls[i - n].layer && r[i].ba == i - n
                 && r[i].ix == MAX_HW_OVERLAYS - 1 - (i - n) && r[i].mgr == 1
                 && r[i].geom == AdjustExt(ExtSettings(c, t), ovls[i - n].geom)
  {
    if k > 0 {
      MirrorCopies(c, t, ovls, k - 1);
    }
  }

  /** Clones occupy the pipes from the end, one each, and the z-orders above the primary ones. */
  ghost predicate ClonesSit(ovls: seq<Overlay>, primary: seq<Overlay>) {
    var n := |primary|;
    && Extends(ovls, primary)
    && (forall i :: n <= i < |ovls| ==> ovls[i].ix == MAX_HW_OVERLAYS - 1 - (i - n))
    && ((|ovls| == n + 1 && ovls[n].z == n) ||
        ((|ovls| == n || |ovls| == 2 * n) && forall i :: n <= i < |ovls| ==> ovls[i].z == primary[i - n].z + n))
  }

  lemma DockSits(c: Config, t: ExtTransform, primary: seq<Overlay>, o: Overlay, ix: nat)
    requires ix < |primary| || o.z == 0
    ensures ClonesSit(DockClone(c, t, primary, o, ix, |primary|).ovls, primary)
  {
  }

  lemma MirrorSits(c: Config, t: ExtTransform, primary: seq<Overlay>)
    requires 2 * |primary| <= MAX_HW_OVERLAYS
    ensures ClonesSit(MirrorUpTo(c, t, primary, |primary|), primary)
  {
    MirrorCopies(c, t, primary, |primary|);
    MirrorExtends(c, t, primary, |primary|);
  }

  lemma AdjustSits(c: Config, ovls: seq<Overlay>, primary: seq<Overlay>)
    requires ClonesSit(ovls, primary)
    ensures ClonesSit(AdjustAll(c, ovls), primary)
  {
    assert forall i :: 0 <= i < |ovls| ==> AdjustAll(c, ovls)[i] == Adjusted(c, ovls[i]);
  }

  lemma CloneAllSits(c: Config, m: Memory, p: Plan, n: Counts, s: Placement)
    requires MayClone(p, n) && !p.current.docking ==> 2 * |s.ovls| <= MAX_HW_OVERLAYS
    requires s.z == |s.ovls|
    ensures ClonesSit(CloneAll(c, m, p, n, s).ovls, s.ovls)
  {
    if 2 * |s.ovls| <= MAX_HW_OVERLAYS {
      MirrorSits(c, p.current, s.ovls);
    }
    if 0 <= s.ixDocking < |s.ovls| {
      DockSits(c, p.current, s.ovls, s.ovls[s.ixDocking], s.ixDocking);
    }
    DockSits(c, p.current, s.ovls, DockImage(c), |s.ovls|);
  }

  lemma ClonesAbove(c: Config, m: Memory, ls: seq<Layer>)
    requires WellFormed(c) && Sane(m)
    ensures var f := Prepared(c, m, ls); ClonesSit(f.ovls, f.placement.ovls)
  {
    var n := Tally(c, ls, |ls|);
    var p := Decide(c, m, n);
    var mode := ChooseMode(c, p, n);
    var s := Finish(c, mode, Place(c, p, mode, ls, |ls|));
    PrimaryCount(c, m, ls);
    PlanBudget(c, m, n);
    CloneAllSits(c, m, p, n, s);
    AdjustSits(c, CloneAll(c, m, p, n, s).ovls, s.ovls);
  }

  // ---------------------------------------------------------------- the mirrored picture

  /** The overlays of the external display, which follow the `n` primary ones, numbered from zero. */
  function ExternalView(ovls: seq<Overlay>, n: nat): seq<Overlay>
    requires n <= |ovls|
  {
    seq(|ovls| - n, i requires 0 <= i < |ovls| - n => ovls[n + i].(mgr := 0, z := ovls[n + i].z - n))
  }

  /** The same overlays as far as stacking goes; what is left of `ovls` belongs to another display. */
  ghost predicate SameStack(ovls: seq<Overlay>, view: seq<Overlay>) {
    && |view| <= |ovls|
    && (forall i :: 0 <= i < |view| ==>
          ovls[i].layer == view[i].layer && ovls[i].z == view[i].z && ovls[i].mgr == view[i].mgr)
    && forall i :: |view| <= i < |ovls| ==> ovls[i].mgr != 0
  }

  lemma {:induction false} AtZSame(ovls: seq<Overlay>, view: seq<Overlay>, z: int, from: nat)
    requires SameStack(ovls, view) && from <= |ovls|
    ensures from >= |view| ==> AtZ(ovls, z, from) == |ovls|
    ensures from <= |view| ==>
              var i := AtZ(view, z, from); AtZ(ovls, z, from) == if i < |view| then i else |ovls|
    decreases |ovls| - from
  {
    if from < |ovls| {
      AtZSame(ovls, view, z, from + 1);
    }
  }

  lemma {:induction false} StackSame<C(!new)>(b: Blend<C>, pix: seq<Sample<C>>, fb: C, ovls: seq<Overlay>,
                                              view: seq<Overlay>, k: nat)
    requires SameStack(ovls, view)
    ensures Stack(b, pix, fb, ovls, k) == Stack(b, pix, fb, view, k)
  {
    if k > 0 {
      AtZSame(ovls, view, k - 1, 0);
      StackSame(b, pix, fb, ovls, view, k - 1);
    }
  }

  lemma MirrorStacks(c: Config, t: ExtTransform, primary: seq<Overlay>)
    requires 2 * |primary| <= MAX_HW_OVERLAYS && forall i :: 0 <= i < |primary| ==> primary[i].mgr == 0
    ensures var ovls := AdjustAll(c, MirrorUpTo(c, t, primary, |primary|));
            |ovls| == 2 * |primary| && SameStack(ovls, ExternalView(ovls, |primary|))
  {
    var r, n := MirrorUpTo(c, t, primary, |primary|), |primary|;
    MirrorCopies(c, t, primary, n);
    var ovls := AdjustAll(c, r);
    forall i | 0 <= i < n
      ensures ovls[i].layer == ovls[n + i].layer && ovls[i].z == ovls[n + i].z - n && ovls[i].mgr == 0
    {
      assert r[i] == r[..n][i];
    }
  }

  /** A frame mirrors if it has external overlays and does not dock. */
  ghost predicate Mirrors(f: Frame) { |f.ovls| > f.post2 && !f.plan.current.docking }

  lemma MirroredOverlays(c: Config, m: Memory, ls: seq<Layer>)
    requires WellFormed(c) && Sane(m) && Mirrors(Prepared(c, m, ls))
    ensures var f := Prepared(c, m, ls); var primary := f.placement.ovls;
            && 2 * |primary| <= MAX_HW_OVERLAYS && f.post2 == |primary|
            && f.ovls == AdjustAll(c, MirrorUpTo(c, f.plan.current, primary, |primary|))
  {
    HandoffStep(c, m, ls);
  }

  /** When mirroring, the clone of an overlay is what is left of it in the mirrored region, carried along by
      the external matrix, and comes from the same buffer. */
  lemma MirrorShown(c: Config, m: Memory, ls: seq<Layer>, j: nat)
    requires WellFormed(c) && Sane(m) && Mirrors(Prepared(c, m, ls)) && j < Prepared(c, m, ls).post2
    ensures var f := Prepared(c, m, ls); var t := f.plan.current;
            && |f.ovls| == 2 * f.post2 && f.ovls[f.post2 + j].ba == j
            && CarriesVisible(f.placement.ovls[j].geom, c.mirrorRegion, c.extM, t.rotation, t.hflip,
                              f.ovls[f.post2 + j].geom)
  {
    var f := Prepared(c, m, ls);
    MirroredOverlays(c, m, ls);
    MirrorCarries(c, f.plan.current, f.placement.ovls, j);
  }

  lemma MirrorCarries(c: Config, t: ExtTransform, primary: seq<Overlay>, j: nat)
    requires 2 * |primary| <= MAX_HW_OVERLAYS && j < |primary| && !t.docking
    ensures var n := |primary|; var ovls := AdjustAll(c, MirrorUpTo(c, t, primary, n));
            && |ovls| == 2 * n && ovls[n + j].ba == j
            && CarriesVisible(primary[j].geom, c.mirrorRegion, c.extM, t.rotation, t.hflip, ovls[n + j].geom)
  {
    MirrorCopies(c, t, primary, |primary|);
    AdjustExtCarries(ExtSettings(c, t), primary[j].geom);
  }

  /** When docking, the clone is the docked overlay, or the whole dock image, carried along uncropped. */
  lemma DockShown(c: Config, m: Memory, ls: seq<Layer>)
    requires var f := Prepared(c, m, ls); |f.ovls| > f.post2 && f.plan.current.docking
    ensures var f := Prepared(c, m, ls); var s, t := f.placement, f.plan.current;
            && |f.ovls| == f.post2 + 1 && s.ixDocking < f.post2
            && if s.ixDocking >= 0
               then f.ovls[f.post2].ba == s.ixDocking
                    && Carries(s.ovls[s.ixDocking].geom, c.extM, t.rotation, t.hflip, f.ovls[f.post2].geom)
               else exists g: Geom :: WholeImage(c, g) && Carries(g, c.extM, t.rotation, t.hflip, f.ovls[f.post2].geom)
  {
    var f := Prepared(c, m, ls);
    var s, t := f.placement, f.plan.current;
    PrimaryCount(c, m, ls);
    DockedIsLargest(c, m, ls);
    var o := if s.ixDocking >= 0 then s.ovls[s.ixDocking] else DockImage(c);
    AdjustExtCarries(ExtSettings(c, t), o.geom);
    assert WholeImage(c, DockImage(c).geom);
    var r := CloneAll(c, m, f.plan, f.counts, s).ovls;
    assert f.ovls[f.post2] == Adjusted(c, r[f.post2]);
  }

  ghost predicate WholeImage(c: Config, g: Geom) {
    g.enabled && g.rotation == 0 && !g.mirror && g.crop == g.win == Box(0, 0, c.dockImageWidth, c.dockImageHeight)
  }

  /** When mirroring, every overlay has its clone. */
  lemma EveryOverlayCloned(c: Config, m: Memory, ls: seq<Layer>)
    requires WellFormed(c) && Sane(m) && Mirrors(Prepared(c, m, ls))
    ensures var f := Prepared(c, m, ls); |f.ovls| == 2 * f.post2 && SameStack(f.ovls, ExternalView(f.ovls, f.post2))
  {
    var f := Prepared(c, m, ls);
    MirroredOverlays(c, m, ls);
    PrimaryManaged(c, m, ls);
    MirrorStacks(c, f.plan.current, f.placement.ovls);
  }

  /** When mirroring, stacking the external overlays by z-order shows what the primary display shows, at
      every pixel and for any blending. */
  lemma MirrorShowsSame<C(!new)>(b: Blend<C>, pix: seq<Sample<C>>, c: Config, m: Memory, ls: seq<Layer>)
    requires WellFormed(c) && Sane(m) && Mirrors(Prepared(c, m, ls))
    requires |pix| == |Prepared(c, m, ls).placement.composition|
    ensures var f := Prepared(c, m, ls); var fb := Rendered(b, pix, f.placement.composition, |pix|);
            Stack(b, pix, fb, ExternalView(f.ovls, f.post2), f.post2) == Displayed(b, pix, f)
  {
    var f := Prepared(c, m, ls);
    EveryOverlayCloned(c, m, ls);
    StackSame(b, pix, Rendered(b, pix, f.placement.composition, |pix|), f.ovls, ExternalView(f.ovls, f.post2), f.post2);
  }

  /** After every prepare, the z-orders are a permutation of 0..num_ovls-1. */
  lemma ZOrdersPermute(c: Config, m: Memory, ls: seq<Layer>)
    requires WellFormed(c) && Sane(m)
    ensures PermutesZ(Prepared(c, m, ls).ovls) && PermutesZ(Prepared(c, m, ls).shown)
  {
    var f := Prepared(c, m, ls);
    ClonesAbove(c, m, ls);
    PrimaryZ(c, m, ls);
    SitsPermutes(f.ovls, f.placement.ovls);
  }

  lemma SitsPermutes(ovls: seq<Overlay>, primary: seq<Overlay>)
    requires ClonesSit(ovls, primary) && PermutesZ(primary)
    ensures PermutesZ(ovls)
  {
    assert forall i :: 0 <= i < |primary| ==> ovls[i].z == primary[i].z;
  }

  // ---------------------------------------------------------------- hardware pipes

  /** Is the GFX pipe left free?  (The framebuffer is transformed, or all layers need scaling.) */
  function GfxSkipped(c: Config, f: Frame): nat {
    if c.primaryTransform || (!f.mode.useSgx && f.placement.scaledGfx) then 1 else 0
  }

  ghost predicate ShowsScaled(ls: seq<Layer>, o: Overlay) {
    0 <= o.layer < |ls| && NeedsScaler(ls[o.layer])
  }

  /** No layer uses the GFX pipe: pipes follow the slots. */
  ghost predicate Shifted(c: Config, ovls: seq<Overlay>, scaledGfx: bool, first: nat) {
    !scaledGfx && forall i :: first <= i < |ovls| ==> ovls[i].ix == i + Skip(c)
  }

  ghost predicate Needy(ls: seq<Layer>, o: Overlay) {
    0 <= o.layer < |ls| && NeedsScaler(ls[o.layer])
  }

  ghost predicate DistinctIx(ovls: seq<Overlay>) {
    && (forall i :: 0 <= i < |ovls| ==> 0 <= ovls[i].ix < |ovls|)
    && (forall i, j :: 0 <= i < j < |ovls| ==> ovls[i].ix != ovls[j].ix)
  }

  /** While GFX would have to scale, every layer so far needs a scaler. */
  ghost predicate OnGfx(ovls: seq<Overlay>, scaledGfx: bool, ls: seq<Layer>) {
    if scaledGfx then |ovls| > 0 && ovls[0].ix == 0 && forall i :: 0 <= i < |ovls| ==> Needy(ls, ovls[i])
    else forall i :: 0 <= i < |ovls| && ovls[i].ix == 0 ==> !Needy(ls, ovls[i])
  }

  /** Pipes during placement. */
  ghost predicate Piped(c: Config, mode: Mode, s: Placement, ls: seq<Layer>, k: nat) {
    var first := if mode.useSgx then 1 else 0;
    && k <= |ls| && |s.ovls| >= first
    && (forall i :: first <= i < |s.ovls| ==> 0 <= s.ovls[i].layer < k)
    && if c.primaryTransform || mode.useSgx then Shifted(c, s.ovls, s.scaledGfx, first)
       else DistinctIx(s.ovls) && OnGfx(s.ovls, s.scaledGfx, ls)
  }

  /** Without the GFX pipe for layers. */
  lemma {:induction false} AcceptShifted(c: Config, mode: Mode, s: Placement, ls: seq<Layer>, k: nat)
    requires k < |ls| && Piped(c, mode, s, ls, k) && (c.primaryTransform || mode.useSgx)
    ensures Piped(c, mode, Accept(c, mode, s, ls[k], k), ls, k + 1)
  {
  }

  /** The new overlay takes the GFX pipe over from the first one. */
  lemma {:induction false} Swapped(ovls: seq<Overlay>, ls: seq<Layer>, o: Overlay)
    requires DistinctIx(ovls) && OnGfx(ovls, true, ls) && !Needy(ls, o)
    ensures var r := ovls[0 := ovls[0].(ix := |ovls|)] + [o.(ix := 0)]; DistinctIx(r) && OnGfx(r, false, ls)
  {
    var r := ovls[0 := ovls[0].(ix := |ovls|)] + [o.(ix := 0)];
    forall i | 0 <= i < |r|
      ensures r[i].ix == if i == 0 then |ovls| else if i < |ovls| then ovls[i].ix else 0
    {
    }
  }

  /** The new overlay takes the next pipe. */
  lemma {:induction false} Behind(ovls: seq<Overlay>, scaledGfx: bool, ls: seq<Layer>, o: Overlay)
    requires |ovls| > 0 && DistinctIx(ovls) && OnGfx(ovls, scaledGfx, ls) && (scaledGfx ==> Needy(ls, o))
    requires o.ix == |ovls|
    ensures DistinctIx(ovls + [o]) && OnGfx(ovls + [o], scaledGfx, ls)
  {
  }

  lemma {:induction false} AcceptOnGfx(c: Config, mode: Mode, s: Placement, ls: seq<Layer>, k: nat)
    requires k < |ls| && Piped(c, mode, s, ls, k) && !(c.primaryTransform || mode.useSgx)
    ensures var s' := Accept(c, mode, s, ls[k], k); DistinctIx(s'.ovls) && OnGfx(s'.ovls, s'.scaledGfx, ls)
  {
    var o := LayerOverlay(c, s, ls[k], k);
    assert Needy(ls, o) <==> NeedsScaler(ls[k]);
    if |s.ovls| == 0 {
    } else if s.scaledGfx && !NeedsScaler(ls[k]) {
      Swapped(s.ovls, ls, o);
    } else {
      Behind(s.ovls, s.scaledGfx, ls, o);
    }
  }

  lemma {:induction false} AcceptPiped(c: Config, mode: Mode, s: Placement, ls: seq<Layer>, k: nat)
    requires k < |ls| && Piped(c, mode, s, ls, k)
    ensures Piped(c, mode, Accept(c, mode, s, ls[k], k), ls, k + 1)
  {
    if c.primaryTransform || mode.useSgx {
      AcceptShifted(c, mode, s, ls, k);
    } else {
      AcceptOnGfx(c, mode, s, ls, k);
    }
  }

  lemma {:induction false} RejectPiped(c: Config, mode: Mode, s: Placement, ls: seq<Layer>, k: nat)
    requires k < |ls| && Piped(c, mode, s, ls, k)
    ensures Piped(c, mode, Reject(mode, s), ls, k + 1)
  {
  }

  lemma {:induction false} PlaceOnePiped(c: Config, p: Plan, mode: Mode, s: Placement, ls: seq<Layer>, k: nat)
    requires k < |ls| && Piped(c, mode, s, ls, k)
    ensures Piped(c, mode, PlaceOne(c, p, mode, s, ls[k], k), ls, k + 1)
  {
    AcceptPiped(c, mode, s, ls, k);
    RejectPiped(c, mode, s, ls, k);
  }

  lemma {:induction false} PlacePiped(c: Config, p: Plan, mode: Mode, ls: seq<Layer>, k: nat)
    requires k <= |ls|
    ensures Piped(c, mode, Place(c, p, mode, ls, k), ls, k)
  {
    var inv := (s: Placement, i: nat) => Piped(c, mode, s, ls, i);
    forall s: Placement, i: nat | i < |ls| && inv(s, i) ensures inv(PlaceOne(c, p, mode, s, ls[i], i), i + 1) {
      PlaceOnePiped(c, p, mode, s, ls, i);
    }
    PlaceKeeps(c, p, mode, ls, k, inv);
  }

  /** Primary pipes are pairwise distinct and fill [s, s + n), where s = 1 if GFX is skipped; the
      GFX pipe never carries a layer that needs scaling. */
  lemma PrimaryPipes(c: Config, m: Memory, ls: seq<Layer>)
    ensures var f := Prepared(c, m, ls); var ovls, s := f.placement.ovls, GfxSkipped(c, f);
            && (forall i :: 0 <= i < |ovls| ==> s <= ovls[i].ix < s + |ovls|)
            && (forall i, j :: 0 <= i < j < |ovls| ==> ovls[i].ix != ovls[j].ix)
            && (forall i :: 0 <= i < |ovls| && ovls[i].ix == 0 ==> !ShowsScaled(ls, ovls[i]))
  {
    var f := Prepared(c, m, ls);
    PlacePiped(c, f.plan, f.mode, ls, |ls|);
    PlaceTracked(c, f.plan, f.mode, ls, |ls|);
    PlaceLayered(c, f.plan, f.mode, ls, |ls|);
  }

  /** Pixel for pixel: the window has the size of the crop rectangle, as turned. */
  ghost predicate Unscaled(g: Geom) {
    if Odd(g.rotation) then g.win.w == g.crop.h && g.win.h == g.crop.w else g.win.w == g.crop.w && g.win.h == g.crop.h
  }

  predicate Video(l: Layer) { l.handle.Some? && l.handle.value.format in {NV12, NV12_1D} }

  /** The GFX pipe cannot scale, nor convert video buffers, and never has to. */
  lemma GfxNeverScales(c: Config, m: Memory, ls: seq<Layer>, j: nat)
    requires var ovls := Prepared(c, m, ls).placement.ovls; j < |ovls| && ovls[j].ix == 0
    ensures var o := Prepared(c, m, ls).placement.ovls[j];
            && Unscaled(o.geom)
            && (o.layer != FRAMEBUFFER ==> 0 <= o.layer < |ls| && !Video(ls[o.layer]))
  {
    var o := Prepared(c, m, ls).placement.ovls[j];
    PrimaryPipes(c, m, ls);
    OverlaysDepictLayers(c, m, ls);
    FramebufferShown(c, m, ls);
    assert DepictedAt(o, j, ls);
    if o.layer != FRAMEBUFFER {
      DepictedUnscaled(o.geom, ls[o.layer]);
    }
  }

  lemma DepictedUnscaled(g: Geom, l: Layer)
    requires Depicts(g, l) && !NeedsScaler(l)
    ensures Unscaled(g)
  {
    var n := Pt(1.0, 0.0);
    assert Mirrored(Turn(n, g.rotation), g.mirror) == Flagged(l.transform, n);
    assert Odd(g.rotation) <==> l.transform.rot90;
  }

  ghost predicate DistinctPipes(ovls: seq<Overlay>) {
    && (forall i :: 0 <= i < |ovls| ==> 0 <= ovls[i].ix < MAX_HW_OVERLAYS)
    && (forall i, j :: 0 <= i < j < |ovls| ==> ovls[i].ix != ovls[j].ix)
  }

  /** With `s` pipes skipped at the bottom, primary overlays and clones collide (or run off the end)
      exactly when there are too many of them. */
  lemma PipesFit(ovls: seq<Overlay>, primary: seq<Overlay>, s: nat)
    requires ClonesSit(ovls, primary) && s <= 1 && |ovls| <= MAX_HW_OVERLAYS
    requires forall i :: 0 <= i < |primary| ==> s <= primary[i].ix < s + |primary|
    requires forall i, j :: 0 <= i < j < |primary| ==> primary[i].ix != primary[j].ix
    ensures DistinctPipes(ovls) <==> s + |ovls| <= MAX_HW_OVERLAYS
  {
    assert forall i :: 0 <= i < |primary| ==> ovls[i].ix == primary[i].ix;
    if s + |ovls| > MAX_HW_OVERLAYS {
      // four overlays, but none may use pipe 0
      assert ovls[0].ix >= 1 && ovls[1].ix >= 1 && ovls[2].ix >= 1 && ovls[3].ix >= 1;
    }
  }

  /** Without the GPU, a GFX pipe that still scales means that every overlay is a counted scaler. */
  lemma {:induction false} ScaledAreCounted(c: Config, p: Plan, mode: Mode, ls: seq<Layer>, k: nat)
    requires k <= |ls| && !c.primaryTransform && !mode.useSgx
    ensures var s := Place(c, p, mode, ls, k);
            s.scaledGfx ==> |s.ovls| <= Tally(c, ls, k).scaled
  {
    if k > 0 {
      ScaledAreCounted(c, p, mode, ls, k - 1);
    }
  }

  /** The plan's share of pipes, with `s` skipped. */
  lemma PlanPipes(c: Config, m: Memory, n: Counts)
    requires WellFormed(c) && Sane(m)
    ensures var p := Decide(c, m, n);
            && (c.primaryTransform ==> 1 + Max(1, p.maxHw) + p.wanted <= MAX_HW_OVERLAYS || !p.current.docking)
            && (c.primaryTransform ==> 1 + Max(1, p.maxHw) <= MAX_HW_OVERLAYS)
            && (c.primaryTransform && MayClone(p, n) && !p.current.docking ==> Max(1, p.maxHw) == 1)
            && (!c.primaryTransform && p.current.docking && p.current.enabled ==>
                  1 + p.maxScaling + p.wanted <= MAX_HW_OVERLAYS)
            && (!c.primaryTransform ==> 1 + p.maxScaling <= MAX_HW_OVERLAYS)
            && (!c.primaryTransform && MayClone(p, n) && !p.current.docking ==> p.maxScaling == p.maxHw <= 2)
  {
  }

  /** Pipes run out only when a two-overlay primary picture that leaves GFX free is mirrored. */
  lemma PipeBudget(c: Config, m: Memory, ls: seq<Layer>)
    requires WellFormed(c) && Sane(m)
    ensures var f := Prepared(c, m, ls);
            GfxSkipped(c, f) + |f.ovls| > MAX_HW_OVERLAYS <==>
              && !c.primaryTransform && !f.mode.useSgx && f.placement.scaledGfx
              && f.post2 == 2 && External(f) == 2
  {
    var f := Prepared(c, m, ls);
    HandoffStep(c, m, ls);
    PrimaryCount(c, m, ls);
    PlanPipes(c, m, f.counts);
    if !c.primaryTransform && !f.mode.useSgx {
      ScaledAreCounted(c, f.plan, f.mode, ls, |ls|);
    }
  }

  /** The one situation in which the allocator assigns a hardware pipe twice: two layers that both
      need scaling are mirrored without the GPU. */
  predicate MirrorsTwoScaled(c: Config, m: Memory, ls: seq<Layer>) {
    var n := Tally(c, ls, |ls|);
    var p := Decide(c, m, n);
    && !c.primaryTransform && CanRenderAll(c, p, n)
    && MayClone(p, n) && !p.current.docking && !(m.last.docking && !c.mirrorModeOk)
    && |ls| == 2 && NeedsScaler(ls[0]) && NeedsScaler(ls[1])
    && !Unplaceable(c, p, ls[0]) && !Unplaceable(c, p, ls[1])
  }

  /** A layer left to the GPU takes no overlay. */
  lemma {:induction false} FullStep(c: Config, p: Plan, mode: Mode, s: Placement, l: Layer, k: nat)
    requires !mode.useSgx && |s.ovls| <= k && |PlaceOne(c, p, mode, s, l, k).ovls| == k + 1
    ensures |s.ovls| == k && PlaceOne(c, p, mode, s, l, k) == Accept(c, mode, s, l, k)
  {
  }

  lemma {:induction false} FullPlacement(c: Config, p: Plan, mode: Mode, ls: seq<Layer>, k: nat)
    requires k <= |ls| && !mode.useSgx && |Place(c, p, mode, ls, k).ovls| == k
    ensures var s := Place(c, p, mode, ls, k);
            |s.composition| == k && forall i :: 0 <= i < k ==> s.composition[i] != Gpu
  {
    if k > 0 {
      var s := Place(c, p, mode, ls, k - 1);
      PlaceWithinLimits(c, p, mode, ls, k - 1);
      assert Place(c, p, mode, ls, k) == PlaceOne(c, p, mode, s, ls[k - 1], k - 1);
      FullStep(c, p, mode, s, ls[k - 1], k - 1);
      FullPlacement(c, p, mode, ls, k - 1);
    }
  }

  lemma PipeZeroUsed(ovls: seq<Overlay>)
    requires |ovls| == 2 && ovls[0].ix != ovls[1].ix
    requires forall i :: 0 <= i < 2 ==> 0 <= ovls[i].ix < 2
    ensures exists i :: 0 <= i < 2 && ovls[i].ix == 0
  {
    assert ovls[0].ix == 0 || ovls[1].ix == 0;
  }

  /** Two layers that both need scaling: the GFX pipe still has to scale. */
  lemma BothOnGfx(c: Config, p: Plan, mode: Mode, ls: seq<Layer>)
    requires |ls| == 2 && NeedsScaler(ls[0]) && NeedsScaler(ls[1]) && !c.primaryTransform && !mode.useSgx
    requires var s := Place(c, p, mode, ls, 2); forall i :: 0 <= i < |s.composition| ==> s.composition[i] != Gpu
    ensures var s := Place(c, p, mode, ls, 2); |s.ovls| == 2 && s.scaledGfx
  {
    var s := Place(c, p, mode, ls, 2);
    PlacePiped(c, p, mode, ls, 2);
    PlaceInOrder(c, p, mode, ls, 2);
    PipeZeroUsed(s.ovls);
  }

  lemma TwoScaledCollide(c: Config, m: Memory, ls: seq<Layer>)
    requires WellFormed(c) && Sane(m) && MirrorsTwoScaled(c, m, ls)
    ensures var f := Prepared(c, m, ls);
            !f.mode.useSgx && f.placement.scaledGfx && f.post2 == 2 && External(f) == 2
  {
    var f := Prepared(c, m, ls);
    AggregateImpliesGreedy(c, m, ls);
    assert AllPlaced(f);
    BothOnGfx(c, f.plan, f.mode, ls);
    MirrorFits(c, f.plan.current, f.placement.ovls, 2);
  }

  lemma CollisionsMirrorTwoScaled(c: Config, m: Memory, ls: seq<Layer>)
    requires WellFormed(c) && Sane(m)
    requires var f := Prepared(c, m, ls);
             !c.primaryTransform && !f.mode.useSgx && f.placement.scaledGfx && f.post2 == 2 && External(f) == 2
    ensures MirrorsTwoScaled(c, m, ls)
  {
    var f := Prepared(c, m, ls);
    HandoffStep(c, m, ls);
    PlanPipes(c, m, f.counts);
    TallySays(c, ls, |ls|);
    PlaceWithinLimits(c, f.plan, f.mode, ls, |ls|);
    assert |ls| == 2;
    FullPlacement(c, f.plan, f.mode, ls, 2);
    PlaceInOrder(c, f.plan, f.mode, ls, 2);
    PlacePiped(c, f.plan, f.mode, ls, 2);
    AggregateImpliesGreedy(c, m, ls);
    var s := Place(c, f.plan, f.mode, ls, 2);
    assert s.ovls[0].layer == 0 && s.ovls[1].layer == 1;
  }

  /** All overlays of a frame sit on pairwise distinct existing pipes, except when two scaled layers
      are mirrored. */
  lemma PipesExactly(c: Config, m: Memory, ls: seq<Layer>)
    requires WellFormed(c) && Sane(m)
    ensures DistinctPipes(Prepared(c, m, ls).ovls) <==> !MirrorsTwoScaled(c, m, ls)
  {
    var f := Prepared(c, m, ls);
    HandoffStep(c, m, ls);
    ClonesAbove(c, m, ls);
    PrimaryPipes(c, m, ls);
    PipesFit(f.ovls, f.placement.ovls, GfxSkipped(c, f));
    PipeBudget(c, m, ls);
    if MirrorsTwoScaled(c, m, ls) {
      TwoScaledCollide(c, m, ls);
    } else if GfxSkipped(c, f) + |f.ovls| > MAX_HW_OVERLAYS {
      CollisionsMirrorTwoScaled(c, m, ls);
    }
  }

  // ---------------------------------------------------------------- concrete failing inputs

  const NO_EXT := ExtTransform(0, false, false, false)

  /** Limits of a display controller, and a panel without pixel clock. */
  const LIMITS: Limits := PlatformLimits(170000000, 16, 16, 16, 16, 2, 4, 2048, 1000000)

  const PANEL := Display(false, 0)

  /** A device without external display, GPU workaround or primary transform. */
  function PlainConfig(): Config {
    var none := Rect(0, 0, 0, 0);
    Config(PlatformScaling(LIMITS, PANEL), LIMITS.tilerSlotSize, false, false, 2.0, false, false, false, 0, none, UNIT,
           NO_EXT, NO_EXT, false, false, none, UNIT, true, true, false, BGRA8888, 64, 64, 64, 64)
  }

  function PlainLayer(f: Format, r: Rect): Layer {
    Layer(false, Some(Handle(f, 32, 32, false, false)), Transform(false, false, false), Opaque, Rect(0, 0, 32, 32), r)
  }

  /** A layer meant for the external display. */
  function DockedLayer(f: Format, r: Rect): Layer {
    Layer(false, Some(Handle(f, 32, 32, false, true)), Transform(false, false, false), Opaque, Rect(0, 0, 32, 32), r)
  }

  /** The numbers that the scaling test is asked about. */
  lemma {:induction false} ScaledBy(l: Layer, limits: Limits, dis: Display, w: nat, h: nat, w': nat, h': nat)
    requires l.handle.Some? && SourceSize(l) == (w, h) && Width(l.frame) == w' && Height(l.frame) == h'
    requires U32(w) == w && U32(h) == h && U32(w') == w' && U32(h') == h'
    requires CanScale(w, h, w', h', IsNV12(l.handle.value), dis, limits, dis.pclk,
                      Some(BitsPerPixel(l.handle.value.format)))
    ensures CanScaleLayer(limits, dis, l)
  {
  }

  lemma PanelNumbers()
    ensures CanScale(32, 32, 32, 32, false, PANEL, LIMITS, PANEL.pclk, Some(32))
    ensures CanScale(32, 32, 64, 64, false, PANEL, LIMITS, PANEL.pclk, Some(32))
    ensures CanScale(32, 32, 32, 32, true, PANEL, LIMITS, PANEL.pclk, Some(8))
  {
  }

  /** The panel can show these layers, as they are or twice as large. */
  lemma PanelShows()
    ensures PlainConfig().canScale(PlainLayer(RGBX8888, Rect(0, 0, 32, 32)))
    ensures PlainConfig().canScale(PlainLayer(BGRX8888, Rect(0, 0, 64, 64)))
    ensures PlainConfig().canScale(PlainLayer(NV12, Rect(0, 0, 32, 32)))
    ensures PlainConfig().canScale(DockedLayer(BGRX8888, Rect(0, 0, 32, 32)))
  {
    PanelNumbers();
    ScaledBy(PlainLayer(RGBX8888, Rect(0, 0, 32, 32)), LIMITS, PANEL, 32, 32, 32, 32);
    ScaledBy(PlainLayer(BGRX8888, Rect(0, 0, 64, 64)), LIMITS, PANEL, 32, 32, 64, 64);
    ScaledBy(PlainLayer(NV12, Rect(0, 0, 32, 32)), LIMITS, PANEL, 32, 32, 32, 32);
    ScaledBy(DockedLayer(BGRX8888, Rect(0, 0, 32, 32)), LIMITS, PANEL, 32, 32, 32, 32);
  }

  lemma TallyOne(c: Config, l: Layer)
    ensures Tally(c, [l], 1) == CountLayer(c, NO_COUNTS.(composited := 1), l)
  {
    assert Tally(c, [l], 0) == NO_COUNTS.(composited := 1);
  }

  lemma TallyTwo(c: Config, l: Layer)
    ensures Tally(c, [l, l], 2) == CountLayer(c, CountLayer(c, NO_COUNTS.(composited := 2), l), l)
  {
    assert Tally(c, [l, l], 1) == CountLayer(c, NO_COUNTS.(composited := 2), l);
  }

  lemma {:induction false} PlainValid(c: Config, f: Format, r: Rect)
    requires c.canScale(PlainLayer(f, r)) && c.tilerSlotSize == 1000000 && (f.RGBX8888? || f.BGRX8888?)
    ensures ValidLayer(c.canScale, c.tilerSlotSize, PlainLayer(f, r))
  {
    PlainMem(PlainLayer(f, r));
  }

  /** What the statistics see of a layer: its red-blue order, and whether it needs a scaler. */
  ghost predicate OfKind(l: Layer, bgr: bool, scaled: bool) {
    && l.handle.Some? && IsBGR(l.handle.value) == bgr && IsRGB(l.handle.value) == !bgr && !IsNV12(l.handle.value)
    && !Dockable(l) && !Protected(l) && NeedsScaler(l) == scaled
  }

  lemma {:induction false} PlainKind(l: Layer)
    requires l.handle.Some? && (l.handle.value.format.RGBX8888? || l.handle.value.format.BGRX8888?)
    requires !l.handle.value.isProtected && !l.handle.value.externalDisplay
    ensures OfKind(l, l.handle.value.format.RGBX8888?, Scaled(l))
  {
  }

  lemma {:induction false} CountKind(c: Config, n: Counts, l: Layer, bgr: bool, scaled: bool)
    requires ValidLayer(c.canScale, c.tilerSlotSize, l) && OfKind(l, bgr, scaled) && !c.primaryTransform
    ensures CountLayer(c, n, l) ==
            n.(possible := n.possible + 1, scaled := n.scaled + (if scaled then 1 else 0),
               bgr := n.bgr + (if bgr then 1 else 0), rgb := n.rgb + (if bgr then 0 else 1),
               mem := n.mem + Mem1d(l.handle))
  {
  }

  lemma PlainMem(l: Layer)
    requires l.handle.Some? && (l.handle.value.format.RGBX8888? || l.handle.value.format.BGRX8888?)
    requires l.handle.value.width == 32 && l.handle.value.height == 32
    ensures Mem1d(l.handle) == 4096
  {
    assert Align32(32) == 32;
  }

  function BlankMemory(): Memory { Memory(0, 0, 0, NO_EXT, NO_EXT) }

  /** On a TV, without the consistent-order flag, an RGBx layer passes the aggregate check, so the
      GPU is switched off, yet no overlay accepts it: it is shown by nobody. */
  lemma AggregateCheckMissesTv() returns (c: Config, m: Memory, ls: seq<Layer>)
    ensures WellFormed(c) && Sane(m) && !Prepared(c, m, ls).mode.useSgx && !AllPlaced(Prepared(c, m, ls))
  {
    c, m := PlainConfig().(onTv := true), BlankMemory();
    var r := Rect(0, 0, 32, 32);
    var l := PlainLayer(RGBX8888, r);
    ls := [l];
    PanelShows();
    TallyOne(c, l);
    PlainValid(c, RGBX8888, r);
    PlainKind(l);
    PlainMem(l);
    CountKind(c, NO_COUNTS.(composited := 1), l, true, false);
    var n := Tally(c, ls, 1);
    assert n == Counts(1, 1, 0, 0, 1, 0, 0, 0, 4096);
    var p := Decide(c, m, n);
    assert p == Plan(NO_EXT, 0, 0, 4, 3);
    TvMissed(c, m, l);
  }

  /** Docked on a rotated external display, next to an NV12 layer, a BGRx layer meant for that display
      passes the aggregate check, so the GPU is switched off, yet no overlay accepts it. */
  lemma AggregateCheckMissesDocked() returns (c: Config, m: Memory, ls: seq<Layer>)
    ensures WellFormed(c) && Sane(m) && !Prepared(c, m, ls).mode.useSgx && !AllPlaced(Prepared(c, m, ls))
  {
    var t := ExtTransform(1, false, true, true);
    c, m := PlainConfig().(dock := t), BlankMemory();
    var video, docked := PlainLayer(NV12, Rect(0, 0, 32, 32)), DockedLayer(BGRX8888, Rect(0, 0, 32, 32));
    ls := [video, docked];
    var n0 := NO_COUNTS.(composited := 2);
    assert Tally(c, ls, 0) == n0;
    PanelShows();
    PlainMem(docked);
    var n1 := CountLayer(c, n0, video);
    assert n1 == Counts(1, 2, 1, 0, 0, 1, 0, 0, 0);
    assert Tally(c, ls, 1) == n1;
    assert CountLayer(c, n1, docked) == Counts(2, 2, 1, 1, 0, 1, 1, 0, 4096);
    assert Tally(c, ls, 2) == CountLayer(c, n1, docked);
    assert Decide(c, m, Tally(c, ls, 2)) == Plan(t, 1, 1, 3, 2);
    assert Unplaceable(c, Plan(t, 1, 1, 3, 2), ls[1]);
    AggregateImpliesGreedy(c, m, ls);
  }

  lemma TvMissed(c: Config, m: Memory, l: Layer)
    requires var n := Tally(c, [l], 1); var p := Decide(c, m, n);
             CanRenderAll(c, p, n) && Unplaceable(c, p, l)
    ensures !Prepared(c, m, [l]).mode.useSgx && !AllPlaced(Prepared(c, m, [l]))
  {
    AggregateImpliesGreedy(c, m, [l]);
    assert [l][0] == l;
  }

  /** Mirroring two scaled layers assigns a pipe twice. */
  lemma MirroringTwoScaledCollides() returns (c: Config, m: Memory, ls: seq<Layer>)
    ensures WellFormed(c) && Sane(m) && !DistinctPipes(Prepared(c, m, ls).ovls)
  {
    var t := ExtTransform(0, false, true, false);
    c, m := PlainConfig().(mirror := t), BlankMemory();
    var r := Rect(0, 0, 64, 64);
    var l := PlainLayer(BGRX8888, r);
    ls := [l, l];
    PanelShows();
    TallyTwo(c, l);
    var n0 := NO_COUNTS.(composited := 2);
    PlainValid(c, BGRX8888, r);
    PlainKind(l);
    PlainMem(l);
    CountKind(c, n0, l, false, true);
    CountKind(c, CountLayer(c, n0, l), l, false, true);
    var n := Tally(c, ls, 2);
    assert n == Counts(2, 2, 2, 2, 0, 0, 0, 0, 8192);
    assert Decide(c, m, n) == Plan(t, 2, 2, 2, 2);
    assert MirrorsTwoScaled(c, m, ls);
    PipesExactly(c, m, ls);
  }
}
