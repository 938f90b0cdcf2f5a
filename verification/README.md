# A verified model of the OMAP4 display, camera and audio HALs

The project models the parts of the repository that hold protocols, in-place buffer handling and
fixed-point arithmetic, and proves what they promise.  `dafny verify dfyconfig.toml` checks it.

## What is modelled

**Hardware composer** (`hwc/hwc.c`, built without S3D and with the blitter disabled).  Each frame an
arbitrary layer list is split between four display overlays and the GPU framebuffer; z-orders and
pipes are assigned, overlays are cloned to an external display, and the overlay counts of both
displays are remembered for the next frame.

- `hwc_crop.dfy`, `hwc_geometry.dfy`: cropping, reorientation matrices, rotate/mirror algebra.
- `hwc_layers.dfy`, `hwc_composer.dfy`: layer predicates, the allocator as functions, and the class
  `ComposerDevice`, whose routines update their fields in loops and equal those functions.
- `hwc_composition.dfy`: what the overlays show is what the layers say.
- `hwc_shown.dfy`: where on either display they show it; `hwc_choice.dfy`: which layers get overlays.
- `hwc_budget.dfy`: the aggregate check against the greedy loop.
- `hwc_handoff.dfy`: handing overlays over between displays in whole runs, z-orders and pipes.
- `hdmi_mode.dfy`: the choice of the HDMI mode.
- `wrappers.dfy`: the option type that several components share.

**Camera.**  `camera_frames.dfy`: reference counts of frames, over all interleavings of deliveries,
callbacks, returns and recording.  `camera_states.dfy`: the transactional state machine (built with
OMAP_ENHANCEMENT_CPCAM).  `decoder.dfy`: buffer exchange with the OMX component.  `pixels.dfy`: from a
padded NV12 frame to the encoder's rows on two paths.  `resize.dfy`: the fixed-point resizer.

**Audio** (`audio/audio_hw.c`).  `audio_capture.dfy`: driver periods, in-place channel removal and
left-over buffer as one queue.  `audio_processing.dfy`: pre-processing against the echo reference.
`echo_reference.dfy`: lifetime of the shared echo reference.

**Software vsync.**  `sw_vsync.dfy`.

Routines that update state are classes and methods proved against specification functions; whole-run
properties are lemmas about those functions.  Drivers, hooks, effects and the OMX component are
parameters: any sequence of their answers is allowed.

## What the proofs found

- Composition preserves the picture with the GPU in use, without any hypothesis on layers or history.
  Without the GPU it does so whenever the greedy loop places every layer.  The aggregate check
  (`hwc/hwc.c:1088-1111`) does not imply that by itself: it ignores TV output when RGB order is not
  enforced, and it lets a docked non-NV12 layer pass under an external transform as long as there is
  some NV12 layer.  `AggregateImpliesGreedy` states the exact condition, `AggregateCheckMissesTv` and
  `AggregateCheckMissesDocked` are failing frames.  With consistent RGB order, and NV12 wherever docking
  transforms, the picture is always right (`ConsistentLayersAreShown`).
- The `-EBUSY` guard of `clone_layer` never fires.
- Two overlays of one frame share a pipe exactly when two layers that both need scaling are mirrored
  (`PipesExactly`); a failing frame is `MirroringTwoScaledCollides`.
- The 640x480 default of `set_best_hdmi_mode` is dead code.
- Frame counts refill a buffer once per delivery, after its last frame has come back, exactly if the
  mask has only one type unless recording, and never both image and raw, which share a count
  (`DeliverKeepsExactly`, `DeliveryRefillsOnceExactly`).  For any mask, the buffer is refilled once for
  each count that runs out, or, while recording, once when all have (`DeliveryRefills`); failing runs are
  `TwoTypesFillTwice` and `SharedMapFillsEarly`.
- `stopVideoCapture` takes one video frame per buffer, which clears the counts only if none exceeds one
  (`StopClearsVideo`, `StopLeavesSecond`, and `HeldTwiceReached` for the run).
- `sendCommand` runs the hook of a refused command, and reports its result, for four of the five
  commands that hand over buffers (`RefusedBuffersReportSuccess`); the state is unharmed.
  `rollbackToInitializedState` gives up in the loaded states (`LoadedPreviewNotHandled`), although
  commands lead back from each of them.  The constructor does not initialise the pending target; the
  model starts with it equal to the state.  Any other value would be committed if and only if the first
  command that gets to `setState` hands over preview data, capture or video buffers and its hook
  succeeds (`UninitialisedTargetExactly`).
- An input buffer is marked as submitted without being with the component exactly if its filled length
  exceeds the component's buffer size or the component refuses it (`WaitingElsewhereExactly`,
  `WaitingIsHeldIfFits`); it is then never dequeued (`RefusedIsStuck`).  A failing input is
  `OversizedIsStuck`.
- `flush` of the decoder has an effect only after `stop`.
- A capture error loses the frames that the failing call had already copied: what was left in the
  buffer and all periods of that call.  Nothing is lost exactly if nothing was left and the failure came
  first (`ReadFrames`); `LosingCall` loses a frame.
- A failed input start keeps its echo reference; it is used or replaced by the next start.
- The NV21 path loses one byte per chroma row on an odd stride, so the two encoding paths disagree on
  images of more than two rows.
- The resizer reads chroma outside the image from about twofold enlargement on.  Its chroma rows drift
  exactly if the output width is odd and above one and there are at least two of them
  (`ChromaInPlaceExactly`); failing images are those of `ThreeColumnsDrift`.

## Model

| member | source | states |
|---|---|---|
| HwcComposition.GpuCompositionPreservesMeaning | hwc/hwc.c:1655-1779 | when the GPU composes, then for every layer list, configuration, history, pixel and lawful blending, stacking the primary overlays by z-order with the framebuffer at its own z-order shows what painting all layers back to front shows |
| HwcComposition.OverlayCompositionPreservesMeaning | hwc/hwc.c:1611-1614 | without the GPU the picture is the same whenever every layer was given an overlay, for any blending at all |
| HwcComposition.PlaceShows | hwc/hwc.c:1655-1733 | the invariant of the placement loop: overlays below the framebuffer, framebuffer and overlays above it always show the layers handled so far; blended overlays all precede the first GPU layer |
| HwcComposition.PlaceInOrder | hwc/hwc.c:1655-1721 | without the GPU, slot, z-order and layer index coincide as long as no layer is left out |
| HwcComposition.PreparedExtends | hwc/hwc.c:1824-1845 | cloning and the primary transform leave number, z-order, layer and manager of the primary overlays alone |
| HwcComposer.PlaceLayered | hwc/hwc.c:1720-1731 | z-orders during placement are the list order with exactly one gap, at the framebuffer |
| HwcShown.OverlaysDepictLayers | hwc/hwc.c:461-492 | in every frame, for every overlay but the framebuffer: its window spans the place of the layer on the screen, its crop the part of the buffer, it is oriented as the three transform flags say, and comes from the buffer of its slot |
| HwcShown.DepictsPoints | hwc/hwc.c:461-492 | so each source point is shown where the flags put it in the frame of the layer |
| HwcShown.FramebufferShown | hwc/hwc.c:1757-1773 | the framebuffer, shown whole, has an overlay exactly when the GPU composes, and that is slot 0 |
| HwcShown.PrimaryShown | hwc/hwc.c:705-719 | the primary display gets the overlays of the placement; if it is transformed, what is left of them in its region, carried along by its matrix |
| HwcShown.CarriesPoints | hwc/hwc.c:668-703 | carrying along means that every source point moves with a matrix that turns, flips and scales |
| HwcChoice.ChosenExactly | hwc/hwc.c:1655-1732 | in every frame, a layer gets an overlay if and only if it suits one (format, transform, TV, order of colours, forced GPU) and there is room: overlays and memory left by the layers before it, and, if blended, none of those left to the GPU |
| HwcChoice.GpuOffExactly | hwc/hwc.c:1088-1111 | in every frame, the GPU stays off if and only if it is not forced and the overlays suffice for all layers, as the numbers of layers of each sort; and when red goes first on the display |
| HwcChoice.CheckPassesExactly | hwc/hwc.c:1088-1111 | the aggregate check on counts says exactly that |
| HwcLayers.UnscaledFits | hwc/hwc.c:720-766 | an unscaled picture can be shown, if the clock keeps up, exactly unless it is too narrow for a panel |
| HwcLayers.ShrinksWithin | hwc/hwc.c:720-766 | no picture is shrunk below a quarter, wide 32-bit ones not below a third |
| HwcLayers.ScalerClockMeans | hwc/hwc.c:758-763 | the clock of the scaler is the greatest that downscaling can use, for narrow sources a multiple of the pixel clock |
| HwcLayers.MemoryMeans | hwc/hwc.c:393-405 | a buffer takes its lines, each padded to a multiple of 32 pixels |
| HwcBudget.AggregateImpliesGreedy | hwc/hwc.c:1088-1132 | if the aggregate check passes, the greedy loop places every layer if and only if no layer is one that the check does not look at (docked non-NV12 under a transform, or BGR on a TV); layer i then has slot and z-order i |
| HwcBudget.ConsistentLayersArePlaced | hwc/hwc.c:1088-1132 | with the consistent RGB order flag, and NV12 for every dockable layer when docking transforms, the aggregate check implies that all layers get overlays |
| HwcBudget.ConsistentLayersAreShown | hwc/hwc.c:1606-1903 | under the same two conditions every frame, with the GPU or without, shows exactly the layers painted back to front; the display gets the overlays unless its TV mode is being changed |
| HwcBudget.GreedyPlaces | hwc/hwc.c:1655-1733 | the greedy loop, step by step: a layer is placed if and only if it may be shown; overlays and TILER memory never run out first |
| HwcBudget.PlaceWithinLimits | hwc/hwc.c:1659-1671 | no placement uses more overlays than granted (one is always kept for the framebuffer) or more TILER memory than a slot has |
| HwcBudget.TallySays | hwc/hwc.c:959-1018 | what the gathered counts imply about each single layer |
| HwcHandoff.AggregateCheckMissesTv | hwc/hwc.c:1088-1132 | a concrete frame on a TV, without the order flag, where the GPU is switched off and a layer is shown by nobody |
| HwcHandoff.AggregateCheckMissesDocked | hwc/hwc.c:1088-1132 | a concrete frame docked on a rotated display, where the GPU is switched off and a layer meant for that display is shown by nobody |
| HwcBudget.TallyCounts | hwc/hwc.c:959-1018 | every gathered count is the number of layers of its kind, as the size of a set |
| HwcBudget.PlaceRenderable | hwc/hwc.c:1659-1668 | every overlay but the framebuffer shows a layer that passed the test for a single layer |
| HwcBudget.OneByteOrder | hwc/hwc.c:1113-1132 | with the order flag, overlays of a frame never mix red-blue orders and match the one the display is switched to; on a TV none shows a BGR layer |
| HwcBudget.DockedIsLargest | hwc/hwc.c:1709-1713 | while docking, the external display shows, of the dockable layers with an overlay, one with the largest frame, or the dock image |
| HwcHandoff.HandoffSafe | hwc/hwc.c:1020-1086 | in every run, the overlays of a frame fit beside each other and beside what either display still shows, so an overlay is never moved before it was released, and cloning never fails with -EBUSY |
| HwcHandoff.HandoffStep | hwc/hwc.c:1139-1155 | one frame, from any remembered overlay counts a run can produce: both budgets hold and the -EBUSY guard does not fire |
| HwcHandoff.GrantSettles | hwc/hwc.c:1066-1074 | after a posted frame, the next frame that wants as many external overlays is granted all of them |
| HwcHandoff.PlanSpendsAll | hwc/hwc.c:1020-1086 | what the plan wants, grants and keeps in each case: no overlay that the external display neither wants nor still shows is withheld from the primary one |
| HwcHandoff.GrantedIsShown | hwc/hwc.c:1781-1838 | once all that is wanted is granted, the external display shows the docked layer or the dock image, or a clone of every primary overlay |
| HwcHandoff.ExternalServed | hwc/hwc.c:1020-1086 | in every run, so does a frame that follows a posted one with the same wish |
| HwcHandoff.MirrorNeedsMode | hwc/hwc.c:1827-1832 | in every run, mirroring right after docking clones nothing if the mode of the mirror cannot be set |
| HwcHandoff.RemembersGrant | hwc/hwc.c:1870-1877 | a frame remembers the overlays it shows externally, or, while none is to be shown and none was, what had been granted |
| HwcHandoff.RunSane | hwc/hwc.c:2019-2020 | over whole runs the remembered counts leave room for what was posted last: as many as the overlays built for the primary display (of which none is shown while the TV mode is being changed), at least as many as those of the external one |
| HwcHandoff.ZOrdersPermute | hwc/hwc.c:1852-1865 | after every prepare the z-orders are a permutation of 0..num_ovls-1, also in what is shown during a mode change |
| HwcHandoff.PrimaryPipes | hwc/hwc.c:1695-1737 | primary pipes are pairwise distinct and contiguous from 0 or 1, and the GFX pipe never carries a layer that needs scaling |
| HwcHandoff.GfxNeverScales | hwc/hwc.c:1695-1737 | an overlay on the GFX pipe shows its crop pixel for pixel, and never a video buffer |
| HwcHandoff.PipesFit | hwc/hwc.c:1152-1172 | with s pipes skipped, primary overlays and clones sit on distinct existing pipes if and only if s plus their number is at most four |
| HwcHandoff.PipesExactly | hwc/hwc.c:1856-1864 | all pipes of a frame are distinct if and only if it does not mirror two layers that both need scaling |
| HwcHandoff.PipeBudget | hwc/hwc.c:1052-1085 | the budget keeps pipes sufficient except in that one situation |
| HwcHandoff.MirroringTwoScaledCollides | hwc/hwc.c:1824-1836 | a concrete frame in which two overlays get the same pipe |
| HwcHandoff.ClonesAbove | hwc/hwc.c:1781-1838 | clones take the pipes from the end, one each, and the z-orders above the primary overlays |
| HwcHandoff.MirrorShowsSame | hwc/hwc.c:1831-1836 | when mirroring, stacking the external overlays by z-order shows what the primary overlays show, for every layer list, history, pixel and blending |
| HwcHandoff.EveryOverlayCloned | hwc/hwc.c:1831-1836 | a frame with external overlays that does not dock has a clone of every primary overlay, with its layer and in the same order |
| HwcHandoff.MirrorShown | hwc/hwc.c:1139-1177 | each clone is what is left of its overlay in the mirrored region, carried along by the external matrix with its rotation and flip, from the same buffer |
| HwcHandoff.DockShown | hwc/hwc.c:1784-1824 | the docked clone is its overlay, or the whole dock image, carried along uncropped |
| HwcComposer.ComposerDevice.constructor | hwc/hwc.c:2516-2530 | initial allocator memory |
| HwcComposer.ComposerDevice.GatherLayerStatistics | hwc/hwc.c:959-1018 | the loop computes the counts of the layer list |
| HwcComposer.ComposerDevice.GatherLayer | hwc/hwc.c:967-1016 | one layer adds to exactly the counts of its kinds |
| HwcComposer.ComposerDevice.DecideSupportedCloning | hwc/hwc.c:1020-1086 | granted and wanted external overlays, limits and current external settings |
| HwcComposer.ComposerDevice.PlanFrame | hwc/hwc.c:1606-1619 | statistics, budget and the choice between GPU and overlays |
| HwcComposer.ComposerDevice.AcceptLayer | hwc/hwc.c:1670-1721 | renders a layer by the next overlay |
| HwcComposer.ComposerDevice.AppendOverlay | hwc/hwc.c:1699-1707 | keeps the GFX pipe free of scaled layers by swapping |
| HwcComposer.ComposerDevice.RejectLayer | hwc/hwc.c:1722-1732 | leaves a layer to the GPU |
| HwcComposer.ComposerDevice.RaiseFramebuffer | hwc/hwc.c:1728-1730 | the loop lowers exactly the overlays above the framebuffer |
| HwcComposer.ComposerDevice.SetupPipes | hwc/hwc.c:1621-1733 | the placement loop equals its specification over the whole list |
| HwcComposer.ComposerDevice.FinishPipes | hwc/hwc.c:1735-1779 | moves a scaled first layer off GFX and sets up the framebuffer overlay |
| HwcComposer.ComposerDevice.CloneLayer | hwc/hwc.c:1139-1177 | one clone, or -EBUSY |
| HwcComposer.ComposerDevice.MirrorLayers | hwc/hwc.c:1831-1836 | clones every primary overlay until one does not fit |
| HwcComposer.ComposerDevice.CloneLayers | hwc/hwc.c:1784-1838 | docked clone, dock image or mirror image |
| HwcComposer.ComposerDevice.AdjustPrimaryLayers | hwc/hwc.c:1840-1845 | transforms the primary overlays only |
| HwcComposer.ComposerDevice.FinishFrame | hwc/hwc.c:1781-1877 | cloning, transform and what is remembered |
| HwcComposer.ComposerDevice.Prepare | hwc/hwc.c:1589-1903 | a whole prepare equals its specification: overlays, composition types and memory |
| HwcComposer.ComposerDevice.Set | hwc/hwc.c:1962-2020 | what a posted frame remembers; a failed buffer swap leaves the memory alone |
| HwcCrop.DssOverlay.CropToRect | hwc/hwc.c:595-666 | the in-place routine equals the specification, and leaves the overlay alone on failure |
| HwcCrop.CropEntry | hwc/hwc.c:624-650 | one pass of the cropping loop |
| HwcCrop.AlignEntries | hwc/hwc.c:614-622 | aligns the crop rectangle with the display |
| HwcCrop.RealignEntries | hwc/hwc.c:652-664 | undoes the alignment |
| HwcCrop.CropExact | hwc/hwc.c:595-666 | for every rotation and mirror: the new window is exactly the old one intersected with the visible rectangle; on each display axis the crop is less than one source pixel from proportional in length and start, less than two at its end |
| HwcCrop.CropAxisExact | hwc/hwc.c:624-650 | the same for one axis in either direction; failure means that less than one source pixel is visible |
| HwcCrop.CropNested | hwc/hwc.c:595-666 | the new crop rectangle is non-empty and inside the old one |
| HwcCrop.CropDropsOnlySlivers | hwc/hwc.c:628-650 | an overlay is dropped only if it misses the rectangle or less than one source pixel of it is visible |
| HwcCrop.CropIdempotent | hwc/hwc.c:595-666 | a second application changes nothing |
| HwcGeometry.AdjustExtFaithful | hwc/hwc.c:668-701 | before rounding, every source point of an adjusted overlay lands where the matrix takes its old position; rounding moves no edge by more than half a pixel |
| HwcGeometry.AdjustComposes | hwc/hwc.c:668-701 | window, rotation and mirror are updated consistently with any matrix that turns, flips and scales |
| HwcGeometry.OrientationsCombine | hwc/hwc.c:693-700 | the combined (rotation, mirror) pair acts like the two orientations one after the other |
| HwcGeometry.AlignmentAgrees | hwc/hwc.c:614-622 | the axes that cropping aligns to are the axes of the overlay map: aligned crop corners lie at window corners |
| HwcGeometry.WindowFollows | hwc/hwc.c:668-681 | transforming a window moves each point of its picture with the matrix, also under negative scale |
| HwcGeometry.ExtMatrixReorients | hwc/hwc.c:565-593 | the external matrix turns, flips and then scales the region to its target size |
| HwcGeometry.RegionFillsTarget | hwc/hwc.c:565-593 | the mapped region measures its target size on the external screen |
| HwcGeometry.RegionCentred | hwc/hwc.c:565-593 | and is centred there |
| HwcGeometry.MaxDimensions | hwc/hwc.c:538-563 | the adjusted size never exceeds the mode and fills one dimension |
| HwcGeometry.MaxDimensionsKeepShape | hwc/hwc.c:532-563 | the adjusted size keeps the shape of the source on the surface of the screen, up to half a pixel, as large as fits; and fills the screen where the two shapes differ by at most 2% |
| HwcGeometry.RegionKeepsShape | hwc/hwc.c:565-593 | the mapped region has that shape, turned with the display |
| HwcGeometry.MRoundError | hwc/hwc.c:527-530 | rounding errs by at most one half |
| HwcGeometry.LayerOrientationMeans | hwc/hwc.c:467-477 | the rotation and mirror of a layer act like its three transform flags |
| HwcGeometry.ExtDisplay.SetExtMatrix | hwc/hwc.c:565-593 | the routine computes the matrix of the specification |
| HwcGeometry.ExtDisplay.AdjustLayer | hwc/hwc.c:683-703 | crops when mirroring, transforms the window, combines orientations |
| HdmiMode.ScoresCompareMerits | hwc/hwc.c:805-841 | the packed score compares exactly like the tuple (CEA, upscale, same mode, scaling, leftover, not slower, closeness), and fits 22 bits |
| HdmiMode.MeritsFit | hwc/hwc.c:814-838 | every field fits its bits, because the picture never exceeds the mode |
| HdmiMode.MeritsAtMean | hwc/hwc.c:805-841 | what each field says about a feasible mode: ratio flag, no downscaling within 1%, same mode, area scaling and nearest leftover area in sixteenths, frame rate (one short of a multiple of six counting as that multiple) at least 60, and closeness to it |
| HdmiMode.MeritsMean | hwc/hwc.c:805-841 | the same for any mode with pixels and any picture |
| HdmiMode.PictureKeepsShape | hwc/hwc.c:886-907 | the picture has the shape of the source on a surface of 4:3, 16:9, or the size of the display; interlaced modes have half the lines |
| HdmiMode.FeasibleShows | hwc/hwc.c:896-915 | a feasible mode has pixels and a clock, scans in no way but interlaced, and does not shrink the picture below a quarter |
| HdmiMode.SameSizeFeasible | hwc/hwc.c:896-915 | a mode of the size and shape of the picture, whose clock the scaler keeps up with, is feasible exactly unless it scans otherwise or is too narrow for a panel |
| HdmiMode.CurrentKeepsShape | hwc/hwc.c:938-945 | without a mode, the picture has the shape of the source on the display as it is |
| HdmiMode.CurrentShows | hwc/hwc.c:938-951 | and is not shrunk below a quarter |
| HdmiMode.BestHasBestMerits | hwc/hwc.c:873-927 | no feasible mode has better merits than the chosen one, and none before it equal ones |
| HdmiMode.BestIsUnique | hwc/hwc.c:873-927 | the choice is determined by that |
| HdmiMode.ScalingFits | hwc/hwc.c:819-824 | the scaling field is at most 16, and 16 exactly without scaling |
| HdmiMode.ClosenessFits | hwc/hwc.c:834-838 | the rate field is at most 240, and 240 exactly for equal rates |
| HdmiMode.NoOverflow | hwc/hwc.c:810-838 | below 16000 pixels a side no 32-bit product wraps |
| HdmiMode.ExternalDisplay.SelectMode | hwc/hwc.c:873-927 | the loop finds the first feasible mode with the highest nonzero score, and its screen |
| HdmiMode.ExternalDisplay.SetBestMode | hwc/hwc.c:843-957 | results, new settings and mode switch in every case; the 640x480 default is unreachable |
| CameraFrames.RunKeeps | camera/BaseCameraAdapter.cpp:334-403 | in every run each count is the number of frames outstanding, and each buffer has been refilled exactly once per delivery except while outstanding |
| CameraFrames.ReturnFillsLast | camera/BaseCameraAdapter.cpp:359-401 | in every run a return refills the buffer exactly when it gives back the last frame of it; surplus returns never do |
| CameraFrames.ReturnReleases | camera/BaseCameraAdapter.cpp:334-403 | one return on any counts: what changes, and when the buffer goes back |
| CameraFrames.DeliverKeepsExactly | camera/BaseCameraAdapter.cpp:1412-1461 | a delivery of a buffer that is with the producer keeps the counts right, if and only if its mask does not have both image and raw, and has only one type unless recording |
| CameraFrames.DeliveryRefillsOnceExactly | camera/BaseCameraAdapter.cpp:334-403 | under exactly that condition every later run refills each buffer once per delivery, and only after the last frame of it has come back |
| CameraFrames.DeliveryRefills | camera/BaseCameraAdapter.cpp:365-372 | for every mask and however the frames come back: while recording one refill, as soon as all counts have run out; otherwise one refill for each count that has; the count shared by image and raw stands for the raw frames only |
| CameraFrames.UnsafeRefillsEarly | camera/BaseCameraAdapter.cpp:365-372 | for every other mask there is a run of returns that refills the buffer while it is still held |
| CameraFrames.EarlyFillExactly | camera/BaseCameraAdapter.cpp:365-372 | as long as counts are the frames outstanding, a return refills a buffer that is still held if and only if, without recording, it empties one of several outstanding pools |
| CameraFrames.TwoTypesFillTwice | camera/BaseCameraAdapter.cpp:365-372 | concrete run: without recording, a frame delivered with two types is refilled twice |
| CameraFrames.SharedMapFillsEarly | camera/BaseCameraAdapter.cpp:1423-1432 | concrete run: image and raw frames share a count, the first return refills the buffer |
| CameraFrames.StopReleasesEncoder | camera/BaseCameraAdapter.cpp:1641-1669 | stopping takes one video frame from each buffer and refills it, once, if and only if nobody else holds it |
| CameraFrames.StopClearsVideo | camera/BaseCameraAdapter.cpp:1641-1669 | afterwards all video counts are zero if and only if none exceeded one |
| CameraFrames.StopLeavesSecond | camera/BaseCameraAdapter.cpp:1641-1669 | concrete state: of two video frames of a buffer one stays outstanding |
| CameraFrames.DeliveryReachesEverySubscriber | camera/BaseCameraAdapter.cpp:1282-1410 | a delivery with subscribers for every type of its mask, and frames queued where they are needed, calls each subscriber exactly once |
| CameraFrames.SumIsZero | camera/BaseCameraAdapter.cpp:1474-1483 | the sum over all types is zero if and only if no type has a count |
| CameraFrames.NewRunKeeps | camera/BaseCameraAdapter.cpp:334-403 | every run of a new adapter, with any buffers handed over, frames delivered and recordings, has that invariant |
| CameraFrames.NewRunLoads | camera/BaseCameraAdapter.cpp:423-444 | such a run can begin by handing over preview buffers; exactly those that may not be queued are then held, by the buffer provider |
| CameraFrames.LoadKeeps | camera/BaseCameraAdapter.cpp:423-444 | handing over buffers while none of the old ones is out keeps the invariant, with the buffer provider holding those that may not be queued |
| CameraFrames.HeldTwiceReached | camera/BaseCameraAdapter.cpp:1641-1669 | the state of StopLeavesSecond is reached by a run of a new adapter |
| CameraFrames.StopLoopCounts | camera/BaseCameraAdapter.cpp:1654-1663 | the stopping loop of the run model does to the counts what the routine does |
| CameraFrames.BaseCameraAdapter.constructor | camera/BaseCameraAdapter.cpp:60-116 | initial state |
| CameraFrames.BaseCameraAdapter.GetFrameRefCount | camera/BaseCameraAdapter.cpp:1474-1483 | the sum over all types |
| CameraFrames.BaseCameraAdapter.ReturnFrame | camera/BaseCameraAdapter.cpp:334-403 | new counts and whether the buffer is refilled |
| CameraFrames.BaseCameraAdapter.UseBuffers | camera/BaseCameraAdapter.cpp:423-444 | the counts set up for new buffers, in the order of the two loops |
| CameraFrames.BaseCameraAdapter.SetInitFrameRefCount | camera/BaseCameraAdapter.cpp:1412-1461 | counts start at the number of subscribers of each type in the mask |
| CameraFrames.BaseCameraAdapter.SendFrameToSubscribers | camera/BaseCameraAdapter.cpp:1282-1349 | types by ascending bit; the first failure ends the delivery |
| CameraFrames.BaseCameraAdapter.SendToType | camera/BaseCameraAdapter.cpp:1351-1410 | one callback per count, or the error conditions |
| CameraFrames.BaseCameraAdapter.StartVideoCapture | camera/BaseCameraAdapter.cpp:1608-1639 | video counts start at zero for the preview buffers |
| CameraFrames.BaseCameraAdapter.StopBuffer | camera/BaseCameraAdapter.cpp:1656-1662 | one step of stopping |
| CameraFrames.BaseCameraAdapter.StopVideoCapture | camera/BaseCameraAdapter.cpp:1641-1669 | new counts and refilled buffers |
| CameraStates.CameraAdapter.SendCommand | camera/BaseCameraAdapter.cpp:405-1127 | every command, step by step, for any pending target; if none is pending it is a transaction: the state moves as a whole or nothing changes; lock and pending target are released; exact result |
| CameraStates.CameraAdapter.RollbackToInitializedState | camera/BaseCameraAdapter.cpp:2485-2498 | terminates by a rank on states; with succeeding hooks it reaches the initial state with recording off if and only if the state is one it handles |
| CameraStates.CameraAdapter.RollbackToPreviousState | camera/BaseCameraAdapter.cpp:2500-2567 | one step back by the command for the state |
| CameraStates.CameraAdapter.SetState | camera/BaseCameraAdapter.cpp:1900-2483 | takes the lock in every case, and sets the target only if the command is allowed |
| CameraStates.CameraAdapter.CommitState | camera/BaseCameraAdapter.cpp:2571-2584 | target becomes state, lock released |
| CameraStates.CameraAdapter.RollbackState | camera/BaseCameraAdapter.cpp:2586-2598 | target dropped, lock released |
| CameraStates.CameraAdapter.RunHook | camera/BaseCameraAdapter.cpp:718-756 | hook results, those of the video hooks being determined by the recording flag |
| CameraStates.CameraAdapter.StartVideoCapture | camera/BaseCameraAdapter.cpp:1608-1639 | recording flag and result |
| CameraStates.CameraAdapter.StopVideoCapture | camera/BaseCameraAdapter.cpp:1641-1669 | recording flag and result |
| CameraStates.CameraAdapter.constructor | camera/BaseCameraAdapter.cpp:60-116 | initial state (see the remark on the pending target) |
| CameraStates.RunSettles | camera/BaseCameraAdapter.cpp:405-1127 | over every command sequence recording is on exactly in the video states and no target is left over |
| CameraStates.UninitialisedTargetExactly | camera/BaseCameraAdapter.cpp:1900-1945 | whatever the uninitialised target is, every later state is as if it were the initial one, if and only if the first command that gets to setState does not succeed without setting a target (buffers handed over in the wrong state, with a succeeding hook) |
| CameraStates.StaleExactly | camera/BaseCameraAdapter.cpp:2571-2584 | from any state, a pending target is committed by exactly the commands that succeed without setting one |
| CameraStates.FailureChangesNothing | camera/BaseCameraAdapter.cpp:405-1127 | a command that reports failure has changed nothing |
| CameraStates.AdmittedExactly | camera/BaseCameraAdapter.cpp:1900-2483 | a state admits a command if and only if its activities do, by one rule for each command |
| CameraStates.CommandsMoveExactly | camera/BaseCameraAdapter.cpp:405-1127 | a command that works and is admitted moves the machine by the rule of activities; any other leaves it alone |
| CameraStates.ReportsExactly | camera/BaseCameraAdapter.cpp:405-1127 | which commands report success, in terms of activities, argument and hook |
| CameraStates.RefusalReportsSuccess | camera/BaseCameraAdapter.cpp:434-455 | a refused command reports success if and only if it hands over buffers (other than for reprocessing) and its hook succeeds |
| CameraStates.RefusedBuffersReportSuccess | camera/BaseCameraAdapter.cpp:434-455 | concrete command: capture buffers handed over in the initial state are refused, with success reported |
| CameraStates.LoadedPreviewNotHandled | camera/BaseCameraAdapter.cpp:2500-2567 | concrete run: after the preview buffers are handed over, rolling back gives up |
| CameraStates.BackStep | camera/BaseCameraAdapter.cpp:2500-2567 | a step back is never refused, and lowers the rank if its hook succeeds |
| CameraStates.TransitionsActOnActivities | camera/inc/CameraHal.h:941-958 | the transition table is one rule on the activity bits of states: a command ends and begins its own activities and leaves the others alone, except when leaving the unreachable bracketing-and-zoom state |
| CameraStates.ActivitiesDetermineState | camera/inc/CameraHal.h:941-958 | different states have different activity bits |
| CameraStates.AlwaysAWayBack | camera/BaseCameraAdapter.cpp:1900-2483 | from every state, loaded ones included, some command sequence leads to the initial state with recording off |
| CameraStates.BracketingZoomUnreachable | camera/BaseCameraAdapter.cpp:1900-2483 | the bracketing-and-zoom state is never entered |
| AudioCapture.CaptureStream.ReadFrames | audio/audio_hw.c:2156-2199 | frames copied, followed by those left in the buffer, are those left before, followed by what the driver brought; terminates; on a driver error the frames copied and not reported are those left before and every period of this call, which is nothing if and only if nothing was left and the failure came first |
| AudioCapture.ReadAll | audio/audio_hw.c:2156-2199 | calls ReadFrames for any sequence of block sizes: the blocks, followed by what is left in the buffer, are what was left before, followed by the driver periods in order; up to a failing call the blocks are the first part of that |
| AudioCapture.ReadBlock | audio/audio_hw.c:2156-2199 | one such call continues the chain |
| AudioCapture.CallsDeliverStream | audio/audio_hw.c:2156-2199 | any sequence of successful calls delivers the driver periods in order, all but those still in the buffer |
| AudioCapture.LosingCall | audio/audio_hw.c:2193-2194 | a concrete call that reports the error and loses the frame brought before it |
| AudioCapture.CaptureStream.CopiedIsLost | audio/audio_hw.c:2193-2194 | after a failed read everything that was left and came is among the frames copied |
| AudioCapture.StreamLength | audio/audio_hw.c:2113-2124 | without failures the stream has a period of frames for each answer |
| AudioCapture.CaptureStream.ReadChunk | audio/audio_hw.c:2170-2197 | one round keeps that balance |
| AudioCapture.CaptureStream.Fetch | audio/audio_hw.c:2164-2181 | fetching frames keeps that balance; a failure leaves nothing behind |
| AudioCapture.CaptureStream.MoveFrames | audio/audio_hw.c:2182-2190 | frames on offer move behind those copied, and nothing else of the destination changes |
| AudioCapture.CaptureStream.GetNextBuffer | audio/audio_hw.c:2087-2138 | refills only when empty; offers a slice of the unread tail, or the error |
| AudioCapture.CaptureStream.ReadPeriod | audio/audio_hw.c:2113-2129 | after a read and channel removal the unread tail is the frames of the period |
| AudioCapture.CaptureStream.TakeFrames | audio/audio_hw.c:2182-2190 | moves frames from the tail to the caller |
| AudioCapture.CaptureStream.CopyFrames | audio/audio_hw.c:2182-2187 | copies a slice of frames |
| AudioCapture.CaptureStream.constructor | audio/audio_hw.c:2695-2762 | a new stream has nothing pending |
| AudioCapture.RemoveChannels | audio/audio_hw.c:664-697 | in place: exactly the front of every frame is kept, packed; nothing happens for no frames or too many channels |
| AudioCapture.KeepFrames | audio/audio_hw.c:684-696 | the copying loop, overlap included |
| AudioCapture.CopyDown | audio/audio_hw.c:691-692 | the inner loop |
| AudioCapture.KeptArePacked | audio/audio_hw.c:684-696 | read as frames, the packed buffer is the front of every hardware frame |
| AudioCapture.StreamSplits | audio/audio_hw.c:2156-2199 | the stream of a whole is the stream of its parts |
| AudioProcessing.Processor.ProcessFrames | audio/audio_hw.c:2201-2276 | the frames delivered are what the rounds of the call produced, in order, each round being asked for what was still missing; each was offered the captured stream from where the one before stopped consuming; the frames consumed and those waiting are a prefix of that stream, all of it but the unread tail if no read failed; all this also up to a driver error |
| AudioProcessing.Processor.ProcessRound | audio/audio_hw.c:2239-2274 | a round offers the frames at the front: as many as the pre-processor took reference frames, which is what it wants of those waiting, or all without a reference; none is lost |
| AudioProcessing.Processor.Reload | audio/audio_hw.c:2214-2237 | reloading keeps conservation; a driver error keeps the prefix property |
| AudioProcessing.Processor.Load | audio/audio_hw.c:2217-2236 | reads behind the frames that wait |
| AudioProcessing.Processor.Offer | audio/audio_hw.c:2239-2246 | how many frames the round may consume |
| AudioProcessing.Processor.Consume | audio/audio_hw.c:2248-2270 | one more call, offered these frames; consumed frames leave the front, and the result is what it produced |
| AudioProcessing.Processor.Feed | audio/audio_hw.c:2248-2270 | the call itself, on the frames at the front of the buffer, the rest moving up |
| AudioProcessing.OneMoreRound | audio/audio_hw.c:2255-2273 | a call appends what it consumes and produces |
| AudioProcessing.Processor.Receive | audio/audio_hw.c:1992-2005 | the answer to a request goes behind the frames that wait |
| AudioProcessing.Processor.PushEchoReference | audio/audio_hw.c:2051-2085 | the pre-processor is given the first frames waiting and takes what it wants of them; frames taken, followed by those waiting, are the answers of the echo reference to all requests, in order; the earlier ones stay |
| AudioProcessing.Processor.UpdateEchoReference | audio/audio_hw.c:1979-2012 | asks for exactly the frames that are missing; those waiting are kept, the answer goes behind them |
| AudioProcessing.Processor.ReadReference | audio/audio_hw.c:1992-2005 | one request: its answer, if any, goes behind the frames that wait |
| AudioProcessing.Processor.TakeReference | audio/audio_hw.c:2075-2084 | the rest moves to the front |
| AudioProcessing.Processor.constructor | audio/audio_hw.c:2695-2762 | empty buffers |
| EchoReference.RunSafe | audio/audio_hw.c:1300-1363 | in every run no stream keeps, and no event touches, a released reference; none is released twice |
| EchoReference.AliveIsHeld | audio/audio_hw.c:1324-1363 | at most one reference is alive: the one the device holds |
| EchoReference.StepKeeps | audio/audio_hw.c:1206-1253 | every event keeps the invariant: input pointer equal to the device pointer, output pointer equal to it exactly while the output is active |
| EchoReference.StepExactly | audio/audio_hw.c:1206-1363 | what each event creates and releases and which stream it starts or stops; a reference is created exactly when the input starts, needs one and has none, with an active output and a library that goes along |
| EchoReference.PutKeeps | audio/audio_hw.c:1324-1336 | releasing |
| EchoReference.GetKeeps | audio/audio_hw.c:1338-1363 | replacing |
| EchoReference.AudioDevice.PutEchoReference | audio/audio_hw.c:1324-1336 | only the own reference is released, after the output let go of it |
| EchoReference.AudioDevice.GetEchoReference | audio/audio_hw.c:1338-1363 | a new reference if the output is active and creation succeeds |
| EchoReference.AudioDevice.RemoveEchoReference | audio/audio_hw.c:1310-1322 | the output lets go |
| EchoReference.AudioDevice.StartOutputStream | audio/audio_hw.c:1206-1253 | an active output takes the reference of the device |
| EchoReference.AudioDevice.FeedEcho | audio/audio_hw.c:1628-1635 | an active output feeds the reference that the input reads, if and only if there is one, and it is alive |
| EchoReference.AudioDevice.FetchEcho | audio/audio_hw.c:1992-2005 | the input reads the reference of the device, if and only if there is one, and it is alive |
| EchoReference.AudioDevice.DoOutputStandby | audio/audio_hw.c:1445-1474 | the output lets go on standby |
| EchoReference.AudioDevice.StartInputStream | audio/audio_hw.c:1703-1749 | creates the reference when needed; a failed start keeps it |
| EchoReference.AudioDevice.DoInputStandby | audio/audio_hw.c:1806-1831 | releases the reference |
| EchoReference.AudioDevice.constructor | audio/audio_hw.c:2418-2470 | nothing referred to |
| Decoder.RunKeeps | camera/FrameDecoder.cpp:106-200 | for any interleaving of client calls, submissions and callbacks: queues without duplicates, and everything the component holds is marked as waiting |
| Decoder.DequeuedAfterDone | camera/FrameDecoder.cpp:106-156 | a buffer is dequeued only after a callback that found the decoder executing, with nothing happening to it in between |
| Decoder.SubmittedOnce | camera/OmxFrameDecoder.cpp:416-475 | between two submissions of a buffer lies a callback for it, if the component got the first |
| Decoder.QueuedOnce | camera/FrameDecoder.cpp:158-200 | a queued buffer is in the queue, once, until dequeued or flushed |
| Decoder.DequeuedInOrder | camera/FrameDecoder.cpp:106-156 | of two buffers that are done, the one queued earlier is dequeued first |
| Decoder.HeldIsExclusive | camera/OmxFrameDecoder.cpp:168-196 | what the component holds is neither queued, nor dequeued, nor submitted |
| Decoder.LastEvent | camera/OmxFrameDecoder.cpp:168-196 | the status of a buffer is that of the last event that concerns it |
| Decoder.RefusedIsStuck | camera/OmxFrameDecoder.cpp:457-475 | an input buffer that the component did not get is marked all the same, and never comes back unless the queue is flushed |
| Decoder.WaitingElsewhereExactly | camera/OmxFrameDecoder.cpp:524-578 | in every run, a buffer marked as waiting is not with the component if and only if the last event that concerned it was a submission that failed: too long for the component, or not taken by it |
| Decoder.WaitingIsHeldIfFits | camera/OmxFrameDecoder.cpp:535-538 | what the client can check: until it queues a buffer again, and if the component takes what fits, the buffer marked as waiting is with the component if and only if its filled length, as an unsigned number, is at most the size of the component buffers |
| Decoder.OversizedIsStuck | camera/OmxFrameDecoder.cpp:535-538 | a concrete run: five bytes for buffers of four |
| Decoder.SubmitAllAt | camera/OmxFrameDecoder.cpp:459-471 | the loop submits exactly the queued buffers; those that fit and are taken are then with the component |
| Decoder.SubmitAllIsRun | camera/OmxFrameDecoder.cpp:459-471 | the loop is a run of single submissions, so the run theorems cover it |
| Decoder.SubmitAllTwice | camera/OmxFrameDecoder.cpp:416-436 | a second pass finds nothing to submit |
| Decoder.DequeuedKeeps | camera/FrameDecoder.cpp:119-126 | removing a ready buffer keeps the others |
| Decoder.FrameDecoder.constructor | camera/FrameDecoder.cpp:24-26 | initial state |
| Decoder.FrameDecoder.Start | camera/FrameDecoder.cpp:31-46 | guard and new state |
| Decoder.FrameDecoder.Stop | camera/FrameDecoder.cpp:48-60 | guard and new state |
| Decoder.FrameDecoder.Release | camera/FrameDecoder.cpp:62-73 | guard and new state |
| Decoder.FrameDecoder.Flush | camera/FrameDecoder.cpp:75-88 | empties the queues, only once stopped; statuses stay |
| Decoder.FrameDecoder.Configure | camera/FrameDecoder.cpp:90-104 | guard and new state |
| Decoder.FrameDecoder.QueueInputBuffer | camera/FrameDecoder.cpp:178-200 | only while running; submits what is queued if the component is or can be set executing; the new buffer is then with the component if and only if it fits and is taken |
| Decoder.FrameDecoder.QueueOutputBuffer | camera/FrameDecoder.cpp:158-176 | also before the start |
| Decoder.FrameDecoder.DequeueInputBuffer | camera/FrameDecoder.cpp:106-130 | the first decoded buffer, if any |
| Decoder.FrameDecoder.DequeueOutputBuffer | camera/FrameDecoder.cpp:132-156 | the first filled buffer, if any |
| Decoder.FrameDecoder.DoProcessInputBuffer | camera/OmxFrameDecoder.cpp:438-475 | what is submitted in each component state |
| Decoder.FrameDecoder.QueueOutputBuffers | camera/OmxFrameDecoder.cpp:416-436 | submits all queued output buffers |
| Decoder.FrameDecoder.SubmitInputs | camera/OmxFrameDecoder.cpp:459-471 | submits all queued input buffers |
| Decoder.FrameDecoder.EmptyBufferDone | camera/OmxFrameDecoder.cpp:168-180 | new status of the buffer |
| Decoder.FrameDecoder.FillBufferDone | camera/OmxFrameDecoder.cpp:182-196 | new status of the buffer |
| Pixels.PathsAgree | camera/AppCallbackNotifier.cpp:502-569 | on an even stride, or up to two rows, encoding by way of YUYV and by way of NV21 gives the same pixels, those of direct 4:2:0 sampling |
| Pixels.OddStrideDisagrees | camera/AppCallbackNotifier.cpp:623-629 | on an odd stride, for every larger size, some image comes out differently |
| Pixels.YuyvPathSamples | camera/AppCallbackNotifier.cpp:502-546 | by way of YUYV every encoded row is the direct sampling of the frame |
| Pixels.Nv21PathSamples | camera/AppCallbackNotifier.cpp:548-629 | by way of NV21 likewise, with chroma rows twice half the stride apart |
| Pixels.YuyvRoundTrip | camera/Encoder_libjpeg.cpp:217-235 | packing a row as YUYV and expanding it is sampling |
| Pixels.Nv21RoundTrip | camera/Encoder_libjpeg.cpp:103-119 | swapping chroma and expanding is sampling, for an even number of pixels |
| Pixels.PairOfIs | camera/Encoder_libjpeg.cpp:103-119 | which chroma pair a pixel gets: shared from the start in even rows, shifted by one pixel in odd ones |
| Pixels.LumaCopiedExactly | camera/AppCallbackNotifier.cpp:562-569 | the luma copy is complete if and only if the last row starts within the source length |
| Pixels.ToYuyv | camera/AppCallbackNotifier.cpp:502-546 | the loops write the packed YUYV image |
| Pixels.RowToYuyv | camera/AppCallbackNotifier.cpp:516-536 | one row |
| Pixels.NextPointers | camera/AppCallbackNotifier.cpp:537-543 | source, chroma and destination pointers after a row |
| Pixels.ToNv21 | camera/AppCallbackNotifier.cpp:548-629 | the luma rows copied, then the swapped chroma rows |
| Pixels.CopyLuma | camera/AppCallbackNotifier.cpp:560-569 | the luma rows before the end check stops the loop |
| Pixels.CopyChroma | camera/AppCallbackNotifier.cpp:623-629 | the chroma rows, with the step that the 16-bit pointer takes |
| Pixels.SwapRow | camera/AppCallbackNotifier.cpp:624-626 | one chroma row |
| Pixels.Nv21ToYuv | camera/Encoder_libjpeg.cpp:103-119 | one row expanded from NV21 |
| Pixels.YuyvToYuv | camera/Encoder_libjpeg.cpp:179-235 | one row expanded from YUYV; odd rows leave the buffer alone |
| Pixels.Encode | camera/Encoder_libjpeg.cpp:503-532 | the scanline loop hands every row of the image to the compressor, in order; for YUYV rows of odd length it hands over what the row buffer happened to hold |
| Resize.LumaTapsInside | camera/NV12_resize.cpp:100-137 | for every output size all four luma taps lie inside the image, and neither 32-bit products nor 16-bit positions overflow |
| Resize.ChromaInsideExactly | camera/NV12_resize.cpp:187-225 | the chroma taps lie inside if and only if the last one does |
| Resize.ChromaInsideBelowDouble | camera/NV12_resize.cpp:187-225 | they do if the input extent is even and half the output extent is below the input extent minus one |
| Resize.ChromaLeavesAtDouble | camera/NV12_resize.cpp:187-225 | one step further they do not |
| Resize.SampleBetween | camera/NV12_resize.cpp:141-174 | the 16-bit sum does not overflow, and a sample lies between the least and the greatest of its sources |
| Resize.SumIsBilinear | camera/NV12_resize.cpp:141-174 | the sum is exactly bilinear |
| Resize.TableIsBilinear | camera/inc/NV12_resize.h:59-83 | the weight table holds the bilinear weights, in the order in which the code uses them |
| Resize.LumaMeans | camera/NV12_resize.cpp:113-178 | each luma value is the input image, interpolated bilinearly at the position of its row and column, in eighths rounded down |
| Resize.ChromaMeans | camera/NV12_resize.cpp:180-285 | each chroma value is its component, interpolated likewise |
| Resize.TapAndEighths | camera/NV12_resize.cpp:129-137 | tap and fraction together are the position in eighths, rounded down |
| Resize.LumaIsInterpolated | camera/NV12_resize.cpp:116-178 | every value the luma loops compute lies between the bounds of the input image |
| Resize.ChromaIsInterpolated | camera/NV12_resize.cpp:187-282 | where the chroma taps lie inside, every value the chroma loops compute lies between the bounds of its component in the input image |
| Resize.LumaBytesInterpolated | camera/NV12_resize.cpp:113-178 | every byte of the luma plane that the call leaves lies between the bounds of the input image |
| Resize.ChromaBytesInterpolated | camera/NV12_resize.cpp:180-285 | where the chroma taps lie inside, every byte of the chroma plane that the call leaves lies between the bounds of its component in the input image |
| Resize.LumaWritten | camera/NV12_resize.cpp:113-178 | the byte at each row and column of the luma plane is the interpolated sample of that row and column |
| Resize.ChromaWritten | camera/NV12_resize.cpp:180-285 | the byte at each row and pair of the chroma plane is the interpolated sample of that component |
| Resize.ResizeLuma | camera/NV12_resize.cpp:113-178 | the luma loops put every interpolated row in its place |
| Resize.ResizeChroma | camera/NV12_resize.cpp:180-285 | the chroma loops put every interpolated row behind the one before, at the step that the output pointer takes |
| Resize.ChromaInPlaceExactly | camera/NV12_resize.cpp:180-285 | for accepted images every chroma sample of every plane is in its place, row by row of the output stride, if and only if the output width is even or one, or there are fewer than two chroma rows |
| Resize.OddWidthDrifts | camera/NV12_resize.cpp:280-284 | in every other case some plane comes out misplaced |
| Resize.ThreeColumnsDrift | camera/NV12_resize.cpp:280-284 | concrete images: an output of three columns and four rows |
| Resize.ChromaStaysInPlace | camera/NV12_resize.cpp:280-284 | in the good cases each sample is the interpolated one, at its place |
| Resize.ResizeFrame | camera/NV12_resize.cpp:39-285 | error conditions; otherwise every byte of the luma plane is the input image interpolated at its position, and every byte of the chroma plane its component, rows being a byte closer for an odd output width |
| Resize.ResizePlanes | camera/NV12_resize.cpp:113-282 | luma, then chroma |
| Resize.WriteColumns | camera/NV12_resize.cpp:128-176 | the column loop |
| Resize.WritePairs | camera/NV12_resize.cpp:206-281 | the column loop over both chroma components |
| SwVsync.DiffExact | hwc/sw_vsync.c:38-49 | the difference of two times is exact and normal |
| SwVsync.TicksIncrease | hwc/sw_vsync.c:61-89 | ticks are strictly increasing, whatever the clock shows and however the rate changes |
| SwVsync.TicksOnGrid | hwc/sw_vsync.c:61-89 | at a constant rate all ticks lie on one grid, at least a period apart |
| SwVsync.TicksAtRate | hwc/sw_vsync.c:61-89 | while no tick is missed, the time between ticks is the rate, or a sixtieth of a second if none is set |
| SwVsync.MissedTickIsNext | hwc/sw_vsync.c:74-79 | after a miss the tick is the first grid point after now |
| SwVsync.NextTickOnGrid | hwc/sw_vsync.c:71-80 | the step from one planned tick to the next |
| SwVsync.VsyncLoop.Turn | hwc/sw_vsync.c:61-89 | one turn of the loop: tick, plan and time to sleep |
| SwVsync.VsyncLoop.constructor | hwc/sw_vsync.c:54-56 | the first tick is planned for time 0 |

## Left out

- Integer width: byte counts, pixel areas and memory sums are unbounded integers; 32-bit wrap-around is modelled in the scaling test only, and `NoOverflow`, `LumaTapsInside` and `SampleBetween` show where it cannot happen.
- Floating point: matrices and aspect ratios are reals, with rounding as one explicit step.
- `can_scale`: everything about the allocator holds for any scaling test; the test of the display controller is one instance, which the concrete frames use.
- HwcGeometry.ExtDisplay.SetExtMatrix: the region must not be empty, where the original divides by zero in floating point.
- HwcHandoff.HandoffSafe: a frame whose display or surface is missing counts as posted, as the original updates its memory for it.
- HdmiMode.ExternalDisplay.SetBestMode: the test for a zero resolution multiplies unbounded integers.
- CameraFrames.RunKeeps: subscribers are stable, a buffer is delivered only while the producer has it, a mask has one type unless recording and not both image and raw (`DeliverKeepsExactly` shows that this is exactly what a delivery needs); recording starts without video frames outstanding; it stops without deliveries of them in progress, with at most one video frame of a buffer held and at most one other pool of it outstanding; new buffers are handed over when none of those they replace is out.
- CameraFrames.DeliveryReachesEverySubscriber: nothing happens between setting the counts and sending the frame.
- CameraFrames.BaseCameraAdapter.UseBuffers: preview buffers, preview data and buffers for reprocessing; image capture has no counts at this point, and the buffers of a video snapshot are left out.
- CameraFrames.BaseCameraAdapter.SendToType: a registered subscriber always has a callback.
- AudioProcessing.Processor.ProcessFrames: one pre-processor, and finitely many rounds, since the original does not end if the pre-processor never produces anything; moving frames within a buffer is meant to allow overlap.
- AudioCapture.CaptureStream.ReadFrames: no resampler; driver error codes are negative.
- EchoReference.RunSafe: one input and one output stream, each routine one step under its locks.
- Decoder.RunKeeps: registering new output buffers, and restarting the component's port.
- Decoder.FrameDecoder.DoProcessInputBuffer: switching an idle component to executing always succeeds, as the original asserts; the Huffman tables that are appended to some input data are left out.
- HwcComposer.ComposerDevice.CloneLayer: the buffer address of a cloned framebuffer is always that of the overlay, never an ION handle.
- HwcComposer.ComposerDevice.Set: the countdown of frames forced to the GPU, and the request for another frame when not all wanted overlays were granted.
- Pixels.PathsAgree: zero offset, even width and height; cancellation of the encoder and the YV12 and UYVY formats.
- Resize.ResizeFrame: no crop rectangle and no null images; the planes read as memory with some byte at every offset; output extents are positive, as the original divides by them.
- SwVsync.VsyncLoop.Turn: waiting, sleeping and the clock are parameters.
- Stereoscopic layers, the blitter and its regionizer, tiler buffers and ION handles, sync fences, kernel calls, EGL, hotplug events and sysfs.
- Colour conversion tables, strides and buffer addresses of overlay configurations.
- Deadlock and memory ordering: steps are atomic where the original holds a lock.
- Mixer routes, volumes, parameter strings, sensor listeners, events other than frames, logging.
- NEON variants of the pixel loops.
- Device open and close, EDID reading and dock image loading: easy members only.
