/** The transactional state machine of the camera adapter: `setState`, a hook, then `commitState`
    or `rollbackState` (camera/BaseCameraAdapter.cpp, built with OMAP_ENHANCEMENT_CPCAM). */
module CameraStates {
  import opened Wrappers

  datatype State =
    | Initialized | LoadedPreview | Preview | LoadedCapture | Capture | Bracketing | Af | Zoom
    | Video | VideoAf | VideoZoom | VideoLoadedCapture | VideoCapture | AfZoom | BracketingZoom
    | LoadedReprocess | LoadedReprocessCapture | Reprocess

  datatype Command =
    | StartPreview | StopPreview | StartVideo | StopVideo | StartImageCapture | StopImageCapture
    | PerformAutofocus | CancelAutofocus | StartSmoothZoom | StopSmoothZoom
    | UseBuffersPreview | UseBuffersPreviewData | UseBuffersImageCapture | UseBuffersVideoCapture | UseBuffersReprocess
    | StartBracketCapture | StopBracketCapture
    | QueryResolutionPreview | QueryBufferSizeImageCapture | QueryBufferSizePreviewData
    | StartFd | StopFd | SwitchToExecuting | PreviewInitialization
    | Unsupported

  /** Where `setState` wants to go; `Keep` leaves the target of the previous command alone. */
  datatype Target = Invalid | Keep | To(state: State)

  function Transition(s: State, op: Command): Target {
    match s
    case Initialized => (
      match op
      case UseBuffersPreview => To(LoadedPreview)
      case QueryResolutionPreview | QueryBufferSizePreviewData => To(Initialized)
      case _ => Invalid)
    case LoadedPreview => (
      match op
      case StartPreview => To(Preview)
      case StopPreview => To(Initialized)
      case QueryBufferSizeImageCapture | QueryBufferSizePreviewData | UseBuffersPreviewData => To(LoadedPreview)
      case _ => Invalid)
    case Preview => (
      match op
      case StopPreview => To(Initialized)
      case PerformAutofocus => To(Af)
      case StartSmoothZoom => To(Zoom)
      case UseBuffersImageCapture => To(LoadedCapture)
      case UseBuffersReprocess => To(LoadedReprocess)
      case StartVideo => To(Video)
      case CancelAutofocus | QueryBufferSizeImageCapture | StopSmoothZoom => To(Preview)
      case _ => Invalid)
    case LoadedReprocess => (
      match op
      case UseBuffersImageCapture => To(LoadedReprocessCapture)
      case QueryBufferSizeImageCapture => To(LoadedReprocess)
      case _ => Invalid)
    case LoadedReprocessCapture => if op.StartImageCapture? then To(Reprocess) else Invalid
    case LoadedCapture => (
      match op
      case StartImageCapture => To(Capture)
      case StartBracketCapture => To(Bracketing)
      case UseBuffersVideoCapture => Keep
      case _ => Invalid)
    case Capture => (
      match op
      case StopImageCapture | StopBracketCapture => To(Preview)
      case QueryBufferSizeImageCapture | StartImageCapture => To(Capture)
      case UseBuffersReprocess => To(LoadedReprocess)
      case _ => Invalid)
    case Bracketing => (
      match op
      case StopImageCapture | StopBracketCapture => To(Preview)
      case StartImageCapture => To(Capture)
      case _ => Invalid)
    case Af => (
      match op
      case CancelAutofocus => To(Preview)
      case StartSmoothZoom => To(AfZoom)
      case _ => Invalid)
    case Zoom => (
      match op
      case CancelAutofocus => To(Zoom)
      case StopSmoothZoom => To(Preview)
      case PerformAutofocus => To(AfZoom)
      case StartVideo => To(VideoZoom)
      case _ => Invalid)
    case Video => (
      match op
      case StopVideo => To(Preview)
      case PerformAutofocus => To(VideoAf)
      case StartSmoothZoom => To(VideoZoom)
      case UseBuffersImageCapture => To(VideoLoadedCapture)
      case QueryBufferSizeImageCapture => To(Video)
      case _ => Invalid)
    case VideoAf => if op.CancelAutofocus? then To(Video) else Invalid
    case VideoLoadedCapture => if op.StartImageCapture? then To(VideoCapture) else Invalid
    case VideoCapture => if op.StopImageCapture? then To(Video) else Invalid
    case AfZoom => (
      match op
      case StopSmoothZoom => To(Af)
      case CancelAutofocus => To(Zoom)
      case _ => Invalid)
    case VideoZoom => (
      match op
      case StopSmoothZoom => To(Video)
      case StopVideo => To(Zoom)
      case _ => Invalid)
    case BracketingZoom => if op.StopSmoothZoom? then To(Bracketing) else Invalid
    case Reprocess => (
      match op
      case StopImageCapture => To(Preview)
      case QueryBufferSizeImageCapture | StartImageCapture => To(Reprocess)
      case UseBuffersReprocess => To(LoadedReprocess)
      case UseBuffersImageCapture => To(LoadedCapture)
      case _ => Invalid)
  }

  // ---------------------------------------------------------------- states as sets of activities

  /** The bits that a state is made of. */
  datatype Activity =
    | InitBit | LoadedPreviewBit | PreviewBit | LoadedCaptureBit | CaptureBit | BracketingBit | AfBit | ZoomBit
    | VideoBit | LoadedReprocessBit | ReprocessBit

  function Activities(s: State): set<Activity> {
    match s
    case Initialized => {InitBit}
    case LoadedPreview => {InitBit, LoadedPreviewBit}
    case Preview => {InitBit, PreviewBit}
    case LoadedCapture => {InitBit, PreviewBit, LoadedCaptureBit}
    case Capture => {InitBit, PreviewBit, CaptureBit}
    case Bracketing => {InitBit, PreviewBit, CaptureBit, BracketingBit}
    case Af => {InitBit, PreviewBit, AfBit}
    case Zoom => {InitBit, PreviewBit, ZoomBit}
    case Video => {InitBit, PreviewBit, VideoBit}
    case VideoAf => {InitBit, PreviewBit, VideoBit, AfBit}
    case VideoZoom => {InitBit, PreviewBit, VideoBit, ZoomBit}
    case VideoLoadedCapture => {InitBit, PreviewBit, VideoBit, LoadedCaptureBit}
    case VideoCapture => {InitBit, PreviewBit, VideoBit, CaptureBit}
    case AfZoom => {InitBit, PreviewBit, AfBit, ZoomBit}
    case BracketingZoom => {InitBit, PreviewBit, BracketingBit, ZoomBit}
    case LoadedReprocess => {InitBit, PreviewBit, LoadedReprocessBit}
    case LoadedReprocessCapture => {InitBit, PreviewBit, LoadedReprocessBit, LoadedCaptureBit}
    case Reprocess => {InitBit, PreviewBit, ReprocessBit, CaptureBit}
  }

  predicate Recording(s: State) { VideoBit in Activities(s) }

  /** Activities that a command begins and ends, whatever the state it is allowed in. */
  function Begins(op: Command, active: set<Activity>): set<Activity> {
    match op
    case UseBuffersPreview => {LoadedPreviewBit}
    case StartPreview => {PreviewBit}
    case UseBuffersImageCapture => {LoadedCaptureBit}
    case UseBuffersReprocess => {LoadedReprocessBit}
    case StartImageCapture => if LoadedReprocessBit in active then {CaptureBit, ReprocessBit} else {CaptureBit}
    case StartBracketCapture => {CaptureBit, BracketingBit}
    case StartVideo => {VideoBit}
    case PerformAutofocus => {AfBit}
    case StartSmoothZoom => {ZoomBit}
    case _ => {}
  }

  function Ends(op: Command): set<Activity> {
    match op
    case StartPreview => {LoadedPreviewBit}
    case StopPreview => {LoadedPreviewBit, PreviewBit}
    case UseBuffersImageCapture | UseBuffersReprocess => {CaptureBit, ReprocessBit}
    case StartImageCapture => {LoadedCaptureBit, LoadedReprocessBit, BracketingBit}
    case StartBracketCapture => {LoadedCaptureBit}
    case StopImageCapture | StopBracketCapture => {CaptureBit, BracketingBit, ReprocessBit}
    case StopVideo => {VideoBit}
    case CancelAutofocus => {AfBit}
    case StopSmoothZoom => {ZoomBit}
    case _ => {}
  }

  /** The rule of all transitions: a command ends and begins its activities and leaves all others alone. */
  ghost predicate ActsOnActivities(s: State, op: Command)
    requires Transition(s, op).To?
  {
    Activities(Transition(s, op).state) == Activities(s) - Ends(op) + Begins(op, Activities(s))
  }

  lemma VideoActs(s: State, op: Command)
    requires Transition(s, op).To? && Recording(s)
    ensures ActsOnActivities(s, op)
  {
  }

  lemma CaptureActs(s: State, op: Command)
    requires Transition(s, op).To? && (CaptureBit in Activities(s) || LoadedCaptureBit in Activities(s))
    requires !Recording(s)
    ensures ActsOnActivities(s, op)
  {
  }

  /** The transition table is one rule, and only leaving the (unreachable) bracketing-and-zoom state departs
      from it. */
  lemma TransitionsActOnActivities(s: State, op: Command)
    requires Transition(s, op).To?
    ensures ActsOnActivities(s, op) <==> !(s.BracketingZoom? && op.StopSmoothZoom?)
  {
    if Recording(s) {
      VideoActs(s, op);
    } else if CaptureBit in Activities(s) || LoadedCaptureBit in Activities(s) {
      CaptureActs(s, op);
    } else if s.BracketingZoom? {
      assert CaptureBit in Activities(Bracketing) && CaptureBit !in Activities(s);
    }
  }

  // ---------------------------------------------------------------- which commands are admitted

  const IDLE_PREVIEW: set<Activity> := {InitBit, PreviewBit}

  /** Nothing to do with still pictures. */
  predicate NoStills(active: set<Activity>) {
    active !! {LoadedCaptureBit, CaptureBit, BracketingBit, LoadedReprocessBit, ReprocessBit}
  }

  predicate NoLens(active: set<Activity>) { AfBit !in active && ZoomBit !in active }

  /** Which commands the adapter admits while these activities go on. */
  predicate Admits(active: set<Activity>, op: Command) {
    match op
    // before the preview runs
    case UseBuffersPreview | QueryResolutionPreview => active == {InitBit}
    case QueryBufferSizePreviewData => PreviewBit !in active
    case StartPreview | UseBuffersPreviewData => LoadedPreviewBit in active
    case StopPreview => LoadedPreviewBit in active || active == IDLE_PREVIEW
    // recording and lens, while no still picture is being taken
    case StartVideo => PreviewBit in active && NoStills(active) && AfBit !in active && VideoBit !in active
    case StopVideo => VideoBit in active && NoStills(active) && AfBit !in active
    case PerformAutofocus =>
      PreviewBit in active && NoStills(active) && AfBit !in active && !(ZoomBit in active && VideoBit in active)
    case CancelAutofocus => PreviewBit in active && NoStills(active) && (VideoBit in active ==> AfBit in active)
    case StartSmoothZoom =>
      PreviewBit in active && NoStills(active) && ZoomBit !in active && !(AfBit in active && VideoBit in active)
    case StopSmoothZoom => ZoomBit in active || active == IDLE_PREVIEW
    // still pictures, with the lens at rest
    case UseBuffersImageCapture =>
      && PreviewBit in active && NoLens(active) && LoadedCaptureBit !in active
      && (CaptureBit in active ==> ReprocessBit in active)
    case UseBuffersReprocess =>
      && PreviewBit in active && NoLens(active)
      && active !! {VideoBit, LoadedCaptureBit, BracketingBit, LoadedReprocessBit}
    case UseBuffersVideoCapture | StartBracketCapture => active == IDLE_PREVIEW + {LoadedCaptureBit}
    case StartImageCapture => LoadedCaptureBit in active || (CaptureBit in active && VideoBit !in active)
    case StopImageCapture => CaptureBit in active
    case StopBracketCapture => CaptureBit in active && VideoBit !in active && ReprocessBit !in active
    case QueryBufferSizeImageCapture =>
      && active != {InitBit} && NoLens(active)
      && LoadedCaptureBit !in active && BracketingBit !in active && !(VideoBit in active && CaptureBit in active)
    case _ => false
  }

  lemma VideoAdmitted(s: State, op: Command)
    requires Recording(s)
    ensures !Transition(s, op).Invalid? <==> Admits(Activities(s), op)
  {
  }

  lemma StillsAdmitted(s: State, op: Command)
    requires !Recording(s) && !NoStills(Activities(s))
    ensures !Transition(s, op).Invalid? <==> Admits(Activities(s), op)
  {
  }

  /** The table admits exactly those. */
  lemma AdmittedExactly(s: State, op: Command)
    ensures !Transition(s, op).Invalid? <==> Admits(Activities(s), op)
  {
    if Recording(s) {
      VideoAdmitted(s, op);
    } else if !NoStills(Activities(s)) {
      StillsAdmitted(s, op);
    }
  }

  /** A state is determined by its activities. */
  lemma ActivitiesDetermineState(s: State, t: State)
    requires Activities(s) == Activities(t)
    ensures s == t
  {
    assert forall a: Activity :: a in Activities(s) <==> a in Activities(t);
  }

  // ---------------------------------------------------------------- what commands take and report

  /** Commands that go straight to a hook, without touching the state. */
  predicate Stateless(op: Command) {
    op.StartFd? || op.StopFd? || op.SwitchToExecuting? || op.PreviewInitialization? || op.Unsupported?
  }

  /** Commands whose missing buffer descriptor is reported before anything else. */
  predicate TakesBuffers(op: Command) {
    || op.UseBuffersPreview? || op.UseBuffersPreviewData? || op.UseBuffersImageCapture?
    || op.UseBuffersVideoCapture? || op.UseBuffersReprocess?
  }

  predicate TakesFrame(op: Command) {
    op.QueryResolutionPreview? || op.QueryBufferSizeImageCapture? || op.QueryBufferSizePreviewData?
  }

  /** Commands that call their hook, and take its result, even when `setState` has refused. */
  predicate HookAnyway(op: Command) { TakesBuffers(op) && !op.UseBuffersReprocess? }

  /** Arguments of a command and the outcome of its hook, were it called. */
  datatype Call = Call(op: Command, argument: bool, hookOk: bool)

  datatype Machine = Machine(state: State, next: State, recording: bool)

  /** What a hook returns: starting and stopping video depend on the recording flag alone. */
  predicate HookSucceeds(m: Machine, c: Call) {
    if c.op.StartVideo? then !m.recording
    else if c.op.StopVideo? then m.recording
    else c.hookOk && (TakesFrame(c.op) ==> c.argument)
  }

  /** A step of the abstract machine: either the transition happens as a whole, or nothing. */
  predicate Takes(m: Machine, c: Call) {
    && !Stateless(c.op) && (TakesBuffers(c.op) ==> c.argument)
    && !Transition(m.state, c.op).Invalid? && HookSucceeds(m, c)
  }

  /** The recording flag after the hook. */
  function Flag(m: Machine, op: Command): bool {
    if op.StartVideo? then true else if op.StopVideo? then false else m.recording
  }

  function Moved(m: Machine, op: Command): Machine {
    var s := match Transition(m.state, op) case To(s) => s case _ => m.state;
    Machine(s, s, Flag(m, op))
  }

  function After(m: Machine, c: Call): Machine { if Takes(m, c) then Moved(m, c.op) else m }

  /** Commands that end before `setState`. */
  predicate Untouched(c: Call) { Stateless(c.op) || (TakesBuffers(c.op) && !c.argument) }

  /** The hook is called, and what it returns is what the command returns. */
  predicate Calls(m: Machine, op: Command) { !Transition(m.state, op).Invalid? || HookAnyway(op) }

  /** What a command does step by step, whatever target is pending: `setState` may leave it, the hook may
      run all the same, and success commits it. */
  function Sent(m: Machine, c: Call): Machine {
    if Untouched(c) then m
    else
      var target := match Transition(m.state, c.op) case To(s) => s case _ => m.next;
      var recording := if Calls(m, c.op) then Flag(m, c.op) else m.recording;
      var s := if Calls(m, c.op) && HookSucceeds(m, c) then target else m.state;
      Machine(s, s, recording)
  }

  /** The result reported to the caller. */
  predicate Reports(m: Machine, c: Call) {
    if c.op.Unsupported? then true
    else if Stateless(c.op) then c.hookOk
    else if TakesBuffers(c.op) && !c.argument then false
    else HookSucceeds(m, c) && (Transition(m.state, c.op).Invalid? ==> HookAnyway(c.op))
  }

  // ---------------------------------------------------------------- the imperative routines

  class CameraAdapter {
    var adapterState: State
    var nextState: State
    var recording: bool
    var locked: bool

    function Value(): Machine
      reads this
    {
      Machine(adapterState, nextState, recording)
    }

    /** Between commands: the lock is free, no transition is pending, and the recording flag tells
        whether the state is a video state. */
    ghost predicate Valid()
      reads this
    {
      !locked && Settled(Value())
    }

    constructor ()
      ensures Valid() && Value() == Machine(Initialized, Initialized, false)
    {
      adapterState, nextState, recording, locked := Initialized, Initialized, false, false;
    }

    /** Takes the lock, whatever the outcome. */
    method SetState(op: Command) returns (ok: bool)
      requires !locked
      modifies this`nextState, this`locked
      ensures locked && ok == !Transition(adapterState, op).Invalid?
      ensures nextState == match Transition(adapterState, op) case To(s) => s case _ => old(nextState)
    {
      locked := true;
      match Transition(adapterState, op) {
        case Invalid => return false;
        case Keep => return true;
        case To(s) =>
          nextState := s;
          return true;
      }
    }

    method CommitState()
      requires locked
      modifies this`adapterState, this`locked
      ensures !locked && adapterState == nextState
    {
      adapterState := nextState;
      locked := false;
    }

    method RollbackState()
      requires locked
      modifies this`nextState, this`locked
      ensures !locked && nextState == adapterState
    {
      nextState := adapterState;
      locked := false;
    }

    method StartVideoCapture() returns (ok: bool)
      modifies this`recording
      ensures ok == !old(recording) && recording
    {
      if recording {
        return false;
      }
      recording := true;
      return true;
    }

    method StopVideoCapture() returns (ok: bool)
      modifies this`recording
      ensures ok == old(recording) && !recording
    {
      if !recording {
        return false;
      }
      recording := false;
      return true;
    }

    method RunHook(c: Call) returns (ok: bool)
      modifies this`recording
      ensures ok == old(HookSucceeds(Value(), c))
      ensures recording == old(Flag(Value(), c.op))
    {
      if c.op.StartVideo? {
        ok := StartVideoCapture();
      } else if c.op.StopVideo? {
        ok := StopVideoCapture();
      } else if TakesFrame(c.op) && !c.argument {
        ok := false;
      } else {
        ok := c.hookOk;
      }
    }

    /** Every command is a transaction: it moves the state as a whole or leaves everything alone, if no
        target is pending. */
    method SendCommand(c: Call) returns (ok: bool)
      requires !locked
      modifies this
      ensures !locked && Value() == Sent(old(Value()), c)
      ensures old(Valid()) ==> Valid() && Value() == After(old(Value()), c)
      ensures ok == old(Reports(Value(), c))
    {
      if Valid() {
        SentIsAfter(Value(), c);
        StepSettles(Value(), c);
      }
      if c.op.Unsupported? {
        return true;
      }
      if Stateless(c.op) {
        return c.hookOk;
      }
      if TakesBuffers(c.op) && !c.argument {
        return false;
      }
      ok := SetState(c.op);
      if ok || HookAnyway(c.op) {
        ok := RunHook(c);
      }
      if ok {
        CommitState();
      } else {
        RollbackState();
      }
    }

    method RollbackToPreviousState(hookOk: bool) returns (ok: bool)
      requires Valid()
      modifies this
      ensures Valid()
      ensures match BackCommand(old(adapterState))
              case Some(op) =>
                && Value() == After(old(Value()), Call(op, false, hookOk))
                && ok == old(Reports(Value(), Call(op, false, hookOk)))
              case None => Value() == old(Value()) && ok == old(adapterState).Initialized?
    {
      match adapterState
      case Initialized => return true;
      case Preview => ok := SendCommand(Call(StopPreview, false, hookOk));
      case Capture | Reprocess => ok := SendCommand(Call(StopImageCapture, false, hookOk));
      case Bracketing => ok := SendCommand(Call(StopBracketCapture, false, hookOk));
      case Af => ok := SendCommand(Call(CancelAutofocus, false, hookOk));
      case Zoom => ok := SendCommand(Call(StopSmoothZoom, false, hookOk));
      case Video => ok := SendCommand(Call(StopVideo, false, hookOk));
      case VideoAf => ok := SendCommand(Call(CancelAutofocus, false, hookOk));
      case VideoCapture => ok := SendCommand(Call(StopImageCapture, false, hookOk));
      case AfZoom => ok := SendCommand(Call(StopSmoothZoom, false, hookOk));
      case VideoZoom => ok := SendCommand(Call(StopSmoothZoom, false, hookOk));
      case BracketingZoom => ok := SendCommand(Call(StopSmoothZoom, false, hookOk));
      case _ => return false;
    }

    /** `hooks(n)` is the outcome of the n-th hook.  The loop ends because every step back lowers the
        rank; with succeeding hooks it reaches the initial state, with recording switched off, exactly
        from the states it handles. */
    method RollbackToInitializedState(hooks: nat -> bool) returns (ok: bool)
      requires Valid()
      modifies this
      ensures Valid() && (ok <==> adapterState.Initialized?)
      ensures ok ==> !recording
      ensures (forall n :: hooks(n)) ==> (ok <==> Handled(old(adapterState)))
      ensures !Handled(old(adapterState)) ==> Value() == old(Value())
    {
      ok := true;
      var n := 0;
      while !adapterState.Initialized? && ok
        invariant Valid() && (!ok ==> !adapterState.Initialized?)
        invariant !Handled(old(adapterState)) ==> Value() == old(Value())
        invariant Handled(old(adapterState)) ==> Handled(adapterState)
        invariant (forall i :: hooks(i)) && Handled(old(adapterState)) ==> ok
        decreases Rank(adapterState), ok
      {
        BackStep(Value(), hooks(n));
        ok := RollbackToPreviousState(hooks(n));
        n := n + 1;
      }
    }
  }

  // ---------------------------------------------------------------- rolling back

  /** The command that leaves a state towards the initial one. */
  function BackCommand(s: State): Option<Command> {
    match s
    case Preview => Some(StopPreview)
    case Capture | Reprocess | VideoCapture => Some(StopImageCapture)
    case Bracketing => Some(StopBracketCapture)
    case Af | VideoAf => Some(CancelAutofocus)
    case Zoom | AfZoom | VideoZoom | BracketingZoom => Some(StopSmoothZoom)
    case Video => Some(StopVideo)
    case _ => None
  }

  /** Loaded states cannot be rolled back. */
  predicate Handled(s: State) { s.Initialized? || BackCommand(s).Some? }

  function Rank(s: State): nat {
    match s
    case Initialized => 0
    case Preview | LoadedPreview => 1
    case Capture | Reprocess | Bracketing | Af | Zoom | Video => 2
    case LoadedCapture | LoadedReprocess | LoadedReprocessCapture => 2
    case VideoAf | VideoCapture | AfZoom | VideoZoom | BracketingZoom | VideoLoadedCapture => 3
  }

  ghost predicate Settled(m: Machine) { m.next == m.state && (m.recording <==> Recording(m.state)) }

  /** A step back is never refused; if its hook succeeds it lowers the rank and stays within the
      handled states, otherwise it changes nothing. */
  lemma BackStep(m: Machine, hookOk: bool)
    requires Settled(m)
    ensures var op := BackCommand(m.state);
            op.Some? ==>
              && var c := Call(op.value, false, hookOk); var m' := After(m, c);
                 && Settled(m') && Handled(m'.state)
                 && (Reports(m, c) <==> HookSucceeds(m, c))
                 && (Reports(m, c) ==> Rank(m'.state) < Rank(m.state))
                 && (!Reports(m, c) ==> m' == m)
                 && (hookOk ==> Reports(m, c))
  {
  }

  // ---------------------------------------------------------------- whole runs

  function Run(m: Machine, cs: seq<Call>, k: nat): Machine
    requires k <= |cs|
  {
    if k == 0 then m else After(Run(m, cs, k - 1), cs[k - 1])
  }

  lemma StepSettles(m: Machine, c: Call)
    requires Settled(m)
    ensures Settled(After(m, c))
  {
  }

  const START := Machine(Initialized, Initialized, false)

  /** In every run the recording flag is on exactly in the video states, and no target is left over. */
  lemma {:induction false} RunSettles(cs: seq<Call>, k: nat)
    requires k <= |cs|
    ensures Settled(Run(START, cs, k))
  {
    if k > 0 {
      RunSettles(cs, k - 1);
      StepSettles(Run(START, cs, k - 1), cs[k - 1]);
    }
  }

  // ---------------------------------------------------------------- a pending target

  lemma SentIsAfter(m: Machine, c: Call)
    requires Settled(m)
    ensures Sent(m, c) == After(m, c)
  {
  }

  /** The command succeeds without having set a target. */
  predicate Stale(s: State, c: Call) {
    HookAnyway(c.op) && c.argument && c.hookOk && !Transition(s, c.op).To?
  }

  /** A pending target gets committed by exactly the commands that succeed without setting one. */
  lemma StaleExactly(m: Machine, c: Call)
    requires m.next != m.state
    ensures Sent(m, c).state != Sent(m.(next := m.state), c).state <==> Stale(m.state, c)
    ensures Stale(m.state, c) ==> Sent(m, c).state == m.next
  {
    KeptByBuffers(m.state, c.op);
  }

  lemma KeptByBuffers(s: State, op: Command)
    ensures Transition(s, op).Keep? ==> op.UseBuffersVideoCapture?
  {
  }

  function SentRun(m: Machine, cs: seq<Call>, k: nat): Machine
    requires k <= |cs|
  {
    if k == 0 then m else Sent(SentRun(m, cs, k - 1), cs[k - 1])
  }

  lemma {:induction false} SentRunAfter(m: Machine, cs: seq<Call>, i: nat, k: nat)
    requires i <= k <= |cs| && SentRun(m, cs, i) == Run(START, cs, i)
    ensures SentRun(m, cs, k) == Run(START, cs, k)
  {
    if k > i {
      SentRunAfter(m, cs, i, k - 1);
      RunSettles(cs, k - 1);
      SentIsAfter(Run(START, cs, k - 1), cs[k - 1]);
    }
  }

  lemma {:induction false} Waiting(m: Machine, cs: seq<Call>, i: nat)
    requires i <= |cs| && forall j :: 0 <= j < i ==> Untouched(cs[j])
    ensures SentRun(m, cs, i) == m && Run(START, cs, i) == START
  {
    if i > 0 {
      Waiting(m, cs, i - 1);
    }
  }

  /** The constructor does not initialise the pending target.  Whatever it happens to be, all runs go as if
      it were the initial state from the first command `i` that gets to `setState` on, if and only if that
      command does not succeed without setting a target. */
  lemma UninitialisedTargetExactly(t: State, cs: seq<Call>, i: nat)
    requires i < |cs| && !Untouched(cs[i]) && forall j :: 0 <= j < i ==> Untouched(cs[j])
    ensures (forall k :: i < k <= |cs| ==> SentRun(Machine(Initialized, t, false), cs, k) == Run(START, cs, k))
            <==> (t.Initialized? || !Stale(Initialized, cs[i]))
  {
    var m := Machine(Initialized, t, false);
    Waiting(m, cs, i);
    SentIsAfter(START, cs[i]);
    assert SentRun(m, cs, i + 1) == Sent(m, cs[i]) && Run(START, cs, i + 1) == Sent(START, cs[i]);
    if t.Initialized? || !Stale(Initialized, cs[i]) {
      FirstTarget(t, cs[i]);
      forall k | i < k <= |cs| ensures SentRun(m, cs, k) == Run(START, cs, k) {
        SentRunAfter(m, cs, i + 1, k);
      }
    } else {
      StaleExactly(m, cs[i]);
      assert SentRun(m, cs, i + 1) != Run(START, cs, i + 1);
    }
  }

  lemma FirstTarget(t: State, c: Call)
    requires !Untouched(c) && (t.Initialized? || !Stale(Initialized, c))
    ensures Sent(Machine(Initialized, t, false), c) == Sent(START, c)
  {
  }

  /** A command that reports failure has changed nothing. */
  lemma FailureChangesNothing(m: Machine, c: Call)
    requires Settled(m) && !Reports(m, c)
    ensures After(m, c) == m
  {
  }

  /** Commands that need an argument to go on. */
  predicate Needs(op: Command) {
    op in {UseBuffersPreview, UseBuffersPreviewData, UseBuffersImageCapture, UseBuffersVideoCapture,
           UseBuffersReprocess, QueryResolutionPreview, QueryBufferSizeImageCapture, QueryBufferSizePreviewData}
  }

  /** The hook succeeds, or cannot fail: that of video depends on whether the adapter records. */
  predicate Works(c: Call) {
    c.op in {StartVideo, StopVideo} || (c.hookOk && (Needs(c.op) ==> c.argument))
  }

  /** A command that works and is admitted moves the machine by the rule of activities; any other leaves it
      alone. */
  lemma CommandsMoveExactly(m: Machine, c: Call)
    requires Settled(m) && !(m.state.BracketingZoom? && c.op.StopSmoothZoom?)
    ensures var active := Activities(m.state);
            if Admits(active, c.op) && Works(c)
            then Activities(After(m, c).state) == active - Ends(c.op) + Begins(c.op, active)
            else After(m, c) == m
  {
    AdmittedExactly(m.state, c.op);
    AdmittedWorks(m, c);
    if Transition(m.state, c.op).To? {
      TransitionsActOnActivities(m.state, c.op);
    } else if Transition(m.state, c.op).Keep? {
      KeptByBuffers(m.state, c.op);
    }
  }

  lemma AdmittedWorks(m: Machine, c: Call)
    requires Settled(m)
    ensures Takes(m, c) <==> Admits(Activities(m.state), c.op) && Works(c)
  {
    AdmittedExactly(m.state, c.op);
    if Admits(Activities(m.state), c.op) {
      HooksInOrder(m, c);
    }
  }

  /** A command reports success if it works and is admitted; or is refused, but hands over buffers (other than
      for reprocessing); or does not touch the state; or is not known. */
  lemma ReportsExactly(m: Machine, c: Call)
    requires Settled(m)
    ensures Reports(m, c) <==>
              || (Works(c) && Admits(Activities(m.state), c.op))
              || (Works(c) && c.op in {UseBuffersPreview, UseBuffersPreviewData, UseBuffersImageCapture,
                                       UseBuffersVideoCapture})
              || (c.hookOk && c.op in {StartFd, StopFd, SwitchToExecuting, PreviewInitialization})
              || c.op == Unsupported
  {
    AdmittedExactly(m.state, c.op);
    AdmittedWorks(m, c);
  }

  /** The video hooks cannot fail where their commands are admitted. */
  lemma HooksInOrder(m: Machine, c: Call)
    requires Settled(m) && Admits(Activities(m.state), c.op)
    ensures !Stateless(c.op) && (c.op in {StartVideo, StopVideo} ==> HookSucceeds(m, c))
  {
  }

  /** A command whose argument is there and whose hook succeeds reports success although it was
      refused exactly if it hands over buffers (other than for reprocessing). */
  lemma RefusalReportsSuccess(m: Machine, c: Call)
    requires Settled(m) && !Stateless(c.op) && Transition(m.state, c.op).Invalid?
    ensures After(m, c) == m
    ensures Reports(m, c) <==> HookAnyway(c.op) && c.argument && c.hookOk
  {
  }

  /** Capture buffers handed over before the preview is set up: refused, reported as a success. */
  lemma RefusedBuffersReportSuccess()
    ensures var c := Call(UseBuffersImageCapture, true, true);
            Transition(START.state, c.op).Invalid? && Reports(START, c) && After(START, c) == START
  {
    RefusalReportsSuccess(START, Call(UseBuffersImageCapture, true, true));
  }

  /** After handing over the preview buffers, rolling back gives up. */
  lemma LoadedPreviewNotHandled()
    ensures var m := Run(START, [Call(UseBuffersPreview, true, true)], 1);
            m == Machine(LoadedPreview, LoadedPreview, false) && !Handled(m.state)
  {
    var c := Call(UseBuffersPreview, true, true);
    assert Run(START, [c], 0) == START;
    assert Run(START, [c], 1) == After(START, c);
  }

  /** Bracketing while zooming is never entered. */
  lemma {:induction false} BracketingZoomUnreachable(cs: seq<Call>, k: nat)
    requires k <= |cs|
    ensures Run(START, cs, k).state != BracketingZoom
  {
    if k > 0 {
      BracketingZoomUnreachable(cs, k - 1);
    }
  }

  // ---------------------------------------------------------------- no dead ends

  /** A way on towards the initial state, also from the loaded states. */
  function Onward(s: State): Command {
    match s
    case LoadedPreview => StopPreview
    case LoadedCapture | VideoLoadedCapture | LoadedReprocessCapture => StartImageCapture
    case LoadedReprocess => UseBuffersImageCapture
    case _ => if BackCommand(s).Some? then BackCommand(s).value else QueryResolutionPreview
  }

  function Distance(s: State): nat {
    match s
    case Initialized => 0
    case Preview | LoadedPreview => 1
    case Capture | Reprocess | Bracketing | Af | Zoom | Video => 2
    case LoadedCapture | LoadedReprocessCapture | VideoAf | VideoCapture | AfZoom | VideoZoom | BracketingZoom => 3
    case VideoLoadedCapture | LoadedReprocess => 4
  }

  lemma {:induction false} RunFront(m: Machine, cs: seq<Call>, k: nat)
    requires 0 < k <= |cs|
    ensures Run(m, cs, k) == Run(After(m, cs[0]), cs[1..], k - 1)
  {
    if k > 1 {
      RunFront(m, cs, k - 1);
    }
  }

  lemma OnwardNearer(m: Machine)
    requires Settled(m) && !m.state.Initialized?
    ensures var m' := After(m, Call(Onward(m.state), true, true));
            Settled(m') && Distance(m'.state) == Distance(m.state) - 1
  {
  }

  /** From every state, loaded ones included, commands with succeeding hooks lead to the initial
      state, and recording is then off. */
  lemma {:induction false} AlwaysAWayBack(m: Machine)
    requires Settled(m)
    ensures exists cs: seq<Call> :: |cs| == Distance(m.state) && Run(m, cs, |cs|) == START
    decreases Distance(m.state)
  {
    if m.state.Initialized? {
      assert Run(m, [], 0) == START;
    } else {
      var c := Call(Onward(m.state), true, true);
      var m' := After(m, c);
      OnwardNearer(m);
      AlwaysAWayBack(m');
      var rest: seq<Call> :| |rest| == Distance(m'.state) && Run(m', rest, |rest|) == START;
      var cs := [c] + rest;
      assert cs[1..] == rest;
      RunFront(m, cs, |cs|);
    }
  }
}
