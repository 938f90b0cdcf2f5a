/** Reference counts of camera frames: who holds a buffer, and when it goes back to the producer
    (camera/BaseCameraAdapter.cpp). */
module CameraFrames {
  type Buffer = int

  datatype FrameType = PreviewSync | Image | VideoSync | FrameData | Raw | Snapshot | ReprocessInput

  /** The types that carry a count, by ascending mask bit. */
  const TYPES: seq<FrameType> := [PreviewSync, Image, VideoSync, FrameData, Raw, Snapshot, ReprocessInput]

  /** The maps that hold the counts.  Images and raw frames share one. */
  datatype Pool = Preview | Capture | Video | PreviewData | Snapshots | VideoIn

  function PoolOf(t: FrameType): Pool {
    match t
    case PreviewSync => Preview
    case Image => Capture
    case Raw => Capture
    case VideoSync => Video
    case FrameData => PreviewData
    case Snapshot => Snapshots
    case ReprocessInput => VideoIn
  }

  /** All counts; a missing entry means that the map does not know the buffer. */
  type Counts = map<(Pool, Buffer), int>

  function PoolCount(cs: Counts, p: Pool, b: Buffer): int { if (p, b) in cs then cs[(p, b)] else -1 }

  function Count(cs: Counts, t: FrameType, b: Buffer): int { PoolCount(cs, PoolOf(t), b) }

  function Positive(n: int): nat { if n > 0 then n else 0 }

  /** `getFrameRefCount` over the first `k` types. */
  function Sum(cs: Counts, b: Buffer, k: nat): nat
    requires k <= |TYPES|
  {
    if k == 0 then 0 else Sum(cs, b, k - 1) + Positive(Count(cs, TYPES[k - 1], b))
  }

  ghost predicate NoCount(cs: Counts, b: Buffer) { forall p: Pool :: PoolCount(cs, p, b) <= 0 }

  lemma SumIsZero(cs: Counts, b: Buffer)
    ensures Sum(cs, b, |TYPES|) == 0 <==> NoCount(cs, b)
  {
    assert Sum(cs, b, 1) == Positive(PoolCount(cs, Preview, b));
    assert Sum(cs, b, 2) == Sum(cs, b, 1) + Positive(PoolCount(cs, Capture, b));
    assert Sum(cs, b, 3) == Sum(cs, b, 2) + Positive(PoolCount(cs, Video, b));
    assert Sum(cs, b, 4) == Sum(cs, b, 3) + Positive(PoolCount(cs, PreviewData, b));
    assert Sum(cs, b, 5) == Sum(cs, b, 4) + Positive(PoolCount(cs, Capture, b));
    assert Sum(cs, b, 6) == Sum(cs, b, 5) + Positive(PoolCount(cs, Snapshots, b));
    assert Sum(cs, b, 7) == Sum(cs, b, 6) + Positive(PoolCount(cs, VideoIn, b));
    if Sum(cs, b, 7) == 0 {
      forall p: Pool ensures PoolCount(cs, p, b) <= 0 {
        match p case Preview => case Capture => case Video => case PreviewData => case Snapshots => case VideoIn =>
      }
    }
  }

  // ---------------------------------------------------------------- one return

  /** `returnFrame`: the new counts, and whether the buffer goes back to the producer. */
  function Return(cs: Counts, recording: bool, b: Buffer, t: FrameType): (Counts, bool) {
    var c := Count(cs, t, b);
    if c <= 0 then (cs, false)
    else
      var cs' := cs[(PoolOf(t), b) := c - 1];
      (cs', c - 1 + (if recording then Sum(cs', b, |TYPES|) else 0) == 0)
  }

  /** A surplus return changes nothing and never fills.  Any other return takes one count, and fills
      exactly when it was the last: of its own pool, and while recording of all pools. */
  lemma ReturnReleases(cs: Counts, recording: bool, b: Buffer, t: FrameType)
    ensures var (cs', fills) := Return(cs, recording, b, t);
            && (forall p, a :: PoolCount(cs', p, a)
                  == PoolCount(cs, p, a) - if (p, a) == (PoolOf(t), b) && Count(cs, t, b) > 0 then 1 else 0)
            && (fills <==> Count(cs, t, b) == 1 && (recording ==> NoCount(cs', b)))
            && (Count(cs, t, b) <= 0 ==> cs' == cs)
  {
    SumIsZero(Return(cs, recording, b, t).0, b);
  }

  // ---------------------------------------------------------------- delivery and returns, interleaved

  /** One frame handed to one subscriber. */
  datatype Hold = Hold(t: FrameType, b: Buffer)

  /** The adapter, with the history that its counts stand for: frames announced but not yet handed
      out (`pending`), frames with subscribers (`held`), deliveries begun and buffers refilled. */
  datatype Adapter = Adapter(counts: Counts, recording: bool, pending: multiset<Hold>, held: multiset<Hold>,
                             delivered: multiset<Buffer>, filled: multiset<Buffer>)

  /** Steps of producer, subscribers and controlling thread; `keys` are the buffers of the video map.
      New buffers are numbered from 1. */
  datatype Event =
    | Deliver(b: Buffer, mask: set<FrameType>)
    | Callback(h: Hold)
    | GiveBack(h: Hold)
    | StartVideo
    | StopVideo(keys: seq<Buffer>)
    | UseBuffers(t: FrameType, maxQueueable: nat, count: nat)

  /** `setInitFrameRefCount` over the first `k` types, with `subs` subscribers each. */
  function InitCounts(cs: Counts, subs: FrameType -> nat, b: Buffer, mask: set<FrameType>, k: nat): Counts
    requires k <= |TYPES|
  {
    if k == 0 then cs
    else
      var cs' := InitCounts(cs, subs, b, mask, k - 1);
      if TYPES[k - 1] in mask then cs'[(PoolOf(TYPES[k - 1]), b) := subs(TYPES[k - 1])] else cs'
  }

  function Announced(pending: multiset<Hold>, subs: FrameType -> nat, b: Buffer, mask: set<FrameType>,
                     k: nat): multiset<Hold>
    requires k <= |TYPES|
  {
    if k == 0 then pending
    else
      var r := Announced(pending, subs, b, mask, k - 1);
      if TYPES[k - 1] in mask then r[Hold(TYPES[k - 1], b) := subs(TYPES[k - 1])] else r
  }

  /** `startVideoCapture`: video counts of all preview buffers start at zero. */
  function StartCounts(cs: Counts): Counts {
    (map x | x in cs && x.0 != Video :: cs[x]) + (map b | b in PreviewBuffers(cs) :: (Video, b) := 0)
  }

  function PreviewBuffers(cs: Counts): set<Buffer> { set x | x in cs && x.0 == Preview :: x.1 }

  function GivenBack(s: Adapter, h: Hold): Adapter {
    var (cs, fills) := Return(s.counts, s.recording, h.b, h.t);
    s.(counts := cs, held := s.held - multiset{h}, filled := if fills then s.filled + multiset{h.b} else s.filled)
  }

  function StopFrame(s: Adapter, key: Buffer): Adapter {
    if Count(s.counts, VideoSync, key) > 0 then GivenBack(s, Hold(VideoSync, key)) else s
  }

  /** `stopVideoCapture` returns one video frame of each buffer that has any. */
  function StopLoop(s: Adapter, keys: seq<Buffer>, k: nat): Adapter
    requires k <= |keys|
  {
    if k == 0 then s else StopFrame(StopLoop(s, keys, k - 1), keys[k - 1])
  }

  /** The types for which buffers with counts can be handed over. */
  predicate Loadable(t: FrameType) { t.PreviewSync? || t.FrameData? || t.ReprocessInput? }

  /** New preview buffers take the counts of snapshots away, too. */
  function ClearedBy(t: FrameType): set<Pool> { {PoolOf(t)} + if t.PreviewSync? then {Snapshots} else {} }

  /** The counts after the first `n` new buffers. */
  function LoadCounts(cs: Counts, t: FrameType, maxQueueable: nat, n: nat): Counts {
    if n == 0 then map x | x in cs && x.0 !in ClearedBy(t) :: cs[x]
    else LoadCounts(cs, t, maxQueueable, n - 1)[(PoolOf(t), n) := if n <= maxQueueable then 0 else 1]
  }

  function Larger(a: nat, b: nat): nat { if a < b then b else a }

  /** The new buffers that cannot be queued stay with the buffer provider. */
  function Provider(maxQueueable: nat, count: nat): set<Buffer> {
    set b: Buffer | 0 < b <= count && Unqueueable(maxQueueable, b)
  }

  predicate Unqueueable(maxQueueable: nat, b: Buffer) { maxQueueable < b }

  /** The frames of the buffer provider; each counts as an earlier delivery. */
  function Provided(t: FrameType, maxQueueable: nat, count: nat): multiset<Hold> {
    multiset(set b | b in Provider(maxQueueable, count) :: Hold(t, b))
  }

  function Apply(s: Adapter, subs: FrameType -> nat, e: Event): Adapter {
    match e
    case Deliver(b, mask) =>
      s.(counts := InitCounts(s.counts, subs, b, mask, |TYPES|),
         pending := Announced(s.pending, subs, b, mask, |TYPES|), delivered := s.delivered + multiset{b})
    case Callback(h) => s.(pending := s.pending - multiset{h}, held := s.held + multiset{h})
    case GiveBack(h) => GivenBack(s, h)
    case StartVideo => if s.recording then s else s.(counts := StartCounts(s.counts), recording := true)
    case StopVideo(keys) => if s.recording then StopLoop(s, keys, |keys|).(recording := false) else s
    case UseBuffers(t, maxQueueable, count) =>
      s.(counts := LoadCounts(s.counts, t, maxQueueable, Larger(maxQueueable, count)),
         held := s.held + Provided(t, maxQueueable, count),
         delivered := s.delivered + multiset(Provider(maxQueueable, count)))
  }

  function Outstanding(s: Adapter, t: FrameType, b: Buffer): nat { s.pending[Hold(t, b)] + s.held[Hold(t, b)] }

  function PoolOut(s: Adapter, p: Pool, b: Buffer): nat {
    match p
    case Preview => Outstanding(s, PreviewSync, b)
    case Capture => Outstanding(s, Image, b) + Outstanding(s, Raw, b)
    case Video => Outstanding(s, VideoSync, b)
    case PreviewData => Outstanding(s, FrameData, b)
    case Snapshots => Outstanding(s, Snapshot, b)
    case VideoIn => Outstanding(s, ReprocessInput, b)
  }

  ghost predicate Busy(s: Adapter, b: Buffer) { exists p: Pool :: PoolOut(s, p, b) > 0 }

  /** At most one pool of a buffer is outstanding; `but` does not matter. */
  ghost predicate OnePool(s: Adapter, b: Buffer, but: set<Pool>) {
    forall p: Pool, q: Pool :: PoolOut(s, p, b) > 0 && PoolOut(s, q, b) > 0 ==> p == q || p in but || q in but
  }

  ghost predicate DistinctKeys(keys: seq<Buffer>) {
    forall i, j :: 0 <= i < j < |keys| ==> keys[i] != keys[j]
  }

  /** The keys of the video map, each once. */
  ghost predicate VideoKeys(cs: Counts, keys: seq<Buffer>) {
    DistinctKeys(keys) && forall b :: b in keys <==> (Video, b) in cs
  }

  predicate Shared(mask: set<FrameType>) { Image in mask && Raw in mask }

  /** The condition under which a delivery is safe: no two types share a count, and there are several
      types only while recording. */
  ghost predicate Safe(recording: bool, mask: set<FrameType>) {
    !Shared(mask) && (recording || exists t :: mask == {t})
  }

  /** What the parties have to keep to: the producer delivers a buffer only while it has it, subscribers
      return what they hold (or what has no count left, which is harmless), recording starts and stops
      with nothing in flight that it would lose, and new buffers come when the old ones are back. */
  ghost predicate Allowed(s: Adapter, subs: FrameType -> nat, e: Event) {
    match e
    case Deliver(b, mask) =>
      mask != {} && (forall t :: t in mask ==> subs(t) > 0) && !Busy(s, b) && Safe(s.recording, mask)
    case Callback(h) => h in s.pending
    case GiveBack(h) => h in s.held || Count(s.counts, h.t, h.b) <= 0
    case StartVideo => s.recording || forall b :: PoolOut(s, Video, b) == 0
    case StopVideo(keys) =>
      !s.recording || (VideoKeys(s.counts, keys) &&
                       forall b :: s.pending[Hold(VideoSync, b)] == 0 && s.held[Hold(VideoSync, b)] <= 1
                                   && OnePool(s, b, {Video}))
    case UseBuffers(t, maxQueueable, count) =>
      && Loadable(t) && (forall p, b :: p in ClearedBy(t) ==> PoolOut(s, p, b) == 0)
      && forall b :: b in Provider(maxQueueable, count) ==> !Busy(s, b)
  }

  ghost predicate CountsAreHolds(s: Adapter) {
    forall p: Pool, b: Buffer :: Positive(PoolCount(s.counts, p, b)) == PoolOut(s, p, b)
  }

  /** A buffer has been refilled once for each delivery, except for the one still outstanding. */
  ghost predicate FilledOnce(s: Adapter) {
    forall b: Buffer :: s.delivered[b] == s.filled[b] + if Busy(s, b) then 1 else 0
  }

  ghost predicate Inv(s: Adapter) {
    CountsAreHolds(s) && FilledOnce(s) && (s.recording || forall b :: OnePool(s, b, {}))
  }

  // ---------------------------------------------------------------- every step keeps the invariant

  lemma {:induction false} AnnouncedAt(pending: multiset<Hold>, subs: FrameType -> nat, b: Buffer,
                                       mask: set<FrameType>, k: nat, h: Hold)
    requires k <= |TYPES|
    ensures Announced(pending, subs, b, mask, k)[h]
            == if h.b == b && h.t in mask && h.t in TYPES[..k] then subs(h.t) else pending[h]
  {
    if k > 0 {
      AnnouncedAt(pending, subs, b, mask, k - 1, h);
      assert TYPES[..k] == TYPES[..k - 1] + [TYPES[k - 1]];
    }
  }

  lemma {:induction false} InitKeepsOthers(cs: Counts, subs: FrameType -> nat, b: Buffer, mask: set<FrameType>,
                                        k: nat, p: Pool, a: Buffer)
    requires k <= |TYPES| && (a != b || forall t :: t in mask ==> PoolOf(t) != p)
    ensures PoolCount(InitCounts(cs, subs, b, mask, k), p, a) == PoolCount(cs, p, a)
  {
    if k > 0 {
      InitKeepsOthers(cs, subs, b, mask, k - 1, p, a);
    }
  }

  lemma {:induction false} InitSets(cs: Counts, subs: FrameType -> nat, b: Buffer, mask: set<FrameType>, k: nat, i: nat)
    requires i < k <= |TYPES| && TYPES[i] in mask
    requires forall t :: t in mask && PoolOf(t) == PoolOf(TYPES[i]) ==> t == TYPES[i]
    ensures Count(InitCounts(cs, subs, b, mask, k), TYPES[i], b) == subs(TYPES[i])
  {
    if k - 1 > i {
      InitSets(cs, subs, b, mask, k - 1, i);
    }
  }

  lemma AllTypes(t: FrameType)
    ensures t in TYPES[..|TYPES|]
  {
    match t
    case PreviewSync => assert TYPES[0] == t;
    case Image => assert TYPES[1] == t;
    case VideoSync => assert TYPES[2] == t;
    case FrameData => assert TYPES[3] == t;
    case Raw => assert TYPES[4] == t;
    case Snapshot => assert TYPES[5] == t;
    case ReprocessInput => assert TYPES[6] == t;
  }

  /** Outstanding frames after a delivery. */
  lemma DeliverOut(s: Adapter, subs: FrameType -> nat, b: Buffer, mask: set<FrameType>, t: FrameType, a: Buffer)
    ensures var s' := Apply(s, subs, Deliver(b, mask));
            Outstanding(s', t, a) == if a == b && t in mask then subs(t) + s.held[Hold(t, a)] else Outstanding(s, t, a)
  {
    AnnouncedAt(s.pending, subs, b, mask, |TYPES|, Hold(t, a));
    AllTypes(t);
  }

  lemma DeliverCount(cs: Counts, subs: FrameType -> nat, b: Buffer, mask: set<FrameType>, t: FrameType, a: Buffer)
    requires t != Image && t != Raw
    ensures Count(InitCounts(cs, subs, b, mask, |TYPES|), t, a)
            == if a == b && t in mask then subs(t) else Count(cs, t, a)
  {
    AllTypes(t);
    if a == b && t in mask {
      var i :| 0 <= i < |TYPES| && TYPES[i] == t;
      InitSets(cs, subs, b, mask, |TYPES|, i);
    } else {
      InitKeepsOthers(cs, subs, b, mask, |TYPES|, PoolOf(t), a);
    }
  }

  lemma DeliverCapture(cs: Counts, subs: FrameType -> nat, b: Buffer, mask: set<FrameType>, a: Buffer)
    requires !Shared(mask)
    ensures PoolCount(InitCounts(cs, subs, b, mask, |TYPES|), Capture, a)
            == if a == b && Image in mask then subs(Image)
               else if a == b && Raw in mask then subs(Raw)
               else PoolCount(cs, Capture, a)
  {
    if a == b && Image in mask {
      assert TYPES[1] == Image;
      InitSets(cs, subs, b, mask, |TYPES|, 1);
    } else if a == b && Raw in mask {
      assert TYPES[4] == Raw;
      InitSets(cs, subs, b, mask, |TYPES|, 4);
    } else {
      InitKeepsOthers(cs, subs, b, mask, |TYPES|, Capture, a);
    }
  }

  lemma DeliverCounts(s: Adapter, subs: FrameType -> nat, b: Buffer, mask: set<FrameType>, p: Pool, a: Buffer)
    requires CountsAreHolds(s) && !Busy(s, b)
    requires p != Capture || !Shared(mask)
    ensures var s' := Apply(s, subs, Deliver(b, mask));
            Positive(PoolCount(s'.counts, p, a)) == PoolOut(s', p, a)
  {
    var t := match p case Preview => PreviewSync case Capture => Image case Video => VideoSync
                     case PreviewData => FrameData case Snapshots => Snapshot case VideoIn => ReprocessInput;
    DeliverOut(s, subs, b, mask, t, a);
    assert PoolOut(s, p, b) == 0;
    assert Positive(PoolCount(s.counts, p, a)) == PoolOut(s, p, a);
    if p == Capture {
      DeliverOut(s, subs, b, mask, Raw, a);
      DeliverCapture(s.counts, subs, b, mask, a);
    } else {
      DeliverCount(s.counts, subs, b, mask, t, a);
    }
  }

  lemma DeliverElsewhere(s: Adapter, subs: FrameType -> nat, b: Buffer, mask: set<FrameType>, p: Pool, a: Buffer)
    requires a != b
    ensures PoolOut(Apply(s, subs, Deliver(b, mask)), p, a) == PoolOut(s, p, a)
  {
    forall t: FrameType {
      DeliverOut(s, subs, b, mask, t, a);
    }
  }

  /** A delivery makes exactly the pools of its mask outstanding. */
  lemma DeliverHere(s: Adapter, subs: FrameType -> nat, b: Buffer, mask: set<FrameType>, p: Pool)
    requires Allowed(s, subs, Deliver(b, mask))
    ensures PoolOut(Apply(s, subs, Deliver(b, mask)), p, b) > 0 <==> exists t :: t in mask && PoolOf(t) == p
  {
    assert PoolOut(s, p, b) == 0;
    forall t: FrameType {
      DeliverOut(s, subs, b, mask, t, b);
    }
    assert p == Capture ==> PoolOf(Image) == p && PoolOf(Raw) == p;
    assert p == PoolOf(match p case Preview => PreviewSync case Capture => Image case Video => VideoSync
                       case PreviewData => FrameData case Snapshots => Snapshot case VideoIn => ReprocessInput);
  }

  lemma DeliverOnePool(s: Adapter, subs: FrameType -> nat, b: Buffer, mask: set<FrameType>)
    requires Allowed(s, subs, Deliver(b, mask))
    ensures Busy(Apply(s, subs, Deliver(b, mask)), b)
    ensures s.recording || OnePool(Apply(s, subs, Deliver(b, mask)), b, {})
  {
    forall p: Pool {
      DeliverHere(s, subs, b, mask, p);
    }
    var t :| t in mask;
    assert PoolOut(Apply(s, subs, Deliver(b, mask)), PoolOf(t), b) > 0;
  }

  lemma DeliverKeeps(s: Adapter, subs: FrameType -> nat, b: Buffer, mask: set<FrameType>)
    requires Allowed(s, subs, Deliver(b, mask)) && Inv(s)
    ensures Inv(Apply(s, subs, Deliver(b, mask)))
  {
    var s' := Apply(s, subs, Deliver(b, mask));
    forall p: Pool, a: Buffer ensures Positive(PoolCount(s'.counts, p, a)) == PoolOut(s', p, a) {
      DeliverCounts(s, subs, b, mask, p, a);
    }
    DeliverOnePool(s, subs, b, mask);
    forall a: Buffer ensures s'.delivered[a] == s'.filled[a] + if Busy(s', a) then 1 else 0 {
      DeliverAccounts(s, subs, b, mask, a);
    }
    forall a: Buffer | !s.recording ensures OnePool(s', a, {}) {
      DeliverAccounts(s, subs, b, mask, a);
    }
  }

  lemma DeliverAccounts(s: Adapter, subs: FrameType -> nat, b: Buffer, mask: set<FrameType>, a: Buffer)
    requires Allowed(s, subs, Deliver(b, mask)) && Inv(s)
    ensures var s' := Apply(s, subs, Deliver(b, mask));
            && s'.delivered[a] == s'.filled[a] + (if Busy(s', a) then 1 else 0)
            && (s.recording || OnePool(s', a, {}))
  {
    var s' := Apply(s, subs, Deliver(b, mask));
    assert s.delivered[a] == s.filled[a] + if Busy(s, a) then 1 else 0;
    if a == b {
      DeliverOnePool(s, subs, b, mask);
    } else {
      forall p: Pool ensures PoolOut(s', p, a) == PoolOut(s, p, a) {
        DeliverElsewhere(s, subs, b, mask, p, a);
      }
      SamePools(s, s', a);
    }
  }

  lemma CallbackKeeps(s: Adapter, subs: FrameType -> nat, h: Hold)
    requires Allowed(s, subs, Callback(h)) && Inv(s)
    ensures Inv(Apply(s, subs, Callback(h)))
  {
    var s' := Apply(s, subs, Callback(h));
    forall t: FrameType, b: Buffer ensures Outstanding(s', t, b) == Outstanding(s, t, b) {
      assert Hold(t, b) == h || Hold(t, b) != h;
    }
    SameOutstanding(s, s');
  }

  /** The invariant speaks of counts, history and totals only. */
  lemma SameOutstanding(s: Adapter, s': Adapter)
    requires Inv(s) && s'.counts == s.counts && s'.recording == s.recording
    requires s'.delivered == s.delivered && s'.filled == s.filled
    requires forall t: FrameType, b: Buffer :: Outstanding(s', t, b) == Outstanding(s, t, b)
    ensures Inv(s')
  {
    forall p: Pool, b: Buffer ensures PoolOut(s', p, b) == PoolOut(s, p, b) {
      match p case Preview => case Capture => case Video => case PreviewData => case Snapshots => case VideoIn =>
    }
    forall b: Buffer {
      SamePools(s, s', b);
    }
  }

  /** A buffer with no more outstanding than before stays within one pool. */
  lemma FewerPools(s: Adapter, s': Adapter, b: Buffer, but: set<Pool>)
    requires forall p: Pool :: PoolOut(s', p, b) <= PoolOut(s, p, b)
    ensures OnePool(s, b, but) ==> OnePool(s', b, but)
  {
  }

  lemma SamePools(s: Adapter, s': Adapter, b: Buffer)
    requires forall p: Pool :: PoolOut(s', p, b) == PoolOut(s, p, b)
    ensures Busy(s', b) <==> Busy(s, b)
    ensures OnePool(s', b, {}) <==> OnePool(s, b, {})
  {
  }

  lemma GiveBackOut(s: Adapter, h: Hold, p: Pool, b: Buffer)
    requires h in s.held
    ensures PoolOut(GivenBack(s, h), p, b) == PoolOut(s, p, b) - if (p, b) == (PoolOf(h.t), h.b) then 1 else 0
  {
    var s' := GivenBack(s, h);
    forall t: FrameType ensures Outstanding(s', t, b) == Outstanding(s, t, b) - if Hold(t, b) == h then 1 else 0 {
    }
    match p case Preview => case Capture => case Video => case PreviewData => case Snapshots => case VideoIn =>
  }

  lemma GiveBackCounts(s: Adapter, h: Hold)
    requires h in s.held && CountsAreHolds(s)
    ensures CountsAreHolds(GivenBack(s, h)) && PoolOut(s, PoolOf(h.t), h.b) > 0
  {
    var s', own := GivenBack(s, h), PoolOf(h.t);
    ReturnReleases(s.counts, s.recording, h.b, h.t);
    GiveBackOut(s, h, own, h.b);
    assert Positive(PoolCount(s.counts, own, h.b)) == PoolOut(s, own, h.b);
    forall p: Pool, b: Buffer ensures Positive(PoolCount(s'.counts, p, b)) == PoolOut(s', p, b) {
      GiveBackOut(s, h, p, b);
      assert Positive(PoolCount(s.counts, p, b)) == PoolOut(s, p, b);
    }
  }

  lemma NoCountMeansIdle(s: Adapter, b: Buffer)
    requires CountsAreHolds(s)
    ensures NoCount(s.counts, b) <==> !Busy(s, b)
  {
    forall p: Pool ensures PoolOut(s, p, b) > 0 <==> PoolCount(s.counts, p, b) > 0 {
      assert Positive(PoolCount(s.counts, p, b)) == PoolOut(s, p, b);
    }
  }

  /** A return fills the buffer exactly when it releases the last frame of it that is outstanding,
      if recording or if no other pool is outstanding. */
  lemma GiveBackFills(s: Adapter, h: Hold)
    requires h in s.held && CountsAreHolds(s) && (s.recording || OnePool(s, h.b, {}))
    ensures CountsAreHolds(GivenBack(s, h))
    ensures Return(s.counts, s.recording, h.b, h.t).1 <==> !Busy(GivenBack(s, h), h.b)
  {
    var s', own := GivenBack(s, h), PoolOf(h.t);
    ReturnReleases(s.counts, s.recording, h.b, h.t);
    GiveBackCounts(s, h);
    NoCountMeansIdle(s', h.b);
    assert Positive(PoolCount(s.counts, own, h.b)) == PoolOut(s, own, h.b);
    forall p: Pool ensures PoolOut(s', p, h.b) == PoolOut(s, p, h.b) - if p == own then 1 else 0 {
      GiveBackOut(s, h, p, h.b);
    }
    if !s.recording {
      OwnPoolOnly(s, h);
    }
  }

  lemma OwnPoolOnly(s: Adapter, h: Hold)
    requires OnePool(s, h.b, {}) && PoolOut(s, PoolOf(h.t), h.b) > 0
    ensures forall p: Pool :: p != PoolOf(h.t) ==> PoolOut(s, p, h.b) == 0
  {
  }

  lemma GiveBackKeeps(s: Adapter, h: Hold)
    requires (h in s.held || Count(s.counts, h.t, h.b) <= 0) && CountsAreHolds(s) && FilledOnce(s)
    requires s.recording || forall b :: OnePool(s, b, {})
    ensures Inv(GivenBack(s, h))
  {
    var s' := GivenBack(s, h);
    if h in s.held {
      assert s.recording || OnePool(s, h.b, {});
      GiveBackFills(s, h);
      forall b: Buffer {
        GiveBackAccounts(s, h, b);
      }
    } else {
      ReturnReleases(s.counts, s.recording, h.b, h.t);
      assert s'.held == s.held;
      assert s' == s;
    }
  }

  lemma GiveBackAccounts(s: Adapter, h: Hold, b: Buffer)
    requires h in s.held && CountsAreHolds(s) && FilledOnce(s)
    requires s.recording || forall b :: OnePool(s, b, {})
    ensures var s' := GivenBack(s, h);
            && s'.delivered[b] == s'.filled[b] + (if Busy(s', b) then 1 else 0)
            && (s.recording || OnePool(s', b, {}))
  {
    var s' := GivenBack(s, h);
    assert s.delivered[b] == s.filled[b] + if Busy(s, b) then 1 else 0;
    assert s.recording || OnePool(s, b, {});
    forall p: Pool {
      GiveBackOut(s, h, p, b);
    }
    FewerPools(s, s', b, {});
    if b == h.b {
      GiveBackFills(s, h);
      assert PoolOut(s, PoolOf(h.t), h.b) > 0;
    } else {
      SamePools(s, s', b);
    }
  }

  lemma StartKeeps(s: Adapter, subs: FrameType -> nat)
    requires Allowed(s, subs, StartVideo) && Inv(s)
    ensures Inv(Apply(s, subs, StartVideo))
  {
    var s' := Apply(s, subs, StartVideo);
    forall p: Pool, b: Buffer ensures Positive(PoolCount(s'.counts, p, b)) == PoolOut(s', p, b) {
      assert Positive(PoolCount(s.counts, p, b)) == PoolOut(s, p, b);
      assert PoolOut(s', p, b) == PoolOut(s, p, b);
    }
    FilledTransfers(s, s');
  }

  lemma FilledTransfers(s: Adapter, s': Adapter)
    requires FilledOnce(s) && s'.pending == s.pending && s'.held == s.held
    requires s'.delivered == s.delivered && s'.filled == s.filled
    ensures FilledOnce(s')
  {
    forall b: Buffer ensures s'.delivered[b] == s'.filled[b] + if Busy(s', b) then 1 else 0 {
      SamePools(s, s', b);
      assert s.delivered[b] == s.filled[b] + if Busy(s, b) then 1 else 0;
    }
  }

  ghost predicate OnlyVideo(s: Adapter, b: Buffer) { forall p: Pool :: p != Video ==> PoolOut(s, p, b) == 0 }

  /** What the stopping loop has done to buffer `b` once it has `passed` it. */
  ghost predicate Stopped(s: Adapter, s': Adapter, b: Buffer, passed: bool) {
    && (forall p: Pool :: p != Video ==> PoolOut(s', p, b) == PoolOut(s, p, b))
    && PoolOut(s', Video, b) == (if passed then Positive(PoolOut(s, Video, b) - 1) else PoolOut(s, Video, b))
    && s'.filled[b] == s.filled[b] + if passed && PoolOut(s, Video, b) == 1 && OnlyVideo(s, b) then 1 else 0
  }

  ghost predicate CanStop(s: Adapter, keys: seq<Buffer>) {
    && s.recording && Inv(s) && DistinctKeys(keys)
    && forall b :: s.pending[Hold(VideoSync, b)] == 0
  }

  lemma StopStep(s: Adapter, s': Adapter, key: Buffer, b: Buffer, passed: bool)
    requires s'.recording && Inv(s') && s'.pending[Hold(VideoSync, key)] == 0
    requires Stopped(s, s', b, passed) && (key == b ==> !passed)
    ensures var s'' := StopFrame(s', key);
            Inv(s'') && s''.recording && s''.pending == s'.pending && Stopped(s, s'', b, passed || key == b)
  {
    assert Positive(PoolCount(s'.counts, Video, key)) == PoolOut(s', Video, key);
    var h := Hold(VideoSync, key);
    if Count(s'.counts, VideoSync, key) > 0 {
      assert h in s'.held;
      GiveBackKeeps(s', h);
      GiveBackFills(s', h);
      forall p: Pool {
        GiveBackOut(s', h, p, b);
      }
      if key == b {
        assert OnlyVideo(s, b) <==> OnlyVideo(s', b);
        assert Busy(GivenBack(s', h), b) <==> !(PoolOut(s', Video, b) == 1 && OnlyVideo(s', b));
      }
    }
  }

  ghost predicate Passed(keys: seq<Buffer>, k: nat, b: Buffer)
    requires k <= |keys|
  {
    exists i :: 0 <= i < k && keys[i] == b
  }

  ghost predicate StoppedAt(s: Adapter, s': Adapter, keys: seq<Buffer>, k: nat, b: Buffer)
    requires k <= |keys|
  {
    Stopped(s, s', b, Passed(keys, k, b))
  }

  ghost predicate StoppedUpTo(s: Adapter, s': Adapter, keys: seq<Buffer>, k: nat)
    requires k <= |keys|
  {
    && s'.recording && Inv(s') && s'.pending == s.pending
    && forall b: Buffer :: StoppedAt(s, s', keys, k, b)
  }

  lemma StopNext(s: Adapter, s': Adapter, keys: seq<Buffer>, k: nat)
    requires k < |keys| && CanStop(s, keys) && StoppedUpTo(s, s', keys, k)
    ensures StoppedUpTo(s, StopFrame(s', keys[k]), keys, k + 1)
  {
    var key, s'' := keys[k], StopFrame(s', keys[k]);
    assert StoppedAt(s, s', keys, k, key);
    StopStep(s, s', key, key, false);
    var next := k + 1;
    forall b: Buffer ensures StoppedAt(s, s'', keys, next, b) {
      assert Passed(keys, k + 1, b) <==> Passed(keys, k, b) || key == b;
      assert StoppedAt(s, s', keys, k, b);
      StopStep(s, s', key, b, Passed(keys, k, b));
    }
  }

  lemma StopNothing(s: Adapter, keys: seq<Buffer>)
    requires CanStop(s, keys)
    ensures StoppedUpTo(s, s, keys, 0)
  {
  }

  lemma {:induction false} StopLoopStops(s: Adapter, keys: seq<Buffer>, k: nat)
    requires k <= |keys| && CanStop(s, keys)
    ensures StoppedUpTo(s, StopLoop(s, keys, k), keys, k)
  {
    if k == 0 {
      StopNothing(s, keys);
    } else {
      StopLoopStops(s, keys, k - 1);
      StopNext(s, StopLoop(s, keys, k - 1), keys, k - 1);
    }
  }

  /** Switching recording off changes no frame. */
  lemma RecordingOff(s: Adapter, r: Adapter, b: Buffer)
    requires Stopped(s, r, b, true)
    ensures Stopped(s, r.(recording := false), b, true)
  {
    forall p: Pool ensures PoolOut(r.(recording := false), p, b) == PoolOut(r, p, b) {
    }
  }

  lemma StoppedIfUnknown(s: Adapter, keys: seq<Buffer>, r: Adapter, b: Buffer)
    requires CountsAreHolds(s) && VideoKeys(s.counts, keys)
    requires StoppedAt(s, r, keys, |keys|, b)
    ensures Stopped(s, r, b, true)
  {
    assert Positive(PoolCount(s.counts, Video, b)) == PoolOut(s, Video, b);
    if b in keys {
      assert Passed(keys, |keys|, b);
    }
  }

  /** Stopping takes one video frame from each buffer.  A buffer is refilled (once) if and only if
      that was the last frame of it that anybody held. */
  lemma StopReleasesEncoder(s: Adapter, subs: FrameType -> nat, keys: seq<Buffer>)
    requires CanStop(s, keys) && VideoKeys(s.counts, keys)
    ensures var s' := Apply(s, subs, StopVideo(keys));
            && !s'.recording && CountsAreHolds(s') && FilledOnce(s') && s'.pending == s.pending
            && forall b: Buffer :: Stopped(s, s', b, true)
  {
    StopLoopStops(s, keys, |keys|);
    var r := StopLoop(s, keys, |keys|);
    var s' := Apply(s, subs, StopVideo(keys));
    FilledTransfers(r, s');
    forall p: Pool, b: Buffer ensures Positive(PoolCount(s'.counts, p, b)) == PoolOut(s', p, b) {
      assert Positive(PoolCount(r.counts, p, b)) == PoolOut(r, p, b);
    }
    forall b: Buffer ensures Stopped(s, s', b, true) {
      assert StoppedAt(s, r, keys, |keys|, b);
      StoppedIfUnknown(s, keys, r, b);
      RecordingOff(s, r, b);
    }
  }

  /** After stopping, no video frame is outstanding if and only if no count exceeded one. */
  lemma StopClearsVideo(s: Adapter, subs: FrameType -> nat, keys: seq<Buffer>)
    requires CanStop(s, keys) && VideoKeys(s.counts, keys)
    ensures var s' := Apply(s, subs, StopVideo(keys));
            (forall b :: PoolCount(s'.counts, Video, b) <= 0) <==> (forall b :: PoolCount(s.counts, Video, b) <= 1)
  {
    var s' := Apply(s, subs, StopVideo(keys));
    StopReleasesEncoder(s, subs, keys);
    forall b: Buffer ensures PoolCount(s'.counts, Video, b) <= 0 <==> PoolCount(s.counts, Video, b) <= 1 {
      assert Stopped(s, s', b, true);
      assert Positive(PoolCount(s'.counts, Video, b)) == PoolOut(s', Video, b);
      assert Positive(PoolCount(s.counts, Video, b)) == PoolOut(s, Video, b);
    }
  }

  /** Recording, with buffer 1 held twice by the encoder. */
  function HeldTwice(): Adapter {
    var h := Hold(VideoSync, 1);
    Adapter(map[(Preview, 1) := 0, (Video, 1) := 2], true, multiset{}, multiset{h, h}, multiset{1}, multiset{})
  }

  lemma HeldTwiceOut(p: Pool, b: Buffer)
    ensures PoolOut(HeldTwice(), p, b) == if (p, b) == (Video, 1) then 2 else 0
  {
    match p case Preview => case Capture => case Video => case PreviewData => case Snapshots => case VideoIn =>
  }

  lemma HeldTwiceKeeps()
    ensures CountsAreHolds(HeldTwice()) && FilledOnce(HeldTwice())
  {
    forall p: Pool, b: Buffer {
      HeldTwiceOut(p, b);
    }
    forall b: Buffer ensures Busy(HeldTwice(), b) <==> b == 1 {
      assert PoolOut(HeldTwice(), Video, 1) > 0;
    }
  }

  /** Frames handed to two subscribers of video: one of them is still out after stopping. */
  lemma StopLeavesSecond(subs: FrameType -> nat)
    ensures Inv(HeldTwice()) && CanStop(HeldTwice(), [1]) && VideoKeys(HeldTwice().counts, [1])
    ensures var s' := Apply(HeldTwice(), subs, StopVideo([1]));
            PoolOut(s', Video, 1) == 1 && s'.filled[1] == 0
  {
    HeldTwiceKeeps();
    HeldTwiceOut(Video, 1);
    StopReleasesEncoder(HeldTwice(), subs, [1]);
    assert Stopped(HeldTwice(), Apply(HeldTwice(), subs, StopVideo([1])), 1, true);
  }

  lemma StopKeeps(s: Adapter, subs: FrameType -> nat, keys: seq<Buffer>)
    requires Allowed(s, subs, StopVideo(keys)) && Inv(s)
    ensures Inv(Apply(s, subs, StopVideo(keys)))
  {
    if s.recording {
      StopReleasesEncoder(s, subs, keys);
      forall b: Buffer ensures OnePool(Apply(s, subs, StopVideo(keys)), b, {}) {
        assert s.pending[Hold(VideoSync, b)] == 0 && s.held[Hold(VideoSync, b)] <= 1 && OnePool(s, b, {Video});
        StoppedOnePool(s, Apply(s, subs, StopVideo(keys)), b);
      }
    }
  }

  lemma StoppedOnePool(s: Adapter, s': Adapter, b: Buffer)
    requires Stopped(s, s', b, true) && OnePool(s, b, {Video}) && PoolOut(s, Video, b) <= 1
    ensures OnePool(s', b, {})
  {
  }

  lemma {:induction false} LoadCountsAt(cs: Counts, t: FrameType, maxQueueable: nat, n: nat, p: Pool, b: Buffer)
    ensures PoolCount(LoadCounts(cs, t, maxQueueable, n), p, b)
            == if p == PoolOf(t) && 0 < b <= n then if b <= maxQueueable then 0 else 1
               else if p in ClearedBy(t) then -1 else PoolCount(cs, p, b)
  {
    if n > 0 {
      LoadCountsAt(cs, t, maxQueueable, n - 1, p, b);
    }
  }

  lemma LoadOut(s: Adapter, subs: FrameType -> nat, t: FrameType, maxQueueable: nat, count: nat, p: Pool, b: Buffer)
    ensures PoolOut(Apply(s, subs, UseBuffers(t, maxQueueable, count)), p, b)
            == PoolOut(s, p, b) + if p == PoolOf(t) && b in Provider(maxQueueable, count) then 1 else 0
  {
    MoreHeld(s, Apply(s, subs, UseBuffers(t, maxQueueable, count)), Provided(t, maxQueueable, count), t, b, p);
  }

  lemma MoreHeld(s: Adapter, s': Adapter, more: multiset<Hold>, t: FrameType, b: Buffer, p: Pool)
    requires s'.pending == s.pending && s'.held == s.held + more
    requires forall u: FrameType :: more[Hold(u, b)] == if u == t then more[Hold(t, b)] else 0
    ensures PoolOut(s', p, b) == PoolOut(s, p, b) + if p == PoolOf(t) then more[Hold(t, b)] else 0
  {
    match p case Preview => case Capture => case Video => case PreviewData => case Snapshots => case VideoIn =>
  }

  /** Handing over buffers keeps the invariant: each count is again the number of frames outstanding, those
      of the buffer provider included. */
  lemma LoadKeeps(s: Adapter, subs: FrameType -> nat, t: FrameType, maxQueueable: nat, count: nat)
    requires Allowed(s, subs, UseBuffers(t, maxQueueable, count)) && Inv(s)
    ensures Inv(Apply(s, subs, UseBuffers(t, maxQueueable, count)))
  {
    var s' := Apply(s, subs, UseBuffers(t, maxQueueable, count));
    forall p: Pool, b: Buffer ensures Positive(PoolCount(s'.counts, p, b)) == PoolOut(s', p, b) {
      LoadCountsAt(s.counts, t, maxQueueable, Larger(maxQueueable, count), p, b);
      LoadOut(s, subs, t, maxQueueable, count, p, b);
      assert Positive(PoolCount(s.counts, p, b)) == PoolOut(s, p, b);
    }
    forall b: Buffer {
      LoadAccounts(s, subs, t, maxQueueable, count, b);
    }
  }

  lemma LoadAccounts(s: Adapter, subs: FrameType -> nat, t: FrameType, maxQueueable: nat, count: nat, b: Buffer)
    requires Allowed(s, subs, UseBuffers(t, maxQueueable, count)) && Inv(s)
    ensures var s' := Apply(s, subs, UseBuffers(t, maxQueueable, count));
            && s'.delivered[b] == s'.filled[b] + (if Busy(s', b) then 1 else 0)
            && (s.recording || OnePool(s', b, {}))
  {
    var s' := Apply(s, subs, UseBuffers(t, maxQueueable, count));
    forall p: Pool {
      LoadOut(s, subs, t, maxQueueable, count, p, b);
    }
    assert s.delivered[b] == s.filled[b] + if Busy(s, b) then 1 else 0;
    assert s.recording || OnePool(s, b, {});
    if b in Provider(maxQueueable, count) {
      assert PoolOut(s', PoolOf(t), b) > 0;
    } else {
      SamePools(s, s', b);
    }
  }

  lemma StepKeeps(s: Adapter, subs: FrameType -> nat, e: Event)
    requires Allowed(s, subs, e) && Inv(s)
    ensures Inv(Apply(s, subs, e))
  {
    match e
    case Deliver(b, mask) => DeliverKeeps(s, subs, b, mask);
    case Callback(h) => CallbackKeeps(s, subs, h);
    case GiveBack(h) => GiveBackKeeps(s, h);
    case StartVideo => StartKeeps(s, subs);
    case StopVideo(keys) => StopKeeps(s, subs, keys);
    case UseBuffers(t, maxQueueable, count) => LoadKeeps(s, subs, t, maxQueueable, count);
  }

  // ---------------------------------------------------------------- whole runs

  function Run(s: Adapter, subs: FrameType -> nat, es: seq<Event>): Adapter {
    if es == [] then s else Apply(Run(s, subs, es[..|es| - 1]), subs, es[|es| - 1])
  }

  /** Each event is allowed where it happens. */
  ghost predicate AllowedRun(s: Adapter, subs: FrameType -> nat, es: seq<Event>) {
    es == [] || (AllowedRun(s, subs, es[..|es| - 1]) && Allowed(Run(s, subs, es[..|es| - 1]), subs, es[|es| - 1]))
  }

  /** In every run, each count is the number of frames outstanding, and every buffer has been refilled
      exactly once per delivery, except while it is still outstanding. */
  lemma {:induction false} RunKeeps(s: Adapter, subs: FrameType -> nat, es: seq<Event>)
    requires Inv(s) && AllowedRun(s, subs, es)
    ensures Inv(Run(s, subs, es))
  {
    if es != [] {
      RunKeeps(s, subs, es[..|es| - 1]);
      StepKeeps(Run(s, subs, es[..|es| - 1]), subs, es[|es| - 1]);
    }
  }

  /** What the constructor leaves: no counts, and nothing delivered. */
  function Empty(recording: bool): Adapter { Adapter(map[], recording, multiset{}, multiset{}, multiset{}, multiset{}) }

  /** Every run of a new adapter, through all the buffers handed over, frames and recordings. */
  lemma NewRunKeeps(subs: FrameType -> nat, es: seq<Event>)
    requires AllowedRun(Empty(false), subs, es)
    ensures Inv(Run(Empty(false), subs, es))
  {
    RunKeeps(Empty(false), subs, es);
  }

  /** It can begin by handing over preview buffers, of which the provider then holds those not queueable. */
  lemma NewRunLoads(subs: FrameType -> nat, maxQueueable: nat, count: nat)
    ensures var e := UseBuffers(PreviewSync, maxQueueable, count); var s := Run(Empty(false), subs, [e]);
            && AllowedRun(Empty(false), subs, [e]) && Inv(s)
            && forall p: Pool, b: Buffer ::
                 PoolOut(s, p, b) == if p.Preview? && maxQueueable < b <= count then 1 else 0
  {
    var e := UseBuffers(PreviewSync, maxQueueable, count);
    assert [e][..0] == [];
    assert AllowedRun(Empty(false), subs, [e]);
    NewRunKeeps(subs, [e]);
    forall p: Pool, b: Buffer {
      LoadOut(Empty(false), subs, PreviewSync, maxQueueable, count, p, b);
    }
  }

  /** In every run, a return refills the buffer exactly when it gives back the last frame of it. */
  lemma ReturnFillsLast(s: Adapter, subs: FrameType -> nat, es: seq<Event>, h: Hold)
    requires Inv(s) && AllowedRun(s, subs, es) && Allowed(Run(s, subs, es), subs, GiveBack(h))
    ensures var before := Run(s, subs, es); var after := Apply(before, subs, GiveBack(h));
            after.filled == before.filled
              + if h in before.held && !Busy(after, h.b) then multiset{h.b} else multiset{}
  {
    RunKeeps(s, subs, es);
    var before := Run(s, subs, es);
    assert before.recording || OnePool(before, h.b, {});
    if h in before.held {
      GiveBackFills(before, h);
    } else {
      ReturnReleases(before.counts, before.recording, h.b, h.t);
    }
  }

  lemma RunNext(s: Adapter, subs: FrameType -> nat, es: seq<Event>, e: Event)
    requires AllowedRun(s, subs, es) && Allowed(Run(s, subs, es), subs, e)
    ensures AllowedRun(s, subs, es + [e])
    ensures Run(s, subs, es + [e]) == Apply(Run(s, subs, es), subs, e)
  {
    assert (es + [e])[..|es|] == es;
  }

  /** On the way to `HeldTwice`: of two frames of the encoder, some have been called back. */
  function TwoFrames(pending: nat, held: nat): Adapter {
    var h := Hold(VideoSync, 1);
    HeldTwice().(pending := multiset{}[h := pending], held := multiset{}[h := held])
  }

  lemma LoadOne(subs: FrameType -> nat)
    ensures var e := UseBuffers(PreviewSync, 1, 1);
            AllowedRun(Empty(false), subs, [e])
            && Run(Empty(false), subs, [e]) == Empty(false).(counts := map[(Preview, 1) := 0])
  {
    NewRunLoads(subs, 1, 1);
    var e := UseBuffers(PreviewSync, 1, 1);
    assert [e][..0] == [];
    assert Provider(1, 1) == {} && Provided(PreviewSync, 1, 1) == multiset{};
    assert LoadCounts(map[], PreviewSync, 1, 0) == map[];
    assert LoadCounts(map[], PreviewSync, 1, 1) == map[(Preview, 1) := 0];
  }

  lemma StartOne(subs: FrameType -> nat)
    ensures var s := Empty(false).(counts := map[(Preview, 1) := 0]);
            && Allowed(s, subs, StartVideo)
            && Apply(s, subs, StartVideo) == Empty(true).(counts := map[(Preview, 1) := 0, (Video, 1) := 0])
  {
    var cs := map[(Preview, 1) := 0];
    assert PreviewBuffers(cs) == {1} by {
      assert (Preview, 1) in cs;
    }
  }

  /** A delivery to the encoder alone. */
  lemma {:induction false} DeliverVideo(s: Adapter, subs: FrameType -> nat, b: Buffer, k: nat)
    requires k <= |TYPES|
    ensures InitCounts(s.counts, subs, b, {VideoSync}, k)
            == if k < 3 then s.counts else s.counts[(Video, b) := subs(VideoSync)]
    ensures Announced(s.pending, subs, b, {VideoSync}, k)
            == if k < 3 then s.pending else s.pending[Hold(VideoSync, b) := subs(VideoSync)]
  {
    if k > 0 {
      DeliverVideo(s, subs, b, k - 1);
      assert TYPES[k - 1] in {VideoSync} <==> k == 3;
    }
  }

  function TwoEach(): FrameType -> nat { t => 2 }

  lemma DeliverTwo()
    ensures var s, e := Empty(true).(counts := map[(Preview, 1) := 0, (Video, 1) := 0]), Deliver(1, {VideoSync});
            Allowed(s, TwoEach(), e) && Apply(s, TwoEach(), e) == TwoFrames(2, 0)
  {
    var s := Empty(true).(counts := map[(Preview, 1) := 0, (Video, 1) := 0]);
    DeliverVideo(s, TwoEach(), 1, |TYPES|);
  }

  lemma CallBackOne(pending: nat, held: nat)
    requires pending > 0
    ensures var s, e := TwoFrames(pending, held), Callback(Hold(VideoSync, 1));
            Allowed(s, TwoEach(), e) && Apply(s, TwoEach(), e) == TwoFrames(pending - 1, held + 1)
  {
    var h := Hold(VideoSync, 1);
    var none: multiset<Hold> := multiset{};
    assert none[h := pending] - multiset{h} == none[h := pending - 1];
    assert none[h := held] + multiset{h} == none[h := held + 1];
  }

  lemma CallBackNext(es: seq<Event>, pending: nat, held: nat) returns (more: seq<Event>)
    requires AllowedRun(Empty(false), TwoEach(), es) && pending > 0
    requires Run(Empty(false), TwoEach(), es) == TwoFrames(pending, held)
    ensures AllowedRun(Empty(false), TwoEach(), more)
    ensures Run(Empty(false), TwoEach(), more) == TwoFrames(pending - 1, held + 1)
  {
    CallBackOne(pending, held);
    RunNext(Empty(false), TwoEach(), es, Callback(Hold(VideoSync, 1)));
    more := es + [Callback(Hold(VideoSync, 1))];
  }

  lemma BothHeld()
    ensures TwoFrames(0, 2) == HeldTwice()
  {
    var h := Hold(VideoSync, 1);
    var none: multiset<Hold> := multiset{};
    assert none[h := 2] == multiset{h, h} && none[h := 0] == multiset{};
  }

  lemma TwoDelivered() returns (es: seq<Event>)
    ensures AllowedRun(Empty(false), TwoEach(), es) && Run(Empty(false), TwoEach(), es) == TwoFrames(2, 0)
  {
    es := [UseBuffers(PreviewSync, 1, 1)];
    LoadOne(TwoEach());
    StartOne(TwoEach());
    RunNext(Empty(false), TwoEach(), es, StartVideo);
    es := es + [StartVideo];
    DeliverTwo();
    RunNext(Empty(false), TwoEach(), es, Deliver(1, {VideoSync}));
    es := es + [Deliver(1, {VideoSync})];
  }

  /** The run of a new adapter with two subscribers of video that leads to `HeldTwice`. */
  lemma HeldTwiceReached() returns (es: seq<Event>)
    ensures AllowedRun(Empty(false), TwoEach(), es) && Run(Empty(false), TwoEach(), es) == HeldTwice()
  {
    es := TwoDelivered();
    es := CallBackNext(es, 2, 0);
    es := CallBackNext(es, 1, 1);
    BothHeld();
  }

  // ---------------------------------------------------------------- where the hypotheses matter

  /** A delivery to be judged: the buffer is with the producer, every type has subscribers. */
  ghost predicate Fresh(s: Adapter, subs: FrameType -> nat, b: Buffer, mask: set<FrameType>) {
    Inv(s) && mask != {} && (forall t :: t in mask ==> subs(t) > 0) && !Busy(s, b)
  }

  /** The count of images overwrites nothing: that of raw frames, set later, stays. */
  lemma DeliverShared(cs: Counts, subs: FrameType -> nat, b: Buffer, mask: set<FrameType>)
    requires Shared(mask)
    ensures PoolCount(InitCounts(cs, subs, b, mask, |TYPES|), Capture, b) == subs(Raw)
  {
    assert TYPES[4] == Raw && TYPES[5] == Snapshot && TYPES[6] == ReprocessInput;
    assert PoolCount(InitCounts(cs, subs, b, mask, 5), Capture, b) == subs(Raw);
    assert PoolCount(InitCounts(cs, subs, b, mask, 6), Capture, b) == subs(Raw);
  }

  /** What the count of a pool stands for after a delivery.  The count shared by images and raw frames
      knows only of as many frames as raw frames were announced. */
  function Counted(s: Adapter, subs: FrameType -> nat, b: Buffer, mask: set<FrameType>, p: Pool): nat {
    if p == Capture && Shared(mask) then Positive(PoolOut(s, p, b) - subs(Image)) else PoolOut(s, p, b)
  }

  lemma DeliverCounted(s: Adapter, subs: FrameType -> nat, b: Buffer, mask: set<FrameType>, p: Pool)
    requires CountsAreHolds(s) && !Busy(s, b)
    ensures var s' := Apply(s, subs, Deliver(b, mask));
            Positive(PoolCount(s'.counts, p, b)) == Counted(s', subs, b, mask, p)
  {
    if p == Capture && Shared(mask) {
      DeliverShared(s.counts, subs, b, mask);
      assert PoolOut(s, Capture, b) == 0;
      DeliverOut(s, subs, b, mask, Image, b);
      DeliverOut(s, subs, b, mask, Raw, b);
    } else {
      DeliverCounts(s, subs, b, mask, p, b);
    }
  }

  lemma TwoTypes(mask: set<FrameType>, t: FrameType) returns (u: FrameType)
    requires t in mask && !exists v :: mask == {v}
    ensures u in mask && u != t
  {
    assert mask != {t};
    u :| u in mask && u != t;
  }

  lemma SharedBreaks(s: Adapter, subs: FrameType -> nat, b: Buffer, mask: set<FrameType>)
    requires Fresh(s, subs, b, mask) && Shared(mask)
    ensures !CountsAreHolds(Apply(s, subs, Deliver(b, mask)))
  {
    var s' := Apply(s, subs, Deliver(b, mask));
    DeliverCounted(s, subs, b, mask, Capture);
    assert PoolOut(s, Capture, b) == 0;
    DeliverOut(s, subs, b, mask, Image, b);
    DeliverOut(s, subs, b, mask, Raw, b);
    assert Positive(PoolCount(s'.counts, Capture, b)) != PoolOut(s', Capture, b);
  }

  lemma TwoBreak(s: Adapter, subs: FrameType -> nat, b: Buffer, mask: set<FrameType>, t: FrameType, u: FrameType)
    requires Fresh(s, subs, b, mask) && t in mask && u in mask && PoolOf(t) != PoolOf(u)
    ensures !OnePool(Apply(s, subs, Deliver(b, mask)), b, {})
  {
    var s' := Apply(s, subs, Deliver(b, mask));
    DeliverOut(s, subs, b, mask, t, b);
    DeliverOut(s, subs, b, mask, u, b);
    assert PoolOut(s', PoolOf(t), b) > 0 && PoolOut(s', PoolOf(u), b) > 0;
  }

  /** A delivery keeps the invariant if and only if it is safe. */
  lemma DeliverKeepsExactly(s: Adapter, subs: FrameType -> nat, b: Buffer, mask: set<FrameType>)
    requires Fresh(s, subs, b, mask)
    ensures Inv(Apply(s, subs, Deliver(b, mask))) <==> Safe(s.recording, mask)
  {
    if Safe(s.recording, mask) {
      DeliverKeeps(s, subs, b, mask);
    } else if Shared(mask) {
      SharedBreaks(s, subs, b, mask);
    } else {
      var t :| t in mask;
      var u := TwoTypes(mask, t);
      TwoBreak(s, subs, b, mask, t, u);
    }
  }

  // ---------------------------------------------------------------- refills after one delivery

  predicate Returning(e: Event) { e.Callback? || e.GiveBack? }

  function PoolsOf(mask: set<FrameType>): set<Pool> { set t | t in mask :: PoolOf(t) }

  /** The pools of the delivery whose count has run out. */
  function Emptied(s: Adapter, subs: FrameType -> nat, b: Buffer, mask: set<FrameType>): set<Pool> {
    set p | p in PoolsOf(mask) && Counted(s, subs, b, mask, p) == 0
  }

  /** Refills that a delivery of `mask` has led to: while recording one, once all its counts have run
      out; otherwise one for each count that has. */
  function Refills(s: Adapter, subs: FrameType -> nat, b: Buffer, mask: set<FrameType>): nat {
    if s.recording then if Emptied(s, subs, b, mask) == PoolsOf(mask) then 1 else 0
    else |Emptied(s, subs, b, mask)|
  }

  /** `x` follows the delivery of `mask` in state `s`. */
  ghost predicate Refilled(s: Adapter, x: Adapter, subs: FrameType -> nat, b: Buffer, mask: set<FrameType>) {
    && x.recording == s.recording
    && (forall p: Pool :: Positive(PoolCount(x.counts, p, b)) == Counted(x, subs, b, mask, p))
    && (forall p: Pool :: p !in PoolsOf(mask) ==> PoolOut(x, p, b) == 0)
    && x.delivered[b] == s.delivered[b] + 1
    && x.filled[b] == s.filled[b] + Refills(x, subs, b, mask)
  }

  lemma FirstOut(s: Adapter, subs: FrameType -> nat, b: Buffer, mask: set<FrameType>, t: FrameType)
    requires !Busy(s, b)
    ensures Outstanding(Apply(s, subs, Deliver(b, mask)), t, b) == if t in mask then subs(t) else 0
  {
    DeliverOut(s, subs, b, mask, t, b);
    assert PoolOut(s, PoolOf(t), b) == 0;
  }

  lemma FirstEmptied(x: Adapter, subs: FrameType -> nat, b: Buffer, mask: set<FrameType>)
    requires forall t: FrameType :: Outstanding(x, t, b) == if t in mask then subs(t) else 0
    requires forall t :: t in mask ==> subs(t) > 0
    ensures Emptied(x, subs, b, mask) == {}
    ensures forall p: Pool :: p !in PoolsOf(mask) ==> PoolOut(x, p, b) == 0
  {
    assert PoolOf(Image) == PoolOf(Raw) == Capture;
    forall t | t in mask ensures Counted(x, subs, b, mask, PoolOf(t)) > 0 {
    }
    forall p: Pool | p !in PoolsOf(mask) ensures PoolOut(x, p, b) == 0 {
    }
  }

  lemma RefilledFirst(s: Adapter, subs: FrameType -> nat, b: Buffer, mask: set<FrameType>)
    requires Fresh(s, subs, b, mask)
    ensures Refilled(s, Apply(s, subs, Deliver(b, mask)), subs, b, mask)
  {
    var x := Apply(s, subs, Deliver(b, mask));
    forall p: Pool {
      DeliverCounted(s, subs, b, mask, p);
    }
    forall t: FrameType {
      FirstOut(s, subs, b, mask, t);
    }
    FirstEmptied(x, subs, b, mask);
    var t :| t in mask;
    assert PoolOf(t) in PoolsOf(mask);
  }

  /** Frames of the same pools outstanding, and counts unchanged: nothing changes in the account. */
  lemma SameRefills(s: Adapter, x: Adapter, x': Adapter, subs: FrameType -> nat, b: Buffer, mask: set<FrameType>)
    requires Refilled(s, x, subs, b, mask) && x'.recording == x.recording
    requires x'.delivered == x.delivered && x'.filled[b] == x.filled[b]
    requires forall p: Pool :: PoolCount(x'.counts, p, b) == PoolCount(x.counts, p, b)
    requires forall p: Pool :: PoolOut(x', p, b) <= PoolOut(x, p, b)
    requires forall p: Pool :: Counted(x', subs, b, mask, p) == Counted(x, subs, b, mask, p)
    ensures Refilled(s, x', subs, b, mask)
  {
    assert Emptied(x', subs, b, mask) == Emptied(x, subs, b, mask);
  }

  lemma CallbackOut(x: Adapter, h: Hold, p: Pool, b: Buffer)
    requires h in x.pending
    ensures PoolOut(x.(pending := x.pending - multiset{h}, held := x.held + multiset{h}), p, b) == PoolOut(x, p, b)
  {
    var x' := x.(pending := x.pending - multiset{h}, held := x.held + multiset{h});
    forall t: FrameType ensures Outstanding(x', t, b) == Outstanding(x, t, b) {
      assert Hold(t, b) == h || Hold(t, b) != h;
    }
    match p case Preview => case Capture => case Video => case PreviewData => case Snapshots => case VideoIn =>
  }

  lemma CountingReturnAt(x: Adapter, subs: FrameType -> nat, b: Buffer, mask: set<FrameType>, t: FrameType, p: Pool)
    requires Positive(PoolCount(x.counts, p, b)) == Counted(x, subs, b, mask, p)
    requires Hold(t, b) in x.held && Count(x.counts, t, b) > 0
    ensures var x' := GivenBack(x, Hold(t, b));
            && Positive(PoolCount(x'.counts, p, b)) == Counted(x', subs, b, mask, p)
            && PoolOut(x', p, b) <= PoolOut(x, p, b)
            && (p != PoolOf(t) ==> Counted(x', subs, b, mask, p) == Counted(x, subs, b, mask, p))
  {
    ReturnReleases(x.counts, x.recording, b, t);
    GiveBackOut(x, Hold(t, b), p, b);
  }

  /** A return that takes a count empties at most its own pool, and fills accordingly. */
  lemma CountingReturn(s: Adapter, x: Adapter, subs: FrameType -> nat, b: Buffer, mask: set<FrameType>, t: FrameType)
    requires Refilled(s, x, subs, b, mask) && Hold(t, b) in x.held && Count(x.counts, t, b) > 0
    ensures Refilled(s, GivenBack(x, Hold(t, b)), subs, b, mask)
  {
    var h := Hold(t, b);
    var x', own := GivenBack(x, h), PoolOf(t);
    ReturnReleases(x.counts, x.recording, b, t);
    forall p: Pool {
      CountingReturnAt(x, subs, b, mask, t, p);
    }
    assert own in PoolsOf(mask);
    assert own !in Emptied(x, subs, b, mask);
    EmptiedBy(x, x', subs, b, mask, own);
    CountedNone(x', subs, b, mask);
  }

  lemma EmptiedBy(x: Adapter, x': Adapter, subs: FrameType -> nat, b: Buffer, mask: set<FrameType>, own: Pool)
    requires own in PoolsOf(mask)
    requires forall p: Pool :: p != own ==> Counted(x', subs, b, mask, p) == Counted(x, subs, b, mask, p)
    requires Counted(x, subs, b, mask, own) > 0
    ensures Emptied(x', subs, b, mask)
            == Emptied(x, subs, b, mask) + if Counted(x', subs, b, mask, own) == 0 then {own} else {}
  {
  }

  lemma CountedNone(x: Adapter, subs: FrameType -> nat, b: Buffer, mask: set<FrameType>)
    requires forall p: Pool :: Positive(PoolCount(x.counts, p, b)) == Counted(x, subs, b, mask, p)
    requires forall p: Pool :: p !in PoolsOf(mask) ==> PoolOut(x, p, b) == 0
    ensures NoCount(x.counts, b) <==> Emptied(x, subs, b, mask) == PoolsOf(mask)
  {
    forall p: Pool ensures PoolCount(x.counts, p, b) <= 0 <==> Counted(x, subs, b, mask, p) == 0 {
      assert Positive(PoolCount(x.counts, p, b)) == Counted(x, subs, b, mask, p);
    }
    if Emptied(x, subs, b, mask) == PoolsOf(mask) {
      forall p: Pool ensures PoolCount(x.counts, p, b) <= 0 {
        assert p in PoolsOf(mask) ==> p in Emptied(x, subs, b, mask);
      }
    }
  }

  lemma RefilledStep(s: Adapter, x: Adapter, subs: FrameType -> nat, b: Buffer, mask: set<FrameType>, e: Event)
    requires Refilled(s, x, subs, b, mask) && Returning(e) && Allowed(x, subs, e)
    ensures Refilled(s, Apply(x, subs, e), subs, b, mask)
  {
    var h := e.h;
    if e.Callback? {
      RefilledCallback(s, x, subs, b, mask, h);
    } else if h.b == b && Count(x.counts, h.t, b) > 0 {
      CountingReturn(s, x, subs, b, mask, h.t);
    } else {
      OtherReturn(s, x, subs, b, mask, h);
    }
  }

  lemma RefilledCallback(s: Adapter, x: Adapter, subs: FrameType -> nat, b: Buffer, mask: set<FrameType>, h: Hold)
    requires Refilled(s, x, subs, b, mask) && h in x.pending
    ensures Refilled(s, Apply(x, subs, Callback(h)), subs, b, mask)
  {
    var x' := Apply(x, subs, Callback(h));
    forall p: Pool ensures PoolOut(x', p, b) == PoolOut(x, p, b) {
      CallbackOut(x, h, p, b);
    }
    SameRefills(s, x, x', subs, b, mask);
  }

  /** A return that takes no count of this buffer changes nothing in its account. */
  lemma OtherReturn(s: Adapter, x: Adapter, subs: FrameType -> nat, b: Buffer, mask: set<FrameType>, h: Hold)
    requires Refilled(s, x, subs, b, mask) && (h in x.held || Count(x.counts, h.t, h.b) <= 0)
    requires h.b != b || Count(x.counts, h.t, b) <= 0
    ensures Refilled(s, GivenBack(x, h), subs, b, mask)
  {
    var x' := GivenBack(x, h);
    ReturnReleases(x.counts, x.recording, h.b, h.t);
    forall p: Pool ensures PoolOut(x', p, b) <= PoolOut(x, p, b)
      ensures Counted(x', subs, b, mask, p) == Counted(x, subs, b, mask, p)
    {
      SurplusOut(x, h, p, b);
      assert Positive(PoolCount(x.counts, p, b)) == Counted(x, subs, b, mask, p);
    }
    SameRefills(s, x, x', subs, b, mask);
  }

  lemma SurplusOut(x: Adapter, h: Hold, p: Pool, b: Buffer)
    ensures PoolOut(GivenBack(x, h), p, b)
            == PoolOut(x, p, b) - if h in x.held && (p, b) == (PoolOf(h.t), h.b) then 1 else 0
  {
    if h in x.held {
      GiveBackOut(x, h, p, b);
    } else {
      assert x.held - multiset{h} == x.held;
      match p case Preview => case Capture => case Video => case PreviewData => case Snapshots => case VideoIn =>
    }
  }

  ghost predicate ReturningRun(s: Adapter, subs: FrameType -> nat, es: seq<Event>) {
    AllowedRun(s, subs, es) && forall e :: e in es ==> Returning(e)
  }

  lemma {:induction false} RefilledRun(s: Adapter, x: Adapter, subs: FrameType -> nat, b: Buffer,
                                       mask: set<FrameType>, es: seq<Event>)
    requires Refilled(s, x, subs, b, mask) && ReturningRun(x, subs, es)
    ensures Refilled(s, Run(x, subs, es), subs, b, mask)
  {
    if es != [] {
      RefilledRun(s, x, subs, b, mask, es[..|es| - 1]);
      RefilledStep(s, Run(x, subs, es[..|es| - 1]), subs, b, mask, es[|es| - 1]);
    }
  }

  /** However the frames of a delivery come back, of whatever types it is: while recording the buffer is
      refilled once, as soon as all counts have run out; otherwise once for each count that has. */
  lemma DeliveryRefills(s: Adapter, subs: FrameType -> nat, b: Buffer, mask: set<FrameType>, es: seq<Event>)
    requires Fresh(s, subs, b, mask) && ReturningRun(Apply(s, subs, Deliver(b, mask)), subs, es)
    ensures var x := Run(Apply(s, subs, Deliver(b, mask)), subs, es);
            x.filled[b] == s.filled[b] + Refills(x, subs, b, mask) && x.recording == s.recording
  {
    RefilledFirst(s, subs, b, mask);
    RefilledRun(s, Apply(s, subs, Deliver(b, mask)), subs, b, mask, es);
  }

  // ---------------------------------------------------------------- a delivery refills once exactly when it is safe

  /** In every run from here, each buffer is refilled once for each delivery that is over. */
  ghost predicate RefillsOnce(s: Adapter, subs: FrameType -> nat) {
    forall es: seq<Event> :: AllowedRun(s, subs, es) ==> FilledOnce(Run(s, subs, es))
  }

  lemma RunExtends(s: Adapter, subs: FrameType -> nat, es: seq<Event>, e: Event)
    requires ReturningRun(s, subs, es) && Returning(e) && Allowed(Run(s, subs, es), subs, e)
    ensures ReturningRun(s, subs, es + [e])
    ensures Run(s, subs, es + [e]) == Apply(Run(s, subs, es), subs, e)
  {
    assert (es + [e])[..|es|] == es;
  }

  /** What of buffer `b` is outstanding after the frames of the types `gone` have come back. */
  ghost predicate Drained(x: Adapter, y: Adapter, b: Buffer, gone: set<FrameType>) {
    forall t: FrameType :: Outstanding(y, t, b) == if t in gone then 0 else Outstanding(x, t, b)
  }

  /** The frames of one type can all be called back and returned. */
  lemma {:induction false} DrainType(s: Adapter, subs: FrameType -> nat, es: seq<Event>, h: Hold)
    returns (more: seq<Event>)
    requires ReturningRun(s, subs, es)
    ensures ReturningRun(s, subs, more)
    ensures Drained(Run(s, subs, es), Run(s, subs, more), h.b, {h.t})
    decreases 2 * Run(s, subs, es).pending[h] + Run(s, subs, es).held[h]
  {
    var x := Run(s, subs, es);
    if h in x.pending {
      RunExtends(s, subs, es, Callback(h));
      more := DrainType(s, subs, es + [Callback(h)], h);
      OneLess(x, subs, Callback(h));
    } else if h in x.held {
      RunExtends(s, subs, es, GiveBack(h));
      more := DrainType(s, subs, es + [GiveBack(h)], h);
      OneLess(x, subs, GiveBack(h));
    } else {
      more := es;
    }
  }

  lemma OneLess(x: Adapter, subs: FrameType -> nat, e: Event)
    requires (e.Callback? && e.h in x.pending) || (e.GiveBack? && e.h in x.held)
    ensures forall t: FrameType :: t != e.h.t ==> Outstanding(Apply(x, subs, e), t, e.h.b) == Outstanding(x, t, e.h.b)
  {
    forall t: FrameType | t != e.h.t ensures Outstanding(Apply(x, subs, e), t, e.h.b) == Outstanding(x, t, e.h.b) {
      assert Hold(t, e.h.b) != e.h;
    }
  }

  function FirstTypes(k: nat, keep: FrameType): set<FrameType>
    requires k <= |TYPES|
  {
    set t | t in TYPES[..k] && t != keep
  }

  lemma NextType(k: nat, keep: FrameType)
    requires k < |TYPES|
    ensures FirstTypes(k + 1, keep) == FirstTypes(k, keep) + if TYPES[k] == keep then {} else {TYPES[k]}
  {
    assert TYPES[..k + 1] == TYPES[..k] + [TYPES[k]];
  }

  lemma DrainedBoth(x: Adapter, y: Adapter, z: Adapter, b: Buffer, gone: set<FrameType>, more: set<FrameType>)
    requires Drained(x, y, b, gone) && Drained(y, z, b, more)
    ensures Drained(x, z, b, gone + more)
  {
  }

  /** All frames of a buffer but those of one type can come back first. */
  lemma {:induction false} DrainTypes(s: Adapter, subs: FrameType -> nat, b: Buffer, keep: FrameType, k: nat)
    returns (es: seq<Event>)
    requires k <= |TYPES|
    ensures ReturningRun(s, subs, es) && Drained(s, Run(s, subs, es), b, FirstTypes(k, keep))
  {
    if k == 0 {
      es := [];
      assert FirstTypes(0, keep) == {};
    } else {
      es := DrainTypes(s, subs, b, keep, k - 1);
      NextType(k - 1, keep);
      if TYPES[k - 1] != keep {
        var before := Run(s, subs, es);
        es := DrainType(s, subs, es, Hold(TYPES[k - 1], b));
        DrainedBoth(s, before, Run(s, subs, es), b, FirstTypes(k - 1, keep), {TYPES[k - 1]});
      }
    }
  }

  /** The type whose frames stay out while an unsafe delivery refills its buffer. */
  lemma LateType(recording: bool, mask: set<FrameType>) returns (keep: FrameType, t: FrameType)
    requires mask != {} && !Safe(recording, mask)
    ensures keep in mask && t in mask && keep != t
    ensures if Shared(mask) then keep == Image && t == Raw else !recording && PoolOf(keep) != PoolOf(t)
  {
    if Shared(mask) {
      keep, t := Image, Raw;
    } else {
      keep :| keep in mask;
      t := TwoTypes(mask, keep);
    }
  }

  lemma UnsafeRefillsEarly(s: Adapter, subs: FrameType -> nat, b: Buffer, mask: set<FrameType>) returns (es: seq<Event>)
    requires Fresh(s, subs, b, mask) && !Safe(s.recording, mask)
    ensures var s' := Apply(s, subs, Deliver(b, mask)); var x := Run(s', subs, es);
            ReturningRun(s', subs, es) && x.filled[b] > s.filled[b] && Busy(x, b)
  {
    var s' := Apply(s, subs, Deliver(b, mask));
    var keep, t := LateType(s.recording, mask);
    es := DrainTypes(s', subs, b, keep, |TYPES|);
    DeliveryRefills(s, subs, b, mask, es);
    KeptOut(s, Run(s', subs, es), subs, b, mask, keep);
    KeptOne(Run(s', subs, es), subs, b, mask, keep, t);
  }

  lemma KeptOut(s: Adapter, x: Adapter, subs: FrameType -> nat, b: Buffer, mask: set<FrameType>, keep: FrameType)
    requires !Busy(s, b) && keep in mask
    requires Drained(Apply(s, subs, Deliver(b, mask)), x, b, FirstTypes(|TYPES|, keep))
    ensures forall u: FrameType :: Outstanding(x, u, b) == if u == keep then subs(keep) else 0
  {
    forall u: FrameType ensures Outstanding(x, u, b) == if u == keep then subs(keep) else 0 {
      AllTypes(u);
      FirstOut(s, subs, b, mask, u);
    }
  }

  lemma KeptOne(x: Adapter, subs: FrameType -> nat, b: Buffer, mask: set<FrameType>, keep: FrameType, t: FrameType)
    requires forall u: FrameType :: Outstanding(x, u, b) == if u == keep then subs(keep) else 0
    requires t in mask && subs(keep) > 0
    requires if Shared(mask) then keep == Image else !x.recording && PoolOf(keep) != PoolOf(t)
    ensures Refills(x, subs, b, mask) > 0 && Busy(x, b)
  {
    assert PoolOut(x, PoolOf(keep), b) == subs(keep);
    assert PoolOf(t) in PoolsOf(mask);
    if Shared(mask) {
      forall p: Pool ensures Counted(x, subs, b, mask, p) == 0 {
      }
      assert Emptied(x, subs, b, mask) == PoolsOf(mask);
    }
    assert PoolOf(t) in Emptied(x, subs, b, mask);
  }

  /** After a delivery every run refills each buffer once, and only when the last frame of it has come
      back, if and only if the delivery is safe. */
  lemma DeliveryRefillsOnceExactly(s: Adapter, subs: FrameType -> nat, b: Buffer, mask: set<FrameType>)
    requires Fresh(s, subs, b, mask)
    ensures RefillsOnce(Apply(s, subs, Deliver(b, mask)), subs) <==> Safe(s.recording, mask)
  {
    var s' := Apply(s, subs, Deliver(b, mask));
    if Safe(s.recording, mask) {
      DeliverKeeps(s, subs, b, mask);
      forall es: seq<Event> | AllowedRun(s', subs, es) ensures FilledOnce(Run(s', subs, es)) {
        RunKeeps(s', subs, es);
      }
    } else {
      var es := UnsafeRefillsEarly(s, subs, b, mask);
      RefilledFirst(s, subs, b, mask);
      RefilledRun(s, s', subs, b, mask, es);
      var x := Run(s', subs, es);
      assert s.delivered[b] == s.filled[b];
      assert x.delivered[b] != x.filled[b] + if Busy(x, b) then 1 else 0;
    }
  }

  /** A buffer is refilled while somebody still holds it exactly when, without recording, one of
      several outstanding pools runs empty; here the counts are still the frames outstanding. */
  lemma EarlyFillExactly(s: Adapter, h: Hold)
    requires h in s.held && CountsAreHolds(s)
    ensures var s', own := GivenBack(s, h), PoolOf(h.t);
            (Return(s.counts, s.recording, h.b, h.t).1 && Busy(s', h.b))
            <==> (!s.recording && PoolOut(s, own, h.b) == 1 && exists p :: p != own && PoolOut(s, p, h.b) > 0)
  {
    var s', own := GivenBack(s, h), PoolOf(h.t);
    if s.recording {
      GiveBackFills(s, h);
    } else {
      ReturnReleases(s.counts, s.recording, h.b, h.t);
      forall p: Pool {
        GiveBackOut(s, h, p, h.b);
      }
      assert Positive(PoolCount(s.counts, own, h.b)) == PoolOut(s, own, h.b);
      if exists p :: p != own && PoolOut(s, p, h.b) > 0 {
        var p :| p != own && PoolOut(s, p, h.b) > 0;
        assert PoolOut(s', p, h.b) > 0;
      }
    }
  }

  function OneEach(): FrameType -> nat { t => 1 }

  /** Two types for one subscriber each. */
  function Both(t: FrameType, u: FrameType, recording: bool): Adapter {
    var s := Apply(Empty(recording), OneEach(), Deliver(1, {t, u}));
    Apply(Apply(s, OneEach(), Callback(Hold(t, 1))), OneEach(), Callback(Hold(u, 1)))
  }

  lemma BothOut(t: FrameType, u: FrameType, recording: bool)
    requires t != u
    ensures var s := Both(t, u, recording);
            && s.counts == InitCounts(map[], OneEach(), 1, {t, u}, |TYPES|) && s.recording == recording
            && s.held[Hold(t, 1)] == 1 && s.held[Hold(u, 1)] == 1
            && s.delivered == multiset{1} && s.filled == multiset{}
  {
    var s := Apply(Empty(recording), OneEach(), Deliver(1, {t, u}));
    assert s.held == multiset{};
  }

  /** Without recording a return refills the buffer when its own count runs out. */
  lemma LastOfItsKind(s: Adapter, h: Hold)
    requires !s.recording && Count(s.counts, h.t, h.b) == 1
    ensures var s' := GivenBack(s, h);
            && s'.filled == s.filled + multiset{h.b} && s'.delivered == s.delivered && !s'.recording
            && forall t: FrameType :: PoolOf(t) != PoolOf(h.t) ==> Count(s'.counts, t, h.b) == Count(s.counts, t, h.b)
  {
    ReturnReleases(s.counts, s.recording, h.b, h.t);
  }

  /** Not recording, a frame delivered as preview and as snapshot is refilled twice. */
  lemma TwoTypesFillTwice()
    ensures var s := Both(PreviewSync, Snapshot, false);
            var s' := GivenBack(GivenBack(s, Hold(PreviewSync, 1)), Hold(Snapshot, 1));
            s'.delivered[1] == 1 && s'.filled[1] == 2
  {
    var s := Both(PreviewSync, Snapshot, false);
    BothOut(PreviewSync, Snapshot, false);
    DeliverCount(map[], OneEach(), 1, {PreviewSync, Snapshot}, PreviewSync, 1);
    DeliverCount(map[], OneEach(), 1, {PreviewSync, Snapshot}, Snapshot, 1);
    LastOfItsKind(s, Hold(PreviewSync, 1));
    LastOfItsKind(GivenBack(s, Hold(PreviewSync, 1)), Hold(Snapshot, 1));
  }

  lemma CaptureOnce(s: Adapter, b: Buffer)
    requires forall p: Pool :: PoolCount(s.counts, p, b) == if p == Capture then 1 else -1
    ensures Return(s.counts, s.recording, b, Image).1
  {
    ReturnReleases(s.counts, s.recording, b, Image);
  }

  /** Image and raw frames share a count: the first return refills the buffer, the other is still held. */
  lemma SharedMapFillsEarly(recording: bool)
    ensures var s := Both(Image, Raw, recording); var s' := GivenBack(s, Hold(Image, 1));
            s'.filled[1] == 1 && Hold(Raw, 1) in s'.held
  {
    var s := Both(Image, Raw, recording);
    BothOut(Image, Raw, recording);
    assert s.counts == map[(Capture, 1) := 1] by {
      assert InitCounts(map[], OneEach(), 1, {Image, Raw}, 1) == map[];
      assert InitCounts(map[], OneEach(), 1, {Image, Raw}, 2) == map[(Capture, 1) := 1];
      assert InitCounts(map[], OneEach(), 1, {Image, Raw}, 3) == map[(Capture, 1) := 1];
      assert InitCounts(map[], OneEach(), 1, {Image, Raw}, 4) == map[(Capture, 1) := 1];
      assert InitCounts(map[], OneEach(), 1, {Image, Raw}, 5) == map[(Capture, 1) := 1];
      assert InitCounts(map[], OneEach(), 1, {Image, Raw}, 6) == map[(Capture, 1) := 1];
    }
    CaptureOnce(s, 1);
  }

  // ---------------------------------------------------------------- the imperative routines

  const NULL_BUFFER: Buffer := 0

  predicate NeedsFrameQueue(t: FrameType) { t.PreviewSync? || t.VideoSync? || t.Snapshot? }

  /** One callback per count: subscriber `i` of type `t` is entry `(t, i)`. */
  function Notices(t: FrameType, n: nat): seq<(FrameType, nat)> { seq(n, i => (t, i)) }

  datatype Sending = Sending(ok: bool, log: seq<(FrameType, nat)>, mask: set<FrameType>)

  predicate Sendable(cs: Counts, subs: FrameType -> nat, queued: bool, b: Buffer, t: FrameType) {
    (NeedsFrameQueue(t) ==> queued) && 0 < Count(cs, t, b) <= subs(t)
  }

  /** `sendFrameToSubscribers` up to type `k`; the first failing type ends it. */
  function Sent(cs: Counts, subs: FrameType -> nat, queued: bool, b: Buffer, mask: set<FrameType>, k: nat): Sending
    requires k <= |TYPES|
  {
    if k == 0 then Sending(true, [], mask)
    else
      var s, t := Sent(cs, subs, queued, b, mask, k - 1), TYPES[k - 1];
      if !s.ok || t !in mask then s
      else if Sendable(cs, subs, queued, b, t) then Sending(true, s.log + Notices(t, Count(cs, t, b)), s.mask - {t})
      else Sending(false, s.log, s.mask - {t})
  }

  lemma NoticesOnce(t: FrameType, n: nat, x: (FrameType, nat))
    ensures multiset(Notices(t, n))[x] == if x.0 == t && x.1 < n then 1 else 0
  {
    if n > 0 {
      NoticesOnce(t, n - 1, x);
      assert Notices(t, n) == Notices(t, n - 1) + [(t, n - 1)];
    } else {
      assert Notices(t, n) == [];
    }
  }

  /** The first `k` types of the mask have been sent to all their subscribers, once each. */
  ghost predicate SentTo(subs: FrameType -> nat, mask: set<FrameType>, k: nat, s: Sending)
    requires k <= |TYPES|
  {
    && s.ok
    && (forall t: FrameType :: t in s.mask <==> t in mask && t !in TYPES[..k])
    && forall x: (FrameType, nat) :: multiset(s.log)[x] == NoticesOf(subs, mask, k, x)
  }

  ghost function NoticesOf(subs: FrameType -> nat, mask: set<FrameType>, k: nat, x: (FrameType, nat)): nat
    requires k <= |TYPES|
  {
    if x.0 in mask && x.0 in TYPES[..k] && x.1 < subs(x.0) then 1 else 0
  }

  lemma SendOne(subs: FrameType -> nat, mask: set<FrameType>, k: nat, s: Sending)
    requires k < |TYPES| && SentTo(subs, mask, k, s) && TYPES[k] in mask
    ensures SentTo(subs, mask, k + 1, Sending(true, s.log + Notices(TYPES[k], subs(TYPES[k])), s.mask - {TYPES[k]}))
  {
    var t, more := TYPES[k], Notices(TYPES[k], subs(TYPES[k]));
    assert TYPES[..k + 1] == TYPES[..k] + [t];
    assert t !in TYPES[..k];
    assert multiset(s.log + more) == multiset(s.log) + multiset(more);
    var next := k + 1;
    forall x: (FrameType, nat) ensures multiset(s.log + more)[x] == NoticesOf(subs, mask, next, x) {
      NoticesOnce(t, subs(t), x);
    }
  }

  lemma SendNone(subs: FrameType -> nat, mask: set<FrameType>, k: nat, s: Sending)
    requires k < |TYPES| && SentTo(subs, mask, k, s) && TYPES[k] !in mask
    ensures SentTo(subs, mask, k + 1, s)
  {
    assert TYPES[..k + 1] == TYPES[..k] + [TYPES[k]];
    var next := k + 1;
    forall x: (FrameType, nat) ensures NoticesOf(subs, mask, next, x) == NoticesOf(subs, mask, k, x) {
    }
  }

  lemma {:induction false} SendUpTo(cs: Counts, subs: FrameType -> nat, queued: bool, b: Buffer,
                                    mask: set<FrameType>, k: nat)
    requires k <= |TYPES| && forall t :: t in mask ==> Sendable(cs, subs, queued, b, t) && Count(cs, t, b) == subs(t)
    ensures SentTo(subs, mask, k, Sent(cs, subs, queued, b, mask, k))
  {
    if k > 0 {
      SendUpTo(cs, subs, queued, b, mask, k - 1);
      var s, t := Sent(cs, subs, queued, b, mask, k - 1), TYPES[k - 1];
      if t in mask {
        SendOne(subs, mask, k - 1, s);
      } else {
        SendNone(subs, mask, k - 1, s);
      }
    }
  }

  /** A delivery with subscribers for every type calls each of them exactly once. */
  lemma DeliveryReachesEverySubscriber(cs: Counts, subs: FrameType -> nat, queued: bool, b: Buffer,
                                       mask: set<FrameType>)
    requires (forall t :: t in mask ==> subs(t) > 0 && (NeedsFrameQueue(t) ==> queued)) && !Shared(mask)
    ensures var s := Sent(InitCounts(cs, subs, b, mask, |TYPES|), subs, queued, b, mask, |TYPES|);
            && s.ok && s.mask == {}
            && forall t, i: nat :: multiset(s.log)[(t, i)] == if t in mask && i < subs(t) then 1 else 0
  {
    var cs' := InitCounts(cs, subs, b, mask, |TYPES|);
    forall t | t in mask ensures Count(cs', t, b) == subs(t) {
      if t == Image || t == Raw {
        DeliverCapture(cs, subs, b, mask, b);
      } else {
        DeliverCount(cs, subs, b, mask, t, b);
      }
    }
    SendUpTo(cs', subs, queued, b, mask, |TYPES|);
    forall t: FrameType ensures t in TYPES[..|TYPES|] {
      AllTypes(t);
    }
    var log := Sent(cs', subs, queued, b, mask, |TYPES|).log;
    forall t: FrameType, i: nat ensures multiset(log)[(t, i)] == if t in mask && i < subs(t) then 1 else 0 {
      assert multiset(log)[(t, i)] == NoticesOf(subs, mask, |TYPES|, (t, i));
    }
  }

  /** The stopping loop on the counts alone: new counts, and the buffers refilled. */
  function StopCounts(cs: Counts, keys: seq<Buffer>, k: nat): (Counts, multiset<Buffer>)
    requires k <= |keys|
  {
    if k == 0 then (cs, multiset{})
    else
      var (cs', filled) := StopCounts(cs, keys, k - 1);
      var (cs'', fills) := StopOne(cs', keys[k - 1]);
      (cs'', if fills then filled + multiset{keys[k - 1]} else filled)
  }

  function StopOne(cs: Counts, b: Buffer): (Counts, bool) {
    if Count(cs, VideoSync, b) > 0 then Return(cs, true, b, VideoSync) else (cs, false)
  }

  lemma StopOneCounts(s: Adapter, b: Buffer)
    requires s.recording
    ensures var s', (cs, fills) := StopFrame(s, b), StopOne(s.counts, b);
            s'.counts == cs && s'.recording && s'.filled == if fills then s.filled + multiset{b} else s.filled
  {
  }

  /** The loop of the run model does to the counts what the method does. */
  lemma {:induction false} StopLoopCounts(s: Adapter, keys: seq<Buffer>, k: nat)
    requires k <= |keys| && s.recording
    ensures var s', (cs, filled) := StopLoop(s, keys, k), StopCounts(s.counts, keys, k);
            s'.counts == cs && s'.recording && s'.filled == s.filled + filled
  {
    if k > 0 {
      StopLoopCounts(s, keys, k - 1);
      StopOneCounts(StopLoop(s, keys, k - 1), keys[k - 1]);
      var (cs, filled) := StopCounts(s.counts, keys, k - 1);
      assert s.filled + filled + multiset{keys[k - 1]} == s.filled + (filled + multiset{keys[k - 1]});
    } else {
      assert s.filled + multiset{} == s.filled;
    }
  }

  function Cleared(cs: Counts): Counts { map x | x in cs && x.0 != Video :: cs[x] }

  /** Zero video counts for the first `k` keys. */
  function Zeroed(cs: Counts, keys: seq<Buffer>, k: nat): Counts
    requires k <= |keys|
  {
    if k == 0 then cs else Zeroed(cs, keys, k - 1)[(Video, keys[k - 1]) := 0]
  }

  lemma {:induction false} ZeroedAt(cs: Counts, keys: seq<Buffer>, k: nat, x: (Pool, Buffer))
    requires k <= |keys|
    ensures x in Zeroed(cs, keys, k) <==> x in cs || (x.0 == Video && Passed(keys, k, x.1))
    ensures x in Zeroed(cs, keys, k) ==>
              Zeroed(cs, keys, k)[x] == if x.0 == Video && Passed(keys, k, x.1) then 0 else cs[x]
  {
    if k > 0 {
      ZeroedAt(cs, keys, k - 1, x);
    }
  }

  lemma ZeroedStarts(cs: Counts, keys: seq<Buffer>)
    requires forall b :: b in keys <==> b in PreviewBuffers(cs)
    ensures Zeroed(Cleared(cs), keys, |keys|) == StartCounts(cs)
  {
    forall x: (Pool, Buffer)
      ensures x in Zeroed(Cleared(cs), keys, |keys|) <==> x in StartCounts(cs)
      ensures x in StartCounts(cs) ==> Zeroed(Cleared(cs), keys, |keys|)[x] == StartCounts(cs)[x]
    {
      ZeroedAt(Cleared(cs), keys, |keys|, x);
      assert Passed(keys, |keys|, x.1) <==> x.1 in keys;
    }
  }

  class BaseCameraAdapter {
    var counts: Counts
    var recording: bool
    var framesWithDisplay: int
    var framesWithEncoder: int
    /** Number of subscribers of each type. */
    var subs: FrameType -> nat
    /** Whether the frame queue has entries. */
    var queued: bool

    constructor (subs: FrameType -> nat)
      ensures counts == Empty(false).counts && recording == Empty(false).recording && this.subs == subs
    {
      counts, recording, framesWithDisplay, framesWithEncoder := map[], false, 0, 0;
      this.subs, queued := subs, false;
    }

    method GetFrameRefCount(b: Buffer) returns (res: int)
      ensures res == Sum(counts, b, |TYPES|)
    {
      res := 0;
      for i := 0 to |TYPES|
        invariant res == Sum(counts, b, i)
      {
        var refCnt := Count(counts, TYPES[i], b);
        if refCnt > 0 {
          res := res + refCnt;
        }
      }
    }

    /** Returns whether the buffer goes back to the producer. */
    method ReturnFrame(b: Buffer, t: FrameType) returns (fill: bool)
      modifies this`counts, this`framesWithDisplay, this`framesWithEncoder
      ensures b == NULL_BUFFER ==> !fill && counts == old(counts)
      ensures b != NULL_BUFFER ==> (counts, fill) == Return(old(counts), recording, b, t)
      ensures framesWithDisplay == old(framesWithDisplay) - if b != NULL_BUFFER && t.PreviewSync? then 1 else 0
      ensures framesWithEncoder == old(framesWithEncoder) - if b != NULL_BUFFER && t.VideoSync? then 1 else 0
    {
      if b == NULL_BUFFER {
        return false;
      }
      var refCount := Count(counts, t, b);
      if t.PreviewSync? {
        framesWithDisplay := framesWithDisplay - 1;
      } else if t.VideoSync? {
        framesWithEncoder := framesWithEncoder - 1;
      }
      if refCount <= 0 {
        return false;
      }
      refCount := refCount - 1;
      counts := counts[(PoolOf(t), b) := refCount];
      if recording {
        var others := GetFrameRefCount(b);
        refCount := refCount + others;
      }
      fill := refCount == 0;
    }

    /** New buffers, numbered from 1: those that may be queued have no count yet. */
    method UseBuffers(t: FrameType, maxQueueable: nat, count: nat)
      requires Loadable(t)
      modifies this`counts
      ensures counts == LoadCounts(old(counts), t, maxQueueable, Larger(maxQueueable, count))
    {
      counts := map x | x in counts && x.0 !in ClearedBy(t) :: counts[x];
      for i := 0 to maxQueueable
        invariant counts == LoadCounts(old(counts), t, maxQueueable, i)
      {
        counts := counts[(PoolOf(t), i + 1) := 0];
      }
      var i := maxQueueable;
      while i < count
        invariant maxQueueable <= i <= Larger(maxQueueable, count)
        invariant counts == LoadCounts(old(counts), t, maxQueueable, i)
      {
        counts := counts[(PoolOf(t), i + 1) := 1];
        i := i + 1;
      }
    }

    method SetInitFrameRefCount(b: Buffer, mask: set<FrameType>) returns (ok: bool)
      modifies this`counts
      ensures ok == (b != NULL_BUFFER)
      ensures counts == if ok then InitCounts(old(counts), subs, b, mask, |TYPES|) else old(counts)
    {
      if b == NULL_BUFFER {
        return false;
      }
      for i := 0 to |TYPES|
        invariant counts == InitCounts(old(counts), subs, b, mask, i)
      {
        if TYPES[i] in mask {
          counts := counts[(PoolOf(TYPES[i]), b) := subs(TYPES[i])];
        }
      }
      return true;
    }

    /** Returns success, the callbacks made, and what is left of the mask. */
    method SendFrameToSubscribers(b: Buffer, frameMask: set<FrameType>)
      returns (ok: bool, log: seq<(FrameType, nat)>, mask: set<FrameType>)
      ensures Sending(ok, log, mask) == Sent(counts, subs, queued, b, frameMask, |TYPES|)
    {
      ok, log, mask := true, [], frameMask;
      for i := 0 to |TYPES|
        invariant Sending(ok, log, mask) == Sent(counts, subs, queued, b, frameMask, i)
      {
        var t := TYPES[i];
        if ok && t in frameMask {
          var more;
          ok, more := SendToType(b, t);
          log := log + more;
          mask := mask - {t};
        }
      }
    }

    method SendToType(b: Buffer, t: FrameType) returns (ok: bool, log: seq<(FrameType, nat)>)
      ensures ok == Sendable(counts, subs, queued, b, t)
      ensures ok <==> (t in {PreviewSync, VideoSync, Snapshot} ==> queued) && 0 < Count(counts, t, b) <= subs(t)
      ensures log == if ok then Notices(t, Count(counts, t, b)) else []
    {
      if NeedsFrameQueue(t) && !queued {
        return false, [];
      }
      var refCount := Count(counts, t, b);
      if refCount == 0 {
        return false, [];
      }
      // a missing buffer has count -1, which is enormous as an unsigned number
      if refCount < 0 || refCount > subs(t) {
        return false, [];
      }
      log := [];
      for i := 0 to refCount
        invariant log == Notices(t, i)
      {
        log := log + [(t, i)];
        assert Notices(t, i + 1) == Notices(t, i) + [(t, i)];
      }
      return true, log;
    }

    /** `keys` are the buffers of the preview map in its order. */
    method StartVideoCapture(keys: seq<Buffer>) returns (ok: bool)
      requires forall b :: b in keys <==> b in PreviewBuffers(counts)
      modifies this`counts, this`recording
      ensures ok == !old(recording) && recording
      ensures counts == if ok then StartCounts(old(counts)) else old(counts)
    {
      if recording {
        return false;
      }
      counts := map x | x in counts && x.0 != Video :: counts[x];
      for i := 0 to |keys|
        invariant counts == Zeroed(Cleared(old(counts)), keys, i)
      {
        counts := counts[(Video, keys[i]) := 0];
      }
      ZeroedStarts(old(counts), keys);
      recording := true;
      return true;
    }

    /** One step of stopping. */
    method StopBuffer(b: Buffer) returns (fill: bool)
      requires recording && b != NULL_BUFFER
      modifies this`counts, this`framesWithDisplay, this`framesWithEncoder
      ensures (counts, fill) == StopOne(old(counts), b)
      ensures framesWithDisplay == old(framesWithDisplay)
      ensures framesWithEncoder == old(framesWithEncoder) - if old(Count(counts, VideoSync, b)) > 0 then 1 else 0
    {
      fill := false;
      if Count(counts, VideoSync, b) > 0 {
        fill := ReturnFrame(b, VideoSync);
      }
    }

    /** `keys` are the buffers of the video map in its order; also returns the buffers refilled. */
    method StopVideoCapture(keys: seq<Buffer>) returns (ok: bool, filled: multiset<Buffer>)
      requires VideoKeys(counts, keys) && NULL_BUFFER !in keys
      modifies this`counts, this`recording, this`framesWithDisplay, this`framesWithEncoder
      ensures ok == old(recording) && !recording
      ensures (counts, filled) == if ok then StopCounts(old(counts), keys, |keys|) else (old(counts), multiset{})
    {
      filled := multiset{};
      if !recording {
        return false, filled;
      }
      for i := 0 to |keys|
        invariant recording && (counts, filled) == StopCounts(old(counts), keys, i)
      {
        var fill := StopBuffer(keys[i]);
        if fill {
          filled := filled + multiset{keys[i]};
        }
      }
      recording := false;
      return true, filled;
    }
  }
}
