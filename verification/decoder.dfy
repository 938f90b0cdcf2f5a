/** Buffer exchange between the client of a video decoder and its OMX component
    (camera/FrameDecoder.cpp, camera/OmxFrameDecoder.cpp). */
module Decoder {
  // ---------------------------------------------------------------- one port

  /** `Queued`, `Waiting` and `Done` are InQueued, InWaitForEmpty, InDecoded on the input side, and
      OutQueued, OutWaitForFill, OutFilled on the output side. */
  datatype Status = Unknown | Queued | Waiting | Done

  /** A port: its queue, the status and filled length of each buffer, which buffers the component
      holds, and how large the component's buffers are. */
  datatype Port = Port(queue: seq<int>, status: map<int, Status>, lengths: map<int, int>, held: set<int>,
                       bufferSize: nat)

  function StatusOf(p: Port, id: int): Status { if id in p.status then p.status[id] else Unknown }

  function LengthOf(p: Port, id: int): int { if id in p.lengths then p.lengths[id] else 0 }

  function Enqueued(p: Port, id: int, filledLen: int): Port {
    p.(queue := p.queue + [id], status := p.status[id := Queued], lengths := p.lengths[id := filledLen])
  }

  /** A signed length as the unsigned number that it is compared as. */
  function Unsigned(n: int): nat { n % 0x1_0000_0000 }

  predicate Fits(filledLen: int, bufferSize: nat) { Unsigned(filledLen) <= bufferSize }

  /** A buffer goes to the component if it fits the component's and the component `takes` it; it is
      marked as submitted all the same. */
  function Submitted(p: Port, id: int, takes: bool): Port {
    p.(status := p.status[id := Waiting],
       held := if takes && Fits(LengthOf(p, id), p.bufferSize) then p.held + {id} else p.held)
  }

  /** The component gives a buffer back; unless it was executing, the buffer is up for submission again. */
  function Finished(p: Port, id: int, executing: bool): Port {
    p.(status := p.status[id := if executing then Done else Queued], held := p.held - {id})
  }

  predicate Ready(p: Port, i: nat)
    requires i < |p.queue|
  {
    StatusOf(p, p.queue[i]) == Done
  }

  function Dequeued(p: Port, i: nat): Port
    requires i < |p.queue|
  {
    p.(queue := p.queue[..i] + p.queue[i + 1..], status := p.status[p.queue[i] := Unknown])
  }

  function Cleared(p: Port): Port { p.(queue := []) }

  ghost predicate Distinct(s: seq<int>) { forall i, j :: 0 <= i < j < |s| ==> s[i] != s[j] }

  ghost predicate PortInv(p: Port) {
    && Distinct(p.queue)
    && (forall i :: 0 <= i < |p.queue| ==> StatusOf(p, p.queue[i]) != Unknown)
    && (forall id :: id in p.held ==> StatusOf(p, id) == Waiting)
  }

  // ---------------------------------------------------------------- runs of a port

  datatype PortEvent =
    | Queue(id: int, filledLen: int)
    | Submit(id: int, takes: bool)
    | Finish(id: int, executing: bool)
    | Dequeue(id: int)
    | Clear

  /** The index of the buffer that a dequeue returns: the first one that is done. */
  ghost predicate FirstReady(p: Port, i: nat) {
    i < |p.queue| && Ready(p, i) && forall j: nat :: j < i ==> !Ready(p, j)
  }

  /** The client queues only buffers that it owns: those neither queued nor with the component. */
  predicate Owns(p: Port, id: int) { id !in p.queue && id !in p.held }

  ghost predicate Allowed(p: Port, e: PortEvent) {
    match e
    case Queue(id, _) => Owns(p, id)
    case Submit(id, _) => id in p.queue && StatusOf(p, id) == Queued
    case Finish(id, _) => id in p.held
    case Dequeue(id) => id in p.queue && FirstReady(p, Position(p.queue, id))
    case Clear => true
  }

  function Position(s: seq<int>, id: int): (i: nat)
    requires id in s
    ensures i < |s| && s[i] == id && id !in s[..i]
  {
    if s[0] == id then 0
    else
      assert s == [s[0]] + s[1..];
      var i := Position(s[1..], id);
      assert s[..i + 1] == [s[0]] + s[1..][..i];
      i + 1
  }

  function Apply(p: Port, e: PortEvent): Port {
    match e
    case Queue(id, filledLen) => Enqueued(p, id, filledLen)
    case Submit(id, takes) => Submitted(p, id, takes)
    case Finish(id, executing) => Finished(p, id, executing)
    case Dequeue(id) => if id in p.queue then Dequeued(p, Position(p.queue, id)) else p
    case Clear => Cleared(p)
  }

  function Run(p: Port, es: seq<PortEvent>, k: nat): Port
    requires k <= |es|
  {
    if k == 0 then p else Apply(Run(p, es, k - 1), es[k - 1])
  }

  ghost predicate AllowedAt(p: Port, es: seq<PortEvent>, k: nat)
    requires k < |es|
  {
    Allowed(Run(p, es, k), es[k])
  }

  ghost predicate AllowedRun(p: Port, es: seq<PortEvent>) {
    forall k :: 0 <= k < |es| ==> AllowedAt(p, es, k)
  }

  lemma DequeuedKeeps(p: Port, i: nat)
    requires PortInv(p) && i < |p.queue| && Ready(p, i)
    ensures PortInv(Dequeued(p, i)) && p.queue[i] !in Dequeued(p, i).queue
    ensures forall id :: id != p.queue[i] ==> (id in Dequeued(p, i).queue <==> id in p.queue)
  {
    var r := Dequeued(p, i);
    assert forall j :: 0 <= j < |r.queue| ==> r.queue[j] == p.queue[if j < i then j else j + 1];
    assert forall j :: 0 <= j < |p.queue| && j != i ==> p.queue[j] == r.queue[if j < i then j else j - 1];
  }

  lemma ApplyKeeps(p: Port, e: PortEvent)
    requires PortInv(p) && Allowed(p, e)
    ensures PortInv(Apply(p, e))
  {
    match e
    case Dequeue(id) => DequeuedKeeps(p, Position(p.queue, id));
    case _ =>
  }

  function Empty(bufferSize: nat): Port { Port([], map[], map[], {}, bufferSize) }

  lemma {:induction false} RunKeeps(size: nat, es: seq<PortEvent>, k: nat)
    requires k <= |es| && AllowedRun(Empty(size), es)
    ensures PortInv(Run(Empty(size), es, k))
  {
    if k > 0 {
      RunKeeps(size, es, k - 1);
      assert AllowedAt(Empty(size), es, k - 1);
      ApplyKeeps(Run(Empty(size), es, k - 1), es[k - 1]);
    }
  }

  predicate Concerns(e: PortEvent, id: int) { !e.Clear? && e.id == id }

  /** A buffer keeps its status until the next event that concerns it. */
  ghost predicate Untouched(es: seq<PortEvent>, from: nat, to: nat, id: int) {
    forall i :: from <= i < to && i < |es| ==> !Concerns(es[i], id)
  }

  ghost predicate NoClear(es: seq<PortEvent>, from: nat, to: nat) {
    forall i :: from <= i < to && i < |es| ==> !es[i].Clear?
  }

  lemma Unconcerned(p: Port, e: PortEvent, id: int)
    requires !Concerns(e, id)
    ensures StatusOf(Apply(p, e), id) == StatusOf(p, id)
  {
  }

  lemma {:induction false} StatusStays(p: Port, es: seq<PortEvent>, i: nat, k: nat, id: int)
    requires i <= k <= |es| && Untouched(es, i, k, id)
    ensures StatusOf(Run(p, es, k), id) == StatusOf(Run(p, es, i), id)
  {
    if i < k {
      StatusStays(p, es, i, k - 1, id);
      assert !Concerns(es[k - 1], id);
      Unconcerned(Run(p, es, k - 1), es[k - 1], id);
    }
  }

  /** The status in which an event leaves its buffer. */
  function Leaves(e: PortEvent): Status {
    match e
    case Queue(_, _) => Queued
    case Submit(_, _) => Waiting
    case Finish(_, executing) => if executing then Done else Queued
    case Dequeue(_) => Unknown
    case Clear => Unknown
  }

  lemma EventLeaves(p: Port, e: PortEvent)
    requires Allowed(p, e) && !e.Clear?
    ensures StatusOf(Apply(p, e), e.id) == Leaves(e)
  {
  }

  lemma RunLeaves(p: Port, es: seq<PortEvent>, k: nat)
    requires k < |es| && AllowedRun(p, es) && !es[k].Clear?
    ensures StatusOf(Run(p, es, k + 1), es[k].id) == Leaves(es[k])
  {
    assert AllowedAt(p, es, k);
    EventLeaves(Run(p, es, k), es[k]);
  }

  /** The last event that concerns a buffer decides its status. */
  lemma {:induction false} LastEvent(size: nat, es: seq<PortEvent>, k: nat, id: int) returns (j: int)
    requires k <= |es| && AllowedRun(Empty(size), es)
    ensures -1 <= j < k && Untouched(es, j + 1, k, id)
    ensures j >= 0 ==> Concerns(es[j], id)
    ensures StatusOf(Run(Empty(size), es, k), id) == if j < 0 then Unknown else Leaves(es[j])
  {
    if k == 0 {
      j := -1;
    } else if Concerns(es[k - 1], id) {
      j := k - 1;
      RunLeaves(Empty(size), es, k - 1);
    } else {
      j := LastEvent(size, es, k - 1, id);
      StatusStays(Empty(size), es, k - 1, k, id);
    }
  }

  /** A buffer is dequeued only after the component has given it back while executing, with nothing
      happening to it in between. */
  lemma DequeuedAfterDone(size: nat, es: seq<PortEvent>, k: nat) returns (j: nat)
    requires k < |es| && AllowedRun(Empty(size), es) && es[k].Dequeue?
    ensures j < k && es[j] == Finish(es[k].id, true) && Untouched(es, j + 1, k, es[k].id)
  {
    assert AllowedAt(Empty(size), es, k);
    var l := LastEvent(size, es, k, es[k].id);
    j := l;
  }

  /** The `j`-th event submits buffer `id`, and the component gets it or not. */
  ghost predicate SubmitsAt(p: Port, es: seq<PortEvent>, j: nat, id: int, accepted: bool)
    requires j < |es|
  {
    && es[j].Submit? && es[j].id == id
    && accepted == (es[j].takes && Fits(LengthOf(Run(p, es, j), id), p.bufferSize))
  }

  lemma {:induction false} SizeStays(p: Port, es: seq<PortEvent>, k: nat)
    requires k <= |es|
    ensures Run(p, es, k).bufferSize == p.bufferSize
  {
    if k > 0 {
      SizeStays(p, es, k - 1);
    }
  }

  /** Nobody but the component moves a buffer in or out of the component's hands. */
  lemma {:induction false} HeldStays(p: Port, es: seq<PortEvent>, i: nat, k: nat, id: int)
    requires i <= k <= |es| && Untouched(es, i, k, id)
    ensures id in Run(p, es, k).held <==> id in Run(p, es, i).held
  {
    if i < k {
      HeldStays(p, es, i, k - 1, id);
      assert !Concerns(es[k - 1], id);
    }
  }

  lemma SubmitHolds(size: nat, es: seq<PortEvent>, j: nat, id: int, accepted: bool)
    requires j < |es| && AllowedRun(Empty(size), es) && SubmitsAt(Empty(size), es, j, id, accepted)
    ensures id in Run(Empty(size), es, j + 1).held <==> accepted
  {
    RunKeeps(size, es, j);
    SizeStays(Empty(size), es, j);
    assert AllowedAt(Empty(size), es, j);
  }

  lemma {:induction false} HeldUntilDone(size: nat, es: seq<PortEvent>, i: nat, k: nat, id: int)
    requires i < k <= |es| && AllowedRun(Empty(size), es) && SubmitsAt(Empty(size), es, i, id, true)
    requires forall j :: i < j < k ==> !(es[j].Finish? && es[j].id == id)
    ensures id in Run(Empty(size), es, k).held
  {
    if k == i + 1 {
      SubmitHolds(size, es, i, id, true);
    } else {
      HeldUntilDone(size, es, i, k - 1, id);
    }
  }

  /** Between two submissions of a buffer the component has given it back, if it got it at all. */
  lemma SubmittedOnce(size: nat, es: seq<PortEvent>, i: nat, k: nat, id: int)
    requires i < k < |es| && AllowedRun(Empty(size), es)
    requires SubmitsAt(Empty(size), es, i, id, true) && es[k].Submit? && es[k].id == id
    ensures exists j :: i < j < k && es[j].Finish? && es[j].id == id
  {
    RunKeeps(size, es, k);
    assert AllowedAt(Empty(size), es, k);
    if forall j :: i < j < k ==> !(es[j].Finish? && es[j].id == id) {
      HeldUntilDone(size, es, i, k, id);
    }
  }

  lemma SubmitWaits(size: nat, es: seq<PortEvent>, j: nat, k: nat, id: int, accepted: bool)
    requires j < k <= |es| && AllowedRun(Empty(size), es)
    requires SubmitsAt(Empty(size), es, j, id, accepted) && Untouched(es, j + 1, k, id)
    ensures var p := Run(Empty(size), es, k); StatusOf(p, id) == Waiting && (id in p.held <==> accepted)
  {
    SubmitHolds(size, es, j, id, accepted);
    StatusStays(Empty(size), es, j + 1, k, id);
    HeldStays(Empty(size), es, j + 1, k, id);
  }

  /** In every run, a buffer marked as waiting is not with the component exactly when the last thing that
      happened to it was a submission that the component did not get. */
  lemma WaitingElsewhereExactly(size: nat, es: seq<PortEvent>, k: nat, id: int)
    requires k <= |es| && AllowedRun(Empty(size), es)
    ensures var p := Run(Empty(size), es, k);
            StatusOf(p, id) == Waiting && id !in p.held
            <==> exists j: nat :: j < k && SubmitsAt(Empty(size), es, j, id, false) && Untouched(es, j + 1, k, id)
  {
    var p := Run(Empty(size), es, k);
    if StatusOf(p, id) == Waiting && id !in p.held {
      var l := LastEvent(size, es, k, id);
      SubmitWaits(size, es, l, k, id, es[l].takes && Fits(LengthOf(Run(Empty(size), es, l), id), size));
      assert SubmitsAt(Empty(size), es, l, id, false);
    }
    forall j: nat | j < k && SubmitsAt(Empty(size), es, j, id, false) && Untouched(es, j + 1, k, id)
      ensures StatusOf(p, id) == Waiting && id !in p.held
    {
      SubmitWaits(size, es, j, k, id, false);
    }
  }

  lemma {:induction false} LengthStays(p: Port, es: seq<PortEvent>, i: nat, k: nat, id: int)
    requires i < k <= |es| && es[i].Queue? && es[i].id == id
    requires forall j :: i < j < k ==> !(es[j].Queue? && es[j].id == id)
    ensures LengthOf(Run(p, es, k), id) == es[i].filledLen
  {
    if i + 1 < k {
      LengthStays(p, es, i, k - 1, id);
      assert !(es[k - 1].Queue? && es[k - 1].id == id);
    }
  }

  /** What the client can check before it queues a buffer: until it queues it again, and if the component
      takes what fits, being marked as waiting means being with the component if and only if the filled
      length fits the component's buffers. */
  lemma WaitingIsHeldIfFits(size: nat, es: seq<PortEvent>, i: nat, k: nat, id: int)
    requires i < k <= |es| && AllowedRun(Empty(size), es) && es[i].Queue? && es[i].id == id
    requires forall j :: i < j < k && Concerns(es[j], id) ==> !es[j].Queue? && (es[j].Submit? ==> es[j].takes)
    requires StatusOf(Run(Empty(size), es, k), id) == Waiting
    ensures id in Run(Empty(size), es, k).held <==> es[i].filledLen % 0x1_0000_0000 <= size
  {
    var l := LastEvent(size, es, k, id);
    assert l >= i by {
      assert Concerns(es[i], id);
    }
    forall j | i < j < k ensures !(es[j].Queue? && es[j].id == id) {
      assert Concerns(es[j], id) <==> !es[j].Clear? && es[j].id == id;
    }
    LengthStays(Empty(size), es, i, l, id);
    SubmitWaits(size, es, l, k, id, Fits(es[i].filledLen, size));
  }

  lemma QueueStays(p: Port, e: PortEvent, id: int)
    requires PortInv(p) && Allowed(p, e) && id in p.queue && !e.Clear? && e != Dequeue(id)
    ensures id in Apply(p, e).queue
  {
    if e.Dequeue? {
      DequeuedKeeps(p, Position(p.queue, e.id));
    }
  }

  lemma QueueStaysAt(size: nat, es: seq<PortEvent>, k: nat, id: int)
    requires k < |es| && AllowedRun(Empty(size), es) && id in Run(Empty(size), es, k).queue
    requires !es[k].Clear? && es[k] != Dequeue(id)
    ensures id in Run(Empty(size), es, k + 1).queue
  {
    RunKeeps(size, es, k);
    assert AllowedAt(Empty(size), es, k);
    QueueStays(Run(Empty(size), es, k), es[k], id);
  }

  /** A queued buffer stays in the queue, once, until it is dequeued or the queue is cleared. */
  lemma {:induction false} QueuedOnce(size: nat, es: seq<PortEvent>, i: nat, k: nat, id: int)
    requires i < k <= |es| && AllowedRun(Empty(size), es) && es[i].Queue? && es[i].id == id && NoClear(es, i, k)
    requires forall j :: i < j < k ==> es[j] != Dequeue(id)
    ensures var q := Run(Empty(size), es, k).queue; Distinct(q) && id in q
  {
    RunKeeps(size, es, k);
    if k > i + 1 {
      QueuedOnce(size, es, i, k - 1, id);
      QueueStaysAt(size, es, k - 1, id);
    }
  }

  /** Buffer `a` stands before buffer `b` in the queue. */
  ghost predicate Before(q: seq<int>, a: int, b: int) { exists i, j :: 0 <= i < j < |q| && q[i] == a && q[j] == b }

  lemma BeforeWithout(q: seq<int>, k: nat, a: int, b: int)
    requires k < |q| && q[k] != a && q[k] != b && Before(q, a, b)
    ensures Before(q[..k] + q[k + 1..], a, b)
  {
    var i, j :| 0 <= i < j < |q| && q[i] == a && q[j] == b;
    var r := q[..k] + q[k + 1..];
    assert r[if i < k then i else i - 1] == a && r[if j < k then j else j - 1] == b;
  }

  lemma BeforeAnd(q: seq<int>, x: int, a: int, b: int)
    requires Before(q, a, b)
    ensures Before(q + [x], a, b)
  {
    var i, j :| 0 <= i < j < |q| && q[i] == a && q[j] == b;
    assert (q + [x])[i] == a && (q + [x])[j] == b;
  }

  lemma BeforeStays(p: Port, e: PortEvent, a: int, b: int)
    requires PortInv(p) && Allowed(p, e) && Before(p.queue, a, b)
    requires !e.Clear? && e != Dequeue(a) && e != Dequeue(b)
    ensures Before(Apply(p, e).queue, a, b)
  {
    match e
    case Queue(id, _) => BeforeAnd(p.queue, id, a, b);
    case Dequeue(id) => BeforeWithout(p.queue, Position(p.queue, id), a, b);
    case _ =>
  }

  lemma QueuedBehind(p: Port, a: int, b: int, filledLen: int)
    requires a in p.queue
    ensures Before(Enqueued(p, b, filledLen).queue, a, b)
  {
    var i, q := Position(p.queue, a), Enqueued(p, b, filledLen).queue;
    assert q[i] == a && q[|p.queue|] == b;
  }

  lemma OrderNext(size: nat, es: seq<PortEvent>, k: nat, a: int, b: int)
    requires k < |es| && AllowedRun(Empty(size), es) && Before(Run(Empty(size), es, k).queue, a, b)
    requires !es[k].Clear? && es[k] != Dequeue(a) && es[k] != Dequeue(b)
    ensures Before(Run(Empty(size), es, k + 1).queue, a, b)
  {
    RunKeeps(size, es, k);
    assert AllowedAt(Empty(size), es, k);
    BeforeStays(Run(Empty(size), es, k), es[k], a, b);
  }

  lemma {:induction false} QueueOrder(size: nat, es: seq<PortEvent>, i: nat, j: nat, k: nat, a: int, b: int)
    requires i < j < k <= |es| && AllowedRun(Empty(size), es) && NoClear(es, i, k)
    requires es[i].Queue? && es[i].id == a && es[j].Queue? && es[j].id == b
    requires forall l :: i < l < k ==> es[l] != Dequeue(a)
    requires forall l :: j < l < k ==> es[l] != Dequeue(b)
    ensures Before(Run(Empty(size), es, k).queue, a, b)
  {
    if k == j + 1 {
      QueuedOnce(size, es, i, j, a);
      QueuedBehind(Run(Empty(size), es, j), a, b, es[j].filledLen);
    } else {
      QueueOrder(size, es, i, j, k - 1, a, b);
      OrderNext(size, es, k - 1, a, b);
    }
  }

  /** First come, first served: of two buffers that are done, the one queued earlier is dequeued first. */
  lemma DequeuedInOrder(size: nat, es: seq<PortEvent>, i: nat, j: nat, k: nat, a: int, b: int)
    requires i < j < k < |es| && AllowedRun(Empty(size), es) && NoClear(es, i, k)
    requires es[i].Queue? && es[i].id == a && es[j].Queue? && es[j].id == b
    requires forall l :: i < l < k ==> es[l] != Dequeue(a)
    requires forall l :: j < l < k ==> es[l] != Dequeue(b)
    requires es[k] == Dequeue(b)
    ensures StatusOf(Run(Empty(size), es, k), a) != Done
  {
    var p := Run(Empty(size), es, k);
    QueueOrder(size, es, i, j, k, a, b);
    RunKeeps(size, es, k);
    assert AllowedAt(Empty(size), es, k);
    var x: nat, y: nat :| x < y < |p.queue| && p.queue[x] == a && p.queue[y] == b;
    assert Position(p.queue, b) == y;
    assert !Ready(p, x);
  }

  /** Nobody else owns what the component holds: the client cannot queue it, and it is not dequeued. */
  lemma HeldIsExclusive(size: nat, es: seq<PortEvent>, k: nat, id: int)
    requires k < |es| && AllowedRun(Empty(size), es) && id in Run(Empty(size), es, k).held
    ensures es[k] != Dequeue(id) && !((es[k].Queue? || es[k].Submit?) && es[k].id == id)
  {
    RunKeeps(size, es, k);
    assert AllowedAt(Empty(size), es, k);
  }

  ghost predicate Stuck(p: Port, id: int) { StatusOf(p, id) == Waiting && id !in p.held && id in p.queue }

  lemma StuckStays(p: Port, e: PortEvent, id: int)
    requires PortInv(p) && Allowed(p, e) && Stuck(p, id) && !e.Clear?
    ensures !Concerns(e, id) && Stuck(Apply(p, e), id)
  {
    assert e != Dequeue(id);
    QueueStays(p, e, id);
  }

  lemma RefusedFirst(size: nat, es: seq<PortEvent>, i: nat, id: int)
    requires i < |es| && AllowedRun(Empty(size), es) && SubmitsAt(Empty(size), es, i, id, false)
    ensures Stuck(Run(Empty(size), es, i + 1), id)
  {
    SubmitHolds(size, es, i, id, false);
    assert AllowedAt(Empty(size), es, i);
  }

  lemma StuckNext(size: nat, es: seq<PortEvent>, k: nat, id: int)
    requires k < |es| && AllowedRun(Empty(size), es) && !es[k].Clear? && Stuck(Run(Empty(size), es, k), id)
    ensures Stuck(Run(Empty(size), es, k + 1), id) && !Concerns(es[k], id)
  {
    RunKeeps(size, es, k);
    assert AllowedAt(Empty(size), es, k);
    StuckStays(Run(Empty(size), es, k), es[k], id);
  }

  /** A buffer that the component does not get is marked as submitted all the same: nothing ever
      happens to it again, in particular it is never dequeued, unless the queue is cleared. */
  lemma {:induction false} RefusedIsStuck(size: nat, es: seq<PortEvent>, i: nat, k: nat, id: int)
    requires i < k <= |es| && AllowedRun(Empty(size), es) && SubmitsAt(Empty(size), es, i, id, false)
    requires NoClear(es, i, k)
    ensures Stuck(Run(Empty(size), es, k), id) && Untouched(es, i + 1, k, id)
  {
    if k == i + 1 {
      RefusedFirst(size, es, i, id);
    } else {
      RefusedIsStuck(size, es, i, k - 1, id);
      StuckNext(size, es, k - 1, id);
    }
  }

  /** A frame of five bytes does not fit buffers of four. */
  lemma OversizedIsStuck()
    ensures var es := [Queue(1, 5), Submit(1, true)];
            AllowedRun(Empty(4), es) && Stuck(Run(Empty(4), es, 2), 1)
  {
    var es := [Queue(1, 5), Submit(1, true)];
    assert Run(Empty(4), es, 0) == Empty(4);
    assert Run(Empty(4), es, 1) == Enqueued(Empty(4), 1, 5);
    assert Run(Empty(4), es, 2) == Submitted(Enqueued(Empty(4), 1, 5), 1, true);
    forall k | 0 <= k < 2 ensures AllowedAt(Empty(4), es, k) {
    }
  }

  // ---------------------------------------------------------------- submitting what is queued

  /** Submit the queued ones among the first `k` buffers of the queue. */
  function SubmitAll(p: Port, takes: int -> bool, k: nat): (r: Port)
    requires k <= |p.queue|
    ensures r.queue == p.queue
  {
    if k == 0 then p
    else
      var r, id := SubmitAll(p, takes, k - 1), p.queue[k - 1];
      if StatusOf(r, id) == Queued then Submitted(r, id, takes(id)) else r
  }

  /** Exactly the queued buffers are submitted; those that fit and are taken are then with the component. */
  lemma {:induction false} SubmitAllAt(p: Port, takes: int -> bool, k: nat, id: int)
    requires k <= |p.queue|
    ensures var r := SubmitAll(p, takes, k); var now := id in p.queue[..k] && StatusOf(p, id) == Queued;
            && StatusOf(r, id) == (if now then Waiting else StatusOf(p, id))
            && (id in r.held <==> id in p.held || (now && takes(id) && Fits(LengthOf(p, id), p.bufferSize)))
            && r.lengths == p.lengths && r.bufferSize == p.bufferSize
  {
    if k > 0 {
      SubmitAllAt(p, takes, k - 1, id);
      assert p.queue[..k] == p.queue[..k - 1] + [p.queue[k - 1]];
    }
  }

  lemma {:induction false} RunPrefix(p: Port, es: seq<PortEvent>, e: PortEvent, k: nat)
    requires k <= |es|
    ensures Run(p, es + [e], k) == Run(p, es, k)
  {
    if k > 0 {
      RunPrefix(p, es, e, k - 1);
      assert (es + [e])[k - 1] == es[k - 1];
    }
  }

  lemma RunExtends(p: Port, es: seq<PortEvent>, e: PortEvent)
    requires AllowedRun(p, es) && Allowed(Run(p, es, |es|), e)
    ensures AllowedRun(p, es + [e]) && Run(p, es + [e], |es| + 1) == Apply(Run(p, es, |es|), e)
  {
    RunPrefix(p, es, e, |es|);
    forall k: nat | k < |es| + 1 ensures AllowedAt(p, es + [e], k) {
      RunPrefix(p, es, e, k);
      if k < |es| {
        assert AllowedAt(p, es, k);
      }
    }
  }

  /** The submitting loop is a run of allowed submissions. */
  lemma {:induction false} SubmitAllIsRun(p: Port, takes: int -> bool, k: nat) returns (es: seq<PortEvent>)
    requires k <= |p.queue|
    ensures AllowedRun(p, es) && Run(p, es, |es|) == SubmitAll(p, takes, k)
    ensures forall i :: 0 <= i < |es| ==> es[i].Submit?
  {
    if k == 0 {
      es := [];
    } else {
      es := SubmitAllIsRun(p, takes, k - 1);
      var r, id := SubmitAll(p, takes, k - 1), p.queue[k - 1];
      if StatusOf(r, id) == Queued {
        RunExtends(p, es, Submit(id, takes(id)));
        es := es + [Submit(id, takes(id))];
      }
    }
  }

  lemma {:induction false} SubmitAllKeeps(p: Port, takes: int -> bool, k: nat)
    requires k <= |p.queue| && PortInv(p)
    ensures PortInv(SubmitAll(p, takes, k))
  {
    if k > 0 {
      SubmitAllKeeps(p, takes, k - 1);
      var r, id := SubmitAll(p, takes, k - 1), p.queue[k - 1];
      if StatusOf(r, id) == Queued {
        ApplyKeeps(r, Submit(id, takes(id)));
      }
    }
  }

  /** A second pass finds nothing to submit. */
  lemma {:induction false} SubmitAllTwice(p: Port, takes: int -> bool, k: nat)
    requires k <= |p.queue|
    ensures var r := SubmitAll(p, takes, |p.queue|); SubmitAll(r, takes, k) == r
  {
    if k > 0 {
      SubmitAllTwice(p, takes, k - 1);
      SubmitAllAt(p, takes, |p.queue|, p.queue[k - 1]);
      assert p.queue[..|p.queue|] == p.queue;
    }
  }

  // ---------------------------------------------------------------- the decoder

  datatype DecoderState = Uninitialized | Initialized | Running | RequestedStop | Stopped

  function Order(s: DecoderState): nat {
    match s case Uninitialized => 0 case Initialized => 1 case Running => 2 case RequestedStop => 3 case Stopped => 4
  }

  datatype OmxState = Unloaded | Loaded | Idle | Executing | Error | Invalid | Reconfigure | Exit

  /** Will queueing an input buffer get the component going? */
  predicate Starts(omx: OmxState, reconfigureOk: bool) {
    omx.Executing? || omx.Idle? || (omx.Reconfigure? && reconfigureOk)
  }

  class FrameDecoder {
    var state: DecoderState
    var omx: OmxState
    var input: Port
    var output: Port

    ghost predicate Valid()
      reads this
    {
      PortInv(input) && PortInv(output)
    }

    /** `inputSize` is the size of the component's input buffers. */
    constructor (inputSize: nat)
      ensures Valid() && state == Uninitialized && input == Empty(inputSize) && output == Empty(0)
    {
      state, omx, input, output := Uninitialized, Unloaded, Empty(inputSize), Empty(0);
    }

    /** Returns false if already running or if the component cannot be started. */
    method Start(startOk: bool) returns (ok: bool)
      modifies this`state
      ensures ok == (old(state) != Running && startOk)
      ensures state == if ok then Running else old(state)
    {
      if state == Running {
        return false;
      }
      if startOk {
        state := Running;
      }
      return startOk;
    }

    method Stop()
      modifies this`state
      ensures state == if Order(old(state)) >= Order(RequestedStop) then old(state) else Stopped
    {
      if Order(state) >= Order(RequestedStop) {
        return;
      }
      state := RequestedStop;
      state := Stopped;
    }

    method Release()
      modifies this`state
      ensures state == if old(state) == Stopped then Uninitialized else old(state)
    {
      if Order(state) <= Order(RequestedStop) {
        return;
      }
      state := Uninitialized;
    }

    /** Empties the queues, but only once stopped; statuses and the component's buffers stay. */
    method Flush()
      requires Valid()
      modifies this`input, this`output
      ensures Valid()
      ensures input == if state == Stopped then Apply(old(input), Clear) else old(input)
      ensures output == if state == Stopped then Apply(old(output), Clear) else old(output)
    {
      if Order(state) <= Order(RequestedStop) {
        return;
      }
      input := Cleared(input);
      output := Cleared(output);
    }

    method Configure()
      modifies this`state
      ensures state == if old(state) == Running then Running else Initialized
    {
      if state == Running {
        return;
      }
      state := Initialized;
    }

    method QueueOutputBuffers(takes: int -> bool)
      requires Valid()
      modifies this`output
      ensures Valid() && output == SubmitAll(old(output), takes, |old(output).queue|)
    {
      ghost var was := output;
      for i := 0 to |output.queue|
        invariant output.queue == was.queue && output == SubmitAll(was, takes, i)
      {
        var id := output.queue[i];
        if StatusOf(output, id) == Queued {
          output := Submitted(output, id, takes(id));
        }
      }
      SubmitAllKeeps(was, takes, |was.queue|);
    }

    method SubmitInputs(takes: int -> bool)
      requires Valid()
      modifies this`input
      ensures Valid() && input == SubmitAll(old(input), takes, |old(input).queue|)
    {
      ghost var was := input;
      for i := 0 to |input.queue|
        invariant input.queue == was.queue && input == SubmitAll(was, takes, i)
      {
        var id := input.queue[i];
        if StatusOf(input, id) == Queued {
          input := Submitted(input, id, takes(id));
        }
      }
      SubmitAllKeeps(was, takes, |was.queue|);
    }

    /** Submits everything queued on both ports, if the component is or can be set executing. */
    method DoProcessInputBuffer(takes: int -> bool, reconfigureOk: bool)
      requires Valid()
      modifies this`omx, this`input, this`output
      ensures Valid()
      ensures omx == if Starts(old(omx), reconfigureOk) then Executing
                     else if old(omx).Reconfigure? then Error else old(omx)
      ensures input == if omx.Executing? then SubmitAll(old(input), takes, |old(input).queue|) else old(input)
      ensures output == if omx.Executing? then SubmitAll(old(output), takes, |old(output).queue|) else old(output)
    {
      SubmitAllTwice(output, takes, |output.queue|);
      if omx == Reconfigure {
        if reconfigureOk {
          omx := Executing;
          QueueOutputBuffers(takes);
        } else {
          omx := Error;
          return;
        }
      }
      if omx == Idle {
        omx := Executing;
        QueueOutputBuffers(takes);
      }
      if omx == Executing {
        SubmitInputs(takes);
        QueueOutputBuffers(takes);
      }
    }

    method QueueInputBuffer(id: int, filledLen: int, takes: int -> bool, reconfigureOk: bool) returns (ok: bool)
      requires Valid() && Owns(input, id)
      modifies this`omx, this`input, this`output
      ensures Valid() && ok == (state == Running)
      ensures !ok ==> input == old(input) && output == old(output) && omx == old(omx)
      ensures ok ==> var queued := Apply(old(input), Queue(id, filledLen));
                     input == if omx.Executing? then SubmitAll(queued, takes, |queued.queue|) else queued
      ensures ok && omx.Executing? ==>
                && StatusOf(input, id) == Waiting
                && (id in input.held <==> takes(id) && filledLen % 0x1_0000_0000 <= input.bufferSize)
    {
      if state != Running {
        return false;
      }
      ApplyKeeps(input, Queue(id, filledLen));
      input := Enqueued(input, id, filledLen);
      SubmitAllAt(input, takes, |input.queue|, id);
      assert input.queue[..|input.queue|] == input.queue && input.queue[|input.queue| - 1] == id;
      DoProcessInputBuffer(takes, reconfigureOk);
      return true;
    }

    /** Output buffers are empty, so they always fit; they may be queued before the decoder is started. */
    method QueueOutputBuffer(id: int) returns (ok: bool)
      requires Valid() && Owns(output, id)
      modifies this`output
      ensures Valid() && ok == (Order(state) <= Order(Running))
      ensures output == if ok then Apply(old(output), Queue(id, 0)) else old(output)
    {
      if Order(state) > Order(Running) {
        return false;
      }
      ApplyKeeps(output, Queue(id, 0));
      output := Enqueued(output, id, 0);
      return true;
    }

    /** The first buffer that is done, if any. */
    method DequeueInputBuffer() returns (ok: bool, id: int)
      requires Valid()
      modifies this`input
      ensures Valid()
      ensures ok ==> state == Running && Allowed(old(input), Dequeue(id)) && input == Apply(old(input), Dequeue(id))
      ensures !ok ==> input == old(input)
      ensures !ok && state == Running ==> forall i: nat :: i < |input.queue| ==> !Ready(input, i)
    {
      if state != Running {
        return false, 0;
      }
      for i := 0 to |input.queue|
        invariant forall j: nat :: j < i ==> !Ready(input, j)
        invariant input == old(input)
      {
        if Ready(input, i) {
          id := input.queue[i];
          assert Position(input.queue, id) == i;
          DequeuedKeeps(input, i);
          input := Dequeued(input, i);
          return true, id;
        }
      }
      return false, 0;
    }

    method DequeueOutputBuffer() returns (ok: bool, id: int)
      requires Valid()
      modifies this`output
      ensures Valid()
      ensures ok ==> state == Running && Allowed(old(output), Dequeue(id)) && output == Apply(old(output), Dequeue(id))
      ensures !ok ==> output == old(output)
      ensures !ok && state == Running ==> forall i: nat :: i < |output.queue| ==> !Ready(output, i)
    {
      if state != Running {
        return false, 0;
      }
      for i := 0 to |output.queue|
        invariant forall j: nat :: j < i ==> !Ready(output, j)
        invariant output == old(output)
      {
        if Ready(output, i) {
          id := output.queue[i];
          assert Position(output.queue, id) == i;
          DequeuedKeeps(output, i);
          output := Dequeued(output, i);
          return true, id;
        }
      }
      return false, 0;
    }

    method EmptyBufferDone(id: int)
      requires Valid() && id in input.held
      modifies this`input
      ensures Valid() && input == Apply(old(input), Finish(id, omx.Executing?))
    {
      ApplyKeeps(input, Finish(id, omx.Executing?));
      input := Finished(input, id, omx.Executing?);
    }

    method FillBufferDone(id: int)
      requires Valid() && id in output.held
      modifies this`output
      ensures Valid() && output == Apply(old(output), Finish(id, omx.Executing?))
    {
      ApplyKeeps(output, Finish(id, omx.Executing?));
      output := Finished(output, id, omx.Executing?);
    }
  }
}
