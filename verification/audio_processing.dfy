/** Pre-processing of captured audio against the echo reference (audio/audio_hw.c): the microphone
    frames a pre-processor consumes are the captured stream, in order. */
module AudioProcessing {
  import opened AudioCapture
  import opened Wrappers

  // ---------------------------------------------------------------- frame buffers

  /** `realloc` to at least `n` frames. */
  method Grown(buf: array<Frame>, n: nat) returns (r: array<Frame>)
    ensures r.Length >= n && r.Length >= buf.Length && r[..buf.Length] == buf[..]
    ensures r == buf || fresh(r)
  {
    if n <= buf.Length {
      return buf;
    }
    r := new Frame[n](i => []);
    for i := 0 to buf.Length
      invariant r[..i] == buf[..i]
    {
      r[i] := buf[i];
    }
    assert buf[..buf.Length] == buf[..];
  }

  /** Moves frames `n`..`end - 1` to the front. */
  method DropFront(buf: array<Frame>, n: nat, end: nat)
    requires n <= end <= buf.Length
    modifies buf
    ensures buf[..end - n] == old(buf[n..end])
  {
    for i := 0 to end - n
      invariant buf[..i] == old(buf[n..n + i])
      invariant buf[n + i..] == old(buf[n + i..])
    {
      ghost var rest := buf[n + i..];
      assert buf[n + i] == rest[0] == old(buf[n + i..])[0] == old(buf[n + i]);
      buf[i] := buf[n + i];
      assert buf[n + i + 1..] == rest[1..];
      assert old(buf[n..n + i + 1]) == old(buf[n..n + i]) + [old(buf[n + i])];
    }
    assert old(buf[n..end]) == old(buf[n..n + (end - n)]);
  }

  // ---------------------------------------------------------------- effects

  /** A pre-processor and its echo reference.  In round `k`, offered the frames `x` and asked for `m`, it
      consumes the first `process(k, x, m).0` of them and produces the frames `process(k, x, m).1`; of the
      reference frames `x` it takes the first `reverse(k, x)`. */
  datatype AnyEffects = AnyEffects(
    process: (nat, seq<Frame>, nat) -> (nat, seq<Frame>),
    echo: bool,
    reverse: Option<(nat, seq<Frame>) -> nat>,
    reference: (nat, nat) -> Option<seq<Frame>>)

  /** It consumes and produces at most what it is offered and asked for. */
  ghost predicate WellBehaved(e: AnyEffects) {
    && (forall k: nat, x: seq<Frame>, m: nat :: e.process(k, x, m).0 <= |x| && |e.process(k, x, m).1| <= m)
    && (e.reverse.Some? ==> forall k: nat, x: seq<Frame> :: e.reverse.value(k, x) <= |x|)
    && (forall k: nat, n: nat :: e.reference(k, n).Some? ==> |e.reference(k, n).value| <= n)
  }

  type Effects = e: AnyEffects | WellBehaved(e) witness AnyEffects((k, x, m) => (0, []), false, None, (k, n) => None)

  /** One call of the pre-processor. */
  datatype Round = Round(input: seq<Frame>, want: nat)

  /** The microphone frames that these calls consume, in order. */
  ghost function Consumed(e: Effects, rounds: seq<Round>): seq<Frame>
  {
    if rounds == [] then []
    else
      var k := |rounds| - 1;
      Consumed(e, rounds[..k]) + rounds[k].input[..e.process(k, rounds[k].input, rounds[k].want).0]
  }

  /** The frames that they produce, in order. */
  function Produced(e: Effects, rounds: seq<Round>): seq<Frame> {
    if rounds == [] then []
    else
      var k := |rounds| - 1;
      Produced(e, rounds[..k]) + e.process(k, rounds[k].input, rounds[k].want).1
  }

  lemma OneMoreRound(e: Effects, rounds: seq<Round>, r: Round)
    ensures var (taken, produced) := e.process(|rounds|, r.input, r.want);
            && Consumed(e, rounds + [r]) == Consumed(e, rounds) + r.input[..taken]
            && Produced(e, rounds + [r]) == Produced(e, rounds) + produced
  {
    assert (rounds + [r])[..|rounds|] == rounds;
  }

  /** Offering the front of what waits, and consuming the front of that. */
  lemma TakenFirst(eaten: seq<Frame>, waiting: seq<Frame>, offer: nat, taken: nat)
    requires taken <= offer <= |waiting|
    ensures eaten + waiting[..offer] <= eaten + waiting && waiting[..offer][..taken] == waiting[..taken]
    ensures (eaten + waiting[..taken]) + waiting[taken..] == eaten + waiting
  {
    assert waiting[..taken] + waiting[taken..] == waiting;
  }

  /** Since round `first`, each call asked for what was still missing to `frames` frames. */
  ghost predicate AsksForRest(e: Effects, rounds: seq<Round>, first: nat, frames: nat)
    requires first <= |rounds|
  {
    forall k :: first <= k < |rounds| ==>
      rounds[k].want == frames - (|Produced(e, rounds[..k])| - |Produced(e, rounds[..first])|)
  }

  /** Since round `first`, each call was offered the frames of `mic` behind those consumed before. */
  ghost predicate FedInOrder(e: Effects, rounds: seq<Round>, first: nat, mic: seq<Frame>)
  {
    forall k :: first <= k < |rounds| ==> Consumed(e, rounds[..k]) + rounds[k].input <= mic
  }

  lemma AsksOnce(e: Effects, rounds: seq<Round>, first: nat, frames: nat, r: Round)
    requires first <= |rounds| && AsksForRest(e, rounds, first, frames)
    requires r.want == frames - (|Produced(e, rounds)| - |Produced(e, rounds[..first])|)
    ensures AsksForRest(e, rounds + [r], first, frames)
  {
    var more := rounds + [r];
    assert more[..first] == rounds[..first] && more[..|rounds|] == rounds;
    forall k | first <= k < |rounds| ensures more[..k] == rounds[..k] {
    }
  }

  lemma FedOnce(e: Effects, rounds: seq<Round>, first: nat, mic: seq<Frame>, mic': seq<Frame>, r: Round)
    requires FedInOrder(e, rounds, first, mic) && mic <= mic'
    requires Consumed(e, rounds) + r.input <= mic'
    ensures FedInOrder(e, rounds + [r], first, mic')
  {
    var more := rounds + [r];
    assert more[..|rounds|] == rounds;
    forall k | first <= k < |rounds| ensures Consumed(e, more[..k]) + more[k].input <= mic' {
      assert more[..k] == rounds[..k];
      assert Consumed(e, rounds[..k]) + rounds[k].input <= mic;
    }
  }

  /** What the echo reference delivers to its `k`-th reader, who asks for `n` frames. */
  function Answer(reference: (nat, nat) -> Option<seq<Frame>>, k: nat, n: nat): seq<Frame> {
    match reference(k, n) case None => [] case Some(x) => x
  }

  /** What it delivers to all these requests, in order. */
  function Answers(reference: (nat, nat) -> Option<seq<Frame>>, requests: seq<nat>): seq<Frame> {
    if requests == [] then []
    else
      var k := |requests| - 1;
      Answers(reference, requests[..k]) + Answer(reference, k, requests[k])
  }

  /** What the calls since `were` have delivered, of the microphone frames `mic`. */
  ghost predicate Delivered(e: Effects, were: seq<Round>, rounds: seq<Round>, mic: seq<Frame>, frames: nat,
                            out: seq<Frame>)
  {
    && were <= rounds && |out| <= frames && Produced(e, rounds) == Produced(e, were) + out
    && AsksForRest(e, rounds, |were|, frames) && FedInOrder(e, rounds, |were|, mic)
  }

  /** One more call than `calls`, for `want` frames: offered the microphone frames behind those consumed
      before, it produced `out`. */
  ghost predicate Called(e: Effects, calls: seq<Round>, rounds: seq<Round>, mic: seq<Frame>, want: nat,
                         out: seq<Frame>)
  {
    && |rounds| == |calls| + 1 && rounds[..|calls|] == calls && rounds[|calls|].want == want && |out| <= want
    && Consumed(e, calls) + rounds[|calls|].input <= mic && Produced(e, rounds) == Produced(e, calls) + out
  }

  lemma OneMoreCall(e: Effects, calls: seq<Round>, r: Round, mic: seq<Frame>)
    requires Consumed(e, calls) + r.input <= mic
    ensures var (taken, produced) := e.process(|calls|, r.input, r.want);
            && Consumed(e, calls + [r]) == Consumed(e, calls) + r.input[..taken]
            && Called(e, calls, calls + [r], mic, r.want, produced)
  {
    OneMoreRound(e, calls, r);
  }

  /** A call that is offered the first `offer` of the frames `waiting`. */
  lemma Eat(e: Effects, calls: seq<Round>, waiting: seq<Frame>, offer: nat, want: nat)
    requires offer <= |waiting|
    ensures var r := Round(waiting[..offer], want); var (taken, out) := e.process(|calls|, r.input, want);
            var eaten := Consumed(e, calls);
            && taken <= offer && Consumed(e, calls + [r]) == eaten + waiting[..taken]
            && (eaten + waiting[..taken]) + waiting[taken..] == eaten + waiting
            && Called(e, calls, calls + [r], eaten + waiting, want, out)
  {
    var r := Round(waiting[..offer], want);
    TakenFirst(Consumed(e, calls), waiting, offer, e.process(|calls|, r.input, want).0);
    OneMoreCall(e, calls, r, Consumed(e, calls) + waiting);
  }

  lemma NoneDelivered(e: Effects, rounds: seq<Round>, mic: seq<Frame>, frames: nat)
    ensures Delivered(e, rounds, rounds, mic, frames, [])
  {
  }

  lemma StillDelivered(e: Effects, were: seq<Round>, rounds: seq<Round>, mic: seq<Frame>, mic': seq<Frame>,
                       frames: nat, out: seq<Frame>)
    requires Delivered(e, were, rounds, mic, frames, out) && mic <= mic'
    ensures Delivered(e, were, rounds, mic', frames, out)
  {
    forall k | |were| <= k < |rounds| ensures Consumed(e, rounds[..k]) + rounds[k].input <= mic' {
      assert Consumed(e, rounds[..k]) + rounds[k].input <= mic;
    }
  }

  lemma NextDelivered(e: Effects, were: seq<Round>, calls: seq<Round>, rounds: seq<Round>, mic: seq<Frame>,
                      mic': seq<Frame>, frames: nat, out: seq<Frame>, produced: seq<Frame>)
    requires Delivered(e, were, calls, mic, frames, out) && mic <= mic'
    requires Called(e, calls, rounds, mic', frames - |out|, produced)
    ensures Delivered(e, were, rounds, mic', frames, out + produced)
  {
    var r := rounds[|calls|];
    MoreRounds(were, calls, rounds);
    AsksOnce(e, calls, |were|, frames, r);
    FedOnce(e, calls, |were|, mic, mic', r);
    Associates(Produced(e, were), out, produced);
  }

  lemma MoreRounds(were: seq<Round>, calls: seq<Round>, rounds: seq<Round>)
    requires were <= calls && |rounds| == |calls| + 1 && rounds[..|calls|] == calls
    ensures rounds == calls + [rounds[|calls|]] && were <= rounds && calls[..|were|] == were
  {
  }

  function Front(x: seq<Frame>, n: nat): seq<Frame> { if |x| < n then x else x[..n] }

  /** How many of these reference frames the pre-processor takes. */
  function Wanted(e: Effects, round: nat, x: seq<Frame>): nat {
    if e.reverse.Some? then e.reverse.value(round, x) else |x|
  }

  lemma AnswersNext(reference: (nat, nat) -> Option<seq<Frame>>, requests: seq<nat>, n: nat)
    ensures Answers(reference, requests + [n]) == Answers(reference, requests) + Answer(reference, |requests|, n)
  {
    assert (requests + [n])[..|requests|] == requests;
  }

  /** What has happened up to some point. */
  datatype Past = Past(rounds: seq<Round>, consumed: seq<Frame>, requests: seq<nat>, refRead: seq<Frame>,
                       refTaken: seq<Frame>)

  /** Later, nothing of it is forgotten. */
  ghost predicate Extends(p: Past, now: Past) {
    && p.rounds <= now.rounds && p.consumed <= now.consumed
    && p.requests <= now.requests && p.refRead <= now.refRead && p.refTaken <= now.refTaken
  }

  lemma ExtendsOn(p: Past, q: Past, now: Past)
    requires Extends(p, q) && Extends(q, now)
    ensures Extends(p, now)
  {
  }

  class Processor {
    const stream: CaptureStream
    const effects: Effects
    var procBuf: array<Frame>
    var procFramesIn: nat
    var refBuf: array<Frame>
    var refFramesIn: nat
    var round: nat
    var refReads: nat
    /** The calls of the pre-processor; microphone frames consumed, and offered in all; reference frames
        asked for, read, and taken from the buffer. */
    ghost var rounds: seq<Round>
    ghost var consumed: seq<Frame>
    ghost var offered: nat
    ghost var requests: seq<nat>
    ghost var refRead: seq<Frame>
    ghost var refTaken: seq<Frame>

    ghost predicate Valid()
      reads this, stream, procBuf, refBuf
    {
      stream.Valid() && procBuf != refBuf && MicValid() && RefValid()
    }

    /** The calls of the pre-processor account for the microphone frames. */
    ghost predicate MicValid()
      reads this`procBuf, this`procFramesIn, this`round, this`rounds, this`consumed
    {
      procFramesIn <= procBuf.Length
      && round == |rounds| && consumed == Consumed(effects, rounds)
    }

    /** Reference frames taken and waiting are those read. */
    ghost predicate RefValid()
      reads this`refBuf, this`refFramesIn, this`refReads, this`requests, this`refRead, this`refTaken, this`offered,
            refBuf
    {
      && refFramesIn <= refBuf.Length
      && refReads == |requests| && refRead == Answers(effects.reference, requests)
      && refTaken + refBuf[..refFramesIn] == refRead
      && (effects.echo ==> offered == |refTaken|)
    }

    /** Microphone frames so far: consumed, then waiting. */
    ghost function Mic(): seq<Frame>
      requires procFramesIn <= procBuf.Length
      reads this`procBuf, this`procFramesIn, this`consumed, procBuf
    {
      consumed + procBuf[..procFramesIn]
    }

    ghost function Now(): Past
      reads this
    {
      Past(rounds, consumed, requests, refRead, refTaken)
    }

    /** Conservation of microphone frames since answer `from` of the driver. */
    ghost predicate Keeps(from: nat, before: seq<Frame>)
      requires Valid()
      reads this, stream, stream.buffer, procBuf, refBuf
    {
      from <= stream.asked && Mic() + stream.Pending() == before + Stream(stream.source, from, stream.asked)
    }

    constructor (stream: CaptureStream, effects: Effects)
      requires stream.Valid() && stream.framesIn == 0
      ensures Valid() && Mic() == [] && Keeps(stream.asked, [])
      ensures this.stream == stream && fresh(procBuf) && fresh(refBuf)
    {
      this.stream, this.effects := stream, effects;
      procBuf, refBuf := new Frame[0], new Frame[0];
      procFramesIn, refFramesIn, round, refReads := 0, 0, 0, 0;
      rounds, consumed, offered, requests, refRead, refTaken := [], [], 0, [], [], [];
      new;
      assert Stream(stream.source, stream.asked, stream.asked) == [];
    }

    method GrowProcBuf(frames: nat)
      requires Valid()
      modifies this`procBuf
      ensures Valid() && procBuf.Length >= frames && (procBuf == old(procBuf) || fresh(procBuf))
      ensures Mic() == old(Mic())
    {
      procBuf := Grown(procBuf, frames);
      assert procBuf[..procFramesIn] == procBuf[..old(procBuf).Length][..procFramesIn];
    }

    /** Read at the end of the process buffer until it holds `frames` frames; `x` are the new ones. */
    method Load(frames: nat) returns (rd: int, ghost x: seq<Frame>)
      requires Valid() && procFramesIn <= frames
      modifies this`procBuf, this`procFramesIn, stream, stream.buffer, procBuf
      ensures Valid() && (procBuf == old(procBuf) || fresh(procBuf))
      ensures old(stream.asked) <= stream.asked
      ensures rd >= 0 ==> procFramesIn == frames && Mic() == old(Mic()) + x
      ensures rd >= 0 ==>
                x + stream.Pending() == old(stream.Pending()) + Stream(stream.source, old(stream.asked), stream.asked)
      ensures rd < 0 ==> Mic() == old(Mic())
      ensures old(stream.Clean()) ==> stream.Clean()
      ensures old(stream.Clean()) && rd < 0 ==> stream.FailedLast(old(stream.asked), rd)
    {
      GrowProcBuf(frames);
      rd, x := ReadBehind(frames);
    }

    method ReadBehind(frames: nat) returns (rd: int, ghost x: seq<Frame>)
      requires Valid() && procFramesIn <= frames <= procBuf.Length
      modifies this`procFramesIn, stream, stream.buffer, procBuf
      ensures Valid() && old(stream.asked) <= stream.asked
      ensures rd >= 0 ==> procFramesIn == frames && Mic() == old(Mic()) + x
      ensures rd >= 0 ==>
                x + stream.Pending() == old(stream.Pending()) + Stream(stream.source, old(stream.asked), stream.asked)
      ensures rd < 0 ==> Mic() == old(Mic())
      ensures old(stream.Clean()) ==> stream.Clean()
      ensures old(stream.Clean()) && rd < 0 ==> stream.FailedLast(old(stream.asked), rd)
    {
      ghost var held := procBuf[..procFramesIn];
      ghost var copied;
      rd, copied := stream.ReadFrames(procBuf, procFramesIn, frames - procFramesIn);
      x := [];
      if rd >= 0 {
        x := procBuf[procFramesIn..procFramesIn + rd];
        assert procBuf[..procFramesIn + rd] == procBuf[..procFramesIn] + x == held + x;
        procFramesIn := procFramesIn + rd;
        Associates(consumed, held, x);
      }
    }

    /** Reload enough frames at the end of the process buffer; negative on a driver error. */
    method Reload(frames: nat, ghost from: nat, ghost before: seq<Frame>) returns (rd: int)
      requires Valid() && Keeps(from, before)
      modifies this`procBuf, this`procFramesIn, stream, stream.buffer, procBuf
      ensures Valid() && (procBuf == old(procBuf) || fresh(procBuf))
      ensures rd >= 0 ==> Keeps(from, before) && procFramesIn >= frames
      ensures old(Mic()) <= Mic()
      ensures from <= stream.asked && Mic() <= before + Stream(stream.source, from, stream.asked)
      ensures old(stream.Clean()) ==> stream.Clean()
      ensures old(stream.Clean()) && rd < 0 ==> stream.FailedLast(old(stream.asked), rd)
    {
      if procFramesIn >= frames {
        return 0;
      }
      ghost var mic, pending, asked := Mic(), stream.Pending(), stream.asked;
      ghost var x;
      rd, x := Load(frames);
      StreamSplits(stream.source, from, asked, stream.asked);
      ghost var more, earlier := Stream(stream.source, asked, stream.asked), Stream(stream.source, from, asked);
      if rd >= 0 {
        Longer(mic, x, stream.Pending(), pending, more, before, earlier);
      } else {
        PrefixKept(mic, pending, more, before, earlier);
      }
    }

    /** Reference frames stay in the order in which they were read, and none is forgotten. */
    twostate predicate RefKept()
      reads this
    {
      old(requests) <= requests && old(refRead) <= refRead && old(refTaken) <= refTaken
    }

    /** Ask the echo reference for what is missing to `frames` frames. */
    method UpdateEchoReference(frames: nat)
      requires Valid()
      modifies this`refBuf, this`refFramesIn, this`refReads, this`requests, this`refRead, refBuf
      ensures Valid() && (refBuf == old(refBuf) || fresh(refBuf)) && refFramesIn >= old(refFramesIn)
      ensures requests == old(requests) + if old(refFramesIn) < frames then [frames - old(refFramesIn)] else []
      ensures RefKept()
    {
      if refFramesIn < frames {
        GrowRefBuf(frames);
        ReadReference(frames - refFramesIn);
      }
    }

    method GrowRefBuf(frames: nat)
      requires Valid()
      modifies this`refBuf
      ensures Valid() && refBuf.Length >= frames && (refBuf == old(refBuf) || fresh(refBuf))
    {
      refBuf := Grown(refBuf, frames);
      assert refBuf[..refFramesIn] == refBuf[..old(refBuf).Length][..refFramesIn];
    }

    /** What the reference delivers is added behind the frames that wait. */
    method ReadReference(n: nat)
      requires Valid() && refFramesIn + n <= refBuf.Length
      modifies this`refFramesIn, this`refReads, this`requests, this`refRead, refBuf
      ensures Valid() && requests == old(requests) + [n] && refFramesIn >= old(refFramesIn)
      ensures refRead == old(refRead) + Answer(effects.reference, old(refReads), n)
    {
      ghost var held := refBuf[..refFramesIn];
      ghost var x := Receive(n);
      Associates(refTaken, held, x);
      AnswersNext(effects.reference, requests, n);
      refReads, requests, refRead := refReads + 1, requests + [n], refRead + x;
    }

    /** The answer to the next request goes behind the frames that wait. */
    method Receive(n: nat) returns (ghost x: seq<Frame>)
      requires refFramesIn + n <= refBuf.Length
      modifies this`refFramesIn, refBuf
      ensures x == Answer(effects.reference, refReads, n) && refFramesIn == old(refFramesIn) + |x| <= refBuf.Length
      ensures refBuf[..refFramesIn] == old(refBuf[..refFramesIn]) + x
    {
      var answer := effects.reference(refReads, n);
      x := Answer(effects.reference, refReads, n);
      if answer.Some? {
        Append(refBuf, refFramesIn, answer.value);
        refFramesIn := refFramesIn + |answer.value|;
      } else {
        assert refBuf[..refFramesIn] + [] == refBuf[..refFramesIn];
      }
    }

    /** Of the reference frames read but not taken before, the pre-processor was given the first `frames`, and
        takes `n`. */
    ghost predicate RefWanted(taken: nat, frames: nat, n: nat)
      reads this`round, this`refRead
    {
      taken <= |refRead| && n == Wanted(effects, round, Front(refRead[taken..], frames))
    }

    /** Give the pre-processor up to `frames` reference frames; returns how many it took. */
    method PushEchoReference(frames: nat) returns (n: nat)
      requires Valid() && effects.echo
      modifies this`refBuf, this`refFramesIn, this`refReads, this`requests, this`refRead,
               this`refTaken, this`offered, refBuf
      ensures Valid() && (refBuf == old(refBuf) || fresh(refBuf))
      ensures n <= frames && |refTaken| == |old(refTaken)| + n && offered == old(offered) + n && RefKept()
      ensures RefWanted(|old(refTaken)|, frames, n)
    {
      UpdateEchoReference(frames);
      var available := if refFramesIn < frames then refFramesIn else frames;
      assert refRead[|refTaken|..] == refBuf[..refFramesIn];
      assert refBuf[..available] == refBuf[..refFramesIn][..available];
      n := if effects.reverse.Some? then effects.reverse.value(round, refBuf[..available]) else available;
      TakeReference(n);
    }

    /** Remove `n` reference frames from the front. */
    method TakeReference(n: nat)
      requires Valid() && effects.echo && n <= refFramesIn
      modifies this`refFramesIn, this`refTaken, this`offered, refBuf
      ensures Valid() && |refTaken| == |old(refTaken)| + n && offered == old(offered) + n && RefKept()
    {
      ghost var x, rest := refBuf[..n], refBuf[n..refFramesIn];
      assert refBuf[..refFramesIn] == x + rest;
      DropFront(refBuf, n, refFramesIn);
      assert refTaken + (x + rest) == (refTaken + x) + rest;
      refFramesIn := refFramesIn - n;
      refTaken := refTaken + x;
      offered := offered + n;
    }

    /** How many frames this round may consume. */
    method Offer() returns (offer: nat)
      requires Valid()
      modifies this`refBuf, this`refFramesIn, this`refReads, this`requests, this`refRead,
               this`refTaken, this`offered, refBuf
      ensures Valid() && offer <= procFramesIn && Mic() == old(Mic()) && offered == old(offered) + offer
      ensures refBuf == old(refBuf) || fresh(refBuf)
      ensures RefKept() && if effects.echo then offer == |refTaken| - |old(refTaken)| else offer == procFramesIn
      ensures effects.echo ==> RefWanted(|old(refTaken)|, procFramesIn, offer)
    {
      ghost var held := procBuf[..procFramesIn];
      offer := procFramesIn;
      if effects.echo {
        offer := PushEchoReference(procFramesIn);
      } else {
        offered := offered + offer;
      }
      assert procBuf[..procFramesIn] == held;
    }

    /** Pre-process `offer` frames, then move the remaining frames to the front. */
    method Consume(offer: nat, want: nat) returns (out: seq<Frame>)
      requires Valid() && offer <= procFramesIn
      modifies this`procFramesIn, this`round, this`rounds, this`consumed, procBuf
      ensures Valid() && Mic() == old(Mic())
      ensures Called(effects, old(rounds), rounds, Mic(), want, out) && |rounds[|old(rounds)|].input| == offer
      ensures old(consumed) <= consumed && |consumed| <= |old(consumed)| + offer
    {
      ghost var waiting := procBuf[..procFramesIn];
      assert waiting[..offer] == procBuf[..offer];
      var taken;
      taken, out := Feed(offer, want);
      Note(waiting, offer, want, taken, out);
    }

    /** Remembers a call that was offered the first `offer` of the frames `waiting`. */
    method Note(ghost waiting: seq<Frame>, ghost offer: nat, ghost want: nat, ghost taken: nat, ghost out: seq<Frame>)
      requires offer <= |waiting| && taken <= offer
      requires procFramesIn <= procBuf.Length && procBuf[..procFramesIn] == waiting[taken..]
      requires round == |rounds| && consumed == Consumed(effects, rounds)
      requires (taken, out) == effects.process(round, waiting[..offer], want)
      modifies this`round, this`rounds, this`consumed
      ensures MicValid() && Mic() == old(consumed) + waiting
      ensures Called(effects, old(rounds), rounds, Mic(), want, out) && |rounds[|old(rounds)|].input| == offer
      ensures old(consumed) <= consumed && |consumed| <= |old(consumed)| + offer
    {
      Eat(effects, rounds, waiting, offer, want);
      consumed, rounds := consumed + waiting[..taken], rounds + [Round(waiting[..offer], want)];
      round := round + 1;
    }

    /** Calls the pre-processor, and moves the frames that it leaves to the front. */
    method Feed(offer: nat, want: nat) returns (taken: nat, out: seq<Frame>)
      requires offer <= procFramesIn <= procBuf.Length
      modifies this`procFramesIn, procBuf
      ensures (taken, out) == effects.process(round, old(procBuf[..offer]), want) && taken <= offer
      ensures procFramesIn <= procBuf.Length
      ensures procBuf[..procFramesIn] == old(procBuf[..procFramesIn])[taken..]
    {
      var (consumed, produced) := effects.process(round, procBuf[..offer], want);
      DropFront(procBuf, consumed, procFramesIn);
      assert old(procBuf[consumed..procFramesIn]) == old(procBuf[..procFramesIn])[consumed..];
      procFramesIn := procFramesIn - consumed;
      return consumed, produced;
    }

    /** One round.  The pre-processor is offered the frames at the front of the process buffer: as many as it
        took reference frames, or, without a reference, all. */
    method ProcessRound(want: nat) returns (out: seq<Frame>)
      requires Valid()
      modifies this`procFramesIn, this`round, this`rounds, this`consumed, procBuf,
               this`refBuf, this`refFramesIn, this`refReads, this`requests, this`refRead,
               this`refTaken, this`offered, refBuf
      ensures Valid() && Mic() == old(Mic())
      ensures refBuf == old(refBuf) || fresh(refBuf)
      ensures RefKept() && Called(effects, old(rounds), rounds, Mic(), want, out) && old(consumed) <= consumed
      ensures |consumed| - |old(consumed)| <= offered - old(offered) == |rounds[|rounds| - 1].input|
      ensures offered - old(offered) == if effects.echo then |refTaken| - |old(refTaken)| else old(procFramesIn)
      ensures effects.echo ==>
                |old(refTaken)| <= |refRead| && offered - old(offered)
                  == Wanted(effects, old(round), Front(refRead[|old(refTaken)|..], old(procFramesIn)))
    {
      var offer := Offer();
      out := Consume(offer, want);
    }

    /** Delivers `frames` processed frames, unless the driver fails or `limit` rounds do not suffice: what
        the rounds produced, in order, each being asked for what was still missing.  All along, the frames
        consumed are the front of the captured stream, and the process buffer holds exactly those not
        consumed yet. */
    method ProcessFrames(frames: nat, limit: nat, ghost from: nat, ghost before: seq<Frame>)
      returns (r: int, out: seq<Frame>)
      requires Valid() && Keeps(from, before)
      modifies this, procBuf, refBuf, stream, stream.buffer
      ensures InOrder(old(Now()), frames, out, from, before)
      ensures r >= 0 ==> r == |out| && Keeps(from, before)
      ensures r >= 0 ==> |out| == frames || |rounds| == |old(rounds)| + limit
      ensures old(stream.Clean()) && r < 0 ==> stream.FailedLast(from, r)
    {
      ghost var past, clean := Now(), stream.Clean();
      out := [];
      var left := limit;
      InOrderFirst(frames, from, before);
      while |out| < frames && left > 0
        invariant InOrder(past, frames, out, from, before) && Keeps(from, before)
        invariant 0 <= left && left + |rounds| == limit + |past.rounds|
        invariant procBuf == old(procBuf) || fresh(procBuf)
        invariant refBuf == old(refBuf) || fresh(refBuf)
        invariant clean ==> stream.Clean()
        decreases left
      {
        var rd;
        rd, out := Turn(frames, out, past, from, before);
        if rd < 0 {
          return rd, out;
        }
        left := left - 1;
      }
      return |out|, out;
    }

    /** Since `past`, the pre-processor was fed the captured stream in order, and `out` is what it produced. */
    ghost predicate InOrder(past: Past, frames: nat, out: seq<Frame>, from: nat, before: seq<Frame>)
      reads this, stream, procBuf, refBuf
    {
      && Valid() && Extends(past, Now()) && Delivered(effects, past.rounds, rounds, Mic(), frames, out)
      && from <= stream.asked && Mic() <= before + Stream(stream.source, from, stream.asked)
    }

    lemma InOrderFirst(frames: nat, from: nat, before: seq<Frame>)
      requires Valid() && Keeps(from, before)
      ensures InOrder(Now(), frames, [], from, before)
    {
      KeepsPrefix(from, before);
      NoneDelivered(effects, rounds, Mic(), frames);
    }

    /** One turn of the loop: reload, then process.  `more` is all that has been delivered. */
    method Turn(frames: nat, out: seq<Frame>, ghost past: Past, ghost from: nat, ghost before: seq<Frame>)
      returns (rd: int, more: seq<Frame>)
      requires InOrder(past, frames, out, from, before) && Keeps(from, before)
      modifies this, procBuf, refBuf, stream, stream.buffer
      ensures InOrder(past, frames, more, from, before)
      ensures procBuf == old(procBuf) || fresh(procBuf)
      ensures refBuf == old(refBuf) || fresh(refBuf)
      ensures if rd >= 0 then Keeps(from, before) && |rounds| == |old(rounds)| + 1 else more == out
      ensures old(stream.Clean()) ==> stream.Clean()
      ensures old(stream.Clean()) && rd < 0 ==> stream.FailedLast(from, rd)
    {
      rd := Refill(frames, out, past, from, before);
      if rd < 0 {
        return rd, out;
      }
      more := Process(frames, out, past, from, before);
    }

    /** First half: reload enough frames. */
    method Refill(frames: nat, ghost out: seq<Frame>, ghost past: Past, ghost from: nat, ghost before: seq<Frame>)
      returns (rd: int)
      requires InOrder(past, frames, out, from, before) && Keeps(from, before)
      modifies this`procBuf, this`procFramesIn, stream, stream.buffer, procBuf
      ensures InOrder(past, frames, out, from, before) && (procBuf == old(procBuf) || fresh(procBuf))
      ensures rd >= 0 ==> Keeps(from, before)
      ensures old(stream.Clean()) ==> stream.Clean()
      ensures old(stream.Clean()) && rd < 0 ==> stream.FailedLast(from, rd)
    {
      rd := Reload(frames, from, before);
      StillInOrder(past, frames, out, from, before, old(Mic()));
    }

    /** Second half: process them, and deliver what is produced behind `out`. */
    method Process(frames: nat, out: seq<Frame>, ghost past: Past, ghost from: nat, ghost before: seq<Frame>)
      returns (more: seq<Frame>)
      requires InOrder(past, frames, out, from, before) && Keeps(from, before)
      modifies this, procBuf, refBuf
      ensures InOrder(past, frames, more, from, before) && Keeps(from, before)
      ensures procBuf == old(procBuf)
      ensures refBuf == old(refBuf) || fresh(refBuf)
      ensures |rounds| == |old(rounds)| + 1
    {
      ghost var was := Now();
      var produced := ProcessRound(frames - |out|);
      NextInOrder(past, was, frames, out, produced, from, before);
      more := out + produced;
    }

    lemma NextInOrder(past: Past, was: Past, frames: nat, out: seq<Frame>, produced: seq<Frame>, from: nat,
                      before: seq<Frame>)
      requires Valid() && Keeps(from, before) && Extends(past, was) && Extends(was, Now())
      requires Delivered(effects, past.rounds, was.rounds, Mic(), frames, out)
      requires Called(effects, was.rounds, rounds, Mic(), frames - |out|, produced)
      ensures InOrder(past, frames, out + produced, from, before)
    {
      NextDelivered(effects, past.rounds, was.rounds, rounds, Mic(), Mic(), frames, out, produced);
      ExtendsOn(past, was, Now());
      KeepsPrefix(from, before);
    }

    /** Reading more frames changes nothing in it. */
    lemma StillInOrder(past: Past, frames: nat, out: seq<Frame>, from: nat, before: seq<Frame>, mic: seq<Frame>)
      requires Valid() && Extends(past, Now()) && Delivered(effects, past.rounds, rounds, mic, frames, out)
      requires mic <= Mic() && from <= stream.asked && Mic() <= before + Stream(stream.source, from, stream.asked)
      ensures InOrder(past, frames, out, from, before)
    {
      StillDelivered(effects, past.rounds, rounds, mic, Mic(), frames, out);
    }

    lemma KeepsPrefix(from: nat, before: seq<Frame>)
      requires Valid() && Keeps(from, before)
      ensures Mic() <= before + Stream(stream.source, from, stream.asked)
    {
      PrefixKept(Mic(), stream.Pending(), [], before, Stream(stream.source, from, stream.asked));
    }
  }

  method Append(buf: array<Frame>, at: nat, x: seq<Frame>)
    requires at + |x| <= buf.Length
    modifies buf
    ensures buf[..at] == old(buf[..at]) && buf[at..at + |x|] == x
    ensures buf[..at + |x|] == old(buf[..at]) + x
  {
    for i := 0 to |x|
      invariant buf[..at] == old(buf[..at]) && buf[at..at + i] == x[..i]
    {
      buf[at + i] := x[i];
      assert buf[at..at + i + 1] == buf[at..at + i] + [x[i]];
    }
  }

  lemma Associates(x: seq<Frame>, y: seq<Frame>, z: seq<Frame>)
    ensures x + (y + z) == (x + y) + z
  {
  }

  lemma PrefixKept(mic: seq<Frame>, pending: seq<Frame>, more: seq<Frame>, before: seq<Frame>, earlier: seq<Frame>)
    requires mic + pending == before + earlier
    ensures mic <= before + (earlier + more)
  {
    assert before + (earlier + more) == (before + earlier) + more == (mic + pending) + more == mic + (pending + more);
  }

  lemma Longer(mic: seq<Frame>, x: seq<Frame>, left: seq<Frame>, pending: seq<Frame>, more: seq<Frame>,
               before: seq<Frame>, earlier: seq<Frame>)
    requires mic + pending == before + earlier && x + left == pending + more
    ensures (mic + x) + left == before + (earlier + more)
  {
    assert (mic + x) + left == mic + (x + left) == mic + (pending + more) == (mic + pending) + more;
  }
}
