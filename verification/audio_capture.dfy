/** The capture path of the audio HAL: driver periods, in-place channel removal, the left-over buffer,
    pre-processing and its echo reference (audio/audio_hw.c). */
module AudioCapture {
  // ---------------------------------------------------------------- in-place channel removal

  /** The first `outFrame` bytes of each of the first `n` frames. */
  function Kept(s: seq<int>, inFrame: nat, outFrame: nat, n: nat): (r: seq<int>)
    requires outFrame <= inFrame && n * inFrame <= |s|
    ensures |r| == n * outFrame
  {
    if n == 0 then []
    else
      Steps(n, inFrame);
      Steps(n, outFrame);
      Kept(s, inFrame, outFrame, n - 1) + s[(n - 1) * inFrame..(n - 1) * inFrame + outFrame]
  }

  lemma Steps(n: nat, size: nat)
    requires n > 0
    ensures 0 <= (n - 1) * size && (n - 1) * size + size == n * size
  {
    assert (n - 1) * size == n * size - size;
  }

  lemma Mono(i: nat, n: nat, size: nat)
    requires i <= n
    ensures i * size <= n * size
  {
  }

  /** Drops the last channels of every frame, in place. */
  method RemoveChannels(buf: array<int>, sampleSize: nat, inChans: nat, outChans: nat, frames: nat)
    requires frames * (inChans * sampleSize) <= buf.Length
    modifies buf
    ensures frames == 0 || outChans * sampleSize >= inChans * sampleSize ==> buf[..] == old(buf[..])
    ensures outChans * sampleSize < inChans * sampleSize ==>
              && frames * (outChans * sampleSize) <= buf.Length
              && buf[..frames * (outChans * sampleSize)]
                   == Kept(old(buf[..]), inChans * sampleSize, outChans * sampleSize, frames)
  {
    var inFrame, outFrame := inChans * sampleSize, outChans * sampleSize;
    if frames == 0 {
      return;
    }
    if outFrame >= inFrame {
      return;
    }
    KeepFrames(buf, inFrame, outFrame, frames);
  }

  /** `d` and `s` are the destination and source offsets of frame `k`. */
  ghost predicate At(k: nat, inFrame: nat, outFrame: nat, d: nat, s: nat) {
    d == k * outFrame && s == k * inFrame
  }

  lemma NextAt(was: seq<int>, inFrame: nat, outFrame: nat, frames: nat, k: nat, d: nat, s: nat)
    requires k < frames && frames * inFrame <= |was| && outFrame < inFrame && At(k, inFrame, outFrame, d, s)
    ensures At(k + 1, inFrame, outFrame, d + outFrame, s + inFrame)
    ensures s + inFrame <= |was| && d <= s && (k + 1) * inFrame <= |was| && k * inFrame <= |was|
    ensures Kept(was, inFrame, outFrame, k + 1) == Kept(was, inFrame, outFrame, k) + was[s..s + outFrame]
  {
    Steps(k + 1, inFrame);
    Steps(k + 1, outFrame);
    Mono(k + 1, frames, inFrame);
    Below(k, outFrame, inFrame);
  }

  lemma Below(k: nat, x: nat, y: nat)
    requires x <= y
    ensures k * x <= k * y
  {
  }

  method KeepFrames(buf: array<int>, inFrame: nat, outFrame: nat, frames: nat)
    requires 0 < frames && outFrame < inFrame && frames * inFrame <= buf.Length
    modifies buf
    ensures frames * outFrame <= buf.Length && buf[..frames * outFrame] == Kept(old(buf[..]), inFrame, outFrame, frames)
  {
    ghost var was := buf[..];
    var n := frames - 1;
    var d: nat, s: nat := outFrame, inFrame;
    ghost var k: nat := 1;
    assert At(0, inFrame, outFrame, 0, 0);
    NextAt(was, inFrame, outFrame, frames, 0, 0, 0);
    while n > 0
      invariant n >= 0 && k == frames - n && At(k, inFrame, outFrame, d, s)
      invariant d <= s <= buf.Length && k * inFrame <= |was|
      invariant buf[..d] == Kept(was, inFrame, outFrame, k)
      invariant buf[d..] == was[d..]
    {
      NextAt(was, inFrame, outFrame, frames, k, d, s);
      CopyFrame(buf, was, d, s, inFrame, outFrame);
      d := d + outFrame;
      s := s + inFrame;
      n := n - 1;
      k := k + 1;
      Below(k, outFrame, inFrame);
    }
  }

  lemma SameTail(was: seq<int>, now: seq<int>, d: nat, s: nat, n: nat)
    requires |was| == |now| && d <= s && s + n <= |was| && now[d..] == was[d..]
    ensures now[s..s + n] == was[s..s + n] && now[d + n..] == was[d + n..]
  {
    forall i | d <= i < |was| ensures now[i] == was[i] {
      assert now[d..][i - d] == was[d..][i - d];
    }
  }

  method CopyFrame(buf: array<int>, ghost was: seq<int>, d: nat, s: nat, inFrame: nat, outFrame: nat)
    requires d <= s && s + inFrame <= buf.Length == |was| && outFrame < inFrame && buf[d..] == was[d..]
    modifies buf
    ensures buf[..d + outFrame] == old(buf[..d]) + was[s..s + outFrame]
    ensures buf[d + outFrame..] == was[d + outFrame..]
  {
    ghost var now := buf[..];
    assert now[d..] == was[d..];
    SameTail(was, now, d, s, outFrame);
    assert now[s..s + outFrame] == buf[s..s + outFrame] && now[d + outFrame..] == buf[d + outFrame..];
    CopyDown(buf, d, s, outFrame);
    assert buf[..d + outFrame] == buf[..d] + buf[d..d + outFrame];
  }

  /** Copies `len` bytes from `s` down to `d`. */
  method CopyDown(buf: array<int>, d: nat, s: nat, len: nat)
    requires d <= s && s + len <= buf.Length
    modifies buf
    ensures buf[..d] == old(buf[..d])
    ensures buf[d..d + len] == old(buf[s..s + len])
    ensures buf[d + len..] == old(buf[d + len..])
  {
    for c := 0 to len
      invariant buf[..d] == old(buf[..d])
      invariant buf[d..d + c] == old(buf[s..s + c])
      invariant buf[d + c..] == old(buf[d + c..])
    {
      ghost var rest := buf[d + c..];
      assert buf[s + c] == rest[s - d];
      assert old(buf[d + c..])[s - d] == old(buf[s + c]);
      buf[d + c] := buf[s + c];
      assert buf[d..d + c + 1] == buf[d..d + c] + [buf[d + c]];
      assert old(buf[s..s + c + 1]) == old(buf[s..s + c]) + [old(buf[s + c])];
      assert buf[d + c + 1..] == rest[1..];
    }
  }

  // ---------------------------------------------------------------- frames in a byte buffer

  type Frame = seq<int>

  /** `n` frames of `size` bytes, `stride` bytes apart. */
  function Strided(s: seq<int>, stride: nat, size: nat, n: nat): (r: seq<Frame>)
    requires size <= stride && n * stride <= |s|
    ensures |r| == n
  {
    if n == 0 then []
    else
      Steps(n, stride);
      Strided(s, stride, size, n - 1) + [s[(n - 1) * stride..(n - 1) * stride + size]]
  }

  /** After channel removal the buffer holds the front of every frame, packed. */
  lemma {:induction false} KeptArePacked(x: seq<int>, was: seq<int>, inFrame: nat, outFrame: nat, n: nat)
    requires outFrame <= inFrame && n * inFrame <= |was| && n * outFrame <= |x|
    requires x[..n * outFrame] == Kept(was, inFrame, outFrame, n)
    ensures Strided(x, outFrame, outFrame, n) == Strided(was, inFrame, outFrame, n)
  {
    if n > 0 {
      Steps(n, inFrame);
      Steps(n, outFrame);
      var d := (n - 1) * outFrame;
      var front := Kept(was, inFrame, outFrame, n - 1);
      assert x[..d] == x[..n * outFrame][..d] == front;
      assert x[d..d + outFrame] == x[..n * outFrame][d..];
      KeptArePacked(x, was, inFrame, outFrame, n - 1);
    } else {
    }
  }

  lemma {:induction false} StridedAt(s: seq<int>, stride: nat, size: nat, n: nat, i: nat)
    requires size <= stride && n * stride <= |s| && i < n && i * stride + size <= |s|
    ensures Strided(s, stride, size, n)[i] == s[i * stride..i * stride + size]
  {
    Steps(n, stride);
    if i < n - 1 {
      StridedAt(s, stride, size, n - 1, i);
    }
  }

  // ---------------------------------------------------------------- the driver

  /** What one `pcm_read` brings. */
  datatype Read = Data(bytes: seq<int>) | Failure(code: int)

  const ENODEV := -19

  /** Sizes in bytes of a hardware frame and of a client frame, which has fewer channels if any are to be
      removed; the driver's n-th answer is `answers(n)`. */
  datatype Source = Source(answers: nat -> Read, period: nat, hwFrame: nat, frame: nat,
                           sampleSize: nat, inChans: nat, outChans: nat)

  ghost predicate ValidSource(c: Source) {
    && c.hwFrame == c.inChans * c.sampleSize && c.frame == c.outChans * c.sampleSize
    && c.period > 0 && 0 < c.frame <= c.hwFrame && c.period * c.frame <= c.period * c.hwFrame
    && forall n :: (c.answers(n).Data? ==> |c.answers(n).bytes| == c.period * c.hwFrame)
                   && (c.answers(n).Failure? ==> c.answers(n).code < 0)
  }

  /** The frames of the n-th answer. */
  function Period(c: Source, n: nat): seq<Frame>
    requires ValidSource(c)
  {
    match c.answers(n)
    case Data(bytes) => Strided(bytes, c.hwFrame, c.frame, c.period)
    case Failure(_) => []
  }

  /** The frames of answers n..m-1, in order. */
  function Stream(c: Source, n: nat, m: nat): seq<Frame>
    requires ValidSource(c) && n <= m
  {
    if n == m then [] else Stream(c, n, m - 1) + Period(c, m - 1)
  }

  /** The stream of a whole is the stream of its parts. */
  lemma {:induction false} StreamSplits(c: Source, n: nat, k: nat, m: nat)
    requires ValidSource(c) && n <= k <= m
    ensures Stream(c, n, k) + Stream(c, k, m) == Stream(c, n, m)
  {
    if k < m {
      StreamSplits(c, n, k, m - 1);
      var more := Stream(c, k, m - 1);
      assert Stream(c, n, k) + (more + Period(c, m - 1)) == Stream(c, n, k) + more + Period(c, m - 1);
    }
  }

  /** The driver brought a period with each of the answers n..m-1. */
  ghost predicate AllData(c: Source, n: nat, m: nat) { forall k :: n <= k < m ==> c.answers(k).Data? }

  lemma {:induction false} StreamLength(c: Source, n: nat, m: nat)
    requires ValidSource(c) && n <= m && AllData(c, n, m)
    ensures |Stream(c, n, m)| == (m - n) * c.period
  {
    if n < m {
      StreamLength(c, n, m - 1);
      Steps(m - n, c.period);
    }
  }

  lemma StreamEmpty(c: Source, n: nat, m: nat)
    requires ValidSource(c) && n <= m && AllData(c, n, m)
    ensures |Stream(c, n, m)| == 0 <==> n == m
  {
    StreamLength(c, n, m);
    if n < m {
      Mono(1, m - n, c.period);
    }
  }

  lemma FailureBringsNothing(c: Source, n: nat, m: nat)
    requires ValidSource(c) && n < m && c.answers(m - 1).Failure?
    ensures Stream(c, n, m) == Stream(c, n, m - 1)
  {
    assert Stream(c, n, m) == Stream(c, n, m - 1) + [];
  }

  // ---------------------------------------------------------------- the capture stream

  class CaptureStream {
    const source: Source
    const buffer: array<int>
    var open: bool
    var framesIn: nat
    var readStatus: int
    /** Number of answers the driver has given. */
    var asked: nat

    ghost predicate Valid()
      reads this
    {
      && ValidSource(source)
      && buffer.Length == source.period * source.hwFrame
      && framesIn <= source.period && readStatus <= 0
    }

    /** The capture device is open, and no old error blocks what is still in the buffer. */
    predicate Clean()
      reads this
    {
      open && (framesIn > 0 ==> readStatus == 0)
    }

    /** The unread tail of the buffer. */
    function Pending(): (r: seq<Frame>)
      requires Valid()
      reads this, buffer
      ensures |r| == framesIn
    {
      Strided(buffer[..], source.frame, source.frame, source.period)[source.period - framesIn..]
    }

    constructor (source: Source)
      requires ValidSource(source)
      ensures Valid() && Clean() && this.source == source && asked == 0 && framesIn == 0
      ensures fresh(buffer)
    {
      this.source := source;
      buffer := new int[source.period * source.hwFrame];
      open, framesIn, readStatus, asked := true, 0, 0, 0;
    }

    method Fill(bytes: seq<int>)
      requires |bytes| == buffer.Length
      modifies buffer
      ensures buffer[..] == bytes
    {
      for i := 0 to buffer.Length
        invariant buffer[..i] == bytes[..i]
      {
        buffer[i] := bytes[i];
      }
    }

    /** Refill the buffer with one period. */
    method ReadPeriod()
      requires Valid() && framesIn == 0
      modifies buffer, this`framesIn, this`readStatus, this`asked
      ensures Valid()
      ensures asked == old(asked) + 1
      ensures match source.answers(old(asked))
              case Data(_) => readStatus == 0 && framesIn == source.period && Pending() == Period(source, old(asked))
              case Failure(code) => readStatus == code && framesIn == 0
    {
      var answer := source.answers(asked);
      asked := asked + 1;
      match answer {
        case Failure(code) =>
          readStatus := code;
        case Data(bytes) =>
          readStatus := 0;
          Fill(bytes);
          framesIn := source.period;
          if source.frame < source.hwFrame {
            RemoveChannels(buffer, source.sampleSize, source.inChans, source.outChans, framesIn);
            KeptArePacked(buffer[..], bytes, source.hwFrame, source.frame, source.period);
          }
      }
    }

    /** Offers up to `requested` frames at frame `start` of the buffer; `start` is -1 on failure. */
    method GetNextBuffer(requested: nat) returns (start: int, count: nat)
      requires Valid()
      modifies buffer, this`framesIn, this`readStatus, this`asked
      ensures Valid() && old(asked) <= asked
      ensures Pending() == old(Pending()) + Stream(source, old(asked), asked)
      ensures start >= 0 ==> framesIn > 0 && start == source.period - framesIn
      ensures start >= 0 ==> count == if requested > framesIn then framesIn else requested
      ensures start < 0 ==> count == 0 && readStatus != 0
      ensures old(Clean()) ==> (readStatus == 0 <==> start >= 0)
      ensures old(Clean()) ==> Clean()
      ensures readStatus != 0 && old(Clean()) ==>
                Pending() == [] && FailedLast(old(asked), readStatus) && asked == old(asked) + 1
      ensures readStatus == 0 ==> AllData(source, old(asked), asked)
    {
      if !open {
        readStatus := ENODEV;
        assert Stream(source, asked, asked) == [];
        return -1, 0;
      }
      if framesIn == 0 {
        ReadPeriod();
        assert Stream(source, old(asked), old(asked)) == [];
        assert Stream(source, old(asked), asked) == Period(source, old(asked));
        if readStatus != 0 {
          return -1, 0;
        }
      }
      count := if requested > framesIn then framesIn else requested;
      start := source.period - framesIn;
    }

    /** Copies `count` frames from frame `start` of the buffer. */
    method CopyFrames(dst: array<Frame>, at: nat, start: nat, count: nat)
      requires Valid() && start + count <= source.period && at + count <= dst.Length
      modifies dst
      ensures dst[..at] == old(dst[..at]) && dst[at + count..] == old(dst[at + count..])
      ensures dst[at..at + count]
              == Strided(buffer[..], source.frame, source.frame, source.period)[start..start + count]
    {
      ghost var all := Strided(buffer[..], source.frame, source.frame, source.period);
      for i := 0 to count
        invariant dst[..at] == old(dst[..at]) && dst[at + count..] == old(dst[at + count..])
        invariant dst[at..at + i] == all[start..start + i]
      {
        Mono(start + i + 1, source.period, source.frame);
        Steps(start + i + 1, source.frame);
        StridedAt(buffer[..], source.frame, source.frame, source.period, start + i);
        dst[at + i] := buffer[(start + i) * source.frame..(start + i) * source.frame + source.frame];
        assert dst[at..at + i + 1] == dst[at..at + i] + [dst[at + i]];
      }
    }

    /** Conservation: the frames `copied`, followed by what is left in the buffer, are the frames `before`,
        followed by what the driver has brought since answer `from`. */
    ghost predicate Balanced(copied: seq<Frame>, from: nat, before: seq<Frame>)
      requires Valid() && from <= asked
      reads this, buffer
    {
      copied + Pending() == before + Stream(source, from, asked)
    }

    lemma BalancedFirst()
      requires Valid()
      ensures Balanced([], asked, Pending())
    {
      assert Stream(source, asked, asked) == [];
    }

    /** Reads `frames` frames into `dst` from `at` on.  Nothing is lost, duplicated or reordered: what
        was copied, followed by what is left in the buffer, is what was left before followed by what
        the driver has brought.  On a driver error what was left and all periods brought by this call are
        copied but not reported: that is nothing exactly if nothing was left and the failure came first. */
    method ReadFrames(dst: array<Frame>, at: nat, frames: nat) returns (r: int, ghost copied: nat)
      requires Valid() && at + frames <= dst.Length
      modifies buffer, dst, this`framesIn, this`readStatus, this`asked
      ensures Progress(dst, old(dst[..]), at, frames, copied, old(asked), old(Pending()))
      ensures if r >= 0 then r == copied == frames else r == readStatus
      ensures old(Clean()) ==> Clean() && if r >= 0 then NoFailure(old(asked))
                               else FailedLast(old(asked), r) && Lost(dst[at..at + copied], old(asked), old(Pending()))
    {
      ghost var clean, d0, from, before := Clean(), dst[..], asked, Pending();
      var framesWr := 0;
      BalancedFirst();
      while framesWr < frames
        invariant 0 <= framesWr && Progress(dst, d0, at, frames, framesWr, from, before)
        invariant clean ==> NoFailure(from)
        decreases frames - framesWr
      {
        var status, count := ReadChunk(dst, at, framesWr, frames, d0, from, before);
        if status != 0 {
          return status, framesWr + count;
        }
        framesWr := framesWr + count;
      }
      return framesWr, framesWr;
    }

    /** `n` of `frames` frames have been copied to `dst` from `at` on, and nothing was lost. */
    ghost predicate Progress(dst: array<Frame>, d0: seq<Frame>, at: nat, frames: nat, n: nat, from: nat,
                             before: seq<Frame>)
      reads this, buffer, dst
    {
      && Valid() && from <= asked && n <= frames && at + frames <= dst.Length
      && SameOutside(d0, dst[..], at, frames) && Balanced(dst[at..at + n], from, before)
    }

    /** All answers since `from` brought data. */
    ghost predicate NoFailure(from: nat)
      reads this
    {
      Clean() && AllData(source, from, asked)
    }

    /** The last answer was this failure, and nothing is left in the buffer. */
    ghost predicate FailedLast(from: nat, status: int)
      reads this
    {
      asked > from && source.answers(asked - 1) == Failure(status) && framesIn == 0
    }

    /** The frames copied are those left before and all that the driver brought before its last answer. */
    ghost predicate Lost(copied: seq<Frame>, from: nat, before: seq<Frame>)
      requires Valid() && from < asked
      reads this
    {
      && AllData(source, from, asked - 1)
      && copied == before + Stream(source, from, asked - 1)
      && (copied == [] <==> before == [] && asked == from + 1)
    }

    lemma CopiedIsLost(copied: seq<Frame>, from: nat, before: seq<Frame>)
      requires Valid() && from < asked && source.answers(asked - 1).Failure? && framesIn == 0
      requires Balanced(copied, from, before) && AllData(source, from, asked - 1)
      ensures Lost(copied, from, before)
    {
      FailureBringsNothing(source, from, asked);
      StreamEmpty(source, from, asked - 1);
      assert Pending() == [];
      assert copied + [] == copied;
    }

    /** One round of `ReadFrames`, with `done` frames copied already. */
    method ReadChunk(dst: array<Frame>, at: nat, done: nat, frames: nat, ghost d0: seq<Frame>, ghost from: nat,
                     ghost before: seq<Frame>)
      returns (status: int, count: nat)
      requires done < frames && Progress(dst, d0, at, frames, done, from, before)
      modifies buffer, dst, this`framesIn, this`readStatus, this`asked
      ensures Progress(dst, d0, at, frames, done + count, from, before)
      ensures old(asked) <= asked && status == readStatus && (status == 0 ==> count > 0)
      ensures old(NoFailure(from)) ==> if status == 0 then NoFailure(from)
                else Clean() && FailedLast(from, status) && Lost(dst[at..at + done + count], from, before)
    {
      ghost var none := NoFailure(from);
      var start;
      start, count := Fetch(frames - done, dst[at..at + done], from, before);
      MoveFrames(dst, at, done, start, count, frames, from, before);
      status := readStatus;
      if none && status != 0 {
        CopiedIsLost(dst[at..at + done + count], from, before);
      }
    }

    /** Fetching a period keeps the balance of the frames copied already. */
    method Fetch(requested: nat, ghost copied: seq<Frame>, ghost from: nat, ghost before: seq<Frame>)
      returns (start: int, count: nat)
      requires Valid() && from <= asked && Balanced(copied, from, before)
      modifies buffer, this`framesIn, this`readStatus, this`asked
      ensures Valid() && old(asked) <= asked && Balanced(copied, from, before)
      ensures if start >= 0 then start == source.period - framesIn else count == 0
      ensures count <= requested && count <= framesIn && (readStatus == 0 && requested > 0 ==> count > 0)
      ensures old(NoFailure(from)) ==> if readStatus == 0 then NoFailure(from)
                else Clean() && FailedLast(from, readStatus) && count == 0 && AllData(source, from, asked - 1)
    {
      ghost var p0, asked0 := Pending(), asked;
      start, count := GetNextBuffer(requested);
      KeepsBalance(copied, p0, asked0, from, before);
    }

    /** The frames on offer go behind the `done` frames copied already. */
    method MoveFrames(dst: array<Frame>, at: nat, done: nat, start: int, count: nat, frames: nat, ghost from: nat,
                      ghost before: seq<Frame>)
      requires Valid() && at + frames <= dst.Length && done + count <= frames && count <= framesIn && from <= asked
      requires if start >= 0 then start == source.period - framesIn else count == 0
      requires Balanced(dst[at..at + done], from, before)
      modifies dst, this`framesIn
      ensures Valid() && framesIn == old(framesIn) - count
      ensures SameOutside(old(dst[..]), dst[..], at, frames)
      ensures Balanced(dst[at..at + done + count], from, before)
    {
      ghost var d0, pending := dst[..], Pending();
      assert d0[at..at + done] == dst[at..at + done];
      TakeFrames(dst, at + done, start, count);
      Moved(d0, dst[..], at, done, count, frames, pending);
      assert dst[at..at + done + count] == dst[..][at..at + done + count];
    }

    /** Fetching a period adds the same frames on both sides. */
    lemma KeepsBalance(were: seq<Frame>, p0: seq<Frame>, asked0: nat, from: nat, before: seq<Frame>)
      requires Valid() && from <= asked0 <= asked
      requires were + p0 == before + Stream(source, from, asked0)
      requires Pending() == p0 + Stream(source, asked0, asked)
      ensures were + Pending() == before + Stream(source, from, asked)
    {
      StreamSplits(source, from, asked0, asked);
      Carried(were, p0, before, Stream(source, from, asked0), Stream(source, asked0, asked));
    }

    /** Moves `count` frames from the buffer to `dst`. */
    method TakeFrames(dst: array<Frame>, at: nat, start: int, count: nat)
      requires Valid() && at + count <= dst.Length && count <= framesIn
      requires if start >= 0 then start == source.period - framesIn else count == 0
      modifies dst, this`framesIn
      ensures Valid() && framesIn == old(framesIn) - count && Pending() == old(Pending())[count..]
      ensures dst[..][..at] == old(dst[..])[..at] && dst[..][at + count..] == old(dst[..])[at + count..]
      ensures dst[..][at..at + count] == old(Pending())[..count]
    {
      if start >= 0 {
        CopyFrames(dst, at, start, count);
      }
      framesIn := framesIn - count;
    }
  }

  lemma Carried(were: seq<Frame>, left: seq<Frame>, before: seq<Frame>, earlier: seq<Frame>, more: seq<Frame>)
    requires were + left == before + earlier
    ensures were + (left + more) == before + (earlier + more)
  {
    assert were + (left + more) == (were + left) + more == before + (earlier + more);
  }

  ghost predicate SameOutside(d0: seq<Frame>, d1: seq<Frame>, at: nat, n: nat) {
    at + n <= |d0| == |d1| && d1[..at] == d0[..at] && d1[at + n..] == d0[at + n..]
  }

  /** Copying `x` behind the first `k` of `n` frames. */
  lemma Spliced(d0: seq<Frame>, d1: seq<Frame>, at: nat, k: nat, count: nat, n: nat, x: seq<Frame>)
    requires k + count <= n && at + n <= |d0| == |d1|
    requires d1[..at + k] == d0[..at + k] && d1[at + k + count..] == d0[at + k + count..]
    requires d1[at + k..at + k + count] == x
    ensures SameOutside(d0, d1, at, n)
    ensures d1[at..at + k + count] == d0[at..at + k] + x
  {
    assert d1[..at] == d1[..at + k][..at];
    assert d1[at..at + k] == d1[..at + k][at..];
    assert d1[at + n..] == d1[at + k + count..][n - k - count..];
    assert d0[at + n..] == d0[at + k + count..][n - k - count..];
  }

  /** Moving frames from the front of the buffer behind those copied keeps the whole. */
  lemma Moved(d0: seq<Frame>, d1: seq<Frame>, at: nat, k: nat, count: nat, n: nat, pending: seq<Frame>)
    requires k + count <= n && at + n <= |d0| == |d1| && count <= |pending|
    requires d1[..at + k] == d0[..at + k] && d1[at + k + count..] == d0[at + k + count..]
    requires d1[at + k..at + k + count] == pending[..count]
    ensures SameOutside(d0, d1, at, n)
    ensures d1[at..at + k + count] + pending[count..] == d0[at..at + k] + pending
  {
    Spliced(d0, d1, at, k, count, n, pending[..count]);
    assert (d0[at..at + k] + pending[..count]) + pending[count..] == d0[at..at + k] + pending;
  }

  // ---------------------------------------------------------------- a call that loses a frame

  /** The driver brings one frame, then fails. */
  function OneFrame(): Source {
    Source((n: nat) => if n == 0 then Data([7]) else Failure(-5), 1, 1, 1, 1, 1, 1)
  }

  lemma OneFrameStream()
    ensures Stream(OneFrame(), 0, 1) == [[7]]
  {
    var c := OneFrame();
    assert Stream(c, 0, 0) == [];
    assert [7][0..1] == [7];
    assert Strided([7], 1, 1, 1) == Strided([7], 1, 1, 0) + [[7][0..1]];
    assert Period(c, 0) == Strided([7], 1, 1, 1);
  }

  /** Two frames are asked for.  The error is reported, and the frame brought before it is in `lost`. */
  method LosingCall() returns (r: int, lost: seq<Frame>)
    ensures r == -5 && lost == [[7]]
  {
    var c := OneFrame();
    var stream := new CaptureStream(c);
    var dst := new Frame[2](i => []);
    ghost var copied;
    r, copied := stream.ReadFrames(dst, 0, 2);
    assert r < 0 && stream.asked == 2 by {
      assert c.answers(1).Failure?;
    }
    OneFrameStream();
    lost := dst[..1];
  }

  // ---------------------------------------------------------------- sequences of calls

  /** A call that succeeded: what it delivered, and the state it left. */
  datatype Call = Call(out: seq<Frame>, pending: seq<Frame>, asked: nat)

  /** Each call begins in the state that the one before it left (`ReadAll` makes such calls). */
  ghost predicate Chained(c: Source, pending: seq<Frame>, asked: nat, calls: seq<Call>)
    requires ValidSource(c)
    decreases |calls|
  {
    calls == [] ||
    (&& asked <= calls[0].asked
     && calls[0].out + calls[0].pending == pending + Stream(c, asked, calls[0].asked)
     && Chained(c, calls[0].pending, calls[0].asked, calls[1..]))
  }

  function Outputs(calls: seq<Call>): seq<Frame> { if calls == [] then [] else calls[0].out + Outputs(calls[1..]) }

  function LastAsked(asked: nat, calls: seq<Call>): nat { if calls == [] then asked else calls[|calls| - 1].asked }

  function LastPending(pending: seq<Frame>, calls: seq<Call>): seq<Frame> {
    if calls == [] then pending else calls[|calls| - 1].pending
  }

  /** Any sequence of successful calls delivers the driver's periods in order: all of them, but for
      the frames that are still in the buffer. */
  lemma {:induction false} CallsDeliverStream(c: Source, pending: seq<Frame>, asked: nat, calls: seq<Call>)
    requires ValidSource(c) && Chained(c, pending, asked, calls)
    ensures asked <= LastAsked(asked, calls)
    decreases |calls|
    ensures Outputs(calls) + LastPending(pending, calls) == pending + Stream(c, asked, LastAsked(asked, calls))
  {
    if calls == [] {
      assert Stream(c, asked, asked) == [];
    } else {
      var first, rest := calls[0], calls[1..];
      CallsDeliverStream(c, first.pending, first.asked, rest);
      var last := LastAsked(asked, calls);
      assert last == LastAsked(first.asked, rest) && LastPending(pending, calls) == LastPending(first.pending, rest);
      StreamSplits(c, asked, first.asked, last);
      Joined(first.out, Outputs(rest), LastPending(pending, calls), first.pending, pending,
             Stream(c, asked, first.asked), Stream(c, first.asked, last));
    }
  }

  lemma Joined(out: seq<Frame>, outs: seq<Frame>, left: seq<Frame>, between: seq<Frame>, before: seq<Frame>,
               s1: seq<Frame>, s2: seq<Frame>)
    requires out + between == before + s1 && outs + left == between + s2
    ensures (out + outs) + left == before + (s1 + s2)
  {
    assert (out + outs) + left == out + (outs + left) == out + (between + s2) == (out + between) + s2;
  }

  /** `call` begins where `calls` ends. */
  ghost predicate Follows(c: Source, pending: seq<Frame>, asked: nat, calls: seq<Call>, call: Call)
    requires ValidSource(c)
  {
    var left, from := LastPending(pending, calls), LastAsked(asked, calls);
    from <= call.asked && call.out + call.pending == left + Stream(c, from, call.asked)
  }

  lemma {:induction false} ChainedNext(c: Source, pending: seq<Frame>, asked: nat, calls: seq<Call>, call: Call)
    requires ValidSource(c) && Chained(c, pending, asked, calls) && Follows(c, pending, asked, calls, call)
    ensures Chained(c, pending, asked, calls + [call])
    decreases |calls|
  {
    if calls == [] {
      assert [call][1..] == [];
    } else {
      var first, rest := calls[0], calls[1..];
      assert (calls + [call])[1..] == rest + [call];
      assert LastAsked(asked, calls) == LastAsked(first.asked, rest);
      assert LastPending(pending, calls) == LastPending(first.pending, rest);
      ChainedNext(c, first.pending, first.asked, rest, call);
    }
  }

  lemma {:induction false} OutputsNext(calls: seq<Call>, call: Call)
    ensures Outputs(calls + [call]) == Outputs(calls) + call.out
  {
    if calls == [] {
      assert Outputs([call]) == call.out + Outputs([]);
    } else {
      OutputsNext(calls[1..], call);
      assert (calls + [call])[1..] == calls[1..] + [call];
    }
  }

  /** What earlier calls delivered stays the first part of the stream. */
  lemma OutputsComeFirst(c: Source, pending: seq<Frame>, asked: nat, calls: seq<Call>, now: nat)
    requires ValidSource(c) && Chained(c, pending, asked, calls) && LastAsked(asked, calls) <= now
    ensures asked <= now && Outputs(calls) <= pending + Stream(c, asked, now)
  {
    CallsDeliverStream(c, pending, asked, calls);
    var last := LastAsked(asked, calls);
    StreamSplits(c, asked, last, now);
    FirstPart(Outputs(calls), LastPending(pending, calls), pending, Stream(c, asked, last), Stream(c, last, now));
  }

  lemma FirstPart(out: seq<Frame>, left: seq<Frame>, before: seq<Frame>, s1: seq<Frame>, s2: seq<Frame>)
    requires out + left == before + s1
    ensures out <= before + (s1 + s2)
  {
    assert before + (s1 + s2) == (before + s1) + s2 == out + (left + s2);
  }

  /** Reads blocks of these sizes until a call fails.  The blocks are what was left in the buffer and the
      driver's periods in order, followed by what is left now. */
  method ReadAll(stream: CaptureStream, sizes: seq<nat>) returns (ok: bool, out: seq<Frame>, ghost calls: seq<Call>)
    requires stream.Valid()
    modifies stream, stream.buffer
    ensures stream.Valid() && old(stream.asked) <= stream.asked
    ensures Chained(stream.source, old(stream.Pending()), old(stream.asked), calls) && out == Outputs(calls)
    ensures SizesAre(calls, sizes) && (ok ==> |calls| == |sizes|)
    ensures ok ==>
              out + stream.Pending() == old(stream.Pending()) + Stream(stream.source, old(stream.asked), stream.asked)
    ensures out <= old(stream.Pending()) + Stream(stream.source, old(stream.asked), stream.asked)
  {
    ghost var before, from := stream.Pending(), stream.asked;
    out, calls := [], [];
    for i := 0 to |sizes|
      invariant stream.Valid() && |calls| == i && SizesAre(calls, sizes)
      invariant Chained(stream.source, before, from, calls) && out == Outputs(calls)
      invariant LastAsked(from, calls) == stream.asked && LastPending(before, calls) == stream.Pending()
    {
      var block;
      ghost var call;
      ok, block, call := ReadBlock(stream, sizes[i], before, from, calls);
      if !ok {
        OutputsComeFirst(stream.source, before, from, calls, stream.asked);
        return false, out, calls;
      }
      OutputsNext(calls, call);
      out, calls := out + block, calls + [call];
    }
    CallsDeliverStream(stream.source, before, from, calls);
    OutputsComeFirst(stream.source, before, from, calls, stream.asked);
    return true, out, calls;
  }

  ghost predicate SizesAre(calls: seq<Call>, sizes: seq<nat>) {
    |calls| <= |sizes| && forall i :: 0 <= i < |calls| ==> |calls[i].out| == sizes[i]
  }

  /** One more call, after `calls`. */
  method ReadBlock(stream: CaptureStream, size: nat, ghost before: seq<Frame>, ghost from: nat, ghost calls: seq<Call>)
    returns (ok: bool, block: seq<Frame>, ghost call: Call)
    requires stream.Valid() && Chained(stream.source, before, from, calls)
    requires LastAsked(from, calls) == stream.asked && LastPending(before, calls) == stream.Pending()
    modifies stream, stream.buffer
    ensures stream.Valid() && old(stream.asked) <= stream.asked
    ensures ok ==> call == Call(block, stream.Pending(), stream.asked) && |block| == size
    ensures ok ==> Chained(stream.source, before, from, calls + [call])
  {
    var dst := new Frame[size](k => []);
    var r, copied := stream.ReadFrames(dst, 0, size);
    ok, block := r >= 0, dst[..];
    call := Call(block, stream.Pending(), stream.asked);
    if ok {
      assert block == dst[0..copied];
      ChainedNext(stream.source, before, from, calls, call);
    }
  }
}
