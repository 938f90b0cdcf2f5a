/** From a padded NV12 frame to the rows of the JPEG encoder, by way of YUYV and by way of NV21
    (camera/AppCallbackNotifier.cpp, camera/Encoder_libjpeg.cpp; the loops without NEON). */
module Pixels {
  // ---------------------------------------------------------------- rows in memory

  /** `n` times `size`, by repeated addition as the pointers advance. */
  function Times(n: nat, size: nat): nat { if n == 0 then 0 else Times(n - 1, size) + size }

  lemma {:induction false} TimesIsProduct(n: nat, size: nat)
    ensures Times(n, size) == n * size
  {
    if n > 0 {
      TimesIsProduct(n - 1, size);
    }
  }

  lemma {:induction false} Mono(i: nat, n: nat, size: nat)
    requires i <= n
    ensures Times(i, size) <= Times(n, size)
  {
    if i < n {
      Mono(i, n - 1, size);
    }
  }

  lemma {:induction false} MonoSize(r: nat, x: nat, y: nat)
    requires x <= y
    ensures Times(r, x) <= Times(r, y)
  {
    if r > 0 {
      MonoSize(r - 1, x, y);
    }
  }

  /** `rows` rows of `w` bytes, `stride` bytes apart, fit into a buffer of `n` bytes. */
  predicate Fits(n: nat, stride: nat, w: nat, rows: nat) {
    rows == 0 || Times(rows - 1, stride) + w <= n
  }

  lemma RowFits(n: nat, stride: nat, w: nat, rows: nat, r: nat)
    requires Fits(n, stride, w, rows) && r < rows
    ensures Times(r, stride) + w <= n
  {
    Mono(r, rows - 1, stride);
  }

  /** Row `r` of a buffer. */
  function Row(s: seq<int>, stride: nat, w: nat, r: nat): (x: seq<int>)
    requires Times(r, stride) + w <= |s|
    ensures |x| == w
  {
    s[Times(r, stride)..Times(r, stride) + w]
  }

  // ---------------------------------------------------------------- pixel rows

  /** The reference: pixel `k` of a row has luma `l[k]` and the chroma pair that it shares with its
      neighbour.  Three bytes per pixel: Y, U, V. */
  function Sampled(l: seq<int>, c: seq<int>, n: nat): (r: seq<int>)
    requires n <= |l| && n <= |c| && |c| % 2 == 0
    ensures |r| == 3 * n
  {
    if n == 0 then [] else Sampled(l, c, n - 1) + [l[n - 1], c[(n - 1) / 2 * 2], c[(n - 1) / 2 * 2 + 1]]
  }

  /** `k` pixel pairs as YUYV. */
  function YuyvRow(l: seq<int>, c: seq<int>, k: nat): (r: seq<int>)
    requires 2 * k <= |l| && 2 * k <= |c|
    ensures |r| == 4 * k
  {
    if k == 0 then [] else YuyvRow(l, c, k - 1) + [l[2 * k - 2], c[2 * k - 2], l[2 * k - 1], c[2 * k - 1]]
  }

  /** `k` chroma pairs with U and V swapped. */
  function SwappedRow(c: seq<int>, k: nat): (r: seq<int>)
    requires 2 * k <= |c|
    ensures |r| == 2 * k
  {
    if k == 0 then [] else SwappedRow(c, k - 1) + [c[2 * k - 1], c[2 * k - 2]]
  }

  /** `yuyv_to_yuv` for `k` pixel pairs. */
  function FromYuyv(s: seq<int>, k: nat): (r: seq<int>)
    requires 4 * k <= |s|
    ensures |r| == 6 * k
  {
    if k == 0 then []
    else
      var q := s[4 * k - 4..4 * k];
      FromYuyv(s, k - 1) + [q[0], q[1], q[3], q[2], q[1], q[3]]
  }

  /** The chroma pair of pixel `k` of `w`: it changes after every second pixel, counted from the end. */
  function PairOf(w: nat, k: nat): nat {
    if k == 0 then 0 else PairOf(w, k - 1) + if (w - k) % 2 == 0 then 1 else 0
  }

  lemma HalfStep(w: nat, k: nat)
    requires 0 < k <= w
    ensures (k + w % 2) / 2 == (k - 1 + w % 2) / 2 + if (w - k) % 2 == 0 then 1 else 0
  {
    var a, b := w / 2, k / 2;
    assert w == 2 * a + w % 2 && k == 2 * b + k % 2;
  }

  /** In an even row pixels share pairs from the start; in an odd row the first pixel has its own. */
  lemma {:induction false} PairOfIs(w: nat, k: nat)
    requires k <= w
    ensures PairOf(w, k) == (k + w % 2) / 2
  {
    if k > 0 {
      PairOfIs(w, k - 1);
      HalfStep(w, k);
    }
  }

  /** `nv21_to_yuv`: the first `n` of `w` pixels. */
  function FromNv21(l: seq<int>, c: seq<int>, w: nat, n: nat): (r: seq<int>)
    requires n <= w <= |l| && w + w % 2 <= |c|
    ensures |r| == 3 * n
  {
    if n == 0 then []
    else
      PairOfIs(w, n - 1);
      var p := PairOf(w, n - 1);
      FromNv21(l, c, w, n - 1) + [l[n - 1], c[2 * p + 1], c[2 * p]]
  }

  lemma {:induction false} YuyvRowAt(l: seq<int>, c: seq<int>, k: nat, j: nat)
    requires j < k && 2 * k <= |l| && 2 * k <= |c|
    ensures YuyvRow(l, c, k)[4 * j..4 * j + 4] == [l[2 * j], c[2 * j], l[2 * j + 1], c[2 * j + 1]]
  {
    var prev := YuyvRow(l, c, k - 1);
    if j < k - 1 {
      YuyvRowAt(l, c, k - 1, j);
      assert YuyvRow(l, c, k)[4 * j..4 * j + 4] == prev[4 * j..4 * j + 4];
    }
  }

  lemma {:induction false} SwappedRowAt(c: seq<int>, k: nat, j: nat)
    requires j < k && 2 * k <= |c|
    ensures SwappedRow(c, k)[2 * j] == c[2 * j + 1] && SwappedRow(c, k)[2 * j + 1] == c[2 * j]
  {
    if j < k - 1 {
      SwappedRowAt(c, k - 1, j);
    }
  }

  lemma PairRead(l: seq<int>, c: seq<int>, s: seq<int>, k: nat, n: nat)
    requires 0 < n <= k && 2 * k <= |l| && 2 * k <= |c| && 4 * n <= |s| <= 4 * k && s == YuyvRow(l, c, k)[..|s|]
    ensures s[4 * n - 4..4 * n] == [l[2 * n - 2], c[2 * n - 2], l[2 * n - 1], c[2 * n - 1]]
  {
    YuyvRowAt(l, c, k, n - 1);
    assert s[4 * n - 4..4 * n] == YuyvRow(l, c, k)[4 * (n - 1)..4 * (n - 1) + 4];
  }

  lemma {:induction false} PairExpanded(l: seq<int>, c: seq<int>, s: seq<int>, n: nat)
    requires 0 < n && 4 * n <= |s| && 2 * n <= |l| && 2 * n <= |c| && |c| % 2 == 0
    requires s[4 * n - 4..4 * n] == [l[2 * n - 2], c[2 * n - 2], l[2 * n - 1], c[2 * n - 1]]
    requires FromYuyv(s, n - 1) == Sampled(l, c, 2 * n - 2)
    ensures FromYuyv(s, n) == Sampled(l, c, 2 * n)
  {
    SampledPair(l, c, n);
  }

  /** YUYV and back: the first `n` of `k` pairs are sampled from the source row. */
  lemma {:induction false} YuyvRoundTrip(l: seq<int>, c: seq<int>, s: seq<int>, k: nat, n: nat)
    requires n <= k && 2 * k <= |l| && 2 * k <= |c| && |c| % 2 == 0
    requires 4 * n <= |s| <= 4 * k && s == YuyvRow(l, c, k)[..|s|]
    ensures FromYuyv(s, n) == Sampled(l, c, 2 * n)
  {
    if n > 0 {
      YuyvRoundTrip(l, c, s, k, n - 1);
      PairRead(l, c, s, k, n);
      PairExpanded(l, c, s, n);
    }
  }

  lemma SampledPair(l: seq<int>, c: seq<int>, n: nat)
    requires 0 < n && 2 * n <= |l| && 2 * n <= |c| && |c| % 2 == 0
    ensures Sampled(l, c, 2 * n)
            == Sampled(l, c, 2 * n - 2)
               + [l[2 * n - 2], c[2 * n - 2], c[2 * n - 1], l[2 * n - 1], c[2 * n - 2], c[2 * n - 1]]
  {
    assert (2 * n - 1) / 2 == n - 1 && (2 * n - 2) / 2 == n - 1;
    assert Sampled(l, c, 2 * n - 1) == Sampled(l, c, 2 * n - 2) + [l[2 * n - 2], c[2 * n - 2], c[2 * n - 1]];
  }

  /** NV21 and back, for an even number of pixels. */
  lemma {:induction false} Nv21RoundTrip(l: seq<int>, c: seq<int>, w: nat, k: nat, n: nat)
    requires n <= w <= |l| && w % 2 == 0 && w <= 2 * k <= |c| && |c| % 2 == 0
    ensures FromNv21(l, SwappedRow(c, k), w, n) == Sampled(l, c, n)
  {
    if n > 0 {
      Nv21RoundTrip(l, c, w, k, n - 1);
      PairOfIs(w, n - 1);
      SwappedRowAt(c, k, (n - 1) / 2);
    }
  }

  // ---------------------------------------------------------------- whole images

  /** A camera frame: luma and chroma planes with a common stride.  Width and height are even. */
  datatype Frame = Frame(y: seq<int>, uv: seq<int>, w: nat, h: nat, stride: nat)

  predicate Valid(f: Frame) {
    && f.w % 2 == 0 && f.h % 2 == 0 && f.w <= f.stride && 0 < f.stride
    && Fits(|f.y|, f.stride, f.w, f.h) && Fits(|f.uv|, f.stride, f.w, f.h / 2)
  }

  function Luma(f: Frame, r: nat): (x: seq<int>)
    requires Valid(f) && r < f.h
    ensures |x| == f.w
  {
    RowFits(|f.y|, f.stride, f.w, f.h, r);
    Row(f.y, f.stride, f.w, r)
  }

  /** Chroma row `r`, with chroma rows `step` bytes apart. */
  function Chroma(f: Frame, step: nat, r: nat): (x: seq<int>)
    requires Valid(f) && step <= f.stride && r < f.h / 2
    ensures |x| == f.w
  {
    RowFits(|f.uv|, f.stride, f.w, f.h / 2, r);
    MonoSize(r, step, f.stride);
    Row(f.uv, step, f.w, r)
  }

  /** Direct 4:2:0 sampling of the first `m` pixels of row `r`. */
  function SampledRow(f: Frame, step: nat, m: nat, r: nat): (x: seq<int>)
    requires Valid(f) && step <= f.stride && r < f.h && m <= f.w
    ensures |x| == 3 * m
  {
    Sampled(Luma(f, r), Chroma(f, step, r / 2), m)
  }

  /** The first `n` rows as YUYV, packed. */
  function YuyvImage(f: Frame, n: nat): (r: seq<int>)
    requires Valid(f) && n <= f.h
    ensures |r| == Times(n, 2 * f.w)
  {
    if n == 0 then [] else YuyvImage(f, n - 1) + YuyvRow(Luma(f, n - 1), Chroma(f, f.stride, (n - 1) / 2), f.w / 2)
  }

  /** The first `n` luma rows, packed. */
  function LumaImage(f: Frame, n: nat): (r: seq<int>)
    requires Valid(f) && n <= f.h
    ensures |r| == Times(n, f.w)
  {
    if n == 0 then [] else LumaImage(f, n - 1) + Luma(f, n - 1)
  }

  /** The first `n` chroma rows, packed, with U and V swapped. */
  function SwappedImage(f: Frame, step: nat, n: nat): (r: seq<int>)
    requires Valid(f) && step <= f.stride && n <= f.h / 2
    ensures |r| == Times(n, f.w)
  {
    if n == 0 then [] else SwappedImage(f, step, n - 1) + SwappedRow(Chroma(f, step, n - 1), f.w / 2)
  }

  lemma {:induction false} YuyvImageRow(f: Frame, n: nat, r: nat)
    requires Valid(f) && r < n <= f.h
    ensures Times(r, 2 * f.w) + 2 * f.w <= |YuyvImage(f, n)|
    ensures Row(YuyvImage(f, n), 2 * f.w, 2 * f.w, r) == YuyvRow(Luma(f, r), Chroma(f, f.stride, r / 2), f.w / 2)
  {
    var front, last := YuyvImage(f, n - 1), YuyvRow(Luma(f, n - 1), Chroma(f, f.stride, (n - 1) / 2), f.w / 2);
    assert YuyvImage(f, n) == front + last;
    if r < n - 1 {
      YuyvImageRow(f, n - 1, r);
      RowOfFront(front, last, 2 * f.w, r);
    } else {
      RowOfEnd(front, last, 2 * f.w, r);
    }
  }

  lemma {:induction false} RowOfFront(front: seq<int>, last: seq<int>, m: nat, r: nat)
    requires Times(r, m) + m <= |front|
    ensures Row(front + last, m, m, r) == Row(front, m, m, r)
  {
  }

  lemma {:induction false} RowOfEnd(front: seq<int>, last: seq<int>, m: nat, r: nat)
    requires |front| == Times(r, m) && |last| == m
    ensures Row(front + last, m, m, r) == last
  {
  }

  lemma {:induction false} LumaImageRow(f: Frame, n: nat, r: nat)
    requires Valid(f) && r < n <= f.h
    ensures Times(r, f.w) + f.w <= |LumaImage(f, n)| && Row(LumaImage(f, n), f.w, f.w, r) == Luma(f, r)
  {
    var front, last := LumaImage(f, n - 1), Luma(f, n - 1);
    if r < n - 1 {
      LumaImageRow(f, n - 1, r);
      RowOfFront(front, last, f.w, r);
    } else {
      RowOfEnd(front, last, f.w, r);
    }
  }

  lemma {:induction false} SwappedImageRow(f: Frame, step: nat, n: nat, r: nat)
    requires Valid(f) && step <= f.stride && r < n <= f.h / 2
    ensures Times(r, f.w) + f.w <= |SwappedImage(f, step, n)|
    ensures Row(SwappedImage(f, step, n), f.w, f.w, r) == SwappedRow(Chroma(f, step, r), f.w / 2)
  {
    var front, last := SwappedImage(f, step, n - 1), SwappedRow(Chroma(f, step, n - 1), f.w / 2);
    if r < n - 1 {
      SwappedImageRow(f, step, n - 1, r);
      RowOfFront(front, last, f.w, r);
    } else {
      RowOfEnd(front, last, f.w, r);
    }
  }

  /** Distance between chroma rows in the NV21 path: a pointer to 16-bit pairs advances by half the
      stride, so an odd stride loses its last byte. */
  function PairStep(f: Frame): nat { 2 * (f.stride / 2) }

  // ---------------------------------------------------------------- copy2Dto1D

  /** Where the chroma pointer stands before row `i`: it moves on after odd rows. */
  function ChromaStart(i: nat, stride: nat): nat {
    if i == 0 then 0 else ChromaStart(i - 1, stride) + if i % 2 == 0 then stride else 0
  }

  /** Two image rows share a chroma row. */
  lemma {:induction false} ChromaShared(i: nat, stride: nat)
    ensures ChromaStart(i, stride) == Times(i / 2, stride)
  {
    if i > 0 {
      ChromaShared(i - 1, stride);
      assert i / 2 == if i % 2 == 0 then (i - 1) / 2 + 1 else (i - 1) / 2;
    }
  }

  /** Source, chroma and destination pointers when row `i` is about to be converted. */
  ghost predicate AtRow(i: nat, w: nat, stride: nat, src: nat, even: nat, d: nat) {
    src == Times(i, stride) && even == ChromaStart(i, stride) && d == Times(i, 2 * w)
  }

  lemma RowBounds(f: Frame, i: nat, src: nat, even: nat, d: nat)
    requires Valid(f) && i < f.h && AtRow(i, f.w, f.stride, src, even, d)
    ensures src + f.w <= |f.y| && even + f.w <= |f.uv| && d + 2 * f.w <= Times(f.h, 2 * f.w)
  {
    ChromaShared(i, f.stride);
    RowFits(|f.y|, f.stride, f.w, f.h, i);
    RowFits(|f.uv|, f.stride, f.w, f.h / 2, i / 2);
    Mono(i + 1, f.h, 2 * f.w);
  }

  lemma MoreRows(f: Frame, i: nat, src: nat, even: nat, d: nat)
    requires Valid(f) && i < f.h && AtRow(i, f.w, f.stride, src, even, d)
    requires src + f.w <= |f.y| && even + f.w <= |f.uv|
    ensures YuyvImage(f, i + 1) == YuyvImage(f, i) + YuyvRow(f.y[src..src + f.w], f.uv[even..even + f.w], f.w / 2)
  {
    SourceRows(f, i, src, even);
    ImageGrows(f, i);
  }

  lemma SourceRows(f: Frame, i: nat, src: nat, even: nat)
    requires Valid(f) && i < f.h && src == Times(i, f.stride) && even == ChromaStart(i, f.stride)
    requires src + f.w <= |f.y| && even + f.w <= |f.uv|
    ensures f.y[src..src + f.w] == Luma(f, i) && f.uv[even..even + f.w] == Chroma(f, f.stride, i / 2)
  {
    ChromaShared(i, f.stride);
  }

  lemma ImageGrows(f: Frame, i: nat)
    requires Valid(f) && i < f.h
    ensures YuyvImage(f, i + 1) == YuyvImage(f, i) + YuyvRow(Luma(f, i), Chroma(f, f.stride, i / 2), f.w / 2)
  {
  }

  lemma NextRow(i: nat, w: nat, stride: nat, src: nat, even: nat, d: nat)
    requires AtRow(i, w, stride, src, even, d)
    ensures AtRow(i + 1, w, stride, src + stride, even + (if i % 2 == 1 then stride else 0), d + 2 * w)
  {
  }

  /** The conversion to YUYV. */
  method ToYuyv(f: Frame, dst: array<int>)
    requires Valid(f) && Times(f.h, 2 * f.w) <= dst.Length
    modifies dst
    ensures dst[..Times(f.h, 2 * f.w)] == YuyvImage(f, f.h)
  {
    var src: nat, srcUv: nat, d: nat := 0, 0, 0;
    assert dst[..0] == [];
    for i := 0 to f.h
      invariant d <= dst.Length && AtRow(i, f.w, f.stride, src, srcUv, d)
      invariant dst[..d] == YuyvImage(f, i)
    {
      ConvertLine(f, dst, i, src, srcUv, d);
      src, srcUv, d := NextPointers(i, f.w, f.stride, src, srcUv, d);
    }
  }

  method ConvertLine(f: Frame, dst: array<int>, i: nat, src: nat, srcUv: nat, d: nat)
    requires Valid(f) && i < f.h && AtRow(i, f.w, f.stride, src, srcUv, d) && Times(f.h, 2 * f.w) <= dst.Length
    requires d <= dst.Length && dst[..d] == YuyvImage(f, i)
    modifies dst
    ensures d + 2 * f.w <= dst.Length && dst[..d + 2 * f.w] == YuyvImage(f, i + 1)
  {
    RowBounds(f, i, src, srcUv, d);
    MoreRows(f, i, src, srcUv, d);
    ConvertRow(f, dst, d, src, srcUv);
  }

  /** After an odd row the chroma pointer moves on, after an even one it goes back. */
  method NextPointers(i: nat, w: nat, stride: nat, src: nat, even: nat, d: nat)
    returns (src': nat, srcUv': nat, d': nat)
    requires w <= stride && AtRow(i, w, stride, src, even, d)
    ensures AtRow(i + 1, w, stride, src', srcUv', d') && d' == d + 2 * w
  {
    NextRow(i, w, stride, src, even, d);
    src', srcUv', d' := src + w, even + w, d + 2 * w;
    if i % 2 == 1 {
      srcUv' := srcUv' + (stride - w);
    } else {
      srcUv' := even;
    }
    src' := src' + (stride - w);
  }

  lemma TakeSplits(s: seq<int>, d: nat, n: nat)
    requires d + n <= |s|
    ensures s[..d + n] == s[..d] + s[d..d + n]
  {
  }

  method ConvertRow(f: Frame, dst: array<int>, d: nat, src: nat, srcUv: nat)
    requires Valid(f) && d + 2 * f.w <= dst.Length && src + f.w <= |f.y| && srcUv + f.w <= |f.uv|
    modifies dst
    ensures dst[..d + 2 * f.w] == old(dst[..d]) + YuyvRow(f.y[src..src + f.w], f.uv[srcUv..srcUv + f.w], f.w / 2)
  {
    assert f.w / 2 * 2 == f.w;
    RowToYuyv(f.y, src, f.uv, srcUv, f.w / 2, dst, d);
    TakeSplits(dst[..], d, 2 * f.w);
    assert dst[..][..d + 2 * f.w] == dst[..d + 2 * f.w] && dst[..][..d] == dst[..d];
  }

  /** `k` pixel pairs. */
  method RowToYuyv(src: seq<int>, yAt: nat, srcUv: seq<int>, uvAt: nat, k: nat, dst: array<int>, d: nat)
    requires d + 4 * k <= dst.Length && yAt + 2 * k <= |src| && uvAt + 2 * k <= |srcUv|
    modifies dst
    ensures dst[..d] == old(dst[..d])
    ensures dst[d..d + 4 * k] == YuyvRow(src[yAt..yAt + 2 * k], srcUv[uvAt..uvAt + 2 * k], k)
  {
    ghost var l, c := src[yAt..yAt + 2 * k], srcUv[uvAt..uvAt + 2 * k];
    var y, uv, bufferDst := yAt, uvAt, d;
    for j := 0 to k
      invariant y == yAt + 2 * j && uv == uvAt + 2 * j && bufferDst == d + 4 * j
      invariant dst[..d] == old(dst[..d])
      invariant dst[d..bufferDst] == YuyvRow(l, c, j)
    {
      assert l[2 * j] == src[y] && l[2 * j + 1] == src[y + 1] && c[2 * j] == srcUv[uv] && c[2 * j + 1] == srcUv[uv + 1];
      ghost var front, pair := dst[..bufferDst], [src[y], srcUv[uv], src[y + 1], srcUv[uv + 1]];
      assert YuyvRow(l, c, j + 1) == YuyvRow(l, c, j) + pair;
      PairToYuyv(dst, bufferDst, src[y], srcUv[uv], src[y + 1], srcUv[uv + 1]);
      Glued(front, dst[..bufferDst + 4], d, pair);
      y, uv, bufferDst := y + 2, uv + 2, bufferDst + 4;
      assert dst[d..bufferDst] == dst[..bufferDst][d..];
    }
  }

  lemma Glued(front: seq<int>, all: seq<int>, d: nat, x: seq<int>)
    requires d <= |front| && all == front + x
    ensures all[..d] == front[..d] && all[d..] == front[d..] + x
  {
  }

  /** Two luma bytes, then V, then U. */
  method PairToYuyv(dst: array<int>, d: nat, y0: int, u: int, y1: int, v: int)
    requires d + 4 <= dst.Length
    modifies dst
    ensures dst[..d + 4] == old(dst[..d]) + [y0, u, y1, v]
  {
    var bufferDstY, bufferDstU, bufferDstV := d, d + 1, d + 3;
    dst[bufferDstY] := y0;
    bufferDstY := bufferDstY + 2;
    dst[bufferDstY] := y1;
    dst[bufferDstV] := v;
    dst[bufferDstU] := u;
  }

  method CopyBytes(dst: array<int>, d: nat, s: seq<int>, at: nat, n: nat)
    requires d + n <= dst.Length && at + n <= |s|
    modifies dst
    ensures dst[..d] == old(dst[..d]) && dst[d..d + n] == s[at..at + n]
  {
    for i := 0 to n
      invariant dst[..d] == old(dst[..d]) && dst[d..d + i] == s[at..at + i]
    {
      dst[d + i] := s[at + i];
      assert dst[d..d + i + 1] == dst[d..d + i] + [s[at + i]];
    }
  }

  method AppendRow(dst: array<int>, d: nat, s: seq<int>, at: nat, n: nat)
    requires d + n <= dst.Length && at + n <= |s|
    modifies dst
    ensures dst[..d + n] == old(dst[..d]) + s[at..at + n]
  {
    CopyBytes(dst, d, s, at, n);
    assert dst[..d + n] == dst[..d] + dst[d..d + n];
  }

  /** Luma rows copied before the end check stops the loop, for a source of `length` bytes. */
  function RowsCopied(f: Frame, length: nat): (n: nat)
    requires Valid(f)
    ensures n <= f.h
  {
    if f.h == 0 then 0 else if length / f.stride + 1 < f.h then length / f.stride + 1 else f.h
  }

  /** The copy is complete exactly if the last row starts within the source. */
  lemma LumaCopiedExactly(f: Frame, length: nat)
    requires Valid(f) && f.h > 0
    ensures RowsCopied(f, length) == f.h <==> Times(f.h - 1, f.stride) <= length
  {
    WithinExactly(f.h - 1, f.stride, length);
  }

  lemma QuotientBounds(length: nat, stride: nat)
    requires stride > 0
    ensures length / stride * stride <= length < length / stride * stride + stride
  {
  }

  lemma WithinExactly(i: nat, stride: nat, length: nat)
    requires stride > 0
    ensures Times(i, stride) <= length <==> i <= length / stride
  {
    var q := length / stride;
    QuotientBounds(length, stride);
    TimesIsProduct(q, stride);
    Within(i, q, stride, length);
  }

  lemma {:induction false} Within(i: nat, last: nat, stride: nat, length: nat)
    requires Times(last, stride) <= length < Times(last + 1, stride)
    ensures Times(i, stride) <= length <==> i <= last
  {
    if i > last {
      Mono(last + 1, i, stride);
    } else {
      Mono(i, last, stride);
    }
  }

  method CopyLuma(f: Frame, dst: array<int>, length: nat) returns (d: nat)
    requires Valid(f) && Times(f.h, f.w) <= dst.Length
    modifies dst
    ensures d == Times(RowsCopied(f, length), f.w) <= dst.Length
    ensures dst[..d] == LumaImage(f, RowsCopied(f, length))
  {
    var last := length / f.stride;
    WithinExactly(last, f.stride, length);
    WithinExactly(last + 1, f.stride, length);
    var i;
    i, d := CopyRows(f, dst, length, last);
  }

  lemma LumaBounds(f: Frame, i: nat)
    requires Valid(f) && i < f.h
    ensures Times(i, f.stride) + f.w <= |f.y| && Times(i, f.w) + f.w <= Times(f.h, f.w)
  {
    RowFits(|f.y|, f.stride, f.w, f.h, i);
    Mono(i + 1, f.h, f.w);
  }

  lemma {:induction false} MoreLuma(f: Frame, i: nat, src: nat)
    requires Valid(f) && i < f.h && src == Times(i, f.stride) && src + f.w <= |f.y|
    ensures LumaImage(f, i + 1) == LumaImage(f, i) + f.y[src..src + f.w]
  {
  }

  method CopyRow(f: Frame, dst: array<int>, d: nat, i: nat, src: nat)
    requires Valid(f) && i < f.h && Times(f.h, f.w) <= dst.Length && src == Times(i, f.stride) && d == Times(i, f.w)
    requires d <= dst.Length && dst[..d] == LumaImage(f, i)
    modifies dst
    ensures d + f.w <= Times(f.h, f.w) && dst[..d + f.w] == LumaImage(f, i + 1)
  {
    LumaBounds(f, i);
    MoreLuma(f, i, src);
    AppendRow(dst, d, f.y, src, f.w);
  }

  /** `last` is the last row that starts within the source. */
  method CopyRows(f: Frame, dst: array<int>, length: nat, ghost last: nat) returns (i: nat, d: nat)
    requires Valid(f) && Times(f.h, f.w) <= dst.Length
    requires Times(last, f.stride) <= length < Times(last + 1, f.stride)
    modifies dst
    ensures i <= f.h && d == Times(i, f.w) <= dst.Length && dst[..d] == LumaImage(f, i)
    ensures i == if f.h == 0 then 0 else if last + 1 < f.h then last + 1 else f.h
  {
    var src := 0;
    i, d := 0, 0;
    while i < f.h
      invariant 0 <= i <= f.h && src == Times(i, f.stride) && d == Times(i, f.w) <= dst.Length
      invariant i == 0 || i <= last
      invariant dst[..d] == LumaImage(f, i)
    {
      CopyRow(f, dst, d, i, src);
      src := src + f.stride;
      d := d + f.w;
      i := i + 1;
      Within(i, last, f.stride, length);
      if src > length || d > Times(f.h, f.w) {
        break;
      }
    }
  }

  /** Swaps `k` chroma pairs. */
  method SwapRow(uv: seq<int>, at: nat, k: nat, dst: array<int>, d: nat)
    requires at + 2 * k <= |uv| && d + 2 * k <= dst.Length
    modifies dst
    ensures dst[..d + 2 * k] == old(dst[..d]) + SwappedRow(uv[at..at + 2 * k], k)
  {
    ghost var c, before := uv[at..at + 2 * k], dst[..d];
    for j := 0 to k
      invariant dst[..d + 2 * j] == before + SwappedRow(c, j)
    {
      ghost var front := dst[..d + 2 * j];
      dst[d + 2 * j] := uv[at + 2 * j + 1];
      dst[d + 2 * j + 1] := uv[at + 2 * j];
      assert c[2 * j] == uv[at + 2 * j] && c[2 * j + 1] == uv[at + 2 * j + 1];
      assert dst[..d + 2 * j + 2] == front + [c[2 * j + 1], c[2 * j]];
    }
  }

  lemma ChromaBounds(f: Frame, step: nat, i: nat)
    requires Valid(f) && step <= f.stride && i < f.h / 2
    ensures Times(i, step) + f.w <= |f.uv| && Times(i, f.w) + f.w <= Times(f.h / 2, f.w)
  {
    RowFits(|f.uv|, f.stride, f.w, f.h / 2, i);
    MonoSize(i, step, f.stride);
    Mono(i + 1, f.h / 2, f.w);
  }

  lemma {:induction false} MoreChroma(f: Frame, step: nat, i: nat, src: nat)
    requires Valid(f) && step <= f.stride && i < f.h / 2 && src == Times(i, step) && src + f.w <= |f.uv|
    ensures SwappedImage(f, step, i + 1) == SwappedImage(f, step, i) + SwappedRow(f.uv[src..src + f.w], f.w / 2)
  {
    assert Chroma(f, step, i) == f.uv[src..src + f.w];
  }

  /** The chroma half of the conversion to NV21, behind `d` bytes of luma. */
  method CopyChroma(f: Frame, dst: array<int>, d: nat)
    requires Valid(f) && d + Times(f.h / 2, f.w) <= dst.Length
    modifies dst
    ensures dst[..d + Times(f.h / 2, f.w)] == old(dst[..d]) + SwappedImage(f, PairStep(f), f.h / 2)
  {
    ghost var luma := dst[..d];
    var step := PairStep(f);
    var src: nat, at: nat := 0, 0;
    for i := 0 to f.h / 2
      invariant src == Times(i, step) && at == Times(i, f.w) && d + at <= dst.Length
      invariant dst[..d + at] == luma + SwappedImage(f, step, i)
    {
      ChromaBounds(f, step, i);
      ConvertChroma(f, dst, d, luma, step, i, src, at);
      src := src + step;
      at := at + f.w;
    }
  }

  method ConvertChroma(f: Frame, dst: array<int>, d: nat, ghost luma: seq<int>, step: nat, i: nat, src: nat, at: nat)
    requires Valid(f) && step <= f.stride && i < f.h / 2 && src == Times(i, step) && src + f.w <= |f.uv|
    requires d + at + f.w <= dst.Length && dst[..d + at] == luma + SwappedImage(f, step, i)
    modifies dst
    ensures dst[..d + at + f.w] == luma + SwappedImage(f, step, i + 1)
  {
    assert f.w / 2 * 2 == f.w;
    SwapRow(f.uv, src, f.w / 2, dst, d + at);
    MoreChroma(f, step, i, src);
    Associates(luma, SwappedImage(f, step, i), SwappedRow(f.uv[src..src + f.w], f.w / 2));
  }

  lemma Associates(x: seq<int>, y: seq<int>, z: seq<int>)
    ensures (x + y) + z == x + (y + z)
  {
  }

  /** The conversion to NV21; `length` bounds the luma source. */
  lemma {:induction false} FrontKept(all: seq<int>, front: seq<int>, rest: seq<int>, n: nat)
    requires all == front + rest && n <= |front|
    ensures all[..n] == front[..n]
  {
  }

  method ToNv21(f: Frame, dst: array<int>, length: nat)
    requires Valid(f) && Times(f.h, f.w) + Times(f.h / 2, f.w) <= dst.Length
    modifies dst
    ensures RowsCopied(f, length) == f.h ==>
              dst[..Times(f.h, f.w) + Times(f.h / 2, f.w)] == LumaImage(f, f.h) + SwappedImage(f, PairStep(f), f.h / 2)
    ensures Times(RowsCopied(f, length), f.w) <= Times(f.h, f.w)
    ensures dst[..Times(RowsCopied(f, length), f.w)] == LumaImage(f, RowsCopied(f, length))
  {
    var copied := CopyLuma(f, dst, length);
    Mono(RowsCopied(f, length), f.h, f.w);
    ghost var luma := dst[..Times(f.h, f.w)];
    assert luma[..copied] == dst[..copied];
    CopyChroma(f, dst, Times(f.h, f.w));
    FrontKept(dst[..Times(f.h, f.w) + Times(f.h / 2, f.w)], luma, SwappedImage(f, PairStep(f), f.h / 2), copied);
    assert dst[..copied] == dst[..Times(f.h, f.w) + Times(f.h / 2, f.w)][..copied];
  }

  // ---------------------------------------------------------------- the encoder

  /** `nv21_to_yuv` for a row of `m` pixels. */
  method Nv21ToYuv(row: array<int>, src: seq<int>, yAt: nat, uvAt: nat, m: nat)
    requires 3 * m <= row.Length && yAt + m <= |src| && uvAt + m + m % 2 <= |src|
    modifies row
    ensures row[..3 * m] == FromNv21(src[yAt..], src[uvAt..], m, m)
  {
    ghost var l, c := src[yAt..], src[uvAt..];
    var width, y, uv, dst := m, yAt, uvAt, 0;
    ghost var k: nat := 0;
    while width > 0
      invariant 0 <= width <= m && k == m - width && y == yAt + k && dst == 3 * k
      invariant uv == uvAt + 2 * PairOf(m, k)
      invariant row[..dst] == FromNv21(l, c, m, k)
    {
      width := width - 1;
      NextPixel(l, c, m, k);
      PixelInto(row, dst, src[y], src[uv + 1], src[uv]);
      assert row[..dst + 3] == FromNv21(l, c, m, k + 1);
      dst := dst + 3;
      y := y + 1;
      k := k + 1;
      if width % 2 == 0 {
        uv := uv + 2;
      }
    }
  }

  lemma NextPixel(l: seq<int>, c: seq<int>, m: nat, k: nat)
    requires k < m <= |l| && m + m % 2 <= |c|
    ensures 2 * PairOf(m, k) + 2 <= m + m % 2
    ensures FromNv21(l, c, m, k + 1) == FromNv21(l, c, m, k) + [l[k], c[2 * PairOf(m, k) + 1], c[2 * PairOf(m, k)]]
  {
    PairOfIs(m, k);
  }

  method PixelInto(row: array<int>, d: nat, y: int, u: int, v: int)
    requires d + 3 <= row.Length
    modifies row
    ensures row[..d + 3] == old(row[..d]) + [y, u, v]
  {
    row[d] := y;
    row[d + 1] := u;
    row[d + 2] := v;
  }

  /** `yuyv_to_yuv` for a row of `m` pixels; odd rows are not supported and leave `row` alone. */
  method YuyvToYuv(row: array<int>, src: seq<int>, at: nat, m: nat)
    requires 3 * m <= row.Length && at + 2 * m <= |src|
    modifies row
    ensures if m % 2 == 0 then row[..3 * m] == FromYuyv(src[at..], m / 2) else row[..] == old(row[..])
  {
    if m % 2 != 0 {
      return;
    }
    ExpandPairs(row, src, at, m / 2);
  }

  method ExpandPairs(row: array<int>, src: seq<int>, at: nat, pairs: nat)
    requires 6 * pairs <= row.Length && at + 4 * pairs <= |src|
    modifies row
    ensures row[..6 * pairs] == FromYuyv(src[at..], pairs)
  {
    ghost var s := src[at..];
    var from, dst := at, 0;
    for k := 0 to pairs
      invariant from == at + 4 * k && dst == 6 * k
      invariant row[..dst] == FromYuyv(s, k)
    {
      var y0, u0, y1, v0 := src[from], src[from + 1], src[from + 2], src[from + 3];
      assert s[4 * (k + 1) - 4..4 * (k + 1)] == [y0, u0, y1, v0];
      PixelInto(row, dst, y0, u0, v0);
      PixelInto(row, dst + 3, y1, u0, v0);
      dst := dst + 6;
      from := from + 4;
    }
  }

  /** Does the source hold all rows that the encoder reads? */
  predicate Readable(n: nat, yuyv: bool, w: nat, h: nat) {
    if yuyv then Times(h, 2 * w) <= n else Times(h, w) + Times((h + 1) / 2, w) <= n
  }

  lemma ReadsWithin(n: nat, yuyv: bool, w: nat, h: nat, r: nat)
    requires Readable(n, yuyv, w, h) && r < h
    ensures yuyv ==> Times(r, 2 * w) + 2 * w <= n
    ensures !yuyv ==> Times(r, w) + w <= Times(h, w) && Times(h, w) + ChromaStart(r, w) + w <= n
  {
    Mono(r + 1, h, 2 * w);
    Mono(r + 1, h, w);
    ChromaShared(r, w);
    Mono(r / 2 + 1, (h + 1) / 2, w);
  }

  /** What the encoder makes of row `r`: `m` of `w` pixels. */
  function EncodedRow(src: seq<int>, yuyv: bool, w: nat, h: nat, m: nat, r: nat): seq<int>
    requires Readable(|src|, yuyv, w, h) && m + m % 2 <= w && r < h && !Unsupported(yuyv, m)
  {
    ReadsWithin(|src|, yuyv, w, h, r);
    if yuyv then FromYuyv(src[Times(r, 2 * w)..], m / 2)
    else FromNv21(src[Times(r, w)..], src[Times(h, w) + ChromaStart(r, w)..], m, m)
  }

  /** YUYV rows of an odd number of pixels are not supported: nothing is written for them. */
  predicate Unsupported(yuyv: bool, m: nat) { yuyv && m % 2 != 0 }

  /** The scanline loop of `encode`, with `m` pixels per row after cropping on the right.  In the
      unsupported case all rows are what the row buffer happened to hold. */
  method Encode(src: seq<int>, yuyv: bool, w: nat, h: nat, m: nat) returns (rows: seq<seq<int>>)
    requires Readable(|src|, yuyv, w, h) && m + m % 2 <= w
    ensures |rows| == if w < 2 || h < 2 then 0 else h
    ensures !Unsupported(yuyv, m) ==> forall r: nat :: r < |rows| ==> rows[r] == EncodedRow(src, yuyv, w, h, m, r)
    ensures Unsupported(yuyv, m) ==> forall r: nat :: r < |rows| ==> |rows[r]| == 3 * m && rows[r] == rows[0]
  {
    rows := [];
    if w < 2 || h < 2 {
      return;
    }
    var rowTmp := new int[3 * m];
    var rowSrc: nat, rowUv: nat := 0, if yuyv then 0 else Times(h, w);
    var bytes := if yuyv then 2 * w else w;
    ghost var held := rowTmp[..];
    for nextScanline := 0 to h
      invariant rowSrc == Times(nextScanline, bytes)
      invariant !yuyv ==> rowUv == Times(h, w) + ChromaStart(nextScanline, w)
      invariant |rows| == nextScanline
      invariant !Unsupported(yuyv, m) ==>
                  forall r: nat :: r < nextScanline ==> rows[r] == EncodedRow(src, yuyv, w, h, m, r)
      invariant Unsupported(yuyv, m) ==> rowTmp[..] == held && forall r: nat :: r < nextScanline ==> rows[r] == held
    {
      var row := EncodeRow(src, yuyv, w, h, m, nextScanline, rowTmp, rowSrc, rowUv);
      rows := rows + [row];
      rowSrc := rowSrc + bytes;
      if !yuyv && (nextScanline + 1) % 2 == 0 {
        rowUv := rowUv + w;
      }
    }
  }

  method EncodeRow(src: seq<int>, yuyv: bool, w: nat, h: nat, m: nat, ghost r: nat, rowTmp: array<int>, rowSrc: nat,
                   rowUv: nat)
    returns (row: seq<int>)
    requires Readable(|src|, yuyv, w, h) && m + m % 2 <= w && r < h && rowTmp.Length == 3 * m
    requires rowSrc == Times(r, if yuyv then 2 * w else w) && (!yuyv ==> rowUv == Times(h, w) + ChromaStart(r, w))
    modifies rowTmp
    ensures row == rowTmp[..]
    ensures if Unsupported(yuyv, m) then row == old(rowTmp[..]) else row == EncodedRow(src, yuyv, w, h, m, r)
  {
    ReadsWithin(|src|, yuyv, w, h, r);
    if yuyv {
      YuyvToYuv(rowTmp, src, rowSrc, m);
    } else {
      Nv21ToYuv(rowTmp, src, rowSrc, rowUv, m);
    }
    assert rowTmp[..3 * m] == rowTmp[..];
    return rowTmp[..];
  }

  // ---------------------------------------------------------------- the two paths agree

  /** Only the first bytes matter. */
  lemma {:induction false} FromNv21Front(l: seq<int>, c: seq<int>, l': seq<int>, c': seq<int>, m: nat, n: nat)
    requires n <= m && m <= |l'| <= |l| && m + m % 2 <= |c'| <= |c| && l[..|l'|] == l' && c[..|c'|] == c'
    ensures FromNv21(l, c, m, n) == FromNv21(l', c', m, n)
  {
    if n > 0 {
      FromNv21Front(l, c, l', c', m, n - 1);
      NextPixel(l, c, m, n - 1);
      NextPixel(l', c', m, n - 1);
      var p := PairOf(m, n - 1);
      assert l[n - 1] == l'[n - 1] && c[2 * p] == c'[2 * p] && c[2 * p + 1] == c'[2 * p + 1];
    }
  }

  lemma SliceOfFront(s: seq<int>, s': seq<int>, lo: nat, hi: nat)
    requires lo <= hi <= |s'| <= |s| && s[..|s'|] == s'
    ensures s[lo..hi] == s'[lo..hi]
  {
    forall i | 0 <= i < |s'| ensures s[i] == s'[i] {
      assert s[..|s'|][i] == s[i];
    }
  }

  lemma {:induction false} FromYuyvFront(s: seq<int>, s': seq<int>, k: nat)
    requires 4 * k <= |s'| <= |s| && s[..|s'|] == s'
    ensures FromYuyv(s, k) == FromYuyv(s', k)
  {
    if k > 0 {
      FromYuyvFront(s, s', k - 1);
      SliceOfFront(s, s', 4 * k - 4, 4 * k);
    }
  }

  function Nv21Image(f: Frame): seq<int>
    requires Valid(f)
  {
    LumaImage(f, f.h) + SwappedImage(f, PairStep(f), f.h / 2)
  }

  lemma BothReadable(f: Frame)
    requires Valid(f)
    ensures Readable(|YuyvImage(f, f.h)|, true, f.w, f.h) && Readable(|Nv21Image(f)|, false, f.w, f.h)
  {
    assert (f.h + 1) / 2 == f.h / 2;
  }

  lemma YuyvRowEncodes(img: seq<int>, at: nat, l: seq<int>, c: seq<int>, w: nat, m: nat)
    requires w % 2 == 0 && |l| == |c| == w && m % 2 == 0 && m <= w && at + 2 * w <= |img|
    requires img[at..at + 2 * w] == YuyvRow(l, c, w / 2)
    ensures FromYuyv(img[at..], m / 2) == Sampled(l, c, m)
  {
    var row := img[at..at + 2 * w];
    assert img[at..][..2 * w] == row;
    var k, n := w / 2, m / 2;
    assert 2 * k == w && 2 * n == m && n <= k;
    assert row == row[..|row|];
    FromYuyvFront(img[at..], row, n);
    YuyvRoundTrip(l, c, row, k, n);
  }

  lemma Nv21RowEncodes(img: seq<int>, y: nat, uv: nat, l: seq<int>, c: seq<int>, w: nat, m: nat)
    requires w % 2 == 0 && |l| == |c| == w && m % 2 == 0 && m <= w && y + w <= |img| && uv + w <= |img|
    requires img[y..y + w] == l && img[uv..uv + w] == SwappedRow(c, w / 2)
    ensures FromNv21(img[y..], img[uv..], m, m) == Sampled(l, c, m)
  {
    assert img[y..][..w] == l && img[uv..][..w] == img[uv..uv + w];
    FromNv21Front(img[y..], img[uv..], l, SwappedRow(c, w / 2), m, m);
    Nv21RoundTrip(l, c, m, w / 2, m);
  }

  /** By way of YUYV: every encoded row is the direct sampling of the frame. */
  lemma YuyvPathSamples(f: Frame, m: nat, r: nat)
    requires Valid(f) && m % 2 == 0 && m <= f.w && r < f.h
    requires Readable(|YuyvImage(f, f.h)|, true, f.w, f.h)
    ensures EncodedRow(YuyvImage(f, f.h), true, f.w, f.h, m, r) == SampledRow(f, f.stride, m, r)
  {
    ReadsWithin(|YuyvImage(f, f.h)|, true, f.w, f.h, r);
    YuyvImageRow(f, f.h, r);
    YuyvRowEncodes(YuyvImage(f, f.h), Times(r, 2 * f.w), Luma(f, r), Chroma(f, f.stride, r / 2), f.w, m);
  }

  /** By way of NV21: likewise, with chroma rows `PairStep` apart. */
  lemma Nv21PathSamples(f: Frame, m: nat, r: nat)
    requires Valid(f) && m % 2 == 0 && m <= f.w && r < f.h
    requires Readable(|Nv21Image(f)|, false, f.w, f.h)
    ensures EncodedRow(Nv21Image(f), false, f.w, f.h, m, r) == SampledRow(f, PairStep(f), m, r)
  {
    var y, uv := Times(r, f.w), Times(f.h, f.w) + Times(r / 2, f.w);
    Nv21ImageRows(f, r, y, uv);
    Nv21RowEncodes(Nv21Image(f), y, uv, Luma(f, r), Chroma(f, PairStep(f), r / 2), f.w, m);
    Nv21RowIs(Nv21Image(f), f.w, f.h, m, r, y, uv);
  }

  /** Two scanlines share a chroma row. */
  lemma {:induction false} Nv21RowIs(src: seq<int>, w: nat, h: nat, m: nat, r: nat, y: nat, uv: nat)
    requires Readable(|src|, false, w, h) && m + m % 2 <= w && r < h
    requires y == Times(r, w) && uv == Times(h, w) + Times(r / 2, w)
    ensures y + w <= |src| && uv + w <= |src|
    ensures EncodedRow(src, false, w, h, m, r) == FromNv21(src[y..], src[uv..], m, m)
  {
    ReadsWithin(|src|, false, w, h, r);
    ChromaShared(r, w);
    assert Times(h, w) + ChromaStart(r, w) == uv;
  }

  lemma {:induction false} Nv21ImageRows(f: Frame, r: nat, y: nat, uv: nat)
    requires Valid(f) && r < f.h && y == Times(r, f.w) && uv == Times(f.h, f.w) + Times(r / 2, f.w)
    ensures var img := Nv21Image(f);
            && y + f.w <= |img| && uv + f.w <= |img|
            && img[y..y + f.w] == Luma(f, r)
            && img[uv..uv + f.w] == SwappedRow(Chroma(f, PairStep(f), r / 2), f.w / 2)
  {
    var luma, chroma := LumaImage(f, f.h), SwappedImage(f, PairStep(f), f.h / 2);
    LumaImageRow(f, f.h, r);
    SwappedImageRow(f, PairStep(f), f.h / 2, r / 2);
    RowInFront(luma, chroma, f.w, r, y);
    RowBehind(luma, chroma, f.w, r / 2, uv);
  }

  /** Where a row is found in luma followed by chroma. */
  lemma {:induction false} RowInFront(luma: seq<int>, chroma: seq<int>, w: nat, r: nat, at: nat)
    requires Times(r, w) + w <= |luma| && at == Times(r, w)
    ensures (luma + chroma)[at..at + w] == Row(luma, w, w, r)
  {
  }

  lemma {:induction false} RowBehind(luma: seq<int>, chroma: seq<int>, w: nat, r: nat, at: nat)
    requires Times(r, w) + w <= |chroma| && at == |luma| + Times(r, w)
    ensures at + w <= |luma + chroma| && (luma + chroma)[at..at + w] == Row(chroma, w, w, r)
  {
  }

  /** On an even stride, or up to two rows, both paths encode the same pixels: those of the frame. */
  lemma PathsAgree(f: Frame, m: nat, r: nat)
    requires Valid(f) && m % 2 == 0 && m <= f.w && r < f.h && (f.stride % 2 == 0 || f.h <= 2)
    ensures Readable(|YuyvImage(f, f.h)|, true, f.w, f.h) && Readable(|Nv21Image(f)|, false, f.w, f.h)
    ensures EncodedRow(YuyvImage(f, f.h), true, f.w, f.h, m, r) == EncodedRow(Nv21Image(f), false, f.w, f.h, m, r)
    ensures EncodedRow(YuyvImage(f, f.h), true, f.w, f.h, m, r) == SampledRow(f, f.stride, m, r)
  {
    BothReadable(f);
    YuyvPathSamples(f, m, r);
    Nv21PathSamples(f, m, r);
    if f.stride % 2 == 0 {
      assert PairStep(f) == f.stride;
    } else {
      assert Chroma(f, PairStep(f), 0) == Chroma(f, f.stride, 0);
    }
  }

  /** Luma 0 everywhere, chroma 0 at even and 1 at odd addresses. */
  function StripedFrame(w: nat, h: nat, stride: nat): Frame {
    Frame(seq(Times(h, stride), i => 0), seq(Times(h, stride), i => i % 2), w, h, stride)
  }

  lemma StripedFits(w: nat, h: nat, stride: nat)
    requires w % 2 == 0 && h % 2 == 0 && 2 <= w <= stride && h > 2
    ensures Valid(StripedFrame(w, h, stride))
  {
    Mono(h - 1, h, stride);
    Mono(h / 2, h - 1, stride);
    Mono(h / 2 - 1, h / 2, stride);
  }

  /** On an odd stride, images of more than two rows come out differently. */
  lemma OddStrideDisagrees(w: nat, h: nat, stride: nat) returns (f: Frame)
    requires w % 2 == 0 && h % 2 == 0 && 2 <= w <= stride && stride % 2 == 1 && h > 2
    ensures Valid(f) && f.w == w && f.h == h && f.stride == stride
    ensures Readable(|YuyvImage(f, h)|, true, w, h) && Readable(|Nv21Image(f)|, false, w, h)
    ensures EncodedRow(YuyvImage(f, h), true, w, h, w, 2) != EncodedRow(Nv21Image(f), false, w, h, w, 2)
  {
    f := StripedFrame(w, h, stride);
    StripedFits(w, h, stride);
    BothReadable(f);
    YuyvPathSamples(f, w, 2);
    Nv21PathSamples(f, w, 2);
    StripesDiffer(f);
    SampledFirst(Luma(f, 2), Chroma(f, stride, 1), w);
    SampledFirst(Luma(f, 2), Chroma(f, PairStep(f), 1), w);
  }

  lemma StripesDiffer(f: Frame)
    requires Valid(f) && f.stride % 2 == 1 && f.h > 2 && f.w >= 2 && f == StripedFrame(f.w, f.h, f.stride)
    ensures Chroma(f, f.stride, 1)[0] != Chroma(f, PairStep(f), 1)[0]
  {
    RowFits(|f.uv|, f.stride, f.w, f.h / 2, 1);
    assert Times(1, f.stride) == f.stride && Times(1, PairStep(f)) == PairStep(f) == f.stride - 1;
    assert Chroma(f, f.stride, 1)[0] == f.uv[f.stride] && Chroma(f, PairStep(f), 1)[0] == f.uv[f.stride - 1];
  }

  lemma {:induction false} SampledFirst(l: seq<int>, c: seq<int>, n: nat)
    requires 0 < n <= |l| && n <= |c| && |c| % 2 == 0
    ensures Sampled(l, c, n)[1] == c[0]
  {
    if n > 1 {
      SampledFirst(l, c, n - 1);
    }
  }
}
