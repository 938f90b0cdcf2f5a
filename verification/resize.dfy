/** The fixed-point bilinear resizer for NV12 images (camera/NV12_resize.cpp, without a crop
    rectangle; weight table in camera/inc/NV12_resize.h). */
module Resize {
  import P = Pixels

  // ---------------------------------------------------------------- weights

  const WEIGHTS: seq<seq<seq<int>>> := [
    [[64, 0, 0, 0], [56, 0, 0, 8], [48, 0, 0, 16], [40, 0, 0, 24], [32, 0, 0, 32], [24, 0, 0, 40], [16, 0, 0, 48], [8, 0, 0, 56]],
    [[56, 8, 0, 0], [49, 7, 1, 7], [42, 6, 2, 14], [35, 5, 3, 21], [28, 4, 4, 28], [21, 3, 5, 35], [14, 2, 6, 42], [7, 1, 7, 49]],
    [[48, 16, 0, 0], [42, 14, 2, 6], [36, 12, 4, 12], [30, 10, 6, 18], [24, 8, 8, 24], [18, 6, 10, 30], [12, 4, 12, 36], [6, 2, 14, 42]],
    [[40, 24, 0, 0], [35, 21, 3, 5], [30, 18, 6, 10], [25, 15, 9, 15], [20, 12, 12, 20], [15, 9, 15, 25], [10, 6, 18, 30], [5, 3, 21, 35]],
    [[32, 32, 0, 0], [28, 28, 4, 4], [24, 24, 8, 8], [20, 20, 12, 12], [16, 16, 16, 16], [12, 12, 20, 20], [8, 8, 24, 24], [4, 4, 28, 28]],
    [[24, 40, 0, 0], [21, 35, 5, 3], [18, 30, 10, 6], [15, 25, 15, 9], [12, 20, 20, 12], [9, 15, 25, 15], [6, 10, 30, 18], [3, 5, 35, 21]],
    [[16, 48, 0, 0], [14, 42, 6, 2], [12, 36, 12, 4], [10, 30, 18, 6], [8, 24, 24, 8], [6, 18, 30, 10], [4, 12, 36, 12], [2, 6, 42, 14]],
    [[8, 56, 0, 0], [7, 49, 7, 1], [6, 42, 14, 2], [5, 35, 21, 3], [4, 28, 28, 4], [3, 21, 35, 5], [2, 14, 42, 6], [1, 7, 49, 7]]]

  /** The four weights at eighth-pixel offset (xf, yf). */
  function Weights(xf: nat, yf: nat): (w: seq<int>)
    requires xf < 8 && yf < 8
  {
    WEIGHTS[xf][yf]
  }

  /** The table holds the bilinear weights, in the order: left, right, lower right, lower left. */
  lemma TableIsBilinear(xf: nat, yf: nat)
    requires xf < 8 && yf < 8
    ensures Weights(xf, yf) == [(8 - xf) * (8 - yf), xf * (8 - yf), xf * yf, (8 - xf) * yf]
  {
    TableRow(WEIGHTS[xf], xf, yf);
  }

  lemma TableRow(row: seq<seq<int>>, xf: nat, yf: nat)
    requires xf < 8 && yf < 8 && row == WEIGHTS[xf]
    ensures |row| == 8 && row[yf] == [(8 - xf) * (8 - yf), xf * (8 - yf), xf * yf, (8 - xf) * yf]
  {
    if xf < 4 {
      if xf < 2 {
        if xf == 0 { Cases(yf); } else { Cases(yf); }
      } else {
        if xf == 2 { Cases(yf); } else { Cases(yf); }
      }
    } else if xf < 6 {
      if xf == 4 { Cases(yf); } else { Cases(yf); }
    } else {
      if xf == 6 { Cases(yf); } else { Cases(yf); }
    }
  }

  lemma Cases(n: nat)
    requires n < 8
    ensures n == 0 || n == 1 || n == 2 || n == 3 || n == 4 || n == 5 || n == 6 || n == 7
  {
  }

  type Byte = b: int | 0 <= b < 256

  /** One output sample from its four sources, as accumulated in 16 bits. */
  function Accumulated(xf: nat, yf: nat, a: Byte, b: Byte, c: Byte, d: Byte): int
    requires xf < 8 && yf < 8
  {
    TableIsBilinear(xf, yf);
    Weights(xf, yf)[0] * a + Weights(xf, yf)[1] * b + Weights(xf, yf)[3] * c + Weights(xf, yf)[2] * d
  }

  lemma Weighted(w: int, v: Byte, lo: int, hi: int)
    requires w >= 0 && lo <= v <= hi
    ensures w * lo <= w * v <= w * hi
  {
  }

  lemma WeightsSum(xf: nat, yf: nat)
    requires xf < 8 && yf < 8
    ensures var w := Weights(xf, yf);
            && |w| == 4 && w[0] + w[1] + w[2] + w[3] == 64
            && w[0] >= 0 && w[1] >= 0 && w[2] >= 0 && w[3] >= 0
  {
    TableIsBilinear(xf, yf);
    Cases(xf);
    Cases(yf);
  }

  /** The sum fits 16 bits, and a sample lies between the least and the greatest of its sources. */
  lemma SampleBetween(xf: nat, yf: nat, a: Byte, b: Byte, c: Byte, d: Byte, lo: Byte, hi: Byte)
    requires xf < 8 && yf < 8
    requires lo <= a <= hi && lo <= b <= hi && lo <= c <= hi && lo <= d <= hi
    ensures 0 <= Accumulated(xf, yf, a, b, c, d) < 0x1_0000
    ensures lo <= Accumulated(xf, yf, a, b, c, d) / 64 <= hi
  {
    WeightsSum(xf, yf);
    var w := Weights(xf, yf);
    Weighted(w[0], a, lo, hi);
    Weighted(w[1], b, lo, hi);
    Weighted(w[3], c, lo, hi);
    Weighted(w[2], d, lo, hi);
    Spread(w[0], w[1], w[3], w[2], lo);
    Spread(w[0], w[1], w[3], w[2], hi);
  }

  lemma Spread(w0: int, w1: int, w3: int, w2: int, v: int)
    requires w0 + w1 + w2 + w3 == 64
    ensures w0 * v + w1 * v + w3 * v + w2 * v == 64 * v
  {
    assert w0 * v + w1 * v + w3 * v + w2 * v == (w0 + w1 + w3 + w2) * v;
  }

  /** The sum is exactly bilinear: linear along the upper and the lower row, then between the two. */
  lemma SumIsBilinear(xf: nat, yf: nat, a: Byte, b: Byte, c: Byte, d: Byte)
    requires xf < 8 && yf < 8
    ensures Accumulated(xf, yf, a, b, c, d) == (8 - yf) * ((8 - xf) * a + xf * b) + yf * ((8 - xf) * c + xf * d)
  {
    TableIsBilinear(xf, yf);
    Cases(xf);
    Cases(yf);
    Regroup(8 - xf, xf, 8 - yf, yf, a, b, c, d);
  }

  lemma Regroup(p: int, q: int, r: int, s: int, a: int, b: int, c: int, d: int)
    ensures p * r * a + q * r * b + p * s * c + q * s * d == r * (p * a + q * b) + s * (p * c + q * d)
  {
    calc {
      r * (p * a + q * b) + s * (p * c + q * d);
      r * (p * a) + r * (q * b) + s * (p * c) + s * (q * d);
      { assert r * (p * a) == p * r * a && r * (q * b) == q * r * b; }
      p * r * a + q * r * b + s * (p * c) + s * (q * d);
      { assert s * (p * c) == p * s * c && s * (q * d) == q * s * d; }
      p * r * a + q * r * b + p * s * c + q * s * d;
    }
  }

  // ---------------------------------------------------------------- positions

  /** Source distance between output samples, in 512ths. */
  function Factor(inExtent: nat, outExtent: nat): nat
    requires inExtent > 0 && outExtent > 0
  {
    (inExtent - 1) * 512 / outExtent
  }

  /** The source sample at or before output sample `i`, and how many eighths lie between. */
  function Tap(i: nat, factor: nat): nat { i * factor / 512 }

  function Eighths(i: nat, factor: nat): (e: nat)
    ensures e < 8
  {
    i * factor / 64 % 8
  }

  /** Together they are the position in eighths, rounded down. */
  lemma TapAndEighths(i: nat, factor: nat)
    ensures 8 * Tap(i, factor) + Eighths(i, factor) == i * factor / 64
  {
    Split(i * factor);
  }

  lemma Split(p: nat)
    ensures 8 * (p / 512) + p / 64 % 8 == p / 64
  {
  }

  lemma MulMono(x: int, y: int, z: int)
    requires x <= y && z >= 0
    ensures x * z <= y * z
  {
  }

  /** The last position stays below the last source sample. */
  lemma PositionBelow(i: nat, inExtent: nat, outExtent: nat)
    requires inExtent >= 2 && i < outExtent
    ensures i * Factor(inExtent, outExtent) < (inExtent - 1) * 512
  {
    var f := Factor(inExtent, outExtent);
    var span := (inExtent - 1) * 512;
    QuotientBelow(span, outExtent);
    if f == 0 {
      assert i * f == 0;
    } else {
      Strictly(i, outExtent, f);
    }
  }

  lemma QuotientBelow(x: nat, y: nat)
    requires y > 0
    ensures x / y * y <= x && y * (x / y) <= x
  {
  }

  lemma Strictly(i: nat, n: nat, f: nat)
    requires i < n && f > 0
    ensures i * f < n * f && n * f == f * n
  {
    MulMono(i + 1, n, f);
    assert (i + 1) * f == i * f + f;
  }

  /** All four luma taps lie inside the image, for every output size; no product exceeds 32 bits and
      no position 16 bits. */
  lemma LumaTapsInside(i: nat, inExtent: nat, outExtent: nat)
    requires 2 <= inExtent < 0x1_0000 && i < outExtent
    ensures var f := Factor(inExtent, outExtent);
            && Tap(i, f) + 1 <= inExtent - 1
            && (inExtent - 1) * 512 < 0x1_0000_0000 && i * f < 0x1_0000_0000 && Tap(i, f) < 0x1_0000
  {
    PositionBelow(i, inExtent, outExtent);
    Below512(i * Factor(inExtent, outExtent), inExtent - 1);
  }

  lemma Below512(p: nat, n: nat)
    ensures p < n * 512 <==> p / 512 < n
  {
  }

  /** Is the chroma pair after every tap still inside its row? */
  ghost predicate ChromaTapsInside(inExtent: nat, outExtent: nat)
    requires inExtent > 0 && outExtent > 0
  {
    forall i: nat :: i < outExtent / 2 ==> Tap(i, Factor(inExtent, outExtent)) + 1 <= inExtent / 2 - 1
  }

  /** The chroma taps lie inside exactly if the last one does. */
  lemma ChromaInsideExactly(inExtent: nat, outExtent: nat)
    requires inExtent >= 2 && outExtent >= 2
    ensures ChromaTapsInside(inExtent, outExtent)
            <==> (outExtent / 2 - 1) * Factor(inExtent, outExtent) < (inExtent / 2 - 1) * 512
  {
    var n, f, limit := outExtent / 2, Factor(inExtent, outExtent), inExtent / 2 - 1;
    Below512((n - 1) * f, limit);
    if (n - 1) * f < limit * 512 {
      forall i: nat | i < n ensures Tap(i, f) + 1 <= limit {
        MulMono(i, n - 1, f);
        Below512(i * f, limit);
      }
    } else {
      assert !(Tap(n - 1, f) + 1 <= limit);
    }
  }

  /** They do if the input extent is even and half the output extent is below the input extent minus one. */
  lemma ChromaInsideBelowDouble(inExtent: nat, outExtent: nat)
    requires inExtent >= 2 && inExtent % 2 == 0 && outExtent >= 2 && outExtent / 2 < inExtent - 1
    ensures ChromaTapsInside(inExtent, outExtent)
  {
    ChromaInsideExactly(inExtent, outExtent);
    LastChroma(inExtent - 1, outExtent, outExtent / 2, Factor(inExtent, outExtent));
    assert (inExtent / 2 - 1) * 512 == 256 * (inExtent - 2);
  }

  lemma LastChroma(e: nat, outExtent: nat, n: nat, f: nat)
    requires outExtent > 0 && f == e * 512 / outExtent && n == outExtent / 2 && 0 < n < e
    ensures (n - 1) * f < 256 * (e - 1)
  {
    QuotientBelow(e * 512, outExtent);
    MulMono(2 * n, outExtent, f);
    Twice(n, f, 256 * e);
    // (n - 1) / n of 256 e is less than 256 (e - 1), because n < e
    MulMono(n * f, 256 * e, n - 1);
    Commutes(n, f);
    Shares(e, n);
    Cancel((n - 1) * f, 256 * (e - 1), n);
  }

  lemma Twice(n: nat, f: nat, x: nat)
    requires 2 * n * f <= 2 * x
    ensures n * f <= x
  {
    assert 2 * n * f == 2 * (n * f);
  }

  lemma Shares(e: nat, n: nat)
    requires 0 < n < e
    ensures 256 * e * (n - 1) < 256 * (e - 1) * n
  {
    assert 256 * e * (n - 1) == 256 * (e * n) - 256 * e;
    assert 256 * (e - 1) * n == 256 * (e * n) - 256 * n;
  }

  lemma Cancel(x: int, y: int, n: int)
    requires n > 0 && x * n < y * n
    ensures x < y
  {
    if y <= x {
      MulMono(y, x, n);
    }
  }

  lemma Commutes(n: nat, f: nat)
    requires n > 0
    ensures (n - 1) * f * n == n * f * (n - 1)
  {
    assert (n - 1) * f * n == (n - 1) * (f * n);
    assert n * f * (n - 1) == (f * n) * (n - 1);
  }

  /** The bound is tight: one step further the last chroma tap leaves the row. */
  lemma ChromaLeavesAtDouble(inExtent: nat)
    requires inExtent >= 2 && inExtent % 2 == 0
    ensures !ChromaTapsInside(inExtent, 2 * (inExtent - 1))
  {
    var e := inExtent - 1;
    ChromaInsideExactly(inExtent, 2 * e);
    Halved(e);
    assert (inExtent / 2 - 1) * 512 == 256 * (e - 1);
  }

  lemma Halved(e: nat)
    requires e > 0
    ensures e * 512 / (2 * e) == 256
  {
    var d := 2 * e;
    assert e * 512 == 256 * d;
    QuotientOf(256, d);
  }

  lemma QuotientOf(q: nat, d: nat)
    requires d > 0
    ensures q * d / d == q
  {
    var x := q * d / d;
    if x < q {
      MulMono(x + 1, q, d);
    } else if x > q {
      MulMono(q + 1, x, d);
    }
  }

  // ---------------------------------------------------------------- samples and rows

  /** A plane as the pointers see it: some byte at every offset, also beyond the rows. */
  type Plane = nat -> Byte

  /** The output sample whose upper left tap is at `at`; its right neighbour is `step` bytes on. */
  function Sample(src: Plane, at: nat, step: nat, stride: nat, xf: nat, yf: nat): Byte
    requires xf < 8 && yf < 8
  {
    var a, b, c, d := src(at), src(at + step), src(at + stride), src(at + stride + step);
    SampleBetween(xf, yf, a, b, c, d, 0, 255);
    Accumulated(xf, yf, a, b, c, d) / 64
  }

  /** What one call scales by. */
  datatype Scaling = Scaling(stride: nat, factorX: nat, factorY: nat)

  function LumaSample(src: Plane, s: Scaling, row: nat, col: nat): Byte {
    Sample(src, Tap(row, s.factorY) * s.stride + Tap(col, s.factorX), 1, s.stride,
           Eighths(col, s.factorX), Eighths(row, s.factorY))
  }

  /** Cb is at even, Cr at odd offsets. */
  function ChromaSample(src: Plane, s: Scaling, row: nat, col: nat, cr: nat): Byte {
    Sample(src, Tap(row, s.factorY) * s.stride + 2 * Tap(col, s.factorX) + cr, 2, s.stride,
           Eighths(col, s.factorX), Eighths(row, s.factorY))
  }

  /** `n` values one after the other, and `n` pairs of values. */
  function Listed(f: nat -> Byte, n: nat): (r: seq<int>)
    ensures |r| == n
  {
    if n == 0 then [] else Listed(f, n - 1) + [f(n - 1)]
  }

  function Paired(f: nat -> Byte, g: nat -> Byte, n: nat): (r: seq<int>)
    ensures |r| == 2 * n
  {
    if n == 0 then [] else Paired(f, g, n - 1) + [f(n - 1), g(n - 1)]
  }

  lemma {:induction false} ListedAt(f: nat -> Byte, n: nat, i: nat)
    requires i < n
    ensures Listed(f, n)[i] == f(i)
  {
    if i < n - 1 {
      ListedAt(f, n - 1, i);
    }
  }

  lemma {:induction false} PairedAt(f: nat -> Byte, g: nat -> Byte, n: nat, i: nat)
    requires i < n
    ensures Paired(f, g, n)[2 * i] == f(i) && Paired(f, g, n)[2 * i + 1] == g(i)
  {
    if i < n - 1 {
      PairedAt(f, g, n - 1, i);
    }
  }

  /** The first `n` samples of an output row. */
  function LumaRow(src: Plane, s: Scaling, row: nat, n: nat): (r: seq<int>)
    ensures |r| == n
  {
    Listed(col => LumaSample(src, s, row, col), n)
  }

  /** The first `n` pairs of an output chroma row. */
  function ChromaRow(src: Plane, s: Scaling, row: nat, n: nat): (r: seq<int>)
    ensures |r| == 2 * n
  {
    Paired(col => ChromaSample(src, s, row, col, 0), col => ChromaSample(src, s, row, col, 1), n)
  }

  lemma LumaRowAt(src: Plane, s: Scaling, row: nat, n: nat, i: nat)
    requires i < n
    ensures LumaRow(src, s, row, n)[i] == LumaSample(src, s, row, i)
  {
    ListedAt(col => LumaSample(src, s, row, col), n, i);
  }

  lemma ChromaRowAt(src: Plane, s: Scaling, row: nat, n: nat, i: nat)
    requires i < n
    ensures ChromaRow(src, s, row, n)[2 * i] == ChromaSample(src, s, row, i, 0)
    ensures ChromaRow(src, s, row, n)[2 * i + 1] == ChromaSample(src, s, row, i, 1)
  {
    PairedAt(col => ChromaSample(src, s, row, col, 0), col => ChromaSample(src, s, row, col, 1), n, i);
  }

  lemma SampleWithin(src: Plane, at: nat, step: nat, stride: nat, xf: nat, yf: nat, lo: Byte, hi: Byte)
    requires xf < 8 && yf < 8 && lo <= src(at) <= hi && lo <= src(at + step) <= hi
    requires lo <= src(at + stride) <= hi && lo <= src(at + stride + step) <= hi
    ensures lo <= Sample(src, at, step, stride, xf, yf) <= hi
  {
    SampleBetween(xf, yf, src(at), src(at + step), src(at + stride), src(at + stride + step), lo, hi);
  }

  /** A luma sample lies between any bounds on its four sources: pixels (x, y) to (x + 1, y + 1). */
  lemma LumaSampleBetween(src: Plane, s: Scaling, row: nat, col: nat, lo: Byte, hi: Byte)
    requires var at := Tap(row, s.factorY) * s.stride + Tap(col, s.factorX);
             && lo <= src(at) <= hi && lo <= src(at + 1) <= hi
             && lo <= src(at + s.stride) <= hi && lo <= src(at + s.stride + 1) <= hi
    ensures lo <= LumaSample(src, s, row, col) <= hi
  {
    SampleWithin(src, Tap(row, s.factorY) * s.stride + Tap(col, s.factorX), 1, s.stride,
                 Eighths(col, s.factorX), Eighths(row, s.factorY), lo, hi);
  }

  // ---------------------------------------------------------------- what a sample is, in terms of pixels

  function PixelAt(src: Plane, stride: nat, x: nat, y: nat): Byte { src(y * stride + x) }

  /** Of pair `x` in row `y`, the Cb (`cr` == 0) or the Cr value. */
  function PairAt(src: Plane, stride: nat, x: nat, y: nat, cr: nat): Byte { src(y * stride + 2 * x + cr) }

  /** The position of output sample `i` in the source, in eighths, rounded down. */
  function Position(i: nat, inExtent: nat, outExtent: nat): nat
    requires inExtent > 0 && outExtent > 0
  {
    i * ((inExtent - 1) * 512 / outExtent) / 64
  }

  /** Bilinear interpolation of any picture at position (px, py), in eighths, rounded down. */
  function Interpolated(picture: (nat, nat) -> Byte, px: nat, py: nat): int {
    var x, y, xf, yf := px / 8, py / 8, px % 8, py % 8;
    var upper := (8 - xf) * picture(x, y) + xf * picture(x + 1, y);
    var lower := (8 - xf) * picture(x, y + 1) + xf * picture(x + 1, y + 1);
    ((8 - yf) * upper + yf * lower) / 64
  }

  lemma PositionOf(i: nat, factor: nat)
    ensures var p := i * factor / 64; p / 8 == Tap(i, factor) && p % 8 == Eighths(i, factor)
  {
    TapAndEighths(i, factor);
  }

  lemma NextRow(y: nat, stride: nat)
    ensures (y + 1) * stride == y * stride + stride
  {
  }

  /** A sample interpolates the picture that its four taps belong to. */
  lemma SampleMeans(src: Plane, at: nat, step: nat, stride: nat, picture: (nat, nat) -> Byte, px: nat, py: nat)
    requires var x, y := px / 8, py / 8;
             && picture(x, y) == src(at) && picture(x + 1, y) == src(at + step)
             && picture(x, y + 1) == src(at + stride) && picture(x + 1, y + 1) == src(at + stride + step)
    ensures Sample(src, at, step, stride, px % 8, py % 8) == Interpolated(picture, px, py)
  {
    SumIsBilinear(px % 8, py % 8, src(at), src(at + step), src(at + stride), src(at + stride + step));
  }

  /** A luma sample is the image interpolated at its position. */
  lemma LumaSampleMeans(src: Plane, s: Scaling, row: nat, col: nat)
    ensures LumaSample(src, s, row, col)
         == Interpolated((x, y) => PixelAt(src, s.stride, x, y), col * s.factorX / 64, row * s.factorY / 64)
  {
    var x, y := Tap(col, s.factorX), Tap(row, s.factorY);
    PositionOf(col, s.factorX);
    PositionOf(row, s.factorY);
    NextRow(y, s.stride);
    SampleMeans(src, y * s.stride + x, 1, s.stride, (x, y) => PixelAt(src, s.stride, x, y),
                col * s.factorX / 64, row * s.factorY / 64);
  }

  /** A chroma sample is its component, interpolated at its position. */
  lemma ChromaSampleMeans(src: Plane, s: Scaling, row: nat, col: nat, cr: nat)
    ensures ChromaSample(src, s, row, col, cr)
         == Interpolated((x, y) => PairAt(src, s.stride, x, y, cr), col * s.factorX / 64, row * s.factorY / 64)
  {
    var x, y := Tap(col, s.factorX), Tap(row, s.factorY);
    PositionOf(col, s.factorX);
    PositionOf(row, s.factorY);
    NextRow(y, s.stride);
    SampleMeans(src, y * s.stride + 2 * x + cr, 2, s.stride, (x, y) => PairAt(src, s.stride, x, y, cr),
                col * s.factorX / 64, row * s.factorY / 64);
  }

  // ---------------------------------------------------------------- output rows

  /** Output row `r` is in place, rows being `step` bytes apart. */
  ghost predicate RowDone(out: seq<int>, step: nat, r: nat, row: seq<int>) {
    P.Times(r, step) + |row| <= |out| && P.Row(out, step, |row|, r) == row
  }

  lemma RowKept(before: seq<int>, after: seq<int>, d: nat, step: nat, r: nat, row: seq<int>)
    requires RowDone(before, step, r, row) && P.Times(r, step) + |row| <= d
    requires |after| == |before| && d <= |before| && after[..d] == before[..d]
    ensures RowDone(after, step, r, row)
  {
    assert after[P.Times(r, step)..P.Times(r, step) + |row|] == after[..d][P.Times(r, step)..P.Times(r, step) + |row|];
  }

  /** The first `n` rows are in place. */
  ghost predicate RowsDone(out: seq<int>, step: nat, rows: nat -> seq<int>, n: nat) {
    forall r: nat :: r < n ==> RowDone(out, step, r, rows(r))
  }

  /** Writing a row behind the others keeps them. */
  lemma {:induction false} RowsStep(before: seq<int>, after: seq<int>, step: nat, rows: nat -> seq<int>, n: nat,
                                    width: nat)
    requires RowsDone(before, step, rows, n) && (forall r: nat :: |rows(r)| == width) && width <= step
    requires |after| == |before| && P.Times(n, step) + width <= |before|
    requires after[..P.Times(n, step)] == before[..P.Times(n, step)]
    requires after[P.Times(n, step)..P.Times(n, step) + width] == rows(n)
    ensures RowsDone(after, step, rows, n + 1)
  {
    forall r: nat | r < n ensures RowDone(after, step, r, rows(r)) {
      P.Mono(r + 1, n, step);
      RowKept(before, after, P.Times(n, step), step, r, rows(r));
    }
  }

  /** The rows of the output planes. */
  function LumaRows(src: Plane, s: Scaling, width: nat): (rows: nat -> seq<int>)
    ensures forall r: nat :: |rows(r)| == width
  {
    (r: nat) => LumaRow(src, s, r, width)
  }

  function ChromaRows(src: Plane, s: Scaling, pairs: nat): (rows: nat -> seq<int>)
    ensures forall r: nat :: |rows(r)| == 2 * pairs
  {
    (r: nat) => ChromaRow(src, s, r, pairs)
  }

  // ---------------------------------------------------------------- the loops

  method ResizeLumaRow(src: Plane, s: Scaling, row: nat, width: nat, out: array<int>, d: nat)
    requires d + width <= out.Length
    modifies out
    ensures out[..d] == old(out[..d]) && out[d..d + width] == LumaRow(src, s, row, width)
  {
    WriteColumns(col => LumaSample(src, s, row, col), width, out, d);
  }

  /** The column loop, for whatever computes a sample. */
  method WriteColumns(sample: nat -> Byte, width: nat, out: array<int>, d: nat)
    requires d + width <= out.Length
    modifies out
    ensures out[..d] == old(out[..d]) && out[d..d + width] == Listed(sample, width)
  {
    var ptr := d;
    for col := 0 to width
      invariant ptr == d + col && out[..d] == old(out[..d])
      invariant out[d..ptr] == Listed(sample, col)
    {
      out[ptr] := sample(col);
      assert out[d..ptr + 1] == out[d..ptr] + [out[ptr]];
      ptr := ptr + 1;
    }
  }

  method ResizeLuma(src: Plane, s: Scaling, width: nat, height: nat, out: array<int>, outStride: nat)
    requires width <= outStride && P.Fits(out.Length, outStride, width, height)
    modifies out
    ensures RowsDone(out[..], outStride, LumaRows(src, s, width), height)
  {
    var ptr: nat := 0;
    for row := 0 to height
      invariant ptr == P.Times(row, outStride)
      invariant RowsDone(out[..], outStride, LumaRows(src, s, width), row)
    {
      P.RowFits(out.Length, outStride, width, height, row);
      ghost var before := out[..];
      ResizeLumaRow(src, s, row, width, out, ptr);
      RowsStep(before, out[..], outStride, LumaRows(src, s, width), row, width);
      ptr := ptr + width + (outStride - width);
    }
  }

  method ResizeChromaRow(src: Plane, s: Scaling, row: nat, pairs: nat, out: array<int>, d: nat)
    requires d + 2 * pairs <= out.Length
    modifies out
    ensures out[..d] == old(out[..d]) && out[d..d + 2 * pairs] == ChromaRow(src, s, row, pairs)
  {
    WritePairs(col => ChromaSample(src, s, row, col, 0), col => ChromaSample(src, s, row, col, 1), pairs, out, d);
  }

  /** The column loop over Cb and Cr. */
  method WritePairs(cb: nat -> Byte, cr: nat -> Byte, pairs: nat, out: array<int>, d: nat)
    requires d + 2 * pairs <= out.Length
    modifies out
    ensures out[..d] == old(out[..d]) && out[d..d + 2 * pairs] == Paired(cb, cr, pairs)
  {
    var ptrCb, ptrCr := d, d + 1;
    for col := 0 to pairs
      invariant ptrCb == d + 2 * col && ptrCr == ptrCb + 1 && out[..d] == old(out[..d])
      invariant out[d..ptrCb] == Paired(cb, cr, col)
    {
      out[ptrCb] := cb(col);
      out[ptrCr] := cr(col);
      assert out[d..ptrCb + 2] == out[d..ptrCb] + [out[ptrCb], out[ptrCr]];
      ptrCb, ptrCr := ptrCb + 1, ptrCr + 1;
      ptrCb, ptrCr := ptrCb + 1, ptrCr + 1;
    }
  }

  /** Chroma rows follow each other at the stride, less one byte if the output width is odd. */
  method ResizeChroma(src: Plane, s: Scaling, width: nat, height: nat, out: array<int>, outStride: nat)
    requires width <= outStride && P.Fits(out.Length, outStride, width, height / 2)
    modifies out
    ensures RowsDone(out[..], outStride - width % 2, ChromaRows(src, s, width / 2), height / 2)
  {
    ResizePairs(src, s, width / 2, width % 2, height / 2, out, outStride);
  }

  method ResizePairs(src: Plane, s: Scaling, pairs: nat, odd: nat, rows: nat, out: array<int>, outStride: nat)
    requires odd <= 1 && 2 * pairs + odd <= outStride && P.Fits(out.Length, outStride, 2 * pairs + odd, rows)
    modifies out
    ensures RowsDone(out[..], outStride - odd, ChromaRows(src, s, pairs), rows)
  {
    var step := outStride - odd;
    var ptr: nat := 0;
    for row := 0 to rows
      invariant ptr == P.Times(row, step)
      invariant RowsDone(out[..], step, ChromaRows(src, s, pairs), row)
    {
      P.RowFits(out.Length, outStride, 2 * pairs + odd, rows, row);
      P.MonoSize(row, step, outStride);
      AddChromaRow(src, s, row, pairs, out, ptr, step);
      ptr := ptr + 2 * pairs + (outStride - (2 * pairs + odd));
    }
  }

  method AddChromaRow(src: Plane, s: Scaling, row: nat, pairs: nat, out: array<int>, ptr: nat, step: nat)
    requires 2 * pairs <= step && RowsDone(out[..], step, ChromaRows(src, s, pairs), row)
    requires ptr == P.Times(row, step) && ptr + 2 * pairs <= out.Length
    modifies out
    ensures RowsDone(out[..], step, ChromaRows(src, s, pairs), row + 1)
  {
    ghost var before := out[..];
    ResizeChromaRow(src, s, row, pairs, out, ptr);
    RowsStep(before, out[..], step, ChromaRows(src, s, pairs), row, 2 * pairs);
  }

  // ---------------------------------------------------------------- the whole call

  datatype Image = Image(width: nat, height: nat, stride: nat, nv12: bool)

  predicate Acceptable(i: Image, o: Image) {
    i.width >= 1 && i.height >= 1 && i.stride >= 1 && i.nv12 && o.nv12
  }

  function ScalingOf(i: Image, o: Image): Scaling
    requires i.width >= 1 && i.height >= 1 && o.width > 0 && o.height > 0
  {
    Scaling(i.stride, Factor(i.width, o.width), Factor(i.height, o.height))
  }

  /** Every luma byte of the output is the input image, interpolated at its position. */
  ghost predicate LumaIs(i: Image, luma: Plane, o: Image, out: seq<int>)
    requires i.width >= 1 && i.height >= 1
  {
    forall r: nat, c: nat :: r < o.height && c < o.width ==> LumaByteIs(i, luma, o, out, r, c)
  }

  ghost predicate LumaByteIs(i: Image, luma: Plane, o: Image, out: seq<int>, r: nat, c: nat)
    requires i.width >= 1 && i.height >= 1 && r < o.height && c < o.width
  {
    var at := P.Times(r, o.stride) + c;
    at < |out| && out[at] == Interpolated((x, y) => PixelAt(luma, i.stride, x, y),
                                          Position(c, i.width, o.width), Position(r, i.height, o.height))
  }

  /** Every chroma byte is its component, interpolated, rows being `step` bytes apart. */
  ghost predicate ChromaIs(i: Image, chroma: Plane, o: Image, out: seq<int>, step: nat)
    requires i.width >= 1 && i.height >= 1 && o.width > 0
  {
    forall r: nat, c: nat, cr: nat ::
      r < o.height / 2 && c < o.width / 2 && cr < 2 ==> ChromaByteIs(i, chroma, o, out, step, r, c, cr)
  }

  ghost predicate ChromaByteIs(i: Image, chroma: Plane, o: Image, out: seq<int>, step: nat, r: nat, c: nat, cr: nat)
    requires i.width >= 1 && i.height >= 1 && o.width > 0 && o.height > 0
  {
    var at := P.Times(r, step) + 2 * c + cr;
    at < |out| && out[at] == Interpolated((x, y) => PairAt(chroma, i.stride, x, y, cr),
                                          Position(c, i.width, o.width), Position(r, i.height, o.height))
  }

  lemma RowsAreLuma(i: Image, luma: Plane, o: Image, out: seq<int>)
    requires i.width >= 1 && i.height >= 1 && o.width > 0 && o.height > 0
    requires RowsDone(out, o.stride, LumaRows(luma, ScalingOf(i, o), o.width), o.height)
    ensures LumaIs(i, luma, o, out)
  {
    forall r: nat, c: nat | r < o.height && c < o.width ensures LumaByteIs(i, luma, o, out, r, c) {
      LumaWritten(out, o.stride, luma, ScalingOf(i, o), o.width, o.height, r, c);
      LumaMeans(i, luma, o, r, c);
    }
  }

  lemma RowsAreChroma(i: Image, chroma: Plane, o: Image, out: seq<int>, step: nat, pairs: nat)
    requires i.width >= 1 && i.height >= 1 && o.width > 0 && o.height > 0 && pairs == o.width / 2
    requires RowsDone(out, step, ChromaRows(chroma, ScalingOf(i, o), pairs), o.height / 2)
    ensures ChromaIs(i, chroma, o, out, step)
  {
    forall r: nat, c: nat, cr: nat | r < o.height / 2 && c < o.width / 2 && cr < 2
      ensures ChromaByteIs(i, chroma, o, out, step, r, c, cr)
    {
      ByteIsChroma(i, chroma, o, out, step, pairs, r, c, cr);
    }
  }

  lemma ByteIsChroma(i: Image, chroma: Plane, o: Image, out: seq<int>, step: nat, pairs: nat, r: nat, c: nat, cr: nat)
    requires i.width >= 1 && i.height >= 1 && o.width > 0 && o.height > 0
    requires RowsDone(out, step, ChromaRows(chroma, ScalingOf(i, o), pairs), o.height / 2)
    requires r < o.height / 2 && c < pairs && cr < 2
    ensures ChromaByteIs(i, chroma, o, out, step, r, c, cr)
  {
    ChromaWritten(out, step, chroma, ScalingOf(i, o), pairs, o.height / 2, r, c, cr);
    ChromaMeans(i, chroma, o, r, c, cr);
  }

  lemma ChromaMeans(i: Image, chroma: Plane, o: Image, r: nat, c: nat, cr: nat)
    requires i.width >= 1 && i.height >= 1 && o.width > 0 && o.height > 0
    ensures ChromaSample(chroma, ScalingOf(i, o), r, c, cr)
         == Interpolated((x, y) => PairAt(chroma, i.stride, x, y, cr),
                         Position(c, i.width, o.width), Position(r, i.height, o.height))
  {
    ChromaSampleMeans(chroma, ScalingOf(i, o), r, c, cr);
  }

  lemma LumaMeans(i: Image, luma: Plane, o: Image, r: nat, c: nat)
    requires i.width >= 1 && i.height >= 1 && o.width > 0 && o.height > 0
    ensures LumaSample(luma, ScalingOf(i, o), r, c)
         == Interpolated((x, y) => PixelAt(luma, i.stride, x, y),
                         Position(c, i.width, o.width), Position(r, i.height, o.height))
  {
    LumaSampleMeans(luma, ScalingOf(i, o), r, c);
  }

  /** Resizes luma and chroma planes, or reports an unusable input and leaves the output alone. */
  method ResizeFrame(i: Image, luma: Plane, chroma: Plane, o: Image, outLuma: array<int>,
                     outChroma: array<int>) returns (ok: bool)
    requires o.width > 0 && o.height > 0 && o.width <= o.stride && outLuma != outChroma
    requires P.Fits(outLuma.Length, o.stride, o.width, o.height)
    requires P.Fits(outChroma.Length, o.stride, o.width, o.height / 2)
    modifies outLuma, outChroma
    ensures ok == Acceptable(i, o)
    ensures ok <==> i.width > 0 && i.height > 0 && i.stride > 0 && i.nv12 && o.nv12
    ensures ok ==> RowsDone(outLuma[..], o.stride, LumaRows(luma, ScalingOf(i, o), o.width), o.height)
    ensures ok ==> RowsDone(outChroma[..], o.stride - o.width % 2,
                            ChromaRows(chroma, ScalingOf(i, o), o.width / 2), o.height / 2)
    ensures ok ==> LumaIs(i, luma, o, outLuma[..])
    ensures ok ==> ChromaIs(i, chroma, o, outChroma[..], o.stride - o.width % 2)
    ensures !ok ==> outLuma[..] == old(outLuma[..]) && outChroma[..] == old(outChroma[..])
  {
    if i.width < 1 || i.height < 1 || i.stride < 1 {
      return false;
    }
    var s := Scaling(i.stride, Factor(i.width, o.width), Factor(i.height, o.height));
    if !i.nv12 || !o.nv12 {
      return false;
    }
    ResizePlanes(s, luma, chroma, o, outLuma, outChroma);
    RowsAreLuma(i, luma, o, outLuma[..]);
    RowsAreChroma(i, chroma, o, outChroma[..], o.stride - o.width % 2, o.width / 2);
    return true;
  }

  method ResizePlanes(s: Scaling, luma: Plane, chroma: Plane, o: Image, outLuma: array<int>, outChroma: array<int>)
    requires o.width <= o.stride && outLuma != outChroma
    requires P.Fits(outLuma.Length, o.stride, o.width, o.height)
    requires P.Fits(outChroma.Length, o.stride, o.width, o.height / 2)
    modifies outLuma, outChroma
    ensures RowsDone(outLuma[..], o.stride, LumaRows(luma, s, o.width), o.height)
    ensures RowsDone(outChroma[..], o.stride - o.width % 2, ChromaRows(chroma, s, o.width / 2), o.height / 2)
  {
    ResizeLuma(luma, s, o.width, o.height, outLuma, o.stride);
    ghost var done := outLuma[..];
    ResizeChroma(chroma, s, o.width, o.height, outChroma, o.stride);
    assert outLuma[..] == done;
  }

  /** A chroma sample lies between any bounds on the four samples of its component. */
  lemma ChromaSampleBetween(src: Plane, s: Scaling, row: nat, col: nat, cr: nat, lo: Byte, hi: Byte)
    requires var at := Tap(row, s.factorY) * s.stride + 2 * Tap(col, s.factorX) + cr;
             && lo <= src(at) <= hi && lo <= src(at + 2) <= hi
             && lo <= src(at + s.stride) <= hi && lo <= src(at + s.stride + 2) <= hi
    ensures lo <= ChromaSample(src, s, row, col, cr) <= hi
  {
    SampleWithin(src, Tap(row, s.factorY) * s.stride + 2 * Tap(col, s.factorX) + cr, 2, s.stride,
                 Eighths(col, s.factorX), Eighths(row, s.factorY), lo, hi);
  }

  // ---------------------------------------------------------------- the bytes written

  lemma RowByte(out: seq<int>, step: nat, r: nat, row: seq<int>, i: nat)
    requires RowDone(out, step, r, row) && i < |row|
    ensures P.Times(r, step) + i < |out| && out[P.Times(r, step) + i] == row[i]
  {
    assert P.Row(out, step, |row|, r)[i] == out[P.Times(r, step) + i];
  }

  /** What a resized luma plane holds at row `r`, column `c`. */
  lemma LumaWritten(out: seq<int>, step: nat, src: Plane, s: Scaling, width: nat, height: nat, r: nat, c: nat)
    requires RowsDone(out, step, LumaRows(src, s, width), height) && r < height && c < width
    ensures P.Times(r, step) + c < |out| && out[P.Times(r, step) + c] == LumaSample(src, s, r, c)
  {
    LumaRowAt(src, s, r, width, c);
    RowByte(out, step, r, LumaRows(src, s, width)(r), c);
  }

  lemma {:induction false} ChromaRowByte(src: Plane, s: Scaling, row: nat, n: nat, i: nat, cr: nat)
    requires i < n && cr < 2
    ensures ChromaRow(src, s, row, n)[2 * i + cr] == ChromaSample(src, s, row, i, cr)
  {
    ChromaRowAt(src, s, row, n, i);
  }

  /** What a resized chroma plane holds at row `r`, pair `c`. */
  lemma {:induction false} ChromaWritten(out: seq<int>, step: nat, src: Plane, s: Scaling, pairs: nat, rows: nat,
                                         r: nat, c: nat, cr: nat)
    requires RowsDone(out, step, ChromaRows(src, s, pairs), rows) && r < rows && c < pairs && cr < 2
    ensures P.Times(r, step) + 2 * c + cr < |out|
    ensures out[P.Times(r, step) + 2 * c + cr] == ChromaSample(src, s, r, c, cr)
  {
    RowByte(out, step, r, ChromaRows(src, s, pairs)(r), 2 * c + cr);
    ChromaRowByte(src, s, r, pairs, c, cr);
  }

  /** Where the chroma taps lie inside, every chroma sample of the output lies between the least and the
      greatest value of its component in the input image. */
  lemma ChromaIsInterpolated(i: Image, chroma: Plane, o: Image, row: nat, col: nat, cr: nat, lo: Byte, hi: Byte)
    requires i.width >= 1 && i.height >= 1 && o.width > 0 && o.height > 0 && cr < 2
    requires ChromaTapsInside(i.width, o.width) && ChromaTapsInside(i.height, o.height)
    requires row < o.height / 2 && col < o.width / 2
    requires forall x: nat, y: nat ::
               x < i.width / 2 && y < i.height / 2 ==> lo <= PairAt(chroma, i.stride, x, y, cr) <= hi
    ensures lo <= ChromaSample(chroma, ScalingOf(i, o), row, col, cr) <= hi
  {
    var s := ScalingOf(i, o);
    var x, y := Tap(col, s.factorX), Tap(row, s.factorY);
    assert x + 1 <= i.width / 2 - 1 && y + 1 <= i.height / 2 - 1;
    assert (y + 1) * i.stride == y * i.stride + i.stride;
    assert lo <= PairAt(chroma, i.stride, x, y, cr) <= hi && lo <= PairAt(chroma, i.stride, x + 1, y, cr) <= hi;
    assert lo <= PairAt(chroma, i.stride, x, y + 1, cr) <= hi && lo <= PairAt(chroma, i.stride, x + 1, y + 1, cr) <= hi;
    ChromaSampleBetween(chroma, s, row, col, cr, lo, hi);
  }

  /** For images of at least two rows and columns, every luma sample of the output is interpolated
      between four pixels of the input image, and lies between the least and the greatest of them. */
  lemma LumaIsInterpolated(i: Image, luma: Plane, o: Image, row: nat, col: nat, lo: Byte, hi: Byte)
    requires 2 <= i.width < 0x1_0000 && 2 <= i.height < 0x1_0000 && row < o.height && col < o.width
    requires forall x: nat, y: nat :: x < i.width && y < i.height ==> lo <= PixelAt(luma, i.stride, x, y) <= hi
    ensures lo <= LumaSample(luma, ScalingOf(i, o), row, col) <= hi
  {
    var s := ScalingOf(i, o);
    LumaTapsInside(row, i.height, o.height);
    LumaTapsInside(col, i.width, o.width);
    var x, y := Tap(col, s.factorX), Tap(row, s.factorY);
    assert (y + 1) * i.stride == y * i.stride + i.stride;
    assert lo <= PixelAt(luma, i.stride, x, y) <= hi && lo <= PixelAt(luma, i.stride, x + 1, y) <= hi;
    assert lo <= PixelAt(luma, i.stride, x, y + 1) <= hi && lo <= PixelAt(luma, i.stride, x + 1, y + 1) <= hi;
    LumaSampleBetween(luma, s, row, col, lo, hi);
  }

  /** The luma plane that the call leaves: for images of at least two rows and columns, every byte of the
      output image lies between the least and the greatest luma value of the input image. */
  lemma LumaBytesInterpolated(i: Image, luma: Plane, o: Image, out: seq<int>, row: nat, col: nat, lo: Byte, hi: Byte)
    requires 2 <= i.width < 0x1_0000 && 2 <= i.height < 0x1_0000 && row < o.height && col < o.width
    requires RowsDone(out, o.stride, LumaRows(luma, ScalingOf(i, o), o.width), o.height)
    requires forall x: nat, y: nat :: x < i.width && y < i.height ==> lo <= PixelAt(luma, i.stride, x, y) <= hi
    ensures P.Times(row, o.stride) + col < |out| && lo <= out[P.Times(row, o.stride) + col] <= hi
  {
    LumaWritten(out, o.stride, luma, ScalingOf(i, o), o.width, o.height, row, col);
    LumaIsInterpolated(i, luma, o, row, col, lo, hi);
  }

  /** The chroma plane that the call leaves, rows being one byte closer if the output width is odd: where
      the taps lie inside, every byte lies between the bounds of its component in the input image. */
  lemma ChromaBytesInterpolated(i: Image, chroma: Plane, o: Image, out: seq<int>, row: nat, col: nat, cr: nat,
                                lo: Byte, hi: Byte)
    requires i.width >= 1 && i.height >= 1 && o.width > 0 && o.height > 0 && cr < 2 && o.width <= o.stride
    requires ChromaTapsInside(i.width, o.width) && ChromaTapsInside(i.height, o.height)
    requires row < o.height / 2 && col < o.width / 2
    requires RowsDone(out, o.stride - o.width % 2, ChromaRows(chroma, ScalingOf(i, o), o.width / 2), o.height / 2)
    requires forall x: nat, y: nat ::
               x < i.width / 2 && y < i.height / 2 ==> lo <= PairAt(chroma, i.stride, x, y, cr) <= hi
    ensures var at := P.Times(row, o.stride - o.width % 2) + 2 * col + cr; at < |out| && lo <= out[at] <= hi
  {
    ChromaWritten(out, o.stride - o.width % 2, chroma, ScalingOf(i, o), o.width / 2, o.height / 2, row, col, cr);
    ChromaIsInterpolated(i, chroma, o, row, col, cr, lo, hi);
  }

  // ---------------------------------------------------------------- where chroma rows belong

  /** A chroma plane as the call leaves it. */
  ghost predicate ChromaResized(i: Image, chroma: Plane, o: Image, out: seq<int>)
    requires Acceptable(i, o) && o.width > 0 && o.height > 0 && o.width <= o.stride
  {
    && P.Fits(|out|, o.stride, o.width, o.height / 2)
    && RowsDone(out, o.stride - o.width % 2, ChromaRows(chroma, ScalingOf(i, o), o.width / 2), o.height / 2)
  }

  ghost predicate SampleInPlace(out: seq<int>, stride: nat, src: Plane, s: Scaling, r: nat, c: nat, cr: nat) {
    var at := P.Times(r, stride) + 2 * c + cr; at < |out| && out[at] == ChromaSample(src, s, r, c, cr)
  }

  /** Every sample is where a reader of the output image looks for it: rows begin a stride apart. */
  ghost predicate ChromaInPlace(i: Image, chroma: Plane, o: Image, out: seq<int>)
    requires Acceptable(i, o) && o.width > 0 && o.height > 0
  {
    forall r: nat, c: nat, cr: nat ::
      r < o.height / 2 && c < o.width / 2 && cr < 2 ==> SampleInPlace(out, o.stride, chroma, ScalingOf(i, o), r, c, cr)
  }

  /** Rows of one width can be laid out a step apart. */
  lemma {:induction false} LaidOut(rows: nat -> seq<int>, width: nat, step: nat, n: nat, size: nat)
    returns (out: seq<int>)
    requires (forall r: nat :: |rows(r)| == width) && width <= step && P.Fits(size, step, width, n)
    ensures |out| == size && RowsDone(out, step, rows, n)
  {
    if n == 0 {
      out := seq(size, k => 0);
    } else {
      if n > 1 {
        P.RowFits(size, step, width, n, n - 2);
      }
      var before := LaidOut(rows, width, step, n - 1, size);
      var d := P.Times(n - 1, step);
      out := before[..d] + rows(n - 1) + before[d + width..];
      RowsStep(before, out, step, rows, n - 1, width);
    }
  }

  /** A single bright byte. */
  function Dot(at: nat): Plane { k => if k == at then 255 else 0 }

  /** It shows in the component it belongs to, and not in the other one. */
  lemma DotShows(s: Scaling, r: nat)
    requires s.stride >= 1
    ensures var src := Dot(Tap(r, s.factorY) * s.stride + 2 * Tap(0, s.factorX));
            ChromaSample(src, s, r, 0, 0) > 0 && ChromaSample(src, s, r, 0, 1) == 0
  {
    var at := Tap(r, s.factorY) * s.stride + 2 * Tap(0, s.factorX);
    ChromaSampleBetween(Dot(at), s, r, 0, 1, 0, 0);
    SumIsBilinear(Eighths(0, s.factorX), Eighths(r, s.factorY), 255, 0, 0, 0);
    Bright(8 - Eighths(r, s.factorY));
  }

  lemma Bright(w: nat)
    requires w >= 1
    ensures w * (8 * 255) >= 2040
  {
  }

  /** Rows one byte closer than the stride: a reader who looks for the first Cb sample of row 1 finds the
      first Cr sample. */
  lemma {:induction false} CrForCb(out: seq<int>, chroma: Plane, s: Scaling, pairs: nat, rows: nat, stride: nat)
    requires ChromaSample(chroma, s, 1, 0, 0) != ChromaSample(chroma, s, 1, 0, 1)
    requires 0 < 2 * pairs < stride && rows > 1 && RowsDone(out, stride - 1, ChromaRows(chroma, s, pairs), rows)
    ensures !SampleInPlace(out, stride, chroma, s, 1, 0, 0)
  {
    ChromaWritten(out, stride - 1, chroma, s, pairs, rows, 1, 0, 1);
    P.TimesIsProduct(1, stride);
    P.TimesIsProduct(1, stride - 1);
  }

  lemma {:induction false} DriftedPlane(s: Scaling, pairs: nat, rows: nat, stride: nat)
    returns (chroma: Plane, out: seq<int>)
    requires s.stride >= 1 && 0 < 2 * pairs < stride && rows > 1
    ensures P.Fits(|out|, stride, 2 * pairs + 1, rows) && RowsDone(out, stride - 1, ChromaRows(chroma, s, pairs), rows)
    ensures !SampleInPlace(out, stride, chroma, s, 1, 0, 0)
  {
    chroma := Dot(Tap(1, s.factorY) * s.stride + 2 * Tap(0, s.factorX));
    P.MonoSize(rows - 1, stride - 1, stride);
    var size := P.Times(rows - 1, stride) + 2 * pairs + 1;
    out := LaidOut(ChromaRows(chroma, s, pairs), 2 * pairs, stride - 1, rows, size);
    DotShows(s, 1);
    CrForCb(out, chroma, s, pairs, rows, stride);
  }

  lemma NotInPlace(i: Image, chroma: Plane, o: Image, out: seq<int>)
    requires Acceptable(i, o) && 1 < o.width && o.height / 2 > 1
    requires !SampleInPlace(out, o.stride, chroma, ScalingOf(i, o), 1, 0, 0)
    ensures !ChromaInPlace(i, chroma, o, out)
  {
  }

  /** With several rows of an odd width beyond one, the second row begins a byte early. */
  lemma OddWidthDrifts(i: Image, o: Image) returns (chroma: Plane, out: seq<int>)
    requires Acceptable(i, o) && 1 < o.width <= o.stride && o.width % 2 == 1 && o.height / 2 > 1
    ensures ChromaResized(i, chroma, o, out) && !ChromaInPlace(i, chroma, o, out)
  {
    var pairs := o.width / 2;
    assert o.width == 2 * pairs + 1;
    chroma, out := DriftedPlane(ScalingOf(i, o), pairs, o.height / 2, o.stride);
    NotInPlace(i, chroma, o, out);
  }

  /** The condition, known before the call. */
  predicate ChromaStays(o: Image) { o.width % 2 == 0 || o.width == 1 || o.height / 2 <= 1 }

  lemma SampleStays(i: Image, chroma: Plane, o: Image, out: seq<int>, r: nat, c: nat, cr: nat)
    requires Acceptable(i, o) && 0 < o.width <= o.stride && o.height > 0 && ChromaStays(o)
    requires ChromaResized(i, chroma, o, out) && r < o.height / 2 && c < o.width / 2 && cr < 2
    ensures SampleInPlace(out, o.stride, chroma, ScalingOf(i, o), r, c, cr)
  {
    var step := o.stride - o.width % 2;
    ChromaWritten(out, step, chroma, ScalingOf(i, o), o.width / 2, o.height / 2, r, c, cr);
    assert r == 0 || step == o.stride;
  }

  lemma ChromaStaysInPlace(i: Image, chroma: Plane, o: Image, out: seq<int>)
    requires Acceptable(i, o) && 0 < o.width <= o.stride && o.height > 0 && ChromaStays(o)
    requires ChromaResized(i, chroma, o, out)
    ensures ChromaInPlace(i, chroma, o, out)
  {
    forall r: nat, c: nat, cr: nat | r < o.height / 2 && c < o.width / 2 && cr < 2
      ensures SampleInPlace(out, o.stride, chroma, ScalingOf(i, o), r, c, cr)
    {
      SampleStays(i, chroma, o, out, r, c, cr);
    }
  }

  /** Whatever the image, every chroma sample is where it belongs, if and only if the output width is even,
      or has no pairs, or there is one chroma row at most. */
  lemma ChromaInPlaceExactly(i: Image, o: Image)
    requires Acceptable(i, o) && 0 < o.width <= o.stride && o.height > 0
    ensures (forall chroma: Plane, out: seq<int> ::
               ChromaResized(i, chroma, o, out) ==> ChromaInPlace(i, chroma, o, out)) <==> ChromaStays(o)
  {
    if ChromaStays(o) {
      forall chroma: Plane, out: seq<int> | ChromaResized(i, chroma, o, out) ensures ChromaInPlace(i, chroma, o, out) {
        ChromaStaysInPlace(i, chroma, o, out);
      }
    } else {
      var chroma, out := OddWidthDrifts(i, o);
    }
  }

  /** An image enlarged from 2 by 4 to 3 by 4. */
  lemma ThreeColumnsDrift() returns (chroma: Plane, out: seq<int>)
    ensures var i, o := Image(2, 4, 2, true), Image(3, 4, 3, true);
            ChromaResized(i, chroma, o, out) && !ChromaInPlace(i, chroma, o, out)
  {
    chroma, out := OddWidthDrifts(Image(2, 4, 2, true), Image(3, 4, 3, true));
  }
}
