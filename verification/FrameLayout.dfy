/**
 Where the bytes of a frame lie: strides, buffer sizes and plane offsets of the four
 4:2:0 formats, as the devices lay them out and as the converters look for them.
 */
module FrameLayout {

  type byte = b: int | 0 <= b < 256

  // YV12 is V4L2_PIX_FMT_YVU420 and YU12 is V4L2_PIX_FMT_YUV420.
  datatype PixelFormat = YV12 | YU12 | NV12 | NV21 | OtherPixelFormat

  // ----- Alignment -----

  function Pow2(k: nat): (r: nat)
    ensures r > 0
  {
    if k == 0 then 1 else 2 * Pow2(k - 1)
  }

  // Bit by bit.
  function BitAnd(a: nat, b: nat): nat {
    if a == 0 || b == 0 then 0 else 2 * BitAnd(a / 2, b / 2) + (if a % 2 == 1 && b % 2 == 1 then 1 else 0)
  }

  const WORD := 0x1_0000_0000

  // The expression of Alignment.h on 32-bit words.
  function Align(value: nat, alignment: nat): nat
    requires 0 < alignment <= WORD
  {
    BitAnd((value + alignment - 1) % WORD, WORD - 1 - (alignment - 1))
  }

  // The lowest k bits are clear.
  predicate Aligned(r: nat, k: nat) {
    k == 0 || (r % 2 == 0 && Aligned(r / 2, k - 1))
  }

  lemma {:induction false} MaskKeeps(x: nat, n: nat)
    requires x < Pow2(n)
    ensures BitAnd(x, Pow2(n) - 1) == x
  {
    if n > 0 {
      MaskKeeps(x / 2, n - 1);
      assert (Pow2(n) - 1) / 2 == Pow2(n - 1) - 1;
    }
  }

  lemma MaskEven(x: nat, m: nat)
    ensures BitAnd(x, 2 * m) == 2 * BitAnd(x / 2, m)
  {
  }

  lemma {:induction false} MaskClears(x: nat, n: nat, k: nat)
    requires k <= n && x < Pow2(n)
    ensures Pow2(k) <= Pow2(n)
    ensures var r := BitAnd(x, Pow2(n) - Pow2(k)); Aligned(r, k) && r <= x < r + Pow2(k)
  {
    if k == 0 {
      MaskKeeps(x, n);
    } else {
      MaskClears(x / 2, n - 1, k - 1);
      var mask := Pow2(n - 1) - Pow2(k - 1);
      MaskEven(x, mask);
      DoubledAligned(BitAnd(x / 2, mask), x, k, Pow2(k - 1));
      assert Pow2(n) - Pow2(k) == 2 * mask;
    }
  }

  lemma DoubledAligned(low: nat, x: nat, k: nat, m: nat)
    requires k > 0 && Aligned(low, k - 1) && low <= x / 2 < low + m
    ensures Aligned(2 * low, k) && 2 * low <= x < 2 * low + 2 * m
  {
  }

  lemma WordIsPow2()
    ensures Pow2(32) == WORD
  {
    assert Pow2(8) == 256 && Pow2(16) == 65536 && Pow2(24) == 16777216;
  }

  /** For a power of two, and as long as the addition does not wrap, the masked value is the
      least multiple of the alignment that is not below the value. */
  lemma AlignIsLeastMultiple(value: nat, k: nat, alignment: nat)
    requires k <= 32 && alignment == Pow2(k) && value + alignment - 1 < WORD
    ensures alignment <= WORD
    ensures var r := Align(value, alignment); Aligned(r, k) && value <= r < value + alignment
  {
    var x := value + alignment - 1;
    assert x % WORD == x;
    WordIsPow2();
    MaskClears(x, 32, k);
    assert Align(value, alignment) == BitAnd(x, Pow2(32) - Pow2(k));
  }

  // The one alignment in use, without the word size.
  function Align16(value: nat): (r: nat)
    ensures r % 16 == 0 && value <= r < value + 16
  {
    (value + 15) / 16 * 16
  }

  lemma AlignedFour(r: nat)
    requires Aligned(r, 4)
    ensures r % 16 == 0
  {
    assert Aligned(r / 2, 3) && Aligned(r / 2 / 2, 2) && Aligned(r / 2 / 2 / 2, 1);
  }

  /** It is what the masked expression gives. */
  lemma AlignIs16(value: nat)
    requires value + 15 < WORD
    ensures Align(value, 16) == Align16(value)
  {
    assert Pow2(4) == 16;
    AlignIsLeastMultiple(value, 4, 16);
    AlignedFour(Align(value, 16));
  }

  lemma Align16Fixpoint(value: nat)
    ensures Align16(value) == value <==> value % 16 == 0
  {
  }

  // ----- Rows -----

  // The bytes that n rows of the given stride take, stride * n. Row by row, so that
  // addresses stay within linear arithmetic.
  function Skip(stride: nat, n: nat): nat {
    if n == 0 then 0 else Skip(stride, n - 1) + stride
  }

  lemma {:induction false} SkipIsProduct(stride: nat, n: nat)
    ensures Skip(stride, n) == stride * n
  {
    if n > 0 {
      SkipIsProduct(stride, n - 1);
    }
  }

  lemma {:induction false} SkipMonotone(stride: nat, m: nat, n: nat)
    requires m <= n
    ensures Skip(stride, m) <= Skip(stride, n)
    ensures m < n ==> Skip(stride, m) + stride <= Skip(stride, n)
    decreases n - m
  {
    if m < n {
      SkipMonotone(stride, m, n - 1);
    }
  }

  lemma {:induction false} SkipAdd(stride: nat, m: nat, n: nat)
    ensures Skip(stride, m + n) == Skip(stride, m) + Skip(stride, n)
  {
    if n > 0 {
      SkipAdd(stride, m, n - 1);
    }
  }

  lemma {:induction false} SkipWider(narrow: nat, extra: nat, n: nat)
    ensures Skip(narrow + extra, n) == Skip(narrow, n) + Skip(extra, n)
  {
    if n > 0 {
      SkipWider(narrow, extra, n - 1);
    }
  }

  lemma RowBound(stride: nat, rows: nat, y: nat, x: nat)
    requires y < rows && x < stride
    ensures Skip(stride, y) + x < Skip(stride, rows)
  {
  }

  lemma RowsDistinct(stride: nat, x: nat, y: nat, x': nat, y': nat)
    requires x < stride && x' < stride && Skip(stride, y) + x == Skip(stride, y') + x'
    ensures x == x' && y == y'
  {
  }

  // ----- Writing into a buffer -----

  // s with a piece written at the given offset.
  function Overwrite<T>(s: seq<T>, at: nat, piece: seq<T>): (r: seq<T>)
    requires at + |piece| <= |s|
    ensures |r| == |s|
  {
    seq(|s|, i requires 0 <= i < |s| => if at <= i < at + |piece| then piece[i - at] else s[i])
  }

  // Two writes back to back are one.
  lemma OverwriteNext<T>(s: seq<T>, at: nat, first: seq<T>, second: seq<T>)
    requires at + |first| + |second| <= |s|
    ensures Overwrite(Overwrite(s, at, first), at + |first|, second) == Overwrite(s, at, first + second)
  {
  }

  // ----- Device side: commonStartDevice and startDevice -----

  predicate Planar(f: PixelFormat) {
    f == YV12 || f == YU12
  }

  predicate Known(f: PixelFormat) {
    f != OtherPixelFormat
  }

  function YStride(f: PixelFormat, width: nat): nat {
    if Planar(f) then Align16(width) else width
  }

  function UVStride(f: PixelFormat, width: nat): nat {
    if Planar(f) then Align16(YStride(f, width) / 2) else width
  }

  function FrameBufferSize(f: PixelFormat, width: nat, height: nat): nat {
    if Planar(f) then Skip(YStride(f, width), height) + Skip(UVStride(f, width), height)
    else Skip(YStride(f, width), height) + Skip(UVStride(f, width), height / 2)
  }

  // getVideoFrameBufferSize: 12 bits a pixel, without alignment.
  function VideoFrameBufferSize(width: nat, height: nat): nat {
    Skip(width, height) * 12 / 8
  }

  // Plane starts, strides and the distance between neighbouring chroma samples.
  datatype Planes = Planes(y: nat, u: nat, v: nat, step: nat, yStride: nat, uvStride: nat)

  function DevicePlanes(f: PixelFormat, width: nat, height: nat): Planes {
    var ys, uvs := YStride(f, width), UVStride(f, width);
    var first := Skip(ys, height);
    match f
    case YV12 => Planes(0, first + Skip(uvs, height / 2), first, 1, ys, uvs)
    case YU12 => Planes(0, first, first + Skip(uvs, height / 2), 1, ys, uvs)
    case NV21 => Planes(0, first + 1, first, 2, ys, uvs)
    case _ => Planes(0, first, first + 1, 2, ys, uvs)
  }

  function Luma(p: Planes, x: nat, y: nat): nat {
    p.y + Skip(p.yStride, y) + x
  }

  function ChromaU(p: Planes, cx: nat, cy: nat): nat {
    p.u + Skip(p.uvStride, cy) + Skip(p.step, cx)
  }

  function ChromaV(p: Planes, cx: nat, cy: nat): nat {
    p.v + Skip(p.uvStride, cy) + Skip(p.step, cx)
  }

  // ----- No sample outside, no two samples on one byte -----

  lemma StridesCover(f: PixelFormat, width: nat)
    requires Known(f)
    ensures width <= YStride(f, width)
    ensures (if Planar(f) then width / 2 else width) <= UVStride(f, width)
  {
  }

  /** Every sample address is inside the frame buffer, for every size. */
  lemma SamplesInBuffer(f: PixelFormat, width: nat, height: nat, x: nat, y: nat, cx: nat, cy: nat)
    requires Known(f) && x < width && y < height && cx < width / 2 && cy < height / 2
    ensures var p := DevicePlanes(f, width, height);
            && Luma(p, x, y) < Skip(p.yStride, height)
            && Skip(p.yStride, height) <= ChromaU(p, cx, cy) < FrameBufferSize(f, width, height)
            && Skip(p.yStride, height) <= ChromaV(p, cx, cy) < FrameBufferSize(f, width, height)
  {
    var ys, uvs := YStride(f, width), UVStride(f, width);
    StridesCover(f, width);
    SkipByOneOrTwo(cx);
    RowBound(ys, height, y, x);
    if Planar(f) {
      RowBound(uvs, height / 2, cy, cx);
      HalvesFit(uvs, height);
    } else {
      RowBound(uvs, height / 2, cy, 2 * cx + 1);
    }
  }

  lemma HalvesFit(stride: nat, height: nat)
    ensures Skip(stride, height / 2) + Skip(stride, height / 2) <= Skip(stride, height)
  {
    SkipAdd(stride, height / 2, height / 2);
    SkipMonotone(stride, height / 2 + height / 2, height);
  }

  lemma {:induction false} SkipByOneOrTwo(n: nat)
    ensures Skip(1, n) == n && Skip(2, n) == 2 * n
  {
    if n > 0 {
      SkipByOneOrTwo(n - 1);
    }
  }

  lemma PlanarDisjoint(f: PixelFormat, p: Planes, width: nat, height: nat, cx: nat, cy: nat, dx: nat, dy: nat)
    requires Planar(f) && p == DevicePlanes(f, width, height)
    requires cx < width / 2 && cy < height / 2 && dx < width / 2 && dy < height / 2
    ensures ChromaU(p, cx, cy) != ChromaV(p, dx, dy)
    ensures ChromaU(p, cx, cy) == ChromaU(p, dx, dy) ==> cx == dx && cy == dy
    ensures ChromaV(p, cx, cy) == ChromaV(p, dx, dy) ==> cx == dx && cy == dy
  {
    var uvs := p.uvStride;
    StridesCover(f, width);
    SkipByOneOrTwo(cx);
    SkipByOneOrTwo(dx);
    RowBound(uvs, height / 2, cy, cx);
    RowBound(uvs, height / 2, dy, dx);
    if Skip(uvs, cy) + cx == Skip(uvs, dy) + dx {
      RowsDistinct(uvs, cx, cy, dx, dy);
    }
  }

  lemma InterleavedDisjoint(f: PixelFormat, p: Planes, width: nat, height: nat, cx: nat, cy: nat, dx: nat, dy: nat)
    requires Known(f) && !Planar(f) && p == DevicePlanes(f, width, height)
    requires cx < width / 2 && cy < height / 2 && dx < width / 2 && dy < height / 2
    ensures ChromaU(p, cx, cy) != ChromaV(p, dx, dy)
    ensures ChromaU(p, cx, cy) == ChromaU(p, dx, dy) ==> cx == dx && cy == dy
    ensures ChromaV(p, cx, cy) == ChromaV(p, dx, dy) ==> cx == dx && cy == dy
  {
    SkipByOneOrTwo(cx);
    SkipByOneOrTwo(dx);
    var odd := if f == NV21 then 1 else 0;
    if ChromaU(p, cx, cy) == ChromaV(p, dx, dy) {
      RowsDistinct(width, 2 * cx + odd, cy, 2 * dx + (1 - odd), dy);
    }
    if Skip(width, cy) + 2 * cx == Skip(width, dy) + 2 * dx {
      RowsDistinct(width, 2 * cx, cy, 2 * dx, dy);
    }
  }

  /** No two samples share a byte: luma, U and V never meet, and within a plane distinct
      coordinates have distinct addresses. */
  lemma SamplesDisjoint(f: PixelFormat, width: nat, height: nat, cx: nat, cy: nat, dx: nat, dy: nat)
    requires Known(f)
    requires cx < width / 2 && cy < height / 2 && dx < width / 2 && dy < height / 2
    ensures var p := DevicePlanes(f, width, height);
            && ChromaU(p, cx, cy) != ChromaV(p, dx, dy)
            && (ChromaU(p, cx, cy) == ChromaU(p, dx, dy) ==> cx == dx && cy == dy)
            && (ChromaV(p, cx, cy) == ChromaV(p, dx, dy) ==> cx == dx && cy == dy)
  {
    var p := DevicePlanes(f, width, height);
    if Planar(f) {
      PlanarDisjoint(f, p, width, height, cx, cy, dx, dy);
    } else {
      InterleavedDisjoint(f, p, width, height, cx, cy, dx, dy);
    }
  }

  lemma LumaDistinct(f: PixelFormat, width: nat, height: nat, x: nat, y: nat, x': nat, y': nat)
    requires Known(f) && x < width && x' < width
    requires var p := DevicePlanes(f, width, height); Luma(p, x, y) == Luma(p, x', y')
    ensures x == x' && y == y'
  {
    StridesCover(f, width);
    RowsDistinct(YStride(f, width), x, y, x', y');
  }

  // ----- Converter side: the four entry points to RGB32 -----

  function ReaderPlanes(f: PixelFormat, width: nat, height: nat): Planes {
    match f
    case YV12 =>
      var yStride := Align16(width);
      var uvStride := Align16(yStride / 2);
      var v := Skip(yStride, height);
      Planes(0, v + Skip(uvStride, height / 2), v, 1, yStride, uvStride)
    case YU12 =>
      var yStride := Align16(width);
      var uvStride := Align16(yStride / 2);
      var u := Skip(yStride, height);
      Planes(0, u, u + Skip(uvStride, height / 2), 1, yStride, uvStride)
    case NV21 =>
      var total := Skip(width, height);
      Planes(0, total + 1, total, 2, width, width)
    case _ =>
      var total := Skip(width, height);
      Planes(0, total, total + 1, 2, width, width)
  }

  /** Devices and converters agree on every address. */
  lemma ReadersMatchDevices(f: PixelFormat, width: nat, height: nat)
    requires Known(f)
    ensures ReaderPlanes(f, width, height) == DevicePlanes(f, width, height)
  {
  }

  /** Which chroma comes first: V in YV12 and NV21, U in YU12 and NV12; and the planar buffer of
      an even height ends with its second chroma plane. */
  lemma PlaneOrder(width: nat, height: nat)
    ensures var p := DevicePlanes(YV12, width, height);
            p.v == Skip(p.yStride, height) && p.u == p.v + Skip(p.uvStride, height / 2)
    ensures var p := DevicePlanes(YU12, width, height);
            p.u == Skip(p.yStride, height) && p.v == p.u + Skip(p.uvStride, height / 2)
    ensures var p := DevicePlanes(NV21, width, height); p.v == Skip(width, height) && p.u == p.v + 1
    ensures var p := DevicePlanes(NV12, width, height); p.u == Skip(width, height) && p.v == p.u + 1
    ensures height % 2 == 0 ==>
              && FrameBufferSize(YV12, width, height)
                 == DevicePlanes(YV12, width, height).u + Skip(UVStride(YV12, width), height / 2)
              && FrameBufferSize(YU12, width, height)
                 == DevicePlanes(YU12, width, height).v + Skip(UVStride(YU12, width), height / 2)
  {
    SkipAdd(UVStride(YV12, width), height / 2, height / 2);
  }

  // The last sample of each plane of a picture is inside a buffer of the given size.
  predicate Covers(p: Planes, size: nat, width: nat, height: nat) {
    width > 0 && height > 0 ==>
      && Luma(p, width - 1, height - 1) < size
      && ChromaU(p, (width - 1) / 2, (height - 1) / 2) < size
      && ChromaV(p, (width - 1) / 2, (height - 1) / 2) < size
  }

  // Then so is every other sample.
  lemma CoversAll(p: Planes, size: nat, width: nat, height: nat, x: nat, y: nat)
    requires Covers(p, size, width, height) && x < width && y < height
    ensures Luma(p, x, y) < size && ChromaU(p, x / 2, y / 2) < size && ChromaV(p, x / 2, y / 2) < size
  {
    SkipMonotone(p.yStride, y, height - 1);
    SkipMonotone(p.uvStride, y / 2, (height - 1) / 2);
    SkipMonotone(p.step, x / 2, (width - 1) / 2);
  }

  /** For even sizes the converters read inside the buffer the device allocated. */
  lemma DeviceBufferCovers(f: PixelFormat, width: nat, height: nat)
    requires Known(f) && width % 2 == 0 && height % 2 == 0
    ensures Covers(ReaderPlanes(f, width, height), FrameBufferSize(f, width, height), width, height)
  {
    ReadersMatchDevices(f, width, height);
    if width > 0 && height > 0 {
      SamplesInBuffer(f, width, height, width - 1, height - 1, (width - 1) / 2, (height - 1) / 2);
    }
  }

  // ----- Odd sizes -----

  // The loops work in pairs of pixels, so an odd width is walked as the next even one.
  function RoundUp(width: nat): (r: nat)
    ensures r % 2 == 0 && width <= r <= width + 1
  {
    width + width % 2
  }

  lemma AlignOdd(width: nat)
    ensures Align16(width) == Align16(RoundUp(width))
  {
  }

  // In the planar formats the padding has room for the extra column.
  lemma OddWidthIsNextEven(f: PixelFormat, width: nat, height: nat)
    requires Planar(f)
    ensures DevicePlanes(f, width, height) == DevicePlanes(f, RoundUp(width), height)
    ensures FrameBufferSize(f, width, height) == FrameBufferSize(f, RoundUp(width), height)
  {
    AlignOdd(width);
    assert YStride(f, width) == YStride(f, RoundUp(width)) && UVStride(f, width) == UVStride(f, RoundUp(width));
  }

  lemma LastChromaRow(stride: nat, m: nat, n: nat, cx: nat)
    requires cx < stride
    ensures Skip(stride, m) + Skip(stride, n) + cx < Skip(stride, m + n + 1)
  {
    SkipAdd(stride, m, n);
  }

  // The last chroma sample of each of two planes that share the rows of one.
  lemma LastChromaRows(stride: nat, height: nat, cx: nat)
    requires cx < stride && height > 0
    ensures Skip(stride, height / 2) + Skip(stride, (height - 1) / 2) + cx < Skip(stride, height)
  {
    var m, n := height / 2, (height - 1) / 2;
    assert m + n + 1 == height;
    LastChromaRow(stride, m, n, cx);
  }

  lemma PlanarCovers(f: PixelFormat, width: nat, height: nat)
    requires Planar(f) && width % 2 == 0
    ensures Covers(DevicePlanes(f, width, height), FrameBufferSize(f, width, height), width, height)
  {
    if width > 0 && height > 0 {
      StridesCover(f, width);
      var cx := (width - 1) / 2;
      SkipByOneOrTwo(cx);
      RowBound(YStride(f, width), height, height - 1, width - 1);
      LastChromaRows(UVStride(f, width), height, cx);
    }
  }

  lemma InterleavedOverruns(f: PixelFormat, width: nat, height: nat)
    requires Known(f) && !Planar(f) && width > 0 && height > 0 && (width % 2 == 1 || height % 2 == 1)
    ensures !Covers(DevicePlanes(f, width, height), FrameBufferSize(f, width, height), RoundUp(width), height)
  {
    var cx, cy := (RoundUp(width) - 1) / 2, (height - 1) / 2;
    SkipByOneOrTwo(cx);
    assert height % 2 == 0 ==> height / 2 == cy + 1;
  }

  /** When the pointer walk stays inside the device's buffer, for every positive size: always
      in the planar formats, and for even sizes only in the interleaved ones. */
  lemma ReadsInsideIff(f: PixelFormat, width: nat, height: nat)
    requires Known(f) && width > 0 && height > 0
    ensures Covers(ReaderPlanes(f, width, height), FrameBufferSize(f, width, height), RoundUp(width), height)
       <==> Planar(f) || (width % 2 == 0 && height % 2 == 0)
  {
    ReadersMatchDevices(f, width, height);
    if Planar(f) {
      OddWidthIsNextEven(f, width, height);
      PlanarCovers(f, RoundUp(width), height);
    } else if width % 2 == 0 && height % 2 == 0 {
      DeviceBufferCovers(f, width, height);
    } else {
      InterleavedOverruns(f, width, height);
    }
  }
}
