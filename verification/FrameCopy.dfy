/**
 getCurrentFrameImpl: handing out the current frame, with the conversion from strided YV12
 to tightly packed YU12.
 */
module FrameCopy {
  import opened FrameLayout
  import opened Converters

  // ----- Rows cut out of a strided plane -----

  ghost function Rows(src: seq<byte>, off: nat, stride: nat, width: nat, rows: nat): (r: seq<byte>)
    requires width <= stride && off + Skip(stride, rows) <= |src|
    ensures |r| == Skip(width, rows)
  {
    if rows == 0 then []
    else
      var last := off + Skip(stride, rows - 1);
      Rows(src, off, stride, width, rows - 1) + src[last..last + width]
  }

  lemma {:induction false} RowsAt(src: seq<byte>, off: nat, stride: nat, width: nat, rows: nat, x: nat, y: nat)
    requires width <= stride && off + Skip(stride, rows) <= |src| && x < width && y < rows
    ensures Skip(width, y) + x < Skip(width, rows) && off + Skip(stride, y) + x < |src|
    ensures Rows(src, off, stride, width, rows)[Skip(width, y) + x] == src[off + Skip(stride, y) + x]
  {
    RowBound(width, rows, y, x);
    RowBound(stride, rows, y, x);
    var earlier, last := Rows(src, off, stride, width, rows - 1), off + Skip(stride, rows - 1);
    assert Rows(src, off, stride, width, rows) == earlier + src[last..last + width];
    if y < rows - 1 {
      RowsAt(src, off, stride, width, rows - 1, x, y);
    }
  }

  // A plane without padding is its own packing: what the fast paths rely on.
  lemma {:induction false} TightRows(src: seq<byte>, off: nat, width: nat, rows: nat)
    requires off + Skip(width, rows) <= |src|
    ensures Rows(src, off, width, width, rows) == src[off..off + Skip(width, rows)]
  {
    if rows > 0 {
      TightRows(src, off, width, rows - 1);
    }
  }

  // ----- Sizes -----

  // The U fast path is taken only for widths divisible by 32, and then the Y plane is tight
  // as well; no width takes the U fast path after the Y slow path.
  lemma FastPathWidths(width: nat)
    ensures YStride(YV12, width) == width <==> width % 16 == 0
    ensures UVStride(YV12, width) == width / 2 <==> width % 32 == 0
    ensures UVStride(YV12, width) == width / 2 ==> YStride(YV12, width) == width
  {
    Align16Fixpoint(width);
    var ys := YStride(YV12, width);
    var q := ys / 16;
    assert ys == 16 * q && ys / 2 == 8 * q;
    var uvs := Align16(8 * q);
    if width % 32 == 0 {
      assert ys == width && 8 * q % 16 == 0;
      Align16Fixpoint(8 * q);
    }
    if uvs == width / 2 {
      assert 8 * q == width / 2;
      Align16Fixpoint(8 * q);
      assert width == 16 * q && q % 2 == 0;
    }
  }

  lemma {:induction false} TwoHalfPlanes(width: nat, height: nat)
    ensures 4 * Skip(width / 2, height / 2) <= Skip(width, height)
    ensures width % 2 == 0 && height % 2 == 0 ==> 4 * Skip(width / 2, height / 2) == Skip(width, height)
    decreases height
  {
    if height >= 2 {
      TwoHalfPlanes(width, height - 2);
      assert Skip(width, height) == Skip(width, height - 2) + 2 * width;
      assert height / 2 == (height - 2) / 2 + 1;
    }
  }

  function PackedSize(width: nat, height: nat): nat {
    Skip(width, height) + Skip(width / 2, height / 2) + Skip(width / 2, height / 2)
  }

  /** The packed frame never exceeds getVideoFrameBufferSize, and fills it for even sizes. */
  lemma PackedFits(width: nat, height: nat)
    ensures PackedSize(width, height) <= VideoFrameBufferSize(width, height)
    ensures width % 2 == 0 && height % 2 == 0 ==> PackedSize(width, height) == VideoFrameBufferSize(width, height)
  {
    TwoHalfPlanes(width, height);
  }

  lemma PlanesInFrame(width: nat, height: nat)
    ensures width <= YStride(YV12, width) && width / 2 <= UVStride(YV12, width)
    ensures var ySize, uvSize := Skip(YStride(YV12, width), height), Skip(UVStride(YV12, width), height / 2);
            ySize + uvSize + uvSize <= FrameBufferSize(YV12, width, height)
  {
    HalvesFit(UVStride(YV12, width), height);
  }

  ghost function PackedLuma(source: seq<byte>, width: nat, height: nat): (r: seq<byte>)
    requires |source| == FrameBufferSize(YV12, width, height)
    ensures |r| == Skip(width, height)
  {
    PlanesInFrame(width, height);
    var p := DevicePlanes(YV12, width, height);
    Rows(source, p.y, p.yStride, width, height)
  }

  ghost function PackedU(source: seq<byte>, width: nat, height: nat): (r: seq<byte>)
    requires |source| == FrameBufferSize(YV12, width, height)
    ensures |r| == Skip(width / 2, height / 2)
  {
    PlanesInFrame(width, height);
    var p := DevicePlanes(YV12, width, height);
    Rows(source, p.u, p.uvStride, width / 2, height / 2)
  }

  ghost function PackedV(source: seq<byte>, width: nat, height: nat): (r: seq<byte>)
    requires |source| == FrameBufferSize(YV12, width, height)
    ensures |r| == Skip(width / 2, height / 2)
  {
    PlanesInFrame(width, height);
    var p := DevicePlanes(YV12, width, height);
    Rows(source, p.v, p.uvStride, width / 2, height / 2)
  }

  // Tightly packed Y, U and V planes of a strided YV12 frame.
  ghost function Packed(source: seq<byte>, width: nat, height: nat): (r: seq<byte>)
    requires |source| == FrameBufferSize(YV12, width, height)
    ensures |r| == PackedSize(width, height)
  {
    PackedLuma(source, width, height) + (PackedU(source, width, height) + PackedV(source, width, height))
  }

  // ----- The copy -----

  // memcpy.
  method CopyBytes(dest: array<byte>, at: nat, bytes: seq<byte>)
    requires at + |bytes| <= dest.Length
    modifies dest
    ensures dest[..] == Overwrite(old(dest[..]), at, bytes)
  {
    for i := 0 to |bytes|
      invariant dest[..] == Overwrite(old(dest[..]), at, bytes[..i])
    {
      dest[at + i] := bytes[i];
      assert bytes[..i + 1] == bytes[..i] + [bytes[i]];
    }
    assert bytes[..|bytes|] == bytes;
  }

  method CopyNextRow(dest: array<byte>, ghost before: seq<byte>, ghost at: nat, source: seq<byte>, ghost off: nat,
                     ghost stride: nat, width: nat, ghost y: nat, to: nat, from: nat)
    requires width <= stride && off + Skip(stride, y + 1) <= |source|
             && at + Skip(width, y + 1) <= dest.Length == |before|
    requires to == at + Skip(width, y) && from == off + Skip(stride, y)
    requires dest[..] == Overwrite(before, at, Rows(source, off, stride, width, y))
    modifies dest
    ensures dest[..] == Overwrite(before, at, Rows(source, off, stride, width, y + 1))
  {
    CopyBytes(dest, to, source[from..from + width]);
    OverwriteNext(before, at, Rows(source, off, stride, width, y), source[from..from + width]);
  }

  /** A slow path: one memcpy a row. */
  method CopyRows(dest: array<byte>, at: nat, source: seq<byte>, off: nat, stride: nat, width: nat, rows: nat)
    requires width <= stride && off + Skip(stride, rows) <= |source| && at + Skip(width, rows) <= dest.Length
    modifies dest
    ensures dest[..] == Overwrite(old(dest[..]), at, Rows(source, off, stride, width, rows))
  {
    ghost var before := dest[..];
    var to, from := at, off;
    SkipMonotone(stride, 0, rows);
    SkipMonotone(width, 0, rows);
    for y := 0 to rows
      invariant to == at + Skip(width, y) && from == off + Skip(stride, y)
      invariant off + Skip(stride, y) <= |source| && at + Skip(width, y) <= dest.Length
      invariant dest[..] == Overwrite(before, at, Rows(source, off, stride, width, y))
    {
      SkipMonotone(width, y + 1, rows);
      SkipMonotone(stride, y + 1, rows);
      CopyNextRow(dest, before, at, source, off, stride, width, y, to, from);
      to, from := to + width, from + stride;
    }
  }

  method CopyLuma(dest: array<byte>, source: seq<byte>, yStride: nat, width: nat, height: nat)
    requires width <= yStride && Skip(yStride, height) <= |source| && Skip(width, height) <= dest.Length
    modifies dest
    ensures dest[..] == Overwrite(old(dest[..]), 0, Rows(source, 0, yStride, width, height))
  {
    if yStride == width {
      TightRows(source, 0, width, height);
      CopyBytes(dest, 0, source[..Skip(yStride, height)]);
      assert source[..Skip(yStride, height)] == source[0..0 + Skip(width, height)];
    } else {
      CopyRows(dest, 0, source, 0, yStride, width, height);
    }
  }

  // The slow path for chroma: two planes, the source walking backwards from U to V.
  method CopyChromaRows(dest: array<byte>, at: nat, source: seq<byte>, ySize: nat, uvStride: nat, half: nat, rows: nat)
    requires half <= uvStride && ySize + Skip(uvStride, rows) + Skip(uvStride, rows) <= |source|
    requires at + Skip(half, rows) + Skip(half, rows) <= dest.Length
    modifies dest
    ensures dest[..] == Overwrite(old(dest[..]), at,
                                  Rows(source, ySize + Skip(uvStride, rows), uvStride, half, rows)
                                  + Rows(source, ySize, uvStride, half, rows))
  {
    ghost var before := dest[..];
    var uvSize := Skip(uvStride, rows);
    var uvDest, uvSource := at, ySize + uvSize;
    CopyRows(dest, uvDest, source, uvSource, uvStride, half, rows);
    uvDest, uvSource := uvDest + Skip(half, rows), uvSource - uvSize;
    CopyRows(dest, uvDest, source, uvSource, uvStride, half, rows);
    OverwriteNext(before, at, Rows(source, ySize + uvSize, uvStride, half, rows),
        Rows(source, ySize, uvStride, half, rows));
  }

  // The fast path for chroma: the two planes change places.
  method SwapChroma(dest: array<byte>, at: nat, source: seq<byte>, ySize: nat, half: nat, rows: nat)
    requires ySize + Skip(half, rows) + Skip(half, rows) <= |source|
             && at + Skip(half, rows) + Skip(half, rows) <= dest.Length
    modifies dest
    ensures dest[..] == Overwrite(old(dest[..]), at,
                                  Rows(source, ySize + Skip(half, rows), half, half, rows)
                                  + Rows(source, ySize, half, half, rows))
  {
    ghost var before := dest[..];
    var uvSize := Skip(half, rows);
    TightRows(source, ySize + uvSize, half, rows);
    TightRows(source, ySize, half, rows);
    CopyBytes(dest, at, source[ySize + uvSize..ySize + uvSize + uvSize]);
    CopyBytes(dest, at + uvSize, source[ySize..ySize + uvSize]);
    OverwriteNext(before, at, source[ySize + uvSize..ySize + uvSize + uvSize], source[ySize..ySize + uvSize]);
  }

  method CopyChroma(dest: array<byte>, source: seq<byte>, width: nat, height: nat, ySize: nat, uvStride: nat)
    requires ySize == Skip(YStride(YV12, width), height) && uvStride == UVStride(YV12, width)
    requires width / 2 <= uvStride && ySize + Skip(uvStride, height / 2) + Skip(uvStride, height / 2) <= |source|
    requires PackedSize(width, height) <= dest.Length
    modifies dest
    ensures dest[..] == Overwrite(old(dest[..]), Skip(width, height),
                                  Rows(source, ySize + Skip(uvStride, height / 2), uvStride, width / 2, height / 2)
                                  + Rows(source, ySize, uvStride, width / 2, height / 2))
  {
    FastPathWidths(width);
    if uvStride == width / 2 {
      SwapChroma(dest, ySize, source, ySize, width / 2, height / 2);
    } else {
      CopyChromaRows(dest, Skip(width, height), source, ySize, uvStride, width / 2, height / 2);
    }
  }

  /** YV12 to YU12: padding stripped, U before V, whichever mix of fast and slow paths runs. */
  method Repack(source: seq<byte>, dest: array<byte>, width: nat, height: nat)
    requires |source| == FrameBufferSize(YV12, width, height) && PackedSize(width, height) <= dest.Length
    modifies dest
    ensures dest[..] == Overwrite(old(dest[..]), 0, Packed(source, width, height))
  {
    PlanesInFrame(width, height);
    ghost var before := dest[..];
    ghost var luma := PackedLuma(source, width, height);
    ghost var chroma := PackedU(source, width, height) + PackedV(source, width, height);
    CopyLuma(dest, source, YStride(YV12, width), width, height);
    CopyChroma(dest, source, width, height, Skip(YStride(YV12, width), height), UVStride(YV12, width));
    OverwriteNext(before, 0, luma, chroma);
  }

  datatype CopyResult = NoError | Einval

  /** getCurrentFrameImpl: a plain copy when the formats agree, the packed planes for YV12 to
      YU12 whichever mix of fast and slow paths runs, and an untouched buffer otherwise. */
  method GetCurrentFrame(deviceFormat: PixelFormat, requested: PixelFormat, source: seq<byte>, dest: array<byte>,
                         width: nat, height: nat)
    returns (res: CopyResult)
    requires Known(deviceFormat) && |source| == FrameBufferSize(deviceFormat, width, height)
    requires requested == deviceFormat ==> |source| <= dest.Length
    requires requested == YU12 && deviceFormat == YV12 ==> PackedSize(width, height) <= dest.Length
    modifies dest
    ensures res == NoError <==> requested == deviceFormat || (requested == YU12 && deviceFormat == YV12)
    ensures requested == deviceFormat ==> dest[..] == Overwrite(old(dest[..]), 0, source)
    ensures requested == YU12 && deviceFormat == YV12 ==>
              dest[..] == Overwrite(old(dest[..]), 0, Packed(source, width, height))
    ensures res == Einval ==> dest[..] == old(dest[..])
  {
    if requested == deviceFormat {
      CopyBytes(dest, 0, source);
      return NoError;
    } else if requested == YU12 && deviceFormat == YV12 {
      Repack(source, dest, width, height);
      return NoError;
    }
    return Einval;
  }

  // ----- What the packed frame means to a reader -----

  // Where the three planes of a packed frame start: a YU12 frame without padding.
  function PackedPlanes(width: nat, height: nat): Planes {
    Planes(0, Skip(width, height), Skip(width, height) + Skip(width / 2, height / 2), 1, width, width / 2)
  }

  lemma PackedLumaSamples(source: seq<byte>, width: nat, height: nat, x: nat, y: nat)
    requires |source| == FrameBufferSize(YV12, width, height) && x < width && y < height
    ensures var p, q := DevicePlanes(YV12, width, height), PackedPlanes(width, height);
            && Luma(q, x, y) < PackedSize(width, height) && Luma(p, x, y) < |source|
            && Packed(source, width, height)[Luma(q, x, y)] == source[Luma(p, x, y)]
  {
    PlanesInFrame(width, height);
    RowsAt(source, 0, YStride(YV12, width), width, height, x, y);
  }

  lemma MiddleAndLast(first: seq<byte>, middle: seq<byte>, last: seq<byte>, k: nat)
    requires k < |middle| == |last|
    ensures (first + (middle + last))[|first| + k] == middle[k]
    ensures (first + (middle + last))[|first| + |middle| + k] == last[k]
  {
  }

  lemma PackedUSamples(source: seq<byte>, width: nat, height: nat, cx: nat, cy: nat)
    requires |source| == FrameBufferSize(YV12, width, height) && cx < width / 2 && cy < height / 2
    ensures var p := DevicePlanes(YV12, width, height);
            && Skip(width / 2, cy) + cx < Skip(width / 2, height / 2) && ChromaU(p, cx, cy) < |source|
            && PackedU(source, width, height)[Skip(width / 2, cy) + cx] == source[ChromaU(p, cx, cy)]
  {
    PlanesInFrame(width, height);
    SkipByOneOrTwo(cx);
    var p := DevicePlanes(YV12, width, height);
    RowsAt(source, p.u, p.uvStride, width / 2, height / 2, cx, cy);
  }

  lemma PackedVSamples(source: seq<byte>, width: nat, height: nat, cx: nat, cy: nat)
    requires |source| == FrameBufferSize(YV12, width, height) && cx < width / 2 && cy < height / 2
    ensures var p := DevicePlanes(YV12, width, height);
            && Skip(width / 2, cy) + cx < Skip(width / 2, height / 2) && ChromaV(p, cx, cy) < |source|
            && PackedV(source, width, height)[Skip(width / 2, cy) + cx] == source[ChromaV(p, cx, cy)]
  {
    PlanesInFrame(width, height);
    SkipByOneOrTwo(cx);
    var p := DevicePlanes(YV12, width, height);
    RowsAt(source, p.v, p.uvStride, width / 2, height / 2, cx, cy);
  }

  lemma PackedChromaSamples(source: seq<byte>, width: nat, height: nat, cx: nat, cy: nat)
    requires |source| == FrameBufferSize(YV12, width, height) && cx < width / 2 && cy < height / 2
    ensures var p, q := DevicePlanes(YV12, width, height), PackedPlanes(width, height);
            && ChromaU(q, cx, cy) < PackedSize(width, height) && ChromaV(q, cx, cy) < PackedSize(width, height)
            && ChromaU(p, cx, cy) < |source| && ChromaV(p, cx, cy) < |source|
            && Packed(source, width, height)[ChromaU(q, cx, cy)] == source[ChromaU(p, cx, cy)]
            && Packed(source, width, height)[ChromaV(q, cx, cy)] == source[ChromaV(p, cx, cy)]
  {
    SkipByOneOrTwo(cx);
    PackedUSamples(source, width, height, cx, cy);
    PackedVSamples(source, width, height, cx, cy);
    MiddleAndLast(PackedLuma(source, width, height), PackedU(source, width, height), PackedV(source, width, height),
                  Skip(width / 2, cy) + cx);
  }

  /** Sample by sample, the packed frame holds what the strided one does, for every size. */
  lemma PackedSamples(source: seq<byte>, width: nat, height: nat, x: nat, y: nat, cx: nat, cy: nat)
    requires |source| == FrameBufferSize(YV12, width, height)
    requires x < width && y < height && cx < width / 2 && cy < height / 2
    ensures var p, q := DevicePlanes(YV12, width, height), PackedPlanes(width, height);
            var packed := Packed(source, width, height);
            && Luma(q, x, y) < |packed| && ChromaU(q, cx, cy) < |packed| && ChromaV(q, cx, cy) < |packed|
            && Luma(p, x, y) < |source| && ChromaU(p, cx, cy) < |source| && ChromaV(p, cx, cy) < |source|
            && packed[Luma(q, x, y)] == source[Luma(p, x, y)]
            && packed[ChromaU(q, cx, cy)] == source[ChromaU(p, cx, cy)]
            && packed[ChromaV(q, cx, cy)] == source[ChromaV(p, cx, cy)]
  {
    PackedLumaSamples(source, width, height, x, y);
    PackedChromaSamples(source, width, height, cx, cy);
  }

  lemma TightReader(width: nat, height: nat)
    requires width % 32 == 0
    ensures ReaderPlanes(YU12, width, height) == PackedPlanes(width, height)
  {
    FastPathWidths(width);
  }

  lemma TightCovers(width: nat, height: nat)
    requires width % 32 == 0 && height % 2 == 0
    ensures Covers(ReaderPlanes(YU12, width, height), PackedSize(width, height), width, height)
  {
    DeviceBufferCovers(YU12, width, height);
    FastPathWidths(width);
    SkipAdd(width / 2, height / 2, height / 2);
  }

  ghost predicate SamePixels<T>(colour: Colour<T>, a: seq<byte>, p: Planes, b: seq<byte>, q: Planes, width: nat,
                                height: nat)
    requires Covers(p, |a|, width, height) && Covers(q, |b|, width, height)
  {
    forall x: nat, y: nat :: x < width && y < height ==>
      Pixel(colour, a, p, width, height, x, y) == Pixel(colour, b, q, width, height, x, y)
  }

  lemma {:induction false} SameRow<T>(colour: Colour<T>, a: seq<byte>, p: Planes, b: seq<byte>, q: Planes, width: nat,
                                      height: nat, y: nat, n: nat)
    requires Covers(p, |a|, width, height) && Covers(q, |b|, width, height) && y < height && n <= width
    requires SamePixels(colour, a, p, b, q, width, height)
    ensures RowPixels(colour, a, p, width, height, y, n) == RowPixels(colour, b, q, width, height, y, n)
  {
    if n > 0 {
      SameRow(colour, a, p, b, q, width, height, y, n - 1);
    }
  }

  ghost predicate SameRows<T>(colour: Colour<T>, a: seq<byte>, p: Planes, b: seq<byte>, q: Planes, width: nat,
                              height: nat)
    requires Covers(p, |a|, width, height) && Covers(q, |b|, width, height)
  {
    forall y: nat :: y < height ==>
      RowPixels(colour, a, p, width, height, y, width) == RowPixels(colour, b, q, width, height, y, width)
  }

  lemma {:induction false} SameImage<T>(colour: Colour<T>, a: seq<byte>, p: Planes, b: seq<byte>, q: Planes,
                                        width: nat, height: nat, rows: nat)
    requires Covers(p, |a|, width, height) && Covers(q, |b|, width, height) && rows <= height
    requires SameRows(colour, a, p, b, q, width, height)
    ensures Image(colour, a, p, width, height, rows) == Image(colour, b, q, width, height, rows)
  {
    if rows > 0 {
      SameImage(colour, a, p, b, q, width, height, rows - 1);
    }
  }

  lemma SamePixel<T>(colour: Colour<T>, source: seq<byte>, width: nat, height: nat, p: Planes, q: Planes, x: nat,
                     y: nat)
    requires |source| == FrameBufferSize(YV12, width, height) && width % 2 == 0 && height % 2 == 0
    requires p == DevicePlanes(YV12, width, height) && q == PackedPlanes(width, height) && x < width && y < height
    requires Covers(p, |source|, width, height) && Covers(q, PackedSize(width, height), width, height)
    ensures Pixel(colour, Packed(source, width, height), q, width, height, x, y)
            == Pixel(colour, source, p, width, height, x, y)
  {
    PackedSamples(source, width, height, x, y, x / 2, y / 2);
  }

  /** Meaning preserved: reading the packed copy as YU12 gives the picture that reading the
      original as YV12 gives. */
  lemma RepackingKeepsThePicture<T>(colour: Colour<T>, source: seq<byte>, width: nat, height: nat)
    requires |source| == FrameBufferSize(YV12, width, height) && width % 32 == 0 && height % 2 == 0
    ensures Covers(ReaderPlanes(YU12, width, height), PackedSize(width, height), width, height)
    ensures Covers(ReaderPlanes(YV12, width, height), |source|, width, height)
    ensures Image(colour, Packed(source, width, height), ReaderPlanes(YU12, width, height), width, height, height)
         == Image(colour, source, ReaderPlanes(YV12, width, height), width, height, height)
  {
    assert width % 2 == 0;
    TightCovers(width, height);
    DeviceBufferCovers(YV12, width, height);
    TightReader(width, height);
    ReadersMatchDevices(YV12, width, height);
    var p, q := ReaderPlanes(YV12, width, height), ReaderPlanes(YU12, width, height);
    var packed := Packed(source, width, height);
    forall x: nat, y: nat | x < width && y < height
      ensures Pixel(colour, packed, q, width, height, x, y) == Pixel(colour, source, p, width, height, x, y)
    {
      SamePixel(colour, source, width, height, p, q, x, y);
    }
    forall y: nat | y < height
      ensures RowPixels(colour, packed, q, width, height, y, width)
              == RowPixels(colour, source, p, width, height, y, width)
    {
      SameRow(colour, packed, q, source, p, width, height, y, width);
    }
    SameImage(colour, packed, q, source, p, width, height, height);
  }

  // The last V sample a reader of padded rows looks for lies past the unpadded size.
  lemma PaddedReaderOverruns(ys: nat, uvs: nat, half: nat, rows: nat)
    requires half > 0 && rows > 0 && 2 * half <= ys && half <= uvs && (2 * half < ys || half < uvs)
    ensures Skip(ys, 2 * rows) + Skip(uvs, rows) + Skip(uvs, rows - 1) + half - 1
         >= Skip(2 * half, 2 * rows) + Skip(half, rows) + Skip(half, rows)
  {
    SkipWider(2 * half, ys - 2 * half, 2 * rows);
    SkipWider(half, uvs - half, rows);
    SkipMonotone(ys - 2 * half, 1, 2 * rows);
    SkipMonotone(uvs - half, 1, rows);
    assert Skip(uvs - half, 1) == uvs - half && Skip(ys - 2 * half, 1) == ys - 2 * half;
    assert Skip(uvs, rows) == Skip(uvs, rows - 1) + uvs;
  }

  lemma PaddedReaderNotCovered(width: nat, height: nat)
    requires width > 0 && height > 0 && width % 2 == 0 && height % 2 == 0 && width % 32 != 0
    ensures var p := ReaderPlanes(YU12, width, height);
            ChromaV(p, (width - 1) / 2, (height - 1) / 2) >= PackedSize(width, height)
  {
    var half, rows := width / 2, height / 2;
    assert width == 2 * half && height == 2 * rows && (width - 1) / 2 == half - 1 && (height - 1) / 2 == rows - 1;
    FastPathWidths(width);
    StridesCover(YU12, width);
    PaddedReaderOverruns(YStride(YV12, width), UVStride(YV12, width), half, rows);
    SkipByOneOrTwo(half - 1);
  }

  /** The width condition is exact: for any other even width the YU12 reader, which expects
      padding, looks past the end of the packed frame. */
  lemma PackedReadableIff(width: nat, height: nat)
    requires width > 0 && height > 0 && width % 2 == 0 && height % 2 == 0
    ensures Covers(ReaderPlanes(YU12, width, height), VideoFrameBufferSize(width, height), width, height) <==>
              width % 32 == 0
  {
    PackedFits(width, height);
    if width % 32 == 0 {
      TightCovers(width, height);
    } else {
      PaddedReaderNotCovered(width, height);
    }
  }
}
