/**
 Conversion of 4:2:0 frames to RGB. The walk over the planes is the same for RGB32 and for
 RGB565, so it is written once for any colour conversion. The alpha byte of an RGB32 pixel
 is not set by the original and is not modelled.
 */
module Converters {
  import opened FrameLayout

  datatype Rgb = Rgb(r: byte, g: byte, b: byte)

  type Colour<T> = (byte, byte, byte) -> T

  function Clamp(x: int): byte {
    if x > 255 then 255 else if x < 0 then 0 else x
  }

  // The right shifts are arithmetic, so they round down, as division by 256 does.
  function YuvToRgb32(y: byte, u: byte, v: byte): Rgb {
    var c, d, e := y - 16, u - 128, v - 128;
    Rgb(Clamp((298 * c + 409 * e + 128) / 256),
        Clamp((298 * c - 100 * d - 208 * e + 128) / 256),
        Clamp((298 * c + 516 * d + 128) / 256))
  }

  /** Neutral chroma gives a grey, and more luma never gives a darker one. */
  lemma GreyAxis(y: byte, y': byte)
    requires y <= y'
    ensures var p := YuvToRgb32(y, 128, 128); p.r == p.g == p.b
    ensures YuvToRgb32(y, 128, 128).r <= YuvToRgb32(y', 128, 128).r
  {
  }

  /** Which component depends on what: red grows with luma and V and does not depend on U, blue
      grows with luma and U and does not depend on V, green grows with luma and falls with both. */
  lemma ChannelsFollow(y: byte, u: byte, v: byte, y': byte, u': byte, v': byte)
    requires y <= y' && u <= u' && v <= v'
    ensures YuvToRgb32(y, u, v).r == YuvToRgb32(y, u', v).r <= YuvToRgb32(y', u, v').r
    ensures YuvToRgb32(y, u, v).b == YuvToRgb32(y, u, v').b <= YuvToRgb32(y', u', v).b
    ensures YuvToRgb32(y, u', v').g <= YuvToRgb32(y', u, v).g
  {
  }

  /** Black, white and the three primaries of the studio range. */
  lemma ReferenceColours()
    ensures YuvToRgb32(16, 128, 128) == Rgb(0, 0, 0) && YuvToRgb32(235, 128, 128) == Rgb(255, 255, 255)
    ensures var red := YuvToRgb32(81, 90, 240); red.r >= 254 && red.g <= 1 && red.b <= 1
    ensures var green := YuvToRgb32(145, 54, 34); green.g >= 254 && green.r <= 1 && green.b <= 1
    ensures var blue := YuvToRgb32(41, 240, 110); blue.b >= 254 && blue.r <= 1 && blue.g <= 1
  {
  }

  // A component before it is rounded and clamped, as ITU-R BT.601 defines it for the studio range:
  // 219 steps of luma and 224 of chroma.
  function Component(y: byte, u: byte, v: byte, forU: real, forV: real): real {
    ((y - 16) as real) * (255.0 / 219.0) + ((u - 128) as real) * (forU * 255.0 / 224.0)
    + ((v - 128) as real) * (forV * 255.0 / 224.0)
  }

  predicate Near(component: byte, exact: real) {
    var clamped := if exact < 0.0 then 0.0 else if exact > 255.0 then 255.0 else exact;
    -0.76 <= component as real - clamped <= 0.76
  }

  predicate StudioRange(y: byte, u: byte, v: byte) {
    16 <= y <= 235 && 16 <= u <= 240 && 16 <= v <= 240
  }

  /** On the whole studio range the integer arithmetic is within 0.76 of the standard's value,
      clamped: half a step of that is rounding. */
  lemma RedIsStandard(y: byte, u: byte, v: byte)
    requires StudioRange(y, u, v)
    ensures Near(YuvToRgb32(y, u, v).r, Component(y, u, v, 0.0, 1.402))
  {
  }

  lemma BlueIsStandard(y: byte, u: byte, v: byte)
    requires StudioRange(y, u, v)
    ensures Near(YuvToRgb32(y, u, v).b, Component(y, u, v, 1.772, 0.0))
  {
  }

  lemma GreenIsStandard(y: byte, u: byte, v: byte)
    requires StudioRange(y, u, v)
    ensures Near(YuvToRgb32(y, u, v).g,
                 Component(y, u, v, -1.772 * 0.114 / 0.587, -1.402 * 0.299 / 0.587))
  {
  }

  // The colour of pixel (x, y): its own luma, and the chroma it shares with its 2 by 2 block.
  function Pixel<T>(colour: Colour<T>, frame: seq<byte>, p: Planes, width: nat, height: nat, x: nat, y: nat): T
    requires Covers(p, |frame|, width, height) && x < width && y < height
  {
    CoversAll(p, |frame|, width, height, x, y);
    colour(frame[Luma(p, x, y)], frame[ChromaU(p, x / 2, y / 2)], frame[ChromaV(p, x / 2, y / 2)])
  }

  // The first n pixels of row y.
  ghost function RowPixels<T>(colour: Colour<T>, frame: seq<byte>, p: Planes, width: nat, height: nat, y: nat,
                              n: nat): (r: seq<T>)
    requires Covers(p, |frame|, width, height) && y < height && n <= width
    ensures |r| == n
  {
    if n == 0 then []
    else RowPixels(colour, frame, p, width, height, y, n - 1) + [Pixel(colour, frame, p, width, height, n - 1, y)]
  }

  // The first rows of the picture, row after row.
  ghost function Image<T>(colour: Colour<T>, frame: seq<byte>, p: Planes, width: nat, height: nat,
                          rows: nat): (r: seq<T>)
    requires Covers(p, |frame|, width, height) && rows <= height
    ensures |r| == Skip(width, rows)
  {
    if rows == 0 then []
    else Image(colour, frame, p, width, height, rows - 1) + RowPixels(colour, frame, p, width, height, rows - 1, width)
  }

  lemma {:induction false} RowPixelsAt<T>(colour: Colour<T>, frame: seq<byte>, p: Planes, width: nat, height: nat,
                                          y: nat, n: nat, x: nat)
    requires Covers(p, |frame|, width, height) && y < height && x < n <= width
    ensures RowPixels(colour, frame, p, width, height, y, n)[x] == Pixel(colour, frame, p, width, height, x, y)
  {
    if x < n - 1 {
      RowPixelsAt(colour, frame, p, width, height, y, n - 1, x);
    }
  }

  // A pixel of the last row, and one of an earlier row.
  lemma ImageLast<T>(colour: Colour<T>, frame: seq<byte>, p: Planes, width: nat, height: nat, y: nat, x: nat, k: nat)
    requires Covers(p, |frame|, width, height) && y < height && x < width && k == Skip(width, y) + x
    ensures k < Skip(width, y + 1)
    ensures Image(colour, frame, p, width, height, y + 1)[k] == Pixel(colour, frame, p, width, height, x, y)
  {
    RowPixelsAt(colour, frame, p, width, height, y, width, x);
  }

  lemma ImageEarlier<T>(colour: Colour<T>, frame: seq<byte>, p: Planes, width: nat, height: nat, rows: nat, k: nat)
    requires Covers(p, |frame|, width, height) && rows < height && k < Skip(width, rows)
    ensures Image(colour, frame, p, width, height, rows + 1)[k] == Image(colour, frame, p, width, height, rows)[k]
  {
  }

  // More rows do not change a pixel.
  lemma {:induction false} ImageGrows<T>(colour: Colour<T>, frame: seq<byte>, p: Planes, width: nat, height: nat,
                                         few: nat, rows: nat, k: nat)
    requires Covers(p, |frame|, width, height) && few <= rows <= height && k < Skip(width, few)
    ensures k < Skip(width, rows)
    ensures Image(colour, frame, p, width, height, rows)[k] == Image(colour, frame, p, width, height, few)[k]
    decreases rows
  {
    if few < rows {
      ImageGrows(colour, frame, p, width, height, few, rows - 1, k);
      ImageEarlier(colour, frame, p, width, height, rows - 1, k);
    }
  }

  /** Pixel (x, y) of the picture, which is at k, is the conversion of luma (x, y) and chroma
      (x/2, y/2). */
  lemma ImageAt<T>(colour: Colour<T>, frame: seq<byte>, p: Planes, width: nat, height: nat, rows: nat, x: nat, y: nat,
                   k: nat)
    requires Covers(p, |frame|, width, height) && y < rows <= height && x < width && k == Skip(width, y) + x
    ensures k < Skip(width, rows)
    ensures Image(colour, frame, p, width, height, rows)[k] == Pixel(colour, frame, p, width, height, x, y)
  {
    ImageLast(colour, frame, p, width, height, y, x, k);
    ImageGrows(colour, frame, p, width, height, y + 1, rows, k);
  }

  lemma CoversPair(p: Planes, size: nat, width: nat, height: nat, pair: nat, row: nat)
    requires Covers(p, size, width, height) && row < height && 2 * pair + 2 <= width
    ensures Luma(p, 2 * pair, row) + 1 < size && ChromaU(p, pair, row / 2) < size && ChromaV(p, pair, row / 2) < size
    ensures (2 * pair) / 2 == pair && (2 * pair + 1) / 2 == pair
  {
    CoversAll(p, size, width, height, 2 * pair + 1, row);
  }

  lemma PairExtendsRow<T>(s: seq<T>, start: nat, colour: Colour<T>, frame: seq<byte>, p: Planes, width: nat,
                          height: nat, y: nat, x: nat)
    requires Covers(p, |frame|, width, height) && y < height && x + 2 <= width && start + width <= |s|
    ensures Overwrite(Overwrite(s, start, RowPixels(colour, frame, p, width, height, y, x)), start + x,
                      [Pixel(colour, frame, p, width, height, x, y), Pixel(colour, frame, p, width, height, x + 1, y)])
         == Overwrite(s, start, RowPixels(colour, frame, p, width, height, y, x + 2))
  {
  }

  // The four pointers of the walk.
  datatype Cursor = Cursor(y: nat, u: nat, v: nat, out: nat)

  // The pointers after a number of pixel pairs of a row.
  function CursorAt(p: Planes, row: nat, start: nat, pairs: nat): Cursor {
    Cursor(Luma(p, 2 * pairs, row), ChromaU(p, pairs, row / 2), ChromaV(p, pairs, row / 2), start + 2 * pairs)
  }

  // Two pixels from one pair of chroma samples, and the pointers moved on.
  method PutPair<T>(colour: Colour<T>, frame: seq<byte>, p: Planes, rgb: array<T>, at: Cursor) returns (next: Cursor)
    requires at.y + 1 < |frame| && at.u < |frame| && at.v < |frame| && at.out + 1 < rgb.Length
    modifies rgb
    ensures next == Cursor(at.y + 2, at.u + p.step, at.v + p.step, at.out + 2)
    ensures rgb[..] == Overwrite(old(rgb[..]), at.out, [colour(frame[at.y], frame[at.u], frame[at.v]),
                                                        colour(frame[at.y + 1], frame[at.u], frame[at.v])])
  {
    var y, out := at.y, at.out;
    var nU, nV := frame[at.u], frame[at.v];
    rgb[out] := colour(frame[y], nU, nV);
    y, out := y + 1, out + 1;
    rgb[out] := colour(frame[y], nU, nV);
    y, out := y + 1, out + 1;
    next := Cursor(y, at.u + p.step, at.v + p.step, out);
  }

  /** One turn of the inner loop. */
  method ConvertPair<T>(colour: Colour<T>, frame: seq<byte>, p: Planes, rgb: array<T>, at: Cursor, ghost width: nat,
                        ghost height: nat, ghost row: nat, ghost start: nat, ghost pair: nat, ghost before: seq<T>)
    returns (next: Cursor)
    requires Covers(p, |frame|, width, height) && row < height && 2 * pair + 2 <= width
    requires rgb.Length == |before| >= start + width
    requires at == CursorAt(p, row, start, pair)
    requires rgb[..] == Overwrite(before, start, RowPixels(colour, frame, p, width, height, row, 2 * pair))
    modifies rgb
    ensures next == CursorAt(p, row, start, pair + 1)
    ensures rgb[..] == Overwrite(before, start, RowPixels(colour, frame, p, width, height, row, 2 * (pair + 1)))
  {
    CoversPair(p, |frame|, width, height, pair, row);
    next := PutPair(colour, frame, p, rgb, at);
    PairExtendsRow(before, start, colour, frame, p, width, height, row, 2 * pair);
  }

  /** One row of the pointer-walking loop. The loop sets two pixels a turn, so of an odd width
      it sets one pixel more. */
  method ConvertRow<T>(colour: Colour<T>, frame: seq<byte>, p: Planes, rgb: array<T>, width: nat, height: nat,
                       row: nat, start: nat, ghost half: nat) returns (next: nat)
    requires 2 * half - 1 <= width <= 2 * half && row < height && Covers(p, |frame|, 2 * half, height)
    requires start + 2 * half <= rgb.Length
    modifies rgb
    ensures next == start + 2 * half
    ensures rgb[..] == Overwrite(old(rgb[..]), start, RowPixels(colour, frame, p, 2 * half, height, row, 2 * half))
  {
    ghost var before := rgb[..];
    var chromaRow := Skip(p.uvStride, row / 2);
    var at := Cursor(p.y + Skip(p.yStride, row), p.u + chromaRow, p.v + chromaRow, start);
    var x := 0;
    ghost var pairs := 0;
    while x < width
      invariant x == 2 * pairs && 0 <= pairs <= half
      invariant at == CursorAt(p, row, start, pairs)
      invariant rgb[..] == Overwrite(before, start, RowPixels(colour, frame, p, 2 * half, height, row, 2 * pairs))
    {
      at := ConvertPair(colour, frame, p, rgb, at, 2 * half, height, row, start, pairs, before);
      x := x + 2;
      pairs := pairs + 1;
    }
    assert pairs == half;
    next := at.out;
  }

  /** _YUV420SToRGB32 and _YUV420SToRGB565: the picture, its width rounded up to 2 * half, is
      set row after row, and nothing else. */
  method YUV420SToRGB<T>(colour: Colour<T>, frame: seq<byte>, p: Planes, rgb: array<T>, width: nat, height: nat,
                         ghost half: nat)
    requires 2 * half - 1 <= width <= 2 * half && Covers(p, |frame|, 2 * half, height)
    requires rgb.Length >= Skip(2 * half, height)
    modifies rgb
    ensures rgb[..] == Overwrite(old(rgb[..]), 0, Image(colour, frame, p, 2 * half, height, height))
  {
    ghost var before := rgb[..];
    var start := 0;
    for row := 0 to height
      invariant start == Skip(2 * half, row) <= rgb.Length
      invariant rgb[..] == Overwrite(before, 0, Image(colour, frame, p, 2 * half, height, row))
    {
      SkipMonotone(2 * half, row + 1, height);
      start := ConvertNextRow(colour, frame, p, rgb, width, height, row, start, half, before);
    }
  }

  // One turn of the outer loop.
  method ConvertNextRow<T>(colour: Colour<T>, frame: seq<byte>, p: Planes, rgb: array<T>, width: nat, height: nat,
                           row: nat, start: nat, ghost half: nat, ghost before: seq<T>) returns (next: nat)
    requires 2 * half - 1 <= width <= 2 * half && row < height && Covers(p, |frame|, 2 * half, height)
    requires start == Skip(2 * half, row) && Skip(2 * half, row + 1) <= rgb.Length == |before|
    requires rgb[..] == Overwrite(before, 0, Image(colour, frame, p, 2 * half, height, row))
    modifies rgb
    ensures next == Skip(2 * half, row + 1)
    ensures rgb[..] == Overwrite(before, 0, Image(colour, frame, p, 2 * half, height, row + 1))
  {
    next := ConvertRow(colour, frame, p, rgb, width, height, row, start, half);
    OverwriteNext(before, 0, Image(colour, frame, p, 2 * half, height, row),
                  RowPixels(colour, frame, p, 2 * half, height, row, 2 * half));
  }

  /** An odd width does not fit where it should: the walk sets a pixel more in each row, so
      exactly for even widths it stays within width times height pixels. */
  lemma PictureFitsIff(width: nat, height: nat)
    requires height > 0
    ensures Skip(RoundUp(width), height) <= Skip(width, height) <==> width % 2 == 0
  {
    SkipWider(width, width % 2, height);
    SkipByOneOrTwo(height);
  }

  /** getCurrentPreviewFrame's switch over the pixel format: the four entry points to RGB32,
      or an error that changes nothing. The walk must stay inside the frame buffer, which
      ReadsInsideIff settles for every size, and inside the buffer the caller gives. */
  method ConvertFrame(f: PixelFormat, frame: seq<byte>, rgb: array<Rgb>, width: nat, height: nat) returns (ok: bool)
    requires |frame| == FrameBufferSize(f, width, height) && rgb.Length >= Skip(RoundUp(width), height)
    requires Known(f) ==> Covers(ReaderPlanes(f, width, height), |frame|, RoundUp(width), height)
    modifies rgb
    ensures ok <==> Known(f)
    ensures ok ==> Covers(DevicePlanes(f, width, height), |frame|, RoundUp(width), height)
                   && rgb[..Skip(RoundUp(width), height)]
                      == Image(YuvToRgb32, frame, DevicePlanes(f, width, height), RoundUp(width), height, height)
    ensures !ok ==> rgb[..] == old(rgb[..])
  {
    if !Known(f) {
      return false;
    }
    ReadersMatchDevices(f, width, height);
    YUV420SToRGB(YuvToRgb32, frame, ReaderPlanes(f, width, height), rgb, width, height, RoundUp(width) / 2);
    return true;
  }
}
