/**
 The fake device's drawing loops: a checkerboard written in place into a frame of any of the
 four formats, and what a converter then reads from it. The colours are given; the position
 of the board comes in as the counters the loops start from.
 */
module Checkerboard {
  import opened FrameLayout
  import opened Converters

  datatype Yuv = Yuv(y: byte, u: byte, v: byte)

  // The colour of each pair of pixels, by row and pair.
  type Paint = (nat, nat) -> Yuv

  // Where a pair of pixels lies: two luma bytes from y on, one U and one V byte.
  datatype Spot = Spot(y: nat, u: nat, v: nat)

  type SpotMap = (nat, nat) -> Spot

  // ----- Drawing, on values -----

  predicate Inside(a: Spot, size: nat) {
    a.y + 1 < size && a.u < size && a.v < size
  }

  predicate Touches(a: Spot, at: nat) {
    at == a.y || at == a.y + 1 || at == a.u || at == a.v
  }

  function DrawPair(frame: seq<byte>, a: Spot, c: Yuv): (r: seq<byte>)
    requires Inside(a, |frame|)
    ensures |r| == |frame|
  {
    frame[a.y := c.y][a.u := c.u][a.v := c.v][a.y + 1 := c.y]
  }

  ghost predicate RowInside(spots: SpotMap, row: nat, pairs: nat, size: nat) {
    forall k: nat :: k < pairs ==> Inside(spots(row, k), size)
  }

  ghost predicate RowsInside(spots: SpotMap, rows: nat, pairs: nat, size: nat) {
    forall r: nat :: r < rows ==> RowInside(spots, r, pairs, size)
  }

  ghost function DrawRow(frame: seq<byte>, spots: SpotMap, row: nat, pairs: nat, paint: Paint): (r: seq<byte>)
    requires RowInside(spots, row, pairs, |frame|)
    ensures |r| == |frame|
  {
    if pairs == 0 then frame
    else DrawPair(DrawRow(frame, spots, row, pairs - 1, paint), spots(row, pairs - 1), paint(row, pairs - 1))
  }

  ghost function DrawRows(frame: seq<byte>, spots: SpotMap, rows: nat, pairs: nat, paint: Paint): (r: seq<byte>)
    requires RowsInside(spots, rows, pairs, |frame|)
    ensures |r| == |frame|
  {
    if rows == 0 then frame
    else DrawRow(DrawRows(frame, spots, rows - 1, pairs, paint), spots, rows - 1, pairs, paint)
  }

  // ----- Which stroke a byte keeps -----

  // No pair of a row but possibly one touches the byte.
  ghost predicate OnlyPair(spots: SpotMap, row: nat, pairs: nat, at: nat, pair: nat) {
    forall k: nat :: k < pairs && k != pair ==> !Touches(spots(row, k), at)
  }

  lemma {:induction false} RowAt(frame: seq<byte>, spots: SpotMap, row: nat, pairs: nat, paint: Paint, at: nat,
                                 pair: nat)
    requires RowInside(spots, row, pairs, |frame|) && at < |frame| && OnlyPair(spots, row, pairs, at, pair)
    ensures DrawRow(frame, spots, row, pairs, paint)[at]
         == if pair < pairs then DrawPair(frame, spots(row, pair), paint(row, pair))[at] else frame[at]
  {
    if pairs > 0 {
      RowAt(frame, spots, row, pairs - 1, paint, at, pair);
    }
  }

  // Nothing from the given row on, except one pair of that row, touches the byte.
  ghost predicate LastStroke(spots: SpotMap, rows: nat, pairs: nat, at: nat, row: nat, pair: nat) {
    OnlyPair(spots, row, pairs, at, pair) && forall r: nat :: row < r < rows ==> OnlyPair(spots, r, pairs, at, pairs)
  }

  lemma {:induction false} RowsAt(frame: seq<byte>, spots: SpotMap, rows: nat, pairs: nat, paint: Paint, at: nat,
                                  row: nat, pair: nat)
    requires RowsInside(spots, rows, pairs, |frame|) && at < |frame| && row < rows && pair < pairs
    requires LastStroke(spots, rows, pairs, at, row, pair) && Touches(spots(row, pair), at)
    ensures var c := paint(row, pair);
            var a := spots(row, pair);
            var r := DrawRows(frame, spots, rows, pairs, paint)[at];
            && (at != a.u && at != a.v ==> r == c.y)
            && (at != a.y && at != a.y + 1 && at != a.v ==> r == c.u)
            && (at != a.y && at != a.y + 1 && at != a.u ==> r == c.v)
  {
    var before := DrawRows(frame, spots, rows - 1, pairs, paint);
    assert RowInside(spots, rows - 1, pairs, |before|);
    if row == rows - 1 {
      RowAt(before, spots, row, pairs, paint, at, pair);
    } else {
      RowAt(before, spots, rows - 1, pairs, paint, at, pairs);
      RowsAt(frame, spots, rows - 1, pairs, paint, at, row, pair);
    }
  }

  // ----- The device's layout -----

  function MapOf(p: Planes): SpotMap {
    (row: nat, pair: nat) => Spot(Luma(p, 2 * pair, row), ChromaU(p, pair, row / 2), ChromaV(p, pair, row / 2))
  }

  lemma AllInside(p: Planes, size: nat, half: nat, height: nat)
    requires Covers(p, size, 2 * half, height)
    ensures RowsInside(MapOf(p), height, half, size)
  {
    forall r: nat, k: nat | r < height && k < half ensures Inside(MapOf(p)(r, k), size) {
      CoversPair(p, size, 2 * half, height, k, r);
    }
  }

  // A luma byte is touched by its own pair only, and as luma.
  lemma LumaTouched(f: PixelFormat, width: nat, height: nat, x: nat, y: nat, row: nat, pair: nat)
    requires Known(f) && width % 2 == 0 && height % 2 == 0 && x < width && y < height && row < height
             && pair < width / 2
    ensures var p := DevicePlanes(f, width, height);
            var a, at := MapOf(p)(row, pair), Luma(p, x, y);
            at != a.u && at != a.v && (Touches(a, at) <==> row == y && pair == x / 2)
  {
    var p := DevicePlanes(f, width, height);
    SamplesInBuffer(f, width, height, x, y, pair, row / 2);
    if Luma(p, x, y) == Luma(p, 2 * pair, row) {
      LumaDistinct(f, width, height, x, y, 2 * pair, row);
    }
    if Luma(p, x, y) == Luma(p, 2 * pair, row) + 1 {
      LumaDistinct(f, width, height, x, y, 2 * pair + 1, row);
    }
  }

  // A chroma byte is touched by the two pairs of its block only, and as that chroma.
  lemma ChromaTouched(f: PixelFormat, width: nat, height: nat, cx: nat, cy: nat, row: nat, pair: nat)
    requires Known(f) && height % 2 == 0 && cx < width / 2 && cy < height / 2 && row < height && pair < width / 2
    ensures var p := DevicePlanes(f, width, height);
            var a := MapOf(p)(row, pair);
            var u, v := ChromaU(p, cx, cy), ChromaV(p, cx, cy);
            && u != a.y && u != a.y + 1 && u != a.v && (Touches(a, u) <==> row / 2 == cy && pair == cx)
            && v != a.y && v != a.y + 1 && v != a.u && (Touches(a, v) <==> row / 2 == cy && pair == cx)
  {
    SamplesInBuffer(f, width, height, 2 * pair + 1, row, cx, cy);
    SamplesDisjoint(f, width, height, cx, cy, pair, row / 2);
    SamplesDisjoint(f, width, height, pair, row / 2, cx, cy);
  }

  lemma LumaLastStroke(f: PixelFormat, width: nat, height: nat, x: nat, y: nat)
    requires Known(f) && width % 2 == 0 && height % 2 == 0 && x < width && y < height
    ensures var p := DevicePlanes(f, width, height);
            LastStroke(MapOf(p), height, width / 2, Luma(p, x, y), y, x / 2)
  {
    var p := DevicePlanes(f, width, height);
    var m := MapOf(p);
    forall r: nat, k: nat | y <= r < height && k < width / 2
        && (r != y || k != x / 2) ensures !Touches(m(r, k), Luma(p, x, y)) {
      LumaTouched(f, width, height, x, y, r, k);
    }
  }

  lemma DrawnLuma(f: PixelFormat, frame: seq<byte>, p: Planes, width: nat, height: nat, paint: Paint, x: nat, y: nat,
                  at: nat)
    requires Known(f) && width % 2 == 0 && height % 2 == 0 && x < width && y < height
    requires |frame| == FrameBufferSize(f, width, height) && p == DevicePlanes(f, width, height) && at == Luma(p, x, y)
    requires RowsInside(MapOf(p), height, width / 2, |frame|)
    ensures at < |frame| && DrawRows(frame, MapOf(p), height, width / 2, paint)[at] == paint(y, x / 2).y
  {
    SamplesInBuffer(f, width, height, x, y, 0, 0);
    LumaLastStroke(f, width, height, x, y);
    LumaTouched(f, width, height, x, y, y, x / 2);
    RowsAt(frame, MapOf(p), height, width / 2, paint, at, y, x / 2);
  }

  // The row of a 2 by 2 block that is drawn last.
  function LowerRow(y: nat): nat {
    2 * (y / 2) + 1
  }

  // The lower row of its block makes the last stroke on a chroma byte.
  lemma ChromaLastStroke(f: PixelFormat, width: nat, height: nat, cx: nat, cy: nat, row: nat)
    requires Known(f) && height % 2 == 0 && cx < width / 2 && cy < height / 2 && row == 2 * cy + 1
    ensures var p := DevicePlanes(f, width, height);
            && LastStroke(MapOf(p), height, width / 2, ChromaU(p, cx, cy), row, cx)
            && LastStroke(MapOf(p), height, width / 2, ChromaV(p, cx, cy), row, cx)
  {
    var p := DevicePlanes(f, width, height);
    var m := MapOf(p);
    forall r: nat, k: nat | row <= r < height && k < width / 2 && (r != row || k != cx)
      ensures !Touches(m(r, k), ChromaU(p, cx, cy)) && !Touches(m(r, k), ChromaV(p, cx, cy))
    {
      ChromaTouched(f, width, height, cx, cy, r, k);
    }
  }

  lemma DrawnU(f: PixelFormat, frame: seq<byte>, p: Planes, width: nat, height: nat, paint: Paint, cx: nat, cy: nat,
               row: nat, at: nat)
    requires Known(f) && height % 2 == 0 && cx < width / 2 && cy < height / 2 && row == 2 * cy + 1
    requires |frame| == FrameBufferSize(f, width, height) && p == DevicePlanes(f, width, height)
             && at == ChromaU(p, cx, cy)
    requires RowsInside(MapOf(p), height, width / 2, |frame|)
    ensures at < |frame| && DrawRows(frame, MapOf(p), height, width / 2, paint)[at] == paint(row, cx).u
  {
    SamplesInBuffer(f, width, height, 0, 0, cx, cy);
    ChromaLastStroke(f, width, height, cx, cy, row);
    ChromaTouched(f, width, height, cx, cy, row, cx);
    RowsAt(frame, MapOf(p), height, width / 2, paint, at, row, cx);
  }

  lemma DrawnV(f: PixelFormat, frame: seq<byte>, p: Planes, width: nat, height: nat, paint: Paint, cx: nat, cy: nat,
               row: nat, at: nat)
    requires Known(f) && height % 2 == 0 && cx < width / 2 && cy < height / 2 && row == 2 * cy + 1
    requires |frame| == FrameBufferSize(f, width, height) && p == DevicePlanes(f, width, height)
             && at == ChromaV(p, cx, cy)
    requires RowsInside(MapOf(p), height, width / 2, |frame|)
    ensures at < |frame| && DrawRows(frame, MapOf(p), height, width / 2, paint)[at] == paint(row, cx).v
  {
    SamplesInBuffer(f, width, height, 0, 0, cx, cy);
    ChromaLastStroke(f, width, height, cx, cy, row);
    ChromaTouched(f, width, height, cx, cy, row, cx);
    RowsAt(frame, MapOf(p), height, width / 2, paint, at, row, cx);
  }

  lemma PixelIs<T>(colour: Colour<T>, frame: seq<byte>, p: Planes, width: nat, height: nat, x: nat, y: nat, c: Yuv)
    requires Covers(p, |frame|, width, height) && x < width && y < height
    requires var at := Luma(p, x, y); at < |frame| && frame[at] == c.y
    requires var at := ChromaU(p, x / 2, y / 2); at < |frame| && frame[at] == c.u
    requires var at := ChromaV(p, x / 2, y / 2); at < |frame| && frame[at] == c.v
    ensures Pixel(colour, frame, p, width, height, x, y) == colour(c.y, c.u, c.v)
  {
  }

  /** From drawing to picture: pixel (x, y) of a drawn frame, as the converters read it, has the
      luma painted for its own row and the chroma painted for the lower row of its block. */
  lemma DrawnPixel<T>(colour: Colour<T>, f: PixelFormat, frame: seq<byte>, p: Planes, width: nat, height: nat,
                      paint: Paint, x: nat, y: nat)
    requires Known(f) && width % 2 == 0 && height % 2 == 0 && x < width && y < height
    requires |frame| == FrameBufferSize(f, width, height) && p == DevicePlanes(f, width, height)
    requires RowsInside(MapOf(p), height, width / 2, |frame|) && Covers(p, |frame|, width, height)
    ensures Pixel(colour, DrawRows(frame, MapOf(p), height, width / 2, paint), p, width, height, x, y)
         == colour(paint(y, x / 2).y, paint(LowerRow(y), x / 2).u, paint(LowerRow(y), x / 2).v)
  {
    var row, drawn := LowerRow(y), DrawRows(frame, MapOf(p), height, width / 2, paint);
    DrawnLuma(f, frame, p, width, height, paint, x, y, Luma(p, x, y));
    DrawnU(f, frame, p, width, height, paint, x / 2, y / 2, row, ChromaU(p, x / 2, y / 2));
    DrawnV(f, frame, p, width, height, paint, x / 2, y / 2, row, ChromaV(p, x / 2, y / 2));
    PixelIs(colour, drawn, p, width, height, x, y, Yuv(paint(y, x / 2).y, paint(row, x / 2).u, paint(row, x / 2).v));
  }

  lemma DrawnEvenPicture<T>(colour: Colour<T>, f: PixelFormat, frame: seq<byte>, p: Planes, width: nat, height: nat,
                            paint: Paint, x: nat, y: nat, k: nat)
    requires Known(f) && width % 2 == 0 && height % 2 == 0 && x < width && y < height
    requires k == Skip(width, y) + x
    requires |frame| == FrameBufferSize(f, width, height) && p == DevicePlanes(f, width, height)
    requires RowsInside(MapOf(p), height, width / 2, |frame|) && Covers(p, |frame|, width, height)
    ensures k < Skip(width, height)
    ensures Image(colour, DrawRows(frame, MapOf(p), height, width / 2, paint), p, width, height, height)[k]
         == colour(paint(y, x / 2).y, paint(LowerRow(y), x / 2).u, paint(LowerRow(y), x / 2).v)
  {
    DrawnPixel(colour, f, frame, p, width, height, paint, x, y);
    ImageAt(colour, DrawRows(frame, MapOf(p), height, width / 2, paint), p, width, height, height, x, y, k);
  }

  /** And so has the converted picture, of odd width too where the format allows one. */
  lemma DrawnPicture<T>(colour: Colour<T>, f: PixelFormat, frame: seq<byte>, p: Planes, width: nat, height: nat,
                        wide: nat, paint: Paint, x: nat, y: nat, k: nat)
    requires Known(f) && (Planar(f) || width % 2 == 0) && height % 2 == 0 && wide == RoundUp(width) && x < wide
             && y < height
    requires k == Skip(wide, y) + x
    requires |frame| == FrameBufferSize(f, width, height) && p == DevicePlanes(f, width, height)
    ensures RowsInside(MapOf(p), height, wide / 2, |frame|) && Covers(p, |frame|, wide, height)
            && k < Skip(wide, height)
    ensures Image(colour, DrawRows(frame, MapOf(p), height, wide / 2, paint), p, wide, height, height)[k]
         == colour(paint(y, x / 2).y, paint(LowerRow(y), x / 2).u, paint(LowerRow(y), x / 2).v)
  {
    ReadsInsideIff(f, width, height);
    ReadersMatchDevices(f, width, height);
    AllInside(p, |frame|, wide / 2, height);
    if Planar(f) {
      OddWidthIsNextEven(f, width, height);
    }
    DrawnEvenPicture(colour, f, frame, p, wide, height, paint, x, y, k);
  }

  // Of the two chroma planes, the byte in row 0 of the second.
  function SecondPlane(f: PixelFormat, p: Planes, cx: nat): nat {
    if f == YV12 then ChromaU(p, cx, 0) else ChromaV(p, cx, 0)
  }

  lemma SecondPlaneInside(uvs: nat, n: nat, cx: nat, k: nat)
    requires n > 0 && cx < uvs
    ensures Skip(uvs, n) + cx < Skip(uvs, n) + Skip(uvs, n) + k && Skip(uvs, n) + cx < Skip(uvs, n + n + 1)
  {
    SkipMonotone(uvs, 1, n);
    SkipMonotone(uvs, n + 1, n + n + 1);
  }

  // In the last row of an odd height only one pair touches that byte, and as the other chroma.
  lemma OddHeightTouched(f: PixelFormat, p: Planes, width: nat, height: nat, n: nat, cx: nat, k: nat)
    requires Planar(f) && width % 2 == 0 && height == n + n + 1 && n > 0 && cx < width / 2 && k < width / 2
    requires p == DevicePlanes(f, width, height)
    ensures var at, a := SecondPlane(f, p, cx), MapOf(p)(height - 1, k);
            && at < FrameBufferSize(f, width, height) && at != a.y && at != a.y + 1
            && (f == YV12 ==> at != a.u && (at == a.v <==> k == cx))
            && (f == YU12 ==> at != a.v && (at == a.u <==> k == cx))
  {
    StridesCover(f, width);
    assert (height - 1) / 2 == n && height / 2 == n;
    SkipByOneOrTwo(cx);
    SkipByOneOrTwo(k);
    RowBound(p.yStride, height, height - 1, 2 * k + 1);
    SecondPlaneInside(p.uvStride, n, cx, k);
  }

  lemma OddHeightLastStroke(f: PixelFormat, p: Planes, width: nat, height: nat, n: nat, cx: nat)
    requires Planar(f) && width % 2 == 0 && height == n + n + 1 && n > 0 && cx < width / 2
    requires p == DevicePlanes(f, width, height)
    ensures LastStroke(MapOf(p), height, width / 2, SecondPlane(f, p, cx), height - 1, cx)
  {
    var m, last, at := MapOf(p), height - 1, SecondPlane(f, p, cx);
    forall k: nat | k < width / 2 && k != cx ensures !Touches(m(last, k), at) {
      OddHeightTouched(f, p, width, height, n, cx, k);
    }
  }

  /** Odd heights are different: the last row has no chroma row of its own, and its strokes
      fall on the first row of the other chroma plane. */
  lemma OddHeightMixesChroma(f: PixelFormat, frame: seq<byte>, p: Planes, width: nat, height: nat, n: nat,
                             paint: Paint, cx: nat)
    requires Planar(f) && width % 2 == 0 && height == n + n + 1 && n > 0 && cx < width / 2
    requires |frame| == FrameBufferSize(f, width, height) && p == DevicePlanes(f, width, height)
    requires RowsInside(MapOf(p), height, width / 2, |frame|)
    ensures SecondPlane(f, p, cx) < |frame|
    ensures var c := paint(height - 1, cx);
            DrawRows(frame, MapOf(p), height, width / 2, paint)[SecondPlane(f, p, cx)] == if f == YV12 then c.v else c.u
  {
    OddHeightTouched(f, p, width, height, n, cx, cx);
    OddHeightLastStroke(f, p, width, height, n, cx);
    RowsAt(frame, MapOf(p), height, width / 2, paint, SecondPlane(f, p, cx), height - 1, cx);
  }

  // ----- The pattern -----

  // The counters the loops start from, and the two colours.
  datatype Board = Board(size: nat, county: nat, countx: nat, black: bool, blackYuv: Yuv, whiteYuv: Yuv)

  predicate Proper(b: Board) {
    b.county < b.size && b.countx < b.size
  }

  datatype Count = Count(n: nat, black: bool)

  function NextRow(b: Board, c: Count): Count {
    if c.n >= b.size then Count(0, !c.black) else Count(c.n + 1, c.black)
  }

  function NextPair(b: Board, c: Count): Count {
    if c.n + 2 >= b.size then Count(0, !c.black) else Count(c.n + 2, c.black)
  }

  // The counters after a number of rows, and after a number of pairs of a row.
  function RowCount(b: Board, rows: nat): Count {
    if rows == 0 then Count(b.county, b.black) else NextRow(b, RowCount(b, rows - 1))
  }

  function PairCount(b: Board, black: bool, pairs: nat): Count {
    if pairs == 0 then Count(b.countx, black) else NextPair(b, PairCount(b, black, pairs - 1))
  }

  function Shade(b: Board, black: bool): Yuv {
    if black then b.blackYuv else b.whiteYuv
  }

  function PaintOf(b: Board): Paint {
    (row: nat, pair: nat) => Shade(b, PairCount(b, RowCount(b, row).black, pair).black)
  }

  /** The top left pair has the colour the board starts with, the pair next to a full cell count
      has the other. */
  lemma FirstCorner(b: Board)
    requires Proper(b)
    ensures PaintOf(b)(0, 0) == if b.black then b.blackYuv else b.whiteYuv
    ensures b.countx + 2 >= b.size ==> PaintOf(b)(0, 1) == if b.black then b.whiteYuv else b.blackYuv
  {
    assert RowCount(b, 0) == Count(b.county, b.black);
    assert PairCount(b, b.black, 0) == Count(b.countx, b.black);
    assert PairCount(b, b.black, 1) == NextPair(b, PairCount(b, b.black, 0));
  }

  // The colour of a cell that is a number of cells away from the first.
  function Flipped(black: bool, cells: nat): bool {
    if cells % 2 == 1 then !black else black
  }

  /** The cells of the board are size + 1 rows high: row number county + row, counted in such
      cells, tells the colour a row starts with. */
  lemma {:induction false} CellRows(b: Board, row: nat, cell: nat, offset: nat)
    requires Proper(b) && offset <= b.size && b.county + row == Skip(b.size + 1, cell) + offset
    ensures RowCount(b, row) == Count(offset, Flipped(b.black, cell))
    decreases row
  {
    if row > 0 {
      if offset > 0 {
        CellRows(b, row - 1, cell, offset - 1);
      } else if cell > 0 {
        CellRows(b, row - 1, cell - 1, b.size);
      }
    }
  }

  // Pairs of the first, cut off cell of a row, and of every other.
  function FirstPairs(b: Board): nat
    requires Proper(b)
  {
    (b.size - b.countx + 1) / 2
  }

  function CellPairs(b: Board): nat {
    (b.size + 1) / 2
  }

  /** After the first cell of a row the cells are half of size, rounded up, pairs wide. */
  lemma {:induction false} CellColumns(b: Board, black: bool, pair: nat, cell: nat, offset: nat)
    requires Proper(b) && offset < CellPairs(b) && pair == FirstPairs(b) + Skip(CellPairs(b), cell) + offset
    ensures PairCount(b, black, pair) == Count(2 * offset, Flipped(black, cell + 1))
    decreases pair
  {
    if offset > 0 {
      CellColumns(b, black, pair - 1, cell, offset - 1);
    } else if cell > 0 {
      CellColumns(b, black, pair - 1, cell - 1, CellPairs(b) - 1);
    } else {
      FirstCell(b, black, pair - 1);
    }
  }

  lemma {:induction false} FirstCell(b: Board, black: bool, pair: nat)
    requires Proper(b) && pair < FirstPairs(b)
    ensures PairCount(b, black, pair) == Count(b.countx + 2 * pair, black)
  {
    if pair > 0 {
      FirstCell(b, black, pair - 1);
    }
  }

  // The number of the cell a row lies in, and a pair of a row.
  function RowCell(b: Board, row: nat): nat {
    (b.county + row) / (b.size + 1)
  }

  function PairCell(b: Board, pair: nat): nat
    requires Proper(b)
  {
    if pair < FirstPairs(b) then 0 else (pair - FirstPairs(b)) / CellPairs(b) + 1
  }

  lemma Quotient(t: nat, m: nat)
    requires m > 0
    ensures t == Skip(m, t / m) + t % m
  {
    SkipIsProduct(m, t / m);
  }

  lemma RowColour(b: Board, row: nat)
    requires Proper(b)
    ensures RowCount(b, row).black == Flipped(b.black, RowCell(b, row))
  {
    var t := b.county + row;
    Quotient(t, b.size + 1);
    CellRows(b, row, t / (b.size + 1), t % (b.size + 1));
  }

  lemma PairColour(b: Board, black: bool, pair: nat)
    requires Proper(b)
    ensures PairCount(b, black, pair).black == Flipped(black, PairCell(b, pair))
  {
    if pair < FirstPairs(b) {
      FirstCell(b, black, pair);
    } else {
      var u := pair - FirstPairs(b);
      Quotient(u, CellPairs(b));
      CellColumns(b, black, pair, u / CellPairs(b), u % CellPairs(b));
    }
  }

  lemma FlippedTwice(black: bool, m: nat, n: nat)
    ensures Flipped(Flipped(black, m), n) == Flipped(black, m + n)
  {
  }

  /** The colour of any pair of pixels, from its place and the starting counters alone. */
  lemma CellColour(b: Board, row: nat, pair: nat)
    requires Proper(b)
    ensures PaintOf(b)(row, pair) == Shade(b, Flipped(b.black, RowCell(b, row) + PairCell(b, pair)))
  {
    RowColour(b, row);
    PairColour(b, RowCount(b, row).black, pair);
    FlippedTwice(b.black, RowCell(b, row), PairCell(b, pair));
  }

  function ShadeAt(b: Board, x: nat, y: nat): Yuv
    requires Proper(b)
  {
    Shade(b, Flipped(b.black, RowCell(b, y) + PairCell(b, x / 2)))
  }

  lemma PictureOfShades<T>(colour: Colour<T>, f: PixelFormat, frame: seq<byte>, p: Planes, width: nat, height: nat,
                           wide: nat, paint: Paint, x: nat, y: nat, k: nat, own: Yuv, lower: Yuv)
    requires Known(f) && (Planar(f) || width % 2 == 0) && height % 2 == 0 && wide == RoundUp(width) && x < wide
             && y < height
    requires k == Skip(wide, y) + x
    requires |frame| == FrameBufferSize(f, width, height) && p == DevicePlanes(f, width, height)
    requires paint(y, x / 2) == own && paint(LowerRow(y), x / 2) == lower
    ensures RowsInside(MapOf(p), height, wide / 2, |frame|) && Covers(p, |frame|, wide, height)
            && k < Skip(wide, height)
    ensures Image(colour, DrawRows(frame, MapOf(p), height, wide / 2, paint), p, wide, height, height)[k]
         == colour(own.y, lower.u, lower.v)
  {
    DrawnPicture(colour, f, frame, p, width, height, wide, paint, x, y, k);
  }

  /** The whole way: pixel (x, y) of the converted board, from x, y and the starting counters. */
  lemma BoardPicture<T>(colour: Colour<T>, f: PixelFormat, frame: seq<byte>, p: Planes, width: nat, height: nat,
                        wide: nat, b: Board, x: nat, y: nat, k: nat)
    requires Proper(b)
    requires Known(f) && (Planar(f) || width % 2 == 0) && height % 2 == 0 && wide == RoundUp(width) && x < wide
             && y < height
    requires k == Skip(wide, y) + x
    requires |frame| == FrameBufferSize(f, width, height) && p == DevicePlanes(f, width, height)
    ensures RowsInside(MapOf(p), height, wide / 2, |frame|) && Covers(p, |frame|, wide, height)
            && k < Skip(wide, height)
    ensures var own, lower := ShadeAt(b, x, y), ShadeAt(b, x, LowerRow(y));
            Image(colour, DrawRows(frame, MapOf(p), height, wide / 2, PaintOf(b)), p, wide, height, height)[k]
            == colour(own.y, lower.u, lower.v)
  {
    CellColour(b, y, x / 2);
    CellColour(b, LowerRow(y), x / 2);
    PictureOfShades(colour, f, frame, p, width, height, wide, PaintOf(b), x, y, k, ShadeAt(b, x, y),
        ShadeAt(b, x, LowerRow(y)));
  }

  predicate Neutral(c: Yuv) {
    c.u == 128 && c.v == 128
  }

  /** With neutral colours every pixel of the converted board is a grey. */
  lemma NeutralBoardIsGrey(b: Board, x: nat, y: nat)
    requires Proper(b) && Neutral(b.blackYuv) && Neutral(b.whiteYuv)
    ensures var own, lower := ShadeAt(b, x, y), ShadeAt(b, x, LowerRow(y));
            var pixel := YuvToRgb32(own.y, lower.u, lower.v);
            pixel.r == pixel.g == pixel.b
  {
    GreyAxis(ShadeAt(b, x, y).y, ShadeAt(b, x, y).y);
  }

  // ----- The loops -----

  // The pointers move two bytes of luma and one step of chroma a pair.
  lemma NextSpot(p: Planes, row: nat, k: nat)
    ensures var a := MapOf(p)(row, k); MapOf(p)(row, k + 1) == Spot(a.y + 2, a.u + p.step, a.v + p.step)
  {
  }

  predicate Apart(a: Spot) {
    a.y != a.u && a.y != a.v
  }

  ghost predicate RowApart(spots: SpotMap, row: nat, pairs: nat) {
    forall k: nat :: k < pairs ==> Apart(spots(row, k))
  }

  lemma SpotsApart(f: PixelFormat, width: nat, height: nat, row: nat, half: nat)
    requires Known(f) && row < height && 2 * half - 1 <= width
    ensures RowApart(MapOf(DevicePlanes(f, width, height)), row, half)
  {
    var ys := YStride(f, width);
    StridesCover(f, width);
    forall k: nat | k < half ensures Apart(MapOf(DevicePlanes(f, width, height))(row, k)) {
      RowBound(ys, height, row, 2 * k);
    }
  }

  method DrawSpot(frame: array<byte>, at: Spot, c: Yuv)
    requires Inside(at, frame.Length) && Apart(at)
    modifies frame
    ensures frame[..] == DrawPair(old(frame[..]), at, c)
  {
    frame[at.y] := c.y;
    frame[at.u] := c.u;
    frame[at.v] := c.v;
    frame[at.y + 1] := frame[at.y];
  }

  // One more pair of a row.
  method DrawNext(frame: array<byte>, at: Spot, c: Yuv, ghost before: seq<byte>, ghost spots: SpotMap, ghost row: nat,
                  ghost pair: nat, ghost paint: Paint)
    requires RowInside(spots, row, pair + 1, frame.Length) && Apart(spots(row, pair)) && |before| == frame.Length
    requires at == spots(row, pair) && c == paint(row, pair) && frame[..] == DrawRow(before, spots, row, pair, paint)
    modifies frame
    ensures frame[..] == DrawRow(before, spots, row, pair + 1, paint)
  {
    assert Inside(spots(row, pair), frame.Length);
    DrawSpot(frame, at, c);
  }

  method CountPair(b: Board, countx: nat, current: bool, ghost black: bool, ghost pairs: nat)
    returns (countx': nat, current': bool)
    requires Count(countx, current) == PairCount(b, black, pairs)
    ensures Count(countx', current') == PairCount(b, black, pairs + 1)
  {
    countx', current' := countx + 2, current;
    if countx' >= b.size {
      countx', current' := 0, !current;
    }
  }

  method CountRow(b: Board, county: nat, black: bool, ghost rows: nat) returns (county': nat, black': bool)
    requires Count(county, black) == RowCount(b, rows)
    ensures Count(county', black') == RowCount(b, rows + 1)
  {
    county', black' := county + 1, black;
    if county >= b.size {
      county', black' := 0, !black;
    }
  }

  method NextPointers(p: Planes, at: Spot, ghost spots: SpotMap, ghost row: nat, ghost pairs: nat) returns (next: Spot)
    requires spots == MapOf(p) && at == spots(row, pairs)
    ensures next == spots(row, pairs + 1)
  {
    NextSpot(p, row, pairs);
    next := Spot(at.y + 2, at.u + p.step, at.v + p.step);
  }

  // The row's part of the board, as the counters run through it.
  ghost predicate RowPaint(paint: Paint, b: Board, row: nat, black: bool, half: nat) {
    forall k: nat :: k < half ==> paint(row, k) == Shade(b, PairCount(b, black, k).black)
  }

  // One turn of the inner loop.
  method DrawTurn(frame: array<byte>, b: Board, p: Planes, at: Spot, countx: nat, current: bool,
                  ghost before: seq<byte>, ghost spots: SpotMap, ghost row: nat, ghost paint: Paint,
                  ghost black: bool, ghost pairs: nat, ghost half: nat)
    returns (at': Spot, countx': nat, current': bool)
    requires spots == MapOf(p) && |before| == frame.Length && pairs < half
    requires RowInside(spots, row, half, frame.Length) && RowApart(spots, row, half)
             && RowPaint(paint, b, row, black, half)
    requires at == spots(row, pairs) && Count(countx, current) == PairCount(b, black, pairs)
    requires frame[..] == DrawRow(before, spots, row, pairs, paint)
    modifies frame
    ensures at' == spots(row, pairs + 1) && Count(countx', current') == PairCount(b, black, pairs + 1)
    ensures frame[..] == DrawRow(before, spots, row, pairs + 1, paint)
  {
    assert Apart(spots(row, pairs)) && paint(row, pairs) == Shade(b, current);
    DrawNext(frame, at, if current then b.blackYuv else b.whiteYuv, before, spots, row, pairs, paint);
    at' := NextPointers(p, at, spots, row, pairs);
    countx', current' := CountPair(b, countx, current, black, pairs);
  }

  // One row, with the colours running through the cells.
  method DrawBoardRow(frame: array<byte>, b: Board, black: bool, start: Spot, p: Planes, width: nat,
                      ghost spots: SpotMap, ghost row: nat, ghost paint: Paint, ghost half: nat)
    requires 2 * half - 1 <= width <= 2 * half && spots == MapOf(p) && RowPaint(paint, b, row, black, half)
    requires RowInside(spots, row, half, frame.Length) && RowApart(spots, row, half) && start == spots(row, 0)
    modifies frame
    ensures frame[..] == DrawRow(old(frame[..]), spots, row, half, paint)
  {
    ghost var before := frame[..];
    var countx: nat, current, at, x := b.countx, black, start, 0;
    ghost var pairs := 0;
    while x < width
      invariant x == 2 * pairs && pairs <= half
      invariant at == spots(row, pairs) && Count(countx, current) == PairCount(b, black, pairs)
      invariant frame[..] == DrawRow(before, spots, row, pairs, paint)
    {
      at, countx, current := DrawTurn(frame, b, p, at, countx, current, before, spots, row, paint, black, pairs, half);
      x, pairs := x + 2, pairs + 1;
    }
    assert pairs == half;
  }

  lemma RowsNext(before: seq<byte>, spots: SpotMap, y: nat, half: nat, paint: Paint)
    requires RowsInside(spots, y + 1, half, |before|)
    ensures RowInside(spots, y, half, |before|)
    ensures DrawRows(before, spots, y + 1, half, paint)
            == DrawRow(DrawRows(before, spots, y, half, paint), spots, y, half, paint)
  {
  }

  // One turn of the outer loop.
  method DrawLine(frame: array<byte>, b: Board, p: Planes, width: nat, county: nat, black: bool, y: nat,
                  ghost before: seq<byte>, ghost spots: SpotMap, ghost paint: Paint, ghost half: nat)
    returns (county': nat, black': bool)
    requires 2 * half - 1 <= width <= 2 * half && spots == MapOf(p) && paint == PaintOf(b) && |before| == frame.Length
    requires RowsInside(spots, y + 1, half, |before|) && RowApart(spots, y, half)
             && Count(county, black) == RowCount(b, y)
    requires frame[..] == DrawRows(before, spots, y, half, paint)
    modifies frame
    ensures Count(county', black') == RowCount(b, y + 1)
    ensures frame[..] == DrawRows(before, spots, y + 1, half, paint)
  {
    RowsNext(before, spots, y, half, paint);
    var start := Spot(p.y + Skip(p.yStride, y), p.u + Skip(p.uvStride, y / 2), p.v + Skip(p.uvStride, y / 2));
    DrawBoardRow(frame, b, black, start, p, width, spots, y, paint, half);
    county', black' := CountRow(b, county, black, y);
  }

  ghost predicate AllApart(spots: SpotMap, rows: nat, pairs: nat) {
    forall y: nat :: y < rows ==> RowApart(spots, y, pairs)
  }

  method DrawBoard(frame: array<byte>, b: Board, p: Planes, width: nat, height: nat, ghost spots: SpotMap,
                   ghost paint: Paint, ghost half: nat)
    requires 2 * half - 1 <= width <= 2 * half && spots == MapOf(p) && paint == PaintOf(b)
    requires RowsInside(spots, height, half, frame.Length) && AllApart(spots, height, half)
    modifies frame
    ensures frame[..] == DrawRows(old(frame[..]), spots, height, half, paint)
  {
    ghost var before := frame[..];
    var county: nat, black := b.county, b.black;
    for y := 0 to height
      invariant Count(county, black) == RowCount(b, y)
      invariant frame[..] == DrawRows(before, spots, y, half, paint)
    {
      county, black := DrawLine(frame, b, p, width, county, black, y, before, spots, paint, half);
    }
  }

  function CellSize(width: nat, height: nat): nat {
    (if width < height then width else height) / 10
  }

  /** drawCheckerboard, up to the square: every pair of pixels gets its cell's colour, and
      nothing is drawn on frames too small for cells. The loops must stay inside the buffer;
      ReadsInsideIff says for which formats and sizes they do. */
  method DrawCheckerboard(f: PixelFormat, frame: array<byte>, width: nat, height: nat, b: Board)
    requires Known(f) && frame.Length == FrameBufferSize(f, width, height)
    requires Covers(DevicePlanes(f, width, height), frame.Length, RoundUp(width), height)
    requires b.size == CellSize(width, height)
    modifies frame
    ensures b.size == 0 ==> frame[..] == old(frame[..])
    ensures b.size > 0 ==>
              && RowsInside(MapOf(DevicePlanes(f, width, height)), height, RoundUp(width) / 2, frame.Length)
              && frame[..] == DrawRows(old(frame[..]), MapOf(DevicePlanes(f, width, height)), height,
                                       RoundUp(width) / 2, PaintOf(b))
  {
    if b.size == 0 {
      return;
    }
    ghost var half := RoundUp(width) / 2;
    AllInside(DevicePlanes(f, width, height), frame.Length, half, height);
    forall y: nat | y < height ensures RowApart(MapOf(DevicePlanes(f, width, height)), y, half) {
      SpotsApart(f, width, height, y, half);
    }
    DrawBoard(frame, b, DevicePlanes(f, width, height), width, height, MapOf(DevicePlanes(f, width, height)),
        PaintOf(b), half);
  }
}
