/**
 The list of resolutions a webcam reports as "640x480,320x240": parsing, the filter that keeps
 what fits inside the largest, and printing.
 */
module Resolutions {

  datatype Size = Size(width: int, height: int)

  datatype Option<T> = None | Some(value: T)

  function Area(r: Size): int {
    r.width * r.height
  }

  // ----- Numbers -----

  predicate IsDigit(c: char) {
    '0' <= c <= '9'
  }

  predicate IsSpace(c: char) {
    c == ' ' || '\t' <= c <= '\r'
  }

  function Digit(n: nat): (c: char)
    requires n < 10
    ensures IsDigit(c) && DigitValue(c) == n
  {
    '0' + n as char
  }

  function DigitValue(c: char): (n: nat)
    requires IsDigit(c)
    ensures n < 10
  {
    (c - '0') as nat
  }

  function PrintNat(n: nat): (s: string)
    ensures s != [] && IsDigit(s[0]) && ',' !in s && 'x' !in s
  {
    if n < 10 then [Digit(n)] else PrintNat(n / 10) + [Digit(n % 10)]
  }

  function PrintInt(n: int): (s: string)
    ensures s != [] && ',' !in s && 'x' !in s
  {
    if n < 0 then ['-'] + PrintNat(-n) else PrintNat(n)
  }

  // A number read so far, and the text after it.
  datatype Read = Read(value: nat, rest: string)

  function ReadDigits(s: string, sofar: nat): Read {
    if s != [] && IsDigit(s[0]) then ReadDigits(s[1..], sofar * 10 + DigitValue(s[0])) else Read(sofar, s)
  }

  function SkipSpace(s: string): string {
    if s != [] && IsSpace(s[0]) then SkipSpace(s[1..]) else s
  }

  // %d: white space, a sign, at least one digit.
  function ReadInt(s: string): Option<(int, string)> {
    var t := SkipSpace(s);
    var negative := t != [] && t[0] == '-';
    var u := if t != [] && (t[0] == '-' || t[0] == '+') then t[1..] else t;
    if u != [] && IsDigit(u[0]) then
      var r := ReadDigits(u, 0);
      var value: int := r.value;
      Some((if negative then -value else value, r.rest))
    else None
  }

  lemma {:induction false} DigitsReadBack(n: nat, rest: string)
    ensures ReadDigits(PrintNat(n) + rest, 0) == ReadDigits(rest, n)
  {
    if n < 10 {
      assert (PrintNat(n) + rest)[1..] == rest;
    } else {
      var last := [Digit(n % 10)];
      assert PrintNat(n) + rest == PrintNat(n / 10) + (last + rest);
      DigitsReadBack(n / 10, last + rest);
      assert (last + rest)[1..] == rest;
    }
  }

  lemma NatReadBack(n: nat, rest: string)
    requires rest == [] || !IsDigit(rest[0])
    ensures ReadInt(PrintNat(n) + rest) == Some((n as int, rest))
  {
    var s := PrintNat(n) + rest;
    assert SkipSpace(s) == s;
    DigitsReadBack(n, rest);
    assert ReadDigits(rest, n) == Read(n, rest);
  }

  lemma NegativeReadBack(n: nat, rest: string)
    requires rest == [] || !IsDigit(rest[0])
    ensures ReadInt(['-'] + PrintNat(n) + rest) == Some((0 - n as int, rest))
  {
    var s := ['-'] + PrintNat(n) + rest;
    assert SkipSpace(s) == s;
    assert s[1..] == PrintNat(n) + rest;
    DigitsReadBack(n, rest);
    assert ReadDigits(rest, n) == Read(n, rest);
  }

  /** %d reads back what was printed, up to the first character that is not a digit. */
  lemma IntReadBack(n: int, rest: string)
    requires rest == [] || !IsDigit(rest[0])
    ensures ReadInt(PrintInt(n) + rest) == Some((n, rest))
  {
    if n < 0 {
      NegativeReadBack(-n, rest);
    } else {
      NatReadBack(n, rest);
    }
  }

  // ----- Entries -----

  // sscanf with "%dx%d%c" gave exactly two results: nothing follows the height.
  function ScanSize(s: string): Option<Size> {
    match ReadInt(s)
    case None => None
    case Some((width, rest)) =>
      if rest == [] || rest[0] != 'x' then None
      else
        match ReadInt(rest[1..])
        case None => None
        case Some((height, rest')) => if rest' == [] then Some(Size(width, height)) else None
  }

  function PrintSize(r: Size): (s: string)
    ensures s != [] && ',' !in s
  {
    PrintInt(r.width) + ['x'] + PrintInt(r.height)
  }

  lemma SizeReadBack(r: Size)
    ensures ScanSize(PrintSize(r)) == Some(r)
  {
    var tail := ['x'] + PrintInt(r.height);
    assert PrintSize(r) == PrintInt(r.width) + tail;
    IntReadBack(r.width, tail);
    assert tail[1..] == PrintInt(r.height) + [];
    IntReadBack(r.height, []);
  }

  // ----- The list -----

  function CommaAt(s: string): (k: nat)
    ensures k <= |s| && ',' !in s[..k] && (k < |s| ==> s[k] == ',')
  {
    if s == [] || s[0] == ',' then 0 else
      var k := 1 + CommaAt(s[1..]);
      assert s[..k] == [s[0]] + s[1..][..k - 1];
      k
  }

  // What repeated getline with ',' gives: no entry after a comma that ends the text.
  function Lines(s: string): seq<string>
    decreases |s|
  {
    if s == [] then []
    else
      var k := CommaAt(s);
      if k == |s| then [s] else [s[..k]] + Lines(s[k + 1..])
  }

  function Entry(line: string): seq<Size> {
    match ScanSize(line)
    case None => []
    case Some(r) => [r]
  }

  function Entries(lines: seq<string>): seq<Size> {
    if lines == [] then [] else Entry(lines[0]) + Entries(lines[1..])
  }

  function Parse(s: string): seq<Size> {
    Entries(Lines(s))
  }

  // The first n entries, as the loop prints them.
  function PrintTo(l: seq<Size>, n: nat): (s: string)
    requires n <= |l|
    ensures n > 0 ==> s != [] && s[|s| - 1] != ','
  {
    if n == 0 then [] else if n == 1 then PrintSize(l[0]) else Separated(PrintTo(l, n - 1), PrintSize(l[n - 1]))
  }

  function Separated(s: string, line: string): string {
    s + [','] + line
  }

  function Print(l: seq<Size>): string {
    PrintTo(l, |l|)
  }

  lemma CommaUnique(s: string, k: nat)
    requires k <= |s| && ',' !in s[..k] && (k < |s| ==> s[k] == ',')
    ensures CommaAt(s) == k
  {
  }

  lemma OneLine(line: string)
    requires ',' !in line && line != []
    ensures Lines(line) == [line]
  {
  }

  lemma TwoLines(line: string, more: string)
    requires ',' !in line
    ensures Lines(Separated(line, more)) == [line] + Lines(more)
  {
    var s := Separated(line, more);
    assert s[..|line|] == line && s[|line| + 1..] == more;
    CommaUnique(s, |line|);
  }

  lemma SeparatedTwice(s: string, k: nat, line: string)
    requires k < |s| && s[k] == ','
    ensures Separated(s, line) == Separated(s[..k], Separated(s[k + 1..], line))
  {
  }

  lemma {:induction false} LastLine(s: string, line: string)
    requires s != [] && s[|s| - 1] != ',' && ',' !in line && line != []
    ensures Lines(Separated(s, line)) == Lines(s) + [line]
    decreases |s|
  {
    var k := CommaAt(s);
    if k == |s| {
      assert s[..k] == s;
      TwoLines(s, line);
      OneLine(line);
    } else {
      var rest := s[k + 1..];
      LastLine(rest, line);
      SeparatedTwice(s, k, line);
      TwoLines(s[..k], Separated(rest, line));
    }
  }

  lemma {:induction false} EntriesLast(lines: seq<string>, line: string)
    ensures Entries(lines + [line]) == Entries(lines) + Entry(line)
  {
    if lines == [] {
      assert lines + [line] == [line] && Entries([line]) == Entry(line) + Entries([]);
    } else {
      assert (lines + [line])[0] == lines[0] && (lines + [line])[1..] == lines[1..] + [line];
      EntriesLast(lines[1..], line);
    }
  }

  lemma ParseLast(s: string, line: string, size: Size)
    requires s != [] && s[|s| - 1] != ',' && ',' !in line && line != [] && ScanSize(line) == Some(size)
    ensures Parse(Separated(s, line)) == Parse(s) + [size]
  {
    LastLine(s, line);
    EntriesLast(Lines(s), line);
  }

  lemma ParseLastSize(s: string, size: Size)
    requires s != [] && s[|s| - 1] != ','
    ensures Parse(Separated(s, PrintSize(size))) == Parse(s) + [size]
  {
    SizeReadBack(size);
    ParseLast(s, PrintSize(size), size);
  }

  lemma ParseOneSize(size: Size)
    ensures Parse(PrintSize(size)) == [size]
  {
    SizeReadBack(size);
    OneLine(PrintSize(size));
    EntriesLast([], PrintSize(size));
    assert [] + [PrintSize(size)] == [PrintSize(size)];
  }

  lemma LongerSlice(l: seq<Size>, n: nat)
    requires 0 < n <= |l|
    ensures l[..n] == l[..n - 1] + [l[n - 1]]
  {
  }

  lemma ParsePrintOne(l: seq<Size>)
    requires l != []
    ensures Parse(PrintTo(l, 1)) == l[..1]
  {
    ParseOneSize(l[0]);
  }

  lemma ParsePrintMore(l: seq<Size>, n: nat, s: string)
    requires 1 < n <= |l| && s == PrintTo(l, n - 1) && Parse(s) == l[..n - 1]
    ensures Parse(PrintTo(l, n)) == l[..n]
  {
    calc {
      Parse(PrintTo(l, n));
      Parse(Separated(s, PrintSize(l[n - 1])));
      { ParseLastSize(s, l[n - 1]); }
      Parse(s) + [l[n - 1]];
      { LongerSlice(l, n); }
      l[..n];
    }
  }

  lemma {:induction false} ParsePrintTo(l: seq<Size>, n: nat)
    requires 0 < n <= |l|
    ensures Parse(PrintTo(l, n)) == l[..n]
  {
    if n == 1 {
      ParsePrintOne(l);
    } else {
      ParsePrintTo(l, n - 1);
      ParsePrintMore(l, n, PrintTo(l, n - 1));
    }
  }

  /** Parsing a printed list gives the list back. */
  lemma ParsePrint(l: seq<Size>)
    ensures Parse(Print(l)) == l
  {
    if l != [] {
      ParsePrintTo(l, |l|);
      assert l[..|l|] == l;
    }
  }

  // ----- The sensor size -----

  // The scan for the largest area, starting from a size and the area to beat.
  function Largest(l: seq<Size>, best: Size, area: int): Size {
    if l == [] then best
    else if Area(l[0]) > area then Largest(l[1..], l[0], Area(l[0]))
    else Largest(l[1..], best, area)
  }

  predicate SomePositive(l: seq<Size>) {
    exists i :: 0 <= i < |l| && Area(l[i]) > 0
  }

  // The largest size of a list, or start when no area beats the given one.
  ghost predicate IsLargest(l: seq<Size>, start: Size, area: int, r: Size) {
    if forall i :: 0 <= i < |l| ==> Area(l[i]) <= area then r == start
    else
      exists k :: 0 <= k < |l| && l[k] == r && Area(r) > area
        && (forall i :: 0 <= i < |l| ==> Area(l[i]) <= Area(r)) && (forall i :: 0 <= i < k ==> Area(l[i]) < Area(r))
  }

  /** It is the first entry of maximal area, or what it started from when no area is larger. */
  lemma {:induction false} LargestIs(l: seq<Size>, start: Size, area: int)
    ensures IsLargest(l, start, area, Largest(l, start, area))
  {
    if l != [] {
      var rest := l[1..];
      assert forall i :: 0 <= i < |rest| ==> rest[i] == l[i + 1];
      assert forall i :: 0 < i < |l| ==> l[i] == rest[i - 1];
      var (start', area') := if Area(l[0]) > area then (l[0], Area(l[0])) else (start, area);
      LargestIs(rest, start', area');
      var r := Largest(rest, start', area');
      if forall i :: 0 <= i < |rest| ==> Area(rest[i]) <= area' {
        assert r == start';
        if Area(l[0]) > area {
          assert l[0] == r;
        }
      } else {
        var k :| 0 <= k < |rest| && rest[k] == r && Area(r) > area'
          && (forall i :: 0 <= i < |rest| ==> Area(rest[i]) <= Area(r))
              && (forall i :: 0 <= i < k ==> Area(rest[i]) < Area(r));
        assert l[k + 1] == r;
      }
    }
  }

  // ----- The filter -----

  predicate Fits(r: Size, sensor: Size) {
    r.width <= sensor.width && r.height <= sensor.height
  }

  function Fitting(l: seq<Size>, sensor: Size): seq<Size> {
    if l == [] then [] else (if Fits(l[0], sensor) then [l[0]] else []) + Fitting(l[1..], sensor)
  }

  lemma {:induction false} FittingJoin(a: seq<Size>, b: seq<Size>, sensor: Size)
    ensures Fitting(a + b, sensor) == Fitting(a, sensor) + Fitting(b, sensor)
  {
    if a == [] {
      assert a + b == b;
    } else {
      assert (a + b)[0] == a[0] && (a + b)[1..] == a[1..] + b;
      FittingJoin(a[1..], b, sensor);
    }
  }

  lemma {:induction false} FittingKeeps(l: seq<Size>, sensor: Size, r: Size)
    ensures multiset(Fitting(l, sensor))[r]
         == if r.width <= sensor.width && r.height <= sensor.height then multiset(l)[r] else 0
  {
    if l != [] {
      FittingKeeps(l[1..], sensor, r);
      assert l == [l[0]] + l[1..];
    }
  }

  lemma {:induction false} FittingAll(l: seq<Size>, sensor: Size)
    requires forall i :: 0 <= i < |l| ==> Fits(l[i], sensor)
    ensures Fitting(l, sensor) == l
  {
    if l != [] {
      FittingAll(l[1..], sensor);
      assert l == [l[0]] + l[1..];
    }
  }

  function Filter(l: seq<Size>, start: Size): seq<Size> {
    Fitting(l, Largest(l, start, 0))
  }

  lemma {:induction false} FittingWithin(l: seq<Size>, sensor: Size)
    ensures forall r :: r in Fitting(l, sensor) ==> r in l && Fits(r, sensor)
  {
    if l != [] {
      FittingWithin(l[1..], sensor);
    }
  }

  // A size that beats everything before it and is not beaten after it is the largest.
  lemma {:induction false} LargestAt(a: seq<Size>, r: Size, b: seq<Size>, start: Size, area: int)
    requires Area(r) > area && (forall x :: x in a ==> Area(x) < Area(r)) && (forall x :: x in b ==> Area(x) <= Area(r))
    ensures Largest(a + [r] + b, start, area) == r
  {
    var l := a + [r] + b;
    if a == [] {
      assert l[0] == r && l[1..] == b;
      LargestNone(b, r, Area(r));
    } else {
      assert a[0] in a;
      assert l[0] == a[0] && l[1..] == a[1..] + [r] + b;
      if Area(a[0]) > area {
        LargestAt(a[1..], r, b, a[0], Area(a[0]));
      } else {
        LargestAt(a[1..], r, b, start, area);
      }
    }
  }

  lemma {:induction false} LargestNone(l: seq<Size>, start: Size, area: int)
    requires forall x :: x in l ==> Area(x) <= area
    ensures Largest(l, start, area) == start
  {
    if l != [] {
      assert l[0] in l;
      LargestNone(l[1..], start, area);
    }
  }

  // The sensor size splits a list with a positive area.
  lemma SensorSplits(l: seq<Size>, start: Size) returns (k: nat)
    requires SomePositive(l)
    ensures var r := Largest(l, start, 0);
            && k < |l| && l[k] == r && Area(r) > 0
            && (forall x :: x in l[..k] ==> Area(x) < Area(r)) && (forall x :: x in l ==> Area(x) <= Area(r))
  {
    LargestIs(l, start, 0);
    var r := Largest(l, start, 0);
    k :| 0 <= k < |l| && l[k] == r && Area(r) > 0
      && (forall i :: 0 <= i < |l| ==> Area(l[i]) <= Area(r)) && (forall i :: 0 <= i < k ==> Area(l[i]) < Area(r));
  }

  // Where the sensor size lies in the filtered list.
  lemma FilterSplits(l: seq<Size>, sensor: Size, k: nat)
    requires k < |l| && l[k] == sensor
    ensures Fitting(l, sensor) == Fitting(l[..k], sensor) + [sensor] + Fitting(l[k + 1..], sensor)
  {
    assert l == l[..k] + ([sensor] + l[k + 1..]);
    FittingJoin(l[..k], [sensor] + l[k + 1..], sensor);
    FittingJoin([sensor], l[k + 1..], sensor);
    assert Fitting([sensor], sensor) == [sensor] + Fitting([], sensor);
  }

  /** When some area is positive, the sensor size is an entry of maximal area, and it is kept. */
  lemma SensorIsKept(l: seq<Size>, start: Size)
    requires SomePositive(l)
    ensures var r := Largest(l, start, 0);
            r in Filter(l, start) && r in l && forall x :: x in l ==> Area(x) <= Area(r)
  {
    var k := SensorSplits(l, start);
    FilterSplits(l, Largest(l, start, 0), k);
  }

  lemma SensorUnchanged(l: seq<Size>, start: Size)
    ensures Largest(Filter(l, start), start, 0) == Largest(l, start, 0)
  {
    var r := Largest(l, start, 0);
    FittingWithin(l, r);
    if SomePositive(l) {
      var k := SensorSplits(l, start);
      FilterSplits(l, r, k);
      FittingWithin(l[..k], r);
      FittingWithin(l[k + 1..], r);
      LargestAt(Fitting(l[..k], r), r, Fitting(l[k + 1..], r), start, 0);
    } else {
      LargestNone(l, start, 0);
      LargestNone(Filter(l, start), start, 0);
    }
  }

  /** Filtering twice is filtering once. */
  lemma FilterAgain(l: seq<Size>, start: Size)
    ensures Filter(Filter(l, start), start) == Filter(l, start)
  {
    SensorUnchanged(l, start);
    FittingWithin(l, Largest(l, start, 0));
    FittingAll(Filter(l, start), Largest(l, start, 0));
  }

  /** Printing the filtered list, parsing it and filtering again changes nothing. */
  lemma RoundTrip(l: seq<Size>, start: Size)
    ensures Filter(Parse(Print(Filter(l, start))), start) == Filter(l, start)
  {
    ParsePrint(Filter(l, start));
    FilterAgain(l, start);
  }

  // ----- The code -----

  method GetLine(s: string, from: nat) returns (to: nat)
    requires from <= |s|
    ensures to == from + CommaAt(s[from..])
  {
    to := from;
    while to < |s| && s[to] != ','
      invariant from <= to <= |s| && ',' !in s[from..to]
    {
      to := to + 1;
    }
    assert s[from..][..to - from] == s[from..to];
    CommaUnique(s[from..], to - from);
  }

  method ReadEntry(line: string) returns (e: seq<Size>)
    ensures e == Entry(line)
  {
    match ScanSize(line)
    case Some(size) => e := [size];
    case None => e := [];
  }

  lemma ParseStep(s: string)
    requires s != []
    ensures var k := CommaAt(s); Parse(s) == Entry(s[..k]) + Parse(if k == |s| then [] else s[k + 1..])
  {
    var k := CommaAt(s);
    if k == |s| {
      assert s[..k] == s && Entries([s]) == Entry(s) + Entries([]);
    } else {
      var lines := [s[..k]] + Lines(s[k + 1..]);
      assert lines[0] == s[..k] && lines[1..] == Lines(s[k + 1..]);
    }
  }

  lemma ParseOn(s: string, at: nat, end: nat)
    requires at < |s| && end == at + CommaAt(s[at..])
    ensures Parse(s[at..]) == Entry(s[at..end]) + Parse(if end == |s| then s[|s|..] else s[end + 1..])
  {
    var rest, k := s[at..], end - at;
    assert rest[..k] == s[at..end];
    assert end < |s| ==> rest[k + 1..] == s[end + 1..];
    ParseStep(rest);
  }

  lemma Regroup(a: seq<Size>, b: seq<Size>, c: seq<Size>)
    ensures (a + b) + c == a + (b + c)
  {
  }

  method ParseDims(s: string) returns (r: seq<Size>)
    ensures r == Parse(s)
  {
    r := [];
    var at := 0;
    assert s[0..] == s;
    while at < |s|
      invariant 0 <= at <= |s| && r + Parse(s[at..]) == Parse(s)
    {
      var end := GetLine(s, at);
      ParseOn(s, at, end);
      var e := ReadEntry(s[at..end]);
      Regroup(r, e, Parse(if end == |s| then s[|s|..] else s[end + 1..]));
      r := r + e;
      at := if end < |s| then end + 1 else |s|;
    }
  }

  method FindSensorSize(l: seq<Size>, start: Size) returns (r: Size)
    ensures r == Largest(l, start, 0)
  {
    var maxArea := 0;
    r := start;
    for i := 0 to |l|
      invariant Largest(l[i..], r, maxArea) == Largest(l, start, 0)
    {
      assert l[i..][0] == l[i] && l[i..][1..] == l[i + 1..];
      var area := l[i].width * l[i].height;
      if area > maxArea {
        maxArea := area;
        r := l[i];
      }
    }
  }

  // The erase loop.
  method RemoveLarger(l: seq<Size>, sensor: Size) returns (r: seq<Size>)
    ensures r == Fitting(l, sensor)
  {
    r := l;
    var i := 0;
    while i < |r|
      invariant i <= |r| && (forall j :: 0 <= j < i ==> Fits(r[j], sensor))
      invariant Fitting(r, sensor) == Fitting(l, sensor)
      decreases |r| - i
    {
      if r[i].width > sensor.width || r[i].height > sensor.height {
        EraseOne(r, i, sensor);
        r := r[..i] + r[i + 1..];
      } else {
        i := i + 1;
      }
    }
    FittingAll(r, sensor);
  }

  lemma EraseOne(l: seq<Size>, i: nat, sensor: Size)
    requires i < |l| && !Fits(l[i], sensor)
    ensures Fitting(l[..i] + l[i + 1..], sensor) == Fitting(l, sensor)
  {
    assert l == l[..i] + ([l[i]] + l[i + 1..]);
    FittingJoin(l[..i], [l[i]] + l[i + 1..], sensor);
    FittingJoin([l[i]], l[i + 1..], sensor);
    FittingJoin(l[..i], l[i + 1..], sensor);
    assert Fitting([l[i]], sensor) == [] + Fitting([], sensor);
  }

  method PrintSizes(l: seq<Size>) returns (s: string)
    ensures s == Print(l)
  {
    s := [];
    for i := 0 to |l|
      invariant s == PrintTo(l, i)
    {
      if i != 0 {
        s := s + [','];
      }
      s := s + PrintSize(l[i]);
    }
  }

  datatype Result = Sizes(text: string) | Einval

  /** EmulatedQemuCamera::Initialize, the resolution part. */
  method Initialize(dims: string) returns (r: Result)
    ensures r.Einval? <==> Filter(Parse(dims), Size(0, 0)) == []
    ensures r.Sizes? ==>
              r.text == Print(Filter(Parse(dims), Size(0, 0))) && Parse(r.text) == Filter(Parse(dims), Size(0, 0))
  {
    var resolutions := ParseDims(dims);
    var sensor := FindSensorSize(resolutions, Size(0, 0));
    resolutions := RemoveLarger(resolutions, sensor);
    if resolutions == [] {
      return Einval;
    }
    var text := PrintSizes(resolutions);
    ParsePrint(resolutions);
    return Sizes(text);
  }

  const kMaxFrameDimsLength := 512

  /** EmulatedQemuCamera3: the same, into fields that were not given a value before. */
  class QemuCamera3 {
    var resolutions: seq<Size>
    var sensor: Size

    constructor (anything: Size)
      ensures resolutions == [] && sensor == anything
    {
      resolutions, sensor := [], anything;
    }

    method ParseResolutions(dims: string)
      modifies this
      ensures var found := old(resolutions) + Parse(dims);
              if 0 < |dims| < 512
              then resolutions == Filter(found, old(sensor)) && sensor == Largest(found, old(sensor), 0)
              else resolutions == old(resolutions) && sensor == old(sensor)
    {
      if |dims| >= kMaxFrameDimsLength || |dims| == 0 {
        return;
      }
      var parsed := ParseDims(dims);
      resolutions := resolutions + parsed;
      sensor := FindSensorSize(resolutions, sensor);
      resolutions := RemoveLarger(resolutions, sensor);
    }
  }
}
