/**
 What the resolution parser accepts, stated without the parser: a number is white space, a sign
 and digits; an entry is two numbers around an x and nothing else; a list is entries between
 commas, of which those that are no entries are skipped.
 */
module ResolutionGrammar {
  import opened Resolutions

  predicate AllDigits(d: string) {
    forall i :: 0 <= i < |d| ==> '0' <= d[i] <= '9'
  }

  predicate AllSpace(w: string) {
    forall i :: 0 <= i < |w| ==> w[i] in {' ', '\t', '\n', '\U{B}', '\U{C}', '\r'}
  }

  // The number a string of decimal digits stands for.
  function Value(d: string): nat
    requires AllDigits(d)
  {
    if d == [] then 0 else 10 * Value(d[..|d| - 1]) + (d[|d| - 1] - '0') as nat
  }

  predicate IsSign(sign: string) {
    sign == "" || sign == "+" || sign == "-"
  }

  // t is the number n: white space, an optional sign, at least one digit.
  ghost predicate Number(t: string, n: int) {
    exists w, sign, d :: Spells(t, w, sign, d, n)
  }

  predicate Spells(t: string, w: string, sign: string, d: string, n: int) {
    && t == w + sign + d && AllSpace(w) && IsSign(sign) && d != [] && AllDigits(d)
    && n == if sign == "-" then -(Value(d) as int) else Value(d)
  }

  predicate NoDigitFirst(s: string) {
    s == [] || !IsDigit(s[0])
  }

  // ----- Digits -----

  lemma {:induction false} DigitsValue(d: string, rest: string)
    requires AllDigits(d)
    ensures ReadDigits(d + rest, 0) == ReadDigits(rest, Value(d))
  {
    if d == [] {
      assert d + rest == rest;
    } else {
      var last := [d[|d| - 1]];
      assert d + rest == d[..|d| - 1] + (last + rest);
      DigitsValue(d[..|d| - 1], last + rest);
      assert (last + rest)[1..] == rest;
    }
  }

  function DigitPrefix(s: string): (d: string)
    ensures AllDigits(d) && |d| <= |s|
  {
    if s != [] && IsDigit(s[0]) then [s[0]] + DigitPrefix(s[1..]) else []
  }

  lemma {:induction false} DigitsEnd(s: string, sofar: nat)
    ensures var rest := ReadDigits(s, sofar).rest; s == DigitPrefix(s) + rest && NoDigitFirst(rest)
  {
    if s != [] && IsDigit(s[0]) {
      DigitsEnd(s[1..], sofar * 10 + DigitValue(s[0]));
      assert s == [s[0]] + s[1..];
    }
  }

  lemma DigitsRead(s: string)
    ensures ReadDigits(s, 0) == Read(Value(DigitPrefix(s)), s[|DigitPrefix(s)|..])
    ensures NoDigitFirst(s[|DigitPrefix(s)|..]) && s == DigitPrefix(s) + s[|DigitPrefix(s)|..]
  {
    DigitsEnd(s, 0);
    var d, rest := DigitPrefix(s), ReadDigits(s, 0).rest;
    DigitsValue(d, rest);
    assert s[|d|..] == rest;
  }

  // ----- White space -----

  function SpacePrefix(s: string): (w: string)
    ensures AllSpace(w) && |w| <= |s|
  {
    if s != [] && IsSpace(s[0]) then [s[0]] + SpacePrefix(s[1..]) else []
  }

  lemma {:induction false} SpaceSkipped(s: string)
    ensures s == SpacePrefix(s) + SkipSpace(s)
  {
    if s != [] && IsSpace(s[0]) {
      SpaceSkipped(s[1..]);
      assert s == [s[0]] + s[1..];
    }
  }

  lemma {:induction false} SkipsSpace(w: string, t: string)
    requires AllSpace(w) && (t == [] || !IsSpace(t[0]))
    ensures SkipSpace(w + t) == t
  {
    if w == [] {
      assert w + t == t;
    } else {
      assert (w + t)[1..] == w[1..] + t;
      SkipsSpace(w[1..], t);
    }
  }

  // ----- Numbers -----

  // The three parts of a text that %d accepts.
  lemma ReadParts(s: string) returns (w: string, sign: string, v: string)
    requires ReadInt(s).Some?
    ensures s == w + sign + v && AllSpace(w) && IsSign(sign) && v != [] && IsDigit(v[0])
    ensures var r := ReadDigits(v, 0);
            ReadInt(s).value == (if sign == "-" then -(r.value as int) else r.value, r.rest)
  {
    SpaceSkipped(s);
    var u := SkipSpace(s);
    w := SpacePrefix(s);
    sign := if u[0] == '-' then "-" else if u[0] == '+' then "+" else "";
    v := u[|sign|..];
    assert u == sign + v;
  }

  // What %d takes is a number, and it stops at the first character that is no digit.
  lemma ReadIsNumber(s: string) returns (t: string)
    requires ReadInt(s).Some?
    ensures var (n, rest) := ReadInt(s).value; s == t + rest && Number(t, n) && NoDigitFirst(rest)
  {
    var w, sign, v := ReadParts(s);
    DigitsRead(v);
    var d, rest := DigitPrefix(v), v[|DigitPrefix(v)|..];
    t := w + sign + d;
    assert s == t + rest;
    assert Spells(t, w, sign, d, ReadInt(s).value.0);
  }

  lemma ReadSigned(w: string, sign: string, v: string)
    requires AllSpace(w) && IsSign(sign) && v != [] && IsDigit(v[0])
    ensures var r := ReadDigits(v, 0);
            ReadInt(w + (sign + v)) == Some((if sign == "-" then -(r.value as int) else r.value, r.rest))
  {
    var u := sign + v;
    SkipsSpace(w, u);
    assert sign != "" ==> u[0] == sign[0] && u[1..] == v;
    assert sign == "" ==> u == v;
  }

  // And every number is taken.
  lemma NumberIsRead(t: string, n: int, rest: string)
    requires Number(t, n) && NoDigitFirst(rest)
    ensures ReadInt(t + rest) == Some((n, rest))
  {
    var w, sign, d :| Spells(t, w, sign, d, n);
    var v := d + rest;
    assert t + rest == w + (sign + v);
    DigitsValue(d, rest);
    assert ReadDigits(v, 0) == Read(Value(d), rest);
    ReadSigned(w, sign, v);
  }

  // ----- Entries -----

  /** An entry is accepted, as the size it spells, exactly if it is two numbers around an x with
      nothing after them; leading white space and a plus sign are allowed, anything else is not. */
  lemma EntryAcceptedIff(s: string, r: Size)
    ensures ScanSize(s) == Some(r) <==> exists a, b :: s == a + "x" + b && Number(a, r.width) && Number(b, r.height)
  {
    if ScanSize(s) == Some(r) {
      var a := ReadIsNumber(s);
      var rest := ReadInt(s).value.1;
      var b := ReadIsNumber(rest[1..]);
      assert rest == "x" + rest[1..] && rest[1..] == b + [];
      assert s == a + "x" + b;
    }
    if a, b :| s == a + "x" + b && Number(a, r.width) && Number(b, r.height) {
      EntryAccepted(a, b, r);
    }
  }

  lemma EntryAccepted(a: string, b: string, r: Size)
    requires Number(a, r.width) && Number(b, r.height)
    ensures ScanSize(a + "x" + b) == Some(r)
  {
    var rest := "x" + b;
    assert a + "x" + b == a + rest;
    NumberIsRead(a, r.width, rest);
    assert rest[1..] == b + [];
    NumberIsRead(b, r.height, []);
  }

  // ----- Lists -----

  function Join(lines: seq<string>): string {
    if lines == [] then [] else if |lines| == 1 then lines[0] else lines[0] + "," + Join(lines[1..])
  }

  ghost predicate Joins(s: string) {
    && (forall i :: 0 <= i < |Lines(s)| ==> ',' !in Lines(s)[i])
    && (Lines(s) == [] <==> s == [])
    && (s != [] ==> s == Join(Lines(s)) + (if s[|s| - 1] == ',' then "," else ""))
  }

  lemma OneLineJoins(s: string)
    requires s != [] && CommaAt(s) == |s|
    ensures Joins(s)
  {
    assert s[..|s|] == s;
    assert s[|s| - 1] in s;
  }

  lemma LastCommaJoins(line: string)
    requires ',' !in line
    ensures Joins(line + ",")
  {
    var s := line + ",";
    assert s[..|line|] == line;
    CommaUnique(s, |line|);
    assert s[|line| + 1..] == [];
    assert Lines(s) == [line] + Lines([]);
  }

  lemma JoinMore(line: string, lines: seq<string>)
    requires lines != []
    ensures Join([line] + lines) == line + "," + Join(lines)
  {
    assert ([line] + lines)[1..] == lines;
  }

  lemma Regrouped(line: string, j: string, tail: string)
    ensures line + "," + (j + tail) == (line + "," + j) + tail
  {
  }

  lemma MoreLinesJoin(line: string, rest: string)
    requires ',' !in line && rest != [] && Joins(rest)
    ensures Joins(line + "," + rest)
  {
    var s := line + "," + rest;
    assert s == Separated(line, rest);
    TwoLines(line, rest);
    JoinMore(line, Lines(rest));
    assert s[|s| - 1] == rest[|rest| - 1];
    Regrouped(line, Join(Lines(rest)), if s[|s| - 1] == ',' then "," else "");
  }

  /** The lines of a text are what lies between its commas: none of them has a comma, and put
      together again they are the text, but for a comma at its end. */
  lemma {:induction false} LinesJoin(s: string)
    ensures forall i :: 0 <= i < |Lines(s)| ==> ',' !in Lines(s)[i]
    ensures Lines(s) == [] <==> s == []
    ensures s != [] ==> s == Join(Lines(s)) + (if s[|s| - 1] == ',' then "," else "")
    decreases |s|
  {
    assert Joins(s) by {
      LinesJoinBack(s);
    }
  }

  lemma {:induction false} LinesJoinBack(s: string)
    ensures Joins(s)
    decreases |s|
  {
    if s != [] {
      var k := CommaAt(s);
      if k == |s| {
        OneLineJoins(s);
      } else {
        var line, rest := s[..k], s[k + 1..];
        assert s == line + "," + rest;
        if rest == [] {
          assert s == line + ",";
          LastCommaJoins(line);
        } else {
          LinesJoinBack(rest);
          MoreLinesJoin(line, rest);
        }
      }
    }
  }

  // The lines that spell a size, in their order.
  function Scannable(lines: seq<string>): seq<string> {
    if lines == [] then []
    else (if ScanSize(lines[0]).Some? then [lines[0]] else []) + Scannable(lines[1..])
  }

  /** Every line that spells a size gives that entry, in the order of the lines, and no other does. */
  lemma {:induction false} EntriesInOrder(lines: seq<string>)
    ensures |Entries(lines)| == |Scannable(lines)|
    ensures forall i :: 0 <= i < |Scannable(lines)| ==> ScanSize(Scannable(lines)[i]) == Some(Entries(lines)[i])
  {
    if lines != [] {
      EntriesInOrder(lines[1..]);
    }
  }

  /** A size is in the parsed list exactly if some line spells it. */
  lemma {:induction false} EntriesAre(lines: seq<string>, r: Size)
    ensures r in Entries(lines) <==> exists i :: 0 <= i < |lines| && ScanSize(lines[i]) == Some(r)
  {
    if lines != [] {
      EntriesAre(lines[1..], r);
      assert forall i :: 0 < i < |lines| ==> lines[i] == lines[1..][i - 1];
      if r in Entries(lines) && r !in Entry(lines[0]) {
        var i :| 0 <= i < |lines[1..]| && ScanSize(lines[1..][i]) == Some(r);
        assert ScanSize(lines[i + 1]) == Some(r);
      }
    }
  }
}
