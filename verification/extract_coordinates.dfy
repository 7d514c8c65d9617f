/**
 `extract_test_coordinates.py`: scans the locator's log for lines carrying
 "X = ", "Y = " and "Z = " values, groups them into (x, y, z) triples and
 writes one CSV row per triple to `<input>_coordinates.csv`.

 Files are sequences of lines; Python's `float` is the parameter `parse`
 (`None` for a `ValueError`) and the `.2f` formatting the parameter `fmt`.
 An uncaught `ValueError` ends the whole run, so the model reports it as an
 outcome and processes no later file.
 */
module ExtractCoordinates {
  import opened Common
  import Locator

  // ---------------------------------------------------------------------
  // String helpers with Python's meaning

  /** The characters of Python's `string.whitespace`. */
  predicate IsSpace(c: char) {
    c == ' ' || c == '\t' || c == '\n' || c == '\r' || c == 11 as char || c == 12 as char
  }

  function LeadingSpaces(s: string): (n: nat)
    ensures n <= |s|
    ensures forall k :: 0 <= k < n ==> IsSpace(s[k])
    ensures n < |s| ==> !IsSpace(s[n])
  {
    if s == [] || !IsSpace(s[0]) then 0 else 1 + LeadingSpaces(s[1..])
  }

  function TrailingSpaces(s: string): (n: nat)
    ensures n <= |s|
    ensures forall k :: |s| - n <= k < |s| ==> IsSpace(s[k])
    ensures n < |s| ==> !IsSpace(s[|s| - 1 - n])
  {
    if s == [] || !IsSpace(s[|s| - 1]) then 0 else 1 + TrailingSpaces(s[..|s| - 1])
  }

  /** `str.strip()`: the longest piece of `s` that neither starts nor ends
      with whitespace; everything cut off is whitespace. */
  function Strip(s: string): (r: string)
    ensures r == [] <==> forall k :: 0 <= k < |s| ==> IsSpace(s[k])
    ensures r != [] ==> !IsSpace(r[0]) && !IsSpace(r[|r| - 1])
    ensures r != [] ==>
      var i := LeadingSpaces(s);
      i + |r| <= |s| && s[i..i + |r|] == r
      && forall k :: 0 <= k < |s| && (k < i || k >= i + |r|) ==> IsSpace(s[k])
  {
    var i := LeadingSpaces(s);
    if i == |s| then []
    else
      var j := TrailingSpaces(s);
      assert i < |s| - j;
      s[i..|s| - j]
  }

  /** Strip removes surrounding whitespace and nothing else. */
  lemma {:induction false} StripSurrounded(lead: string, t: string, trail: string)
    requires forall k :: 0 <= k < |lead| ==> IsSpace(lead[k])
    requires forall k :: 0 <= k < |trail| ==> IsSpace(trail[k])
    requires t != [] && !IsSpace(t[0]) && !IsSpace(t[|t| - 1])
    ensures Strip(lead + t + trail) == t
  {
    var s := lead + t + trail;
    LeadingSpacesOf(lead, t + trail);
    assert s == lead + (t + trail);
    TrailingSpacesOf(lead + t, trail);
  }

  lemma {:induction false} LeadingSpacesOf(lead: string, rest: string)
    requires forall k :: 0 <= k < |lead| ==> IsSpace(lead[k])
    requires rest != [] && !IsSpace(rest[0])
    ensures LeadingSpaces(lead + rest) == |lead|
    decreases |lead|
  {
    if lead != [] {
      assert (lead + rest)[1..] == lead[1..] + rest;
      LeadingSpacesOf(lead[1..], rest);
    }
  }

  lemma {:induction false} TrailingSpacesOf(init: string, trail: string)
    requires forall k :: 0 <= k < |trail| ==> IsSpace(trail[k])
    requires init != [] && !IsSpace(init[|init| - 1])
    ensures TrailingSpaces(init + trail) == |trail|
    decreases |trail|
  {
    if trail != [] {
      assert (init + trail)[..|init + trail| - 1] == init + trail[..|trail| - 1];
      TrailingSpacesOf(init, trail[..|trail| - 1]);
    }
  }

  /** `m` occurs in `s` starting at index `i`. */
  predicate OccursAt(s: string, m: string, i: nat) {
    i + |m| <= |s| && s[i..i + |m|] == m
  }

  /** The first occurrence of `m` in `s` at or after `from`. */
  function FindFrom(s: string, m: string, from: nat): (r: Option<nat>)
    requires from <= |s|
    ensures r.Some? ==> from <= r.value && OccursAt(s, m, r.value)
    ensures r.Some? ==> forall j :: from <= j < r.value ==> !OccursAt(s, m, j)
    ensures r.None? ==> forall j :: from <= j <= |s| ==> !OccursAt(s, m, j)
    decreases |s| - from
  {
    if from + |m| > |s| then None
    else if s[from..from + |m|] == m then Some(from)
    else if from == |s| then None
    else FindFrom(s, m, from + 1)
  }

  function Find(s: string, m: string): (r: Option<nat>)
    ensures r.Some? ==> OccursAt(s, m, r.value) && forall j :: 0 <= j < r.value ==> !OccursAt(s, m, j)
    ensures r.None? ==> forall j :: 0 <= j <= |s| ==> !OccursAt(s, m, j)
  {
    FindFrom(s, m, 0)
  }

  /** Python's `m in s`. */
  predicate Contains(s: string, m: string) {
    Find(s, m).Some?
  }

  /** `s.split(m)[1]` for a non-empty marker that occurs in `s`: the text
      after the first occurrence, up to the next occurrence or the end. */
  function SecondField(s: string, m: string): (r: string)
    requires m != [] && Contains(s, m)
    ensures var start := Find(s, m).value + |m|;
      && start + |r| <= |s| && s[start..start + |r|] == r
      && (forall j :: 0 <= j < |r| ==> !OccursAt(s[start..], m, j))
      && (start + |r| == |s| || OccursAt(s, m, start + |r|))
  {
    var start := Find(s, m).value + |m|;
    var next := Find(s[start..], m);
    FieldUpTo(s, m, start, next);
    if next.None? then s[start..] else s[start..][..next.value]
  }

  /** The text from `start` up to the first later occurrence of `m` (or
      the end) lies in `s`, holds no occurrence, and is followed by one
      unless it reaches the end. */
  lemma FieldUpTo(s: string, m: string, start: nat, next: Option<nat>)
    requires start <= |s|
    requires next.Some? ==> OccursAt(s[start..], m, next.value)
    requires next.Some? ==> forall j :: 0 <= j < next.value ==> !OccursAt(s[start..], m, j)
    requires next.None? ==> forall j :: 0 <= j <= |s[start..]| ==> !OccursAt(s[start..], m, j)
    ensures var rest := s[start..];
      var r := if next.None? then rest else rest[..next.value];
      && start + |r| <= |s| && s[start..start + |r|] == r
      && (forall j :: 0 <= j < |r| ==> !OccursAt(rest, m, j))
      && (start + |r| == |s| || OccursAt(s, m, start + |r|))
  {
  }

  // ---------------------------------------------------------------------
  // The accumulator

  const MarkerX: string := "X = "
  const MarkerY: string := "Y = "
  const MarkerZ: string := "Z = "

  datatype Triple = Triple(x: real, y: real, z: real)

  /** The script's `x`, `y` and `z` variables; `None` is Python's `None`. */
  datatype Acc = Acc(x: Option<real>, y: Option<real>, z: Option<real>)

  const Empty: Acc := Acc(None, None, None)

  predicate Complete(a: Acc) {
    a.x.Some? && a.y.Some? && a.z.Some?
  }

  /** How many of the three values are set. */
  function Filled(a: Acc): nat {
    (if a.x.Some? then 1 else 0) + (if a.y.Some? then 1 else 0) + (if a.z.Some? then 1 else 0)
  }

  /** Success, or an uncaught `ValueError` from `float`. */
  datatype Outcome<T> = Ok(value: T) | ValueError

  /** The stripped line mentions one of the markers. */
  predicate HasMarker(line: string) {
    var l := Strip(line);
    Contains(l, MarkerX) || Contains(l, MarkerY) || Contains(l, MarkerZ)
  }

  /** The `if`/`elif` chain: only the first marker found, in the order X, Y,
      Z, sets its variable, from the text after the marker; the other
      variables are kept. */
  function Update(a: Acc, line: string, parse: string -> Option<real>): (r: Outcome<Acc>)
    ensures var l := Strip(line);
      && (Contains(l, MarkerX) ==>
            match parse(SecondField(l, MarkerX))
            case None => r.ValueError?
            case Some(v) => r == Ok(a.(x := Some(v))))
      && (!Contains(l, MarkerX) && Contains(l, MarkerY) ==>
            match parse(SecondField(l, MarkerY))
            case None => r.ValueError?
            case Some(v) => r == Ok(a.(y := Some(v))))
      && (!Contains(l, MarkerX) && !Contains(l, MarkerY) && Contains(l, MarkerZ) ==>
            match parse(SecondField(l, MarkerZ))
            case None => r.ValueError?
            case Some(v) => r == Ok(a.(z := Some(v))))
      && (!HasMarker(line) ==> r == Ok(a))
  {
    var l := Strip(line);
    if Contains(l, MarkerX) then
      match parse(SecondField(l, MarkerX))
      case None => ValueError
      case Some(v) => Ok(a.(x := Some(v)))
    else if Contains(l, MarkerY) then
      match parse(SecondField(l, MarkerY))
      case None => ValueError
      case Some(v) => Ok(a.(y := Some(v)))
    else if Contains(l, MarkerZ) then
      match parse(SecondField(l, MarkerZ))
      case None => ValueError
      case Some(v) => Ok(a.(z := Some(v)))
    else Ok(a)
  }

  /** The state after some lines: the accumulator and the triples so far. */
  datatype Scan = Scan(acc: Acc, triples: seq<Triple>)

  /** One line: update, then flush a complete accumulator as one triple. */
  function Step(s: Scan, line: string, parse: string -> Option<real>): (r: Outcome<Scan>)
    requires !Complete(s.acc)
    ensures r.Ok? ==> !Complete(r.value.acc)
    ensures !HasMarker(line) ==> r == Ok(s)
    ensures r.Ok? <==> Update(s.acc, line, parse).Ok?
    ensures r.Ok? && Complete(Update(s.acc, line, parse).value) ==>
      var u := Update(s.acc, line, parse).value;
      r.value == Scan(Empty, s.triples + [Triple(u.x.value, u.y.value, u.z.value)])
    ensures r.Ok? && !Complete(Update(s.acc, line, parse).value) ==>
      r.value == Scan(Update(s.acc, line, parse).value, s.triples)
  {
    match Update(s.acc, line, parse)
    case ValueError => ValueError
    case Ok(u) =>
      if Complete(u) then Ok(Scan(Empty, s.triples + [Triple(u.x.value, u.y.value, u.z.value)]))
      else Ok(Scan(u, s.triples))
  }

  /** The loop over the lines of the input file. */
  function ScanLines(lines: seq<string>, parse: string -> Option<real>): (r: Outcome<Scan>)
    ensures r.Ok? ==> !Complete(r.value.acc)
    decreases |lines|
  {
    if lines == [] then Ok(Scan(Empty, []))
    else
      match ScanLines(lines[..|lines| - 1], parse)
      case ValueError => ValueError
      case Ok(s) => Step(s, lines[|lines| - 1], parse)
  }

  /** Number of lines that mention a marker. */
  function MarkerLines(lines: seq<string>): nat {
    if lines == [] then 0
    else MarkerLines(lines[..|lines| - 1]) + (if HasMarker(lines[|lines| - 1]) then 1 else 0)
  }

  /** Every triple uses three marker lines of its own, and the values still
      pending use one each: so an incomplete trailing group is never written,
      and lines without a marker never contribute. */
  lemma {:induction false} TriplesUseMarkerLines(lines: seq<string>, parse: string -> Option<real>)
    requires ScanLines(lines, parse).Ok?
    ensures var s := ScanLines(lines, parse).value;
      3 * |s.triples| + Filled(s.acc) <= MarkerLines(lines)
    decreases |lines|
  {
    if lines != [] {
      var init := lines[..|lines| - 1];
      TriplesUseMarkerLines(init, parse);
    }
  }

  /** Triples are written in the order their groups complete: the triples
      of a prefix of the input are a prefix of the triples of the whole. */
  lemma {:induction false} TriplesInOrder(lines: seq<string>, k: nat, parse: string -> Option<real>)
    requires k <= |lines|
    requires ScanLines(lines, parse).Ok?
    ensures ScanLines(lines[..k], parse).Ok?
    ensures ScanLines(lines[..k], parse).value.triples <= ScanLines(lines, parse).value.triples
    decreases |lines|
  {
    if k < |lines| {
      var init := lines[..|lines| - 1];
      assert lines[..k] == init[..k];
      TriplesInOrder(init, k, parse);
    } else {
      assert lines[..k] == lines;
    }
  }

  /** Three lines setting x, y and z, in either order shown, yield
      exactly one triple of those values; a line mentioning several markers
      counts only for the first of X, Y, Z. */
  lemma ThreeMarkersMakeATriple(parse: string -> Option<real>, lx: string, ly: string, lz: string, vx: real, vy: real, vz: real)
    requires Contains(Strip(lx), MarkerX) && parse(SecondField(Strip(lx), MarkerX)) == Some(vx)
    requires !Contains(Strip(ly), MarkerX) && Contains(Strip(ly), MarkerY)
    requires parse(SecondField(Strip(ly), MarkerY)) == Some(vy)
    requires !Contains(Strip(lz), MarkerX) && !Contains(Strip(lz), MarkerY) && Contains(Strip(lz), MarkerZ)
    requires parse(SecondField(Strip(lz), MarkerZ)) == Some(vz)
    ensures ScanLines([lx, ly, lz], parse) == Ok(Scan(Empty, [Triple(vx, vy, vz)]))
    ensures ScanLines([lz, lx, ly], parse) == Ok(Scan(Empty, [Triple(vx, vy, vz)]))
  {
    InOrderXYZ(parse, lx, ly, lz, vx, vy, vz);
    InOrderZXY(parse, lx, ly, lz, vx, vy, vz);
  }

  lemma InOrderXYZ(parse: string -> Option<real>, lx: string, ly: string, lz: string, vx: real, vy: real, vz: real)
    requires Contains(Strip(lx), MarkerX) && parse(SecondField(Strip(lx), MarkerX)) == Some(vx)
    requires !Contains(Strip(ly), MarkerX) && Contains(Strip(ly), MarkerY)
    requires parse(SecondField(Strip(ly), MarkerY)) == Some(vy)
    requires !Contains(Strip(lz), MarkerX) && !Contains(Strip(lz), MarkerY) && Contains(Strip(lz), MarkerZ)
    requires parse(SecondField(Strip(lz), MarkerZ)) == Some(vz)
    ensures ScanLines([lx, ly, lz], parse) == Ok(Scan(Empty, [Triple(vx, vy, vz)]))
  {
    var t: seq<Triple> := [];
    var none: seq<string> := [];
    var ax := Acc(Some(vx), None, None);
    var axy := Acc(Some(vx), Some(vy), None);
    var full := Acc(Some(vx), Some(vy), Some(vz));
    assert none + [lx] == [lx] && [lx] + [ly] == [lx, ly] && [lx, ly] + [lz] == [lx, ly, lz];
    assert t + [Triple(vx, vy, vz)] == [Triple(vx, vy, vz)];
    assert Update(Empty, lx, parse) == Ok(ax);
    ScanAfter(none, lx, Scan(Empty, t), ax, parse);
    assert Update(ax, ly, parse) == Ok(axy);
    ScanAfter([lx], ly, Scan(ax, t), axy, parse);
    assert Update(axy, lz, parse) == Ok(full);
    ScanAfter([lx, ly], lz, Scan(axy, t), full, parse);
  }

  lemma InOrderZXY(parse: string -> Option<real>, lx: string, ly: string, lz: string, vx: real, vy: real, vz: real)
    requires Contains(Strip(lx), MarkerX) && parse(SecondField(Strip(lx), MarkerX)) == Some(vx)
    requires !Contains(Strip(ly), MarkerX) && Contains(Strip(ly), MarkerY)
    requires parse(SecondField(Strip(ly), MarkerY)) == Some(vy)
    requires !Contains(Strip(lz), MarkerX) && !Contains(Strip(lz), MarkerY) && Contains(Strip(lz), MarkerZ)
    requires parse(SecondField(Strip(lz), MarkerZ)) == Some(vz)
    ensures ScanLines([lz, lx, ly], parse) == Ok(Scan(Empty, [Triple(vx, vy, vz)]))
  {
    var t: seq<Triple> := [];
    var none: seq<string> := [];
    var az := Acc(None, None, Some(vz));
    var axz := Acc(Some(vx), None, Some(vz));
    var full := Acc(Some(vx), Some(vy), Some(vz));
    assert none + [lz] == [lz] && [lz] + [lx] == [lz, lx] && [lz, lx] + [ly] == [lz, lx, ly];
    assert t + [Triple(vx, vy, vz)] == [Triple(vx, vy, vz)];
    assert Update(Empty, lz, parse) == Ok(az);
    ScanAfter(none, lz, Scan(Empty, t), az, parse);
    assert Update(az, lx, parse) == Ok(axz);
    ScanAfter([lz], lx, Scan(az, t), axz, parse);
    assert Update(axz, ly, parse) == Ok(full);
    ScanAfter([lz, lx], ly, Scan(axz, t), full, parse);
  }

  /** A value as `%.2f` prints it: non-empty and without whitespace. */
  predicate Plain(f: string) {
    f != [] && forall k :: 0 <= k < |f| ==> !IsSpace(f[k])
  }

  /** In a line `c = f` with plain `f`, a marker occurs only at the start,
      and only when it is that line's own marker. */
  lemma OnlyLeadingMarker(c: char, f: string, m: string, j: nat)
    requires Plain(f)
    requires m == MarkerX || m == MarkerY || m == MarkerZ
    ensures OccursAt([c] + " = " + f, m, j) <==> j == 0 && m[0] == c
  {
    var l := [c] + " = " + f;
    if j + |m| <= |l| {
      var w := l[j..j + |m|];
      assert w[0] == l[j] && w[1] == l[j + 1];
      if j >= 4 {
        assert l[j + 1] == f[j - 3];
      } else if j == 0 {
        assert l[..4] == [c] + " = ";
      }
    }
  }

  /** The log line `c = f`, with its newline, strips to `c = f`. */
  lemma PrintedLineStrips(c: char, f: string)
    requires c == 'X' || c == 'Y' || c == 'Z'
    requires Plain(f)
    ensures Strip([c] + " = " + f + "\n") == [c] + " = " + f
  {
    var l := [c] + " = " + f;
    var none: string := [];
    assert none + l + "\n" == l + "\n";
    assert l[|l| - 1] == f[|f| - 1];
    StripSurrounded(none, l, "\n");
  }

  /** The line `c = f` mentions exactly its own marker. */
  lemma PrintedLineMarker(c: char, f: string, m: string)
    requires Plain(f)
    requires m == MarkerX || m == MarkerY || m == MarkerZ
    ensures Contains([c] + " = " + f, m) <==> m[0] == c
  {
    var l := [c] + " = " + f;
    if m[0] == c {
      OnlyLeadingMarker(c, f, m, 0);
    } else if Find(l, m).Some? {
      OnlyLeadingMarker(c, f, m, Find(l, m).value);
    }
  }

  /** The text after the line's own marker is `f`. */
  lemma PrintedLineField(c: char, f: string, m: string)
    requires Plain(f)
    requires m == MarkerX || m == MarkerY || m == MarkerZ
    requires m[0] == c
    ensures Contains([c] + " = " + f, m)
    ensures SecondField([c] + " = " + f, m) == f
  {
    var l := [c] + " = " + f;
    PrintedLineMarker(c, f, m);
    OnlyLeadingMarker(c, f, m, Find(l, m).value);
    var r := SecondField(l, m);
    OnlyLeadingMarker(c, f, m, 4 + |r|);
    assert l[4..] == f;
  }

  /** What the locator prints after an estimate is read back as exactly
      one triple, of the values parsed from the printed text: the bridge
      from the firmware's log to the extraction loop. */
  lemma PrintedPositionScans(p: Vec3, fmt: real -> string, parse: string -> Option<real>)
    requires Plain(fmt(p.x)) && Plain(fmt(p.y)) && Plain(fmt(p.z))
    requires parse(fmt(p.x)).Some? && parse(fmt(p.y)).Some? && parse(fmt(p.z)).Some?
    ensures ScanLines(Locator.PrintedLines(p, fmt), parse)
      == Ok(Scan(Empty, [Triple(parse(fmt(p.x)).value, parse(fmt(p.y)).value, parse(fmt(p.z)).value)]))
  {
    var fx, fy, fz := fmt(p.x), fmt(p.y), fmt(p.z);
    var lines := Locator.PrintedLines(p, fmt);
    assert lines[0] == ['X'] + " = " + fx + "\n";
    assert lines[1] == ['Y'] + " = " + fy + "\n";
    assert lines[2] == ['Z'] + " = " + fz + "\n";
    PrintedLineStrips('X', fx);
    PrintedLineStrips('Y', fy);
    PrintedLineStrips('Z', fz);
    PrintedLineField('X', fx, MarkerX);
    PrintedLineMarker('Y', fy, MarkerX);
    PrintedLineField('Y', fy, MarkerY);
    PrintedLineMarker('Z', fz, MarkerX);
    PrintedLineMarker('Z', fz, MarkerY);
    PrintedLineField('Z', fz, MarkerZ);
    InOrderXYZ(parse, lines[0], lines[1], lines[2], parse(fx).value, parse(fy).value, parse(fz).value);
    assert lines == [lines[0], lines[1], lines[2]];
  }

  /** One more line is one more step of the loop: the accumulator becomes
      the update, or is flushed as a triple once complete. */
  lemma ScanAfter(lines: seq<string>, line: string, s: Scan, u: Acc, parse: string -> Option<real>)
    requires ScanLines(lines, parse) == Ok(s)
    requires Update(s.acc, line, parse) == Ok(u)
    ensures Complete(u) ==>
      ScanLines(lines + [line], parse) == Ok(Scan(Empty, s.triples + [Triple(u.x.value, u.y.value, u.z.value)]))
    ensures !Complete(u) ==> ScanLines(lines + [line], parse) == Ok(Scan(u, s.triples))
  {
    assert (lines + [line])[..|lines|] == lines;
  }

  // ---------------------------------------------------------------------
  // Output

  /** One CSV row, `f"{x:.2f},{y:.2f},{z:.2f}\n"`. */
  function Row(t: Triple, fmt: real -> string): (r: string)
    ensures |r| == |fmt(t.x)| + |fmt(t.y)| + |fmt(t.z)| + 3 && r[|r| - 1] == '\n'
    ensures r[..|fmt(t.x)|] == fmt(t.x) && r[|fmt(t.x)|] == ','
  {
    fmt(t.x) + "," + fmt(t.y) + "," + fmt(t.z) + "\n"
  }

  function Csv(ts: seq<Triple>, fmt: real -> string): (r: string)
    ensures r == [] <==> ts == []
    ensures ts != [] ==> r[|r| - 1] == '\n'
    ensures |r| >= 3 * |ts|
  {
    if ts == [] then [] else Csv(ts[..|ts| - 1], fmt) + Row(ts[|ts| - 1], fmt)
  }

  function Newlines(s: string): nat {
    if s == [] then 0 else Newlines(s[..|s| - 1]) + (if s[|s| - 1] == '\n' then 1 else 0)
  }

  lemma {:induction false} NewlinesAppend(a: string, b: string)
    ensures Newlines(a + b) == Newlines(a) + Newlines(b)
    decreases |b|
  {
    if b == [] {
      assert a + b == a;
    } else {
      assert (a + b)[..|a + b| - 1] == a + b[..|b| - 1];
      assert (a + b)[|a + b| - 1] == b[|b| - 1];
      NewlinesAppend(a, b[..|b| - 1]);
    }
  }

  /** With a formatter that never emits a newline, the output has exactly
      one line per triple. */
  lemma {:induction false} OneLinePerTriple(ts: seq<Triple>, fmt: real -> string)
    requires forall v: real :: Newlines(fmt(v)) == 0
    ensures Newlines(Csv(ts, fmt)) == |ts|
    decreases |ts|
  {
    if ts != [] {
      var t := ts[|ts| - 1];
      OneLinePerTriple(ts[..|ts| - 1], fmt);
      NewlinesAppend(Csv(ts[..|ts| - 1], fmt), Row(t, fmt));
      NewlinesAppend(fmt(t.x) + "," + fmt(t.y) + "," + fmt(t.z), "\n");
      NewlinesAppend(fmt(t.x) + "," + fmt(t.y) + ",", fmt(t.z));
      NewlinesAppend(fmt(t.x) + "," + fmt(t.y), ",");
      NewlinesAppend(fmt(t.x) + ",", fmt(t.y));
      NewlinesAppend(fmt(t.x), ",");
      assert Newlines(",") == 0 && Newlines("\n") == 1;
    }
  }

  const OutputSuffix: string := "_coordinates.csv"

  /** A file written by the script: its path and contents. */
  datatype Written = Written(path: string, contents: string)

  /** `extract_test_coordinates`: the CSV of all complete triples, written
      next to the input; nothing is written when `float` fails. */
  function ExtractFile(input: string, lines: seq<string>, parse: string -> Option<real>, fmt: real -> string): (r: Outcome<Written>)
    ensures r.Ok? <==> ScanLines(lines, parse).Ok?
    ensures r.Ok? ==>
      && r.value.path == input + OutputSuffix
      && r.value.contents == Csv(ScanLines(lines, parse).value.triples, fmt)
  {
    match ScanLines(lines, parse)
    case ValueError => ValueError
    case Ok(s) => Ok(Written(input + OutputSuffix, Csv(s.triples, fmt)))
  }

  /** What `main` does: the files written and the arguments reported as
      not being files, and whether a `ValueError` ended the run. */
  datatype Run = Run(written: seq<Written>, reported: seq<string>, crashed: bool)

  /** `main`: every argument that is not a file is reported and skipped;
      every file is extracted, in order, until a `ValueError`. */
  function Main(args: seq<string>, isFile: string -> bool, read: string -> seq<string>,
    parse: string -> Option<real>, fmt: real -> string): (r: Run)
    ensures |r.written| + |r.reported| <= |args|
    decreases |args|
  {
    if args == [] then Run([], [], false)
    else
      var before := Main(args[..|args| - 1], isFile, read, parse, fmt);
      var a := args[|args| - 1];
      if before.crashed then before
      else if !isFile(a) then before.(reported := before.reported + [a])
      else
        match ExtractFile(a, read(a), parse, fmt)
        case ValueError => before.(crashed := true)
        case Ok(w) => before.(written := before.written + [w])
  }

  /** The run over a prefix of the arguments is a prefix of the whole run,
      and once a `ValueError` stops it nothing more is written or reported:
      outputs of the files before the failing one are kept, none after. */
  lemma {:induction false} MainPrefix(args: seq<string>, isFile: string -> bool, read: string -> seq<string>,
    parse: string -> Option<real>, fmt: real -> string, j: nat)
    requires j <= |args|
    ensures var p, r := Main(args[..j], isFile, read, parse, fmt), Main(args, isFile, read, parse, fmt);
      && p.written <= r.written
      && p.reported <= r.reported
      && (p.crashed ==> r == p)
    decreases |args|
  {
    if j < |args| {
      var init := args[..|args| - 1];
      MainPrefix(init, isFile, read, parse, fmt, j);
      assert init[..j] == args[..j];
    } else {
      assert args[..j] == args;
    }
  }

  /** Without a `ValueError`, every argument is either reported (not a
      file) or extracted, in argument order. */
  lemma {:induction false} MainProcessesEveryArgument(args: seq<string>, isFile: string -> bool,
    read: string -> seq<string>, parse: string -> Option<real>, fmt: real -> string)
    requires forall a :: a in args && isFile(a) ==> ScanLines(read(a), parse).Ok?
    ensures var r := Main(args, isFile, read, parse, fmt);
      && !r.crashed
      && r.reported == Filter(args, isFile, false)
      && |r.written| == |Filter(args, isFile, true)|
      && forall k :: 0 <= k < |r.written| ==>
           var a := Filter(args, isFile, true)[k];
           ExtractFile(a, read(a), parse, fmt) == Ok(r.written[k])
    decreases |args|
  {
    if args != [] {
      var init := args[..|args| - 1];
      var a := args[|args| - 1];
      assert forall b :: b in init ==> b in args;
      MainProcessesEveryArgument(init, isFile, read, parse, fmt);
      var before := Main(init, isFile, read, parse, fmt);
      if isFile(a) {
        assert Filter(args, isFile, true) == Filter(init, isFile, true) + [a];
        assert Filter(args, isFile, false) == Filter(init, isFile, false);
      } else {
        assert Filter(args, isFile, true) == Filter(init, isFile, true);
        assert Filter(args, isFile, false) == Filter(init, isFile, false) + [a];
      }
    }
  }

  /** The elements of `s` on which `p` is `keep`, in order. */
  function Filter(s: seq<string>, p: string -> bool, keep: bool): (r: seq<string>)
    ensures |r| <= |s|
    ensures forall x :: x in r ==> x in s && p(x) == keep
  {
    if s == [] then []
    else Filter(s[..|s| - 1], p, keep) + (if p(s[|s| - 1]) == keep then [s[|s| - 1]] else [])
  }

  /** The filter keeps exactly the elements on which `p` is `keep`. */
  lemma {:induction false} FilterKeeps(s: seq<string>, p: string -> bool, keep: bool)
    ensures forall x :: x in Filter(s, p, keep) <==> x in s && p(x) == keep
    decreases |s|
  {
    if s != [] {
      var init := s[..|s| - 1];
      FilterKeeps(init, p, keep);
      assert s == init + [s[|s| - 1]];
    }
  }
}
