/**
 `process_test_coordinates.py`: reads the CSV files written by the
 extraction script, one per test position, averages the coordinates of each
 and reports the distance of the average from that test's ground truth.

 Files are sequences of lines (each with its `\n`, as Python iterates them);
 Python's `float` is the parameter `parse` (`None` for a `ValueError`) and
 `** 0.5` the parameter `sqrt`. An uncaught `ValueError` ends the run.
 */
module ProcessCoordinates {
  import opened Common
  import opened ExtractCoordinates

  // ---------------------------------------------------------------------
  // str.split with a one-character separator

  /** Number of occurrences of `c` in `s`. */
  function Occurrences(s: string, c: char): nat {
    if s == [] then 0
    else Occurrences(s[..|s| - 1], c) + (if s[|s| - 1] == c then 1 else 0)
  }

  /** Python's `s.split(sep)`: the pieces between the separators, one more
      than there are separators, none of them holding a separator. */
  function Split(s: string, sep: char): (r: seq<string>)
    ensures |r| == Occurrences(s, sep) + 1
    ensures forall k :: 0 <= k < |r| ==> sep !in r[k]
    decreases |s|
  {
    if s == [] then [[]]
    else
      var init := Split(s[..|s| - 1], sep);
      var c := s[|s| - 1];
      if c == sep then init + [[]]
      else
        assert forall k :: 0 <= k < |init| - 1 ==> (init[..|init| - 1] + [init[|init| - 1] + [c]])[k] == init[k];
        init[..|init| - 1] + [init[|init| - 1] + [c]]
  }

  /** `sep.join(pieces)`. */
  function Join(pieces: seq<string>, sep: char): string
    requires |pieces| > 0
  {
    if |pieces| == 1 then pieces[0]
    else Join(pieces[..|pieces| - 1], sep) + [sep] + pieces[|pieces| - 1]
  }

  /** Joining the pieces of a split gives back the string. */
  lemma {:induction false} JoinSplit(s: string, sep: char)
    ensures Join(Split(s, sep), sep) == s
    decreases |s|
  {
    if s != [] {
      var init := s[..|s| - 1];
      var c := s[|s| - 1];
      var p := Split(init, sep);
      JoinSplit(init, sep);
      assert s == init + [c];
      if c == sep {
        assert Split(s, sep) == p + [[]];
        assert (p + [[]])[..|p|] == p;
      } else {
        var q := Split(s, sep);
        assert q == p[..|p| - 1] + [p[|p| - 1] + [c]];
        if |p| == 1 {
          assert q == [p[0] + [c]];
        } else {
          assert q[..|q| - 1] == p[..|p| - 1];
          assert Join(p, sep) == Join(p[..|p| - 1], sep) + [sep] + p[|p| - 1];
        }
      }
    }
  }

  /** Splitting the join of separator-free pieces gives back the pieces. */
  lemma {:induction false} SplitJoin(pieces: seq<string>, sep: char)
    requires |pieces| > 0
    requires forall k :: 0 <= k < |pieces| ==> sep !in pieces[k]
    ensures Split(Join(pieces, sep), sep) == pieces
    decreases |pieces|
  {
    var last := pieces[|pieces| - 1];
    if |pieces| == 1 {
      SplitJoinSingle(last, sep);
      assert pieces == [last];
    } else {
      var init := pieces[..|pieces| - 1];
      assert pieces == init + [last];
      assert Split(Join(init + [last], sep), sep) == init + [last] by {
        assert forall k :: 0 <= k < |init| ==> init[k] == pieces[k];
        SplitJoin(init, sep);
        SplitJoinOneMore(init, last, sep);
      }
    }
  }

  lemma SplitJoinSingle(p: string, sep: char)
    requires sep !in p
    ensures Split(Join([p], sep), sep) == [p]
  {
    var e: string := [];
    SplitPlain(e, p, sep);
    assert e + p == p;
  }

  lemma SplitJoinOneMore(init: seq<string>, last: string, sep: char)
    requires |init| > 0 && sep !in last
    requires Split(Join(init, sep), sep) == init
    ensures Split(Join(init + [last], sep), sep) == init + [last]
  {
    var j := Join(init, sep);
    var e: string := [];
    var p := init + [e];
    assert (init + [last])[..|init|] == init;
    assert Join(init + [last], sep) == j + [sep] + last;
    SplitSeparator(j, sep);
    SplitPlain(j + [sep], last, sep);
    assert p[..|p| - 1] == init && p[|p| - 1] == e;
    assert e + last == last;
  }

  /** A separator at the end starts a new, empty piece. */
  lemma SplitSeparator(s: string, sep: char)
    ensures Split(s + [sep], sep) == Split(s, sep) + [[]]
  {
  }

  /** Appending separator-free text extends the last piece. */
  lemma {:induction false} SplitPlain(s: string, t: string, sep: char)
    requires sep !in t
    ensures var p := Split(s, sep);
      Split(s + t, sep) == p[..|p| - 1] + [p[|p| - 1] + t]
    decreases |t|
  {
    var p := Split(s, sep);
    if t == [] {
      assert s + t == s;
      assert p[|p| - 1] + t == p[|p| - 1];
      assert p[..|p| - 1] + [p[|p| - 1]] == p;
    } else {
      var u := t[..|t| - 1];
      var c := t[|t| - 1];
      SplitPlain(s, u, sep);
      assert (s + t)[..|s + t| - 1] == s + u;
      assert (s + t)[|s + t| - 1] == c;
      assert c != sep by { assert c == t[|t| - 1]; }
      var q := Split(s + u, sep);
      assert q[..|q| - 1] == p[..|p| - 1];
      assert q[|q| - 1] + [c] == p[|p| - 1] + t;
    }
  }

  // ---------------------------------------------------------------------
  // Reading a CSV file

  /** One line of a CSV file: with at least three comma-separated fields,
      the first three are parsed as x, y and z (any failure is a
      `ValueError`); a shorter line gives nothing. Since all three values
      are set together, every such line becomes one coordinate. */
  function ParseRow(line: string, parse: string -> Option<real>): (r: Outcome<Option<Triple>>)
    ensures var w := Split(line, ',');
      && (|w| < 3 ==> r == Ok(None))
      && (|w| >= 3 ==>
            (r.Ok? <==> parse(w[0]).Some? && parse(w[1]).Some? && parse(w[2]).Some?)
            && (r.Ok? ==> r.value == Some(Triple(parse(w[0]).value, parse(w[1]).value, parse(w[2]).value))))
  {
    var w := Split(line, ',');
    if |w| < 3 then Ok(None)
    else
      match (parse(w[0]), parse(w[1]), parse(w[2]))
      case (Some(x), Some(y), Some(z)) => Ok(Some(Triple(x, y, z)))
      case _ => ValueError
  }

  /** Number of lines with at least three fields. */
  function RowLines(lines: seq<string>): nat {
    if lines == [] then 0
    else RowLines(lines[..|lines| - 1]) + (if |Split(lines[|lines| - 1], ',')| >= 3 then 1 else 0)
  }

  /** The coordinates of a file: one per line with at least three fields, in
      file order; the read fails exactly when one of those lines does not
      parse. */
  function ReadCoordinates(lines: seq<string>, parse: string -> Option<real>): (r: Outcome<seq<Triple>>)
    ensures r.Ok? <==> forall k :: 0 <= k < |lines| ==> ParseRow(lines[k], parse).Ok?
    ensures r.Ok? ==> |r.value| == RowLines(lines)
    decreases |lines|
  {
    if lines == [] then Ok([])
    else
      var init := lines[..|lines| - 1];
      var last := lines[|lines| - 1];
      assert forall k :: 0 <= k < |init| ==> init[k] == lines[k];
      match ReadCoordinates(init, parse)
      case ValueError => ValueError
      case Ok(cs) =>
        match ParseRow(last, parse)
        case ValueError => ValueError
        case Ok(None) => Ok(cs)
        case Ok(Some(c)) => Ok(cs + [c])
  }

  /** The lines of the file the extraction script writes for `ts`. */
  function RowsOf(ts: seq<Triple>, fmt: real -> string): (r: seq<string>)
    ensures |r| == |ts|
  {
    seq(|ts|, k requires 0 <= k < |ts| => Row(ts[k], fmt))
  }

  /** Concatenation of lines. */
  function Concat(lines: seq<string>): string {
    if lines == [] then [] else Concat(lines[..|lines| - 1]) + lines[|lines| - 1]
  }

  /** The extraction script's CSV is its rows, one after the other. */
  lemma {:induction false} CsvIsRows(ts: seq<Triple>, fmt: real -> string)
    ensures Concat(RowsOf(ts, fmt)) == Csv(ts, fmt)
    decreases |ts|
  {
    if ts != [] {
      var init := ts[..|ts| - 1];
      CsvIsRows(init, fmt);
      assert RowsOf(ts, fmt)[..|ts| - 1] == RowsOf(init, fmt);
    }
  }

  /** The extraction script's rows read back as the triples they were
      written from, each value rounded by the formatting: for a formatter
      that never writes a comma, and a parser that reads a formatted value,
      with or without the line's newline, as the rounded value. */
  lemma {:induction false} ReadsBackExtracted(ts: seq<Triple>, fmt: real -> string,
    parse: string -> Option<real>, round: real -> real)
    requires forall v: real :: ',' !in fmt(v)
    requires forall v: real :: parse(fmt(v)) == Some(round(v)) && parse(fmt(v) + "\n") == Some(round(v))
    ensures ReadCoordinates(RowsOf(ts, fmt), parse) == Ok(Rounded(ts, round))
    decreases |ts|
  {
    if ts == [] {
      assert RowsOf(ts, fmt) == [];
    } else {
      var init := ts[..|ts| - 1];
      var t := ts[|ts| - 1];
      assert ts == init + [t];
      assert ReadCoordinates(RowsOf(init + [t], fmt), parse) == Ok(Rounded(init + [t], round)) by {
        ReadsBackExtracted(init, fmt, parse, round);
        assert ',' !in fmt(t.x) && ',' !in fmt(t.y) && ',' !in fmt(t.z);
        assert parse(fmt(t.x)) == Some(round(t.x)) && parse(fmt(t.y)) == Some(round(t.y));
        assert parse(fmt(t.z) + "\n") == Some(round(t.z));
        RowParses(t, fmt, parse, round);
        ReadsBackOneMore(init, t, fmt, parse, round);
      }
    }
  }

  lemma ReadsBackOneMore(ts: seq<Triple>, t: Triple, fmt: real -> string,
    parse: string -> Option<real>, round: real -> real)
    requires ReadCoordinates(RowsOf(ts, fmt), parse) == Ok(Rounded(ts, round))
    requires ParseRow(Row(t, fmt), parse) == Ok(Some(Triple(round(t.x), round(t.y), round(t.z))))
    ensures ReadCoordinates(RowsOf(ts + [t], fmt), parse) == Ok(Rounded(ts + [t], round))
  {
    var c := Triple(round(t.x), round(t.y), round(t.z));
    ReadOneMore(RowsOf(ts, fmt), Row(t, fmt), parse, Rounded(ts, round), c);
    assert RowsOf(ts + [t], fmt) == RowsOf(ts, fmt) + [Row(t, fmt)];
    assert Rounded(ts + [t], round) == Rounded(ts, round) + [c];
  }

  /** A written row reads back as its rounded values. */
  lemma RowParses(t: Triple, fmt: real -> string, parse: string -> Option<real>, round: real -> real)
    requires ',' !in fmt(t.x) && ',' !in fmt(t.y) && ',' !in fmt(t.z)
    requires parse(fmt(t.x)) == Some(round(t.x)) && parse(fmt(t.y)) == Some(round(t.y))
    requires parse(fmt(t.z) + "\n") == Some(round(t.z))
    ensures ParseRow(Row(t, fmt), parse) == Ok(Some(Triple(round(t.x), round(t.y), round(t.z))))
  {
    RowSplits(t, fmt);
  }

  /** Row by row: a line with at least three fields supplies the coordinate
      that follows those of the earlier such lines, and that coordinate is
      its parsed triple; shorter lines supply nothing. */
  lemma {:induction false} ReadCoordinatesEntry(lines: seq<string>, parse: string -> Option<real>, k: nat)
    requires k < |lines|
    requires ReadCoordinates(lines, parse).Ok?
    ensures var cs := ReadCoordinates(lines, parse).value;
      && (|Split(lines[k], ',')| >= 3 ==>
            && ParseRow(lines[k], parse) == Ok(Some(ParseRow(lines[k], parse).value.value))
            && RowLines(lines[..k]) < |cs|
            && cs[RowLines(lines[..k])] == ParseRow(lines[k], parse).value.value)
      && (|Split(lines[k], ',')| < 3 ==> RowLines(lines[..k + 1]) == RowLines(lines[..k]))
    decreases |lines|
  {
    var init := lines[..|lines| - 1];
    assert lines[..k + 1][..k] == lines[..k];
    if k == |lines| - 1 {
      assert init == lines[..k];
      assert lines[..k + 1] == lines;
    } else {
      ReadCoordinatesEntry(init, parse, k);
      assert init[k] == lines[k];
      assert init[..k] == lines[..k];
      assert init[..k + 1] == lines[..k + 1];
    }
  }

  /** Each value of each triple, rounded. */
  function Rounded(ts: seq<Triple>, round: real -> real): (r: seq<Triple>)
    ensures |r| == |ts|
  {
    seq(|ts|, k requires 0 <= k < |ts| => Triple(round(ts[k].x), round(ts[k].y), round(ts[k].z)))
  }

  /** A line that parses as a coordinate adds it at the end. */
  lemma ReadOneMore(lines: seq<string>, line: string, parse: string -> Option<real>, cs: seq<Triple>, c: Triple)
    requires ReadCoordinates(lines, parse) == Ok(cs)
    requires ParseRow(line, parse) == Ok(Some(c))
    ensures ReadCoordinates(lines + [line], parse) == Ok(cs + [c])
  {
  }

  /** One written row splits into its three formatted values, the last
      still carrying the newline. */
  lemma RowSplits(t: Triple, fmt: real -> string)
    requires ',' !in fmt(t.x) && ',' !in fmt(t.y) && ',' !in fmt(t.z)
    ensures Split(Row(t, fmt), ',') == [fmt(t.x), fmt(t.y), fmt(t.z) + "\n"]
  {
    var pieces := [fmt(t.x), fmt(t.y), fmt(t.z) + "\n"];
    assert ',' !in fmt(t.z) + "\n";
    assert pieces[..2] == [fmt(t.x), fmt(t.y)] && pieces[..2][..1] == [fmt(t.x)];
    assert Join(pieces[..2], ',') == fmt(t.x) + [','] + fmt(t.y);
    assert Join(pieces, ',') == (fmt(t.x) + [','] + fmt(t.y)) + [','] + (fmt(t.z) + "\n");
    assert Join(pieces, ',') == Row(t, fmt);
    SplitJoin(pieces, ',');
  }

  // ---------------------------------------------------------------------
  // Mean and error

  /** The running sums of the three coordinates, from 0. */
  function Sums(ts: seq<Triple>): (s: Triple)
    ensures ts == [] ==> s == Triple(0.0, 0.0, 0.0)
    ensures |ts| == 1 ==> s == ts[0]
  {
    if ts == [] then Triple(0.0, 0.0, 0.0)
    else
      var s := Sums(ts[..|ts| - 1]);
      var t := ts[|ts| - 1];
      Triple(s.x + t.x, s.y + t.y, s.z + t.z)
  }

  /** Sums add up over a concatenation: the sums of `a + b` are the
      componentwise sums of those of `a` and of `b`. */
  lemma {:induction false} SumsAppend(a: seq<Triple>, b: seq<Triple>)
    ensures var s, sa, sb := Sums(a + b), Sums(a), Sums(b);
      s == Triple(sa.x + sb.x, sa.y + sb.y, sa.z + sb.z)
    decreases |b|
  {
    if b == [] {
      assert a + b == a;
    } else {
      var init := b[..|b| - 1];
      SumsAppend(a, init);
      assert (a + b)[..|a + b| - 1] == a + init;
      assert (a + b)[|a + b| - 1] == b[|b| - 1];
    }
  }

  /** The mean of the coordinates of one file. */
  function Mean(ts: seq<Triple>): (m: Triple)
    requires |ts| > 0
    ensures (|ts| as real) * m.x == Sums(ts).x
    ensures (|ts| as real) * m.y == Sums(ts).y
    ensures (|ts| as real) * m.z == Sums(ts).z
  {
    var n := |ts| as real;
    var s := Sums(ts);
    Triple(s.x / n, s.y / n, s.z / n)
  }

  /** `t` lies in the axis-aligned box from `lo` to `hi`. */
  predicate InBox(t: Triple, lo: Triple, hi: Triple) {
    lo.x <= t.x <= hi.x && lo.y <= t.y <= hi.y && lo.z <= t.z <= hi.z
  }

  /** `k` copies of `v` added up. */
  function Times(k: nat, v: real): real {
    if k == 0 then 0.0 else Times(k - 1, v) + v
  }

  lemma {:induction false} TimesIsProduct(k: nat, v: real)
    ensures Times(k, v) == (k as real) * v
  {
    if k > 0 {
      TimesIsProduct(k - 1, v);
      assert (k as real) * v == ((k - 1) as real) * v + v;
    }
  }

  lemma {:induction false} SumsWithin(ts: seq<Triple>, lo: Triple, hi: Triple)
    requires forall k :: 0 <= k < |ts| ==> InBox(ts[k], lo, hi)
    ensures var n := |ts|; var s := Sums(ts);
      && Times(n, lo.x) <= s.x <= Times(n, hi.x)
      && Times(n, lo.y) <= s.y <= Times(n, hi.y)
      && Times(n, lo.z) <= s.z <= Times(n, hi.z)
    decreases |ts|
  {
    if ts != [] {
      var init := ts[..|ts| - 1];
      assert forall k :: 0 <= k < |init| ==> init[k] == ts[k];
      SumsWithin(init, lo, hi);
      assert InBox(ts[|ts| - 1], lo, hi);
    }
  }

  /** The mean of coordinates that all lie in a box lies in that box. */
  lemma MeanWithin(ts: seq<Triple>, lo: Triple, hi: Triple)
    requires |ts| > 0
    requires forall k :: 0 <= k < |ts| ==> InBox(ts[k], lo, hi)
    ensures InBox(Mean(ts), lo, hi)
  {
    var s := Sums(ts);
    SumsWithin(ts, lo, hi);
    DivideBounds(|ts|, lo.x, s.x, hi.x);
    DivideBounds(|ts|, lo.y, s.y, hi.y);
    DivideBounds(|ts|, lo.z, s.z, hi.z);
  }

  lemma DivideBounds(n: nat, lo: real, s: real, hi: real)
    requires n > 0
    requires Times(n, lo) <= s <= Times(n, hi)
    ensures lo <= s / (n as real) <= hi
  {
    TimesIsProduct(n, lo);
    TimesIsProduct(n, hi);
    var m := n as real;
    var q := s / m;
    assert q * m == s;
    assert Times(n, lo) == m * lo && Times(n, hi) == m * hi;
    assert lo * m <= q * m && q * m <= hi * m;
    CancelPositive(lo, q, m);
    CancelPositive(q, hi, m);
  }

  lemma CancelPositive(a: real, b: real, m: real)
    requires m > 0.0 && a * m <= b * m
    ensures a <= b
  {
  }

  /** The mean of identical coordinates is that coordinate. */
  lemma MeanOfIdentical(ts: seq<Triple>, t: Triple)
    requires |ts| > 0
    requires forall k :: 0 <= k < |ts| ==> ts[k] == t
    ensures Mean(ts) == t
  {
    MeanWithin(ts, t, t);
  }

  /** The squared distance between two points. */
  function DistanceSquared(a: Triple, b: Triple): real {
    (a.x - b.x) * (a.x - b.x) + (a.y - b.y) * (a.y - b.y) + (a.z - b.z) * (a.z - b.z)
  }

  /** The error of a test: the Euclidean distance of the mean from the
      ground truth. */
  function Error(mean: Triple, truth: Triple, sqrt: real -> real): (e: real)
    ensures RootAt(sqrt, DistanceSquared(mean, truth)) ==>
      e >= 0.0 && e * e == DistanceSquared(mean, truth)
  {
    sqrt(DistanceSquared(mean, truth))
  }

  /** The error is zero exactly when the mean is the ground truth. */
  lemma ErrorZeroIffExact(mean: Triple, truth: Triple, sqrt: real -> real)
    requires RootAt(sqrt, DistanceSquared(mean, truth))
    ensures Error(mean, truth, sqrt) == 0.0 <==> mean == truth
  {
    var dx, dy, dz := mean.x - truth.x, mean.y - truth.y, mean.z - truth.z;
    assert dx * dx >= 0.0 && dy * dy >= 0.0 && dz * dz >= 0.0;
    var e := Error(mean, truth, sqrt);
    if e == 0.0 {
      assert DistanceSquared(mean, truth) == 0.0;
      assert dx * dx == 0.0 && dy * dy == 0.0 && dz * dz == 0.0;
      SquareZero(dx);
      SquareZero(dy);
      SquareZero(dz);
    }
    if mean == truth {
      assert DistanceSquared(mean, truth) == 0.0;
      RootUnique(e, 0.0);
    }
  }

  lemma SquareZero(d: real)
    requires d * d == 0.0
    ensures d == 0.0
  {
    if d > 0.0 {
      SquareStrictlyMonotonic(0.0, d);
    } else if d < 0.0 {
      SquareStrictlyMonotonic(0.0, -d);
    }
  }

  // ---------------------------------------------------------------------
  // calculate_test_errors and main

  /** Only the first three files are evaluated, as tests 1, 2 and 3. */
  const TestCount: nat := 3

  /** The measured test positions, as the script lists them. */
  const GroundTruths: seq<Triple> := [Triple(3.30, 0.0, 9.06), Triple(9.69, 0.0, 9.40), Triple(-1.53, 0.0, 9.27)]

  /** One printed line: the test (0-based; printed as `test + 1`) and its
      error. */
  datatype Report = Report(test: nat, error: real)

  /** The lines printed, and whether a `ValueError` ended the run. */
  datatype Errors = Errors(reports: seq<Report>, crashed: bool)

  /** The report for test `i`, if its file has any coordinates. */
  predicate Reports(r: Report, i: nat, files: seq<string>, read: string -> seq<string>,
    parse: string -> Option<real>, sqrt: real -> real)
  {
    && i < |files| && i < |GroundTruths|
    && r.test == i
    && var c := ReadCoordinates(read(files[i]), parse);
    && c.Ok? && |c.value| > 0
    && r.error == Error(Mean(c.value), GroundTruths[i], sqrt)
  }

  /** The loop of `calculate_test_errors` over the first `n` files: a file
      without coordinates is skipped, a `ValueError` stops the run. Every
      report is about a distinct test, in increasing order, and its error is
      the distance of that file's mean from that test's ground truth. */
  function ErrorsUpTo(files: seq<string>, n: nat, read: string -> seq<string>,
    parse: string -> Option<real>, sqrt: real -> real): (r: Errors)
    requires n <= |files| && n <= TestCount
    ensures |r.reports| <= n
    ensures forall k :: 0 <= k < |r.reports| ==> r.reports[k].test < n
    ensures forall j, k :: 0 <= j < k < |r.reports| ==> r.reports[j].test < r.reports[k].test
    ensures forall k :: 0 <= k < |r.reports| ==>
      Reports(r.reports[k], r.reports[k].test, files, read, parse, sqrt)
    ensures !r.crashed <==> forall i :: 0 <= i < n ==> ReadCoordinates(read(files[i]), parse).Ok?
    decreases n
  {
    if n == 0 then Errors([], false)
    else
      var before := ErrorsUpTo(files, n - 1, read, parse, sqrt);
      var i := n - 1;
      if before.crashed then before
      else
        match ReadCoordinates(read(files[i]), parse)
        case ValueError => before.(crashed := true)
        case Ok(cs) =>
          if |cs| == 0 then before
          else before.(reports := before.reports + [Report(i, Error(Mean(cs), GroundTruths[i], sqrt))])
  }

  /** `calculate_test_errors`. */
  function TestErrors(files: seq<string>, read: string -> seq<string>,
    parse: string -> Option<real>, sqrt: real -> real): (r: Errors)
    ensures |r.reports| <= TestCount
    ensures forall k :: 0 <= k < |r.reports| ==> r.reports[k].test < Min(|files|, TestCount)
    ensures forall j, k :: 0 <= j < k < |r.reports| ==> r.reports[j].test < r.reports[k].test
    ensures forall k :: 0 <= k < |r.reports| ==>
      Reports(r.reports[k], r.reports[k].test, files, read, parse, sqrt)
    ensures !r.crashed <==>
      forall i :: 0 <= i < Min(|files|, TestCount) ==> ReadCoordinates(read(files[i]), parse).Ok?
  {
    ErrorsUpTo(files, Min(|files|, TestCount), read, parse, sqrt)
  }

  /** Some report is about test `i`. */
  predicate Tested(reports: seq<Report>, i: nat) {
    exists k :: 0 <= k < |reports| && reports[k].test == i
  }

  lemma TestedAppend(reports: seq<Report>, r: Report, i: nat)
    ensures Tested(reports + [r], i) <==> Tested(reports, i) || r.test == i
  {
    var all := reports + [r];
    if Tested(all, i) && r.test != i {
      var k :| 0 <= k < |all| && all[k].test == i;
      assert k < |reports| && reports[k].test == i;
    }
    if Tested(reports, i) {
      var k :| 0 <= k < |reports| && reports[k].test == i;
      assert all[k].test == i;
    }
    if r.test == i {
      assert all[|reports|].test == i;
    }
  }

  /** Without a `ValueError`, a test is reported exactly when its file has
      coordinates. */
  lemma {:induction false} EveryTestReported(files: seq<string>, n: nat, read: string -> seq<string>,
    parse: string -> Option<real>, sqrt: real -> real)
    requires n <= |files| && n <= TestCount
    requires forall i :: 0 <= i < n ==> ReadCoordinates(read(files[i]), parse).Ok?
    ensures var r := ErrorsUpTo(files, n, read, parse, sqrt);
      forall i :: 0 <= i < n ==>
        (Tested(r.reports, i) <==> |ReadCoordinates(read(files[i]), parse).value| > 0)
    decreases n
  {
    if n > 0 {
      EveryTestReported(files, n - 1, read, parse, sqrt);
      var before := ErrorsUpTo(files, n - 1, read, parse, sqrt);
      var cs := ReadCoordinates(read(files[n - 1]), parse).value;
      assert !Tested(before.reports, n - 1);
      if |cs| > 0 {
        var x := Report(n - 1, Error(Mean(cs), GroundTruths[n - 1], sqrt));
        forall i | 0 <= i < n
          ensures Tested(before.reports + [x], i) <==> Tested(before.reports, i) || i == n - 1
        {
          TestedAppend(before.reports, x, i);
        }
      }
    }
  }

  /** Files after the third are never read. */
  lemma {:induction false} OnlyFirstTests(files: seq<string>, more: seq<string>, n: nat,
    read: string -> seq<string>, parse: string -> Option<real>, sqrt: real -> real)
    requires n <= |files| && n <= TestCount
    ensures ErrorsUpTo(files + more, n, read, parse, sqrt) == ErrorsUpTo(files, n, read, parse, sqrt)
    decreases n
  {
    if n > 0 {
      OnlyFirstTests(files, more, n - 1, read, parse, sqrt);
      assert (files + more)[n - 1] == files[n - 1];
    }
  }

  /** What `calculate_test_errors` sees when `main` runs: the arguments
      reported as not being files, and the errors over the files. */
  datatype Evaluation = Evaluation(reported: seq<string>, errors: Errors)

  /** `main` (without the plot): arguments that are not files are reported
      and dropped; the files, in order, are evaluated. */
  function Evaluate(args: seq<string>, isFile: string -> bool, read: string -> seq<string>,
    parse: string -> Option<real>, sqrt: real -> real): (r: Evaluation)
    ensures forall a :: a in r.reported <==> a in args && !isFile(a)
    ensures |r.errors.reports| <= TestCount
  {
    FilterKeeps(args, isFile, false);
    Evaluation(Filter(args, isFile, false), TestErrors(Filter(args, isFile, true), read, parse, sqrt))
  }

  /** An argument that is not a file does not take up a test: the same
      files give the same errors wherever it appears. */
  lemma NonFileTakesNoTest(before: seq<string>, a: string, after: seq<string>, isFile: string -> bool,
    read: string -> seq<string>, parse: string -> Option<real>, sqrt: real -> real)
    requires !isFile(a)
    ensures Evaluate(before + [a] + after, isFile, read, parse, sqrt).errors
         == Evaluate(before + after, isFile, read, parse, sqrt).errors
  {
    NonFileDropped(before, a, after, isFile);
  }

  lemma NonFileDropped(before: seq<string>, a: string, after: seq<string>, isFile: string -> bool)
    requires !isFile(a)
    ensures Filter(before + [a] + after, isFile, true) == Filter(before + after, isFile, true)
  {
    FilterAppend(before + [a], after, isFile, true);
    FilterAppend(before, [a], isFile, true);
    FilterAppend(before, after, isFile, true);
    var none: seq<string> := [];
    assert [a][..0] == none;
    assert Filter([a], isFile, true) == [];
    assert Filter(before, isFile, true) + [] == Filter(before, isFile, true);
  }

  /** Filtering distributes over concatenation. */
  lemma {:induction false} FilterAppend(s: seq<string>, t: seq<string>, p: string -> bool, keep: bool)
    ensures Filter(s + t, p, keep) == Filter(s, p, keep) + Filter(t, p, keep)
    decreases |t|
  {
    if t == [] {
      assert s + t == s;
      assert Filter(s, p, keep) + [] == Filter(s, p, keep);
    } else {
      var u := t[..|t| - 1];
      var x := t[|t| - 1];
      var tail := if p(x) == keep then [x] else [];
      FilterAppend(s, u, p, keep);
      assert (s + t)[..|s + t| - 1] == s + u && (s + t)[|s + t| - 1] == x;
      var fs, fu := Filter(s, p, keep), Filter(u, p, keep);
      assert Filter(s + t, p, keep) == Filter(s + u, p, keep) + tail;
      assert Filter(t, p, keep) == fu + tail;
      assert (fs + fu) + tail == fs + (fu + tail);
    }
  }
}
