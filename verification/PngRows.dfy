/** Undoing the row filters of PNG: section 6 of RFC 2083, for 8-bit RGBA. */
module PngRows {
  import opened Lists

  type Sample = s: int | 0 <= s < 256

  /** Bytes per pixel. */
  const BPP: nat := 4

  // ----- Prediction ----------------------------------------------------------------------------

  function Distance(x: int, y: int): nat {
    if x < y then y - x else x - y
  }

  /** The Paeth predictor as the tool computes it. */
  function Paeth(a: Sample, b: Sample, c: Sample): Sample {
    var p := a + b - c;
    var pa, pb, pc := Distance(p, a), Distance(p, b), Distance(p, c);
    if pa <= pb && pa <= pc then a else if pb <= pc then b else c
  }

  /** RFC 2083, section 6.6: the neighbour nearest to a + b - c; ties go to the left one,
      then to the upper one. */
  ghost predicate Nearest(r: int, a: int, b: int, c: int) {
    var p := a + b - c;
    && (r == a || r == b || r == c)
    && Distance(p, r) <= Distance(p, a) && Distance(p, r) <= Distance(p, b) && Distance(p, r) <= Distance(p, c)
    && (Distance(p, r) == Distance(p, a) ==> r == a)
    && (r != a && Distance(p, r) == Distance(p, b) ==> r == b)
  }

  /** The tool's predictor is the one value the standard allows. */
  lemma PaethIsNearest(a: Sample, b: Sample, c: Sample, r: Sample)
    ensures Nearest(r, a, b, c) <==> r == Paeth(a, b, c)
  {
  }

  /** What filter `f` expects, given the left, upper and upper left byte. */
  function Predict(f: int, a: Sample, b: Sample, c: Sample): Sample {
    if f == 1 then a
    else if f == 2 then b
    else if f == 3 then (a + b) / 2
    else if f == 4 then Paeth(a, b, c)
    else 0
  }

  function Left(row: seq<Sample>, i: nat): Sample
    requires i <= |row| + BPP
  {
    if i >= BPP && i - BPP < |row| then row[i - BPP] else 0
  }

  // ----- One row -----------------------------------------------------------------------------------

  /** The filtered form of `row` below `prev`. */
  function Filtered(f: int, row: seq<Sample>, prev: seq<Sample>): (r: seq<Sample>)
    requires |prev| == |row|
    ensures |r| == |row|
  {
    seq(|row|, i requires 0 <= i < |row| => (row[i] - Predict(f, Left(row, i), prev[i], Left(prev, i))) % 256)
  }

  /** The first `n` bytes of the row that filtered to `line`. */
  function Unfiltered(f: int, line: seq<Sample>, prev: seq<Sample>, n: nat): (r: seq<Sample>)
    requires |prev| == |line| && n <= |line|
    ensures |r| == n
  {
    if n == 0 then []
    else
      var done := Unfiltered(f, line, prev, n - 1);
      done + [(line[n - 1] + Predict(f, Left(done, n - 1), prev[n - 1], Left(prev, n - 1))) % 256]
  }

  lemma AddBack(x: Sample, p: Sample)
    ensures ((x - p) % 256 + p) % 256 == x
    ensures ((x + p) % 256 - p) % 256 == x
  {
  }

  /** Unfiltering a filtered row gives the row back. */
  lemma {:induction false} RowRoundTrip(f: int, row: seq<Sample>, prev: seq<Sample>, n: nat)
    requires |prev| == |row| && n <= |row|
    ensures Unfiltered(f, Filtered(f, row, prev), prev, n) == row[..n]
  {
    hide Predict;
    if n > 0 {
      RowRoundTrip(f, row, prev, n - 1);
      assert Left(row[..n - 1], n - 1) == Left(row, n - 1);
      AddBack(row[n - 1], Predict(f, Left(row, n - 1), prev[n - 1], Left(prev, n - 1)));
      assert row[..n] == row[..n - 1] + [row[n - 1]];
    }
  }

  lemma {:induction false} UnfilteredPrefix(f: int, line: seq<Sample>, prev: seq<Sample>, i: nat, n: nat)
    requires |prev| == |line| && i <= n <= |line|
    ensures Unfiltered(f, line, prev, n)[..i] == Unfiltered(f, line, prev, i)
  {
    hide Predict;
    if i < n {
      UnfilteredPrefix(f, line, prev, i, n - 1);
      var r := Unfiltered(f, line, prev, n);
      assert r[..n - 1] == Unfiltered(f, line, prev, n - 1);
      assert r[..i] == r[..n - 1][..i];
    }
  }

  lemma UnfilteredByte(f: int, line: seq<Sample>, prev: seq<Sample>, i: nat)
    requires |prev| == |line| && i < |line|
    ensures var row, done := Unfiltered(f, line, prev, |line|), Unfiltered(f, line, prev, i);
            && Left(row, i) == Left(done, i)
            && row[i] == (line[i] + Predict(f, Left(done, i), prev[i], Left(prev, i))) % 256
  {
    hide Predict;
    UnfilteredPrefix(f, line, prev, i, |line|);
    UnfilteredPrefix(f, line, prev, i + 1, |line|);
    var row := Unfiltered(f, line, prev, |line|);
    assert row[i] == row[..i + 1][i];
  }

  /** And every line is the filtered form of what it unfilters to. */
  lemma LineRoundTrip(f: int, line: seq<Sample>, prev: seq<Sample>)
    requires |prev| == |line|
    ensures Filtered(f, Unfiltered(f, line, prev, |line|), prev) == line
  {
    hide Predict, Unfiltered, Left;
    var row := Unfiltered(f, line, prev, |line|);
    forall i | 0 <= i < |line| ensures Filtered(f, row, prev)[i] == line[i] {
      UnfilteredByte(f, line, prev, i);
      AddBack(line[i], Predict(f, Left(row, i), prev[i], Left(prev, i)));
    }
  }

  /** Section 6 of RFC 2083: the byte `y` of a row is what the filtered byte `x` stands for
      beside the left, the upper and the upper left byte. */
  ghost predicate StandsFor(f: int, x: int, left: int, up: int, corner: int, y: int) {
    if f == 1 then y == (x + left) % 256
    else if f == 2 then y == (x + up) % 256
    else if f == 3 then y == (x + (left + up) / 2) % 256
    else if f == 4 then PlusNearest(x, left, up, corner, y)
    else y == x
  }

  /** `y` is `x` plus the standard's predictor. */
  ghost predicate PlusNearest(x: int, left: int, up: int, corner: int, y: int) {
    exists r :: Nearest(r, left, up, corner) && y == (x + r) % 256
  }

  ghost predicate ByteOf(f: int, line: seq<Sample>, prev: seq<Sample>, row: seq<Sample>, i: nat)
    requires |row| == |line| == |prev| && i < |row|
  {
    if i < 4 then StandsFor(f, line[i], 0, prev[i], 0, row[i])
    else StandsFor(f, line[i], row[i - 4], prev[i], prev[i - 4], row[i])
  }

  ghost predicate RowOf(f: int, line: seq<Sample>, prev: seq<Sample>, row: seq<Sample>) {
    |row| == |line| == |prev| && forall i :: 0 <= i < |row| ==> ByteOf(f, line, prev, row, i)
  }

  lemma PredictStands(f: int, x: Sample, a: Sample, b: Sample, c: Sample)
    ensures StandsFor(f, x, a, b, c, (x + Predict(f, a, b, c)) % 256)
  {
    hide Paeth, Nearest;
    PaethIsNearest(a, b, c, Paeth(a, b, c));
    assert f == 4 ==> PlusNearest(x, a, b, c, (x + Paeth(a, b, c)) % 256);
  }

  /** Unfiltering gives the row the standard asks for. */
  lemma UnfilteredIsRow(f: int, line: seq<Sample>, prev: seq<Sample>)
    requires |prev| == |line|
    ensures RowOf(f, line, prev, Unfiltered(f, line, prev, |line|))
  {
    hide Unfiltered, Predict, StandsFor;
    var row := Unfiltered(f, line, prev, |line|);
    forall i | 0 <= i < |line| ensures ByteOf(f, line, prev, row, i) {
      UnfilteredByte(f, line, prev, i);
      PredictStands(f, line[i], Left(row, i), prev[i], Left(prev, i));
    }
  }

  /** The inner loop, in place on the line. */
  method UnfilterRow(f: int, line: array<Sample>, prev: seq<Sample>)
    requires |prev| == line.Length
    modifies line
    ensures line[..] == Unfiltered(f, old(line[..]), prev, line.Length) && RowOf(f, old(line[..]), prev, line[..])
    ensures f == 1 ==> forall i :: 4 <= i < line.Length ==> line[i] as int == (old(line[i]) as int + line[i - 4]) % 256
    ensures f == 1 ==> forall i :: 0 <= i < line.Length && i < 4 ==> line[i] == old(line[i])
    ensures f == 2 ==> forall i :: 0 <= i < line.Length ==> line[i] as int == (old(line[i]) as int + prev[i]) % 256
    ensures f == 3 ==> forall i :: 4 <= i < line.Length ==> line[i] as int == (old(line[i]) as int + (line[i - 4] as int + prev[i]) / 2) % 256
    ensures f == 3 ==> forall i :: 0 <= i < line.Length && i < 4 ==> line[i] as int == (old(line[i]) as int + prev[i] / 2) % 256
    ensures f == 4 ==> forall i :: 4 <= i < line.Length ==> PlusNearest(old(line[i]), line[i - 4], prev[i], prev[i - 4], line[i])
    ensures f == 4 ==> forall i :: 0 <= i < line.Length && i < 4 ==> PlusNearest(old(line[i]), 0, prev[i], 0, line[i])
    ensures f < 1 || f > 4 ==> forall i :: 0 <= i < line.Length ==> line[i] == old(line[i])
  {
    hide PlusNearest, Unfiltered;
    UnfilterLine(f, line, prev);
    ghost var x, y := old(line[..]), line[..];
    UnfilteredIsRow(f, x, prev);
    forall i | 0 <= i < line.Length
      ensures line[i] == y[i] && old(line[i]) == x[i]
      ensures i < 4 ==> StandsFor(f, x[i], 0, prev[i], 0, y[i])
      ensures i >= 4 ==> StandsFor(f, x[i], y[i - 4], prev[i], prev[i - 4], y[i])
      ensures f == 2 ==> y[i] as int == (x[i] as int + prev[i]) % 256
      ensures f < 1 || f > 4 ==> y[i] == x[i]
    {
      assert ByteOf(f, x, prev, y, i);
    }
  }

  method UnfilterLine(f: int, line: array<Sample>, prev: seq<Sample>)
    requires |prev| == line.Length
    modifies line
    ensures line[..] == Unfiltered(f, old(line[..]), prev, line.Length)
  {
    hide Paeth;
    for i := 0 to line.Length
      invariant line[..i] == Unfiltered(f, old(line[..]), prev, i)
      invariant forall k :: i <= k < line.Length ==> line[k] == old(line[k])
    {
      var a: Sample := if i >= BPP then line[i - BPP] else 0;
      var b, c := prev[i], if i >= BPP then prev[i - BPP] else 0;
      var x := line[i];
      assert a == Left(line[..i], i);
      if f == 1 {
        line[i] := (x + a) % 256;
      } else if f == 2 {
        line[i] := (x + b) % 256;
      } else if f == 3 {
        line[i] := (x + (a + b) / 2) % 256;
      } else if f == 4 {
        line[i] := (x + Paeth(a, b, c)) % 256;
      }
      assert line[..i + 1] == line[..i] + [line[i]];
    }
    assert line[..] == line[..line.Length];
  }

  // ----- The image ---------------------------------------------------------------------------------

  /** A filter byte and a filtered row for each row; `prev` is the row above the first. */
  function FilterImage(filters: seq<Sample>, rows: seq<seq<Sample>>, prev: seq<Sample>): seq<Sample>
    requires |filters| == |rows| && forall y :: 0 <= y < |rows| ==> |rows[y]| == |prev|
  {
    if rows == [] then []
    else [filters[0]] + Filtered(filters[0], rows[0], prev) + FilterImage(filters[1..], rows[1..], rows[0])
  }

  function Flatten(rows: seq<seq<Sample>>): seq<Sample> {
    if rows == [] then [] else rows[0] + Flatten(rows[1..])
  }

  /** The outer loop: the pixels of `h` rows, or nothing if `raw` ends too early. */
  function UnfilterImage(raw: seq<Sample>, prev: seq<Sample>, h: nat): Option<seq<Sample>> {
    if h == 0 then Some([])
    else if |raw| < 1 + |prev| then None
    else
      var row := Unfiltered(raw[0], raw[1..1 + |prev|], prev, |prev|);
      var rest := UnfilterImage(raw[1 + |prev|..], row, h - 1);
      if rest.None? then None else Some(row + rest.value)
  }

  /** For every image and every choice of filters, unfiltering the filtered image gives the
      pixels back, whatever follows it. */
  lemma {:induction false} ImageRoundTrip(filters: seq<Sample>, rows: seq<seq<Sample>>, prev: seq<Sample>, tail: seq<Sample>)
    requires |filters| == |rows| && forall y :: 0 <= y < |rows| ==> |rows[y]| == |prev|
    ensures UnfilterImage(FilterImage(filters, rows, prev) + tail, prev, |rows|) == Some(Flatten(rows))
    decreases |rows|
  {
    hide Filtered, Unfiltered;
    if rows != [] {
      var line := Filtered(filters[0], rows[0], prev);
      var rest := FilterImage(filters[1..], rows[1..], rows[0]);
      var raw := FilterImage(filters, rows, prev) + tail;
      assert raw == [filters[0]] + line + (rest + tail);
      assert raw[1..1 + |prev|] == line && raw[1 + |prev|..] == rest + tail;
      RowRoundTrip(filters[0], rows[0], prev, |prev|);
      assert rows[0][..|prev|] == rows[0];
      ImageRoundTrip(filters[1..], rows[1..], rows[0], tail);
    }
  }

  /** The unfilter fails exactly when the data is too short for the rows. */
  lemma {:induction false} UnfilterFails(raw: seq<Sample>, prev: seq<Sample>, h: nat)
    ensures UnfilterImage(raw, prev, h).None? <==> |raw| < h * (1 + |prev|)
    decreases h
  {
    hide Unfiltered;
    if h > 0 {
      assert h * (1 + |prev|) == (h - 1) * (1 + |prev|) + 1 + |prev|;
      if |raw| >= 1 + |prev| {
        var row := Unfiltered(raw[0], raw[1..1 + |prev|], prev, |prev|);
        UnfilterFails(raw[1 + |prev|..], row, h - 1);
      }
    }
  }

  /** Row by row the pixels are what the lines of the data stand for, each below the row
      above it. */
  ghost predicate ImageOf(raw: seq<Sample>, prev: seq<Sample>, pixels: seq<Sample>, h: nat) {
    var n := |prev|;
    if h == 0 then pixels == []
    else
      && |raw| >= 1 + n && |pixels| >= n
      && RowOf(raw[0], raw[1..1 + n], prev, pixels[..n]) && ImageOf(raw[1 + n..], pixels[..n], pixels[n..], h - 1)
  }

  /** Unfiltering gives the image the standard asks for. */
  lemma {:induction false} UnfilteredIsImage(raw: seq<Sample>, prev: seq<Sample>, h: nat)
    requires UnfilterImage(raw, prev, h).Some?
    ensures ImageOf(raw, prev, UnfilterImage(raw, prev, h).value, h)
    decreases h
  {
    hide Unfiltered, RowOf;
    if h > 0 {
      var n := |prev|;
      var row := Unfiltered(raw[0], raw[1..1 + n], prev, n);
      var rest := UnfilterImage(raw[1 + n..], row, h - 1).value;
      UnfilteredIsRow(raw[0], raw[1..1 + n], prev);
      UnfilteredIsImage(raw[1 + n..], row, h - 1);
      assert (row + rest)[..n] == row && (row + rest)[n..] == rest;
    }
  }

  /** The rows of read_rgba_png. */
  method ReadRows(raw: seq<Sample>, w: nat, h: nat) returns (out: Option<seq<Sample>>)
    ensures out == UnfilterImage(raw, seq(w * 4, _ => 0), h)
    ensures out.None? <==> |raw| < h * (1 + w * 4)
    ensures out.Some? ==> ImageOf(raw, seq(w * 4, _ => 0), out.value, h)
  {
    hide Unfiltered, RowOf, ImageOf;
    var stride := w * 4;
    var prev: seq<Sample> := seq(stride, _ => 0);
    UnfilterFails(raw, prev, h);
    if |raw| >= h * (1 + stride) {
      UnfilteredIsImage(raw, prev, h);
    }
    ghost var first := prev;
    var pixels: seq<Sample>, p, y := [], 0, 0;
    assert raw[0..] == raw;
    JoinedNothing(UnfilterImage(raw, first, h));
    while y < h
      invariant y <= h && p <= |raw| && |prev| == stride
      invariant UnfilterImage(raw, first, h) == Joined(pixels, UnfilterImage(raw[p..], prev, h - y))
    {
      if |raw| - p < 1 + stride {
        return None;
      }
      var f := raw[p];
      var line := new Sample[stride](i requires 0 <= i < stride && p + 1 + stride <= |raw| => raw[p + 1 + i]);
      assert line[..] == raw[p..][1..1 + stride];
      UnfilterRow(f, line, prev);
      JoinedMore(pixels, line[..], UnfilterImage(raw[p..][1 + stride..], line[..], h - y - 1));
      assert raw[p..][1 + stride..] == raw[p + 1 + stride..];
      pixels := pixels + line[..];
      prev := line[..];
      p, y := p + 1 + stride, y + 1;
    }
    out := Some(pixels);
    assert pixels + [] == pixels;
  }

  function Joined(pixels: seq<Sample>, rest: Option<seq<Sample>>): Option<seq<Sample>> {
    if rest.None? then None else Some(pixels + rest.value)
  }

  lemma JoinedNothing(rest: Option<seq<Sample>>)
    ensures Joined([], rest) == rest
  {
    if rest.Some? {
      assert [] + rest.value == rest.value;
    }
  }

  lemma JoinedMore(x: seq<Sample>, y: seq<Sample>, rest: Option<seq<Sample>>)
    ensures Joined(x, Joined(y, rest)) == Joined(x + y, rest)
  {
    if rest.Some? {
      assert x + (y + rest.value) == x + y + rest.value;
    }
  }
}
