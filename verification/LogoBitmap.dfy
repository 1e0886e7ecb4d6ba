/** The 4-bit grey bitmap of the boot logo: choosing ramp indices and packing two pixels
    into a byte, rows bottom up. */
module LogoBitmap {
  import opened PngRows

  // ----- Ramp indices ----------------------------------------------------------------------------

  function Luminance(r: Sample, g: Sample, b: Sample): Sample {
    (r * 77 + g * 150 + b * 29) / 256
  }

  /** The weights are 77, 150 and 29 parts in 256: the value is their sum rounded down, a grey
      is its own luminance, and no value is off the usual 299, 587 and 114 parts in 1000 by 2. */
  lemma LuminanceIs(r: Sample, g: Sample, b: Sample)
    ensures 256 * Luminance(r, g, b) <= 77 * r + 150 * g + 29 * b < 256 * Luminance(r, g, b) + 256
    ensures Luminance(g, g, g) == g
    ensures Distance(1000 * Luminance(r, g, b), 299 * r + 587 * g + 114 * b) < 2000
  {
  }

  /** Over black. */
  function Composite(lum: Sample, a: Sample): int {
    lum * a / 255
  }

  lemma CompositeRange(lum: Sample, a: Sample)
    ensures 0 <= Composite(lum, a) <= lum && Composite(lum, a) <= a
    ensures 255 * Composite(lum, a) <= lum * a < 255 * Composite(lum, a) + 255
    ensures (lum == 255 ==> Composite(lum, a) == a) && (a == 255 ==> Composite(lum, a) == lum)
  {
    Scaled(lum, a);
    Scaled(a, lum);
    assert lum * a == a * lum;
  }

  lemma Scaled(x: Sample, y: Sample)
    ensures 0 <= x * y <= x * 255
    ensures 0 <= x * y / 255 <= x
  {
    assert x * y <= x * 255;
  }

  function RampIndex(val: int): int {
    (val * 15 + 127) / 255
  }

  function IndexAt(r: Sample, g: Sample, b: Sample, a: Sample): int {
    RampIndex(Composite(Luminance(r, g, b), a))
  }

  /** The index is that of the ramp entry (17 times the index) nearest to the value, at most
      8 away. */
  lemma RampNearest(val: Sample, j: int)
    ensures 0 <= RampIndex(val) < 16
    ensures Distance(17 * RampIndex(val), val) <= 8
    ensures Distance(17 * RampIndex(val), val) <= Distance(17 * j, val)
    ensures j != RampIndex(val) ==> Distance(17 * RampIndex(val), val) < Distance(17 * j, val)
  {
    var i := RampIndex(val);
    assert 255 * i <= val * 15 + 127 < 255 * i + 255;
    assert 17 * i - 8 <= val <= 17 * i + 8;
  }

  /** White of any opacity comes out as its alpha; every pixel has an index of four bits. */
  lemma IndexFacts(r: Sample, g: Sample, b: Sample, a: Sample)
    ensures 0 <= IndexAt(r, g, b, a) < 16
    ensures Distance(17 * IndexAt(255, 255, 255, a), a) <= 8
    ensures a == 0 ==> IndexAt(r, g, b, a) == 0
    ensures Distance(17 * IndexAt(g, g, g, 255), g) <= 8
  {
    hide Luminance, Composite, RampIndex;
    LuminanceIs(r, g, b);
    LuminanceIs(255, 255, 255);
    CompositeRange(g, 255);
    RampNearest(g, 0);
    CompositeRange(Luminance(r, g, b), a);
    CompositeRange(255, a);
    RampNearest(Composite(Luminance(r, g, b), a), 0);
    RampNearest(a, 0);
  }

  /** The whole way from a pixel to its index: `lum` is the weighted sum rounded down, `val`
      what is left of it over black, and the index that of the ramp entry nearest to `val`. */
  lemma IndexIs(r: Sample, g: Sample, b: Sample, a: Sample, lum: int, val: int, j: int)
    requires 256 * lum <= 77 * r + 150 * g + 29 * b < 256 * lum + 256
    requires 255 * val <= lum * a < 255 * val + 255
    ensures Distance(17 * IndexAt(r, g, b, a), val) <= Distance(17 * j, val)
  {
    hide Luminance, Composite, RampIndex;
    LuminanceIs(r, g, b);
    assert lum == Luminance(r, g, b);
    CompositeRange(lum, a);
    assert val == Composite(lum, a);
    RampNearest(val, j);
  }

  // ----- Packing -------------------------------------------------------------------------------------

  /** Bytes in a row: four bits a pixel, rounded up to 32 bits. */
  function Stride(w: nat): nat {
    (w * 4 + 31) / 32 * 4
  }

  lemma StrideFits(w: nat)
    ensures Stride(w) % 4 == 0 && w <= 2 * Stride(w) < w + 8
  {
  }

  /** Pixel `x` of a row: even pixels are the high nibbles. */
  function Pixel(row: seq<bv8>, x: nat): bv8
    requires x / 2 < |row|
  {
    if x % 2 == 1 then row[x / 2] & 0xF else row[x / 2] >> 4
  }

  function Shade(idx: seq<bv8>, x: nat): bv8 {
    if x < |idx| then idx[x] else 0
  }

  function Join(hi: bv8, lo: bv8): bv8 {
    (hi << 4) | lo
  }

  function PackedRow(idx: seq<bv8>): (row: seq<bv8>)
    ensures |row| == Stride(|idx|)
  {
    seq(Stride(|idx|), k requires 0 <= k => Join(Shade(idx, 2 * k), Shade(idx, 2 * k + 1)))
  }

  ghost predicate FourBits(idx: seq<bv8>) {
    forall x :: 0 <= x < |idx| ==> idx[x] < 16
  }

  lemma Nibbles(hi: bv8, lo: bv8)
    requires hi < 16 && lo < 16
    ensures Join(hi, lo) >> 4 == hi && Join(hi, lo) & 0xF == lo
  {
  }

  /** Every pixel reads back, and the padding is black. */
  lemma PixelReadsBack(idx: seq<bv8>, x: nat)
    requires FourBits(idx) && x < 2 * Stride(|idx|)
    ensures Pixel(PackedRow(idx), x) == if x < |idx| then idx[x] else 0
  {
    hide Stride;
    var k := x / 2;
    Nibbles(Shade(idx, 2 * k), Shade(idx, 2 * k + 1));
    assert x == 2 * k || x == 2 * k + 1;
  }

  lemma OrNibbles(hi: bv8, lo: bv8)
    ensures Join(0, 0) == 0 && Join(0, 0) | (hi << 4) == Join(hi, 0) && Join(hi, 0) | lo == Join(hi, lo)
  {
  }

  /** The two pixels of a byte. */
  ghost predicate Holds(byte: bv8, idx: seq<bv8>, k: nat) {
    && byte >> 4 == (if 2 * k < |idx| then idx[2 * k] else 0)
    && byte & 0xF == (if 2 * k + 1 < |idx| then idx[2 * k + 1] else 0)
  }

  lemma RowHolds(idx: seq<bv8>)
    requires FourBits(idx)
    ensures forall k :: 0 <= k < |PackedRow(idx)| ==> Holds(PackedRow(idx)[k], idx, k)
  {
    hide Stride, Join;
    forall k | 0 <= k < |PackedRow(idx)| ensures Holds(PackedRow(idx)[k], idx, k) {
      Nibbles(Shade(idx, 2 * k), Shade(idx, 2 * k + 1));
    }
  }

  /** The inner loop: each pixel is or-ed into a row of zeros. */
  method PackRow(idx: seq<bv8>) returns (row: array<bv8>)
    ensures fresh(row) && row[..] == PackedRow(idx)
    ensures row.Length % 4 == 0 && |idx| <= 2 * row.Length < |idx| + 8
    ensures FourBits(idx) ==> forall k :: 0 <= k < row.Length ==> Holds(row[k], idx, k)
  {
    hide Stride, Join, Holds, PackedRow;
    StrideFits(|idx|);
    row := OrPixels(idx);
    assert forall k :: 0 <= k < row.Length ==> row[k] == row[..][k];
    if FourBits(idx) {
      RowHolds(idx);
    }
  }

  method OrPixels(idx: seq<bv8>) returns (row: array<bv8>)
    ensures fresh(row) && row[..] == PackedRow(idx)
  {
    StrideFits(|idx|);
    OrNibbles(0, 0);
    hide Stride, Join;
    row := new bv8[Stride(|idx|)](_ => 0);
    for x := 0 to |idx|
      invariant forall k :: 0 <= k < row.Length ==>
                  row[k] == Join(Shade(idx[..x], 2 * k), Shade(idx[..x], 2 * k + 1))
    {
      var k := x / 2;
      OrNibbles(Shade(idx[..x + 1], 2 * k), idx[x]);
      OrNibbles(idx[x], 0);
      if x % 2 == 1 {
        row[k] := row[k] | idx[x];
      } else {
        row[k] := row[k] | (idx[x] << 4);
      }
    }
    assert idx[..|idx|] == idx;
  }

  /** Rows bottom up. */
  function PackedRows(rows: seq<seq<bv8>>): seq<bv8> {
    if rows == [] then [] else PackedRows(rows[1..]) + PackedRow(rows[0])
  }

  lemma {:induction false} RowsLength(rows: seq<seq<bv8>>, w: nat)
    requires forall y :: 0 <= y < |rows| ==> |rows[y]| == w
    ensures |PackedRows(rows)| == |rows| * Stride(w)
  {
    hide Stride;
    if rows != [] {
      RowsLength(rows[1..], w);
      assert (|rows| - 1) * Stride(w) + Stride(w) == |rows| * Stride(w);
    }
  }

  /** Row `y` of the image stands behind the rows below it and before those above it. */
  lemma {:induction false} RowPlace(rows: seq<seq<bv8>>, y: nat)
    requires y < |rows|
    ensures PackedRows(rows) == PackedRows(rows[y + 1..]) + PackedRow(rows[y]) + PackedRows(rows[..y])
  {
    hide PackedRow;
    if y == 0 {
      assert PackedRows(rows[..0]) == [];
    } else {
      RowPlace(rows[1..], y - 1);
      assert rows[1..][y..] == rows[y + 1..];
      assert rows[..y][1..] == rows[1..][..y - 1];
      assert PackedRows(rows[..y]) == PackedRows(rows[..y][1..]) + PackedRow(rows[0]);
    }
  }

  /** The outer loop, from the last row to the first. */
  method PackRows(rows: seq<seq<bv8>>) returns (pixels: seq<bv8>)
    ensures pixels == PackedRows(rows)
  {
    pixels := [];
    var y := |rows|;
    while y > 0
      invariant 0 <= y <= |rows| && pixels == PackedRows(rows[y..])
    {
      y := y - 1;
      var row := PackRow(rows[y]);
      assert rows[y..][1..] == rows[y + 1..];
      pixels := pixels + row[..];
    }
    assert rows[0..] == rows;
  }
}
