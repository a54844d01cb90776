/** Reconstructing the rows of a PNG image and comparing two images
    (scripts/asha_agora_control_proof.py), against the filters of section 6 of RFC 2083. */
module Png {
  import opened Arith

  type Byte = x: int | 0 <= x < 256

  type Row = seq<Byte>

  /** The low eight bits of a sum or difference. */
  function LowByte(x: int): Byte {
    x % 256
  }

  // ---------- predictors ----------

  /** The nearest of left, up and up-left to left + up - upLeft. */
  function Paeth(left: Byte, up: Byte, upLeft: Byte): Byte {
    var p := left + up - upLeft;
    var pa, pb, pc := Abs(p - left), Abs(p - up), Abs(p - upLeft);
    if pa <= pb && pa <= pc then left else if pb <= pc then up else upLeft
  }

  /** Nearest, with ties broken in the order left, up, up-left. */
  lemma PaethIsNearest(left: Byte, up: Byte, upLeft: Byte)
    ensures var p := left + up - upLeft;
            var r := Paeth(left, up, upLeft);
            && Abs(p - r) <= Abs(p - left) && Abs(p - r) <= Abs(p - up) && Abs(p - r) <= Abs(p - upLeft)
            && (r == left || (Abs(p - r) < Abs(p - left) && (r == up || (r == upLeft && Abs(p - r) < Abs(p - up)))))
  {
  }

  function Predictor(filter: Byte, left: Byte, up: Byte, upLeft: Byte): Byte {
    if filter == 1 then left
    else if filter == 2 then up
    else if filter == 3 then (left + up) / 2
    else if filter == 4 then Paeth(left, up, upLeft)
    else 0
  }

  /** The byte one pixel back, or zero at the left edge. */
  function Back(row: Row, i: nat, channels: nat): Byte
    requires i <= |row| && channels >= 1
  {
    if i >= channels then row[i - channels] else 0
  }

  // ---------- filtering, and the reconstruction ----------

  /** Section 6 of RFC 2083: each byte less its prediction from the original bytes. */
  function Filtered(filter: Byte, row: Row, above: Row, channels: nat): (r: Row)
    requires |row| == |above| && channels >= 1
    ensures |r| == |row|
  {
    seq(|row|, i requires 0 <= i < |row| =>
      LowByte(row[i] - Predictor(filter, Back(row, i, channels), above[i], Back(above, i, channels))))
  }

  /** The first n bytes, each predicted from bytes already reconstructed. */
  function Unfiltered(filter: Byte, row: Row, above: Row, channels: nat, n: nat): (r: Row)
    requires n <= |row| <= |above| && channels >= 1
    ensures |r| == n
  {
    if n == 0 then []
    else
      var done := Unfiltered(filter, row, above, channels, n - 1);
      done + [LowByte(row[n - 1] + Predictor(filter, Back(done, n - 1, channels), above[n - 1], Back(above, n - 1, channels)))]
  }

  lemma AddBack(x: Byte, p: Byte)
    ensures LowByte(LowByte(x - p) + p) == x
    ensures LowByte(LowByte(x + p) - p) == x
  {
    assert LowByte(x - p) == if x < p then x - p + 256 else x - p;
    assert LowByte(x + p) == if x + p >= 256 then x + p - 256 else x + p;
  }

  /** Reconstruction undoes filtering, whatever the filter and the row above. */
  lemma {:induction false} UnfilterOfFilter(filter: Byte, row: Row, above: Row, channels: nat, n: nat)
    requires |row| == |above| && channels >= 1 && n <= |row|
    ensures Unfiltered(filter, Filtered(filter, row, above, channels), above, channels, n) == row[..n]
  {
    hide Predictor;
    if n > 0 {
      UnfilterOfFilter(filter, row, above, channels, n - 1);
      var i := n - 1;
      assert Back(row[..i], i, channels) == Back(row, i, channels);
      AddBack(row[i], Predictor(filter, Back(row, i, channels), above[i], Back(above, i, channels)));
      assert row[..n] == row[..i] + [row[i]];
    }
  }

  lemma {:induction false} UnfilteredPrefix(filter: Byte, row: Row, above: Row, channels: nat, m: nat, n: nat)
    requires m <= n <= |row| <= |above| && channels >= 1
    ensures Unfiltered(filter, row, above, channels, n)[..m] == Unfiltered(filter, row, above, channels, m)
    decreases n
  {
    hide Predictor;
    if m < n {
      UnfilteredPrefix(filter, row, above, channels, m, n - 1);
      var done := Unfiltered(filter, row, above, channels, n - 1);
      assert Unfiltered(filter, row, above, channels, n)[..m] == done[..m];
    } else {
      var all := Unfiltered(filter, row, above, channels, n);
      assert all[..m] == all;
    }
  }

  /** Filtering undoes reconstruction, so no two filtered rows look alike. */
  lemma FilterOfUnfilter(filter: Byte, row: Row, above: Row, channels: nat)
    requires |row| == |above| && channels >= 1
    ensures Filtered(filter, Unfiltered(filter, row, above, channels, |row|), above, channels) == row
  {
    hide Predictor;
    var orig := Unfiltered(filter, row, above, channels, |row|);
    forall i | 0 <= i < |row|
      ensures Filtered(filter, orig, above, channels)[i] == row[i]
    {
      UnfilteredPrefix(filter, row, above, channels, i, |row|);
      UnfilteredPrefix(filter, row, above, channels, i + 1, |row|);
      var done := orig[..i];
      assert orig[i] == orig[..i + 1][i];
      assert Back(done, i, channels) == Back(orig, i, channels);
      AddBack(row[i], Predictor(filter, Back(orig, i, channels), above[i], Back(above, i, channels)));
    }
  }

  function Zeros(n: nat): (r: Row)
    ensures |r| == n
    ensures forall i :: 0 <= i < n ==> r[i] == 0
  {
    seq(n, i => 0)
  }

  // ---------- the whole image ----------

  datatype Decoded = Rows(rows: seq<Row>) | MissingFilter | UnknownFilter(filter: Byte)

  function Least(a: nat, b: nat): nat {
    if a <= b then a else b
  }

  /** The slice of Python, which stops at the end of the data. */
  function Slice(raw: Row, from: nat, to: nat): (r: Row)
    requires from <= to
    ensures |r| <= to - from
  {
    raw[Least(from, |raw|)..Least(to, |raw|)]
  }

  /** One row, with zeros where the data ran out. */
  function Reconstructed(filter: Byte, row: Row, above: Row, channels: nat): (r: Row)
    requires |row| <= |above| && channels >= 1
    ensures |r| == |above|
  {
    Unfiltered(filter, row, above, channels, |row|) + Zeros(|above| - |row|)
  }

  function Before(rows: seq<Row>, d: Decoded): Decoded {
    if d.Rows? then Rows(rows + d.rows) else d
  }

  function DecodeRows(raw: Row, pos: nat, above: Row, channels: nat, height: nat): Decoded
    requires channels >= 1
    decreases height
  {
    if height == 0 then Rows([])
    else if pos >= |raw| then MissingFilter
    else
      var row := Slice(raw, pos + 1, pos + 1 + |above|);
      if raw[pos] > 4 && row != [] then UnknownFilter(raw[pos])
      else
        var recon := Reconstructed(raw[pos], row, above, channels);
        Before([recon], DecodeRows(raw, pos + 1 + |above|, recon, channels, height - 1))
  }

  method ReconstructRow(filter: Byte, row: Row, prev: array<Byte>, channels: nat) returns (ok: bool, recon: array<Byte>)
    requires |row| <= prev.Length && (channels == 3 || channels == 4)
    ensures fresh(recon) && (ok <==> filter <= 4 || row == [])
    ensures ok ==> recon[..] == Reconstructed(filter, row, prev[..], channels)
  {
    hide Predictor, Reconstructed;
    recon := new Byte[prev.Length](_ => 0);
    ghost var above := prev[..];
    for i := 0 to |row|
      invariant prev[..] == above
      invariant recon[..i] == Unfiltered(filter, row, above, channels, i)
      invariant forall k :: i <= k < recon.Length ==> recon[k] == 0
      invariant i > 0 ==> filter <= 4
    {
      var left := if i >= channels then recon[i - channels] else 0;
      var up := prev[i];
      var upLeft := if i >= channels then prev[i - channels] else 0;
      assert left == Back(recon[..i], i, channels) && upLeft == Back(above, i, channels) && up == above[i];
      if filter > 4 {
        return false, recon;
      }
      var predictor := Predict(filter, left, up, upLeft);
      ghost var done := recon[..i];
      recon[i] := LowByte(row[i] as int + predictor as int);
      assert recon[..i] == done;
      assert recon[..i + 1] == recon[..i] + [recon[i]];
    }
    PadRow(filter, row, above, channels, recon[..]);
    return true, recon;
  }

  method ReconstructRows(raw: Row, stride: nat, channels: nat, height: nat) returns (r: Decoded)
    requires channels == 3 || channels == 4
    ensures r == DecodeRows(raw, 0, Zeros(stride), channels, height)
  {
    hide DecodeRows, Predictor, Reconstructed;
    var rows: seq<Row> := [];
    var pos := 0;
    var prev := new Byte[stride](_ => 0);
    assert prev[..] == Zeros(stride);
    ghost var all := DecodeRows(raw, 0, Zeros(stride), channels, height);
    assert all.Rows? ==> [] + all.rows == all.rows;
    for y := 0 to height
      invariant prev.Length == stride
      invariant all == Before(rows, DecodeRows(raw, pos, prev[..], channels, height - y))
    {
      DecodeStep(raw, pos, prev[..], channels, height - y, rows);
      if pos >= |raw| {
        return MissingFilter;
      }
      var filter := raw[pos];
      pos := pos + 1;
      var row := Slice(raw, pos, pos + stride);
      pos := pos + stride;
      var ok, recon := ReconstructRow(filter, row, prev, channels);
      if !ok {
        return UnknownFilter(filter);
      }
      rows := rows + [recon[..]];
      prev := recon;
    }
    assert DecodeRows(raw, pos, prev[..], channels, 0) == Rows([]) by {
      DecodeStep(raw, pos, prev[..], channels, 0, rows);
    }
    assert rows + [] == rows;
    return Rows(rows);
  }

  /** Whatever the data, decoding yields all rows, each of full width, or an error. */
  lemma {:induction false} DecodedWidths(raw: Row, pos: nat, above: Row, channels: nat, height: nat)
    requires channels >= 1
    ensures var d := DecodeRows(raw, pos, above, channels, height);
      d.Rows? ==> |d.rows| == height && forall y :: 0 <= y < height ==> |d.rows[y]| == |above|
    decreases height
  {
    hide Reconstructed, Slice;
    if height > 0 && pos < |raw| {
      var row := Slice(raw, pos + 1, pos + 1 + |above|);
      DecodedWidths(raw, pos + 1 + |above|, Reconstructed(raw[pos], row, above, channels), channels, height - 1);
    }
  }

  method Predict(filter: Byte, left: Byte, up: Byte, upLeft: Byte) returns (predictor: Byte)
    requires filter <= 4
    ensures predictor == Predictor(filter, left, up, upLeft)
  {
    predictor := 0;
    if filter == 1 {
      predictor := left;
    } else if filter == 2 {
      predictor := up;
    } else if filter == 3 {
      predictor := (left + up) / 2;
    } else if filter == 4 {
      var p := left + up - upLeft;
      var pa, pb, pc := Abs(p - left), Abs(p - up), Abs(p - upLeft);
      predictor := if pa <= pb && pa <= pc then left else if pb <= pc then up else upLeft;
    }
  }

  lemma DecodeStep(raw: Row, pos: nat, above: Row, channels: nat, height: nat, rows: seq<Row>)
    requires channels >= 1
    ensures height == 0 ==> DecodeRows(raw, pos, above, channels, height) == Rows([])
    ensures height > 0 && pos >= |raw| ==> DecodeRows(raw, pos, above, channels, height) == MissingFilter
    ensures height > 0 && pos < |raw| ==>
      var row := Slice(raw, pos + 1, pos + 1 + |above|);
      if raw[pos] > 4 && row != [] then DecodeRows(raw, pos, above, channels, height) == UnknownFilter(raw[pos])
      else
        var recon := Reconstructed(raw[pos], row, above, channels);
        Before(rows, DecodeRows(raw, pos, above, channels, height)) ==
        Before(rows + [recon], DecodeRows(raw, pos + 1 + |above|, recon, channels, height - 1))
  {
    hide Reconstructed, Slice;
    if height > 0 && pos < |raw| {
      var row := Slice(raw, pos + 1, pos + 1 + |above|);
      var recon := Reconstructed(raw[pos], row, above, channels);
      var rest := DecodeRows(raw, pos + 1 + |above|, recon, channels, height - 1);
      if rest.Rows? {
        assert rows + ([recon] + rest.rows) == rows + [recon] + rest.rows;
      }
    }
  }

  lemma PadRow(filter: Byte, row: Row, above: Row, channels: nat, recon: Row)
    requires |row| <= |above| == |recon| && channels >= 1
    requires recon[..|row|] == Unfiltered(filter, row, above, channels, |row|)
    requires forall k :: |row| <= k < |recon| ==> recon[k] == 0
    ensures recon == Reconstructed(filter, row, above, channels)
  {
    assert recon == recon[..|row|] + recon[|row|..];
  }

  /** An encoder that filters row y by filters[y]. */
  function EncodeRows(rows: seq<Row>, filters: seq<Byte>, above: Row, channels: nat): Row
    requires |filters| == |rows| && channels >= 1
    requires forall y :: 0 <= y < |rows| ==> |rows[y]| == |above|
  {
    if rows == [] then []
    else
      [filters[0]] + Filtered(filters[0], rows[0], above, channels) +
      EncodeRows(rows[1..], filters[1..], rows[0], channels)
  }

  /** Decoding gives back the image's bytes for every image and every choice of filters
      0 to 4, one for each row. */
  lemma {:induction false} DecodeOfEncode(rows: seq<Row>, filters: seq<Byte>, above: Row, channels: nat, front: Row)
    requires |filters| == |rows| && channels >= 1
    requires forall y :: 0 <= y < |rows| ==> |rows[y]| == |above|
    requires forall y :: 0 <= y < |rows| ==> filters[y] <= 4
    ensures DecodeRows(front + EncodeRows(rows, filters, above, channels), |front|, above, channels, |rows|) == Rows(rows)
    decreases rows
  {
    hide DecodeRows, Filtered, Unfiltered;
    var raw := front + EncodeRows(rows, filters, above, channels);
    DecodeStep(raw, |front|, above, channels, |rows|, []);
    if rows != [] {
      var coded := Filtered(filters[0], rows[0], above, channels);
      var rest := EncodeRows(rows[1..], filters[1..], rows[0], channels);
      var nextFront := front + [filters[0]] + coded;
      assert raw == nextFront + rest;
      assert Slice(raw, |front| + 1, |front| + 1 + |above|) == coded;
      UnfilterOfFilter(filters[0], rows[0], above, channels, |above|);
      assert rows[0][..|above|] == rows[0];
      assert Reconstructed(filters[0], coded, above, channels) == rows[0];
      DecodeOfEncode(rows[1..], filters[1..], rows[0], channels, nextFront);
      assert [] + [rows[0]] + rows[1..] == rows;
      var d := DecodeRows(raw, |front|, above, channels, |rows|);
      assert d.Rows? ==> [] + d.rows == d.rows;
    }
  }

  // ---------- RGB to RGBA ----------

  function Opaque(row: Row): Row {
    if |row| < 3 then [] else row[..3] + [255] + Opaque(row[3..])
  }

  method ToRgba(rows: seq<Row>, channels: nat, width: nat) returns (out: seq<Row>)
    requires channels == 3 || channels == 4
    requires forall y :: 0 <= y < |rows| ==> |rows[y]| == width * channels
    ensures |out| == |rows|
    ensures forall y :: 0 <= y < |rows| ==> out[y] == if channels == 4 then rows[y] else Opaque(rows[y])
    ensures forall y :: 0 <= y < |rows| ==> |out[y]| == 4 * width
  {
    if channels == 4 {
      return rows;
    }
    out := [];
    for y := 0 to |rows|
      invariant |out| == y
      invariant forall k :: 0 <= k < y ==> out[k] == Opaque(rows[k]) && |out[k]| == 4 * width
    {
      OpaqueLength(rows[y], width);
      var pixels := OpaqueRow(rows[y]);
      out := out + [pixels];
    }
  }

  method OpaqueRow(row: Row) returns (pixels: Row)
    requires |row| % 3 == 0
    ensures pixels == Opaque(row)
  {
    pixels := [];
    var i := 0;
    assert row[0..] == row && [] + Opaque(row) == Opaque(row);
    assert Opaque([]) == [];
    hide Opaque;
    while i < |row|
      invariant i <= |row| && i % 3 == 0
      invariant pixels + Opaque(row[i..]) == Opaque(row)
    {
      OpaqueStep(row, i, pixels);
      pixels := pixels + row[i..i + 3] + [255];
      i := i + 3;
    }
    assert row[i..] == [] && pixels + [] == pixels;
  }

  lemma OpaqueStep(row: Row, i: nat, pixels: Row)
    requires i + 3 <= |row|
    ensures pixels + Opaque(row[i..]) == pixels + row[i..i + 3] + [255] + Opaque(row[i + 3..])
  {
    var left := row[i..];
    assert left[3..] == row[i + 3..] && left[..3] == row[i..i + 3];
    assert pixels + (left[..3] + [255] + Opaque(left[3..])) == pixels + left[..3] + [255] + Opaque(left[3..]);
  }

  lemma {:induction false} OpaqueLength(row: Row, width: nat)
    requires |row| == 3 * width
    ensures |Opaque(row)| == 4 * width
    decreases width
  {
    if width > 0 {
      OpaqueLength(row[3..], width - 1);
    }
  }

  /** Pixel k keeps its three samples and gets an opaque fourth. */
  lemma {:induction false} OpaquePixels(row: Row, width: nat, k: nat)
    requires |row| == 3 * width && k < width
    ensures |Opaque(row)| == 4 * width
    ensures Opaque(row)[4 * k..4 * k + 4] == row[3 * k..3 * k + 3] + [255]
    decreases k
  {
    OpaqueLength(row, width);
    OpaqueLength(row[3..], width - 1);
    var rest := Opaque(row[3..]);
    assert Opaque(row) == row[..3] + [255] + rest;
    hide Opaque;
    if k > 0 {
      OpaquePixels(row[3..], width - 1, k - 1);
      ShiftSlice(row[..3] + [255], rest, 4 * k - 4);
      ShiftSlice(row[..3], row[3..], 3 * k - 3);
      assert row[..3] + row[3..] == row;
      assert row[3..][3 * k - 3..3 * k] == row[3 * k..3 * k + 3];
    }
  }

  lemma ShiftSlice(front: Row, back: Row, i: nat)
    requires i + 4 <= |back| || i + 3 <= |back|
    ensures i + 4 <= |back| ==> (front + back)[|front| + i..|front| + i + 4] == back[i..i + 4]
    ensures (front + back)[|front| + i..|front| + i + 3] == back[i..i + 3]
  {
  }
}
