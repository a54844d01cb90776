/** The five filters and the edge cases of decoding in plain terms
    (scripts/asha_agora_control_proof.py), as section 6 of RFC 2083 words them. */
module PngLaws {
  import opened Arith
  import opened Png
  import opened PngCompare

  // ---------- the filters ----------

  /** The byte of the neighbouring pixel to the left, zero at the edge. */
  function LeftOf(row: Row, i: nat, channels: nat): Byte
    requires i < |row| && channels >= 1
  {
    if i < channels then 0 else row[i - channels]
  }

  /** The byte that of the three neighbours is nearest to left + up - upLeft; on a tie the
      left one, then the one above. */
  predicate Nearest(r: Byte, left: Byte, up: Byte, upLeft: Byte) {
    var p := left + up - upLeft;
    var dl, du, dd := Abs(p - left), Abs(p - up), Abs(p - upLeft);
    if dl <= du && dl <= dd then r == left
    else if du <= dd then r == up
    else r == upLeft
  }

  /** What is added to byte i, given the finished bytes to its left and the row above. */
  ghost predicate Predicts(filter: Byte, p: Byte, row: Row, above: Row, i: nat, channels: nat)
    requires i < |row| <= |above| && channels >= 1
  {
    var left, up, upLeft := LeftOf(row, i, channels), above[i], LeftOf(above, i, channels);
    && (filter == 0 ==> p == 0)
    && (filter == 1 ==> p == left)
    && (filter == 2 ==> p == up)
    && (filter == 3 ==> p == (left + up) / 2)
    && (filter == 4 ==> Nearest(p, left, up, upLeft))
  }

  lemma PredictorPredicts(filter: Byte, row: Row, above: Row, i: nat, channels: nat)
    requires i < |row| <= |above| && channels >= 1
    ensures Predicts(filter, Predictor(filter, Back(row, i, channels), above[i], Back(above, i, channels)), row, above, i, channels)
  {
  }

  /** One byte of a reconstructed row is its coded byte plus its prediction from finished
      bytes, modulo 256. */
  lemma UnfilteredByte(filter: Byte, row: Row, above: Row, channels: nat, i: nat)
    requires i < |row| <= |above| && channels >= 1
    ensures var r := Unfiltered(filter, row, above, channels, |row|);
      r[i] == (row[i] + Predictor(filter, Back(r, i, channels), above[i], Back(above, i, channels))) % 256
  {
    hide Predictor;
    var r := Unfiltered(filter, row, above, channels, |row|);
    UnfilteredPrefix(filter, row, above, channels, i, |row|);
    UnfilteredPrefix(filter, row, above, channels, i + 1, |row|);
    assert r[i] == r[..i + 1][i];
    assert Back(r[..i], i, channels) == Back(r, i, channels);
  }

  /** The law of each filter on every byte of a reconstructed row: none, the byte to the
      left, the byte above, their average rounded down, and the nearest of three. */
  lemma ReconstructionLaw(filter: Byte, row: Row, above: Row, channels: nat, i: nat)
    requires i < |row| <= |above| && channels >= 1
    ensures var r := Unfiltered(filter, row, above, channels, |row|);
      var left, up, upLeft := LeftOf(r, i, channels), above[i], LeftOf(above, i, channels);
      && (filter == 0 ==> r[i] == row[i])
      && (filter == 1 ==> r[i] == (row[i] + left) % 256)
      && (filter == 2 ==> r[i] == (row[i] as int + up as int) % 256)
      && (filter == 3 ==> r[i] == (row[i] + (left + up) / 2) % 256)
      && (filter == 4 ==> exists p: Byte :: Nearest(p, left, up, upLeft) && r[i] == (row[i] + p) % 256)
  {
    var r := Unfiltered(filter, row, above, channels, |row|);
    UnfilteredByte(filter, row, above, channels, i);
    var p := Predictor(filter, Back(r, i, channels), above[i], Back(above, i, channels));
    PredictorPredicts(filter, r, above, i, channels);
    hide Unfiltered, Predictor;
    assert r[i] == (row[i] as int + p as int) % 256;
  }

  /** The same laws of filtering, with the prediction taken away instead. */
  lemma FilteringLaw(filter: Byte, row: Row, above: Row, channels: nat, i: nat)
    requires |row| == |above| && i < |row| && channels >= 1
    ensures var c := Filtered(filter, row, above, channels);
      var left, up, upLeft := LeftOf(row, i, channels), above[i], LeftOf(above, i, channels);
      && (filter == 0 ==> c[i] == row[i])
      && (filter == 1 ==> c[i] == (row[i] - left) % 256)
      && (filter == 2 ==> c[i] == (row[i] as int - up as int) % 256)
      && (filter == 3 ==> c[i] == (row[i] - (left + up) / 2) % 256)
      && (filter == 4 ==> exists p: Byte :: Nearest(p, left, up, upLeft) && c[i] == (row[i] - p) % 256)
  {
    var p := Predictor(filter, Back(row, i, channels), above[i], Back(above, i, channels));
    PredictorPredicts(filter, row, above, i, channels);
    hide Predictor;
    assert Filtered(filter, row, above, channels)[i] == (row[i] as int - p as int) % 256;
  }

  /** The prediction of filter 4 is determined: no two bytes are nearest. */
  lemma NearestIsOne(p: Byte, q: Byte, left: Byte, up: Byte, upLeft: Byte)
    requires Nearest(p, left, up, upLeft) && Nearest(q, left, up, upLeft)
    ensures p == q
  {
  }

  // ---------- rows and their ends ----------

  /** Exactly when decoding stops, at its first row: no filter byte left, or an unknown
      filter with at least one byte to decode; otherwise the row is as wide as the one
      above, reconstructed as far as the data goes and zero beyond. */
  lemma FirstRow(raw: Row, pos: nat, above: Row, channels: nat, height: nat)
    requires channels >= 1 && height >= 1
    ensures pos >= |raw| ==> DecodeRows(raw, pos, above, channels, height) == MissingFilter
    ensures pos < |raw| && raw[pos] > 4 && pos + 1 < |raw| && |above| > 0 ==>
      DecodeRows(raw, pos, above, channels, height) == UnknownFilter(raw[pos])
    ensures pos < |raw| && (raw[pos] <= 4 || pos + 1 == |raw| || |above| == 0) ==>
      var end := if pos + 1 + |above| <= |raw| then pos + 1 + |above| else |raw|;
      var coded := raw[pos + 1..end];
      var rest := DecodeRows(raw, pos + 1 + |above|, Reconstructed(raw[pos], coded, above, channels), channels, height - 1);
      DecodeRows(raw, pos, above, channels, height) ==
        if rest.Rows? then Rows([Reconstructed(raw[pos], coded, above, channels)] + rest.rows) else rest
  {
    hide Reconstructed;
    if pos < |raw| {
      var end := if pos + 1 + |above| <= |raw| then pos + 1 + |above| else |raw|;
      assert Slice(raw, pos + 1, pos + 1 + |above|) == raw[pos + 1..end];
    }
  }

  /** A row cut short by the end of the data: its bytes, then zeros. */
  lemma ShortRow(filter: Byte, row: Row, above: Row, channels: nat, i: nat)
    requires |row| <= |above| && channels >= 1 && i < |above|
    ensures Reconstructed(filter, row, above, channels)[i] ==
      if i < |row| then Unfiltered(filter, row, above, channels, |row|)[i] else 0
  {
  }

  // ---------- what comparing counts ----------

  /** The positions at which two images differ. */
  function Differing(a: seq<Row>, b: seq<Row>, width: nat, h: nat): set<(nat, nat)>
    requires h <= |a| && h <= |b|
    requires forall y :: 0 <= y < h ==> |a[y]| == |b[y]| == 4 * width
  {
    set x: nat, y: nat | x < width && y < h && PixelAt(a[y], x) != PixelAt(b[y], x) :: (x, y)
  }

  function DifferingInRow(a: Row, b: Row, y: nat, n: nat): set<(nat, nat)>
    requires 4 * n <= |a| && 4 * n <= |b|
  {
    set x: nat | x < n && PixelAt(a, x) != PixelAt(b, x) :: (x, y)
  }

  lemma {:induction false} RowCountIsSize(a: Row, b: Row, y: nat, n: nat)
    requires 4 * n <= |a| == |b|
    ensures RowCounts(a, b, n).0 == |DifferingInRow(a, b, y, n)|
  {
    hide PixelAt, PixelDelta;
    if n > 0 {
      RowCountIsSize(a, b, y, n - 1);
      var last := DifferingInRow(a, b, y, n - 1);
      assert DifferingInRow(a, b, y, n) == last + if PixelAt(a, n - 1) != PixelAt(b, n - 1) then {((n - 1) as nat, y)} else {};
    }
  }

  /** The changed pixels counted are as many as the positions at which the images differ. */
  lemma {:induction false} ChangedIsSize(a: seq<Row>, b: seq<Row>, width: nat, h: nat)
    requires SameSize(a, b, width, h)
    ensures ImageCounts(a, b, width, h).0 == |Differing(a, b, width, h)|
  {
    hide ImageCounts, RowCounts, PixelAt;
    if h == 0 {
      NoRows(a, b, width);
      assert Differing(a, b, width, h) == {};
    } else {
      ChangedIsSize(a, b, width, h - 1);
      NextRow(a, b, width, h - 1);
      RowCountIsSize(a[h - 1], b[h - 1], h - 1, width);
      var before, last := Differing(a, b, width, h - 1), DifferingInRow(a[h - 1], b[h - 1], h - 1, width);
      assert Differing(a, b, width, h) == before + last;
      assert before !! last;
    }
  }

  /** What one pixel adds to the channel delta: the four distances, added up. */
  lemma OnePixel(a: Row, b: Row)
    requires |a| == |b| == 4
    ensures ImageCounts([a], [b], 1, 1).1 ==
      Abs(a[0] as int - b[0] as int) + Abs(a[1] as int - b[1] as int) + Abs(a[2] as int - b[2] as int) + Abs(a[3] as int - b[3] as int)
  {
    NextRow([a], [b], 1, 0);
    NoRows([a], [b], 1);
    NextPixel(a, b, 0);
    NoPixels(a, b);
    assert PixelAt(a, 0) == a && PixelAt(b, 0) == b;
    hide ImageCounts, RowCounts;
  }
}
