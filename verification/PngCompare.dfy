/** Comparing two decoded images pixel by pixel (scripts/asha_agora_control_proof.py). */
module PngCompare {
  import opened Arith
  import opened Png

  datatype Image = Image(width: nat, height: nat, rows: seq<Row>)

  predicate Whole(m: Image) {
    && |m.rows| == m.height
    && forall y :: 0 <= y < m.height ==> |m.rows[y]| == 4 * m.width
  }

  datatype Parsed = Picture(image: Image) | Failed(error: Decoded)

  /** From the decompressed bytes to RGBA rows: what comes out is always a whole image,
      of the decoded rows as they are or widened. */
  method ParseRgba(raw: Row, width: nat, height: nat, channels: nat) returns (r: Parsed)
    requires channels == 3 || channels == 4
    ensures var d := DecodeRows(raw, 0, Zeros(width * channels), channels, height);
      if !d.Rows? then r == Failed(d)
      else
        && r.Picture? && r.image.width == width && r.image.height == height && Whole(r.image)
        && |d.rows| == height
        && forall y :: 0 <= y < height ==> r.image.rows[y] == if channels == 4 then d.rows[y] else Opaque(d.rows[y])
  {
    hide DecodeRows, Opaque;
    DecodedWidths(raw, 0, Zeros(width * channels), channels, height);
    var decoded := ReconstructRows(raw, width * channels, channels, height);
    if !decoded.Rows? {
      return Failed(decoded);
    }
    var rows := ToRgba(decoded.rows, channels, width);
    return Picture(Image(width, height, rows));
  }

  datatype Comparison =
    | DimensionChange
    | Compared(changedPixels: nat, totalPixels: nat, changedPixelRatio: real, absoluteChannelDelta: nat)

  function Gap(x: Byte, y: Byte): nat {
    Abs(x as int - y as int)
  }

  function PixelDelta(a: Row, b: Row): nat
    requires |a| == |b| == 4
  {
    Gap(a[0], b[0]) + Gap(a[1], b[1]) + Gap(a[2], b[2]) + Gap(a[3], b[3])
  }

  function PixelChanged(a: Row, b: Row): nat {
    if a == b then 0 else 1
  }

  function PixelAt(row: Row, k: nat): (p: Row)
    requires 4 * k + 4 <= |row|
    ensures |p| == 4
  {
    row[4 * k..4 * k + 4]
  }

  /** Differing pixels and summed channel differences of two rows of n pixels. */
  function RowCounts(a: Row, b: Row, n: nat): (nat, nat)
    requires 4 * n <= |a| && 4 * n <= |b|
  {
    if n == 0 then (0, 0)
    else
      var (changed, delta) := RowCounts(a, b, n - 1);
      var p, q := PixelAt(a, n - 1), PixelAt(b, n - 1);
      (changed + PixelChanged(p, q), delta + PixelDelta(p, q))
  }

  function ImageCounts(a: seq<Row>, b: seq<Row>, width: nat, h: nat): (nat, nat)
    requires h <= |a| && h <= |b|
    requires forall y :: 0 <= y < h ==> |a[y]| == |b[y]| == 4 * width
  {
    if h == 0 then (0, 0)
    else
      var (changed, delta) := ImageCounts(a, b, width, h - 1);
      var (more, extra) := RowCounts(a[h - 1], b[h - 1], width);
      (changed + more, delta + extra)
  }

  method ComparePngs(before: Image, after: Image) returns (r: Comparison)
    requires Whole(before) && Whole(after)
    ensures r.DimensionChange? <==> before.width != after.width || before.height != after.height
    ensures r.Compared? ==>
      && (r.changedPixels, r.absoluteChannelDelta) == ImageCounts(before.rows, after.rows, before.width, before.height)
      && r.totalPixels == before.width * before.height
      && r.changedPixelRatio * r.totalPixels as real == r.changedPixels as real
      && 0.0 <= r.changedPixelRatio <= 1.0
      && (r.changedPixels == 0 <==> before == after)
  {
    hide ImageCounts, RowCounts, PixelDelta, PixelChanged;
    if (before.width, before.height) != (after.width, after.height) {
      return DimensionChange;
    }
    var total := before.width * before.height;
    var changed, delta := 0, 0;
    NoRows(before.rows, after.rows, before.width);
    for y := 0 to before.height
      invariant (changed, delta) == ImageCounts(before.rows, after.rows, before.width, y)
    {
      var c, d := CompareRows(before.rows[y], after.rows[y], before.width);
      NextRow(before.rows, after.rows, before.width, y);
      changed, delta := changed + c, delta + d;
    }
    ChangedAtMost(before.rows, after.rows, before.width, before.height);
    SameIffUnchanged(before, after);
    var ratio := 0.0;
    if total > 0 {
      ratio := changed as real / total as real;
      RatioBounds(changed, total);
    }
    return Compared(changed, total, ratio, delta);
  }

  lemma RatioBounds(changed: nat, total: nat)
    requires 0 < total && changed <= total
    ensures 0.0 <= changed as real / total as real <= 1.0
  {
  }

  lemma NoRows(a: seq<Row>, b: seq<Row>, width: nat)
    ensures ImageCounts(a, b, width, 0) == (0, 0)
  {
  }

  lemma NextRow(a: seq<Row>, b: seq<Row>, width: nat, h: nat)
    requires h < |a| && h < |b|
    requires forall y :: 0 <= y <= h ==> |a[y]| == |b[y]| == 4 * width
    ensures ImageCounts(a, b, width, h + 1).0 == ImageCounts(a, b, width, h).0 + RowCounts(a[h], b[h], width).0
    ensures ImageCounts(a, b, width, h + 1).1 == ImageCounts(a, b, width, h).1 + RowCounts(a[h], b[h], width).1
  {
  }

  method CompareRows(brow: Row, arow: Row, ghost width: nat) returns (changed: nat, delta: nat)
    requires |brow| == |arow| == 4 * width
    ensures (changed, delta) == RowCounts(brow, arow, width)
  {
    hide RowCounts, PixelDelta;
    changed, delta := 0, 0;
    var i := 0;
    ghost var k := 0;
    NoPixels(brow, arow);
    while i < |brow|
      invariant k <= width && i == 4 * k
      invariant (changed, delta) == RowCounts(brow, arow, k)
    {
      var p, q := brow[i..i + 4], arow[i..i + 4];
      NextPixel(brow, arow, k);
      if p != q {
        changed := changed + 1;
        delta := delta + PixelDelta(p, q);
      } else {
        SamePixel(p, q);
      }
      i := i + 4;
      k := k + 1;
    }
  }

  lemma NoPixels(a: Row, b: Row)
    ensures RowCounts(a, b, 0) == (0, 0)
  {
  }

  lemma NextPixel(a: Row, b: Row, k: nat)
    requires 4 * k + 4 <= |a| == |b|
    ensures var p, q := PixelAt(a, k), PixelAt(b, k);
            && RowCounts(a, b, k + 1).0 == RowCounts(a, b, k).0 + PixelChanged(p, q)
            && RowCounts(a, b, k + 1).1 == RowCounts(a, b, k).1 + PixelDelta(p, q)
  {
  }

  lemma SamePixel(p: Row, q: Row)
    requires |p| == |q| == 4
    ensures PixelDelta(p, q) == 0 <==> p == q
    ensures p != q ==> 1 <= PixelDelta(p, q) <= 1020
  {
    assert p == [p[0], p[1], p[2], p[3]] && q == [q[0], q[1], q[2], q[3]];
  }

  // ---------- what the counts mean ----------

  lemma {:induction false} RowFacts(a: Row, b: Row, n: nat)
    requires 4 * n <= |a| == |b|
    ensures RowCounts(a, b, n).0 <= n
    ensures RowCounts(a, b, n).0 <= RowCounts(a, b, n).1 <= 1020 * RowCounts(a, b, n).0
    ensures RowCounts(a, b, n).0 == 0 <==> a[..4 * n] == b[..4 * n]
  {
    hide PixelDelta;
    if n > 0 {
      var p, q := PixelAt(a, n - 1), PixelAt(b, n - 1);
      RowFacts(a, b, n - 1);
      SamePixel(p, q);
      assert a[..4 * n] == a[..4 * (n - 1)] + p && b[..4 * n] == b[..4 * (n - 1)] + q;
    }
  }

  ghost predicate SameSize(a: seq<Row>, b: seq<Row>, width: nat, h: nat) {
    && h <= |a| && h <= |b|
    && forall y :: 0 <= y < h ==> |a[y]| == |b[y]| == 4 * width
  }

  /** The channel difference is at least one and at most 1020 for each changed pixel. */
  lemma {:induction false} DeltaBounds(a: seq<Row>, b: seq<Row>, width: nat, h: nat)
    requires SameSize(a, b, width, h)
    ensures ImageCounts(a, b, width, h).0 <= ImageCounts(a, b, width, h).1 <= 1020 * ImageCounts(a, b, width, h).0
    ensures ImageCounts(a, b, width, h).0 == 0 <==> forall y :: 0 <= y < h ==> a[y] == b[y]
  {
    hide ImageCounts, RowCounts;
    if h == 0 {
      NoRows(a, b, width);
    } else {
      DeltaBounds(a, b, width, h - 1);
      NextRow(a, b, width, h - 1);
      var p, q := a[h - 1], b[h - 1];
      RowFacts(p, q, width);
      assert p[..4 * width] == p && q[..4 * width] == q;
    }
  }

  lemma {:induction false} ChangedAtMost(a: seq<Row>, b: seq<Row>, width: nat, h: nat)
    requires SameSize(a, b, width, h)
    ensures ImageCounts(a, b, width, h).0 <= width * h
  {
    hide ImageCounts, RowCounts;
    if h == 0 {
      NoRows(a, b, width);
    } else {
      ChangedAtMost(a, b, width, h - 1);
      NextRow(a, b, width, h - 1);
      RowFacts(a[h - 1], b[h - 1], width);
      assert width * h == width * (h - 1) + width;
    }
  }

  lemma SameIffUnchanged(a: Image, b: Image)
    requires Whole(a) && Whole(b) && a.width == b.width && a.height == b.height
    ensures ImageCounts(a.rows, b.rows, a.width, a.height).0 == 0 <==> a == b
  {
    hide ImageCounts;
    DeltaBounds(a.rows, b.rows, a.width, a.height);
  }

  lemma PixelTriangle(p: Row, q: Row, r: Row)
    requires |p| == |q| == |r| == 4
    ensures PixelDelta(p, r) <= PixelDelta(p, q) + PixelDelta(q, r)
    ensures PixelDelta(p, q) == PixelDelta(q, p)
    ensures PixelChanged(p, r) <= PixelChanged(p, q) + PixelChanged(q, r)
    ensures PixelChanged(p, q) == PixelChanged(q, p)
  {
    hide Gap;
    GapTriangle(p[0], q[0], r[0]);
    GapTriangle(p[1], q[1], r[1]);
    GapTriangle(p[2], q[2], r[2]);
    GapTriangle(p[3], q[3], r[3]);
  }

  lemma GapTriangle(x: Byte, y: Byte, z: Byte)
    ensures Gap(x, z) <= Gap(x, y) + Gap(y, z) && Gap(x, y) == Gap(y, x)
  {
  }

  lemma {:induction false} RowSymmetric(a: Row, b: Row, n: nat)
    requires 4 * n <= |a| == |b|
    ensures RowCounts(a, b, n) == RowCounts(b, a, n)
  {
    if n > 0 {
      hide PixelDelta, PixelChanged, PixelAt;
      RowSymmetric(a, b, n - 1);
      var p, q := PixelAt(a, n - 1), PixelAt(b, n - 1);
      PixelTriangle(p, q, p);
    }
  }

  lemma {:induction false} RowTriangle(a: Row, b: Row, c: Row, n: nat)
    requires 4 * n <= |a| == |b| == |c|
    ensures RowCounts(a, c, n).0 <= RowCounts(a, b, n).0 + RowCounts(b, c, n).0
    ensures RowCounts(a, c, n).1 <= RowCounts(a, b, n).1 + RowCounts(b, c, n).1
  {
    if n > 0 {
      hide PixelDelta, PixelChanged, PixelAt;
      RowTriangle(a, b, c, n - 1);
      PixelTriangle(PixelAt(a, n - 1), PixelAt(b, n - 1), PixelAt(c, n - 1));
    }
  }

  /** Both counts are distances: symmetric, and never longer than a detour. */
  lemma {:induction false} CountsAreDistances(a: seq<Row>, b: seq<Row>, c: seq<Row>, width: nat, h: nat)
    requires SameSize(a, b, width, h) && SameSize(b, c, width, h)
    ensures ImageCounts(a, c, width, h).0 <= ImageCounts(a, b, width, h).0 + ImageCounts(b, c, width, h).0
    ensures ImageCounts(a, c, width, h).1 <= ImageCounts(a, b, width, h).1 + ImageCounts(b, c, width, h).1
    ensures ImageCounts(a, b, width, h) == ImageCounts(b, a, width, h)
  {
    hide RowCounts, ImageCounts;
    if h == 0 {
      NoRows(a, b, width);
      NoRows(b, c, width);
      NoRows(a, c, width);
      NoRows(b, a, width);
    } else {
      CountsAreDistances(a, b, c, width, h - 1);
      NextRow(a, b, width, h - 1);
      NextRow(b, c, width, h - 1);
      NextRow(a, c, width, h - 1);
      NextRow(b, a, width, h - 1);
      RowTriangle(a[h - 1], b[h - 1], c[h - 1], width);
      RowSymmetric(a[h - 1], b[h - 1], width);
    }
  }
}
