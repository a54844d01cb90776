/** Rectangles on the integer grid: overlap, zones of a layout, centred tiles
    (internal/schema/layout.go, internal/compositor/bridge.go). */
module Geometry {
  import opened Text

  datatype Rect = Rect(x: int, y: int, w: int, h: int)

  predicate Covers(r: Rect, i: int, j: int) {
    r.x <= i < r.x + r.w && r.y <= j < r.y + r.h
  }

  predicate Inside(a: Rect, b: Rect) {
    b.x <= a.x && b.y <= a.y && a.x + a.w <= b.x + b.w && a.y + a.h <= b.y + b.h
  }

  function Min(a: int, b: int): int {
    if a < b then a else b
  }

  function Max(a: int, b: int): int {
    if a > b then a else b
  }

  // ---------- overlap ----------

  function RectOverlap(a: Rect, b: Rect): int {
    var x1, y1 := Max(a.x, b.x), Max(a.y, b.y);
    var x2, y2 := Min(a.x + a.w, b.x + b.w), Min(a.y + a.h, b.y + b.h);
    if x2 <= x1 || y2 <= y1 then 0 else (x2 - x1) * (y2 - y1)
  }

  function Row(x: int, w: nat, j: int): set<(int, int)> {
    set i | x <= i < x + w :: (i, j)
  }

  function Cells(r: Rect): set<(int, int)> {
    set i, j | r.x <= i < r.x + r.w && r.y <= j < r.y + r.h :: (i, j)
  }

  lemma {:induction false} RowSize(x: int, w: nat, j: int)
    ensures |Row(x, w, j)| == w
  {
    if w > 0 {
      RowSize(x, w - 1, j);
      assert Row(x, w, j) == Row(x, w - 1, j) + {(x + w - 1, j)};
    }
  }

  lemma CellMeaning(r: Rect, i: int, j: int)
    ensures (i, j) in Cells(r) <==> Covers(r, i, j)
  {
  }

  lemma CellsSplit(x: int, y: int, w: nat, h: nat)
    requires h > 0
    ensures Cells(Rect(x, y, w, h)) == Cells(Rect(x, y, w, h - 1)) + Row(x, w, y + h - 1)
    ensures Cells(Rect(x, y, w, h - 1)) !! Row(x, w, y + h - 1)
  {
    var all, rest, last := Cells(Rect(x, y, w, h)), Cells(Rect(x, y, w, h - 1)), Row(x, w, y + h - 1);
    forall c: (int, int) | true
      ensures c in all <==> c in rest || c in last
    {
      CellMeaning(Rect(x, y, w, h), c.0, c.1);
      CellMeaning(Rect(x, y, w, h - 1), c.0, c.1);
      assert c == (c.0, c.1);
      hide Cells;
    }
    hide Cells;
    forall c: (int, int) | c in rest
      ensures c !in last
    {
      CellMeaning(Rect(x, y, w, h - 1), c.0, c.1);
      assert c == (c.0, c.1);
    }
  }

  lemma {:induction false} CellCount(x: int, y: int, w: nat, h: nat)
    ensures |Cells(Rect(x, y, w, h))| == w * h
  {
    if h > 0 {
      CellCount(x, y, w, h - 1);
      RowSize(x, w, y + h - 1);
      CellsSplit(x, y, w, h);
      hide Cells, Row;
      assert w * h == w * (h - 1) + w;
    } else {
      assert Cells(Rect(x, y, w, h)) == {};
    }
  }

  function Shared(a: Rect, b: Rect): Rect {
    var x1, y1 := Max(a.x, b.x), Max(a.y, b.y);
    Rect(x1, y1, Max(0, Min(a.x + a.w, b.x + b.w) - x1), Max(0, Min(a.y + a.h, b.y + b.h) - y1))
  }

  lemma SharedCells(a: Rect, b: Rect)
    ensures Cells(a) * Cells(b) == Cells(Shared(a, b))
  {
    hide Cells;
    forall c: (int, int) | true
      ensures c in Cells(a) * Cells(b) <==> c in Cells(Shared(a, b))
    {
      assert c == (c.0, c.1);
      CellMeaning(a, c.0, c.1);
      CellMeaning(b, c.0, c.1);
      CellMeaning(Shared(a, b), c.0, c.1);
    }
  }

  /** The overlap is the number of integer cells both rectangles cover. */
  lemma OverlapCountsCells(a: Rect, b: Rect)
    ensures RectOverlap(a, b) == |Cells(a) * Cells(b)|
  {
    hide Cells;
    SharedCells(a, b);
    var s := Shared(a, b);
    CellCount(s.x, s.y, s.w, s.h);
  }

  // ---------- resolving a zone ----------

  /** math.Round: to the nearest integer, halves away from zero. */
  function Round(v: real): int {
    if v >= 0.0 then (v + 0.5).Floor else -((0.5 - v).Floor)
  }

  datatype NormalizedRect = NormalizedRect(x: real, y: real, w: real, h: real)

  datatype Insets = Insets(top: int, right: int, bottom: int, left: int)

  datatype Constraints = Constraints(minW: int, minH: int, maxW: int, maxH: int)

  datatype Zone = Zone(id: string, name: string, number: int, relative: NormalizedRect, constraints: Option<Constraints>)

  datatype ZoneError = InvalidZone | EmptyRegion | MinWidthUnmet | MinHeightUnmet | EmptyZone

  datatype Resolution = Resolved(rect: Rect) | Failed(error: ZoneError)

  const EPSILON := 0.000000001

  predicate ValidNormalized(r: NormalizedRect) {
    && r.x >= 0.0 && r.y >= 0.0 && r.w > 0.0 && r.h > 0.0
    && r.x + r.w <= 1.0 + EPSILON && r.y + r.h <= 1.0 + EPSILON
  }

  predicate SlugChar(c: char) {
    LowerOrDigit(c) || c == '.' || c == '_' || c == '/' || c == '-'
  }

  /** ^[a-z0-9][a-z0-9._/-]{0,95}$ */
  predicate ValidSlug(id: string) {
    1 <= |id| <= 96 && LowerOrDigit(id[0]) && forall i :: 0 <= i < |id| ==> SlugChar(id[i])
  }

  predicate ValidZone(z: Zone) {
    && ValidSlug(z.id) && z.name != "" && z.number >= 0 && ValidNormalized(z.relative)
    && (z.constraints.Some? ==>
         var c := z.constraints.value; c.minW >= 0 && c.minH >= 0 && c.maxW >= 0 && c.maxH >= 0)
  }

  function Usable(region: Rect, insets: Option<Insets>): Rect {
    match insets
    case None => region
    case Some(i) => Rect(region.x + i.left, region.y + i.top, region.w - (i.left + i.right), region.h - (i.top + i.bottom))
  }

  /** A fraction of an axis, in whole pixels. */
  function Scale(len: int, fraction: real): int {
    Round(fraction * (len as real))
  }

  /** Where a zone starts along one axis of length `len`. */
  function Start(len: int, at: real): int {
    Scale(len, at)
  }

  /** How long it is there before its constraints apply: at least one pixel, and cut
      off at the end of the axis. */
  function Extent(len: int, at: real, size: real): int {
    var raw := Scale(len, size);
    var positive := if raw <= 0 then 1 else raw;
    if Start(len, at) + positive > len then len - Start(len, at) else positive
  }

  function Capped(extent: int, max: int): int {
    if max > 0 && extent > max then max else extent
  }

  function Resolve(region: Rect, insets: Option<Insets>, z: Zone): Resolution {
    var u := Usable(region, insets);
    if !ValidZone(z) then Failed(InvalidZone)
    else if u.w <= 0 || u.h <= 0 then Failed(EmptyRegion)
    else
      var w, h := Extent(u.w, z.relative.x, z.relative.w), Extent(u.h, z.relative.y, z.relative.h);
      var c := if z.constraints.Some? then z.constraints.value else Constraints(0, 0, 0, 0);
      if c.minW > 0 && w < c.minW then Failed(MinWidthUnmet)
      else if c.minH > 0 && h < c.minH then Failed(MinHeightUnmet)
      else if Capped(w, c.maxW) <= 0 || Capped(h, c.maxH) <= 0 then Failed(EmptyZone)
      else Resolved(Rect(u.x + Start(u.w, z.relative.x), u.y + Start(u.h, z.relative.y), Capped(w, c.maxW), Capped(h, c.maxH)))
  }

  method ResolveZoneGeometry(region: Rect, insets: Option<Insets>, z: Zone) returns (r: Resolution)
    ensures r == Resolve(region, insets, z)
    ensures r.Resolved? ==> r.rect.w > 0 && r.rect.h > 0 && Inside(r.rect, Usable(region, insets))
  {
    ResolvedIsInside(region, insets, z);
    hide Scale, ValidZone;
    if !ValidZone(z) {
      return Failed(InvalidZone);
    }
    var usable := region;
    if insets.Some? {
      var i := insets.value;
      usable := Rect(usable.x + i.left, usable.y + i.top, usable.w - (i.left + i.right), usable.h - (i.top + i.bottom));
    }
    if usable.w <= 0 || usable.h <= 0 {
      return Failed(EmptyRegion);
    }
    var x := usable.x + Scale(usable.w, z.relative.x);
    var y := usable.y + Scale(usable.h, z.relative.y);
    var w := Scale(usable.w, z.relative.w);
    var h := Scale(usable.h, z.relative.h);
    if w <= 0 {
      w := 1;
    }
    if h <= 0 {
      h := 1;
    }
    if x + w > usable.x + usable.w {
      w := usable.x + usable.w - x;
    }
    if y + h > usable.y + usable.h {
      h := usable.y + usable.h - y;
    }
    assert w == Extent(usable.w, z.relative.x, z.relative.w);
    assert h == Extent(usable.h, z.relative.y, z.relative.h);
    hide Extent;
    if z.constraints.Some? {
      var c := z.constraints.value;
      if c.minW > 0 && w < c.minW {
        return Failed(MinWidthUnmet);
      }
      if c.minH > 0 && h < c.minH {
        return Failed(MinHeightUnmet);
      }
      if c.maxW > 0 && w > c.maxW {
        w := c.maxW;
      }
      if c.maxH > 0 && h > c.maxH {
        h := c.maxH;
      }
    }
    if w <= 0 || h <= 0 {
      return Failed(EmptyZone);
    }
    r := Resolved(Rect(x, y, w, h));
  }

  lemma ResolvedIsInside(region: Rect, insets: Option<Insets>, z: Zone)
    ensures var r := Resolve(region, insets, z);
      r.Resolved? ==> r.rect.w > 0 && r.rect.h > 0 && Inside(r.rect, Usable(region, insets))
    ensures var r := Resolve(region, insets, z);
      r.Resolved? && z.constraints.Some? ==>
        && (z.constraints.value.maxW > 0 ==> r.rect.w <= z.constraints.value.maxW)
        && (z.constraints.value.maxH > 0 ==> r.rect.h <= z.constraints.value.maxH)
  {
    var u := Usable(region, insets);
    if ValidZone(z) && u.w > 0 && u.h > 0 {
      StartNotNegative(u.w, z.relative.x);
      StartNotNegative(u.h, z.relative.y);
      hide Start, Scale;
    }
  }

  lemma StartNotNegative(len: int, at: real)
    requires len > 0 && at >= 0.0
    ensures Start(len, at) >= 0
  {
    assert at * (len as real) >= 0.0;
  }

  /** Zone b begins where zone a ends, as fractions of the axis. With no cap on a,
      a's last pixel edge and b's first differ by at most one. */
  lemma SharedEdge(len: int, at: real, size: real, nextAt: real, nextSize: real)
    requires len > 0 && at >= 0.0 && size > 0.0 && nextAt == at + size && nextSize > 0.0
    requires Extent(len, at, size) > 0 && Extent(len, nextAt, nextSize) > 0
    ensures -1 <= Start(len, at) + Extent(len, at, size) - Start(len, nextAt) <= 1
  {
    ScaleSum(len, at, size);
    hide Scale;
  }

  lemma ScaleSum(len: int, a: real, b: real)
    requires len > 0 && a >= 0.0 && b >= 0.0
    ensures -1 <= Scale(len, a) + Scale(len, b) - Scale(len, a + b) <= 1
    ensures Scale(len, a) <= Scale(len, a + b)
  {
    var n := len as real;
    assert (a + b) * n == a * n + b * n;
    RoundSum(a * n, b * n);
  }

  lemma RoundSum(a: real, b: real)
    requires a >= 0.0 && b >= 0.0
    ensures -1 <= Round(a) + Round(b) - Round(a + b) <= 1
    ensures Round(a) <= Round(a + b)
  {
  }

  /** The same for whole zones: side by side, and one above the other. */
  lemma ResolvedNeighbours(region: Rect, insets: Option<Insets>, a: Zone, b: Zone)
    requires Resolve(region, insets, a).Resolved? && Resolve(region, insets, b).Resolved?
    requires a.constraints.Some? ==> a.constraints.value.maxW == 0 && a.constraints.value.maxH == 0
    ensures var ra, rb := Resolve(region, insets, a).rect, Resolve(region, insets, b).rect;
      && (b.relative.x == a.relative.x + a.relative.w ==> -1 <= ra.x + ra.w - rb.x <= 1)
      && (b.relative.y == a.relative.y + a.relative.h ==> -1 <= ra.y + ra.h - rb.y <= 1)
  {
    var u := Usable(region, insets);
    if b.relative.x == a.relative.x + a.relative.w {
      CappedPositive(Extent(u.w, b.relative.x, b.relative.w), if b.constraints.Some? then b.constraints.value.maxW else 0);
      SharedEdge(u.w, a.relative.x, a.relative.w, b.relative.x, b.relative.w);
    }
    if b.relative.y == a.relative.y + a.relative.h {
      CappedPositive(Extent(u.h, b.relative.y, b.relative.h), if b.constraints.Some? then b.constraints.value.maxH else 0);
      SharedEdge(u.h, a.relative.y, a.relative.h, b.relative.y, b.relative.h);
    }
  }

  lemma CappedPositive(extent: int, max: int)
    requires Capped(extent, max) > 0
    ensures extent > 0
  {
  }

  // ---------- the built-in development layout ----------

  const EDITOR := Zone("editor", "Editor", 1, NormalizedRect(0.0, 0.0, 0.62, 1.0), None)
  const TERMINAL := Zone("terminal", "Terminal", 2, NormalizedRect(0.62, 0.52, 0.38, 0.48), None)
  const PREVIEW := Zone("preview", "Preview", 3, NormalizedRect(0.62, 0.0, 0.38, 0.52), None)

  lemma BuiltinZonesValid()
    ensures ValidZone(EDITOR) && ValidZone(TERMINAL) && ValidZone(PREVIEW)
  {
  }

  /** Splitting an axis at 0.62 or 0.52 leaves nothing over and nothing out. */
  lemma AxisSplit(len: int, cut: real)
    requires len >= 2 && (cut == 0.62 || cut == 0.52)
    ensures Start(len, 0.0) == 0 && Start(len, cut) == Extent(len, 0.0, cut) && 0 < Start(len, cut) < len
    ensures Start(len, cut) + Extent(len, cut, 1.0 - cut) == len
    ensures Extent(len, 0.0, 1.0) == len
  {
    var n := len as real;
    assert (1.0 - cut) * n == n - cut * n;
  }

  lemma TooShort(cut: real)
    requires cut == 0.62 || cut == 0.52
    ensures Extent(1, cut, 1.0 - cut) == 0
  {
  }

  predicate AllResolve(region: Rect) {
    && Resolve(region, None, EDITOR).Resolved?
    && Resolve(region, None, TERMINAL).Resolved?
    && Resolve(region, None, PREVIEW).Resolved?
  }

  lemma DevLayoutRects(region: Rect)
    requires region.w >= 2 && region.h >= 2
    ensures var cx, cy := Start(region.w, 0.62), Start(region.h, 0.52);
      && 0 < cx < region.w && 0 < cy < region.h
      && Resolve(region, None, EDITOR) == Resolved(Rect(region.x, region.y, cx, region.h))
      && Resolve(region, None, TERMINAL) == Resolved(Rect(region.x + cx, region.y + cy, region.w - cx, region.h - cy))
      && Resolve(region, None, PREVIEW) == Resolved(Rect(region.x + cx, region.y, region.w - cx, cy))
  {
    BuiltinZonesValid();
    hide Start, Extent, ValidZone;
    AxisSplit(region.w, 0.62);
    AxisSplit(region.h, 0.52);
  }

  lemma DevLayoutTooSmall(region: Rect)
    requires region.w < 2 || region.h < 2
    ensures !AllResolve(region)
  {
    hide Start, Extent, ValidZone;
    if region.w >= 1 && region.h >= 1 {
      TooShort(0.62);
      TooShort(0.52);
    }
  }

  /** The three built-in zones all resolve exactly on regions of at least 2 by 2, and
      then every cell of the region lies in exactly one of them. */
  lemma DevLayoutPartitions(region: Rect)
    ensures AllResolve(region) <==> region.w >= 2 && region.h >= 2
    ensures region.w >= 2 && region.h >= 2 ==>
      var e, t, p := Resolve(region, None, EDITOR).rect, Resolve(region, None, TERMINAL).rect, Resolve(region, None, PREVIEW).rect;
      forall i, j :: && (Covers(region, i, j) <==> Covers(e, i, j) || Covers(t, i, j) || Covers(p, i, j))
                     && !(Covers(e, i, j) && Covers(t, i, j)) && !(Covers(e, i, j) && Covers(p, i, j))
                     && !(Covers(t, i, j) && Covers(p, i, j))
  {
    if region.w >= 2 && region.h >= 2 {
      DevLayoutRects(region);
      hide Resolve, Start;
    } else {
      DevLayoutTooSmall(region);
    }
  }

  // ---------- centring a tile in a cell ----------

  function CenteredTile(cell: Rect, current: Option<Rect>): Rect {
    if current.None? || current.value.w <= 0 || current.value.h <= 0 then cell
    else
      var w, h := Min(current.value.w, cell.w), Min(current.value.h, cell.h);
      Rect(cell.x + (cell.w - w) / 2, cell.y + (cell.h - h) / 2, w, h)
  }

  /** The tile lies in the cell, is never larger than the client was, and its opposite
      margins differ by at most one pixel. */
  lemma CenteredTileInside(cell: Rect, current: Option<Rect>)
    requires cell.w > 0 && cell.h > 0
    ensures var t := CenteredTile(cell, current);
      && Inside(t, cell) && t.w > 0 && t.h > 0
      && 0 <= (cell.x + cell.w - (t.x + t.w)) - (t.x - cell.x) <= 1
      && 0 <= (cell.y + cell.h - (t.y + t.h)) - (t.y - cell.y) <= 1
      && (current.Some? && current.value.w > 0 && current.value.h > 0 ==>
           t.w == Min(current.value.w, cell.w) && t.h == Min(current.value.h, cell.h))
  {
  }

  /** What AssignSurfaceTag asks the compositor for is inside the zone, hence inside
      the usable region, for every zone that resolves. */
  lemma AssignedTileInRegion(region: Rect, insets: Option<Insets>, z: Zone, current: Option<Rect>)
    requires Resolve(region, insets, z).Resolved?
    ensures var t := CenteredTile(Resolve(region, insets, z).rect, current);
      t.w > 0 && t.h > 0 && Inside(t, Resolve(region, insets, z).rect) && Inside(t, Usable(region, insets))
  {
    hide Resolve, CenteredTile, Usable;
    ResolvedIsInside(region, insets, z);
    CenteredTileInside(Resolve(region, insets, z).rect, current);
  }
}
