/** Zones and outputs in plain terms (internal/schema/layout.go,
    internal/compositor/bridge.go): rounding, what a zone resolves to, and where the
    grid puts each output. */
module LayoutLaws {
  import opened Text
  import opened Sorting
  import opened Geometry
  import opened Outputs

  // ---------- zones ----------

  /** The nearest integer; from halfway between two, the one farther from zero. */
  lemma RoundMeans(v: real)
    ensures v >= 0.0 ==> -0.5 <= v - Round(v) as real < 0.5
    ensures v < 0.0 ==> -0.5 < v - Round(v) as real <= 0.5
  {
  }

  /** A slug of at most 96 characters, a name, a number, a rectangle of positive size
      within the unit square give or take 10^-9, and no negative constraint. */
  lemma ZoneIsValidIff(z: Zone)
    ensures ValidZone(z) <==>
      && 1 <= |z.id| <= 96 && ('a' <= z.id[0] <= 'z' || '0' <= z.id[0] <= '9')
      && (forall i :: 0 <= i < |z.id| ==>
           'a' <= z.id[i] <= 'z' || '0' <= z.id[i] <= '9' || z.id[i] == '.' || z.id[i] == '_' || z.id[i] == '/' || z.id[i] == '-')
      && z.name != "" && z.number >= 0
      && z.relative.x >= 0.0 && z.relative.y >= 0.0 && z.relative.w > 0.0 && z.relative.h > 0.0
      && z.relative.x + z.relative.w <= 1.000000001 && z.relative.y + z.relative.h <= 1.000000001
      && (z.constraints.Some? ==>
           && z.constraints.value.minW >= 0 && z.constraints.value.minH >= 0
           && z.constraints.value.maxW >= 0 && z.constraints.value.maxH >= 0)
  {
  }

  /** Pixels along one axis: at least one, and none beyond the end. */
  function Pixels(len: int, at: real, size: real): int {
    var start, rounded := Round(at * (len as real)), Round(size * (len as real));
    var wanted := if rounded < 1 then 1 else rounded;
    if wanted <= len - start then wanted else len - start
  }

  function Limited(pixels: int, max: int): int {
    if max > 0 && max < pixels then max else pixels
  }

  /** The start of a zone along one axis. */
  function Offset(len: int, at: real): int {
    Round(at * (len as real))
  }

  function Inset(region: Rect, insets: Option<Insets>): Rect {
    if insets.None? then region
    else
      var i := insets.value;
      Rect(region.x + i.left, region.y + i.top, region.w - i.left - i.right, region.h - i.top - i.bottom)
  }

  /** What a zone resolves to: the insets taken off, start and size rounded along each
      axis, the size limited by the constraints; and the one reason for each failure. */
  lemma ResolveMeans(region: Rect, insets: Option<Insets>, z: Zone)
    ensures var u := Inset(region, insets);
      var c := if z.constraints.Some? then z.constraints.value else Constraints(0, 0, 0, 0);
      var w, h := Pixels(u.w, z.relative.x, z.relative.w), Pixels(u.h, z.relative.y, z.relative.h);
      Resolve(region, insets, z) ==
        if !ValidZone(z) then Failed(InvalidZone)
        else if u.w <= 0 || u.h <= 0 then Failed(EmptyRegion)
        else if c.minW > 0 && w < c.minW then Failed(MinWidthUnmet)
        else if c.minH > 0 && h < c.minH then Failed(MinHeightUnmet)
        else if Limited(w, c.maxW) <= 0 || Limited(h, c.maxH) <= 0 then Failed(EmptyZone)
        else Resolved(Rect(u.x + Offset(u.w, z.relative.x), u.y + Offset(u.h, z.relative.y), Limited(w, c.maxW), Limited(h, c.maxH)))
  {
    var u := Usable(region, insets);
    assert u == Inset(region, insets);
    ExtentIsPixels(u.w, z.relative.x, z.relative.w);
    ExtentIsPixels(u.h, z.relative.y, z.relative.h);
    StartIsOffset(u.w, z.relative.x);
    StartIsOffset(u.h, z.relative.y);
    hide ValidZone, Round, Extent, Pixels, Usable, Inset, Start, Offset;
  }

  lemma StartIsOffset(len: int, at: real)
    ensures Start(len, at) == Offset(len, at)
  {
    hide Round;
  }

  lemma ExtentIsPixels(len: int, at: real, size: real)
    ensures Extent(len, at, size) == Pixels(len, at, size)
  {
    hide Round;
  }

  /** The three zones of the built-in layout, cut at 62 hundredths of the width and 52 of
      the height, on every region of at least 2 by 2. */
  lemma DevLayoutMeans(region: Rect)
    requires region.w >= 2 && region.h >= 2
    ensures var cx, cy := Round(0.62 * (region.w as real)), Round(0.52 * (region.h as real));
      && Resolve(region, None, EDITOR) == Resolved(Rect(region.x, region.y, cx, region.h))
      && Resolve(region, None, TERMINAL) == Resolved(Rect(region.x + cx, region.y + cy, region.w - cx, region.h - cy))
      && Resolve(region, None, PREVIEW) == Resolved(Rect(region.x + cx, region.y, region.w - cx, cy))
      && EDITOR.id == "editor" && TERMINAL.id == "terminal" && PREVIEW.id == "preview"
      && EDITOR.number == 1 && TERMINAL.number == 2 && PREVIEW.number == 3
  {
    hide Resolve, Round;
    DevLayoutRects(region);
  }

  // ---------- outputs ----------

  /** The place of a name in an increasing list is unique. */
  lemma PlaceOf(names: seq<string>, i: nat)
    requires Increasing(names) && i < |names|
    ensures IndexOf(names, names[i]) == i
  {
    var j := IndexOf(names, names[i]);
    if j < i {
      IncreasingDistinct(names, j, i);
    }
    if i < j {
      IncreasingDistinct(names, i, j);
    }
  }

  /** Where a layout pass puts the i-th output in name order: slots row by row, each an
      equal part of the bounds, 640 or 480 long where that would be nothing. */
  lemma LaidMeans(outputs: Table, w: int, h: int, i: nat)
    requires i < |SortedStrings(outputs.Keys)|
    ensures var names := SortedStrings(outputs.Keys);
      var cols := Cols(|names|);
      && cols >= 1 && names[i] in outputs
      && var rows := (|names| + cols - 1) / cols;
      && rows >= 1
      && var slotW, slotH := (if w / cols >= 1 then w / cols else 640), (if h / rows >= 1 then h / rows else 480);
      && Laid(outputs, w, h).Keys == outputs.Keys
      && Laid(outputs, w, h)[names[i]] == outputs[names[i]].(rect := Rect((i % cols) * slotW, (i / cols) * slotH, slotW, slotH))
  {
    hide Cols;
    var names := SortedStrings(outputs.Keys);
    SortedStringsListing(outputs.Keys);
    assert names[i] in names;
    PlaceOf(names, i);
    GridIsTight(|names|);
    SlotShape(Cols(|names|), i, SlotWidth(|names|, w), SlotHeight(|names|, h));
    hide SlotRect;
  }

  /** What the operations keep of an output, apart from its place: a created one has the
      size and scale asked for, 1280 by 720 at scale 1 in default; a resized one its new
      size; all others what they had. */
  lemma OperationsMean(outputs: Table, name: string, width: int, height: int, scale: real, bounds: (int, int), o: string)
    ensures var t := Created(outputs, name, width, height, scale, bounds);
      && (name == "" ==> t == outputs)
      && (name != "" ==>
           && t.Keys == outputs.Keys + {name}
           && t[name].width == (if width > 0 then width else 1280) && t[name].height == (if height > 0 then height else 720)
           && t[name].scale == (if scale > 0.0 then scale else 1.0)
           && (o in outputs && o != name ==>
                t[o].width == outputs[o].width && t[o].height == outputs[o].height && t[o].scale == outputs[o].scale))
    ensures var t := Dropped(outputs, name, bounds);
      && t.Keys == outputs.Keys - {name}
      && (o in t ==> t[o].width == outputs[o].width && t[o].height == outputs[o].height && t[o].scale == outputs[o].scale)
    ensures var t := Resized(outputs, name, width, height, bounds);
      && t.Keys == outputs.Keys && (width <= 0 || height <= 0 || name !in outputs ==> t == outputs)
      && (o in outputs ==>
           && t[o].scale == outputs[o].scale
           && t[o].width == (if o == name && width > 0 && height > 0 then width else outputs[o].width)
           && t[o].height == (if o == name && width > 0 && height > 0 then height else outputs[o].height))
    ensures var t := Rescaled(outputs, name, scale);
      t == if name in outputs && scale > 0.0 then outputs[name := outputs[name].(scale := scale)] else outputs
  {
    hide SlotRect, Cols, SlotWidth, SlotHeight, IndexOf, SortedStrings;
  }

  ghost predicate Holds(surfaces: map<string, Option<Rect>>, w: int, h: int) {
    && w >= 1920 && h >= 1080
    && forall x :: x in surfaces && surfaces[x].Some? ==>
         surfaces[x].value.x + surfaces[x].value.w <= w && surfaces[x].value.y + surfaces[x].value.h <= h
  }

  /** The bounds hold 1920 by 1080 and every surface, and no others that do are smaller in
      either direction. */
  lemma LeastBoundsMeans(surfaces: map<string, Option<Rect>>, bounds: (int, int))
    requires LeastBounds(surfaces, bounds)
    ensures Holds(surfaces, bounds.0, bounds.1)
    ensures forall w, h :: Holds(surfaces, w, h) ==> bounds.0 <= w && bounds.1 <= h
  {
  }
}
