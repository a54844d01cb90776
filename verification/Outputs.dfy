/** Logical outputs tiled over the physical screen (internal/compositor/bridge.go). */
module Outputs {
  import opened Text
  import opened Sorting
  import opened Geometry
  import opened Arith

  datatype Output = Output(width: int, height: int, scale: real, rect: Rect)

  type Table = map<string, Output>

  // ---------- the grid ----------

  function ColsFrom(c: nat, n: nat): (r: nat)
    requires c >= 1
    decreases n - c * c
  {
    if c * c < n then
      assert (c + 1) * (c + 1) > c * c;
      ColsFrom(c + 1, n)
    else c
  }

  function Cols(n: nat): nat {
    ColsFrom(1, n)
  }

  function Rows(n: nat): nat
  {
    ColsPositive(n);
    (n + Cols(n) - 1) / Cols(n)
  }

  lemma {:induction false} ColsFromLeast(c: nat, n: nat)
    requires c >= 1 && (c == 1 || (c - 1) * (c - 1) < n)
    ensures var r := ColsFrom(c, n); r >= c && r * r >= n && (r == 1 || (r - 1) * (r - 1) < n)
    decreases n - c * c
  {
    if c * c < n {
      assert (c + 1) * (c + 1) > c * c;
      ColsFromLeast(c + 1, n);
    }
  }

  lemma ColsPositive(n: nat)
    ensures Cols(n) >= 1
  {
    ColsFromLeast(1, n);
  }

  /** The column count is the least whose square holds all outputs; the rows never
      outnumber the columns and the last row is not empty. */
  lemma GridIsTight(n: nat)
    requires n >= 1
    ensures Cols(n) >= 1 && Cols(n) * Cols(n) >= n
    ensures forall c :: 1 <= c && c * c >= n ==> Cols(n) <= c
    ensures 1 <= Rows(n) <= Cols(n) && (Rows(n) - 1) * Cols(n) < n <= Rows(n) * Cols(n)
  {
    hide Cols;
    ColsLeast(n);
    var k := Cols(n);
    forall c | 1 <= c && c * c >= n
      ensures k <= c
    {
      LeastSquare(c, k, n);
    }
    CeilDiv(n, k);
    RowsFit(Rows(n), k, n);
  }

  lemma LeastSquare(c: int, k: int, n: int)
    requires k >= 1 && c >= 1 && c * c >= n && (k == 1 || (k - 1) * (k - 1) < n)
    ensures k <= c
  {
    if c <= k - 1 {
      MulMono(c, k - 1, c);
      MulMono(c, k - 1, k - 1);
    }
  }

  lemma RowsFit(r: int, k: int, n: int)
    requires k >= 1 && k * k >= n && (r - 1) * k < n
    ensures r <= k
  {
    if k <= r - 1 {
      MulMono(k, r - 1, k);
    }
  }

  lemma ColsLeast(n: nat)
    ensures var r := Cols(n); r >= 1 && r * r >= n && (r == 1 || (r - 1) * (r - 1) < n)
  {
    ColsFromLeast(1, n);
  }

  function SlotWidth(n: nat, w: int): int
    requires n >= 1
  {
    ColsPositive(n);
    if w / Cols(n) <= 0 then 640 else w / Cols(n)
  }

  function SlotHeight(n: nat, h: int): int
    requires n >= 1
  {
    GridIsTight(n);
    if h / Rows(n) <= 0 then 480 else h / Rows(n)
  }

  function SlotRect(cols: nat, i: nat, w: int, h: int): Rect
    requires cols >= 1
  {
    Rect((i % cols) * w, (i / cols) * h, w, h)
  }

  function IndexOf(names: seq<string>, name: string): (i: nat)
    requires name in names
    ensures i < |names| && names[i] == name
  {
    if names[0] == name then 0 else 1 + IndexOf(names[1..], name)
  }

  /** All outputs in name order, one per slot of the grid. */
  function Laid(outputs: Table, w: int, h: int): Table {
    var names := SortedStrings(outputs.Keys);
    SortedStringsListing(outputs.Keys);
    map name | name in outputs ::
      LaidAt(outputs[name], names, name, w, h)
  }

  function LaidAt(out: Output, names: seq<string>, name: string, w: int, h: int): Output
    requires name in names
  {
    ColsPositive(|names|);
    out.(rect := SlotRect(Cols(|names|), IndexOf(names, name), SlotWidth(|names|, w), SlotHeight(|names|, h)))
  }

  ghost predicate Apart(a: Rect, b: Rect) {
    forall i, j :: !(Covers(a, i, j) && Covers(b, i, j))
  }

  ghost predicate AllApart(outputs: Table) {
    forall a, b :: a in outputs && b in outputs && a != b ==> Apart(outputs[a].rect, outputs[b].rect)
  }

  lemma SlotsApart(cols: nat, i: nat, j: nat, w: int, h: int)
    requires cols >= 1 && i != j && w > 0 && h > 0
    ensures Apart(SlotRect(cols, i, w, h), SlotRect(cols, j, w, h))
  {
    var ci, cj, ri, rj := i % cols, j % cols, i / cols, j / cols;
    assert i == ri * cols + ci && j == rj * cols + cj;
    if ci < cj {
      MulGap(ci, cj, w);
    } else if cj < ci {
      MulGap(cj, ci, w);
    } else if ri < rj {
      MulGap(ri, rj, h);
    } else if rj < ri {
      MulGap(rj, ri, h);
    }
  }

  /** A layout pass leaves no two outputs sharing a cell, whatever the bounds. */
  lemma LaidApart(outputs: Table, w: int, h: int)
    ensures AllApart(Laid(outputs, w, h))
  {
    hide SlotRect, Apart, Cols, Rows, SlotWidth, SlotHeight;
    SortedStringsListing(outputs.Keys);
    var names := SortedStrings(outputs.Keys);
    var laid := Laid(outputs, w, h);
    forall a, b | a in outputs && b in outputs && a != b
      ensures Apart(laid[a].rect, laid[b].rect)
    {
      var n := |names|;
      SlotsPositive(n, w, h);
      ColsPositive(n);
      SlotsApart(Cols(n), IndexOf(names, a), IndexOf(names, b), SlotWidth(n, w), SlotHeight(n, h));
    }
  }

  lemma SlotsPositive(n: nat, w: int, h: int)
    requires n >= 1
    ensures SlotWidth(n, w) > 0 && SlotHeight(n, h) > 0
  {
  }

  lemma RowOf(n: nat, i: nat)
    requires i < n
    ensures Cols(n) >= 1 && 0 <= i % Cols(n) < Cols(n) && 0 <= i / Cols(n) < Rows(n) <= Cols(n)
  {
    hide Cols;
    GridIsTight(n);
    var cols := Cols(n);
    assert i == (i / cols) * cols + i % cols;
    if Rows(n) <= i / cols {
      MulMono(Rows(n), i / cols, cols);
    }
  }

  lemma SlotInBounds(n: nat, i: nat, w: int, h: int)
    requires i < n && 1 <= Cols(n) <= w && Cols(n) <= h
    ensures Inside(SlotRect(Cols(n), i, SlotWidth(n, w), SlotHeight(n, h)), Rect(0, 0, w, h))
  {
    hide Cols, Rows;
    RowOf(n, i);
    var cols, rows := Cols(n), Rows(n);
    SliceFits(i % cols, cols, w);
    SliceFits(i / cols, rows, h);
    assert SlotWidth(n, w) == w / cols && SlotHeight(n, h) == h / rows;
    MulMono(0, i % cols, w / cols);
    MulMono(0, i / cols, h / rows);
  }

  /** With at most as many columns as the bounds are wide and high, every output
      stays on the screen. */
  lemma LaidInBounds(outputs: Table, w: int, h: int, name: string)
    requires name in outputs && Cols(|outputs|) <= w && Cols(|outputs|) <= h
    ensures Inside(Laid(outputs, w, h)[name].rect, Rect(0, 0, w, h))
  {
    hide Cols, SlotWidth, SlotHeight, SlotRect, Inside;
    SortedStringsListing(outputs.Keys);
    var names := SortedStrings(outputs.Keys);
    assert |names| == |outputs.Keys| == |outputs|;
    ColsPositive(|names|);
    SlotInBounds(|names|, IndexOf(names, name), w, h);
  }

  // ---------- the bridge's outputs ----------

  /** The least bounds that hold 1920 by 1080 and every surface with a geometry. */
  predicate LeastBounds(surfaces: map<string, Option<Rect>>, bounds: (int, int)) {
    && bounds.0 >= 1920 && bounds.1 >= 1080
    && (forall x :: x in surfaces && surfaces[x].Some? ==>
         surfaces[x].value.x + surfaces[x].value.w <= bounds.0 && surfaces[x].value.y + surfaces[x].value.h <= bounds.1)
    && (bounds.0 == 1920 || exists x :: x in surfaces && surfaces[x].Some? && surfaces[x].value.x + surfaces[x].value.w == bounds.0)
    && (bounds.1 == 1080 || exists x :: x in surfaces && surfaces[x].Some? && surfaces[x].value.y + surfaces[x].value.h == bounds.1)
  }

  class OutputTable {
    var outputs: Table
    var surfaceOutput: map<string, string>

    constructor ()
      ensures outputs == map[] && surfaceOutput == map[]
    {
      outputs, surfaceOutput := map[], map[];
    }

    /** The far corner of all known surfaces, at least 1920 by 1080. */
    method PhysicalBounds(surfaces: map<string, Option<Rect>>) returns (w: int, h: int)
      ensures LeastBounds(surfaces, (w, h))
    {
      w, h := 1920, 1080;
      var todo := surfaces.Keys;
      while todo != {}
        invariant todo <= surfaces.Keys && w >= 1920 && h >= 1080
        invariant forall x :: x in surfaces && x !in todo && surfaces[x].Some? ==>
          surfaces[x].value.x + surfaces[x].value.w <= w && surfaces[x].value.y + surfaces[x].value.h <= h
        invariant w == 1920 || exists x :: x in surfaces && surfaces[x].Some? && surfaces[x].value.x + surfaces[x].value.w == w
        invariant h == 1080 || exists x :: x in surfaces && surfaces[x].Some? && surfaces[x].value.y + surfaces[x].value.h == h
      {
        var x :| x in todo;
        todo := todo - {x};
        if surfaces[x].Some? {
          var g := surfaces[x].value;
          if g.x + g.w > w {
            w := g.x + g.w;
          }
          if g.y + g.h > h {
            h := g.y + g.h;
          }
        }
      }
    }

    static method LeastCols(n: nat) returns (cols: nat)
      ensures cols == Cols(n) && cols >= 1
    {
      cols := 1;
      while cols * cols < n
        invariant cols >= 1 && ColsFrom(cols, n) == Cols(n)
        decreases n - cols * cols
      {
        assert (cols + 1) * (cols + 1) > cols * cols;
        cols := cols + 1;
      }
    }

    /** One rectangle per slot, in name order. */
    method FillSlots(names: seq<string>, cols: nat, slotW: int, slotH: int)
      requires Increasing(names) && cols >= 1 && forall x :: x in names <==> x in outputs
      modifies this`outputs
      ensures outputs.Keys == old(outputs).Keys
      ensures forall k :: 0 <= k < |names| ==> outputs[names[k]] == old(outputs)[names[k]].(rect := SlotRect(cols, k, slotW, slotH))
    {
      hide SlotRect;
      for i := 0 to |names|
        invariant outputs.Keys == old(outputs).Keys
        invariant forall k :: 0 <= k < |names| ==>
          outputs[names[k]] == (if k < i then old(outputs)[names[k]].(rect := SlotRect(cols, k, slotW, slotH)) else old(outputs)[names[k]])
      {
        forall k | 0 <= k < |names| && k != i
          ensures names[k] != names[i]
        {
          if k < i {
            IncreasingDistinct(names, k, i);
          } else {
            IncreasingDistinct(names, i, k);
          }
        }
        SlotShape(cols, i, slotW, slotH);
        outputs := outputs[names[i] := outputs[names[i]].(rect := Rect((i % cols) * slotW, (i / cols) * slotH, slotW, slotH))];
      }
    }

    method SlotSize(n: nat, w: int, h: int) returns (cols: nat, slotW: int, slotH: int)
      requires n >= 1
      ensures cols >= 1 && cols == Cols(n) && slotW == SlotWidth(n, w) && slotH == SlotHeight(n, h)
    {
      hide Cols;
      cols := LeastCols(n);
      GridIsTight(n);
      var rows := (n + cols - 1) / cols;
      slotW, slotH := w / cols, h / rows;
      if slotW <= 0 {
        slotW := 640;
      }
      if slotH <= 0 {
        slotH := 480;
      }
    }

    method LayoutOutputs(w: int, h: int)
      modifies this`outputs
      ensures outputs == Laid(old(outputs), w, h)
    {
      var names := SortedStrings(outputs.Keys);
      SortedStringsListing(outputs.Keys);
      if |names| == 0 {
        return;
      }
      var cols, slotW, slotH := SlotSize(|names|, w, h);
      hide Cols, Rows, SlotWidth, SlotHeight, SlotRect;
      FillSlots(names, cols, slotW, slotH);
      LaidByName(old(outputs), outputs, names, cols, slotW, slotH, w, h);
    }

    method CreateOutput(name: string, width: int, height: int, scale: real, surfaces: map<string, Option<Rect>>) returns (ok: bool, ghost bounds: (int, int))
      modifies this`outputs
      ensures ok ==> LeastBounds(surfaces, bounds)
      ensures ok == (name != "") && outputs == Created(old(outputs), name, width, height, scale, bounds)
    {
      bounds := (1920, 1080);
      if name == "" {
        return false, bounds;
      }
      var w, h, s := width, height, scale;
      if w <= 0 {
        w := 1280;
      }
      if h <= 0 {
        h := 720;
      }
      if s <= 0.0 {
        s := 1.0;
      }
      var rect := if name in outputs then outputs[name].rect else Rect(0, 0, 0, 0);
      outputs := outputs[name := Output(w, h, s, rect)];
      var pw, ph := PhysicalBounds(surfaces);
      hide LeastBounds;
      LayoutOutputs(pw, ph);
      return true, (pw, ph);
    }

    method DestroyOutput(name: string, surfaces: map<string, Option<Rect>>) returns (ok: bool, ghost bounds: (int, int))
      modifies this
      ensures ok ==> LeastBounds(surfaces, bounds)
      ensures ok == (name in old(outputs)) && outputs == Dropped(old(outputs), name, bounds)
      ensures !ok ==> surfaceOutput == old(surfaceOutput)
      ensures ok ==> surfaceOutput == map x | x in old(surfaceOutput) && old(surfaceOutput)[x] != name :: old(surfaceOutput)[x]
    {
      bounds := (1920, 1080);
      if name !in outputs {
        return false, bounds;
      }
      outputs := outputs - {name};
      surfaceOutput := map x | x in surfaceOutput && surfaceOutput[x] != name :: surfaceOutput[x];
      var pw, ph := PhysicalBounds(surfaces);
      hide LeastBounds;
      LayoutOutputs(pw, ph);
      return true, (pw, ph);
    }

    method ResizeOutput(name: string, width: int, height: int, surfaces: map<string, Option<Rect>>) returns (ok: bool, ghost bounds: (int, int))
      modifies this`outputs
      ensures ok ==> LeastBounds(surfaces, bounds)
      ensures ok == (name in old(outputs) && width > 0 && height > 0)
      ensures outputs == Resized(old(outputs), name, width, height, bounds)
    {
      bounds := (1920, 1080);
      if name !in outputs || width <= 0 || height <= 0 {
        return false, bounds;
      }
      outputs := outputs[name := outputs[name].(width := width, height := height)];
      var pw, ph := PhysicalBounds(surfaces);
      hide LeastBounds;
      LayoutOutputs(pw, ph);
      return true, (pw, ph);
    }

    /** The geometry fallback of outputForSurfaceLocked: outputs are tried in any order
        and one that shares the most cells with the surface is returned, none if none
        shares any. */
    method OutputForSurface(x: string, recorded: string, geometry: Option<Rect>) returns (best: string)
      ensures x in surfaceOutput && surfaceOutput[x] != "" ==> best == surfaceOutput[x]
      ensures !(x in surfaceOutput && surfaceOutput[x] != "") && recorded != "" ==> best == recorded
      ensures !(x in surfaceOutput && surfaceOutput[x] != "") && recorded == "" && geometry.None? ==> best == ""
      ensures !(x in surfaceOutput && surfaceOutput[x] != "") && recorded == "" && geometry.Some? && "" !in outputs ==>
        if best == "" then forall o :: o in outputs ==> RectOverlap(geometry.value, outputs[o].rect) == 0
        else
          && best in outputs && RectOverlap(geometry.value, outputs[best].rect) > 0
          && forall o :: o in outputs ==> RectOverlap(geometry.value, outputs[o].rect) <= RectOverlap(geometry.value, outputs[best].rect)
    {
      if x in surfaceOutput && surfaceOutput[x] != "" {
        return surfaceOutput[x];
      }
      if recorded != "" {
        return recorded;
      }
      if geometry.None? {
        return "";
      }
      hide RectOverlap;
      best := "";
      var area := 0;
      var todo := outputs.Keys;
      while todo != {}
        invariant todo <= outputs.Keys && area >= 0
        invariant forall o :: o in outputs && o !in todo ==> RectOverlap(geometry.value, outputs[o].rect) <= area
        invariant if area == 0 then best == "" else best in outputs && area == RectOverlap(geometry.value, outputs[best].rect)
      {
        var o :| o in todo;
        todo := todo - {o};
        var overlap := RectOverlap(geometry.value, outputs[o].rect);
        if overlap > area {
          best, area := o, overlap;
        }
      }
      forall o | o in outputs
        ensures RectOverlap(geometry.value, outputs[o].rect) >= 0
      {
        OverlapNotNegative(geometry.value, outputs[o].rect);
      }
    }
  }

  /** Slots filled in name order are the layout. */
  lemma LaidByName(was: Table, outputs: Table, names: seq<string>, cols: nat, slotW: int, slotH: int, w: int, h: int)
    requires names == SortedStrings(was.Keys) && |names| >= 1 && outputs.Keys == was.Keys
    requires forall x :: x in names <==> x in was
    requires cols >= 1 && cols == Cols(|names|) && slotW == SlotWidth(|names|, w) && slotH == SlotHeight(|names|, h)
    requires forall k :: 0 <= k < |names| ==> outputs[names[k]] == was[names[k]].(rect := SlotRect(cols, k, slotW, slotH))
    ensures outputs == Laid(was, w, h)
  {
    hide Cols, SlotWidth, SlotHeight, SlotRect;
    var laid := Laid(was, w, h);
    forall name | name in outputs
      ensures outputs[name] == laid[name]
    {
      assert name in names;
      assert names[IndexOf(names, name)] == name;
    }
  }

  lemma SlotShape(cols: nat, i: nat, w: int, h: int)
    requires cols >= 1
    ensures SlotRect(cols, i, w, h) == Rect((i % cols) * w, (i / cols) * h, w, h)
  {
  }

  lemma OverlapNotNegative(a: Rect, b: Rect)
    ensures RectOverlap(a, b) >= 0
  {
    OverlapCountsCells(a, b);
  }

  function Created(outputs: Table, name: string, width: int, height: int, scale: real, bounds: (int, int)): Table {
    if name == "" then outputs
    else
      var rect := if name in outputs then outputs[name].rect else Rect(0, 0, 0, 0);
      var out := Output(if width <= 0 then 1280 else width, if height <= 0 then 720 else height,
                        if scale <= 0.0 then 1.0 else scale, rect);
      Laid(outputs[name := out], bounds.0, bounds.1)
  }

  function Dropped(outputs: Table, name: string, bounds: (int, int)): Table {
    if name !in outputs then outputs else Laid(outputs - {name}, bounds.0, bounds.1)
  }

  function Resized(outputs: Table, name: string, width: int, height: int, bounds: (int, int)): Table {
    if name !in outputs || width <= 0 || height <= 0 then outputs
    else Laid(outputs[name := outputs[name].(width := width, height := height)], bounds.0, bounds.1)
  }

  function Rescaled(outputs: Table, name: string, scale: real): Table {
    if name !in outputs || scale <= 0.0 then outputs else outputs[name := outputs[name].(scale := scale)]
  }

  // ---------- runs ----------

  datatype Step =
    | Create(name: string, width: int, height: int, scale: real, bounds: (int, int))
    | Destroy(name: string, bounds: (int, int))
    | Resize(name: string, width: int, height: int, bounds: (int, int))
    | SetScale(name: string, scale: real)

  function Next(outputs: Table, step: Step): Table {
    match step
    case Create(name, width, height, scale, bounds) => Created(outputs, name, width, height, scale, bounds)
    case Destroy(name, bounds) => Dropped(outputs, name, bounds)
    case Resize(name, width, height, bounds) => Resized(outputs, name, width, height, bounds)
    case SetScale(name, scale) => Rescaled(outputs, name, scale)
  }

  function Run(trace: seq<Step>): Table {
    if trace == [] then map[] else Next(Run(trace[..|trace| - 1]), trace[|trace| - 1])
  }

  /** After any sequence of creations, destructions, resizes and rescalings, with any
      physical bounds, no two outputs share a cell. */
  lemma {:induction false} OutputsStayApart(trace: seq<Step>, a: string, b: string)
    requires a in Run(trace) && b in Run(trace) && a != b
    ensures forall i, j :: !(Covers(Run(trace)[a].rect, i, j) && Covers(Run(trace)[b].rect, i, j))
  {
    RunApart(trace);
    assert Apart(Run(trace)[a].rect, Run(trace)[b].rect);
  }

  lemma {:induction false} RunApart(trace: seq<Step>)
    ensures AllApart(Run(trace))
  {
    hide Apart, Laid;
    if trace != [] {
      var before, step := Run(trace[..|trace| - 1]), trace[|trace| - 1];
      RunApart(trace[..|trace| - 1]);
      match step {
        case Create(name, width, height, scale, bounds) =>
          var rect := if name in before then before[name].rect else Rect(0, 0, 0, 0);
          LaidApart(before[name := Output(if width <= 0 then 1280 else width, if height <= 0 then 720 else height,
                                          if scale <= 0.0 then 1.0 else scale, rect)], bounds.0, bounds.1);
        case Destroy(name, bounds) => LaidApart(before - {name}, bounds.0, bounds.1);
        case Resize(name, width, height, bounds) =>
          if name in before {
            LaidApart(before[name := before[name].(width := width, height := height)], bounds.0, bounds.1);
          }
        case SetScale(name, scale) =>
      }
    }
  }
}
