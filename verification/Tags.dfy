/** Assigning surfaces to layout tags (internal/compositor/layout.go): the tag is read
    before the surface is placed and written back whole afterwards. */
module Tags {
  import opened Text
  import opened Sorting

  type SurfaceID = string
  type TagID = string

  /** An assignment under way: its tag's list as it was when it began. */
  datatype Assignment = Assignment(surface: SurfaceID, tag: TagID, listed: seq<SurfaceID>)

  datatype State = State(
    tags: map<TagID, seq<SurfaceID>>,
    placements: map<SurfaceID, TagID>,
    open: map<nat, Assignment>,
    next: nat)

  // ---------- the list of a tag ----------

  function Named(values: seq<SurfaceID>): set<SurfaceID> {
    set v | v in values && v != ""
  }

  function Appended(values: seq<SurfaceID>, value: SurfaceID): seq<SurfaceID> {
    SortedStrings(Named(values + [value]))
  }

  method AppendUniqueSorted(values: seq<SurfaceID>, value: SurfaceID) returns (out: seq<SurfaceID>)
    ensures out == Appended(values, value)
  {
    var seen: set<SurfaceID> := {};
    for i := 0 to |values|
      invariant seen == Named(values[..i])
    {
      assert values[..i + 1] == values[..i] + [values[i]];
      if values[i] != "" {
        seen := seen + {values[i]};
      }
    }
    assert values[..|values|] == values;
    if value != "" {
      seen := seen + {value};
    }
    assert seen == Named(values + [value]);
    out := SortedStrings(seen);
  }

  /** The list gains exactly the new id, loses only blanks, and comes out sorted, each id
      once. */
  lemma AppendedMeans(values: seq<SurfaceID>, value: SurfaceID)
    ensures forall x :: x in Appended(values, value) <==> x != "" && (x in values || x == value)
    ensures Increasing(Appended(values, value))
  {
    SortedStringsListing(Named(values + [value]));
  }

  // ---------- one assignment ----------

  function Began(s: State, x: SurfaceID, tag: TagID): State {
    if x == "" || tag !in s.tags then s
    else s.(open := s.open[s.next := Assignment(x, tag, s.tags[tag])], next := s.next + 1)
  }

  /** Denied on the way: the placement failed, or produced no read-back. */
  function Denied(s: State, a: nat): State {
    s.(open := s.open - {a})
  }

  function Finished(s: State, a: nat): State {
    if a !in s.open then s
    else
      var job := s.open[a];
      s.(placements := s.placements[job.surface := job.tag],
         tags := s.tags[job.tag := Appended(job.listed, job.surface)],
         open := s.open - {a})
  }

  class TagTable {
    var layoutTags: map<TagID, seq<SurfaceID>>
    var surfacePlacements: map<SurfaceID, TagID>
    var open: map<nat, Assignment>
    var next: nat

    ghost function View(): State
      reads this
    {
      State(layoutTags, surfacePlacements, open, next)
    }

    constructor (tag: TagID)
      ensures View() == State(map[tag := []], map[], map[], 0)
    {
      layoutTags, surfacePlacements, open, next := map[tag := []], map[], map[], 0;
    }

    /** The first critical section of AssignSurfaceTag: the surface, the layout and the
        tag are read. */
    method BeginAssign(x: SurfaceID, tag: TagID) returns (a: Option<nat>)
      modifies this
      ensures View() == Began(old(View()), x, tag)
      ensures a == if x == "" || tag !in old(layoutTags) then None else Some(old(next))
    {
      if x == "" || tag !in layoutTags {
        return None;
      }
      open := open[next := Assignment(x, tag, layoutTags[tag])];
      next := next + 1;
      return Some(next - 1);
    }

    method DenyAssign(a: nat)
      modifies this
      ensures View() == Denied(old(View()), a)
    {
      open := open - {a};
    }

    /** The last one: the placement and the tag are written. */
    method FinishAssign(a: nat)
      modifies this
      ensures View() == Finished(old(View()), a)
    {
      if a !in open {
        return;
      }
      var job := open[a];
      surfacePlacements := surfacePlacements[job.surface := job.tag];
      var ids := AppendUniqueSorted(job.listed, job.surface);
      layoutTags := layoutTags[job.tag := ids];
      open := open - {a};
    }
  }

  // ---------- runs ----------

  datatype Step = Begin(surface: SurfaceID, tag: TagID) | Deny(a: nat) | Finish(a: nat)

  function Next(s: State, step: Step): State {
    match step
    case Begin(x, tag) => Began(s, x, tag)
    case Deny(a) => Denied(s, a)
    case Finish(a) => Finished(s, a)
  }

  /** The bridge starts with these tags, no surface in any of them. */
  function Start(tags: set<TagID>): State {
    State(map t | t in tags :: [], map[], map[], 0)
  }

  function Run(tags: set<TagID>, trace: seq<Step>): State {
    if trace == [] then Start(tags) else Next(Run(tags, trace[..|trace| - 1]), trace[|trace| - 1])
  }

  /** Every managed placement is listed by its tag. */
  ghost predicate Listed(s: State) {
    forall x :: x in s.placements ==> s.placements[x] in s.tags && x in s.tags[s.placements[x]]
  }

  ghost predicate AlwaysListed(tags: set<TagID>, trace: seq<Step>) {
    forall j :: 0 <= j <= |trace| ==> Listed(Run(tags, trace[..j]))
  }

  /** Assignment `a` would lose surface y: y is placed under its tag by now, and was not
      in the list it read. */
  ghost predicate Loses(s: State, a: nat, y: SurfaceID) {
    && a in s.open && y in s.placements && s.placements[y] == s.open[a].tag
    && y !in s.open[a].listed && y != s.open[a].surface
  }

  /** Assignments under way are numbered below the next one, and are of named surfaces
      under known tags. */
  ghost predicate Sane(s: State) {
    && (forall a :: a in s.open ==> a < s.next && s.open[a].tag in s.tags && s.open[a].surface != "")
    && (forall y :: y in s.placements ==> y != "")
  }

  lemma StepSane(s: State, step: Step)
    requires Sane(s)
    ensures Sane(Next(s, step))
  {
    hide Appended;
  }

  lemma {:induction false} RunSane(tags: set<TagID>, trace: seq<Step>)
    ensures Sane(Run(tags, trace))
  {
    if trace != [] {
      hide Next, Sane;
      RunSane(tags, trace[..|trace| - 1]);
      StepSane(Run(tags, trace[..|trace| - 1]), trace[|trace| - 1]);
    }
  }

  /** One step keeps every placement listed if and only if it does not finish an
      assignment that loses a surface. */
  lemma StepListedIff(s: State, step: Step)
    requires Sane(s) && Listed(s)
    ensures Listed(Next(s, step)) <==> !(step.Finish? && exists y :: Loses(s, step.a, y))
  {
    if step.Finish? && step.a in s.open {
      var job := s.open[step.a];
      AppendedMeans(job.listed, job.surface);
      hide Appended;
      var t := Next(s, step);
      if y :| Loses(s, step.a, y) {
        assert y in t.placements && t.placements[y] == job.tag && y !in t.tags[job.tag];
      } else {
        forall x | x in t.placements
          ensures t.placements[x] in t.tags && x in t.tags[t.placements[x]]
        {
          assert !Loses(s, step.a, x);
        }
      }
    }
  }

  // ---------- lost updates are overlaps ----------

  /** At step m, while assignment `a` was under way, another assignment of the same tag
      finished, of surface y. */
  ghost predicate FinishedDuring(tags: set<TagID>, trace: seq<Step>, m: nat, a: nat, y: SurfaceID) {
    && m < |trace| && trace[m].Finish? && trace[m].a != a
    && var s := Run(tags, trace[..m]);
       && a in s.open && trace[m].a in s.open
       && s.open[trace[m].a].surface == y && s.open[trace[m].a].tag == s.open[a].tag
  }

  /** At step k assignment `a` finishes after another of its tag, of a surface that is
      still placed there and that `a` had not read. */
  ghost predicate Overlap(tags: set<TagID>, trace: seq<Step>, k: nat, m: nat, y: SurfaceID) {
    && k < |trace| && trace[k].Finish? && m < k
    && FinishedDuring(tags, trace, m, trace[k].a, y)
    && Loses(Run(tags, trace[..k]), trace[k].a, y)
  }

  ghost predicate OverlapsAt(tags: set<TagID>, trace: seq<Step>, k: nat) {
    exists m: nat, y :: Overlap(tags, trace, k, m, y)
  }

  ghost predicate Overlaps(tags: set<TagID>, trace: seq<Step>) {
    exists k: nat :: OverlapsAt(tags, trace, k)
  }

  lemma FinishedDuringLonger(tags: set<TagID>, trace: seq<Step>, step: Step, m: nat, a: nat, y: SurfaceID)
    requires FinishedDuring(tags, trace, m, a, y)
    ensures FinishedDuring(tags, trace + [step], m, a, y)
  {
    hide Run;
    assert (trace + [step])[..m] == trace[..m] && (trace + [step])[m] == trace[m];
  }

  lemma AlwaysListedFront(tags: set<TagID>, trace: seq<Step>)
    requires trace != [] && AlwaysListed(tags, trace)
    ensures AlwaysListed(tags, trace[..|trace| - 1]) && Listed(Run(tags, trace[..|trace| - 1]))
  {
    hide Run, Listed;
    var before := trace[..|trace| - 1];
    assert Listed(Run(tags, before));
    assert forall j :: 0 <= j <= |before| ==> before[..j] == trace[..j];
  }

  /** While all placements were listed, a surface can only be lost to an assignment that
      began before the surface's own finished. */
  lemma {:induction false} LossComesFromOverlap(tags: set<TagID>, trace: seq<Step>, a: nat, y: SurfaceID) returns (m: nat)
    requires AlwaysListed(tags, trace) && Loses(Run(tags, trace), a, y)
    ensures FinishedDuring(tags, trace, m, a, y)
  {
    NotAtStart(tags, trace, a);
    AlwaysListedFront(tags, trace);
    var before, step := trace[..|trace| - 1], trace[|trace| - 1];
    assert before + [step] == trace;
    var s := Run(tags, before);
    RunSane(tags, before);
    hide Run, AlwaysListed;
    if Loses(s, a, y) {
      m := LossComesFromOverlap(tags, before, a, y);
      FinishedDuringLonger(tags, before, step, m, a, y);
    } else {
      m := |before|;
      assert trace[..m] == before;
      LossIsNew(s, step, a, y);
    }
  }

  lemma NotAtStart(tags: set<TagID>, trace: seq<Step>, a: nat)
    requires a in Run(tags, trace).open
    ensures trace != []
  {
  }

  lemma LossIsNew(s: State, step: Step, a: nat, y: SurfaceID)
    requires Sane(s) && Listed(s) && !Loses(s, a, y) && Loses(Next(s, step), a, y)
    ensures step.Finish? && step.a != a && a in s.open && step.a in s.open
    ensures s.open[step.a].surface == y && s.open[step.a].tag == s.open[a].tag
  {
    hide Appended;
  }

  /** In every run all placements are listed by their tags at all times, if and only if no
      assignment finishes after another of the same tag that finished while it was under
      way, of a surface it had not read and that is still placed there. In particular
      assignments that do not overlap never lose one. */
  lemma {:induction false} ListedIffNoOverlap(tags: set<TagID>, trace: seq<Step>)
    ensures AlwaysListed(tags, trace) <==> !Overlaps(tags, trace)
  {
    if trace == [] {
      assert trace[..0] == [];
    } else {
      var before, step := trace[..|trace| - 1], trace[|trace| - 1];
      assert before + [step] == trace;
      ListedIffNoOverlap(tags, before);
      hide Run, Listed, Loses, Overlap;
      OverlapsLonger(tags, before, step);
      AlwaysListedLonger(tags, before, step);
      RunLast(tags, before, step);
      RunSane(tags, before);
      if AlwaysListed(tags, before) {
        assert before[..|before|] == before;
        StepListedIff(Run(tags, before), step);
        LastOverlap(tags, before, step);
      }
    }
  }

  lemma RunLast(tags: set<TagID>, before: seq<Step>, step: Step)
    ensures Run(tags, before + [step]) == Next(Run(tags, before), step)
  {
    assert (before + [step])[..|before|] == before;
  }

  lemma AlwaysListedLonger(tags: set<TagID>, before: seq<Step>, step: Step)
    ensures AlwaysListed(tags, before + [step]) <==> AlwaysListed(tags, before) && Listed(Run(tags, before + [step]))
  {
    hide Run, Listed;
    var trace := before + [step];
    assert forall j :: 0 <= j <= |before| ==> trace[..j] == before[..j];
    assert trace[..|trace|] == trace;
  }

  lemma OverlapSame(tags: set<TagID>, before: seq<Step>, step: Step, k: nat, m: nat, y: SurfaceID)
    requires k < |before|
    ensures Overlap(tags, before + [step], k, m, y) <==> Overlap(tags, before, k, m, y)
  {
    hide Run, Loses;
    var trace := before + [step];
    assert trace[..k] == before[..k] && trace[k] == before[k];
    if m < k {
      assert trace[..m] == before[..m] && trace[m] == before[m];
    }
  }

  lemma OverlapsLonger(tags: set<TagID>, before: seq<Step>, step: Step)
    ensures Overlaps(tags, before + [step]) <==> Overlaps(tags, before) || OverlapsAt(tags, before + [step], |before|)
  {
    hide Overlap;
    var trace := before + [step];
    forall k: nat
      ensures OverlapsAt(tags, trace, k) <==> if k < |before| then OverlapsAt(tags, before, k) else k == |before| && OverlapsAt(tags, trace, k)
      ensures OverlapsAt(tags, before, k) ==> k < |before|
    {
      OverlapBound(tags, trace, k);
      OverlapBound(tags, before, k);
      if k < |before| {
        forall m: nat, y
          ensures Overlap(tags, trace, k, m, y) <==> Overlap(tags, before, k, m, y)
        {
          OverlapSame(tags, before, step, k, m, y);
        }
      }
    }
  }

  lemma OverlapBound(tags: set<TagID>, trace: seq<Step>, k: nat)
    ensures OverlapsAt(tags, trace, k) ==> k < |trace|
  {
  }

  lemma LastOverlap(tags: set<TagID>, before: seq<Step>, step: Step)
    requires AlwaysListed(tags, before)
    ensures OverlapsAt(tags, before + [step], |before|) <==> step.Finish? && exists y :: Loses(Run(tags, before), step.a, y)
  {
    hide Run, Loses, AlwaysListed;
    var trace := before + [step];
    assert trace[..|before|] == before && trace[|before|] == step;
    if step.Finish? && exists y :: Loses(Run(tags, before), step.a, y) {
      var y :| Loses(Run(tags, before), step.a, y);
      var m := LossComesFromOverlap(tags, before, step.a, y);
      FinishedDuringLonger(tags, before, step, m, step.a, y);
      assert Overlap(tags, trace, |before|, m, y);
    }
  }

  /** Two overlapping assignments to one tag: the second to finish drops the first
      surface from the list. */
  lemma OverlapLosesSurface()
    ensures var s := Run({"t"}, [Begin("a", "t"), Begin("b", "t"), Finish(0), Finish(1)]);
      && s.placements == map["a" := "t", "b" := "t"] && "t" in s.tags && "a" !in s.tags["t"]
  {
    hide Appended;
    AppendedMeans([], "a");
    AppendedMeans([], "b");
    var trace := [Begin("a", "t"), Begin("b", "t"), Finish(0), Finish(1)];
    var s0 := State(map["t" := []], map[], map[], 0);
    var s1 := s0.(open := map[0 := Assignment("a", "t", [])], next := 1);
    var s2 := s1.(open := map[0 := Assignment("a", "t", []), 1 := Assignment("b", "t", [])], next := 2);
    assert Run({"t"}, []) == s0;
    assert trace[..3][..2][..1] == [Begin("a", "t")] && [Begin("a", "t")][..0] == [];
    assert Run({"t"}, [Begin("a", "t")]) == s1;
    assert trace[..2][..1] == [Begin("a", "t")] && trace[..3][..2] == trace[..2];
    assert Run({"t"}, trace[..2]) == s2;
    assert Run({"t"}, trace[..3]) == Finished(s2, 0);
  }
}
