/** Launch binding in plain terms (internal/compositor/bridge.go): which launches a new
    surface can be bound to, what a waiting launch can be given, and what an exit takes
    along. */
module LaunchLaws {
  import opened Text
  import opened Launches

  // ---------- descent ----------

  /** A line of processes, each the parent of the one before, none of them init. */
  ghost predicate Line(parents: Processes, chain: seq<int>, pid: int, ancestor: int) {
    && chain != [] && chain[0] == pid && chain[|chain| - 1] == ancestor
    && (forall i :: 0 <= i < |chain| ==> chain[i] > 1)
    && (forall i :: 0 <= i < |chain| - 1 ==> chain[i] in parents && parents[chain[i]] == chain[i + 1])
  }

  lemma {:induction false} LineUp(parents: Processes, pid: int, k: nat) returns (chain: seq<int>)
    requires Up(parents, pid, k).Some?
    ensures Line(parents, chain, pid, Up(parents, pid, k).value)
  {
    if k == 0 {
      chain := [pid];
    } else {
      var front := LineUp(parents, pid, k - 1);
      chain := front + [Up(parents, pid, k).value];
    }
  }

  lemma {:induction false} UpLine(parents: Processes, chain: seq<int>, pid: int, ancestor: int)
    requires Line(parents, chain, pid, ancestor)
    ensures Up(parents, pid, |chain| - 1) == Some(ancestor)
    decreases chain
  {
    if |chain| > 1 {
      var n := |chain| - 1;
      assert Line(parents, chain[..n], pid, chain[n - 1]);
      UpLine(parents, chain[..n], pid, chain[n - 1]);
    }
  }

  /** A process descends from another exactly when a line of parents leads there. */
  lemma DescendsMeans(parents: Processes, pid: int, ancestor: int)
    ensures Descends(parents, pid, ancestor) <==> exists chain :: Line(parents, chain, pid, ancestor)
  {
    hide Up, Line;
    if Descends(parents, pid, ancestor) {
      var k: nat :| Up(parents, pid, k) == Some(ancestor);
      var chain := LineUp(parents, pid, k);
    }
    if chain :| Line(parents, chain, pid, ancestor) {
      UpLine(parents, chain, pid, ancestor);
      LineNotEmpty(parents, chain, pid, ancestor);
      var k: nat := |chain| - 1;
    }
  }

  lemma LineNotEmpty(parents: Processes, chain: seq<int>, pid: int, ancestor: int)
    requires Line(parents, chain, pid, ancestor)
    ensures chain != []
  {
  }

  // ---------- what a new surface is bound to ----------

  /** The surface's process is the launch's or descends from it. */
  ghost predicate OwnsProcess(parents: Processes, surface: Surface, launch: Launch) {
    surface.pid > 0 && (surface.pid == launch.pid || exists chain :: Line(parents, chain, surface.pid, launch.pid))
  }

  lemma OwnsMeans(parents: Processes, surface: Surface, launch: Launch)
    ensures Belongs(parents, surface, launch) <==> OwnsProcess(parents, surface, launch)
  {
    hide Descends, Line;
    DescendsMeans(parents, surface.pid, launch.pid);
  }

  /** The application id or part of the title is what the launch announced. */
  predicate Announced(surface: Surface, launch: Launch) {
    (launch.expectedAppID != "" && surface.appID == launch.expectedAppID) ||
    (launch.expectedTitle != "" && Contains(surface.title, launch.expectedTitle))
  }

  lemma OwnerMeans(s: State, parents: Processes, surface: Surface, l: LaunchID)
    ensures Owner(s, parents, surface, l) <==>
      && l in s.launches && s.launches[l].running && s.launches[l].startedAt <= surface.updatedAt
      && OwnsProcess(parents, surface, s.launches[l])
    ensures Hinted(s, surface, l) <==>
      && l in s.launches && s.launches[l].running && s.launches[l].startedAt <= surface.updatedAt
      && Announced(surface, s.launches[l])
  {
    hide Belongs, OwnsProcess;
    if l in s.launches {
      OwnsMeans(parents, surface, s.launches[l]);
    }
  }

  /** In every run, what a surface event binds its surface to is a launch that is running,
      was started no later than the event, and owns the process or announced the surface;
      and no event touches a binding that is there. */
  lemma SeenBindsRunning(states: seq<State>, steps: seq<Step>, k: nat)
    requires IsRun(states, steps) && k < |steps| && steps[k].SeenStep?
    ensures var s, t, x, surface := states[k], states[k + 1], steps[k].x, steps[k].surface;
      && t.surfaces == s.surfaces[x := surface] && t.launches == s.launches
      && (forall y :: y in s.bindings ==> y in t.bindings && t.bindings[y] == s.bindings[y])
      && (forall y :: y in t.bindings && y !in s.bindings ==>
           && y == x && x != "" && t.bindings[x] in s.launches
           && s.launches[t.bindings[x]].running == true && s.launches[t.bindings[x]].startedAt <= surface.updatedAt
           && (OwnsProcess(steps[k].parents, surface, s.launches[t.bindings[x]]) || Announced(surface, s.launches[t.bindings[x]])))
  {
    var s, t, step := states[k], states[k + 1], steps[k];
    assert Next(s, step, t);
    var seen := Seen(s, step.x, step.surface);
    hide Owner, Hinted, OwnsProcess, Announced;
    forall l
      ensures Owner(seen, step.parents, step.surface, l) ==>
        l in s.launches && s.launches[l].running && s.launches[l].startedAt <= step.surface.updatedAt &&
        OwnsProcess(step.parents, step.surface, s.launches[l])
      ensures Hinted(seen, step.surface, l) ==>
        l in s.launches && s.launches[l].running && s.launches[l].startedAt <= step.surface.updatedAt &&
        Announced(step.surface, s.launches[l])
    {
      OwnerMeans(seen, step.parents, step.surface, l);
    }
  }

  /** This launch alone, of all that are running and old enough, announced the surface. */
  ghost predicate OnlyAnnouncer(s: State, surface: Surface, l: LaunchID) {
    && l in s.launches && s.launches[l].running && s.launches[l].startedAt <= surface.updatedAt && Announced(surface, s.launches[l])
    && forall m :: m in s.launches && s.launches[m].running && s.launches[m].startedAt <= surface.updatedAt && Announced(surface, s.launches[m]) ==> m == l
  }

  /** When no running launch that is old enough owns the process, an unbound surface is
      bound if and only if exactly one running launch that is old enough announced it, and
      then to that one: exited launches do not make the hint ambiguous. */
  lemma HintIsAmongRunning(s: State, parents: Processes, x: SurfaceID, surface: Surface, t: State)
    requires x != "" && x !in s.bindings && Associated(s, parents, x, surface, t)
    requires forall l :: l in s.launches && s.launches[l].running && s.launches[l].startedAt <= surface.updatedAt ==>
      !OwnsProcess(parents, surface, s.launches[l])
    ensures x in t.bindings <==> exists l :: OnlyAnnouncer(s, surface, l)
    ensures forall l :: OnlyAnnouncer(s, surface, l) ==> x in t.bindings && t.bindings[x] == l
    ensures forall y :: y != x ==> (y in t.bindings <==> y in s.bindings) && (y in s.bindings ==> t.bindings[y] == s.bindings[y])
  {
    hide Owner, Hinted, OwnsProcess, Announced, Associated;
    forall l
      ensures !Owner(s, parents, surface, l)
      ensures OnlyHint(s, surface, l) <==> OnlyAnnouncer(s, surface, l)
    {
      OwnerMeans(s, parents, surface, l);
      forall m
        ensures Hinted(s, surface, m) <==>
          m in s.launches && s.launches[m].running && s.launches[m].startedAt <= surface.updatedAt && Announced(surface, s.launches[m])
      {
        OwnerMeans(s, parents, surface, m);
      }
    }
    HintBindingIsExact(s, parents, x, surface, t);
    AssociateFrame(s, parents, x, surface, t);
    OnlyOneBinding(s, parents, x, surface, t);
  }

  lemma OnlyOneBinding(s: State, parents: Processes, x: SurfaceID, surface: Surface, t: State)
    requires Associated(s, parents, x, surface, t)
    ensures forall y :: y != x ==> (y in t.bindings <==> y in s.bindings) && (y in s.bindings ==> t.bindings[y] == s.bindings[y])
  {
    hide Owner, OnlyHint;
  }

  /** A running launch that is old enough and owns the process wins over every hint. */
  lemma OwnerWins(s: State, parents: Processes, x: SurfaceID, surface: Surface, t: State, l: LaunchID)
    requires x != "" && x !in s.bindings && Associated(s, parents, x, surface, t)
    requires l in s.launches && s.launches[l].running && s.launches[l].startedAt <= surface.updatedAt && OwnsProcess(parents, surface, s.launches[l])
    ensures x in t.bindings && t.bindings[x] in s.launches && OwnsProcess(parents, surface, s.launches[t.bindings[x]])
    ensures s.launches[t.bindings[x]].running && s.launches[t.bindings[x]].startedAt <= surface.updatedAt
  {
    hide Owner, OnlyHint, OwnsProcess;
    OwnerMeans(s, parents, surface, l);
    var m :| Owner(s, parents, surface, m) && t == Bind(s, x, m);
    OwnerMeans(s, parents, surface, m);
  }

  // ---------- what a waiting launch is given ----------

  /** The surface is not bound to another launch and not older than this one. */
  predicate Available(s: State, l: LaunchID, x: SurfaceID) {
    && l in s.launches && x in s.surfaces
    && (x in s.bindings ==> s.bindings[x] == "" || s.bindings[x] == l)
    && s.launches[l].startedAt <= s.surfaces[x].updatedAt
  }

  /** Whatever a waiting launch finds is its own already, or available and of its own
      process, or the only available one it announced; it finds something whenever it
      has a surface or exactly one is available to it. */
  lemma FoundMeans(s: State, parents: Processes, l: LaunchID, found: Option<SurfaceID>)
    requires Found(s, parents, l, found)
    ensures found.Some? ==>
      var x := found.value;
      && l in s.launches && x in s.surfaces
      && ((x in s.bindings && s.bindings[x] == l) ||
          (Available(s, l, x) && (OwnsProcess(parents, s.surfaces[x], s.launches[l]) || Announced(s.surfaces[x], s.launches[l]))))
    ensures l in s.launches && (exists x :: x in s.surfaces && x in s.bindings && s.bindings[x] == l) ==> found.Some?
    ensures forall x ::
      && x != "" && Available(s, l, x) && (OwnsProcess(parents, s.surfaces[x], s.launches[l]) || Announced(s.surfaces[x], s.launches[l]))
      && (forall y :: y != x && Available(s, l, y) ==> !OwnsProcess(parents, s.surfaces[y], s.launches[l]) && !Announced(s.surfaces[y], s.launches[l]))
      && (forall y :: y in s.surfaces && y in s.bindings ==> s.bindings[y] != l)
      ==> found == Some(x)
  {
    hide Belongs, OwnsProcess, Announced;
    forall x
      ensures Candidate(s, parents, l, x) <==> Available(s, l, x) && OwnsProcess(parents, s.surfaces[x], s.launches[l])
      ensures HintCandidate(s, parents, l, x) <==>
        Available(s, l, x) && !OwnsProcess(parents, s.surfaces[x], s.launches[l]) && Announced(s.surfaces[x], s.launches[l])
    {
      CandidateMeans(s, parents, l, x);
    }
    if x :| x in s.surfaces && x in s.bindings && s.bindings[x] == l {
      assert AlreadyBound(s, l, x);
    }
    hide Available, Candidate, HintCandidate;
    assert forall x :: Available(s, l, x) ==> l in s.launches && x in s.surfaces by { AvailableTracked(s, l); }
  }

  lemma AvailableTracked(s: State, l: LaunchID)
    ensures forall x :: Available(s, l, x) ==> l in s.launches && x in s.surfaces
  {
  }

  lemma CandidateMeans(s: State, parents: Processes, l: LaunchID, x: SurfaceID)
    ensures Candidate(s, parents, l, x) <==> Available(s, l, x) && OwnsProcess(parents, s.surfaces[x], s.launches[l])
    ensures HintCandidate(s, parents, l, x) <==>
      Available(s, l, x) && !OwnsProcess(parents, s.surfaces[x], s.launches[l]) && Announced(s.surfaces[x], s.launches[l])
  {
    hide Belongs, OwnsProcess;
    if l in s.launches && x in s.surfaces {
      OwnsMeans(parents, s.surfaces[x], s.launches[l]);
    }
  }

  // ---------- an exit ----------

  /** An exited launch stays in the table, no longer running; its layer-shell surfaces and
      their bindings go, and nothing else changes. */
  lemma ExitMeans(s: State, l: LaunchID)
    ensures var t := Exited(s, l);
      && (l !in s.launches ==> t == s)
      && t.launches.Keys == s.launches.Keys && t.sessions == s.sessions && t.pending == s.pending
      && (forall m :: m in s.launches ==> t.launches[m] == if m == l then s.launches[m].(running := false) else s.launches[m])
      && (forall x :: x in t.surfaces <==>
           x in s.surfaces && !(l in s.launches && x in s.bindings && s.bindings[x] == l && s.surfaces[x].kind == "layer_shell"))
      && (forall x :: x in t.bindings <==>
           x in s.bindings && !(l in s.launches && s.bindings[x] == l && x in s.surfaces && s.surfaces[x].kind == "layer_shell"))
      && (forall x :: x in t.surfaces ==> t.surfaces[x] == s.surfaces[x])
      && (forall x :: x in t.bindings ==> t.bindings[x] == s.bindings[x])
  {
  }

  /** A reconcile is a look and then, if the look decided to bind, its write, with nothing
      between them. */
  lemma ReconcileIsLookAndWrite(s: State, w: nat, parents: Processes, l: LaunchID, t: State, found: Option<SurfaceID>)
    requires w !in s.pending
    ensures Reconciled(s, parents, l, t, found) <==>
      exists middle :: Looked(s, w, parents, l, middle, found) && t == if w in middle.pending then Committed(middle, w) else middle
  {
    hide Found;
    var middle := if MustBind(s, l, found) then s.(pending := s.pending[w := Choice(l, found.value)]) else s;
    assert middle.pending - {w} == s.pending;
    if Reconciled(s, parents, l, t, found) {
      assert Looked(s, w, parents, l, middle, found);
    }
  }

  /** A start enters the launch as it is given and touches nothing else. */
  lemma StartMeans(s: State, l: LaunchID, launch: Launch)
    ensures var t := Started(s, l, launch);
      && l in t.launches && t.launches[l] == launch
      && (forall m :: m != l ==> (m in t.launches <==> m in s.launches) && (m in s.launches ==> t.launches[m] == s.launches[m]))
      && t == s.(launches := t.launches)
  {
  }
}
