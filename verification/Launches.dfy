/** Which launched process a surface belongs to (internal/compositor/bridge.go):
    the process-ancestry walk, the binding made when a surface appears, the binding
    made while a launch waits for its surface, and what ends a binding. */
module Launches {
  import opened Text

  type SurfaceID = string
  type LaunchID = string

  const LAYER_SHELL := "layer_shell"

  datatype Surface = Surface(pid: int, appID: string, title: string, kind: string, updatedAt: int)

  datatype Launch = Launch(sessionID: string, pid: int, running: bool, startedAt: int, expectedAppID: string, expectedTitle: string)

  datatype State = State(
    surfaces: map<SurfaceID, Surface>,
    launches: map<LaunchID, Launch>,
    bindings: map<SurfaceID, LaunchID>,
    sessions: set<string>,
    pending: map<nat, Choice>)

  /** What a waiting launch has decided to write: its surface's binding. The decision
      and the write happen under a read lock that other waiting launches share. */
  datatype Choice = Choice(launch: LaunchID, surface: SurfaceID)

  const EMPTY := State(map[], map[], map[], {}, map[])

  /** Process ids and their parents, as /proc shows them at one moment. */
  type Processes = map<int, int>

  // ---------- ancestry ----------

  /** The k-th process on the way up from `pid`; the walk stops at init or at a
      process that cannot be read. */
  ghost function Up(parents: Processes, pid: int, k: nat): Option<int> {
    if k == 0 then if pid > 1 then Some(pid) else None
    else
      match Up(parents, pid, k - 1)
      case None => None
      case Some(p) => if p in parents && parents[p] > 1 then Some(parents[p]) else None
  }

  ghost predicate Descends(parents: Processes, pid: int, ancestor: int) {
    exists k: nat :: Up(parents, pid, k) == Some(ancestor)
  }

  lemma {:induction false} UpSteps(parents: Processes, pid: int, j: nat, k: nat, m: nat)
    requires Up(parents, pid, j) == Up(parents, pid, k)
    ensures Up(parents, pid, j + m) == Up(parents, pid, k + m)
  {
    if m > 0 {
      UpSteps(parents, pid, j, k, m - 1);
      assert j + m - 1 == j + (m - 1) && k + m - 1 == k + (m - 1);
    }
  }

  /** Once the walk repeats itself it meets no process it has not met. */
  lemma {:induction false} RepeatsMeetNothingNew(parents: Processes, pid: int, j: nat, k: nat, m: nat)
    requires j < k && Up(parents, pid, j) == Up(parents, pid, k)
    ensures exists i: nat :: i < k && Up(parents, pid, i) == Up(parents, pid, m)
    decreases m
  {
    if m >= k {
      UpSteps(parents, pid, j, k, m - k);
      RepeatsMeetNothingNew(parents, pid, j, k, j + (m - k));
    }
  }

  lemma {:induction false} StopsForGood(parents: Processes, pid: int, k: nat, m: nat)
    requires k <= m && Up(parents, pid, k) == None
    ensures Up(parents, pid, m) == None
  {
    if k < m {
      StopsForGood(parents, pid, k, m - 1);
    }
  }

  ghost predicate Visited(parents: Processes, pid: int, k: nat, p: int) {
    exists i: nat :: i < k && Up(parents, pid, i) == Some(p)
  }

  ghost predicate Passed(parents: Processes, pid: int, k: nat, ancestor: int) {
    forall i: nat :: i < k ==> Up(parents, pid, i) != Some(ancestor)
  }

  lemma VisitMore(parents: Processes, pid: int, k: nat, p: int)
    requires Visited(parents, pid, k, p) || Up(parents, pid, k) == Some(p)
    ensures Visited(parents, pid, k + 1, p)
  {
    if Up(parents, pid, k) != Some(p) {
      var i: nat :| i < k && Up(parents, pid, i) == Some(p);
    }
  }

  lemma LoopsForever(parents: Processes, pid: int, k: nat, current: int, ancestor: int)
    requires Up(parents, pid, k) == Some(current) && Visited(parents, pid, k, current) && Passed(parents, pid, k, ancestor)
    ensures !Descends(parents, pid, ancestor)
  {
    hide Up;
    var j: nat :| j < k && Up(parents, pid, j) == Some(current);
    forall m: nat ensures Up(parents, pid, m) != Some(ancestor) {
      RepeatsMeetNothingNew(parents, pid, j, k, m);
    }
  }

  lemma DeadEnd(parents: Processes, pid: int, k: nat, ancestor: int)
    requires Up(parents, pid, k) == None && Passed(parents, pid, k, ancestor)
    ensures !Descends(parents, pid, ancestor)
  {
    hide Up;
    forall m: nat ensures Up(parents, pid, m) != Some(ancestor) {
      if m >= k {
        StopsForGood(parents, pid, k, m);
      }
    }
  }

  lemma StepUp(parents: Processes, pid: int, k: nat, current: int)
    requires Up(parents, pid, k) == Some(current)
    ensures Up(parents, pid, k + 1) == if current in parents && parents[current] > 1 then Some(parents[current]) else None
  {
  }

  /** The walk terminates on every process table, cyclic ones included, and answers
      whether the ancestor is reached. */
  method ProcessDescendsFrom(parents: Processes, pid: int, ancestor: int) returns (r: bool)
    ensures r <==> Descends(parents, pid, ancestor)
  {
    if pid <= 0 || ancestor <= 0 {
      NoSmallAncestor(parents, pid, ancestor);
      return false;
    }
    assert Up(parents, pid, 0) == if pid > 1 then Some(pid) else None;
    hide Up, Visited;
    var seen: set<int> := {};
    var current := pid;
    ghost var k: nat := 0;
    while current > 1
      invariant Up(parents, pid, k) == if current > 1 then Some(current) else None
      invariant forall p :: p in seen ==> Visited(parents, pid, k, p)
      invariant Passed(parents, pid, k, ancestor)
      invariant seen <= parents.Keys
      decreases parents.Keys - seen
    {
      if current == ancestor {
        return true;
      }
      if current in seen {
        LoopsForever(parents, pid, k, current, ancestor);
        return false;
      }
      StepUp(parents, pid, k, current);
      assert Passed(parents, pid, k + 1, ancestor);
      forall p | p in seen + {current}
        ensures Visited(parents, pid, k + 1, p)
      {
        VisitMore(parents, pid, k, p);
      }
      if current !in parents {
        DeadEnd(parents, pid, k + 1, ancestor);
        return false;
      }
      ghost var left := parents.Keys - seen;
      seen := seen + {current};
      assert parents.Keys - seen == left - {current};
      current := parents[current];
      k := k + 1;
    }
    DeadEnd(parents, pid, k, ancestor);
    return false;
  }

  lemma NoSmallAncestor(parents: Processes, pid: int, ancestor: int)
    requires pid <= 0 || ancestor <= 0
    ensures !Descends(parents, pid, ancestor)
  {
    forall m: nat ensures Up(parents, pid, m) != Some(ancestor) {
      if pid <= 0 {
        StopsForGood(parents, pid, 0, m);
      }
    }
  }

  // ---------- what makes a surface a launch's ----------

  ghost predicate Belongs(parents: Processes, surface: Surface, launch: Launch) {
    surface.pid > 0 && (surface.pid == launch.pid || Descends(parents, surface.pid, launch.pid))
  }

  method SurfaceBelongsToLaunch(parents: Processes, surface: Surface, launch: Launch) returns (r: bool)
    ensures r <==> Belongs(parents, surface, launch)
  {
    if surface.pid <= 0 {
      return false;
    }
    if surface.pid == launch.pid {
      return true;
    }
    r := ProcessDescendsFrom(parents, surface.pid, launch.pid);
  }

  predicate MatchesHint(surface: Surface, launch: Launch) {
    || (launch.expectedAppID != "" && surface.appID == launch.expectedAppID)
    || (launch.expectedTitle != "" && Contains(surface.title, launch.expectedTitle))
  }

  predicate Open(surface: Surface, launch: Launch) {
    launch.running && surface.updatedAt >= launch.startedAt
  }

  ghost predicate Owner(s: State, parents: Processes, surface: Surface, l: LaunchID) {
    l in s.launches && Open(surface, s.launches[l]) && Belongs(parents, surface, s.launches[l])
  }

  predicate Hinted(s: State, surface: Surface, l: LaunchID) {
    l in s.launches && Open(surface, s.launches[l]) && MatchesHint(surface, s.launches[l])
  }

  function Bind(s: State, x: SurfaceID, l: LaunchID): State {
    s.(bindings := s.bindings[x := l])
  }

  /** The outcome of associating a surface. A launch that owns the process wins, any
      of them if several do. With no owner a hint decides, but only a single one. */
  ghost predicate Associated(s: State, parents: Processes, x: SurfaceID, surface: Surface, t: State) {
    if x == "" || x in s.bindings then t == s
    else if exists l :: Owner(s, parents, surface, l) then
      exists l :: Owner(s, parents, surface, l) && t == Bind(s, x, l)
    else if exists l :: OnlyHint(s, surface, l) then
      exists l :: OnlyHint(s, surface, l) && t == Bind(s, x, l)
    else t == s
  }

  ghost predicate OnlyHint(s: State, surface: Surface, l: LaunchID) {
    Hinted(s, surface, l) && forall m :: Hinted(s, surface, m) ==> m == l
  }

  function Free(s: State, launchID: LaunchID, x: SurfaceID): bool {
    x in s.surfaces && !(x in s.bindings && s.bindings[x] != "" && s.bindings[x] != launchID)
  }

  ghost predicate Candidate(s: State, parents: Processes, launchID: LaunchID, x: SurfaceID) {
    && launchID in s.launches && Free(s, launchID, x)
    && s.surfaces[x].updatedAt >= s.launches[launchID].startedAt
    && Belongs(parents, s.surfaces[x], s.launches[launchID])
  }

  ghost predicate HintCandidate(s: State, parents: Processes, launchID: LaunchID, x: SurfaceID) {
    && launchID in s.launches && Free(s, launchID, x)
    && s.surfaces[x].updatedAt >= s.launches[launchID].startedAt
    && !Belongs(parents, s.surfaces[x], s.launches[launchID])
    && MatchesHint(s.surfaces[x], s.launches[launchID])
  }

  predicate AlreadyBound(s: State, launchID: LaunchID, x: SurfaceID) {
    x in s.surfaces && x in s.bindings && s.bindings[x] == launchID
  }

  /** The answer a launch gets when it looks for its surface. Two hints met before an
      owned surface end the search, so which answer is given can depend on the walk. The
      empty id stands for "no hint yet", so a hint on a surface with that id is forgotten
      when it comes first. */
  ghost predicate Found(s: State, parents: Processes, launchID: LaunchID, found: Option<SurfaceID>) {
    if launchID !in s.launches then found.None?
    else if exists x :: AlreadyBound(s, launchID, x) then found.Some? && AlreadyBound(s, launchID, found.value)
    else
      match found
      case Some(x) =>
        Candidate(s, parents, launchID, x) ||
        (x != "" && HintCandidate(s, parents, launchID, x)
         && (forall y :: HintCandidate(s, parents, launchID, y) ==> y == x || y == "")
         && forall y :: !Candidate(s, parents, launchID, y))
      case None =>
        (forall y :: !Candidate(s, parents, launchID, y) && (HintCandidate(s, parents, launchID, y) ==> y == ""))
        || exists x, y :: x != "" && x != y && HintCandidate(s, parents, launchID, x) && HintCandidate(s, parents, launchID, y)
  }

  /** The answer needs a binding that is not there yet. */
  predicate MustBind(s: State, launchID: LaunchID, found: Option<SurfaceID>) {
    found.Some? && !AlreadyBound(s, launchID, found.value)
  }

  /** The waiting launch `w` has read the tables; it holds the read lock for as long as
      it still has to write. */
  ghost predicate Looked(s: State, w: nat, parents: Processes, launchID: LaunchID, t: State, found: Option<SurfaceID>) {
    && Found(s, parents, launchID, found)
    && t == if MustBind(s, launchID, found) then s.(pending := s.pending[w := Choice(launchID, found.value)]) else s
  }

  /** The waiting launch writes what it decided, whatever is bound by now. */
  function Committed(s: State, w: nat): State
    requires w in s.pending
  {
    Bind(s, s.pending[w].surface, s.pending[w].launch).(pending := s.pending - {w})
  }

  /** The whole of it when nothing comes between. */
  ghost predicate Reconciled(s: State, parents: Processes, launchID: LaunchID, t: State, found: Option<SurfaceID>) {
    && Found(s, parents, launchID, found)
    && t == if MustBind(s, launchID, found) then Bind(s, found.value, launchID) else s
  }

  class LaunchTable {
    var surfaces: map<SurfaceID, Surface>
    var launches: map<LaunchID, Launch>
    var surfaceLaunch: map<SurfaceID, LaunchID>
    var sessions: set<string>
    var pending: map<nat, Choice>

    ghost function View(): State
      reads this
    {
      State(surfaces, launches, surfaceLaunch, sessions, pending)
    }

    constructor ()
      ensures View() == EMPTY
    {
      surfaces, launches, surfaceLaunch, sessions, pending := map[], map[], map[], {}, map[];
    }

    /** Both passes walk the launches in any order. */
    method AssociateSurface(parents: Processes, x: SurfaceID, surface: Surface)
      modifies this`surfaceLaunch
      ensures Associated(old(View()), parents, x, surface, View())
      ensures x != "" && x !in old(surfaceLaunch) && (forall l :: !Owner(old(View()), parents, surface, l)) ==>
        (x in surfaceLaunch <==> exists l :: OnlyHint(old(View()), surface, l))
    {
      hide Belongs, MatchesHint;
      if x == "" || x in surfaceLaunch {
        return;
      }
      ghost var s := View();
      var todo := launches.Keys;
      while todo != {}
        invariant todo <= launches.Keys && View() == s
        invariant forall l :: Owner(s, parents, surface, l) ==> l in todo
      {
        var l :| l in todo;
        todo := todo - {l};
        if launches[l].running && surface.updatedAt >= launches[l].startedAt {
          var mine := SurfaceBelongsToLaunch(parents, surface, launches[l]);
          if mine {
            surfaceLaunch := surfaceLaunch[x := l];
            assert Owner(s, parents, surface, l) && View() == Bind(s, x, l);
            return;
          }
        }
      }
      todo := launches.Keys;
      var hint: Option<LaunchID> := None;
      while todo != {}
        invariant todo <= launches.Keys && View() == s
        invariant hint.Some? ==> Hinted(s, surface, hint.value) && hint.value !in todo
        invariant forall l :: Hinted(s, surface, l) ==> l in todo || hint == Some(l)
      {
        var l :| l in todo;
        todo := todo - {l};
        if launches[l].running && surface.updatedAt >= launches[l].startedAt && MatchesHint(surface, launches[l]) {
          if hint.Some? {
            assert Hinted(s, surface, l) && Hinted(s, surface, hint.value) && l != hint.value;
            return;
          }
          hint := Some(l);
        }
      }
      if hint.Some? {
        surfaceLaunch := surfaceLaunch[x := hint.value];
        assert OnlyHint(s, surface, hint.value) && View() == Bind(s, x, hint.value);
      }
    }

    /** The reading half of reconcileLaunchSurfaceLocked, on the tables of one moment. */
    method FindLaunchSurface(parents: Processes, launchID: LaunchID) returns (found: Option<SurfaceID>)
      ensures Found(View(), parents, launchID, found)
    {
      hide Belongs, MatchesHint;
      found := None;
      if launchID !in launches {
        return;
      }
      ghost var s := View();
      var launch := launches[launchID];
      var todo := surfaceLaunch.Keys;
      while todo != {}
        invariant todo <= surfaceLaunch.Keys
        invariant forall x :: AlreadyBound(s, launchID, x) ==> x in todo
      {
        var x :| x in todo;
        todo := todo - {x};
        if surfaceLaunch[x] == launchID && x in surfaces {
          assert AlreadyBound(s, launchID, x);
          return Some(x);
        }
      }
      todo := surfaces.Keys;
      var hintID: SurfaceID := "";
      while todo != {}
        invariant todo <= surfaces.Keys
        invariant forall x :: Candidate(s, parents, launchID, x) ==> x in todo
        invariant hintID != "" ==> HintCandidate(s, parents, launchID, hintID) && hintID !in todo
        invariant forall x :: HintCandidate(s, parents, launchID, x) ==> x in todo || x == hintID || x == ""
      {
        var x :| x in todo;
        todo := todo - {x};
        if x in surfaceLaunch && surfaceLaunch[x] != "" && surfaceLaunch[x] != launchID {
          continue;
        }
        if surfaces[x].updatedAt < launch.startedAt {
          continue;
        }
        var mine := SurfaceBelongsToLaunch(parents, surfaces[x], launch);
        if mine {
          return Some(x);
        }
        if MatchesHint(surfaces[x], launch) {
          if hintID != "" {
            assert x != hintID && HintCandidate(s, parents, launchID, x);
            return;
          }
          hintID := x;
        }
      }
      if hintID != "" {
        found := Some(hintID);
      }
    }

    /** A waiting launch reads, and remembers what it has to write. */
    method BeginReconcile(w: nat, parents: Processes, launchID: LaunchID) returns (found: Option<SurfaceID>)
      requires w !in pending
      modifies this`pending
      ensures Looked(old(View()), w, parents, launchID, View(), found)
    {
      found := FindLaunchSurface(parents, launchID);
      if found.Some? && !(found.value in surfaces && found.value in surfaceLaunch && surfaceLaunch[found.value] == launchID) {
        pending := pending[w := Choice(launchID, found.value)];
      }
    }

    /** It writes. */
    method FinishReconcile(w: nat)
      requires w in pending
      modifies this`surfaceLaunch, this`pending
      ensures View() == Committed(old(View()), w)
    {
      surfaceLaunch := surfaceLaunch[pending[w].surface := pending[w].launch];
      pending := pending - {w};
    }

    /** Both halves with nothing between them. */
    method ReconcileLaunchSurface(w: nat, parents: Processes, launchID: LaunchID) returns (found: Option<SurfaceID>)
      requires w !in pending
      modifies this`surfaceLaunch, this`pending
      ensures Reconciled(old(View()), parents, launchID, View(), found)
    {
      hide Found;
      ghost var s := View();
      found := BeginReconcile(w, parents, launchID);
      if w in pending {
        FinishReconcile(w);
      }
      assert pending == s.pending;
    }

    /** A mapped or refreshed surface is stored and then associated. */
    method SurfaceSeen(parents: Processes, x: SurfaceID, surface: Surface)
      modifies this
      ensures Associated(Seen(old(View()), x, surface), parents, x, surface, View())
    {
      surfaces := surfaces[x := surface];
      AssociateSurface(parents, x, surface);
    }

    method SurfaceUnmapped(x: SurfaceID)
      modifies this
      ensures View() == Unmapped(old(View()), x)
    {
      surfaces := surfaces - {x};
      surfaceLaunch := surfaceLaunch - {x};
    }

    method LaunchStarted(l: LaunchID, launch: Launch)
      modifies this`launches
      ensures View() == Started(old(View()), l, launch)
    {
      launches := launches[l := launch];
    }

    method LaunchExited(l: LaunchID)
      modifies this
      ensures View() == Exited(old(View()), l)
    {
      if l !in launches {
        return;
      }
      launches := launches[l := launches[l].(running := false)];
      ghost var s := View();
      ghost var gone: set<SurfaceID> := {};
      var todo := surfaceLaunch.Keys;
      while todo != {}
        invariant todo <= s.bindings.Keys && launches == s.launches && sessions == s.sessions && pending == s.pending
        invariant forall x :: x in gone <==> x !in todo && LayerOf(s, l, x)
        invariant surfaces == s.surfaces - gone && surfaceLaunch == s.bindings - gone
      {
        var x :| x in todo;
        todo := todo - {x};
        if surfaceLaunch[x] == l && x in surfaces && surfaces[x].kind == LAYER_SHELL {
          surfaces := surfaces - {x};
          surfaceLaunch := surfaceLaunch - {x};
          gone := gone + {x};
        }
      }
    }

    method ForgetLaunches(sessionID: string)
      modifies this`launches
      ensures launches == Destroyed(old(View()), sessionID).launches
    {
      ghost var was := launches;
      var todo := launches.Keys;
      while todo != {}
        invariant todo <= was.Keys
        invariant launches == map l | l in was && !(l !in todo && was[l].sessionID == sessionID) :: was[l]
      {
        var l :| l in todo;
        todo := todo - {l};
        if launches[l].sessionID == sessionID {
          launches := launches - {l};
        }
      }
    }

    method ForgetBindings(sessionID: string)
      modifies this`surfaceLaunch
      ensures surfaceLaunch == map x | x in old(surfaceLaunch) && Left(launches, old(surfaceLaunch)[x], sessionID) :: old(surfaceLaunch)[x]
    {
      ghost var was := surfaceLaunch;
      var bound := surfaceLaunch.Keys;
      while bound != {}
        invariant bound <= was.Keys
        invariant surfaceLaunch == map x | x in was && (x in bound || Left(launches, was[x], sessionID)) :: was[x]
      {
        var x :| x in bound;
        bound := bound - {x};
        var l := surfaceLaunch[x];
        if l !in launches || launches[l].sessionID == sessionID {
          surfaceLaunch := surfaceLaunch - {x};
        }
      }
    }

    /** The second half of DestroySession, after its launches were terminated. */
    method ForgetSession(sessionID: string)
      modifies this
      ensures View() == Destroyed(old(View()), sessionID)
    {
      sessions := sessions - {sessionID};
      ForgetLaunches(sessionID);
      assert forall l :: l in launches ==> launches[l].sessionID != sessionID;
      ForgetBindings(sessionID);
    }
  }

  predicate Left(launches: map<LaunchID, Launch>, l: LaunchID, sessionID: string) {
    l in launches && launches[l].sessionID != sessionID
  }

  function Seen(s: State, x: SurfaceID, surface: Surface): State {
    s.(surfaces := s.surfaces[x := surface])
  }

  function Unmapped(s: State, x: SurfaceID): State {
    s.(surfaces := s.surfaces - {x}, bindings := s.bindings - {x})
  }

  function Started(s: State, l: LaunchID, launch: Launch): State {
    s.(launches := s.launches[l := launch])
  }

  predicate LayerOf(s: State, l: LaunchID, x: SurfaceID) {
    x in s.bindings && s.bindings[x] == l && x in s.surfaces && s.surfaces[x].kind == LAYER_SHELL
  }

  function Exited(s: State, l: LaunchID): State {
    if l !in s.launches then s
    else
      s.(surfaces := map x | x in s.surfaces && !LayerOf(s, l, x) :: s.surfaces[x],
         launches := s.launches[l := s.launches[l].(running := false)],
         bindings := map x | x in s.bindings && !LayerOf(s, l, x) :: s.bindings[x])
  }

  function Destroyed(s: State, sessionID: string): State {
    var left := map l | l in s.launches && s.launches[l].sessionID != sessionID :: s.launches[l];
    s.(launches := left, bindings := map x | x in s.bindings && s.bindings[x] in left :: s.bindings[x], sessions := s.sessions - {sessionID})
  }

  // ---------- runs ----------

  datatype Step =
    | SeenStep(parents: Processes, x: SurfaceID, surface: Surface)
    | UnmapStep(x: SurfaceID)
    | StartStep(l: LaunchID, launch: Launch)
    | ExitStep(l: LaunchID)
    | LookStep(w: nat, parents: Processes, l: LaunchID, found: Option<SurfaceID>)
    | WriteStep(w: nat)
    | CreateSession(sessionID: string)
    | DestroyStep(sessionID: string)
    | LateMove(x: SurfaceID, surface: Surface)

  /** Only waiting launches share the lock: everything else happens while none of them
      is between its look and its write. */
  predicate Shared(step: Step) {
    step.LookStep? || step.WriteStep?
  }

  ghost predicate Next(s: State, step: Step, t: State) {
    && (Shared(step) || s.pending == map[])
    && match step
       case SeenStep(parents, x, surface) => Associated(Seen(s, x, surface), parents, x, surface, t)
       case UnmapStep(x) => t == Unmapped(s, x)
       case StartStep(l, launch) => l !in s.launches && t == Started(s, l, launch)
       case ExitStep(l) => t == Exited(s, l)
       case LookStep(w, parents, l, found) => w !in s.pending && Looked(s, w, parents, l, t, found)
       case WriteStep(w) => w in s.pending && t == Committed(s, w)
       case CreateSession(sessionID) => t == s.(sessions := s.sessions + {sessionID})
       case DestroyStep(sessionID) => t == Destroyed(s, sessionID)
       case LateMove(x, surface) => t == Seen(s, x, surface)
  }

  /** A stretch of a run: one more state than steps. */
  ghost predicate IsPath(states: seq<State>, steps: seq<Step>) {
    && |states| == |steps| + 1
    && forall i :: 0 <= i < |steps| ==> Next(states[i], steps[i], states[i + 1])
  }

  /** A run starts empty. */
  ghost predicate IsRun(states: seq<State>, steps: seq<Step>) {
    IsPath(states, steps) && states[0] == EMPTY
  }

  /** Bindings and decisions speak of tracked surfaces and known launches. */
  ghost predicate NoDangling(s: State) {
    && (forall x :: x in s.bindings ==> x in s.surfaces && s.bindings[x] in s.launches)
    && (forall w :: w in s.pending ==> s.pending[w].surface in s.surfaces && s.pending[w].launch in s.launches)
  }

  /** The step ends the binding of surface x in state s. */
  predicate Releases(s: State, step: Step, x: SurfaceID) {
    x in s.bindings &&
    match step
    case UnmapStep(y) => y == x
    case ExitStep(l) => l in s.launches && LayerOf(s, l, x)
    case DestroyStep(sessionID) => s.bindings[x] in s.launches && s.launches[s.bindings[x]].sessionID == sessionID
    case _ => false
  }

  lemma AssociateEffect(s: State, parents: Processes, x: SurfaceID, surface: Surface, t: State)
    requires NoDangling(s) && x in s.surfaces && Associated(s, parents, x, surface, t)
    ensures NoDangling(t) && forall y :: y in s.bindings ==> y in t.bindings && t.bindings[y] == s.bindings[y]
  {
    hide Belongs, MatchesHint;
  }

  lemma LookEffect(s: State, w: nat, parents: Processes, l: LaunchID, t: State, found: Option<SurfaceID>)
    requires NoDangling(s) && Looked(s, w, parents, l, t, found) && w !in s.pending
    ensures NoDangling(t) && t == s.(pending := t.pending)
    ensures forall v :: v in s.pending ==> v in t.pending && t.pending[v] == s.pending[v]
    ensures forall v :: v in t.pending && v !in s.pending ==> Free(s, t.pending[v].launch, t.pending[v].surface)
  {
    hide Belongs, MatchesHint;
  }

  ghost predicate Named(s: State) {
    "" !in s.launches
  }

  /** A waiting launch other than the one surface x is bound to has decided to bind x
      and not yet written. */
  ghost predicate Threatened(s: State, x: SurfaceID) {
    x in s.bindings && exists w :: w in s.pending && s.pending[w].surface == x && s.pending[w].launch != s.bindings[x]
  }

  /** One step leaves nothing dangling, ends exactly the bindings it releases, and
      changes none that is not threatened; nor does it threaten one that was not. */
  lemma StepBindings(s: State, step: Step, t: State)
    requires NoDangling(s) && Named(s) && Next(s, step, t) && (step.StartStep? ==> step.l != "")
    ensures NoDangling(t) && Named(t)
    ensures forall x :: x in s.bindings ==> (x in t.bindings <==> !Releases(s, step, x))
    ensures forall x :: x in s.bindings && !Releases(s, step, x) && !Threatened(s, x) ==>
      t.bindings[x] == s.bindings[x] && !Threatened(t, x)
  {
    hide Associated, Looked, Found;
    match step {
      case SeenStep(parents, x, surface) =>
        AssociateEffect(Seen(s, x, surface), parents, x, surface, t);
        AssociateFrame(Seen(s, x, surface), parents, x, surface, t);
      case LookStep(w, parents, l, found) =>
        LookEffect(s, w, parents, l, t, found);
      case _ =>
    }
  }

  lemma AssociateFrame(s: State, parents: Processes, x: SurfaceID, surface: Surface, t: State)
    requires Associated(s, parents, x, surface, t)
    ensures t == s.(bindings := t.bindings)
  {
    hide Owner, OnlyHint;
  }

  ghost predicate NamedRun(steps: seq<Step>) {
    forall i :: 0 <= i < |steps| && steps[i].StartStep? ==> steps[i].l != ""
  }

  lemma {:induction false} BindingsNeverDangle(states: seq<State>, steps: seq<Step>, i: nat)
    requires IsRun(states, steps) && NamedRun(steps) && i < |states|
    ensures NoDangling(states[i]) && Named(states[i])
  {
    hide Next;
    if i > 0 {
      BindingsNeverDangle(states, steps, i - 1);
      StepBindings(states[i - 1], steps[i - 1], states[i]);
    }
  }

  /** From any sound state on: a binding that no waiting launch threatens stays until it
      is released, that is until its surface is unmapped, its session destroyed, or its
      layer-shell launch exited. */
  lemma {:induction false} UnthreatenedStays(states: seq<State>, steps: seq<Step>, j: nat, x: SurfaceID)
    requires IsPath(states, steps) && NamedRun(steps) && j < |states|
    requires NoDangling(states[0]) && Named(states[0]) && x in states[0].bindings && !Threatened(states[0], x)
    requires forall k :: 0 <= k < j ==> !Releases(states[k], steps[k], x)
    ensures NoDangling(states[j]) && Named(states[j])
    ensures x in states[j].bindings && states[j].bindings[x] == states[0].bindings[x] && !Threatened(states[j], x)
  {
    hide Next, Releases, Threatened, NoDangling;
    if j > 0 {
      UnthreatenedStays(states, steps, j - 1, x);
      StepBindings(states[j - 1], steps[j - 1], states[j]);
    }
  }

  /** In every run a binding in place at step i, and threatened by no waiting launch
      then, is the same at step j unless it was released in between. */
  lemma BindingsStayFixed(states: seq<State>, steps: seq<Step>, i: nat, j: nat, x: SurfaceID)
    requires IsRun(states, steps) && NamedRun(steps) && i <= j < |states|
    requires x in states[i].bindings && !Threatened(states[i], x)
    requires forall k :: i <= k < j ==> !Releases(states[k], steps[k], x)
    ensures x in states[j].bindings && states[j].bindings[x] == states[i].bindings[x]
    ensures x in states[j].surfaces && states[j].bindings[x] in states[j].launches
  {
    hide Next, Releases, Threatened;
    BindingsNeverDangle(states, steps, i);
    UnthreatenedStays(states[i..], steps[i..], j - i, x);
  }

  /** No continuation that does not release surface x changes what it is bound to. */
  ghost predicate Fixed(s: State, x: SurfaceID)
    requires x in s.bindings
  {
    forall states: seq<State>, steps: seq<Step> ::
      IsPath(states, steps) && states[0] == s && NamedRun(steps) &&
      (forall k :: 0 <= k < |steps| ==> !Releases(states[k], steps[k], x)) ==>
        x in states[|steps|].bindings && states[|steps|].bindings[x] == s.bindings[x]
  }

  /** A binding in a reachable state is fixed until released if and only if no waiting
      launch other than its own has already chosen the surface. In particular every
      binding is fixed when no launch is between its look and its write. */
  lemma FixedIffUnthreatened(states: seq<State>, steps: seq<Step>, i: nat, x: SurfaceID)
    requires IsRun(states, steps) && NamedRun(steps) && i < |states| && x in states[i].bindings
    ensures Fixed(states[i], x) <==> !Threatened(states[i], x)
    ensures states[i].pending == map[] ==> Fixed(states[i], x)
  {
    hide Next, Releases;
    BindingsNeverDangle(states, steps, i);
    var s := states[i];
    if !Threatened(s, x) {
      forall rest: seq<State>, more: seq<Step> | IsPath(rest, more) && rest[0] == s && NamedRun(more) &&
                          (forall k :: 0 <= k < |more| ==> !Releases(rest[k], more[k], x))
        ensures x in rest[|more|].bindings && rest[|more|].bindings[x] == s.bindings[x]
      {
        UnthreatenedStays(rest, more, |more|, x);
      }
    } else {
      var w :| w in s.pending && s.pending[w].surface == x && s.pending[w].launch != s.bindings[x];
      var rest, more := [s, Committed(s, w)], [WriteStep(w)];
      WriteOverrides(s, w, x);
      assert IsPath(rest, more) && rest[0] == s && rest[|more|].bindings[x] != s.bindings[x];
    }
  }

  lemma WriteOverrides(s: State, w: nat, x: SurfaceID)
    requires w in s.pending && s.pending[w].surface == x && x in s.bindings && s.pending[w].launch != s.bindings[x]
    ensures Next(s, WriteStep(w), Committed(s, w)) && !Releases(s, WriteStep(w), x)
    ensures Committed(s, w).bindings[x] == s.pending[w].launch
  {
  }

  const FOOT := Launch("session", 10, true, 0, "foot", "")
  const WINDOW := Surface(0, "foot", "", "toplevel", 1)

  /** A run in which a binding changes hands without being released: two launches of one
      application look at the same unbound surface before either writes. */
  lemma TwoWaitsRebind() returns (states: seq<State>, steps: seq<Step>)
    ensures IsRun(states, steps) && NamedRun(steps) && |steps| == 7
    ensures "x" in states[6].bindings && states[6].bindings["x"] == "l1" && !Releases(states[6], steps[6], "x")
    ensures "x" in states[7].bindings && states[7].bindings["x"] == "l2"
  {
    var s2 := Started(Started(EMPTY, "l1", FOOT), "l2", FOOT);
    var s3 := Seen(s2, "x", WINDOW);
    var s4 := s3.(pending := map[1 := Choice("l1", "x")]);
    var s5 := s4.(pending := s4.pending[2 := Choice("l2", "x")]);
    TwoHintsBindNothing(s3, WINDOW);
    LookChooses(s3, 1, "l1");
    LookChooses(s4, 2, "l2");
    hide Looked, Associated;
    states := [EMPTY, Started(EMPTY, "l1", FOOT), s2, s3, s4, s5, Committed(s5, 1), Committed(Committed(s5, 1), 2)];
    steps := [StartStep("l1", FOOT), StartStep("l2", FOOT), SeenStep(map[], "x", WINDOW),
              LookStep(1, map[], "l1", Some("x")), LookStep(2, map[], "l2", Some("x")), WriteStep(1), WriteStep(2)];
  }

  lemma TwoHintsBindNothing(s: State, surface: Surface)
    requires s.bindings == map[] && Hinted(s, surface, "l1") && Hinted(s, surface, "l2") && surface.pid <= 0
    ensures Associated(s, map[], "x", surface, s)
  {
    assert forall l :: !Owner(s, map[], surface, l);
    assert forall l :: !OnlyHint(s, surface, l);
  }

  lemma LookChooses(s: State, w: nat, l: LaunchID)
    requires s.bindings == map[] && s.surfaces.Keys == {"x"} && s.surfaces["x"].pid <= 0 && l in s.launches
    requires Hinted(s, s.surfaces["x"], l)
    ensures Looked(s, w, map[], l, s.(pending := s.pending[w := Choice(l, "x")]), Some("x"))
  {
    hide MatchesHint;
    assert HintCandidate(s, map[], l, "x");
    assert forall y :: !Candidate(s, map[], l, y) && !AlreadyBound(s, l, y);
  }

  /** After DestroySession no launch of that session is left and nothing is bound to
      one, while every other binding stays. */
  lemma DestroyLeavesNothing(states: seq<State>, steps: seq<Step>, i: nat, sessionID: string)
    requires IsRun(states, steps) && NamedRun(steps) && i < |steps| && steps[i] == DestroyStep(sessionID)
    ensures var s, t := states[i], states[i + 1];
      && sessionID !in t.sessions
      && (forall l :: l in t.launches ==> l in s.launches && t.launches[l].sessionID != sessionID)
      && (forall x :: x in t.bindings <==> x in s.bindings && s.bindings[x] in s.launches && s.launches[s.bindings[x]].sessionID != sessionID)
      && (forall x :: x in s.bindings ==> s.bindings[x] in s.launches)
      && (forall x :: x in t.bindings ==> t.bindings[x] == s.bindings[x] && t.bindings[x] in t.launches)
  {
    BindingsNeverDangle(states, steps, i);
    assert Next(states[i], steps[i], states[i + 1]);
  }

  /** A launch of this session is in the table. */
  predicate HasLaunch(s: State, l: LaunchID, sessionID: string) {
    l in s.launches && s.launches[l].sessionID == sessionID
  }

  /** The step starts launch l in this session. */
  predicate Starts(step: Step, l: LaunchID, sessionID: string) {
    step.StartStep? && step.l == l && step.launch.sessionID == sessionID
  }

  lemma StepLaunches(s: State, step: Step, t: State, l: LaunchID, sessionID: string)
    requires Next(s, step, t)
    ensures HasLaunch(t, l, sessionID) <==>
            Starts(step, l, sessionID) || (HasLaunch(s, l, sessionID) && step != DestroyStep(sessionID))
  {
    hide Associated, Found;
    match step {
      case SeenStep(parents, x, surface) => AssociateFrame(Seen(s, x, surface), parents, x, surface, t);
      case _ =>
    }
  }

  /** In every run a launch of a session is in the table if and only if it was started and
      the session was not destroyed since. A start is not refused for a session that was
      destroyed before it, so destroying a session once does not keep its launches out. */
  lemma {:induction false} LaunchPresentIff(states: seq<State>, steps: seq<Step>, j: nat, l: LaunchID, sessionID: string)
    requires IsRun(states, steps) && j < |states|
    ensures HasLaunch(states[j], l, sessionID) <==>
      exists k :: 0 <= k < j && Starts(steps[k], l, sessionID) && forall m :: k < m < j ==> steps[m] != DestroyStep(sessionID)
  {
    hide Next, HasLaunch, Starts;
    if j == 0 {
      assert !HasLaunch(EMPTY, l, sessionID) by { NoLaunches(l, sessionID); }
    } else {
      LaunchPresentIff(states, steps, j - 1, l, sessionID);
      StepLaunches(states[j - 1], steps[j - 1], states[j], l, sessionID);
      if HasLaunch(states[j], l, sessionID) && !Starts(steps[j - 1], l, sessionID) {
        var k :| 0 <= k < j - 1 && Starts(steps[k], l, sessionID) && forall m :: k < m < j - 1 ==> steps[m] != DestroyStep(sessionID);
        assert forall m :: k < m < j ==> steps[m] != DestroyStep(sessionID);
      }
    }
  }

  lemma NoLaunches(l: LaunchID, sessionID: string)
    ensures !HasLaunch(EMPTY, l, sessionID)
  {
  }

  /** A run that ends with a launch of a session that no longer exists: it was started
      after the session it was allowed for had been destroyed. */
  lemma LaunchOutlivesSession() returns (states: seq<State>, steps: seq<Step>)
    ensures IsRun(states, steps) && NamedRun(steps) && |steps| == 3
    ensures steps[1] == DestroyStep("session") && "session" !in states[3].sessions && HasLaunch(states[3], "l1", "session")
  {
    var s1 := EMPTY.(sessions := {"session"});
    var s2 := Destroyed(s1, "session");
    states := [EMPTY, s1, s2, Started(s2, "l1", FOOT)];
    steps := [CreateSession("session"), DestroyStep("session"), StartStep("l1", FOOT)];
    assert EMPTY.sessions + {"session"} == {"session"};
    assert Next(EMPTY, steps[0], s1) && Next(s1, steps[1], s2) && Next(s2, steps[2], states[3]);
  }

  /** With no owning launch, an unbound surface ends up bound exactly when one and
      only one open launch matches by hint, and then to that one. */
  lemma HintBindingIsExact(s: State, parents: Processes, x: SurfaceID, surface: Surface, t: State)
    requires x != "" && x !in s.bindings && Associated(s, parents, x, surface, t)
    requires forall l :: !Owner(s, parents, surface, l)
    ensures x in t.bindings <==> exists l :: OnlyHint(s, surface, l)
    ensures forall l :: OnlyHint(s, surface, l) ==> t == Bind(s, x, l)
  {
    hide Owner, Hinted;
    if exists l :: OnlyHint(s, surface, l) {
      var l :| OnlyHint(s, surface, l) && t == Bind(s, x, l);
    }
  }
}
