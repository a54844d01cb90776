/** The loops over launches and surfaces as walks in some order of a map's keys
    (internal/compositor/bridge.go): what they can lead to, and when the order matters. */
module LaunchWalks {
  import opened Text
  import opened Launches

  /** An order in which a map with these keys can be walked: each of them once. */
  ghost predicate Lists<T(!new)>(order: seq<T>, keys: set<T>) {
    && (forall x :: x in order <==> x in keys)
    && (forall i, j :: 0 <= i < j < |order| ==> order[i] != order[j])
  }

  /** Some walk begins with any given distinct keys. */
  lemma {:induction false} WalkFrom<T(!new)>(front: seq<T>, keys: set<T>) returns (order: seq<T>)
    requires forall x :: x in front ==> x in keys
    requires forall i, j :: 0 <= i < j < |front| ==> front[i] != front[j]
    ensures Lists(order, keys) && front <= order
    decreases keys - set x | x in front
  {
    var left := keys - set x | x in front;
    if left == {} {
      order := front;
      assert forall x :: x in keys ==> x !in left;
    } else {
      var x :| x in left;
      assert left - {x} == keys - set y | y in front + [x];
      order := WalkFrom(front + [x], keys);
      assert front <= front + [x] <= order;
    }
  }

  /** The first loop of associateSurfaceLocked: the first owner met. */
  ghost function FirstOwner(s: State, parents: Processes, surface: Surface, order: seq<LaunchID>): Option<LaunchID> {
    if order == [] then None
    else if Owner(s, parents, surface, order[0]) then Some(order[0])
    else FirstOwner(s, parents, surface, order[1..])
  }

  /** The second: a hint, given up when a second one is met. */
  ghost function SoleHint(s: State, surface: Surface, order: seq<LaunchID>, hint: Option<LaunchID>): Option<LaunchID> {
    if order == [] then hint
    else if !Hinted(s, surface, order[0]) then SoleHint(s, surface, order[1..], hint)
    else if hint.Some? then None
    else SoleHint(s, surface, order[1..], Some(order[0]))
  }

  /** What associating does when the two loops walk the launches in these orders. */
  ghost function Walked(s: State, parents: Processes, x: SurfaceID, surface: Surface, first: seq<LaunchID>, second: seq<LaunchID>): State {
    if x == "" || x in s.bindings then s
    else
      var owner := FirstOwner(s, parents, surface, first);
      var hint := SoleHint(s, surface, second, None);
      if owner.Some? then Bind(s, x, owner.value)
      else if hint.Some? then Bind(s, x, hint.value)
      else s
  }

  lemma {:induction false} FirstOwnerMeans(s: State, parents: Processes, surface: Surface, order: seq<LaunchID>)
    ensures var r := FirstOwner(s, parents, surface, order);
      && (r.Some? ==> Owner(s, parents, surface, r.value))
      && (r.None? ==> forall l :: l in order ==> !Owner(s, parents, surface, l))
  {
    hide Owner;
    if order != [] {
      FirstOwnerMeans(s, parents, surface, order[1..]);
      assert order == [order[0]] + order[1..];
    }
  }

  /** The launches that hint and were met, before or during the walk. */
  ghost predicate Met(s: State, surface: Surface, order: seq<LaunchID>, hint: Option<LaunchID>, l: LaunchID) {
    Hinted(s, surface, l) && (l in order || hint == Some(l))
  }

  lemma {:induction false} SoleHintMeans(s: State, surface: Surface, order: seq<LaunchID>, hint: Option<LaunchID>)
    requires forall i, j :: 0 <= i < j < |order| ==> order[i] != order[j]
    requires hint.Some? ==> Hinted(s, surface, hint.value) && hint.value !in order
    ensures var r := SoleHint(s, surface, order, hint);
      && (r.Some? ==> Met(s, surface, order, hint, r.value) && forall m :: Met(s, surface, order, hint, m) ==> m == r.value)
      && (r.None? ==> (forall m :: !Met(s, surface, order, hint, m))
                      || exists l, m :: l != m && Met(s, surface, order, hint, l) && Met(s, surface, order, hint, m))
    decreases order
  {
    hide Hinted;
    if order != [] {
      assert order == [order[0]] + order[1..];
      if !Hinted(s, surface, order[0]) {
        SoleHintMeans(s, surface, order[1..], hint);
        assert forall m :: Met(s, surface, order, hint, m) <==> Met(s, surface, order[1..], hint, m);
      } else if hint.Some? {
        assert Met(s, surface, order, hint, order[0]) && Met(s, surface, order, hint, hint.value);
      } else {
        SoleHintMeans(s, surface, order[1..], Some(order[0]));
        assert forall m :: Met(s, surface, order, hint, m) <==> Met(s, surface, order[1..], Some(order[0]), m);
      }
    }
  }

  lemma SecondLoop(s: State, surface: Surface, order: seq<LaunchID>)
    requires Lists(order, s.launches.Keys)
    ensures SoleHint(s, surface, order, None).Some? ==> OnlyHint(s, surface, SoleHint(s, surface, order, None).value)
    ensures SoleHint(s, surface, order, None).None? ==> forall l :: !OnlyHint(s, surface, l)
  {
    hide Open, MatchesHint;
    SoleHintMeans(s, surface, order, None);
    assert forall l :: Met(s, surface, order, None, l) <==> Hinted(s, surface, l);
  }

  lemma FirstLoop(s: State, parents: Processes, surface: Surface, order: seq<LaunchID>)
    requires Lists(order, s.launches.Keys)
    ensures FirstOwner(s, parents, surface, order).Some? ==> Owner(s, parents, surface, FirstOwner(s, parents, surface, order).value)
    ensures FirstOwner(s, parents, surface, order).None? ==> forall l :: !Owner(s, parents, surface, l)
  {
    hide Open, Belongs;
    FirstOwnerMeans(s, parents, surface, order);
    assert forall l :: Owner(s, parents, surface, l) ==> l in order;
  }

  lemma WalkIsAssociated(s: State, parents: Processes, x: SurfaceID, surface: Surface, first: seq<LaunchID>, second: seq<LaunchID>)
    requires Lists(first, s.launches.Keys) && Lists(second, s.launches.Keys)
    ensures Associated(s, parents, x, surface, Walked(s, parents, x, surface, first, second))
  {
    hide Owner, OnlyHint, FirstOwner, SoleHint, Lists;
    FirstLoop(s, parents, surface, first);
    SecondLoop(s, surface, second);
  }

  lemma FirstWins(s: State, parents: Processes, surface: Surface, l: LaunchID) returns (order: seq<LaunchID>)
    requires Owner(s, parents, surface, l)
    ensures Lists(order, s.launches.Keys) && FirstOwner(s, parents, surface, order) == Some(l)
  {
    hide Open, Belongs, Lists;
    order := WalkFrom([l], s.launches.Keys);
    assert order[0] == [l][0];
  }

  /** Associating a surface can end in a state if and only if some walks of the launches
      lead there. */
  lemma AssociatedIffWalked(s: State, parents: Processes, x: SurfaceID, surface: Surface, t: State)
    ensures Associated(s, parents, x, surface, t) <==>
      exists first, second :: Lists(first, s.launches.Keys) && Lists(second, s.launches.Keys)
                              && t == Walked(s, parents, x, surface, first, second)
  {
    hide Owner, OnlyHint, FirstOwner, SoleHint, Lists;
    if Associated(s, parents, x, surface, t) {
      var second := WalkFrom([], s.launches.Keys);
      var first := second;
      if x != "" && x !in s.bindings && exists l :: Owner(s, parents, surface, l) {
        var l :| Owner(s, parents, surface, l) && t == Bind(s, x, l);
        first := FirstWins(s, parents, surface, l);
      }
      FirstLoop(s, parents, surface, first);
      SecondLoop(s, surface, second);
      OnlyOneHint(s, surface);
      assert t == Walked(s, parents, x, surface, first, second);
    }
    forall first, second | Lists(first, s.launches.Keys) && Lists(second, s.launches.Keys)
      ensures Associated(s, parents, x, surface, Walked(s, parents, x, surface, first, second))
    {
      WalkIsAssociated(s, parents, x, surface, first, second);
    }
  }

  lemma OnlyOneHint(s: State, surface: Surface)
    ensures forall l, m :: OnlyHint(s, surface, l) && OnlyHint(s, surface, m) ==> l == m
  {
    hide Hinted;
  }

  ghost predicate Differ(s: State, parents: Processes, x: SurfaceID, surface: Surface,
                         a: seq<LaunchID>, b: seq<LaunchID>, c: seq<LaunchID>, d: seq<LaunchID>) {
    && Lists(a, s.launches.Keys) && Lists(b, s.launches.Keys) && Lists(c, s.launches.Keys) && Lists(d, s.launches.Keys)
    && Walked(s, parents, x, surface, a, b) != Walked(s, parents, x, surface, c, d)
  }

  /** Two walks of the launches can associate the surface differently if and only if it
      is unbound and two open launches own its process. */
  lemma OrderMattersIff(s: State, parents: Processes, x: SurfaceID, surface: Surface)
    ensures (exists a, b, c, d :: Differ(s, parents, x, surface, a, b, c, d)) <==>
            x != "" && x !in s.bindings && exists l, m :: Owner(s, parents, surface, l) && Owner(s, parents, surface, m) && l != m
  {
    hide Owner, OnlyHint, FirstOwner, SoleHint, Lists;
    if x != "" && x !in s.bindings && exists l, m :: Owner(s, parents, surface, l) && Owner(s, parents, surface, m) && l != m {
      var l, m :| Owner(s, parents, surface, l) && Owner(s, parents, surface, m) && l != m;
      var a := FirstWins(s, parents, surface, l);
      var c := FirstWins(s, parents, surface, m);
      assert Bind(s, x, l).bindings[x] != Bind(s, x, m).bindings[x];
      assert Differ(s, parents, x, surface, a, a, c, c);
    }
    if a, b, c, d :| Differ(s, parents, x, surface, a, b, c, d) {
      FirstLoop(s, parents, surface, a);
      FirstLoop(s, parents, surface, c);
      SecondLoop(s, surface, b);
      SecondLoop(s, surface, d);
      OnlyOneHint(s, surface);
    }
  }

  /** The second loop of reconcileLaunchSurfaceLocked, with "" for "no hint yet". */
  ghost function Searched(s: State, parents: Processes, launchID: LaunchID, order: seq<SurfaceID>, hintID: SurfaceID): Option<SurfaceID> {
    if order == [] then if hintID != "" then Some(hintID) else None
    else if Candidate(s, parents, launchID, order[0]) then Some(order[0])
    else if !HintCandidate(s, parents, launchID, order[0]) then Searched(s, parents, launchID, order[1..], hintID)
    else if hintID != "" then None
    else Searched(s, parents, launchID, order[1..], order[0])
  }

  /** The hints met, before or during the walk. */
  ghost predicate MetHint(s: State, parents: Processes, launchID: LaunchID, order: seq<SurfaceID>, hintID: SurfaceID, y: SurfaceID) {
    HintCandidate(s, parents, launchID, y) && (y in order || (y == hintID && y != ""))
  }

  lemma {:induction false} SearchCandidate(s: State, parents: Processes, launchID: LaunchID, order: seq<SurfaceID>, hintID: SurfaceID)
    requires forall i, j :: 0 <= i < j < |order| ==> order[i] != order[j]
    requires hintID != "" ==> HintCandidate(s, parents, launchID, hintID) && hintID !in order
    ensures SearchOutcome(s, parents, launchID, order, hintID, Searched(s, parents, launchID, order, hintID))
    decreases order
  {
    hide Candidate, HintCandidate;
    if order != [] {
      var rest := order[1..];
      assert order == [order[0]] + rest;
      var met := HintCandidate(s, parents, launchID, order[0]) && hintID == "";
      if !Candidate(s, parents, launchID, order[0]) {
        if !HintCandidate(s, parents, launchID, order[0]) {
          SearchCandidate(s, parents, launchID, rest, hintID);
          assert forall y :: MetHint(s, parents, launchID, order, hintID, y) <==> MetHint(s, parents, launchID, rest, hintID, y);
        } else if hintID != "" {
          assert MetHint(s, parents, launchID, order, hintID, order[0]) && MetHint(s, parents, launchID, order, hintID, hintID);
        } else {
          SearchCandidate(s, parents, launchID, rest, order[0]);
          assert forall y :: y != "" ==> (MetHint(s, parents, launchID, order, hintID, y) <==> MetHint(s, parents, launchID, rest, order[0], y));
          assert forall y :: MetHint(s, parents, launchID, rest, order[0], y) ==> MetHint(s, parents, launchID, order, hintID, y);
        }
      }
    }
  }

  ghost predicate SearchOutcome(s: State, parents: Processes, launchID: LaunchID, order: seq<SurfaceID>, hintID: SurfaceID, found: Option<SurfaceID>) {
    match found
    case Some(x) =>
      (x in order && Candidate(s, parents, launchID, x)) ||
      (x != "" && MetHint(s, parents, launchID, order, hintID, x)
       && (forall y :: MetHint(s, parents, launchID, order, hintID, y) ==> y == x || y == "")
       && forall y :: y in order ==> !Candidate(s, parents, launchID, y))
    case None =>
      (forall y :: (y in order ==> !Candidate(s, parents, launchID, y)) && (MetHint(s, parents, launchID, order, hintID, y) ==> y == ""))
      || exists x, y :: x != "" && x != y && MetHint(s, parents, launchID, order, hintID, x) && MetHint(s, parents, launchID, order, hintID, y)
  }

  /** Looking for an unbound launch's surface can give an answer if and only if some walk
      of the surfaces gives it. */
  lemma FoundIffSearched(s: State, parents: Processes, launchID: LaunchID, found: Option<SurfaceID>)
    requires launchID in s.launches && forall x :: !AlreadyBound(s, launchID, x)
    ensures Found(s, parents, launchID, found) <==>
      exists order :: Lists(order, s.surfaces.Keys) && found == Searched(s, parents, launchID, order, "")
  {
    hide Belongs, MatchesHint;
    forall order | Lists(order, s.surfaces.Keys)
      ensures Found(s, parents, launchID, Searched(s, parents, launchID, order, ""))
    {
      SearchIsFound(s, parents, launchID, order);
    }
    if Found(s, parents, launchID, found) {
      var order := WalkThatFinds(s, parents, launchID, found);
    }
  }

  lemma SearchIsFound(s: State, parents: Processes, launchID: LaunchID, order: seq<SurfaceID>)
    requires launchID in s.launches && (forall x :: !AlreadyBound(s, launchID, x)) && Lists(order, s.surfaces.Keys)
    ensures Found(s, parents, launchID, Searched(s, parents, launchID, order, ""))
  {
    hide Belongs, MatchesHint, Searched;
    SearchCandidate(s, parents, launchID, order, "");
    assert forall y :: Candidate(s, parents, launchID, y) || HintCandidate(s, parents, launchID, y) ==> y in order;
    assert forall y :: MetHint(s, parents, launchID, order, "", y) <==> HintCandidate(s, parents, launchID, y);
  }

  lemma WalkThatFinds(s: State, parents: Processes, launchID: LaunchID, found: Option<SurfaceID>) returns (order: seq<SurfaceID>)
    requires launchID in s.launches && (forall x :: !AlreadyBound(s, launchID, x)) && Found(s, parents, launchID, found)
    ensures Lists(order, s.surfaces.Keys) && found == Searched(s, parents, launchID, order, "")
  {
    hide Belongs, MatchesHint, Lists, Searched;
    if found.Some? && Candidate(s, parents, launchID, found.value) {
      order := WalkFrom([found.value], s.surfaces.Keys);
      CandidateFirst(s, parents, launchID, order);
    } else if found.None? && exists x, y :: x != "" && x != y && HintCandidate(s, parents, launchID, x) && HintCandidate(s, parents, launchID, y) {
      var x, y :| x != "" && x != y && HintCandidate(s, parents, launchID, x) && HintCandidate(s, parents, launchID, y);
      order := WalkFrom([x, y], s.surfaces.Keys);
      HintsFirst(s, parents, launchID, order, x, y);
    } else if found.Some? && HintCandidate(s, parents, launchID, "") {
      order := WalkFrom([""], s.surfaces.Keys);
      BlankFirst(s, parents, launchID, order, found.value);
    } else {
      order := WalkFrom([], s.surfaces.Keys);
      SearchIsFound(s, parents, launchID, order);
    }
  }

  lemma CandidateFirst(s: State, parents: Processes, launchID: LaunchID, order: seq<SurfaceID>)
    requires order != [] && Candidate(s, parents, launchID, order[0])
    ensures Searched(s, parents, launchID, order, "") == Some(order[0])
  {
    hide Candidate;
  }

  lemma HintsFirst(s: State, parents: Processes, launchID: LaunchID, order: seq<SurfaceID>, x: SurfaceID, y: SurfaceID)
    requires [x, y] <= order && x != ""
    requires HintCandidate(s, parents, launchID, x) && HintCandidate(s, parents, launchID, y)
    ensures Searched(s, parents, launchID, order, "") == None
  {
    hide Belongs, MatchesHint;
    assert order[0] == x && order[1] == y && order[1..][0] == y;
  }

  lemma BlankFirst(s: State, parents: Processes, launchID: LaunchID, order: seq<SurfaceID>, x: SurfaceID)
    requires Lists(order, s.surfaces.Keys) && [""] <= order && x != ""
    requires HintCandidate(s, parents, launchID, "") && HintCandidate(s, parents, launchID, x)
    requires forall y :: HintCandidate(s, parents, launchID, y) ==> y == x || y == ""
    requires forall y :: !Candidate(s, parents, launchID, y)
    ensures Searched(s, parents, launchID, order, "") == Some(x)
  {
    var rest := order[1..];
    assert order == [""] + rest;
    assert x in order by { hide Belongs, MatchesHint; }
    hide Candidate, HintCandidate;
    assert forall k :: 0 <= k < |rest| ==> rest[k] == order[k + 1] && order[0] != order[k + 1];
    assert order[0] == "";
    OnlyHintLeft(s, parents, launchID, rest, x);
  }

  lemma OnlyHintLeft(s: State, parents: Processes, launchID: LaunchID, order: seq<SurfaceID>, x: SurfaceID)
    requires forall i, j :: 0 <= i < j < |order| ==> order[i] != order[j]
    requires x in order && x != "" && "" !in order && HintCandidate(s, parents, launchID, x)
    requires forall y :: HintCandidate(s, parents, launchID, y) ==> y == x || y == ""
    requires forall y :: !Candidate(s, parents, launchID, y)
    ensures Searched(s, parents, launchID, order, "") == Some(x)
  {
    hide Candidate, HintCandidate, Searched;
    SearchCandidate(s, parents, launchID, order, "");
    assert MetHint(s, parents, launchID, order, "", x);
  }
}
