/** Projecting an accessibility tree to semantic roles (internal/compositor/a11y.go). */
module A11y {
  import opened Text

  datatype Node = Node(
    id: string, busName: string, path: string, name: string, description: string,
    role: string, sourceRole: string, semanticRole: string,
    interfaces: seq<string>, actions: seq<string>, childCount: int, children: seq<Node>)

  // ---------- semantic roles ----------

  /** EqualFold against the interface's long and short names, over ASCII. */
  predicate HasAction(interfaces: seq<string>) {
    exists i :: 0 <= i < |interfaces| &&
                (ToLower(interfaces[i]) == "org.a11y.atspi.action" || ToLower(interfaces[i]) == "action")
  }

  function Underscored(s: string): (r: string)
    ensures |r| == |s|
    ensures forall i :: 0 <= i < |s| ==> r[i] == if s[i] == ' ' then '_' else s[i]
  {
    seq(|s|, i requires 0 <= i < |s| => if s[i] == ' ' then '_' else s[i])
  }

  function RoleOf(lower: string, action: bool): string {
    if Contains(lower, "push button") || lower == "button" then "button"
    else if Contains(lower, "text") || Contains(lower, "entry") then "text"
    else if Contains(lower, "check") then "checkbox"
    else if Contains(lower, "radio") then "radio"
    else if Contains(lower, "combo") then "combobox"
    else if Contains(lower, "menu") then "menu"
    else if Contains(lower, "table") then "table"
    else if Contains(lower, "list") then "list"
    else if Contains(lower, "link") then "link"
    else LateRole(lower, action)
  }

  /** The cases from "image" on. */
  function LateRole(lower: string, action: bool): string {
    if Contains(lower, "image") || Contains(lower, "icon") then "image"
    else if Contains(lower, "window") || Contains(lower, "frame") || Contains(lower, "dialog") then "window"
    else if Contains(lower, "application") then "application"
    else if action then "actionable"
    else if lower == "" || Contains(lower, "panel") || Contains(lower, "filler") || Contains(lower, "viewport") then "container"
    else Underscored(lower)
  }

  function SemanticRole(role: string, interfaces: seq<string>): string {
    RoleOf(ToLower(TrimSpace(role)), HasAction(interfaces))
  }

  // ---------- the projection ----------

  predicate Anonymous(n: Node) {
    n.semanticRole == "container" && n.name == "" && n.description == "" && n.actions == []
  }

  /** A node's own fields after projection. */
  function Relabelled(n: Node): Node {
    var semantic := SemanticRole(n.role, n.interfaces);
    n.(busName := "", path := "", interfaces := [], childCount := 0,
       sourceRole := n.role, semanticRole := semantic, role := semantic)
  }

  function Project(n: Node): Node
    decreases n
  {
    Relabelled(n).(children := ProjectAll(n.children))
  }

  /** Children in order, an anonymous container replaced by its own children. */
  function ProjectAll(ns: seq<Node>): seq<Node>
    decreases ns
  {
    if ns == [] then []
    else
      var p := Project(ns[0]);
      (if Anonymous(p) then p.children else [p]) + ProjectAll(ns[1..])
  }

  method SemanticProjection(source: Node) returns (node: Node)
    ensures node == Project(source)
    decreases source
  {
    hide SemanticRole, Anonymous;
    node := source;
    var sourceRole := node.role;
    var semanticRole := SemanticRole(sourceRole, node.interfaces);
    node := node.(busName := "", path := "", interfaces := [], childCount := 0);
    node := node.(sourceRole := sourceRole, semanticRole := semanticRole, role := semanticRole);
    var children: seq<Node> := [];
    assert source.children[0..] == source.children;
    assert [] + ProjectAll(source.children) == ProjectAll(source.children);
    for i := 0 to |source.children|
      invariant children + ProjectAll(source.children[i..]) == ProjectAll(source.children)
    {
      NextChild(source.children, i, children);
      var projected := SemanticProjection(source.children[i]);
      if Anonymous(projected) {
        children := children + projected.children;
        continue;
      }
      children := children + [projected];
    }
    assert children + [] == children;
    node := node.(children := children);
  }

  /** One child moves what it contributes from what is left to what is done. */
  lemma NextChild(ns: seq<Node>, i: nat, done: seq<Node>)
    requires i < |ns|
    ensures var p := Project(ns[i]);
      done + ProjectAll(ns[i..]) == (done + if Anonymous(p) then p.children else [p]) + ProjectAll(ns[i + 1..])
  {
    hide Project, Anonymous;
    var rest, p := ns[i..], Project(ns[i]);
    assert rest[0] == ns[i] && rest[1..] == ns[i + 1..];
    var first := if Anonymous(p) then p.children else [p];
    assert done + (first + ProjectAll(rest[1..])) == (done + first) + ProjectAll(rest[1..]);
  }

  // ---------- no anonymous container is left below the root ----------

  ghost predicate Tidy(n: Node)
    decreases n
  {
    TidyAll(n.children)
  }

  ghost predicate TidyAll(ns: seq<Node>)
    decreases ns
  {
    ns == [] || (!Anonymous(ns[0]) && Tidy(ns[0]) && TidyAll(ns[1..]))
  }

  lemma {:induction false} TidyConcat(a: seq<Node>, b: seq<Node>)
    requires TidyAll(a) && TidyAll(b)
    ensures TidyAll(a + b)
  {
    hide Anonymous;
    if a == [] {
      assert a + b == b;
    } else {
      assert (a + b)[1..] == a[1..] + b;
      TidyConcat(a[1..], b);
    }
  }

  lemma {:induction false} ProjectionIsTidy(n: Node)
    ensures Tidy(Project(n))
    decreases n
  {
    hide Anonymous, Relabelled;
    ProjectionsAreTidy(n.children);
  }

  lemma {:induction false} ProjectionsAreTidy(ns: seq<Node>)
    ensures TidyAll(ProjectAll(ns))
    decreases ns
  {
    hide Anonymous, Project;
    if ns != [] {
      var p := Project(ns[0]);
      ProjectionIsTidy(ns[0]);
      ProjectionsAreTidy(ns[1..]);
      assert Tidy(p);
      assert [p][1..] == [];
      var first := if Anonymous(p) then p.children else [p];
      assert TidyAll(first);
      TidyConcat(first, ProjectAll(ns[1..]));
    }
  }

  // ---------- nothing else is lost, and the order stays ----------

  /** A node without its children. */
  function Flat(n: Node): Node {
    n.(children := [])
  }

  function Preorder(n: Node): seq<Node>
    decreases n
  {
    [Flat(n)] + PreorderAll(n.children)
  }

  function PreorderAll(ns: seq<Node>): seq<Node>
    decreases ns
  {
    if ns == [] then [] else Preorder(ns[0]) + PreorderAll(ns[1..])
  }

  function Postorder(n: Node): seq<Node>
    decreases n
  {
    PostorderAll(n.children) + [Flat(n)]
  }

  function PostorderAll(ns: seq<Node>): seq<Node>
    decreases ns
  {
    if ns == [] then [] else Postorder(ns[0]) + PostorderAll(ns[1..])
  }

  /** The listed nodes, relabelled, without the anonymous containers among them. */
  function Kept(fs: seq<Node>): seq<Node> {
    if fs == [] then []
    else
      var f := Relabelled(fs[0]);
      (if Anonymous(f) then [] else [f]) + Kept(fs[1..])
  }

  lemma {:induction false} KeptConcat(a: seq<Node>, b: seq<Node>)
    ensures Kept(a + b) == Kept(a) + Kept(b)
  {
    hide Anonymous, Relabelled;
    if a == [] {
      assert a + b == b;
    } else {
      assert (a + b)[1..] == a[1..] + b;
      KeptConcat(a[1..], b);
    }
  }

  lemma KeptOne(f: Node)
    ensures Kept([f]) == if Anonymous(Relabelled(f)) then [] else [Relabelled(f)]
  {
    hide Anonymous, Relabelled;
    assert [f][1..] == [];
  }

  lemma {:induction false} PreorderConcat(a: seq<Node>, b: seq<Node>)
    ensures PreorderAll(a + b) == PreorderAll(a) + PreorderAll(b)
    ensures PostorderAll(a + b) == PostorderAll(a) + PostorderAll(b)
  {
    hide Preorder, Postorder;
    if a == [] {
      assert a + b == b;
    } else {
      assert (a + b)[1..] == a[1..] + b;
      PreorderConcat(a[1..], b);
    }
  }

  lemma OrderOne(p: Node)
    ensures PreorderAll([p]) == Preorder(p) && PostorderAll([p]) == Postorder(p)
  {
    hide Preorder, Postorder;
    assert [p][1..] == [];
    assert PreorderAll([]) == [] && PostorderAll([]) == [];
  }

  lemma FlatProject(n: Node)
    ensures Flat(Project(n)) == Relabelled(Flat(n))
    ensures Anonymous(Project(n)) <==> Anonymous(Relabelled(Flat(n)))
  {
    hide SemanticRole;
  }

  /** In preorder and in postorder the projection lists the root and then exactly the
      source's other nodes that are not anonymous containers, relabelled. */
  lemma {:induction false} ProjectionKeepsOrder(n: Node)
    ensures Preorder(Project(n)) == [Relabelled(Flat(n))] + Kept(PreorderAll(n.children))
    ensures Postorder(Project(n)) == Kept(PostorderAll(n.children)) + [Relabelled(Flat(n))]
    decreases n
  {
    hide Relabelled, Flat, Anonymous, Kept;
    ProjectionsKeepOrder(n.children);
    FlatProject(n);
    ProjectChildren(n);
  }

  lemma ProjectChildren(n: Node)
    ensures Project(n).children == ProjectAll(n.children)
  {
    hide SemanticRole;
  }

  lemma {:induction false} ProjectionsKeepOrder(ns: seq<Node>)
    ensures PreorderAll(ProjectAll(ns)) == Kept(PreorderAll(ns))
    ensures PostorderAll(ProjectAll(ns)) == Kept(PostorderAll(ns))
    decreases ns
  {
    hide Relabelled, Flat, Anonymous, Kept, Project;
    if ns == [] {
      NoneKept();
    } else {
      var n := ns[0];
      var p := Project(n);
      ProjectionKeepsOrder(n);
      ProjectionsKeepOrder(ns[1..]);
      ProjectChildren(n);
      FlatProject(n);
      KeptOne(Flat(n));
      var first := if Anonymous(p) then p.children else [p];
      PreorderConcat(first, ProjectAll(ns[1..]));
      OrderOne(p);
      KeptConcat(Preorder(n), PreorderAll(ns[1..]));
      KeptConcat([Flat(n)], PreorderAll(n.children));
      KeptConcat(Postorder(n), PostorderAll(ns[1..]));
      KeptConcat(PostorderAll(n.children), [Flat(n)]);
      FirstKept(n, p, first);
    }
  }

  lemma NoneKept()
    ensures Kept([]) == []
  {
  }

  /** What the first child contributes, kept or replaced by its children. */
  lemma FirstKept(n: Node, p: Node, first: seq<Node>)
    requires p == Project(n) && first == if Anonymous(p) then p.children else [p]
    requires Preorder(p) == [Relabelled(Flat(n))] + Kept(PreorderAll(n.children))
    requires Postorder(p) == Kept(PostorderAll(n.children)) + [Relabelled(Flat(n))]
    ensures PreorderAll(first) == Kept(Preorder(n))
    ensures PostorderAll(first) == Kept(Postorder(n))
  {
    hide Relabelled, Anonymous, Kept, Project, PreorderAll, PostorderAll;
    FlatProject(n);
    KeptOne(Flat(n));
    OrderOne(p);
    KeptConcat([Flat(n)], PreorderAll(n.children));
    KeptConcat(PostorderAll(n.children), [Flat(n)]);
    if Anonymous(p) {
      assert Preorder(p)[1..] == PreorderAll(p.children);
      assert Preorder(p)[1..] == Kept(PreorderAll(n.children));
      var k := |Postorder(p)| - 1;
      assert Postorder(p)[..k] == PostorderAll(p.children);
      assert Postorder(p)[..k] == Kept(PostorderAll(n.children));
      assert [] + Kept(PreorderAll(n.children)) == Kept(PreorderAll(n.children));
      assert Kept(PostorderAll(n.children)) + [] == Kept(PostorderAll(n.children));
    }
  }

  // ---------- who lies below whom ----------

  /** For every node in preorder, the nodes from the top down to it. */
  function Trails(n: Node, above: seq<Node>): seq<seq<Node>>
    decreases n
  {
    [above + [Flat(n)]] + TrailsAll(n.children, above + [Flat(n)])
  }

  function TrailsAll(ns: seq<Node>, above: seq<Node>): seq<seq<Node>>
    decreases ns
  {
    if ns == [] then [] else Trails(ns[0], above) + TrailsAll(ns[1..], above)
  }

  /** A trail below the root as the projection should show it: its root relabelled, and
      what is kept of the others. */
  function KeptTrail(trail: seq<Node>): seq<Node> {
    if trail == [] then [] else [Relabelled(trail[0])] + Kept(trail[1..])
  }

  /** The trails that end in a kept node, without the anonymous containers on them. */
  function KeptTrails(trails: seq<seq<Node>>): seq<seq<Node>> {
    if trails == [] then []
    else
      var t := trails[0];
      (if t == [] || Anonymous(Relabelled(t[|t| - 1])) then [] else [KeptTrail(t)]) + KeptTrails(trails[1..])
  }

  lemma {:induction false} KeptTrailsConcat(a: seq<seq<Node>>, b: seq<seq<Node>>)
    ensures KeptTrails(a + b) == KeptTrails(a) + KeptTrails(b)
  {
    hide Anonymous, Relabelled, KeptTrail;
    if a == [] {
      assert a + b == b;
    } else {
      assert (a + b)[1..] == a[1..] + b && (a + b)[0] == a[0];
      KeptTrailsConcat(a[1..], b);
      var t := a[0];
      var head := if t == [] || Anonymous(Relabelled(t[|t| - 1])) then [] else [KeptTrail(t)];
      assert head + (KeptTrails(a[1..]) + KeptTrails(b)) == (head + KeptTrails(a[1..])) + KeptTrails(b);
    }
  }

  lemma KeptTrailGrows(above: seq<Node>, f: Node)
    requires above != []
    ensures KeptTrail(above + [f]) == KeptTrail(above) + if Anonymous(Relabelled(f)) then [] else [Relabelled(f)]
  {
    hide Anonymous, Relabelled, Kept;
    assert (above + [f])[1..] == above[1..] + [f];
    KeptConcat(above[1..], [f]);
    KeptOne(f);
  }

  lemma KeptTrailsOne(above: seq<Node>, f: Node)
    requires above != []
    ensures KeptTrails([above + [f]]) == if Anonymous(Relabelled(f)) then [] else [KeptTrail(above + [f])]
  {
    hide Anonymous, Relabelled, KeptTrail;
    assert [above + [f]][1..] == [];
  }

  lemma {:induction false} TrailsConcat(a: seq<Node>, b: seq<Node>, above: seq<Node>)
    ensures TrailsAll(a + b, above) == TrailsAll(a, above) + TrailsAll(b, above)
  {
    hide Trails;
    if a == [] {
      assert a + b == b;
    } else {
      assert (a + b)[1..] == a[1..] + b;
      TrailsConcat(a[1..], b, above);
    }
  }

  lemma TrailsOne(p: Node, above: seq<Node>)
    ensures TrailsAll([p], above) == Trails(p, above)
  {
    hide Trails;
    assert [p][1..] == [];
    assert TrailsAll([], above) == [];
  }

  lemma {:induction false} TrailsKept(ns: seq<Node>, above: seq<Node>)
    requires above != []
    ensures TrailsAll(ProjectAll(ns), KeptTrail(above)) == KeptTrails(TrailsAll(ns, above))
    decreases ns
  {
    if ns != [] {
      var n := ns[0];
      var p := Project(n);
      var f := Flat(n);
      TrailsKept(n.children, above + [f]);
      TrailsKept(ns[1..], above);
      hide Relabelled, Flat, Anonymous, Project, KeptTrail, KeptTrails;
      ProjectChildren(n);
      FlatProject(n);
      var first := if Anonymous(p) then p.children else [p];
      TrailsConcat(first, ProjectAll(ns[1..]), KeptTrail(above));
      KeptTrailGrows(above, f);
      KeptTrailsOne(above, f);
      TrailsOne(p, KeptTrail(above));
      KeptTrailsConcat([above + [f]], TrailsAll(n.children, above + [f]));
      KeptTrailsConcat(Trails(n, above), TrailsAll(ns[1..], above));
      FirstTrails(n, p, above, first);
    }
  }

  /** What the first child contributes, kept or replaced by its children. */
  lemma FirstTrails(n: Node, p: Node, above: seq<Node>, first: seq<Node>)
    requires above != [] && p == Project(n) && first == if Anonymous(p) then p.children else [p]
    requires TrailsAll(p.children, KeptTrail(above + [Flat(n)])) == KeptTrails(TrailsAll(n.children, above + [Flat(n)]))
    ensures TrailsAll(first, KeptTrail(above)) == KeptTrails(Trails(n, above))
  {
    hide Relabelled, Flat, Anonymous, Project, KeptTrail, KeptTrails, TrailsAll;
    var f := Flat(n);
    FlatProject(n);
    KeptTrailGrows(above, f);
    KeptTrailsOne(above, f);
    KeptTrailsConcat([above + [f]], TrailsAll(n.children, above + [f]));
    if Anonymous(p) {
      assert KeptTrail(above) + [] == KeptTrail(above);
      assert [] + KeptTrails(TrailsAll(n.children, above + [f])) == KeptTrails(TrailsAll(n.children, above + [f]));
    } else {
      TrailsOne(p, KeptTrail(above));
    }
  }

  /** Every node of the projection lies below exactly the kept ones among the nodes its
      source lies below, in the same order: taking containers out moves nobody to
      another parent than the nearest one that is left. */
  lemma ProjectionKeepsAncestors(n: Node)
    ensures Trails(Project(n), []) == [[Relabelled(Flat(n))]] + KeptTrails(TrailsAll(n.children, [Flat(n)]))
  {
    hide Relabelled, Flat, Project, TrailsAll, KeptTrails, KeptTrail;
    TrailsKept(n.children, [Flat(n)]);
    FlatProject(n);
    ProjectChildren(n);
    TopTrail(Flat(n));
    assert [] + [Flat(Project(n))] == [Flat(Project(n))];
  }

  lemma TopTrail(f: Node)
    ensures KeptTrail([f]) == [Relabelled(f)]
  {
    hide Relabelled;
    assert [f][1..] == [];
    NoneKept();
  }

  // ---------- a semantic role is its own semantic role ----------

  lemma TableNotInActionable()
    ensures !Contains("actionable", "table")
  {
    forall i: nat
      ensures !OccursAt("actionable", "table", i)
    {
      if i + 5 <= 10 {
        assert "actionable"[i..i + 5][0] == "actionable"[i] && "actionable"[i..i + 5][1] == "actionable"[i + 1];
      }
    }
    NoOccurrence("actionable", "table");
  }

  lemma IconNotIn(s: string)
    requires s == "application" || s == "actionable" || s == "container"
    ensures !Contains(s, "icon")
  {
    forall i: nat
      ensures !OccursAt(s, "icon", i)
    {
      if i + 4 <= |s| {
        assert s[i..i + 4][0] == s[i] && s[i..i + 4][1] == s[i + 1] && s[i..i + 4][2] == s[i + 2];
      }
    }
    NoOccurrence(s, "icon");
  }

  /** No text of the cases before "image" occurs in `s`, nor is it "button". */
  predicate NoControl(s: string) {
    && s != "button"
    && !Contains(s, "push button") && !Contains(s, "text") && !Contains(s, "entry") && !Contains(s, "check")
    && !Contains(s, "radio") && !Contains(s, "combo") && !Contains(s, "menu") && !Contains(s, "table")
    && !Contains(s, "list") && !Contains(s, "link")
  }

  lemma LateCase(s: string, action: bool)
    requires NoControl(s)
    ensures RoleOf(s, action) == LateRole(s, action)
  {
    hide Contains;
  }

  /** Each character of `cs` belongs to the text of its case and does not occur in `s`. */
  lemma LackingControls(s: string, cs: string)
    requires |cs| > 0 ==> cs[0] in "push button" && cs[0] !in s
    requires |cs| > 1 ==> cs[1] in "text" && cs[1] !in s
    requires |cs| > 2 ==> cs[2] in "entry" && cs[2] !in s
    requires |cs| > 3 ==> cs[3] in "check" && cs[3] !in s
    requires |cs| > 4 ==> cs[4] in "radio" && cs[4] !in s
    requires |cs| > 5 ==> cs[5] in "combo" && cs[5] !in s
    requires |cs| > 6 ==> cs[6] in "menu" && cs[6] !in s
    requires |cs| > 7 ==> cs[7] in "table" && cs[7] !in s
    requires |cs| > 8 ==> cs[8] in "list" && cs[8] !in s
    requires |cs| > 9 ==> cs[9] in "link" && cs[9] !in s
    ensures |cs| > 0 ==> !Contains(s, "push button")
    ensures |cs| > 1 ==> !Contains(s, "text")
    ensures |cs| > 2 ==> !Contains(s, "entry")
    ensures |cs| > 3 ==> !Contains(s, "check")
    ensures |cs| > 4 ==> !Contains(s, "radio")
    ensures |cs| > 5 ==> !Contains(s, "combo")
    ensures |cs| > 6 ==> !Contains(s, "menu")
    ensures |cs| > 7 ==> !Contains(s, "table")
    ensures |cs| > 8 ==> !Contains(s, "list")
    ensures |cs| > 9 ==> !Contains(s, "link")
  {
    hide Contains;
    if |cs| > 0 { Lacking(s, "push button", cs[0]); }
    if |cs| > 1 { Lacking(s, "text", cs[1]); }
    if |cs| > 2 { Lacking(s, "entry", cs[2]); }
    if |cs| > 3 { Lacking(s, "check", cs[3]); }
    if |cs| > 4 { Lacking(s, "radio", cs[4]); }
    if |cs| > 5 { Lacking(s, "combo", cs[5]); }
    if |cs| > 6 { Lacking(s, "menu", cs[6]); }
    if |cs| > 7 { Lacking(s, "table", cs[7]); }
    if |cs| > 8 { Lacking(s, "list", cs[8]); }
    if |cs| > 9 { Lacking(s, "link", cs[9]); }
  }

  lemma TextRole()
    ensures RoleOf("text", false) == "text"
  {
    hide Contains;
    LackingControls("text", "p");
    Occurs("text", "text", 0);
  }

  lemma CheckboxRole()
    ensures RoleOf("checkbox", false) == "checkbox"
  {
    hide Contains;
    LackingControls("checkbox", "ptn");
    Occurs("checkbox", "check", 0);
  }

  lemma RadioRole()
    ensures RoleOf("radio", false) == "radio"
  {
    hide Contains;
    LackingControls("radio", "pttk");
    Occurs("radio", "radio", 0);
  }

  lemma ComboboxRole()
    ensures RoleOf("combobox", false) == "combobox"
  {
    hide Contains;
    LackingControls("combobox", "pttha");
    Occurs("combobox", "combo", 0);
  }

  lemma MenuRole()
    ensures RoleOf("menu", false) == "menu"
  {
    hide Contains;
    LackingControls("menu", "pttcac");
    Occurs("menu", "menu", 0);
  }

  lemma TableRole()
    ensures RoleOf("table", false) == "table"
  {
    hide Contains;
    LackingControls("table", "pxnhrcm");
    Occurs("table", "table", 0);
  }

  lemma ListRole()
    ensures RoleOf("list", false) == "list"
  {
    hide Contains;
    LackingControls("list", "peehacmb");
    Occurs("list", "list", 0);
  }

  lemma LinkRole()
    ensures RoleOf("link", false) == "link"
  {
    hide Contains;
    LackingControls("link", "pttcacmts");
    Occurs("link", "link", 0);
  }

  lemma ImageNoControl()
    ensures NoControl("image")
  {
    hide Contains;
    LackingControls("image", "pttcrcntll");
  }

  lemma WindowNoControl()
    ensures NoControl("window")
  {
    hide Contains;
    LackingControls("window", "pttcrcmtll");
  }

  lemma ApplicationNoControl()
    ensures NoControl("application")
  {
    hide Contains;
    LackingControls("application", "ueehrmmbsk");
  }

  lemma ContainerNoControl()
    ensures NoControl("container")
  {
    hide Contains;
    LackingControls("container", "pxyhdmmbll");
  }

  lemma ActionableNoControl()
    ensures NoControl("actionable")
  {
    hide Contains;
    LackingControls("actionable", "pxrhrmm");
    TableNotInActionable();
    Lacking("actionable", "list", 's');
    Lacking("actionable", "link", 'k');
  }

  lemma ImageRole()
    ensures LateRole("image", false) == "image"
  {
    Occurs("image", "image", 0);
  }

  lemma WindowRole()
    ensures LateRole("window", false) == "window"
  {
    hide Contains;
    Lacking("window", "image", 'm');
    Lacking("window", "icon", 'c');
    Occurs("window", "window", 0);
  }

  lemma NoPicture(s: string)
    requires s == "application" || s == "actionable" || s == "container"
    ensures !Contains(s, "image") && !Contains(s, "icon")
    ensures !Contains(s, "window") && !Contains(s, "frame") && !Contains(s, "dialog")
  {
    hide Contains;
    Lacking(s, "image", 'm');
    IconNotIn(s);
    Lacking(s, "window", 'w');
    Lacking(s, "frame", 'f');
    Lacking(s, "dialog", 'd');
  }

  lemma ApplicationRole()
    ensures LateRole("application", false) == "application"
  {
    hide Contains;
    NoPicture("application");
    Occurs("application", "application", 0);
  }

  /** These two fall through to the last case, which keeps them. */
  lemma LastRoles(r: string)
    requires r == "actionable" || r == "container"
    ensures LateRole(r, false) == r
  {
    hide Contains;
    NoPicture(r);
    Lacking(r, "application", 'p');
    Lacking(r, "panel", 'p');
    Lacking(r, "filler", 'f');
    Lacking(r, "viewport", 'v');
    assert Underscored(r) == r;
  }

  predicate FixedRole(r: string) {
    || r == "button" || r == "text" || r == "checkbox" || r == "radio" || r == "combobox" || r == "menu"
    || r == "table" || r == "list" || r == "link" || r == "image" || r == "window" || r == "application"
    || r == "actionable" || r == "container"
  }

  lemma FixedRolesStay(r: string)
    requires FixedRole(r)
    ensures RoleOf(r, false) == r
  {
    hide Contains, LateRole, NoControl;
    if r == "text" { TextRole(); }
    else if r == "checkbox" { CheckboxRole(); }
    else if r == "radio" { RadioRole(); }
    else if r == "combobox" { ComboboxRole(); }
    else if r == "menu" { MenuRole(); }
    else if r == "table" { TableRole(); }
    else if r == "list" { ListRole(); }
    else if r == "link" { LinkRole(); }
    else if r != "button" {
      if r == "image" { ImageNoControl(); ImageRole(); }
      else if r == "window" { WindowNoControl(); WindowRole(); }
      else if r == "application" { ApplicationNoControl(); ApplicationRole(); }
      else if r == "actionable" { ActionableNoControl(); LastRoles(r); }
      else { ContainerNoControl(); LastRoles(r); }
      LateCase(r, false);
    }
  }

  lemma UnderscoredContains(s: string, sub: string)
    requires '_' !in sub
    ensures Contains(Underscored(s), sub) ==> Contains(s, sub)
  {
    hide Index;
    var r := Underscored(s);
    if Contains(r, sub) {
      var i := Index(r, sub);
      forall k | 0 <= k < |sub|
        ensures s[i + k] == sub[k]
      {
        assert r[i..i + |sub|][k] == r[i + k] && sub[k] in sub;
      }
      assert s[i..i + |sub|] == sub;
      Occurs(s, sub, i);
    }
  }

  lemma UnderscoredIs(s: string, t: string)
    requires '_' !in t
    ensures Underscored(s) == t ==> s == t
  {
    if Underscored(s) == t {
      assert forall i :: 0 <= i < |s| ==> t[i] in t && s[i] == t[i];
    }
  }

  /** A role that fits no case: none of the texts occurs in it. */
  predicate Unlisted(s: string) {
    && NoControl(s) && s != ""
    && !Contains(s, "image") && !Contains(s, "icon") && !Contains(s, "window") && !Contains(s, "frame")
    && !Contains(s, "dialog") && !Contains(s, "application") && !Contains(s, "panel") && !Contains(s, "filler")
    && !Contains(s, "viewport")
  }

  lemma RoleCases(lower: string, action: bool)
    ensures FixedRole(RoleOf(lower, action)) || (Unlisted(lower) && RoleOf(lower, action) == Underscored(lower))
  {
    hide Contains;
  }

  lemma UnlistedNoControl(s: string)
    requires NoControl(s)
    ensures NoControl(Underscored(s))
  {
    hide Contains;
    var r := Underscored(s);
    UnderscoredIs(s, "button");
    UnderscoredNoSpace(s);
    Lacking(r, "push button", ' ');
    UnderscoredContains(s, "text");
    UnderscoredContains(s, "entry");
    UnderscoredContains(s, "check");
    UnderscoredContains(s, "radio");
    UnderscoredContains(s, "combo");
    UnderscoredContains(s, "menu");
    UnderscoredContains(s, "table");
    UnderscoredContains(s, "list");
    UnderscoredContains(s, "link");
  }

  lemma UnderscoredNoSpace(s: string)
    ensures ' ' !in Underscored(s) && Underscored(Underscored(s)) == Underscored(s)
  {
  }

  lemma UnlistedStays(s: string)
    requires Unlisted(s)
    ensures RoleOf(Underscored(s), false) == Underscored(s)
  {
    hide Contains;
    var r := Underscored(s);
    assert NoControl(s);
    UnlistedNoControl(s);
    LateCase(r, false);
    hide NoControl;
    UnderscoredContains(s, "image");
    UnderscoredContains(s, "icon");
    UnderscoredContains(s, "window");
    UnderscoredContains(s, "frame");
    UnderscoredContains(s, "dialog");
    UnderscoredContains(s, "application");
    UnderscoredContains(s, "panel");
    UnderscoredContains(s, "filler");
    UnderscoredContains(s, "viewport");
    UnderscoredNoSpace(s);
  }

  lemma TrimmedLower(s: string)
    requires Trimmed(s)
    ensures Trimmed(ToLower(s)) && ToLower(ToLower(s)) == ToLower(s)
  {
    ToLowerIdempotent(s);
  }

  lemma UnderscoredLower(s: string)
    requires Trimmed(s) && ToLower(s) == s
    ensures Trimmed(Underscored(s)) && ToLower(Underscored(s)) == Underscored(s)
  {
    var r := Underscored(s);
    forall i | 0 <= i < |r|
      ensures ToLower(r)[i] == r[i]
    {
      assert ToLower(s)[i] == s[i];
    }
    assert ToLower(r) == r;
  }

  lemma FixedRoleLower(r: string)
    requires FixedRole(r)
    ensures Trimmed(r) && ToLower(r) == r
  {
    hide ToLower;
    assert forall i :: 0 <= i < |r| ==> 'a' <= r[i] <= 'z';
    assert ToLower(r) == r;
  }

  /** Whatever the source's role and interfaces, the semantic role without interfaces of a
      semantic role is itself. */
  lemma SemanticRoleStays(role: string, interfaces: seq<string>)
    ensures SemanticRole(SemanticRole(role, interfaces), []) == SemanticRole(role, interfaces)
  {
    hide RoleOf, Contains, Unlisted, FixedRole, HasAction;
    var lower := ToLower(TrimSpace(role));
    TrimmedLower(TrimSpace(role));
    var action := HasAction(interfaces);
    var r := RoleOf(lower, action);
    RoleCases(lower, action);
    if FixedRole(r) {
      FixedRolesStay(r);
      FixedRoleLower(r);
    } else {
      UnlistedStays(lower);
      UnderscoredLower(lower);
    }
    TrimOfTrimmed(r);
    NoAction();
  }

  lemma NoAction()
    ensures !HasAction([])
  {
  }

  // ---------- projecting again ----------

  /** What a second projection changes: each node's source role becomes its role. */
  function Resourced(n: Node): Node
    decreases n
  {
    n.(sourceRole := n.role, children := ResourcedAll(n.children))
  }

  function ResourcedAll(ns: seq<Node>): (r: seq<Node>)
    ensures |r| == |ns|
    decreases ns
  {
    if ns == [] then [] else [Resourced(ns[0])] + ResourcedAll(ns[1..])
  }

  /** A node as the projection leaves it. */
  predicate SettledNode(n: Node) {
    && n.busName == "" && n.path == "" && n.interfaces == [] && n.childCount == 0
    && n.semanticRole == n.role && SemanticRole(n.role, []) == n.role
  }

  ghost predicate Settled(n: Node)
    decreases n
  {
    SettledNode(n) && SettledAll(n.children)
  }

  ghost predicate SettledAll(ns: seq<Node>)
    decreases ns
  {
    ns == [] || (Settled(ns[0]) && SettledAll(ns[1..]))
  }

  lemma {:induction false} SettledConcat(a: seq<Node>, b: seq<Node>)
    requires SettledAll(a) && SettledAll(b)
    ensures SettledAll(a + b)
  {
    hide Settled;
    if a == [] {
      assert a + b == b;
    } else {
      assert (a + b)[1..] == a[1..] + b;
      SettledConcat(a[1..], b);
    }
  }

  lemma {:induction false} ProjectionIsSettled(n: Node)
    ensures Settled(Project(n))
    decreases n
  {
    ProjectedNodeIsSettled(n);
    ProjectChildren(n);
    hide SettledNode, Project;
    ProjectionsAreSettled(n.children);
  }

  lemma ProjectedNodeIsSettled(n: Node)
    ensures SettledNode(Project(n))
  {
    hide SemanticRole;
    SemanticRoleStays(n.role, n.interfaces);
  }

  lemma {:induction false} ProjectionsAreSettled(ns: seq<Node>)
    ensures SettledAll(ProjectAll(ns))
    decreases ns
  {
    hide Anonymous, Project, SettledNode;
    if ns != [] {
      var p := Project(ns[0]);
      ProjectionIsSettled(ns[0]);
      ProjectionsAreSettled(ns[1..]);
      assert SettledAll(p.children);
      assert [p][1..] == [];
      var first := if Anonymous(p) then p.children else [p];
      assert SettledAll(first);
      SettledConcat(first, ProjectAll(ns[1..]));
    }
  }

  lemma SettledRelabels(n: Node)
    requires SettledNode(n)
    ensures Relabelled(n) == n.(sourceRole := n.role)
  {
    hide SemanticRole;
  }

  lemma {:induction false} ProjectSettled(n: Node)
    requires Settled(n) && Tidy(n)
    ensures Project(n) == Resourced(n)
    decreases n
  {
    SettledRelabels(n);
    hide SettledNode, Relabelled;
    ProjectAllSettled(n.children);
  }

  lemma SameAnonymity(n: Node)
    ensures Anonymous(Resourced(n)) <==> Anonymous(n)
  {
  }

  lemma {:induction false} ProjectAllSettled(ns: seq<Node>)
    requires SettledAll(ns) && TidyAll(ns)
    ensures ProjectAll(ns) == ResourcedAll(ns)
    decreases ns
  {
    hide SettledNode, Anonymous, Project, Resourced;
    if ns != [] {
      ProjectSettled(ns[0]);
      SameAnonymity(ns[0]);
      ProjectAllSettled(ns[1..]);
    }
  }

  /** Projecting a projection changes no shape, id, text, action or role: only the
      recorded source roles become the semantic ones. */
  lemma ProjectTwice(n: Node)
    ensures Project(Project(n)) == Resourced(Project(n))
  {
    hide Project, Resourced, Settled, Tidy;
    ProjectionIsSettled(n);
    ProjectionIsTidy(n);
    ProjectSettled(Project(n));
  }
}
