/** The accessibility projection in plain terms (internal/compositor/a11y.go): which word of
    a role decides, which interfaces make a node actionable, what becomes of a node's
    fields, and which child is replaced by its own children. */
module A11yLaws {
  import opened Text
  import opened A11y

  // ---------- roles ----------

  const WORDS := 16

  /** The words looked for, in order. */
  function Word(k: nat): string
    requires k < WORDS
  {
    if k == 0 then "push button" else if k == 1 then "text" else if k == 2 then "entry"
    else if k == 3 then "check" else if k == 4 then "radio" else if k == 5 then "combo"
    else if k == 6 then "menu" else if k == 7 then "table" else if k == 8 then "list"
    else if k == 9 then "link" else if k == 10 then "image" else if k == 11 then "icon"
    else if k == 12 then "window" else if k == 13 then "frame" else if k == 14 then "dialog"
    else "application"
  }

  /** The role each stands for. */
  function RoleFor(k: nat): string
    requires k < WORDS
  {
    if k == 0 then "button" else if k <= 2 then "text" else if k == 3 then "checkbox"
    else if k == 4 then "radio" else if k == 5 then "combobox" else if k == 6 then "menu"
    else if k == 7 then "table" else if k == 8 then "list" else if k == 9 then "link"
    else if k <= 11 then "image" else if k <= 14 then "window" else "application"
  }

  /** The word stands somewhere in the text. */
  ghost predicate Mentions(s: string, word: string) {
    exists i: nat :: OccursAt(s, word, i)
  }

  ghost predicate Fires(lower: string, k: nat)
    requires k < WORDS
  {
    Mentions(lower, Word(k)) || (k == 0 && lower == "button")
  }

  lemma MentionsIff(s: string, word: string)
    ensures Contains(s, word) <==> Mentions(s, word)
  {
    if Contains(s, word) {
      assert OccursAt(s, word, Index(s, word));
    }
    if Mentions(s, word) {
      var i: nat :| OccursAt(s, word, i);
      Occurs(s, word, i);
    }
  }

  lemma WordFires(lower: string, k: nat)
    requires k < WORDS
    ensures Fires(lower, k) <==> Contains(lower, Word(k)) || (k == 0 && lower == "button")
  {
    MentionsIff(lower, Word(k));
    hide Contains, Mentions, Word;
  }

  lemma WordsFire(lower: string)
    ensures (Fires(lower, 0) <==> Contains(lower, "push button") || lower == "button") && (Fires(lower, 1) <==> Contains(lower, "text"))
    ensures (Fires(lower, 2) <==> Contains(lower, "entry")) && (Fires(lower, 3) <==> Contains(lower, "check"))
    ensures (Fires(lower, 4) <==> Contains(lower, "radio")) && (Fires(lower, 5) <==> Contains(lower, "combo"))
    ensures (Fires(lower, 6) <==> Contains(lower, "menu")) && (Fires(lower, 7) <==> Contains(lower, "table"))
    ensures (Fires(lower, 8) <==> Contains(lower, "list")) && (Fires(lower, 9) <==> Contains(lower, "link"))
    ensures (Fires(lower, 10) <==> Contains(lower, "image")) && (Fires(lower, 11) <==> Contains(lower, "icon"))
    ensures (Fires(lower, 12) <==> Contains(lower, "window")) && (Fires(lower, 13) <==> Contains(lower, "frame"))
    ensures (Fires(lower, 14) <==> Contains(lower, "dialog")) && (Fires(lower, 15) <==> Contains(lower, "application"))
  {
    hide Contains, Fires;
    WordFires(lower, 0);
    WordFires(lower, 1);
    WordFires(lower, 2);
    WordFires(lower, 3);
    WordFires(lower, 4);
    WordFires(lower, 5);
    WordFires(lower, 6);
    WordFires(lower, 7);
    WordFires(lower, 8);
    WordFires(lower, 9);
    WordFires(lower, 10);
    WordFires(lower, 11);
    WordFires(lower, 12);
    WordFires(lower, 13);
    WordFires(lower, 14);
    WordFires(lower, 15);
  }

  /** The first word found decides the role, whatever the interfaces; "button" by itself
      counts as the first. */
  lemma FirstWordDecides(lower: string, action: bool, k: nat)
    requires k < WORDS && Fires(lower, k) && forall j :: 0 <= j < k ==> !Fires(lower, j)
    ensures RoleOf(lower, action) == RoleFor(k)
  {
    WordsFire(lower);
    hide Contains, Fires;
  }

  /** Without any of them a node with an action is "actionable"; else a blank role or one
      that mentions a panel, a filler or a viewport is a container, and any other stays,
      with underscores for its spaces. */
  lemma NoWordDecides(lower: string, action: bool)
    requires forall k :: 0 <= k < WORDS ==> !Fires(lower, k)
    ensures var r := RoleOf(lower, action);
      if action then r == "actionable"
      else if lower == "" || Mentions(lower, "panel") || Mentions(lower, "filler") || Mentions(lower, "viewport") then r == "container"
      else |r| == |lower| && forall i :: 0 <= i < |r| ==> r[i] == if lower[i] == ' ' then '_' else lower[i]
  {
    WordsFire(lower);
    MentionsIff(lower, "panel");
    MentionsIff(lower, "filler");
    MentionsIff(lower, "viewport");
    hide Contains, Mentions, Fires;
  }

  /** The letters of `word` in either case. */
  predicate SameLetters(s: string, word: string) {
    |s| == |word| && forall i :: 0 <= i < |s| ==> s[i] == word[i] || (s[i] as int + 32 == word[i] as int && 'A' <= s[i] <= 'Z')
  }

  /** An interface counts as an action in its long or its short name, in any case. */
  lemma ActionMeans(interfaces: seq<string>)
    ensures HasAction(interfaces) <==>
      exists i :: 0 <= i < |interfaces| && (SameLetters(interfaces[i], "org.a11y.atspi.action") || SameLetters(interfaces[i], "action"))
  {
    hide ToLower, SameLetters;
    forall i | 0 <= i < |interfaces|
      ensures ToLower(interfaces[i]) == "org.a11y.atspi.action" <==> SameLetters(interfaces[i], "org.a11y.atspi.action")
      ensures ToLower(interfaces[i]) == "action" <==> SameLetters(interfaces[i], "action")
    {
      FoldedIs(interfaces[i], "org.a11y.atspi.action");
      FoldedIs(interfaces[i], "action");
    }
  }

  lemma FoldedIs(s: string, word: string)
    requires forall i :: 0 <= i < |word| ==> !('A' <= word[i] <= 'Z')
    ensures ToLower(s) == word <==> SameLetters(s, word)
  {
    if SameLetters(s, word) {
      assert forall i :: 0 <= i < |s| ==> ToLower(s)[i] == word[i];
    }
    if ToLower(s) == word {
      assert forall i :: 0 <= i < |s| ==> ToLower(s)[i] == word[i];
    }
  }

  /** A role is read without the white space round it and whatever its case. */
  lemma RoleReads(pre: string, role: string, post: string, interfaces: seq<string>)
    requires AllSpace(pre) && AllSpace(post) && Trimmed(role) && role != ""
    ensures SemanticRole(pre + role + post, interfaces) == RoleOf(ToLower(role), HasAction(interfaces))
  {
    TrimPad(pre, role, post);
  }

  // ---------- nodes ----------

  /** A projected node keeps its id, texts and actions, records the role it had, and loses
      what belongs to the transport. */
  lemma FieldsAfter(n: Node)
    ensures var p := Project(n);
      && p.id == n.id && p.name == n.name && p.description == n.description && p.actions == n.actions
      && p.sourceRole == n.role && p.role == SemanticRole(n.role, n.interfaces) && p.semanticRole == p.role
      && p.busName == "" && p.path == "" && p.interfaces == [] && p.childCount == 0
  {
    hide SemanticRole;
  }

  /** The last child comes through as one node, unless it is a container without a name, a
      description or an action: then its own projected children stand in its place. */
  lemma LastChild(n: Node, front: seq<Node>, c: Node)
    requires n.children == front + [c]
    ensures var before := Project(n.(children := front)).children;
      Project(n).children == before +
        if SemanticRole(c.role, c.interfaces) == "container" && c.name == "" && c.description == "" && c.actions == []
        then Project(c).children
        else [Project(c)]
  {
    FieldsAfter(c);
    ProjectChildren(n);
    ProjectChildren(n.(children := front));
    ProjectConcat(front, [c]);
    hide SemanticRole, Project, Relabelled;
    assert [c][1..] == [] && ProjectAll([]) == [];
  }

  lemma {:induction false} ProjectConcat(a: seq<Node>, b: seq<Node>)
    ensures ProjectAll(a + b) == ProjectAll(a) + ProjectAll(b)
  {
    hide Project, Anonymous;
    if a == [] {
      assert a + b == b;
    } else {
      assert (a + b)[1..] == a[1..] + b;
      ProjectConcat(a[1..], b);
    }
  }

  lemma NoChildren(n: Node)
    requires n.children == []
    ensures Project(n).children == []
  {
    hide SemanticRole;
  }
}
