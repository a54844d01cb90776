/** The sanitizer in plain terms (internal/shellui/server.go): what comment stripping does
    to a sheet, what exactly is allowed, and what becomes of one declaration. */
module ThemeLaws {
  import opened Text
  import opened Theme

  // ---------- comments ----------

  /** The first occurrence stays the first when text follows. */
  lemma IndexOfLonger(x: string, y: string, sub: string)
    requires Index(x, sub) >= 0
    ensures Index(x + y, sub) == Index(x, sub)
  {
    hide Index;
    var k := Index(x, sub);
    var s := x + y;
    assert s[k..k + |sub|] == x[k..k + |sub|];
    assert OccursAt(s, sub, k);
    forall j: nat | j < k
      ensures !OccursAt(s, sub, j)
    {
      assert !OccursAt(x, sub, j);
      assert s[j..j + |sub|] == x[j..j + |sub|];
    }
  }

  /** Text without a comment opener is left as it is. */
  lemma NothingToStrip(css: string)
    requires NoComment(css)
    ensures StripComments(css) == css
  {
    NoCommentIndex(css);
  }

  /** `c` is a comment's text: its closing follows at once, and not before. */
  predicate ClosesAfter(c: string) {
    Index(c + "*/", "*/") == |c|
  }

  /** `a` runs up to an opener: the first one follows it at once. */
  predicate OpensAfter(a: string) {
    Index(a + "/*", "/*") == |a|
  }

  /** The first comment is cut out, from its opener to its closing, and what was before
      and after it is joined. */
  lemma StripOne(a: string, c: string, b: string)
    requires OpensAfter(a) && ClosesAfter(c)
    ensures StripComments(a + "/*" + c + "*/" + b) == StripComments(a + b)
  {
    hide Index;
    var css := a + "/*" + c + "*/" + b;
    var rest := c + "*/" + b;
    assert css == (a + "/*") + rest;
    IndexOfLonger(a + "/*", rest, "/*");
    IndexOfLonger(c + "*/", b, "*/");
    assert rest == (c + "*/") + b;
    assert css[|a| + 2..] == rest && rest[|c| + 2..] == b && css[..|a|] == a;
  }

  /** An opener that is never closed cuts off the rest. */
  lemma StripUnclosed(a: string, c: string)
    requires OpensAfter(a) && Index(c, "*/") < 0
    ensures StripComments(a + "/*" + c) == a
  {
    hide Index;
    var css := a + "/*" + c;
    IndexOfLonger(a + "/*", c, "/*");
    assert css == (a + "/*") + c;
    assert css[|a| + 2..] == c && css[..|a|] == a;
  }

  /** The rules and warnings of a sheet with a comment are those of the sheet without it. */
  lemma CommentsDoNotMatter(a: string, c: string, b: string)
    requires OpensAfter(a) && ClosesAfter(c)
    ensures Rules(a + "/*" + c + "*/" + b) == Rules(a + b) && Warnings(a + "/*" + c + "*/" + b) == Warnings(a + b)
  {
    hide StripComments, ReadBlocks, Split, Index;
    StripOne(a, c, b);
  }

  /** Those of a sheet whose comment is never closed are those of what comes before it. */
  lemma UnclosedCommentCutsOff(a: string, c: string)
    requires OpensAfter(a) && Index(c, "*/") < 0
    ensures Rules(a + "/*" + c) == Rules(a) && Warnings(a + "/*" + c) == Warnings(a)
  {
    hide StripComments, ReadBlocks, Split, Index;
    StripUnclosed(a, c);
    BeforeOpener(a);
  }

  lemma BeforeOpener(a: string)
    requires OpensAfter(a)
    ensures StripComments(a) == a
  {
    hide Index;
    forall j: nat
      ensures !OccursAt(a, "/*", j)
    {
      if j + 2 <= |a| {
        assert !OccursAt(a + "/*", "/*", j);
        assert (a + "/*")[j..j + 2] == a[j..j + 2];
      }
    }
    assert Index(a, "/*") < 0;
  }

  // ---------- what is allowed ----------

  /** The six selectors, the eight properties and two families, and what no value holds. */
  lemma AllowedMeans(selector: string, property: string, value: string)
    ensures AllowedSelector(selector) <==>
      || selector == ":root" || selector == ".shell-taskbar" || selector == ".shell-clock"
      || selector == ".shell-notification-center" || selector == ".shell-agent-health" || selector == ".shell-background"
    ensures AllowedProperty(property) <==>
      || property == "color" || property == "background" || property == "opacity" || property == "margin"
      || property == "padding" || property == "box-shadow" || property == "backdrop-filter" || property == "filter"
      || HasPrefix(property, "border-") || HasPrefix(property, "font-")
    ensures SafeValue(value) <==>
      && !Contains(value, "\\")
      && !Contains(ToLower(value), "url(") && !Contains(ToLower(value), "@import") && !Contains(ToLower(value), "expression(")
      && !Contains(ToLower(value), "behavior:") && !Contains(ToLower(value), "javascript:") && !Contains(ToLower(value), "data:")
      && !Contains(ToLower(value), "-moz-binding")
  {
    hide Contains, ToLower, HasPrefix;
    assert UNSAFE_FRAGMENTS[0] == "url(" && UNSAFE_FRAGMENTS[1] == "@import" && UNSAFE_FRAGMENTS[2] == "expression(";
    assert UNSAFE_FRAGMENTS[3] == "behavior:" && UNSAFE_FRAGMENTS[4] == "javascript:" && UNSAFE_FRAGMENTS[5] == "data:";
    assert UNSAFE_FRAGMENTS[6] == "-moz-binding";
  }

  // ---------- one declaration ----------

  /** What becomes of a sheet with one selector and one declaration, whatever the name and
      the value are and whatever white space surrounds them: the rule is kept, with its
      name in lower case, or dropped with the warning that says why. */
  lemma OneDeclaration(selector: string, property: string, value: string)
    requires NoComment(selector + "{" + property + ":" + value + "}")
    requires Free(selector, ',') && Free(selector, '{') && Free(selector, '}')
    requires Free(property, ':') && Free(property, ';') && Free(property, '}')
    requires Free(value, ';') && Free(value, '}')
    ensures var css := selector + "{" + property + ":" + value + "}";
      var s, p, v := TrimSpace(selector), ToLower(TrimSpace(property)), TrimSpace(value);
      if s == "" || !AllowedSelector(s) then Rules(css) == [] && Warnings(css) == ["stripped selector " + s]
      else if p == "" || v == "" then Rules(css) == [] && Warnings(css) == []
      else if !AllowedProperty(p) then Rules(css) == [] && Warnings(css) == ["stripped property " + p]
      else if !SafeValue(v) then Rules(css) == [] && Warnings(css) == ["stripped unsafe value for " + p]
      else Rules(css) == [Rule([s], [Declaration(p, v)])] && Warnings(css) == []
  {
    hide Split, Cut, TrimSpace, ToLower, StripComments, NoComment, AllowedSelector, AllowedProperty, SafeValue, ReadBlocks;
    var css := selector + "{" + property + ":" + value + "}";
    var body := property + [':'] + value;
    var block := selector + ['{'] + body;
    NothingToStrip(css);
    assert css == block + ['}'] + "";
    SplitCons(block, '}', "");
    SplitFree("", '}');
    TwoBlocks(block);
    hide ReadBlock, ReadDeclaration;
    OneBlock(selector, body);
    OnePiece(property, value);
  }

  lemma ReadNext(head: string, tail: seq<string>)
    ensures ReadBlocks([head] + tail).0 == (if ReadBlock(head).0.Some? then [ReadBlock(head).0.value] else []) + ReadBlocks(tail).0
    ensures ReadBlocks([head] + tail).1 == ReadBlock(head).1 + ReadBlocks(tail).1
  {
    hide ReadBlock;
    assert ([head] + tail)[1..] == tail;
  }

  lemma TwoBlocks(block: string)
    ensures ReadBlocks([block] + [""]).0 == if ReadBlock(block).0.Some? then [ReadBlock(block).0.value] else []
    ensures ReadBlocks([block] + [""]).1 == ReadBlock(block).1
  {
    EmptyBlock();
    NoBlocks();
    hide ReadBlock, ReadBlocks;
    ReadNext(block, [""]);
    ReadNext("", []);
    assert [""] + [] == [""];
    assert ReadBlock(block).1 + [] == ReadBlock(block).1;
  }

  lemma EmptyBlock()
    ensures ReadBlock("") == (None, [])
  {
  }

  lemma OneBlock(selector: string, body: string)
    requires Free(selector, ',') && Free(selector, '{') && Free(body, ';')
    ensures var s, block := TrimSpace(selector), ReadBlock(selector + ['{'] + body);
      var d := ReadDeclaration(body);
      if s == "" || !AllowedSelector(s) then block.0 == None && block.1 == ["stripped selector " + s]
      else
        && block.0 == (if d.Keep? then Some(Rule([s], [d.declaration])) else None)
        && block.1 == if d.Stripped? then [d.warning] else []
  {
    hide Split, Cut, TrimSpace, AllowedSelector, ReadDeclaration, Free, KeepNames, ReadDeclarations;
    CutAt(selector, '{', body);
    SplitFree(selector, ',');
    SplitFree(body, ';');
    OneName(selector);
    OneDeclarationRead(body);
    OneAllowed(TrimSpace(selector));
    hide AllowedSelectors;
  }

  lemma OneAllowed(s: string)
    ensures AllowedSelectors([s]) <==> AllowedSelector(s)
  {
    hide AllowedSelector;
    assert [s][0] == s;
  }

  lemma OneName(selector: string)
    ensures KeepNames([selector]) == if TrimSpace(selector) != "" then [TrimSpace(selector)] else []
  {
    hide TrimSpace;
    assert [selector][1..] == [] && KeepNames([]) == [];
  }

  lemma OneDeclarationRead(body: string)
    ensures ReadDeclarations([body]).0 == if ReadDeclaration(body).Keep? then [ReadDeclaration(body).declaration] else []
    ensures ReadDeclarations([body]).1 == if ReadDeclaration(body).Stripped? then [ReadDeclaration(body).warning] else []
  {
    hide ReadDeclaration;
    ReadDeclarationsStep([body], 0);
    ReadNoDeclarations();
    assert [body][0..] == [body] && [body][1..] == [];
  }

  lemma OnePiece(property: string, value: string)
    requires Free(property, ':')
    ensures var p, v := ToLower(TrimSpace(property)), TrimSpace(value);
      ReadDeclaration(property + [':'] + value) ==
        if p == "" || v == "" then Skip
        else if !AllowedProperty(p) then Stripped("stripped property " + p)
        else if !SafeValue(v) then Stripped("stripped unsafe value for " + p)
        else Keep(Declaration(p, v))
  {
    hide Cut, TrimSpace, ToLower, AllowedProperty, SafeValue, Free;
    CutAt(property, ':', value);
  }

  // ---------- sheets one after the other ----------

  lemma {:induction false} SplitBoth(x: string, sep: char, y: string)
    ensures Split(x + [sep] + y, sep) == Split(x, sep) + Split(y, sep)
  {
    var s := x + [sep] + y;
    if x == "" {
      assert s[1..] == y;
    } else {
      assert s[1..] == x[1..] + [sep] + y;
      SplitBoth(x[1..], sep, y);
    }
  }

  function RulesIn(blocks: seq<string>): seq<Rule> {
    ReadBlocks(blocks).0
  }

  function WarningsIn(blocks: seq<string>): seq<string> {
    ReadBlocks(blocks).1
  }

  function RuleIn(block: string): seq<Rule> {
    if ReadBlock(block).0.Some? then [ReadBlock(block).0.value] else []
  }

  lemma NextBlock(blocks: seq<string>)
    requires blocks != []
    ensures RulesIn(blocks) == RuleIn(blocks[0]) + RulesIn(blocks[1..])
    ensures WarningsIn(blocks) == ReadBlock(blocks[0]).1 + WarningsIn(blocks[1..])
  {
    hide ReadBlock;
  }

  lemma NothingIn()
    ensures RulesIn([]) == [] && WarningsIn([]) == []
  {
  }

  lemma ConcatThree<T>(x: seq<T>, y: seq<T>, z: seq<T>)
    ensures x + (y + z) == (x + y) + z
  {
  }

  lemma {:induction false} ReadBoth(a: seq<string>, b: seq<string>)
    ensures RulesIn(a + b) == RulesIn(a) + RulesIn(b)
    ensures WarningsIn(a + b) == WarningsIn(a) + WarningsIn(b)
  {
    hide ReadBlock, RulesIn, WarningsIn, RuleIn;
    if a == [] {
      assert a + b == b;
      NothingIn();
      assert [] + RulesIn(b) == RulesIn(b) && [] + WarningsIn(b) == WarningsIn(b);
    } else {
      var all := a + b;
      assert all[1..] == a[1..] + b;
      ReadBoth(a[1..], b);
      NextBlock(a);
      NextBlock(all);
      ConcatThree(RuleIn(a[0]), RulesIn(a[1..]), RulesIn(b));
      ConcatThree(ReadBlock(a[0]).1, WarningsIn(a[1..]), WarningsIn(b));
    }
  }

  /** Two sheets without comments, joined at a closing brace, give the rules and warnings
      of the one and then those of the other. */
  lemma SheetsCompose(x: string, y: string)
    requires NoComment(x) && NoComment(y) && NoComment(x + "}" + y)
    ensures Rules(x + "}" + y) == Rules(x) + Rules(y) && Warnings(x + "}" + y) == Warnings(x) + Warnings(y)
  {
    hide StripComments, NoComment, Split, ReadBlocks;
    assert forall blocks :: RulesIn(blocks) == ReadBlocks(blocks).0 && WarningsIn(blocks) == ReadBlocks(blocks).1;
    hide RulesIn, WarningsIn;
    NothingToStrip(x);
    NothingToStrip(y);
    NothingToStrip(x + "}" + y);
    SplitBoth(x, '}', y);
    assert x + "}" + y == x + ['}'] + y;
    ReadBoth(Split(x, '}'), Split(y, '}'));
  }

  /** How rules are written: selectors apart by a comma and a space, each declaration on a
      line of its own, indented by two and closed by a semicolon. */
  lemma PrintedText(first: string, second: string, property: string, value: string, others: seq<Declaration>)
    ensures PrintDeclaration(Declaration(property, value)) == property + ": " + value
    ensures PrintRule(Rule([first, second], others)) == first + ", " + second + " {\n" + PrintDeclarations(others) + "}\n"
    ensures PrintDeclarations([]) == ""
    ensures PrintDeclarations([Declaration(property, value)] + others) ==
            "  " + property + ": " + value + ";\n" + PrintDeclarations(others)
  {
    assert [first, second][1..] == [second] && Join([second], ", ") == second;
    assert Join([first, second], ", ") == first + ", " + second;
    assert ([Declaration(property, value)] + others)[1..] == others;
  }

  lemma {:induction false} PrintedBoth(a: seq<Rule>, b: seq<Rule>)
    ensures PrintRules(a + b) == PrintRules(a) + PrintRules(b)
    decreases a
  {
    hide PrintRule;
    if a == [] {
      assert a + b == b;
    } else {
      assert (a + b)[1..] == a[1..] + b;
      PrintedBoth(a[1..], b);
    }
  }
}
