/** What the theme sanitizer's value screen is worth for the whole sheet it prints
    (internal/shellui/server.go). */
module ThemeSafety {
  import opened Text
  import opened Theme

  /** Unsafe fragment i occurs, in any letter case. */
  predicate Has(s: string, i: nat)
    requires i < |UNSAFE_FRAGMENTS|
  {
    Contains(ToLower(s), UNSAFE_FRAGMENTS[i])
  }

  predicate Unsafe(s: string) {
    exists i :: 0 <= i < |UNSAFE_FRAGMENTS| && Has(s, i)
  }

  predicate Separator(c: char) {
    c == ' ' || c == '\n' || c == ';' || c == ',' || c == '{' || c == '}'
  }

  lemma NoSeparator(c: char, i: nat)
    requires Separator(c) && i < |UNSAFE_FRAGMENTS|
    ensures c !in UNSAFE_FRAGMENTS[i] && UNSAFE_FRAGMENTS[i] != ""
  {
  }

  lemma LowerConcat(a: string, b: string)
    ensures ToLower(a + b) == ToLower(a) + ToLower(b)
  {
    hide ToLower;
    var l, r := ToLower(a + b), ToLower(a) + ToLower(b);
    assert forall k :: 0 <= k < |l| ==> l[k] == r[k];
  }

  lemma LowerSeparator(c: char)
    requires Separator(c)
    ensures ToLower([c]) == [c]
  {
    assert ToLower([c])[0] == c;
  }

  /** No fragment reaches across a separator. */
  lemma HasSplit(a: string, c: char, b: string, i: nat)
    requires Separator(c) && i < |UNSAFE_FRAGMENTS|
    ensures Has(a + [c] + b, i) <==> Has(a, i) || Has(b, i)
  {
    hide Contains, ToLower, Separator;
    NoSeparator(c, i);
    LowerConcat(a + [c], b);
    LowerConcat(a, [c]);
    LowerSeparator(c);
    ContainsSplit(ToLower(a), c, ToLower(b), UNSAFE_FRAGMENTS[i]);
  }

  lemma HasNothing(i: nat)
    requires i < |UNSAFE_FRAGMENTS|
    ensures !Has("", i)
  {
    NoSeparator(' ', i);
  }

  /** A declaration's name, with the colon that is printed right after it. */
  function Name(d: Declaration): string {
    d.property + ":"
  }

  lemma ColonShape(d: Declaration)
    ensures PrintDeclaration(d) == Name(d) + [' '] + d.value
  {
  }

  lemma DeclarationHas(d: Declaration, i: nat)
    requires i < |UNSAFE_FRAGMENTS| && CleanDeclaration(d)
    ensures Has(PrintDeclaration(d), i) <==> Has(Name(d), i)
  {
    ColonShape(d);
    ValueScreened(d, i);
    hide Has;
    HasSplit(Name(d), ' ', d.value, i);
  }

  lemma ValueScreened(d: Declaration, i: nat)
    requires i < |UNSAFE_FRAGMENTS| && CleanDeclaration(d)
    ensures !Has(d.value, i)
  {
    hide Contains, ToLower, AllowedProperty, NoComment, Free, Trimmed;
  }

  ghost predicate NamesHave(ds: seq<Declaration>, i: nat)
    requires i < |UNSAFE_FRAGMENTS|
  {
    exists k :: 0 <= k < |ds| && Has(Name(ds[k]), i)
  }

  lemma IndentShape(text: string, rest: string)
    ensures "  " + text + ";\n" + rest == ([] + [' '] + ([] + [' '] + text)) + [';'] + ([] + ['\n'] + rest)
  {
  }

  lemma LineHas(text: string, rest: string, i: nat)
    requires i < |UNSAFE_FRAGMENTS|
    ensures Has("  " + text + ";\n" + rest, i) <==> Has(text, i) || Has(rest, i)
  {
    hide Has;
    IndentShape(text, rest);
    HasNothing(i);
    HasSplit([], ' ', [] + [' '] + text, i);
    HasSplit([], ' ', text, i);
    HasSplit([], '\n', rest, i);
    HasSplit([] + [' '] + ([] + [' '] + text), ';', [] + ['\n'] + rest, i);
  }

  lemma {:induction false} DeclarationsHave(ds: seq<Declaration>, i: nat)
    requires i < |UNSAFE_FRAGMENTS| && CleanDeclarations(ds)
    ensures Has(PrintDeclarations(ds), i) <==> NamesHave(ds, i)
  {
    if ds == [] {
      HasNothing(i);
    } else {
      assert CleanDeclaration(ds[0]);
      assert forall k :: 0 <= k < |ds[1..]| ==> ds[1..][k] == ds[k + 1];
      hide Has, CleanDeclaration;
      DeclarationsHave(ds[1..], i);
      DeclarationHas(ds[0], i);
      LineHas(PrintDeclaration(ds[0]), PrintDeclarations(ds[1..]), i);
      NamesHaveTail(ds, i);
    }
  }

  lemma NamesHaveTail(ds: seq<Declaration>, i: nat)
    requires i < |UNSAFE_FRAGMENTS| && ds != []
    ensures NamesHave(ds, i) <==> Has(Name(ds[0]), i) || NamesHave(ds[1..], i)
  {
    hide Has;
    if NamesHave(ds[1..], i) {
      var k :| 0 <= k < |ds[1..]| && Has(Name(ds[1..][k]), i);
      assert Has(Name(ds[k + 1]), i);
    }
    if k :| 1 <= k < |ds| && Has(Name(ds[k]), i) {
      assert Has(Name(ds[1..][k - 1]), i);
    }
  }

  // ---------- selectors ----------

  /** A character of each fragment that no allowed selector holds. */
  function Missing(selector: string, i: nat): char
    requires i < |UNSAFE_FRAGMENTS|
  {
    if i == 0 || i == 2 then '('
    else if i == 1 then '@'
    else if i == 3 then if selector == ":root" then 'b' else ':'
    else if i == 4 then 'j'
    else if i == 5 then if selector == ":root" then 'd' else ':'
    else 'z'
  }

  lemma SelectorLower(selector: string)
    requires AllowedSelector(selector)
    ensures ToLower(selector) == selector
  {
    hide ToLower;
    assert forall k :: 0 <= k < |selector| ==> !('A' <= selector[k] <= 'Z');
    assert ToLower(selector) == selector;
  }

  lemma MissingIsMissing(selector: string, i: nat)
    requires AllowedSelector(selector) && i < |UNSAFE_FRAGMENTS|
    ensures Missing(selector, i) in UNSAFE_FRAGMENTS[i] && Missing(selector, i) !in selector
  {
  }

  lemma SelectorHasNone(selector: string, i: nat)
    requires AllowedSelector(selector) && i < |UNSAFE_FRAGMENTS|
    ensures !Has(selector, i)
  {
    hide ToLower, Contains;
    SelectorLower(selector);
    MissingIsMissing(selector, i);
    hide AllowedSelector, Missing;
    Lacking(selector, UNSAFE_FRAGMENTS[i], Missing(selector, i));
  }

  lemma JoinedHas(a: string, rest: string, i: nat)
    requires i < |UNSAFE_FRAGMENTS|
    ensures Has(a + ", " + rest, i) <==> Has(a, i) || Has(rest, i)
  {
    hide Has;
    assert a + ", " + rest == a + [','] + ([] + [' '] + rest);
    HasNothing(i);
    HasSplit([], ' ', rest, i);
    HasSplit(a, ',', [] + [' '] + rest, i);
  }

  lemma JoinTwo(parts: seq<string>, sep: string)
    requires |parts| > 1
    ensures Join(parts, sep) == parts[0] + sep + Join(parts[1..], sep)
  {
  }

  lemma JoinOne(parts: seq<string>, sep: string)
    requires |parts| <= 1
    ensures Join(parts, sep) == if parts == [] then "" else parts[0]
  {
  }

  lemma {:induction false} SelectorsHaveNone(selectors: seq<string>, i: nat)
    requires AllowedSelectors(selectors) && i < |UNSAFE_FRAGMENTS|
    ensures !Has(Join(selectors, ", "), i)
  {
    hide Has, AllowedSelector, Join;
    if selectors == [] {
      JoinOne(selectors, ", ");
      HasNothing(i);
    } else {
      SelectorHasNone(selectors[0], i);
      if |selectors| == 1 {
        JoinOne(selectors, ", ");
      } else {
        SelectorsHaveNone(selectors[1..], i);
        JoinTwo(selectors, ", ");
        JoinedHas(selectors[0], Join(selectors[1..], ", "), i);
      }
    }
  }

  // ---------- whole sheets ----------

  lemma RuleShape2(names: string, body: string, rest: string)
    ensures names + " {\n" + body + "}\n" + rest ==
            (names + [' '] + ([] + ['{'] + ([] + ['\n'] + body))) + ['}'] + ([] + ['\n'] + rest)
  {
  }

  lemma RuleHas(r: Rule, rest: string, i: nat)
    requires i < |UNSAFE_FRAGMENTS| && CleanRule(r)
    ensures Has(PrintRule(r) + rest, i) <==> NamesHave(r.declarations, i) || Has(rest, i)
  {
    hide Has, CleanDeclarations, AllowedSelectors, NamesHave;
    var names, body := Join(r.selectors, ", "), PrintDeclarations(r.declarations);
    RuleShape2(names, body, rest);
    SelectorsHaveNone(r.selectors, i);
    DeclarationsHave(r.declarations, i);
    HasNothing(i);
    HasSplit([], '\n', body, i);
    HasSplit([], '{', [] + ['\n'] + body, i);
    HasSplit(names, ' ', [] + ['{'] + ([] + ['\n'] + body), i);
    HasSplit([], '\n', rest, i);
    HasSplit(names + [' '] + ([] + ['{'] + ([] + ['\n'] + body)), '}', [] + ['\n'] + rest, i);
  }

  ghost predicate RulesHave(rules: seq<Rule>, i: nat)
    requires i < |UNSAFE_FRAGMENTS|
  {
    exists k :: 0 <= k < |rules| && NamesHave(rules[k].declarations, i)
  }

  lemma {:induction false} SheetHas(rules: seq<Rule>, i: nat)
    requires i < |UNSAFE_FRAGMENTS| && CleanRules(rules)
    ensures Has(PrintRules(rules), i) <==> RulesHave(rules, i)
  {
    if rules == [] {
      HasNothing(i);
    } else {
      assert CleanRule(rules[0]);
      assert forall k :: 0 <= k < |rules[1..]| ==> rules[1..][k] == rules[k + 1];
      hide Has, CleanRule, NamesHave, PrintRule;
      SheetHas(rules[1..], i);
      RuleHas(rules[0], PrintRules(rules[1..]), i);
      RulesHaveTail(rules, i);
    }
  }

  lemma RulesHaveTail(rules: seq<Rule>, i: nat)
    requires i < |UNSAFE_FRAGMENTS| && rules != []
    ensures RulesHave(rules, i) <==> NamesHave(rules[0].declarations, i) || RulesHave(rules[1..], i)
  {
    hide NamesHave;
    if RulesHave(rules[1..], i) {
      var k :| 0 <= k < |rules[1..]| && NamesHave(rules[1..][k].declarations, i);
      assert NamesHave(rules[k + 1].declarations, i);
    }
    if k :| 1 <= k < |rules| && NamesHave(rules[k].declarations, i) {
      assert NamesHave(rules[1..][k - 1].declarations, i);
    }
  }

  /** Some accepted declaration's name, with its colon, holds an unsafe fragment. */
  ghost predicate UnsafeName(rules: seq<Rule>) {
    exists k :: 0 <= k < |rules| && exists j :: 0 <= j < |rules[k].declarations| && Unsafe(Name(rules[k].declarations[j]))
  }

  lemma UnsafeNameMeans(rules: seq<Rule>)
    ensures UnsafeName(rules) <==> exists i :: 0 <= i < |UNSAFE_FRAGMENTS| && RulesHave(rules, i)
  {
    hide Has, Name;
    if UnsafeName(rules) {
      var k, j :| 0 <= k < |rules| && 0 <= j < |rules[k].declarations| && Unsafe(Name(rules[k].declarations[j]));
      var i: nat :| i < |UNSAFE_FRAGMENTS| && Has(Name(rules[k].declarations[j]), i);
      assert NamesHave(rules[k].declarations, i) && RulesHave(rules, i);
    }
    if i :| 0 <= i < |UNSAFE_FRAGMENTS| && RulesHave(rules, i) {
      var k :| 0 <= k < |rules| && NamesHave(rules[k].declarations, i);
      var j :| 0 <= j < |rules[k].declarations| && Has(Name(rules[k].declarations[j]), i);
      assert Unsafe(Name(rules[k].declarations[j]));
    }
  }

  /** The printed sheet contains an unsafe fragment if and only if the name of some
      accepted declaration does, counting the colon printed after it: values, selectors
      and the joints between them never contribute one. */
  lemma UnsafeOnlyInNames(css: string)
    ensures Unsafe(PrintRules(Rules(css))) <==> UnsafeName(Rules(css))
  {
    RulesAreClean(css);
    UnsafeSheet(Rules(css));
  }

  lemma UnsafeSheet(rules: seq<Rule>)
    requires CleanRules(rules)
    ensures Unsafe(PrintRules(rules)) <==> UnsafeName(rules)
  {
    hide Has, PrintRules, CleanRules, RulesHave, UnsafeName;
    UnsafeNameMeans(rules);
    forall i: nat | i < |UNSAFE_FRAGMENTS|
      ensures Has(PrintRules(rules), i) <==> RulesHave(rules, i)
    {
      SheetHas(rules, i);
    }
  }

  const ODD := Declaration("font-url(x", "1")

  /** Such names do get through: "font-url(x" is an accepted property. */
  lemma UnsafeNameGetsThrough() returns (css: string)
    ensures Rules(css) == [Rule([":root"], [ODD])]
    ensures PrintRules(Rules(css)) == css && Unsafe(css)
  {
    var rules := [Rule([":root"], [ODD])];
    OddNameIsClean();
    css := PrintRules(rules);
    hide PrintRules, Rules, CleanDeclaration, Unsafe;
    assert CleanRules(rules);
    ReadUndoesPrint(rules);
    OddNameIsUnsafe();
    assert Unsafe(Name(rules[0].declarations[0])) && UnsafeName(rules);
    UnsafeSheet(rules);
  }

  lemma OddNameIsClean()
    ensures CleanDeclaration(ODD)
  {
    OddLower();
    OddAllowed();
    OneIsSafe();
    hide ToLower, SafeValue, AllowedProperty;
  }

  lemma OddAllowed()
    ensures AllowedProperty(ODD.property)
  {
    assert ODD.property[..5] == "font-";
    assert HasPrefix(ODD.property, "font-");
  }

  lemma OddLower()
    ensures ToLower(ODD.property) == ODD.property
  {
    hide ToLower;
    var p := ODD.property;
    assert forall k :: 0 <= k < |p| ==> !('A' <= p[k] <= 'Z');
    assert ToLower(p) == p;
  }

  lemma OneIsSafe()
    ensures SafeValue("1")
  {
    hide Contains;
    Lacking("1", "\\", '\\');
    assert ToLower("1") == "1";
    hide ToLower;
    forall i | 0 <= i < |UNSAFE_FRAGMENTS|
      ensures !Contains("1", UNSAFE_FRAGMENTS[i])
    {
      Lacking("1", UNSAFE_FRAGMENTS[i], UNSAFE_FRAGMENTS[i][0]);
    }
  }

  lemma OddNameIsUnsafe()
    ensures Unsafe(Name(ODD))
  {
    var n := Name(ODD);
    var l := ToLower(n);
    hide ToLower;
    assert UNSAFE_FRAGMENTS[0] == "url(";
    assert l[5] == 'u' && l[6] == 'r' && l[7] == 'l' && l[8] == '(';
    assert l[5..9] == "url(";
    Occurs(l, "url(", 5);
    assert Has(n, 0);
  }
}
