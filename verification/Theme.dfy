/** The theme style-sheet sanitizer (internal/shellui/server.go): comments are
    stripped, the rest is read as rules, filtered against allow lists and printed.
    The main result is that its outputs are exactly its fixed points. */
module Theme {
  import opened Text

  datatype Declaration = Declaration(property: string, value: string)

  datatype Rule = Rule(selectors: seq<string>, declarations: seq<Declaration>)

  /** What one ';'-separated piece of a block turns into. */
  datatype Piece = Skip | Stripped(warning: string) | Keep(declaration: Declaration)

  // ---------- comments ----------

  function StripComments(css: string): (r: string)
    ensures |r| <= |css|
    decreases |css|
  {
    var start := Index(css, "/*");
    if start < 0 then css
    else
      var rest := css[start + 2..];
      var end := Index(rest, "*/");
      if end < 0 then css[..start] else StripComments(css[..start] + rest[end + 2..])
  }

  method StripCSSComments(css: string) returns (r: string)
    ensures r == StripComments(css)
    ensures NoComment(r)
  {
    r := css;
    while true
      invariant StripComments(r) == StripComments(css)
      decreases |r|
    {
      var start := Index(r, "/*");
      if start < 0 {
        break;
      }
      var rest := r[start + 2..];
      var end := Index(rest, "*/");
      if end < 0 {
        r := r[..start];
        break;
      }
      r := r[..start] + rest[end + 2..];
    }
    StrippedHasNoComment(css);
  }

  ghost predicate NoComment(s: string) {
    forall i :: 0 <= i < |s| - 1 && s[i] == '/' ==> s[i + 1] != '*'
  }

  lemma NoCommentIndex(s: string)
    ensures NoComment(s) <==> Index(s, "/*") < 0
  {
    forall i: nat | i < |s| - 1
      ensures OccursAt(s, "/*", i) <==> s[i] == '/' && s[i + 1] == '*'
    {
      assert s[i..i + 2] == [s[i], s[i + 1]];
    }
    var r := Index(s, "/*");
    if r >= 0 {
      assert OccursAt(s, "/*", r);
      assert s[r] == '/' && s[r + 1] == '*';
    } else {
      assert forall i: nat :: !OccursAt(s, "/*", i);
    }
  }

  lemma {:induction false} StrippedHasNoComment(css: string)
    ensures NoComment(StripComments(css))
    decreases |css|
  {
    hide Index, NoComment;
    var start := Index(css, "/*");
    if start < 0 {
      NoCommentIndex(css);
    } else {
      var rest := css[start + 2..];
      var end := Index(rest, "*/");
      if end < 0 {
        NoCommentBefore(css, start);
      } else {
        StrippedHasNoComment(css[..start] + rest[end + 2..]);
      }
    }
  }

  lemma NoCommentBefore(s: string, start: nat)
    requires start <= |s| && forall j: nat :: j < start ==> !OccursAt(s, "/*", j)
    ensures NoComment(s[..start])
  {
    forall i | 0 <= i < start - 1 && s[i] == '/'
      ensures s[i + 1] != '*'
    {
      assert !OccursAt(s, "/*", i);
      assert s[i..i + 2] == [s[i], s[i + 1]];
    }
  }

  // ---------- allow lists ----------

  predicate AllowedSelector(selector: string) {
    selector in [
      ":root", ".shell-taskbar", ".shell-clock", ".shell-notification-center", ".shell-agent-health", ".shell-background"]
  }

  const ALLOWED_PROPERTIES: seq<string> := [
    "color", "background", "opacity", "margin", "padding", "box-shadow", "backdrop-filter", "filter"]

  const UNSAFE_FRAGMENTS: seq<string> := [
    "url(", "@import", "expression(", "behavior:", "javascript:", "data:", "-moz-binding"]

  predicate AllowedSelectors(selectors: seq<string>) {
    forall i :: 0 <= i < |selectors| ==> AllowedSelector(selectors[i])
  }

  predicate AllowedProperty(property: string) {
    property in ALLOWED_PROPERTIES || HasPrefix(property, "border-") || HasPrefix(property, "font-")
  }

  predicate SafeValue(value: string) {
    !Contains(value, "\\") &&
    forall i :: 0 <= i < |UNSAFE_FRAGMENTS| ==> !Contains(ToLower(value), UNSAFE_FRAGMENTS[i])
  }

  // ---------- reading ----------

  function KeepNames(parts: seq<string>): seq<string> {
    if parts == [] then []
    else
      var name := TrimSpace(parts[0]);
      (if name != "" then [name] else []) + KeepNames(parts[1..])
  }

  method NormalizeSelectors(raw: string) returns (selectors: seq<string>)
    ensures selectors == KeepNames(Split(raw, ','))
  {
    selectors := [];
    var parts := Split(raw, ',');
    for i := 0 to |parts|
      invariant selectors + KeepNames(parts[i..]) == KeepNames(parts)
    {
      var selector := TrimSpace(parts[i]);
      assert parts[i..][1..] == parts[i + 1..];
      if selector != "" {
        selectors := selectors + [selector];
      }
    }
  }

  function ReadDeclaration(piece: string): Piece {
    var cut := Cut(piece, ':');
    var property := ToLower(TrimSpace(cut.before));
    var value := TrimSpace(cut.after);
    if !cut.found || property == "" || value == "" then Skip
    else if !AllowedProperty(property) then Stripped("stripped property " + property)
    else if !SafeValue(value) then Stripped("stripped unsafe value for " + property)
    else Keep(Declaration(property, value))
  }

  function ReadDeclarations(pieces: seq<string>): (seq<Declaration>, seq<string>) {
    if pieces == [] then ([], [])
    else
      var (kept, warnings) := ReadDeclarations(pieces[1..]);
      match ReadDeclaration(pieces[0])
      case Skip => (kept, warnings)
      case Stripped(w) => (kept, [w] + warnings)
      case Keep(d) => ([d] + kept, warnings)
  }

  lemma ReadNoDeclarations()
    ensures ReadDeclarations([]) == ([], [])
  {
  }

  lemma ReadDeclarationsStep(pieces: seq<string>, i: nat)
    requires i < |pieces|
    ensures var (kept, warnings) := ReadDeclarations(pieces[i + 1..]);
      ReadDeclarations(pieces[i..]) ==
      match ReadDeclaration(pieces[i])
      case Skip => (kept, warnings)
      case Stripped(w) => (kept, [w] + warnings)
      case Keep(d) => ([d] + kept, warnings)
  {
    hide ReadDeclaration;
    assert pieces[i..][1..] == pieces[i + 1..];
  }

  method SanitizeDeclarations(raw: string) returns (declarations: seq<Declaration>, warnings: seq<string>)
    ensures (declarations, warnings) == ReadDeclarations(Split(raw, ';'))
  {
    hide ReadDeclaration, ReadDeclarations, Split;
    declarations, warnings := [], [];
    var pieces := Split(raw, ';');
    for i := 0 to |pieces|
      invariant declarations + ReadDeclarations(pieces[i..]).0 == ReadDeclarations(pieces).0
      invariant warnings + ReadDeclarations(pieces[i..]).1 == ReadDeclarations(pieces).1
    {
      ReadDeclarationsStep(pieces, i);
      match ReadDeclaration(pieces[i]) {
        case Skip =>
        case Stripped(w) => warnings := warnings + [w];
        case Keep(d) => declarations := declarations + [d];
      }
    }
    assert pieces[|pieces|..] == [];
    ReadNoDeclarations();
    assert declarations + [] == declarations && warnings + [] == warnings;
  }

  function ReadBlock(block: string): (Option<Rule>, seq<string>) {
    var cut := Cut(block, '{');
    if !cut.found then (None, [])
    else
      var selectors := KeepNames(Split(cut.before, ','));
      if selectors == [] || !AllowedSelectors(selectors) then
        (None, ["stripped selector " + TrimSpace(cut.before)])
      else
        var (declarations, warnings) := ReadDeclarations(Split(cut.after, ';'));
        (if declarations == [] then None else Some(Rule(selectors, declarations)), warnings)
  }

  function ReadBlocks(blocks: seq<string>): (seq<Rule>, seq<string>) {
    if blocks == [] then ([], [])
    else
      var (rules, warnings) := ReadBlocks(blocks[1..]);
      var (rule, w) := ReadBlock(blocks[0]);
      (if rule.Some? then [rule.value] + rules else rules, w + warnings)
  }

  // ---------- printing ----------

  function PrintDeclaration(d: Declaration): string {
    d.property + ": " + d.value
  }

  function PrintDeclarations(ds: seq<Declaration>): string {
    if ds == [] then "" else "  " + PrintDeclaration(ds[0]) + ";\n" + PrintDeclarations(ds[1..])
  }

  function PrintBody(r: Rule): string {
    Join(r.selectors, ", ") + " {\n" + PrintDeclarations(r.declarations)
  }

  function PrintRule(r: Rule): string {
    PrintBody(r) + "}\n"
  }

  function PrintRules(rules: seq<Rule>): string {
    if rules == [] then "" else PrintRule(rules[0]) + PrintRules(rules[1..])
  }

  function Rules(css: string): seq<Rule> {
    ReadBlocks(Split(StripComments(css), '}')).0
  }

  function Warnings(css: string): seq<string> {
    ReadBlocks(Split(StripComments(css), '}')).1
  }

  method WriteRule(text: string, rule: Rule) returns (r: string)
    ensures r == text + PrintRule(rule)
  {
    var ds := rule.declarations;
    r := text + (Join(rule.selectors, ", ") + " {\n");
    ghost var start := r;
    for j := 0 to |ds|
      invariant r + PrintDeclarations(ds[j..]) == start + PrintDeclarations(ds)
    {
      assert ds[j..][1..] == ds[j + 1..];
      r := r + ("  " + PrintDeclaration(ds[j]) + ";\n");
    }
    assert ds[|ds|..] == [] && r + "" == r;
    assert start + PrintDeclarations(ds) == text + PrintBody(rule);
    r := r + "}\n";
    assert text + PrintBody(rule) + "}\n" == text + PrintRule(rule);
  }

  /** One `selectors { declarations` block, appended to the text when it yields a rule. */
  method SanitizeBlock(text: string, block: string) returns (r: string, warnings: seq<string>)
    ensures var (rule, w) := ReadBlock(block);
      warnings == w && r == if rule.Some? then text + PrintRule(rule.value) else text
  {
    hide ReadDeclarations, KeepNames, AllowedSelectors, TrimSpace, Cut, Split, PrintRule;
    r, warnings := text, [];
    var cut := Cut(block, '{');
    if !cut.found {
      return;
    }
    var selectors := NormalizeSelectors(cut.before);
    if |selectors| == 0 || !AllowedSelectors(selectors) {
      warnings := ["stripped selector " + TrimSpace(cut.before)];
      return;
    }
    var declarations;
    declarations, warnings := SanitizeDeclarations(cut.after);
    if |declarations| == 0 {
      return;
    }
    r := WriteRule(text, Rule(selectors, declarations));
  }

  method SanitizeThemeCSS(css: string) returns (text: string, warnings: seq<string>)
    ensures text == PrintRules(Rules(css)) && warnings == Warnings(css)
  {
    hide ReadBlock, ReadBlocks, Split, StripComments, PrintRule, PrintRules;
    var stripped := StripCSSComments(css);
    text, warnings := "", [];
    NoBlocks();
    var blocks := Split(stripped, '}');
    assert blocks[0..] == blocks;
    for i := 0 to |blocks|
      invariant text + PrintRules(ReadBlocks(blocks[i..]).0) == PrintRules(ReadBlocks(blocks).0)
      invariant warnings + ReadBlocks(blocks[i..]).1 == ReadBlocks(blocks).1
    {
      BlockStep(blocks, i, text, warnings);
      var dropped;
      text, dropped := SanitizeBlock(text, blocks[i]);
      warnings := warnings + dropped;
    }
    assert blocks[|blocks|..] == [];
    assert text + "" == text && warnings + [] == warnings;
  }

  lemma NoBlocks()
    ensures ReadBlocks([]) == ([], []) && PrintRules([]) == ""
  {
  }

  /** One block moves its rule and its warnings from what is still to be read to what
      has been written. */
  lemma BlockStep(blocks: seq<string>, i: nat, text: string, warnings: seq<string>)
    requires i < |blocks|
    ensures var (rule, w) := ReadBlock(blocks[i]);
      var now, next := ReadBlocks(blocks[i..]), ReadBlocks(blocks[i + 1..]);
      && text + PrintRules(now.0) == (if rule.Some? then text + PrintRule(rule.value) else text) + PrintRules(next.0)
      && warnings + now.1 == (warnings + w) + next.1
  {
    hide ReadBlock, PrintRule;
    assert blocks[i..][1..] == blocks[i + 1..];
    var (rule, w) := ReadBlock(blocks[i]);
    var next := ReadBlocks(blocks[i + 1..]);
    if rule.Some? {
      assert ([rule.value] + next.0)[1..] == next.0;
      assert text + (PrintRule(rule.value) + PrintRules(next.0)) == (text + PrintRule(rule.value)) + PrintRules(next.0);
    }
    assert warnings + (w + next.1) == (warnings + w) + next.1;
  }

  // ---------- what survives the filter ----------

  ghost predicate CleanDeclaration(d: Declaration) {
    && d.property != "" && Trimmed(d.property) && ToLower(d.property) == d.property && AllowedProperty(d.property)
    && d.value != "" && Trimmed(d.value) && SafeValue(d.value)
    && Free(d.property, ':') && Free(d.property, ';') && Free(d.property, '}') && NoComment(d.property)
    && Free(d.value, ';') && Free(d.value, '}') && NoComment(d.value)
  }

  ghost predicate CleanDeclarations(ds: seq<Declaration>) {
    forall i :: 0 <= i < |ds| ==> CleanDeclaration(ds[i])
  }

  ghost predicate CleanRule(r: Rule) {
    r.selectors != [] && AllowedSelectors(r.selectors) && r.declarations != [] && CleanDeclarations(r.declarations)
  }

  ghost predicate CleanRules(rules: seq<Rule>) {
    forall i :: 0 <= i < |rules| ==> CleanRule(rules[i])
  }

  /** A piece of text cut out of `s`: what any property of all characters, or of
      all neighbouring characters, of `s` passes on. */
  ghost predicate Within(t: string, s: string) {
    exists i: nat :: OccursAt(s, t, i)
  }

  ghost predicate Tame(s: string) {
    Free(s, '}') && NoComment(s)
  }

  lemma WithinKeeps(t: string, s: string)
    requires Within(t, s)
    ensures forall c :: Free(s, c) ==> Free(t, c)
    ensures NoComment(s) ==> NoComment(t)
  {
    var i: nat :| OccursAt(s, t, i);
    assert forall k :: 0 <= k < |t| ==> t[k] == s[i + k];
  }

  lemma WithinPart(a: string, t: string, b: string)
    ensures Within(t, a + t + b)
  {
    assert OccursAt(a + t + b, t, |a|);
  }

  lemma {:induction false} SplitParts(s: string, sep: char)
    ensures forall k :: 0 <= k < |Split(s, sep)| ==> Within(Split(s, sep)[k], s)
  {
    if s == [] {
      assert OccursAt(s, [], 0);
    } else {
      var rest := Split(s[1..], sep);
      SplitParts(s[1..], sep);
      SplitHead(s, sep);
      forall k | 0 <= k < |Split(s, sep)|
        ensures Within(Split(s, sep)[k], s)
      {
        var part := Split(s, sep)[k];
        if k == 0 {
          assert OccursAt(s, part, 0);
        } else {
          var j := if s[0] == sep then k - 1 else k;
          var i: nat :| OccursAt(s[1..], rest[j], i);
          assert s[1..][i..i + |part|] == s[i + 1..i + 1 + |part|];
          assert OccursAt(s, part, i + 1);
        }
      }
    }
  }

  lemma {:induction false} SplitHead(s: string, sep: char)
    ensures |Split(s, sep)[0]| <= |s| && Split(s, sep)[0] == s[..|Split(s, sep)[0]|]
  {
    if s != [] && s[0] != sep {
      SplitHead(s[1..], sep);
    }
  }

  lemma LowerKeeps(s: string)
    ensures forall c :: !('a' <= c <= 'z') && Free(s, c) ==> Free(ToLower(s), c)
    ensures NoComment(s) ==> NoComment(ToLower(s))
    ensures Trimmed(s) ==> Trimmed(ToLower(s))
  {
  }

  ghost predicate Inside(s: string) {
    Free(s, ';') && Free(s, '}') && NoComment(s)
  }

  lemma TrimKeeps(raw: string)
    requires Inside(raw)
    ensures Inside(TrimSpace(raw))
    ensures Free(raw, ':') ==> Free(TrimSpace(raw), ':')
  {
    assert Within(TrimSpace(raw), raw);
    WithinKeeps(TrimSpace(raw), raw);
  }

  /** Both sides of the cut inherit what holds of the whole piece. */
  lemma CutKeeps(piece: string)
    requires Inside(piece) && Cut(piece, ':').found
    ensures Inside(Cut(piece, ':').before) && Inside(Cut(piece, ':').after) && Free(Cut(piece, ':').before, ':')
  {
    hide NoComment, Within;
    var cut := Cut(piece, ':');
    assert [] + cut.before + ([':'] + cut.after) == piece;
    WithinPart([], cut.before, [':'] + cut.after);
    WithinKeeps(cut.before, piece);
    assert cut.before + [':'] + cut.after + [] == piece;
    WithinPart(cut.before + [':'], cut.after, []);
    WithinKeeps(cut.after, piece);
  }

  lemma ReadDeclarationClean(piece: string)
    requires Inside(piece)
    ensures ReadDeclaration(piece).Keep? ==> CleanDeclaration(ReadDeclaration(piece).declaration)
  {
    hide SafeValue, AllowedProperty, TrimSpace, ToLower, Cut, NoComment, Free, OccursAt;
    var cut := Cut(piece, ':');
    if cut.found {
      CutKeeps(piece);
      TrimKeeps(cut.before);
      TrimKeeps(cut.after);
      LowerKeeps(TrimSpace(cut.before));
      ToLowerIdempotent(TrimSpace(cut.before));
    }
  }

  lemma {:induction false} ReadDeclarationsClean(pieces: seq<string>)
    requires forall i :: 0 <= i < |pieces| ==> Inside(pieces[i])
    ensures CleanDeclarations(ReadDeclarations(pieces).0)
  {
    hide ReadDeclaration, CleanDeclaration, Inside;
    if pieces != [] {
      ReadDeclarationsClean(pieces[1..]);
      ReadDeclarationClean(pieces[0]);
    }
  }

  lemma ReadBlockClean(block: string)
    requires Tame(block)
    ensures ReadBlock(block).0.Some? ==> CleanRule(ReadBlock(block).0.value)
  {
    var cut := Cut(block, '{');
    if cut.found {
      assert cut.before + ['{'] + cut.after + [] == block;
      WithinPart(cut.before + ['{'], cut.after, []);
      WithinKeeps(cut.after, block);
      SplitParts(cut.after, ';');
      var pieces := Split(cut.after, ';');
      forall i | 0 <= i < |pieces|
        ensures Inside(pieces[i])
      {
        WithinKeeps(pieces[i], cut.after);
      }
      ReadDeclarationsClean(pieces);
    }
  }

  lemma {:induction false} ReadBlocksClean(blocks: seq<string>)
    requires forall i :: 0 <= i < |blocks| ==> Tame(blocks[i])
    ensures CleanRules(ReadBlocks(blocks).0)
  {
    hide Tame, CleanRule, ReadBlock;
    if blocks != [] {
      ReadBlocksClean(blocks[1..]);
      ReadBlockClean(blocks[0]);
    }
  }

  /** Whatever the input, only allow-listed selectors and properties with safe
      values reach the output. */
  lemma RulesAreClean(css: string)
    ensures CleanRules(Rules(css))
  {
    var stripped := StripComments(css);
    StrippedHasNoComment(css);
    SplitParts(stripped, '}');
    var blocks := Split(stripped, '}');
    forall i | 0 <= i < |blocks|
      ensures Tame(blocks[i])
    {
      WithinKeeps(blocks[i], stripped);
    }
    ReadBlocksClean(blocks);
  }

  // ---------- reading undoes printing ----------

  lemma SelectorShape(s: string)
    requires AllowedSelector(s)
    ensures s != "" && Trimmed(s)
    ensures Free(s, ',') && Free(s, '{') && Free(s, '}') && Free(s, '/')
  {
    SelectorCharacters(s);
    hide AllowedSelector;
  }

  lemma SelectorCharacters(s: string)
    requires AllowedSelector(s)
    ensures s != "" && forall i :: 0 <= i < |s| ==> s[i] == '-' || s[i] == '.' || s[i] == ':' || 'a' <= s[i] <= 'z'
  {
  }

  lemma {:induction false} JoinedSelectors(selectors: seq<string>)
    requires AllowedSelectors(selectors)
    ensures var text := Join(selectors, ", "); Free(text, '{') && Free(text, '}') && Free(text, '/')
  {
    if selectors != [] {
      SelectorShape(selectors[0]);
      JoinedSelectors(selectors[1..]);
    }
  }

  lemma CommaShape(pre: string, a: string, b: string, post: string)
    ensures pre + (a + ", " + b) + post == (pre + a) + [','] + (" " + b + post)
  {
  }

  lemma KeepNamesCons(head: string, tail: seq<string>)
    ensures KeepNames([head] + tail) == (if TrimSpace(head) != "" then [TrimSpace(head)] else []) + KeepNames(tail)
  {
    hide TrimSpace;
    assert ([head] + tail)[1..] == tail;
  }

  lemma SpacedIsFree(pre: string, s: string, post: string, c: char)
    requires AllSpace(pre) && AllSpace(post) && Free(s, c) && !IsSpace(c)
    ensures Free(pre + s + post, c)
  {
  }

  lemma ReadLastSelector(pre: string, name: string, post: string)
    requires AllSpace(pre) && AllSpace(post) && AllowedSelector(name)
    ensures KeepNames(Split(pre + name + post, ',')) == [name]
  {
    SelectorShape(name);
    assert KeepNames([]) == [];
    hide AllowedSelector, Split, TrimSpace, Free, AllSpace, KeepNames, Trimmed;
    var text := pre + name + post;
    SpacedIsFree(pre, name, post, ',');
    SplitFree(text, ',');
    TrimPad(pre, name, post);
    KeepNamesCons(text, []);
    assert [text] + [] == [text];
  }

  lemma ReadFirstSelector(pre: string, name: string, rest: string)
    requires AllSpace(pre) && AllowedSelector(name)
    ensures KeepNames(Split(pre + name + [','] + rest, ',')) == [name] + KeepNames(Split(rest, ','))
  {
    SelectorShape(name);
    assert AllSpace([]);
    hide AllowedSelector, Split, TrimSpace, Free, AllSpace;
    SpacedIsFree(pre, name, [], ',');
    assert pre + name + [] == pre + name;
    SplitCons(pre + name, ',', rest);
    TrimPad(pre, name, []);
    KeepNamesCons(pre + name, Split(rest, ','));
  }

  lemma {:induction false} ReadSelectors(pre: string, selectors: seq<string>, post: string)
    requires AllSpace(pre) && AllSpace(post)
    requires selectors != [] && AllowedSelectors(selectors)
    decreases selectors
    ensures KeepNames(Split(pre + Join(selectors, ", ") + post, ',')) == selectors
  {
    var first := selectors[0];
    assert AllowedSelector(first);
    assert AllSpace(" ");
    hide AllowedSelector, Split, KeepNames, AllSpace;
    if |selectors| == 1 {
      ReadLastSelector(pre, first, post);
    } else {
      var rest := Join(selectors[1..], ", ");
      ReadSelectors(" ", selectors[1..], post);
      CommaShape(pre, first, rest, post);
      ReadFirstSelector(pre, first, " " + rest + post);
    }
  }

  lemma ReadPrintedDeclaration(pre: string, d: Declaration)
    requires AllSpace(pre) && CleanDeclaration(d)
    ensures ReadDeclaration(pre + PrintDeclaration(d)) == Keep(d)
  {
    hide SafeValue, AllowedProperty, NoComment, TrimSpace, Cut, ToLower;
    assert pre + PrintDeclaration(d) == (pre + d.property) + [':'] + (" " + d.value);
    assert Free(pre + d.property, ':');
    CutAt(pre + d.property, ':', " " + d.value);
    assert pre + d.property + [] == pre + d.property;
    TrimPad(pre, d.property, []);
    assert " " + d.value + [] == " " + d.value;
    TrimPad(" ", d.value, []);
  }

  lemma SemicolonShape(pre: string, text: string, rest: string)
    ensures pre + ("  " + text + ";\n" + rest) == (pre + "  " + text) + [';'] + ("\n" + rest)
  {
  }

  lemma ReadDeclarationsCons(head: string, tail: seq<string>, d: Declaration)
    requires ReadDeclaration(head) == Keep(d)
    ensures ReadDeclarations([head] + tail) == ([d] + ReadDeclarations(tail).0, ReadDeclarations(tail).1)
  {
    hide ReadDeclaration;
    assert ([head] + tail)[1..] == tail;
  }

  lemma {:induction false} ReadPrintedDeclarations(pre: string, ds: seq<Declaration>)
    requires AllSpace(pre) && CleanDeclarations(ds)
    decreases ds
    ensures ReadDeclarations(Split(pre + PrintDeclarations(ds), ';')) == (ds, [])
  {
    hide SafeValue, AllowedProperty, ReadDeclaration, ReadDeclarations, NoComment, Split, TrimSpace;
    if ds == [] {
      assert pre + "" == pre;
      SplitFree(pre, ';');
      ReadSpace(pre);
    } else {
      var d := ds[0];
      var text := PrintDeclaration(d);
      var rest := PrintDeclarations(ds[1..]);
      SemicolonShape(pre, text, rest);
      FreeConcat(pre, "  ", ';');
      assert Free(text, ';');
      FreeConcat(pre + "  ", text, ';');
      SplitCons(pre + "  " + text, ';', "\n" + rest);
      ReadPrintedDeclarations("\n", ds[1..]);
      ReadPrintedDeclaration(pre + "  ", d);
      ReadDeclarationsCons(pre + "  " + text, Split("\n" + rest, ';'), d);
      assert [d] + ds[1..] == ds;
    }
  }

  lemma ReadSpace(pre: string)
    requires AllSpace(pre)
    ensures ReadDeclarations([pre]) == ([], [])
  {
    hide TrimSpace, Cut, SafeValue, AllowedProperty, ToLower;
    CutFree(pre, ':');
    assert [pre][1..] == [];
    ReadNoDeclarations();
  }

  lemma ReadSpaceBlock(pre: string)
    requires AllSpace(pre)
    ensures ReadBlocks([pre]) == ([], [])
  {
    hide KeepNames, Cut, ReadDeclarations, Split;
    CutFree(pre, '{');
    assert [pre][1..] == [];
    var none: seq<string> := [];
    assert ReadBlock(pre) == (None, none) && none + none == none;
    assert ReadBlocks([]) == ([], none);
  }

  lemma BraceShape(pre: string, names: string, rest: string)
    ensures pre + (names + " {\n" + rest) == (pre + names + " ") + ['{'] + ("\n" + rest)
  {
    var head := pre + names + " " + ['{'];
    assert " {\n" == " " + ['{'] + "\n";
    assert pre + (names + " {\n" + rest) == (pre + (names + " {\n")) + rest;
    assert pre + (names + " {\n") == head + "\n";
    assert (head + "\n") + rest == head + ("\n" + rest);
  }

  lemma ReadPrintedBody(pre: string, r: Rule)
    requires AllSpace(pre) && CleanRule(r)
    ensures ReadBlock(pre + PrintBody(r)) == (Some(r), [])
  {
    hide KeepNames, Split, ReadDeclarations, TrimSpace, CleanDeclaration, AllowedSelector;
    var names := Join(r.selectors, ", ");
    var body := "\n" + PrintDeclarations(r.declarations);
    JoinedSelectors(r.selectors);
    BraceShape(pre, names, PrintDeclarations(r.declarations));
    FreeConcat(pre, names, '{');
    FreeConcat(pre + names, " ", '{');
    CutAt(pre + names + " ", '{', body);
    ReadSelectors(pre, r.selectors, " ");
    ReadPrintedDeclarations("\n", r.declarations);
  }

  lemma NoCommentConcat(a: string, b: string)
    requires NoComment(a) && NoComment(b)
    requires a == "" || b == "" || a[|a| - 1] != '/' || b[0] != '*'
    ensures NoComment(a + b)
  {
  }

  lemma TameConcat(a: string, b: string)
    requires Tame(a) && Tame(b)
    requires a == "" || b == "" || a[|a| - 1] != '/' || b[0] != '*'
    ensures Tame(a + b)
  {
    FreeConcat(a, b, '}');
    NoCommentConcat(a, b);
  }

  lemma {:induction false} PrintedDeclarationsTame(ds: seq<Declaration>)
    requires CleanDeclarations(ds)
    ensures Tame(PrintDeclarations(ds))
  {
    hide SafeValue, AllowedProperty, Tame;
    if ds == [] {
      TameLiteral("");
    } else {
      var d := ds[0];
      PrintedDeclarationsTame(ds[1..]);
      TameLiteral("  ");
      TameLiteral(": ");
      TameLiteral(";\n");
      CleanIsTame(d);
      TameConcat(d.property, ": ");
      TameConcat(d.property + ": ", d.value);
      TameConcat("  ", PrintDeclaration(d));
      TameConcat("  " + PrintDeclaration(d), ";\n");
      TameConcat("  " + PrintDeclaration(d) + ";\n", PrintDeclarations(ds[1..]));
    }
  }

  lemma TameLiteral(s: string)
    requires |s| <= 2 && '}' !in s && '/' !in s
    ensures Tame(s)
  {
  }

  lemma CleanIsTame(d: Declaration)
    requires CleanDeclaration(d)
    ensures Tame(d.property) && Tame(d.value)
  {
  }

  lemma PrintedBodyTame(r: Rule)
    requires CleanRule(r)
    ensures Tame(PrintBody(r))
  {
    hide CleanDeclaration, AllowedSelector;
    JoinedSelectors(r.selectors);
    PrintedDeclarationsTame(r.declarations);
    var names := Join(r.selectors, ", ");
    assert Tame(names + " {\n");
    TameConcat(names + " {\n", PrintDeclarations(r.declarations));
  }

  lemma RuleShape(pre: string, body: string, rest: string)
    ensures pre + (body + "}\n" + rest) == (pre + body) + ['}'] + ("\n" + rest)
  {
    var head := pre + body + ['}'];
    assert "}\n" == ['}'] + "\n";
    assert pre + (body + "}\n" + rest) == (pre + (body + "}\n")) + rest;
    assert pre + (body + "}\n") == head + "\n";
    assert (head + "\n") + rest == head + ("\n" + rest);
  }

  lemma ReadBlocksCons(head: string, tail: seq<string>, r: Rule)
    requires ReadBlock(head) == (Some(r), [])
    ensures ReadBlocks([head] + tail) == ([r] + ReadBlocks(tail).0, ReadBlocks(tail).1)
  {
    hide ReadBlock;
    assert ([head] + tail)[1..] == tail;
    assert [] + ReadBlocks(tail).1 == ReadBlocks(tail).1;
  }

  lemma {:induction false} ReadPrintedRules(pre: string, rules: seq<Rule>)
    requires AllSpace(pre) && CleanRules(rules)
    decreases rules
    ensures ReadBlocks(Split(pre + PrintRules(rules), '}')) == (rules, [])
  {
    hide ReadBlock, ReadBlocks, CleanRule, Split;
    if rules == [] {
      assert pre + "" == pre;
      SplitFree(pre, '}');
      ReadSpaceBlock(pre);
    } else {
      var body, rest := PrintBody(rules[0]), PrintRules(rules[1..]);
      RuleShape(pre, body, rest);
      PrintedBodyTame(rules[0]);
      FreeConcat(pre, body, '}');
      SplitCons(pre + body, '}', "\n" + rest);
      ReadPrintedBody(pre, rules[0]);
      ReadPrintedRules("\n", rules[1..]);
      ReadBlocksCons(pre + body, Split("\n" + rest, '}'), rules[0]);
      assert [rules[0]] + rules[1..] == rules;
    }
  }

  lemma {:induction false} PrintedRulesHaveNoComment(rules: seq<Rule>)
    requires CleanRules(rules)
    ensures NoComment(PrintRules(rules))
  {
    hide CleanRule, PrintBody;
    if rules != [] {
      PrintedBodyTame(rules[0]);
      PrintedRulesHaveNoComment(rules[1..]);
      assert NoComment("}\n");
      NoCommentConcat(PrintBody(rules[0]), "}\n");
      NoCommentConcat(PrintRule(rules[0]), PrintRules(rules[1..]));
    }
  }

  /** Printing clean rules and reading them back gives the same rules, no warning. */
  lemma ReadUndoesPrint(rules: seq<Rule>)
    requires CleanRules(rules)
    ensures Rules(PrintRules(rules)) == rules && Warnings(PrintRules(rules)) == []
  {
    PrintedRulesHaveNoComment(rules);
    NoCommentIndex(PrintRules(rules));
    assert "" + PrintRules(rules) == PrintRules(rules);
    ReadPrintedRules("", rules);
  }

  /** Sanitizing a sanitized sheet changes no byte and warns about nothing. */
  lemma SanitizeIsFixedPoint(css: string)
    ensures var text := PrintRules(Rules(css)); PrintRules(Rules(text)) == text && Warnings(text) == []
  {
    RulesAreClean(css);
    ReadUndoesPrint(Rules(css));
  }

  /** The sheets the sanitizer leaves alone are exactly the printed clean rule lists. */
  lemma FixedPointsAreCleanSheets(css: string)
    ensures PrintRules(Rules(css)) == css <==> exists rules :: CleanRules(rules) && css == PrintRules(rules)
  {
    if PrintRules(Rules(css)) == css {
      RulesAreClean(css);
    }
    if exists rules :: CleanRules(rules) && css == PrintRules(rules) {
      var rules :| CleanRules(rules) && css == PrintRules(rules);
      ReadUndoesPrint(rules);
    }
  }
}
