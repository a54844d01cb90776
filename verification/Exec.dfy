/** The Exec-line lexer of desktop entries (internal/appcatalog/desktop_import.go)
    against the shell quoter (internal/appcatalog/catalog.go). */
module Exec {
  import opened Text

  // ---------- the lexer ----------

  datatype Lexer = Lexer(argv: seq<string>, word: string, quote: Option<char>, escaped: bool)

  const FRESH := Lexer([], "", None, false)

  function Flush(l: Lexer): Lexer {
    if l.word != "" then l.(argv := l.argv + [l.word], word := "") else l
  }

  function Put(l: Lexer, c: char): Lexer {
    l.(word := l.word + [c])
  }

  function Feed(l: Lexer, c: char): Lexer {
    if l.escaped then Put(l, c).(escaped := false)
    else if c == '\\' then l.(escaped := true)
    else if l.quote.Some? then if c == l.quote.value then l.(quote := None) else Put(l, c)
    else if c == '\'' || c == '"' then l.(quote := Some(c))
    else if IsSpace(c) then Flush(l)
    else Put(l, c)
  }

  function FeedAll(l: Lexer, s: string): Lexer
    decreases s
  {
    if s == "" then l else FeedAll(Feed(l, s[0]), s[1..])
  }

  const UNTERMINATED := "unterminated quote in Exec"

  function Finish(l: Lexer): (seq<string>, string) {
    var l1 := if l.escaped then Put(l, '\\') else l;
    if l1.quote.Some? then (l1.argv, UNTERMINATED) else (Flush(l1).argv, "")
  }

  function ParseExec(raw: string): (seq<string>, string) {
    Finish(FeedAll(FRESH, TrimSpace(raw)))
  }

  method ParseDesktopExec(line: string) returns (argv: seq<string>, error: string)
    ensures (argv, error) == ParseExec(line)
  {
    var raw := TrimSpace(line);
    argv, error := [], "";
    if raw == "" {
      return;
    }
    var word, quote, escaped := "", None, false;
    for i := 0 to |raw|
      invariant FeedAll(Lexer(argv, word, quote, escaped), raw[i..]) == FeedAll(FRESH, raw)
    {
      var r := raw[i];
      assert raw[i..][0] == r && raw[i..][1..] == raw[i + 1..];
      if escaped {
        word := word + [r];
        escaped := false;
        continue;
      }
      if r == '\\' {
        escaped := true;
        continue;
      }
      if quote != None {
        if r == quote.value {
          quote := None;
        } else {
          word := word + [r];
        }
        continue;
      }
      if r == '\'' || r == '"' {
        quote := Some(r);
        continue;
      }
      if IsSpace(r) {
        if |word| > 0 {
          argv := argv + [word];
          word := "";
        }
        continue;
      }
      word := word + [r];
    }
    assert raw[|raw|..] == "";
    if escaped {
      word := word + ['\\'];
    }
    if quote != None {
      error := UNTERMINATED;
      return;
    }
    if |word| > 0 {
      argv := argv + [word];
    }
  }

  // ---------- the quoter ----------

  /** Every single quote becomes: close, escaped quote, open. */
  function EscapeQuotes(s: string): string {
    if s == "" then "" else (if s[0] == '\'' then "'\\''" else [s[0]]) + EscapeQuotes(s[1..])
  }

  function ShellQuote(s: string): string {
    "'" + EscapeQuotes(s) + "'"
  }

  function Quoted(args: seq<string>): seq<string> {
    if args == [] then [] else [ShellQuote(args[0])] + Quoted(args[1..])
  }

  function CommandLine(args: seq<string>): string {
    Join(Quoted(args), " ")
  }

  // ---------- feeding pieces ----------

  lemma FeedOne(l: Lexer, c: char, rest: string)
    ensures FeedAll(l, [c] + rest) == FeedAll(Feed(l, c), rest)
  {
    assert ([c] + rest)[1..] == rest;
  }

  function InQuote(argv: seq<string>, word: string): Lexer {
    Lexer(argv, word, Some('\''), false)
  }

  /** The four characters an embedded quote turns into put that quote in the word. */
  lemma FeedQuoteQuote(argv: seq<string>, word: string, rest: string)
    ensures FeedAll(InQuote(argv, word), "'\\''" + rest) == FeedAll(InQuote(argv, word + ['\'']), rest)
  {
    var l := InQuote(argv, word);
    assert "'\\''" + rest == ['\''] + (['\\'] + (['\''] + (['\''] + rest)));
    FeedOne(l, '\'', ['\\'] + (['\''] + (['\''] + rest)));
    var l1 := Lexer(argv, word, None, false);
    FeedOne(l1, '\\', ['\''] + (['\''] + rest));
    var l2 := Lexer(argv, word, None, true);
    FeedOne(l2, '\'', ['\''] + rest);
    FeedOne(Lexer(argv, word + ['\''], None, false), '\'', rest);
  }

  lemma EscapeHead(s: string)
    requires s != ""
    ensures EscapeQuotes(s) == (if s[0] == '\'' then "'\\''" else [s[0]]) + EscapeQuotes(s[1..])
  {
  }

  /** Up to its first backslash, quoted text goes into the word unchanged. */
  lemma {:induction false} FeedGood(argv: seq<string>, word: string, s: string, tail: string)
    requires Free(s, '\\')
    ensures FeedAll(InQuote(argv, word), EscapeQuotes(s) + tail) == FeedAll(InQuote(argv, word + s), tail)
    decreases s
  {
    hide FeedAll;
    if s == "" {
      assert EscapeQuotes(s) + tail == tail && word + s == word;
    } else {
      EscapeHead(s);
      var rest := EscapeQuotes(s[1..]) + tail;
      FreeTail(s, '\\');
      if s[0] == '\'' {
        assert EscapeQuotes(s) + tail == "'\\''" + rest;
        FeedQuoteQuote(argv, word, rest);
      } else {
        assert EscapeQuotes(s) + tail == [s[0]] + rest;
        FeedOne(InQuote(argv, word), s[0], rest);
      }
      FeedGood(argv, word + [s[0]], s[1..], tail);
      assert word + [s[0]] + s[1..] == word + s;
    }
  }

  predicate Plain(s: string) {
    s != "" && forall i :: 0 <= i < |s| ==> s[i] != '\\'
  }

  /** One quoted argument, read from a clean state, ends as the current word. */
  lemma FeedQuoted(argv: seq<string>, s: string, rest: string)
    requires Plain(s)
    ensures FeedAll(Lexer(argv, "", None, false), ShellQuote(s) + rest) == FeedAll(Lexer(argv, s, None, false), rest)
  {
    hide FeedAll, EscapeQuotes;
    var l := Lexer(argv, "", None, false);
    var tail := "'" + rest;
    assert ShellQuote(s) + rest == ['\''] + (EscapeQuotes(s) + tail);
    FeedOne(l, '\'', EscapeQuotes(s) + tail);
    FeedGood(argv, "", s, tail);
    assert "" + s == s && tail == ['\''] + rest;
    FeedOne(InQuote(argv, s), '\'', rest);
  }

  lemma CommandLineCons(args: seq<string>)
    requires |args| >= 2
    ensures CommandLine(args) == ShellQuote(args[0]) + (" " + CommandLine(args[1..]))
  {
    hide ShellQuote;
    assert Quoted(args)[1..] == Quoted(args[1..]);
    assert Quoted(args[1..]) != [];
    assert ShellQuote(args[0]) + " " + CommandLine(args[1..]) == ShellQuote(args[0]) + (" " + CommandLine(args[1..]));
  }

  lemma CommandLineOne(args: seq<string>)
    requires |args| == 1
    ensures CommandLine(args) == ShellQuote(args[0])
  {
    assert Quoted(args[1..]) == [];
  }

  predicate AllPlain(args: seq<string>) {
    forall i :: 0 <= i < |args| ==> Plain(args[i])
  }

  lemma {:induction false} FeedCommandLine(argv: seq<string>, args: seq<string>)
    requires args != [] && AllPlain(args)
    ensures Finish(FeedAll(Lexer(argv, "", None, false), CommandLine(args))) == (argv + args, "")
    decreases args
  {
    hide FeedAll, ShellQuote, CommandLine;
    var a := args[0];
    if |args| == 1 {
      CommandLineOne(args);
      assert ShellQuote(a) + "" == ShellQuote(a);
      FeedQuoted(argv, a, "");
      FeedNothing(Lexer(argv, a, None, false));
      assert argv + [a] == argv + args;
    } else {
      var rest := CommandLine(args[1..]);
      CommandLineCons(args);
      FeedQuoted(argv, a, " " + rest);
      FeedOne(Lexer(argv, a, None, false), ' ', rest);
      FeedCommandLine(argv + [a], args[1..]);
      assert argv + [a] + args[1..] == argv + args;
    }
  }

  lemma FeedNothing(l: Lexer)
    ensures FeedAll(l, "") == l
  {
  }

  /** A command line starts and ends with a quote, so trimming leaves it alone. */
  lemma {:induction false} CommandLineTrimmed(args: seq<string>)
    ensures args != [] ==> CommandLine(args) != "" && CommandLine(args)[|CommandLine(args)| - 1] == '\'' && CommandLine(args)[0] == '\''
    ensures TrimSpace(CommandLine(args)) == CommandLine(args)
  {
    hide EscapeQuotes, TrimSpace, CommandLine;
    if |args| == 1 {
      CommandLineOne(args);
    } else if |args| >= 2 {
      CommandLineCons(args);
      CommandLineTrimmed(args[1..]);
    } else {
      EmptyCommandLine();
    }
    TrimOfTrimmed(CommandLine(args));
  }

  lemma EmptyCommandLine()
    ensures CommandLine([]) == ""
  {
  }

  /** Parsing the joined, quoted arguments gives the arguments back, without error,
      for every list of non-empty arguments free of backslashes. */
  lemma ParseOfQuoted(args: seq<string>)
    requires AllPlain(args)
    ensures ParseExec(CommandLine(args)) == (args, "")
  {
    hide FeedAll, CommandLine;
    CommandLineTrimmed(args);
    if args == [] {
      EmptyCommandLine();
      FeedNothing(FRESH);
    } else {
      FeedCommandLine([], args);
      assert [] + args == args;
    }
  }

  // ---------- the condition is exact ----------

  /** What has been read so far can still become `args`. */
  ghost predicate Alive(l: Lexer, args: seq<string>) {
    && l.argv <= args
    && (if |l.argv| < |args| then l.word <= args[|l.argv|] else l.word == "")
  }

  lemma {:induction false} DeadStaysDead(l: Lexer, args: seq<string>, s: string)
    requires !Alive(l, args)
    ensures !Alive(FeedAll(l, s), args)
    decreases s
  {
    hide Alive, Feed;
    if s != "" {
      DeadStep(l, args, s[0]);
      DeadStaysDead(Feed(l, s[0]), args, s[1..]);
    }
  }

  lemma DeadPut(l: Lexer, args: seq<string>, c: char)
    requires !Alive(l, args)
    ensures !Alive(Put(l, c), args)
  {
    assert (l.word + [c])[..|l.word|] == l.word;
  }

  lemma DeadFlush(l: Lexer, args: seq<string>)
    requires !Alive(l, args)
    ensures !Alive(Flush(l), args)
  {
    var flushed := l.argv + [l.word];
    assert flushed[..|l.argv|] == l.argv && flushed[|l.argv|] == l.word;
  }

  lemma DeadStep(l: Lexer, args: seq<string>, c: char)
    requires !Alive(l, args)
    ensures !Alive(Feed(l, c), args)
  {
    hide Put, Flush;
    DeadPut(l, args, c);
    DeadFlush(l, args);
  }

  lemma DeadFinish(l: Lexer, args: seq<string>)
    requires !Alive(l, args)
    ensures Finish(l) != (args, "")
  {
    DeadPut(l, args, '\\');
    var l1 := if l.escaped then Put(l, '\\') else l;
    DeadFlush(l1, args);
  }

  /** The raw text that is left of argument i when n of its characters were read. */
  function Remaining(a: string, n: nat, rest: string): string
    requires n <= |a|
  {
    EscapeQuotes(a[n..]) + ("'" + rest)
  }

  /** Inside the quotes of argument i, `m` characters of it are in the word and the next
      one expected is a backslash, but only backslashes were read beyond it. */
  ghost predicate Short(args: seq<string>, i: nat, m: nat, n: nat) {
    && i < |args| && m <= n <= |args[i]| && m < |args[i]| && args[i][m] == '\\' && (n > m ==> m >= 1)
    && forall k :: m <= k < n ==> args[i][k] == '\\'
  }

  lemma {:induction false} BackslashKills(args: seq<string>, i: nat, m: nat, n: nat, rest: string)
    requires Short(args, i, m, n)
    requires rest == "" || rest[0] == ' '
    ensures Finish(FeedAll(InQuote(args[..i], args[i][..m]), Remaining(args[i], n, rest))) != (args, "")
    decreases |args[i]| - n
  {
    hide FeedAll, Finish, EscapeQuotes, Remaining;
    var a := args[i];
    var l := InQuote(args[..i], a[..m]);
    if n == |a| {
      RemainingNone(a, rest);
      FeedOne(l, '\'', rest);
      ShortWord(args, i, m, rest);
    } else if a[n] == '\\' {
      var more := Remaining(a, n + 1, rest);
      RemainingPlain(a, n, rest);
      FeedOne(l, '\\', more);
      NextRawIs(a, n + 1, rest);
      var c := NextRaw(a, n + 1);
      FeedOne(l.(escaped := true), c, more[1..]);
      if n + 1 < |a| && a[n + 1] == '\\' {
        RemainingPlain(a, n + 1, rest);
        assert more[1..] == Remaining(a, n + 2, rest);
        assert a[..m] + ['\\'] == a[..m + 1];
        BackslashKills(args, i, m + 1, n + 2, rest);
      } else {
        WrongChar(args, i, m, InQuote(args[..i], a[..m] + [c]), c, more[1..]);
      }
    } else {
      OtherCharKills(args, i, m, n, rest);
    }
  }

  lemma RemainingNone(a: string, rest: string)
    ensures Remaining(a, |a|, rest) == ['\''] + rest
  {
    assert a[|a|..] == "";
  }

  lemma RemainingPlain(a: string, n: nat, rest: string)
    requires n < |a| && a[n] != '\''
    ensures Remaining(a, n, rest) == [a[n]] + Remaining(a, n + 1, rest)
  {
    EscapeHead(a[n..]);
    assert a[n..][1..] == a[n + 1..];
  }

  lemma RemainingQuote(a: string, n: nat, rest: string)
    requires n < |a| && a[n] == '\''
    ensures Remaining(a, n, rest) == "'\\''" + Remaining(a, n + 1, rest)
  {
    EscapeHead(a[n..]);
    assert a[n..][1..] == a[n + 1..];
  }

  lemma OtherCharKills(args: seq<string>, i: nat, m: nat, n: nat, rest: string)
    requires Short(args, i, m, n) && n < |args[i]| && args[i][n] != '\\'
    ensures Finish(FeedAll(InQuote(args[..i], args[i][..m]), Remaining(args[i], n, rest))) != (args, "")
  {
    hide FeedAll, Finish, EscapeQuotes, Remaining;
    var a := args[i];
    var more := Remaining(a, n + 1, rest);
    if a[n] == '\'' {
      RemainingQuote(a, n, rest);
      FeedQuoteQuote(args[..i], a[..m], more);
    } else {
      RemainingPlain(a, n, rest);
      FeedOne(InQuote(args[..i], a[..m]), a[n], more);
    }
    WrongChar(args, i, m, InQuote(args[..i], a[..m] + [a[n]]), a[n], more);
  }

  /** The raw character after position n of a quoted argument. */
  function NextRaw(a: string, n: nat): char
    requires n <= |a|
  {
    if n < |a| then a[n] else '\''
  }

  lemma NextRawIs(a: string, n: nat, rest: string)
    requires n <= |a|
    ensures var s := Remaining(a, n, rest); s != "" && s[0] == NextRaw(a, n) && s == [s[0]] + s[1..]
  {
  }

  /** A word that continues with anything but the expected backslash is dead. */
  lemma WrongChar(args: seq<string>, i: nat, m: nat, l: Lexer, c: char, s: string)
    requires i < |args| && m < |args[i]| && args[i][m] == '\\' && c != '\\'
    requires l.argv == args[..i] && l.word == args[i][..m] + [c]
    ensures Finish(FeedAll(l, s)) != (args, "")
  {
    hide FeedAll, Finish;
    assert l.word[m] == c;
    assert !Alive(l, args);
    DeadStaysDead(l, args, s);
    DeadFinish(FeedAll(l, s), args);
  }

  /** A word cut short by the end of its quotes is dead. */
  lemma ShortWord(args: seq<string>, i: nat, m: nat, rest: string)
    requires i < |args| && 1 <= m < |args[i]| && (rest == "" || rest[0] == ' ')
    ensures Finish(FeedAll(Lexer(args[..i], args[i][..m], None, false), rest)) != (args, "")
  {
    var l := Lexer(args[..i], args[i][..m], None, false);
    var flushed := args[..i] + [args[i][..m]];
    assert flushed[i] == args[i][..m] != args[i];
    if rest == "" {
    } else {
      assert Feed(l, ' ').argv == flushed;
      assert !Alive(Feed(l, ' '), args);
      DeadStaysDead(Feed(l, ' '), args, rest[1..]);
      hide Finish;
      DeadFinish(FeedAll(l, rest), args);
    }
  }

  lemma FirstBackslash(s: string) returns (k: nat)
    requires s != "" && !Plain(s)
    ensures k < |s| && s[k] == '\\' && Free(s[..k], '\\')
  {
    k := 0;
    while s[k] != '\\'
      invariant k < |s| && Free(s[..k], '\\')
      invariant exists j :: k <= j < |s| && s[j] == '\\'
      decreases |s| - k
    {
      assert s[..k + 1] == s[..k] + [s[k]];
      k := k + 1;
    }
  }

  lemma {:induction false} BadArgumentKills(args: seq<string>, i: nat)
    requires i < |args| && (forall k :: 0 <= k < |args| ==> args[k] != "")
    requires exists k :: i <= k < |args| && !Plain(args[k])
    ensures Finish(FeedAll(Lexer(args[..i], "", None, false), CommandLine(args[i..]))) != (args, "")
    decreases |args| - i
  {
    hide FeedAll, Finish, CommandLine, EscapeQuotes;
    var a := args[i];
    var l := Lexer(args[..i], "", None, false);
    var rest := if i + 1 == |args| then "" else " " + CommandLine(args[i + 1..]);
    if i + 1 == |args| {
      CommandLineOne(args[i..]);
    } else {
      CommandLineCons(args[i..]);
      assert args[i..][1..] == args[i + 1..];
    }
    assert CommandLine(args[i..]) == ShellQuote(a) + rest;
    if Plain(a) {
      FeedQuoted(args[..i], a, rest);
      FeedOne(Lexer(args[..i], a, None, false), ' ', CommandLine(args[i + 1..]));
      assert args[..i] + [a] == args[..i + 1];
      BadArgumentKills(args, i + 1);
    } else {
      var k := FirstBackslash(a);
      var tail := "'" + rest;
      assert ShellQuote(a) + rest == ['\''] + (EscapeQuotes(a) + tail);
      FeedOne(l, '\'', EscapeQuotes(a) + tail);
      EscapeConcat(a[..k], a[k..]);
      assert a[..k] + a[k..] == a;
      assert EscapeQuotes(a) + tail == EscapeQuotes(a[..k]) + (EscapeQuotes(a[k..]) + tail);
      FeedGood(args[..i], "", a[..k], EscapeQuotes(a[k..]) + tail);
      assert "" + a[..k] == a[..k];
      BackslashKills(args, i, k, k, rest);
    }
  }

  lemma {:induction false} EscapeConcat(a: string, b: string)
    ensures EscapeQuotes(a + b) == EscapeQuotes(a) + EscapeQuotes(b)
  {
    if a == "" {
      assert a + b == b;
    } else {
      assert (a + b)[1..] == a[1..] + b;
      EscapeConcat(a[1..], b);
    }
  }

  /** The lexer never produces an empty argument. */
  lemma {:induction false} NoEmptyArguments(l: Lexer, s: string)
    requires forall a :: a in l.argv ==> a != ""
    ensures forall a :: a in Finish(FeedAll(l, s)).0 ==> a != ""
    decreases s
  {
    if s != "" {
      NoEmptyArguments(Feed(l, s[0]), s[1..]);
    }
  }

  /** The lexer undoes the quoter on a list of arguments exactly when every one of
      them is non-empty and free of backslashes. */
  lemma RoundTripIff(args: seq<string>)
    ensures ParseExec(CommandLine(args)) == (args, "") <==> AllPlain(args)
  {
    hide FeedAll, Finish, CommandLine;
    if AllPlain(args) {
      ParseOfQuoted(args);
    } else {
      CommandLineTrimmed(args);
      var k :| 0 <= k < |args| && !Plain(args[k]);
      if "" in args {
        NoEmptyArguments(FRESH, CommandLine(args));
      } else {
        assert args[0..] == args && args[..0] == [];
        BadArgumentKills(args, 0);
      }
    }
  }
}
