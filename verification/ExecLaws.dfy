/** The whole syntax of Exec lines the lexer reads without error, and its one error
    (internal/appcatalog/desktop_import.go). */
module ExecLaws {
  import opened Text
  import opened Exec

  /** What a word is made of: a character as it is, any character after a backslash, or a
      text between single or double quotes. */
  datatype Piece = Bare(c: char) | Escaped(c: char) | Single(s: string) | Double(s: string)

  predicate Good(p: Piece) {
    match p
    case Bare(c) => !IsSpace(c) && c != '\'' && c != '"' && c != '\\'
    case Escaped(_) => true
    case Single(s) => '\'' !in s && '\\' !in s
    case Double(s) => '"' !in s && '\\' !in s
  }

  function Written(p: Piece): string {
    match p
    case Bare(c) => [c]
    case Escaped(c) => ['\\', c]
    case Single(s) => ['\''] + s + ['\'']
    case Double(s) => ['"'] + s + ['"']
  }

  function Meant(p: Piece): string {
    match p
    case Bare(c) => [c]
    case Escaped(c) => [c]
    case Single(s) => s
    case Double(s) => s
  }

  type Word = seq<Piece>

  function WordText(w: Word): string {
    if w == [] then "" else Written(w[0]) + WordText(w[1..])
  }

  function WordMeaning(w: Word): string {
    if w == [] then "" else Meant(w[0]) + WordMeaning(w[1..])
  }

  predicate GoodWord(w: Word) {
    forall i :: 0 <= i < |w| ==> Good(w[i])
  }

  /** Words, each with the white space that follows it. */
  function LineText(words: seq<Word>, gaps: seq<string>): string
    requires |gaps| == |words|
  {
    if words == [] then "" else WordText(words[0]) + gaps[0] + LineText(words[1..], gaps[1..])
  }

  /** Every gap is white space, and there is some between two words. */
  ghost predicate GoodLine(words: seq<Word>, gaps: seq<string>) {
    && |gaps| == |words|
    && (forall i :: 0 <= i < |words| ==> GoodWord(words[i]) && AllSpace(gaps[i]))
    && (forall i :: 0 <= i < |words| - 1 ==> gaps[i] != "")
  }

  /** The words' meanings; a word that means nothing, such as a pair of quotes, is no
      argument. */
  function Arguments(words: seq<Word>): seq<string> {
    if words == [] then []
    else (if WordMeaning(words[0]) != "" then [WordMeaning(words[0])] else []) + Arguments(words[1..])
  }

  // ---------- feeding pieces, words and gaps ----------

  lemma {:induction false} FeedQuoted(argv: seq<string>, word: string, q: char, s: string, rest: string)
    requires q == '\'' || q == '"'
    requires q !in s && '\\' !in s
    ensures FeedAll(Lexer(argv, word, Some(q), false), s + ([q] + rest)) == FeedAll(Lexer(argv, word + s, None, false), rest)
    decreases s
  {
    hide FeedAll;
    if s == "" {
      assert s + ([q] + rest) == [q] + rest && word + s == word;
      FeedOne(Lexer(argv, word, Some(q), false), q, rest);
    } else {
      assert s + ([q] + rest) == [s[0]] + (s[1..] + ([q] + rest));
      FeedOne(Lexer(argv, word, Some(q), false), s[0], s[1..] + ([q] + rest));
      FeedQuoted(argv, word + [s[0]], q, s[1..], rest);
      assert word + [s[0]] + s[1..] == word + s;
    }
  }

  lemma FeedPiece(argv: seq<string>, word: string, p: Piece, rest: string)
    requires Good(p)
    ensures FeedAll(Lexer(argv, word, None, false), Written(p) + rest) == FeedAll(Lexer(argv, word + Meant(p), None, false), rest)
  {
    hide FeedAll;
    var l := Lexer(argv, word, None, false);
    match p {
      case Bare(c) => FeedOne(l, c, rest);
      case Escaped(c) =>
        assert ['\\', c] + rest == ['\\'] + ([c] + rest);
        FeedOne(l, '\\', [c] + rest);
        FeedOne(Lexer(argv, word, None, true), c, rest);
      case Single(s) =>
        assert ['\''] + s + ['\''] + rest == ['\''] + (s + (['\''] + rest));
        FeedOne(l, '\'', s + (['\''] + rest));
        FeedQuoted(argv, word, '\'', s, rest);
      case Double(s) =>
        assert ['"'] + s + ['"'] + rest == ['"'] + (s + (['"'] + rest));
        FeedOne(l, '"', s + (['"'] + rest));
        FeedQuoted(argv, word, '"', s, rest);
    }
  }

  lemma {:induction false} FeedWord(argv: seq<string>, word: string, w: Word, rest: string)
    requires GoodWord(w)
    ensures FeedAll(Lexer(argv, word, None, false), WordText(w) + rest) == FeedAll(Lexer(argv, word + WordMeaning(w), None, false), rest)
    decreases w
  {
    hide FeedAll, Written, Meant, Good;
    if w == [] {
      assert WordText(w) + rest == rest && word + WordMeaning(w) == word;
    } else {
      assert WordText(w) + rest == Written(w[0]) + (WordText(w[1..]) + rest);
      FeedPiece(argv, word, w[0], WordText(w[1..]) + rest);
      FeedWord(argv, word + Meant(w[0]), w[1..], rest);
      assert word + Meant(w[0]) + WordMeaning(w[1..]) == word + WordMeaning(w);
    }
  }

  lemma {:induction false} FeedGap(argv: seq<string>, word: string, gap: string, rest: string)
    requires AllSpace(gap) && gap != ""
    ensures FeedAll(Lexer(argv, word, None, false), gap + rest) ==
            FeedAll(Lexer(if word != "" then argv + [word] else argv, "", None, false), rest)
    decreases gap
  {
    hide FeedAll;
    var next := if word != "" then argv + [word] else argv;
    assert gap + rest == [gap[0]] + (gap[1..] + rest);
    FeedOne(Lexer(argv, word, None, false), gap[0], gap[1..] + rest);
    if gap[1..] == "" {
      assert gap[1..] + rest == rest;
    } else {
      FeedGap(next, "", gap[1..], rest);
    }
  }

  lemma {:induction false} FeedLine(argv: seq<string>, words: seq<Word>, gaps: seq<string>)
    requires GoodLine(words, gaps)
    ensures Finish(FeedAll(Lexer(argv, "", None, false), LineText(words, gaps))) == (argv + Arguments(words), "")
    decreases words
  {
    hide FeedAll, WordText, WordMeaning, GoodWord, AllSpace;
    if words == [] {
      FeedNothing(Lexer(argv, "", None, false));
      assert argv + [] == argv;
    } else {
      var m, rest := WordMeaning(words[0]), LineText(words[1..], gaps[1..]);
      var next := if m != "" then argv + [m] else argv;
      assert LineText(words, gaps) == WordText(words[0]) + (gaps[0] + rest);
      FeedWord(argv, "", words[0], gaps[0] + rest);
      assert "" + m == m;
      assert next + Arguments(words[1..]) == argv + Arguments(words);
      if gaps[0] != "" {
        FeedGap(argv, m, gaps[0], rest);
        FeedLine(next, words[1..], gaps[1..]);
      } else {
        assert words[1..] == [];
        assert gaps[0] + rest == "";
        FeedNothing(Lexer(argv, m, None, false));
        assert next + [] == next;
      }
    }
  }

  /** Every line of words and gaps, once trimmed, is read as the meanings of its words and
      without error: quotes of either kind keep spaces and the other quote, a backslash
      keeps whatever follows it, and any white space separates. */
  lemma ParseOfWritten(words: seq<Word>, gaps: seq<string>)
    requires GoodLine(words, gaps) && Trimmed(LineText(words, gaps))
    ensures ParseExec(LineText(words, gaps)) == (Arguments(words), "")
  {
    hide FeedAll, LineText, Finish;
    TrimOfTrimmed(LineText(words, gaps));
    FeedLine([], words, gaps);
    assert [] + Arguments(words) == Arguments(words);
  }

  /** White space round a line does not matter. */
  lemma ParseTrims(pre: string, line: string, post: string)
    requires AllSpace(pre) && AllSpace(post) && Trimmed(line) && line != ""
    ensures ParseExec(pre + line + post) == ParseExec(line)
  {
    hide FeedAll, Finish, TrimSpace;
    TrimPad(pre, line, post);
    TrimOfTrimmed(line);
  }

  // ---------- the ends of a line ----------

  lemma {:induction false} FeedOpen(argv: seq<string>, word: string, q: char, s: string)
    requires (q == '\'' || q == '"') && q !in s && '\\' !in s
    ensures FeedAll(Lexer(argv, word, Some(q), false), s) == Lexer(argv, word + s, Some(q), false)
    decreases s
  {
    if s == "" {
      assert word + s == word;
    } else {
      FeedOpen(argv, word + [s[0]], q, s[1..]);
      assert word + [s[0]] + s[1..] == word + s;
    }
  }

  /** A quote that is never closed is the one error: the arguments before it are given,
      the word it stands in is not. */
  lemma OpenQuoteFails(words: seq<Word>, gaps: seq<string>, w: Word, q: char, s: string)
    requires GoodLine(words, gaps) && (words == [] || gaps[|gaps| - 1] != "") && GoodWord(w)
    requires (q == '\'' || q == '"') && q !in s && '\\' !in s
    ensures Finish(FeedAll(FRESH, LineText(words, gaps) + (WordText(w) + ([q] + s)))) == (Arguments(words), "unterminated quote in Exec")
  {
    hide FeedAll;
    FeedWords([], words, gaps, WordText(w) + ([q] + s));
    assert [] + Arguments(words) == Arguments(words);
    FeedWord(Arguments(words), "", w, [q] + s);
    FeedOne(Lexer(Arguments(words), "" + WordMeaning(w), None, false), q, s);
    FeedOpen(Arguments(words), "" + WordMeaning(w), q, s);
  }

  lemma {:induction false} FeedWords(argv: seq<string>, words: seq<Word>, gaps: seq<string>, rest: string)
    requires GoodLine(words, gaps) && (words == [] || gaps[|gaps| - 1] != "")
    ensures FeedAll(Lexer(argv, "", None, false), LineText(words, gaps) + rest) == FeedAll(Lexer(argv + Arguments(words), "", None, false), rest)
    decreases words
  {
    hide FeedAll, WordText, WordMeaning, GoodWord, AllSpace;
    if words == [] {
      assert LineText(words, gaps) + rest == rest && argv + [] == argv;
    } else {
      var m, line := WordMeaning(words[0]), LineText(words[1..], gaps[1..]);
      var next := if m != "" then argv + [m] else argv;
      assert LineText(words, gaps) + rest == WordText(words[0]) + (gaps[0] + (line + rest));
      FeedWord(argv, "", words[0], gaps[0] + (line + rest));
      assert "" + m == m;
      FeedGap(argv, m, gaps[0], line + rest);
      FeedWords(next, words[1..], gaps[1..], rest);
      assert next + Arguments(words[1..]) == argv + Arguments(words);
    }
  }

  /** A backslash at the very end stands for itself. */
  lemma LastBackslashStays(argv: seq<string>, word: string)
    ensures Finish(FeedAll(Lexer(argv, word, None, false), ['\\'])) == (argv + [word + ['\\']], "")
  {
    FeedOne(Lexer(argv, word, None, false), '\\', "");
    FeedNothing(Lexer(argv, word, None, true));
    assert ['\\'] + "" == ['\\'];
  }
}
