/** Byte strings as the Go sources use them: splitting, joining, trimming and
    case folding over ASCII. */
module Text {

  datatype Option<+T> = None | Some(value: T)

  // ---------- characters ----------

  /** '\t' .. '\r' are tab, newline, vertical tab, form feed and carriage return. */
  predicate IsSpace(c: char) {
    c == ' ' || '\t' <= c <= '\r'
  }

  predicate IsDigit(c: char) {
    '0' <= c <= '9'
  }

  predicate LowerOrDigit(c: char) {
    'a' <= c <= 'z' || IsDigit(c)
  }

  function LowerChar(c: char): (r: char)
    ensures !('A' <= r <= 'Z')
    ensures !IsSpace(c) <==> !IsSpace(r)
    ensures r != c ==> 'A' <= c <= 'Z' && 'a' <= r <= 'z'
  {
    if 'A' <= c <= 'Z' then ((c as int) + 32) as char else c
  }

  function ToLower(s: string): (r: string)
    ensures |r| == |s|
    ensures forall i :: 0 <= i < |s| ==> r[i] == LowerChar(s[i])
  {
    if s == [] then [] else [LowerChar(s[0])] + ToLower(s[1..])
  }

  lemma ToLowerIdempotent(s: string)
    ensures ToLower(ToLower(s)) == ToLower(s)
  {
    assert forall i :: 0 <= i < |s| ==> ToLower(ToLower(s))[i] == ToLower(s)[i];
  }

  // ---------- free-of predicates ----------

  ghost predicate Free(s: string, c: char) {
    forall i :: 0 <= i < |s| ==> s[i] != c
  }

  lemma FreeTail(s: string, c: char)
    requires s != [] && Free(s, c)
    ensures Free(s[1..], c)
  {
    assert forall i :: 0 <= i < |s[1..]| ==> s[1..][i] == s[i + 1];
  }

  lemma FreeConcat(a: string, b: string, c: char)
    requires Free(a, c) && Free(b, c)
    ensures Free(a + b, c)
  {
  }

  ghost predicate AllSpace(s: string) {
    forall i :: 0 <= i < |s| ==> IsSpace(s[i])
  }

  // ---------- split and join on one separator character ----------

  function Split(s: string, sep: char): (r: seq<string>)
    ensures |r| >= 1
    ensures forall i :: 0 <= i < |r| ==> Free(r[i], sep)
  {
    if s == [] then [[]]
    else
      var rest := Split(s[1..], sep);
      if s[0] == sep then [[]] + rest else [[s[0]] + rest[0]] + rest[1..]
  }

  function Join(parts: seq<string>, sep: string): string {
    if parts == [] then []
    else if |parts| == 1 then parts[0]
    else parts[0] + sep + Join(parts[1..], sep)
  }

  lemma {:induction false} SplitFree(s: string, sep: char)
    requires Free(s, sep)
    ensures Split(s, sep) == [s]
  {
    if s != [] {
      FreeTail(s, sep);
      SplitFree(s[1..], sep);
      assert [s[0]] + s[1..] == s;
    }
  }

  lemma {:induction false} SplitCons(a: string, sep: char, b: string)
    requires Free(a, sep)
    ensures Split(a + [sep] + b, sep) == [a] + Split(b, sep)
  {
    var s := a + [sep] + b;
    if a == [] {
      assert s[1..] == b;
    } else {
      assert a[1..] + [sep] + b == s[1..];
      FreeTail(a, sep);
      SplitCons(a[1..], sep, b);
      assert [a[0]] + a[1..] == a;
      assert Split(s[1..], sep)[0] == a[1..];
      assert Split(s[1..], sep)[1..] == Split(b, sep);
    }
  }

  /** Splitting undoes joining when no part holds the separator. */
  lemma {:induction false} SplitJoin(parts: seq<string>, sep: char)
    requires parts != []
    requires forall i :: 0 <= i < |parts| ==> Free(parts[i], sep)
    ensures Split(Join(parts, [sep]), sep) == parts
  {
    hide Free, Split;
    if |parts| == 1 {
      SplitFree(parts[0], sep);
    } else {
      SplitJoin(parts[1..], sep);
      SplitCons(parts[0], sep, Join(parts[1..], [sep]));
      assert [parts[0]] + parts[1..] == parts;
    }
  }

  /** Joining undoes splitting, for every string. */
  lemma {:induction false} JoinSplit(s: string, sep: char)
    ensures Join(Split(s, sep), [sep]) == s
  {
    if s != [] {
      var rest := Split(s[1..], sep);
      JoinSplit(s[1..], sep);
      if s[0] == sep {
        assert ([[]] + rest)[1..] == rest;
        assert Join([[]] + rest, [sep]) == [] + [sep] + s[1..] == s;
      } else {
        var parts := [[s[0]] + rest[0]] + rest[1..];
        if |rest| == 1 {
          assert Join(parts, [sep]) == [s[0]] + rest[0] == s;
        } else {
          assert parts[1..] == rest[1..];
          assert Join(parts, [sep]) == [s[0]] + (rest[0] + [sep] + Join(rest[1..], [sep])) == s;
        }
      }
    }
  }

  // ---------- cutting at the first separator ----------

  datatype CutResult = CutResult(before: string, after: string, found: bool)

  function Cut(s: string, sep: char): (r: CutResult)
    ensures Free(r.before, sep)
    ensures r.found ==> s == r.before + [sep] + r.after
    ensures !r.found ==> r.before == s && r.after == []
  {
    if s == [] then CutResult([], [], false)
    else if s[0] == sep then CutResult([], s[1..], true)
    else
      var r := Cut(s[1..], sep);
      CutResult([s[0]] + r.before, r.after, r.found)
  }

  lemma {:induction false} CutAt(a: string, sep: char, b: string)
    requires Free(a, sep)
    ensures Cut(a + [sep] + b, sep) == CutResult(a, b, true)
  {
    var s := a + [sep] + b;
    if a == [] {
      assert s[1..] == b;
    } else {
      assert s[1..] == a[1..] + [sep] + b;
      FreeTail(a, sep);
      CutAt(a[1..], sep, b);
      assert [a[0]] + a[1..] == a;
    }
  }

  lemma {:induction false} CutFree(s: string, sep: char)
    requires Free(s, sep)
    ensures Cut(s, sep) == CutResult(s, [], false)
  {
    if s != [] {
      FreeTail(s, sep);
      CutFree(s[1..], sep);
    }
  }

  // ---------- trimming ----------

  function TrimLeft(s: string): (r: string)
    ensures |r| <= |s| && r == s[|s| - |r|..]
    ensures r == [] || !IsSpace(r[0])
  {
    if s != [] && IsSpace(s[0]) then TrimLeft(s[1..]) else s
  }

  function TrimRight(s: string): (r: string)
    ensures |r| <= |s| && r == s[..|r|]
    ensures r == [] || !IsSpace(r[|r| - 1])
  {
    if s != [] && IsSpace(s[|s| - 1]) then TrimRight(s[..|s| - 1]) else s
  }

  function TrimSpace(s: string): (r: string)
    ensures OccursAt(s, r, |s| - |TrimLeft(s)|)
    ensures Trimmed(r)
  {
    var left := TrimLeft(s);
    var r := TrimRight(left);
    assert s[|s| - |left|..][..|r|] == r;
    r
  }

  /** What trimming leaves: nothing to trim at either end. */
  predicate Trimmed(s: string) {
    s == [] || (!IsSpace(s[0]) && !IsSpace(s[|s| - 1]))
  }

  lemma {:induction false} TrimLeftPad(pre: string, s: string)
    requires AllSpace(pre)
    ensures TrimLeft(pre + s) == TrimLeft(s)
  {
    if pre == [] {
      assert pre + s == s;
    } else {
      assert (pre + s)[1..] == pre[1..] + s;
      TrimLeftPad(pre[1..], s);
    }
  }

  lemma {:induction false} TrimRightPad(s: string, post: string)
    requires AllSpace(post)
    ensures TrimRight(s + post) == TrimRight(s)
  {
    if post == [] {
      assert s + post == s;
    } else {
      assert (s + post)[..|s + post| - 1] == s + post[..|post| - 1];
      TrimRightPad(s, post[..|post| - 1]);
    }
  }

  /** White space round a trimmed, non-empty string is exactly what trimming removes. */
  lemma TrimPad(pre: string, s: string, post: string)
    requires AllSpace(pre) && AllSpace(post) && Trimmed(s) && s != []
    ensures TrimSpace(pre + s + post) == s
  {
    assert pre + s + post == pre + (s + post);
    TrimLeftPad(pre, s + post);
    assert (s + post)[0] == s[0];
    assert TrimLeft(s + post) == s + post;
    TrimRightPad(s, post);
  }

  lemma TrimOfTrimmed(s: string)
    requires Trimmed(s)
    ensures TrimSpace(s) == s
  {
    if s != [] {
      TrimPad([], s, []);
      assert [] + s + [] == s;
    }
  }

  // ---------- substrings ----------

  predicate HasPrefix(s: string, p: string) {
    |p| <= |s| && s[..|p|] == p
  }

  predicate OccursAt(s: string, sub: string, i: nat) {
    i + |sub| <= |s| && s[i..i + |sub|] == sub
  }

  /** The first index at which `sub` occurs in `s`, or -1. */
  function Index(s: string, sub: string): (r: int)
    ensures -1 <= r <= |s|
    ensures r >= 0 ==> OccursAt(s, sub, r)
    ensures forall j: nat :: (r < 0 || j < r) ==> !OccursAt(s, sub, j)
  {
    if HasPrefix(s, sub) then
      assert s[0..0 + |sub|] == s[..|sub|];
      0
    else if s == [] then -1
    else
      var rest := Index(s[1..], sub);
      assert forall j: nat :: OccursAt(s[1..], sub, j) <==> OccursAt(s, sub, j + 1) by {
        forall j: nat ensures OccursAt(s[1..], sub, j) <==> OccursAt(s, sub, j + 1) {
          if j + 1 + |sub| <= |s| { assert s[1..][j..j + |sub|] == s[j + 1..j + 1 + |sub|]; }
        }
      }
      assert forall j: nat :: j > 0 && OccursAt(s, sub, j) ==> OccursAt(s[1..], sub, j - 1);
      assert !OccursAt(s, sub, 0);
      if rest < 0 then -1 else rest + 1
  }

  predicate Contains(s: string, sub: string) {
    Index(s, sub) >= 0
  }

  lemma Occurs(s: string, sub: string, i: nat)
    requires OccursAt(s, sub, i)
    ensures Contains(s, sub)
  {
  }

  lemma NoOccurrence(s: string, sub: string)
    requires forall i: nat :: !OccursAt(s, sub, i)
    ensures !Contains(s, sub)
  {
  }

  /** A text with a character that does not occur in `s` is not contained in it. */
  lemma Lacking(s: string, sub: string, c: char)
    requires c in sub && c !in s
    ensures !Contains(s, sub)
  {
    var k :| 0 <= k < |sub| && sub[k] == c;
    forall i: nat
      ensures !OccursAt(s, sub, i)
    {
      if i + |sub| <= |s| {
        assert s[i..i + |sub|][k] == s[i + k];
      }
    }
    NoOccurrence(s, sub);
  }

  /** A text without the character `c` is found on one side of it or not at all. */
  lemma ContainsSplit(a: string, c: char, b: string, sub: string)
    requires c !in sub
    ensures Contains(a + [c] + b, sub) <==> Contains(a, sub) || Contains(b, sub)
  {
    hide Index, OccursAt;
    var s := a + [c] + b;
    if Contains(s, sub) {
      SideOf(a, c, b, sub, Index(s, sub));
    }
    if Contains(a, sub) {
      OccursInside([], a, [c] + b, sub, Index(a, sub));
      assert [] + a + ([c] + b) == s;
    }
    if Contains(b, sub) {
      OccursInside(a + [c], b, [], sub, Index(b, sub));
      assert a + [c] + b + [] == s;
    }
  }

  lemma OccursInside(front: string, t: string, back: string, sub: string, i: nat)
    requires OccursAt(t, sub, i)
    ensures Contains(front + t + back, sub)
  {
    var s := front + t + back;
    assert s[|front| + i..|front| + i + |sub|] == t[i..i + |sub|];
    Occurs(s, sub, |front| + i);
  }

  lemma SideOf(a: string, c: char, b: string, sub: string, i: nat)
    requires c !in sub && OccursAt(a + [c] + b, sub, i)
    ensures Contains(a, sub) || Contains(b, sub)
  {
    hide Contains;
    var s := a + [c] + b;
    assert s[|a|] == c;
    forall k | i <= k < i + |sub|
      ensures s[k] in sub
    {
      assert s[i..i + |sub|][k - i] == s[k];
    }
    if i + |sub| <= |a| {
      assert s[i..i + |sub|] == a[i..i + |sub|];
      Occurs(a, sub, i);
    } else if i > |a| {
      assert s[i..i + |sub|] == b[i - |a| - 1..i - |a| - 1 + |sub|];
      Occurs(b, sub, i - |a| - 1);
    }
  }

  // ---------- the strict lexicographic order Go's sort.Strings uses ----------

  predicate Less(a: string, b: string) {
    if b == [] then false
    else if a == [] then true
    else a[0] < b[0] || (a[0] == b[0] && Less(a[1..], b[1..]))
  }

  lemma {:induction false} LessTotal(a: string, b: string)
    ensures a == b || Less(a, b) || Less(b, a)
  {
    if a != [] && b != [] && a[0] == b[0] {
      LessTotal(a[1..], b[1..]);
      assert a == [a[0]] + a[1..] && b == [b[0]] + b[1..];
    }
  }

  lemma {:induction false} LessTransitive(a: string, b: string, c: string)
    requires Less(a, b) && Less(b, c)
    ensures Less(a, c)
  {
    if a != [] && a[0] == b[0] && b[0] == c[0] {
      LessTransitive(a[1..], b[1..], c[1..]);
    }
  }

  lemma {:induction false} LessIrreflexive(a: string)
    ensures !Less(a, a)
  {
    if a != [] {
      LessIrreflexive(a[1..]);
    }
  }
}
