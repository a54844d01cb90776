/** Sets in increasing order: what collecting map keys and sorting them gives,
    whatever order the map was walked in. */
module Sorting {
  import opened Text
  import opened Decimal

  predicate LeastUid(m: Uid, s: set<Uid>) {
    m in s && forall x :: x in s ==> m <= x
  }

  lemma {:induction false} LeastUidExists(s: set<Uid>)
    requires s != {}
    ensures exists m :: LeastUid(m, s)
  {
    var a :| a in s;
    var rest := s - {a};
    if rest == {} {
      assert s == {a};
      assert LeastUid(a, s);
    } else {
      LeastUidExists(rest);
      var b :| LeastUid(b, rest);
      assert s == rest + {a};
      assert LeastUid(if a <= b then a else b, s);
    }
  }

  function SortedUids(s: set<Uid>): seq<Uid> {
    if s == {} then []
    else
      LeastUidExists(s);
      var m :| LeastUid(m, s);
      [m] + SortedUids(s - {m})
  }

  lemma {:induction false} SortedUidsMembers(s: set<Uid>, u: Uid)
    ensures u in SortedUids(s) <==> u in s
  {
    if s != {} {
      LeastUidExists(s);
      var m :| LeastUid(m, s) && SortedUids(s) == [m] + SortedUids(s - {m});
      SortedUidsMembers(s - {m}, u);
    }
  }

  lemma {:induction false} SortedUidsRise(s: set<Uid>)
    ensures forall i, j :: 0 <= i < j < |SortedUids(s)| ==> SortedUids(s)[i] < SortedUids(s)[j]
  {
    if s != {} {
      LeastUidExists(s);
      var m :| LeastUid(m, s) && SortedUids(s) == [m] + SortedUids(s - {m});
      var rest := SortedUids(s - {m});
      SortedUidsRise(s - {m});
      forall j | 0 <= j < |rest|
        ensures m < rest[j]
      {
        SortedUidsMembers(s - {m}, rest[j]);
        assert rest[j] in rest;
      }
    }
  }

  predicate LeastString(m: string, s: set<string>) {
    m in s && forall x :: x in s && x != m ==> Less(m, x)
  }

  lemma {:induction false} LeastStringExists(s: set<string>)
    requires s != {}
    ensures exists m :: LeastString(m, s)
  {
    var a :| a in s;
    var rest := s - {a};
    if rest == {} {
      assert s == {a};
      assert LeastString(a, s);
    } else {
      LeastStringExists(rest);
      var b :| LeastString(b, rest);
      assert s == rest + {a};
      LessTotal(a, b);
      if Less(a, b) {
        forall x | x in s && x != a
          ensures Less(a, x)
        {
          if x != b {
            LessTransitive(a, b, x);
          }
        }
        assert LeastString(a, s);
      } else {
        assert LeastString(b, s);
      }
    }
  }

  lemma LeastStringUnique(s: set<string>, m: string, n: string)
    requires LeastString(m, s) && LeastString(n, s)
    ensures m == n
  {
    if m != n {
      LessTransitive(m, n, m);
      LessIrreflexive(m);
    }
  }

  function SortedStrings(s: set<string>): seq<string> {
    if s == {} then []
    else
      LeastStringExists(s);
      assert forall m, n :: LeastString(m, s) && LeastString(n, s) ==> m == n by {
        forall m, n | LeastString(m, s) && LeastString(n, s)
          ensures m == n
        {
          LeastStringUnique(s, m, n);
        }
      }
      var m :| LeastString(m, s);
      [m] + SortedStrings(s - {m})
  }

  predicate Increasing(r: seq<string>) {
    forall i, j :: 0 <= i < j < |r| ==> Less(r[i], r[j])
  }

  /** The listing has exactly the members of the set, each once, in increasing order. */
  lemma {:induction false} SortedStringsListing(s: set<string>)
    ensures |SortedStrings(s)| == |s|
    ensures forall x :: x in SortedStrings(s) <==> x in s
    ensures Increasing(SortedStrings(s))
  {
    if s != {} {
      LeastStringExists(s);
      var m :| LeastString(m, s) && SortedStrings(s) == [m] + SortedStrings(s - {m});
      var rest := SortedStrings(s - {m});
      SortedStringsListing(s - {m});
      forall i, j | 0 <= i < j < |[m] + rest|
        ensures Less(([m] + rest)[i], ([m] + rest)[j])
      {
        if i == 0 {
          assert rest[j - 1] in rest;
        }
      }
    }
  }

  lemma IncreasingDistinct(r: seq<string>, i: nat, j: nat)
    requires Increasing(r) && i < j < |r|
    ensures r[i] != r[j]
  {
    LessIrreflexive(r[i]);
  }
}
