/** Stable sorting of records by a string key, as sort.SliceStable does it. */
module Ordering {
  import opened Text

  function Insert<T>(key: T -> string, e: T, s: seq<T>): (r: seq<T>)
    ensures |r| == |s| + 1
  {
    if s == [] || !Less(key(s[0]), key(e)) then [e] + s
    else [s[0]] + Insert(key, e, s[1..])
  }

  function StableSort<T>(key: T -> string, s: seq<T>): (r: seq<T>)
    ensures |r| == |s|
  {
    if s == [] then [] else Insert(key, s[0], StableSort(key, s[1..]))
  }

  ghost predicate DistinctKeys<T>(key: T -> string, s: seq<T>) {
    forall i, j :: 0 <= i < j < |s| ==> key(s[i]) != key(s[j])
  }

  /** Strictly increasing keys. */
  ghost predicate Rising<T>(key: T -> string, s: seq<T>) {
    forall i, j :: 0 <= i < j < |s| ==> Less(key(s[i]), key(s[j]))
  }

  lemma RisingDistinct<T>(key: T -> string, s: seq<T>)
    requires Rising(key, s)
    ensures DistinctKeys(key, s)
  {
    forall i, j | 0 <= i < j < |s|
      ensures key(s[i]) != key(s[j])
    {
      LessIrreflexive(key(s[i]));
    }
  }

  lemma {:induction false} InsertMembers<T>(key: T -> string, e: T, s: seq<T>, x: T)
    ensures x in Insert(key, e, s) <==> x == e || x in s
  {
    if s != [] && Less(key(s[0]), key(e)) {
      InsertMembers(key, e, s[1..], x);
      assert s == [s[0]] + s[1..];
    }
  }

  lemma {:induction false} InsertPermutes<T>(key: T -> string, e: T, s: seq<T>)
    ensures multiset(Insert(key, e, s)) == multiset{e} + multiset(s)
  {
    if s != [] && Less(key(s[0]), key(e)) {
      InsertPermutes(key, e, s[1..]);
      assert s == [s[0]] + s[1..];
    }
  }

  lemma {:induction false} InsertRising<T>(key: T -> string, e: T, s: seq<T>)
    requires Rising(key, s) && forall x :: x in s ==> key(x) != key(e)
    ensures Rising(key, Insert(key, e, s))
  {
    hide Less;
    var r := Insert(key, e, s);
    if s == [] {
    } else if !Less(key(s[0]), key(e)) {
      LessTotal(key(s[0]), key(e));
      assert s[0] in s;
      forall j | 0 <= j < |s|
        ensures Less(key(e), key(s[j]))
      {
        if j > 0 {
          LessTransitive(key(e), key(s[0]), key(s[j]));
        }
      }
      forall i, j | 0 <= i < j < |r|
        ensures Less(key(r[i]), key(r[j]))
      {
        assert r[j] == s[j - 1];
      }
    } else {
      var rest := Insert(key, e, s[1..]);
      InsertRising(key, e, s[1..]);
      forall i, j | 0 <= i < j < |r|
        ensures Less(key(r[i]), key(r[j]))
      {
        assert r[j] == rest[j - 1] && rest[j - 1] in rest;
        if i == 0 {
          InsertMembers(key, e, s[1..], r[j]);
        }
      }
    }
  }

  lemma {:induction false} SortMembers<T>(key: T -> string, s: seq<T>, x: T)
    ensures x in StableSort(key, s) <==> x in s
  {
    if s != [] {
      SortMembers(key, s[1..], x);
      InsertMembers(key, s[0], StableSort(key, s[1..]), x);
      assert s == [s[0]] + s[1..];
    }
  }

  lemma {:induction false} SortPermutes<T>(key: T -> string, s: seq<T>)
    ensures multiset(StableSort(key, s)) == multiset(s)
  {
    if s != [] {
      SortPermutes(key, s[1..]);
      InsertPermutes(key, s[0], StableSort(key, s[1..]));
      assert s == [s[0]] + s[1..];
    }
  }

  /** With distinct keys the result is strictly increasing. */
  lemma {:induction false} SortRises<T>(key: T -> string, s: seq<T>)
    requires DistinctKeys(key, s)
    ensures Rising(key, StableSort(key, s))
  {
    if s != [] {
      SortRises(key, s[1..]);
      forall x | x in StableSort(key, s[1..])
        ensures key(x) != key(s[0])
      {
        SortMembers(key, s[1..], x);
      }
      InsertRising(key, s[0], StableSort(key, s[1..]));
    }
  }

  lemma DistinctMembers<T>(key: T -> string, s: seq<T>)
    ensures DistinctKeys(key, s) <==>
      s == [] || (DistinctKeys(key, s[1..]) && forall x :: x in s[1..] ==> key(x) != key(s[0]))
  {
    if s != [] && DistinctKeys(key, s[1..]) && forall x :: x in s[1..] ==> key(x) != key(s[0]) {
      forall i, j | 0 <= i < j < |s|
        ensures key(s[i]) != key(s[j])
      {
        assert s[j] == s[1..][j - 1];
        if i > 0 {
          assert s[i] == s[1..][i - 1];
        }
      }
    }
  }

  /** Taking one place out keeps keys distinct; putting its element back needs its key new. */
  lemma DistinctWithout<T>(key: T -> string, t: seq<T>, j: nat)
    requires j < |t| && DistinctKeys(key, t[..j] + t[j + 1..])
    requires forall x :: x in t[..j] + t[j + 1..] ==> key(x) != key(t[j])
    ensures DistinctKeys(key, t)
  {
    var r := t[..j] + t[j + 1..];
    forall a, b | 0 <= a < b < |t|
      ensures key(t[a]) != key(t[b])
    {
      assert a < j ==> t[a] == r[a];
      assert a > j ==> t[a] == r[a - 1];
      assert b < j ==> t[b] == r[b];
      assert b > j ==> t[b] == r[b - 1];
    }
  }

  lemma TakenOut<T>(s: seq<T>, t: seq<T>, j: nat)
    requires multiset(s) == multiset(t) && s != [] && j < |t| && t[j] == s[0]
    ensures multiset(t[..j] + t[j + 1..]) == multiset(s[1..])
  {
    assert s == [s[0]] + s[1..];
    assert t == t[..j] + [t[j]] + t[j + 1..];
    var a, b, e := multiset(t[..j] + t[j + 1..]), multiset(s[1..]), multiset{s[0]};
    assert a == multiset(t[..j]) + multiset(t[j + 1..]);
    assert multiset(t) == a + e && multiset(s) == b + e;
    assert a == (a + e) - e == (b + e) - e == b;
  }

  /** Distinct keys do not depend on the order. */
  lemma {:induction false} DistinctPermutes<T>(key: T -> string, s: seq<T>, t: seq<T>)
    requires multiset(s) == multiset(t) && DistinctKeys(key, s)
    ensures DistinctKeys(key, t)
  {
    assert t != [] ==> t[0] in multiset(t);
    if s != [] {
      assert s[0] in multiset(t);
      var j :| 0 <= j < |t| && t[j] == s[0];
      var r := t[..j] + t[j + 1..];
      TakenOut(s, t, j);
      DistinctMembers(key, s);
      DistinctPermutes(key, s[1..], r);
      forall x | x in r
        ensures key(x) != key(t[j])
      {
        assert x in multiset(r);
      }
      DistinctWithout(key, t, j);
    }
  }

  /** Strictly increasing sequences with the same members are equal. */
  lemma {:induction false} RisingUnique<T>(key: T -> string, a: seq<T>, b: seq<T>)
    requires Rising(key, a) && Rising(key, b)
    requires forall x :: x in a <==> x in b
    ensures a == b
  {
    assert b != [] ==> b[0] in b;
    if a != [] {
      assert a[0] in a && a[0] in b;
      assert b[0] in b && b[0] in a;
      var i :| 0 <= i < |b| && b[i] == a[0];
      var j :| 0 <= j < |a| && a[j] == b[0];
      HeadsMeet(key, a, b, i, j);
      forall x
        ensures x in a[1..] <==> x in b[1..]
      {
        TailMembers(key, a, x);
        TailMembers(key, b, x);
      }
      RisingUnique(key, a[1..], b[1..]);
      assert a == [a[0]] + a[1..] && b == [b[0]] + b[1..];
    }
  }

  lemma HeadsMeet<T>(key: T -> string, a: seq<T>, b: seq<T>, i: nat, j: nat)
    requires Rising(key, a) && Rising(key, b) && i < |b| && j < |a| && b[i] == a[0] && a[j] == b[0]
    ensures a[0] == b[0]
  {
    hide Less;
    if i > 0 && j > 0 {
      LessTransitive(key(a[0]), key(b[0]), key(a[0]));
      LessIrreflexive(key(a[0]));
    }
  }

  lemma TailMembers<T>(key: T -> string, a: seq<T>, x: T)
    requires Rising(key, a) && a != []
    ensures x in a[1..] <==> x in a && x != a[0]
  {
    hide Less;
    assert a == [a[0]] + a[1..];
    LessIrreflexive(key(a[0]));
  }

  /** Sorting what is already strictly increasing changes nothing. */
  lemma SortOfRising<T>(key: T -> string, s: seq<T>)
    requires Rising(key, s)
    ensures StableSort(key, s) == s
  {
    RisingDistinct(key, s);
    SortRises(key, s);
    forall x
      ensures x in StableSort(key, s) <==> x in s
    {
      SortMembers(key, s, x);
    }
    RisingUnique(key, StableSort(key, s), s);
  }
}
