/** Stable sorting as the source uses it: JavaScript `Array.prototype.sort` with a
    numeric comparator, Python `list.sort`/`sorted` with a key (both stable), and
    SQL `ORDER BY` on a text column under the binary collation. */
module Sorting {

  predicate SortedDesc<T>(s: seq<T>, key: T -> int)
  {
    forall i, j :: 0 <= i < j < |s| ==> key(s[i]) >= key(s[j])
  }

  predicate SortedAsc<T>(s: seq<T>, key: T -> int)
  {
    forall i, j :: 0 <= i < j < |s| ==> key(s[i]) <= key(s[j])
  }

  /** Insert `x` before the first element whose key is not larger than x's:
      `x` goes ahead of the elements with an equal key. */
  function InsertDesc<T>(x: T, s: seq<T>, key: T -> int): (r: seq<T>)
    ensures |r| == |s| + 1
  {
    if s == [] then [x]
    else if key(s[0]) <= key(x) then [x] + s
    else [s[0]] + InsertDesc(x, s[1..], key)
  }

  /** Stable sort by non-increasing key: elements with equal keys keep their
      original relative order. */
  function SortDesc<T>(s: seq<T>, key: T -> int): (r: seq<T>)
    ensures |r| == |s|
  {
    if s == [] then [] else InsertDesc(s[0], SortDesc(s[1..], key), key)
  }

  /** Stable sort by non-decreasing key. */
  function SortAsc<T>(s: seq<T>, key: T -> int): (r: seq<T>)
    ensures |r| == |s|
  {
    SortDesc(s, (x: T) => -key(x))
  }

  lemma {:induction false} InsertDescMultiset<T>(x: T, s: seq<T>, key: T -> int)
    ensures multiset(InsertDesc(x, s, key)) == multiset(s) + multiset{x}
  {
    if s != [] && key(s[0]) > key(x) {
      InsertDescMultiset(x, s[1..], key);
      assert s == [s[0]] + s[1..];
    }
  }

  lemma {:induction false} InsertDescSorted<T>(x: T, s: seq<T>, key: T -> int)
    requires SortedDesc(s, key)
    ensures SortedDesc(InsertDesc(x, s, key), key)
  {
    if s != [] && key(s[0]) > key(x) {
      InsertDescSorted(x, s[1..], key);
      var r := InsertDesc(x, s, key);
      var t := InsertDesc(x, s[1..], key);
      InsertDescMultiset(x, s[1..], key);
      assert r == [s[0]] + t;
      forall j | 0 <= j < |t|
        ensures key(s[0]) >= key(t[j])
      {
        assert t[j] in multiset(t);
        assert t[j] == x || t[j] in multiset(s[1..]);
        if t[j] != x {
          var k :| 0 <= k < |s[1..]| && s[1..][k] == t[j];
          assert s[k + 1] == t[j];
        }
      }
    }
  }

  /** The sort is a permutation of its input. */
  lemma {:induction false} SortDescMultiset<T>(s: seq<T>, key: T -> int)
    ensures multiset(SortDesc(s, key)) == multiset(s)
  {
    if s != [] {
      SortDescMultiset(s[1..], key);
      InsertDescMultiset(s[0], SortDesc(s[1..], key), key);
      assert s == [s[0]] + s[1..];
    }
  }

  /** The sort orders by non-increasing key. */
  lemma {:induction false} SortDescSorted<T>(s: seq<T>, key: T -> int)
    ensures SortedDesc(SortDesc(s, key), key)
  {
    if s != [] {
      SortDescSorted(s[1..], key);
      InsertDescSorted(s[0], SortDesc(s[1..], key), key);
    }
  }

  lemma SortAscSorted<T>(s: seq<T>, key: T -> int)
    ensures SortedAsc(SortAsc(s, key), key)
  {
    var neg := (x: T) => -key(x);
    SortDescSorted(s, neg);
    var r := SortAsc(s, key);
    forall i, j | 0 <= i < j < |r|
      ensures key(r[i]) <= key(r[j])
    {
      assert neg(r[i]) >= neg(r[j]);
    }
  }

  lemma SortAscMultiset<T>(s: seq<T>, key: T -> int)
    ensures multiset(SortAsc(s, key)) == multiset(s)
  {
    SortDescMultiset(s, (x: T) => -key(x));
  }

  /** Elements are kept exactly: membership is unchanged by sorting. */
  lemma SortDescMembership<T>(s: seq<T>, key: T -> int, x: T)
    ensures x in SortDesc(s, key) <==> x in s
  {
    SortDescMultiset(s, key);
    assert x in SortDesc(s, key) <==> x in multiset(SortDesc(s, key));
    assert x in s <==> x in multiset(s);
  }

  lemma SortAscMembership<T>(s: seq<T>, key: T -> int, x: T)
    ensures x in SortAsc(s, key) <==> x in s
  {
    SortDescMembership(s, (x: T) => -key(x), x);
  }

  // ----- prefixes of sorted lists -----

  /** A prefix of a list sorted by non-increasing key has no key below that of an
      element it leaves out. */
  lemma PrefixNewest<T>(s: seq<T>, key: T -> int, n: nat, a: T, b: T)
    requires SortedDesc(s, key) && n <= |s|
    requires a in s && a !in s[..n] && b in s[..n]
    ensures key(b) >= key(a)
  {
    var i :| 0 <= i < |s| && s[i] == a;
    var j :| 0 <= j < n && s[..n][j] == b;
    assert s[j] == b;
  }

  /** A prefix keeps at most the multiplicities of the whole list. */
  lemma PrefixMultiset<T>(s: seq<T>, n: nat)
    requires n <= |s|
    ensures multiset(s[..n]) <= multiset(s)
  {
    assert s == s[..n] + s[n..];
  }

  // ----- strings under the binary collation -----

  /** `a` sorts no later than `b`: `a` is a prefix of `b`, or at the first
      position where they differ `a` has the smaller character. */
  predicate LexLe(a: string, b: string)
  {
    if a == [] then true
    else if b == [] then false
    else if a[0] != b[0] then a[0] < b[0]
    else LexLe(a[1..], b[1..])
  }

  lemma {:induction false} LexLeTotal(a: string, b: string)
    ensures LexLe(a, b) || LexLe(b, a)
  {
    if a != [] && b != [] && a[0] == b[0] {
      LexLeTotal(a[1..], b[1..]);
    }
  }

  lemma {:induction false} LexLeTransitive(a: string, b: string, c: string)
    requires LexLe(a, b) && LexLe(b, c)
    ensures LexLe(a, c)
  {
    if a != [] && b != [] && c != [] && a[0] == b[0] && b[0] == c[0] {
      LexLeTransitive(a[1..], b[1..], c[1..]);
    }
  }

  lemma {:induction false} LexLeAntisymmetric(a: string, b: string)
    requires LexLe(a, b) && LexLe(b, a)
    ensures a == b
  {
    if a != [] && b != [] {
      LexLeAntisymmetric(a[1..], b[1..]);
      assert a == [a[0]] + a[1..] && b == [b[0]] + b[1..];
    }
  }

  predicate StringsSorted(s: seq<string>)
  {
    forall i, j :: 0 <= i < j < |s| ==> LexLe(s[i], s[j])
  }

  function InsertString(x: string, s: seq<string>): (r: seq<string>)
    ensures |r| == |s| + 1
  {
    if s == [] then [x]
    else if LexLe(x, s[0]) then [x] + s
    else [s[0]] + InsertString(x, s[1..])
  }

  function SortStrings(s: seq<string>): (r: seq<string>)
    ensures |r| == |s|
  {
    if s == [] then [] else InsertString(s[0], SortStrings(s[1..]))
  }

  lemma {:induction false} InsertStringMultiset(x: string, s: seq<string>)
    ensures multiset(InsertString(x, s)) == multiset(s) + multiset{x}
  {
    if s != [] && !LexLe(x, s[0]) {
      InsertStringMultiset(x, s[1..]);
      assert s == [s[0]] + s[1..];
    }
  }

  lemma {:induction false} InsertStringSorted(x: string, s: seq<string>)
    requires StringsSorted(s)
    ensures StringsSorted(InsertString(x, s))
  {
    if s == [] {
    } else if LexLe(x, s[0]) {
      var r := [x] + s;
      forall j | 1 <= j < |r|
        ensures LexLe(x, r[j])
      {
        if j > 1 { LexLeTransitive(x, s[0], s[j - 1]); }
      }
    } else {
      LexLeTotal(x, s[0]);
      InsertStringSorted(x, s[1..]);
      InsertStringMultiset(x, s[1..]);
      var t := InsertString(x, s[1..]);
      forall j | 0 <= j < |t|
        ensures LexLe(s[0], t[j])
      {
        assert t[j] in multiset(t);
        if t[j] != x {
          assert t[j] in multiset(s[1..]);
          var k :| 0 <= k < |s[1..]| && s[1..][k] == t[j];
          assert s[k + 1] == t[j];
        }
      }
    }
  }

  /** Sorting strings orders them and keeps every one of them. */
  lemma {:induction false} SortStringsSpec(s: seq<string>)
    ensures StringsSorted(SortStrings(s))
    ensures multiset(SortStrings(s)) == multiset(s)
  {
    if s != [] {
      SortStringsSpec(s[1..]);
      InsertStringSorted(s[0], SortStrings(s[1..]));
      InsertStringMultiset(s[0], SortStrings(s[1..]));
      assert s == [s[0]] + s[1..];
    }
  }
}
