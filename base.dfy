/** Generic building blocks shared by every component: an optional value and
    the list operations the source uses (filter, keep-the-last-n, keep-the-first-n). */
module Base {

  datatype Option<T> = None | Some(value: T)

  function Min(a: int, b: int): int { if a <= b then a else b }

  /** JavaScript `s.slice(-n)` applied when `s.length > n`, Python `s[-n:]`:
      the last `n` elements, or all of `s` when it is not longer than `n`. */
  function LastN<T>(s: seq<T>, n: nat): (r: seq<T>)
    ensures |r| == Min(|s|, n)
    ensures |s| <= n ==> r == s
  {
    if |s| > n then s[|s| - n..] else s
  }

  /** JavaScript `s.slice(0, n)`, Python `s[:n]`: the first `n` elements. */
  function Take<T>(s: seq<T>, n: nat): (r: seq<T>)
    ensures |r| == Min(|s|, n)
    ensures |s| <= n ==> r == s
  {
    if |s| <= n then s else s[..n]
  }

  /** The elements of `s` that satisfy `f`, in their original order. */
  function Filter<T>(s: seq<T>, f: T -> bool): (r: seq<T>)
    ensures |r| <= |s|
  {
    if s == [] then []
    else Filter(s[..|s| - 1], f) + (if f(s[|s| - 1]) then [s[|s| - 1]] else [])
  }

  /** The number of elements of `s` that satisfy `f`. */
  function Count<T>(s: seq<T>, f: T -> bool): nat
  {
    if s == [] then 0
    else Count(s[..|s| - 1], f) + (if f(s[|s| - 1]) then 1 else 0)
  }

  predicate NoDuplicates<T(==)>(s: seq<T>)
  {
    forall i, j :: 0 <= i < j < |s| ==> s[i] != s[j]
  }

  /** `a` is an order-preserving subsequence of `b`. */
  predicate IsSubseq<T(==)>(a: seq<T>, b: seq<T>)
  {
    if a == [] then true
    else if b == [] then false
    else if a[|a| - 1] == b[|b| - 1] then IsSubseq(a[..|a| - 1], b[..|b| - 1])
    else IsSubseq(a, b[..|b| - 1])
  }

  /** Position of the first occurrence of `x` (JavaScript `indexOf` when found). */
  function IndexOf<T(==)>(s: seq<T>, x: T): (i: nat)
    requires x in s
    ensures i < |s| && s[i] == x
    ensures forall j :: 0 <= j < i ==> s[j] != x
  {
    if s[0] == x then 0 else 1 + IndexOf(s[1..], x)
  }

  /** JavaScript `splice(indexOf(x), 1)` guarded by `index > -1`, Python `list.remove`
      on a present element: drop the first occurrence of `x`; no change when absent. */
  function RemoveFirst<T(==)>(s: seq<T>, x: T): (r: seq<T>)
  {
    if x in s then s[..IndexOf(s, x)] + s[IndexOf(s, x) + 1..] else s
  }

  /** The zero- or one-element sequence of an optional value. */
  function OptionToSeq<T>(o: Option<T>): (r: seq<T>)
    ensures |r| <= 1
  {
    if o.Some? then [o.value] else []
  }

  /** The values `f` gives for the elements of `s`, in order, skipping None. */
  function Collect<A, B>(s: seq<A>, f: A -> Option<B>): seq<B>
  {
    if s == [] then [] else Collect(s[..|s| - 1], f) + OptionToSeq(f(s[|s| - 1]))
  }

  lemma {:induction false} CollectMembership<A, B>(s: seq<A>, f: A -> Option<B>, y: B)
    ensures y in Collect(s, f) <==> exists i :: 0 <= i < |s| && f(s[i]) == Some(y)
  {
    if s != [] {
      var prefix := s[..|s| - 1];
      CollectMembership(prefix, f, y);
      if y in Collect(prefix, f) {
        var i :| 0 <= i < |prefix| && f(prefix[i]) == Some(y);
        assert s[i] == prefix[i];
      }
      if exists i :: 0 <= i < |s| && f(s[i]) == Some(y) {
        var i :| 0 <= i < |s| && f(s[i]) == Some(y);
        if i < |prefix| {
          assert prefix[i] == s[i];
        }
      }
    }
  }

  /** The first element of `s` within [lo, hi], if any: a first-hit loop with a range check. */
  function FirstInRange(s: seq<int>, lo: int, hi: int): (r: Option<int>)
    ensures r.None? <==> forall i :: 0 <= i < |s| ==> !(lo <= s[i] <= hi)
    ensures r.Some? ==> lo <= r.value <= hi
    ensures r.Some? ==> exists k :: 0 <= k < |s| && s[k] == r.value
                          && forall j :: 0 <= j < k ==> !(lo <= s[j] <= hi)
  {
    if s == [] then None
    else if lo <= s[0] <= hi then Some(s[0])
    else
      var r := FirstInRange(s[1..], lo, hi);
      assert r.Some? ==> exists k :: 0 <= k < |s| && s[k] == r.value
                          && forall j :: 0 <= j < k ==> !(lo <= s[j] <= hi) by {
        if r.Some? {
          var k :| 0 <= k < |s[1..]| && s[1..][k] == r.value
                   && forall j :: 0 <= j < k ==> !(lo <= s[1..][j] <= hi);
          assert s[k + 1] == r.value;
          assert forall j :: 0 <= j < k + 1 ==> !(lo <= s[j] <= hi) by {
            forall j | 0 <= j < k + 1 ensures !(lo <= s[j] <= hi) {
              if j > 0 { assert s[j] == s[1..][j - 1]; }
            }
          }
        }
      }
      r
  }

  /** `f` gives nothing on any element of `s`. */
  predicate NoneOn<A, B>(s: seq<A>, f: A -> Option<B>)
  {
    forall k :: 0 <= k < |s| ==> f(s[k]).None?
  }

  /** `r` is what `f` gives on the first element of `s` on which it gives something. */
  ghost predicate FirstSomeIs<A, B>(s: seq<A>, f: A -> Option<B>, r: Option<B>)
  {
    exists k :: 0 <= k < |s| && f(s[k]) == r && r.Some? && NoneOn(s[..k], f)
  }

  /** A scan that passes over a first element on which `f` gives nothing keeps the
      first-hit description of the scan of the rest. */
  lemma FirstSomeShift<A, B>(s: seq<A>, f: A -> Option<B>, rest: Option<B>)
    requires s != [] && f(s[0]).None?
    requires rest.None? <==> NoneOn(s[1..], f)
    requires rest.Some? ==> FirstSomeIs(s[1..], f, rest)
    ensures rest.None? <==> NoneOn(s, f)
    ensures rest.Some? ==> FirstSomeIs(s, f, rest)
  {
    assert forall k :: 1 <= k < |s| ==> s[k] == s[1..][k - 1];
    if rest.Some? {
      var k :| 0 <= k < |s[1..]| && f(s[1..][k]) == rest && rest.Some? && NoneOn(s[1..][..k], f);
      assert s[k + 1] == s[1..][k];
      assert s[..k + 1] == [s[0]] + s[1..][..k];
    }
  }

  /** The concatenation of `f(x)` over the elements `x` of `s`, in order. */
  function ConcatMap<A, B>(s: seq<A>, f: A -> seq<B>): seq<B>
  {
    if s == [] then [] else ConcatMap(s[..|s| - 1], f) + f(s[|s| - 1])
  }

  /** One more element of the prefix adds its image at the end. */
  lemma ConcatMapSnoc<A, B>(s: seq<A>, i: int, f: A -> seq<B>)
    requires 0 <= i < |s|
    ensures ConcatMap(s[..i + 1], f) == ConcatMap(s[..i], f) + f(s[i])
  {
    assert s[..i + 1][..i] == s[..i];
  }

  lemma {:induction false} ConcatMapMembership<A, B>(s: seq<A>, f: A -> seq<B>, y: B)
    ensures y in ConcatMap(s, f) <==> exists k :: 0 <= k < |s| && y in f(s[k])
  {
    if s != [] {
      var prefix := s[..|s| - 1];
      ConcatMapMembership(prefix, f, y);
      if y in ConcatMap(prefix, f) {
        var k :| 0 <= k < |prefix| && y in f(prefix[k]);
        assert s[k] == prefix[k];
      }
      if exists k :: 0 <= k < |s| && y in f(s[k]) {
        var k :| 0 <= k < |s| && y in f(s[k]);
        if k < |prefix| {
          assert prefix[k] == s[k];
        }
      }
    }
  }

  // ----- lemmas about Filter -----

  lemma {:induction false} FilterMembership<T>(s: seq<T>, f: T -> bool, x: T)
    ensures x in Filter(s, f) <==> x in s && f(x)
  {
    if s != [] {
      FilterMembership(s[..|s| - 1], f, x);
      assert s == s[..|s| - 1] + [s[|s| - 1]];
    }
  }

  lemma {:induction false} FilterAll<T>(s: seq<T>, f: T -> bool)
    requires forall i :: 0 <= i < |s| ==> f(s[i])
    ensures Filter(s, f) == s
  {
    if s != [] {
      FilterAll(s[..|s| - 1], f);
      assert s == s[..|s| - 1] + [s[|s| - 1]];
    }
  }

  lemma {:induction false} FilterNone<T>(s: seq<T>, f: T -> bool)
    requires forall i :: 0 <= i < |s| ==> !f(s[i])
    ensures Filter(s, f) == []
  {
    if s != [] {
      FilterNone(s[..|s| - 1], f);
    }
  }

  lemma {:induction false} FilterSatisfies<T>(s: seq<T>, f: T -> bool)
    ensures forall i :: 0 <= i < |Filter(s, f)| ==> f(Filter(s, f)[i])
  {
    if s != [] {
      FilterSatisfies(s[..|s| - 1], f);
    }
  }

  lemma FilterIdempotent<T>(s: seq<T>, f: T -> bool)
    ensures Filter(Filter(s, f), f) == Filter(s, f)
  {
    FilterSatisfies(s, f);
    FilterAll(Filter(s, f), f);
  }

  lemma {:induction false} FilterAppend<T>(a: seq<T>, b: seq<T>, f: T -> bool)
    ensures Filter(a + b, f) == Filter(a, f) + Filter(b, f)
  {
    if b != [] {
      assert (a + b)[..|a + b| - 1] == a + b[..|b| - 1];
      FilterAppend(a, b[..|b| - 1], f);
    } else {
      assert a + b == a;
    }
  }

  /** The multiplicity of each element in a filtered list. */
  lemma {:induction false} FilterMultiset<T>(s: seq<T>, f: T -> bool, x: T)
    ensures multiset(Filter(s, f))[x] == if f(x) then multiset(s)[x] else 0
  {
    if s != [] {
      FilterMultiset(s[..|s| - 1], f, x);
      assert s == s[..|s| - 1] + [s[|s| - 1]];
    }
  }

  lemma {:induction false} FilterCount<T>(s: seq<T>, f: T -> bool)
    ensures |Filter(s, f)| == Count(s, f)
  {
    if s != [] {
      FilterCount(s[..|s| - 1], f);
    }
  }

  /** Elements that pass `f` and elements that fail it add up to the whole list. */
  lemma {:induction false} CountSplit<T>(s: seq<T>, f: T -> bool, g: T -> bool)
    requires forall x :: g(x) == !f(x)
    ensures Count(s, f) + Count(s, g) == |s|
  {
    if s != [] {
      CountSplit(s[..|s| - 1], f, g);
    }
  }

  // ----- order-preserving subsequences -----

  lemma {:induction false} SubseqDropLast<T>(a: seq<T>, b: seq<T>)
    requires a != [] && IsSubseq(a, b)
    ensures IsSubseq(a[..|a| - 1], b)
    decreases |b|, 0
  {
    var a' := a[..|a| - 1];
    if b != [] {
      if a[|a| - 1] == b[|b| - 1] {
        SubseqExtend(a', b[..|b| - 1], b[|b| - 1]);
        assert b[..|b| - 1] + [b[|b| - 1]] == b;
      } else {
        SubseqDropLast(a, b[..|b| - 1]);
        SubseqExtend(a', b[..|b| - 1], b[|b| - 1]);
        assert b[..|b| - 1] + [b[|b| - 1]] == b;
      }
    }
  }

  lemma {:induction false} SubseqExtend<T>(a: seq<T>, b: seq<T>, x: T)
    requires IsSubseq(a, b)
    ensures IsSubseq(a, b + [x])
    decreases |b|, 1
  {
    var b' := b + [x];
    assert b'[..|b'| - 1] == b;
    if a != [] && a[|a| - 1] == x {
      SubseqDropLast(a, b);
    }
  }

  lemma {:induction false} SubseqRefl<T>(s: seq<T>)
    ensures IsSubseq(s, s)
  {
    if s != [] {
      SubseqRefl(s[..|s| - 1]);
    }
  }

  /** Filtering a suffix of `s` yields an order-preserving subsequence of `s`. */
  lemma {:induction false} FilterSuffixSubseq<T>(s: seq<T>, k: nat, f: T -> bool)
    requires k <= |s|
    ensures IsSubseq(Filter(s[k..], f), s)
    decreases |s|
  {
    if |s| == k {
      assert s[k..] == [];
    } else {
      var s' := s[..|s| - 1];
      assert s[k..][..|s[k..]| - 1] == s'[k..];
      assert s[k..][|s[k..]| - 1] == s[|s| - 1];
      FilterSuffixSubseq(s', k, f);
      var x := Filter(s'[k..], f);
      if f(s[|s| - 1]) {
        var y := x + [s[|s| - 1]];
        assert Filter(s[k..], f) == y;
        assert y[..|y| - 1] == x;
        assert s[..|s| - 1] == s';
      } else {
        assert Filter(s[k..], f) == x;
        SubseqExtend(x, s', s[|s| - 1]);
        assert s' + [s[|s| - 1]] == s;
      }
    }
  }

  // ----- RemoveFirst -----

  lemma RemoveFirstMultiset<T>(s: seq<T>, x: T)
    ensures multiset(RemoveFirst(s, x)) == multiset(s) - multiset{x}
  {
    if x in s {
      var i := IndexOf(s, x);
      assert s == s[..i] + [x] + s[i + 1..];
      assert multiset(s) == multiset(s[..i]) + multiset{x} + multiset(s[i + 1..]);
    } else {
      assert multiset(s)[x] == 0;
    }
  }

  lemma AppendAssoc<T>(a: seq<T>, b: seq<T>, c: seq<T>)
    ensures a + (b + c) == (a + b) + c
  {
  }

  /** A sequence has no duplicates exactly when no element occurs twice in its multiset. */
  lemma {:induction false} NoDuplicatesMultiset<T>(s: seq<T>)
    ensures NoDuplicates(s) <==> forall x :: multiset(s)[x] <= 1
  {
    if s != [] {
      var t, y := s[..|s| - 1], s[|s| - 1];
      assert s == t + [y];
      NoDuplicatesMultiset(t);
      if NoDuplicates(s) {
        assert NoDuplicates(t);
        assert y !in t;
        forall x ensures multiset(s)[x] <= 1 {
          assert multiset(s)[x] == multiset(t)[x] + multiset([y])[x];
        }
      }
      if forall x :: multiset(s)[x] <= 1 {
        forall x ensures multiset(t)[x] <= 1 {
          assert multiset(s)[x] == multiset(t)[x] + multiset([y])[x];
        }
        assert multiset(s)[y] == multiset(t)[y] + 1;
        assert y !in t;
        forall i, j | 0 <= i < j < |s| ensures s[i] != s[j] {
          if j < |s| - 1 {
            assert s[i] == t[i] && s[j] == t[j];
          } else {
            assert s[i] in t;
          }
        }
      }
    }
  }

  /** Dropping the first occurrence keeps a duplicate-free list duplicate-free and
      removes `x` from it altogether; the other elements keep their membership. */
  lemma RemoveFirstDistinct<T>(s: seq<T>, x: T)
    requires NoDuplicates(s)
    ensures NoDuplicates(RemoveFirst(s, x))
    ensures x !in RemoveFirst(s, x)
    ensures forall y :: y != x ==> (y in RemoveFirst(s, x) <==> y in s)
  {
    if x in s {
      var i := IndexOf(s, x);
      var r := s[..i] + s[i + 1..];
      assert forall k :: 0 <= k < |r| ==> r[k] == (if k < i then s[k] else s[k + 1]);
      forall y | y != x
        ensures y in r <==> y in s
      {
        if y in s {
          var k :| 0 <= k < |s| && s[k] == y;
          assert k != i;
          if k < i { assert r[k] == y; } else { assert r[k - 1] == y; }
        }
      }
    }
  }
}
