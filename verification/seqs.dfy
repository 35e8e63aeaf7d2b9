/** Sequence combinators shared by the whole model: the JavaScript
    `filter`, `map`, `findIndex` and `reduce(+)` used throughout the source. */
module Seqs {

  import opened Wrappers

  /** `a` can be obtained from `b` by deleting elements (order is kept). */
  predicate IsSubsequence<T(==)>(a: seq<T>, b: seq<T>)
    decreases |b|
  {
    |a| == 0 ||
    (|b| > 0 &&
     ((a[0] == b[0] && IsSubsequence(a[1..], b[1..])) || IsSubsequence(a, b[1..])))
  }

  /** `Array.prototype.filter`. */
  function Filter<T>(s: seq<T>, p: T -> bool): (r: seq<T>)
    ensures |r| <= |s|
    ensures forall i :: 0 <= i < |r| ==> r[i] in s && p(r[i])
    ensures forall i :: 0 <= i < |s| && p(s[i]) ==> s[i] in r
  {
    if |s| == 0 then []
    else if p(s[0]) then [s[0]] + Filter(s[1..], p)
    else Filter(s[1..], p)
  }

  lemma {:induction false} FilterIsSubsequence<T>(s: seq<T>, p: T -> bool)
    ensures IsSubsequence(Filter(s, p), s)
  {
    if |s| > 0 {
      FilterIsSubsequence(s[1..], p);
      var r := Filter(s, p);
      if p(s[0]) {
        assert r[0] == s[0] && r[1..] == Filter(s[1..], p);
      } else {
        assert r == Filter(s[1..], p);
      }
    }
  }

  /** The filter keeps every passing element as often as it occurs, and no
      other element. */
  lemma {:induction false} FilterMultiset<T>(s: seq<T>, p: T -> bool)
    ensures forall x :: multiset(Filter(s, p))[x] == if p(x) then multiset(s)[x] else 0
  {
    if |s| > 0 {
      FilterMultiset(s[1..], p);
      assert s == [s[0]] + s[1..];
      assert multiset(s) == multiset{s[0]} + multiset(s[1..]);
      if p(s[0]) {
        assert multiset(Filter(s, p)) == multiset{s[0]} + multiset(Filter(s[1..], p));
      }
    }
  }

  lemma FilterConcat<T>(a: seq<T>, b: seq<T>, p: T -> bool)
    ensures Filter(a + b, p) == Filter(a, p) + Filter(b, p)
  {
    if |a| > 0 {
      assert (a + b)[1..] == a[1..] + b;
      FilterConcat(a[1..], b, p);
    } else {
      assert a + b == b;
    }
  }

  /** The filter of a one-element sequence. */
  lemma FilterSingle<T>(x: T, p: T -> bool)
    ensures Filter([x], p) == if p(x) then [x] else []
  {
    assert [x][1..] == [];
  }

  /** With `a` and `b` commuting, `a` can move past `b` in `a + (b + c)`. */
  lemma Reassociate<T>(a: seq<T>, b: seq<T>, c: seq<T>)
    requires a + b == b + a
    ensures a + (b + c) == b + (a + c)
  {
    calc {
      a + (b + c);
      (a + b) + c;
      (b + a) + c;
      b + (a + c);
    }
  }

  /** The step of a stable insertion: when `x` and the head of `l` are not
      both kept, putting the head in front of a sequence that filters like
      `x` followed by the tail filters like `x` followed by `l`. */
  lemma FilterPassHead<T>(x: T, l: seq<T>, rest: seq<T>, p: T -> bool)
    requires |l| > 0 && !(p(x) && p(l[0]))
    requires Filter(rest, p) == Filter([x], p) + Filter(l[1..], p)
    ensures Filter([l[0]] + rest, p) == Filter([x], p) + Filter(l, p)
  {
    FilterConcat([l[0]], rest, p);
    FilterConcat([l[0]], l[1..], p);
    assert l == [l[0]] + l[1..];
    FilterSingle(x, p);
    FilterSingle(l[0], p);
    Reassociate(Filter([l[0]], p), Filter([x], p), Filter(l[1..], p));
  }

  /** Sequences of equal length whose elements pass their filters at the
      same positions keep equally many elements. */
  lemma {:induction false} FilterLengthsAgree<T, U>(s: seq<T>, t: seq<U>, p: T -> bool, q: U -> bool)
    requires |s| == |t|
    requires forall j :: 0 <= j < |s| ==> p(s[j]) == q(t[j])
    ensures |Filter(s, p)| == |Filter(t, q)|
  {
    if |s| > 0 {
      FilterLengthsAgree(s[1..], t[1..], p, q);
      assert p(s[0]) == q(t[0]);
    }
  }

  /** A filter that keeps everything is the identity. */
  lemma FilterAll<T>(s: seq<T>, p: T -> bool)
    requires forall i :: 0 <= i < |s| ==> p(s[i])
    ensures Filter(s, p) == s
  {
    if |s| > 0 {
      FilterAll(s[1..], p);
    }
  }

  /** Filters that agree on every element keep the same elements. */
  lemma {:induction false} FilterEquivalent<T>(s: seq<T>, p: T -> bool, q: T -> bool)
    requires forall i :: 0 <= i < |s| ==> p(s[i]) == q(s[i])
    ensures Filter(s, p) == Filter(s, q)
  {
    if |s| > 0 {
      FilterEquivalent(s[1..], p, q);
    }
  }

  /** `Array.prototype.map`. */
  function Map<T, U>(s: seq<T>, f: T -> U): (r: seq<U>)
    ensures |r| == |s|
    ensures forall i :: 0 <= i < |s| ==> r[i] == f(s[i])
  {
    if |s| == 0 then [] else [f(s[0])] + Map(s[1..], f)
  }

  lemma MapConcat<T, U>(a: seq<T>, b: seq<T>, f: T -> U)
    ensures Map(a + b, f) == Map(a, f) + Map(b, f)
  {
  }

  /** `Array.prototype.findIndex`, with -1 read as None: the first position
      whose element satisfies `p`. */
  function FirstIndex<T>(s: seq<T>, p: T -> bool): (r: Option<nat>)
    ensures r.Some? ==> r.value < |s| && p(s[r.value])
    ensures r.Some? ==> forall j :: 0 <= j < r.value ==> !p(s[j])
    ensures r.None? ==> forall j :: 0 <= j < |s| ==> !p(s[j])
  {
    if |s| == 0 then None
    else if p(s[0]) then Some(0)
    else match FirstIndex(s[1..], p)
      case None => None
      case Some(k) => Some(k + 1)
  }

  /** Searching the elements that satisfy `p` for one that satisfies `q`
      finds the first element of the whole sequence satisfying both. */
  lemma {:induction false} FirstIndexFilter<T>(s: seq<T>, p: T -> bool, q: T -> bool, pq: T -> bool)
    requires forall x :: pq(x) == (p(x) && q(x))
    ensures FirstIndex(Filter(s, p), q).None? <==> FirstIndex(s, pq).None?
    ensures FirstIndex(Filter(s, p), q).Some? ==>
      Filter(s, p)[FirstIndex(Filter(s, p), q).value] == s[FirstIndex(s, pq).value]
  {
    if |s| > 0 {
      FirstIndexFilter(s[1..], p, q, pq);
      var t := Filter(s[1..], p);
      if p(s[0]) {
        assert Filter(s, p) == [s[0]] + t;
        if !q(s[0]) {
          FirstIndexSkip(s[0], t, q);
        }
      } else {
        assert Filter(s, p) == t;
      }
    }
  }

  /** An element that fails the test only shifts the position found after it. */
  lemma FirstIndexSkip<T>(x: T, t: seq<T>, q: T -> bool)
    requires !q(x)
    ensures FirstIndex([x] + t, q) == match FirstIndex(t, q) case None => None case Some(k) => Some(k + 1)
  {
    assert ([x] + t)[1..] == t;
  }

  /** `s.reduce((total, x) => total + f(x), 0)`: a left fold from 0. */
  function Sum<T>(s: seq<T>, f: T -> real): real
  {
    if |s| == 0 then 0.0 else Sum(s[..|s| - 1], f) + f(s[|s| - 1])
  }

  lemma {:induction false} SumConcat<T>(a: seq<T>, b: seq<T>, f: T -> real)
    ensures Sum(a + b, f) == Sum(a, f) + Sum(b, f)
    decreases |b|
  {
    if |b| == 0 {
      assert a + b == a;
    } else {
      assert (a + b)[..|a + b| - 1] == a + b[..|b| - 1];
      SumConcat(a, b[..|b| - 1], f);
    }
  }

  /** Removing position `i` takes exactly that element's term out of the sum. */
  lemma {:induction false} SumRemove<T>(s: seq<T>, i: nat, f: T -> real)
    requires i < |s|
    ensures Sum(s[..i] + s[i + 1..], f) == Sum(s, f) - f(s[i])
  {
    var a, b := s[..i], s[i + 1..];
    var a' := a + [s[i]];
    assert s == a' + b;
    SumConcat(a', b, f);
    assert a'[..|a'| - 1] == a;
    assert Sum(a', f) == Sum(a, f) + f(s[i]);
    SumConcat(a, b, f);
  }
}
