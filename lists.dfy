/** `Array.prototype.filter` over sequences, and what it promises. */
module Lists {

  /** `a` is `b` with some elements dropped, the rest in their original order. */
  ghost predicate IsSubsequence<T>(a: seq<T>, b: seq<T>)
    decreases |b|
  {
    a == [] || (|b| > 0 && ((a[0] == b[0] && IsSubsequence(a[1..], b[1..])) || IsSubsequence(a, b[1..])))
  }

  /** How many positions of `s` hold an element satisfying `p`. */
  function CountPassing<T>(s: seq<T>, p: T -> bool): nat
    decreases |s|
  {
    if |s| == 0 then 0 else (if p(s[0]) then 1 else 0) + CountPassing(s[1..], p)
  }

  /**
   * The elements of `s` that satisfy `p`, in order: a subsequence of `s` that
   * holds exactly the elements of `s` satisfying `p`, and as many of them as
   * pass: a passing element that occurs twice in `s` occurs twice in `r`.
   */
  function Filter<T>(s: seq<T>, p: T -> bool): (r: seq<T>)
    ensures |r| <= |s|
    ensures IsSubsequence(r, s)
    ensures forall i :: 0 <= i < |r| ==> r[i] in s && p(r[i])
    ensures forall i :: 0 <= i < |s| && p(s[i]) ==> s[i] in r
    ensures |r| == CountPassing(s, p)
    decreases |s|
  {
    if |s| == 0 then []
    else
      assert s == [s[0]] + s[1..];
      if p(s[0]) then
        var rest := Filter(s[1..], p);
        assert ([s[0]] + rest)[1..] == rest;
        [s[0]] + rest
      else Filter(s[1..], p)
  }

  /** Each element that passes occurs in the filter as often as in `s`; no other element occurs. */
  lemma {:induction false} FilterCounts<T>(s: seq<T>, p: T -> bool)
    ensures forall x :: multiset(Filter(s, p))[x] == if p(x) then multiset(s)[x] else 0
    decreases |s|
  {
    if s != [] {
      FilterCounts(s[1..], p);
      assert s == [s[0]] + s[1..];
      assert multiset(s) == multiset{s[0]} + multiset(s[1..]);
    }
  }

  /** When every element passes, the filter keeps the whole sequence. */
  lemma {:induction false} FilterAll<T>(s: seq<T>, p: T -> bool)
    requires forall i :: 0 <= i < |s| ==> p(s[i])
    ensures Filter(s, p) == s
    decreases |s|
  {
    if s != [] {
      FilterAll(s[1..], p);
      assert [s[0]] + s[1..] == s;
    }
  }

  /** The filter is empty exactly when no element passes. */
  lemma FilterEmpty<T>(s: seq<T>, p: T -> bool)
    ensures Filter(s, p) == [] <==> forall i :: 0 <= i < |s| ==> !p(s[i])
  {
    var r := Filter(s, p);
    if r != [] {
      assert r[0] in r;
    }
    if exists i :: 0 <= i < |s| && p(s[i]) {
      var i :| 0 <= i < |s| && p(s[i]);
      assert s[i] in s;
    }
  }

  /** Keeping the elements that pass `p` and then those that pass `q` is one filter by their conjunction `pq`. */
  lemma {:induction false} FilterFilter<T>(s: seq<T>, p: T -> bool, q: T -> bool, pq: T -> bool)
    requires forall i :: 0 <= i < |s| ==> pq(s[i]) == (p(s[i]) && q(s[i]))
    ensures Filter(Filter(s, p), q) == Filter(s, pq)
    decreases |s|
  {
    if s != [] {
      FilterFilter(s[1..], p, q, pq);
      if p(s[0]) {
        assert ([s[0]] + Filter(s[1..], p))[1..] == Filter(s[1..], p);
      }
    }
  }

  /** When only the head fails, the filter is the tail. */
  lemma FilterAllButHead<T>(s: seq<T>, p: T -> bool)
    requires |s| > 0
    requires forall i :: 0 <= i < |s| ==> (p(s[i]) <==> i != 0)
    ensures Filter(s, p) == s[1..]
  {
    var t := s[1..];
    forall i | 0 <= i < |t| ensures p(t[i]) {
      assert t[i] == s[i + 1];
    }
    FilterAll(t, p);
  }

  /** When exactly the element at `k` fails, the filter is the sequence without it. */
  lemma {:induction false} FilterAllBut<T>(s: seq<T>, p: T -> bool, k: nat)
    requires k < |s|
    requires forall i :: 0 <= i < |s| ==> (p(s[i]) <==> i != k)
    ensures Filter(s, p) == s[..k] + s[k + 1..]
    decreases |s|
  {
    var t := s[1..];
    if k == 0 {
      FilterAllButHead(s, p);
    } else {
      assert p(s[0]);
      forall i | 0 <= i < |t| ensures p(t[i]) <==> i != k - 1 {
        assert t[i] == s[i + 1];
      }
      FilterAllBut(t, p, k - 1);
      assert Filter(s, p) == [s[0]] + Filter(t, p);
      assert s[..k] == [s[0]] + t[..k - 1];
      assert s[k + 1..] == t[k..];
    }
  }

  /** Two tests that agree on every element keep the same elements. */
  lemma {:induction false} FilterCongruent<T>(s: seq<T>, p: T -> bool, q: T -> bool)
    requires forall i :: 0 <= i < |s| ==> p(s[i]) == q(s[i])
    ensures Filter(s, p) == Filter(s, q)
    decreases |s|
  {
    if s != [] {
      FilterCongruent(s[1..], p, q);
    }
  }
}
