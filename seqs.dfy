/** Sequence helpers shared by the models: an order-preserving filter (the
 *  list comprehensions and boolean-mask selections of the analysis code), the
 *  subsequence relation that says a result keeps its input's order, and sums. */
module Seqs {

  /** `a` is obtained from `b` by deleting elements, without reordering. */
  ghost predicate SubseqOf<T>(a: seq<T>, b: seq<T>)
    decreases |b|
  {
    if |b| == 0 then |a| == 0
    else
      (|a| > 0 && a[|a| - 1] == b[|b| - 1] && SubseqOf(a[..|a| - 1], b[..|b| - 1]))
      || SubseqOf(a, b[..|b| - 1])
  }

  lemma {:induction false} SubseqRefl<T>(s: seq<T>)
    ensures SubseqOf(s, s)
    decreases |s|
  {
    if |s| > 0 {
      SubseqRefl(s[..|s| - 1]);
    }
  }

  lemma {:induction false} SubseqTrans<T>(a: seq<T>, b: seq<T>, c: seq<T>)
    requires SubseqOf(a, b) && SubseqOf(b, c)
    ensures SubseqOf(a, c)
    decreases |c|
  {
    if |c| > 0 {
      var c' := c[..|c| - 1];
      if |b| > 0 && b[|b| - 1] == c[|c| - 1] && SubseqOf(b[..|b| - 1], c') {
        var b' := b[..|b| - 1];
        if |a| > 0 && a[|a| - 1] == b[|b| - 1] && SubseqOf(a[..|a| - 1], b') {
          SubseqTrans(a[..|a| - 1], b', c');
        } else {
          SubseqTrans(a, b', c');
        }
      } else {
        SubseqTrans(a, b, c');
      }
    }
  }

  /** Deleting one element keeps the order of the rest. */
  lemma {:induction false} SubseqDropOne<T>(s: seq<T>, i: nat)
    requires i < |s|
    ensures SubseqOf(s[..i] + s[i + 1..], s)
    decreases |s|
  {
    var a := s[..i] + s[i + 1..];
    var s' := s[..|s| - 1];
    if i == |s| - 1 {
      assert a == s';
      SubseqRefl(s');
    } else {
      SubseqDropOne(s', i);
      assert a[..|a| - 1] == s'[..i] + s'[i + 1..];
      assert a[|a| - 1] == s[|s| - 1];
    }
  }

  /** No element occurs twice. */
  ghost predicate NoDuplicates<T>(s: seq<T>)
  {
    forall i, j :: 0 <= i < j < |s| ==> s[i] != s[j]
  }

  /** The elements of `s` that satisfy `p`, in the order of `s`. */
  function Filter<T>(s: seq<T>, p: T -> bool): (r: seq<T>)
    ensures |r| <= |s|
    ensures forall i :: 0 <= i < |r| ==> r[i] in s && p(r[i])
    ensures forall i :: 0 <= i < |s| && p(s[i]) ==> s[i] in r
    decreases |s|
  {
    if |s| == 0 then []
    else
      var init, last := s[..|s| - 1], s[|s| - 1];
      assert s == init + [last];
      Filter(init, p) + (if p(last) then [last] else [])
  }

  lemma FilterAppend<T>(s: seq<T>, x: T, p: T -> bool)
    ensures Filter(s + [x], p) == Filter(s, p) + (if p(x) then [x] else [])
  {
    assert (s + [x])[..|s|] == s;
  }

  lemma {:induction false} FilterConcat<T>(a: seq<T>, b: seq<T>, p: T -> bool)
    ensures Filter(a + b, p) == Filter(a, p) + Filter(b, p)
    decreases |b|
  {
    if |b| == 0 {
      assert a + b == a;
    } else {
      var init, last := b[..|b| - 1], b[|b| - 1];
      assert a + b == (a + init) + [last] by {
        assert b == init + [last];
      }
      FilterAppend(a + init, last, p);
      FilterConcat(a, init, p);
      FilterAppend(init, last, p);
      assert Filter(b, p) == Filter(init, p) + (if p(last) then [last] else []) by {
        assert b == init + [last];
      }
    }
  }

  /** Filtering keeps the order of the input. */
  lemma {:induction false} FilterSubseq<T>(s: seq<T>, p: T -> bool)
    ensures SubseqOf(Filter(s, p), s)
    decreases |s|
  {
    if |s| > 0 {
      var init, last := s[..|s| - 1], s[|s| - 1];
      FilterSubseq(init, p);
      var r := Filter(s, p);
      if p(last) {
        assert r == Filter(init, p) + [last];
        assert r[..|r| - 1] == Filter(init, p) && r[|r| - 1] == last;
        assert SubseqOf(r[..|r| - 1], s[..|s| - 1]);
      } else {
        assert r == Filter(init, p);
      }
    }
  }

  /** Filtering keeps every element `p` accepts as often as it occurs, and no other. */
  lemma {:induction false} FilterMultiset<T>(s: seq<T>, p: T -> bool, x: T)
    ensures multiset(Filter(s, p))[x] == if p(x) then multiset(s)[x] else 0
    decreases |s|
  {
    if |s| > 0 {
      var init, last := s[..|s| - 1], s[|s| - 1];
      assert s == init + [last];
      FilterMultiset(init, p, x);
    }
  }

  /** A filtered sequence of distinct elements is still free of duplicates. */
  lemma {:induction false} FilterNoDuplicates<T>(s: seq<T>, p: T -> bool)
    requires NoDuplicates(s)
    ensures NoDuplicates(Filter(s, p))
    decreases |s|
  {
    if |s| > 0 {
      var init, last := s[..|s| - 1], s[|s| - 1];
      assert s == init + [last];
      assert NoDuplicates(init);
      FilterNoDuplicates(init, p);
      assert last !in init;
    }
  }

  /** The sum of a column of numbers, as `DataFrame.sum` computes it per column. */
  function Sum(s: seq<int>): int
    decreases |s|
  {
    if |s| == 0 then 0 else Sum(s[..|s| - 1]) + s[|s| - 1]
  }

  /** A sum of 0/1 indicators counts the ones. */
  lemma {:induction false} SumOfIndicators(s: seq<int>)
    requires forall i :: 0 <= i < |s| ==> s[i] == 0 || s[i] == 1
    ensures 0 <= Sum(s) <= |s|
    ensures Sum(s) == multiset(s)[1]
    decreases |s|
  {
    if |s| > 0 {
      var init := s[..|s| - 1];
      assert s == init + [s[|s| - 1]];
      SumOfIndicators(init);
    }
  }
}
