/** Facts about sequences that several components need: sums, concatenations, subsequences. */
module Sequences {
  function Sum(s: seq<int>): int {
    if s == [] then 0 else s[0] + Sum(s[1..])
  }

  lemma {:induction false} SumConcat(s: seq<int>, t: seq<int>)
    ensures Sum(s + t) == Sum(s) + Sum(t)
  {
    if s == [] {
      assert s + t == t;
    } else {
      assert (s + t)[1..] == s[1..] + t;
      SumConcat(s[1..], t);
    }
  }

  lemma {:induction false} SumUpdate(s: seq<int>, i: nat, v: int)
    requires i < |s|
    ensures Sum(s[i := v]) == Sum(s) - s[i] + v
  {
    if i == 0 {
      assert s[0 := v][1..] == s[1..];
    } else {
      assert s[i := v][1..] == s[1..][i - 1 := v];
      SumUpdate(s[1..], i - 1, v);
    }
  }

  /** A sum of non-negative terms is at least each term. */
  lemma {:induction false} SumBoundsTerm(s: seq<int>, i: nat)
    requires i < |s|
    requires forall k :: 0 <= k < |s| ==> 0 <= s[k]
    ensures 0 <= s[i] <= Sum(s)
    ensures 0 <= Sum(s)
  {
    if i > 0 {
      SumBoundsTerm(s[1..], i - 1);
    } else if |s| > 1 {
      SumBoundsTerm(s[1..], 0);
    }
  }

  lemma {:induction false} SumOfZeros(s: seq<int>)
    requires forall k :: 0 <= k < |s| ==> s[k] == 0
    ensures Sum(s) == 0
  {
    if s != [] {
      SumOfZeros(s[1..]);
    }
  }

  function Flatten<T>(ss: seq<seq<T>>): seq<T> {
    if ss == [] then [] else ss[0] + Flatten(ss[1..])
  }

  lemma {:induction false} FlattenConcat<T>(ss: seq<seq<T>>, tt: seq<seq<T>>)
    ensures Flatten(ss + tt) == Flatten(ss) + Flatten(tt)
  {
    if ss == [] {
      assert ss + tt == tt;
    } else {
      assert (ss + tt)[1..] == ss[1..] + tt;
      FlattenConcat(ss[1..], tt);
    }
  }

  /** sub can be obtained from s by deleting elements. */
  ghost predicate Subsequence<T>(sub: seq<T>, s: seq<T>) {
    || sub == []
    || (s != [] && sub[0] == s[0] && Subsequence(sub[1..], s[1..]))
    || (s != [] && Subsequence(sub, s[1..]))
  }

  lemma {:induction false} SubsequenceSkips<T>(a: seq<T>, x: seq<T>, b: seq<T>)
    requires Subsequence(a, b)
    ensures Subsequence(a, x + b)
  {
    if x == [] {
      assert x + b == b;
    } else {
      assert (x + b)[1..] == x[1..] + b;
      SubsequenceSkips(a, x[1..], b);
    }
  }

  lemma {:induction false} SubsequenceKeeps<T>(p: seq<T>, a: seq<T>, b: seq<T>)
    requires Subsequence(a, b)
    ensures Subsequence(p + a, p + b)
  {
    if p == [] {
      assert p + a == a && p + b == b;
    } else {
      assert (p + a)[1..] == p[1..] + a && (p + b)[1..] == p[1..] + b;
      SubsequenceKeeps(p[1..], a, b);
    }
  }

  lemma {:induction false} SubsequenceExtends<T>(a: seq<T>, b: seq<T>, t: seq<T>)
    requires Subsequence(a, b)
    ensures Subsequence(a, b + t)
  {
    if a != [] {
      assert (b + t)[1..] == b[1..] + t;
      if a[0] == b[0] && Subsequence(a[1..], b[1..]) {
        SubsequenceExtends(a[1..], b[1..], t);
      } else {
        SubsequenceExtends(a, b[1..], t);
      }
    }
  }

  lemma {:induction false} SubsequenceAppends<T>(a: seq<T>, b: seq<T>, x: T)
    requires Subsequence(a, b)
    ensures Subsequence(a + [x], b + [x])
  {
    if a == [] {
      SubsequenceSkips([x], b, [x]);
      assert a + [x] == [x];
    } else {
      assert (a + [x])[1..] == a[1..] + [x] && (b + [x])[1..] == b[1..] + [x];
      if a[0] == b[0] && Subsequence(a[1..], b[1..]) {
        SubsequenceAppends(a[1..], b[1..], x);
      } else {
        SubsequenceAppends(a, b[1..], x);
      }
    }
  }
}
