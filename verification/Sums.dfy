/** Options, and sums of a real-valued measure over a sequence of processes or table rows. */
module Sums {

  datatype Option<+T> = None | Some(value: T)

  function Sum<T>(f: T -> real, s: seq<T>): real {
    if s == [] then 0.0 else Sum(f, s[..|s| - 1]) + f(s[|s| - 1])
  }

  lemma SumAppend<T>(f: T -> real, s: seq<T>, x: T)
    ensures Sum(f, s + [x]) == Sum(f, s) + f(x)
  {
    assert (s + [x])[..|s|] == s;
  }

  /** Replacing one element moves the sum by exactly that element's change. */
  lemma {:induction false} SumUpdate<T>(f: T -> real, s: seq<T>, i: nat, x: T)
    requires i < |s|
    ensures Sum(f, s[i := x]) == Sum(f, s) - f(s[i]) + f(x)
  {
    var n := |s| - 1;
    if i == n {
      assert s[i := x][..n] == s[..n];
    } else {
      assert s[i := x][..n] == s[..n][i := x];
      SumUpdate(f, s[..n], i, x);
    }
  }

  lemma {:induction false} SumDifference<T>(f: T -> real, g: T -> real, h: T -> real, s: seq<T>)
    requires forall x :: x in s ==> h(x) == f(x) - g(x)
    ensures Sum(h, s) == Sum(f, s) - Sum(g, s)
  {
    if s != [] {
      SumDifference(f, g, h, s[..|s| - 1]);
    }
  }

  lemma {:induction false} SumMonotone<T>(f: T -> real, g: T -> real, s: seq<T>)
    requires forall x :: x in s ==> f(x) <= g(x)
    ensures Sum(f, s) <= Sum(g, s)
  {
    if s != [] {
      SumMonotone(f, g, s[..|s| - 1]);
    }
  }

  lemma {:induction false} SumZero<T>(f: T -> real, s: seq<T>)
    requires forall x :: x in s ==> f(x) == 0.0
    ensures Sum(f, s) == 0.0
  {
    if s != [] {
      SumZero(f, s[..|s| - 1]);
    }
  }

  lemma {:induction false} SumNonNegative<T>(f: T -> real, s: seq<T>)
    requires forall x :: x in s ==> 0.0 <= f(x)
    ensures 0.0 <= Sum(f, s)
  {
    if s != [] {
      SumNonNegative(f, s[..|s| - 1]);
    }
  }

  /** A sum of non-negative terms dominates each of its terms. */
  lemma {:induction false} SumAtLeastTerm<T>(f: T -> real, s: seq<T>, i: nat)
    requires i < |s|
    requires forall x :: x in s ==> 0.0 <= f(x)
    ensures Sum(f, s) >= f(s[i])
  {
    var n := |s| - 1;
    if i == n {
      SumNonNegative(f, s[..n]);
    } else {
      SumAtLeastTerm(f, s[..n], i);
    }
  }

  lemma {:induction false} SumBelow<T>(f: T -> real, g: T -> real, a: seq<T>, b: seq<T>)
    requires |a| == |b| && forall i :: 0 <= i < |a| ==> f(a[i]) <= g(b[i])
    ensures Sum(f, a) <= Sum(g, b)
  {
    if a != [] {
      var n := |a| - 1;
      SumBelow(f, g, a[..n], b[..n]);
    }
  }

  lemma {:induction false} SumRemove<T>(f: T -> real, s: seq<T>, i: nat)
    requires i < |s|
    ensures Sum(f, s) == Sum(f, s[..i] + s[i + 1..]) + f(s[i])
  {
    var n := |s| - 1;
    if i == n {
      assert s[..i] + s[i + 1..] == s[..n];
    } else {
      SumRemove(f, s[..n], i);
      assert s[..n][..i] + s[..n][i + 1..] + [s[n]] == s[..i] + s[i + 1..];
      SumAppend(f, s[..n][..i] + s[..n][i + 1..], s[n]);
    }
  }
}
