/** Sums of a per-element quantity over a sequence. Every invariant that counts
    threads ("how many hold the lock") and every termination measure of the
    concurrent models is such a sum, and every atomic step changes one element. */
module Sums {

  function Total<T>(f: T -> nat, s: seq<T>): nat
  {
    if s == [] then 0 else f(s[0]) + Total(f, s[1..])
  }

  /** Changing one element changes the sum by the difference of its terms. */
  lemma {:induction false} TotalUpdate<T>(f: T -> nat, s: seq<T>, i: nat, x: T)
    requires i < |s|
    ensures Total(f, s[i := x]) + f(s[i]) == Total(f, s) + f(x)
  {
    if i == 0 {
      assert s[i := x][1..] == s[1..];
    } else {
      assert s[i := x][1..] == s[1..][i - 1 := x];
      TotalUpdate(f, s[1..], i - 1, x);
    }
  }

  lemma {:induction false} TotalAtLeast<T>(f: T -> nat, s: seq<T>, i: nat)
    requires i < |s|
    ensures f(s[i]) <= Total(f, s)
  {
    if i > 0 {
      TotalAtLeast(f, s[1..], i - 1);
    }
  }

  /** If the whole sum is no more than one term, every other term is zero. */
  lemma {:induction false} OthersZero<T>(f: T -> nat, s: seq<T>, i: nat)
    requires i < |s| && Total(f, s) <= f(s[i])
    ensures forall j :: 0 <= j < |s| && j != i ==> f(s[j]) == 0
  {
    forall j | 0 <= j < |s| && j != i
      ensures f(s[j]) == 0
    {
      TwoTerms(f, s, i, j);
    }
  }

  lemma {:induction false} TwoTerms<T>(f: T -> nat, s: seq<T>, i: nat, j: nat)
    requires i < |s| && j < |s| && i != j
    ensures f(s[i]) + f(s[j]) <= Total(f, s)
  {
    if i == 0 {
      TotalAtLeast(f, s[1..], j - 1);
    } else if j == 0 {
      TotalAtLeast(f, s[1..], i - 1);
    } else {
      TwoTerms(f, s[1..], i - 1, j - 1);
    }
  }

  /** A positive sum has a positive term. */
  lemma {:induction false} PositiveTerm<T>(f: T -> nat, s: seq<T>) returns (i: nat)
    requires Total(f, s) > 0
    ensures i < |s| && f(s[i]) > 0
  {
    if f(s[0]) > 0 {
      i := 0;
    } else {
      i := PositiveTerm(f, s[1..]);
      i := i + 1;
    }
  }

  /** If a term is not the whole sum, another term is positive. */
  lemma {:induction false} OtherTerm<T>(f: T -> nat, s: seq<T>, i: nat) returns (j: nat)
    requires i < |s| && f(s[i]) < Total(f, s)
    ensures j < |s| && j != i && f(s[j]) > 0
  {
    if i == 0 {
      j := PositiveTerm(f, s[1..]);
      j := j + 1;
    } else if f(s[0]) > 0 {
      j := 0;
    } else {
      j := OtherTerm(f, s[1..], i - 1);
      j := j + 1;
    }
  }

  lemma {:induction false} TotalZero<T>(f: T -> nat, s: seq<T>)
    requires forall i :: 0 <= i < |s| ==> f(s[i]) == 0
    ensures Total(f, s) == 0
  {
    TotalConstant(f, s, 0);
  }

  lemma {:induction false} TotalConstant<T>(f: T -> nat, s: seq<T>, k: nat)
    requires forall i :: 0 <= i < |s| ==> f(s[i]) == k
    ensures Total(f, s) == k * |s|
  {
    if s != [] {
      TotalConstant(f, s[1..], k);
    }
  }

  lemma {:induction false} TotalMonotone<T>(f: T -> nat, g: T -> nat, s: seq<T>)
    requires forall i :: 0 <= i < |s| ==> f(s[i]) <= g(s[i])
    ensures Total(f, s) <= Total(g, s)
  {
    if s != [] {
      TotalMonotone(f, g, s[1..]);
    }
  }

  lemma {:induction false} TotalConcat<T>(f: T -> nat, a: seq<T>, b: seq<T>)
    ensures Total(f, a + b) == Total(f, a) + Total(f, b)
  {
    if a == [] {
      assert a + b == b;
    } else {
      assert (a + b)[1..] == a[1..] + b;
      TotalConcat(f, a[1..], b);
    }
  }

  lemma {:induction false} TotalAtMost<T>(f: T -> nat, s: seq<T>, k: nat)
    requires forall i :: 0 <= i < |s| ==> f(s[i]) <= k
    ensures Total(f, s) <= k * |s|
  {
    if s != [] {
      TotalAtMost(f, s[1..], k);
    }
  }

  lemma {:induction false} TotalLess<T>(f: T -> nat, s: seq<T>, k: nat, i: nat)
    requires i < |s| && f(s[i]) < k
    requires forall j :: 0 <= j < |s| ==> f(s[j]) <= k
    ensures Total(f, s) < k * |s|
  {
    var rest := s[1..];
    assert k * |s| == k + k * |rest|;
    if i == 0 {
      TotalAtMost(f, rest, k);
    } else {
      TotalLess(f, rest, k, i - 1);
    }
  }

  /** If `f` never exceeds `g`, the slack of one element is part of the slack of the sums. */
  lemma {:induction false} SlackAt<T>(f: T -> nat, g: T -> nat, s: seq<T>, i: nat)
    requires i < |s|
    requires forall j :: 0 <= j < |s| ==> f(s[j]) <= g(s[j])
    ensures g(s[i]) - f(s[i]) <= Total(g, s) - Total(f, s)
  {
    if i == 0 {
      TotalMonotone(f, g, s[1..]);
    } else {
      SlackAt(f, g, s[1..], i - 1);
    }
  }

  /** If no term grows and one shrinks, the sum shrinks. */
  lemma {:induction false} TotalDecreases<T, U>(f: T -> nat, a: seq<T>, g: U -> nat, b: seq<U>, i: nat)
    requires |a| == |b| && i < |a| && f(a[i]) < g(b[i])
    requires forall j :: 0 <= j < |a| ==> f(a[j]) <= g(b[j])
    ensures Total(f, a) < Total(g, b)
  {
    if i == 0 {
      TotalNoMore(f, a[1..], g, b[1..]);
    } else {
      TotalDecreases(f, a[1..], g, b[1..], i - 1);
    }
  }

  lemma {:induction false} TotalNoMore<T, U>(f: T -> nat, a: seq<T>, g: U -> nat, b: seq<U>)
    requires |a| == |b|
    requires forall j :: 0 <= j < |a| ==> f(a[j]) <= g(b[j])
    ensures Total(f, a) <= Total(g, b)
  {
    if a != [] {
      TotalNoMore(f, a[1..], g, b[1..]);
    }
  }
}
