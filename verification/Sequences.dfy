/** Facts about sequences that several modules share. */
module Sequences {
  import opened Wrappers

  function RemoveAt<T>(s: seq<T>, i: nat): seq<T>
    requires i < |s|
  {
    s[..i] + s[i + 1..]
  }

  lemma RemoveAtMultiset<T>(s: seq<T>, i: nat)
    requires i < |s|
    ensures multiset(s) == multiset{s[i]} + multiset(RemoveAt(s, i))
  {
    assert s == s[..i] + [s[i]] + s[i + 1..];
  }

  /** Two permutations of one another, seen through the first element of one of them. */
  lemma PermutedTail<T>(s: seq<T>, t: seq<T>) returns (i: nat)
    requires s != [] && multiset(s) == multiset(t)
    ensures i < |t| && t[i] == s[0] && multiset(s[1..]) == multiset(RemoveAt(t, i))
  {
    assert s == [s[0]] + s[1..];
    assert s[0] in multiset(t);
    i :| 0 <= i < |t| && t[i] == s[0];
    RemoveAtMultiset(t, i);
    assert multiset(s[1..]) == multiset(s) - multiset{s[0]};
  }

  lemma PermutedLength<T>(s: seq<T>, t: seq<T>)
    requires multiset(s) == multiset(t)
    ensures |s| == |t|
  {
    assert |multiset(s)| == |s| && |multiset(t)| == |t|;
  }

  // ----- distinct elements -----

  predicate Distinct<T(==)>(s: seq<T>) {
    forall i, j :: 0 <= i < j < |s| ==> s[i] != s[j]
  }

  ghost function Elements<T>(s: seq<T>): set<T> {
    set x | x in s
  }

  lemma {:induction false} DistinctCount<T>(s: seq<T>)
    ensures |Elements(s)| <= |s| && (|Elements(s)| == |s| <==> Distinct(s))
  {
    if s != [] {
      var n := |s| - 1;
      assert s == s[..n] + [s[n]];
      DistinctCount(s[..n]);
      assert Elements(s) == Elements(s[..n]) + {s[n]};
      if s[n] in s[..n] {
        var i :| 0 <= i < n && s[..n][i] == s[n];
        assert s[i] == s[n];
        assert Elements(s) == Elements(s[..n]);
      } else {
        assert |Elements(s)| == |Elements(s[..n])| + 1;
        assert Distinct(s) <==> Distinct(s[..n]) by { LastNew(s); }
      }
    }
  }

  lemma LastNew<T>(s: seq<T>)
    requires s != [] && s[|s| - 1] !in s[..|s| - 1]
    ensures Distinct(s) <==> Distinct(s[..|s| - 1])
  {
    var t := s[..|s| - 1];
    if Distinct(t) {
      forall i, j | 0 <= i < j < |s| ensures s[i] != s[j] { assert s[i] == t[i] && (j < |t| ==> s[j] == t[j]); }
    }
  }

  // ----- sums -----

  function Sum<T>(value: T -> nat, xs: seq<T>): nat {
    if xs == [] then 0 else value(xs[0]) + Sum(value, xs[1..])
  }

  lemma {:induction false} SumWithout<T>(value: T -> nat, xs: seq<T>, i: nat)
    requires i < |xs|
    ensures Sum(value, xs) == value(xs[i]) + Sum(value, RemoveAt(xs, i))
  {
    if i == 0 {
      assert RemoveAt(xs, 0) == xs[1..];
    } else {
      SumWithout(value, xs[1..], i - 1);
      assert RemoveAt(xs, i)[1..] == RemoveAt(xs[1..], i - 1);
    }
  }

  /** A sum does not depend on the order. */
  lemma {:induction false} SumPermuted<T>(value: T -> nat, xs: seq<T>, ys: seq<T>)
    requires multiset(xs) == multiset(ys)
    ensures Sum(value, xs) == Sum(value, ys)
    decreases |xs|
  {
    PermutedLength(xs, ys);
    if xs != [] {
      var i := PermutedTail(xs, ys);
      SumPermuted(value, xs[1..], RemoveAt(ys, i));
      SumWithout(value, ys, i);
    }
  }

  // ----- runs of fallible steps -----

  /** One more step after a run that may already have been refused. */
  function Then<S, A>(step: (S, A) -> Option<S>, s: Option<S>, a: A): Option<S> {
    match s
    case None => None
    case Some(v) => step(v, a)
  }

  function Run<S, A>(step: (S, A) -> Option<S>, s: Option<S>, xs: seq<A>): Option<S>
    decreases |xs|
  {
    if xs == [] then s else Run(step, Then(step, s, xs[0]), xs[1..])
  }

  /** Any two adjacent steps can be exchanged, refusals included. */
  ghost predicate Commutes<S(!new), A(!new)>(step: (S, A) -> Option<S>) {
    forall s: S, a: A, b: A :: Then(step, step(s, a), b) == Then(step, step(s, b), a)
  }

  lemma {:induction false} RunToFront<S(!new), A(!new)>(step: (S, A) -> Option<S>, s: Option<S>, xs: seq<A>, i: nat)
    requires Commutes(step) && i < |xs|
    ensures Run(step, s, xs) == Run(step, Then(step, s, xs[i]), RemoveAt(xs, i))
    decreases |xs|
  {
    if i == 0 {
      assert RemoveAt(xs, 0) == xs[1..];
    } else {
      RunToFront(step, Then(step, s, xs[0]), xs[1..], i - 1);
      assert RemoveAt(xs, i)[0] == xs[0] && RemoveAt(xs, i)[1..] == RemoveAt(xs[1..], i - 1);
    }
  }

  /** Commuting steps reach the same end, or the same refusal, in every order. */
  lemma {:induction false} RunPermuted<S(!new), A(!new)>(step: (S, A) -> Option<S>, s: Option<S>, xs: seq<A>, ys: seq<A>)
    requires Commutes(step) && multiset(xs) == multiset(ys)
    ensures Run(step, s, xs) == Run(step, s, ys)
    decreases |xs|
  {
    PermutedLength(xs, ys);
    if xs != [] {
      var i := PermutedTail(xs, ys);
      RunToFront(step, s, ys, i);
      RunPermuted(step, Then(step, s, xs[0]), xs[1..], RemoveAt(ys, i));
    }
  }
}
