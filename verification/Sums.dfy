/** Sums over sequences, and their independence of the order of the elements. */
module Sums {

  ghost function SumBy<T>(s: seq<T>, f: T -> nat): nat {
    if s == [] then 0 else SumBy(s[..|s|-1], f) + f(s[|s|-1])
  }

  function Without<T>(s: seq<T>, i: nat): seq<T>
    requires i < |s|
  {
    s[..i] + s[i+1..]
  }

  lemma {:induction false} SumWithout<T>(s: seq<T>, i: nat, f: T -> nat)
    requires i < |s|
    ensures SumBy(s, f) == SumBy(Without(s, i), f) + f(s[i])
  {
    var front, w := s[..|s|-1], Without(s, i);
    if i == |s|-1 {
      assert w == front;
    } else {
      SumWithout(front, i, f);
      assert w[|w|-1] == s[|s|-1];
      assert w[..|w|-1] == Without(front, i);
    }
  }

  lemma MultisetWithout<T>(s: seq<T>, i: nat)
    requires i < |s|
    ensures multiset(Without(s, i)) == multiset(s) - multiset{s[i]}
  {
    assert s == s[..i] + [s[i]] + s[i+1..];
  }

  lemma {:induction false} SumPermutes<T>(s: seq<T>, t: seq<T>, f: T -> nat)
    requires multiset(s) == multiset(t)
    ensures SumBy(s, f) == SumBy(t, f)
    decreases |s|
  {
    assert |multiset(s)| == |multiset(t)|;
    if s != [] {
      var a := s[|s|-1];
      assert a in multiset(t);
      var i :| 0 <= i < |t| && t[i] == a;
      SumWithout(t, i, f);
      MultisetWithout(t, i);
      MultisetWithout(s, |s|-1);
      assert Without(s, |s|-1) == s[..|s|-1];
      SumPermutes(s[..|s|-1], Without(t, i), f);
    }
  }

  /** Two orders of the same keys list the same values, if equal keys have equal values. */
  lemma {:induction false} ValuesPermute<K, V>(ks: seq<K>, vs: seq<V>, ks': seq<K>, vs': seq<V>)
    requires |ks| == |vs| && |ks'| == |vs'| && multiset(ks) == multiset(ks')
    requires forall i, j :: 0 <= i < |ks| && 0 <= j < |ks'| && ks[i] == ks'[j] ==> vs[i] == vs'[j]
    ensures multiset(vs) == multiset(vs')
    decreases |ks|
  {
    assert |multiset(ks)| == |multiset(ks')|;
    if ks != [] {
      var n := |ks| - 1;
      assert ks[n] in multiset(ks');
      var j :| 0 <= j < |ks'| && ks'[j] == ks[n];
      MultisetWithout(ks', j);
      MultisetWithout(ks, n);
      MultisetWithout(vs', j);
      assert Without(ks, n) == ks[..n];
      assert vs == vs[..n] + [vs[n]];
      ValuesPermute(ks[..n], vs[..n], Without(ks', j), Without(vs', j));
    }
  }
}
