/** Finite sums of a function over a set of keys. */
module Sums {

  ghost function Sum<K(!new)>(s: set<K>, f: K -> real): real {
    if s == {} then 0.0
    else
      var k :| k in s;
      f(k) + Sum(s - {k}, f)
  }

  /** Any key can be taken out first. */
  lemma {:induction false} SumPick<K(!new)>(s: set<K>, f: K -> real, k: K)
    requires k in s
    ensures Sum(s, f) == f(k) + Sum(s - {k}, f)
    decreases |s|
  {
    var j :| j in s && Sum(s, f) == f(j) + Sum(s - {j}, f);
    if j != k {
      SumPick(s - {j}, f, k);
      SumPick(s - {k}, f, j);
      assert s - {j} - {k} == s - {k} - {j};
    }
  }

  lemma {:induction false} SumSame<K(!new)>(s: set<K>, f: K -> real, g: K -> real)
    requires forall k | k in s :: f(k) == g(k)
    ensures Sum(s, f) == Sum(s, g)
    decreases |s|
  {
    if s != {} {
      var k :| k in s;
      SumPick(s, f, k);
      SumPick(s, g, k);
      SumSame(s - {k}, f, g);
    }
  }

  /** Changing the function at one key changes the sum by the difference there. */
  lemma SumChange<K(!new)>(s: set<K>, f: K -> real, g: K -> real, k: K)
    requires k in s && forall j | j in s && j != k :: f(j) == g(j)
    ensures Sum(s, g) == Sum(s, f) - f(k) + g(k)
  {
    SumPick(s, f, k);
    SumPick(s, g, k);
    SumSame(s - {k}, f, g);
  }

  lemma SumGrow<K(!new)>(s: set<K>, f: K -> real, g: K -> real, k: K)
    requires k !in s && forall j | j in s :: f(j) == g(j)
    ensures Sum(s + {k}, g) == Sum(s, f) + g(k)
  {
    SumPick(s + {k}, g, k);
    assert s + {k} - {k} == s;
    SumSame(s, f, g);
  }

  lemma {:induction false} SumAdd<K(!new)>(s: set<K>, f: K -> real, g: K -> real, h: K -> real)
    requires forall k | k in s :: h(k) == f(k) + g(k)
    ensures Sum(s, h) == Sum(s, f) + Sum(s, g)
    decreases |s|
  {
    if s != {} {
      var k :| k in s;
      SumPick(s, f, k);
      SumPick(s, g, k);
      SumPick(s, h, k);
      SumAdd(s - {k}, f, g, h);
    }
  }

  lemma {:induction false} SumNonneg<K(!new)>(s: set<K>, f: K -> real)
    requires forall k | k in s :: f(k) >= 0.0
    ensures Sum(s, f) >= 0.0
    ensures forall k | k in s :: f(k) <= Sum(s, f)
    decreases |s|
  {
    forall k | k in s
      ensures 0.0 <= f(k) <= Sum(s, f)
    {
      SumPick(s, f, k);
      SumNonneg(s - {k}, f);
    }
  }
}
