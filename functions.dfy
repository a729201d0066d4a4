/**
 * Function of functions/functions.py: a domain, a codomain and a dictionary mapping, with
 * application, the injective / surjective / bijective checks and the inverse of a bijection.
 */
module Functions {
  import opened Wrappers

  /** A Function: domain and codomain sets and the mapping. The code never checks that they agree. */
  datatype Function<D(==), C(==)> = Function(domain: set<D>, codomain: set<C>, mapping: map<D, C>)

  /** apply(x): ValueError outside the domain; otherwise the dictionary lookup, which raises KeyError for a domain element the mapping lacks. */
  function Apply<D(==), C(==)>(f: Function<D, C>, x: D): (r: Result<C>)
    ensures r.Ok? <==> x in f.domain && x in f.mapping
    ensures r.Ok? ==> r.value == f.mapping[x]
    ensures r.Err? ==> r.error == (if x in f.domain then KeyError else ValueError)
  {
    if x !in f.domain then Err(ValueError)
    else if x !in f.mapping then Err(KeyError)
    else Ok(f.mapping[x])
  }

  /** No two keys of m share a value. */
  ghost predicate Injective<D(!new), C>(m: map<D, C>)
  {
    forall k1, k2 :: k1 in m && k2 in m && m[k1] == m[k2] ==> k1 == k2
  }

  /** is_injective(): as many distinct values as entries. */
  predicate IsInjective<D(==), C(==)>(f: Function<D, C>)
  {
    |f.mapping.Values| == |f.mapping|
  }

  /** is_surjective(): the codomain is exactly the set of values. */
  predicate IsSurjective<D(==), C(==)>(f: Function<D, C>)
  {
    f.codomain == f.mapping.Values
  }

  /** is_bijective(): injective and surjective. */
  predicate IsBijective<D(==), C(==)>(f: Function<D, C>)
  {
    IsInjective(f) && IsSurjective(f)
  }

  /** Removing key k leaves the values of the other keys, to which m[k] is added back. */
  lemma RemoveKey<D(!new), C(!new)>(m: map<D, C>, k: D)
    requires k in m
    ensures m.Values == (m - {k}).Values + {m[k]}
    ensures |(m - {k}).Keys| == |m.Keys| - 1
  {
    var m' := m - {k};
    forall v | v in m.Values
      ensures v in m'.Values + {m[k]}
    {
      var j :| j in m && m[j] == v;
      if j != k {
        assert m'[j] == v;
      }
    }
    assert m'.Keys == m.Keys - {k};
  }

  /** There are never more values than keys. */
  lemma {:induction false} ValuesAtMost<D(!new), C(!new)>(m: map<D, C>)
    ensures |m.Values| <= |m.Keys|
    decreases |m.Keys|
  {
    if |m.Keys| > 0 {
      var k :| k in m;
      RemoveKey(m, k);
      ValuesAtMost(m - {k});
    }
  }

  /** An injective mapping has as many values as keys. */
  lemma {:induction false} InjectiveValues<D(!new), C(!new)>(m: map<D, C>)
    requires Injective(m)
    ensures |m.Values| == |m.Keys|
    decreases |m.Keys|
  {
    if |m.Keys| > 0 {
      var k :| k in m;
      var m' := m - {k};
      RemoveKey(m, k);
      InjectiveValues(m');
      forall j | j in m'
        ensures m'[j] != m[k]
      {
        assert j in m && j != k;
      }
    }
  }

  /** Two keys with one value leave fewer values than keys. */
  lemma CollisionLosesValue<D(!new), C(!new)>(m: map<D, C>, k1: D, k2: D)
    requires k1 in m && k2 in m && k1 != k2 && m[k1] == m[k2]
    ensures |m.Values| < |m.Keys|
  {
    var m' := m - {k1};
    RemoveKey(m, k1);
    assert m'[k2] == m[k1];
    assert m.Values == m'.Values;
    ValuesAtMost(m');
  }

  /** is_injective() holds exactly when no two keys share a value. */
  lemma InjectiveIff<D(!new), C(!new)>(f: Function<D, C>)
    ensures IsInjective(f) <==> Injective(f.mapping)
  {
    if Injective(f.mapping) {
      InjectiveValues(f.mapping);
    } else {
      var k1, k2 :| k1 in f.mapping && k2 in f.mapping && f.mapping[k1] == f.mapping[k2] && k1 != k2;
      CollisionLosesValue(f.mapping, k1, k2);
    }
  }

  /** The mapping turned around: each value maps back to its key. */
  function Invert<D(==,!new), C(==,!new)>(m: map<D, C>): (r: map<C, D>)
    requires Injective(m)
    ensures r.Keys == m.Values
    ensures forall k :: k in m ==> m[k] in r && r[m[k]] == k
  {
    map k | k in m :: m[k] := k
  }

  /**
   * inverse(): ValueError unless the function is bijective; otherwise domain and codomain swap and
   * each value maps back to its key.
   */
  function Inverse<D(==,!new), C(==,!new)>(f: Function<D, C>): (r: Result<Function<C, D>>)
    ensures r.Err? <==> !IsBijective(f)
    ensures r.Err? ==> r.error == ValueError
    ensures r.Ok? ==> r.value.domain == f.codomain && r.value.codomain == f.domain
    ensures r.Ok? ==> r.value.mapping.Keys == f.mapping.Values
    ensures r.Ok? ==> forall k :: k in f.mapping ==> r.value.mapping[f.mapping[k]] == k
  {
    if !IsBijective(f) then Err(ValueError)
    else
      InjectiveIff(f);
      Ok(Function(f.codomain, f.domain, Invert(f.mapping)))
  }

  /** The inverse of a bijection takes apply(x) back to x. */
  lemma InverseUndoesApply<D(!new), C(!new)>(f: Function<D, C>, g: Function<C, D>, x: D)
    requires Inverse(f) == Ok(g) && Apply(f, x).Ok?
    ensures Apply(g, Apply(f, x).value) == Ok(x)
  {
    var v := f.mapping[x];
    assert v in f.mapping.Values;
  }

  /** Whatever the inverse maps y to is a key that the function maps back to y. */
  lemma ApplyUndoesInverse<D(!new), C(!new)>(f: Function<D, C>, g: Function<C, D>, y: C)
    requires Inverse(f) == Ok(g) && Apply(g, y).Ok?
    ensures Apply(g, y).value in f.mapping && f.mapping[Apply(g, y).value] == y
  {
    var k :| k in f.mapping && f.mapping[k] == y;
  }

  /** The inverse of a bijection passes is_injective(). */
  lemma InverseIsInjective<D(!new), C(!new)>(f: Function<D, C>, g: Function<C, D>)
    requires Inverse(f) == Ok(g)
    ensures IsInjective(g)
  {
    forall v1, v2 | v1 in g.mapping && v2 in g.mapping && g.mapping[v1] == g.mapping[v2]
      ensures v1 == v2
    {
      var k1 :| k1 in f.mapping && f.mapping[k1] == v1;
      var k2 :| k2 in f.mapping && f.mapping[k2] == v2;
    }
    InjectiveIff(g);
  }

  /**
   * is_surjective() holds iff every element of the codomain is the image of some key and every
   * image lies in the codomain.
   */
  lemma SurjectiveIff<D(!new), C(!new)>(f: Function<D, C>)
    ensures IsSurjective(f) <==>
              (forall y :: y in f.codomain ==> exists x :: x in f.mapping && f.mapping[x] == y) &&
              (forall x :: x in f.mapping ==> f.mapping[x] in f.codomain)
  {
    if (forall y :: y in f.codomain ==> exists x :: x in f.mapping && f.mapping[x] == y) &&
       (forall x :: x in f.mapping ==> f.mapping[x] in f.codomain) {
      forall y | y in f.mapping.Values
        ensures y in f.codomain
      {
        var x :| x in f.mapping && f.mapping[x] == y;
      }
    }
  }

  /** is_bijective() holds exactly for a mapping with no shared values whose values make up the codomain. */
  lemma BijectiveIff<D(!new), C(!new)>(f: Function<D, C>)
    ensures IsBijective(f) <==> Injective(f.mapping) && f.codomain == f.mapping.Values
  {
    InjectiveIff(f);
  }

  // ---------------------------------------------------------------- the functions of the tests

  /** {1: 4, 2: 5, 3: 6} from {1, 2, 3} onto {4, 5, 6}: apply, bijectivity and the inverse mapping. */
  lemma BijectionExample()
    ensures var f := Function({1, 2, 3}, {4, 5, 6}, map[1 := 4, 2 := 5, 3 := 6]);
      Apply(f, 1) == Ok(4) && Apply(f, 2) == Ok(5) && Apply(f, 3) == Ok(6) && Apply(f, 4) == Err(ValueError) &&
      IsBijective(f) && Inverse(f) == Ok(Function({4, 5, 6}, {1, 2, 3}, map[4 := 1, 5 := 2, 6 := 3]))
  {
    var m := map[1 := 4, 2 := 5, 3 := 6];
    var f := Function({1, 2, 3}, {4, 5, 6}, m);
    assert m.Keys == {1, 2, 3};
    assert m.Values == {4, 5, 6} by {
      assert m[1] == 4 && m[2] == 5 && m[3] == 6;
    }
    assert |m.Values| == 3 && |m| == 3;
    assert IsBijective(f);
    var g := Inverse(f).value.mapping;
    assert g.Keys == {4, 5, 6};
    assert g[4] == 1 && g[5] == 2 && g[6] == 3;
    assert g == map[4 := 1, 5 := 2, 6 := 3];
  }

  /** {1: 4, 2: 4, 3: 5} is not injective, so it is not bijective and inverse() raises ValueError. */
  lemma NonBijectionExample()
    ensures !IsInjective(Function({1, 2, 3}, {4, 5, 6}, map[1 := 4, 2 := 4, 3 := 5]))
    ensures Inverse(Function({1, 2, 3}, {4, 5, 6}, map[1 := 4, 2 := 4, 3 := 5])) == Err(ValueError)
  {
    CollisionLosesValue(map[1 := 4, 2 := 4, 3 := 5], 1, 2);
  }
}
