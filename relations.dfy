/**
 * Relation of relations/relations.py: two sets and a set of ordered pairs, the property checks over
 * them, the inverse relation and equality. The class takes one element type for both sides, so that
 * reflexivity and symmetry compare like with like.
 */
module Relations {
  /** A Relation: set_a, set_b and the pairs. The code never checks that pairs lie in set_a x set_b. */
  datatype Relation<T(==,!new)> = Relation(setA: set<T>, setB: set<T>, pairs: set<(T, T)>)

  /** is_reflexive(): every element of set_a is related to itself. */
  predicate IsReflexive<T(==,!new)>(r: Relation<T>)
  {
    forall a :: a in r.setA ==> (a, a) in r.pairs
  }

  /** is_symmetric(): every pair also appears reversed. */
  predicate IsSymmetric<T(==,!new)>(r: Relation<T>)
  {
    forall p :: p in r.pairs ==> (p.1, p.0) in r.pairs
  }

  /** is_transitive(): no pairs (a, b), (b, d) without (a, d). */
  predicate IsTransitive<T(==,!new)>(r: Relation<T>)
  {
    forall p, q :: p in r.pairs && q in r.pairs && p.1 == q.0 ==> (p.0, q.1) in r.pairs
  }

  /** is_anti_symmetric(): no pair (a, b) with a != b whose reverse is also a pair. */
  predicate IsAntiSymmetric<T(==,!new)>(r: Relation<T>)
  {
    forall p :: p in r.pairs && (p.1, p.0) in r.pairs ==> p.0 == p.1
  }

  /** inverse(): set_a and set_b swap places and every pair is reversed. */
  function Inverse<T(==,!new)>(r: Relation<T>): (s: Relation<T>)
    ensures s.setA == r.setB && s.setB == r.setA
    ensures forall a, b :: (a, b) in s.pairs <==> (b, a) in r.pairs
  {
    var ps := set p | p in r.pairs :: (p.1, p.0);
    assert forall a, b :: (b, a) in r.pairs ==> (a, b) in ps by {
      forall a, b | (b, a) in r.pairs
        ensures (a, b) in ps
      {
        var p := (b, a);
        assert (p.1, p.0) in ps;
      }
    }
    Relation(r.setB, r.setA, ps)
  }

  /** __eq__: set_a, set_b and the pairs all agree. */
  predicate Equals<T(==,!new)>(r: Relation<T>, s: Relation<T>)
  {
    r.setA == s.setA && r.setB == s.setB && r.pairs == s.pairs
  }

  /** __eq__ compares nothing but the three sets, so it is equality of the values they make up. */
  lemma EqualsIff<T(!new)>(r: Relation<T>, s: Relation<T>)
    ensures Equals(r, s) <==> r == s
  {
  }

  /** Inverting twice gives back the relation. */
  lemma InverseInvolution<T(!new)>(r: Relation<T>)
    ensures Inverse(Inverse(r)) == r
  {
    var s := Inverse(Inverse(r));
    assert forall p :: p in s.pairs <==> p in r.pairs by {
      forall p
        ensures p in s.pairs <==> p in r.pairs
      {
        assert p == (p.0, p.1);
      }
    }
  }

  /** The pairs (a, a) for a in set_a. */
  function Diagonal<T(==,!new)>(xs: set<T>): (d: set<(T, T)>)
    ensures forall a :: a in xs <==> (a, a) in d
    ensures forall p :: p in d ==> p.0 == p.1
  {
    set a | a in xs :: (a, a)
  }

  /** A relation is reflexive exactly when it contains the diagonal of set_a. */
  lemma ReflexiveIffDiagonal<T(!new)>(r: Relation<T>)
    ensures IsReflexive(r) <==> Diagonal(r.setA) <= r.pairs
  {
    if IsReflexive(r) {
      forall p | p in Diagonal(r.setA)
        ensures p in r.pairs
      {
        assert p == (p.0, p.0);
        assert p.0 in r.setA;
      }
    }
  }

  /** On a relation from a set to itself, inverting keeps reflexivity. */
  lemma ReflexiveInverse<T(!new)>(r: Relation<T>)
    requires r.setA == r.setB
    ensures IsReflexive(r) <==> IsReflexive(Inverse(r))
  {
  }

  /** A relation is symmetric exactly when its pairs equal those of its inverse. */
  lemma SymmetricIffSelfInverse<T(!new)>(r: Relation<T>)
    ensures IsSymmetric(r) <==> r.pairs == Inverse(r).pairs
  {
    var ps := Inverse(r).pairs;
    if IsSymmetric(r) {
      forall p
        ensures p in r.pairs <==> p in ps
      {
        assert p == (p.0, p.1);
        if p in ps {
          assert (p.1, p.0) in r.pairs;
          assert (p.0, p.1) in r.pairs;
        }
      }
    }
    if r.pairs == ps {
      forall p | p in r.pairs
        ensures (p.1, p.0) in r.pairs
      {
        assert p == (p.0, p.1);
        assert (p.1, p.0) in ps;
      }
    }
  }

  /** A relation is transitive exactly when its inverse is. */
  lemma TransitiveInverse<T(!new)>(r: Relation<T>)
    ensures IsTransitive(r) <==> IsTransitive(Inverse(r))
  {
    var s := Inverse(r);
    if IsTransitive(r) {
      forall p, q | p in s.pairs && q in s.pairs && p.1 == q.0
        ensures (p.0, q.1) in s.pairs
      {
        assert (p.1, p.0) in r.pairs && (q.1, q.0) in r.pairs;
      }
    }
    if IsTransitive(s) {
      forall p, q | p in r.pairs && q in r.pairs && p.1 == q.0
        ensures (p.0, q.1) in r.pairs
      {
        assert (q.1, q.0) in s.pairs && (p.1, p.0) in s.pairs;
      }
    }
  }

  /** A relation is anti-symmetric exactly when it shares only pairs (a, a) with its inverse. */
  lemma AntiSymmetricIff<T(!new)>(r: Relation<T>)
    ensures IsAntiSymmetric(r) <==> forall p :: p in r.pairs * Inverse(r).pairs ==> p.0 == p.1
  {
    var ps := Inverse(r).pairs;
    if IsAntiSymmetric(r) {
      forall p | p in r.pairs * ps
        ensures p.0 == p.1
      {
        assert p == (p.0, p.1);
      }
    }
    if forall p :: p in r.pairs * ps ==> p.0 == p.1 {
      forall p | p in r.pairs && (p.1, p.0) in r.pairs
        ensures p.0 == p.1
      {
        assert p == (p.0, p.1);
        assert p in ps;
      }
    }
  }

  // ---------------------------------------------------------------- the relations of the tests

  /** {(1, 2), (2, 3)} is not transitive; adding (1, 3) makes it so. */
  lemma TransitiveExamples()
    ensures !IsTransitive(Relation({1, 2, 3}, {1, 2, 3}, {(1, 2), (2, 3)}))
    ensures IsTransitive(Relation({1, 2, 3}, {1, 2, 3}, {(1, 2), (2, 3), (1, 3)}))
  {
    var r := Relation({1, 2, 3}, {1, 2, 3}, {(1, 2), (2, 3)});
    assert (1, 2) in r.pairs && (2, 3) in r.pairs && (1, 3) !in r.pairs;
  }

  /**
   * The diagonal of {1, 2, 3} is reflexive; {(1, 2), (2, 1)} is symmetric and not anti-symmetric;
   * {(1, 4), (2, 5), (3, 6)} is anti-symmetric but neither symmetric nor reflexive.
   */
  lemma SymmetryExamples()
    ensures IsReflexive(Relation({1, 2, 3}, {1, 2, 3}, {(1, 1), (2, 2), (3, 3)}))
    ensures IsSymmetric(Relation({1, 2, 3}, {1, 2, 3}, {(1, 2), (2, 1)}))
    ensures !IsAntiSymmetric(Relation({1, 2, 3}, {1, 2, 3}, {(1, 2), (2, 1)}))
    ensures IsAntiSymmetric(Relation({1, 2, 3}, {4, 5, 6}, {(1, 4), (2, 5), (3, 6)}))
    ensures !IsSymmetric(Relation({1, 2, 3}, {4, 5, 6}, {(1, 4), (2, 5), (3, 6)}))
    ensures !IsReflexive(Relation({1, 2, 3}, {4, 5, 6}, {(1, 4), (2, 5), (3, 6)}))
  {
    var r := Relation({1, 2, 3}, {1, 2, 3}, {(1, 2), (2, 1)});
    assert (1, 2) in r.pairs && (2, 1) in r.pairs;
    var s := Relation({1, 2, 3}, {4, 5, 6}, {(1, 4), (2, 5), (3, 6)});
    assert (1, 4) in s.pairs && (4, 1) !in s.pairs;
    assert 1 in s.setA && (1, 1) !in s.pairs;
  }

  /** The inverse of {(1, 4), (2, 5), (3, 6)} from {1, 2, 3} to {4, 5, 6} is {(4, 1), (5, 2), (6, 3)} the other way. */
  lemma InverseExample()
    ensures Equals(Inverse(Relation({1, 2, 3}, {4, 5, 6}, {(1, 4), (2, 5), (3, 6)})),
                   Relation({4, 5, 6}, {1, 2, 3}, {(4, 1), (5, 2), (6, 3)}))
  {
    var s := Inverse(Relation({1, 2, 3}, {4, 5, 6}, {(1, 4), (2, 5), (3, 6)}));
    forall p | p in s.pairs
      ensures p in {(4, 1), (5, 2), (6, 3)}
    {
      assert p == (p.0, p.1);
      assert (p.1, p.0) in {(1, 4), (2, 5), (3, 6)};
    }
  }
}
