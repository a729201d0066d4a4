/**
 * Ring.is_ring of group_theory/ring_theory.py. A Ring is a Group under its addition (the constructor
 * hands `addition` to Group as its operation) together with a multiplication; is_ring checks the group
 * and then both distributive laws over every triple of elements, returning False at the first failure.
 * IsRing reads the addition the laws use as the one the constructor was given; IsRingAsWritten shows
 * what the class does instead, since it never stores that attribute.
 */
module RingTheory {
  import opened Wrappers
  import opened Search
  import opened GroupTheory

  /** A Ring: its elements, in iteration order, its addition and its multiplication. */
  datatype Ring = Ring(elements: seq<int>, addition: (int, int) -> int, multiplication: (int, int) -> int)

  /** The Group the Ring extends: the same elements under addition. */
  function AdditiveGroup(r: Ring): Group
  {
    Group(r.elements, r.addition)
  }

  /** a * (b + c) == a * b + a * c. */
  predicate LeftDistributes(r: Ring, a: int, b: int, c: int)
  {
    r.multiplication(a, r.addition(b, c)) == r.addition(r.multiplication(a, b), r.multiplication(a, c))
  }

  /** (a + b) * c == a * c + b * c. */
  predicate RightDistributes(r: Ring, a: int, b: int, c: int)
  {
    r.multiplication(r.addition(a, b), c) == r.addition(r.multiplication(a, c), r.multiplication(b, c))
  }

  /** Both laws hold for the triple (a, b, c). */
  predicate Distributes(r: Ring, a: int, b: int, c: int)
  {
    LeftDistributes(r, a, b, c) && RightDistributes(r, a, b, c)
  }

  /** The innermost loop, over c, finds no failure for a and b. */
  predicate RowDistributes(r: Ring, a: int, b: int)
  {
    All(r.elements, c => Distributes(r, a, b, c))
  }

  /** The middle loop, over b, finds no failure for a. */
  predicate PlaneDistributes(r: Ring, a: int)
  {
    All(r.elements, b => RowDistributes(r, a, b))
  }

  /** is_ring(): the additive group passes is_group and no triple breaks either distributive law. */
  predicate IsRing(r: Ring)
  {
    IsGroup(AdditiveGroup(r)) && All(r.elements, a => PlaneDistributes(r, a))
  }

  /** Every triple of elements passes both checks. */
  ghost predicate AllTriplesDistribute(r: Ring)
  {
    forall a, b, c :: a in r.elements && b in r.elements && c in r.elements ==> Distributes(r, a, b, c)
  }

  /** is_ring() is True exactly when is_group holds and both laws hold for all triples of elements. */
  lemma IsRingIff(r: Ring)
    ensures IsRing(r) <==>
      IsGroup(AdditiveGroup(r)) && AllTriplesDistribute(r)
  {
    if IsRing(r) {
      forall a, b, c | a in r.elements && b in r.elements && c in r.elements
        ensures Distributes(r, a, b, c)
      {
        RingDistributes(r, a, b, c);
      }
    }
    if IsGroup(AdditiveGroup(r)) && AllTriplesDistribute(r) {
      DistributiveGroupIsRing(r);
    }
  }

  /** is_ring() being True means the triple (a, b, c) passed both checks. */
  lemma RingDistributes(r: Ring, a: int, b: int, c: int)
    requires IsRing(r) && a in r.elements && b in r.elements && c in r.elements
    ensures Distributes(r, a, b, c)
  {
    assert PlaneDistributes(r, a);
    assert RowDistributes(r, a, b);
  }

  /** A group whose triples all pass both checks makes is_ring() True. */
  lemma DistributiveGroupIsRing(r: Ring)
    requires IsGroup(AdditiveGroup(r))
    requires AllTriplesDistribute(r)
    ensures IsRing(r)
  {
    forall a | a in r.elements
      ensures PlaneDistributes(r, a)
    {
      forall b | b in r.elements
        ensures RowDistributes(r, a, b)
      {
        assert forall c :: c in r.elements ==> Distributes(r, a, b, c);
      }
    }
  }

  /** A Ring whose additive structure fails is_group is not a ring. */
  lemma NotGroupNotRing(r: Ring)
    requires !IsGroup(AdditiveGroup(r))
    ensures !IsRing(r)
  {
  }

  /** One triple that breaks the left law makes is_ring() False. */
  lemma LeftViolationNotRing(r: Ring, a: int, b: int, c: int)
    requires a in r.elements && b in r.elements && c in r.elements
    requires !LeftDistributes(r, a, b, c)
    ensures !IsRing(r)
  {
    if IsRing(r) {
      RingDistributes(r, a, b, c);
    }
  }

  /** One triple that breaks the right law makes is_ring() False. */
  lemma RightViolationNotRing(r: Ring, a: int, b: int, c: int)
    requires a in r.elements && b in r.elements && c in r.elements
    requires !RightDistributes(r, a, b, c)
    ensures !IsRing(r)
  {
    if IsRing(r) {
      RingDistributes(r, a, b, c);
    }
  }

  // ---------------------------------------------------------------- is_ring as written

  /**
   * is_ring() as the class is written: Ring.__init__ passes `addition` to Group, which keeps it as
   * `operation`, and never stores a `self.addition` attribute. A collection that fails is_group() still
   * gets False; one that passes has an element, so the first distributivity test looks the attribute up
   * and raises.
   */
  function IsRingAsWritten(r: Ring): (res: Result<bool>)
    ensures !IsGroup(AdditiveGroup(r)) ==> res == Ok(false)
    ensures IsGroup(AdditiveGroup(r)) ==> res == Err(AttributeError)
    ensures res != Ok(true)
  {
    if !IsGroup(AdditiveGroup(r)) then Ok(false)
    else
      GroupNotEmpty(AdditiveGroup(r));
      if |r.elements| == 0 then Ok(true) else Err(AttributeError)
  }

  /** The integers modulo 2 under addition and multiplication modulo 2. */
  function Z2Ring(): Ring
  {
    Ring([0, 1], (a, b) => (a + b) % 2, (a, b) => (a * b) % 2)
  }

  /** Z2 is a group under addition modulo 2, each element its own inverse. */
  lemma Z2IsGroup()
    ensures IsGroup(AdditiveGroup(Z2Ring()))
  {
    var g := AdditiveGroup(Z2Ring());
    assert IsIdentity(g, 0) by {
      forall a | a in g.elements
        ensures g.op(0, a) == a && g.op(a, 0) == a
      {
        assert a == 0 || a == 1;
      }
    }
    assert HasInverses(g, 0) by {
      forall a | a in g.elements
        ensures HasInverse(g, a, 0)
      {
        assert a == 0 || a == 1;
        assert a in g.elements && Undoes(g, a, a, 0);
      }
    }
    InversesMakeGroup(g, 0);
  }

  /** Both laws hold in Z2 for all eight triples, so both passes of the outer loop succeed. */
  lemma Z2Distributes()
    ensures PlaneDistributes(Z2Ring(), 0) && PlaneDistributes(Z2Ring(), 1)
  {
    var r := Z2Ring();
    assert Distributes(r, 0, 0, 0) && Distributes(r, 0, 0, 1) && Distributes(r, 0, 1, 0) && Distributes(r, 0, 1, 1);
    assert Distributes(r, 1, 0, 0) && Distributes(r, 1, 0, 1) && Distributes(r, 1, 1, 0) && Distributes(r, 1, 1, 1);
    assert RowDistributes(r, 0, 0) && RowDistributes(r, 0, 1) && RowDistributes(r, 1, 0) && RowDistributes(r, 1, 1);
  }

  /** Z2 is a ring, yet is_ring() as written raises on it instead of returning True. */
  lemma Z2RingRaisesAsWritten()
    ensures IsRing(Z2Ring())
    ensures IsRingAsWritten(Z2Ring()) == Err(AttributeError)
  {
    Z2IsGroup();
    Z2Distributes();
  }
}
