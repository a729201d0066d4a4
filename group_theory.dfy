/**
 * The group checks of group_theory/group_theory.py: a finite set of integers with a binary operation,
 * searched exhaustively for an identity and for inverses. Closure and associativity are never
 * checked by the code, and the model does not take them for granted.
 */
module GroupTheory {
  import opened Wrappers
  import opened Search

  /** A Group: its elements, in the order the set is iterated, and its operation. */
  datatype Group = Group(elements: seq<int>, op: (int, int) -> int)

  /** e is a two-sided identity for every element. */
  predicate IsIdentity(g: Group, e: int)
  {
    forall a :: a in g.elements ==> g.op(e, a) == a && g.op(a, e) == a
  }

  /** identity(): the first element that is a two-sided identity, or None. */
  function Identity(g: Group): (r: Option<int>)
    ensures r.Some? ==> r.value in g.elements && IsIdentity(g, r.value)
    ensures r.None? ==> forall e :: e in g.elements ==> !IsIdentity(g, e)
  {
    First(g.elements, e => IsIdentity(g, e))
  }

  /** Two identities among the elements are equal, so identity() does not depend on the iteration order. */
  lemma IdentityUnique(g: Group, e1: int, e2: int)
    requires e1 in g.elements && e2 in g.elements
    requires IsIdentity(g, e1) && IsIdentity(g, e2)
    ensures e1 == e2
  {
    assert g.op(e1, e2) == e2;
    assert g.op(e1, e2) == e1;
  }

  /** Whichever order the set is iterated in, identity() gives the same answer. */
  lemma IdentityOrderFree(g: Group, h: Group)
    requires multiset(g.elements) == multiset(h.elements) && g.op == h.op
    ensures Identity(g) == Identity(h)
  {
    assert forall a :: a in g.elements <==> a in h.elements by {
      forall a
        ensures a in g.elements <==> a in h.elements
      {
        assert a in g.elements <==> a in multiset(g.elements);
        assert a in h.elements <==> a in multiset(h.elements);
      }
    }
    assert forall e :: IsIdentity(g, e) <==> IsIdentity(h, e);
    var rg, rh := Identity(g), Identity(h);
    if rg.Some? && rh.Some? {
      IdentityUnique(g, rg.value, rh.value);
    }
  }

  /** e undoes x on both sides, relative to the identity. */
  predicate Undoes(g: Group, x: int, e: int, id: int)
  {
    g.op(x, e) == id && g.op(e, x) == id
  }

  /**
   * inverse(x): the first e with op(x, e) and op(e, x) both equal to identity(). With no identity
   * the comparison is against None, which no element result equals, and the search finds nothing.
   */
  function Inverse(g: Group, x: int): (r: Option<int>)
    ensures Identity(g).None? ==> r.None?
    ensures r.Some? ==> r.value in g.elements && Undoes(g, x, r.value, Identity(g).value)
    ensures Identity(g).Some? && r.None? ==> forall e :: e in g.elements ==> !Undoes(g, x, e, Identity(g).value)
  {
    match Identity(g)
    case None => None
    case Some(id) => First(g.elements, e => Undoes(g, x, e, id))
  }

  /** is_group(): an identity exists and no element lacks an inverse. */
  predicate IsGroup(g: Group)
  {
    Identity(g).Some? && forall a :: a in g.elements ==> Inverse(g, a).Some?
  }

  /** Some element undoes a on both sides, relative to id. */
  ghost predicate HasInverse(g: Group, a: int, id: int)
  {
    exists e :: e in g.elements && Undoes(g, a, e, id)
  }

  /** Every element has a two-sided inverse for id among the elements. */
  ghost predicate HasInverses(g: Group, id: int)
  {
    forall a {:trigger HasInverse(g, a, id)} :: a in g.elements ==> HasInverse(g, a, id)
  }

  /** is_group() holds exactly when some element is a two-sided identity and every element has a two-sided inverse for it. */
  lemma IsGroupIff(g: Group)
    ensures IsGroup(g) <==> exists id :: id in g.elements && IsIdentity(g, id) && HasInverses(g, id)
  {
    if IsGroup(g) {
      GroupHasInverses(g);
    }
    if exists id :: id in g.elements && IsIdentity(g, id) && HasInverses(g, id) {
      var id :| id in g.elements && IsIdentity(g, id) && HasInverses(g, id);
      InversesMakeGroup(g, id);
    }
  }

  lemma GroupHasInverses(g: Group)
    requires IsGroup(g)
    ensures HasInverses(g, Identity(g).value)
  {
    var id := Identity(g).value;
    forall a | a in g.elements
      ensures HasInverse(g, a, id)
    {
      var e := Inverse(g, a).value;
      assert e in g.elements && Undoes(g, a, e, id);
    }
  }

  lemma InversesMakeGroup(g: Group, id: int)
    requires id in g.elements && IsIdentity(g, id) && HasInverses(g, id)
    ensures IsGroup(g)
  {
    IdentityIs(g, id);
    forall a | a in g.elements
      ensures Inverse(g, a).Some?
    {
      InverseFound(g, id, a);
    }
  }

  /** An identity among the elements is the one identity() returns. */
  lemma IdentityIs(g: Group, id: int)
    requires id in g.elements && IsIdentity(g, id)
    ensures Identity(g) == Some(id)
  {
    IdentityUnique(g, id, Identity(g).value);
  }

  /** When some element undoes a, inverse(a) finds one. */
  lemma InverseFound(g: Group, id: int, a: int)
    requires Identity(g) == Some(id) && HasInverses(g, id) && a in g.elements
    ensures Inverse(g, a).Some?
  {
    assert HasInverse(g, a, id);
    var e :| e in g.elements && Undoes(g, a, e, id);
  }

  /** A group has at least one element: its identity. */
  lemma GroupNotEmpty(g: Group)
    requires IsGroup(g)
    ensures |g.elements| > 0
  {
  }

  /** is_subgroup(): the subset passes is_group and each of its elements is an element of the parent. */
  predicate IsSubgroup(sub: Group, parent: Group)
  {
    IsGroup(sub) && forall x :: x in sub.elements ==> x in parent.elements
  }

  // ---------------------------------------------------------------- the integers modulo 4

  /** The group of the tests: {0, 1, 2, 3} under addition modulo 4. */
  function Z4(): Group
  {
    Group([0, 1, 2, 3], (a, b) => (a + b) % 4)
  }

  /** Its identity is 0. */
  lemma Z4Identity()
    ensures Identity(Z4()) == Some(0)
  {
    var g := Z4();
    assert IsIdentity(g, 0) by {
      forall a | a in g.elements
        ensures g.op(0, a) == a && g.op(a, 0) == a
      {
        assert a == 0 || a == 1 || a == 2 || a == 3;
      }
    }
    assert g.elements[0] == 0;
  }

  /** 1 and 3 are each other's inverses and 2 is its own. */
  lemma Z4Inverses()
    ensures Inverse(Z4(), 1) == Some(3) && Inverse(Z4(), 2) == Some(2) && Inverse(Z4(), 3) == Some(1)
  {
    var g := Z4();
    Z4Identity();
    assert !Undoes(g, 1, 0, 0) && !Undoes(g, 1, 1, 0) && !Undoes(g, 1, 2, 0) && Undoes(g, 1, 3, 0);
    assert !Undoes(g, 2, 0, 0) && !Undoes(g, 2, 1, 0) && Undoes(g, 2, 2, 0);
    assert !Undoes(g, 3, 0, 0) && Undoes(g, 3, 1, 0);
  }

  /** It passes is_group. */
  lemma Z4IsGroup()
    ensures IsGroup(Z4())
  {
    var g := Z4();
    Z4Identity();
    assert Undoes(g, 0, 0, 0) && Undoes(g, 1, 3, 0) && Undoes(g, 2, 2, 0) && Undoes(g, 3, 1, 0);
    assert HasInverses(g, 0) by {
      forall a | a in g.elements
        ensures HasInverse(g, a, 0)
      {
        assert a == 0 || a == 1 || a == 2 || a == 3;
        var e := (4 - a) % 4;
        assert e in g.elements && Undoes(g, a, e, 0);
      }
    }
    InversesMakeGroup(g, 0);
  }

  /** {0, 2} under the same operation is a subgroup of it. */
  lemma Z4HasSubgroup()
    ensures IsSubgroup(Group([0, 2], Z4().op), Z4())
  {
    var h := Group([0, 2], Z4().op);
    assert IsIdentity(h, 0);
    assert HasInverses(h, 0) by {
      forall a | a in h.elements
        ensures HasInverse(h, a, 0)
      {
        assert a == 0 || a == 2;
        assert a in h.elements && Undoes(h, a, a, 0);
      }
    }
    InversesMakeGroup(h, 0);
  }
}
