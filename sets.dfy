/**
 * Set of sets/sets.py: a finite set held in the field `elements`, changed in place by add and remove
 * (remove raises ValueError for an absent element), with operations that build new Sets and tests
 * that compare element sets. EmptySet is a Set built with no elements.
 */
module Sets {
  import opened Wrappers

  /** 2 to the power n. */
  function Pow2(n: nat): (r: nat)
    ensures r >= 1
  {
    if n == 0 then 1 else 2 * Pow2(n - 1)
  }

  /** Every subset of s, from the empty set to s itself. */
  function Subsets<T(==,!new)>(s: set<T>): (r: set<set<T>>)
    ensures forall t :: t in r <==> t <= s
  {
    set t | t <= s
  }

  /** Each subset t of s with x added, for x outside s. */
  ghost function WithElement<T(!new)>(ts: set<set<T>>, x: T): set<set<T>>
  {
    set t | t in ts :: t + {x}
  }

  /** Adding an element that none of the sets holds keeps them distinct, so the count is unchanged. */
  lemma {:induction false} WithElementCount<T(!new)>(ts: set<set<T>>, x: T)
    requires forall t :: t in ts ==> x !in t
    ensures |WithElement(ts, x)| == |ts|
    decreases ts
  {
    if ts != {} {
      var t0 :| t0 in ts;
      var rest := ts - {t0};
      WithElementCount(rest, x);
      WithElementSplit(ts, x, t0);
    }
  }

  /** Taking one set t0 out: its image is new, and the rest give the rest of the images. */
  lemma WithElementSplit<T(!new)>(ts: set<set<T>>, x: T, t0: set<T>)
    requires forall t :: t in ts ==> x !in t
    requires t0 in ts
    ensures WithElement(ts, x) == WithElement(ts - {t0}, x) + {t0 + {x}}
    ensures t0 + {x} !in WithElement(ts - {t0}, x)
  {
    forall t | t in ts - {t0}
      ensures t + {x} != t0 + {x}
    {
      assert (t + {x}) - {x} == t;
      assert (t0 + {x}) - {x} == t0;
    }
  }

  /** The subsets of s split into those without x and those with x. */
  lemma SubsetsSplit<T(!new)>(s: set<T>, x: T)
    requires x in s
    ensures Subsets(s) == Subsets(s - {x}) + WithElement(Subsets(s - {x}), x)
    ensures Subsets(s - {x}) !! WithElement(Subsets(s - {x}), x)
  {
    var small := Subsets(s - {x});
    forall t | t in Subsets(s)
      ensures t in small + WithElement(small, x)
    {
      if x in t {
        assert t - {x} in small;
        assert t == (t - {x}) + {x};
      }
    }
  }

  /** A set of n elements has 2^n subsets. */
  lemma {:induction false} SubsetsCount<T(!new)>(s: set<T>)
    ensures |Subsets(s)| == Pow2(|s|)
    decreases s
  {
    if s != {} {
      var x :| x in s;
      var small := Subsets(s - {x});
      SubsetsCount(s - {x});
      SubsetsSplit(s, x);
      WithElementCount(small, x);
      assert |s - {x}| == |s| - 1;
      assert |Subsets(s)| == |small| + |WithElement(small, x)|;
    } else {
      forall t | t in Subsets(s)
        ensures t == {}
      {
      }
      assert {} in Subsets(s);
      assert Subsets(s) == {{}};
    }
  }

  class Set<T(==,!new)> {
    var elements: set<T>

    /** Set(elements): a Set holding the given elements. */
    constructor(elements: set<T>)
      ensures this.elements == elements
    {
      this.elements := elements;
    }

    /** EmptySet(): a Set with no elements. */
    constructor Empty()
      ensures elements == {}
    {
      elements := {};
    }

    /** add(x): x joins the elements; nothing else changes. */
    method Add(x: T)
      modifies this
      ensures elements == old(elements) + {x}
    {
      elements := elements + {x};
    }

    /** remove(x): a present x leaves the elements; an absent one raises ValueError and changes nothing. */
    method Remove(x: T) returns (r: Result<()>)
      modifies this
      ensures x in old(elements) ==> r == Ok(()) && elements == old(elements) - {x}
      ensures x !in old(elements) ==> r == Err(ValueError) && elements == old(elements)
    {
      if x in elements {
        elements := elements - {x};
        r := Ok(());
      } else {
        r := Err(ValueError);
      }
    }

    /** union(other): a new Set holding the elements of either. */
    method Union(other: Set<T>) returns (u: Set<T>)
      ensures fresh(u) && u.elements == elements + other.elements
    {
      u := new Set(elements + other.elements);
    }

    /** intersection(other): a new Set holding the elements of both. */
    method Intersection(other: Set<T>) returns (u: Set<T>)
      ensures fresh(u) && u.elements == elements * other.elements
    {
      u := new Set(elements * other.elements);
    }

    /** difference(other): a new Set holding the elements not in other. */
    method Difference(other: Set<T>) returns (u: Set<T>)
      ensures fresh(u) && u.elements == elements - other.elements
    {
      u := new Set(elements - other.elements);
    }

    /** complement(universe): a new Set holding the elements of the universe outside this one. */
    method Complement(universe: Set<T>) returns (u: Set<T>)
      ensures fresh(u) && u.elements == universe.elements - elements
    {
      u := new Set(universe.elements - elements);
    }

    /** is_subset(other): every element is one of other's. */
    function IsSubset(other: Set<T>): (r: bool)
      reads this, other
      ensures r <==> forall x :: x in elements ==> x in other.elements
    {
      elements <= other.elements
    }

    /** is_proper_subset(other): a subset that misses at least one of other's elements. */
    function IsProperSubset(other: Set<T>): (r: bool)
      reads this, other
      ensures r <==> IsSubset(other) && !other.IsSubset(this)
    {
      elements < other.elements
    }

    /** is_equal(other): the same elements, so each is a subset of the other. */
    function IsEqual(other: Set<T>): (r: bool)
      reads this, other
      ensures r <==> IsSubset(other) && other.IsSubset(this)
    {
      elements == other.elements
    }

    /** power_set(): a new Set whose elements are all the subsets of this one's, 2^n of them for n elements. */
    method PowerSet() returns (p: Set<set<T>>)
      ensures fresh(p) && p.elements == Subsets(elements)
      ensures |p.elements| == Pow2(|elements|)
    {
      SubsetsCount(elements);
      p := new Set(Subsets(elements));
    }
  }
}
