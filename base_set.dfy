/**
 * BaseSet of sets/base_set.py: the same finite set held in `elements`, except that remove discards,
 * doing nothing for an absent element, and there is no equality test.
 */
module BaseSets {
  import opened Sets

  class BaseSet<T(==,!new)> {
    var elements: set<T>

    /** BaseSet(elements): a BaseSet holding the given elements. */
    constructor(elements: set<T>)
      ensures this.elements == elements
    {
      this.elements := elements;
    }

    /** add(x): x joins the elements; nothing else changes. */
    method Add(x: T)
      modifies this
      ensures elements == old(elements) + {x}
    {
      elements := elements + {x};
    }

    /** remove(x): x leaves the elements if it was there; an absent x is silently ignored. */
    method Remove(x: T)
      modifies this
      ensures elements == old(elements) - {x}
      ensures x !in old(elements) ==> elements == old(elements)
    {
      elements := elements - {x};
    }

    /** union(other): a new BaseSet holding the elements of either. */
    method Union(other: BaseSet<T>) returns (u: BaseSet<T>)
      ensures fresh(u) && u.elements == elements + other.elements
    {
      u := new BaseSet(elements + other.elements);
    }

    /** intersection(other): a new BaseSet holding the elements of both. */
    method Intersection(other: BaseSet<T>) returns (u: BaseSet<T>)
      ensures fresh(u) && u.elements == elements * other.elements
    {
      u := new BaseSet(elements * other.elements);
    }

    /** difference(other): a new BaseSet holding the elements not in other. */
    method Difference(other: BaseSet<T>) returns (u: BaseSet<T>)
      ensures fresh(u) && u.elements == elements - other.elements
    {
      u := new BaseSet(elements - other.elements);
    }

    /** complement(universe): a new BaseSet holding the elements of the universe outside this one. */
    method Complement(universe: BaseSet<T>) returns (u: BaseSet<T>)
      ensures fresh(u) && u.elements == universe.elements - elements
    {
      u := new BaseSet(universe.elements - elements);
    }

    /** is_subset(other): every element is one of other's. */
    function IsSubset(other: BaseSet<T>): (r: bool)
      reads this, other
      ensures r <==> forall x :: x in elements ==> x in other.elements
    {
      elements <= other.elements
    }

    /** is_proper_subset(other): a subset with a different element set, so other is not a subset of it. */
    function IsProperSubset(other: BaseSet<T>): (r: bool)
      reads this, other
      ensures r <==> IsSubset(other) && !other.IsSubset(this)
    {
      IsSubset(other) && elements != other.elements
    }

    /** power_set(): a new BaseSet whose elements are all the subsets of this one's, 2^n of them for n elements. */
    method PowerSet() returns (p: BaseSet<set<T>>)
      ensures fresh(p) && p.elements == Subsets(elements)
      ensures |p.elements| == Pow2(|elements|)
    {
      SubsetsCount(elements);
      p := new BaseSet(Subsets(elements));
    }
  }
}
