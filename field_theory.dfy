/**
 * Field.multiplicative_inverse and Field.is_field of group_theory/field_theory.py. A Field is a Ring
 * with no new data; its inverse search compares products with the literal 1, and its is_field check
 * tests the search's answer against None, which the search never returns: it raises instead.
 */
module FieldTheory {
  import opened Wrappers
  import opened Search
  import opened RingTheory

  /** e undoes x under multiplication on both sides: both products are the literal 1. */
  predicate MultipliesToOne(f: Ring, x: int, e: int)
  {
    f.multiplication(x, e) == 1 && f.multiplication(e, x) == 1
  }

  /**
   * multiplicative_inverse(x): ValueError for 0, otherwise the first element whose products with x are
   * both 1, and ValueError when there is none.
   */
  function MultiplicativeInverse(f: Ring, x: int): (r: Result<int>)
    ensures r.Ok? ==> x != 0 && r.value in f.elements && MultipliesToOne(f, x, r.value)
    ensures r.Err? ==> r.error == ValueError
    ensures r.Err? <==> x == 0 || forall e :: e in f.elements ==> !MultipliesToOne(f, x, e)
  {
    if x == 0 then Err(ValueError)
    else
      match First(f.elements, e => MultipliesToOne(f, x, e))
      case Some(e) => Ok(e)
      case None => Err(ValueError)
  }

  /** A non-zero element whose inverse search raises. */
  predicate LacksInverse(f: Ring, a: int)
  {
    a != 0 && MultiplicativeInverse(f, a).Err?
  }

  /**
   * is_field(): False when is_ring() fails; otherwise the loop calls multiplicative_inverse on each
   * non-zero element, so the first one without an inverse raises ValueError out of is_field, and
   * True is returned when none does. The `is None` test never holds.
   */
  function IsField(f: Ring): (r: Result<bool>)
    ensures !IsRing(f) ==> r == Ok(false)
    ensures IsRing(f) ==> r != Ok(false)
    ensures r == Ok(true) <==> IsRing(f) && forall a :: a in f.elements && a != 0 ==> !LacksInverse(f, a)
    ensures r.Err? ==> r.error == ValueError && IsRing(f) && exists a :: a in f.elements && LacksInverse(f, a)
  {
    if !IsRing(f) then Ok(false)
    else
      var missing := First(f.elements, a => LacksInverse(f, a));
      if missing.Some? then
        assert missing.value in f.elements && LacksInverse(f, missing.value);
        Err(ValueError)
      else
        assert forall a :: a in f.elements ==> !LacksInverse(f, a);
        Ok(true)
  }

  /** Some element undoes a under multiplication. */
  ghost predicate Invertible(f: Ring, a: int)
  {
    exists e :: e in f.elements && MultipliesToOne(f, a, e)
  }

  /** Every non-zero element has a two-sided multiplicative inverse among the elements. */
  ghost predicate NonZeroInvertible(f: Ring)
  {
    forall a {:trigger Invertible(f, a)} :: a in f.elements && a != 0 ==> Invertible(f, a)
  }

  /** is_field() is True exactly when the ring check passes and every non-zero element has a two-sided inverse. */
  lemma IsFieldIff(f: Ring)
    ensures IsField(f) == Ok(true) <==> IsRing(f) && NonZeroInvertible(f)
  {
    if IsField(f) == Ok(true) {
      FieldInvertible(f);
    }
    if IsRing(f) && NonZeroInvertible(f) {
      InvertibleRingIsField(f);
    }
  }

  lemma FieldInvertible(f: Ring)
    requires IsField(f) == Ok(true)
    ensures NonZeroInvertible(f)
  {
    forall a | a in f.elements && a != 0
      ensures Invertible(f, a)
    {
      assert !LacksInverse(f, a);
      var e := MultiplicativeInverse(f, a).value;
      assert e in f.elements && MultipliesToOne(f, a, e);
    }
  }

  lemma InvertibleRingIsField(f: Ring)
    requires IsRing(f) && NonZeroInvertible(f)
    ensures IsField(f) == Ok(true)
  {
    forall a | a in f.elements && a != 0
      ensures !LacksInverse(f, a)
    {
      assert Invertible(f, a);
      var e :| e in f.elements && MultipliesToOne(f, a, e);
    }
  }
}
