/**
 * GaloisField.add, multiply and is_galois_field of group_theory/galois_field.py: the ring operations
 * reduced modulo the number of elements (Python's %, which for a positive modulus agrees with
 * Dafny's), and a closure check run after is_field().
 */
module GaloisField {
  import opened Wrappers
  import opened ModArith
  import opened Search
  import opened GroupTheory
  import opened RingTheory
  import opened FieldTheory

  /** add(a, b): addition(a, b) modulo the number of elements; ZeroDivisionError with no elements. */
  function Add(gf: Ring, a: int, b: int): (r: Result<int>)
    ensures r.Err? <==> |gf.elements| == 0
    ensures r.Err? ==> r.error == ZeroDivisionError
    ensures r.Ok? ==> 0 <= r.value < |gf.elements| && exists q :: gf.addition(a, b) == |gf.elements| * q + r.value
  {
    var n := |gf.elements|;
    if n == 0 then Err(ZeroDivisionError)
    else
      var x := gf.addition(a, b);
      assert x == n * (x / n) + x % n;
      Ok(x % n)
  }

  /** multiply(a, b): multiplication(a, b) modulo the number of elements; ZeroDivisionError with no elements. */
  function Multiply(gf: Ring, a: int, b: int): (r: Result<int>)
    ensures r.Err? <==> |gf.elements| == 0
    ensures r.Err? ==> r.error == ZeroDivisionError
    ensures r.Ok? ==> 0 <= r.value < |gf.elements| && exists q :: gf.multiplication(a, b) == |gf.elements| * q + r.value
  {
    var n := |gf.elements|;
    if n == 0 then Err(ZeroDivisionError)
    else
      var x := gf.multiplication(a, b);
      assert x == n * (x / n) + x % n;
      Ok(x % n)
  }

  /** A value already in [0, n) is left alone by add. */
  lemma AddKeepsReduced(gf: Ring, a: int, b: int)
    requires 0 <= gf.addition(a, b) < |gf.elements|
    ensures Add(gf, a, b) == Ok(gf.addition(a, b))
  {
    ModUnique(gf.addition(a, b), |gf.elements|, 0, gf.addition(a, b));
  }

  /** Both reduced results of a and b are elements. */
  predicate ClosedPair(gf: Ring, a: int, b: int)
  {
    var s, p := Add(gf, a, b), Multiply(gf, a, b);
    s.Ok? && s.value in gf.elements && p.Ok? && p.value in gf.elements
  }

  /** The inner loop, over b, finds no pair that leaves the elements. */
  predicate RowClosed(gf: Ring, a: int)
  {
    All(gf.elements, b => ClosedPair(gf, a, b))
  }

  /**
   * is_galois_field(): whatever is_field() raises propagates; False when it is False; otherwise True
   * exactly when add and multiply take every pair of elements back into the elements.
   */
  function IsGaloisField(gf: Ring): (r: Result<bool>)
    ensures IsField(gf).Err? ==> r == IsField(gf)
    ensures IsField(gf) == Ok(false) ==> r == Ok(false)
    ensures IsField(gf) == Ok(true) ==> r.Ok?
    ensures r == Ok(true) ==> IsField(gf) == Ok(true)
  {
    match IsField(gf)
    case Err(e) => Err(e)
    case Ok(false) => Ok(false)
    case Ok(true) => Ok(All(gf.elements, a => RowClosed(gf, a)))
  }

  /** Every pair of elements passes the closure check. */
  ghost predicate AllPairsClosed(gf: Ring)
  {
    forall a, b {:trigger ClosedPair(gf, a, b)} :: a in gf.elements && b in gf.elements ==> ClosedPair(gf, a, b)
  }

  /** Once is_field() holds, is_galois_field() is True exactly when every pair passes the closure check. */
  lemma IsGaloisFieldIff(gf: Ring)
    requires IsField(gf) == Ok(true)
    ensures IsGaloisField(gf) == Ok(true) <==> AllPairsClosed(gf)
  {
    if IsGaloisField(gf) == Ok(true) {
      GaloisFieldClosed(gf);
    }
    if AllPairsClosed(gf) {
      ClosedFieldIsGalois(gf);
    }
  }

  lemma GaloisFieldClosed(gf: Ring)
    requires IsGaloisField(gf) == Ok(true)
    ensures AllPairsClosed(gf)
  {
    forall a, b | a in gf.elements && b in gf.elements
      ensures ClosedPair(gf, a, b)
    {
      assert RowClosed(gf, a);
    }
  }

  lemma ClosedFieldIsGalois(gf: Ring)
    requires IsField(gf) == Ok(true) && AllPairsClosed(gf)
    ensures IsGaloisField(gf) == Ok(true)
  {
    var rows := a => RowClosed(gf, a);
    forall a | a in gf.elements
      ensures rows(a)
    {
      ClosedRow(gf, a);
    }
    assert All(gf.elements, rows);
  }

  lemma ClosedRow(gf: Ring, a: int)
    requires AllPairsClosed(gf) && a in gf.elements
    ensures RowClosed(gf, a)
  {
    var row := b => ClosedPair(gf, a, b);
    forall b | b in gf.elements
      ensures row(b)
    {
      assert ClosedPair(gf, a, b);
    }
    assert All(gf.elements, row);
  }

  /** The elements 0, 1, ..., n - 1 in order. */
  function Range(n: nat): (r: seq<int>)
    ensures |r| == n
    ensures forall i :: 0 <= i < n ==> r[i] == i
  {
    if n == 0 then [] else Range(n - 1) + [n - 1]
  }

  /** Over {0, ..., n - 1} every reduced result is an element, so the closure check cannot fail. */
  lemma RangeIsClosed(gf: Ring)
    requires gf.elements == Range(|gf.elements|)
    ensures AllPairsClosed(gf)
  {
    var n := |gf.elements|;
    forall a, b | a in gf.elements && b in gf.elements
      ensures ClosedPair(gf, a, b)
    {
      var s, p := Add(gf, a, b).value, Multiply(gf, a, b).value;
      assert gf.elements[s] == s && gf.elements[p] == p;
    }
  }

  /** For {0, ..., n - 1}, is_galois_field() answers exactly as is_field() does. */
  lemma RangeGaloisFieldIsField(gf: Ring)
    requires gf.elements == Range(|gf.elements|)
    ensures IsGaloisField(gf) == IsField(gf)
  {
    if IsField(gf) == Ok(true) {
      RangeIsClosed(gf);
      IsGaloisFieldIff(gf);
    }
  }

  /** A Galois field has at least one element, so add and multiply never divide by zero inside the check. */
  lemma GaloisFieldNotEmpty(gf: Ring)
    requires IsGaloisField(gf) == Ok(true)
    ensures |gf.elements| > 0
  {
    GroupNotEmpty(AdditiveGroup(gf));
  }
}
