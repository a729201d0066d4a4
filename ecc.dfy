/**
 * The affine point arithmetic of crypto/ecc.py on the curve y^2 = x^3 + a x + b modulo p (the group
 * law of section 2.2.1 of SEC 1, as the code writes it).
 *
 * The code reads self.p but never assigns it; here the modulus is part of the curve and taken
 * positive. Points are pairs of Python integers, and (0, 0) is what the code returns for the sum of
 * a point and its negative.
 */
module Ecc {
  import opened Wrappers
  import opened ModArith

  datatype Curve = Curve(a: int, b: int, p: int)

  datatype Point = Point(x: int, y: int)

  // ---------------------------------------------------------------- pow(d, -1, p)

  /** z is an inverse of d modulo p. */
  predicate IsInverse(d: int, z: int, p: int)
    requires p > 0
  {
    (d * z) % p == 1 % p
  }

  /** The first inverse of d modulo p among z, z + 1, ..., p - 1. */
  function FindInverse(d: int, p: int, z: nat): (r: Option<int>)
    requires p > 0
    ensures r.Some? ==> z <= r.value < p && IsInverse(d, r.value, p)
    ensures r.None? ==> forall w :: z <= w < p ==> !IsInverse(d, w, p)
    decreases p - z
  {
    if z >= p then None
    else if IsInverse(d, z, p) then Some(z)
    else FindInverse(d, p, z + 1)
  }

  /** pow(d, -1, p): the inverse of d modulo p in [0, p), or ValueError when d has none. */
  function ModInverse(d: int, p: int): (r: Result<int>)
    requires p > 0
    ensures r.Ok? ==> 0 <= r.value < p && IsInverse(d, r.value, p)
    ensures r.Err? ==> r.error == ValueError && forall w :: 0 <= w < p ==> !IsInverse(d, w, p)
  {
    match FindInverse(d, p, 0)
    case Some(z) => Ok(z)
    case None => Err(ValueError)
  }

  /** An inverse in [0, p) is unique, so the one found is the one pow returns. */
  lemma InverseUnique(d: int, z1: int, z2: int, p: int)
    requires p > 0 && 0 <= z1 < p && 0 <= z2 < p
    requires IsInverse(d, z1, p) && IsInverse(d, z2, p)
    ensures z1 == z2
  {
    // z1 = (d z2) z1 = (d z1) z2 = z2, modulo p
    var a, b := d * z1, d * z2;
    assert b * z1 == a * z2;
    InverseCancels(b, z1, p);
    InverseCancels(a, z2, p);
  }

  /** Multiplying z by a number that leaves remainder 1 leaves z's own remainder. */
  lemma InverseCancels(u: int, z: int, p: int)
    requires p > 0 && 0 <= z < p && u % p == 1 % p
    ensures (u * z) % p == z
  {
    ModMulLeft(u, z, p);
    ModMulLeft(1, z, p);
    assert (u * z) % p == ((1 % p) * z) % p;
    ModUnique(z, p, 0, z);
  }

  // ---------------------------------------------------------------- curve and slopes

  /** is_on_curve: y^2 and x^3 + a x + b leave the same remainder modulo p. */
  predicate IsOnCurve(c: Curve, x: int, y: int)
    requires c.p > 0
  {
    (y * y) % c.p == (x * x * x + c.a * x + c.b) % c.p
  }

  /** A point is on the curve exactly when p divides y^2 - (x^3 + a x + b). */
  lemma IsOnCurveIff(c: Curve, x: int, y: int)
    requires c.p > 0
    ensures IsOnCurve(c, x, y) <==> (y * y - (x * x * x + c.a * x + c.b)) % c.p == 0
  {
    SameRemainder(y * y, x * x * x + c.a * x + c.b, c.p);
  }

  /** The slope num / den modulo p, computed as num * pow(den, -1, p) % p. */
  function Slope(num: int, den: int, p: int): (r: Result<int>)
    requires p > 0
    ensures r.Err? <==> ModInverse(den, p).Err?
  {
    match ModInverse(den, p)
    case Ok(inv) => Ok((num * inv) % p)
    case Err(e) => Err(e)
  }

  /** A slope, when it exists, lies in [0, p) and solves m den = num modulo p. */
  lemma SlopeSolves(num: int, den: int, p: int)
    requires p > 0 && Slope(num, den, p).Ok?
    ensures 0 <= Slope(num, den, p).value < p
    ensures (Slope(num, den, p).value * den) % p == num % p
  {
    var inv := ModInverse(den, p).value;
    var m := (num * inv) % p;
    // m den = (num inv) den = num (inv den) = num 1, modulo p
    ModMulLeft(num * inv, den, p);
    assert (num * inv) * den == (inv * den) * num;
    ModMulLeft(inv * den, num, p);
    assert inv * den == den * inv;
    ModMulLeft(1, num, p);
  }

  /** Both coordinates reduced modulo p. */
  predicate Reduced(q: Point, p: int)
  {
    0 <= q.x < p && 0 <= q.y < p
  }

  /**
   * point_doubling: the tangent slope (3 x^2 + a) / (2 y), then x3 = m^2 - 2 x and
   * y3 = m (x - x3) - y modulo p. A y with no inverse of 2 y makes pow raise ValueError.
   */
  function PointDoubling(c: Curve, q: Point): (r: Result<Point>)
    requires c.p > 0
    ensures r.Err? <==> ModInverse(2 * q.y, c.p).Err?
    ensures r.Err? ==> r.error == ValueError
    ensures r.Ok? ==> Reduced(r.value, c.p)
  {
    match Slope(3 * q.x * q.x + c.a, 2 * q.y, c.p)
    case Err(e) => Err(e)
    case Ok(m) =>
      var x3 := (m * m - 2 * q.x) % c.p;
      Ok(Point(x3, (m * (q.x - x3) - q.y) % c.p))
  }

  /** P and Q, distinct, with equal x and opposite y as plain integers. */
  predicate Opposite(p1: Point, p2: Point)
  {
    p1 != p2 && p1.x == p2.x && p1.y == -p2.y
  }

  /**
   * point_addition: doubling for equal points, (0, 0) for opposite ones, and otherwise the chord
   * slope (y2 - y1) / (x2 - x1) with x3 = m^2 - x1 - x2 and y3 = m (x1 - x3) - y1 modulo p.
   */
  function PointAddition(c: Curve, p1: Point, p2: Point): (r: Result<Point>)
    requires c.p > 0
    ensures p1 == p2 ==> r == PointDoubling(c, p1)
    ensures Opposite(p1, p2) ==> r == Ok(Point(0, 0))
    ensures p1 != p2 && !Opposite(p1, p2) ==> (r.Err? <==> ModInverse(p2.x - p1.x, c.p).Err?)
    ensures r.Err? ==> r.error == ValueError
    ensures r.Ok? ==> Reduced(r.value, c.p)
  {
    if p1 == p2 then PointDoubling(c, p1)
    else if p1.x == p2.x && p1.y == -p2.y then Ok(Point(0, 0))
    else
      match Slope(p2.y - p1.y, p2.x - p1.x, c.p)
      case Err(e) => Err(e)
      case Ok(m) =>
        var x3 := (m * m - p1.x - p2.x) % c.p;
        Ok(Point(x3, (m * (p1.x - x3) - p1.y) % c.p))
  }

  /**
   * The tangent slope of a doubling solves m (2 y) = 3 x^2 + a modulo p, and the doubled point is
   * the reflected third point of the tangent: x3 = m^2 - 2 x and y3 = m (x - x3) - y modulo p.
   */
  lemma DoublingSlope(c: Curve, q: Point)
    requires c.p > 0 && PointDoubling(c, q).Ok?
    ensures var m := Slope(3 * q.x * q.x + c.a, 2 * q.y, c.p).value;
            var x3 := (m * m - 2 * q.x) % c.p;
            (m * (2 * q.y)) % c.p == (3 * q.x * q.x + c.a) % c.p &&
            PointDoubling(c, q).value.x == x3 &&
            PointDoubling(c, q).value.y == (m * (q.x - x3) - q.y) % c.p
  {
    SlopeSolves(3 * q.x * q.x + c.a, 2 * q.y, c.p);
  }

  /**
   * The chord slope of an addition of distinct, non-opposite points solves m (x2 - x1) = y2 - y1
   * modulo p, and the sum is x3 = m^2 - x1 - x2 and y3 = m (x1 - x3) - y1 modulo p.
   */
  lemma AdditionSlope(c: Curve, p1: Point, p2: Point)
    requires c.p > 0 && p1 != p2 && !Opposite(p1, p2) && PointAddition(c, p1, p2).Ok?
    ensures var m := Slope(p2.y - p1.y, p2.x - p1.x, c.p).value;
            var x3 := (m * m - p1.x - p2.x) % c.p;
            (m * (p2.x - p1.x)) % c.p == (p2.y - p1.y) % c.p &&
            PointAddition(c, p1, p2).value.x == x3 &&
            PointAddition(c, p1, p2).value.y == (m * (p1.x - x3) - p1.y) % c.p
  {
    SlopeSolves(p2.y - p1.y, p2.x - p1.x, c.p);
  }

  // ---------------------------------------------------------------- scalar multiplication

  /**
   * The result of the double-and-add loop entered with scalar k, point q and accumulator acc: for
   * an odd k the accumulator takes point_addition(acc, q), then q is doubled and k halved. The
   * first ValueError ends the loop.
   */
  function ScalarMult(c: Curve, k: nat, q: Point, acc: Point): Result<Point>
    requires c.p > 0
    decreases k
  {
    if k == 0 then Ok(acc)
    else
      var next := if k % 2 == 1 then PointAddition(c, acc, q) else Ok(acc);
      match next
      case Err(e) => Err(e)
      case Ok(acc1) =>
        match PointDoubling(c, q)
        case Err(e) => Err(e)
        case Ok(q2) => ScalarMult(c, k / 2, q2, acc1)
  }

  /**
   * scalar_multiplication for k >= 0. A negative k never reaches 0 under k >>= 1
   * (NegativeScalarNeverReachesZero), so the code never returns normally there: it either loops
   * forever or raises the ValueError of a point operation.
   */
  method ScalarMultiplication(c: Curve, k: int, q: Point) returns (r: Result<Point>)
    requires c.p > 0 && k >= 0
    ensures r == ScalarMult(c, k, q, Point(0, 0))
  {
    var acc := Point(0, 0);
    var p := q;
    var n: nat := k;
    while n != 0
      invariant ScalarMult(c, n, p, acc) == ScalarMult(c, k, q, Point(0, 0))
      decreases n
    {
      if n % 2 == 1 {
        var sum := PointAddition(c, acc, p);
        if sum.Err? {
          return Err(sum.error);
        }
        acc := sum.value;
      }
      var doubled := PointDoubling(c, p);
      if doubled.Err? {
        return Err(doubled.error);
      }
      p := doubled.value;
      n := n / 2;
    }
    return Ok(acc);
  }

  /** Every result of scalar multiplication is (0, 0) or a reduced point. */
  lemma {:induction false} ScalarMultReduced(c: Curve, k: nat, q: Point, acc: Point)
    requires c.p > 0 && Reduced(acc, c.p)
    ensures ScalarMult(c, k, q, acc).Ok? ==> Reduced(ScalarMult(c, k, q, acc).value, c.p)
    decreases k
  {
    if k > 0 {
      var next := if k % 2 == 1 then PointAddition(c, acc, q) else Ok(acc);
      if next.Ok? && PointDoubling(c, q).Ok? {
        ScalarMultReduced(c, k / 2, PointDoubling(c, q).value, next.value);
      }
    }
  }

  /** scalar_multiplication(0, P) is (0, 0). */
  lemma ScalarZero(c: Curve, q: Point)
    requires c.p > 0
    ensures ScalarMult(c, 0, q, Point(0, 0)) == Ok(Point(0, 0))
  {
  }

  /** scalar_multiplication(1, P) is point_addition((0, 0), P), provided doubling P does not raise. */
  lemma ScalarOne(c: Curve, q: Point)
    requires c.p > 0
    ensures PointDoubling(c, q).Ok? ==> ScalarMult(c, 1, q, Point(0, 0)) == PointAddition(c, Point(0, 0), q)
    ensures PointDoubling(c, q).Err? ==> ScalarMult(c, 1, q, Point(0, 0)).Err?
  {
    assert 1 / 2 == 0;
  }

  /**
   * (0, 0) is no identity: on the tests' a = b = 1, with the modulus 5 chosen here (the code never
   * assigns one), the point (2, 1) lies on y^2 = x^3 + x + 1 and 1 * (2, 1) comes out as (2, 4).
   */
  lemma ScalarOneIsNotIdentity()
    ensures IsOnCurve(Curve(1, 1, 5), 2, 1)
    ensures ScalarMult(Curve(1, 1, 5), 1, Point(2, 1), Point(0, 0)) == Ok(Point(2, 4))
  {
    var c := Curve(1, 1, 5);
    assert IsInverse(2, 3, 5);
    assert !IsInverse(2, 0, 5) && !IsInverse(2, 1, 5) && !IsInverse(2, 2, 5);
    assert ModInverse(2, 5) == Ok(3);
    assert PointAddition(c, Point(0, 0), Point(2, 1)) == Ok(Point(2, 4));
    ScalarOne(c, Point(2, 1));
  }

  /**
   * k >>= 1 on a negative k, floor division by 2, stays negative, so the loop condition k != 0
   * never fails and only an exception can leave the loop.
   */
  lemma NegativeScalarNeverReachesZero(k: int)
    requires k < 0
    ensures k / 2 < 0 && k / 2 != 0
  {
  }
}
