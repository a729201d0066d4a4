/**
 * Arithmetic in the finite field GF(2^8) as AES uses it (FIPS 197, section 4): bytes are
 * polynomials over GF(2), addition is XOR and multiplication is modulo x^8 + x^4 + x^3 + x + 1.
 * The column transforms MixColumns and InvMixColumns (FIPS 197, sections 5.1.3 and 5.3.3) are
 * stated here together with the proof that each undoes the other.
 *
 * The proofs never let the solver reason about individual bits of several bytes at once:
 * sums are written with the positional functions Sum2/Sum3/Sum4, every rearrangement of a sum
 * is a call of a small lemma (associativity, commutativity, regrouping), and only identities
 * in a single byte variable are left to bit-level reasoning.
 */
module AesField {
  /** Four bytes: a column of the state, or a word of the key schedule. */
  datatype Word = Word(b0: bv8, b1: bv8, b2: bv8, b3: bv8)

  /** Multiplication by x (FIPS 197, section 4.2.1, xtime), written without a branch:
      when the top bit is set, its copies at positions 0, 1, 3 and 4 add the reduction 0x1b. */
  function XTime(a: bv8): bv8
  {
    var hi := a >> 7;
    (a << 1) ^ hi ^ (hi << 1) ^ (hi << 3) ^ (hi << 4)
  }

  /** XTime is the xtime of FIPS 197: a shift, followed by reduction when a bit was shifted out. */
  lemma XTimeIsShiftAndReduce(a: bv8)
    ensures XTime(a) == if a & 0x80 == 0 then a << 1 else (a << 1) ^ 0x1b
  { }

  /** Multiplication in GF(2^8) (FIPS 197, section 4.2.2): the sum of a * x^k over the bits k set in b. */
  function GaloisMult(a: bv8, b: bv8): bv8
    decreases b as int
  {
    if b == 0 then 0
    else (if b & 1 == 0 then 0 else a) ^ GaloisMult(XTime(a), b >> 1)
  }

  /** Field sums of two, three and four elements. */
  function Sum2(a: bv8, b: bv8): bv8 { a ^ b }
  function Sum3(a: bv8, b: bv8, c: bv8): bv8 { a ^ b ^ c }
  function Sum4(a: bv8, b: bv8, c: bv8, d: bv8): bv8 { a ^ b ^ c ^ d }

  lemma SumAssoc(a: bv8, b: bv8, c: bv8)
    ensures Sum2(Sum2(a, b), c) == Sum2(a, Sum2(b, c))
  { }

  lemma SumComm(a: bv8, b: bv8)
    ensures Sum2(a, b) == Sum2(b, a)
  { }

  lemma Sum3AsPairs(a: bv8, b: bv8, c: bv8)
    ensures Sum3(a, b, c) == Sum2(Sum2(a, b), c)
  { }

  lemma Sum4AsPairs(a: bv8, b: bv8, c: bv8, d: bv8)
    ensures Sum4(a, b, c, d) == Sum2(Sum2(a, b), Sum2(c, d))
  { }

  /** Exchanging the inner summands of a sum of two pairs. */
  lemma SwapInner(a: bv8, b: bv8, c: bv8, d: bv8)
    ensures Sum2(Sum2(a, b), Sum2(c, d)) == Sum2(Sum2(a, c), Sum2(b, d))
  {
    SumAssoc(a, b, Sum2(c, d));
    SumAssoc(b, c, d);
    SumComm(b, c);
    SumAssoc(c, b, d);
    SumAssoc(a, c, Sum2(b, d));
  }

  /** The sum of two 4-vectors, added componentwise. */
  lemma AddVectors(a0: bv8, a1: bv8, a2: bv8, a3: bv8, b0: bv8, b1: bv8, b2: bv8, b3: bv8)
    ensures Sum2(Sum4(a0, a1, a2, a3), Sum4(b0, b1, b2, b3))
         == Sum4(Sum2(a0, b0), Sum2(a1, b1), Sum2(a2, b2), Sum2(a3, b3))
  {
    Sum4AsPairs(a0, a1, a2, a3);
    Sum4AsPairs(b0, b1, b2, b3);
    SwapInner(Sum2(a0, a1), Sum2(a2, a3), Sum2(b0, b1), Sum2(b2, b3));
    SwapInner(a0, a1, b0, b1);
    SwapInner(a2, a3, b2, b3);
    Sum4AsPairs(Sum2(a0, b0), Sum2(a1, b1), Sum2(a2, b2), Sum2(a3, b3));
  }

  /** The sum of three 4-vectors, added componentwise. */
  lemma AddThreeVectors(a0: bv8, a1: bv8, a2: bv8, a3: bv8, b0: bv8, b1: bv8, b2: bv8, b3: bv8,
                        c0: bv8, c1: bv8, c2: bv8, c3: bv8)
    ensures Sum3(Sum4(a0, a1, a2, a3), Sum4(b0, b1, b2, b3), Sum4(c0, c1, c2, c3))
         == Sum4(Sum3(a0, b0, c0), Sum3(a1, b1, c1), Sum3(a2, b2, c2), Sum3(a3, b3, c3))
  {
    Sum3AsPairs(Sum4(a0, a1, a2, a3), Sum4(b0, b1, b2, b3), Sum4(c0, c1, c2, c3));
    AddVectors(a0, a1, a2, a3, b0, b1, b2, b3);
    AddVectors(Sum2(a0, b0), Sum2(a1, b1), Sum2(a2, b2), Sum2(a3, b3), c0, c1, c2, c3);
    Sum3AsPairs(a0, b0, c0);
    Sum3AsPairs(a1, b1, c1);
    Sum3AsPairs(a2, b2, c2);
    Sum3AsPairs(a3, b3, c3);
  }

  /** A sum of four 4-vectors, added componentwise: the order of a double sum can be exchanged. */
  lemma ExchangeSums(w00: bv8, w01: bv8, w02: bv8, w03: bv8, w10: bv8, w11: bv8, w12: bv8, w13: bv8, w20: bv8, w21: bv8, w22: bv8, w23: bv8, w30: bv8, w31: bv8, w32: bv8, w33: bv8)
    ensures Sum4(Sum4(w00, w01, w02, w03), Sum4(w10, w11, w12, w13), Sum4(w20, w21, w22, w23), Sum4(w30, w31, w32, w33))
         == Sum4(Sum4(w00, w10, w20, w30), Sum4(w01, w11, w21, w31), Sum4(w02, w12, w22, w32), Sum4(w03, w13, w23, w33))
  {
    Sum4AsPairs(Sum4(w00, w01, w02, w03), Sum4(w10, w11, w12, w13), Sum4(w20, w21, w22, w23), Sum4(w30, w31, w32, w33));
    AddVectors(w00, w01, w02, w03, w10, w11, w12, w13);
    AddVectors(w20, w21, w22, w23, w30, w31, w32, w33);
    AddVectors(Sum2(w00, w10), Sum2(w01, w11), Sum2(w02, w12), Sum2(w03, w13), Sum2(w20, w30), Sum2(w21, w31), Sum2(w22, w32), Sum2(w23, w33));
    Sum4AsPairs(w00, w10, w20, w30);
    Sum4AsPairs(w01, w11, w21, w31);
    Sum4AsPairs(w02, w12, w22, w32);
    Sum4AsPairs(w03, w13, w23, w33);
  }

  lemma XTimeLinear(a: bv8, b: bv8)
    ensures XTime(Sum2(a, b)) == Sum2(XTime(a), XTime(b))
  { }

  lemma XTimeOfSum2(m: bv8, s0: bv8, s1: bv8)
    ensures m == Sum2(s0, s1) ==> XTime(m) == Sum2(XTime(s0), XTime(s1))
  {
    XTimeLinear(s0, s1);
  }

  lemma RegroupSum4(m: bv8, p: bv8, q: bv8, s0: bv8, s1: bv8, s2: bv8, s3: bv8)
    ensures m == Sum4(s0, s1, s2, s3) && p == Sum2(s0, s1) && q == Sum2(p, s2) ==> m == Sum2(q, s3)
  { }

  lemma UngroupSum4(g: bv8, p: bv8, q: bv8, a: bv8, b: bv8, c: bv8, d: bv8)
    ensures g == Sum2(p, d) && p == Sum2(q, c) && q == Sum2(a, b) ==> g == Sum4(a, b, c, d)
  { }

  /** Multiplication by x distributes over a sum of four. */
  lemma XTimeOfSum4(m: bv8, s0: bv8, s1: bv8, s2: bv8, s3: bv8)
    ensures m == Sum4(s0, s1, s2, s3) ==> XTime(m) == Sum4(XTime(s0), XTime(s1), XTime(s2), XTime(s3))
  {
    var p := Sum2(s0, s1);
    var q := Sum2(p, s2);
    RegroupSum4(m, p, q, s0, s1, s2, s3);
    XTimeOfSum2(p, s0, s1);
    XTimeOfSum2(q, p, s2);
    XTimeOfSum2(m, q, s3);
    UngroupSum4(XTime(m), XTime(q), XTime(p), XTime(s0), XTime(s1), XTime(s2), XTime(s3));
  }

  /** The products by the constants of the two matrices, as sums of powers of x times the byte. */
  function Times2(a: bv8): bv8 { XTime(a) }
  function Times3(a: bv8): bv8 { Sum2(a, XTime(a)) }
  function Times9(a: bv8): bv8 { Sum2(a, XTime(XTime(XTime(a)))) }
  function Times11(a: bv8): bv8 { Sum3(a, XTime(a), XTime(XTime(XTime(a)))) }
  function Times13(a: bv8): bv8 { Sum3(a, XTime(XTime(a)), XTime(XTime(XTime(a)))) }
  function Times14(a: bv8): bv8 { Sum3(XTime(a), XTime(XTime(a)), XTime(XTime(XTime(a)))) }

  /** Multiplication by 2 is a sum of powers of x times the byte. */
  lemma MultBy2(a: bv8)
    ensures GaloisMult(a, 2) == XTime(a)
  { }

  /** Multiplication by 3 is a sum of powers of x times the byte. */
  lemma MultBy3(a: bv8)
    ensures GaloisMult(a, 3) == Sum2(a, XTime(a))
  { }

  /** Multiplication by 9 is a sum of powers of x times the byte. */
  lemma MultBy9Steps(a: bv8)
    ensures GaloisMult(a, 9) == a ^ (XTime(XTime(XTime(a))) ^ 0)
  {
    var x1 := XTime(a); var x2 := XTime(x1); var x3 := XTime(x2);
    assert GaloisMult(a, 9) == a ^ GaloisMult(x1, 4);
    assert GaloisMult(x1, 4) == GaloisMult(x2, 2);
    assert GaloisMult(x2, 2) == GaloisMult(x3, 1);
    assert GaloisMult(x3, 1) == x3 ^ GaloisMult(XTime(x3), 0);
    assert GaloisMult(XTime(x3), 0) == 0;
  }

  lemma MultBy9(a: bv8)
    ensures GaloisMult(a, 9) == Sum2(a, XTime(XTime(XTime(a))))
  {
    MultBy9Steps(a);
  }

  /** Multiplication by 11 is a sum of powers of x times the byte. */
  lemma MultBy11Steps(a: bv8)
    ensures GaloisMult(a, 11) == a ^ (XTime(a) ^ (XTime(XTime(XTime(a))) ^ 0))
  {
    var x1 := XTime(a); var x2 := XTime(x1); var x3 := XTime(x2);
    assert GaloisMult(a, 11) == a ^ GaloisMult(x1, 5);
    assert GaloisMult(x1, 5) == x1 ^ GaloisMult(x2, 2);
    assert GaloisMult(x2, 2) == GaloisMult(x3, 1);
    assert GaloisMult(x3, 1) == x3 ^ GaloisMult(XTime(x3), 0);
    assert GaloisMult(XTime(x3), 0) == 0;
  }

  lemma MultBy11(a: bv8)
    ensures GaloisMult(a, 11) == Sum3(a, XTime(a), XTime(XTime(XTime(a))))
  {
    MultBy11Steps(a);
  }

  /** Multiplication by 13 is a sum of powers of x times the byte. */
  lemma MultBy13Steps(a: bv8)
    ensures GaloisMult(a, 13) == a ^ (XTime(XTime(a)) ^ (XTime(XTime(XTime(a))) ^ 0))
  {
    var x1 := XTime(a); var x2 := XTime(x1); var x3 := XTime(x2);
    assert GaloisMult(a, 13) == a ^ GaloisMult(x1, 6);
    assert GaloisMult(x1, 6) == GaloisMult(x2, 3);
    assert GaloisMult(x2, 3) == x2 ^ GaloisMult(x3, 1);
    assert GaloisMult(x3, 1) == x3 ^ GaloisMult(XTime(x3), 0);
    assert GaloisMult(XTime(x3), 0) == 0;
  }

  lemma MultBy13(a: bv8)
    ensures GaloisMult(a, 13) == Sum3(a, XTime(XTime(a)), XTime(XTime(XTime(a))))
  {
    MultBy13Steps(a);
  }

  /** Multiplication by 14 is a sum of powers of x times the byte. */
  lemma MultBy14Steps(a: bv8)
    ensures GaloisMult(a, 14) == XTime(a) ^ (XTime(XTime(a)) ^ (XTime(XTime(XTime(a))) ^ 0))
  {
    var x1 := XTime(a); var x2 := XTime(x1); var x3 := XTime(x2);
    assert GaloisMult(a, 14) == GaloisMult(x1, 7);
    assert GaloisMult(x1, 7) == x1 ^ GaloisMult(x2, 3);
    assert GaloisMult(x2, 3) == x2 ^ GaloisMult(x3, 1);
    assert GaloisMult(x3, 1) == x3 ^ GaloisMult(XTime(x3), 0);
    assert GaloisMult(XTime(x3), 0) == 0;
  }

  lemma MultBy14(a: bv8)
    ensures GaloisMult(a, 14) == Sum3(XTime(a), XTime(XTime(a)), XTime(XTime(XTime(a))))
  {
    MultBy14Steps(a);
  }

  /** Multiplication by 2 distributes over a sum of four. */
  lemma MultBy2OfSum4(m: bv8, u0: bv8, u1: bv8, u2: bv8, u3: bv8)
    ensures m == Sum4(u0, u1, u2, u3) ==> GaloisMult(m, 2) == Sum4(GaloisMult(u0, 2), GaloisMult(u1, 2), GaloisMult(u2, 2), GaloisMult(u3, 2))
  {
    if m == Sum4(u0, u1, u2, u3) {
      XTimeOfSum4(m, u0, u1, u2, u3);
      MultBy2(m);
      MultBy2(u0);
      MultBy2(u1);
      MultBy2(u2);
      MultBy2(u3);
    }
  }

  /** Multiplication by 3 distributes over a sum of four. */
  lemma MultBy3OfSum4(m: bv8, u0: bv8, u1: bv8, u2: bv8, u3: bv8)
    ensures m == Sum4(u0, u1, u2, u3) ==> GaloisMult(m, 3) == Sum4(GaloisMult(u0, 3), GaloisMult(u1, 3), GaloisMult(u2, 3), GaloisMult(u3, 3))
  {
    if m == Sum4(u0, u1, u2, u3) {
      XTimeOfSum4(m, u0, u1, u2, u3);
      MultBy3(m);
      MultBy3(u0);
      MultBy3(u1);
      MultBy3(u2);
      MultBy3(u3);
      AddVectors(u0, u1, u2, u3, XTime(u0), XTime(u1), XTime(u2), XTime(u3));
    }
  }

  /** Multiplication by 9 distributes over a sum of four. */
  lemma MultBy9OfSum4(m: bv8, u0: bv8, u1: bv8, u2: bv8, u3: bv8)
    ensures m == Sum4(u0, u1, u2, u3) ==> GaloisMult(m, 9) == Sum4(GaloisMult(u0, 9), GaloisMult(u1, 9), GaloisMult(u2, 9), GaloisMult(u3, 9))
  {
    if m == Sum4(u0, u1, u2, u3) {
      XTimeOfSum4(m, u0, u1, u2, u3);
      XTimeOfSum4(XTime(m), XTime(u0), XTime(u1), XTime(u2), XTime(u3));
      XTimeOfSum4(XTime(XTime(m)), XTime(XTime(u0)), XTime(XTime(u1)), XTime(XTime(u2)), XTime(XTime(u3)));
      MultBy9(m);
      MultBy9(u0);
      MultBy9(u1);
      MultBy9(u2);
      MultBy9(u3);
      AddVectors(u0, u1, u2, u3, XTime(XTime(XTime(u0))), XTime(XTime(XTime(u1))), XTime(XTime(XTime(u2))), XTime(XTime(XTime(u3))));
    }
  }

  /** Multiplication by 11 distributes over a sum of four. */
  lemma MultBy11OfSum4(m: bv8, u0: bv8, u1: bv8, u2: bv8, u3: bv8)
    ensures m == Sum4(u0, u1, u2, u3) ==> GaloisMult(m, 11) == Sum4(GaloisMult(u0, 11), GaloisMult(u1, 11), GaloisMult(u2, 11), GaloisMult(u3, 11))
  {
    if m == Sum4(u0, u1, u2, u3) {
      XTimeOfSum4(m, u0, u1, u2, u3);
      XTimeOfSum4(XTime(m), XTime(u0), XTime(u1), XTime(u2), XTime(u3));
      XTimeOfSum4(XTime(XTime(m)), XTime(XTime(u0)), XTime(XTime(u1)), XTime(XTime(u2)), XTime(XTime(u3)));
      MultBy11(m);
      MultBy11(u0);
      MultBy11(u1);
      MultBy11(u2);
      MultBy11(u3);
      AddThreeVectors(u0, u1, u2, u3, XTime(u0), XTime(u1), XTime(u2), XTime(u3), XTime(XTime(XTime(u0))), XTime(XTime(XTime(u1))), XTime(XTime(XTime(u2))), XTime(XTime(XTime(u3))));
    }
  }

  /** Multiplication by 13 distributes over a sum of four. */
  lemma MultBy13OfSum4(m: bv8, u0: bv8, u1: bv8, u2: bv8, u3: bv8)
    ensures m == Sum4(u0, u1, u2, u3) ==> GaloisMult(m, 13) == Sum4(GaloisMult(u0, 13), GaloisMult(u1, 13), GaloisMult(u2, 13), GaloisMult(u3, 13))
  {
    if m == Sum4(u0, u1, u2, u3) {
      XTimeOfSum4(m, u0, u1, u2, u3);
      XTimeOfSum4(XTime(m), XTime(u0), XTime(u1), XTime(u2), XTime(u3));
      XTimeOfSum4(XTime(XTime(m)), XTime(XTime(u0)), XTime(XTime(u1)), XTime(XTime(u2)), XTime(XTime(u3)));
      MultBy13(m);
      MultBy13(u0);
      MultBy13(u1);
      MultBy13(u2);
      MultBy13(u3);
      AddThreeVectors(u0, u1, u2, u3, XTime(XTime(u0)), XTime(XTime(u1)), XTime(XTime(u2)), XTime(XTime(u3)), XTime(XTime(XTime(u0))), XTime(XTime(XTime(u1))), XTime(XTime(XTime(u2))), XTime(XTime(XTime(u3))));
    }
  }

  /** Multiplication by 14 distributes over a sum of four. */
  lemma MultBy14OfSum4(m: bv8, u0: bv8, u1: bv8, u2: bv8, u3: bv8)
    ensures m == Sum4(u0, u1, u2, u3) ==> GaloisMult(m, 14) == Sum4(GaloisMult(u0, 14), GaloisMult(u1, 14), GaloisMult(u2, 14), GaloisMult(u3, 14))
  {
    if m == Sum4(u0, u1, u2, u3) {
      XTimeOfSum4(m, u0, u1, u2, u3);
      XTimeOfSum4(XTime(m), XTime(u0), XTime(u1), XTime(u2), XTime(u3));
      XTimeOfSum4(XTime(XTime(m)), XTime(XTime(u0)), XTime(XTime(u1)), XTime(XTime(u2)), XTime(XTime(u3)));
      MultBy14(m);
      MultBy14(u0);
      MultBy14(u1);
      MultBy14(u2);
      MultBy14(u3);
      AddThreeVectors(XTime(u0), XTime(u1), XTime(u2), XTime(u3), XTime(XTime(u0)), XTime(XTime(u1)), XTime(XTime(u2)), XTime(XTime(u3)), XTime(XTime(XTime(u0))), XTime(XTime(XTime(u1))), XTime(XTime(XTime(u2))), XTime(XTime(XTime(u3))));
    }
  }

  /** One column of MixColumns (FIPS 197, section 5.1.3): the column times the fixed matrix
      with rows [2, 3, 1, 1], [1, 2, 3, 1], [1, 1, 2, 3], [3, 1, 1, 2]. */
  function MixSingleColumn(c: Word): Word
  {
    Word(Sum4(GaloisMult(c.b0, 2), GaloisMult(c.b1, 3), c.b2, c.b3),
         Sum4(c.b0, GaloisMult(c.b1, 2), GaloisMult(c.b2, 3), c.b3),
         Sum4(c.b0, c.b1, GaloisMult(c.b2, 2), GaloisMult(c.b3, 3)),
         Sum4(GaloisMult(c.b0, 3), c.b1, c.b2, GaloisMult(c.b3, 2)))
  }

  /** One column of InvMixColumns (FIPS 197, section 5.3.3): the column times the fixed matrix
      with rows [14, 11, 13, 9], [9, 14, 11, 13], [13, 9, 14, 11], [11, 13, 9, 14]. */
  function InvMixSingleColumn(c: Word): Word
  {
    Word(Sum4(GaloisMult(c.b0, 14), GaloisMult(c.b1, 11), GaloisMult(c.b2, 13), GaloisMult(c.b3, 9)),
         Sum4(GaloisMult(c.b0, 9), GaloisMult(c.b1, 14), GaloisMult(c.b2, 11), GaloisMult(c.b3, 13)),
         Sum4(GaloisMult(c.b0, 13), GaloisMult(c.b1, 9), GaloisMult(c.b2, 14), GaloisMult(c.b3, 11)),
         Sum4(GaloisMult(c.b0, 11), GaloisMult(c.b1, 13), GaloisMult(c.b2, 9), GaloisMult(c.b3, 14)))
  }

  lemma InvMixMixUnit00Bits(a: bv8)
    ensures Sum4(Times14(Times2(a)), Times11(a), Times13(a), Times9(Times3(a))) == a
  {
    var x1 := XTime(a); var x2 := XTime(x1); var x3 := XTime(x2);
    var x4 := XTime(x3); var x5 := XTime(x4); var x6 := XTime(x5);
    assert Times3(a) == a ^ x1;
    assert XTime(Times3(a)) == x1 ^ x2;
    assert XTime(XTime(Times3(a))) == x2 ^ x3;
    assert XTime(XTime(XTime(Times3(a)))) == x3 ^ x4;
  }

  lemma InvMixMixUnit00(a: bv8)
    ensures Sum4(GaloisMult(GaloisMult(a, 2), 14), GaloisMult(a, 11), GaloisMult(a, 13), GaloisMult(GaloisMult(a, 3), 9)) == a
  {
    MultBy2(a);
    MultBy3(a);
    MultBy11(a);
    MultBy13(a);
    MultBy14(GaloisMult(a, 2));
    MultBy9(GaloisMult(a, 3));
    InvMixMixUnit00Bits(a);
  }

  lemma InvMixMixUnit01Bits(a: bv8)
    ensures Sum4(Times14(Times3(a)), Times11(Times2(a)), Times13(a), Times9(a)) == 0
  {
    var x1 := XTime(a); var x2 := XTime(x1); var x3 := XTime(x2);
    var x4 := XTime(x3); var x5 := XTime(x4); var x6 := XTime(x5);
    assert Times3(a) == a ^ x1;
    assert XTime(Times3(a)) == x1 ^ x2;
    assert XTime(XTime(Times3(a))) == x2 ^ x3;
    assert XTime(XTime(XTime(Times3(a)))) == x3 ^ x4;
  }

  lemma InvMixMixUnit01(a: bv8)
    ensures Sum4(GaloisMult(GaloisMult(a, 3), 14), GaloisMult(GaloisMult(a, 2), 11), GaloisMult(a, 13), GaloisMult(a, 9)) == 0
  {
    MultBy2(a);
    MultBy3(a);
    MultBy9(a);
    MultBy13(a);
    MultBy14(GaloisMult(a, 3));
    MultBy11(GaloisMult(a, 2));
    InvMixMixUnit01Bits(a);
  }

  lemma InvMixMixUnit02Bits(a: bv8)
    ensures Sum4(Times14(a), Times11(Times3(a)), Times13(Times2(a)), Times9(a)) == 0
  {
    var x1 := XTime(a); var x2 := XTime(x1); var x3 := XTime(x2);
    var x4 := XTime(x3); var x5 := XTime(x4); var x6 := XTime(x5);
    assert Times3(a) == a ^ x1;
    assert XTime(Times3(a)) == x1 ^ x2;
    assert XTime(XTime(Times3(a))) == x2 ^ x3;
    assert XTime(XTime(XTime(Times3(a)))) == x3 ^ x4;
  }

  lemma InvMixMixUnit02(a: bv8)
    ensures Sum4(GaloisMult(a, 14), GaloisMult(GaloisMult(a, 3), 11), GaloisMult(GaloisMult(a, 2), 13), GaloisMult(a, 9)) == 0
  {
    MultBy2(a);
    MultBy3(a);
    MultBy9(a);
    MultBy14(a);
    MultBy11(GaloisMult(a, 3));
    MultBy13(GaloisMult(a, 2));
    InvMixMixUnit02Bits(a);
  }

  lemma InvMixMixUnit03Bits(a: bv8)
    ensures Sum4(Times14(a), Times11(a), Times13(Times3(a)), Times9(Times2(a))) == 0
  {
    var x1 := XTime(a); var x2 := XTime(x1); var x3 := XTime(x2);
    var x4 := XTime(x3); var x5 := XTime(x4); var x6 := XTime(x5);
    assert Times3(a) == a ^ x1;
    assert XTime(Times3(a)) == x1 ^ x2;
    assert XTime(XTime(Times3(a))) == x2 ^ x3;
    assert XTime(XTime(XTime(Times3(a)))) == x3 ^ x4;
  }

  lemma InvMixMixUnit03(a: bv8)
    ensures Sum4(GaloisMult(a, 14), GaloisMult(a, 11), GaloisMult(GaloisMult(a, 3), 13), GaloisMult(GaloisMult(a, 2), 9)) == 0
  {
    MultBy2(a);
    MultBy3(a);
    MultBy11(a);
    MultBy14(a);
    MultBy13(GaloisMult(a, 3));
    MultBy9(GaloisMult(a, 2));
    InvMixMixUnit03Bits(a);
  }

  lemma InvMixMixUnit10Bits(a: bv8)
    ensures Sum4(Times9(Times2(a)), Times14(a), Times11(a), Times13(Times3(a))) == 0
  {
    var x1 := XTime(a); var x2 := XTime(x1); var x3 := XTime(x2);
    var x4 := XTime(x3); var x5 := XTime(x4); var x6 := XTime(x5);
    assert Times3(a) == a ^ x1;
    assert XTime(Times3(a)) == x1 ^ x2;
    assert XTime(XTime(Times3(a))) == x2 ^ x3;
    assert XTime(XTime(XTime(Times3(a)))) == x3 ^ x4;
  }

  lemma InvMixMixUnit10(a: bv8)
    ensures Sum4(GaloisMult(GaloisMult(a, 2), 9), GaloisMult(a, 14), GaloisMult(a, 11), GaloisMult(GaloisMult(a, 3), 13)) == 0
  {
    MultBy2(a);
    MultBy3(a);
    MultBy11(a);
    MultBy14(a);
    MultBy9(GaloisMult(a, 2));
    MultBy13(GaloisMult(a, 3));
    InvMixMixUnit10Bits(a);
  }

  lemma InvMixMixUnit11Bits(a: bv8)
    ensures Sum4(Times9(Times3(a)), Times14(Times2(a)), Times11(a), Times13(a)) == a
  {
    var x1 := XTime(a); var x2 := XTime(x1); var x3 := XTime(x2);
    var x4 := XTime(x3); var x5 := XTime(x4); var x6 := XTime(x5);
    assert Times3(a) == a ^ x1;
    assert XTime(Times3(a)) == x1 ^ x2;
    assert XTime(XTime(Times3(a))) == x2 ^ x3;
    assert XTime(XTime(XTime(Times3(a)))) == x3 ^ x4;
  }

  lemma InvMixMixUnit11(a: bv8)
    ensures Sum4(GaloisMult(GaloisMult(a, 3), 9), GaloisMult(GaloisMult(a, 2), 14), GaloisMult(a, 11), GaloisMult(a, 13)) == a
  {
    MultBy2(a);
    MultBy3(a);
    MultBy11(a);
    MultBy13(a);
    MultBy9(GaloisMult(a, 3));
    MultBy14(GaloisMult(a, 2));
    InvMixMixUnit11Bits(a);
  }

  lemma InvMixMixUnit12Bits(a: bv8)
    ensures Sum4(Times9(a), Times14(Times3(a)), Times11(Times2(a)), Times13(a)) == 0
  {
    var x1 := XTime(a); var x2 := XTime(x1); var x3 := XTime(x2);
    var x4 := XTime(x3); var x5 := XTime(x4); var x6 := XTime(x5);
    assert Times3(a) == a ^ x1;
    assert XTime(Times3(a)) == x1 ^ x2;
    assert XTime(XTime(Times3(a))) == x2 ^ x3;
    assert XTime(XTime(XTime(Times3(a)))) == x3 ^ x4;
  }

  lemma InvMixMixUnit12(a: bv8)
    ensures Sum4(GaloisMult(a, 9), GaloisMult(GaloisMult(a, 3), 14), GaloisMult(GaloisMult(a, 2), 11), GaloisMult(a, 13)) == 0
  {
    MultBy2(a);
    MultBy3(a);
    MultBy9(a);
    MultBy13(a);
    MultBy14(GaloisMult(a, 3));
    MultBy11(GaloisMult(a, 2));
    InvMixMixUnit12Bits(a);
  }

  lemma InvMixMixUnit13Bits(a: bv8)
    ensures Sum4(Times9(a), Times14(a), Times11(Times3(a)), Times13(Times2(a))) == 0
  {
    var x1 := XTime(a); var x2 := XTime(x1); var x3 := XTime(x2);
    var x4 := XTime(x3); var x5 := XTime(x4); var x6 := XTime(x5);
    assert Times3(a) == a ^ x1;
    assert XTime(Times3(a)) == x1 ^ x2;
    assert XTime(XTime(Times3(a))) == x2 ^ x3;
    assert XTime(XTime(XTime(Times3(a)))) == x3 ^ x4;
  }

  lemma InvMixMixUnit13(a: bv8)
    ensures Sum4(GaloisMult(a, 9), GaloisMult(a, 14), GaloisMult(GaloisMult(a, 3), 11), GaloisMult(GaloisMult(a, 2), 13)) == 0
  {
    MultBy2(a);
    MultBy3(a);
    MultBy9(a);
    MultBy14(a);
    MultBy11(GaloisMult(a, 3));
    MultBy13(GaloisMult(a, 2));
    InvMixMixUnit13Bits(a);
  }

  lemma InvMixMixUnit20Bits(a: bv8)
    ensures Sum4(Times13(Times2(a)), Times9(a), Times14(a), Times11(Times3(a))) == 0
  {
    var x1 := XTime(a); var x2 := XTime(x1); var x3 := XTime(x2);
    var x4 := XTime(x3); var x5 := XTime(x4); var x6 := XTime(x5);
    assert Times3(a) == a ^ x1;
    assert XTime(Times3(a)) == x1 ^ x2;
    assert XTime(XTime(Times3(a))) == x2 ^ x3;
    assert XTime(XTime(XTime(Times3(a)))) == x3 ^ x4;
  }

  lemma InvMixMixUnit20(a: bv8)
    ensures Sum4(GaloisMult(GaloisMult(a, 2), 13), GaloisMult(a, 9), GaloisMult(a, 14), GaloisMult(GaloisMult(a, 3), 11)) == 0
  {
    MultBy2(a);
    MultBy3(a);
    MultBy9(a);
    MultBy14(a);
    MultBy13(GaloisMult(a, 2));
    MultBy11(GaloisMult(a, 3));
    InvMixMixUnit20Bits(a);
  }

  lemma InvMixMixUnit21Bits(a: bv8)
    ensures Sum4(Times13(Times3(a)), Times9(Times2(a)), Times14(a), Times11(a)) == 0
  {
    var x1 := XTime(a); var x2 := XTime(x1); var x3 := XTime(x2);
    var x4 := XTime(x3); var x5 := XTime(x4); var x6 := XTime(x5);
    assert Times3(a) == a ^ x1;
    assert XTime(Times3(a)) == x1 ^ x2;
    assert XTime(XTime(Times3(a))) == x2 ^ x3;
    assert XTime(XTime(XTime(Times3(a)))) == x3 ^ x4;
  }

  lemma InvMixMixUnit21(a: bv8)
    ensures Sum4(GaloisMult(GaloisMult(a, 3), 13), GaloisMult(GaloisMult(a, 2), 9), GaloisMult(a, 14), GaloisMult(a, 11)) == 0
  {
    MultBy2(a);
    MultBy3(a);
    MultBy11(a);
    MultBy14(a);
    MultBy13(GaloisMult(a, 3));
    MultBy9(GaloisMult(a, 2));
    InvMixMixUnit21Bits(a);
  }

  lemma InvMixMixUnit22Bits(a: bv8)
    ensures Sum4(Times13(a), Times9(Times3(a)), Times14(Times2(a)), Times11(a)) == a
  {
    var x1 := XTime(a); var x2 := XTime(x1); var x3 := XTime(x2);
    var x4 := XTime(x3); var x5 := XTime(x4); var x6 := XTime(x5);
    assert Times3(a) == a ^ x1;
    assert XTime(Times3(a)) == x1 ^ x2;
    assert XTime(XTime(Times3(a))) == x2 ^ x3;
    assert XTime(XTime(XTime(Times3(a)))) == x3 ^ x4;
  }

  lemma InvMixMixUnit22(a: bv8)
    ensures Sum4(GaloisMult(a, 13), GaloisMult(GaloisMult(a, 3), 9), GaloisMult(GaloisMult(a, 2), 14), GaloisMult(a, 11)) == a
  {
    MultBy2(a);
    MultBy3(a);
    MultBy11(a);
    MultBy13(a);
    MultBy9(GaloisMult(a, 3));
    MultBy14(GaloisMult(a, 2));
    InvMixMixUnit22Bits(a);
  }

  lemma InvMixMixUnit23Bits(a: bv8)
    ensures Sum4(Times13(a), Times9(a), Times14(Times3(a)), Times11(Times2(a))) == 0
  {
    var x1 := XTime(a); var x2 := XTime(x1); var x3 := XTime(x2);
    var x4 := XTime(x3); var x5 := XTime(x4); var x6 := XTime(x5);
    assert Times3(a) == a ^ x1;
    assert XTime(Times3(a)) == x1 ^ x2;
    assert XTime(XTime(Times3(a))) == x2 ^ x3;
    assert XTime(XTime(XTime(Times3(a)))) == x3 ^ x4;
  }

  lemma InvMixMixUnit23(a: bv8)
    ensures Sum4(GaloisMult(a, 13), GaloisMult(a, 9), GaloisMult(GaloisMult(a, 3), 14), GaloisMult(GaloisMult(a, 2), 11)) == 0
  {
    MultBy2(a);
    MultBy3(a);
    MultBy9(a);
    MultBy13(a);
    MultBy14(GaloisMult(a, 3));
    MultBy11(GaloisMult(a, 2));
    InvMixMixUnit23Bits(a);
  }

  lemma InvMixMixUnit30Bits(a: bv8)
    ensures Sum4(Times11(Times2(a)), Times13(a), Times9(a), Times14(Times3(a))) == 0
  {
    var x1 := XTime(a); var x2 := XTime(x1); var x3 := XTime(x2);
    var x4 := XTime(x3); var x5 := XTime(x4); var x6 := XTime(x5);
    assert Times3(a) == a ^ x1;
    assert XTime(Times3(a)) == x1 ^ x2;
    assert XTime(XTime(Times3(a))) == x2 ^ x3;
    assert XTime(XTime(XTime(Times3(a)))) == x3 ^ x4;
  }

  lemma InvMixMixUnit30(a: bv8)
    ensures Sum4(GaloisMult(GaloisMult(a, 2), 11), GaloisMult(a, 13), GaloisMult(a, 9), GaloisMult(GaloisMult(a, 3), 14)) == 0
  {
    MultBy2(a);
    MultBy3(a);
    MultBy9(a);
    MultBy13(a);
    MultBy11(GaloisMult(a, 2));
    MultBy14(GaloisMult(a, 3));
    InvMixMixUnit30Bits(a);
  }

  lemma InvMixMixUnit31Bits(a: bv8)
    ensures Sum4(Times11(Times3(a)), Times13(Times2(a)), Times9(a), Times14(a)) == 0
  {
    var x1 := XTime(a); var x2 := XTime(x1); var x3 := XTime(x2);
    var x4 := XTime(x3); var x5 := XTime(x4); var x6 := XTime(x5);
    assert Times3(a) == a ^ x1;
    assert XTime(Times3(a)) == x1 ^ x2;
    assert XTime(XTime(Times3(a))) == x2 ^ x3;
    assert XTime(XTime(XTime(Times3(a)))) == x3 ^ x4;
  }

  lemma InvMixMixUnit31(a: bv8)
    ensures Sum4(GaloisMult(GaloisMult(a, 3), 11), GaloisMult(GaloisMult(a, 2), 13), GaloisMult(a, 9), GaloisMult(a, 14)) == 0
  {
    MultBy2(a);
    MultBy3(a);
    MultBy9(a);
    MultBy14(a);
    MultBy11(GaloisMult(a, 3));
    MultBy13(GaloisMult(a, 2));
    InvMixMixUnit31Bits(a);
  }

  lemma InvMixMixUnit32Bits(a: bv8)
    ensures Sum4(Times11(a), Times13(Times3(a)), Times9(Times2(a)), Times14(a)) == 0
  {
    var x1 := XTime(a); var x2 := XTime(x1); var x3 := XTime(x2);
    var x4 := XTime(x3); var x5 := XTime(x4); var x6 := XTime(x5);
    assert Times3(a) == a ^ x1;
    assert XTime(Times3(a)) == x1 ^ x2;
    assert XTime(XTime(Times3(a))) == x2 ^ x3;
    assert XTime(XTime(XTime(Times3(a)))) == x3 ^ x4;
  }

  lemma InvMixMixUnit32(a: bv8)
    ensures Sum4(GaloisMult(a, 11), GaloisMult(GaloisMult(a, 3), 13), GaloisMult(GaloisMult(a, 2), 9), GaloisMult(a, 14)) == 0
  {
    MultBy2(a);
    MultBy3(a);
    MultBy11(a);
    MultBy14(a);
    MultBy13(GaloisMult(a, 3));
    MultBy9(GaloisMult(a, 2));
    InvMixMixUnit32Bits(a);
  }

  lemma InvMixMixUnit33Bits(a: bv8)
    ensures Sum4(Times11(a), Times13(a), Times9(Times3(a)), Times14(Times2(a))) == a
  {
    var x1 := XTime(a); var x2 := XTime(x1); var x3 := XTime(x2);
    var x4 := XTime(x3); var x5 := XTime(x4); var x6 := XTime(x5);
    assert Times3(a) == a ^ x1;
    assert XTime(Times3(a)) == x1 ^ x2;
    assert XTime(XTime(Times3(a))) == x2 ^ x3;
    assert XTime(XTime(XTime(Times3(a)))) == x3 ^ x4;
  }

  lemma InvMixMixUnit33(a: bv8)
    ensures Sum4(GaloisMult(a, 11), GaloisMult(a, 13), GaloisMult(GaloisMult(a, 3), 9), GaloisMult(GaloisMult(a, 2), 14)) == a
  {
    MultBy2(a);
    MultBy3(a);
    MultBy11(a);
    MultBy13(a);
    MultBy9(GaloisMult(a, 3));
    MultBy14(GaloisMult(a, 2));
    InvMixMixUnit33Bits(a);
  }

  /** Entry 0 of the composed transform returns entry 0 of the column. */
  lemma InvMixMixEntry0(c: Word)
    ensures InvMixSingleColumn(MixSingleColumn(c)).b0 == c.b0
  {
    MultBy14OfSum4(MixSingleColumn(c).b0, GaloisMult(c.b0, 2), GaloisMult(c.b1, 3), c.b2, c.b3);
    MultBy11OfSum4(MixSingleColumn(c).b1, c.b0, GaloisMult(c.b1, 2), GaloisMult(c.b2, 3), c.b3);
    MultBy13OfSum4(MixSingleColumn(c).b2, c.b0, c.b1, GaloisMult(c.b2, 2), GaloisMult(c.b3, 3));
    MultBy9OfSum4(MixSingleColumn(c).b3, GaloisMult(c.b0, 3), c.b1, c.b2, GaloisMult(c.b3, 2));
    ExchangeSums(GaloisMult(GaloisMult(c.b0, 2), 14), GaloisMult(GaloisMult(c.b1, 3), 14), GaloisMult(c.b2, 14), GaloisMult(c.b3, 14), GaloisMult(c.b0, 11), GaloisMult(GaloisMult(c.b1, 2), 11), GaloisMult(GaloisMult(c.b2, 3), 11), GaloisMult(c.b3, 11), GaloisMult(c.b0, 13), GaloisMult(c.b1, 13), GaloisMult(GaloisMult(c.b2, 2), 13), GaloisMult(GaloisMult(c.b3, 3), 13), GaloisMult(GaloisMult(c.b0, 3), 9), GaloisMult(c.b1, 9), GaloisMult(c.b2, 9), GaloisMult(GaloisMult(c.b3, 2), 9));
    InvMixMixUnit00(c.b0);
    InvMixMixUnit01(c.b1);
    InvMixMixUnit02(c.b2);
    InvMixMixUnit03(c.b3);
  }

  /** Entry 1 of the composed transform returns entry 1 of the column. */
  lemma InvMixMixEntry1(c: Word)
    ensures InvMixSingleColumn(MixSingleColumn(c)).b1 == c.b1
  {
    MultBy9OfSum4(MixSingleColumn(c).b0, GaloisMult(c.b0, 2), GaloisMult(c.b1, 3), c.b2, c.b3);
    MultBy14OfSum4(MixSingleColumn(c).b1, c.b0, GaloisMult(c.b1, 2), GaloisMult(c.b2, 3), c.b3);
    MultBy11OfSum4(MixSingleColumn(c).b2, c.b0, c.b1, GaloisMult(c.b2, 2), GaloisMult(c.b3, 3));
    MultBy13OfSum4(MixSingleColumn(c).b3, GaloisMult(c.b0, 3), c.b1, c.b2, GaloisMult(c.b3, 2));
    ExchangeSums(GaloisMult(GaloisMult(c.b0, 2), 9), GaloisMult(GaloisMult(c.b1, 3), 9), GaloisMult(c.b2, 9), GaloisMult(c.b3, 9), GaloisMult(c.b0, 14), GaloisMult(GaloisMult(c.b1, 2), 14), GaloisMult(GaloisMult(c.b2, 3), 14), GaloisMult(c.b3, 14), GaloisMult(c.b0, 11), GaloisMult(c.b1, 11), GaloisMult(GaloisMult(c.b2, 2), 11), GaloisMult(GaloisMult(c.b3, 3), 11), GaloisMult(GaloisMult(c.b0, 3), 13), GaloisMult(c.b1, 13), GaloisMult(c.b2, 13), GaloisMult(GaloisMult(c.b3, 2), 13));
    InvMixMixUnit10(c.b0);
    InvMixMixUnit11(c.b1);
    InvMixMixUnit12(c.b2);
    InvMixMixUnit13(c.b3);
  }

  /** Entry 2 of the composed transform returns entry 2 of the column. */
  lemma InvMixMixEntry2(c: Word)
    ensures InvMixSingleColumn(MixSingleColumn(c)).b2 == c.b2
  {
    MultBy13OfSum4(MixSingleColumn(c).b0, GaloisMult(c.b0, 2), GaloisMult(c.b1, 3), c.b2, c.b3);
    MultBy9OfSum4(MixSingleColumn(c).b1, c.b0, GaloisMult(c.b1, 2), GaloisMult(c.b2, 3), c.b3);
    MultBy14OfSum4(MixSingleColumn(c).b2, c.b0, c.b1, GaloisMult(c.b2, 2), GaloisMult(c.b3, 3));
    MultBy11OfSum4(MixSingleColumn(c).b3, GaloisMult(c.b0, 3), c.b1, c.b2, GaloisMult(c.b3, 2));
    ExchangeSums(GaloisMult(GaloisMult(c.b0, 2), 13), GaloisMult(GaloisMult(c.b1, 3), 13), GaloisMult(c.b2, 13), GaloisMult(c.b3, 13), GaloisMult(c.b0, 9), GaloisMult(GaloisMult(c.b1, 2), 9), GaloisMult(GaloisMult(c.b2, 3), 9), GaloisMult(c.b3, 9), GaloisMult(c.b0, 14), GaloisMult(c.b1, 14), GaloisMult(GaloisMult(c.b2, 2), 14), GaloisMult(GaloisMult(c.b3, 3), 14), GaloisMult(GaloisMult(c.b0, 3), 11), GaloisMult(c.b1, 11), GaloisMult(c.b2, 11), GaloisMult(GaloisMult(c.b3, 2), 11));
    InvMixMixUnit20(c.b0);
    InvMixMixUnit21(c.b1);
    InvMixMixUnit22(c.b2);
    InvMixMixUnit23(c.b3);
  }

  /** Entry 3 of the composed transform returns entry 3 of the column. */
  lemma InvMixMixEntry3(c: Word)
    ensures InvMixSingleColumn(MixSingleColumn(c)).b3 == c.b3
  {
    MultBy11OfSum4(MixSingleColumn(c).b0, GaloisMult(c.b0, 2), GaloisMult(c.b1, 3), c.b2, c.b3);
    MultBy13OfSum4(MixSingleColumn(c).b1, c.b0, GaloisMult(c.b1, 2), GaloisMult(c.b2, 3), c.b3);
    MultBy9OfSum4(MixSingleColumn(c).b2, c.b0, c.b1, GaloisMult(c.b2, 2), GaloisMult(c.b3, 3));
    MultBy14OfSum4(MixSingleColumn(c).b3, GaloisMult(c.b0, 3), c.b1, c.b2, GaloisMult(c.b3, 2));
    ExchangeSums(GaloisMult(GaloisMult(c.b0, 2), 11), GaloisMult(GaloisMult(c.b1, 3), 11), GaloisMult(c.b2, 11), GaloisMult(c.b3, 11), GaloisMult(c.b0, 13), GaloisMult(GaloisMult(c.b1, 2), 13), GaloisMult(GaloisMult(c.b2, 3), 13), GaloisMult(c.b3, 13), GaloisMult(c.b0, 9), GaloisMult(c.b1, 9), GaloisMult(GaloisMult(c.b2, 2), 9), GaloisMult(GaloisMult(c.b3, 3), 9), GaloisMult(GaloisMult(c.b0, 3), 14), GaloisMult(c.b1, 14), GaloisMult(c.b2, 14), GaloisMult(GaloisMult(c.b3, 2), 14));
    InvMixMixUnit30(c.b0);
    InvMixMixUnit31(c.b1);
    InvMixMixUnit32(c.b2);
    InvMixMixUnit33(c.b3);
  }

  lemma MixInvMixUnit00Bits(a: bv8)
    ensures Sum4(Times2(Times14(a)), Times3(Times9(a)), Times13(a), Times11(a)) == a
  {
    var x1 := XTime(a); var x2 := XTime(x1); var x3 := XTime(x2);
    var x4 := XTime(x3); var x5 := XTime(x4); var x6 := XTime(x5);
    assert Times14(a) == x1 ^ x2 ^ x3;
    assert XTime(Times14(a)) == x2 ^ x3 ^ x4;
    assert Times9(a) == a ^ x3;
    assert XTime(Times9(a)) == x1 ^ x4;
  }

  lemma MixInvMixUnit00(a: bv8)
    ensures Sum4(GaloisMult(GaloisMult(a, 14), 2), GaloisMult(GaloisMult(a, 9), 3), GaloisMult(a, 13), GaloisMult(a, 11)) == a
  {
    MultBy9(a);
    MultBy11(a);
    MultBy13(a);
    MultBy14(a);
    MultBy2(GaloisMult(a, 14));
    MultBy3(GaloisMult(a, 9));
    MixInvMixUnit00Bits(a);
  }

  lemma MixInvMixUnit01Bits(a: bv8)
    ensures Sum4(Times2(Times11(a)), Times3(Times14(a)), Times9(a), Times13(a)) == 0
  {
    var x1 := XTime(a); var x2 := XTime(x1); var x3 := XTime(x2);
    var x4 := XTime(x3); var x5 := XTime(x4); var x6 := XTime(x5);
    assert Times11(a) == a ^ x1 ^ x3;
    assert XTime(Times11(a)) == x1 ^ x2 ^ x4;
    assert Times14(a) == x1 ^ x2 ^ x3;
    assert XTime(Times14(a)) == x2 ^ x3 ^ x4;
  }

  lemma MixInvMixUnit01(a: bv8)
    ensures Sum4(GaloisMult(GaloisMult(a, 11), 2), GaloisMult(GaloisMult(a, 14), 3), GaloisMult(a, 9), GaloisMult(a, 13)) == 0
  {
    MultBy9(a);
    MultBy11(a);
    MultBy13(a);
    MultBy14(a);
    MultBy2(GaloisMult(a, 11));
    MultBy3(GaloisMult(a, 14));
    MixInvMixUnit01Bits(a);
  }

  lemma MixInvMixUnit02Bits(a: bv8)
    ensures Sum4(Times2(Times13(a)), Times3(Times11(a)), Times14(a), Times9(a)) == 0
  {
    var x1 := XTime(a); var x2 := XTime(x1); var x3 := XTime(x2);
    var x4 := XTime(x3); var x5 := XTime(x4); var x6 := XTime(x5);
    assert Times13(a) == a ^ x2 ^ x3;
    assert XTime(Times13(a)) == x1 ^ x3 ^ x4;
    assert Times11(a) == a ^ x1 ^ x3;
    assert XTime(Times11(a)) == x1 ^ x2 ^ x4;
  }

  lemma MixInvMixUnit02(a: bv8)
    ensures Sum4(GaloisMult(GaloisMult(a, 13), 2), GaloisMult(GaloisMult(a, 11), 3), GaloisMult(a, 14), GaloisMult(a, 9)) == 0
  {
    MultBy9(a);
    MultBy11(a);
    MultBy13(a);
    MultBy14(a);
    MultBy2(GaloisMult(a, 13));
    MultBy3(GaloisMult(a, 11));
    MixInvMixUnit02Bits(a);
  }

  lemma MixInvMixUnit03Bits(a: bv8)
    ensures Sum4(Times2(Times9(a)), Times3(Times13(a)), Times11(a), Times14(a)) == 0
  {
    var x1 := XTime(a); var x2 := XTime(x1); var x3 := XTime(x2);
    var x4 := XTime(x3); var x5 := XTime(x4); var x6 := XTime(x5);
    assert Times9(a) == a ^ x3;
    assert XTime(Times9(a)) == x1 ^ x4;
    assert Times13(a) == a ^ x2 ^ x3;
    assert XTime(Times13(a)) == x1 ^ x3 ^ x4;
  }

  lemma MixInvMixUnit03(a: bv8)
    ensures Sum4(GaloisMult(GaloisMult(a, 9), 2), GaloisMult(GaloisMult(a, 13), 3), GaloisMult(a, 11), GaloisMult(a, 14)) == 0
  {
    MultBy9(a);
    MultBy11(a);
    MultBy13(a);
    MultBy14(a);
    MultBy2(GaloisMult(a, 9));
    MultBy3(GaloisMult(a, 13));
    MixInvMixUnit03Bits(a);
  }

  lemma MixInvMixUnit10Bits(a: bv8)
    ensures Sum4(Times14(a), Times2(Times9(a)), Times3(Times13(a)), Times11(a)) == 0
  {
    var x1 := XTime(a); var x2 := XTime(x1); var x3 := XTime(x2);
    var x4 := XTime(x3); var x5 := XTime(x4); var x6 := XTime(x5);
    assert Times9(a) == a ^ x3;
    assert XTime(Times9(a)) == x1 ^ x4;
    assert Times13(a) == a ^ x2 ^ x3;
    assert XTime(Times13(a)) == x1 ^ x3 ^ x4;
  }

  lemma MixInvMixUnit10(a: bv8)
    ensures Sum4(GaloisMult(a, 14), GaloisMult(GaloisMult(a, 9), 2), GaloisMult(GaloisMult(a, 13), 3), GaloisMult(a, 11)) == 0
  {
    MultBy9(a);
    MultBy11(a);
    MultBy13(a);
    MultBy14(a);
    MultBy2(GaloisMult(a, 9));
    MultBy3(GaloisMult(a, 13));
    MixInvMixUnit10Bits(a);
  }

  lemma MixInvMixUnit11Bits(a: bv8)
    ensures Sum4(Times11(a), Times2(Times14(a)), Times3(Times9(a)), Times13(a)) == a
  {
    var x1 := XTime(a); var x2 := XTime(x1); var x3 := XTime(x2);
    var x4 := XTime(x3); var x5 := XTime(x4); var x6 := XTime(x5);
    assert Times14(a) == x1 ^ x2 ^ x3;
    assert XTime(Times14(a)) == x2 ^ x3 ^ x4;
    assert Times9(a) == a ^ x3;
    assert XTime(Times9(a)) == x1 ^ x4;
  }

  lemma MixInvMixUnit11(a: bv8)
    ensures Sum4(GaloisMult(a, 11), GaloisMult(GaloisMult(a, 14), 2), GaloisMult(GaloisMult(a, 9), 3), GaloisMult(a, 13)) == a
  {
    MultBy9(a);
    MultBy11(a);
    MultBy13(a);
    MultBy14(a);
    MultBy2(GaloisMult(a, 14));
    MultBy3(GaloisMult(a, 9));
    MixInvMixUnit11Bits(a);
  }

  lemma MixInvMixUnit12Bits(a: bv8)
    ensures Sum4(Times13(a), Times2(Times11(a)), Times3(Times14(a)), Times9(a)) == 0
  {
    var x1 := XTime(a); var x2 := XTime(x1); var x3 := XTime(x2);
    var x4 := XTime(x3); var x5 := XTime(x4); var x6 := XTime(x5);
    assert Times11(a) == a ^ x1 ^ x3;
    assert XTime(Times11(a)) == x1 ^ x2 ^ x4;
    assert Times14(a) == x1 ^ x2 ^ x3;
    assert XTime(Times14(a)) == x2 ^ x3 ^ x4;
  }

  lemma MixInvMixUnit12(a: bv8)
    ensures Sum4(GaloisMult(a, 13), GaloisMult(GaloisMult(a, 11), 2), GaloisMult(GaloisMult(a, 14), 3), GaloisMult(a, 9)) == 0
  {
    MultBy9(a);
    MultBy11(a);
    MultBy13(a);
    MultBy14(a);
    MultBy2(GaloisMult(a, 11));
    MultBy3(GaloisMult(a, 14));
    MixInvMixUnit12Bits(a);
  }

  lemma MixInvMixUnit13Bits(a: bv8)
    ensures Sum4(Times9(a), Times2(Times13(a)), Times3(Times11(a)), Times14(a)) == 0
  {
    var x1 := XTime(a); var x2 := XTime(x1); var x3 := XTime(x2);
    var x4 := XTime(x3); var x5 := XTime(x4); var x6 := XTime(x5);
    assert Times13(a) == a ^ x2 ^ x3;
    assert XTime(Times13(a)) == x1 ^ x3 ^ x4;
    assert Times11(a) == a ^ x1 ^ x3;
    assert XTime(Times11(a)) == x1 ^ x2 ^ x4;
  }

  lemma MixInvMixUnit13(a: bv8)
    ensures Sum4(GaloisMult(a, 9), GaloisMult(GaloisMult(a, 13), 2), GaloisMult(GaloisMult(a, 11), 3), GaloisMult(a, 14)) == 0
  {
    MultBy9(a);
    MultBy11(a);
    MultBy13(a);
    MultBy14(a);
    MultBy2(GaloisMult(a, 13));
    MultBy3(GaloisMult(a, 11));
    MixInvMixUnit13Bits(a);
  }

  lemma MixInvMixUnit20Bits(a: bv8)
    ensures Sum4(Times14(a), Times9(a), Times2(Times13(a)), Times3(Times11(a))) == 0
  {
    var x1 := XTime(a); var x2 := XTime(x1); var x3 := XTime(x2);
    var x4 := XTime(x3); var x5 := XTime(x4); var x6 := XTime(x5);
    assert Times13(a) == a ^ x2 ^ x3;
    assert XTime(Times13(a)) == x1 ^ x3 ^ x4;
    assert Times11(a) == a ^ x1 ^ x3;
    assert XTime(Times11(a)) == x1 ^ x2 ^ x4;
  }

  lemma MixInvMixUnit20(a: bv8)
    ensures Sum4(GaloisMult(a, 14), GaloisMult(a, 9), GaloisMult(GaloisMult(a, 13), 2), GaloisMult(GaloisMult(a, 11), 3)) == 0
  {
    MultBy9(a);
    MultBy11(a);
    MultBy13(a);
    MultBy14(a);
    MultBy2(GaloisMult(a, 13));
    MultBy3(GaloisMult(a, 11));
    MixInvMixUnit20Bits(a);
  }

  lemma MixInvMixUnit21Bits(a: bv8)
    ensures Sum4(Times11(a), Times14(a), Times2(Times9(a)), Times3(Times13(a))) == 0
  {
    var x1 := XTime(a); var x2 := XTime(x1); var x3 := XTime(x2);
    var x4 := XTime(x3); var x5 := XTime(x4); var x6 := XTime(x5);
    assert Times9(a) == a ^ x3;
    assert XTime(Times9(a)) == x1 ^ x4;
    assert Times13(a) == a ^ x2 ^ x3;
    assert XTime(Times13(a)) == x1 ^ x3 ^ x4;
  }

  lemma MixInvMixUnit21(a: bv8)
    ensures Sum4(GaloisMult(a, 11), GaloisMult(a, 14), GaloisMult(GaloisMult(a, 9), 2), GaloisMult(GaloisMult(a, 13), 3)) == 0
  {
    MultBy9(a);
    MultBy11(a);
    MultBy13(a);
    MultBy14(a);
    MultBy2(GaloisMult(a, 9));
    MultBy3(GaloisMult(a, 13));
    MixInvMixUnit21Bits(a);
  }

  lemma MixInvMixUnit22Bits(a: bv8)
    ensures Sum4(Times13(a), Times11(a), Times2(Times14(a)), Times3(Times9(a))) == a
  {
    var x1 := XTime(a); var x2 := XTime(x1); var x3 := XTime(x2);
    var x4 := XTime(x3); var x5 := XTime(x4); var x6 := XTime(x5);
    assert Times14(a) == x1 ^ x2 ^ x3;
    assert XTime(Times14(a)) == x2 ^ x3 ^ x4;
    assert Times9(a) == a ^ x3;
    assert XTime(Times9(a)) == x1 ^ x4;
  }

  lemma MixInvMixUnit22(a: bv8)
    ensures Sum4(GaloisMult(a, 13), GaloisMult(a, 11), GaloisMult(GaloisMult(a, 14), 2), GaloisMult(GaloisMult(a, 9), 3)) == a
  {
    MultBy9(a);
    MultBy11(a);
    MultBy13(a);
    MultBy14(a);
    MultBy2(GaloisMult(a, 14));
    MultBy3(GaloisMult(a, 9));
    MixInvMixUnit22Bits(a);
  }

  lemma MixInvMixUnit23Bits(a: bv8)
    ensures Sum4(Times9(a), Times13(a), Times2(Times11(a)), Times3(Times14(a))) == 0
  {
    var x1 := XTime(a); var x2 := XTime(x1); var x3 := XTime(x2);
    var x4 := XTime(x3); var x5 := XTime(x4); var x6 := XTime(x5);
    assert Times11(a) == a ^ x1 ^ x3;
    assert XTime(Times11(a)) == x1 ^ x2 ^ x4;
    assert Times14(a) == x1 ^ x2 ^ x3;
    assert XTime(Times14(a)) == x2 ^ x3 ^ x4;
  }

  lemma MixInvMixUnit23(a: bv8)
    ensures Sum4(GaloisMult(a, 9), GaloisMult(a, 13), GaloisMult(GaloisMult(a, 11), 2), GaloisMult(GaloisMult(a, 14), 3)) == 0
  {
    MultBy9(a);
    MultBy11(a);
    MultBy13(a);
    MultBy14(a);
    MultBy2(GaloisMult(a, 11));
    MultBy3(GaloisMult(a, 14));
    MixInvMixUnit23Bits(a);
  }

  lemma MixInvMixUnit30Bits(a: bv8)
    ensures Sum4(Times3(Times14(a)), Times9(a), Times13(a), Times2(Times11(a))) == 0
  {
    var x1 := XTime(a); var x2 := XTime(x1); var x3 := XTime(x2);
    var x4 := XTime(x3); var x5 := XTime(x4); var x6 := XTime(x5);
    assert Times14(a) == x1 ^ x2 ^ x3;
    assert XTime(Times14(a)) == x2 ^ x3 ^ x4;
    assert Times11(a) == a ^ x1 ^ x3;
    assert XTime(Times11(a)) == x1 ^ x2 ^ x4;
  }

  lemma MixInvMixUnit30(a: bv8)
    ensures Sum4(GaloisMult(GaloisMult(a, 14), 3), GaloisMult(a, 9), GaloisMult(a, 13), GaloisMult(GaloisMult(a, 11), 2)) == 0
  {
    MultBy9(a);
    MultBy11(a);
    MultBy13(a);
    MultBy14(a);
    MultBy3(GaloisMult(a, 14));
    MultBy2(GaloisMult(a, 11));
    MixInvMixUnit30Bits(a);
  }

  lemma MixInvMixUnit31Bits(a: bv8)
    ensures Sum4(Times3(Times11(a)), Times14(a), Times9(a), Times2(Times13(a))) == 0
  {
    var x1 := XTime(a); var x2 := XTime(x1); var x3 := XTime(x2);
    var x4 := XTime(x3); var x5 := XTime(x4); var x6 := XTime(x5);
    assert Times11(a) == a ^ x1 ^ x3;
    assert XTime(Times11(a)) == x1 ^ x2 ^ x4;
    assert Times13(a) == a ^ x2 ^ x3;
    assert XTime(Times13(a)) == x1 ^ x3 ^ x4;
  }

  lemma MixInvMixUnit31(a: bv8)
    ensures Sum4(GaloisMult(GaloisMult(a, 11), 3), GaloisMult(a, 14), GaloisMult(a, 9), GaloisMult(GaloisMult(a, 13), 2)) == 0
  {
    MultBy9(a);
    MultBy11(a);
    MultBy13(a);
    MultBy14(a);
    MultBy3(GaloisMult(a, 11));
    MultBy2(GaloisMult(a, 13));
    MixInvMixUnit31Bits(a);
  }

  lemma MixInvMixUnit32Bits(a: bv8)
    ensures Sum4(Times3(Times13(a)), Times11(a), Times14(a), Times2(Times9(a))) == 0
  {
    var x1 := XTime(a); var x2 := XTime(x1); var x3 := XTime(x2);
    var x4 := XTime(x3); var x5 := XTime(x4); var x6 := XTime(x5);
    assert Times13(a) == a ^ x2 ^ x3;
    assert XTime(Times13(a)) == x1 ^ x3 ^ x4;
    assert Times9(a) == a ^ x3;
    assert XTime(Times9(a)) == x1 ^ x4;
  }

  lemma MixInvMixUnit32(a: bv8)
    ensures Sum4(GaloisMult(GaloisMult(a, 13), 3), GaloisMult(a, 11), GaloisMult(a, 14), GaloisMult(GaloisMult(a, 9), 2)) == 0
  {
    MultBy9(a);
    MultBy11(a);
    MultBy13(a);
    MultBy14(a);
    MultBy3(GaloisMult(a, 13));
    MultBy2(GaloisMult(a, 9));
    MixInvMixUnit32Bits(a);
  }

  lemma MixInvMixUnit33Bits(a: bv8)
    ensures Sum4(Times3(Times9(a)), Times13(a), Times11(a), Times2(Times14(a))) == a
  {
    var x1 := XTime(a); var x2 := XTime(x1); var x3 := XTime(x2);
    var x4 := XTime(x3); var x5 := XTime(x4); var x6 := XTime(x5);
    assert Times9(a) == a ^ x3;
    assert XTime(Times9(a)) == x1 ^ x4;
    assert Times14(a) == x1 ^ x2 ^ x3;
    assert XTime(Times14(a)) == x2 ^ x3 ^ x4;
  }

  lemma MixInvMixUnit33(a: bv8)
    ensures Sum4(GaloisMult(GaloisMult(a, 9), 3), GaloisMult(a, 13), GaloisMult(a, 11), GaloisMult(GaloisMult(a, 14), 2)) == a
  {
    MultBy9(a);
    MultBy11(a);
    MultBy13(a);
    MultBy14(a);
    MultBy3(GaloisMult(a, 9));
    MultBy2(GaloisMult(a, 14));
    MixInvMixUnit33Bits(a);
  }

  /** Entry 0 of the composed transform returns entry 0 of the column. */
  lemma MixInvMixEntry0(c: Word)
    ensures MixSingleColumn(InvMixSingleColumn(c)).b0 == c.b0
  {
    MultBy2OfSum4(InvMixSingleColumn(c).b0, GaloisMult(c.b0, 14), GaloisMult(c.b1, 11), GaloisMult(c.b2, 13), GaloisMult(c.b3, 9));
    MultBy3OfSum4(InvMixSingleColumn(c).b1, GaloisMult(c.b0, 9), GaloisMult(c.b1, 14), GaloisMult(c.b2, 11), GaloisMult(c.b3, 13));
    ExchangeSums(GaloisMult(GaloisMult(c.b0, 14), 2), GaloisMult(GaloisMult(c.b1, 11), 2), GaloisMult(GaloisMult(c.b2, 13), 2), GaloisMult(GaloisMult(c.b3, 9), 2), GaloisMult(GaloisMult(c.b0, 9), 3), GaloisMult(GaloisMult(c.b1, 14), 3), GaloisMult(GaloisMult(c.b2, 11), 3), GaloisMult(GaloisMult(c.b3, 13), 3), GaloisMult(c.b0, 13), GaloisMult(c.b1, 9), GaloisMult(c.b2, 14), GaloisMult(c.b3, 11), GaloisMult(c.b0, 11), GaloisMult(c.b1, 13), GaloisMult(c.b2, 9), GaloisMult(c.b3, 14));
    MixInvMixUnit00(c.b0);
    MixInvMixUnit01(c.b1);
    MixInvMixUnit02(c.b2);
    MixInvMixUnit03(c.b3);
  }

  /** Entry 1 of the composed transform returns entry 1 of the column. */
  lemma MixInvMixEntry1(c: Word)
    ensures MixSingleColumn(InvMixSingleColumn(c)).b1 == c.b1
  {
    MultBy2OfSum4(InvMixSingleColumn(c).b1, GaloisMult(c.b0, 9), GaloisMult(c.b1, 14), GaloisMult(c.b2, 11), GaloisMult(c.b3, 13));
    MultBy3OfSum4(InvMixSingleColumn(c).b2, GaloisMult(c.b0, 13), GaloisMult(c.b1, 9), GaloisMult(c.b2, 14), GaloisMult(c.b3, 11));
    ExchangeSums(GaloisMult(c.b0, 14), GaloisMult(c.b1, 11), GaloisMult(c.b2, 13), GaloisMult(c.b3, 9), GaloisMult(GaloisMult(c.b0, 9), 2), GaloisMult(GaloisMult(c.b1, 14), 2), GaloisMult(GaloisMult(c.b2, 11), 2), GaloisMult(GaloisMult(c.b3, 13), 2), GaloisMult(GaloisMult(c.b0, 13), 3), GaloisMult(GaloisMult(c.b1, 9), 3), GaloisMult(GaloisMult(c.b2, 14), 3), GaloisMult(GaloisMult(c.b3, 11), 3), GaloisMult(c.b0, 11), GaloisMult(c.b1, 13), GaloisMult(c.b2, 9), GaloisMult(c.b3, 14));
    MixInvMixUnit10(c.b0);
    MixInvMixUnit11(c.b1);
    MixInvMixUnit12(c.b2);
    MixInvMixUnit13(c.b3);
  }

  /** Entry 2 of the composed transform returns entry 2 of the column. */
  lemma MixInvMixEntry2(c: Word)
    ensures MixSingleColumn(InvMixSingleColumn(c)).b2 == c.b2
  {
    MultBy2OfSum4(InvMixSingleColumn(c).b2, GaloisMult(c.b0, 13), GaloisMult(c.b1, 9), GaloisMult(c.b2, 14), GaloisMult(c.b3, 11));
    MultBy3OfSum4(InvMixSingleColumn(c).b3, GaloisMult(c.b0, 11), GaloisMult(c.b1, 13), GaloisMult(c.b2, 9), GaloisMult(c.b3, 14));
    ExchangeSums(GaloisMult(c.b0, 14), GaloisMult(c.b1, 11), GaloisMult(c.b2, 13), GaloisMult(c.b3, 9), GaloisMult(c.b0, 9), GaloisMult(c.b1, 14), GaloisMult(c.b2, 11), GaloisMult(c.b3, 13), GaloisMult(GaloisMult(c.b0, 13), 2), GaloisMult(GaloisMult(c.b1, 9), 2), GaloisMult(GaloisMult(c.b2, 14), 2), GaloisMult(GaloisMult(c.b3, 11), 2), GaloisMult(GaloisMult(c.b0, 11), 3), GaloisMult(GaloisMult(c.b1, 13), 3), GaloisMult(GaloisMult(c.b2, 9), 3), GaloisMult(GaloisMult(c.b3, 14), 3));
    MixInvMixUnit20(c.b0);
    MixInvMixUnit21(c.b1);
    MixInvMixUnit22(c.b2);
    MixInvMixUnit23(c.b3);
  }

  /** Entry 3 of the composed transform returns entry 3 of the column. */
  lemma MixInvMixEntry3(c: Word)
    ensures MixSingleColumn(InvMixSingleColumn(c)).b3 == c.b3
  {
    MultBy3OfSum4(InvMixSingleColumn(c).b0, GaloisMult(c.b0, 14), GaloisMult(c.b1, 11), GaloisMult(c.b2, 13), GaloisMult(c.b3, 9));
    MultBy2OfSum4(InvMixSingleColumn(c).b3, GaloisMult(c.b0, 11), GaloisMult(c.b1, 13), GaloisMult(c.b2, 9), GaloisMult(c.b3, 14));
    ExchangeSums(GaloisMult(GaloisMult(c.b0, 14), 3), GaloisMult(GaloisMult(c.b1, 11), 3), GaloisMult(GaloisMult(c.b2, 13), 3), GaloisMult(GaloisMult(c.b3, 9), 3), GaloisMult(c.b0, 9), GaloisMult(c.b1, 14), GaloisMult(c.b2, 11), GaloisMult(c.b3, 13), GaloisMult(c.b0, 13), GaloisMult(c.b1, 9), GaloisMult(c.b2, 14), GaloisMult(c.b3, 11), GaloisMult(GaloisMult(c.b0, 11), 2), GaloisMult(GaloisMult(c.b1, 13), 2), GaloisMult(GaloisMult(c.b2, 9), 2), GaloisMult(GaloisMult(c.b3, 14), 2));
    MixInvMixUnit30(c.b0);
    MixInvMixUnit31(c.b1);
    MixInvMixUnit32(c.b2);
    MixInvMixUnit33(c.b3);
  }

  /** InvMixColumns undoes MixColumns on every column. */
  lemma InvMixUndoesMix(c: Word)
    ensures InvMixSingleColumn(MixSingleColumn(c)) == c
  {
    InvMixMixEntry0(c);
    InvMixMixEntry1(c);
    InvMixMixEntry2(c);
    InvMixMixEntry3(c);
  }

  /** MixColumns undoes InvMixColumns on every column. */
  lemma MixUndoesInvMix(c: Word)
    ensures MixSingleColumn(InvMixSingleColumn(c)) == c
  {
    MixInvMixEntry0(c);
    MixInvMixEntry1(c);
    MixInvMixEntry2(c);
    MixInvMixEntry3(c);
  }
}
