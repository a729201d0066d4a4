/**
 * PBKDF2 with HMAC as the pseudorandom function, as crypto/pbkdf2.py writes it (RFC 8018
 * section 5.2).
 *
 * The hash that hash_name selects is a parameter: a Prf carries its digest size and the HMAC it
 * computes, and None stands for a name the hash library does not know. The arguments are
 * dynamically typed in the code, so each is an Arg that records which Python type it has.
 */
module Pbkdf2 {
  import opened Wrappers
  import opened ByteWords

  /** The HMAC construction over one hash: its digest size and the keyed MAC it computes. */
  datatype Prf = Prf(digestSize: nat, mac: (seq<bv8>, seq<bv8>) -> seq<bv8>)

  /** A Python argument, as far as the type checks of the code can tell it apart. */
  datatype Arg = Bytes(bytes: seq<bv8>) | Int(n: int) | NoneValue | Other

  /** Every MAC the Prf computes is one digest long, as HMAC's are. */
  ghost predicate DigestLengths(h: Prf)
  {
    forall key, msg :: |h.mac(key, msg)| == h.digestSize
  }

  /** The block index as 4 big-endian bytes, i.to_bytes(4, 'big'). */
  function Int4(i: nat): seq<bv8>
    requires i < 0x1_0000_0000
  {
    WordToBytes(i as bv32)
  }

  /** Byte-wise XOR of two strings, pairing them as zip does: the longer one is cut short. */
  function XorBytes(a: seq<bv8>, b: seq<bv8>): (r: seq<bv8>)
    ensures |r| == if |a| <= |b| then |a| else |b|
    ensures forall j :: 0 <= j < |r| ==> r[j] == a[j] ^ b[j]
  {
    if |a| <= |b| then seq(|a|, j requires 0 <= j < |a| => a[j] ^ b[j])
    else seq(|b|, j requires 0 <= j < |b| => a[j] ^ b[j])
  }

  /** XOR with the same string twice gives back the first string, when the lengths agree. */
  lemma XorBytesTwice(a: seq<bv8>, b: seq<bv8>)
    requires |a| == |b|
    ensures XorBytes(XorBytes(a, b), b) == a
  {
    var r := XorBytes(XorBytes(a, b), b);
    forall j | 0 <= j < |a|
      ensures r[j] == a[j]
    {
      assert r[j] == (a[j] ^ b[j]) ^ b[j];
    }
  }

  /** U_k of block i: the first MAC keys salt || INT(i), each later one MACs the one before. */
  function U(h: Prf, p: seq<bv8>, s: seq<bv8>, i: nat, k: nat): seq<bv8>
    requires 1 <= k && i < 0x1_0000_0000
  {
    if k == 1 then h.mac(p, s + Int4(i)) else h.mac(p, U(h, p, s, i, k - 1))
  }

  /** F(P, S, c, i) = U_1 xor U_2 xor ... xor U_c. */
  function FBlock(h: Prf, p: seq<bv8>, s: seq<bv8>, c: nat, i: nat): seq<bv8>
    requires 1 <= c && i < 0x1_0000_0000
  {
    if c == 1 then U(h, p, s, i, 1) else XorBytes(FBlock(h, p, s, c - 1, i), U(h, p, s, i, c))
  }

  lemma {:induction false} FBlockLength(h: Prf, p: seq<bv8>, s: seq<bv8>, c: nat, i: nat)
    requires DigestLengths(h) && 1 <= c && i < 0x1_0000_0000
    ensures |FBlock(h, p, s, c, i)| == h.digestSize
  {
    if c > 1 {
      FBlockLength(h, p, s, c - 1, i);
    }
  }

  /** Each byte of F(P, S, c, i) is the XOR of that byte of U_1, ..., U_c. */
  function XorOfChain(h: Prf, p: seq<bv8>, s: seq<bv8>, i: nat, k: nat, j: nat): bv8
    requires 1 <= k && i < 0x1_0000_0000
    requires forall m :: 1 <= m <= k ==> j < |U(h, p, s, i, m)|
  {
    if k == 1 then U(h, p, s, i, 1)[j] else XorOfChain(h, p, s, i, k - 1, j) ^ U(h, p, s, i, k)[j]
  }

  lemma {:induction false} FBlockBytes(h: Prf, p: seq<bv8>, s: seq<bv8>, c: nat, i: nat, j: nat)
    requires DigestLengths(h) && 1 <= c && i < 0x1_0000_0000 && j < h.digestSize
    ensures forall m :: 1 <= m <= c ==> j < |U(h, p, s, i, m)|
    ensures |FBlock(h, p, s, c, i)| == h.digestSize
    ensures FBlock(h, p, s, c, i)[j] == XorOfChain(h, p, s, i, c, j)
  {
    FBlockLength(h, p, s, c, i);
    if c > 1 {
      FBlockBytes(h, p, s, c - 1, i, j);
      FBlockLength(h, p, s, c - 1, i);
    }
  }

  /** The inner function F of the code: one block of derived key, by c - 1 further MACs. */
  method F(h: Prf, p: seq<bv8>, s: seq<bv8>, c: nat, i: nat) returns (block: seq<bv8>)
    requires 1 <= c && i < 0x1_0000_0000
    ensures block == FBlock(h, p, s, c, i)
  {
    var u := h.mac(p, s + Int4(i));
    block := u;
    var k := 1;
    while k < c
      invariant 1 <= k <= c
      invariant u == U(h, p, s, i, k)
      invariant block == FBlock(h, p, s, k, i)
    {
      u := h.mac(p, u);
      block := XorBytes(block, u);
      k := k + 1;
    }
  }

  /** F(1) || F(2) || ... || F(n). */
  function Blocks(h: Prf, p: seq<bv8>, s: seq<bv8>, c: nat, n: nat): seq<bv8>
    requires 1 <= c && n < 0x1_0000_0000
  {
    if n == 0 then [] else Blocks(h, p, s, c, n - 1) + FBlock(h, p, s, c, n)
  }

  lemma {:induction false} BlocksLength(h: Prf, p: seq<bv8>, s: seq<bv8>, c: nat, n: nat)
    requires DigestLengths(h) && 1 <= c && n < 0x1_0000_0000
    ensures |Blocks(h, p, s, c, n)| == n * h.digestSize
  {
    if n > 0 {
      BlocksLength(h, p, s, c, n - 1);
      FBlockLength(h, p, s, c, n);
      assert n * h.digestSize == (n - 1) * h.digestSize + h.digestSize;
    }
  }

  /** Fewer blocks are a prefix of more blocks. */
  lemma {:induction false} BlocksPrefix(h: Prf, p: seq<bv8>, s: seq<bv8>, c: nat, m: nat, n: nat)
    requires 1 <= c && m <= n < 0x1_0000_0000
    ensures |Blocks(h, p, s, c, m)| <= |Blocks(h, p, s, c, n)|
    ensures Blocks(h, p, s, c, n)[..|Blocks(h, p, s, c, m)|] == Blocks(h, p, s, c, m)
  {
    if m < n {
      BlocksPrefix(h, p, s, c, m, n - 1);
    }
  }

  /** Block i of the concatenation, for 1 <= i <= n, is F(P, S, c, i). */
  lemma BlocksBlock(h: Prf, p: seq<bv8>, s: seq<bv8>, c: nat, n: nat, i: nat)
    requires DigestLengths(h) && 1 <= c && 1 <= i <= n < 0x1_0000_0000
    ensures |Blocks(h, p, s, c, n)| == n * h.digestSize
    ensures 0 <= (i - 1) * h.digestSize <= i * h.digestSize <= n * h.digestSize
    ensures Blocks(h, p, s, c, n)[(i - 1) * h.digestSize..i * h.digestSize] == FBlock(h, p, s, c, i)
  {
    BlocksLength(h, p, s, c, n);
    BlocksLength(h, p, s, c, i);
    BlocksLength(h, p, s, c, i - 1);
    BlocksPrefix(h, p, s, c, i, n);
    MulMonotone(i, n, h.digestSize);
    MulMonotone(i - 1, i, h.digestSize);
    var all := Blocks(h, p, s, c, n);
    var first := Blocks(h, p, s, c, i);
    assert first == Blocks(h, p, s, c, i - 1) + FBlock(h, p, s, c, i);
    assert all[..i * h.digestSize] == first;
    assert all[(i - 1) * h.digestSize..i * h.digestSize] == first[(i - 1) * h.digestSize..];
  }

  /** derived_key[:dklen], which keeps the whole string when it is shorter than dklen. */
  function Prefix(b: seq<bv8>, n: nat): (r: seq<bv8>)
    ensures |r| == if n <= |b| then n else |b|
    ensures r <= b
  {
    if n <= |b| then b[..n] else b
  }

  /** The number of blocks, -(-dklen // hlen): dklen / hlen rounded up. */
  function BlockCount(dklen: nat, hlen: nat): (l: nat)
    requires 0 < hlen
    ensures (l - 1) * hlen < dklen <= l * hlen
  {
    var d: int := dklen;
    var q := -d / hlen;
    assert q * hlen <= -d < q * hlen + hlen;
    assert q <= 0 by {
      if q > 0 {
        MulMonotone(1, q, hlen);
      }
    }
    assert (-q) * hlen == -(q * hlen);
    assert (-q - 1) * hlen == -(q * hlen) - hlen;
    -q
  }

  /** With dklen at most (2^32 - 1) * hlen there are fewer than 2^32 blocks. */
  lemma BlockCountBound(dklen: nat, hlen: nat)
    requires 0 < hlen && dklen <= 0xFFFF_FFFF * hlen
    ensures BlockCount(dklen, hlen) <= 0xFFFF_FFFF
  {
    var l := BlockCount(dklen, hlen);
    if l > 0xFFFF_FFFF {
      assert (l - 1) * hlen >= 0xFFFF_FFFF * hlen by {
        MulMonotone(0xFFFF_FFFF, l - 1, hlen);
      }
      assert false;
    }
  }

  lemma MulMonotone(a: nat, b: nat, m: nat)
    requires a <= b
    ensures a * m <= b * m
  {
  }

  /** The derived key: the first dklen bytes of F(1) || ... || F(l). */
  function DerivedKey(h: Prf, p: seq<bv8>, s: seq<bv8>, c: nat, dklen: nat): seq<bv8>
    requires 1 <= c && 0 < h.digestSize && dklen <= 0xFFFF_FFFF * h.digestSize
  {
    BlockCountBound(dklen, h.digestSize);
    Prefix(Blocks(h, p, s, c, BlockCount(dklen, h.digestSize)), dklen)
  }

  /** The derived key is exactly dklen bytes long. */
  lemma DerivedKeyLength(h: Prf, p: seq<bv8>, s: seq<bv8>, c: nat, dklen: nat)
    requires DigestLengths(h) && 1 <= c && 0 < h.digestSize && dklen <= 0xFFFF_FFFF * h.digestSize
    ensures |DerivedKey(h, p, s, c, dklen)| == dklen
  {
    BlockCountBound(dklen, h.digestSize);
    BlocksLength(h, p, s, c, BlockCount(dklen, h.digestSize));
  }

  /** A shorter derived key is a prefix of a longer one from the same inputs. */
  lemma DerivedKeyPrefix(h: Prf, p: seq<bv8>, s: seq<bv8>, c: nat, short: nat, long: nat)
    requires DigestLengths(h) && 1 <= c && 0 < h.digestSize
    requires short <= long <= 0xFFFF_FFFF * h.digestSize
    ensures |DerivedKey(h, p, s, c, long)| == long
    ensures DerivedKey(h, p, s, c, short) == DerivedKey(h, p, s, c, long)[..short]
  {
    var hlen := h.digestSize;
    BlockCountBound(short, hlen);
    BlockCountBound(long, hlen);
    var m := BlockCount(short, hlen);
    var n := BlockCount(long, hlen);
    if m > n {
      MulMonotone(n, m - 1, hlen);
      assert false;
    }
    BlocksLength(h, p, s, c, m);
    BlocksLength(h, p, s, c, n);
    BlocksPrefix(h, p, s, c, m, n);
    DerivedKeyLength(h, p, s, c, short);
    DerivedKeyLength(h, p, s, c, long);
  }

  /** The key length asked for: dklen, or the digest size when dklen is None. */
  function RequestedLength(h: Prf, dklen: Arg): int
  {
    if dklen.NoneValue? then h.digestSize else if dklen.Int? then dklen.n else 0
  }

  /** The argument checks the code makes before it looks the hash up. */
  predicate ArgumentsValid(password: Arg, salt: Arg, iterations: Arg, dklen: Arg)
  {
    password.Bytes? && salt.Bytes? && iterations.Int? && iterations.n > 0
    && (dklen.NoneValue? || (dklen.Int? && dklen.n > 0))
  }

  /** pbkdf2_hmac(hash_name, password, salt, iterations, dklen). */
  method Pbkdf2Hmac(hash: Option<Prf>, password: Arg, salt: Arg, iterations: Arg, dklen: Arg)
    returns (r: Result<seq<bv8>>)
    ensures !password.Bytes? ==> r == Err(TypeError)
    ensures password.Bytes? && !salt.Bytes? ==> r == Err(TypeError)
    ensures (password.Bytes? && salt.Bytes? && !(iterations.Int? && iterations.n > 0)) ==> r == Err(ValueError)
    ensures (password.Bytes? && salt.Bytes? && iterations.Int? && iterations.n > 0
             && !(dklen.NoneValue? || (dklen.Int? && dklen.n > 0))) ==> r == Err(ValueError)
    ensures ArgumentsValid(password, salt, iterations, dklen) && hash.None? ==> r == Err(ValueError)
    ensures (ArgumentsValid(password, salt, iterations, dklen) && hash.Some?
             && RequestedLength(hash.value, dklen) > 0xFFFF_FFFF * hash.value.digestSize) ==> r == Err(OverflowError)
    ensures (ArgumentsValid(password, salt, iterations, dklen) && hash.Some? && hash.value.digestSize == 0
             && dklen.NoneValue?) ==> r == Err(ZeroDivisionError)
    ensures r.Ok? <==> (ArgumentsValid(password, salt, iterations, dklen) && hash.Some? && 0 < hash.value.digestSize
                        && RequestedLength(hash.value, dklen) <= 0xFFFF_FFFF * hash.value.digestSize)
    ensures r.Ok? ==> r.value == DerivedKey(hash.value, password.bytes, salt.bytes, iterations.n,
                                            RequestedLength(hash.value, dklen))
  {
    if !password.Bytes? || !salt.Bytes? {
      return Err(TypeError);
    }
    if !iterations.Int? || iterations.n <= 0 {
      return Err(ValueError);
    }
    if !dklen.NoneValue? && (!dklen.Int? || dklen.n <= 0) {
      return Err(ValueError);
    }
    if hash.None? {
      return Err(ValueError);
    }
    var h := hash.value;
    var hlen := h.digestSize;
    var dk: int := if dklen.NoneValue? then hlen else dklen.n;
    if dk > 0xFFFF_FFFF * hlen {
      return Err(OverflowError);
    }
    if hlen == 0 {
      return Err(ZeroDivisionError);
    }
    var l := -((-dk) / hlen);
    assert l == BlockCount(dk, hlen);
    BlockCountBound(dk, hlen);
    var derived: seq<bv8> := [];
    var i := 0;
    while i < l
      invariant 0 <= i <= l
      invariant derived == Blocks(h, password.bytes, salt.bytes, iterations.n, i)
    {
      var block := F(h, password.bytes, salt.bytes, iterations.n, i + 1);
      derived := derived + block;
      i := i + 1;
    }
    return Ok(Prefix(derived, dk));
  }
}
