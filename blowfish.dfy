/**
 * The Blowfish-style Feistel network of crypto/blowfish.py: sixteen rounds keyed by an 18-entry
 * P array, the key expansion that fills P and the four 256-entry S boxes in place, and the
 * byte-level encrypt and decrypt that work on 8-byte chunks.
 *
 * The code's encrypt_block calls self.F, which the class never defines (its F is a local of
 * key_expansion), so the round function is a parameter of the object: any map from 32-bit words
 * to 32-bit words. Every half-block update in the code is masked with 0xFFFFFFFF, so the halves
 * and P entries are bv32 here.
 */
module Blowfish {
  import opened Wrappers
  import opened ByteWords

  /** Number of rounds. */
  const N: nat := 16

  /** 32-bit XOR, kept behind a name so that the verifier compares XOR terms as terms. */
  function Xor(a: bv32, b: bv32): bv32
  {
    a ^ b
  }

  lemma XorTwice(a: bv32, b: bv32)
    ensures Xor(Xor(a, b), b) == a
  {
    assert (a ^ b) ^ b == a;
  }

  lemma XorCancelsAcross(a: bv32, b: bv32, c: bv32)
    ensures Xor(Xor(Xor(a, b), c), b) == Xor(a, c)
  {
    assert ((a ^ b) ^ c) ^ b == a ^ c;
  }

  /** The two 32-bit halves of a block. */
  datatype Block = Block(l: bv32, r: bv32)

  /** The state after the first i rounds of encrypt_block, round k keyed with ps[k]. */
  function EncryptRounds(ps: seq<bv32>, f: bv32 -> bv32, b: Block, i: nat): Block
    requires |ps| == N + 2 && i <= N
  {
    if i == 0 then b
    else
      var c := EncryptRounds(ps, f, b, i - 1);
      var l := Xor(c.l, ps[i - 1]);
      Block(Xor(c.r, f(l)), l)
  }

  /**
   * encrypt_block: the sixteen rounds, the undoing of the last swap, and P[16], P[17] whitening.
   * The round count is written |ps| - 2 rather than N so that the verifier does not unroll all
   * sixteen rounds wherever a block is enciphered.
   */
  function Encipher(ps: seq<bv32>, f: bv32 -> bv32, b: Block): Block
    requires |ps| == N + 2
  {
    var c := EncryptRounds(ps, f, b, |ps| - 2);
    Block(Xor(c.r, ps[|ps| - 1]), Xor(c.l, ps[|ps| - 2]))
  }

  /** The state after the first j rounds of decrypt_block, round k keyed with ps[17 - k]. */
  function DecryptRounds(ps: seq<bv32>, f: bv32 -> bv32, b: Block, j: nat): Block
    requires |ps| == N + 2 && j <= N
  {
    if j == 0 then b
    else
      var c := DecryptRounds(ps, f, b, j - 1);
      var l := Xor(c.l, ps[|ps| - j]);
      Block(Xor(c.r, f(l)), l)
  }

  /** decrypt_block: rounds keyed P[17] down to P[2], then P[1] and P[0] whitening. */
  function Decipher(ps: seq<bv32>, f: bv32 -> bv32, b: Block): Block
    requires |ps| == N + 2
  {
    var c := DecryptRounds(ps, f, b, |ps| - 2);
    Block(Xor(c.r, ps[0]), Xor(c.l, ps[1]))
  }

  function Reverse(ps: seq<bv32>): (r: seq<bv32>)
    ensures |r| == |ps|
    ensures forall k :: 0 <= k < |ps| ==> r[k] == ps[|ps| - 1 - k]
  {
    seq(|ps|, k requires 0 <= k < |ps| => ps[|ps| - 1 - k])
  }

  lemma {:induction false} DecryptRoundsAreReversed(ps: seq<bv32>, f: bv32 -> bv32, b: Block, j: nat)
    requires |ps| == N + 2 && j <= N
    ensures DecryptRounds(ps, f, b, j) == EncryptRounds(Reverse(ps), f, b, j)
  {
    if j > 0 {
      DecryptRoundsAreReversed(ps, f, b, j - 1);
    }
  }

  /** decrypt_block is encrypt_block with the P array reversed. */
  lemma DecipherIsEncipherReversed(ps: seq<bv32>, f: bv32 -> bv32, b: Block)
    requires |ps| == N + 2
    ensures Decipher(ps, f, b) == Encipher(Reverse(ps), f, b)
  {
    DecryptRoundsAreReversed(ps, f, b, |ps| - 2);
  }

  /**
   * After j rounds of decryption of Encipher(b), the state is the encryption state after N - j
   * rounds, swapped and whitened with the P entries next to it.
   */
  lemma {:induction false} DecryptRoundsRetrace(ps: seq<bv32>, f: bv32 -> bv32, b: Block, j: nat)
    requires |ps| == N + 2 && j <= N
    ensures var c := EncryptRounds(ps, f, b, |ps| - 2 - j);
            DecryptRounds(ps, f, Encipher(ps, f, b), j) == Block(Xor(c.r, ps[|ps| - 1 - j]), Xor(c.l, ps[|ps| - 2 - j]))
  {
    if j > 0 {
      DecryptRoundsRetrace(ps, f, b, j - 1);
      var i := |ps| - 2 - j;
      var c := EncryptRounds(ps, f, b, i);
      var k0, k1, k2 := ps[i], ps[i + 1], ps[i + 2];
      var l := Xor(c.l, k0);
      EncryptStep(ps, f, b, i);
      var d := DecryptRounds(ps, f, Encipher(ps, f, b), j - 1);
      assert d == Block(Xor(l, k2), Xor(Xor(c.r, f(l)), k1));
      DecryptStep(ps, f, Encipher(ps, f, b), j);
      XorTwice(l, k2);
      XorCancelsAcross(c.r, f(l), k1);
    }
  }

  /** One more round of encrypt_block. */
  lemma EncryptStep(ps: seq<bv32>, f: bv32 -> bv32, b: Block, i: nat)
    requires |ps| == N + 2 && i < N
    ensures var c := EncryptRounds(ps, f, b, i);
            EncryptRounds(ps, f, b, i + 1) == Block(Xor(c.r, f(Xor(c.l, ps[i]))), Xor(c.l, ps[i]))
  {
  }

  /** One more round of decrypt_block. */
  lemma DecryptStep(ps: seq<bv32>, f: bv32 -> bv32, b: Block, j: nat)
    requires |ps| == N + 2 && 0 < j <= N
    ensures var c := DecryptRounds(ps, f, b, j - 1);
            DecryptRounds(ps, f, b, j) == Block(Xor(c.r, f(Xor(c.l, ps[|ps| - j]))), Xor(c.l, ps[|ps| - j]))
  {
  }

  /** decrypt_block undoes encrypt_block, for every P array and every round function. */
  lemma DecipherUndoesEncipher(ps: seq<bv32>, f: bv32 -> bv32, b: Block)
    requires |ps| == N + 2
    ensures Decipher(ps, f, Encipher(ps, f, b)) == b
  {
    DecryptRoundsRetrace(ps, f, b, |ps| - 2);
  }

  /** encrypt_block undoes decrypt_block as well. */
  lemma EncipherUndoesDecipher(ps: seq<bv32>, f: bv32 -> bv32, b: Block)
    requires |ps| == N + 2
    ensures Encipher(ps, f, Decipher(ps, f, b)) == b
  {
    var rs := Reverse(ps);
    assert Reverse(rs) == ps;
    DecipherIsEncipherReversed(ps, f, b);
    DecipherIsEncipherReversed(rs, f, Encipher(rs, f, b));
    DecipherUndoesEncipher(rs, f, b);
  }

  /** int.from_bytes(key[i % len : i % len + 4], 'big'): up to four key bytes, fewer near the end. */
  function KeyWord(key: seq<bv8>, i: nat): bv32
    requires |key| > 0
  {
    var start := i % |key|;
    var end := if start + 4 <= |key| then start + 4 else |key|;
    BytesToWord(key[start..end])
  }

  /** The first loop of key_expansion: each P[i] XORed with its key word. */
  function MixKey(ps: seq<bv32>, key: seq<bv8>): (r: seq<bv32>)
    requires |ps| == N + 2 && |key| > 0
    ensures |r| == N + 2
    ensures forall i :: 0 <= i < N + 2 ==> r[i] == ps[i] ^ KeyWord(key, i)
  {
    seq(N + 2, i requires 0 <= i < N + 2 => Xor(ps[i], KeyWord(key, i)))
  }

  /**
   * The second loop of key_expansion after k steps: step k encrypts the previous block with the
   * P array as it stands and stores the result in P[2k] and P[2k + 1].
   */
  function PChain(ps: seq<bv32>, f: bv32 -> bv32, k: nat): (r: (seq<bv32>, Block))
    requires |ps| == N + 2 && k <= (N + 2) / 2
    ensures |r.0| == N + 2
    ensures forall i :: 2 * k <= i < N + 2 ==> r.0[i] == ps[i]
  {
    if k == 0 then (ps, Block(0, 0))
    else
      var (prev, b) := PChain(ps, f, k - 1);
      var c := Encipher(prev, f, b);
      (prev[2 * k - 2 := c.l][2 * k - 1 := c.r], c)
  }

  /** The P array key_expansion leaves, and the block it chains into the S boxes. */
  function ExpandedP(ps: seq<bv32>, f: bv32 -> bv32, key: seq<bv8>): (seq<bv32>, Block)
    requires |ps| == N + 2 && |key| > 0
  {
    PChain(MixKey(ps, key), f, |ps| / 2)
  }

  /** n successive encryptions of b under one P array. */
  function Iterate(ps: seq<bv32>, f: bv32 -> bv32, b: Block, n: nat): Block
    requires |ps| == N + 2
  {
    if n == 0 then b else Encipher(ps, f, Iterate(ps, f, b, n - 1))
  }

  /** The entry key_expansion stores at S[i][j]: half j % 2 of encryption number 128 i + j / 2 + 1. */
  function SEntry(ps: seq<bv32>, f: bv32 -> bv32, b: Block, i: nat, j: nat): bv32
    requires |ps| == N + 2
  {
    var c := Iterate(ps, f, b, 128 * i + j / 2 + 1);
    if j % 2 == 0 then c.l else c.r
  }

  /** Encryption number 128 i + q + 1 of the chain, whose halves key_expansion stores in S[i][2q] and S[i][2q + 1]. */
  function SPair(ps: seq<bv32>, f: bv32 -> bv32, b: Block, i: nat, q: nat): Block
    requires |ps| == N + 2
  {
    Iterate(ps, f, b, 128 * i + q + 1)
  }

  /** The two S entries of one pair are the two halves of one encryption of the chain. */
  lemma SEntryPair(ps: seq<bv32>, f: bv32 -> bv32, b: Block, i: nat, q: nat)
    requires |ps| == N + 2
    ensures SEntry(ps, f, b, i, 2 * q) == SPair(ps, f, b, i, q).l
    ensures SEntry(ps, f, b, i, 2 * q + 1) == SPair(ps, f, b, i, q).r
  {
    assert (2 * q) / 2 == q && (2 * q + 1) / 2 == q;
  }

  /** The part of a string that the Python slice x[lo:hi] selects. */
  function Slice(x: seq<bv8>, lo: nat, hi: nat): (r: seq<bv8>)
    ensures lo <= hi <= |x| ==> r == x[lo..hi]
    ensures lo <= |x| < hi ==> r == x[lo..]
    ensures |x| < lo || hi < lo ==> r == []
  {
    var a := if lo <= |x| then lo else |x|;
    var b := if hi <= |x| then (if a <= hi then hi else a) else |x|;
    x[a..b]
  }

  /** The block read from the chunk at offset i: bytes i..i+3 and i+4..i+7, each big-endian. */
  function ChunkBlock(x: seq<bv8>, i: nat): Block
  {
    Block(BytesToWord(Slice(x, i, i + 4)), BytesToWord(Slice(x, i + 4, i + 8)))
  }

  /** The 8 bytes a block is written out as. */
  function BlockBytes(b: Block): (r: seq<bv8>)
    ensures |r| == 8
  {
    WordToBytes(b.l) + WordToBytes(b.r)
  }

  /** The output of the chunk loop of encrypt or decrypt from offset i onwards, for block function cipher. */
  function Chunks(cipher: Block -> Block, x: seq<bv8>, i: nat): seq<bv8>
    decreases |x| - i
  {
    if i >= |x| then [] else BlockBytes(cipher(ChunkBlock(x, i))) + Chunks(cipher, x, i + 8)
  }

  /** Every chunk, full or not, gives 8 bytes: the output has 8 * ceil(len / 8) bytes. */
  lemma {:induction false} ChunksLength(cipher: Block -> Block, x: seq<bv8>, i: nat)
    ensures |Chunks(cipher, x, i)| == if i >= |x| then 0 else 8 * ((|x| - i + 7) / 8)
    decreases |x| - i
  {
    if i < |x| {
      ChunksLength(cipher, x, i + 8);
      var n := |x| - i;
      if n <= 8 {
        assert (n + 7) / 8 == 1;
      } else {
        assert (n + 7) / 8 == (n - 8 + 7) / 8 + 1;
      }
    }
  }

  /** A slice taken past a prefix is the same slice of what follows the prefix. */
  lemma SliceAfter(head: seq<bv8>, tail: seq<bv8>, lo: nat, hi: nat)
    requires lo <= hi
    ensures Slice(head + tail, |head| + lo, |head| + hi) == Slice(tail, lo, hi)
  {
    var x := head + tail;
    if hi <= |tail| {
      assert x[|head| + lo..|head| + hi] == tail[lo..hi];
    } else if lo <= |tail| {
      assert x[|head| + lo..] == tail[lo..];
    }
  }

  /** A chunk read past a prefix is the same chunk of what follows the prefix. */
  lemma ChunkBlockAfter(head: seq<bv8>, tail: seq<bv8>, i: nat)
    ensures ChunkBlock(head + tail, |head| + i) == ChunkBlock(tail, i)
  {
    SliceAfter(head, tail, i, i + 4);
    SliceAfter(head, tail, i + 4, i + 8);
  }

  /** The first chunk depends only on the first 8 bytes. */
  lemma ChunkBlockOfPrefix(x: seq<bv8>, tail: seq<bv8>)
    requires |x| == 8
    ensures ChunkBlock(x + tail, 0) == ChunkBlock(x, 0)
  {
    assert Slice(x + tail, 0, 4) == Slice(x, 0, 4);
    assert Slice(x + tail, 4, 8) == Slice(x, 4, 8);
  }

  /** encrypt_block under a fixed P array, as a function value. */
  function EncryptCipher(ps: seq<bv32>, f: bv32 -> bv32): Block -> Block
    requires |ps| == N + 2
  {
    b => Encipher(ps, f, b)
  }

  /** decrypt_block under a fixed P array, as a function value. */
  function DecryptCipher(ps: seq<bv32>, f: bv32 -> bv32): Block -> Block
    requires |ps| == N + 2
  {
    b => Decipher(ps, f, b)
  }

  /** An 8-byte chunk, encrypted and written out, decrypts back to itself. */
  lemma ChunkRoundTrip(ps: seq<bv32>, f: bv32 -> bv32, x: seq<bv8>)
    requires |ps| == N + 2 && |x| == 8
    ensures BlockBytes(Decipher(ps, f, ChunkBlock(BlockBytes(Encipher(ps, f, ChunkBlock(x, 0))), 0))) == x
  {
    var b := ChunkBlock(x, 0);
    assert Slice(x, 0, 4) == x[..4] && Slice(x, 4, 8) == x[4..];
    var c := Encipher(ps, f, b);
    var y := BlockBytes(c);
    assert Slice(y, 0, 4) == WordToBytes(c.l) && Slice(y, 4, 8) == WordToBytes(c.r);
    BytesToWordToBytes(c.l);
    BytesToWordToBytes(c.r);
    assert ChunkBlock(y, 0) == c;
    DecipherUndoesEncipher(ps, f, b);
    WordToBytesToWord(x[..4]);
    WordToBytesToWord(x[4..]);
    assert x == x[..4] + x[4..];
  }

  /** With one fixed P array and input whose length is a multiple of 8, decrypt undoes encrypt. */
  lemma {:induction false} ChunksRoundTrip(ps: seq<bv32>, f: bv32 -> bv32, x: seq<bv8>)
    requires |ps| == N + 2 && |x| % 8 == 0
    ensures Chunks(DecryptCipher(ps, f), Chunks(EncryptCipher(ps, f), x, 0), 0) == x
    decreases |x|
  {
    if 0 < |x| {
      var enc, dec := EncryptCipher(ps, f), DecryptCipher(ps, f);
      var x0, rest := x[..8], x[8..];
      assert |rest| % 8 == 0 by {
        assert |rest| + 8 == |x|;
      }
      assert x == x0 + rest;
      var head := BlockBytes(Encipher(ps, f, ChunkBlock(x0, 0)));
      var encRest := Chunks(enc, rest, 0);
      ChunkBlockOfPrefix(x0, rest);
      ChunksFrom(enc, x0, rest, 0);
      assert Chunks(enc, x, 0) == head + encRest;
      ChunkBlockOfPrefix(head, encRest);
      ChunksFrom(dec, head, encRest, 0);
      assert Chunks(dec, head + encRest, 0)
          == BlockBytes(Decipher(ps, f, ChunkBlock(head, 0))) + Chunks(dec, encRest, 0);
      ChunkRoundTrip(ps, f, x0);
      ChunksRoundTrip(ps, f, rest);
    }
  }

  /** The chunks after an 8-byte head are the chunks of what follows it. */
  lemma {:induction false} ChunksFrom(cipher: Block -> Block, head: seq<bv8>, tail: seq<bv8>, i: nat)
    requires |head| == 8
    ensures Chunks(cipher, head + tail, 8 + i) == Chunks(cipher, tail, i)
    decreases |tail| - i
  {
    if i < |tail| {
      ChunkBlockAfter(head, tail, i);
      ChunksFrom(cipher, head, tail, i + 8);
    }
  }

  /**
   * A length that is not a multiple of 8 never survives the chunk loops: whatever the block
   * functions, the output of decrypt after encrypt has a multiple of 8 bytes, so b"hello" comes back
   * as 8 bytes.
   */
  lemma UnalignedDoesNotRoundTrip(enc: Block -> Block, dec: Block -> Block, x: seq<bv8>)
    requires |x| % 8 != 0
    ensures |Chunks(dec, Chunks(enc, x, 0), 0)| % 8 == 0
    ensures Chunks(dec, Chunks(enc, x, 0), 0) != x
  {
    var y := Chunks(enc, x, 0);
    ChunksLength(enc, x, 0);
    ChunksLength(dec, y, 0);
  }

  class Blowfish {
    /** The round function F. */
    const f: bv32 -> bv32
    /** The P array, N + 2 subkeys. */
    const p: array<bv32>
    /** The four S boxes of 256 entries. */
    const s: array2<bv32>

    ghost predicate Valid()
      reads this
    {
      p.Length == N + 2 && s.Length0 == 4 && s.Length1 == 256
    }

    /** A fresh object: P and S all zero. */
    constructor (f: bv32 -> bv32)
      ensures Valid() && this.f == f && fresh(p) && fresh(s)
      ensures p[..] == seq(N + 2, _ => 0)
      ensures forall i, j :: 0 <= i < 4 && 0 <= j < 256 ==> s[i, j] == 0
    {
      this.f := f;
      p := new bv32[N + 2](_ => 0);
      s := new bv32[4, 256]((_, _) => 0);
    }

    method EncryptBlock(l: bv32, r: bv32) returns (b: Block)
      requires Valid()
      ensures b == Encipher(p[..], f, Block(l, r))
    {
      var L, R := l, r;
      var i := 0;
      while i < N
        invariant 0 <= i <= N
        invariant Block(L, R) == EncryptRounds(p[..], f, Block(l, r), i)
      {
        assert p[..][i] == p[i];
        L := Xor(L, p[i]);
        R := Xor(R, f(L));
        L, R := R, L;
        i := i + 1;
      }
      L, R := R, L;
      R := Xor(R, p[N]);
      L := Xor(L, p[N + 1]);
      b := Block(L, R);
    }

    method DecryptBlock(l: bv32, r: bv32) returns (b: Block)
      requires Valid()
      ensures b == Decipher(p[..], f, Block(l, r))
    {
      var L, R := l, r;
      var i := N + 1;
      while i > 1
        invariant 1 <= i <= N + 1
        invariant Block(L, R) == DecryptRounds(p[..], f, Block(l, r), N + 1 - i)
      {
        assert p[..][i] == p[i];
        L := Xor(L, p[i]);
        R := Xor(R, f(L));
        L, R := R, L;
        i := i - 1;
      }
      L, R := R, L;
      R := Xor(R, p[1]);
      L := Xor(L, p[0]);
      b := Block(L, R);
    }

    /** key_expansion: P mixed with the key, then P and the S boxes refilled from a chain of encryptions. */
    method KeyExpansion(key: seq<bv8>) returns (r: Result<()>)
      requires Valid()
      modifies p, s
      ensures |key| == 0 ==> r == Err(ZeroDivisionError) && p[..] == old(p[..]) && unchanged(s)
      ensures |key| > 0 ==> r == Ok(()) && p[..] == ExpandedP(old(p[..]), f, key).0
      ensures |key| > 0 ==> forall i, j :: 0 <= i < 4 && 0 <= j < 256 ==>
                s[i, j] == SEntry(p[..], f, ExpandedP(old(p[..]), f, key).1, i, j)
    {
      if |key| == 0 {
        return Err(ZeroDivisionError);
      }
      MixKeyIntoP(key);
      var last := RefillP();
      RefillS(last);
      return Ok(());
    }

    /** The first loop of key_expansion: P[i] ^= the key word at i. */
    method MixKeyIntoP(key: seq<bv8>)
      requires Valid() && |key| > 0
      modifies p
      ensures p[..] == MixKey(old(p[..]), key)
    {
      var keyLen := |key|;
      var i := 0;
      while i < N + 2
        invariant 0 <= i <= N + 2
        invariant forall k :: 0 <= k < i ==> p[k] == Xor(old(p[k]), KeyWord(key, k))
        invariant forall k :: i <= k < N + 2 ==> p[k] == old(p[k])
      {
        var start := i % keyLen;
        var end := if start + 4 <= keyLen then start + 4 else keyLen;
        p[i] := Xor(p[i], BytesToWord(key[start..end]));
        i := i + 1;
      }
    }

    /** The second loop of key_expansion: P refilled pairwise by encryptions chained from (0, 0). */
    method RefillP() returns (last: Block)
      requires Valid()
      modifies p
      ensures (p[..], last) == PChain(old(p[..]), f, p.Length / 2)
    {
      ghost var mixed := p[..];
      var L: bv32, R: bv32 := 0, 0;
      var i := 0;
      ghost var k := 0;
      while i < N + 2
        invariant 0 <= i <= N + 2 && i == 2 * k
        invariant (p[..], Block(L, R)) == PChain(mixed, f, k)
      {
        var b := EncryptBlock(L, R);
        L, R := b.l, b.r;
        StorePPair(i, b);
        i, k := i + 2, k + 1;
      }
      last := Block(L, R);
    }

    /** P[i], P[i + 1] = L, R. */
    method StorePPair(i: nat, b: Block)
      requires Valid() && i + 1 < N + 2
      modifies p
      ensures p[..] == old(p[..])[i := b.l][i + 1 := b.r]
    {
      p[i], p[i + 1] := b.l, b.r;
    }

    /** The last loops of key_expansion: the S boxes filled pairwise, continuing the chain from last. */
    method RefillS(last: Block)
      requires Valid()
      modifies s
      ensures forall i, j :: 0 <= i < 4 && 0 <= j < 256 ==> s[i, j] == SEntry(p[..], f, last, i, j)
    {
      var b := last;
      var i := 0;
      while i < 4
        invariant 0 <= i <= 4
        invariant b == Iterate(p[..], f, last, 128 * i)
        invariant forall a, c :: 0 <= a < i && 0 <= c < 256 ==> s[a, c] == SEntry(p[..], f, last, a, c)
      {
        b := FillRow(last, i, b);
        i := i + 1;
      }
    }

    /** One row of the S-box loop: S[i] filled pairwise, starting from block number 128 i of the chain. */
    method FillRow(last: Block, i: nat, start: Block) returns (b: Block)
      requires Valid() && i < 4
      requires start == Iterate(p[..], f, last, 128 * i)
      modifies s
      ensures b == Iterate(p[..], f, last, 128 * (i + 1))
      ensures forall c :: 0 <= c < 256 ==> s[i, c] == SEntry(p[..], f, last, i, c)
      ensures forall a, c :: 0 <= a < 4 && a != i && 0 <= c < 256 ==> s[a, c] == old(s[a, c])
    {
      ghost var ps := p[..];
      ghost var base := 128 * i;
      b := start;
      var j := 0;
      ghost var k := 0;
      while j < 256
        invariant 0 <= j <= 256 && j == 2 * k
        invariant b == Iterate(ps, f, last, base + k)
        invariant forall q :: 0 <= q < k ==> s[i, 2 * q] == SPair(ps, f, last, i, q).l && s[i, 2 * q + 1] == SPair(ps, f, last, i, q).r
        invariant forall a, c :: 0 <= a < 4 && a != i && 0 <= c < 256 ==> s[a, c] == old(s[a, c])
      {
        b := EncryptBlock(b.l, b.r);
        assert b == SPair(ps, f, last, i, k);
        StorePair(i, j, b);
        j, k := j + 2, k + 1;
      }
      RowFromPairs(ps, last, i);
    }

    /** A row filled pair by pair holds the S entries of that row. */
    lemma RowFromPairs(ps: seq<bv32>, last: Block, i: nat)
      requires Valid() && |ps| == N + 2 && i < 4
      requires forall q :: 0 <= q < 128 ==> s[i, 2 * q] == SPair(ps, f, last, i, q).l && s[i, 2 * q + 1] == SPair(ps, f, last, i, q).r
      ensures forall c :: 0 <= c < 256 ==> s[i, c] == SEntry(ps, f, last, i, c)
    {
      forall c | 0 <= c < 256
        ensures s[i, c] == SEntry(ps, f, last, i, c)
      {
        var q := c / 2;
        SEntryPair(ps, f, last, i, q);
        assert c == 2 * q || c == 2 * q + 1;
      }
    }

    /** S[i][j], S[i][j + 1] = L, R, leaving every other entry as it was. */
    method StorePair(i: nat, j: nat, b: Block)
      requires Valid() && i < 4 && j + 1 < 256
      modifies s
      ensures s[i, j] == b.l && s[i, j + 1] == b.r
      ensures forall a, c :: 0 <= a < 4 && 0 <= c < 256 && (a != i || (c != j && c != j + 1)) ==> s[a, c] == old(s[a, c])
    {
      s[i, j], s[i, j + 1] := b.l, b.r;
    }

    /** encrypt: re-run key_expansion, then encrypt the input in 8-byte chunks. */
    method Encrypt(plaintext: seq<bv8>, key: seq<bv8>) returns (r: Result<seq<bv8>>)
      requires Valid()
      modifies p, s
      ensures |key| == 0 ==> r == Err(ZeroDivisionError) && p[..] == old(p[..])
      ensures |key| == 0 ==> forall i, j :: 0 <= i < 4 && 0 <= j < 256 ==> s[i, j] == old(s[i, j])
      ensures |key| > 0 ==> p[..] == ExpandedP(old(p[..]), f, key).0
      ensures |key| > 0 ==> forall i, j :: 0 <= i < 4 && 0 <= j < 256 ==>
                s[i, j] == SEntry(p[..], f, ExpandedP(old(p[..]), f, key).1, i, j)
      ensures |key| > 0 ==> r == Ok(Chunks(EncryptCipher(p[..], f), plaintext, 0))
    {
      var expanded := KeyExpansion(key);
      if expanded.Err? {
        return Err(expanded.error);
      }
      var ciphertext := RunChunks(EncryptCipher(p[..], f), plaintext);
      return Ok(ciphertext);
    }

    /** decrypt: re-run key_expansion, then decrypt the input in 8-byte chunks. */
    method Decrypt(ciphertext: seq<bv8>, key: seq<bv8>) returns (r: Result<seq<bv8>>)
      requires Valid()
      modifies p, s
      ensures |key| == 0 ==> r == Err(ZeroDivisionError) && p[..] == old(p[..])
      ensures |key| == 0 ==> forall i, j :: 0 <= i < 4 && 0 <= j < 256 ==> s[i, j] == old(s[i, j])
      ensures |key| > 0 ==> p[..] == ExpandedP(old(p[..]), f, key).0
      ensures |key| > 0 ==> forall i, j :: 0 <= i < 4 && 0 <= j < 256 ==>
                s[i, j] == SEntry(p[..], f, ExpandedP(old(p[..]), f, key).1, i, j)
      ensures |key| > 0 ==> r == Ok(Chunks(DecryptCipher(p[..], f), ciphertext, 0))
    {
      var expanded := KeyExpansion(key);
      if expanded.Err? {
        return Err(expanded.error);
      }
      var plaintext := RunChunks(DecryptCipher(p[..], f), ciphertext);
      return Ok(plaintext);
    }
  }

  /**
   * The chunk loop of encrypt and decrypt: each 8-byte chunk read as two big-endian halves, put
   * through the block function, and appended as 8 bytes.
   */
  method RunChunks(cipher: Block -> Block, x: seq<bv8>) returns (out: seq<bv8>)
    ensures out == Chunks(cipher, x, 0)
  {
    out := [];
    var i := 0;
    while i < |x|
      invariant out + Chunks(cipher, x, i) == Chunks(cipher, x, 0)
      decreases |x| - i
    {
      var b := cipher(ChunkBlock(x, i));
      out := out + BlockBytes(b);
      i := i + 8;
    }
  }

  /**
   * Encrypting with one fresh object and decrypting with another under the same key gives the
   * input back when its length is a multiple of 8: both objects expand the key from all-zero P.
   */
  method FreshObjectsRoundTrip(f: bv32 -> bv32, key: seq<bv8>, x: seq<bv8>) returns (d: Result<seq<bv8>>)
    requires |key| > 0 && |x| % 8 == 0
    ensures d == Ok(x)
  {
    var a := new Blowfish(f);
    var c := a.Encrypt(x, key);
    ghost var pa := a.p[..];
    var b := new Blowfish(f);
    d := b.Decrypt(c.value, key);
    assert b.p[..] == pa;
    ChunksRoundTrip(pa, f, x);
  }
}
