/**
 * The padding and block-splitting layer of the Triple DES class in crypto/triple_des_impl.py.
 *
 * pad and unpad are the PKCS#7 padding of section 6.3 of RFC 5652, computed as the code computes
 * them, with Python's floor modulo, bytes() range check and negative-index slicing. The key schedule
 * and the two block functions are stubs in the code; here they are parameters of the object, and
 * the round trip is proved for any pair of block functions that undo each other.
 */
module TripleDes {
  import opened Wrappers
  import opened ByteWords
  import opened ModArith

  /** What generate_subkeys produces for a key: a list of subkeys, each a byte string. */
  type Subkeys = seq<seq<bv8>>

  /** Python's a % b for b != 0: the remainder takes the sign of the divisor. */
  function FloorMod(a: int, b: int): (r: int)
    requires b != 0
    ensures b > 0 ==> 0 <= r < b
    ensures b < 0 ==> b < r <= 0
    ensures (a - r) % b == 0
  {
    var m := a % b;
    var q := a / b;
    assert a - m == b * q;
    assert a - (m + b) == b * (q - 1);
    MultipleMod(b, q);
    MultipleMod(b, q - 1);
    if b > 0 || m == 0 then m else m + b
  }

  /** A multiple of b leaves no remainder modulo b, whatever the sign of b. */
  lemma MultipleMod(b: int, k: int)
    requires b != 0
    ensures (b * k) % b == 0
  {
    var x := b * k;
    if b > 0 {
      ModUnique(x, b, k, 0);
    } else {
      // For a negative b, Dafny's remainder is the one modulo -b.
      assert x == (-b) * -(x / b) + x % b;
      ModUnique(x, -b, -(x / b), x % b);
      assert x == (-b) * -k + 0;
      ModUnique(x, -b, -k, 0);
    }
  }

  /** The k bytes of value k that pad appends. */
  function PadBytes(k: nat): (r: seq<bv8>)
    requires k < 256
    ensures |r| == k
    ensures forall j :: 0 <= j < k ==> r[j] as int == k
  {
    seq(k, _ => ByteOf(k))
  }

  /**
   * pad(data, block_size): k = block_size - len(data) % block_size bytes of value k appended. A zero
   * block size divides by zero; a k above 255 is refused by bytes(); a k of zero or below (a
   * negative block size) repeats the list no times and appends nothing.
   */
  function Pad(data: seq<bv8>, bs: int): Result<seq<bv8>>
  {
    if bs == 0 then Err(ZeroDivisionError)
    else
      var k := bs - FloorMod(|data|, bs);
      if k <= 0 then Ok(data)
      else if k > 255 then Err(ValueError)
      else Ok(data + PadBytes(k))
  }

  /**
   * unpad(data): the last byte k read as a count, and data[:-k] returned. An empty input has no last
   * byte; k = 0 makes the slice data[:0], which is empty; a k at least the length leaves nothing.
   */
  function Unpad(data: seq<bv8>): Result<seq<bv8>>
  {
    if |data| == 0 then Err(IndexError)
    else
      var k := data[|data| - 1] as int;
      if k == 0 || k >= |data| then Ok([])
      else Ok(data[..|data| - k])
  }

  /** The count pad computes for a positive block size, between 1 and bs. */
  function PadCount(len: nat, bs: nat): (k: nat)
    requires bs > 0
    ensures 1 <= k <= bs
    ensures len + k == bs * (len / bs + 1)
  {
    bs - len % bs
  }

  /** For a positive block size of at most 255, pad succeeds and appends PadCount bytes of that value. */
  lemma PadShape(data: seq<bv8>, bs: int)
    requires 0 < bs <= 255
    ensures Pad(data, bs) == Ok(data + PadBytes(PadCount(|data|, bs)))
  {
  }

  /** Whenever pad succeeds with a positive block size, its output fills one block more than the data fills whole. */
  lemma PadLength(data: seq<bv8>, bs: int)
    requires bs > 0 && Pad(data, bs).Ok?
    ensures |Pad(data, bs).value| == bs * (|data| / bs + 1)
    ensures |Pad(data, bs).value| > |data|
  {
    assert |Pad(data, bs).value| == |data| + PadCount(|data|, bs);
  }

  /** A negative block size leaves the data as it is. */
  lemma PadNegative(data: seq<bv8>, bs: int)
    requires bs < 0
    ensures Pad(data, bs) == Ok(data)
  {
    var m := FloorMod(|data|, bs);
    assert bs - m < 0;
  }

  /**
   * unpad fails only on the empty string, and otherwise keeps a prefix: all but the last k bytes,
   * where k is the value of the last byte, or nothing when k is 0 or covers the whole string.
   */
  lemma UnpadPrefix(data: seq<bv8>)
    ensures Unpad(data).Err? <==> |data| == 0
    ensures Unpad(data).Err? ==> Unpad(data).error == IndexError
    ensures Unpad(data).Ok? ==> Unpad(data).value <= data
    ensures |data| > 0 && 0 < data[|data| - 1] as int < |data| ==>
              |Unpad(data).value| == |data| - data[|data| - 1] as int
  {
  }

  /** unpad undoes pad for every block size a single byte can count. */
  lemma UnpadPad(data: seq<bv8>, bs: int)
    requires 0 < bs <= 255
    ensures Pad(data, bs).Ok? && Unpad(Pad(data, bs).value) == Ok(data)
  {
    var k := PadCount(|data|, bs);
    var out := data + PadBytes(k);
    PadShape(data, bs);
    assert out[|out| - 1] as int == k;
    if k < |out| {
      assert out[..|out| - k] == data;
    }
  }

  // ---------------------------------------------------------------- block loops

  /** The chunk padded_plaintext[i:i + block_size] for an offset inside the string. */
  function Chunk(x: seq<bv8>, i: nat, bs: nat): (r: seq<bv8>)
    requires i <= |x|
    ensures |r| == if i + bs <= |x| then bs else |x| - i
    ensures r == x[i..i + |r|]
  {
    if i + bs <= |x| then x[i..i + bs] else x[i..]
  }

  /** The output of the block loop from offset i onwards: each chunk put through cipher, in order. */
  function Blocks(cipher: seq<bv8> -> seq<bv8>, x: seq<bv8>, bs: nat, i: nat): seq<bv8>
    requires bs > 0 && i <= |x|
    decreases |x| - i
  {
    if i == |x| then []
    else
      var next := if i + bs <= |x| then i + bs else |x|;
      cipher(Chunk(x, i, bs)) + Blocks(cipher, x, bs, next)
  }

  /** Each chunk read from the output of a length-preserving block function is the image of the matching chunk of the input. */
  ghost predicate PreservesLength(cipher: seq<bv8> -> seq<bv8>, bs: nat)
  {
    forall b :: |b| == bs ==> |cipher(b)| == bs
  }

  /** dec undoes enc on every full block. */
  ghost predicate Undoes(dec: seq<bv8> -> seq<bv8>, enc: seq<bv8> -> seq<bv8>, bs: nat)
  {
    forall b :: |b| == bs ==> dec(enc(b)) == b
  }

  /** The blocks of x after its first block are the blocks of the rest of x. */
  lemma {:induction false} BlocksAfter(cipher: seq<bv8> -> seq<bv8>, head: seq<bv8>, tail: seq<bv8>, bs: nat, i: nat)
    requires bs > 0 && |head| == bs && i <= |tail|
    ensures Blocks(cipher, head + tail, bs, bs + i) == Blocks(cipher, tail, bs, i)
    decreases |tail| - i
  {
    if i < |tail| {
      var x := head + tail;
      var next := if i + bs <= |tail| then i + bs else |tail|;
      assert (if bs + i + bs <= |x| then bs + i + bs else |x|) == bs + next;
      assert x[bs + i..] == tail[i..];
      assert Chunk(x, bs + i, bs) == Chunk(tail, i, bs);
      BlocksAfter(cipher, head, tail, bs, next);
    }
  }

  /**
   * Decrypting the blocks of n encrypted whole blocks gives the input back. The blocks are those of
   * a padded input, whose length is a multiple of the block size.
   */
  lemma {:induction false} BlocksRoundTrip(enc: seq<bv8> -> seq<bv8>, dec: seq<bv8> -> seq<bv8>, x: seq<bv8>, bs: nat, n: nat)
    requires bs > 0 && |x| == bs * n
    requires PreservesLength(enc, bs) && Undoes(dec, enc, bs)
    ensures Blocks(dec, Blocks(enc, x, bs, 0), bs, 0) == x
  {
    if 0 < n {
      assert bs * n == bs * (n - 1) + bs;
      var x0, rest := x[..bs], x[bs..];
      assert x == x0 + rest;
      var head := enc(x0);
      var encRest := Blocks(enc, rest, bs, 0);
      FirstBlock(enc, x0, rest, bs);
      FirstBlock(dec, head, encRest, bs);
      BlocksRoundTrip(enc, dec, rest, bs, n - 1);
    }
  }

  /** The blocks of a string that starts with a whole block: that block's image, then the blocks of the rest. */
  lemma FirstBlock(cipher: seq<bv8> -> seq<bv8>, head: seq<bv8>, tail: seq<bv8>, bs: nat)
    requires bs > 0 && |head| == bs
    ensures Blocks(cipher, head + tail, bs, 0) == cipher(head) + Blocks(cipher, tail, bs, 0)
  {
    assert Chunk(head + tail, 0, bs) == head;
    BlocksAfter(cipher, head, tail, bs, 0);
  }

  class TripleDesImpl {
    /** The key size in bytes. */
    const keySize: nat
    /** The block size in bytes. */
    const blockSize: nat
    /** The number of rounds. */
    const numRounds: nat
    /** The subkeys of the last key used. */
    var subkeys: Subkeys
    /** generate_subkeys, a stub in the code. */
    const generateSubkeys: seq<bv8> -> Subkeys
    /** encrypt_block and decrypt_block under a list of subkeys, stubs in the code. */
    const encryptBlock: Subkeys -> seq<bv8> -> seq<bv8>
    const decryptBlock: Subkeys -> seq<bv8> -> seq<bv8>

    /** A new object: 24-byte keys, 8-byte blocks, 16 rounds and no subkeys yet. */
    constructor (gen: seq<bv8> -> Subkeys, enc: Subkeys -> seq<bv8> -> seq<bv8>, dec: Subkeys -> seq<bv8> -> seq<bv8>)
      ensures keySize == 24 && blockSize == 8 && numRounds == 16 && subkeys == []
      ensures generateSubkeys == gen && encryptBlock == enc && decryptBlock == dec
    {
      keySize, blockSize, numRounds := 24, 8, 16;
      subkeys := [];
      generateSubkeys, encryptBlock, decryptBlock := gen, enc, dec;
    }

    /** The per-block loop shared by encrypt and decrypt: out accumulates cipher of each chunk. */
    static method RunBlocks(cipher: seq<bv8> -> seq<bv8>, x: seq<bv8>, bs: nat) returns (out: seq<bv8>)
      requires bs > 0
      ensures out == Blocks(cipher, x, bs, 0)
    {
      out := [];
      var i := 0;
      while i < |x|
        invariant 0 <= i <= |x|
        invariant out + Blocks(cipher, x, bs, i) == Blocks(cipher, x, bs, 0)
        decreases |x| - i
      {
        var block := Chunk(x, i, bs);
        out := out + cipher(block);
        i := if i + bs <= |x| then i + bs else |x|;
      }
    }

    /**
     * encrypt: the subkeys of key stored first, then the padded plaintext encrypted block by block.
     * A negative block size pads nothing and the loop runs no times.
     */
    method Encrypt(plaintext: seq<bv8>, key: seq<bv8>, bs: int) returns (r: Result<seq<bv8>>)
      modifies this
      ensures subkeys == generateSubkeys(key)
      ensures Pad(plaintext, bs).Err? ==> r == Err(Pad(plaintext, bs).error)
      ensures Pad(plaintext, bs).Ok? && bs > 0 ==> r == Ok(Blocks(encryptBlock(subkeys), Pad(plaintext, bs).value, bs, 0))
      ensures bs < 0 ==> r == Ok([])
    {
      subkeys := generateSubkeys(key);
      var padded := Pad(plaintext, bs);
      if padded.Err? {
        return Err(padded.error);
      }
      if bs < 0 {
        return Ok([]);
      }
      var ciphertext := RunBlocks(encryptBlock(subkeys), padded.value, bs);
      return Ok(ciphertext);
    }

    /** decrypt: the subkeys of key stored first, then the ciphertext decrypted block by block and unpadded. */
    method Decrypt(ciphertext: seq<bv8>, key: seq<bv8>, bs: int) returns (r: Result<seq<bv8>>)
      modifies this
      ensures subkeys == generateSubkeys(key)
      ensures bs == 0 ==> r == Err(ValueError)
      ensures bs < 0 ==> r == Err(IndexError)
      ensures bs > 0 ==> r == Unpad(Blocks(decryptBlock(subkeys), ciphertext, bs, 0))
    {
      subkeys := generateSubkeys(key);
      if bs == 0 {
        return Err(ValueError);
      }
      var plaintext: seq<bv8> := [];
      if bs > 0 {
        plaintext := RunBlocks(decryptBlock(subkeys), ciphertext, bs);
      }
      return Unpad(plaintext);
    }
  }

  /**
   * decrypt(encrypt(p)) = p on one object and one key, for block sizes from 1 to 255, whenever the
   * block functions under that key's subkeys preserve the length of a block and undo each other.
   */
  method EncryptDecryptRoundTrip(t: TripleDesImpl, plaintext: seq<bv8>, key: seq<bv8>, bs: int) returns (d: Result<seq<bv8>>)
    requires 0 < bs <= 255
    requires PreservesLength(t.encryptBlock(t.generateSubkeys(key)), bs)
    requires Undoes(t.decryptBlock(t.generateSubkeys(key)), t.encryptBlock(t.generateSubkeys(key)), bs)
    modifies t
    ensures d == Ok(plaintext)
  {
    var blocks: nat := |plaintext| / bs + 1;
    var keys := t.generateSubkeys(key);
    var enc, dec := t.encryptBlock(keys), t.decryptBlock(keys);
    UnpadPad(plaintext, bs);
    PadLength(plaintext, bs);
    var padded := Pad(plaintext, bs).value;
    BlocksRoundTrip(enc, dec, padded, bs, blocks);
    var c := t.Encrypt(plaintext, key, bs);
    assert c == Ok(Blocks(enc, padded, bs, 0));
    d := t.Decrypt(c.value, key, bs);
  }
}
