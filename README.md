# crypto-math-py, modelled in Dafny

A model of the computational core of crypto-math-py, a Python teaching repository of cryptography and
discrete mathematics, with proofs of what that code does and promises.

The model covers the following.

- **AES-128** (`crypto/aes.py`).
  - Covered: the key schedule, the round transforms, and encrypt/decrypt exactly as written.
  - The S-box, inverse S-box, round constants and GF(2^8) multiplication are used by the code without a definition, so they come from FIPS 197.
  - The state is kept row-wise and `mix_columns` transposes it. The byte-level round trip is proved for the corrected in-place mixing; for the code's transposing mixing, inv_mix_columns does not undo mix_columns (whether the whole as-written cipher ever round-trips is not settled here).
- **PBKDF2 with HMAC** (`crypto/pbkdf2.py`).
  - Covered: argument validation and its exceptions, the block count and truncation, and the inner `F` iterate-and-XOR loop.
  - HMAC is an abstract pseudorandom function with a fixed digest size.
- **The Blowfish-style Feistel network** (`crypto/blowfish.py`).
  - Covered: the in-place key expansion over the P array and the four S boxes, the block encrypt and decrypt, and the 8-byte chunk loops.
  - The round function is abstract, and the model proves that the block functions invert each other for any round function.
- **The Triple DES padding and block layer** (`crypto/triple_des_impl.py`).
  - Covered: PKCS#7-style `pad`/`unpad` with Python's modulo and slicing, and the block loops of `encrypt`/`decrypt`.
  - The block functions are abstract.
- **Elliptic-curve point arithmetic** (`crypto/ecc.py`): `is_on_curve`, point addition and doubling with `pow(d, -1, p)`, and the double-and-add scalar multiplication.
- **Finite-algebra validators** (`group_theory/*`).
  - Covered: identity, inverse, group and subgroup checks; the ring, field and Galois-field checks; and reduction modulo the element count.
  - Each check is proved equivalent to its mathematical definition.
- **Relations, functions as finite maps, and sets** (`relations/relations.py`, `functions/functions.py`, `sets/sets.py`, `sets/base_set.py`).
  - `Set` and `BaseSet` are classes whose `add`/`remove` update the element set in place.

The modules:

| file | module | models |
|---|---|---|
| wrappers.dfy | Wrappers | Python exceptions as `Result`, optional values as `Option` |
| byte_words.dfy | ByteWords | big-endian bytes of a 32-bit word |
| mod_arith.dfy | ModArith | facts about `%` shared by the ECC and Galois-field proofs |
| aes_field.dfy | AesField | GF(2^8) arithmetic; the column mix and its inverse |
| aes_tables.dfy | AesTables | the FIPS 197 S-box, inverse S-box and round constants |
| aes.dfy | Aes | `AES.key_expansion`, `encrypt`, `decrypt` |
| pbkdf2.dfy | Pbkdf2 | `pbkdf2_hmac` and its `F` |
| blowfish.dfy | Blowfish | `Blowfish` (class over the P and S arrays) |
| triple_des.dfy | TripleDes | `TripleDESImpl` (class with `subkeys`) |
| ecc.dfy | Ecc | `ECC` point arithmetic |
| search.dfy | Search | the "first element that passes" and "all elements pass" loops |
| group_theory.dfy | GroupTheory | `Group`, `Subgroup` |
| ring_theory.dfy | RingTheory | `Ring.is_ring` |
| field_theory.dfy | FieldTheory | `Field` |
| galois_field.dfy | GaloisField | `GaloisField` |
| relations.dfy | Relations | `Relation` |
| functions.dfy | Functions | `Function` |
| sets.dfy | Sets | `Set`, `EmptySet` (class) |
| base_set.dfy | BaseSets | `BaseSet` (class) |

## Model

| member | source | states |
|---|---|---|
| ByteWords.BytesToWordToBytes | crypto/blowfish.py:103-107 | reading a 32-bit word back from its four big-endian bytes gives the word |
| ByteWords.WordToBytesToWord | crypto/blowfish.py:103-107 | four bytes read as a big-endian word and written back are the same four bytes |
| AesField.XTimeIsShiftAndReduce | crypto/aes.py:78 | multiplication by x is a left shift, reduced by 0x1b when the top bit was set (FIPS 197 section 4.2.1) |
| AesField.GaloisMult | crypto/aes.py:78-81 | galois_mult, used but not defined by the code, is the GF(2^8) product of FIPS 197 section 4.2; MultBy2 to MultBy14 state it for the constants the code uses |
| AesField.MultBy2 | crypto/aes.py:78 | galois_mult(a, 2) is xtime(a) |
| AesField.MultBy3 | crypto/aes.py:78 | galois_mult(a, 3) is a + xtime(a) |
| AesField.MultBy9 | crypto/aes.py:123 | galois_mult(a, 9) is a + x^3 a |
| AesField.MultBy11 | crypto/aes.py:123 | galois_mult(a, 11) is a + x a + x^3 a |
| AesField.MultBy13 | crypto/aes.py:123 | galois_mult(a, 13) is a + x^2 a + x^3 a |
| AesField.MultBy14 | crypto/aes.py:123 | galois_mult(a, 14) is x a + x^2 a + x^3 a |
| AesField.InvMixUndoesMix | crypto/aes.py:121-127 | inv_mix_single_column undoes mix_single_column on every 4-byte column |
| AesField.MixUndoesInvMix | crypto/aes.py:76-82 | mix_single_column undoes inv_mix_single_column on every 4-byte column |
| AesTables.InvSBoxUndoesSBox | crypto/aes.py:115 | the inverse S-box of FIPS 197 undoes its S-box on every byte |
| AesTables.SBox | crypto/aes.py:70 | the s_box the code indexes is the table of FIPS 197 figure 7; SBoxUndoesInvSBox and InvSBoxUndoesSBox state that it is a permutation |
| AesTables.InvSBox | crypto/aes.py:115 | the inv_s_box the code indexes is the table of FIPS 197 figure 14, proved inverse to SBox |
| AesTables.Rcon | crypto/aes.py:45 | the rcon the schedule reads is the round-constant list of FIPS 197 section 5.2; RconIsPowerOfX states its values |
| AesTables.SBoxUndoesInvSBox | crypto/aes.py:70 | the S-box undoes the inverse S-box on every byte, so the tables are inverse permutations |
| AesTables.RconIsPowerOfX | crypto/aes.py:45 | rcon[1] is 1 and each next round constant is the previous one times x |
| Aes.WordAt | crypto/aes.py:39 | the word taken at offset k holds exactly the bytes k to k + 3 of the input |
| Aes.Schedule | crypto/aes.py:37-48 | the schedule computed up to word n has exactly n words |
| Aes.ScheduleExtends | crypto/aes.py:41-48 | a word of the schedule, once computed, is never changed by later iterations |
| Aes.ScheduleKeyWords | crypto/aes.py:38-39 | words 0 to 3 are the key's consecutive 4-byte slices, in order |
| Aes.ScheduleLaterWords | crypto/aes.py:41-48 | for i >= 4, w[i] is w[i - 4] XOR temp; temp is SubWord(RotWord(w[i - 1])) with rcon[i / 4] in byte 0 when 4 divides i, and w[i - 1] otherwise |
| Aes.ScheduleStep | crypto/aes.py:48 | one iteration of the expansion loop extends the computed prefix of the schedule by its next word |
| Aes.KeyWords | crypto/aes.py:37-39 | the first loop leaves a 44-word list whose first four words are the schedule's |
| Aes.NextTemp | crypto/aes.py:42-47 | the branch computes the temp word of the schedule (the Nk > 6 branch is unreachable) |
| Aes.KeyExpansion | crypto/aes.py:20-49 | a key shorter than 16 bytes raises IndexError; otherwise the result is the 44-word schedule (the length checked at crypto/test_crypto.py:64) |
| Aes.LoadFlatten | crypto/aes.py:94 | flattening a state row by row and loading it again gives the state back |
| Aes.FlattenLoad | crypto/aes.py:63 | loading the input row by row and flattening gives back its first 16 bytes |
| Aes.AddRoundKey | crypto/aes.py:66-67 | add_round_key XORs state[i][j] with round_key[i][j] for every row and column; AddRoundKeyTwice states that it is its own inverse |
| Aes.SubBytes | crypto/aes.py:69-70 | sub_bytes replaces every byte b of the state by s_box[b]; InvSubBytesUndoesSubBytes states its inverse |
| Aes.ShiftRows | crypto/aes.py:72-73 | shift_rows keeps row 0 and rotates row i left by i; ShiftRowsInverse states its inverse |
| Aes.MixColumns | crypto/aes.py:75-83 | mix_columns applies mix_single_column; as written to the columns of zip(*state), returned as rows (MixColumnsAsWritten), or in place (MixColumnsInverse) |
| Aes.AddRoundKeyTwice | crypto/aes.py:66-67 | adding the same round key twice restores the state |
| Aes.InvSubBytesUndoesSubBytes | crypto/aes.py:114-115 | inv_sub_bytes undoes sub_bytes whenever inv_s_box inverts s_box |
| Aes.Fips197SBoxesInverse | crypto/aes.py:69-70 | the FIPS 197 tables meet that condition, in both directions |
| Aes.RotateLeftIsSliceRotation | crypto/aes.py:73 | rotating a row left by n is the slice rotation row[n:] + row[:n] |
| Aes.ShiftRowsInverse | crypto/aes.py:117-118 | inv_shift_rows undoes shift_rows and shift_rows undoes inv_shift_rows |
| Aes.MixColumnsAsWritten | crypto/aes.py:75-83 | as written, row k of mix_columns' result is the mixed column k of the state (the transposition) |
| Aes.MixColumnsInverse | crypto/aes.py:120-128 | with in-place mixing, inv_mix_columns undoes mix_columns on every state |
| Aes.AsWrittenMixIsNotUndone | crypto/aes.py:83 | as written, inv_mix_columns(mix_columns(S)) differs from S for a concrete S |
| Aes.InvRoundUndoesRound | crypto/aes.py:131-135 | one decryption round undoes one encryption round with the same round key |
| Aes.InvCipherUndoesCipher | crypto/aes.py:130-139 | the inverse cipher undoes the cipher for every state and schedule, given inverse S-boxes |
| Aes.RunRoundsUp | crypto/aes.py:86-90 | the encryption loop applies rounds 1 to 9 in order |
| Aes.RunRoundsDown | crypto/aes.py:131-135 | the decryption loop applies rounds 9 down to 1 |
| Aes.Cipher | crypto/aes.py:85-94 | encrypt's state sequence: add_round_key with words 0-3, rounds 1 to 9 of sub_bytes, shift_rows, mix_columns and add_round_key, then a final round without mix_columns; InvCipherUndoesCipher states its inverse |
| Aes.InvCipher | crypto/aes.py:130-139 | decrypt's state sequence: add_round_key with words 40-43, rounds 9 down to 1 of inv_shift_rows, inv_sub_bytes, add_round_key and inv_mix_columns, then the final round |
| Aes.Encrypt | crypto/aes.py:51-94 | IndexError for a key or plaintext shorter than 16 bytes; otherwise the flattened cipher of the loaded first 16 bytes |
| Aes.Decrypt | crypto/aes.py:96-139 | IndexError for a key or ciphertext shorter than 16 bytes; otherwise the flattened inverse cipher |
| Aes.EncryptDecryptRoundTrip | crypto/test_crypto.py:66-71 | with in-place mixing, decrypting the encryption gives back the 16 plaintext bytes, for any key and inverse S-boxes |
| Aes.Fips197RoundTrip | crypto/test_crypto.py:66-71 | the same round trip with the FIPS 197 tables |
| Pbkdf2.XorBytes | crypto/pbkdf2.py:40 | the zip-XOR is as long as the shorter input and holds the byte-wise XOR |
| Pbkdf2.XorBytesTwice | crypto/pbkdf2.py:40 | XORing the same bytes twice restores the accumulator |
| Pbkdf2.FBlock | crypto/pbkdf2.py:35-41 | F(P, S, c, i) is U_1 XOR ... XOR U_c with U_1 = HMAC(P, S + INT(i)) and U_k = HMAC(P, U_(k-1)); FBlockLength and FBlockBytes state its length and bytes, and the F method computes it |
| Pbkdf2.FBlockLength | crypto/pbkdf2.py:35-41 | every block F(P, S, c, i) is one digest long |
| Pbkdf2.FBlockBytes | crypto/pbkdf2.py:35-41 | byte j of F(P, S, c, i) is the XOR of byte j of U_1 to U_c (RFC 8018 section 5.2) |
| Pbkdf2.F | crypto/pbkdf2.py:35-41 | the loop computes F(P, S, c, i) |
| Pbkdf2.BlocksLength | crypto/pbkdf2.py:46 | the joined blocks 1 to n are n digests long |
| Pbkdf2.Blocks | crypto/pbkdf2.py:46 | the join of F(..., 1) to F(..., n) in order; BlocksLength, BlocksPrefix and BlocksBlock state its length, prefixes and blocks |
| Pbkdf2.BlocksPrefix | crypto/pbkdf2.py:46 | the first m blocks are a prefix of the first n for m <= n |
| Pbkdf2.BlocksBlock | crypto/pbkdf2.py:46 | block i (1-based) of the joined output is F(P, S, c, i) |
| Pbkdf2.Prefix | crypto/pbkdf2.py:47 | truncation keeps min(n, length) bytes, a prefix of the input |
| Pbkdf2.BlockCount | crypto/pbkdf2.py:43 | the ceiling division gives l with (l - 1) hLen < dkLen <= l hLen |
| Pbkdf2.BlockCountBound | crypto/pbkdf2.py:32-43 | after the overflow check, at most 2^32 - 1 blocks are needed, so every block index fits in 4 bytes |
| Pbkdf2.DerivedKeyLength | crypto/pbkdf2.py:43-47 | the derived key has exactly dkLen bytes |
| Pbkdf2.DerivedKey | crypto/pbkdf2.py:43-47 | the first dkLen bytes of the l = ceil(dkLen / hLen) joined blocks; DerivedKeyLength and DerivedKeyPrefix state its length and prefix property |
| Pbkdf2.DerivedKeyPrefix | crypto/pbkdf2.py:46-47 | the key for a shorter dkLen is a prefix of the key for a longer one |
| Pbkdf2.Pbkdf2Hmac | crypto/pbkdf2.py:4-47 | TypeError for non-bytes password or salt; ValueError for bad iterations, bad dklen or an unknown hash; OverflowError past (2^32 - 1) hLen; ZeroDivisionError for a zero digest size without dklen; otherwise exactly the derived key, with dklen defaulting to hLen |
| Blowfish.DecryptRoundsAreReversed | crypto/blowfish.py:80-87 | decrypt_block's rounds are encrypt_block's rounds with the P array reversed |
| Blowfish.DecipherIsEncipherReversed | crypto/blowfish.py:80-87 | decrypt_block is encrypt_block with P reversed: P[17] down to P[2] in the rounds, then P[1] and P[0] |
| Blowfish.EncryptStep | crypto/blowfish.py:61-63 | one encryption round XORs P[i] into L, F(L) into R, and swaps |
| Blowfish.Encipher | crypto/blowfish.py:49-67 | encrypt_block: sixteen rounds over P[0] to P[15], the last swap undone, then R ^= P[16] and L ^= P[17]; DecipherUndoesEncipher states its inverse |
| Blowfish.Decipher | crypto/blowfish.py:69-87 | decrypt_block: rounds over P[17] down to P[2], then R ^= P[1] and L ^= P[0]; DecipherIsEncipherReversed and EncipherUndoesDecipher relate it to Encipher |
| Blowfish.DecryptStep | crypto/blowfish.py:81-83 | one decryption round does the same with P[17 - j] |
| Blowfish.DecryptRoundsRetrace | crypto/blowfish.py:80-83 | after j decryption rounds on a ciphertext, the halves are those of the encryption after 16 - j rounds, unwhitened |
| Blowfish.DecipherUndoesEncipher | crypto/blowfish.py:60-87 | decrypt_block(encrypt_block(L, R)) = (L, R) for every P array and every round function |
| Blowfish.EncipherUndoesDecipher | crypto/blowfish.py:60-87 | encrypt_block(decrypt_block(L, R)) = (L, R) likewise |
| Blowfish.MixKey | crypto/blowfish.py:31-33 | P[i] becomes P[i] XOR the big-endian word of key[i mod len : i mod len + 4], for all 18 entries |
| Blowfish.PChain | crypto/blowfish.py:39-42 | after k pairs, the untouched entries of P are unchanged and P keeps 18 entries |
| Blowfish.ExpandedP | crypto/blowfish.py:31-42 | the P array after the first two loops of key_expansion, and the last block of its chain; the KeyExpansion method is proved to leave it |
| Blowfish.SEntryPair | crypto/blowfish.py:44-47 | S[i][2q] and S[i][2q + 1] are the two halves of the same chained encryption |
| Blowfish.SEntry | crypto/blowfish.py:44-47 | S[i][j] is half j mod 2 of encryption number 128 i + j / 2 + 1 of the chain continued from the last P block; the KeyExpansion, Encrypt and Decrypt methods are proved to leave it |
| Blowfish.Slice | crypto/blowfish.py:103-104 | the Python slice x[lo:hi]: x[lo..hi] when hi is within x, x[lo..] when only lo is, and empty when lo is past the end or hi < lo |
| Blowfish.BlockBytes | crypto/blowfish.py:106-107 | a block is written as 8 bytes |
| Blowfish.Chunks | crypto/blowfish.py:101-108 | the chunk loop: each 8-byte chunk read as two big-endian words, put through the block function and written back as 8 bytes; ChunksLength and ChunksRoundTrip state its length and round trip |
| Blowfish.ChunksLength | crypto/blowfish.py:101-108 | the output of the chunk loop has 8 ceil(len / 8) bytes |
| Blowfish.ChunkRoundTrip | crypto/blowfish.py:103-107 | an 8-byte chunk, encrypted, written out, read back and decrypted, is the chunk |
| Blowfish.ChunksRoundTrip | crypto/test_crypto.py:145-150 | with one fixed P array, the chunkwise decryption undoes the chunkwise encryption of 8-byte-aligned input |
| Blowfish.UnalignedDoesNotRoundTrip | crypto/test_crypto.py:145-150 | input whose length is not a multiple of 8 never comes back unchanged, whatever the block functions |
| Blowfish.Blowfish.constructor | crypto/blowfish.py:6-18 | P is 18 zero words and S is four rows of 256 zero words |
| Blowfish.Blowfish.EncryptBlock | crypto/blowfish.py:49-67 | the loop computes the 16-round Feistel encryption with the current P |
| Blowfish.Blowfish.DecryptBlock | crypto/blowfish.py:69-87 | the loop computes the decryption with the current P |
| Blowfish.Blowfish.KeyExpansion | crypto/blowfish.py:20-47 | an empty key raises ZeroDivisionError and changes nothing; otherwise P is the chained refill of the key-mixed old P, and every S entry is the chained encryption after it |
| Blowfish.Blowfish.MixKeyIntoP | crypto/blowfish.py:31-33 | the first loop XORs the key words into P in place |
| Blowfish.Blowfish.RefillP | crypto/blowfish.py:39-42 | the second loop overwrites P pairwise with encryptions chained from (0, 0) |
| Blowfish.Blowfish.StorePPair | crypto/blowfish.py:42 | stores one pair into P and changes nothing else |
| Blowfish.Blowfish.RefillS | crypto/blowfish.py:44-47 | the S loops fill all 4 x 256 entries with the continued chain |
| Blowfish.Blowfish.FillRow | crypto/blowfish.py:45-47 | one row of S is filled and the other rows are unchanged |
| Blowfish.Blowfish.RowFromPairs | crypto/blowfish.py:47 | a row filled pair by pair holds the chained entries |
| Blowfish.Blowfish.StorePair | crypto/blowfish.py:47 | stores one pair into S and changes nothing else |
| Blowfish.Blowfish.Encrypt | crypto/blowfish.py:89-108 | an empty key raises ZeroDivisionError and leaves P and S unchanged; otherwise the key expansion re-runs on the current P, leaving the expanded P and the chained S entries, and the result is the chunkwise encryption under the new P |
| Blowfish.Blowfish.Decrypt | crypto/blowfish.py:110-129 | an empty key raises ZeroDivisionError and leaves P and S unchanged; otherwise the key expansion re-runs, leaving the expanded P and the chained S entries, and the result is the chunkwise decryption under the new P |
| Blowfish.RunChunks | crypto/blowfish.py:101-108 | the chunk loop produces the concatenated encrypted chunks; each half of a short last chunk is read as the big-endian value of the bytes present |
| Blowfish.FreshObjectsRoundTrip | crypto/test_crypto.py:145-150 | encrypting with one fresh object and decrypting with another, with the same key, gives back 8-byte-aligned input |
| TripleDes.FloorMod | crypto/triple_des_impl.py:64 | Python's a % b: congruent to a modulo b, in [0, b) for a positive b and in (b, 0] for a negative one |
| TripleDes.PadBytes | crypto/triple_des_impl.py:65 | bytes([k] * k) has k bytes, each equal to k |
| TripleDes.Pad | crypto/triple_des_impl.py:62-66 | pad: ZeroDivisionError for block size 0, ValueError from bytes() for a count above 255, the data unchanged for a count of 0 or less, otherwise k bytes of value k appended; PadShape, PadLength and PadNegative state these |
| TripleDes.PadCount | crypto/triple_des_impl.py:64 | for a positive block size the padding length k is between 1 and the block size, and len + k is the next multiple of the block size |
| TripleDes.PadShape | crypto/triple_des_impl.py:62-66 | for a block size from 1 to 255, pad appends k bytes of value k to the data |
| TripleDes.PadLength | crypto/triple_des_impl.py:62-66 | the padded length is a multiple of the block size and exceeds the data length |
| TripleDes.PadNegative | crypto/triple_des_impl.py:64-66 | with a negative block size the padding count is not positive, so pad returns the data unchanged |
| TripleDes.UnpadPrefix | crypto/triple_des_impl.py:68-71 | unpad raises IndexError exactly on empty data, returns a prefix, and drops the last data[-1] bytes when that is less than the length |
| TripleDes.Unpad | crypto/triple_des_impl.py:68-71 | unpad: IndexError on empty data, otherwise data[:-data[-1]] with Python's slicing; UnpadPrefix and UnpadPad state it |
| TripleDes.UnpadPad | crypto/triple_des_impl.py:62-71 | unpad(pad(d, bs)) = d for 1 <= bs <= 255 |
| TripleDes.Chunk | crypto/triple_des_impl.py:34 | the slice x[i:i + bs] has bs bytes, or what is left, and holds those bytes |
| TripleDes.Blocks | crypto/triple_des_impl.py:33-36 | the block loop: each block_size slice put through the block function and concatenated in order; FirstBlock and BlocksRoundTrip state it, and RunBlocks computes it |
| TripleDes.FirstBlock | crypto/triple_des_impl.py:33-36 | the block loop handles the first block, then the rest in order |
| TripleDes.BlocksRoundTrip | crypto/triple_des_impl.py:55-58 | the decryption loop undoes the encryption loop on whole blocks, for length-preserving block functions that invert each other |
| TripleDes.TripleDesImpl.constructor | crypto/triple_des_impl.py:6-11 | key size 24, block size 8, 16 rounds, no subkeys |
| TripleDes.TripleDesImpl.RunBlocks | crypto/triple_des_impl.py:33-36 | the loop concatenates the encrypted block_size chunks in order |
| TripleDes.TripleDesImpl.Encrypt | crypto/triple_des_impl.py:17-38 | subkeys are set from the key first; a pad error propagates; otherwise the blocks of the padded data are encrypted in order (nothing for a negative block size) |
| TripleDes.TripleDesImpl.Decrypt | crypto/triple_des_impl.py:40-60 | subkeys set first; ValueError for block size 0, IndexError for a negative one; otherwise unpad of the decrypted blocks |
| TripleDes.EncryptDecryptRoundTrip | crypto/test_crypto.py:101-106 | decrypt(encrypt(p)) = p for block sizes 1 to 255, when decrypt_block inverts a length-preserving encrypt_block |
| Ecc.FindInverse | crypto/ecc.py:51 | the search finds an inverse of d modulo p in [z, p), or there is none there |
| Ecc.ModInverse | crypto/ecc.py:51 | pow(d, -1, p) is an inverse in [0, p), or ValueError when none exists |
| Ecc.InverseUnique | crypto/ecc.py:51 | an inverse modulo p in [0, p) is unique |
| Ecc.IsOnCurveIff | crypto/ecc.py:32 | is_on_curve holds iff p divides y^2 - (x^3 + a x + b) |
| Ecc.IsOnCurve | crypto/ecc.py:21-32 | is_on_curve compares y^2 mod p with (x^3 + a x + b) mod p; IsOnCurveIff states it as divisibility |
| Ecc.Slope | crypto/ecc.py:51 | the slope fails exactly when the denominator has no inverse |
| Ecc.SlopeSolves | crypto/ecc.py:51 | the slope m lies in [0, p) and m times the denominator is the numerator modulo p |
| Ecc.PointDoubling | crypto/ecc.py:56-70 | ValueError exactly when 2 y1 has no inverse modulo p; otherwise both coordinates lie in [0, p) |
| Ecc.PointAddition | crypto/ecc.py:34-54 | doubling for P = Q; (0, 0) for x1 = x2 and y1 = -y2; otherwise ValueError exactly when x2 - x1 has no inverse, and coordinates in [0, p) |
| Ecc.DoublingSlope | crypto/ecc.py:67-69 | the doubling slope solves m (2 y1) = 3 x1^2 + a modulo p, x3 = m^2 - 2 x1 and y3 = m (x1 - x3) - y1 modulo p |
| Ecc.AdditionSlope | crypto/ecc.py:51-53 | the chord slope solves m (x2 - x1) = y2 - y1 modulo p, x3 = m^2 - x1 - x2 and y3 = m (x1 - x3) - y1 modulo p |
| Ecc.ScalarMultiplication | crypto/ecc.py:72-89 | the loop computes double-and-add over the binary digits of k, from R = (0, 0) |
| Ecc.ScalarMult | crypto/ecc.py:83-89 | the double-and-add recursion: for odd k, R = point_addition(R, P); then P is doubled and k halved, the first ValueError ending it; ScalarZero, ScalarOne and ScalarMultReduced state it, and ScalarMultiplication computes it |
| Ecc.ScalarMultReduced | crypto/ecc.py:83-89 | every successful result has coordinates in [0, p) |
| Ecc.ScalarZero | crypto/ecc.py:83-84 | scalar_multiplication(0, P) = (0, 0) |
| Ecc.ScalarOne | crypto/ecc.py:83-88 | scalar_multiplication(1, P) is point_addition((0, 0), P) unless the doubling of P raises |
| Ecc.ScalarOneIsNotIdentity | crypto/ecc.py:47-54 | (0, 0) is not an identity: on y^2 = x^3 + x + 1 mod 5, 1 x (2, 1) is (2, 4) |
| Ecc.NegativeScalarNeverReachesZero | crypto/ecc.py:84-88 | for negative k, k >> 1 stays negative and never reaches 0, so the loop can only be left by a ValueError of a point operation |
| Search.First | group_theory/group_theory.py:26-29 | the search returns an element that passes, or None when none does |
| Search.FirstIsFirst | group_theory/group_theory.py:26-28 | the returned element is the first one in iteration order that passes |
| Search.All | group_theory/group_theory.py:57-60 | the early-return loop returns True iff every element passes |
| GroupTheory.Identity | group_theory/group_theory.py:19-29 | returns an element that is a two-sided identity for every element, or None when there is none |
| GroupTheory.IdentityUnique | group_theory/group_theory.py:26-29 | two identities among the elements are equal |
| GroupTheory.IdentityOrderFree | group_theory/group_theory.py:26-29 | identity() gives the same answer in every iteration order of the set |
| GroupTheory.IdentityIs | group_theory/group_theory.py:26-28 | any identity among the elements is what identity() returns |
| GroupTheory.Inverse | group_theory/group_theory.py:31-45 | returns e with op(x, e) = identity = op(e, x), or None when there is none or no identity |
| GroupTheory.InverseFound | group_theory/group_theory.py:42-44 | when an inverse exists, inverse() finds one |
| GroupTheory.IsGroupIff | group_theory/group_theory.py:47-60 | is_group holds iff some element is a two-sided identity and every element has a two-sided inverse for it |
| GroupTheory.IsGroup | group_theory/group_theory.py:47-60 | is_group: identity() is not None and inverse(a) is not None for every element; IsGroupIff states the mathematical definition it decides |
| GroupTheory.GroupHasInverses | group_theory/group_theory.py:54-60 | a group's every element has an inverse for its identity |
| GroupTheory.InversesMakeGroup | group_theory/group_theory.py:54-60 | an identity with inverses for all elements makes is_group true |
| GroupTheory.GroupNotEmpty | group_theory/group_theory.py:54-56 | a group has at least one element |
| GroupTheory.Z4Identity | group_theory/test_group_theory.py:10-11 | the identity of {0, 1, 2, 3} under + mod 4 is 0 |
| GroupTheory.Z4Inverses | group_theory/test_group_theory.py:13-16 | its inverses are 1 to 3, 2 to 2 and 3 to 1 |
| GroupTheory.Z4IsGroup | group_theory/test_group_theory.py:18-19 | it passes is_group |
| GroupTheory.Z4HasSubgroup | group_theory/test_group_theory.py:21-24 | {0, 2} under the same operation passes is_subgroup |
| GroupTheory.IsSubgroup | group_theory/group_theory.py:77-89 | is_subgroup: is_group holds and every element is an element of the parent; Z4HasSubgroup shows the tested case |
| RingTheory.IsRingIff | group_theory/ring_theory.py:18-34 | is_ring holds iff the additive structure is a group and both distributive laws hold for every triple |
| RingTheory.IsRing | group_theory/ring_theory.py:18-34 | is_ring with the addition the constructor was given: the group check, then both distributive laws for every triple; IsRingIff states the definition it decides |
| RingTheory.RingDistributes | group_theory/ring_theory.py:27-33 | in a ring every triple satisfies both laws |
| RingTheory.DistributiveGroupIsRing | group_theory/ring_theory.py:27-34 | a group whose triples all satisfy both laws passes is_ring |
| RingTheory.NotGroupNotRing | group_theory/ring_theory.py:25-26 | is_ring is false when the additive structure fails is_group |
| RingTheory.LeftViolationNotRing | group_theory/ring_theory.py:30-31 | one triple violating a (b + c) = a b + a c makes is_ring false |
| RingTheory.RightViolationNotRing | group_theory/ring_theory.py:32-33 | one triple violating (a + b) c = a c + b c makes is_ring false |
| RingTheory.IsRingAsWritten | group_theory/ring_theory.py:15-34 | as the class is written, is_ring returns False on a non-group and raises AttributeError on every group, never True |
| RingTheory.Z2IsGroup | group_theory/ring_theory.py:25-26 | {0, 1} under + mod 2 passes the group check |
| RingTheory.Z2Distributes | group_theory/ring_theory.py:27-33 | both laws hold for all eight triples of {0, 1} under + and * mod 2 |
| RingTheory.Z2RingRaisesAsWritten | group_theory/ring_theory.py:30 | Z2 is a ring, yet is_ring as written raises AttributeError on it |
| FieldTheory.MultiplicativeInverse | group_theory/field_theory.py:17-36 | ValueError for 0 and when no element works; otherwise an element e with x e = 1 = e x |
| FieldTheory.IsField | group_theory/field_theory.py:38-50 | False iff not a ring; True iff a ring whose nonzero elements all have inverses; otherwise ValueError, never False |
| FieldTheory.IsFieldIff | group_theory/field_theory.py:38-50 | is_field returns True iff the ring check passes and every nonzero element has a two-sided inverse |
| FieldTheory.FieldInvertible | group_theory/field_theory.py:47-50 | in a field every nonzero element is invertible |
| FieldTheory.InvertibleRingIsField | group_theory/field_theory.py:45-50 | a ring with all nonzero elements invertible passes is_field |
| GaloisField.Add | group_theory/galois_field.py:17-28 | ZeroDivisionError with no elements; otherwise addition(a, b) mod the element count, in [0, n) |
| GaloisField.Multiply | group_theory/galois_field.py:30-41 | ZeroDivisionError with no elements; otherwise multiplication(a, b) mod the element count, in [0, n) |
| GaloisField.AddKeepsReduced | group_theory/galois_field.py:28 | a sum already in [0, n) is returned unchanged |
| GaloisField.IsGaloisField | group_theory/galois_field.py:43-56 | an error of is_field propagates, its False gives False, and True is returned only for a field |
| GaloisField.IsGaloisFieldIff | group_theory/galois_field.py:52-56 | for a field, is_galois_field is true iff add and multiply stay in the elements for every pair |
| GaloisField.GaloisFieldClosed | group_theory/galois_field.py:52-56 | a Galois field is closed under add and multiply |
| GaloisField.ClosedFieldIsGalois | group_theory/galois_field.py:52-56 | a field closed under both passes is_galois_field |
| GaloisField.RangeIsClosed | group_theory/galois_field.py:52-56 | with elements 0 to n - 1 every reduced sum and product is an element |
| GaloisField.RangeGaloisFieldIsField | group_theory/galois_field.py:43-56 | with elements 0 to n - 1, is_galois_field gives what is_field gives |
| GaloisField.GaloisFieldNotEmpty | group_theory/galois_field.py:43-56 | a Galois field has an element |
| Relations.Inverse | relations/relations.py:60-63 | set_a and set_b swap, and (a, b) is a pair of the inverse iff (b, a) is a pair |
| Relations.InverseInvolution | relations/relations.py:60-63 | inverting twice gives back the relation |
| Relations.EqualsIff | relations/relations.py:18-31 | __eq__ holds iff the two relations are the same value |
| Relations.IsReflexive | relations/relations.py:33-35 | is_reflexive: (a, a) is a pair for every a of set_a; ReflexiveIffDiagonal and ReflexiveInverse state it |
| Relations.IsSymmetric | relations/relations.py:37-39 | is_symmetric: every pair appears reversed; SymmetricIffSelfInverse states it |
| Relations.IsTransitive | relations/relations.py:41-51 | is_transitive: the nested loop finds no (a, b), (b, d) without (a, d); TransitiveInverse and TransitiveExamples state it |
| Relations.IsAntiSymmetric | relations/relations.py:53-58 | is_anti_symmetric: no pair (a, b) with a != b whose reverse is a pair; AntiSymmetricIff states it |
| Relations.ReflexiveIffDiagonal | relations/relations.py:33-35 | is_reflexive holds iff the pairs contain (a, a) for every a of set_a |
| Relations.ReflexiveInverse | relations/relations.py:33-35 | on a relation from a set to itself, the inverse is reflexive iff the relation is |
| Relations.SymmetricIffSelfInverse | relations/relations.py:37-39 | is_symmetric holds iff the pairs equal inverse().pairs |
| Relations.TransitiveInverse | relations/relations.py:41-51 | a relation is transitive iff its inverse is |
| Relations.AntiSymmetricIff | relations/relations.py:53-58 | is_anti_symmetric holds iff the relation shares only pairs (a, a) with its inverse |
| Relations.TransitiveExamples | relations/test_relation.py:21-25 | {(1, 2), (2, 3)} is not transitive and adding (1, 3) makes it transitive |
| Relations.SymmetryExamples | relations/test_relation.py:11-30 | the reflexive, symmetric and anti-symmetric verdicts of the tests |
| Relations.InverseExample | relations/test_relation.py:32-35 | the inverse of {(1, 4), (2, 5), (3, 6)} equals {(4, 1), (5, 2), (6, 3)} with the sets swapped |
| Functions.Apply | functions/functions.py:19-33 | ValueError outside the domain, KeyError for a domain element missing from the mapping, otherwise mapping[x] |
| Functions.InjectiveValues | functions/functions.py:35-37 | a mapping without shared values has as many distinct values as entries |
| Functions.CollisionLosesValue | functions/functions.py:35-37 | two keys with one value leave fewer distinct values than entries |
| Functions.IsInjective | functions/functions.py:35-37 | is_injective compares the number of distinct values with the number of entries; InjectiveIff states that this means no two keys share a value |
| Functions.IsSurjective | functions/functions.py:39-41 | is_surjective: the codomain equals the set of values; SurjectiveIff states it |
| Functions.SurjectiveIff | functions/functions.py:39-41 | is_surjective holds iff every codomain element is the image of some key and every image is in the codomain |
| Functions.IsBijective | functions/functions.py:43-45 | is_bijective: is_injective and is_surjective; BijectiveIff states it |
| Functions.InjectiveIff | functions/functions.py:35-37 | is_injective (a count comparison) holds iff no two keys share a value |
| Functions.BijectiveIff | functions/functions.py:43-45 | is_bijective holds iff no two keys share a value and the values are exactly the codomain |
| Functions.Invert | functions/functions.py:59 | the turned-around mapping has the values as keys and maps each value back to its key |
| Functions.Inverse | functions/functions.py:47-60 | ValueError iff not bijective; otherwise domain and codomain swap and each value maps back to its key |
| Functions.InverseUndoesApply | functions/test_function.py:34-37 | the inverse applied to apply(x) gives x |
| Functions.ApplyUndoesInverse | functions/functions.py:59-60 | whatever the inverse maps y to, the function maps back to y |
| Functions.InverseIsInjective | functions/functions.py:59-60 | the inverse of a bijection is injective |
| Functions.BijectionExample | functions/test_function.py:12-37 | {1: 4, 2: 5, 3: 6} applies as the test expects, rejects 4, is bijective and inverts to {4: 1, 5: 2, 6: 3} |
| Functions.NonBijectionExample | functions/test_function.py:39-41 | {1: 4, 2: 4, 3: 5} is not injective and its inverse raises ValueError |
| Sets.Subsets | sets/sets.py:65-69 | the power set holds exactly the subsets of the set |
| Sets.SubsetsCount | sets/sets.py:65-69 | a set of n elements has 2^n subsets |
| Sets.Set.constructor | sets/sets.py:2-6 | the set holds the given elements |
| Sets.Set.Empty | sets/sets.py:87-89 | EmptySet holds no elements |
| Sets.Set.Add | sets/sets.py:14-15 | the element is added and nothing else changes |
| Sets.Set.Remove | sets/sets.py:17-21 | a present element is removed; an absent one raises ValueError and leaves the set unchanged |
| Sets.Set.Union | sets/sets.py:23-27 | a new Set holding A ∪ B |
| Sets.Set.Intersection | sets/sets.py:29-33 | a new Set holding A ∩ B |
| Sets.Set.Difference | sets/sets.py:35-39 | a new Set holding A − B |
| Sets.Set.Complement | sets/sets.py:59-63 | a new Set holding U − A |
| Sets.Set.IsSubset | sets/sets.py:41-45 | true iff every element of A is in B |
| Sets.Set.IsProperSubset | sets/sets.py:47-51 | true iff A ⊆ B and not B ⊆ A |
| Sets.Set.IsEqual | sets/sets.py:53-57 | true iff A ⊆ B and B ⊆ A |
| Sets.Set.PowerSet | sets/sets.py:65-69 | a new Set of all subsets, as many as 2 to the power of the element count |
| BaseSets.BaseSet.constructor | sets/base_set.py:2-5 | the set holds the given elements |
| BaseSets.BaseSet.Add | sets/base_set.py:10-11 | the element is added and nothing else changes |
| BaseSets.BaseSet.Remove | sets/base_set.py:13-14 | discard: the element is removed when present, and nothing changes when absent |
| BaseSets.BaseSet.Union | sets/base_set.py:16-17 | a new BaseSet holding A ∪ B |
| BaseSets.BaseSet.Intersection | sets/base_set.py:19-20 | a new BaseSet holding A ∩ B |
| BaseSets.BaseSet.Difference | sets/base_set.py:22-23 | a new BaseSet holding A − B |
| BaseSets.BaseSet.Complement | sets/base_set.py:25-26 | a new BaseSet holding U − A |
| BaseSets.BaseSet.IsSubset | sets/base_set.py:28-29 | true iff every element of A is in B |
| BaseSets.BaseSet.IsProperSubset | sets/base_set.py:31-32 | true iff A ⊆ B and the element sets differ, which is A ⊆ B and not B ⊆ A |
| BaseSets.BaseSet.PowerSet | sets/base_set.py:34-38 | a new BaseSet of all subsets, as many as 2 to the power of the element count |

## Left out

- I/O, randomness and foreign code: `os.urandom` key generation, `random` and the base point in ECC `generate_keys`/`encrypt`/`decrypt`, and `hashlib.new`/`hmac.new`. HMAC becomes an abstract function with a fixed digest size; an unknown hash name is the `None` hash argument.
- Pbkdf2.Pbkdf2Hmac: Python's dynamic types are reduced to four kinds of argument (bytes, int, None, other); `bool` counting as `int` is not distinguished.
- Aes: the S-box, inverse S-box, round constants and `galois_mult` are not defined in the source and are taken from FIPS 197. The tables are a parameter, so the round trip is proved for any pair of inverse S-boxes.
- Aes: the ValueError cases that the tests expect for string arguments are not modelled; the code never raises ValueError, and a list of bytes is the only input type modelled. The FIPS 197 appendix B vector does not apply, because the state is loaded row by row.
- Aes.EncryptDecryptRoundTrip: proved for the corrected in-place mixing. For the code's transposing mixing only the single step is shown to fail: inv_mix_columns does not undo mix_columns (see Findings). No lemma exhibits a block and key on which the whole as-written cipher fails the round trip.
- Blowfish: `encrypt_block` calls `self.F`, which the class never defines (its F is a local of `key_expansion`), so the round function is a parameter of the object. The S boxes are filled as written but are not read by that abstract round function.
- Blowfish.Blowfish.Encrypt: each call re-runs the key expansion on the current P, as written; a decryption on the same object therefore uses a different schedule. The round trip is stated for two fresh objects (FreshObjectsRoundTrip).
- Blowfish: the GaloisField base class's elements and operations are unused by the cipher and not modelled.
- TripleDes: `generate_subkeys`, `encrypt_block` and `decrypt_block` are stubs in the source and are parameters of the object; UTF-8 encoding and decoding of the text is left out (the model works on bytes).
- TripleDes.EncryptDecryptRoundTrip: needs a length-preserving encrypt_block that decrypt_block inverts, which the stubs do not provide.
- Ecc: the modulus `self.p` is read but never assigned in the source, so it is a curve parameter, taken positive. The curve parameters a and b only enter `is_on_curve` and doubling, as in the source.
- Ecc.ScalarMultiplication: requires k >= 0. For negative k, k never reaches 0 (NegativeScalarNeverReachesZero), so the method never returns normally: it either loops forever or raises ValueError (for example k = -1, P = (1, 0), p = 5, where doubling P calls pow(0, -1, 5)). A terminating method cannot model the endless case.
- Group elements are kept as a sequence in the set's iteration order, so the first-found searches are modelled exactly; IdentityOrderFree shows that the identity does not depend on that order.
- GaloisField.Add: reads the addition as the one the constructor was given; as written, `self.addition` is never stored, so add raises AttributeError just as is_ring does (see Findings).
- FieldTheory.IsField: the `is None` test never fires, because multiplicative_inverse raises instead of returning None; over the corrected is_ring, the model raises ValueError there, as the code would.
- FieldTheory.IsField and GaloisField.IsGaloisField: modelled over the corrected is_ring (RingTheory.IsRing). As written, is_ring raises AttributeError on every additive group (see Findings), so the code's is_field and is_galois_field raise AttributeError before they reach the inverse check, the ValueError path or the closure check.
- Relations: the Python class accepts any hashable values; here both sides share one element type.
- `InfiniteSet`, `FiniteSet` and `UniversalSet` add nothing the model needs (InfiniteSet wraps a Python generator); `Symbol`, `__str__`/`__repr__`, and the printing at module level are formatting only.
- The `TypeError` branches of the Set methods for a non-Set argument are ruled out by Dafny's typing.
- Sets.Set.PowerSet: the power set is built as a set of sets; the order in which itertools lists the combinations is not modelled.

## Findings

| source | as written | input that shows it | evidently intended | confidence | as-written member | corrected member |
|---|---|---|---|---|---|---|
| crypto/aes.py:83 | mix_columns and inv_mix_columns mix the columns of the row-loaded state and return each mixed column as a row, so inv_mix_columns(mix_columns(S)) is not S | the state whose row 0 is (1, 0, 0, 0) and whose other rows are zero: after both steps row 0 begins with 28, not 1 | each 4-byte group mixed where it stands, so that decrypt undoes encrypt as the test at crypto/test_crypto.py:66-71 asserts | high; not executed | Aes.AsWrittenMixIsNotUndone | Aes.EncryptDecryptRoundTrip |
| group_theory/ring_theory.py:15 | the constructor passes `addition` to Group as `operation` and never stores `self.addition`, which is_ring reads at line 30 | Z2, the integers modulo 2 under + and * mod 2: is_ring raises AttributeError instead of returning True | `self.addition = addition`, so that the laws are checked with the ring's addition | high; not executed | RingTheory.Z2RingRaisesAsWritten | RingTheory.IsRingIff |
