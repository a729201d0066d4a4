/**
 * AES-128 as crypto/aes.py writes it: the key schedule of FIPS 197 section 5.2 and the cipher
 * and inverse cipher of sections 5.1 and 5.3.
 *
 * The code keeps the state as a list of four rows of four bytes and loads its input four
 * consecutive bytes per row, so a row of the code's state holds what FIPS 197 calls a column.
 * Here a row is a Word and the state is four Words, r0 to r3, in the code's order. The code's
 * mix_columns and inv_mix_columns read the columns of that state and return each mixed column as
 * a row. MixLayout names the two ways of mixing that matter: AsWritten is the code's; InPlace
 * mixes every row where it stands, which in this layout is the mixing FIPS 197 intends. Every step
 * is modelled as written; the round trip is proved for InPlace, and a lemma shows that the
 * AsWritten inverse mixing does not undo the AsWritten mixing.
 */
module Aes {
  import opened Wrappers
  import opened AesField
  import opened AesTables

  /** Number of columns of the state, words of the key, and rounds of AES-128. */
  const Nb: nat := 4
  const Nk: nat := 4
  const Nr: nat := 10

  /** The substitution tables the code reads from its object without defining them: the S-box and
      its inverse. Fips197 supplies those of FIPS 197 (sections 5.1.1 and 5.3.2). */
  datatype Tables = Tables(sBox: bv8 -> bv8, invSBox: bv8 -> bv8)

  const Fips197: Tables := Tables(SBox, InvSBox)

  /** The state as the code holds it: row i holds input bytes 4i to 4i + 3. */
  datatype State = State(r0: Word, r1: Word, r2: Word, r3: Word)

  function WordBytes(w: Word): (s: seq<bv8>)
    ensures |s| == 4
  {
    [w.b0, w.b1, w.b2, w.b3]
  }

  /** The word made of bytes k to k + 3 of a list: the slice data[k:k + 4] when it is full. */
  function WordAt(data: seq<bv8>, k: nat): (w: Word)
    requires k + 4 <= |data|
    ensures WordBytes(w) == data[k .. k + 4]
  {
    Word(data[k], data[k + 1], data[k + 2], data[k + 3])
  }

  // ---------------------------------------------------------------- key expansion

  /** rot_word: the word rotated one byte to the left. */
  function RotWord(w: Word): Word
  {
    Word(w.b1, w.b2, w.b3, w.b0)
  }

  /** sub_word: the S-box applied to each byte of a word. */
  function SubWord(t: Tables, w: Word): Word
  {
    Word(t.sBox(w.b0), t.sBox(w.b1), t.sBox(w.b2), t.sBox(w.b3))
  }

  /** Byte-wise XOR of two words. */
  function XorWords(a: Word, b: Word): Word
  {
    Word(a.b0 ^ b.b0, a.b1 ^ b.b1, a.b2 ^ b.b2, a.b3 ^ b.b3)
  }

  /** The word temp that the schedule combines into word i: the previous word, and at every Nk-th
      word that word rotated, substituted and with the round constant added to its first byte. The
      code's branch for Nk > 6 cannot be taken with Nk = 4. */
  function KeyTemp(t: Tables, prev: Word, i: nat): Word
    requires Nk <= i < 44
  {
    if i % Nk == 0 then
      var temp := SubWord(t, RotWord(prev));
      temp.(b0 := temp.b0 ^ Rcon(i / Nk))
    else
      prev
  }

  /** The first n words of the key schedule of a key of at least 16 bytes. */
  function Schedule(t: Tables, key: seq<bv8>, n: nat): (w: seq<Word>)
    requires |key| >= 16 && Nk <= n <= 44
    ensures |w| == n
    decreases n
  {
    if n == Nk then
      [WordAt(key, 0), WordAt(key, 4), WordAt(key, 8), WordAt(key, 12)]
    else
      var w := Schedule(t, key, n - 1);
      w + [XorWords(w[n - 1 - Nk], KeyTemp(t, w[n - 2], n - 1))]
  }

  /** A longer schedule extends a shorter one. */
  lemma {:induction false} ScheduleExtends(t: Tables, key: seq<bv8>, m: nat, n: nat)
    requires |key| >= 16 && Nk <= m <= n <= 44
    ensures Schedule(t, key, n)[..m] == Schedule(t, key, m)
    decreases n
  {
    if m < n {
      ScheduleExtends(t, key, m, n - 1);
      assert Schedule(t, key, n)[..n - 1] == Schedule(t, key, n - 1);
    }
  }

  /** The first Nk words of every schedule are the key's consecutive four-byte slices. */
  lemma {:induction false} ScheduleKeyWords(t: Tables, key: seq<bv8>, n: nat, i: nat)
    requires |key| >= 16 && Nk <= n <= 44 && i < Nk
    ensures WordBytes(Schedule(t, key, n)[i]) == key[4 * i .. 4 * i + 4]
    decreases n
  {
    if n > Nk {
      ScheduleKeyWords(t, key, n - 1, i);
      assert Schedule(t, key, n)[i] == Schedule(t, key, n - 1)[i];
    }
  }

  /** Every later word i of the full schedule is word i - Nk XORed with the KeyTemp of word
      i - 1. */
  lemma ScheduleLaterWords(t: Tables, key: seq<bv8>, i: nat)
    requires |key| >= 16 && Nk <= i < 44
    ensures var w := Schedule(t, key, 44);
      w[i] == XorWords(w[i - Nk], KeyTemp(t, w[i - 1], i))
  {
    ScheduleExtends(t, key, i + 1, 44);
    var full := Schedule(t, key, 44);
    var part := Schedule(t, key, i + 1);
    assert full[i] == part[i];
    assert full[i - Nk] == part[i - Nk];
    assert full[i - 1] == part[i - 1];
  }

  /** One iteration of key_expansion's second loop extends the schedule by one word. */
  lemma ScheduleStep(t: Tables, key: seq<bv8>, w: seq<Word>, i: nat)
    requires |key| >= 16 && |w| == 44 && Nk <= i < 44
    requires w[..i] == Schedule(t, key, i)
    ensures w[i := XorWords(w[i - Nk], KeyTemp(t, w[i - 1], i))][..i + 1] == Schedule(t, key, i + 1)
  {
    var done := Schedule(t, key, i);
    assert w[i - Nk] == done[i - Nk] && w[i - 1] == done[i - 1];
    assert w[i := XorWords(w[i - Nk], KeyTemp(t, w[i - 1], i))][..i + 1] == done + [XorWords(done[i - Nk], KeyTemp(t, done[i - 1], i))];
  }

  /** key_expansion: fills the 44-word list w, first with the key's slices, then word by word.
      A key shorter than 16 bytes leaves a short or empty word among the first four, and the
      indexing at crypto/aes.py:45 or :48 raises IndexError; key bytes beyond the 16th are not
      read. */
  method KeyExpansion(t: Tables, key: seq<bv8>) returns (r: Result<seq<Word>>)
    ensures |key| < 16 ==> r == Err(IndexError)
    ensures |key| >= 16 ==> r == Ok(Schedule(t, key, 44))
  {
    if |key| < 16 {
      return Err(IndexError);
    }
    var w := KeyWords(t, key);
    for i := Nk to 44
      invariant |w| == 44
      invariant w[..i] == Schedule(t, key, i)
    {
      var temp := NextTemp(t, w[i - 1], i);
      ScheduleStep(t, key, w, i);
      w := w[i := XorWords(w[i - Nk], temp)];
    }
    assert w == w[..44];
    return Ok(w);
  }

  /** The first loop of key_expansion: the 44-word list with the key's four words at its head. */
  method KeyWords(t: Tables, key: seq<bv8>) returns (w: seq<Word>)
    requires |key| >= 16
    ensures |w| == 44 && w[..Nk] == Schedule(t, key, Nk)
  {
    w := seq(44, _ => Word(0, 0, 0, 0));
    for i := 0 to Nk
      invariant |w| == 44
      invariant forall k :: 0 <= k < i ==> w[k] == WordAt(key, 4 * k)
    {
      w := w[i := WordAt(key, 4 * i)];
    }
    assert w[..Nk] == Schedule(t, key, Nk);
  }

  /** The body of the second loop of key_expansion up to the XOR: temp, rotated, substituted and
      given the round constant at every Nk-th word. */
  method NextTemp(t: Tables, prev: Word, i: nat) returns (temp: Word)
    requires Nk <= i < 44
    ensures temp == KeyTemp(t, prev, i)
  {
    temp := prev;
    if i % Nk == 0 {
      temp := SubWord(t, RotWord(temp));
      temp := temp.(b0 := temp.b0 ^ Rcon(i / Nk));
    }
  }

  /** The round key of a round: words Nb * round to Nb * round + 3 of the schedule. */
  function RoundKey(w: seq<Word>, round: nat): State
    requires |w| == 44 && round <= Nr
  {
    State(w[4 * round], w[4 * round + 1], w[4 * round + 2], w[4 * round + 3])
  }

  // ---------------------------------------------------------------- state load and store

  /** The state crypto/aes.py:63 loads from a list of at least 16 bytes; add_round_key then reads
      only its first four rows of four bytes. */
  function Load(data: seq<bv8>): State
    requires |data| >= 16
  {
    State(WordAt(data, 0), WordAt(data, 4), WordAt(data, 8), WordAt(data, 12))
  }

  /** The output list: the rows of the state, one after the other. */
  function Flatten(s: State): (out: seq<bv8>)
    ensures |out| == 16
  {
    WordBytes(s.r0) + WordBytes(s.r1) + WordBytes(s.r2) + WordBytes(s.r3)
  }

  /** Loading undoes storing. */
  lemma LoadFlatten(s: State)
    ensures Load(Flatten(s)) == s
  { }

  /** Storing a loaded state gives back the first 16 bytes it was loaded from. */
  lemma FlattenLoad(data: seq<bv8>)
    requires |data| >= 16
    ensures Flatten(Load(data)) == data[..16]
  {
    var out := Flatten(Load(data));
    assert out == data[0..4] + data[4..8] + data[8..12] + data[12..16];
  }

  // ---------------------------------------------------------------- round steps

  /** add_round_key: byte-wise XOR of the state with the round key. */
  function AddRoundKey(s: State, k: State): State
  {
    State(XorWords(s.r0, k.r0), XorWords(s.r1, k.r1), XorWords(s.r2, k.r2), XorWords(s.r3, k.r3))
  }

  lemma XorWordsTwice(a: Word, k: Word)
    ensures XorWords(XorWords(a, k), k) == a
  {
    assert (a.b0 ^ k.b0) ^ k.b0 == a.b0;
    assert (a.b1 ^ k.b1) ^ k.b1 == a.b1;
    assert (a.b2 ^ k.b2) ^ k.b2 == a.b2;
    assert (a.b3 ^ k.b3) ^ k.b3 == a.b3;
  }

  /** Adding the same round key twice gives back the state. */
  lemma AddRoundKeyTwice(s: State, k: State)
    ensures AddRoundKey(AddRoundKey(s, k), k) == s
  {
    XorWordsTwice(s.r0, k.r0);
    XorWordsTwice(s.r1, k.r1);
    XorWordsTwice(s.r2, k.r2);
    XorWordsTwice(s.r3, k.r3);
  }

  /** sub_bytes: the S-box applied to every byte of the state. */
  function SubBytes(t: Tables, s: State): State
  {
    State(SubWord(t, s.r0), SubWord(t, s.r1), SubWord(t, s.r2), SubWord(t, s.r3))
  }

  function InvSubWord(t: Tables, w: Word): Word
  {
    Word(t.invSBox(w.b0), t.invSBox(w.b1), t.invSBox(w.b2), t.invSBox(w.b3))
  }

  /** inv_sub_bytes: the inverse S-box applied to every byte of the state. */
  function InvSubBytes(t: Tables, s: State): State
  {
    State(InvSubWord(t, s.r0), InvSubWord(t, s.r1), InvSubWord(t, s.r2), InvSubWord(t, s.r3))
  }

  /** The inverse S-box undoes the S-box. */
  ghost predicate SBoxesInverse(t: Tables)
  {
    forall b: bv8 :: t.invSBox(t.sBox(b)) == b
  }

  /** inv_sub_bytes undoes sub_bytes whenever the inverse S-box undoes the S-box. */
  lemma InvSubBytesUndoesSubBytes(t: Tables, s: State)
    requires SBoxesInverse(t)
    ensures InvSubBytes(t, SubBytes(t, s)) == s
  { }

  /** The inverse S-box of FIPS 197 undoes its S-box, and the other way round. */
  lemma Fips197SBoxesInverse()
    ensures SBoxesInverse(Fips197)
    ensures forall b: bv8 :: SBox(InvSBox(b)) == b
  {
    forall b: bv8
      ensures Fips197.invSBox(Fips197.sBox(b)) == b && SBox(InvSBox(b)) == b
    {
      InvSBoxUndoesSBox(b);
      SBoxUndoesInvSBox(b);
    }
  }

  /** The word rotated left by n bytes. */
  function RotateLeft(w: Word, n: nat): Word
    requires n < 4
  {
    if n == 0 then w
    else if n == 1 then Word(w.b1, w.b2, w.b3, w.b0)
    else if n == 2 then Word(w.b2, w.b3, w.b0, w.b1)
    else Word(w.b3, w.b0, w.b1, w.b2)
  }

  /** RotateLeft is the list rotation w[n:] + w[:n] of shift_rows; for a four-byte row the
      rotation w[-n:] + w[:-n] of inv_shift_rows is w[4 - n:] + w[:4 - n], RotateLeft by 4 - n. */
  lemma RotateLeftIsSliceRotation(w: Word, n: nat)
    requires 0 < n < 4
    ensures WordBytes(RotateLeft(w, n)) == WordBytes(w)[n..] + WordBytes(w)[..n]
  {
    var b := WordBytes(w);
    if n == 1 {
      assert b[1..] + b[..1] == [w.b1, w.b2, w.b3, w.b0];
    } else if n == 2 {
      assert b[2..] + b[..2] == [w.b2, w.b3, w.b0, w.b1];
    } else {
      assert b[3..] + b[..3] == [w.b3, w.b0, w.b1, w.b2];
    }
  }

  /** shift_rows: row 0 is kept and row i is rotated left by i. */
  function ShiftRows(s: State): State
  {
    State(s.r0, RotateLeft(s.r1, 1), RotateLeft(s.r2, 2), RotateLeft(s.r3, 3))
  }

  /** inv_shift_rows: row i is rotated right by i, that is w[-i:] + w[:-i], which for a four-byte
      row is a rotation left by 4 - i. */
  function InvShiftRows(s: State): State
  {
    State(s.r0, RotateLeft(s.r1, 3), RotateLeft(s.r2, 2), RotateLeft(s.r3, 1))
  }

  /** inv_shift_rows undoes shift_rows, and shift_rows undoes inv_shift_rows. */
  lemma ShiftRowsInverse(s: State)
    ensures InvShiftRows(ShiftRows(s)) == s
    ensures ShiftRows(InvShiftRows(s)) == s
  { }

  /** How mix_columns and inv_mix_columns lay out their result: AsWritten mixes the columns of
      the state and returns mixed column j as row j (crypto/aes.py:83, 128); InPlace mixes each
      row of the state and leaves it where it is. */
  datatype MixLayout = AsWritten | InPlace

  /** The state with rows and columns exchanged: zip(*state). */
  function Transpose(s: State): State
  {
    State(Word(s.r0.b0, s.r1.b0, s.r2.b0, s.r3.b0),
          Word(s.r0.b1, s.r1.b1, s.r2.b1, s.r3.b1),
          Word(s.r0.b2, s.r1.b2, s.r2.b2, s.r3.b2),
          Word(s.r0.b3, s.r1.b3, s.r2.b3, s.r3.b3))
  }

  /** The rows the mixing works on: the columns as written, the rows themselves in place. */
  function Arrange(s: State, layout: MixLayout): State
  {
    if layout == AsWritten then Transpose(s) else s
  }

  /** Each row mixed where it stands. */
  function MixRows(s: State): State
  {
    State(MixSingleColumn(s.r0), MixSingleColumn(s.r1), MixSingleColumn(s.r2), MixSingleColumn(s.r3))
  }

  function InvMixRows(s: State): State
  {
    State(InvMixSingleColumn(s.r0), InvMixSingleColumn(s.r1), InvMixSingleColumn(s.r2), InvMixSingleColumn(s.r3))
  }

  /** mix_columns, in either layout: as written it mixes the columns and returns them as rows. */
  function MixColumns(s: State, layout: MixLayout): State
  {
    MixRows(Arrange(s, layout))
  }

  /** inv_mix_columns, in either layout. */
  function InvMixColumns(s: State, layout: MixLayout): State
  {
    InvMixRows(Arrange(s, layout))
  }

  /** As written, row j of mix_columns' result is column j of the state, mixed. */
  lemma MixColumnsAsWritten(s: State)
    ensures MixColumns(s, AsWritten).r0 == MixSingleColumn(Word(s.r0.b0, s.r1.b0, s.r2.b0, s.r3.b0))
    ensures MixColumns(s, AsWritten).r1 == MixSingleColumn(Word(s.r0.b1, s.r1.b1, s.r2.b1, s.r3.b1))
    ensures MixColumns(s, AsWritten).r2 == MixSingleColumn(Word(s.r0.b2, s.r1.b2, s.r2.b2, s.r3.b2))
    ensures MixColumns(s, AsWritten).r3 == MixSingleColumn(Word(s.r0.b3, s.r1.b3, s.r2.b3, s.r3.b3))
    ensures InvMixColumns(s, AsWritten).r0 == InvMixSingleColumn(Word(s.r0.b0, s.r1.b0, s.r2.b0, s.r3.b0))
  { }

  /** Mixing every row in place is undone by inverse-mixing every row in place. */
  lemma MixColumnsInverse(s: State)
    ensures InvMixColumns(MixColumns(s, InPlace), InPlace) == s
  {
    var m := MixColumns(s, InPlace);
    assert m == MixRows(s);
    InvMixUndoesMix(s.r0);
    InvMixUndoesMix(s.r1);
    InvMixUndoesMix(s.r2);
    InvMixUndoesMix(s.r3);
    assert InvMixColumns(m, InPlace) == InvMixRows(m);
  }

  /** A state with a single byte 1, in row 0 and column 0. */
  const UnitState: State := State(Word(1, 0, 0, 0), Word(0, 0, 0, 0), Word(0, 0, 0, 0), Word(0, 0, 0, 0))

  /** As written, inv_mix_columns does not undo mix_columns: on UnitState, mix_columns yields the
      row [2, 1, 1, 3], and inv_mix_columns turns that into a state whose first byte is
      GaloisMult(2, 14) = 28, not 1. */
  lemma AsWrittenMixIsNotUndone()
    ensures MixColumns(UnitState, AsWritten).r0 == Word(2, 1, 1, 3)
    ensures InvMixColumns(MixColumns(UnitState, AsWritten), AsWritten).r0.b0 == 28
    ensures InvMixColumns(MixColumns(UnitState, AsWritten), AsWritten) != UnitState
  {
    assert MixSingleColumn(Word(1, 0, 0, 0)) == Word(2, 1, 1, 3);
    assert MixSingleColumn(Word(0, 0, 0, 0)) == Word(0, 0, 0, 0);
    var m := MixColumns(UnitState, AsWritten);
    assert m.r0 == Word(2, 1, 1, 3);
    assert Transpose(m).r0 == Word(2, 0, 0, 0);
    MultBy9(0);
    MultBy11(0);
    MultBy13(0);
    assert GaloisMult(2, 14) == 28;
  }

  // ---------------------------------------------------------------- cipher and inverse cipher

  /** One full round of encrypt: sub_bytes, shift_rows, mix_columns, add_round_key. */
  function Round(t: Tables, s: State, k: State, layout: MixLayout): State
  {
    AddRoundKey(MixColumns(ShiftRows(SubBytes(t, s)), layout), k)
  }

  /** One iteration of decrypt's loop: inv_shift_rows, inv_sub_bytes, add_round_key,
      inv_mix_columns. */
  function InvRound(t: Tables, s: State, k: State, layout: MixLayout): State
  {
    InvMixColumns(AddRoundKey(InvSubBytes(t, InvShiftRows(s)), k), layout)
  }

  /** With mixing in place, an iteration of decrypt's loop undoes a full round of encrypt up to
      its first two steps: applied to the round's result, substituted and shifted, with the same
      round key, it gives back the round's input, substituted and shifted. */
  lemma InvRoundUndoesRound(t: Tables, s: State, k: State)
    requires SBoxesInverse(t)
    ensures InvRound(t, ShiftRows(SubBytes(t, Round(t, s, k, InPlace))), k, InPlace)
         == ShiftRows(SubBytes(t, s))
  {
    var r := Round(t, s, k, InPlace);
    ShiftRowsInverse(SubBytes(t, r));
    InvSubBytesUndoesSubBytes(t, r);
    AddRoundKeyTwice(MixColumns(ShiftRows(SubBytes(t, s)), InPlace), k);
    MixColumnsInverse(ShiftRows(SubBytes(t, s)));
  }

  /** Round and InvRound as values, with the tables and the layout fixed. */
  function RoundStep(t: Tables, layout: MixLayout): (State, State) -> State
  {
    (s, k) => Round(t, s, k, layout)
  }

  function InvRoundStep(t: Tables, layout: MixLayout): (State, State) -> State
  {
    (s, k) => InvRound(t, s, k, layout)
  }

  /** The state after `step` has been applied to s with round keys 1, 2, ..., rounds in turn. */
  function RoundsUp(step: (State, State) -> State, s: State, w: seq<Word>, rounds: nat): State
    requires |w| == 44 && rounds < Nr
  {
    if rounds == 0 then s else step(RoundsUp(step, s, w, rounds - 1), RoundKey(w, rounds))
  }

  /** The state after `step` has been applied to s with round keys Nr - 1, Nr - 2, ..., round in
      turn. */
  function RoundsDown(step: (State, State) -> State, s: State, w: seq<Word>, round: nat): State
    requires |w| == 44 && 1 <= round <= Nr
    decreases Nr - round
  {
    if round == Nr then s else step(RoundsDown(step, s, w, round + 1), RoundKey(w, round))
  }

  /** The state of encrypt after the initial add_round_key and `rounds` full rounds. */
  function CipherRounds(t: Tables, p: State, w: seq<Word>, layout: MixLayout, rounds: nat): State
    requires |w| == 44 && rounds < Nr
  {
    RoundsUp(RoundStep(t, layout), AddRoundKey(p, RoundKey(w, 0)), w, rounds)
  }

  /** encrypt's final state: the Nr - 1 full rounds, then a round without mix_columns. */
  function Cipher(t: Tables, p: State, w: seq<Word>, layout: MixLayout): State
    requires |w| == 44
  {
    AddRoundKey(ShiftRows(SubBytes(t, CipherRounds(t, p, w, layout, Nr - 1))), RoundKey(w, Nr))
  }

  /** The state of decrypt after its first add_round_key and the loop iterations for rounds Nr - 1
      down to `round`. */
  function InvCipherRounds(t: Tables, c: State, w: seq<Word>, layout: MixLayout, round: nat): State
    requires |w| == 44 && 1 <= round <= Nr
  {
    RoundsDown(InvRoundStep(t, layout), AddRoundKey(c, RoundKey(w, Nr)), w, round)
  }

  /** decrypt's final state. */
  function InvCipher(t: Tables, c: State, w: seq<Word>, layout: MixLayout): State
    requires |w| == 44
  {
    AddRoundKey(InvSubBytes(t, InvShiftRows(InvCipherRounds(t, c, w, layout, 1))), RoundKey(w, 0))
  }

  /** Decrypt's first add_round_key undoes encrypt's last one. */
  lemma InvCipherRoundsStart(t: Tables, p: State, w: seq<Word>)
    requires |w| == 44
    ensures InvCipherRounds(t, Cipher(t, p, w, InPlace), w, InPlace, Nr)
         == ShiftRows(SubBytes(t, CipherRounds(t, p, w, InPlace, Nr - 1)))
  {
    AddRoundKeyTwice(ShiftRows(SubBytes(t, CipherRounds(t, p, w, InPlace, Nr - 1))), RoundKey(w, Nr));
  }

  /** One step of the induction below: if decrypt's iterations down to round + 1 hold encrypt's
      state after `round` rounds, substituted and shifted, then the iteration for `round` gives
      encrypt's state after round - 1 rounds, substituted and shifted. */
  lemma InvCipherRoundsStep(t: Tables, c: State, p: State, w: seq<Word>, round: nat)
    requires SBoxesInverse(t)
    requires |w| == 44 && 1 <= round < Nr
    ensures InvCipherRounds(t, c, w, InPlace, round + 1) == ShiftRows(SubBytes(t, CipherRounds(t, p, w, InPlace, round)))
        ==> InvCipherRounds(t, c, w, InPlace, round) == ShiftRows(SubBytes(t, CipherRounds(t, p, w, InPlace, round - 1)))
  {
    InvRoundUndoesRound(t, CipherRounds(t, p, w, InPlace, round - 1), RoundKey(w, round));
  }

  /** With mixing in place, the inverse cipher gives back the state the cipher started from. */
  lemma InvCipherUndoesCipher(t: Tables, p: State, w: seq<Word>)
    requires SBoxesInverse(t)
    requires |w| == 44
    ensures InvCipher(t, Cipher(t, p, w, InPlace), w, InPlace) == p
  {
    var c := Cipher(t, p, w, InPlace);
    InvCipherRoundsStart(t, p, w);
    InvCipherRoundsStep(t, c, p, w, 9);
    InvCipherRoundsStep(t, c, p, w, 8);
    InvCipherRoundsStep(t, c, p, w, 7);
    InvCipherRoundsStep(t, c, p, w, 6);
    InvCipherRoundsStep(t, c, p, w, 5);
    InvCipherRoundsStep(t, c, p, w, 4);
    InvCipherRoundsStep(t, c, p, w, 3);
    InvCipherRoundsStep(t, c, p, w, 2);
    InvCipherRoundsStep(t, c, p, w, 1);
    var s0 := CipherRounds(t, p, w, InPlace, 0);
    ShiftRowsInverse(SubBytes(t, s0));
    InvSubBytesUndoesSubBytes(t, s0);
    AddRoundKeyTwice(p, RoundKey(w, 0));
  }

  /** encrypt's loop `for round in range(1, Nr)`: the step, which is a Round, is applied with
      round keys 1 to Nr - 1 in turn. */
  method RunRoundsUp(step: (State, State) -> State, s: State, w: seq<Word>) returns (state: State)
    requires |w| == 44
    ensures state == RoundsUp(step, s, w, Nr - 1)
  {
    state := s;
    var round := 1;
    while round < Nr
      invariant 1 <= round <= Nr
      invariant state == RoundsUp(step, s, w, round - 1)
    {
      state := step(state, RoundKey(w, round));
      round := round + 1;
    }
  }

  /** decrypt's loop `for round in range(Nr - 1, 0, -1)`: the step, which is an InvRound, is
      applied with round keys Nr - 1 down to 1 in turn. */
  method RunRoundsDown(step: (State, State) -> State, s: State, w: seq<Word>) returns (state: State)
    requires |w| == 44
    ensures state == RoundsDown(step, s, w, 1)
  {
    state := s;
    var round := Nr - 1;
    while round > 0
      invariant 0 <= round < Nr
      invariant state == RoundsDown(step, s, w, round + 1)
    {
      state := step(state, RoundKey(w, round));
      round := round - 1;
    }
  }

  /** encrypt: whitening with round key 0, rounds 1 to Nr - 1 of sub_bytes, shift_rows,
      mix_columns and add_round_key, then a last round without mix_columns. A key or a plaintext
      shorter than 16 bytes raises IndexError; only the first 16 plaintext bytes are read. */
  method Encrypt(t: Tables, plaintext: seq<bv8>, key: seq<bv8>, layout: MixLayout) returns (r: Result<seq<bv8>>)
    ensures |key| < 16 || |plaintext| < 16 ==> r == Err(IndexError)
    ensures |key| >= 16 && |plaintext| >= 16 ==>
      r == Ok(Flatten(Cipher(t, Load(plaintext), Schedule(t, key, 44), layout)))
  {
    var roundKeys := KeyExpansion(t, key);
    if roundKeys.Err? {
      return Err(roundKeys.error);
    }
    if |plaintext| < 16 {
      return Err(IndexError);
    }
    var w := roundKeys.value;
    var state := AddRoundKey(Load(plaintext), RoundKey(w, 0));
    state := RunRoundsUp(RoundStep(t, layout), state, w);
    state := SubBytes(t, state);
    state := ShiftRows(state);
    state := AddRoundKey(state, RoundKey(w, Nr));
    return Ok(Flatten(state));
  }

  /** decrypt: add_round_key with round key Nr, then for rounds Nr - 1 down to 1 inv_shift_rows,
      inv_sub_bytes, add_round_key and inv_mix_columns, then inv_shift_rows, inv_sub_bytes and
      round key 0. Short keys and ciphertexts raise IndexError as in encrypt. */
  method Decrypt(t: Tables, ciphertext: seq<bv8>, key: seq<bv8>, layout: MixLayout) returns (r: Result<seq<bv8>>)
    ensures |key| < 16 || |ciphertext| < 16 ==> r == Err(IndexError)
    ensures |key| >= 16 && |ciphertext| >= 16 ==>
      r == Ok(Flatten(InvCipher(t, Load(ciphertext), Schedule(t, key, 44), layout)))
  {
    var roundKeys := KeyExpansion(t, key);
    if roundKeys.Err? {
      return Err(roundKeys.error);
    }
    if |ciphertext| < 16 {
      return Err(IndexError);
    }
    var w := roundKeys.value;
    var state := AddRoundKey(Load(ciphertext), RoundKey(w, Nr));
    state := RunRoundsDown(InvRoundStep(t, layout), state, w);
    state := InvShiftRows(state);
    state := InvSubBytes(t, state);
    state := AddRoundKey(state, RoundKey(w, 0));
    return Ok(Flatten(state));
  }

  /** The whole-cipher round trip with mixing in place, for tables whose inverses undo them:
      decrypting the 16 bytes that encrypt returns, with the same key, gives back the first 16
      plaintext bytes; and the ciphertext has exactly 16 bytes. */
  lemma EncryptDecryptRoundTrip(t: Tables, plaintext: seq<bv8>, key: seq<bv8>)
    requires SBoxesInverse(t)
    requires |plaintext| >= 16 && |key| >= 16
    ensures var w := Schedule(t, key, 44);
      var c := Flatten(Cipher(t, Load(plaintext), w, InPlace));
      |c| == 16 && Flatten(InvCipher(t, Load(c), w, InPlace)) == plaintext[..16]
  {
    var w := Schedule(t, key, 44);
    var s := Cipher(t, Load(plaintext), w, InPlace);
    LoadFlatten(s);
    InvCipherUndoesCipher(t, Load(plaintext), w);
    FlattenLoad(plaintext);
  }

  /** The round trip with the FIPS 197 tables. */
  lemma Fips197RoundTrip(plaintext: seq<bv8>, key: seq<bv8>)
    requires |plaintext| >= 16 && |key| >= 16
    ensures var w := Schedule(Fips197, key, 44);
      var c := Flatten(Cipher(Fips197, Load(plaintext), w, InPlace));
      Flatten(InvCipher(Fips197, Load(c), w, InPlace)) == plaintext[..16]
  {
    Fips197SBoxesInverse();
    EncryptDecryptRoundTrip(Fips197, plaintext, key);
  }
}
