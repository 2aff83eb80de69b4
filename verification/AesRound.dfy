/** The table round of xptMiner/aes_helper.h as a function of four state words and four key
    words, and its agreement with the round of FIPS 197. */
module AesRound {
  import opened GaloisField
  import opened AesTables
  import opened SBox
  import opened Fips197

  datatype State = State(w0: Word, w1: Word, w2: Word, w3: Word)

  const ZERO_KEY := State(0, 0, 0, 0)

  // ---------- the macro AES_ROUND_LE / AES_ROUND_BE ----------

  /** The index expressions of the two macros: byte r of a word, in the word's byte order. */
  function Index0(e: Endian, x: Word): bv8 {
    match e case Little => (x & 0xFF) as bv8 case Big => ((x >> 24) & 0xFF) as bv8
  }

  function Index1(e: Endian, x: Word): bv8 {
    match e case Little => ((x >> 8) & 0xFF) as bv8 case Big => ((x >> 16) & 0xFF) as bv8
  }

  function Index2(e: Endian, x: Word): bv8 {
    match e case Little => ((x >> 16) & 0xFF) as bv8 case Big => ((x >> 8) & 0xFF) as bv8
  }

  function Index3(e: Endian, x: Word): bv8 {
    match e case Little => ((x >> 24) & 0xFF) as bv8 case Big => (x & 0xFF) as bv8
  }

  function Xor(v: Word, w: Word): Word {
    v ^ w
  }

  /** The right-hand side of one assignment of the macro. */
  function RoundWord(e: Endian, x0: Word, x1: Word, x2: Word, x3: Word, k: Word): Word {
    var inner := Xor(Xor(AES0(e, Index0(e, x0)), AES1(e, Index1(e, x1))), AES2(e, Index2(e, x2)));
    Xor(Xor(inner, AES3(e, Index3(e, x3))), k)
  }

  /** The four right-hand sides, all evaluated on the same state. */
  function TableRound(e: Endian, x: State, k: State): State {
    State(RoundWord(e, x.w0, x.w1, x.w2, x.w3, k.w0),
          RoundWord(e, x.w1, x.w2, x.w3, x.w0, k.w1),
          RoundWord(e, x.w2, x.w3, x.w0, x.w1, k.w2),
          RoundWord(e, x.w3, x.w0, x.w1, x.w2, k.w3))
  }

  // ---------- words as columns ----------

  /** A word read as a column: its first byte in memory is row 0. */
  function Bytes(e: Endian, w: Word): Column {
    Column(Index0(e, w), Index1(e, w), Index2(e, w), Index3(e, w))
  }

  function Pack(e: Endian, c: Column): Word {
    match e
    case Little => (c.b0 as Word) | ((c.b1 as Word) << 8) | ((c.b2 as Word) << 16) | ((c.b3 as Word) << 24)
    case Big => (c.b3 as Word) | ((c.b2 as Word) << 8) | ((c.b1 as Word) << 16) | ((c.b0 as Word) << 24)
  }

  function BlockOf(e: Endian, x: State): Block {
    Block(Bytes(e, x.w0), Bytes(e, x.w1), Bytes(e, x.w2), Bytes(e, x.w3))
  }

  function StateOf(e: Endian, s: Block): State {
    State(Pack(e, s.c0), Pack(e, s.c1), Pack(e, s.c2), Pack(e, s.c3))
  }

  /** Reading a byte-swapped word in the other byte order gives the same column. */
  lemma BytesOfSwapped(x: Word)
    ensures Bytes(Big, AESx(Big, x)) == Bytes(Little, x)
  {
  }

  lemma PackBytes(e: Endian, w: Word, c: Column)
    ensures Pack(e, Bytes(e, w)) == w
    ensures Bytes(e, Pack(e, c)) == c
  {
    match e
    case Little =>
    case Big =>
  }

  /** States and blocks correspond one to one. */
  lemma StateBlock(e: Endian, x: State, s: Block)
    ensures StateOf(e, BlockOf(e, x)) == x
    ensures BlockOf(e, StateOf(e, s)) == s
  {
    hide Pack, Bytes;
    PackBytes(e, x.w0, s.c0); PackBytes(e, x.w1, s.c1); PackBytes(e, x.w2, s.c2); PackBytes(e, x.w3, s.c3);
  }

  lemma Index0Xor(e: Endian, v: Word, w: Word)
    ensures Index0(e, Xor(v, w)) == Add(Index0(e, v), Index0(e, w))
  {
    match e
    case Little =>
    case Big =>
  }

  lemma Index1Xor(e: Endian, v: Word, w: Word)
    ensures Index1(e, Xor(v, w)) == Add(Index1(e, v), Index1(e, w))
  {
    match e
    case Little =>
    case Big =>
  }

  lemma Index2Xor(e: Endian, v: Word, w: Word)
    ensures Index2(e, Xor(v, w)) == Add(Index2(e, v), Index2(e, w))
  {
    match e
    case Little =>
    case Big =>
  }

  lemma Index3Xor(e: Endian, v: Word, w: Word)
    ensures Index3(e, Xor(v, w)) == Add(Index3(e, v), Index3(e, w))
  {
    match e
    case Little =>
    case Big =>
  }

  lemma BytesXor(e: Endian, v: Word, w: Word)
    ensures Bytes(e, Xor(v, w)) == AddColumn(Bytes(e, v), Bytes(e, w))
  {
    hide Index0, Index1, Index2, Index3, Xor, Add;
    Index0Xor(e, v, w);
    Index1Xor(e, v, w);
    Index2Xor(e, v, w);
    Index3Xor(e, v, w);
  }

  // ---------- the tables fuse SubBytes with MixColumns ----------

  lemma TableBytes(i: bv8)
    ensures var s := TableSBox(i);
      Bytes(Little, Raw0(i)) == Column(Mul(0x02, s), s, s, Mul(0x03, s))
    ensures Raw1(i) == Raw0(i).RotateLeft(8)
    ensures Raw2(i) == Raw0(i).RotateLeft(16)
    ensures Raw3(i) == Raw0(i).RotateLeft(24)
  {
    hide Raw0, Raw1, Raw2, Raw3, Mul, Double, XTime;
    EveryEntry(i);
    MulSmall(TableSBox(i));
    DoubleIsXTime(TableSBox(i));
  }

  lemma RotatedBytes(w: Word)
    ensures var c := Bytes(Little, w);
      && Bytes(Little, w.RotateLeft(8)) == Column(c.b3, c.b0, c.b1, c.b2)
      && Bytes(Little, w.RotateLeft(16)) == Column(c.b2, c.b3, c.b0, c.b1)
      && Bytes(Little, w.RotateLeft(24)) == Column(c.b1, c.b2, c.b3, c.b0)
  {
  }

  /** The four products of the S-box byte, in the order of table r. */
  lemma RawEntries(i: bv8)
    ensures var s := SubByte(i); var s2 := Mul(0x02, s); var s3 := Mul(0x03, s);
      && Bytes(Little, Raw0(i)) == Column(s2, s, s, s3)
      && Bytes(Little, Raw1(i)) == Column(s3, s2, s, s)
      && Bytes(Little, Raw2(i)) == Column(s, s3, s2, s)
      && Bytes(Little, Raw3(i)) == Column(s, s, s3, s2)
  {
    hide *;
    SubByteIsTable(i);
    TableBytes(i);
    RotatedBytes(Raw0(i));
  }

  /** In either byte order an entry of table r is column r of the MixColumns matrix times
      the S-box byte. */
  lemma Entries(e: Endian, i: bv8)
    ensures var s := SubByte(i); var s2 := Mul(0x02, s); var s3 := Mul(0x03, s);
      && Bytes(e, AES0(e, i)) == Column(s2, s, s, s3)
      && Bytes(e, AES1(e, i)) == Column(s3, s2, s, s)
      && Bytes(e, AES2(e, i)) == Column(s, s3, s2, s)
      && Bytes(e, AES3(e, i)) == Column(s, s, s3, s2)
  {
    hide Bytes, Raw0, Raw1, Raw2, Raw3, SubByte, Mul;
    RawEntries(i);
    match e
    case Little =>
    case Big =>
      BytesOfSwapped(Raw0(i));
      BytesOfSwapped(Raw1(i));
      BytesOfSwapped(Raw2(i));
      BytesOfSwapped(Raw3(i));
  }

  // ---------- the round ----------

  /** Five terms added in the order of the macro, and in the order of MixColumns and AddRoundKey. */
  lemma RowOrder(a: bv8, b: bv8, c: bv8, d: bv8, k: bv8)
    ensures Add(Add(Add(Add(a, b), c), d), k) == Add(Sum(a, b, c, d), k)
    ensures Add(Add(Add(Add(a, b), c), d), k) == Add(Sum(b, c, d, a), k)
    ensures Add(Add(Add(Add(a, b), c), d), k) == Add(Sum(c, d, a, b), k)
    ensures Add(Add(Add(Add(a, b), c), d), k) == Add(Sum(d, a, b, c), k)
  {
    hide Add;
    AddAssoc(Add(a, b), c, d);
    AddComm(Add(a, b), Add(c, d));
    AddAssoc(b, c, Add(d, a));
    AddAssoc(a, b, Add(c, d));
    AddAssoc(b, Add(c, d), a);
    AddComm(a, Add(b, Add(c, d)));
    AddAssoc(c, d, a);
    AddAssoc(b, c, d);
    AddAssoc(d, a, Add(b, c));
    AddAssoc(a, b, c);
    AddComm(d, Add(Add(a, b), c));
  }

  /** Adding up the four table columns and the key is MixColumns followed by AddRoundKey. */
  lemma EntriesAddUp(a: bv8, b: bv8, c: bv8, d: bv8, k: Column)
    ensures AddColumn(AddColumn(AddColumn(AddColumn(
        Column(Mul(0x02, a), a, a, Mul(0x03, a)), Column(Mul(0x03, b), Mul(0x02, b), b, b)),
        Column(c, Mul(0x03, c), Mul(0x02, c), c)), Column(d, d, Mul(0x03, d), Mul(0x02, d))), k)
      == AddColumn(MixColumn(Column(a, b, c, d)), k)
  {
    hide Mul, Add, Sum;
    RowOrder(Mul(0x02, a), Mul(0x03, b), c, d, k.b0);
    RowOrder(a, Mul(0x02, b), Mul(0x03, c), d, k.b1);
    RowOrder(a, b, Mul(0x02, c), Mul(0x03, d), k.b2);
    RowOrder(Mul(0x03, a), b, c, Mul(0x02, d), k.b3);
  }

  /** One assignment of the macro computes one column of the round of FIPS 197. */
  lemma RoundWordIsColumn(e: Endian, x0: Word, x1: Word, x2: Word, x3: Word, k: Word)
    ensures Bytes(e, RoundWord(e, x0, x1, x2, x3, k))
      == AddColumn(
           MixColumn(SubColumn(Column(Index0(e, x0), Index1(e, x1), Index2(e, x2), Index3(e, x3)))), Bytes(e, k))
  {
    hide Bytes, AES0, AES1, AES2, AES3, SubByte, Mul, Add, Sum, Xor, MixColumn, Index0, Index1, Index2, Index3;
    var i0, i1, i2, i3 := Index0(e, x0), Index1(e, x1), Index2(e, x2), Index3(e, x3);
    var t01 := Xor(AES0(e, i0), AES1(e, i1));
    BytesXor(e, AES0(e, i0), AES1(e, i1));
    BytesXor(e, t01, AES2(e, i2));
    BytesXor(e, Xor(t01, AES2(e, i2)), AES3(e, i3));
    BytesXor(e, Xor(Xor(t01, AES2(e, i2)), AES3(e, i3)), k);
    Entries(e, i0); Entries(e, i1); Entries(e, i2); Entries(e, i3);
    EntriesAddUp(SubByte(i0), SubByte(i1), SubByte(i2), SubByte(i3), Bytes(e, k));
  }

  /** The table round is the round of FIPS 197, for every state and every key, in both byte orders. */
  lemma TableRoundIsRound(e: Endian, x: State, k: State)
    ensures BlockOf(e, TableRound(e, x, k)) == Round(BlockOf(e, x), BlockOf(e, k))
  {
    hide RoundWord, MixColumn, AddColumn, Index0, Index1, Index2, Index3, SubByte;
    RoundWordIsColumn(e, x.w0, x.w1, x.w2, x.w3, k.w0);
    RoundWordIsColumn(e, x.w1, x.w2, x.w3, x.w0, k.w1);
    RoundWordIsColumn(e, x.w2, x.w3, x.w0, x.w1, k.w2);
    RoundWordIsColumn(e, x.w3, x.w0, x.w1, x.w2, k.w3);
  }
}
