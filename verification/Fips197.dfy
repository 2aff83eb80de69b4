/** One round of AES and its inverse as FIPS 197 defines them, without tables. */
module Fips197 {
  import opened GaloisField
  import opened SBox

  /** Column of the state; byte r is in row r. */
  datatype Column = Column(b0: bv8, b1: bv8, b2: bv8, b3: bv8)

  /** The state of section 3.4, column by column. */
  datatype Block = Block(c0: Column, c1: Column, c2: Column, c3: Column)

  // ---------- columns ----------

  function AddColumn(c: Column, d: Column): Column {
    Column(Add(c.b0, d.b0), Add(c.b1, d.b1), Add(c.b2, d.b2), Add(c.b3, d.b3))
  }

  ghost function SubColumn(c: Column): Column {
    Column(SubByte(c.b0), SubByte(c.b1), SubByte(c.b2), SubByte(c.b3))
  }

  ghost function InvSubColumn(c: Column): Column {
    Column(InvSubByte(c.b0), InvSubByte(c.b1), InvSubByte(c.b2), InvSubByte(c.b3))
  }

  /** First row of the matrix of section 5.1.3; row r is this one turned by r places. */
  function MixRow(a: bv8, b: bv8, c: bv8, d: bv8): bv8 {
    Sum(Mul(0x02, a), Mul(0x03, b), c, d)
  }

  function MixColumn(c: Column): Column {
    Column(MixRow(c.b0, c.b1, c.b2, c.b3), MixRow(c.b1, c.b2, c.b3, c.b0),
           MixRow(c.b2, c.b3, c.b0, c.b1), MixRow(c.b3, c.b0, c.b1, c.b2))
  }

  /** First row of the matrix of section 5.3.3. */
  function InvMixRow(a: bv8, b: bv8, c: bv8, d: bv8): bv8 {
    Sum(Mul(0x0E, a), Mul(0x0B, b), Mul(0x0D, c), Mul(0x09, d))
  }

  function InvMixColumn(c: Column): Column {
    Column(InvMixRow(c.b0, c.b1, c.b2, c.b3), InvMixRow(c.b1, c.b2, c.b3, c.b0),
           InvMixRow(c.b2, c.b3, c.b0, c.b1), InvMixRow(c.b3, c.b0, c.b1, c.b2))
  }

  // ---------- the transformations of section 5.1 ----------

  ghost function SubBytes(s: Block): Block {
    Block(SubColumn(s.c0), SubColumn(s.c1), SubColumn(s.c2), SubColumn(s.c3))
  }

  /** Row r moves r columns to the left. */
  function ShiftRows(s: Block): Block {
    Block(Column(s.c0.b0, s.c1.b1, s.c2.b2, s.c3.b3), Column(s.c1.b0, s.c2.b1, s.c3.b2, s.c0.b3),
          Column(s.c2.b0, s.c3.b1, s.c0.b2, s.c1.b3), Column(s.c3.b0, s.c0.b1, s.c1.b2, s.c2.b3))
  }

  function MixColumns(s: Block): Block {
    Block(MixColumn(s.c0), MixColumn(s.c1), MixColumn(s.c2), MixColumn(s.c3))
  }

  function AddRoundKey(s: Block, k: Block): Block {
    Block(AddColumn(s.c0, k.c0), AddColumn(s.c1, k.c1), AddColumn(s.c2, k.c2), AddColumn(s.c3, k.c3))
  }

  ghost function Round(s: Block, k: Block): Block {
    AddRoundKey(MixColumns(ShiftRows(SubBytes(s))), k)
  }

  // ---------- the transformations of section 5.3 ----------

  ghost function InvSubBytes(s: Block): Block {
    Block(InvSubColumn(s.c0), InvSubColumn(s.c1), InvSubColumn(s.c2), InvSubColumn(s.c3))
  }

  /** Row r moves r columns to the right. */
  function InvShiftRows(s: Block): Block {
    Block(Column(s.c0.b0, s.c3.b1, s.c2.b2, s.c1.b3), Column(s.c1.b0, s.c0.b1, s.c3.b2, s.c2.b3),
          Column(s.c2.b0, s.c1.b1, s.c0.b2, s.c3.b3), Column(s.c3.b0, s.c2.b1, s.c1.b2, s.c0.b3))
  }

  function InvMixColumns(s: Block): Block {
    Block(InvMixColumn(s.c0), InvMixColumn(s.c1), InvMixColumn(s.c2), InvMixColumn(s.c3))
  }

  ghost function InvRound(s: Block, k: Block): Block {
    InvSubBytes(InvShiftRows(InvMixColumns(AddRoundKey(s, k))))
  }

  // ---------- MixColumns and InvMixColumns undo each other ----------

  lemma MixRowLinear(a: bv8, b: bv8, c: bv8, d: bv8, a': bv8, b': bv8, c': bv8, d': bv8)
    ensures MixRow(Add(a, a'), Add(b, b'), Add(c, c'), Add(d, d'))
         == Add(MixRow(a, b, c, d), MixRow(a', b', c', d'))
  {
    hide Mul, Add, Sum;
    MulAdd(0x02, a, a');
    MulAdd(0x03, b, b');
    SumSwap(Mul(0x02, a), Mul(0x03, b), c, d, Mul(0x02, a'), Mul(0x03, b'), c', d');
  }

  lemma InvMixRowLinear(a: bv8, b: bv8, c: bv8, d: bv8, a': bv8, b': bv8, c': bv8, d': bv8)
    ensures InvMixRow(Add(a, a'), Add(b, b'), Add(c, c'), Add(d, d'))
         == Add(InvMixRow(a, b, c, d), InvMixRow(a', b', c', d'))
  {
    hide Mul, Add, Sum;
    MulAdd(0x0E, a, a');
    MulAdd(0x0B, b, b');
    MulAdd(0x0D, c, c');
    MulAdd(0x09, d, d');
    SumSwap(Mul(0x0E, a), Mul(0x0B, b), Mul(0x0D, c), Mul(0x09, d),
            Mul(0x0E, a'), Mul(0x0B, b'), Mul(0x0D, c'), Mul(0x09, d'));
  }

  /** Row 0 of InvMixColumn after MixColumn. */
  function UnmixMix(a: bv8, b: bv8, c: bv8, d: bv8): bv8 {
    InvMixRow(MixRow(a, b, c, d), MixRow(b, c, d, a), MixRow(c, d, a, b), MixRow(d, a, b, c))
  }

  /** Row 0 of MixColumn after InvMixColumn. */
  function MixUnmix(a: bv8, b: bv8, c: bv8, d: bv8): bv8 {
    MixRow(InvMixRow(a, b, c, d), InvMixRow(b, c, d, a), InvMixRow(c, d, a, b), InvMixRow(d, a, b, c))
  }

  lemma UnmixMixLinear(a: bv8, b: bv8, c: bv8, d: bv8, a': bv8, b': bv8, c': bv8, d': bv8)
    ensures UnmixMix(Add(a, a'), Add(b, b'), Add(c, c'), Add(d, d'))
         == Add(UnmixMix(a, b, c, d), UnmixMix(a', b', c', d'))
  {
    hide MixRow, InvMixRow, Add;
    MixRowLinear(a, b, c, d, a', b', c', d');
    MixRowLinear(b, c, d, a, b', c', d', a');
    MixRowLinear(c, d, a, b, c', d', a', b');
    MixRowLinear(d, a, b, c, d', a', b', c');
    InvMixRowLinear(MixRow(a, b, c, d), MixRow(b, c, d, a), MixRow(c, d, a, b), MixRow(d, a, b, c),
      MixRow(a', b', c', d'), MixRow(b', c', d', a'), MixRow(c', d', a', b'), MixRow(d', a', b', c'));
  }

  lemma MixUnmixLinear(a: bv8, b: bv8, c: bv8, d: bv8, a': bv8, b': bv8, c': bv8, d': bv8)
    ensures MixUnmix(Add(a, a'), Add(b, b'), Add(c, c'), Add(d, d'))
         == Add(MixUnmix(a, b, c, d), MixUnmix(a', b', c', d'))
  {
    hide MixRow, InvMixRow, Add;
    InvMixRowLinear(a, b, c, d, a', b', c', d');
    InvMixRowLinear(b, c, d, a, b', c', d', a');
    InvMixRowLinear(c, d, a, b, c', d', a', b');
    InvMixRowLinear(d, a, b, c, d', a', b', c');
    MixRowLinear(InvMixRow(a, b, c, d), InvMixRow(b, c, d, a), InvMixRow(c, d, a, b), InvMixRow(d, a, b, c),
      InvMixRow(a', b', c', d'), InvMixRow(b', c', d', a'),
      InvMixRow(c', d', a', b'), InvMixRow(d', a', b', c'));
  }

  lemma SumOfOne(a: bv8)
    ensures Sum(a, 0, 0, 0) == a && Sum(0, a, 0, 0) == a && Sum(0, 0, a, 0) == a && Sum(0, 0, 0, a) == a
  {
  }

  /** The rows of the two matrices, applied to a column with one nonzero byte. */
  lemma SingleByte(a: bv8)
    ensures MixRow(a, 0, 0, 0) == Mul(0x02, a) && MixRow(0, a, 0, 0) == Mul(0x03, a)
    ensures MixRow(0, 0, a, 0) == Mul(0x01, a) && MixRow(0, 0, 0, a) == Mul(0x01, a)
    ensures InvMixRow(a, 0, 0, 0) == Mul(0x0E, a) && InvMixRow(0, a, 0, 0) == Mul(0x0B, a)
    ensures InvMixRow(0, 0, a, 0) == Mul(0x0D, a) && InvMixRow(0, 0, 0, a) == Mul(0x09, a)
  {
    hide Mul, Sum;
    MulZero(0x02); MulZero(0x03); MulZero(0x09); MulZero(0x0B); MulZero(0x0D); MulZero(0x0E);
    MulOne(a);
    SumOfOne(a);
    SumOfOne(Mul(0x02, a)); SumOfOne(Mul(0x03, a));
    SumOfOne(Mul(0x09, a)); SumOfOne(Mul(0x0B, a)); SumOfOne(Mul(0x0D, a)); SumOfOne(Mul(0x0E, a));
  }

  lemma Multiples(k: bv8)
    ensures Mul(0x01, k) == Mul(k, 0x01) == k
    ensures Mul(0x02, k) == Mul(k, 0x02) == XTime(k)
    ensures Mul(0x03, k) == Mul(k, 0x03) == Add(XTime(k), k)
  {
    hide *;
    MulOne(k);
    MulSmall(k);
    MulComm(k, 0x01);
    MulComm(k, 0x02);
    MulComm(k, 0x03);
  }

  /** The first row of the product of the two matrices is 1, 0, 0, 0, in either order. */
  lemma MatrixProduct()
    ensures Sum(Mul(0x0E, 0x02), Mul(0x0B, 0x01), Mul(0x0D, 0x01), Mul(0x09, 0x03)) == 1
    ensures Sum(Mul(0x0E, 0x03), Mul(0x0B, 0x02), Mul(0x0D, 0x01), Mul(0x09, 0x01)) == 0
    ensures Sum(Mul(0x0E, 0x01), Mul(0x0B, 0x03), Mul(0x0D, 0x02), Mul(0x09, 0x01)) == 0
    ensures Sum(Mul(0x0E, 0x01), Mul(0x0B, 0x01), Mul(0x0D, 0x03), Mul(0x09, 0x02)) == 0
    ensures Sum(Mul(0x02, 0x0E), Mul(0x03, 0x09), Mul(0x01, 0x0D), Mul(0x01, 0x0B)) == 1
    ensures Sum(Mul(0x02, 0x0B), Mul(0x03, 0x0E), Mul(0x01, 0x09), Mul(0x01, 0x0D)) == 0
    ensures Sum(Mul(0x02, 0x0D), Mul(0x03, 0x0B), Mul(0x01, 0x0E), Mul(0x01, 0x09)) == 0
    ensures Sum(Mul(0x02, 0x09), Mul(0x03, 0x0D), Mul(0x01, 0x0B), Mul(0x01, 0x0E)) == 0
  {
    hide Mul;
    Multiples(0x09); Multiples(0x0B); Multiples(0x0D); Multiples(0x0E);
  }

  /** One byte of the column at a time, the two matrices multiply to the identity. */
  lemma UnmixMixByte(a: bv8)
    ensures UnmixMix(a, 0, 0, 0) == a && UnmixMix(0, a, 0, 0) == 0
    ensures UnmixMix(0, 0, a, 0) == 0 && UnmixMix(0, 0, 0, a) == 0
  {
    hide Mul, Sum, MixRow;
    SingleByte(a);
    MatrixProduct();
    MulOne(a);
    MulComm(0, a);
    MulZero(a);
    MulProducts(0x0E, 0x02, 0x0B, 0x01, 0x0D, 0x01, 0x09, 0x03, a);
    MulProducts(0x0E, 0x03, 0x0B, 0x02, 0x0D, 0x01, 0x09, 0x01, a);
    MulProducts(0x0E, 0x01, 0x0B, 0x03, 0x0D, 0x02, 0x09, 0x01, a);
    MulProducts(0x0E, 0x01, 0x0B, 0x01, 0x0D, 0x03, 0x09, 0x02, a);
  }

  lemma MixUnmixByte(a: bv8)
    ensures MixUnmix(a, 0, 0, 0) == a && MixUnmix(0, a, 0, 0) == 0
    ensures MixUnmix(0, 0, a, 0) == 0 && MixUnmix(0, 0, 0, a) == 0
  {
    hide Mul, Sum, InvMixRow;
    SingleByte(a);
    MatrixProduct();
    MulOne(a);
    MulOne(Mul(0x09, a)); MulOne(Mul(0x0B, a)); MulOne(Mul(0x0D, a)); MulOne(Mul(0x0E, a));
    MulComm(0, a);
    MulZero(a);
    MulProducts(0x02, 0x0E, 0x03, 0x09, 0x01, 0x0D, 0x01, 0x0B, a);
    MulProducts(0x02, 0x0B, 0x03, 0x0E, 0x01, 0x09, 0x01, 0x0D, a);
    MulProducts(0x02, 0x0D, 0x03, 0x0B, 0x01, 0x0E, 0x01, 0x09, a);
    MulProducts(0x02, 0x09, 0x03, 0x0D, 0x01, 0x0B, 0x01, 0x0E, a);
  }

  lemma MatricesInverse(a: bv8, b: bv8, c: bv8, d: bv8)
    ensures UnmixMix(a, b, c, d) == a && MixUnmix(a, b, c, d) == a
  {
    hide *;
    AddCancel(a, 0); AddCancel(b, 0); AddCancel(c, 0); AddCancel(d, 0); AddCancel(0, 0);
    UnmixMixLinear(a, 0, 0, 0, 0, b, 0, 0);
    UnmixMixLinear(a, b, 0, 0, 0, 0, c, 0);
    UnmixMixLinear(a, b, c, 0, 0, 0, 0, d);
    MixUnmixLinear(a, 0, 0, 0, 0, b, 0, 0);
    MixUnmixLinear(a, b, 0, 0, 0, 0, c, 0);
    MixUnmixLinear(a, b, c, 0, 0, 0, 0, d);
    UnmixMixByte(a); UnmixMixByte(b); UnmixMixByte(c); UnmixMixByte(d);
    MixUnmixByte(a); MixUnmixByte(b); MixUnmixByte(c); MixUnmixByte(d);
  }

  lemma MixColumnInverse(c: Column)
    ensures InvMixColumn(MixColumn(c)) == c && MixColumn(InvMixColumn(c)) == c
  {
    hide MixRow, InvMixRow;
    MatricesInverse(c.b0, c.b1, c.b2, c.b3);
    MatricesInverse(c.b1, c.b2, c.b3, c.b0);
    MatricesInverse(c.b2, c.b3, c.b0, c.b1);
    MatricesInverse(c.b3, c.b0, c.b1, c.b2);
  }

  // ---------- the round and its inverse ----------

  lemma AddColumnTwice(c: Column, k: Column)
    ensures AddColumn(AddColumn(c, k), k) == c
  {
    AddCancel(c.b0, k.b0); AddCancel(c.b1, k.b1); AddCancel(c.b2, k.b2); AddCancel(c.b3, k.b3);
  }

  lemma SubColumnInverse(c: Column)
    ensures InvSubColumn(SubColumn(c)) == c && SubColumn(InvSubColumn(c)) == c
  {
    hide SubByte, InvSubByte;
    SubByteInverse(c.b0); SubByteInverse(c.b1); SubByteInverse(c.b2); SubByteInverse(c.b3);
  }

  /** Each transformation of section 5.3 undoes one of section 5.1, on both sides. */
  lemma TransformationsInverse(s: Block, k: Block)
    ensures InvSubBytes(SubBytes(s)) == s && SubBytes(InvSubBytes(s)) == s
    ensures InvShiftRows(ShiftRows(s)) == s && ShiftRows(InvShiftRows(s)) == s
    ensures InvMixColumns(MixColumns(s)) == s && MixColumns(InvMixColumns(s)) == s
    ensures AddRoundKey(AddRoundKey(s, k), k) == s
  {
    hide SubColumn, InvSubColumn, MixColumn, InvMixColumn, AddColumn;
    SubColumnInverse(s.c0); SubColumnInverse(s.c1); SubColumnInverse(s.c2); SubColumnInverse(s.c3);
    MixColumnInverse(s.c0); MixColumnInverse(s.c1); MixColumnInverse(s.c2); MixColumnInverse(s.c3);
    AddColumnTwice(s.c0, k.c0); AddColumnTwice(s.c1, k.c1); AddColumnTwice(s.c2, k.c2); AddColumnTwice(s.c3, k.c3);
  }

  /** The inverse round undoes the round, and the round undoes the inverse round. */
  lemma RoundInverse(s: Block, k: Block)
    ensures InvRound(Round(s, k), k) == s
    ensures Round(InvRound(s, k), k) == s
  {
    hide SubBytes, InvSubBytes, ShiftRows, InvShiftRows, MixColumns, InvMixColumns, AddRoundKey;
    TransformationsInverse(s, k);
    TransformationsInverse(SubBytes(s), k);
    TransformationsInverse(ShiftRows(SubBytes(s)), k);
    TransformationsInverse(MixColumns(ShiftRows(SubBytes(s))), k);
    TransformationsInverse(AddRoundKey(s, k), k);
    TransformationsInverse(InvMixColumns(AddRoundKey(s, k)), k);
    TransformationsInverse(InvShiftRows(InvMixColumns(AddRoundKey(s, k))), k);
  }
}
