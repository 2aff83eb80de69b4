/** How differences between two states spread under table rounds with shared keys: the branch
    number of a column, full diffusion in two rounds, and the wide-trail bound. */
module Diffusion {
  import opened GaloisField
  import opened AesTables
  import opened SBox
  import opened Fips197
  import opened AesRound
  import opened AesChain

  // ---------- counting ----------

  function Diff(a: bv8, b: bv8): (n: nat)
    ensures n <= 1
  {
    if a == b then 0 else 1
  }

  /** Number of differing bytes. */
  function ColumnDiff(c: Column, d: Column): (n: nat)
    ensures n <= 4
  {
    Diff(c.b0, d.b0) + Diff(c.b1, d.b1) + Diff(c.b2, d.b2) + Diff(c.b3, d.b3)
  }

  function BlockDiff(s: Block, t: Block): nat {
    ColumnDiff(s.c0, t.c0) + ColumnDiff(s.c1, t.c1) + ColumnDiff(s.c2, t.c2) + ColumnDiff(s.c3, t.c3)
  }

  function StateDiff(e: Endian, x: State, y: State): nat {
    BlockDiff(BlockOf(e, x), BlockOf(e, y))
  }

  function Active(c: Column, d: Column): nat {
    if ColumnDiff(c, d) == 0 then 0 else 1
  }

  /** Number of differing columns. */
  function ActiveColumns(s: Block, t: Block): nat {
    Active(s.c0, t.c0) + Active(s.c1, t.c1) + Active(s.c2, t.c2) + Active(s.c3, t.c3)
  }

  // ---------- MixColumn has branch number 5 ----------

  function NonZero(a: bv8): nat {
    if a == 0 then 0 else 1
  }

  /** Nonzero bytes of a column and of its image. */
  function Branch(a: bv8, b: bv8, c: bv8, d: bv8): nat {
    NonZero(a) + NonZero(b) + NonZero(c) + NonZero(d) +
    NonZero(MixRow(a, b, c, d)) + NonZero(MixRow(b, c, d, a)) +
    NonZero(MixRow(c, d, a, b)) + NonZero(MixRow(d, a, b, c))
  }

  lemma BranchOne(a: bv8)
    requires a != 0
    ensures Branch(a, 0, 0, 0) >= 5
  {
    hide Mul;
    MulSmall(a);
    MulSmall(0);
  }

  lemma BranchNeighbours(a: bv8, b: bv8)
    requires a != 0 && b != 0
    ensures Branch(a, b, 0, 0) >= 5
  {
    hide Mul;
    MulSmall(a);
    MulSmall(b);
    MulSmall(0);
  }

  lemma BranchOpposite(a: bv8, c: bv8)
    requires a != 0 && c != 0
    ensures Branch(a, 0, c, 0) >= 5
  {
    hide Mul;
    MulSmall(a);
    MulSmall(c);
    MulSmall(0);
  }

  /** A column with at most one nonzero byte, mixed back: no byte or every byte is nonzero. */
  lemma UnmixOne(a: bv8)
    ensures InvMixRow(a, 0, 0, 0) == 0 <==> a == 0
    ensures InvMixRow(0, a, 0, 0) == 0 <==> a == 0
    ensures InvMixRow(0, 0, a, 0) == 0 <==> a == 0
    ensures InvMixRow(0, 0, 0, a) == 0 <==> a == 0
  {
    hide Mul, InvMixRow;
    SingleByte(a);
    MulZero(0x0E); MulZero(0x0B); MulZero(0x0D); MulZero(0x09);
    if Mul(0x0E, a) == 0 {
      NoZeroDivisors(0x0E, a);
    } else if Mul(0x0B, a) == 0 {
      NoZeroDivisors(0x0B, a);
    } else if Mul(0x0D, a) == 0 {
      NoZeroDivisors(0x0D, a);
    } else if Mul(0x09, a) == 0 {
      NoZeroDivisors(0x09, a);
    }
  }

  lemma BranchThree(a: bv8, b: bv8, c: bv8)
    requires a != 0 && b != 0 && c != 0
    ensures Branch(a, b, c, 0) >= 5
  {
    hide MixRow, InvMixRow;
    MatricesInverse(0, a, b, c);
    MatricesInverse(a, b, c, 0);
    UnmixOne(MixRow(0, a, b, c));
    UnmixOne(MixRow(a, b, c, 0));
    UnmixOne(MixRow(b, c, 0, a));
    UnmixOne(MixRow(c, 0, a, b));
  }

  lemma BranchFour(a: bv8, b: bv8, c: bv8, d: bv8)
    requires a != 0 && b != 0 && c != 0 && d != 0
    ensures Branch(a, b, c, d) >= 5
  {
    hide MixRow, InvMixRow;
    MatricesInverse(a, b, c, d);
    UnmixOne(0);
  }

  /** Turning a column turns its image. */
  lemma BranchTurns(a: bv8, b: bv8, c: bv8, d: bv8)
    ensures Branch(a, b, c, d) == Branch(b, c, d, a) == Branch(c, d, a, b) == Branch(d, a, b, c)
  {
    hide MixRow, NonZero;
  }

  lemma BranchIsFive(a: bv8, b: bv8, c: bv8, d: bv8)
    requires !(a == b == c == d == 0)
    ensures Branch(a, b, c, d) >= 5
  {
    hide Branch;
    BranchTurns(a, b, c, d);
    if a != 0 && b != 0 && c != 0 && d != 0 {
      BranchFour(a, b, c, d);
    } else if a == 0 {
      BranchLastZero(b, c, d);
    } else if b == 0 {
      BranchLastZero(c, d, a);
    } else if c == 0 {
      BranchLastZero(d, a, b);
    } else {
      BranchLastZero(a, b, c);
    }
  }

  lemma BranchLastZero(a: bv8, b: bv8, c: bv8)
    requires !(a == b == c == 0)
    ensures Branch(a, b, c, 0) >= 5
  {
    hide Branch;
    BranchTurns(a, b, c, 0);
    if a != 0 && b != 0 && c != 0 {
      BranchThree(a, b, c);
    } else if b == 0 && a != 0 && c != 0 {
      BranchOpposite(a, c);
    } else if a != 0 && b != 0 {
      BranchNeighbours(a, b);
    } else if b != 0 && c != 0 {
      BranchNeighbours(b, c);
    } else {
      BranchOne(if a != 0 then a else if b != 0 then b else c);
    }
  }

  lemma DiffIsNonZero(a: bv8, b: bv8)
    ensures Diff(a, b) == NonZero(Add(a, b))
  {
    hide Add;
    AddZero(a, b);
  }

  /** Two different columns and their images differ in at least five bytes together. */
  lemma MixBranch(c: Column, d: Column)
    requires c != d
    ensures ColumnDiff(c, d) + ColumnDiff(MixColumn(c), MixColumn(d)) >= 5
  {
    hide MixRow, Add, Diff, NonZero;
    var s, m, n := AddColumn(c, d), MixColumn(c), MixColumn(d);
    MixRowLinear(c.b0, c.b1, c.b2, c.b3, d.b0, d.b1, d.b2, d.b3);
    MixRowLinear(c.b1, c.b2, c.b3, c.b0, d.b1, d.b2, d.b3, d.b0);
    MixRowLinear(c.b2, c.b3, c.b0, c.b1, d.b2, d.b3, d.b0, d.b1);
    MixRowLinear(c.b3, c.b0, c.b1, c.b2, d.b3, d.b0, d.b1, d.b2);
    DiffIsNonZero(c.b0, d.b0); DiffIsNonZero(c.b1, d.b1); DiffIsNonZero(c.b2, d.b2); DiffIsNonZero(c.b3, d.b3);
    DiffIsNonZero(m.b0, n.b0); DiffIsNonZero(m.b1, n.b1); DiffIsNonZero(m.b2, n.b2); DiffIsNonZero(m.b3, n.b3);
    AddZero(c.b0, d.b0); AddZero(c.b1, d.b1); AddZero(c.b2, d.b2); AddZero(c.b3, d.b3);
    BranchIsFive(s.b0, s.b1, s.b2, s.b3);
  }

  // ---------- one round ----------

  lemma DiffThroughSBox(a: bv8, b: bv8)
    ensures Diff(SubByte(a), SubByte(b)) == Diff(a, b)
  {
    hide SubByte, InvSubByte;
    SubByteInverse(a);
    SubByteInverse(b);
  }

  lemma DiffThroughAdd(a: bv8, b: bv8, k: bv8)
    ensures Diff(Add(a, k), Add(b, k)) == Diff(a, b)
  {
    hide Add;
    AddCancel(a, k);
    AddCancel(b, k);
  }

  lemma EqualIffNoDiff(c: Column, d: Column)
    ensures c == d <==> ColumnDiff(c, d) == 0
  {
  }

  /** What one round makes of a column that ShiftRows has gathered. */
  ghost function RoundColumn(c: Column, k: Column): Column {
    AddColumn(MixColumn(SubColumn(c)), k)
  }

  lemma RoundColumns(s: Block, k: Block)
    ensures var g := ShiftRows(s);
      Round(s, k) ==
        Block(RoundColumn(g.c0, k.c0), RoundColumn(g.c1, k.c1), RoundColumn(g.c2, k.c2), RoundColumn(g.c3, k.c3))
  {
    hide SubByte, MixColumn, AddColumn;
  }

  lemma SubColumnDiff(c: Column, d: Column)
    ensures ColumnDiff(SubColumn(c), SubColumn(d)) == ColumnDiff(c, d)
  {
    hide SubByte, Diff;
    DiffThroughSBox(c.b0, d.b0); DiffThroughSBox(c.b1, d.b1); DiffThroughSBox(c.b2, d.b2); DiffThroughSBox(c.b3, d.b3);
  }

  lemma AddColumnDiff(c: Column, d: Column, k: Column)
    ensures ColumnDiff(AddColumn(c, k), AddColumn(d, k)) == ColumnDiff(c, d)
  {
    hide Add, Diff;
    DiffThroughAdd(c.b0, d.b0, k.b0); DiffThroughAdd(c.b1, d.b1, k.b1);
    DiffThroughAdd(c.b2, d.b2, k.b2); DiffThroughAdd(c.b3, d.b3, k.b3);
  }

  /** Equal columns stay equal; different ones differ, before and after, in at least five bytes. */
  lemma RoundColumnBranch(c: Column, d: Column, k: Column)
    ensures if c == d then RoundColumn(c, k) == RoundColumn(d, k)
            else ColumnDiff(c, d) + ColumnDiff(RoundColumn(c, k), RoundColumn(d, k)) >= 5
  {
    hide ColumnDiff, SubColumn, MixColumn, AddColumn;
    var c', d' := SubColumn(c), SubColumn(d);
    if c != d {
      SubColumnDiff(c, d);
      EqualIffNoDiff(c, d);
      EqualIffNoDiff(c', d');
      MixBranch(c', d');
      AddColumnDiff(MixColumn(c'), MixColumn(d'), k);
    }
  }

  /** The four bytes of a state that index the tables in the first assignment of the macro. */
  function Gathered(e: Endian, x: State): Column {
    Column(Index0(e, x.w0), Index1(e, x.w1), Index2(e, x.w2), Index3(e, x.w3))
  }

  /** Branch number of one assignment: two states under one key word give the same word, or the
      four index bytes and the four result bytes differ in at least five places. Turning the
      states covers the other three assignments. */
  lemma WordBranch(e: Endian, x: State, y: State, k: Word)
    ensures var v := Bytes(e, RoundWord(e, x.w0, x.w1, x.w2, x.w3, k));
      var w := Bytes(e, RoundWord(e, y.w0, y.w1, y.w2, y.w3, k));
      if Gathered(e, x) == Gathered(e, y) then v == w
      else ColumnDiff(Gathered(e, x), Gathered(e, y)) + ColumnDiff(v, w) >= 5
  {
    hide RoundWord, Bytes, ColumnDiff, Index0, Index1, Index2, Index3, MixColumn, SubColumn, AddColumn;
    RoundWordIsColumn(e, x.w0, x.w1, x.w2, x.w3, k);
    RoundWordIsColumn(e, y.w0, y.w1, y.w2, y.w3, k);
    RoundColumnBranch(Gathered(e, x), Gathered(e, y), Bytes(e, k));
  }

  /** The branch number of a column in which `n` bytes differ before MixColumns and `m` after. */
  predicate ColumnBranch(n: nat, m: nat) {
    if n == 0 then m == 0 else n + m >= 5
  }

  /** `g`, `h` are the columns entering MixColumns in one round, `s`, `t` the states after it. */
  predicate Branches(g: Block, h: Block, s: Block, t: Block) {
    && ColumnBranch(ColumnDiff(g.c0, h.c0), ColumnDiff(s.c0, t.c0))
    && ColumnBranch(ColumnDiff(g.c1, h.c1), ColumnDiff(s.c1, t.c1))
    && ColumnBranch(ColumnDiff(g.c2, h.c2), ColumnDiff(s.c2, t.c2))
    && ColumnBranch(ColumnDiff(g.c3, h.c3), ColumnDiff(s.c3, t.c3))
  }

  lemma RoundColumnCounts(c: Column, d: Column, k: Column)
    ensures ColumnBranch(ColumnDiff(c, d), ColumnDiff(RoundColumn(c, k), RoundColumn(d, k)))
  {
    hide ColumnDiff, RoundColumn;
    RoundColumnBranch(c, d, k);
    EqualIffNoDiff(c, d);
    EqualIffNoDiff(RoundColumn(c, k), RoundColumn(d, k));
  }

  lemma RoundBranches(s: Block, t: Block, k: Block)
    ensures Branches(ShiftRows(s), ShiftRows(t), Round(s, k), Round(t, k))
  {
    hide RoundColumn, Round, ColumnDiff, ShiftRows, ColumnBranch;
    var g, h := ShiftRows(s), ShiftRows(t);
    RoundColumns(s, k);
    RoundColumns(t, k);
    RoundColumnCounts(g.c0, h.c0, k.c0);
    RoundColumnCounts(g.c1, h.c1, k.c1);
    RoundColumnCounts(g.c2, h.c2, k.c2);
    RoundColumnCounts(g.c3, h.c3, k.c3);
  }

  lemma ColumnBytes(c: Column, d: Column)
    ensures var n := ColumnDiff(c, d);
      && n == Diff(c.b0, d.b0) + Diff(c.b1, d.b1) + Diff(c.b2, d.b2) + Diff(c.b3, d.b3)
      && (n == 4 ==> Diff(c.b0, d.b0) == Diff(c.b1, d.b1) == Diff(c.b2, d.b2) == Diff(c.b3, d.b3) == 1)
      && (n == 0 ==> Diff(c.b0, d.b0) == Diff(c.b1, d.b1) == Diff(c.b2, d.b2) == Diff(c.b3, d.b3) == 0)
  {
    hide Diff;
  }

  /** A column that differs everywhere, the others nowhere, puts one byte into each gathered column. */
  lemma ColumnSpreads(s: Block, t: Block)
    requires BlockDiff(s, t) == 4
    requires
      || ColumnDiff(s.c0, t.c0) == 4 || ColumnDiff(s.c1, t.c1) == 4
      || ColumnDiff(s.c2, t.c2) == 4 || ColumnDiff(s.c3, t.c3) == 4
    ensures var g, h := ShiftRows(s), ShiftRows(t);
      ColumnDiff(g.c0, h.c0) == ColumnDiff(g.c1, h.c1) == ColumnDiff(g.c2, h.c2) == ColumnDiff(g.c3, h.c3) == 1
  {
    hide Diff, ColumnDiff;
    var g, h := ShiftRows(s), ShiftRows(t);
    var n0, n1 := ColumnDiff(s.c0, t.c0), ColumnDiff(s.c1, t.c1);
    var n2, n3 := ColumnDiff(s.c2, t.c2), ColumnDiff(s.c3, t.c3);
    assert n0 == 0 || n0 == 4;
    assert n1 == 0 || n1 == 4;
    assert n2 == 0 || n2 == 4;
    assert n3 == 0 || n3 == 4;
    ColumnBytes(s.c0, t.c0); ColumnBytes(s.c1, t.c1); ColumnBytes(s.c2, t.c2); ColumnBytes(s.c3, t.c3);
    ColumnBytes(g.c0, h.c0); ColumnBytes(g.c1, h.c1); ColumnBytes(g.c2, h.c2); ColumnBytes(g.c3, h.c3);
  }

  /** Full diffusion: one differing byte becomes exactly four after one round, and all sixteen
      after two, whatever the byte and the keys are. */
  lemma BlockDiffusion(s: Block, t: Block, k: Block, l: Block)
    requires BlockDiff(s, t) == 1
    ensures BlockDiff(Round(s, k), Round(t, k)) == 4
    ensures BlockDiff(Round(Round(s, k), l), Round(Round(t, k), l)) == 16
  {
    hide Round, ShiftRows, ColumnDiff;
    ShiftRowsDiff(s, t);
    RoundBranches(s, t, k);
    ColumnSpreads(Round(s, k), Round(t, k));
    RoundBranches(Round(s, k), Round(t, k), l);
  }

  // ---------- the wide trail ----------

  /** Two states in a row differ in at least five bytes for each column that differs in the second. */
  lemma TwoStates(s: Block, t: Block, k: Block)
    ensures BlockDiff(s, t) + BlockDiff(Round(s, k), Round(t, k)) >= 5 * ActiveColumns(Round(s, k), Round(t, k))
    ensures ActiveColumns(Round(s, k), Round(t, k)) == ActiveColumns(ShiftRows(s), ShiftRows(t))
  {
    hide Round, ShiftRows, ColumnDiff;
    RoundBranches(s, t, k);
    ShiftRowsDiff(s, t);
  }

  lemma ShiftRowsDiff(s: Block, t: Block)
    ensures BlockDiff(ShiftRows(s), ShiftRows(t)) == BlockDiff(s, t)
  {
    hide Diff;
  }

  lemma BytesActivate(c: Column, d: Column)
    ensures var n := Active(c, d);
      Diff(c.b0, d.b0) <= n && Diff(c.b1, d.b1) <= n && Diff(c.b2, d.b2) <= n && Diff(c.b3, d.b3) <= n
  {
    hide Diff;
  }

  /** The bytes of one gathered column come from four different columns. */
  lemma GatheredFrom(s: Block, t: Block)
    ensures var g, h, n := ShiftRows(s), ShiftRows(t), ActiveColumns(s, t);
      && ColumnDiff(g.c0, h.c0) <= n && ColumnDiff(g.c1, h.c1) <= n
      && ColumnDiff(g.c2, h.c2) <= n && ColumnDiff(g.c3, h.c3) <= n
  {
    hide Diff, Active;
    BytesActivate(s.c0, t.c0); BytesActivate(s.c1, t.c1); BytesActivate(s.c2, t.c2); BytesActivate(s.c3, t.c3);
  }

  /** The bytes of one column go to four different gathered columns. */
  lemma GatheredTo(s: Block, t: Block)
    ensures var n := ActiveColumns(ShiftRows(s), ShiftRows(t));
      && ColumnDiff(s.c0, t.c0) <= n && ColumnDiff(s.c1, t.c1) <= n
      && ColumnDiff(s.c2, t.c2) <= n && ColumnDiff(s.c3, t.c3) <= n
  {
    hide Diff, Active;
    var g, h := ShiftRows(s), ShiftRows(t);
    BytesActivate(g.c0, h.c0); BytesActivate(g.c1, h.c1); BytesActivate(g.c2, h.c2); BytesActivate(g.c3, h.c3);
  }

  lemma EqualIffNoBlockDiff(s: Block, t: Block)
    ensures s == t <==> BlockDiff(s, t) == 0
  {
    hide ColumnDiff;
    EqualIffNoDiff(s.c0, t.c0); EqualIffNoDiff(s.c1, t.c1); EqualIffNoDiff(s.c2, t.c2); EqualIffNoDiff(s.c3, t.c3);
  }

  /** Over two rounds the differing columns at the two ends number at least five. */
  lemma EndColumns(s: Block, t: Block, k: Block, l: Block)
    requires s != t
    ensures ActiveColumns(s, t) + ActiveColumns(Round(Round(s, k), l), Round(Round(t, k), l)) >= 5
  {
    hide Round, ShiftRows, ColumnDiff, ActiveColumns;
    var s', t' := Round(s, k), Round(t, k);
    RoundBranches(s, t, k);
    GatheredFrom(s, t);
    GatheredTo(s', t');
    TwoStates(s', t', l);
    ShiftRowsDiff(s, t);
    EqualIffNoBlockDiff(s, t);
  }

  /** Wide-trail bound: the four states of three rounds differ in at least 25 bytes in total. */
  lemma FourStates(s: Block, t: Block, k1: Block, k2: Block, k3: Block)
    requires s != t
    ensures
      var s1, t1 := Round(s, k1), Round(t, k1);
      var s2, t2 := Round(s1, k2), Round(t1, k2);
      var s3, t3 := Round(s2, k3), Round(t2, k3);
      BlockDiff(s, t) + BlockDiff(s1, t1) + BlockDiff(s2, t2) + BlockDiff(s3, t3) >= 25
  {
    hide Round, InvRound, BlockDiff, ActiveColumns;
    var s1, t1 := Round(s, k1), Round(t, k1);
    var s2, t2 := Round(s1, k2), Round(t1, k2);
    TwoStates(s, t, k1);
    TwoStates(s2, t2, k3);
    RoundInverse(s, k1);
    RoundInverse(t, k1);
    EndColumns(s1, t1, k2, k3);
  }

  lemma TwoStatesDiffer(s: Block, t: Block, k: Block)
    requires s != t
    ensures BlockDiff(s, t) + BlockDiff(Round(s, k), Round(t, k)) >= 5
  {
    hide Round, InvRound, BlockDiff, ActiveColumns;
    TwoStates(s, t, k);
    RoundInverse(s, k);
    RoundInverse(t, k);
    SomeColumnActive(Round(s, k), Round(t, k));
  }

  lemma SomeColumnActive(s: Block, t: Block)
    requires s != t
    ensures ActiveColumns(s, t) >= 1
  {
    hide ColumnDiff;
    EqualIffNoDiff(s.c0, t.c0); EqualIffNoDiff(s.c1, t.c1); EqualIffNoDiff(s.c2, t.c2); EqualIffNoDiff(s.c3, t.c3);
  }

  /** Some gathered column differs when the states do. */
  lemma SomeColumnDiffers(s: Block, t: Block)
    requires s != t
    ensures var g, h := ShiftRows(s), ShiftRows(t);
      || ColumnDiff(g.c0, h.c0) > 0 || ColumnDiff(g.c1, h.c1) > 0
      || ColumnDiff(g.c2, h.c2) > 0 || ColumnDiff(g.c3, h.c3) > 0
  {
    hide ShiftRows, ColumnDiff;
    ShiftRowsDiff(s, t);
    EqualIffNoBlockDiff(s, t);
  }

  /** A difference confined to one column differs in at least four bytes after the round. */
  lemma NarrowSpreads(s: Block, t: Block, k: Block)
    requires s != t && ActiveColumns(s, t) <= 1
    ensures BlockDiff(Round(s, k), Round(t, k)) >= 4
  {
    hide Round, ShiftRows, ColumnDiff, ActiveColumns;
    SomeColumnDiffers(s, t);
    GatheredFrom(s, t);
    RoundBranches(s, t, k);
  }

  /** The three states of two rounds differ in at least nine bytes in total. */
  lemma ThreeStates(s: Block, t: Block, k1: Block, k2: Block)
    requires s != t
    ensures
      var s1, t1 := Round(s, k1), Round(t, k1);
      BlockDiff(s, t) + BlockDiff(s1, t1) + BlockDiff(Round(s1, k2), Round(t1, k2)) >= 9
  {
    hide Round, BlockDiff, ActiveColumns, InvRound;
    var s1, t1 := Round(s, k1), Round(t, k1);
    TwoStates(s, t, k1);
    TwoStatesDiffer(s, t, k1);
    RoundInverse(s, k1);
    RoundInverse(t, k1);
    if ActiveColumns(s1, t1) <= 1 {
      NarrowSpreads(s1, t1, k2);
    }
  }

  // ---------- the same on the words of the macro ----------

  /** Two states that differ in one byte differ in four bytes after one table round and in all
      sixteen after two, for every position, all byte values and all keys. */
  lemma FullDiffusion(e: Endian, x: State, y: State, k: State, l: State)
    requires StateDiff(e, x, y) == 1
    ensures var x1, y1 := TableRound(e, x, k), TableRound(e, y, k);
      StateDiff(e, x1, y1) == 4 && StateDiff(e, TableRound(e, x1, l), TableRound(e, y1, l)) == 16
  {
    hide TableRound, Round, BlockOf, BlockDiff;
    TableRoundIsRound(e, x, k);
    TableRoundIsRound(e, y, k);
    TableRoundIsRound(e, TableRound(e, x, k), l);
    TableRoundIsRound(e, TableRound(e, y, k), l);
    BlockDiffusion(BlockOf(e, x), BlockOf(e, y), BlockOf(e, k), BlockOf(e, l));
  }

  /** The differing bytes of all states that enter the lookups of the rounds of a chain. */
  function TrailWeight(e: Endian, x: State, y: State, keys: seq<State>): nat
    decreases |keys|
  {
    if keys == [] then 0
    else StateDiff(e, x, y) + TrailWeight(e, TableRound(e, x, keys[0]), TableRound(e, y, keys[0]), keys[1..])
  }

  lemma TrailStep(e: Endian, x: State, y: State, keys: seq<State>)
    requires keys != []
    ensures TrailWeight(e, x, y, keys)
      == StateDiff(e, x, y) + TrailWeight(e, TableRound(e, x, keys[0]), TableRound(e, y, keys[0]), keys[1..])
  {
    hide TableRound, StateDiff;
  }

  lemma RoundsDiffer(e: Endian, x: State, y: State, k: State)
    requires x != y
    ensures TableRound(e, x, k) != TableRound(e, y, k)
  {
    hide TableRound, InvTableRound;
    TableRoundInverse(e, x, k);
    TableRoundInverse(e, y, k);
  }

  lemma FourTableRounds(e: Endian, x: State, y: State, k1: State, k2: State, k3: State)
    requires x != y
    ensures
      var x1, y1 := TableRound(e, x, k1), TableRound(e, y, k1);
      var x2, y2 := TableRound(e, x1, k2), TableRound(e, y1, k2);
      var x3, y3 := TableRound(e, x2, k3), TableRound(e, y2, k3);
      StateDiff(e, x, y) + StateDiff(e, x1, y1) + StateDiff(e, x2, y2) + StateDiff(e, x3, y3) >= 25
  {
    hide TableRound, Round, BlockOf, StateOf, BlockDiff;
    var x1, y1 := TableRound(e, x, k1), TableRound(e, y, k1);
    var x2, y2 := TableRound(e, x1, k2), TableRound(e, y1, k2);
    TableRoundIsRound(e, x, k1);
    TableRoundIsRound(e, y, k1);
    TableRoundIsRound(e, x1, k2);
    TableRoundIsRound(e, y1, k2);
    TableRoundIsRound(e, x2, k3);
    TableRoundIsRound(e, y2, k3);
    StateBlock(e, x, BlockOf(e, x));
    StateBlock(e, y, BlockOf(e, y));
    FourStates(BlockOf(e, x), BlockOf(e, y), BlockOf(e, k1), BlockOf(e, k2), BlockOf(e, k3));
  }

  lemma ThreeTableRounds(e: Endian, x: State, y: State, k1: State, k2: State)
    requires x != y
    ensures
      var x1, y1 := TableRound(e, x, k1), TableRound(e, y, k1);
      var x2, y2 := TableRound(e, x1, k2), TableRound(e, y1, k2);
      && StateDiff(e, x, y) >= 1
      && StateDiff(e, x, y) + StateDiff(e, x1, y1) >= 5
      && StateDiff(e, x, y) + StateDiff(e, x1, y1) + StateDiff(e, x2, y2) >= 9
  {
    hide TableRound, Round, BlockOf, StateOf, BlockDiff, ActiveColumns;
    var s, t := BlockOf(e, x), BlockOf(e, y);
    TableRoundIsRound(e, x, k1);
    TableRoundIsRound(e, y, k1);
    TableRoundIsRound(e, TableRound(e, x, k1), k2);
    TableRoundIsRound(e, TableRound(e, y, k1), k2);
    StateBlock(e, x, s);
    StateBlock(e, y, t);
    EqualIffNoBlockDiff(s, t);
    TwoStatesDiffer(s, t, BlockOf(e, k1));
    ThreeStates(s, t, BlockOf(e, k1), BlockOf(e, k2));
  }

  /** A proved minimum for the weight of a trail of n rounds. */
  function LeastWeight(n: nat): nat {
    25 * (n / 4) + match n % 4 case 0 => 0 case 1 => 1 case 2 => 5 case _ => 9
  }

  lemma TrailOfFew(e: Endian, x: State, y: State, keys: seq<State>)
    requires x != y && |keys| < 4
    ensures TrailWeight(e, x, y, keys) >= LeastWeight(|keys|)
  {
    hide TrailWeight, TableRound, StateDiff;
    if keys != [] {
      var x1, y1 := TableRound(e, x, keys[0]), TableRound(e, y, keys[0]);
      TrailStep(e, x, y, keys);
      ThreeTableRounds(e, x, y, keys[0], keys[if |keys| == 1 then 0 else 1]);
      if |keys| > 1 {
        TrailStep(e, x1, y1, keys[1..]);
        if |keys| > 2 {
          TrailStep(e, TableRound(e, x1, keys[1]), TableRound(e, y1, keys[1]), keys[2..]);
        }
      }
    }
  }

  /** Wide-trail bound: from two different start states, the states entering the lookups of every
      four chained rounds differ in at least 25 bytes in total, under any shared round keys; one,
      two or three rounds more add at least 1, 5 or 9. */
  lemma {:induction false} TrailBound(e: Endian, x: State, y: State, keys: seq<State>)
    requires x != y
    ensures TrailWeight(e, x, y, keys) >= LeastWeight(|keys|)
    decreases |keys|
  {
    hide TrailWeight, TableRound, StateDiff;
    if |keys| < 4 {
      TrailOfFew(e, x, y, keys);
    } else {
      var x1, y1 := TableRound(e, x, keys[0]), TableRound(e, y, keys[0]);
      var x2, y2 := TableRound(e, x1, keys[1]), TableRound(e, y1, keys[1]);
      var x3, y3 := TableRound(e, x2, keys[2]), TableRound(e, y2, keys[2]);
      FourTableRounds(e, x, y, keys[0], keys[1], keys[2]);
      TrailStep(e, x, y, keys);
      TrailStep(e, x1, y1, keys[1..]);
      TrailStep(e, x2, y2, keys[2..]);
      TrailStep(e, x3, y3, keys[3..]);
      RoundsDiffer(e, x, y, keys[0]);
      RoundsDiffer(e, x1, y1, keys[1]);
      RoundsDiffer(e, x2, y2, keys[2]);
      RoundsDiffer(e, x3, y3, keys[3]);
      TrailBound(e, TableRound(e, x3, keys[3]), TableRound(e, y3, keys[3]), keys[4..]);
      assert |keys| == |keys[4..]| + 4;
    }
  }

  // ---------- the bound is attained ----------

  const ZERO_COLUMN := Column(0, 0, 0, 0)
  const ZERO_BLOCK := Block(ZERO_COLUMN, ZERO_COLUMN, ZERO_COLUMN, ZERO_COLUMN)

  /** Four bytes that ShiftRows gathers in one column, with S-box outputs that MixColumns maps to
      a column differing in one byte from the image of the zero column. */
  const NARROW := Column(0x6D, 0x6A, 0x6E, 0x68)

  ghost function LowWeight(): Block {
    Block(Column(InvSubByte(NARROW.b0), 0, 0, 0), Column(0, InvSubByte(NARROW.b1), 0, 0),
          Column(0, 0, InvSubByte(NARROW.b2), 0), Column(0, 0, 0, InvSubByte(NARROW.b3)))
  }

  lemma SubZero()
    ensures SubByte(0) == 0x63
  {
    hide SubByte;
    SubByteIsTable(0);
  }

  lemma NarrowImage()
    ensures ColumnDiff(MixColumn(Column(0x63, 0x63, 0x63, 0x63)), MixColumn(NARROW)) == 1
  {
    hide Mul;
    MulSmall(0x63);
    MulSmall(NARROW.b0);
    MulSmall(NARROW.b1);
    MulSmall(NARROW.b2);
    MulSmall(NARROW.b3);
  }

  lemma LowWeightStart()
    ensures BlockDiff(ZERO_BLOCK, LowWeight()) == 4
  {
    hide SubByte, InvSubByte;
    SubZero();
    SubByteInverse(NARROW.b0); SubByteInverse(NARROW.b1); SubByteInverse(NARROW.b2); SubByteInverse(NARROW.b3);
  }

  lemma LowWeightRound(k: Block)
    ensures BlockDiff(Round(ZERO_BLOCK, k), Round(LowWeight(), k)) == 1
  {
    hide Round, SubByte, InvSubByte, MixColumn, AddColumn, ColumnDiff;
    var g := ShiftRows(LowWeight()).c0;
    SubZero();
    SubByteInverse(NARROW.b0); SubByteInverse(NARROW.b1); SubByteInverse(NARROW.b2); SubByteInverse(NARROW.b3);
    assert SubColumn(g) == NARROW;
    NarrowImage();
    AddColumnDiff(MixColumn(SubColumn(ZERO_COLUMN)), MixColumn(NARROW), k.c0);
    RoundColumns(ZERO_BLOCK, k);
    RoundColumns(LowWeight(), k);
    var r := Round(ZERO_BLOCK, k);
    EqualIffNoDiff(r.c1, r.c1); EqualIffNoDiff(r.c2, r.c2); EqualIffNoDiff(r.c3, r.c3);
  }

  /** For two, three and four rounds the bound is attained, whatever the round keys are: these two
      start states differ in exactly that many bytes along the trail. */
  lemma TrailBoundAttained(e: Endian, keys: seq<State>)
    requires 2 <= |keys| <= 4
    ensures var x, y := StateOf(e, ZERO_BLOCK), StateOf(e, LowWeight());
      x != y && TrailWeight(e, x, y, keys) == LeastWeight(|keys|)
  {
    hide TrailWeight, TableRound, StateDiff, StateOf, BlockOf, LowWeight, BlockDiff, Round, ShiftRows, SubByte;
    var x, y := StateOf(e, ZERO_BLOCK), StateOf(e, LowWeight());
    StateBlock(e, x, ZERO_BLOCK);
    StateBlock(e, y, LowWeight());
    LowWeightStart();
    var x1, y1 := TableRound(e, x, keys[0]), TableRound(e, y, keys[0]);
    TableRoundIsRound(e, x, keys[0]);
    TableRoundIsRound(e, y, keys[0]);
    LowWeightRound(BlockOf(e, keys[0]));
    StateDiffParts(e, x, y);
    StateDiffParts(e, x1, y1);
    var x2, y2 := TableRound(e, x1, keys[1]), TableRound(e, y1, keys[1]);
    TrailStep(e, x, y, keys);
    TrailStep(e, x1, y1, keys[1..]);
    if |keys| == 2 {
      TrailEnd(e, x2, y2, keys[2..]);
    } else {
      FullDiffusion(e, x1, y1, keys[1], keys[2]);
      var x3, y3 := TableRound(e, x2, keys[2]), TableRound(e, y2, keys[2]);
      TrailStep(e, x2, y2, keys[2..]);
      if |keys| == 3 {
        TrailEnd(e, x3, y3, keys[3..]);
      } else {
        TrailStep(e, x3, y3, keys[3..]);
        TrailEnd(e, TableRound(e, x3, keys[3]), TableRound(e, y3, keys[3]), keys[4..]);
      }
    }
  }

  lemma StateDiffParts(e: Endian, x: State, y: State)
    ensures StateDiff(e, x, y) == BlockDiff(BlockOf(e, x), BlockOf(e, y))
    ensures StateDiff(e, x, x) == 0
  {
  }

  lemma TrailEnd(e: Endian, x: State, y: State, keys: seq<State>)
    requires keys == []
    ensures TrailWeight(e, x, y, keys) == 0
  {
  }
}
