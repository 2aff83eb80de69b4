/** SubBytes of sections 5.1.1 and 5.3.2 of FIPS 197, defined from the field alone, and the
    entries of the tables of aes_helper.h, row by row. */
module SBox {
  import opened GaloisField
  import opened AesTables

  /** The affine transformation of section 5.1.1. */
  function Affine(b: bv8): bv8 {
    b ^ b.RotateLeft(1) ^ b.RotateLeft(2) ^ b.RotateLeft(3) ^ b.RotateLeft(4) ^ 0x63
  }

  /** The inverse affine transformation of section 5.3.2. */
  function InvAffine(s: bv8): bv8 {
    s.RotateLeft(1) ^ s.RotateLeft(3) ^ s.RotateLeft(6) ^ 0x05
  }

  /** Byte 1 of the entry of AES0 for `a`. */
  function TableSBox(a: bv8): bv8 {
    ((Raw0(a) >> 8) & 0xFF) as bv8
  }

  lemma AffineInverse(b: bv8)
    ensures InvAffine(Affine(b)) == b && Affine(InvAffine(b)) == b
  {
  }

  // ---------- the entries of the tables ----------

  /** Multiplication by x without a branch. */
  function Double(a: bv8): bv8 {
    (a << 1) ^ ((a >> 7) * 0x1B)
  }

  /** The product of `a` and `b`, unrolled and without branches. */
  function Product(a: bv8, b: bv8): bv8 {
    var a1 := Double(a);
    var a2 := Double(a1);
    var a3 := Double(a2);
    var a4 := Double(a3);
    var a5 := Double(a4);
    var a6 := Double(a5);
    var a7 := Double(a6);
    AddEight(Times(a, b), Times(a1, b >> 1), Times(a2, b >> 2), Times(a3, b >> 3),
      Times(a4, b >> 4), Times(a5, b >> 5), Times(a6, b >> 6), Times(a7, b >> 7))
  }

  /** `a` times the low bit of `b`. */
  function Times(a: bv8, b: bv8): bv8 {
    (b & 1) * a
  }

  function AddEight(t0: bv8, t1: bv8, t2: bv8, t3: bv8, t4: bv8, t5: bv8, t6: bv8, t7: bv8): bv8 {
    t0 ^ t1 ^ t2 ^ t3 ^ t4 ^ t5 ^ t6 ^ t7
  }

  /** What holds of entry i of the four tables: AES0 stores 2, 1, 1 and 3 times the S-box byte, the
      others store the same bytes turned, and the S-box byte belongs to the inverse of i. */
  predicate EntryFacts(i: bv8) {
    var w, s := Raw0(i), TableSBox(i);
    && (w & 0xFF) as bv8 == Double(s)
    && ((w >> 16) & 0xFF) as bv8 == s
    && ((w >> 24) & 0xFF) as bv8 == Double(s) ^ s
    && Raw1(i) == w.RotateLeft(8) && Raw2(i) == w.RotateLeft(16) && Raw3(i) == w.RotateLeft(24)
    && (i != 0 ==> Product(InvAffine(s), i) == 1)
  }

  lemma Row0Low(i: bv8)
    requires i >> 3 == 0
    ensures EntryFacts(i)
  {
    if i == 0 {
    } else {
    }
  }

  lemma Row0High(i: bv8)
    requires i >> 3 == 1
    ensures EntryFacts(i)
  {
  }

  lemma Row1(i: bv8)
    requires i >> 4 == 0x1
    ensures EntryFacts(i)
  {
  }

  lemma Row2(i: bv8)
    requires i >> 4 == 0x2
    ensures EntryFacts(i)
  {
  }

  lemma Row3(i: bv8)
    requires i >> 4 == 0x3
    ensures EntryFacts(i)
  {
  }

  lemma Row4(i: bv8)
    requires i >> 4 == 0x4
    ensures EntryFacts(i)
  {
  }

  lemma Row5(i: bv8)
    requires i >> 4 == 0x5
    ensures EntryFacts(i)
  {
  }

  lemma Row6(i: bv8)
    requires i >> 4 == 0x6
    ensures EntryFacts(i)
  {
  }

  lemma Row7(i: bv8)
    requires i >> 4 == 0x7
    ensures EntryFacts(i)
  {
  }

  lemma Row8(i: bv8)
    requires i >> 4 == 0x8
    ensures EntryFacts(i)
  {
  }

  lemma Row9(i: bv8)
    requires i >> 4 == 0x9
    ensures EntryFacts(i)
  {
  }

  lemma RowA(i: bv8)
    requires i >> 4 == 0xA
    ensures EntryFacts(i)
  {
  }

  lemma RowB(i: bv8)
    requires i >> 4 == 0xB
    ensures EntryFacts(i)
  {
  }

  lemma RowC(i: bv8)
    requires i >> 4 == 0xC
    ensures EntryFacts(i)
  {
  }

  lemma RowD(i: bv8)
    requires i >> 4 == 0xD
    ensures EntryFacts(i)
  {
  }

  lemma RowE(i: bv8)
    requires i >> 4 == 0xE
    ensures EntryFacts(i)
  {
  }

  lemma RowF(i: bv8)
    requires i >> 4 == 0xF
    ensures EntryFacts(i)
  {
  }

  lemma TableOfZero()
    ensures InvAffine(TableSBox(0)) == 0
  {
  }

  lemma EveryEntry(i: bv8)
    ensures EntryFacts(i)
  {
    hide EntryFacts;
    match i >> 4
    case 0x0 => if i >> 3 == 0 { Row0Low(i); } else { Row0High(i); }
    case 0x1 => Row1(i);
    case 0x2 => Row2(i);
    case 0x3 => Row3(i);
    case 0x4 => Row4(i);
    case 0x5 => Row5(i);
    case 0x6 => Row6(i);
    case 0x7 => Row7(i);
    case 0x8 => Row8(i);
    case 0x9 => Row9(i);
    case 0xA => RowA(i);
    case 0xB => RowB(i);
    case 0xC => RowC(i);
    case 0xD => RowD(i);
    case 0xE => RowE(i);
    case _ => RowF(i);
  }

  // ---------- the unrolled product is the product of section 4.2.1 ----------

  lemma DoubleIsXTime(a: bv8)
    ensures Double(a) == XTime(a)
  {
    XTimeBranchFree(a);
  }

  lemma TimesIsGate(a: bv8, b: bv8)
    ensures Times(a, b) == Gate(a, b)
  {
  }

  lemma AddEightIsAdd(t0: bv8, t1: bv8, t2: bv8, t3: bv8, t4: bv8, t5: bv8, t6: bv8, t7: bv8)
    ensures AddEight(t0, t1, t2, t3, t4, t5, t6, t7)
      == Add(t0, Add(t1, Add(t2, Add(t3, Add(t4, Add(t5, Add(t6, Add(t7, 0))))))))
  {
    assert t0 ^ t1 ^ t2 ^ t3 ^ t4 ^ t5 ^ t6 ^ t7 == t0 ^ (t1 ^ (t2 ^ (t3 ^ (t4 ^ (t5 ^ (t6 ^ (t7 ^ 0)))))));
  }

  lemma Shifts(b: bv8)
    ensures (b >> 1) >> 1 == b >> 2 && (b >> 2) >> 1 == b >> 3 && (b >> 3) >> 1 == b >> 4
    ensures (b >> 4) >> 1 == b >> 5 && (b >> 5) >> 1 == b >> 6 && (b >> 6) >> 1 == b >> 7 && (b >> 7) >> 1 == 0
  {
  }

  lemma ProductStep(a: bv8, b: bv8)
    ensures Mul(a, b) == Add(Times(a, b), Mul(Double(a), b >> 1))
  {
    hide *;
    MulStep(a, b);
    DoubleIsXTime(a);
    TimesIsGate(a, b);
  }

  lemma ProductIsMul(a: bv8, b: bv8)
    ensures Product(a, b) == Mul(a, b)
  {
    hide Mul, Double, Times, Add, AddEight;
    var a1 := Double(a);
    var a2 := Double(a1);
    var a3 := Double(a2);
    var a4 := Double(a3);
    var a5 := Double(a4);
    var a6 := Double(a5);
    var a7 := Double(a6);
    Shifts(b);
    ProductStep(a, b); ProductStep(a1, b >> 1); ProductStep(a2, b >> 2); ProductStep(a3, b >> 3);
    ProductStep(a4, b >> 4); ProductStep(a5, b >> 5); ProductStep(a6, b >> 6); ProductStep(a7, b >> 7);
    MulZero(Double(a7));
    AddEightIsAdd(Times(a, b), Times(a1, b >> 1), Times(a2, b >> 2), Times(a3, b >> 3),
      Times(a4, b >> 4), Times(a5, b >> 5), Times(a6, b >> 6), Times(a7, b >> 7));
  }

  // ---------- SubBytes ----------

  lemma TableGivesInverse(a: bv8)
    ensures IsInverse(a, InvAffine(TableSBox(a)))
  {
    hide TableSBox, InvAffine, Mul, Product, Raw0, Raw1, Raw2, Raw3, Double;
    EveryEntry(a);
    ProductIsMul(InvAffine(TableSBox(a)), a);
    MulComm(InvAffine(TableSBox(a)), a);
    TableOfZero();
  }

  /** The multiplicative inverse in GF(2^8); zero is mapped to itself. */
  ghost function Inverse(a: bv8): bv8 {
    TableGivesInverse(a);
    var b :| IsInverse(a, b);
    b
  }

  ghost function SubByte(a: bv8): bv8 {
    Affine(Inverse(a))
  }

  ghost function InvSubByte(s: bv8): bv8 {
    Inverse(InvAffine(s))
  }

  /** The table entry of `a` is the affine image of `b` exactly when `b` is the inverse of `a`. */
  lemma TableIffInverse(a: bv8, b: bv8)
    ensures IsInverse(a, b) <==> TableSBox(a) == Affine(b)
  {
    hide *;
    TableGivesInverse(a);
    AffineInverse(b);
    AffineInverse(TableSBox(a));
    if IsInverse(a, b) {
      InversesAgree(a, b, InvAffine(TableSBox(a)));
    }
  }

  /** SubBytes as FIPS 197 defines it is the byte stored in the table. */
  lemma SubByteIsTable(a: bv8)
    ensures SubByte(a) == TableSBox(a)
  {
    hide TableSBox, Affine, IsInverse;
    TableGivesInverse(a);
    TableIffInverse(a, Inverse(a));
  }

  lemma InverseInvolution(a: bv8)
    ensures Inverse(Inverse(a)) == a
  {
    hide IsInverse, InvAffine, TableSBox;
    TableGivesInverse(a);
    var b := Inverse(a);
    TableGivesInverse(b);
    InversesAgree(a, b, b);
    InversesAgree(b, Inverse(b), a);
  }

  /** SubBytes and InvSubBytes undo each other. */
  lemma SubByteInverse(a: bv8)
    ensures InvSubByte(SubByte(a)) == a && SubByte(InvSubByte(a)) == a
  {
    hide Inverse, Affine, InvAffine;
    AffineInverse(Inverse(a));
    AffineInverse(a);
    InverseInvolution(a);
    InverseInvolution(InvAffine(a));
  }

  /** No product of nonzero bytes is zero. */
  lemma NoZeroDivisors(a: bv8, b: bv8)
    requires Mul(a, b) == 0
    ensures a == 0 || b == 0
  {
    hide Mul;
    if b != 0 {
      var c := InvAffine(TableSBox(b));
      TableGivesInverse(b);
      MulAssoc(a, b, c);
      MulOne(a);
      MulComm(a, 1);
      MulComm(0, c);
      MulZero(c);
    }
  }
}
