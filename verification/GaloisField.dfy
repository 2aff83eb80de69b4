/** The field GF(2^8) of section 4 of FIPS 197: a byte is a polynomial over GF(2),
    addition is XOR, and multiplication is taken modulo x^8 + x^4 + x^3 + x + 1. */
module GaloisField {

  /** Section 4.1. */
  function Add(a: bv8, b: bv8): bv8 {
    a ^ b
  }

  /** Multiplication by x, section 4.2.1: a shift, and a reduction if a bit was shifted out. */
  function XTime(a: bv8): bv8 {
    if a & 0x80 == 0 then a << 1 else (a << 1) ^ 0x1B
  }

  /** `a` when the low bit of `b` is set, and zero otherwise. */
  function Gate(a: bv8, b: bv8): bv8 {
    if b & 1 == 0 then 0 else a
  }

  /** Section 4.2.1: the products of `a` by the powers of x that occur in `b`, added up. */
  function Mul(a: bv8, b: bv8): bv8
    decreases b
  {
    if b == 0 then 0 else Add(Gate(a, b), Mul(XTime(a), b >> 1))
  }

  function Sum(a: bv8, b: bv8, c: bv8, d: bv8): bv8 {
    Add(Add(a, b), Add(c, d))
  }

  /** Section 4.2: `b` is the multiplicative inverse of `a`, where zero is mapped to itself. */
  predicate IsInverse(a: bv8, b: bv8) {
    if a == 0 then b == 0 else Mul(a, b) == 1
  }

  // ---------- addition ----------

  lemma AddComm(a: bv8, b: bv8)
    ensures Add(a, b) == Add(b, a)
  {
  }

  lemma AddAssoc(a: bv8, b: bv8, c: bv8)
    ensures Add(Add(a, b), c) == Add(a, Add(b, c))
  {
    assert (a ^ b) ^ c == a ^ (b ^ c);
  }

  /** Adding the same byte twice changes nothing. */
  lemma AddCancel(a: bv8, b: bv8)
    ensures Add(Add(a, b), b) == a
    ensures Add(a, 0) == a && Add(0, a) == a && Add(a, a) == 0
  {
  }

  /** Two bytes agree exactly when their sum is zero. */
  lemma AddZero(a: bv8, b: bv8)
    ensures Add(a, b) == 0 <==> a == b
  {
  }

  lemma AddSwap(a: bv8, b: bv8, c: bv8, d: bv8)
    ensures Add(Add(a, b), Add(c, d)) == Add(Add(a, c), Add(b, d))
  {
    hide *;
    AddAssoc(a, b, Add(c, d));
    AddAssoc(b, c, d);
    AddComm(b, c);
    AddAssoc(c, b, d);
    AddAssoc(a, c, Add(b, d));
  }

  lemma SumSwap(a: bv8, b: bv8, c: bv8, d: bv8, a': bv8, b': bv8, c': bv8, d': bv8)
    ensures Sum(Add(a, a'), Add(b, b'), Add(c, c'), Add(d, d')) == Add(Sum(a, b, c, d), Sum(a', b', c', d'))
  {
    hide Add;
    AddSwap(a, a', b, b');
    AddSwap(c, c', d, d');
    AddSwap(Add(a, b), Add(a', b'), Add(c, d), Add(c', d'));
  }

  // ---------- multiplication by x ----------

  lemma XTimeBranchFree(a: bv8)
    ensures XTime(a) == (a << 1) ^ ((a >> 7) * 0x1B)
  {
  }

  lemma XTimeAdd(a: bv8, b: bv8)
    ensures XTime(Add(a, b)) == Add(XTime(a), XTime(b))
  {
    hide XTime;
    XTimeBranchFree(a);
    XTimeBranchFree(b);
    XTimeBranchFree(a ^ b);
  }

  /** A byte is its low bit plus x times the rest. */
  lemma LowBit(b: bv8)
    ensures b == Add(Gate(1, b), XTime(b >> 1))
    ensures Gate(1, b) == 0 || Gate(1, b) == 1
  {
  }

  lemma GateCases(a: bv8, b: bv8)
    ensures Gate(a, b) == if Gate(1, b) == 0 then 0 else a
  {
  }

  // ---------- multiplication ----------

  lemma MulZero(a: bv8)
    ensures Mul(a, 0) == 0
  {
  }

  lemma MulStep(a: bv8, b: bv8)
    ensures Mul(a, b) == Add(Gate(a, b), Mul(XTime(a), b >> 1))
    ensures b != 0 ==> b >> 1 < b
  {
  }

  lemma {:induction false} MulXTime(a: bv8, b: bv8)
    ensures Mul(XTime(a), b) == XTime(Mul(a, b))
    decreases b
  {
    hide Mul, XTime, Add, Gate;
    XTimeZero();
    if b == 0 {
      MulZero(a);
      MulZero(XTime(a));
    } else {
      MulStep(a, b);
      MulStep(XTime(a), b);
      MulXTime(XTime(a), b >> 1);
      XTimeAdd(Gate(a, b), Mul(XTime(a), b >> 1));
      GateCases(a, b);
      GateCases(XTime(a), b);
    }
  }

  lemma XTimeZero()
    ensures XTime(0) == 0
  {
  }

  /** Multiplication distributes over addition on the left. */
  lemma {:induction false} MulAddLeft(a: bv8, c: bv8, b: bv8)
    ensures Mul(Add(a, c), b) == Add(Mul(a, b), Mul(c, b))
    decreases b
  {
    hide Mul, XTime, Add, Gate;
    AddCancel(0, 0);
    if b == 0 {
      MulZero(a);
      MulZero(c);
      MulZero(Add(a, c));
    } else {
      MulStep(a, b);
      MulStep(c, b);
      MulStep(Add(a, c), b);
      XTimeAdd(a, c);
      MulAddLeft(XTime(a), XTime(c), b >> 1);
      GateCases(a, b);
      GateCases(c, b);
      GateCases(Add(a, c), b);
      AddSwap(Gate(a, b), Mul(XTime(a), b >> 1), Gate(c, b), Mul(XTime(c), b >> 1));
    }
  }

  lemma {:induction false} MulOne(b: bv8)
    ensures Mul(1, b) == b
    decreases b
  {
    hide Mul, XTime, Add, Gate;
    if b == 0 {
      MulZero(1);
    } else {
      MulStep(1, b);
      MulXTime(1, b >> 1);
      MulOne(b >> 1);
      LowBit(b);
    }
  }

  lemma {:induction false} MulComm(a: bv8, b: bv8)
    ensures Mul(a, b) == Mul(b, a)
    decreases b
  {
    hide Mul, XTime, Add, Gate;
    if b == 0 {
      MulZero(a);
      AddCancel(Mul(0, a), 0);
      AddCancel(0, 0);
      MulAddLeft(0, 0, a);
    } else {
      MulStep(a, b);
      MulComm(a, b >> 1);
      MulXTime(a, b >> 1);
      MulXTime(b >> 1, a);
      LowBit(b);
      MulAddLeft(Gate(1, b), XTime(b >> 1), a);
      GateCases(a, b);
      MulOne(a);
      MulComm(a, 0);
      MulZero(a);
    }
  }

  /** Multiplication distributes over addition on the right. */
  lemma MulAdd(a: bv8, b: bv8, c: bv8)
    ensures Mul(a, Add(b, c)) == Add(Mul(a, b), Mul(a, c))
  {
    hide *;
    MulComm(a, b);
    MulComm(a, c);
    MulComm(a, Add(b, c));
    MulAddLeft(b, c, a);
  }

  lemma {:induction false} MulAssoc(a: bv8, b: bv8, c: bv8)
    ensures Mul(Mul(a, b), c) == Mul(a, Mul(b, c))
    decreases c
  {
    hide Mul, XTime, Add, Gate;
    MulZero(a);
    if c == 0 {
      MulZero(b);
      MulZero(Mul(a, b));
    } else {
      var rest := Mul(b, c >> 1);
      MulStep(Mul(a, b), c);
      MulXTime(Mul(a, b), c >> 1);
      MulAssoc(a, b, c >> 1);
      MulComm(a, rest);
      MulXTime(rest, a);
      MulComm(XTime(rest), a);
      MulStep(b, c);
      MulXTime(b, c >> 1);
      MulAdd(a, Gate(b, c), XTime(rest));
      GateCases(b, c);
      GateCases(Mul(a, b), c);
    }
  }

  /** A byte has at most one inverse, and is the inverse of its inverse. */
  lemma InversesAgree(a: bv8, b: bv8, c: bv8)
    requires IsInverse(a, b) && IsInverse(a, c)
    ensures b == c && IsInverse(b, a)
  {
    hide Mul;
    MulZero(a);
    if a != 0 {
      MulAssoc(b, a, c);
      MulComm(a, b);
      MulOne(b);
      MulOne(c);
      MulComm(b, 1);
      MulComm(a, 0);
      assert b != 0;
    }
  }

  // ---------- sums of products ----------

  lemma MulSum(k0: bv8, k1: bv8, k2: bv8, k3: bv8, a: bv8)
    ensures Sum(Mul(k0, a), Mul(k1, a), Mul(k2, a), Mul(k3, a)) == Mul(Sum(k0, k1, k2, k3), a)
  {
    hide Mul, Add;
    MulAddLeft(k0, k1, a);
    MulAddLeft(k2, k3, a);
    MulAddLeft(Add(k0, k1), Add(k2, k3), a);
  }

  /** An entry of the product of two matrices, times a byte. */
  lemma MulProducts(n0: bv8, m0: bv8, n1: bv8, m1: bv8, n2: bv8, m2: bv8, n3: bv8, m3: bv8, a: bv8)
    ensures Sum(Mul(n0, Mul(m0, a)), Mul(n1, Mul(m1, a)), Mul(n2, Mul(m2, a)), Mul(n3, Mul(m3, a)))
      == Mul(Sum(Mul(n0, m0), Mul(n1, m1), Mul(n2, m2), Mul(n3, m3)), a)
  {
    hide Mul, Sum;
    MulAssoc(n0, m0, a);
    MulAssoc(n1, m1, a);
    MulAssoc(n2, m2, a);
    MulAssoc(n3, m3, a);
    MulSum(Mul(n0, m0), Mul(n1, m1), Mul(n2, m2), Mul(n3, m3), a);
  }

  /** The small multiples of a byte by doubling. */
  lemma MulSmall(b: bv8)
    ensures Mul(0x02, b) == XTime(b) && Mul(0x03, b) == Add(XTime(b), b)
  {
    hide Mul;
    MulOne(b);
    MulXTime(1, b);
    MulAddLeft(0x02, 1, b);
  }
}
