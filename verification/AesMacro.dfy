/** The round macros as C executes them: four assignments, one after another, to cells of a
    memory that also holds the inputs and the keys. */
module AesMacro {
  import opened AesTables
  import opened AesRound
  import opened AesChain

  /** A key argument: a cell, or the literal zero that AES_ROUND_NOKEY passes. */
  datatype KeyArg = KeyCell(cell: nat) | NoKey

  /** The arguments X0..X3, K0..K3, Y0..Y3 of the macro; inputs and outputs are cells. */
  datatype Args = Args(x: seq<nat>, k: seq<KeyArg>, y: seq<nat>)

  /** Four arguments of each kind, all cells of a memory of n words. */
  predicate ArgsIn(a: Args, n: nat) {
    && |a.x| == |a.k| == |a.y| == 4
    && (forall i :: 0 <= i < 4 ==> a.x[i] < n)
    && (forall i :: 0 <= i < 4 && a.k[i].KeyCell? ==> a.k[i].cell < n)
    && (forall i :: 0 <= i < 4 ==> a.y[i] < n)
  }

  function KeyValue(m: seq<Word>, k: KeyArg): Word
    requires k.KeyCell? ==> k.cell < |m|
  {
    match k case KeyCell(i) => m[i] case NoKey => 0
  }

  function StateAt(m: seq<Word>, a: Args): State
    requires ArgsIn(a, |m|)
  {
    State(m[a.x[0]], m[a.x[1]], m[a.x[2]], m[a.x[3]])
  }

  function KeyAt(m: seq<Word>, a: Args): State
    requires ArgsIn(a, |m|)
  {
    State(KeyValue(m, a.k[0]), KeyValue(m, a.k[1]), KeyValue(m, a.k[2]), KeyValue(m, a.k[3]))
  }

  // ---------- two readings of the macro ----------

  /** The right-hand side of assignment i. */
  function Output(e: Endian, s: State, i: nat, k: Word): Word {
    match i
    case 0 => RoundWord(e, s.w0, s.w1, s.w2, s.w3, k)
    case 1 => RoundWord(e, s.w1, s.w2, s.w3, s.w0, k)
    case 2 => RoundWord(e, s.w2, s.w3, s.w0, s.w1, k)
    case _ => RoundWord(e, s.w3, s.w0, s.w1, s.w2, k)
  }

  /** The memory after the first n assignments, each reading what the earlier ones left. */
  function After(e: Endian, m: seq<Word>, a: Args, n: nat): (r: seq<Word>)
    requires ArgsIn(a, |m|) && n <= 4
    ensures |r| == |m|
  {
    if n == 0 then m
    else
      var p := After(e, m, a, n - 1);
      p[a.y[n - 1] := Output(e, StateAt(p, a), n - 1, KeyValue(p, a.k[n - 1]))]
  }

  /** The four words of a round stored in the output cells. */
  function Store(m: seq<Word>, a: Args, r: State): (s: seq<Word>)
    requires ArgsIn(a, |m|)
    ensures |s| == |m|
  {
    m[a.y[0] := r.w0][a.y[1] := r.w1][a.y[2] := r.w2][a.y[3] := r.w3]
  }

  /** The macro executed in order. */
  function Sequential(e: Endian, m: seq<Word>, a: Args): seq<Word>
    requires ArgsIn(a, |m|)
  {
    After(e, m, a, 4)
  }

  /** The round of the memory as it was, stored in the output cells. */
  function Simultaneous(e: Endian, m: seq<Word>, a: Args): seq<Word>
    requires ArgsIn(a, |m|)
  {
    Store(m, a, TableRound(e, StateAt(m, a), KeyAt(m, a)))
  }

  /** The four assignments cell by cell, each reading what the earlier ones left. */
  lemma AssignmentReads(e: Endian, m: seq<Word>, a: Args)
    requires ArgsIn(a, |m|)
    ensures After(e, m, a, 0) == m
    ensures var p := After(e, m, a, 0);
      var k := if a.k[0].KeyCell? then p[a.k[0].cell] else 0;
      After(e, m, a, 1) == p[a.y[0] := RoundWord(e, p[a.x[0]], p[a.x[1]], p[a.x[2]], p[a.x[3]], k)]
    ensures var p := After(e, m, a, 1);
      var k := if a.k[1].KeyCell? then p[a.k[1].cell] else 0;
      After(e, m, a, 2) == p[a.y[1] := RoundWord(e, p[a.x[1]], p[a.x[2]], p[a.x[3]], p[a.x[0]], k)]
    ensures var p := After(e, m, a, 2);
      var k := if a.k[2].KeyCell? then p[a.k[2].cell] else 0;
      After(e, m, a, 3) == p[a.y[2] := RoundWord(e, p[a.x[2]], p[a.x[3]], p[a.x[0]], p[a.x[1]], k)]
    ensures var p := After(e, m, a, 3);
      var k := if a.k[3].KeyCell? then p[a.k[3].cell] else 0;
      After(e, m, a, 4) == p[a.y[3] := RoundWord(e, p[a.x[3]], p[a.x[0]], p[a.x[1]], p[a.x[2]], k)]
  {
    hide RoundWord;
  }

  predicate Distinct(a: Args)
    requires |a.y| == 4
  {
    forall i, j :: 0 <= i < j < 4 ==> a.y[i] != a.y[j]
  }

  /** The round stored in different cells, cell by cell. */
  lemma StoredRound(e: Endian, m: seq<Word>, a: Args)
    requires ArgsIn(a, |m|) && Distinct(a)
    ensures var key := (i: nat) requires i < 4 =>
        if a.k[i].KeyCell? then m[a.k[i].cell] else 0;
      var r := TableRound(e, State(m[a.x[0]], m[a.x[1]], m[a.x[2]], m[a.x[3]]),
                          State(key(0), key(1), key(2), key(3)));
      var s := Simultaneous(e, m, a);
      && s[a.y[0]] == r.w0 && s[a.y[1]] == r.w1 && s[a.y[2]] == r.w2 && s[a.y[3]] == r.w3
      && forall c :: 0 <= c < |m| && c !in a.y ==> s[c] == m[c]
  {
    hide TableRound;
    assert a.y[0] != a.y[1] && a.y[0] != a.y[2] && a.y[0] != a.y[3];
    assert a.y[1] != a.y[2] && a.y[1] != a.y[3] && a.y[2] != a.y[3];
  }

  // ---------- when the two readings agree ----------

  /** Assignment i leaves alone what assignment j reads. */
  predicate Clear(a: Args, i: nat, j: nat)
    requires |a.k| == |a.y| == 4 && i < 4 && j < 4
  {
    a.y[i] !in a.x && a.k[j] != KeyCell(a.y[i])
  }

  /** No assignment writes an input or a key that a later assignment reads: Y0, Y1 and Y2 are no
      input cells, and no Yi is the cell of a Kj with i < j. */
  predicate NoHazard(a: Args)
    requires |a.k| == |a.y| == 4
  {
    forall i, j :: 0 <= i < j < 4 ==> Clear(a, i, j)
  }

  /** Without hazards the later assignments read the original inputs and keys. */
  lemma {:induction false} InputsKept(e: Endian, m: seq<Word>, a: Args, n: nat)
    requires ArgsIn(a, |m|) && NoHazard(a) && n < 4
    ensures StateAt(After(e, m, a, n), a) == StateAt(m, a)
    ensures forall j :: n <= j < 4 ==> KeyValue(After(e, m, a, n), a.k[j]) == KeyValue(m, a.k[j])
  {
    hide Output;
    if n > 0 {
      InputsKept(e, m, a, n - 1);
      assert Clear(a, n - 1, n);
      forall j | n <= j < 4
        ensures KeyValue(After(e, m, a, n), a.k[j]) == KeyValue(m, a.k[j])
      {
        assert Clear(a, n - 1, j);
      }
    }
  }

  lemma NoHazardAgrees(e: Endian, m: seq<Word>, a: Args)
    requires ArgsIn(a, |m|) && NoHazard(a)
    ensures Sequential(e, m, a) == Simultaneous(e, m, a)
  {
    hide RoundWord, StateAt;
    InputsKept(e, m, a, 0);
    InputsKept(e, m, a, 1);
    InputsKept(e, m, a, 2);
    InputsKept(e, m, a, 3);
  }

  function Zeros(n: nat): (m: seq<Word>)
    ensures |m| == n
  {
    seq(n, _ => 0)
  }

  /** Every output of the round on a memory of zeros. */
  const FIXED: Word := 0x63636363

  lemma EntriesOfZero()
    ensures Raw0(0) == 0xA56363C6 && Raw1(0) == 0x6363C6A5 && Raw2(0) == 0x63C6A563 && Raw3(0) == 0xC6A56363
    ensures Raw0(0x63) == 0x16FBFBED && Raw1(0x63) == 0xFBFBED16 && Raw2(0x63) == 0xFBED16FB && Raw3(0x63) == 0xED16FBFB
  {
  }

  predicate ZeroOrFixed(w: Word) {
    w == 0 || w == FIXED
  }

  lemma MixedLittle(a: Word, b: Word, c: Word, d: Word, k: Word)
    requires ZeroOrFixed(a) && ZeroOrFixed(b) && ZeroOrFixed(c) && ZeroOrFixed(d) && ZeroOrFixed(k)
    ensures RoundWord(Little, a, b, c, d, k) == FIXED <==> a == b == c == d == k == 0
  {
    hide Raw0, Raw1, Raw2, Raw3;
    EntriesOfZero();
  }

  /** A right-hand side that reads a mixture of zeros and outputs shows it in its result. */
  lemma Mixed(e: Endian, a: Word, b: Word, c: Word, d: Word, k: Word)
    requires ZeroOrFixed(a) && ZeroOrFixed(b) && ZeroOrFixed(c) && ZeroOrFixed(d) && ZeroOrFixed(k)
    ensures RoundWord(e, a, b, c, d, k) == FIXED <==> a == b == c == d == k == 0
  {
    hide RoundWord;
    MixedLittle(a, b, c, d, k);
    if e == Big {
      RoundWordSwaps(a, b, c, d, k);
      SwapFixed(RoundWord(Little, a, b, c, d, k));
      SwapFixed(a); SwapFixed(b); SwapFixed(c); SwapFixed(d); SwapFixed(k);
    }
  }

  lemma SwapFixed(w: Word)
    ensures AESx(Big, w) == FIXED <==> w == FIXED
    ensures AESx(Big, w) == 0 <==> w == 0
  {
  }

  /** With distinct outputs an output cell keeps what its own assignment wrote. */
  lemma {:induction false} OutputKept(e: Endian, m: seq<Word>, a: Args, i: nat, n: nat)
    requires ArgsIn(a, |m|) && Distinct(a) && i < n <= 4
    ensures After(e, m, a, n)[a.y[i]]
         == Output(e, StateAt(After(e, m, a, i), a), i, KeyValue(After(e, m, a, i), a.k[i]))
    decreases n
  {
    hide Output, StateAt;
    if i + 1 < n {
      OutputKept(e, m, a, i, n - 1);
      assert a.y[i] != a.y[n - 1];
    }
  }

  /** If the two readings agree on a memory of zeros, then each assignment wrote the same word. */
  lemma AgreesOnZeros(e: Endian, n: nat, a: Args, i: nat)
    requires ArgsIn(a, n) && Distinct(a) && i < 4
    requires Sequential(e, Zeros(n), a) == Simultaneous(e, Zeros(n), a)
    ensures var p := After(e, Zeros(n), a, i);
      Output(e, StateAt(p, a), i, KeyValue(p, a.k[i])) == FIXED
  {
    hide RoundWord, After;
    var z := Zeros(n);
    OutputKept(e, z, a, i, 4);
    Mixed(e, 0, 0, 0, 0, 0);
    assert a.y[0] != a.y[1] && a.y[0] != a.y[2] && a.y[0] != a.y[3];
    assert a.y[1] != a.y[2] && a.y[1] != a.y[3] && a.y[2] != a.y[3];
  }

  /** ... so that before assignment i the outputs so far hold that word and all else is zero. */
  lemma {:induction false} ZerosAfter(e: Endian, n: nat, a: Args, i: nat)
    requires ArgsIn(a, n) && Distinct(a) && i <= 4
    requires Sequential(e, Zeros(n), a) == Simultaneous(e, Zeros(n), a)
    ensures var p := After(e, Zeros(n), a, i);
      forall c :: 0 <= c < n ==> p[c] == if c in a.y[..i] then FIXED else 0
  {
    hide Output, StateAt, Sequential, Simultaneous;
    if i > 0 {
      ZerosAfter(e, n, a, i - 1);
      AgreesOnZeros(e, n, a, i - 1);
      assert a.y[..i] == a.y[..i - 1] + [a.y[i - 1]];
    }
  }

  lemma MixedOutput(e: Endian, s: State, i: nat, k: Word)
    requires ZeroOrFixed(s.w0) && ZeroOrFixed(s.w1) && ZeroOrFixed(s.w2) && ZeroOrFixed(s.w3) && ZeroOrFixed(k)
    ensures Output(e, s, i, k) == FIXED <==> s == ZERO_KEY && k == 0
  {
    hide RoundWord;
    Mixed(e, s.w0, s.w1, s.w2, s.w3, k);
    Mixed(e, s.w1, s.w2, s.w3, s.w0, k);
    Mixed(e, s.w2, s.w3, s.w0, s.w1, k);
    Mixed(e, s.w3, s.w0, s.w1, s.w2, k);
  }

  lemma HazardShowsAt(e: Endian, n: nat, a: Args, i: nat, j: nat)
    requires ArgsIn(a, n) && Distinct(a) && i < j < 4
    requires Sequential(e, Zeros(n), a) == Simultaneous(e, Zeros(n), a)
    ensures Clear(a, i, j)
  {
    hide Output, After, Sequential, Simultaneous;
    var p := After(e, Zeros(n), a, j);
    ZerosAfter(e, n, a, j);
    AgreesOnZeros(e, n, a, j);
    MixedOutput(e, StateAt(p, a), j, KeyValue(p, a.k[j]));
    assert a.y[..j][i] == a.y[i];
    assert p[a.y[i]] == FIXED;
    assert forall t :: 0 <= t < 4 ==> p[a.x[t]] == 0;
  }

  /** Any hazard makes the two readings differ on a memory of zeros. */
  lemma HazardShows(e: Endian, n: nat, a: Args)
    requires ArgsIn(a, n) && Distinct(a)
    requires Sequential(e, Zeros(n), a) == Simultaneous(e, Zeros(n), a)
    ensures NoHazard(a)
  {
    hide Sequential, Simultaneous;
    forall i, j | 0 <= i < j < 4
      ensures Clear(a, i, j)
    {
      HazardShowsAt(e, n, a, i, j);
    }
  }

  /** With four distinct outputs, the macro computes the round on every memory exactly when no
      assignment overwrites what a later one reads. */
  lemma MacroIsRoundIffNoHazard(e: Endian, n: nat, a: Args)
    requires ArgsIn(a, n) && Distinct(a)
    ensures NoHazard(a) <==> forall m: seq<Word> | |m| == n :: Sequential(e, m, a) == Simultaneous(e, m, a)
  {
    hide Sequential, Simultaneous;
    if NoHazard(a) {
      forall m: seq<Word> | |m| == n
        ensures Sequential(e, m, a) == Simultaneous(e, m, a)
      {
        NoHazardAgrees(e, m, a);
      }
    } else if forall m: seq<Word> | |m| == n :: Sequential(e, m, a) == Simultaneous(e, m, a) {
      HazardShows(e, n, a);
    }
  }

  // ---------- the macros as methods ----------

  /** AES_ROUND_LE and AES_ROUND_BE: the assignments in the order of aes_helper.h. */
  method RoundMacro(e: Endian, mem: array<Word>, a: Args)
    requires ArgsIn(a, mem.Length)
    modifies mem
    ensures mem[..] == Sequential(e, old(mem[..]), a)
    ensures NoHazard(a) ==> mem[..] == Simultaneous(e, old(mem[..]), a)
    ensures NoHazard(a) && Distinct(a) ==>
      var m, s := old(mem[..]), mem[..];
      var key := (i: nat) requires i < 4 =>
        if a.k[i].KeyCell? then m[a.k[i].cell] else 0;
      var r := TableRound(e, State(m[a.x[0]], m[a.x[1]], m[a.x[2]], m[a.x[3]]),
                          State(key(0), key(1), key(2), key(3)));
      && s[a.y[0]] == r.w0 && s[a.y[1]] == r.w1 && s[a.y[2]] == r.w2 && s[a.y[3]] == r.w3
      && forall c :: 0 <= c < |m| && c !in a.y ==> s[c] == m[c]
  {
    hide RoundWord, Simultaneous, TableRound;
    ghost var m := mem[..];
    var x0, x1, x2, x3 := a.x[0], a.x[1], a.x[2], a.x[3];
    mem[a.y[0]] := RoundWord(e, mem[x0], mem[x1], mem[x2], mem[x3], KeyValue(mem[..], a.k[0]));
    assert mem[..] == After(e, m, a, 1);
    mem[a.y[1]] := RoundWord(e, mem[x1], mem[x2], mem[x3], mem[x0], KeyValue(mem[..], a.k[1]));
    assert mem[..] == After(e, m, a, 2);
    mem[a.y[2]] := RoundWord(e, mem[x2], mem[x3], mem[x0], mem[x1], KeyValue(mem[..], a.k[2]));
    assert mem[..] == After(e, m, a, 3);
    mem[a.y[3]] := RoundWord(e, mem[x3], mem[x0], mem[x1], mem[x2], KeyValue(mem[..], a.k[3]));
    assert mem[..] == After(e, m, a, 4);
    if NoHazard(a) {
      NoHazardAgrees(e, m, a);
      if Distinct(a) {
        StoredRound(e, m, a);
      }
    }
  }
}
