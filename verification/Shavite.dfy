/** The two macros that xptMiner/shavite.c builds on the unkeyed round: the round in place and the
    key expansion element. */
module Shavite {
  import opened AesTables
  import opened AesRound
  import opened AesChain
  import opened AesMacro

  /** Four different cells of a memory of n words. */
  predicate Cells(c: seq<nat>, n: nat) {
    && |c| == 4 && c[0] < n && c[1] < n && c[2] < n && c[3] < n
    && c[0] != c[1] && c[0] != c[2] && c[0] != c[3] && c[1] != c[2] && c[1] != c[3] && c[2] != c[3]
  }

  function WordsAt(m: seq<Word>, c: seq<nat>): State
    requires Cells(c, |m|)
  {
    State(m[c[0]], m[c[1]], m[c[2]], m[c[3]])
  }

  function Placed(m: seq<Word>, c: seq<nat>, s: State): (r: seq<Word>)
    requires Cells(c, |m|)
    ensures |r| == |m| && WordsAt(r, c) == s
  {
    m[c[0] := s.w0][c[1] := s.w1][c[2] := s.w2][c[3] := s.w3]
  }

  // ---------- AES_ROUND_NOKEY ----------

  /** The round macro applied with the inputs as outputs. */
  function InPlace(c: seq<nat>): Args {
    Args(c, [NoKey, NoKey, NoKey, NoKey], c)
  }

  /** Without copies the round in place goes wrong, whichever four cells it is applied to. */
  lemma InPlaceNeedsCopies(e: Endian, n: nat, c: seq<nat>)
    requires Cells(c, n)
    ensures exists m: seq<Word> :: |m| == n && Sequential(e, m, InPlace(c)) != Simultaneous(e, m, InPlace(c))
  {
    hide Sequential, Simultaneous;
    assert !Clear(InPlace(c), 0, 1);
    MacroIsRoundIffNoHazard(e, n, InPlace(c));
  }

  /** Copies the four words first, so that the outputs may replace the inputs. */
  method RoundInPlace(mem: array<Word>, c: seq<nat>)
    requires Cells(c, mem.Length)
    modifies mem
    ensures mem[..] == Placed(old(mem[..]), c, TableRound(Little, WordsAt(old(mem[..]), c), ZERO_KEY))
    ensures var x := State(old(mem[c[0]]), old(mem[c[1]]), old(mem[c[2]]), old(mem[c[3]]));
      var r := TableRound(Little, x, State(0, 0, 0, 0));
      mem[c[0]] == r.w0 && mem[c[1]] == r.w1 && mem[c[2]] == r.w2 && mem[c[3]] == r.w3
    ensures forall i :: 0 <= i < mem.Length && i !in c ==> mem[i] == old(mem[i])
  {
    hide RoundWord;
    var t0, t1, t2, t3 := mem[c[0]], mem[c[1]], mem[c[2]], mem[c[3]];
    mem[c[0]] := RoundWord(Little, t0, t1, t2, t3, 0);
    mem[c[1]] := RoundWord(Little, t1, t2, t3, t0, 0);
    mem[c[2]] := RoundWord(Little, t2, t3, t0, t1, 0);
    mem[c[3]] := RoundWord(Little, t3, t0, t1, t2, 0);
  }

  // ---------- KEY_EXPAND_ELT ----------

  function KeyExpand(s: State): State {
    Turn(TableRound(Little, s, ZERO_KEY))
  }

  lemma RoundTurns(s: State)
    ensures TableRound(Little, Turn(s), ZERO_KEY) == Turn(TableRound(Little, s, ZERO_KEY))
  {
    hide RoundWord;
  }

  /** A round on the words k1, k2, k3, k0, then the words moved one place down. */
  method KeyExpandElt(mem: array<Word>, k: seq<nat>)
    requires Cells(k, mem.Length)
    modifies mem
    ensures mem[..] == Placed(old(mem[..]), k, KeyExpand(WordsAt(old(mem[..]), k)))
    ensures var x := State(old(mem[k[0]]), old(mem[k[1]]), old(mem[k[2]]), old(mem[k[3]]));
      var r := TableRound(Little, x, State(0, 0, 0, 0));
      mem[k[0]] == r.w1 && mem[k[1]] == r.w2 && mem[k[2]] == r.w3 && mem[k[3]] == r.w0
    ensures forall i :: 0 <= i < mem.Length && i !in k ==> mem[i] == old(mem[i])
  {
    hide TableRound;
    ghost var s := WordsAt(mem[..], k);
    RoundInPlace(mem, [k[1], k[2], k[3], k[0]]);
    RoundTurns(s);
    assert WordsAt(mem[..], k) == TableRound(Little, s, ZERO_KEY);
    var kt := mem[k[0]];
    mem[k[0]] := mem[k[1]];
    mem[k[1]] := mem[k[2]];
    mem[k[2]] := mem[k[3]];
    mem[k[3]] := kt;
  }

  function KeyExpandTimes(s: State, n: nat): State {
    if n == 0 then s else KeyExpand(KeyExpandTimes(s, n - 1))
  }

  function TurnTimes(s: State, n: nat): State {
    if n == 0 then s else Turn(TurnTimes(s, n - 1))
  }

  function NoKeys(n: nat): (ks: seq<State>)
    ensures |ks| == n
  {
    seq(n, _ => ZERO_KEY)
  }

  lemma {:induction false} RoundTurnsTimes(s: State, n: nat)
    ensures TableRound(Little, TurnTimes(s, n), ZERO_KEY) == TurnTimes(TableRound(Little, s, ZERO_KEY), n)
  {
    hide TableRound;
    if n > 0 {
      RoundTurnsTimes(s, n - 1);
      RoundTurns(TurnTimes(s, n - 1));
    }
  }

  /** n key expansion elements are n unkeyed rounds of AES, with the words turned n times. */
  lemma {:induction false} KeyExpandIsChain(s: State, n: nat)
    ensures KeyExpandTimes(s, n) == TurnTimes(Chain(Little, s, NoKeys(n)), n)
  {
    hide TableRound;
    if n > 0 {
      var before := Chain(Little, s, NoKeys(n - 1));
      KeyExpandIsChain(s, n - 1);
      RoundTurnsTimes(before, n - 1);
      assert NoKeys(n) == NoKeys(n - 1) + [ZERO_KEY];
      ChainAppend(Little, s, NoKeys(n - 1), [ZERO_KEY]);
      assert Chain(Little, before, [ZERO_KEY]) == TableRound(Little, before, ZERO_KEY);
    }
  }
}
