/** Any number of table rounds, one after another, under arbitrary round keys. */
module AesChain {
  import opened AesTables
  import opened Fips197
  import opened AesRound

  /** The state after one table round per key. */
  function Chain(e: Endian, x: State, keys: seq<State>): State
    decreases |keys|
  {
    if keys == [] then x else Chain(e, TableRound(e, x, keys[0]), keys[1..])
  }

  lemma {:induction false} ChainAppend(e: Endian, x: State, ks: seq<State>, ls: seq<State>)
    ensures Chain(e, x, ks + ls) == Chain(e, Chain(e, x, ks), ls)
    decreases |ks|
  {
    hide TableRound;
    if ks == [] {
      assert ks + ls == ls;
    } else {
      assert (ks + ls)[1..] == ks[1..] + ls;
      ChainAppend(e, TableRound(e, x, ks[0]), ks[1..], ls);
    }
  }

  // ---------- refinement ----------

  ghost function Rounds(s: Block, keys: seq<Block>): Block
    decreases |keys|
  {
    if keys == [] then s else Rounds(Round(s, keys[0]), keys[1..])
  }

  function BlocksOf(e: Endian, keys: seq<State>): (bs: seq<Block>)
    ensures |bs| == |keys|
  {
    seq(|keys|, i requires 0 <= i < |keys| => BlockOf(e, keys[i]))
  }

  /** A chain of table rounds is the same chain of rounds of FIPS 197. */
  lemma {:induction false} ChainIsRounds(e: Endian, x: State, keys: seq<State>)
    ensures BlockOf(e, Chain(e, x, keys)) == Rounds(BlockOf(e, x), BlocksOf(e, keys))
    decreases |keys|
  {
    hide TableRound, Round, BlockOf;
    if keys != [] {
      TableRoundIsRound(e, x, keys[0]);
      ChainIsRounds(e, TableRound(e, x, keys[0]), keys[1..]);
      assert BlocksOf(e, keys)[1..] == BlocksOf(e, keys[1..]);
    }
  }

  // ---------- rounds can be undone ----------

  /** The inverse round of section 5.3 of FIPS 197 on words. */
  ghost function InvTableRound(e: Endian, y: State, k: State): State {
    StateOf(e, InvRound(BlockOf(e, y), BlockOf(e, k)))
  }

  lemma TableRoundInverse(e: Endian, x: State, k: State)
    ensures InvTableRound(e, TableRound(e, x, k), k) == x
    ensures TableRound(e, InvTableRound(e, x, k), k) == x
  {
    hide TableRound, Round, InvRound, BlockOf, StateOf;
    var s, t := BlockOf(e, x), BlockOf(e, k);
    TableRoundIsRound(e, x, k);
    TableRoundIsRound(e, InvTableRound(e, x, k), k);
    RoundInverse(s, t);
    StateBlock(e, x, InvRound(s, t));
    StateBlock(e, TableRound(e, InvTableRound(e, x, k), k), s);
  }

  ghost function InvChain(e: Endian, y: State, keys: seq<State>): State
    decreases |keys|
  {
    if keys == [] then y else InvChain(e, InvTableRound(e, y, keys[0]), keys[1..])
  }

  lemma {:induction false} InvChainAppend(e: Endian, y: State, ks: seq<State>, ls: seq<State>)
    ensures InvChain(e, y, ks + ls) == InvChain(e, InvChain(e, y, ks), ls)
    decreases |ks|
  {
    hide InvTableRound;
    if ks == [] {
      assert ks + ls == ls;
    } else {
      assert (ks + ls)[1..] == ks[1..] + ls;
      InvChainAppend(e, InvTableRound(e, y, ks[0]), ks[1..], ls);
    }
  }

  function Reverse<A>(s: seq<A>): seq<A> {
    if s == [] then [] else Reverse(s[1..]) + [s[0]]
  }

  /** n rounds are undone by n inverse rounds that take the keys in reverse order, and
      n inverse rounds are undone by the rounds. */
  lemma {:induction false} ChainInverse(e: Endian, x: State, keys: seq<State>)
    ensures InvChain(e, Chain(e, x, keys), Reverse(keys)) == x
    ensures Chain(e, InvChain(e, x, Reverse(keys)), keys) == x
    decreases |keys|
  {
    hide TableRound, InvTableRound;
    if keys != [] {
      var k, rest := keys[0], keys[1..];
      var y := InvChain(e, x, Reverse(rest));
      InvChainAppend(e, Chain(e, x, keys), Reverse(rest), [k]);
      InvChainAppend(e, x, Reverse(rest), [k]);
      ChainInverse(e, TableRound(e, x, k), rest);
      ChainInverse(e, x, rest);
      TableRoundInverse(e, x, k);
      TableRoundInverse(e, y, k);
      assert InvChain(e, y, [k]) == InvTableRound(e, y, k);
      assert InvChain(e, TableRound(e, x, k), [k]) == x;
    }
  }

  /** Different states stay different. */
  lemma ChainInjective(e: Endian, x: State, y: State, keys: seq<State>)
    requires Chain(e, x, keys) == Chain(e, y, keys)
    ensures x == y
  {
    hide *;
    ChainInverse(e, x, keys);
    ChainInverse(e, y, keys);
  }

  // ---------- each round key acts as a bijection ----------

  function XorState(x: State, y: State): State {
    State(Xor(x.w0, y.w0), Xor(x.w1, y.w1), Xor(x.w2, y.w2), Xor(x.w3, y.w3))
  }

  lemma XorCancels(t: Word, k: Word)
    ensures Xor(t, Xor(t, k)) == k
    ensures Xor(Xor(t, 0), k) == Xor(t, k)
  {
    assert t ^ (t ^ k) == k;
  }

  lemma XorStateTwice(x: State, y: State)
    ensures XorState(x, XorState(x, y)) == y
  {
    hide Xor;
    XorCancels(x.w0, y.w0); XorCancels(x.w1, y.w1); XorCancels(x.w2, y.w2); XorCancels(x.w3, y.w3);
  }

  lemma RoundWordKey(e: Endian, x0: Word, x1: Word, x2: Word, x3: Word, k: Word)
    ensures RoundWord(e, x0, x1, x2, x3, k) == Xor(RoundWord(e, x0, x1, x2, x3, 0), k)
  {
    hide Xor, AES0, AES1, AES2, AES3, Index0, Index1, Index2, Index3;
    var inner := Xor(Xor(AES0(e, Index0(e, x0)), AES1(e, Index1(e, x1))), AES2(e, Index2(e, x2)));
    XorCancels(Xor(inner, AES3(e, Index3(e, x3))), k);
  }

  /** A keyed round is the unkeyed round followed by the key. */
  lemma TableRoundKey(e: Endian, x: State, k: State)
    ensures TableRound(e, x, k) == XorState(TableRound(e, x, ZERO_KEY), k)
  {
    hide RoundWord, Xor;
    RoundWordKey(e, x.w0, x.w1, x.w2, x.w3, k.w0);
    RoundWordKey(e, x.w1, x.w2, x.w3, x.w0, k.w1);
    RoundWordKey(e, x.w2, x.w3, x.w0, x.w1, k.w2);
    RoundWordKey(e, x.w3, x.w0, x.w1, x.w2, k.w3);
  }

  /** The chain with key j replaced, cut around round j. */
  lemma ChainAt(e: Endian, x: State, keys: seq<State>, j: nat, k: State)
    requires j < |keys|
    ensures Chain(e, x, keys[j := k]) == Chain(e, TableRound(e, Chain(e, x, keys[..j]), k), keys[j + 1..])
  {
    hide TableRound;
    assert keys[j := k] == keys[..j] + ([k] + keys[j + 1..]);
    ChainAppend(e, x, keys[..j], [k] + keys[j + 1..]);
    ChainAppend(e, Chain(e, x, keys[..j]), [k], keys[j + 1..]);
    assert Chain(e, Chain(e, x, keys[..j]), [k]) == TableRound(e, Chain(e, x, keys[..j]), k);
  }

  /** The j-th round key that leads from `x` to `y` when the other keys are fixed. */
  ghost function KeyBetween(e: Endian, x: State, keys: seq<State>, j: nat, y: State): State
    requires j < |keys|
  {
    XorState(TableRound(e, Chain(e, x, keys[..j]), ZERO_KEY), InvChain(e, y, Reverse(keys[j + 1..])))
  }

  /** With the start state and the other keys fixed, every final state comes from exactly one
      choice of the j-th round key. */
  lemma RoundKeyBijection(e: Endian, x: State, keys: seq<State>, j: nat, k: State, y: State)
    requires j < |keys|
    ensures Chain(e, x, keys[j := k]) == y <==> k == KeyBetween(e, x, keys, j, y)
  {
    hide TableRound, XorState;
    var before, after := Chain(e, x, keys[..j]), keys[j + 1..];
    var plain := TableRound(e, before, ZERO_KEY);
    ChainAt(e, x, keys, j, k);
    TableRoundKey(e, before, k);
    XorStateTwice(plain, k);
    XorStateTwice(plain, InvChain(e, y, Reverse(after)));
    ChainInverse(e, TableRound(e, before, k), after);
    ChainInverse(e, y, after);
  }

  // ---------- turning the four words ----------

  function Turn(x: State): State {
    State(x.w1, x.w2, x.w3, x.w0)
  }

  function TurnAll(keys: seq<State>): (ts: seq<State>)
    ensures |ts| == |keys|
  {
    seq(|keys|, i requires 0 <= i < |keys| => Turn(keys[i]))
  }

  /** Turning the state words and every round key turns the result. */
  lemma {:induction false} ChainTurns(e: Endian, x: State, keys: seq<State>)
    ensures Chain(e, Turn(x), TurnAll(keys)) == Turn(Chain(e, x, keys))
    decreases |keys|
  {
    if keys != [] {
      hide RoundWord;
      assert TableRound(e, Turn(x), Turn(keys[0])) == Turn(TableRound(e, x, keys[0]));
      ChainTurns(e, TableRound(e, x, keys[0]), keys[1..]);
      assert TurnAll(keys)[1..] == TurnAll(keys[1..]);
    }
  }

  /** Four equal words stay equal under round keys that have equal words, such as no key at all. */
  lemma EqualWordsStay(e: Endian, x: State, keys: seq<State>)
    requires Turn(x) == x
    requires forall i :: 0 <= i < |keys| ==> Turn(keys[i]) == keys[i]
    ensures var y := Chain(e, x, keys); y.w0 == y.w1 == y.w2 == y.w3
  {
    hide TableRound;
    ChainTurns(e, x, keys);
    assert TurnAll(keys) == keys;
  }

  // ---------- the two byte orders ----------

  function SwapState(x: State): State {
    State(AESx(Big, x.w0), AESx(Big, x.w1), AESx(Big, x.w2), AESx(Big, x.w3))
  }

  function SwapAll(keys: seq<State>): (ss: seq<State>)
    ensures |ss| == |keys|
  {
    seq(|keys|, i requires 0 <= i < |keys| => SwapState(keys[i]))
  }

  lemma SwapXor(v: Word, w: Word)
    ensures AESx(Big, Xor(v, w)) == Xor(AESx(Big, v), AESx(Big, w))
  {
  }

  lemma LittleUnchanged(x: Word)
    ensures AESx(Little, x) == x
  {
  }

  lemma RoundWordSwaps(x0: Word, x1: Word, x2: Word, x3: Word, k: Word)
    ensures RoundWord(Big, AESx(Big, x0), AESx(Big, x1), AESx(Big, x2), AESx(Big, x3), AESx(Big, k))
      == AESx(Big, RoundWord(Little, x0, x1, x2, x3, k))
  {
    hide Xor, AESx, Raw0, Raw1, Raw2, Raw3, Index0, Index1, Index2, Index3;
    BytesOfSwapped(x0); BytesOfSwapped(x1); BytesOfSwapped(x2); BytesOfSwapped(x3);
    var t0, t1 := AES0(Little, Index0(Little, x0)), AES1(Little, Index1(Little, x1));
    var t2, t3 := AES2(Little, Index2(Little, x2)), AES3(Little, Index3(Little, x3));
    LittleUnchanged(Raw0(Index0(Little, x0))); LittleUnchanged(Raw1(Index1(Little, x1)));
    LittleUnchanged(Raw2(Index2(Little, x2))); LittleUnchanged(Raw3(Index3(Little, x3)));
    SwapXor(t0, t1);
    SwapXor(Xor(t0, t1), t2);
    SwapXor(Xor(Xor(t0, t1), t2), t3);
    SwapXor(Xor(Xor(Xor(t0, t1), t2), t3), k);
  }

  lemma TableRoundSwaps(x: State, k: State)
    ensures TableRound(Big, SwapState(x), SwapState(k)) == SwapState(TableRound(Little, x, k))
  {
    hide RoundWord, AESx;
    RoundWordSwaps(x.w0, x.w1, x.w2, x.w3, k.w0);
    RoundWordSwaps(x.w1, x.w2, x.w3, x.w0, k.w1);
    RoundWordSwaps(x.w2, x.w3, x.w0, x.w1, k.w2);
    RoundWordSwaps(x.w3, x.w0, x.w1, x.w2, k.w3);
  }

  /** The big-endian round on byte-swapped words is the byte swap of the little-endian one,
      for any number of rounds. */
  lemma {:induction false} ChainSwaps(x: State, keys: seq<State>)
    ensures Chain(Big, SwapState(x), SwapAll(keys)) == SwapState(Chain(Little, x, keys))
    decreases |keys|
  {
    hide TableRound, SwapState;
    if keys != [] {
      TableRoundSwaps(x, keys[0]);
      ChainSwaps(TableRound(Little, x, keys[0]), keys[1..]);
      assert SwapAll(keys)[1..] == SwapAll(keys[1..]);
    }
  }
}
