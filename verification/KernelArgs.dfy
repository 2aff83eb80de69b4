/** The positional argument cursor of OpenCLKernel, over whole runs of resetArgs and add calls. */
module KernelArgs {

  /** What one of the add calls passes to clSetKernelArg. */
  datatype ArgValue =
    | Long(l: bv64)
    | Int(i: bv32)
    | ULong(ul: bv64)
    | UInt(ui: bv32)
    | Global(buffer: nat)
    | Local(size: nat)

  datatype ArgOp = Reset | Add(value: ArgValue)

  /** The cursor of the kernel object and the argument slots of the runtime's kernel. */
  datatype ArgState = ArgState(cursor: nat, slots: map<nat, ArgValue>)

  const NO_ARGS := ArgState(0, map[])

  function ArgStep(s: ArgState, op: ArgOp): ArgState {
    match op
    case Reset => s.(cursor := 0)
    case Add(v) => ArgState(s.cursor + 1, s.slots[s.cursor := v])
  }

  function ArgRun(ops: seq<ArgOp>): ArgState {
    if ops == [] then NO_ARGS else ArgStep(ArgRun(ops[..|ops| - 1]), ops[|ops| - 1])
  }

  /** Call number t is an add made when the cursor was at slot i. */
  predicate Writes(ops: seq<ArgOp>, t: nat, i: nat) {
    t < |ops| && ops[t].Add? && ArgRun(ops[..t]).cursor == i
  }

  ghost predicate LastWrite(ops: seq<ArgOp>, t: nat, i: nat) {
    Writes(ops, t, i) && forall u: nat :: Writes(ops, u, i) ==> u <= t
  }

  lemma WritesPrefix(ops: seq<ArgOp>, n: nat, t: nat, i: nat)
    requires t < n <= |ops|
    ensures Writes(ops[..n], t, i) <==> Writes(ops, t, i)
  {
    assert ops[..n][..t] == ops[..t];
  }

  /** A slot is set exactly when some add was made with the cursor there, and it then holds the
      value of the latest such add. */
  lemma {:induction false} SlotHoldsLastWrite(ops: seq<ArgOp>, i: nat, v: ArgValue)
    ensures i in ArgRun(ops).slots && ArgRun(ops).slots[i] == v
      <==> exists t: nat :: LastWrite(ops, t, i) && ops[t] == Add(v)
    decreases |ops|
  {
    if ops != [] {
      var n := |ops| - 1;
      var before := ops[..n];
      SlotHoldsLastWrite(before, i, v);
      forall t: nat | t < n
        ensures Writes(before, t, i) <==> Writes(ops, t, i)
      {
        WritesPrefix(ops, n, t, i);
      }
      if Writes(ops, n, i) {
        assert LastWrite(ops, n, i);
      } else {
        forall t: nat
          ensures LastWrite(before, t, i) <==> LastWrite(ops, t, i)
        {
        }
      }
    }
  }

  function AddCalls(values: seq<ArgValue>): (ops: seq<ArgOp>)
    ensures |ops| == |values|
  {
    seq(|values|, t requires 0 <= t < |values| => Add(values[t]))
  }

  /** After a reset and n adds the first n slots hold exactly those values, in order, and the
      other slots are as they were. */
  lemma {:induction false} ResetThenAdds(before: seq<ArgOp>, values: seq<ArgValue>, i: nat)
    ensures var s, r := ArgRun(before), ArgRun(before + [Reset] + AddCalls(values));
      && r.cursor == |values|
      && (if i < |values| then i in r.slots && r.slots[i] == values[i]
          else (i in r.slots <==> i in s.slots) && (i in r.slots ==> r.slots[i] == s.slots[i]))
    decreases |values|
  {
    var ops := before + [Reset] + AddCalls(values);
    if values == [] {
      assert ops == before + [Reset];
      assert ops[..|ops| - 1] == before;
    } else {
      var rest := values[..|values| - 1];
      ResetThenAdds(before, rest, i);
      assert ops[..|ops| - 1] == before + [Reset] + AddCalls(rest);
      assert ops[|ops| - 1] == Add(values[|values| - 1]);
    }
  }

  /** The adds on a new kernel fill the slots from 0 on with their values, in order, and no others. */
  lemma {:induction false} NewKernelAdds(values: seq<ArgValue>)
    ensures var r := ArgRun(AddCalls(values));
      && r.cursor == |values|
      && (forall i: nat :: i in r.slots <==> i < |values|)
      && (forall i: nat :: i < |values| ==> r.slots[i] == values[i])
    decreases |values|
  {
    if values != [] {
      var rest := values[..|values| - 1];
      NewKernelAdds(rest);
      assert AddCalls(values)[..|values| - 1] == AddCalls(rest);
    }
  }
}
