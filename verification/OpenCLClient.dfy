/** Runs of calls on the objects themselves. The devices, contexts, programs and kernels on the heap
    represent a world of OpenCLRun, each call takes the step that OpenCLRun gives it and leaves all
    other objects alone, and so the results about runs hold of the objects. */
module OpenCLClient {
  import opened OpenCLRun
  import opened OpenCLTeardown
  import opened KernelArgs
  import opened OpenCLObjects

  // ---------- what the heap represents ----------

  /** The programs that the device's context holds. */
  function Programs(d: OpenCLDevice): seq<OpenCLProgram>
    reads d, d.context
  {
    if d.context == null then [] else d.context.programs
  }

  ghost function ContextsOf(devs: seq<OpenCLDevice>): set<OpenCLContext>
    reads devs
  {
    set d: OpenCLDevice | d in devs && d.context != null :: d.context
  }

  ghost function ProgramsOf(devs: seq<OpenCLDevice>): set<OpenCLProgram>
    reads devs, ContextsOf(devs)
  {
    set d: OpenCLDevice, p: OpenCLProgram | d in devs && p in Programs(d) :: p
  }

  /** Device object d has a context of its own exactly if device n of the world has one, and the
      context then looks like that one. */
  ghost predicate Shows(d: OpenCLDevice, n: nat, w: World)
    reads d, d.context, Programs(d)
  {
    if d.context == null then n !in w.contexts
    else n in w.contexts && d.context.devices == [d] && d.context.Valid() && d.context.View() == w.contexts[n]
  }

  /** The runtime has the trace of the world, and device object n is device n of the world. */
  ghost predicate Represents(rt: CLRuntime, devs: seq<OpenCLDevice>, w: World)
    reads *
  {
    && rt.View() == w.rt
    && (forall m, n :: 0 <= m < n < |devs| ==> devs[m] != devs[n])
    && (forall n :: n in w.contexts ==> n < |devs|)
    && (forall n :: 0 <= n < |devs| ==> Shows(devs[n], n, w))
  }

  /** No two devices share a context or a program. */
  lemma Apart(rt: CLRuntime, devs: seq<OpenCLDevice>, w: World, m: nat, n: nat)
    requires Represents(rt, devs, w) && m < |devs| && n < |devs| && m != n && devs[m].context != null
    ensures devs[m].context != devs[n].context
    ensures forall p :: p in Programs(devs[m]) ==> p !in Programs(devs[n])
  {
    assert Shows(devs[m], m, w) && Shows(devs[n], n, w);
  }

  /** Nothing was changed that the device leads to. */
  twostate predicate Untouched(d: OpenCLDevice)
    reads *
  {
    && d.context == old(d.context)
    && (d.context != null ==>
          && d.context.programs == old(d.context.programs)
          && forall p :: p in d.context.programs ==> p.kernels == old(p.kernels))
  }

  twostate lemma StillShows(d: OpenCLDevice, new n: nat, new w: World, new v: World)
    requires old(Shows(d, n, w)) && Untouched(d)
    requires if n in w.contexts then n in v.contexts && v.contexts[n] == w.contexts[n] else n !in v.contexts
    ensures Shows(d, n, v)
  {
  }

  /** A call on one device that leaves the others alone. */
  twostate lemma StepRepresented(rt: CLRuntime, new devs: seq<OpenCLDevice>, new d: nat, new w: World, new v: World)
    requires old(allocated(devs)) && old(Represents(rt, devs, w)) && d < |devs|
    requires rt.View() == v.rt && Shows(devs[d], d, v)
    requires v.contexts.Keys == w.contexts.Keys + {d}
    requires forall n :: n in w.contexts && n != d ==> v.contexts[n] == w.contexts[n]
    requires forall n :: 0 <= n < |devs| && n != d ==> Untouched(devs[n])
    ensures Represents(rt, devs, v)
  {
    forall n | 0 <= n < |devs|
      ensures Shows(devs[n], n, v)
    {
      if n != d {
        assert old(Shows(devs[n], n, w));
        var e := devs[n];
        StillShows(e, n, w, v);
      }
    }
  }

  /** A change to one program's cache does not touch a device that does not lead to the program. */
  twostate lemma OthersUntouchedByLookup(devs: seq<OpenCLDevice>, new d: nat, new p: OpenCLProgram)
    requires old(allocated(p)) && forall n :: 0 <= n < |devs| && n != d ==> p !in old(Programs(devs[n]))
    requires forall e: OpenCLDevice :: old(allocated(e)) ==> e.context == old(e.context)
    requires forall c: OpenCLContext :: old(allocated(c)) ==> c.programs == old(c.programs)
    requires forall q: OpenCLProgram :: old(allocated(q)) && q != p ==> q.kernels == old(q.kernels)
    ensures forall n :: 0 <= n < |devs| && n != d ==> Untouched(devs[n])
  {
  }

  /** A change to one context's programs does not touch a device with another context. */
  twostate lemma OthersUntouchedByLoad(devs: seq<OpenCLDevice>, new d: nat, new c: OpenCLContext)
    requires old(allocated(c)) && forall n :: 0 <= n < |devs| && n != d ==> old(devs[n].context) != c
    requires forall e: OpenCLDevice :: old(allocated(e)) ==> e.context == old(e.context)
    requires forall x: OpenCLContext :: old(allocated(x)) && x != c ==> x.programs == old(x.programs)
    requires forall q: OpenCLProgram :: old(allocated(q)) ==> q.kernels == old(q.kernels)
    ensures forall n :: 0 <= n < |devs| && n != d ==> Untouched(devs[n])
  {
  }

  // ---------- single calls ----------

  /** What the foreign calls within one call will return. */
  datatype Status = Status(create: int, build: int, log: int)

  /** getContext on device d takes the step of the run model. */
  method StepGetContext(rt: CLRuntime, devs: seq<OpenCLDevice>, ghost w: World, d: nat, status: int)
    returns (r: Result<OpenCLContext>)
    requires Represents(rt, devs, w) && d < |devs|
    modifies rt, devs[d]
    ensures r.Done? <==> d in w.contexts || status == CL_SUCCESS
    ensures r.Done? ==>
      && Represents(rt, devs, Step(w, GetContext(d)))
      && r.value == devs[d].context
      && (old(devs[d].context) == null ==> fresh(r.value) && Programs(devs[d]) == [])
      && (old(devs[d].context) != null ==> r.value == old(devs[d].context))
  {
    assert Shows(devs[d], d, w);
    r := devs[d].GetContext(rt, d, status);
    if r.Done? {
      ghost var v := Step(w, GetContext(d));
      assert Shows(devs[d], d, v);
      assert forall n :: 0 <= n < |devs| && n != d ==> Untouched(devs[n]);
      StepRepresented(rt, devs, d, w, v);
    }
  }

  /** loadProgramFromStrings on the context of device d. */
  method StepLoadProgram(rt: CLRuntime, devs: seq<OpenCLDevice>, ghost w: World, d: nat, status: Status)
    returns (r: Result<OpenCLProgram>)
    requires Represents(rt, devs, w) && d < |devs| && devs[d].context != null
    modifies rt, devs[d].context
    ensures r.Done? <==> status.create == status.build == CL_SUCCESS
    ensures r.Done? ==>
      && Represents(rt, devs, Step(w, LoadProgram(d)))
      && fresh(r.value) && Programs(devs[d]) == old(Programs(devs[d])) + [r.value]
  {
    assert Shows(devs[d], d, w);
    ghost var c := devs[d].context;
    forall n | 0 <= n < |devs| && n != d
      ensures devs[n].context != c
    {
      Apart(rt, devs, w, d, n);
    }
    assert Callable(w, LoadProgram(d));
    hide OpenCLContext.View, OpenCLContext.Views, OpenCLContext.Valid, LoadStep, Represents;
    r := devs[d].context.LoadProgramFromStrings(rt, status.create, status.build, status.log);
    if r.Done? {
      ghost var v := Step(w, LoadProgram(d));
      assert Shows(devs[d], d, v);
      assert v.contexts.Keys == w.contexts.Keys + {d};
      hide Shows, Step, Callable;
      hide Untouched;
      OthersUntouchedByLoad(devs, d, c);
      StepRepresented(rt, devs, d, w, v);
    }
  }

  /** getProgram(i)->getKernel(name) on the context of device d. */
  method StepGetKernel(rt: CLRuntime, devs: seq<OpenCLDevice>, ghost w: World,
                       d: nat, i: nat, name: string, status: int)
    returns (r: Result<OpenCLKernel>)
    requires Represents(rt, devs, w) && d < |devs| && i < |Programs(devs[d])|
    modifies rt, Programs(devs[d])[i]
    ensures r.Done? <==> name in old(Programs(devs[d])[i].kernels) || status == CL_SUCCESS
    ensures r.Done? ==>
      && Represents(rt, devs, Step(w, GetKernel(d, i, name)))
      && Programs(devs[d])[i].KeepsKernels()
      && name in Programs(devs[d])[i].kernels && r.value == Programs(devs[d])[i].kernels[name]
  {
    assert Shows(devs[d], d, w);
    ghost var p := Programs(devs[d])[i];
    forall n | 0 <= n < |devs| && n != d
      ensures p !in Programs(devs[n])
    {
      Apart(rt, devs, w, d, n);
    }
    assert Callable(w, GetKernel(d, i, name));
    hide OpenCLContext.View, OpenCLContext.Views, OpenCLContext.Valid, OpenCLProgram.View;
    hide OpenCLProgram.KeepsKernels, KernelStep, Represents;
    r := devs[d].context.GetKernelOf(rt, i, name, status);
    if r.Done? {
      ghost var v := Step(w, GetKernel(d, i, name));
      assert Shows(devs[d], d, v);
      assert v.contexts.Keys == w.contexts.Keys + {d};
      hide Shows, Step, Callable;
      hide Untouched;
      OthersUntouchedByLookup(devs, d, p);
      StepRepresented(rt, devs, d, w, v);
    }
  }

  // ---------- any call ----------

  /** What a call returns; a call on an object that does not exist is not made. */
  datatype Returned =
    | ContextObject(context: OpenCLContext)
    | ProgramObject(program: OpenCLProgram)
    | KernelObject(kernel: OpenCLKernel)
    | NotCallable

  /** The call in world w succeeds: it creates nothing, or creating succeeds. */
  predicate Succeeds(w: World, op: Op, status: Status) {
    !Callable(w, op) ||
    match op
    case GetContext(d) => d in w.contexts || status.create == CL_SUCCESS
    case LoadProgram(_) => status.create == status.build == CL_SUCCESS
    case GetKernel(d, i, name) => name in w.contexts[d].programs[i].kernels || status.create == CL_SUCCESS
  }

  /** The object that the call in world w asked for is the returned one. */
  ghost predicate Placed(devs: seq<OpenCLDevice>, w: World, op: Op, r: Returned)
    requires op.device < |devs|
    reads devs[op.device], devs[op.device].context, Programs(devs[op.device])
  {
    if !Callable(w, op) then r == NotCallable
    else
      var ps := Programs(devs[op.device]);
      match op
      case GetContext(d) => devs[d].context != null && r == ContextObject(devs[d].context)
      case LoadProgram(d) =>
        var i := |w.contexts[d].programs|;
        i < |ps| && r == ProgramObject(ps[i])
      case GetKernel(_, i, name) => i < |ps| && name in ps[i].kernels && r == KernelObject(ps[i].kernels[name])
  }

  /** The context, programs and cached kernels that the device leads to stay in place; others are new. */
  twostate predicate Kept(d: OpenCLDevice)
    reads *
  {
    if old(d.context) == null then d.context == null || (fresh(d.context) && d.context.programs == [])
    else
      && d.context == old(d.context)
      && old(d.context.programs) <= d.context.programs
      && (forall i :: |old(d.context.programs)| <= i < |d.context.programs| ==> fresh(d.context.programs[i]))
      && (forall i :: 0 <= i < |old(d.context.programs)| ==> old(d.context.programs[i]).KeepsKernels())
  }

  twostate lemma AllKept(devs: seq<OpenCLDevice>)
    requires forall e: OpenCLDevice :: old(allocated(e)) ==>
      e.context == old(e.context) || (old(e.context) == null && fresh(e.context) && e.context.programs == [])
    requires forall c: OpenCLContext :: old(allocated(c)) ==>
      old(c.programs) <= c.programs && forall i :: |old(c.programs)| <= i < |c.programs| ==> fresh(c.programs[i])
    requires forall p: OpenCLProgram :: old(allocated(p)) ==> p.KeepsKernels()
    ensures forall e :: e in devs ==> Kept(e)
  {
    forall e | e in devs
      ensures Kept(e)
    {
      ghost var c := e.context;
      if old(e.context) != null {
        assert c == old(e.context) && old(allocated(c));
      }
    }
  }

  lemma ShownPrograms(rt: CLRuntime, devs: seq<OpenCLDevice>, w: World, d: nat)
    requires Represents(rt, devs, w) && d < |devs|
    ensures d in w.contexts <==> devs[d].context != null
    ensures d in w.contexts ==> |w.contexts[d].programs| == |Programs(devs[d])|
    ensures d in w.contexts ==> forall i :: 0 <= i < |Programs(devs[d])| ==>
      w.contexts[d].programs[i].kernels.Keys == Programs(devs[d])[i].kernels.Keys
  {
    assert Shows(devs[d], d, w);
  }

  function Failure<T, U>(r: Result<T>): Result<U>
    requires !r.Done?
  {
    if r.Aborted? then Aborted(r.status) else NothingFound
  }

  /** One call with the object it returns, if all foreign calls in it succeed. */
  method Call(rt: CLRuntime, devs: seq<OpenCLDevice>, ghost w: World, op: Op, status: Status)
    returns (r: Result<Returned>)
    requires Represents(rt, devs, w) && op.device < |devs|
    modifies rt, devs, ContextsOf(devs), ProgramsOf(devs)
    ensures r.Done? <==> Succeeds(w, op, status)
    ensures r.Done? ==> Represents(rt, devs, Step(w, op)) && Placed(devs, w, op, r.value)
    ensures r.Done? ==> forall e :: e in devs ==> Kept(e)
  {
    var d := op.device;
    ShownPrograms(rt, devs, w, d);
    assert devs[d] in devs;
    hide Represents, Shows, Kept;
    match op
    case GetContext(_) =>
      hide Step;
      var c := StepGetContext(rt, devs, w, d, status.create);
      if !c.Done? {
        return Failure(c);
      }
      AllKept(devs);
      return Done(ContextObject(c.value));
    case LoadProgram(_) =>
      if devs[d].context == null {
        AllKept(devs);
        return Done(NotCallable);
      }
      hide Step;
      var p := StepLoadProgram(rt, devs, w, d, status);
      if !p.Done? {
        return Failure(p);
      }
      AllKept(devs);
      return Done(ProgramObject(p.value));
    case GetKernel(_, i, name) =>
      if devs[d].context == null || i >= |devs[d].context.programs| {
        AllKept(devs);
        return Done(NotCallable);
      }
      hide Step;
      assert Programs(devs[d])[i] in Programs(devs[d]);
      var k := StepGetKernel(rt, devs, w, d, i, name, status.create);
      if !k.Done? {
        return Failure(k);
      }
      AllKept(devs);
      return Done(KernelObject(k.value));
  }

  // ---------- runs of calls ----------

  /** The objects asked for by the first calls of a run are the returned ones. */
  ghost predicate AllPlaced(devs: seq<OpenCLDevice>, ops: seq<Op>, results: seq<Returned>)
    requires forall op :: op in ops ==> op.device < |devs|
    reads *
  {
    |results| <= |ops| && forall s :: 0 <= s < |results| ==> Placed(devs, Run(ops[..s]), ops[s], results[s])
  }

  /** No foreign call fails in the first n calls of the run. */
  ghost predicate AllSucceed(ops: seq<Op>, statuses: seq<Status>, n: nat)
    requires n <= |ops| == |statuses|
  {
    forall s :: 0 <= s < n ==> Succeeds(Run(ops[..s]), ops[s], statuses[s])
  }

  twostate lemma PlacedStays(devs: seq<OpenCLDevice>, new w: World, new op: Op, new r: Returned)
    requires op.device < |devs| && old(allocated(r)) && old(Placed(devs, w, op, r))
    requires Kept(devs[op.device])
    ensures Placed(devs, w, op, r)
  {
  }

  twostate lemma AllPlacedStays(devs: seq<OpenCLDevice>, new ops: seq<Op>, new results: seq<Returned>, new r: Returned)
    requires |results| < |ops| && forall op :: op in ops ==> op.device < |devs|
    requires old(allocated(results)) && old(AllPlaced(devs, ops, results))
    requires forall e :: e in devs ==> Kept(e)
    requires ops[|results|] in ops && Placed(devs, Run(ops[..|results|]), ops[|results|], r)
    ensures AllPlaced(devs, ops, results + [r])
  {
    hide Placed, Run, Kept;
    forall s | 0 <= s < |results|
      ensures Placed(devs, Run(ops[..s]), ops[s], results[s])
    {
      var w, op, r := Run(ops[..s]), ops[s], results[s];
      PlacedStays(devs, w, op, r);
    }
  }

  lemma RunNext(ops: seq<Op>, n: nat)
    requires n < |ops|
    ensures ops[n] in ops && Run(ops[..n + 1]) == Step(Run(ops[..n]), ops[n])
  {
    assert ops[..n + 1][..n] == ops[..n];
    hide Step;
  }

  lemma SucceedUnfolds(ops: seq<Op>, statuses: seq<Status>, n: nat)
    requires n < |ops| == |statuses|
    ensures AllSucceed(ops, statuses, n + 1)
      <==> AllSucceed(ops, statuses, n) && Succeeds(Run(ops[..n]), ops[n], statuses[n])
    ensures AllSucceed(ops, statuses, |ops|) ==> AllSucceed(ops, statuses, n + 1)
  {
    hide Succeeds, Run;
  }

  lemma AllSucceedMeans(ops: seq<Op>, statuses: seq<Status>)
    requires |ops| == |statuses|
    ensures AllSucceed(ops, statuses, |ops|)
      <==> forall s :: 0 <= s < |ops| ==> Succeeds(Run(ops[..s]), ops[s], statuses[s])
  {
    hide Succeeds, Run;
  }

  /** When a call succeeds after a run, told from the calls of the run alone. */
  lemma SucceedsByHistory(ops: seq<Op>, d: nat, i: nat, name: string, status: Status)
    ensures Succeeds(Run(ops), GetContext(d), status) <==> GetContext(d) in ops || status.create == CL_SUCCESS
    ensures Succeeds(Run(ops), LoadProgram(d), status)
      <==> (GetContext(d) in ops ==> status.create == status.build == CL_SUCCESS)
    ensures Succeeds(Run(ops), GetKernel(d, i, name), status)
      <==> i >= Loads(ops, d) || status.create == CL_SUCCESS
           || exists n :: 0 <= n < |ops| && ops[n] == GetKernel(d, i, name) && i < Loads(ops[..n], d)
  {
    ProgramsAreLoads(ops, d);
    CallableByHistory(ops, d, i, name);
    CachedIffRequested(ops, d, i, name);
    hide Run, Loads;
    forall n | 0 <= n < |ops|
      ensures Callable(Run(ops[..n]), GetKernel(d, i, name)) <==> i < Loads(ops[..n], d)
    {
      CallableByHistory(ops[..n], d, i, name);
    }
  }

  /** What call s of the run returned, told from the calls before it and the objects at the end. */
  ghost predicate ReturnedAt(devs: seq<OpenCLDevice>, ops: seq<Op>, s: nat, r: Returned)
    requires s < |ops|
    reads *
  {
    && ops[s].device < |devs|
    && var c := devs[ops[s].device].context;
       match ops[s]
       case GetContext(_) => c != null && r == ContextObject(c)
       case LoadProgram(d) =>
         var i := Loads(ops[..s], d);
         if GetContext(d) !in ops[..s] then r == NotCallable
         else c != null && i < |c.programs| && r == ProgramObject(c.programs[i])
       case GetKernel(d, i, name) =>
         if i >= Loads(ops[..s], d) then r == NotCallable
         else
           && c != null && i < |c.programs|
           && name in c.programs[i].kernels && r == KernelObject(c.programs[i].kernels[name])
  }

  lemma ReturnedObjects(devs: seq<OpenCLDevice>, ops: seq<Op>, results: seq<Returned>)
    requires forall op :: op in ops ==> op.device < |devs|
    requires |results| == |ops| && AllPlaced(devs, ops, results)
    ensures forall s :: 0 <= s < |ops| ==> ReturnedAt(devs, ops, s, results[s])
  {
    forall s | 0 <= s < |ops|
      ensures ReturnedAt(devs, ops, s, results[s])
    {
      assert ops[s] in ops && Placed(devs, Run(ops[..s]), ops[s], results[s]);
      hide Run, Loads;
      ProgramsAreLoads(ops[..s], ops[s].device);
    }
  }

  /** One more call of a run: what the earlier calls returned stays in place. */
  method NextCall(rt: CLRuntime, devs: seq<OpenCLDevice>, ops: seq<Op>, results: seq<Returned>, status: Status)
    returns (r: Result<Returned>)
    requires forall op :: op in ops ==> op.device < |devs|
    requires |results| < |ops| && Represents(rt, devs, Run(ops[..|results|])) && AllPlaced(devs, ops, results)
    modifies rt, devs, ContextsOf(devs), ProgramsOf(devs)
    ensures r.Done? <==> Succeeds(Run(ops[..|results|]), ops[|results|], status)
    ensures r.Done? ==> Represents(rt, devs, Run(ops[..|results| + 1])) && AllPlaced(devs, ops, results + [r.value])
    ensures r.Done? ==> forall e :: e in devs ==> Kept(e)
  {
    var n := |results|;
    RunNext(ops, n);
    hide Run, Represents, Succeeds, Step, Callable, Placed, AllPlaced, Kept;
    r := Call(rt, devs, Run(ops[..n]), ops[n], status);
    if r.Done? {
      ghost var x := r.value;
      AllPlacedStays(devs, ops, results, x);
    }
  }

  // ---------- the same call returns the same object ----------

  lemma ProgramPlacedOnce(rt: CLRuntime, devs: seq<OpenCLDevice>, w: World, m: nat, n: nat, i: nat, j: nat)
    requires Represents(rt, devs, w) && m < |devs| && n < |devs| && i < |Programs(devs[m])| && j < |Programs(devs[n])|
    ensures Programs(devs[m])[i] == Programs(devs[n])[j] <==> m == n && i == j
  {
    if m != n {
      Apart(rt, devs, w, m, n);
      assert Programs(devs[m])[i] in Programs(devs[m]);
    } else {
      assert Shows(devs[m], m, w);
    }
  }

  lemma KernelPlacedOnce(rt: CLRuntime, devs: seq<OpenCLDevice>, w: World,
                         m: nat, n: nat, i: nat, j: nat, x: string, y: string)
    requires Represents(rt, devs, w) && m < |devs| && n < |devs| && i < |Programs(devs[m])| && j < |Programs(devs[n])|
    requires x in Programs(devs[m])[i].kernels && y in Programs(devs[n])[j].kernels
    ensures Programs(devs[m])[i].kernels[x] == Programs(devs[n])[j].kernels[y] <==> m == n && i == j && x == y
  {
    ProgramPlacedOnce(rt, devs, w, m, n, i, j);
    assert Shows(devs[m], m, w) && Shows(devs[n], n, w);
  }

  /** Of two calls of a run: they returned one object exactly if they are the same getContext or
      getKernel call; each load returned a program of its own. */
  ghost predicate SameObjects(ops: seq<Op>, results: seq<Returned>, s: nat, t: nat)
    requires s < |ops| == |results| && t < |ops|
  {
    Callable(Run(ops[..s]), ops[s]) && Callable(Run(ops[..t]), ops[t]) ==>
      (results[s] == results[t] <==> ops[s] == ops[t] && (ops[s].LoadProgram? ==> s == t))
  }

  /** Of two loads into one context the later one adds its program further on. */
  lemma LoadsAdvance(ops: seq<Op>, s: nat, t: nat, d: nat)
    requires s < t < |ops| && ops[s] == LoadProgram(d) && Callable(Run(ops[..s]), ops[s])
    ensures Callable(Run(ops[..t]), ops[s])
    ensures |Run(ops[..s]).contexts[d].programs| < |Run(ops[..t]).contexts[d].programs|
  {
    var w, v := Run(ops[..s]), Run(ops[..s + 1]);
    RunNext(ops, s);
    RunGrows(ops[..t], s + 1);
    assert ops[..t][..s + 1] == ops[..s + 1];
    var i := |w.contexts[d].programs|;
    var c := v.contexts[d];
    assert HasProgram(v, d, c.handle, i, c.programs[i].handle);
  }

  /** Objects in place are the same only if the same call asked for them. */
  lemma PlacedOnce(rt: CLRuntime, devs: seq<OpenCLDevice>, u: World,
                   v: World, op: Op, x: Returned, w: World, op': Op, y: Returned)
    requires Represents(rt, devs, u) && op.device < |devs| && op'.device < |devs|
    requires Callable(v, op) && Placed(devs, v, op, x) && Callable(w, op') && Placed(devs, w, op', y)
    ensures x == y <==>
      (op == op' && (op.LoadProgram? ==> |v.contexts[op.device].programs| == |w.contexts[op.device].programs|))
  {
    hide Represents;
    var d, e := op.device, op'.device;
    match op
    case GetContext(_) =>
      if op'.GetContext? && d != e {
        Apart(rt, devs, u, d, e);
      }
    case LoadProgram(_) =>
      if op'.LoadProgram? {
        ProgramPlacedOnce(rt, devs, u, d, e, |v.contexts[d].programs|, |w.contexts[e].programs|);
      }
    case GetKernel(_, i, m) =>
      if op'.GetKernel? {
        KernelPlacedOnce(rt, devs, u, d, e, i, op'.pos, m, op'.name);
      }
  }

  /** Equal calls of a run returned equal objects, and different calls different ones. */
  lemma PlacedApart(rt: CLRuntime, devs: seq<OpenCLDevice>, ops: seq<Op>, results: seq<Returned>)
    requires forall op :: op in ops ==> op.device < |devs|
    requires Represents(rt, devs, Run(ops)) && |results| == |ops| && AllPlaced(devs, ops, results)
    ensures forall s, t :: 0 <= s <= t < |ops| ==> SameObjects(ops, results, s, t)
  {
    forall s, t | 0 <= s <= t < |ops|
      ensures SameObjects(ops, results, s, t)
    {
      var v, w := Run(ops[..s]), Run(ops[..t]);
      assert Placed(devs, v, ops[s], results[s]) && Placed(devs, w, ops[t], results[t]);
      hide Represents, Placed, AllPlaced, Run, Callable;
      if Callable(v, ops[s]) && Callable(w, ops[t]) {
        PlacedOnce(rt, devs, Run(ops), v, ops[s], results[s], w, ops[t], results[t]);
        if s < t && ops[s] == ops[t] && ops[s].LoadProgram? {
          LoadsAdvance(ops, s, t, ops[s].device);
        }
      }
    }
  }

  // ---------- whole runs ----------

  /** Any sequence of calls on device objects without contexts. It ends early exactly if a foreign
      call fails; if it does not, the objects represent the run of OpenCLRun, and each call has
      returned the object that is in place at the end. */
  method RunCalls(rt: CLRuntime, devs: seq<OpenCLDevice>, ops: seq<Op>, statuses: seq<Status>)
    returns (r: Result<seq<Returned>>)
    requires Represents(rt, devs, START)
    requires |statuses| == |ops| && forall op :: op in ops ==> op.device < |devs|
    modifies rt, devs
    ensures r.Done? <==> forall s :: 0 <= s < |ops| ==> Succeeds(Run(ops[..s]), ops[s], statuses[s])
    ensures r.Done? ==> Represents(rt, devs, Run(ops)) && |r.value| == |ops|
    ensures r.Done? ==> forall s :: 0 <= s < |ops| ==> ReturnedAt(devs, ops, s, r.value[s])
    ensures r.Done? ==> forall s, t :: 0 <= s <= t < |ops| ==> SameObjects(ops, r.value, s, t)
  {
    var results := [];
    assert AllPlaced(devs, ops, results) && AllSucceed(ops, statuses, 0);
    assert forall e :: e in devs ==> e.context == null by {
      assert forall n :: 0 <= n < |devs| ==> Shows(devs[n], n, START);
    }
    assert Run(ops[..0]) == START;
    AllSucceedMeans(ops, statuses);
    hide Represents, Run, Succeeds, AllPlaced, AllSucceed, SameObjects, ReturnedAt;
    for n := 0 to |ops|
      invariant |results| == n && AllSucceed(ops, statuses, n)
      invariant Represents(rt, devs, Run(ops[..n])) && AllPlaced(devs, ops, results)
      invariant forall e :: e in devs && e.context != null ==> fresh(e.context) && fresh(e.context.programs)
    {
      SucceedUnfolds(ops, statuses, n);
      label Prior:
      var c := NextCall(rt, devs, ops, results, statuses[n]);
      if !c.Done? {
        return Failure(c);
      }
      forall e | e in devs && e.context != null
        ensures fresh(e.context) && fresh(e.context.programs)
      {
        assert Kept@Prior(e);
      }
      results := results + [c.value];
    }
    assert ops[..|ops|] == ops;
    ReturnedObjects(devs, ops, results);
    PlacedApart(rt, devs, ops, results);
    return Done(results);
  }

  // ---------- deleting a context after a run ----------

  /** The destructor of the context of device d. */
  method DeleteContext(rt: CLRuntime, devs: seq<OpenCLDevice>, ghost w: World, d: nat)
    returns (ghost orders: seq<seq<string>>)
    requires Represents(rt, devs, w) && d < |devs| && devs[d].context != null
    modifies rt
    ensures d in w.contexts && Orders(w.contexts[d].programs, orders) && rt.trace == Deleted(w, d, orders)
  {
    assert Shows(devs[d], d, w);
    orders := devs[d].context.Delete(rt);
  }

  /** A run from the start and then the end of one context: the trace is that of the run followed
      by the releases that OpenCLTeardown.RunThenDelete describes. */
  method RunCallsThenDelete(rt: CLRuntime, devs: seq<OpenCLDevice>, ops: seq<Op>, statuses: seq<Status>, d: nat)
    returns (r: Result<seq<Returned>>, ghost orders: seq<seq<string>>)
    requires Represents(rt, devs, START)
    requires |statuses| == |ops| && (forall op :: op in ops ==> op.device < |devs|) && d < |devs|
    modifies rt, devs
    ensures r.Done? <==> forall s :: 0 <= s < |ops| ==> Succeeds(Run(ops[..s]), ops[s], statuses[s])
    ensures r.Done? && d in Run(ops).contexts ==>
      Orders(Run(ops).contexts[d].programs, orders) && rt.trace == Deleted(Run(ops), d, orders)
  {
    orders := [];
    r := RunCalls(rt, devs, ops, statuses);
    if r.Done? {
      ShownPrograms(rt, devs, Run(ops), d);
      if devs[d].context != null {
        orders := DeleteContext(rt, devs, Run(ops), d);
      }
    }
  }

  // ---------- runs of argument calls ----------

  /** Any sequence of resetArgs and add calls, after any earlier ones. */
  method RunArgs(k: OpenCLKernel, ghost before: seq<ArgOp>, ops: seq<ArgOp>, statuses: seq<int>) returns (r: Result<()>)
    requires |statuses| == |ops| && k.Args() == ArgRun(before)
    modifies k
    ensures r.Done? <==> forall s :: 0 <= s < |ops| && ops[s].Add? ==> statuses[s] == CL_SUCCESS
    ensures r.Done? ==> k.Args() == ArgRun(before + ops)
  {
    assert before + ops[..0] == before;
    for n := 0 to |ops|
      invariant forall s :: 0 <= s < n && ops[s].Add? ==> statuses[s] == CL_SUCCESS
      invariant k.Args() == ArgRun(before + ops[..n])
    {
      match ops[n] {
        case Reset =>
          k.ResetArgs();
        case Add(value) =>
          var a := k.AddArg(value, statuses[n]);
          if !a.Done? {
            return a;
          }
      }
      assert (before + ops[..n + 1])[..|before| + n] == before + ops[..n];
    }
    assert ops[..|ops|] == ops;
    return Done(());
  }
}
