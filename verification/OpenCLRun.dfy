/** The objects of xptMiner/OpenCLObjects.cpp as values: what each call does to the views of the
    objects and to the trace of the OpenCL runtime, and invariants over every run of such calls. */
module OpenCLRun {

  type Handle = nat

  /** Calls into the OpenCL runtime that create or release something. */
  datatype Event =
    | ContextCreated(h: Handle, device: nat)
    | ProgramCreated(h: Handle, context: Handle)
    | KernelCreated(h: Handle, program: Handle, name: string)
    | KernelReleased(h: Handle)
    | ProgramReleased(h: Handle)
    | ContextReleased(h: Handle)
  {
    predicate Creation() {
      ContextCreated? || ProgramCreated? || KernelCreated?
    }
  }

  /** The runtime hands out ever new handles and remembers its calls. */
  datatype Runtime = Runtime(next: Handle, trace: seq<Event>)

  datatype ProgramView = ProgramView(handle: Handle, kernels: map<string, Handle>)

  datatype ContextView = ContextView(handle: Handle, programs: seq<ProgramView>)

  function Create(rt: Runtime, ev: Event): Runtime {
    Runtime(rt.next + 1, rt.trace + [ev])
  }

  // ---------- single calls that do not abort ----------

  /** OpenCLDevice::getContext on a device without a context. */
  function NewContext(device: nat, rt: Runtime): (ContextView, Runtime) {
    (ContextView(rt.next, []), Create(rt, ContextCreated(rt.next, device)))
  }

  /** OpenCLContext::loadProgramFromStrings. */
  function LoadStep(c: ContextView, rt: Runtime): (ContextView, Runtime) {
    (c.(programs := c.programs + [ProgramView(rt.next, map[])]), Create(rt, ProgramCreated(rt.next, c.handle)))
  }

  /** OpenCLProgram::getKernel. */
  function KernelStep(p: ProgramView, name: string, rt: Runtime): (ProgramView, Runtime) {
    if name in p.kernels then (p, rt)
    else (p.(kernels := p.kernels[name := rt.next]), Create(rt, KernelCreated(rt.next, p.handle, name)))
  }

  // ---------- runs ----------

  /** The contexts made so far, by the number of the device object that owns them. */
  datatype World = World(contexts: map<nat, ContextView>, rt: Runtime)

  datatype Op =
    | GetContext(device: nat)
    | LoadProgram(device: nat)
    | GetKernel(device: nat, pos: nat, name: string)

  const START := World(map[], Runtime(1, []))

  /** A call needs the object it is made on. */
  predicate Callable(w: World, op: Op) {
    match op
    case GetContext(_) => true
    case LoadProgram(d) => d in w.contexts
    case GetKernel(d, i, _) => d in w.contexts && i < |w.contexts[d].programs|
  }

  function Step(w: World, op: Op): World {
    if !Callable(w, op) then w
    else
      match op
      case GetContext(d) =>
        if d in w.contexts then w
        else var (c, rt) := NewContext(d, w.rt); World(w.contexts[d := c], rt)
      case LoadProgram(d) =>
        var (c, rt) := LoadStep(w.contexts[d], w.rt);
        World(w.contexts[d := c], rt)
      case GetKernel(d, i, name) =>
        var c := w.contexts[d];
        var (p, rt) := KernelStep(c.programs[i], name, w.rt);
        World(w.contexts[d := c.(programs := c.programs[i := p])], rt)
  }

  function Run(ops: seq<Op>): World {
    if ops == [] then START else Step(Run(ops[..|ops| - 1]), ops[|ops| - 1])
  }

  // ---------- what every run keeps ----------

  predicate HasContext(w: World, d: nat, x: Handle) {
    d in w.contexts && w.contexts[d].handle == x
  }

  /** Device d has a context x whose program number i is p. */
  predicate HasProgram(w: World, d: nat, x: Handle, i: nat, p: Handle) {
    HasContext(w, d, x) && i < |w.contexts[d].programs| && w.contexts[d].programs[i].handle == p
  }

  /** ... and that program's cache maps the name to h. */
  predicate HasKernel(w: World, d: nat, x: Handle, i: nat, p: Handle, name: string, h: Handle) {
    && HasProgram(w, d, x, i, p)
    && name in w.contexts[d].programs[i].kernels && w.contexts[d].programs[i].kernels[name] == h
  }

  /** Each object's creation is in the trace. */
  ghost predicate Recorded(w: World) {
    && (forall d: nat, x: Handle :: HasContext(w, d, x) ==> ContextCreated(x, d) in w.rt.trace)
    && (forall d: nat, x: Handle, i: nat, p: Handle :: HasProgram(w, d, x, i, p) ==> ProgramCreated(p, x) in w.rt.trace)
    && (forall d: nat, x: Handle, i: nat, p: Handle, name: string, h: Handle ::
          HasKernel(w, d, x, i, p, name, h) ==> KernelCreated(h, p, name) in w.rt.trace)
  }

  /** The object that a creation made is still reachable. */
  ghost predicate Owned(w: World, ev: Event) {
    match ev
    case ContextCreated(h, d) => HasContext(w, d, h)
    case ProgramCreated(h, x) => exists d: nat, i: nat :: HasProgram(w, d, x, i, h)
    case KernelCreated(h, p, name) => exists d: nat, x: Handle, i: nat :: HasKernel(w, d, x, i, p, name, h)
    case _ => false
  }

  /** The trace consists of creations with ever larger handles. */
  ghost predicate Increasing(rt: Runtime) {
    && (forall t :: 0 <= t < |rt.trace| ==> rt.trace[t].Creation() && rt.trace[t].h < rt.next)
    && (forall t, u :: 0 <= t < u < |rt.trace| ==> rt.trace[t].h < rt.trace[u].h)
  }

  /** The programs of a context are listed in the order of their creation. */
  ghost predicate ProgramsIncrease(w: World) {
    forall d: nat, x: Handle, i: nat, j: nat, g: Handle, h: Handle ::
      HasProgram(w, d, x, i, g) && HasProgram(w, d, x, j, h) && i < j ==> g < h
  }

  ghost predicate Inv(w: World) {
    && Recorded(w)
    && (forall ev :: ev in w.rt.trace ==> Owned(w, ev))
    && Increasing(w.rt)
    && ProgramsIncrease(w)
  }

  /** What a call adds to the world: nothing, or the object of one creation event. */
  ghost predicate AddsObject(w: World, v: World, d: nat, i: nat, ev: Event)
  {
    && v.rt == Create(w.rt, ev) && ev.h == w.rt.next && ev.Creation()
    && (forall e: nat, x: Handle :: HasContext(v, e, x) <==> HasContext(w, e, x) || ev == ContextCreated(x, e))
    && (forall e: nat, x: Handle, j: nat, p: Handle :: HasProgram(v, e, x, j, p) <==>
          HasProgram(w, e, x, j, p) || (e == d && j == i && ev == ProgramCreated(p, x)))
    && (forall e: nat, x: Handle, j: nat, p: Handle, name: string, h: Handle :: HasKernel(v, e, x, j, p, name, h) <==>
          || HasKernel(w, e, x, j, p, name, h)
          || (e == d && j == i && HasProgram(w, e, x, j, p) && ev == KernelCreated(h, p, name)))
  }

  lemma GetContextAdds(w: World, d: nat)
    requires d !in w.contexts
    ensures AddsObject(w, Step(w, GetContext(d)), d, 0, ContextCreated(w.rt.next, d))
  {
  }

  lemma LoadProgramAdds(w: World, d: nat)
    requires Callable(w, LoadProgram(d))
    ensures var c := w.contexts[d];
      AddsObject(w, Step(w, LoadProgram(d)), d, |c.programs|, ProgramCreated(w.rt.next, c.handle))
  {
  }

  lemma GetKernelAdds(w: World, d: nat, i: nat, name: string)
    requires Callable(w, GetKernel(d, i, name)) && name !in w.contexts[d].programs[i].kernels
    ensures var p := w.contexts[d].programs[i];
      AddsObject(w, Step(w, GetKernel(d, i, name)), d, i, KernelCreated(w.rt.next, p.handle, name))
  {
  }

  lemma OwnedStays(w: World, v: World, d: nat, i: nat, ev: Event, e: Event)
    requires AddsObject(w, v, d, i, ev) && Owned(w, e)
    ensures Owned(v, e)
  {
    hide HasContext, HasProgram, HasKernel;
    match e
    case ProgramCreated(h, x) =>
      var f: nat, j: nat :| HasProgram(w, f, x, j, h);
      assert HasProgram(v, f, x, j, h);
    case KernelCreated(h, p, name) =>
      var f: nat, x: Handle, j: nat :| HasKernel(w, f, x, j, p, name, h);
      assert HasKernel(v, f, x, j, p, name, h);
    case _ =>
  }

  lemma NewOwned(w: World, v: World, d: nat, x: Handle, i: nat, ev: Event)
    requires AddsObject(w, v, d, i, ev)
    requires ev.KernelCreated? ==> HasProgram(w, d, x, i, ev.program)
    ensures Owned(v, ev)
  {
    hide HasContext, HasProgram, HasKernel;
    match ev
    case ContextCreated(h, e) => assert HasContext(v, e, h);
    case ProgramCreated(h, y) => assert HasProgram(v, d, y, i, h);
    case KernelCreated(h, p, name) => assert HasKernel(v, d, x, i, p, name, h);
  }

  lemma NewProgramLargest(w: World, v: World, d: nat, x: Handle, i: nat, ev: Event)
    requires Inv(w) && AddsObject(w, v, d, i, ev)
    requires ev.ProgramCreated? ==> HasContext(w, d, x) && ev.context == x && i == |w.contexts[d].programs|
    ensures ProgramsIncrease(v)
  {
    forall e: nat, y: Handle, j: nat, k: nat, g: Handle, h: Handle |
      HasProgram(v, e, y, j, g) && HasProgram(v, e, y, k, h) && j < k
      ensures g < h
    {
      if HasProgram(w, e, y, j, g) {
        assert ProgramCreated(g, y) in w.rt.trace;
      }
    }
  }

  lemma AdditionKeepsInv(w: World, v: World, d: nat, x: Handle, i: nat, ev: Event)
    requires Inv(w) && AddsObject(w, v, d, i, ev)
    requires ev.ProgramCreated? ==> HasContext(w, d, x) && ev.context == x && i == |w.contexts[d].programs|
    requires ev.KernelCreated? ==> HasProgram(w, d, x, i, ev.program)
    ensures Inv(v)
  {
    NewProgramLargest(w, v, d, x, i, ev);
    NewOwned(w, v, d, x, i, ev);
    hide HasContext, HasProgram, HasKernel, Owned, ProgramsIncrease;
    assert v.rt.trace == w.rt.trace + [ev];
    forall e | e in v.rt.trace
      ensures Owned(v, e)
    {
      if e in w.rt.trace {
        OwnedStays(w, v, d, i, ev, e);
      }
    }
  }

  lemma StepKeepsInv(w: World, op: Op)
    requires Inv(w)
    ensures Inv(Step(w, op))
  {
    hide Inv, AddsObject;
    if Callable(w, op) {
      match op
      case GetContext(d) =>
        if d !in w.contexts {
          GetContextAdds(w, d);
          AdditionKeepsInv(w, Step(w, op), d, 0, 0, ContextCreated(w.rt.next, d));
        }
      case LoadProgram(d) =>
        var c := w.contexts[d];
        LoadProgramAdds(w, d);
        AdditionKeepsInv(w, Step(w, op), d, c.handle, |c.programs|, ProgramCreated(w.rt.next, c.handle));
      case GetKernel(d, i, name) =>
        var c := w.contexts[d];
        if name in c.programs[i].kernels {
          assert c.programs[i := c.programs[i]] == c.programs;
          assert w.contexts[d := c] == w.contexts;
        } else {
          GetKernelAdds(w, d, i, name);
          AdditionKeepsInv(w, Step(w, op), d, c.handle, i, KernelCreated(w.rt.next, c.programs[i].handle, name));
        }
    }
  }

  /** Every run keeps the invariant. */
  lemma {:induction false} RunKeepsInv(ops: seq<Op>)
    ensures Inv(Run(ops))
    decreases |ops|
  {
    if ops != [] {
      hide Inv;
      RunKeepsInv(ops[..|ops| - 1]);
      StepKeepsInv(Run(ops[..|ops| - 1]), ops[|ops| - 1]);
    }
  }

  // ---------- objects persist ----------

  /** Every object of w is still there in v, under the same handle. */
  ghost predicate Grows(w: World, v: World) {
    && (forall d: nat, x: Handle :: HasContext(w, d, x) ==> HasContext(v, d, x))
    && (forall d: nat, x: Handle, i: nat, p: Handle :: HasProgram(w, d, x, i, p) ==> HasProgram(v, d, x, i, p))
    && (forall d: nat, x: Handle, i: nat, p: Handle, name: string, h: Handle ::
          HasKernel(w, d, x, i, p, name, h) ==> HasKernel(v, d, x, i, p, name, h))
  }

  lemma StepGrows(w: World, op: Op)
    ensures Grows(w, Step(w, op))
  {
    if Callable(w, op) {
      match op
      case GetContext(d) =>
        if d !in w.contexts {
          GetContextAdds(w, d);
        }
      case LoadProgram(d) =>
        LoadProgramAdds(w, d);
      case GetKernel(d, i, name) =>
        if name !in w.contexts[d].programs[i].kernels {
          GetKernelAdds(w, d, i, name);
        }
    }
  }

  lemma {:induction false} RunGrows(ops: seq<Op>, n: nat)
    requires n <= |ops|
    ensures Grows(Run(ops[..n]), Run(ops))
    decreases |ops|
  {
    if n == |ops| {
      assert ops[..n] == ops;
    } else {
      var before := ops[..|ops| - 1];
      assert before[..n] == ops[..n];
      hide HasContext, HasProgram, HasKernel, Run, Step;
      RunGrows(before, n);
      StepGrows(Run(before), ops[|ops| - 1]);
      RunUnfolds(ops);
    }
  }

  lemma RunUnfolds(ops: seq<Op>)
    requires ops != []
    ensures Run(ops) == Step(Run(ops[..|ops| - 1]), ops[|ops| - 1])
  {
  }

  // ---------- create once, always return the same object ----------

  lemma SameEvent(rt: Runtime, e: Event, f: Event)
    requires Increasing(rt) && e in rt.trace && f in rt.trace && e.h == f.h
    ensures e == f
  {
    var t :| 0 <= t < |rt.trace| && rt.trace[t] == e;
    var u :| 0 <= u < |rt.trace| && rt.trace[u] == f;
    assert t == u;
  }

  /** Different devices, different programs and different kernel names have different handles. */
  lemma HandlesIdentify(w: World, d: nat, x: Handle, i: nat, p: Handle, name: string, h: Handle,
                        d': nat, x': Handle, i': nat, p': Handle, name': string, h': Handle)
    requires Inv(w)
    ensures HasContext(w, d, x) && HasContext(w, d', x') ==> (x == x' <==> d == d')
    ensures HasProgram(w, d, x, i, p) && HasProgram(w, d', x', i', p') ==> (p == p' <==> d == d' && i == i')
    ensures HasKernel(w, d, x, i, p, name, h) && HasKernel(w, d', x', i', p', name', h') ==>
      (h == h' <==> d == d' && i == i' && name == name')
  {
    if HasContext(w, d, x) && HasContext(w, d', x') && x == x' {
      SameEvent(w.rt, ContextCreated(x, d), ContextCreated(x', d'));
    }
    if HasProgram(w, d, x, i, p) && HasProgram(w, d', x', i', p') && p == p' {
      SameEvent(w.rt, ProgramCreated(p, x), ProgramCreated(p', x'));
      SameEvent(w.rt, ContextCreated(x, d), ContextCreated(x', d'));
    }
    if HasKernel(w, d, x, i, p, name, h) && HasKernel(w, d', x', i', p', name', h') && h == h' {
      SameEvent(w.rt, KernelCreated(h, p, name), KernelCreated(h', p', name'));
      SameEvent(w.rt, ProgramCreated(p, x), ProgramCreated(p', x'));
      SameEvent(w.rt, ContextCreated(x, d), ContextCreated(x', d'));
    }
  }

  /** The call was made somewhere in the run, on an object that existed then. */
  ghost predicate Requested(ops: seq<Op>, op: Op) {
    exists n :: 0 <= n < |ops| && ops[n] == op && Callable(Run(ops[..n]), op)
  }

  predicate Cached(w: World, d: nat, i: nat, name: string) {
    d in w.contexts && i < |w.contexts[d].programs| && name in w.contexts[d].programs[i].kernels
  }

  lemma StepCaches(w: World, op: Op, d: nat, i: nat, name: string)
    ensures Cached(Step(w, op), d, i, name) <==>
      Cached(w, d, i, name) || (op == GetKernel(d, i, name) && Callable(w, op))
    ensures d in Step(w, op).contexts <==> d in w.contexts || op == GetContext(d)
  {
  }

  /** A run's last call is requested now; all other requests were made before. */
  lemma RequestedUnfolds(ops: seq<Op>, op: Op)
    requires ops != []
    ensures var before, last := ops[..|ops| - 1], ops[|ops| - 1];
      Requested(ops, op) <==> Requested(before, op) || (last == op && Callable(Run(before), op))
  {
    hide Run, Callable;
    var before := ops[..|ops| - 1];
    assert forall n :: 0 <= n < |before| ==> before[n] == ops[n] && before[..n] == ops[..n];
  }

  /** A name is in a program's cache exactly when getKernel was called with it. */
  lemma {:induction false} CachedIffRequested(ops: seq<Op>, d: nat, i: nat, name: string)
    ensures Cached(Run(ops), d, i, name) <==> Requested(ops, GetKernel(d, i, name))
    ensures d in Run(ops).contexts <==> Requested(ops, GetContext(d))
    decreases |ops|
  {
    if ops != [] {
      hide Cached, Requested, Step;
      var before, last := ops[..|ops| - 1], ops[|ops| - 1];
      CachedIffRequested(before, d, i, name);
      StepCaches(Run(before), last, d, i, name);
      RequestedUnfolds(ops, GetKernel(d, i, name));
      RequestedUnfolds(ops, GetContext(d));
    }
  }

  /** The number of loads on device d, told from the calls alone: loads before the device's first
      getContext are not made. */
  function Loads(ops: seq<Op>, d: nat): nat {
    if ops == [] then 0
    else
      var before, last := ops[..|ops| - 1], ops[|ops| - 1];
      Loads(before, d) + if last == LoadProgram(d) && GetContext(d) in before then 1 else 0
  }

  /** A device has a context once it was asked for, and as many programs as were loaded since. */
  lemma {:induction false} ProgramsAreLoads(ops: seq<Op>, d: nat)
    ensures d in Run(ops).contexts <==> GetContext(d) in ops
    ensures Loads(ops, d) == if d in Run(ops).contexts then |Run(ops).contexts[d].programs| else 0
    decreases |ops|
  {
    if ops != [] {
      ProgramsAreLoads(ops[..|ops| - 1], d);
    }
  }

  /** Which calls a run can make next, told from its calls alone. */
  lemma CallableByHistory(ops: seq<Op>, d: nat, i: nat, name: string)
    ensures Callable(Run(ops), GetContext(d))
    ensures Callable(Run(ops), LoadProgram(d)) <==> GetContext(d) in ops
    ensures Callable(Run(ops), GetKernel(d, i, name)) <==> i < Loads(ops, d)
  {
    ProgramsAreLoads(ops, d);
  }

  /** The positions in the trace at which clCreateKernel ran for this name of this program. */
  function KernelCreations(trace: seq<Event>, program: Handle, name: string): set<nat> {
    set t: nat | t < |trace| && trace[t].KernelCreated? && trace[t].program == program && trace[t].name == name
  }

  /** The positions at which clCreateContext ran for this device. */
  function ContextCreations(trace: seq<Event>, device: nat): set<nat> {
    set t: nat | t < |trace| && trace[t].ContextCreated? && trace[t].device == device
  }

  /** Kernel cache: whatever else a run does, clCreateKernel runs once for each distinct name
      requested from a program, and never for a name that was not. */
  lemma KernelCreatedOnce(ops: seq<Op>, d: nat, x: Handle, i: nat, p: Handle, name: string)
    requires HasProgram(Run(ops), d, x, i, p)
    ensures |KernelCreations(Run(ops).rt.trace, p, name)| == if Requested(ops, GetKernel(d, i, name)) then 1 else 0
  {
    var w := Run(ops);
    var created := KernelCreations(w.rt.trace, p, name);
    RunKeepsInv(ops);
    CachedIffRequested(ops, d, i, name);
    hide Run, Requested, Inv;
    if Cached(w, d, i, name) {
      var h := w.contexts[d].programs[i].kernels[name];
      assert HasKernel(w, d, x, i, p, name, h);
      var t := OnlyKernelCreation(w, d, x, i, p, name, h);
      assert created == {t};
    } else {
      NoKernelCreation(w, d, x, i, p, name);
      assert created == {};
    }
  }

  lemma OnlyKernelCreation(w: World, d: nat, x: Handle, i: nat, p: Handle, name: string, h: Handle) returns (t: nat)
    requires Inv(w) && HasKernel(w, d, x, i, p, name, h)
    ensures forall u: nat :: u in KernelCreations(w.rt.trace, p, name) <==> u == t
  {
    t :| t < |w.rt.trace| && w.rt.trace[t] == KernelCreated(h, p, name);
    forall u: nat | u in KernelCreations(w.rt.trace, p, name)
      ensures u == t
    {
      KernelEventOwner(w, d, x, i, p, w.rt.trace[u]);
    }
  }

  lemma NoKernelCreation(w: World, d: nat, x: Handle, i: nat, p: Handle, name: string)
    requires Inv(w) && HasProgram(w, d, x, i, p) && !Cached(w, d, i, name)
    ensures KernelCreations(w.rt.trace, p, name) == {}
  {
    forall ev | ev in w.rt.trace && ev.KernelCreated? && ev.program == p
      ensures Cached(w, d, i, ev.name)
    {
      KernelEventOwner(w, d, x, i, p, ev);
    }
  }

  /** A kernel creation of this program is in this program's cache. */
  lemma KernelEventOwner(w: World, d: nat, x: Handle, i: nat, p: Handle, ev: Event)
    requires Inv(w) && HasProgram(w, d, x, i, p)
    requires ev in w.rt.trace && ev.KernelCreated? && ev.program == p
    ensures HasKernel(w, d, x, i, p, ev.name, ev.h)
  {
    assert Owned(w, ev);
    var e: nat, y: Handle, j: nat :| HasKernel(w, e, y, j, p, ev.name, ev.h);
    HandlesIdentify(w, d, x, i, p, "", 0, e, y, j, p, "", 0);
  }

  /** Every getKernel call with one name returns the handle that the cache holds at the end. */
  lemma SameKernelEveryTime(ops: seq<Op>, n: nat, d: nat, i: nat, name: string)
    requires n < |ops| && ops[n] == GetKernel(d, i, name) && Callable(Run(ops[..n]), ops[n])
    ensures Cached(Run(ops[..n + 1]), d, i, name) && Cached(Run(ops), d, i, name)
    ensures Run(ops[..n + 1]).contexts[d].programs[i].kernels[name] == Run(ops).contexts[d].programs[i].kernels[name]
  {
    var v, w := Run(ops[..n + 1]), Run(ops);
    assert ops[..n + 1][..n] == ops[..n];
    StepCaches(Run(ops[..n]), ops[n], d, i, name);
    RunGrows(ops, n + 1);
    hide Run, Step;
    var c := v.contexts[d];
    assert HasKernel(v, d, c.handle, i, c.programs[i].handle, name, c.programs[i].kernels[name]);
  }

  /** Lazy contexts: clCreateContext runs once for each device whose context was asked for. */
  lemma ContextCreatedOnce(ops: seq<Op>, d: nat)
    ensures |ContextCreations(Run(ops).rt.trace, d)| == if GetContext(d) in ops then 1 else 0
  {
    var w := Run(ops);
    var created := ContextCreations(w.rt.trace, d);
    RunKeepsInv(ops);
    CachedIffRequested(ops, d, 0, "");
    assert Requested(ops, GetContext(d)) <==> GetContext(d) in ops;
    hide Run, Requested;
    if d in w.contexts {
      var x := w.contexts[d].handle;
      assert HasContext(w, d, x);
      var t: nat :| t < |w.rt.trace| && w.rt.trace[t] == ContextCreated(x, d);
      forall u: nat | u in created
        ensures u == t
      {
        assert Owned(w, w.rt.trace[u]);
      }
      assert created == {t};
    } else {
      forall ev | ev in w.rt.trace && ev.ContextCreated?
        ensures ev.device in w.contexts
      {
        assert Owned(w, ev);
      }
      assert created == {};
    }
  }

  /** Every getContext call on a device returns the same context, and no two devices share one. */
  lemma SameContextEveryTime(ops: seq<Op>, n: nat, d: nat, e: nat)
    requires n < |ops| && ops[n] == GetContext(d)
    ensures d in Run(ops[..n + 1]).contexts && d in Run(ops).contexts
    ensures Run(ops[..n + 1]).contexts[d].handle == Run(ops).contexts[d].handle
    ensures e in Run(ops).contexts && e != d ==> Run(ops).contexts[e].handle != Run(ops).contexts[d].handle
  {
    var v, w := Run(ops[..n + 1]), Run(ops);
    assert ops[..n + 1][..n] == ops[..n];
    StepCaches(Run(ops[..n]), ops[n], d, 0, "");
    RunGrows(ops, n + 1);
    RunKeepsInv(ops);
    hide Run, Step;
    assert HasContext(v, d, v.contexts[d].handle);
    if e in w.contexts && e != d {
      HandlesIdentify(w, d, w.contexts[d].handle, 0, 0, "", 0, e, w.contexts[e].handle, 0, 0, "", 0);
    }
  }
}
