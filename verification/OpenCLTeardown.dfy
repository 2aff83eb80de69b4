/** Deleting a context after any run: the destructors release every program and kernel of the
    context exactly once, in an order in which nothing outlives its owner. */
module OpenCLTeardown {
  import opened OpenCLRun

  // ---------- what the destructors do ----------

  /** An order in which the kernel map of a program is walked. */
  ghost predicate Enumerates(names: seq<string>, p: ProgramView) {
    && (forall name :: name in names <==> name in p.kernels)
    && (forall s, t :: 0 <= s < t < |names| ==> names[s] != names[t])
  }

  function KernelReleases(p: ProgramView, names: seq<string>): seq<Event>
    requires forall name :: name in names ==> name in p.kernels
  {
    seq(|names|, s requires 0 <= s < |names| => KernelReleased(p.kernels[names[s]]))
  }

  lemma KernelReleasesStep(p: ProgramView, names: seq<string>, name: string)
    requires name in p.kernels && forall n :: n in names ==> n in p.kernels
    ensures forall n :: n in names + [name] ==> n in p.kernels
    ensures KernelReleases(p, names + [name]) == KernelReleases(p, names) + [KernelReleased(p.kernels[name])]
  {
  }

  /** ~OpenCLProgram: the kernels, in some order, then the program. */
  ghost function ProgramTail(p: ProgramView, names: seq<string>): seq<Event>
    requires Enumerates(names, p)
  {
    KernelReleases(p, names) + [ProgramReleased(p.handle)]
  }

  ghost predicate Orders(ps: seq<ProgramView>, orders: seq<seq<string>>) {
    |orders| == |ps| && forall i :: 0 <= i < |ps| ==> Enumerates(orders[i], ps[i])
  }

  ghost function Tail(ps: seq<ProgramView>, orders: seq<seq<string>>): seq<Event>
    requires Orders(ps, orders)
  {
    if ps == [] then [] else ProgramTail(ps[0], orders[0]) + Tail(ps[1..], orders[1..])
  }

  /** ~OpenCLContext: the programs in the order of loading, then the context. */
  ghost function ContextTail(c: ContextView, orders: seq<seq<string>>): seq<Event>
    requires Orders(c.programs, orders)
  {
    Tail(c.programs, orders) + [ContextReleased(c.handle)]
  }

  lemma TailStart(ps: seq<ProgramView>)
    ensures Orders(ps[..0], []) && Tail(ps[..0], []) == []
  {
  }

  lemma TailLast(ps: seq<ProgramView>, orders: seq<seq<string>>, n: nat, names: seq<string>)
    requires n < |ps| && Orders(ps[..n], orders) && Enumerates(names, ps[n])
    ensures Orders(ps[..n + 1], orders + [names])
    ensures Tail(ps[..n + 1], orders + [names]) == Tail(ps[..n], orders) + ProgramTail(ps[n], names)
    decreases n
  {
    hide ProgramTail, Enumerates;
    var qs, os := ps[..n + 1], orders + [names];
    if n > 0 {
      TailLast(ps[1..], orders[1..], n - 1, names);
      assert qs[1..] == ps[1..][..n] && os[1..] == orders[1..] + [names];
      assert ps[..n][1..] == ps[1..][..n - 1];
    } else {
      assert Tail(qs[1..], os[1..]) == [];
    }
  }

  // ---------- what they release ----------

  predicate OwnsKernel(p: ProgramView, h: Handle) {
    exists name :: name in p.kernels && p.kernels[name] == h
  }

  /** A release in the destructors of some programs is one of their own handles. */
  lemma {:induction false} TailMembers(ps: seq<ProgramView>, orders: seq<seq<string>>, ev: Event)
    requires Orders(ps, orders) && ev in Tail(ps, orders)
    ensures
      || (ev.ProgramReleased? && exists i :: 0 <= i < |ps| && ps[i].handle == ev.h)
      || (ev.KernelReleased? && exists i :: 0 <= i < |ps| && OwnsKernel(ps[i], ev.h))
    decreases |ps|
  {
    var k := KernelReleases(ps[0], orders[0]);
    if ev in k {
      var s :| 0 <= s < |k| && k[s] == ev;
      assert orders[0][s] in orders[0];
      assert OwnsKernel(ps[0], ev.h);
    } else if ev in Tail(ps[1..], orders[1..]) {
      TailMembers(ps[1..], orders[1..], ev);
      if ev.ProgramReleased? {
        var i :| 0 <= i < |ps[1..]| && ps[1..][i].handle == ev.h;
        assert ps[i + 1].handle == ev.h;
      } else {
        var i :| 0 <= i < |ps[1..]| && OwnsKernel(ps[1..][i], ev.h);
        assert OwnsKernel(ps[i + 1], ev.h);
      }
    }
  }

  /** The destructors of the programs, cut around program i. */
  lemma {:induction false} TailSplits(ps: seq<ProgramView>, orders: seq<seq<string>>, i: nat)
    requires Orders(ps, orders) && i < |ps|
    ensures Orders(ps[..i], orders[..i]) && Orders(ps[i + 1..], orders[i + 1..])
    ensures Tail(ps, orders)
      == Tail(ps[..i], orders[..i]) + ProgramTail(ps[i], orders[i]) + Tail(ps[i + 1..], orders[i + 1..])
    decreases |ps|
  {
    hide ProgramTail;
    if i > 0 {
      TailSplits(ps[1..], orders[1..], i - 1);
      assert ps[1..][..i - 1] == ps[..i][1..] && orders[1..][..i - 1] == orders[..i][1..];
      assert ps[1..][i..] == ps[i + 1..] && orders[1..][i..] == orders[i + 1..];
    }
  }

  /** All occurrences of a come before all occurrences of b. */
  predicate Before(trace: seq<Event>, a: Event, b: Event) {
    forall s, t :: 0 <= s < |trace| && 0 <= t < |trace| && trace[s] == a && trace[t] == b ==> s < t
  }

  lemma BeforeSplit(left: seq<Event>, right: seq<Event>, a: Event, b: Event)
    requires a !in right && b !in left
    ensures Before(left + right, a, b)
  {
  }

  /** A cached kernel is released once while its own program is torn down. */
  lemma KernelReleasedOnce(p: ProgramView, names: seq<string>, name: string)
    requires Enumerates(names, p) && name in p.kernels
    requires forall other :: other in p.kernels && p.kernels[other] == p.kernels[name] ==> other == name
    ensures multiset(KernelReleases(p, names))[KernelReleased(p.kernels[name])] == 1
  {
    var k, ev := KernelReleases(p, names), KernelReleased(p.kernels[name]);
    var s :| 0 <= s < |names| && names[s] == name;
    assert k == k[..s] + [ev] + k[s + 1..];
    assert ev !in k[..s] by {
      forall t | 0 <= t < s ensures k[t] != ev { assert names[t] in p.kernels && names[t] != name; }
    }
    assert ev !in k[s + 1..] by {
      forall t | s < t < |k| ensures k[t] != ev { assert names[t] in p.kernels && names[t] != name; }
    }
  }

  // ---------- after any run ----------

  /** Other programs of the context do not release program i. */
  lemma NotAmongPrograms(w: World, d: nat, x: Handle, i: nat, p: Handle, lo: nat, hi: nat, orders: seq<seq<string>>)
    requires Inv(w) && HasProgram(w, d, x, i, p)
    requires lo <= hi <= |w.contexts[d].programs| && !(lo <= i < hi)
    requires Orders(w.contexts[d].programs[lo..hi], orders)
    ensures ProgramReleased(p) !in Tail(w.contexts[d].programs[lo..hi], orders)
  {
    hide Inv, Orders, Tail;
    var ps := w.contexts[d].programs;
    if ProgramReleased(p) in Tail(ps[lo..hi], orders) {
      TailMembers(ps[lo..hi], orders, ProgramReleased(p));
      var j :| 0 <= j < hi - lo && ps[lo..hi][j].handle == p;
      HandlesIdentify(w, d, x, i, p, "", 0, d, x, lo + j, p, "", 0);
      assert false;
    }
  }

  /** ... nor one of its kernels. */
  lemma NotAmongKernels(w: World, d: nat, x: Handle, i: nat, p: Handle, name: string, h: Handle,
                        lo: nat, hi: nat, orders: seq<seq<string>>)
    requires Inv(w) && HasKernel(w, d, x, i, p, name, h)
    requires lo <= hi <= |w.contexts[d].programs| && !(lo <= i < hi)
    requires Orders(w.contexts[d].programs[lo..hi], orders)
    ensures KernelReleased(h) !in Tail(w.contexts[d].programs[lo..hi], orders)
  {
    hide Inv, Orders, Tail;
    var ps := w.contexts[d].programs;
    if KernelReleased(h) in Tail(ps[lo..hi], orders) {
      TailMembers(ps[lo..hi], orders, KernelReleased(h));
      var j :| 0 <= j < hi - lo && OwnsKernel(ps[lo..hi][j], h);
      var other :| other in ps[lo + j].kernels && ps[lo + j].kernels[other] == h;
      HandlesIdentify(w, d, x, i, p, name, h, d, x, lo + j, ps[lo + j].handle, other, h);
      assert false;
    }
  }

  /** The trace of a run followed by the deletion of the context of device d. */
  ghost function Deleted(w: World, d: nat, orders: seq<seq<string>>): seq<Event>
    requires d in w.contexts && Orders(w.contexts[d].programs, orders)
  {
    w.rt.trace + ContextTail(w.contexts[d], orders)
  }

  /** The trace up to the destructor of program i, and the destructors after it. */
  ghost function Earlier(w: World, d: nat, orders: seq<seq<string>>, i: nat): seq<Event>
    requires d in w.contexts && Orders(w.contexts[d].programs, orders) && i < |w.contexts[d].programs|
  {
    w.rt.trace + Tail(w.contexts[d].programs[..i], orders[..i])
  }

  ghost function Later(w: World, d: nat, orders: seq<seq<string>>, i: nat): seq<Event>
    requires d in w.contexts && Orders(w.contexts[d].programs, orders) && i < |w.contexts[d].programs|
  {
    Tail(w.contexts[d].programs[i + 1..], orders[i + 1..])
  }

  lemma DeletedSplits(w: World, d: nat, orders: seq<seq<string>>, i: nat)
    requires d in w.contexts && Orders(w.contexts[d].programs, orders) && i < |w.contexts[d].programs|
    ensures var c := w.contexts[d];
      Deleted(w, d, orders) == Earlier(w, d, orders, i) +
        (KernelReleases(c.programs[i], orders[i]) +
        ([ProgramReleased(c.programs[i].handle)] + (Later(w, d, orders, i) + [ContextReleased(c.handle)])))
  {
    var c := w.contexts[d];
    TailSplits(c.programs, orders, i);
    Regroup(w.rt.trace, Tail(c.programs[..i], orders[..i]), KernelReleases(c.programs[i], orders[i]),
      [ProgramReleased(c.programs[i].handle)], Later(w, d, orders, i), [ContextReleased(c.handle)]);
  }

  lemma PartsOrdered(ps: seq<ProgramView>, orders: seq<seq<string>>, i: nat)
    requires Orders(ps, orders) && i < |ps|
    ensures ps[0..i] == ps[..i] && ps[i + 1..|ps|] == ps[i + 1..]
    ensures Orders(ps[..i], orders[..i]) && Orders(ps[i + 1..], orders[i + 1..])
  {
  }

  /** Neither part mentions a release of the program or of the context. */
  lemma ProgramOutside(w: World, d: nat, orders: seq<seq<string>>, x: Handle, i: nat, p: Handle)
    requires Inv(w) && HasProgram(w, d, x, i, p)
    requires Orders(w.contexts[d].programs, orders)
    ensures var a, b := Earlier(w, d, orders, i), Later(w, d, orders, i);
      && ProgramReleased(p) !in a && ProgramReleased(p) !in b
      && ContextReleased(x) !in a && ContextReleased(x) !in b
      && (forall ev :: ev in b ==> !ev.Creation())
  {
    var ps := w.contexts[d].programs;
    PartsOrdered(ps, orders, i);
    NotAmongPrograms(w, d, x, i, p, 0, i, orders[..i]);
    NotAmongPrograms(w, d, x, i, p, i + 1, |ps|, orders[i + 1..]);
    TailReleases(ps[..i], orders[..i]);
    TailReleases(ps[i + 1..], orders[i + 1..]);
    hide Recorded, Owned, ProgramsIncrease, Tail, Orders, HasProgram;
  }

  /** ... nor of its kernels, each of which is released once by its own program. */
  lemma KernelOutside(w: World, d: nat, orders: seq<seq<string>>, x: Handle, i: nat, p: Handle, name: string, h: Handle)
    requires Inv(w) && HasKernel(w, d, x, i, p, name, h)
    requires Orders(w.contexts[d].programs, orders)
    ensures KernelReleased(h) !in Earlier(w, d, orders, i) && KernelReleased(h) !in Later(w, d, orders, i)
  {
    var ps := w.contexts[d].programs;
    PartsOrdered(ps, orders, i);
    NotAmongKernels(w, d, x, i, p, name, h, 0, i, orders[..i]);
    NotAmongKernels(w, d, x, i, p, name, h, i + 1, |ps|, orders[i + 1..]);
    hide Recorded, Owned, ProgramsIncrease, Tail, Orders, HasProgram, HasKernel;
  }

  lemma KernelInside(w: World, d: nat, orders: seq<seq<string>>, x: Handle, i: nat, p: Handle, name: string, h: Handle)
    requires Inv(w) && HasKernel(w, d, x, i, p, name, h)
    requires Orders(w.contexts[d].programs, orders)
    ensures multiset(KernelReleases(w.contexts[d].programs[i], orders[i]))[KernelReleased(h)] == 1
  {
    var view := w.contexts[d].programs[i];
    forall other | other in view.kernels && view.kernels[other] == h
      ensures other == name
    {
      HandlesIdentify(w, d, x, i, p, name, h, d, x, i, p, other, h);
    }
    KernelReleasedOnce(view, orders[i], name);
  }

  lemma Regroup(t: seq<Event>, f: seq<Event>, k: seq<Event>, r: seq<Event>, b: seq<Event>, c: seq<Event>)
    ensures t + (f + (k + r) + b + c) == (t + f) + (k + (r + (b + c)))
  {
  }

  lemma TailReleases(ps: seq<ProgramView>, orders: seq<seq<string>>)
    requires Orders(ps, orders)
    ensures forall ev :: ev in Tail(ps, orders) ==> ev.ProgramReleased? || ev.KernelReleased?
  {
    forall ev | ev in Tail(ps, orders)
      ensures ev.ProgramReleased? || ev.KernelReleased?
    {
      TailMembers(ps, orders, ev);
    }
  }

  /** Deleting a context releases each of its programs exactly once, after its creation and
      before the context, which is released last and once. */
  lemma ProgramTeardown(w: World, d: nat, orders: seq<seq<string>>, x: Handle, i: nat, p: Handle)
    requires Inv(w) && HasProgram(w, d, x, i, p)
    requires Orders(w.contexts[d].programs, orders)
    ensures var t := Deleted(w, d, orders);
      && multiset(t)[ProgramReleased(p)] == 1 && multiset(t)[ContextReleased(x)] == 1
      && Before(t, ProgramCreated(p, x), ProgramReleased(p))
      && Before(t, ProgramReleased(p), ContextReleased(x))
  {
    var a, b := Earlier(w, d, orders, i), Later(w, d, orders, i);
    DeletedSplits(w, d, orders, i);
    ProgramOutside(w, d, orders, x, i, p);
    var k := KernelReleases(w.contexts[d].programs[i], orders[i]);
    var r, c := ProgramReleased(p), ContextReleased(x);
    KernelsOnly(w.contexts[d].programs[i], orders[i]);
    hide Inv, HasProgram, Orders, Deleted, KernelReleases, Before, Earlier, Later;
    Sandwich(a, k, r, b, c, ProgramCreated(p, x));
  }

  lemma Sandwich(a: seq<Event>, k: seq<Event>, r: Event, b: seq<Event>, c: Event, e: Event)
    requires r !in a && r !in k && r !in b && c !in a && c !in k && c !in b && r != c
    requires e !in k && e !in b && e != r && e != c
    ensures var t := a + (k + ([r] + (b + [c])));
      multiset(t)[r] == 1 && multiset(t)[c] == 1 && Before(t, e, r) && Before(t, r, c)
  {
    hide Before;
    var t := a + (k + ([r] + (b + [c])));
    assert t == (a + k) + ([r] + (b + [c]));
    assert t == ((a + k) + ([r] + b)) + [c];
    BeforeSplit(a, k + ([r] + (b + [c])), e, r);
    BeforeSplit((a + k) + ([r] + b), [c], r, c);
  }

  lemma KernelsOnly(p: ProgramView, names: seq<string>)
    requires Enumerates(names, p)
    ensures forall ev :: ev in KernelReleases(p, names) ==> ev.KernelReleased?
  {
  }

  /** Deleting a context releases each cached kernel exactly once, after its creation and before
      its program. */
  lemma KernelTeardown(w: World, d: nat, orders: seq<seq<string>>,
                       x: Handle, i: nat, p: Handle, name: string, h: Handle)
    requires Inv(w) && HasKernel(w, d, x, i, p, name, h)
    requires Orders(w.contexts[d].programs, orders)
    ensures var t := Deleted(w, d, orders);
      && multiset(t)[KernelReleased(h)] == 1
      && Before(t, KernelCreated(h, p, name), KernelReleased(h))
      && Before(t, KernelReleased(h), ProgramReleased(p))
  {
    var a, b := Earlier(w, d, orders, i), Later(w, d, orders, i);
    var k := KernelReleases(w.contexts[d].programs[i], orders[i]);
    DeletedSplits(w, d, orders, i);
    ProgramOutside(w, d, orders, x, i, p);
    KernelOutside(w, d, orders, x, i, p, name, h);
    KernelInside(w, d, orders, x, i, p, name, h);
    KernelsOnly(w.contexts[d].programs[i], orders[i]);
    hide Inv, HasProgram, HasKernel, Orders, Deleted, KernelReleases, Before, Earlier, Later;
    Filling(a, k, ProgramReleased(p), b, ContextReleased(x), KernelCreated(h, p, name), KernelReleased(h));
  }

  lemma Filling(a: seq<Event>, k: seq<Event>, r: Event, b: seq<Event>, c: Event, e: Event, f: Event)
    requires f !in a && f !in b && f != r && f != c && multiset(k)[f] == 1
    requires r !in a && r !in k && e !in k && e !in b && e != r && e != c
    ensures var t := a + (k + ([r] + (b + [c])));
      multiset(t)[f] == 1 && Before(t, e, f) && Before(t, f, r)
  {
    hide Before;
    var t := a + (k + ([r] + (b + [c])));
    assert t == (a + k) + ([r] + (b + [c]));
    BeforeSplit(a, k + ([r] + (b + [c])), e, f);
    BeforeSplit(a + k, [r] + (b + [c]), f, r);
  }

  /** ... and releases nothing that does not belong to it. */
  lemma OnlyOwnReleased(w: World, d: nat, orders: seq<seq<string>>, ev: Event)
    requires Inv(w) && d in w.contexts && Orders(w.contexts[d].programs, orders)
    requires ev in Deleted(w, d, orders) && !ev.Creation()
    ensures var x := w.contexts[d].handle;
      || ev == ContextReleased(x)
      || (ev.ProgramReleased? && exists i: nat :: HasProgram(w, d, x, i, ev.h))
      || (ev.KernelReleased? && exists i: nat, p: Handle, name: string :: HasKernel(w, d, x, i, p, name, ev.h))
  {
    var ps, x := w.contexts[d].programs, w.contexts[d].handle;
    if ev in Tail(ps, orders) {
      TailMembers(ps, orders, ev);
      if ev.ProgramReleased? {
        var i :| 0 <= i < |ps| && ps[i].handle == ev.h;
        assert HasProgram(w, d, x, i, ev.h);
      } else {
        var i :| 0 <= i < |ps| && OwnsKernel(ps[i], ev.h);
        var name :| name in ps[i].kernels && ps[i].kernels[name] == ev.h;
        assert HasKernel(w, d, x, i, ps[i].handle, name, ev.h);
      }
    }
  }

  // ---------- stated over everything the run created ----------

  /** The run created program p in context x. */
  predicate MadeProgram(trace: seq<Event>, x: Handle, p: Handle) {
    ProgramCreated(p, x) in trace
  }

  /** The run created kernel h under this name for a program p of context x. */
  predicate MadeKernel(trace: seq<Event>, x: Handle, p: Handle, name: string, h: Handle) {
    MadeProgram(trace, x, p) && KernelCreated(h, p, name) in trace
  }

  /** A program that was created in a context is still one of its programs. */
  lemma MadeProgramIsOwned(w: World, d: nat, x: Handle, p: Handle) returns (i: nat)
    requires Inv(w) && HasContext(w, d, x) && MadeProgram(w.rt.trace, x, p)
    ensures HasProgram(w, d, x, i, p)
  {
    assert Owned(w, ProgramCreated(p, x));
    var e: nat, j: nat :| HasProgram(w, e, x, j, p);
    HandlesIdentify(w, d, x, 0, 0, "", 0, e, x, 0, 0, "", 0);
    i := j;
  }

  lemma MadeKernelIsOwned(w: World, d: nat, x: Handle, p: Handle, name: string, h: Handle) returns (i: nat)
    requires Inv(w) && HasContext(w, d, x) && MadeKernel(w.rt.trace, x, p, name, h)
    ensures HasKernel(w, d, x, i, p, name, h)
  {
    i := MadeProgramIsOwned(w, d, x, p);
    KernelEventOwner(w, d, x, i, p, KernelCreated(h, p, name));
  }

  lemma ContextTeardown(w: World, d: nat, orders: seq<seq<string>>)
    requires Inv(w) && d in w.contexts && Orders(w.contexts[d].programs, orders)
    ensures var x, t := w.contexts[d].handle, Deleted(w, d, orders);
      multiset(t)[ContextReleased(x)] == 1 && t[|t| - 1] == ContextReleased(x)
  {
    var r, tail := ContextReleased(w.contexts[d].handle), Tail(w.contexts[d].programs, orders);
    TailReleases(w.contexts[d].programs, orders);
    assert r !in w.rt.trace && r !in tail;
    assert Deleted(w, d, orders) == (w.rt.trace + tail) + [r];
  }

  /** Ownership teardown: after any run of calls, deleting the context of a device releases each
      program and kernel that the run created in it exactly once, each kernel before its program
      and each program before the context, all after their creation, and nothing else. */
  lemma RunThenDelete(ops: seq<Op>, d: nat, orders: seq<seq<string>>)
    requires var w := Run(ops); d in w.contexts && Orders(w.contexts[d].programs, orders)
    ensures var w := Run(ops); var x, made, t := w.contexts[d].handle, w.rt.trace, Deleted(w, d, orders);
      && multiset(t)[ContextReleased(x)] == 1 && t[|t| - 1] == ContextReleased(x)
      && (forall p: Handle :: MadeProgram(made, x, p) ==>
            && multiset(t)[ProgramReleased(p)] == 1
            && Before(t, ProgramCreated(p, x), ProgramReleased(p))
            && Before(t, ProgramReleased(p), ContextReleased(x)))
      && (forall p: Handle, name: string, h: Handle :: MadeKernel(made, x, p, name, h) ==>
            && multiset(t)[KernelReleased(h)] == 1
            && Before(t, KernelCreated(h, p, name), KernelReleased(h))
            && Before(t, KernelReleased(h), ProgramReleased(p)))
      && (forall ev :: ev in t && !ev.Creation() ==> OwnRelease(made, x, ev))
  {
    var w := Run(ops);
    var x, made, t := w.contexts[d].handle, w.rt.trace, Deleted(w, d, orders);
    RunKeepsInv(ops);
    ContextTeardown(w, d, orders);
    hide Run, Inv, Deleted, Before, MadeProgram, MadeKernel;
    forall p: Handle | MadeProgram(made, x, p)
      ensures multiset(t)[ProgramReleased(p)] == 1
      ensures Before(t, ProgramCreated(p, x), ProgramReleased(p)) && Before(t, ProgramReleased(p), ContextReleased(x))
    {
      var i := MadeProgramIsOwned(w, d, x, p);
      ProgramTeardown(w, d, orders, x, i, p);
    }
    forall p: Handle, name: string, h: Handle | MadeKernel(made, x, p, name, h)
      ensures multiset(t)[KernelReleased(h)] == 1
      ensures Before(t, KernelCreated(h, p, name), KernelReleased(h))
      ensures Before(t, KernelReleased(h), ProgramReleased(p))
    {
      var i := MadeKernelIsOwned(w, d, x, p, name, h);
      KernelTeardown(w, d, orders, x, i, p, name, h);
    }
    forall ev | ev in t && !ev.Creation()
      ensures OwnRelease(made, x, ev)
    {
      OwnReleaseOnly(w, d, orders, ev);
    }
  }

  /** The release of the context, or of a program or kernel that the run created in it. */
  ghost predicate OwnRelease(made: seq<Event>, x: Handle, ev: Event) {
    || ev == ContextReleased(x)
    || (ev.ProgramReleased? && MadeProgram(made, x, ev.h))
    || (ev.KernelReleased? && exists p: Handle, name: string :: MadeKernel(made, x, p, name, ev.h))
  }

  lemma OwnReleaseOnly(w: World, d: nat, orders: seq<seq<string>>, ev: Event)
    requires Inv(w) && d in w.contexts && Orders(w.contexts[d].programs, orders)
    requires ev in Deleted(w, d, orders) && !ev.Creation()
    ensures OwnRelease(w.rt.trace, w.contexts[d].handle, ev)
  {
    hide Deleted, Owned, Increasing, ProgramsIncrease, Orders;
    var x := w.contexts[d].handle;
    OnlyOwnReleased(w, d, orders, ev);
    if ev.ProgramReleased? {
      var i: nat :| HasProgram(w, d, x, i, ev.h);
    } else if ev.KernelReleased? {
      var i: nat, p: Handle, name: string :| HasKernel(w, d, x, i, p, name, ev.h);
      assert MadeKernel(w.rt.trace, x, p, name, ev.h);
    }
  }
}
