/** The classes of xptMiner/OpenCLObjects.cpp. Each foreign call is given the status it will return;
    any status but CL_SUCCESS ends the program in check_error, which a method reports as Aborted. */
module OpenCLObjects {
  import opened OpenCLRun
  import opened OpenCLTeardown
  import opened KernelArgs
  import opened DeviceIndex

  const CL_SUCCESS := 0

  /** A value, or the end of the program: in check_error, or in an assert that something was found. */
  datatype Result<T> = Done(value: T) | Aborted(status: int) | NothingFound

  /** The OpenCL runtime: hands out handles and keeps the trace of what was created and released. */
  class CLRuntime {
    var next: Handle
    ghost var trace: seq<Event>

    constructor ()
      ensures View() == START.rt
    {
      next, trace := 1, [];
    }

    ghost function View(): Runtime
      reads this
    {
      Runtime(next, trace)
    }

    /** A clCreate call that succeeds. */
    method New(ghost ev: Event) returns (h: Handle)
      requires ev.h == next
      modifies this
      ensures h == old(next) && View() == Create(old(View()), ev)
    {
      h := next;
      next, trace := next + 1, trace + [ev];
    }

    /** A clRelease call. */
    method Release(ghost ev: Event)
      modifies this
      ensures next == old(next) && trace == old(trace) + [ev]
    {
      trace := trace + [ev];
    }
  }

  class OpenCLKernel {
    const kernel: Handle
    const parent: OpenCLProgram
    var argCount: nat
    /** What clSetKernelArg has stored in the runtime's kernel. */
    ghost var slots: map<nat, ArgValue>

    constructor (kernel: Handle, parent: OpenCLProgram)
      ensures this.kernel == kernel && this.parent == parent && Args() == NO_ARGS && argCount == 0 && slots == map[]
    {
      this.kernel, this.parent := kernel, parent;
      argCount, slots := 0, map[];
    }

    ghost function Args(): ArgState
      reads this
    {
      ArgState(argCount, slots)
    }

    method ResetArgs()
      modifies this
      ensures Args() == ArgStep(old(Args()), Reset)
      ensures argCount == 0 && slots == old(slots)
    {
      argCount := 0;
    }

    /** addScalarLong, addScalarInt, addScalarULong, addScalarUInt, addGlobalArg and addLocalArg,
        which differ in the value they pass on. */
    method AddArg(value: ArgValue, status: int) returns (r: Result<()>)
      modifies this
      ensures if status == CL_SUCCESS then r == Done(()) && Args() == ArgStep(old(Args()), Add(value))
              else r == Aborted(status) && Args() == old(Args())
      ensures status == CL_SUCCESS ==> argCount == old(argCount) + 1 && slots == old(slots)[old(argCount) := value]
    {
      if status != CL_SUCCESS {
        return Aborted(status);
      }
      slots := slots[argCount := value];
      argCount := argCount + 1;
      return Done(());
    }

    /** The destructor. */
    method Delete(rt: CLRuntime)
      modifies rt
      ensures rt.next == old(rt.next) && rt.trace == old(rt.trace) + [KernelReleased(kernel)]
    {
      rt.Release(KernelReleased(kernel));
    }
  }

  class OpenCLProgram {
    const program: Handle
    const parent: OpenCLContext
    var kernels: map<string, OpenCLKernel>

    constructor (program: Handle, parent: OpenCLContext)
      ensures this.program == program && this.parent == parent && kernels == map[] && Valid()
    {
      this.program, this.parent := program, parent;
      kernels := map[];
    }

    /** Each kernel knows its program, and different names have different kernels. */
    ghost predicate Valid()
      reads this
    {
      && (forall name :: name in kernels ==> kernels[name].parent == this)
      && (forall m, n :: m in kernels && n in kernels && m != n ==> kernels[m] != kernels[n])
    }

    ghost function View(): ProgramView
      reads this
    {
      ProgramView(program, map name | name in kernels :: kernels[name].kernel)
    }

    /** What the cache holds it keeps. */
    twostate predicate KeepsKernels()
      reads this
    {
      forall name :: name in old(kernels) ==> name in kernels && kernels[name] == old(kernels[name])
    }

    /** Looks the name up in the cache and creates the kernel if it is not there. */
    method GetKernel(rt: CLRuntime, name: string, status: int) returns (r: Result<OpenCLKernel>)
      requires Valid()
      modifies this, rt
      ensures Valid()
      ensures name in old(kernels) ==>
        kernels == old(kernels) && r == Done(kernels[name]) && rt.View() == old(rt.View())
      ensures name !in old(kernels) && status == CL_SUCCESS ==>
        && r.Done? && fresh(r.value) && r.value.Args() == NO_ARGS
        && kernels == old(kernels)[name := r.value]
      ensures name !in old(kernels) && status != CL_SUCCESS ==> r == Aborted(status) && unchanged(this) && unchanged(rt)
      ensures r.Done? ==> (View(), rt.View()) == KernelStep(old(View()), name, old(rt.View()))
      ensures KeepsKernels()
    {
      if name !in kernels {
        if status != CL_SUCCESS {
          return Aborted(status);
        }
        var h := rt.New(KernelCreated(rt.next, program, name));
        var k := new OpenCLKernel(h, this);
        kernels := kernels[name := k];
        assert View().kernels == old(View()).kernels[name := h];
      }
      return Done(kernels[name]);
    }

    /** The destructor: deletes the kernels in the order of the map, then releases the program. */
    method Delete(rt: CLRuntime) returns (ghost names: seq<string>)
      modifies rt
      ensures Enumerates(names, View())
      ensures rt.next == old(rt.next) && rt.trace == old(rt.trace) + ProgramTail(View(), names)
    {
      ghost var v := View();
      names := [];
      var rest := kernels.Keys;
      assert v.kernels.Keys == rest;
      assert KernelReleases(v, names) == [];
      RemainingStart(rest);
      hide Remaining, KernelReleases;
      while rest != {}
        invariant Remaining(names, v.kernels.Keys, rest)
        invariant forall name :: name in names ==> name in v.kernels
        invariant rt.next == old(rt.next)
        invariant rt.trace == old(rt.trace) + KernelReleases(v, names)
        decreases |rest|
      {
        var name :| name in rest;
        RemainingStep(names, v.kernels.Keys, rest, name);
        KernelReleasesStep(v, names, name);
        kernels[name].Delete(rt);
        rest := rest - {name};
        names := names + [name];
      }
      RemainingEnd(names, v);
      rt.Release(ProgramReleased(program));
    }
  }

  /** `names` lists, without repetition, the keys that are no longer among the rest. */
  ghost predicate Remaining(names: seq<string>, keys: set<string>, rest: set<string>) {
    && rest <= keys
    && (forall name :: name in names <==> name in keys && name !in rest)
    && (forall s, t :: 0 <= s < t < |names| ==> names[s] != names[t])
  }

  lemma RemainingStart(keys: set<string>)
    ensures Remaining([], keys, keys)
  {
  }

  lemma RemainingStep(names: seq<string>, keys: set<string>, rest: set<string>, name: string)
    requires Remaining(names, keys, rest) && name in rest
    ensures name in keys && Remaining(names + [name], keys, rest - {name})
  {
  }

  lemma RemainingEnd(names: seq<string>, p: ProgramView)
    requires Remaining(names, p.kernels.Keys, {})
    ensures Enumerates(names, p)
  {
  }

  class OpenCLContext {
    const context: Handle
    const devices: seq<OpenCLDevice>
    var programs: seq<OpenCLProgram>

    constructor (context: Handle, device: OpenCLDevice)
      ensures this.context == context && devices == [device] && programs == [] && Valid()
    {
      this.context := context;
      devices := [device];
      programs := [];
    }

    ghost predicate Valid()
      reads this, programs
    {
      && (forall i :: 0 <= i < |programs| ==> programs[i].parent == this && programs[i].Valid())
      && (forall i, j :: 0 <= i < j < |programs| ==> programs[i] != programs[j])
    }

    static ghost function Views(ps: seq<OpenCLProgram>): (vs: seq<ProgramView>)
      reads ps
      ensures |vs| == |ps| && forall i :: 0 <= i < |ps| ==> vs[i] == ps[i].View()
    {
      if ps == [] then [] else Views(ps[..|ps| - 1]) + [ps[|ps| - 1].View()]
    }

    ghost function View(): ContextView
      reads this, programs
    {
      ContextView(context, Views(programs))
    }

    /** The program is created and built; either call may fail. After a failed build the log is
        fetched, which may fail as well, and the program ends in any case. */
    method LoadProgramFromStrings(rt: CLRuntime, createStatus: int, buildStatus: int, logStatus: int)
      returns (r: Result<OpenCLProgram>)
      requires Valid()
      modifies this, rt
      ensures Valid()
      ensures createStatus != CL_SUCCESS ==> r == Aborted(createStatus) && unchanged(this) && unchanged(rt)
      ensures createStatus == CL_SUCCESS && buildStatus != CL_SUCCESS ==>
        && r == Aborted(if logStatus != CL_SUCCESS then logStatus else buildStatus)
        && unchanged(this) && rt.View() == LoadStep(old(View()), old(rt.View())).1
      ensures createStatus == buildStatus == CL_SUCCESS ==>
        && r.Done? && fresh(r.value) && programs == old(programs) + [r.value]
        && (View(), rt.View()) == LoadStep(old(View()), old(rt.View()))
    {
      if createStatus != CL_SUCCESS {
        return Aborted(createStatus);
      }
      var h := rt.New(ProgramCreated(rt.next, context));
      if buildStatus != CL_SUCCESS {
        if logStatus != CL_SUCCESS {
          return Aborted(logStatus);
        }
        return Aborted(buildStatus);
      }
      var p := new OpenCLProgram(h, this);
      programs := programs + [p];
      assert programs[..|programs| - 1] == old(programs);
      assert p.View() == ProgramView(h, map[]);
      return Done(p);
    }

    method GetProgram(pos: nat) returns (p: OpenCLProgram)
      requires pos < |programs|
      ensures p == programs[pos]
    {
      p := programs[pos];
    }

    /** getProgram(pos)->getKernel(name): only that program's view changes. */
    method GetKernelOf(rt: CLRuntime, pos: nat, name: string, status: int) returns (r: Result<OpenCLKernel>)
      requires Valid() && pos < |programs|
      modifies programs[pos], rt
      ensures Valid()
      ensures r.Done? <==> name in old(programs[pos].kernels) || status == CL_SUCCESS
      ensures r.Done? ==>
        var (p, rt') := KernelStep(old(View()).programs[pos], name, old(rt.View()));
        && View() == old(View()).(programs := old(View()).programs[pos := p]) && rt.View() == rt'
        && r.value.kernel == p.kernels[name] && r.value.parent == programs[pos]
        && name in programs[pos].kernels && programs[pos].kernels[name] == r.value
      ensures programs[pos].KeepsKernels() && (!r.Done? ==> unchanged(programs[pos]) && unchanged(rt))
    {
      var program := GetProgram(pos);
      r := program.GetKernel(rt, name, status);
    }

    /** The destructor: deletes the programs in the order of loading, then releases the context. */
    method Delete(rt: CLRuntime) returns (ghost orders: seq<seq<string>>)
      modifies rt
      ensures Orders(View().programs, orders)
      ensures rt.next == old(rt.next) && rt.trace == old(rt.trace) + ContextTail(View(), orders)
    {
      hide Tail, Orders, ProgramTail, Enumerates, Views;
      ghost var vs := Views(programs);
      orders := [];
      TailStart(vs);
      for i := 0 to |programs|
        invariant |vs| == |programs| && Orders(vs[..i], orders)
        invariant rt.next == old(rt.next)
        invariant rt.trace == old(rt.trace) + Tail(vs[..i], orders)
      {
        ghost var names := programs[i].Delete(rt);
        TailLast(vs, orders, i, names);
        orders := orders + [names];
      }
      assert vs[..|programs|] == vs;
      rt.Release(ContextReleased(context));
    }
  }

  class OpenCLDevice {
    const id: nat
    const parent: OpenCLPlatform
    var context: OpenCLContext?

    constructor (id: nat, parent: OpenCLPlatform)
      ensures this.id == id && this.parent == parent && context == null
    {
      this.id, this.parent := id, parent;
      context := null;
    }

    method GetPlatform() returns (p: OpenCLPlatform)
      ensures p == parent
    {
      p := parent;
    }

    /** The context is made on the first call; later calls return it. The trace records it under
        the number by which the caller tells this device object from others. */
    method GetContext(rt: CLRuntime, ghost number: nat, status: int) returns (r: Result<OpenCLContext>)
      modifies this, rt
      ensures old(context) != null ==> r.Done? && r.value == old(context) && unchanged(this) && unchanged(rt)
      ensures old(context) == null && status != CL_SUCCESS ==> r == Aborted(status) && unchanged(rt)
      ensures old(context) == null && status == CL_SUCCESS ==>
        && r.Done? && fresh(r.value) && r.value == context && r.value.Valid() && r.value.devices == [this]
        && (r.value.View(), rt.View()) == NewContext(number, old(rt.View()))
    {
      if context == null {
        var h := 0;
        if status == CL_SUCCESS {
          h := rt.New(ContextCreated(rt.next, number));
        }
        context := new OpenCLContext(h, this);
        if status != CL_SUCCESS {
          return Aborted(status);
        }
      }
      return Done(context);
    }
  }

  class OpenCLPlatform {
    const id: nat
    var devices: seq<OpenCLDevice>

    /** Makes an object for each device the runtime lists. */
    constructor (id: nat, allDevices: seq<nat>)
      ensures this.id == id && |devices| == |allDevices|
      ensures forall j :: 0 <= j < |devices| ==>
        devices[j].id == allDevices[j] && devices[j].parent == this && devices[j].context == null && fresh(devices[j])
      ensures forall j, k :: 0 <= j < k < |devices| ==> devices[j] != devices[k]
    {
      this.id := id;
      devices := [];
      new;
      for j := 0 to |allDevices|
        invariant |devices| == j
        invariant forall k :: 0 <= k < j ==>
          devices[k].id == allDevices[k] && devices[k].parent == this && devices[k].context == null && fresh(devices[k])
        invariant forall k, l :: 0 <= k < l < j ==> devices[k] != devices[l]
      {
        var d := new OpenCLDevice(allDevices[j], this);
        devices := devices + [d];
      }
    }

    method GetDevice(pos: nat) returns (d: OpenCLDevice)
      requires pos < |devices|
      ensures d == devices[pos]
    {
      d := devices[pos];
    }

    method GetNumDevices() returns (n: nat)
      ensures n == |devices|
    {
      n := |devices|;
    }
  }

  /** What the runtime answers about one platform: its id, the status of the device queries and
      the device ids. */
  datatype PlatformInfo = PlatformInfo(id: nat, status: int, devices: seq<nat>)

  /** The platform has exactly the listed devices, none of which has a context yet. */
  ghost predicate Made(p: OpenCLPlatform, info: PlatformInfo)
    reads p, p.devices
  {
    && p.id == info.id && |p.devices| == |info.devices|
    && (forall j :: 0 <= j < |p.devices| ==>
          p.devices[j].id == info.devices[j] && p.devices[j].parent == p && p.devices[j].context == null)
    && (forall j, k :: 0 <= j < k < |p.devices| ==> p.devices[j] != p.devices[k])
  }

  class OpenCLMain {
    var platforms: seq<OpenCLPlatform>

    constructor (platforms: seq<OpenCLPlatform>)
      ensures this.platforms == platforms
    {
      this.platforms := platforms;
    }

    /** Each device knows the platform it belongs to, and stands in one place only. */
    ghost predicate Valid()
      reads this, platforms
    {
      && (forall i, j :: 0 <= i < |platforms| && 0 <= j < |platforms[i].devices| ==>
            platforms[i].devices[j].parent == platforms[i])
      && (forall i, j, k :: 0 <= i < |platforms| && 0 <= j < k < |platforms[i].devices| ==>
            platforms[i].devices[j] != platforms[i].devices[k])
      && (forall i, j :: 0 <= i < j < |platforms| ==> platforms[i] != platforms[j])
    }

    /** One object per listed platform and device, unless a query fails or finds nothing. */
    static method Create(status: int, infos: seq<PlatformInfo>) returns (r: Result<OpenCLMain>)
      ensures r.Done? <==>
        (&& status == CL_SUCCESS && infos != []
         && forall i :: 0 <= i < |infos| ==> infos[i].status == CL_SUCCESS && infos[i].devices != [])
      ensures status != CL_SUCCESS ==> r == Aborted(status)
      ensures status == CL_SUCCESS && infos == [] ==> r == NothingFound
      ensures status == CL_SUCCESS && !r.Done? && infos != [] ==>
        exists i: nat :: i < |infos|
          && (forall k :: 0 <= k < i ==> infos[k].status == CL_SUCCESS && infos[k].devices != [])
          && (infos[i].status != CL_SUCCESS || infos[i].devices == [])
          && r == if infos[i].status != CL_SUCCESS then Aborted(infos[i].status) else NothingFound
      ensures r.Done? ==>
        && fresh(r.value) && r.value.Valid() && |r.value.platforms| == |infos|
        && forall i :: 0 <= i < |infos| ==>
             r.value.platforms[i].id == infos[i].id && |r.value.platforms[i].devices| == |infos[i].devices|
      ensures r.Done? ==>
        forall i, j :: 0 <= i < |infos| && 0 <= j < |infos[i].devices| ==>
          var d := r.value.platforms[i].devices[j];
          d.id == infos[i].devices[j] && d.parent == r.value.platforms[i] && d.context == null
    {
      if status != CL_SUCCESS {
        return Aborted(status);
      }
      if infos == [] {
        return NothingFound;
      }
      var ps := [];
      for i := 0 to |infos|
        invariant |ps| == i
        invariant forall k :: 0 <= k < i ==> infos[k].status == CL_SUCCESS && infos[k].devices != []
        invariant forall k :: 0 <= k < i ==> Made(ps[k], infos[k])
        invariant forall k, l :: 0 <= k < l < i ==> ps[k] != ps[l]
      {
        if infos[i].status != CL_SUCCESS {
          return Aborted(infos[i].status);
        }
        if infos[i].devices == [] {
          return NothingFound;
        }
        var p := new OpenCLPlatform(infos[i].id, infos[i].devices);
        ps := ps + [p];
      }
      var m := new OpenCLMain(ps);
      return Done(m);
    }

    static ghost function DevicesOf(ps: seq<OpenCLPlatform>): (ls: seq<seq<OpenCLDevice>>)
      reads ps
      ensures |ls| == |ps| && forall i :: 0 <= i < |ps| ==> ls[i] == ps[i].devices
    {
      if ps == [] then [] else DevicesOf(ps[..|ps| - 1]) + [ps[|ps| - 1].devices]
    }

    /** The device objects, platform by platform. */
    ghost function DeviceLists(): (ls: seq<seq<OpenCLDevice>>)
      reads this, platforms
      ensures |ls| == |platforms| && forall i :: 0 <= i < |platforms| ==> ls[i] == platforms[i].devices
    {
      DevicesOf(platforms)
    }

    method GetNumPlatforms() returns (n: nat)
      ensures n == |platforms|
    {
      n := |platforms|;
    }

    method GetNumDevices() returns (count: nat)
      ensures count == |Flat(DeviceLists())|
    {
      count := 0;
      for i := 0 to |platforms|
        invariant count == Offset(DeviceLists(), i)
      {
        var n := platforms[i].GetNumDevices();
        count := count + n;
      }
      FlatLength(DeviceLists());
    }

    /** Walks over all devices, counting, until the count is the wanted number. */
    method GetDevice(pos: int) returns (d: OpenCLDevice?)
      ensures if 0 <= pos < |Flat(DeviceLists())| then d == Flat(DeviceLists())[pos] else d == null
    {
      ghost var lists := DeviceLists();
      var count := 0;
      for i := 0 to |platforms|
        invariant count == Offset(lists, i) && !(0 <= pos < count)
      {
        var p := platforms[i];
        for j := 0 to |p.devices|
          invariant count == Offset(lists, i) + j && !(0 <= pos < count)
        {
          if count == pos {
            FlatAt(lists, pos, i, j);
            return p.devices[j];
          }
          count := count + 1;
        }
      }
      FlatLength(lists);
      return null;
    }

    method GetDeviceOf(platformPos: nat, pos: nat) returns (d: OpenCLDevice)
      requires platformPos < |platforms| && pos < |platforms[platformPos].devices|
      ensures d == platforms[platformPos].devices[pos]
      ensures forall number :: At(DeviceLists(), number, platformPos, pos) ==>
        0 <= number < |Flat(DeviceLists())| && d == Flat(DeviceLists())[number]
    {
      FlatAt(DeviceLists(), Offset(DeviceLists(), platformPos) + pos, platformPos, pos);
      d := platforms[platformPos].GetDevice(pos);
    }

    /** A listed device is found under its number, and knows the platform it is listed under. */
    ghost predicate ListedRight(lines: seq<Line<OpenCLDevice>>, k: nat)
      requires k < |lines| && lines[k].DeviceLine?
      reads this, platforms
    {
      && lines[k].number < |Flat(DeviceLists())| && Flat(DeviceLists())[lines[k].number] == lines[k].device
      && 0 <= Heading(lines, k) < |platforms| && lines[k].device.parent == platforms[Heading(lines, k)]
    }

    lemma ListingKnowsPlatform(k: nat)
      requires Valid()
      requires var lines := Listing(DeviceLists(), |DeviceLists()|); k < |lines| && lines[k].DeviceLine?
      ensures ListedRight(Listing(DeviceLists(), |DeviceLists()|), k)
    {
      var lines := Listing(DeviceLists(), |DeviceLists()|);
      var i, j := ListedUnderPlatform(DeviceLists(), |DeviceLists()|, k);
      FlatAt(DeviceLists(), lines[k].number, i, j);
    }

    /** Different numbers lead to different device objects. */
    lemma NumbersDistinguishDevices(p: nat, q: nat)
      requires Valid() && p < q < |Flat(DeviceLists())|
      ensures Flat(DeviceLists())[p] != Flat(DeviceLists())[q]
    {
      var lists := DeviceLists();
      var i, j := NumberHasPair(lists, p);
      var k, l := NumberHasPair(lists, q);
      FlatAt(lists, p, i, j);
      FlatAt(lists, q, k, l);
      NumbersAreOrdered(lists, p, i, j, q, k, l);
    }

    /** The printed lines, with the device itself in place of its name. */
    method ListDevices() returns (lines: seq<Line<OpenCLDevice>>)
      requires Valid()
      ensures lines == Listing(DeviceLists(), |DeviceLists()|)
      ensures Listed(lines) == Numbered(Flat(DeviceLists()), 0)
      ensures forall k :: 0 <= k < |lines| && lines[k].DeviceLine? ==> ListedRight(lines, k)
    {
      ghost var lists := DeviceLists();
      var count := 0;
      lines := [];
      for i := 0 to |platforms|
        invariant count == Offset(lists, i) && lines == Listing(lists, i)
      {
        var p := platforms[i];
        lines := lines + [PlatformLine(i)];
        ghost var before := lines;
        for j := 0 to |p.devices|
          invariant count == Offset(lists, i) + j
          invariant lines == before + DeviceLines(p.devices[..j], Offset(lists, i))
        {
          lines := lines + [DeviceLine(count, p.devices[j])];
          count := count + 1;
        }
        assert p.devices[..|p.devices|] == lists[i];
      }
      ListingAgrees(lists);
      forall k: nat | k < |lines| && lines[k].DeviceLine?
        ensures ListedRight(lines, k)
      {
        ListingKnowsPlatform(k);
      }
    }
  }
}
