# Verified model of the AES round and the OpenCL objects of xptMiner

xptMiner evaluates AES rounds through four precomputed tables (`xptMiner/aes_helper.h`, used by the
SHAvite-3 hash in `xptMiner/shavite.c`), and drives the GPU through a small tree of objects that own
OpenCL contexts, programs and kernels (`xptMiner/OpenCLObjects.cpp`). This project models both in
Dafny and proves what they promise.

**The AES round.** `GaloisField`, `SBox` and `Fips197` define one round of AES and its inverse from
sections 4 and 5 of FIPS 197, with no table; the field multiplication is proved to be a commutative
ring, and inverses are proved entry by entry for the 256 bytes of the S-box. `AesTables` holds the 1024 table entries and `AesRound`
the macro as a function on four state words; its main theorem is that the two rounds are the same in
both byte orders. `AesChain` follows any number of rounds (refinement, inverse, the effect of one
round key, the symmetry of the four words, the two byte orders). `Diffusion` proves how differences
spread: branch number 5, full diffusion after two rounds, and the wide-trail bound of 25 differing
bytes over four rounds, with states that attain it. `AesMacro` treats the macro as C executes it,
four assignments to cells that may alias, and characterises the aliasings under which it computes
the round. `Shavite` applies this to the two macros that shavite.c builds on the round.

**The OpenCL objects.** `OpenCLRun` describes each call by what it does to the views of the objects
and to the trace of the OpenCL runtime, and proves invariants over every run. `OpenCLTeardown`
continues a run with the destructors of a context. `KernelArgs` covers the argument cursor and
`DeviceIndex` the numbering and listing of devices. `OpenCLObjects` has the classes themselves; their
methods are proved against the functions of those modules. `OpenCLClient` runs sequences of calls on
the objects: the heap of devices, contexts, programs and kernels represents the state that `OpenCLRun`
reaches, a call on one context leaves the other contexts alone, and the objects returned, not only
their handles, are the same exactly for the same calls.

Conventions. A foreign call is modelled by the status it will return, passed as a parameter: with
`CL_SUCCESS` a `clCreate...` call yields a handle never seen before, with any other status
`check_error` ends the program and the method returns `Aborted`. A device in `OpenCLRun` is the number
of a device object, because the code keeps one context per object, whatever ids the runtime reports.
`hide` statements in proofs keep definitions out of the solver's sight and change no meaning.
`dafny verify dfyconfig.toml` checks the project.

Two facts about the code that its comments do not mention:

- The round macro is wrong when an output cell other than the last is also an input cell, or when an
  output cell is a later key cell; it fails already on a memory of zeros. `MacroIsRoundIffNoHazard`
  gives the exact condition, and `InPlaceNeedsCopies` shows why shavite.c copies its words first.
- A platform that lists no device ends the program in an `assert` (`NothingFound`), even when other
  platforms have devices.

## Model

| member | source | states |
|---|---|---|
| SBox.TableIffInverse | xptMiner/aes_helper.h:122-187 | for all bytes a and b, the table's S-box byte for a is the affine image of b exactly when b is the multiplicative inverse of a |
| SBox.SubByteIsTable | xptMiner/aes_helper.h:122-187 | SubBytes, defined by field inversion and the affine map, is byte 1 of the AES0 entry |
| SBox.SubByteInverse | xptMiner/aes_helper.h:122-187 | SubBytes and InvSubBytes undo each other |
| AesRound.Entries | xptMiner/aes_helper.h:122-388 | every entry of table r, in either byte order, is column r of the MixColumns matrix times the S-box byte |
| AesRound.StateBlock | xptMiner/aes_helper.h:8-16 | four words and the block of 16 bytes correspond one to one, in both byte orders |
| AesRound.RoundWordIsColumn | xptMiner/aes_helper.h:92-109 | one assignment of the macro computes a column of AddRoundKey(MixColumns(ShiftRows(SubBytes(X))), K) |
| AesRound.TableRoundIsRound | xptMiner/aes_helper.h:62-109 | both macros compute the round of FIPS 197 for every state and key |
| AesChain.ChainAppend | xptMiner/aes_helper.h:92-112 | rounds under one list of keys and then under another are the rounds under both lists in order |
| AesChain.ChainIsRounds | xptMiner/aes_helper.h:92-112 | any number of chained table rounds is the same number of FIPS 197 rounds |
| AesChain.TableRoundInverse | xptMiner/aes_helper.h:92-109 | each table round is a bijection on four-word states, undone on both sides by the inverse round |
| AesChain.ChainInverse | xptMiner/aes_helper.h:92-112 | n rounds are undone by n inverse rounds with the keys reversed, and conversely |
| AesChain.ChainInjective | xptMiner/aes_helper.h:92-112 | under the same keys different start states never meet |
| AesChain.TableRoundKey | xptMiner/aes_helper.h:111-112 | the keyed round is the NOKEY round followed by the XOR with the key |
| AesChain.RoundKeyBijection | xptMiner/aes_helper.h:92-112 | with the start state and all other keys fixed, each final state is reached by exactly one choice of the j-th round key, given explicitly |
| AesChain.ChainTurns | xptMiner/aes_helper.h:92-109 | turning the state words and all round keys turns the result of any chain |
| AesChain.EqualWordsStay | xptMiner/aes_helper.h:92-112 | four equal words stay equal under keys of equal words, in particular under NOKEY rounds |
| AesChain.ChainSwaps | xptMiner/aes_helper.h:52-109 | any chain of big-endian rounds on byte-swapped state and keys is the byte swap of the little-endian chain |
| Diffusion.WordBranch | xptMiner/aes_helper.h:93-108 | for one assignment under one key: equal index bytes give equal words, otherwise index bytes and result bytes differ in at least five places |
| Diffusion.FullDiffusion | xptMiner/aes_helper.h:92-109 | one differing byte becomes exactly four after one round and all sixteen after two |
| Diffusion.FourTableRounds | xptMiner/aes_helper.h:92-109 | from different states, the four states entering the lookups of four rounds differ in at least 25 bytes |
| Diffusion.TrailBound | xptMiner/aes_helper.h:92-112 | over n rounds at least 25 differing bytes for every four rounds, and 1, 5 or 9 more for one, two or three further ones |
| Diffusion.TrailBoundAttained | xptMiner/aes_helper.h:92-112 | for two, three and four rounds, under any keys, two given states have exactly the minimum |
| AesMacro.RoundMacro | xptMiner/aes_helper.h:62-109 | the four assignments executed in order on memory cells give the sequential reading; without hazards the output cells hold, word by word, the round of the words in X0..X3 under the key words, and no other cell changes |
| AesMacro.AssignmentReads | xptMiner/aes_helper.h:93-108 | in the sequential reading, assignment i computes Yi from the cells Xi, Xi+1, Xi+2, Xi+3 (indices modulo 4) and Ki as the earlier assignments left them |
| AesMacro.StoredRound | xptMiner/aes_helper.h:92-109 | in the simultaneous reading, different cells Y0..Y3 receive words 0 to 3 of the round of X0..X3 under K0..K3, and all other cells keep theirs |
| AesMacro.NoHazardAgrees | xptMiner/aes_helper.h:92-109 | without hazards the macro stores the round of the original memory, whatever else aliases |
| AesMacro.MacroIsRoundIffNoHazard | xptMiner/aes_helper.h:62-109 | for distinct outputs, the macro is the round on every memory if and only if Y0, Y1, Y2 are no input cells and no Yi is the cell of a Kj with i < j |
| Shavite.InPlaceNeedsCopies | xptMiner/shavite.c:91-97 | the macro applied directly in place differs from the round on some memory, for every choice of four cells |
| Shavite.RoundInPlace | xptMiner/shavite.c:91-97 | with the copies t0..t3, cell xi receives word i of the unkeyed round of the words in x0..x3, and no other cell changes |
| Shavite.KeyExpandElt | xptMiner/shavite.c:142-150 | k0, k1, k2, k3 end up holding words 1, 2, 3, 0 of the unkeyed round of k0..k3, and no other cell changes |
| Shavite.KeyExpandIsChain | xptMiner/shavite.c:142-150 | n key expansion elements are n unkeyed rounds with the words turned n times |
| OpenCLRun.RunKeepsInv | xptMiner/OpenCLObjects.cpp:293-351 | after every run, the runtime's creations and the reachable contexts, programs and kernels correspond, with ever larger handles |
| OpenCLRun.HandlesIdentify | xptMiner/OpenCLObjects.cpp:319-351 | two devices, two programs or two kernel names have the same handle only if they are the same |
| OpenCLRun.CachedIffRequested | xptMiner/OpenCLObjects.cpp:343-351 | a name is cached exactly when getKernel was called with it, and a device has a context exactly when getContext was called |
| OpenCLRun.ProgramsAreLoads | xptMiner/OpenCLObjects.cpp:293-334 | after any run a device has a context exactly if getContext was called, and as many programs as were loaded since |
| OpenCLRun.CallableByHistory | xptMiner/OpenCLObjects.cpp:293-351 | which calls find their object is told from the earlier calls alone: a load needs a getContext, program i needs more than i loads |
| OpenCLRun.KernelCreatedOnce | xptMiner/OpenCLObjects.cpp:343-351 | over any run clCreateKernel runs once per distinct name requested of a program and never for another |
| OpenCLRun.SameKernelEveryTime | xptMiner/OpenCLObjects.cpp:343-351 | each getKernel call with one name gets the handle that is still cached at the end of the run |
| OpenCLRun.ContextCreatedOnce | xptMiner/OpenCLObjects.cpp:324-334 | over any run clCreateContext runs once for each device object whose context was asked for, and never for another |
| OpenCLRun.SameContextEveryTime | xptMiner/OpenCLObjects.cpp:324-334 | all getContext calls on a device object get one context handle, and no two device objects share one |
| OpenCLTeardown.ProgramTeardown | xptMiner/OpenCLObjects.cpp:264-280 | deleting a context releases each program once, after its creation and before the context |
| OpenCLTeardown.KernelTeardown | xptMiner/OpenCLObjects.cpp:276-280 | and each cached kernel once, after its creation and before its program |
| OpenCLTeardown.OnlyOwnReleased | xptMiner/OpenCLObjects.cpp:264-280 | and nothing that belongs to another context |
| OpenCLTeardown.ContextTeardown | xptMiner/OpenCLObjects.cpp:264-269 | and the context itself once, as the last call of all |
| OpenCLTeardown.RunThenDelete | xptMiner/OpenCLObjects.cpp:264-361 | after any run of loads and lookups, everything that the run created in the context is released once, kernels before their program and programs before the context, and nothing else is, in whatever order each kernel map is walked |
| KernelArgs.SlotHoldsLastWrite | xptMiner/OpenCLObjects.cpp:399-435 | after any interleaving of resets and adds, slot i holds v if and only if the latest add made at cursor i passed v |
| KernelArgs.ResetThenAdds | xptMiner/OpenCLObjects.cpp:399-435 | after a reset and n adds, slots 0 to n-1 hold those values in order and the others are unchanged |
| KernelArgs.NewKernelAdds | xptMiner/OpenCLObjects.cpp:353-357 | n adds on a new kernel fill exactly the slots 0 to n-1, in order |
| DeviceIndex.NumberingIsBijection | xptMiner/OpenCLObjects.cpp:481-506 | the numbers below the total and the pairs (platform, device) correspond one to one; no other number has a pair |
| DeviceIndex.NumbersAreOrdered | xptMiner/OpenCLObjects.cpp:481-494 | numbers compare as the pairs do lexicographically |
| DeviceIndex.FlatAt | xptMiner/OpenCLObjects.cpp:481-494 | the device found under the number of a pair is device j of platform i |
| DeviceIndex.NumberOfPair | xptMiner/OpenCLObjects.cpp:481-506 | every device of every platform has a number, its place after all devices of the platforms before |
| DeviceIndex.FlatConcat | xptMiner/OpenCLObjects.cpp:481-494 | the flat sequence is the lists of the platforms one after another, with nothing dropped |
| DeviceIndex.HeadingAt | xptMiner/OpenCLObjects.cpp:512-523 | the heading of platform i is printed after i headings and the devices of those platforms, and nothing follows the last platform |
| DeviceIndex.DeviceAt | xptMiner/OpenCLObjects.cpp:512-523 | device j of platform i is line j below that heading, under its number |
| DeviceIndex.ListingAgrees | xptMiner/OpenCLObjects.cpp:512-523 | the listing names the devices under 0, 1, 2, ... in the order in which these numbers look them up |
| DeviceIndex.ListedUnderPlatform | xptMiner/OpenCLObjects.cpp:512-523 | each device is listed under the heading of the platform its number belongs to, at its place there |
| OpenCLObjects.OpenCLKernel.ResetArgs | xptMiner/OpenCLObjects.cpp:399-401 | moves the cursor to slot 0 and keeps the slots |
| OpenCLObjects.OpenCLKernel.AddArg | xptMiner/OpenCLObjects.cpp:403-435 | stores the value at the cursor and advances it, or aborts with nothing changed |
| OpenCLObjects.OpenCLProgram.GetKernel | xptMiner/OpenCLObjects.cpp:343-351 | returns the cached object, or creates exactly one kernel and caches it, or aborts |
| OpenCLObjects.OpenCLProgram.Delete | xptMiner/OpenCLObjects.cpp:276-280 | releases every cached kernel in some order of the map, then the program |
| OpenCLObjects.OpenCLContext.LoadProgramFromStrings | xptMiner/OpenCLObjects.cpp:293-322 | appends one new program; or aborts at the creation; or aborts with the created program dropped, at the build or, if that fails, at the query of the build log |
| OpenCLObjects.OpenCLContext.GetKernelOf | xptMiner/OpenCLObjects.cpp:466-468 | looking a kernel up through getProgram(pos) changes the view of program pos only, as getKernel does |
| OpenCLObjects.OpenCLContext.Delete | xptMiner/OpenCLObjects.cpp:264-269 | releases the programs in the order of loading, then the context |
| OpenCLObjects.OpenCLDevice.GetContext | xptMiner/OpenCLObjects.cpp:324-334 | creates the context on the first call, for exactly this device object, and returns the same object afterwards |
| OpenCLObjects.OpenCLPlatform.constructor | xptMiner/OpenCLObjects.cpp:114-139 | one new device object per listed device, in order, each knowing its platform |
| OpenCLObjects.OpenCLMain.Create | xptMiner/OpenCLObjects.cpp:156-169 | succeeds exactly when every query succeeds and every platform lists a device, and then has one object per listed platform and device, in order; otherwise the first platform whose query fails or that lists nothing decides |
| OpenCLObjects.OpenCLMain.GetNumDevices | xptMiner/OpenCLObjects.cpp:500-506 | counts the devices of all platforms |
| OpenCLObjects.OpenCLMain.GetDevice | xptMiner/OpenCLObjects.cpp:481-494 | returns the device at this place of the flat sequence, and NULL for every other number, negative ones included |
| OpenCLObjects.OpenCLMain.GetDeviceOf | xptMiner/OpenCLObjects.cpp:496-498 | the pair lookup finds the device that the flat lookup finds under the pair's number |
| OpenCLObjects.OpenCLMain.ListDevices | xptMiner/OpenCLObjects.cpp:512-523 | prints the platform headings and numbered devices of the listing; each listed device is the one found under its number, and its platform is the one it is listed under |
| OpenCLObjects.OpenCLMain.ListingKnowsPlatform | xptMiner/OpenCLObjects.cpp:508-523 | in the listing, getPlatform() of a listed device is the platform of the heading above it |
| OpenCLObjects.OpenCLMain.NumbersDistinguishDevices | xptMiner/OpenCLObjects.cpp:481-494 | different numbers look up different device objects |
| OpenCLClient.Call | xptMiner/OpenCLObjects.cpp:293-351 | one call takes the step of the run model on the heap, leaves every other context, program and cached kernel in place, and returns the object in place; it fails exactly if a foreign call in it does |
| OpenCLClient.SucceedsByHistory | xptMiner/OpenCLObjects.cpp:293-351 | when a call succeeds is told from the earlier calls and the statuses alone: the first getContext, every load and the first getKernel with a name create something, later ones nothing |
| OpenCLClient.ReturnedObjects | xptMiner/OpenCLObjects.cpp:293-351 | each call returned the context, program or cached kernel that stands at the place told from the earlier calls |
| OpenCLClient.LoadsAdvance | xptMiner/OpenCLObjects.cpp:319-321 | of two loads into one context, the later program is listed after the earlier one, whatever calls come between |
| OpenCLClient.PlacedApart | xptMiner/OpenCLObjects.cpp:293-351 | two calls of a run returned one object if and only if they are the same getContext or getKernel call; each load returned a program of its own |
| OpenCLClient.RunCalls | xptMiner/OpenCLObjects.cpp:293-351 | any sequence of calls brings the objects to the state of the run model, unless a foreign call fails; each call returns the object still in place at the end, equal calls equal objects and different calls different ones |
| OpenCLClient.RunCallsThenDelete | xptMiner/OpenCLObjects.cpp:264-351 | a run on the objects followed by the end of one context makes exactly the runtime calls that RunThenDelete describes |
| OpenCLClient.RunArgs | xptMiner/OpenCLObjects.cpp:399-435 | any sequence of resetArgs and add calls, after any earlier one, leaves the kernel with the cursor and slots of the argument model, and ends early exactly if an add fails |

## Left out

- AesMacro.MacroIsRoundIffNoHazard: takes the four output cells to be distinct; with two equal output cells one of the four results is overwritten, and the macro has no round to be compared with.
- OpenCLObjects.OpenCLContext.LoadProgramFromStrings: the source texts, the build options and the text of the build log are not modelled, only the status of the calls that use them; the two queries for the log share one status.
- OpenCLObjects.OpenCLPlatform.constructor: is given the device ids; the failing device query and the assert that a device was found are in OpenCLMain.Create, since a constructor returns no status.
- OpenCLClient.RunCalls: says nothing about the objects after a call that fails, because the program ends there.
- AesTables: an entry is found by the two halves of its index byte, and the C arrays' storage is not modelled.
- The key words of the macro are cells or the zero of the NOKEY variants, not arbitrary expressions.
- The rest of shavite.c (message schedule, Feistel rounds, padding), the other hash functions and the OpenCL kernels: clients of the round that add no property of it.
- The OpenCL runtime: device queries, queues, transfers, buffers, build logs and reading program files are foreign calls; only creation, release, argument setting and the status of calls are kept.
- The order of the kernel map: std::map walks its names in alphabetical order, the model in any order, so the release results hold for that one too.
- The width of the C int counters (arg_count, device numbers) is not modelled; they are unbounded.
- Positions passed to getProgram and to the pair lookup are taken to exist, as the C++ vectors require.
- Contexts and devices of a platform: the destructors of OpenCLDevice, OpenCLPlatform and OpenCLMain release nothing in the runtime, so contexts are followed down to their kernels only.
- Builds with NDEBUG, in which check_error reports an error and goes on, are not modelled.
- print_err_msg and the error table only print.
