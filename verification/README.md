# eBPF programs, from C to machine code

A Dafny model of the eBPF programs in this repository and of the machine that runs them.

* **The machine.** Eleven 64-bit registers, a 512-byte frame, little-endian memory in regions
  (frame, context, packet, data and constant sections, map elements), helper calls that lose
  r1 to r5, and an explicit error state. `Machine` is a pure step function; `Interpreter` is
  the same machine as a class that changes arrays in place, and is proved to take the same steps.
  What the kernel decides (helper results, refusals, bytes of failed probes) comes from an
  arbitrary oracle. Where `Plan.md` is stricter than RFC 9669 (a zero divisor, an oversized
  shift, a byte swap, an unaligned access), the machine follows `Plan.md` and goes to the error state.
* **Translation validation.** `hello` and `kprobe_exec` exist as C, LLVM IR (`hello` only),
  object bytecode, bytecode as rewritten by the kernel, and x86-64 machine code. Every level is
  modelled as it is listed, and all levels of a program are proved to agree for every memory, table,
  user and helper answer. The two translations, the kernel's rewriting and the JIT, are written
  as functions on programs, proved to preserve the behaviour of *every* program that they cover, and the
  listings are proved to be exactly their output, addresses included.
* **The verifier.** A depth-first walk over all paths with a stack of saved states, kinds and
  ranges of registers, pruning, and an instruction limit. What it accepts faults in no run and
  always ends, even if other CPUs rewrite memory between any two instructions; in particular any number
  of copies on shared memory are safe among themselves. Some limit suffices for a program exactly if its
  paths are bounded in length and the check passes at the end of each. The walk accepts `hello` and
  `kprobe_exec` within the kernel's limit, and gives up on the `xdp_drop_prog` listing at every limit,
  although that program ends on every packet.
* **Whole runs.** The data-dependent loop of the `xdp_drop_prog` listing with its exact trace and
  instruction count; counters under sequences of events (conservation) and under every interleaving
  of any number of CPUs, of the C function at its accesses to the table and of the object code at every
  instruction; `bpf_loop` with any callback.
* **Encoding.** Bytes to instructions and back, and the bytes printed in the listings.

How the files build on each other:

| files | content |
|---|---|
| `Word`, `Isa`, `Machine`, `Stepping`, `Frames`, `Tables`, `Behaviours` | words, instructions, the machine, tools for runs |
| `Arithmetic`, `Rules` | what each operation, comparison, access and helper call does, spelled out |
| `Interpreter` | the machine with mutable state |
| `Counter`, `Sequential`, `Concurrent` | `hello` in C, its sequences and interleavings |
| `Copies`, `HelloCopies`, `KprobeCounter`, `KprobeCopies`, `CopiesVerified` | object code on many CPUs, interleaved at every instruction |
| `HelloListing`, `LlvmHello`, `HelloRewritten`, `HelloJit`, `HelloVerified` | the levels of `hello` |
| `KprobeC`, `KprobeListing`, `KprobeRun`, `KprobeProof`, `KprobeEvents`, `KprobeRewritten`, `KprobeJit`, `KprobeRuns`, `KprobeVerified` | the levels of `kprobe_exec` |
| `Rewriter`, `X86`, `Jit` | the two translations |
| `Abstract`, `Checker`, `CheckExact`, `Verifier`, `Pruning`, `Acceptance`, `PruningCost`, `Records`, `NullArithmetic` | the verifier |
| `XdpListing`, `XdpTooLong`, `XdpC`, `BpfLoop` | the packet programs |
| `Codec`, `ListingBytes` | encoding |

Decisions that a reader should know:

* The data section of `kprobe_exec` holds `c` at offset 0 and `message` at offset 4, as the
  rewritten bytecode shows. `c` is an `int`; its increment is taken to wrap, as the 32-bit load, add
  and store of the bytecode do.
* The map `my_config` has 32-bit keys while the C code passes the address of a 64-bit `uid`; the
  helper reads the low four bytes, which is what both the C model and the machine do.
* `xdp_drop_prog.bpf.s` and `xdp_drop_prog.bpf.c` are different programs: the listing was made
  from a version with the now commented-out loop. They are modelled separately. In the C file
  the call `bpf_loop(100000000, ...)` exceeds the helper's limit of 1 << 23, so no callback ever
  runs, although the comment beside it speaks of 8 million; and since the braces of the last `if`
  are missing, every packet that passes the bounds check is passed.
* In the C file `h_proto` is read before it is set; it is modelled as any 16-bit value.
* The LLVM IR declares 10240 entries for the table and the C file 5,000,000; the table of the C
  file is used throughout.
* Neither listing prints the constant section. For `kprobe_exec` it is assumed to hold the three
  formats of the C source; for `xdp_drop_prog` it is assumed that the first text has one
  conversion and the second none, since the call of the second sets no argument register.

## Model

| member | source | states |
|---|---|---|
| Word.ShiftPairIsMask | eBPF_Koka/bpf_maps/hash_map_example.md:11-12 | shifting left and right by 32 is the mask 0xFFFFFFFF of the C source, for every 64-bit value |
| Word.ShiftPairIsSignExtension | eBPF_Koka/verifier_example/hello-verifier.md:37-38 | the pair of shifts by 56 widens a signed char |
| Arithmetic.Division | Plan.md:16-20 | an unsigned division is an error exactly for the divisor 0; otherwise dividend = divisor * quotient + remainder, with a remainder below the divisor |
| Arithmetic.SignedDivision | Plan.md:16-20 | a signed division is an error exactly for the divisor 0 and for the smallest number by -1; otherwise the quotient is rounded towards zero and the remainder has the sign of the dividend |
| Arithmetic.BitwiseOps | eBPF_Koka/bpf_maps/hash_map_example.bpf.c:31 | and, or and exclusive or work bit by bit, on all 64 bits |
| Arithmetic.Shifts | eBPF_Koka/verifier_example/hello-verifier.md:37-38 | shifts move every bit by the amount; zeros come in, or copies of bit 63 for the arithmetic shift |
| Arithmetic.Comparisons | eBPF_Koka/verifier_example/hello-verifier.md:56-73 | each comparison of two registers, read as unsigned or as signed numbers |
| Rules.EntryRule | Notes/bpf.md:3-13 | on entry r1 is the context and r10 the end of the 512-byte frame; no other register and no byte of the frame can be read |
| Rules.FenceRule | Notes/bpf.md:3-4 | leaving the program, writing the frame pointer, and exiting without a number in r0 are errors |
| Rules.CallRule | Notes/bpf.md:5-12 | every helper call loses r1 to r5 and keeps r6 to r10 |
| Rules.ReadRule | Plan.md:22 | for each region, which bytes can be read and what is read |
| Rules.WriteRule | Plan.md:22 | for frame and data section, which bytes can be written and what is left; context, packet and constants are read-only |
| Rules.LoadRule | Plan.md:21-22 | a load is an error exactly if its address is not a multiple of its size or its bytes cannot be read; it gives the number that they spell |
| Rules.LittleEndian | eBPF_Koka/xdp_drop_prog/xdp_drop_prog.bpf.s:17-20 | bytes spell a number lowest byte first |
| Rules.StoreRule | Plan.md:21-22 | a store is an error exactly if it has no pointer, no number, an unaligned address or bytes that cannot be written; it changes nothing else |
| Rules.UnalignedStore | Plan.md:21-22 | a store of n bytes at an address that is no multiple of n is an error |
| Rules.LookupRule | eBPF_Koka/bpf_helper_defs.h:46-55 | a lookup gives a pointer to the value of the key, or null, and changes no memory |
| Rules.UpdateRule | eBPF_Koka/bpf_helper_defs.h:57-77 | an update returns 0 exactly if it is not refused, the flags allow it and there is room (5,000,000 and 10,240 entries), and only then the table has the new pair; otherwise the result is from -4095 to -1 and memory is unchanged |
| Rules.UpdateMeetsC | eBPF_Koka/bpf_helper_defs.h:57-77 | on hello's table the machine's update returns 0 exactly if the C model's does, and leaves the same table |
| Rules.FillRule | eBPF_Koka/bpf_helper_defs.h:380-393 | the command name and a refused probe fill the buffer with the kernel's bytes and zeros after them; a probe that may read copies what it points at |
| Rules.PrintRule | eBPF_Koka/bpf_helper_defs.h:119-176 | a print shows its format and one argument for each conversion, up to three, from r3 on |
| Rules.OutputRule | eBPF_Koka/bpf_helper_defs.h:655-692 | the event output needs context, map and a readable buffer, and shows its bytes |
| Interpreter.Interpreter.constructor | Notes/bpf.md:3-13 | the machine is entered with the context in r1, the frame pointer in r10, nothing else set |
| Interpreter.Interpreter.PutStack | Notes/bpf.md:3-4 | the in-place store changes exactly the addressed bytes of the frame |
| Interpreter.Interpreter.Write | Plan.md:22 | the range part of the rule, without alignment: bytes are written exactly where they fit into a writable region, and otherwise nothing changes |
| Interpreter.Interpreter.DoStore | Plan.md:21-22 | the whole rule: a store does what the pure machine does; it succeeds only at an aligned address, and otherwise changes nothing |
| Interpreter.Interpreter.DoCall | Notes/bpf.md:5-12 | a helper call loses r1 to r5, keeps r6 to r9, and leaves its result in r0, or faults as the pure machine does |
| Interpreter.Interpreter.Step | Plan.md:29-32 | one step on the arrays is one step of the pure machine; a fault changes nothing |
| Interpreter.Interpreter.Run | Plan.md:31-32 | n steps on the arrays are n steps of the pure machine |
| Counter.CounterProgram.UpdateElem | eBPF_Koka/bpf_helper_defs.h:57-77 | 0 is returned exactly if the update is accepted: flag 1 asks for a new key and flag 2 for an old one, a new key needs room, the kernel may refuse; otherwise the result is negative and the table unchanged |
| Counter.CounterProgram.Hello | eBPF_Koka/bpf_maps/hash_map_example.bpf.c:18-42 | a miss stores 1, a hit the old value + 1 modulo 2^64, under the low half of the helper's answer |
| Counter.SharedCounterProgram.Hello | eBPF_Koka/bpf_maps_dup/hash_map_example.bpf.c:20-43 | on its own, the version with the global uid leaves the same table |
| Counter.EveryTableStored | eBPF_Koka/bpf_maps/hash_map_example.bpf.c:9-14 | every table with 8-byte keys and values is some table of C integers, stored byte for byte |
| HelloListing.ObjectMeetsC | eBPF_Koka/bpf_maps/hash_map_example.md:8-40 | from every memory and helper answer the object code returns 0 without a fault, with the C function's table and its calls and arguments |
| HelloListing.ObjectMeetsCEverywhere | eBPF_Koka/bpf_maps/hash_map_example.md:8-40 | the same from every memory whose table of counters is well-formed |
| LlvmHello.UpdateAnswer | eBPF_Koka/bpf_maps/hash_map_example.bpf.ll:47-54 | the update of the IR answers 0 exactly if it is accepted, with the new pair in the table, and an error otherwise |
| LlvmHello.IrMeetsC | eBPF_Koka/bpf_maps/hash_map_example.bpf.ll:15-54 | the IR, with its alloca slots and branches, returns 0 with the C function's table and calls |
| LlvmHello.ObjectMeetsIr | eBPF_Koka/bpf_maps/hash_map_example.bpf.ll:15-54 | object code and IR leave the same table and make the same calls |
| Rewriter.RawLookupSteps | eBPF_Koka/bpf_maps/hash_map_example.md:57-63 | raw lookup, null test and r0 += 56 together do what the lookup helper does |
| Rewriter.RunSimulated | eBPF_Koka/bpf_maps/hash_map_example.md:45-81 | every run of a program is matched by a run of its rewriting, with shifted positions |
| Rewriter.RewritePreservesBehaviour | eBPF_Koka/verifier_example/hello-verifier.md:109-224 | for every program that can be rewritten: same result, memory and trace, same failures, same divergence |
| HelloRewritten.HelloIsRewritten | eBPF_Koka/bpf_maps/hash_map_example.md:45-81 | the rewritten listing of hello is the rewriting of its object code |
| KprobeRewritten.KprobeIsRewritten | eBPF_Koka/verifier_example/hello-verifier.md:109-224 | the rewritten listing of kprobe_exec is the rewriting of its object code |
| Jit.RunSimulated | eBPF_Koka/bpf_maps/hash_map_example.md:86-131 | every run of covered bytecode is matched by a run of its machine code with the same registers, frame, memory and calls |
| Jit.CompilePreservesBehaviour | eBPF_Koka/bpf_maps/hash_map_example.md:86-131 | for every covered program whose jumps fit two bytes the machine code has the behaviour of the bytecode |
| HelloJit.HelloIsCompiled | eBPF_Koka/bpf_maps/hash_map_example.md:86-131 | the x86 listing of hello is the compilation of the rewritten bytecode, each instruction at its listed address |
| HelloJit.HelloEndToEnd | eBPF_Koka/bpf_maps/hash_map_example.bpf.c:18-42 | object code, rewritten bytecode and machine code of hello all behave as the C function says |
| KprobeC.IndexRange | eBPF_Koka/verifier_example/hello-verifier.bpf.c:53-56 | the comparison of an int with sizeof is unsigned, so it also keeps negative values out |
| KprobeC.KprobeProgram.constructor | eBPF_Koka/verifier_example/hello-verifier.bpf.c:7-8 | the initial globals |
| KprobeC.KprobeProgram.KprobeExec | eBPF_Koka/verifier_example/hello-verifier.bpf.c:23-73 | one call increments c, and looks up, prints and emits as specified by EventsOf |
| KprobeC.EventIs | eBPF_Koka/verifier_example/hello-verifier.bpf.c:23-70 | the event field by field: both ids, the old c, the 16 bytes of the command name as answered and padded, the user's or the global message, or what a refused probe leaves |
| KprobeC.EventsAre | eBPF_Koka/verifier_example/hello-verifier.bpf.c:33-70 | the lookup, the greeting exactly if the user has a message, the two characters exactly if the new c is from 0 to 11, and the event, in this order |
| KprobeProof.StoredInt | eBPF_Koka/verifier_example/hello-verifier.md:23-25 | a truncating 32-bit store keeps what a conversion to int keeps |
| KprobeProof.BufferComplete | eBPF_Koka/verifier_example/hello-verifier.bpf.c:69-70 | after the command name is filled in, the 40 bytes sent are exactly struct data_t |
| KprobeProof.ObjectMeetsC | eBPF_Koka/verifier_example/hello-verifier.md:7-92 | from all globals, tables and helper answers the object code returns 0 with the C function's c, prints and 40-byte event |
| KprobeProof.Behaves | eBPF_Koka/verifier_example/hello-verifier.md:7-92 | the same as a statement about whole behaviours |
| KprobeEvents.TraceIs | eBPF_Koka/verifier_example/hello-verifier.md:7-92 | the whole trace of the object code byte by byte, for all globals, tables and answers: key, formats, characters, and the 40 bytes of the event |
| KprobeProof.EveryMemoryRepresents | eBPF_Koka/verifier_example/hello-verifier.bpf.c:7-21 | every memory with sections of the right size, the formats in place and a well-formed my_config represents some globals, so the theorems cover it |
| KprobeJit.KprobeIsCompiled | eBPF_Koka/verifier_example/hello-verifier.md:237-355 | the body of the x86 listing of kprobe_exec, from 0x15 up to the epilogue at 0x187, is the compilation of the rewritten bytecode, address by address |
| KprobeJit.KprobeEndToEnd | eBPF_Koka/verifier_example/hello-verifier.bpf.c:23-73 | object code, rewritten bytecode and machine code all behave as the C function says |
| KprobeRuns.ExecMany | eBPF_Koka/verifier_example/hello-verifier.bpf.c:23-73 | n calls of the mutable program leave the globals and events of n runs |
| KprobeRuns.CounterAfter | eBPF_Koka/verifier_example/hello-verifier.bpf.c:30-31 | from c = 1, c is n + 1 wrapped to an int after n runs |
| KprobeRuns.KthRun | eBPF_Koka/verifier_example/hello-verifier.bpf.c:30-67 | the k-th event carries k modulo 2^32; characters are printed exactly if (k + 1) mod 2^32 is at most 11, and are those at that index |
| KprobeRuns.FirstRuns | eBPF_Koka/verifier_example/hello-verifier.bpf.c:53-67 | before c wraps around, exactly the first ten runs print characters |
| KprobeRuns.MachineRun | eBPF_Koka/verifier_example/hello-verifier.md:7-92 | on the memory that represents the globals after n runs, the object code leaves that of n + 1 runs and shows the events of one run |
| KprobeRuns.MachineRuns | eBPF_Koka/verifier_example/hello-verifier.md:7-92 | the object code, run n times on the memory that it leaves, ends with the memory and the whole trace of n runs of the C function |
| Abstract.AluFits | Plan.md:56-72 | where the check of an operation passes, no operands in the ranges make it fault, and the result is in the computed range |
| Abstract.NarrowSound | Notes/eBPF_verified.md:37 | after a comparison the narrowed range still holds the value |
| Abstract.NarrowTight | Notes/eBPF_verified.md:37 | and no smaller range would do: unless it is empty, both its ends belong to it |
| Abstract.StillDescribes | Notes/eBPF_verified.md:29-37 | what is known about a state stays true while others change memory |
| Checker.CallSound | Plan.md:76-78 | a helper call that passes its check does not fault and leads to the foreseen state |
| Checker.TestSound | Notes/eBPF_verified.md:38 | a checked comparison is defined, and its outcome leads to the state foreseen for it, null tests and packet bounds included |
| Checker.CheckSound | Plan.md:33-37 | single-step rule: an instruction that passes its check cannot fault and leads to a foreseen state |
| CheckExact.CheckIsExact | Plan.md:24-25 | the converse: on a state that is known in full the check fails exactly if the instruction is an error, for every instruction and helper answer, apart from the kinds listed under "Left out" |
| Verifier.WalkSound | Notes/eBPF_verified.md:38 | from every stack and record, what the walk reports is true: complete records within the limit, refusals with a path |
| Verifier.Verify | Notes/eBPF_verified.md:38-39 | the loop over the stack computes the walk; it accepts with a complete record within the limit and refuses only at a reached state whose check fails |
| Verifier.VerifiedIsSafe | Plan.md:38-46 | a program with a complete record faults in no run, with any helper answers and any changes by other CPUs, and ends within as many steps as the record has entries |
| Verifier.AcceptedIsSafe | Plan.md:110-120 | soundness: an accepted program faults in no run and ends within the limit |
| Verifier.VerifiedRuns | Plan.md:38-40 | the same for a run on its own |
| Verifier.RunDescribed | Notes/eBPF_verified.md:29-37 | every state of every run among other CPUs is described by an entry of the record |
| Pruning.CheckWithin | Notes/eBPF_verified.md:39 | what passes for a saved state passes for every state it includes, with no new ways on |
| Pruning.AcceptedIffAllPathsPass | Notes/eBPF_verified.md:38-39 | of what the walk with pruning decides within its limit, it accepts exactly the programs whose check passes on every path |
| PruningCost.NothingTwice | Notes/eBPF_verified.md:39 | of the states that an accepting walk has processed, none is included in one that it had dealt with before |
| PruningCost.StatesSuffice | Notes/eBPF_verified.md:39 | pruning pays by states, not by paths: if the paths are bounded and every check passes, a limit of as many instructions as there are states on them suffices |
| Pruning.CertifiedNotRefused | Notes/eBPF_verified.md:38-39 | a program with a complete record is never refused |
| Pruning.NullableArithmeticRefused | verifier_known_bugs.md:7-20 | a program with a path to arithmetic on a pointer that may be null is not accepted |
| NullArithmetic.Faults | verifier_known_bugs.md:7-20 | the stand-in program with two lookups faults wherever its first lookup hits: at the load if the second misses, at the multiplication if it hits too |
| NullArithmetic.FailsIffFirstHits | verifier_known_bugs.md:7-20 | the exact condition for the stand-in program: it fails if and only if the first lookup hits, and otherwise returns 0 |
| NullArithmetic.NotAccepted | verifier_known_bugs.md:7-20 | the walk accepts the stand-in program with no limit |
| Acceptance.WeightedAccepted | Notes/eBPF_verified.md:46-49 | a program whose complete record carries weights is accepted within the weight of its first state, however little is pruned |
| Acceptance.LargerLimit | Notes/eBPF_verified.md:46-49 | what the walk has decided within a limit it decides alike within every larger one |
| Acceptance.ShortPathsAccepted | Notes/eBPF_verified.md:46-49 | if no path is longer than n and every check passes, a limit of 2^n - 1 suffices |
| Acceptance.AcceptedPathsShort | Notes/eBPF_verified.md:46-49 | what is accepted within a limit has no path longer than the limit, and its checks pass on every path |
| Acceptance.AcceptedIffPathsBounded | Notes/eBPF_verified.md:46-49 | the exact condition: some limit suffices for a program if and only if its paths are bounded in length and the check passes at the end of each |
| Acceptance.EndlessIsTooLong | Notes/eBPF_verified.md:46-49 | a program whose checks pass but whose paths can go on forever meets every limit |
| HelloVerified.HelloCertified | eBPF_Koka/bpf_maps/hash_map_example.md:8-40 | a complete record for hello |
| HelloVerified.HelloAccepted | eBPF_Koka/bpf_maps/hash_map_example.md:8-40 | the walk accepts hello, after at most 37 instructions |
| HelloVerified.HelloSafeAmongOthers | eBPF_Koka/bpf_maps/hash_map_example.md:8-40 | hello never faults and ends within 24 steps, whatever other CPUs do to memory in between |
| KprobeVerified.KprobeCertified | eBPF_Koka/verifier_example/hello-verifier.md:7-92 | a complete record for kprobe_exec |
| KprobeVerified.KprobeAccepted | eBPF_Koka/verifier_example/hello-verifier.md:7-92 | the walk accepts kprobe_exec, after at most 322 instructions |
| KprobeVerified.KprobeSafeAmongOthers | eBPF_Koka/verifier_example/hello-verifier.md:7-92 | kprobe_exec never faults and ends within 89 steps, whatever other CPUs do to c, message and the tables |
| KprobeVerified.IndexedLoadsInside | eBPF_Koka/verifier_example/hello-verifier.md:56-73 | both loads indexed by c read one of the twelve bytes of message and of data.message, even if c changes between any two instructions |
| XdpListing.Combine | eBPF_Koka/xdp_drop_prog/xdp_drop_prog.bpf.s:17-20 | the shift and the or put bytes 12 and 13 together |
| XdpListing.Rounds | eBPF_Koka/xdp_drop_prog/xdp_drop_prog.bpf.s:26-37 | from round i the loop makes exactly h - i more rounds of nine instructions, with one message each |
| XdpListing.XdpRuns | eBPF_Koka/xdp_drop_prog/xdp_drop_prog.bpf.s:5-51 | on every packet the listing ends with 1 if it is shorter than 14 bytes and 2 otherwise, with exactly h loop messages and one more if h is 8, after exactly InsnCount instructions |
| XdpListing.CountBound | eBPF_Koka/xdp_drop_prog/xdp_drop_prog.bpf.c:48-50 | at most 589,832 instructions, a bound that is reached, and below the limit of a million |
| XdpListing.XdpBehaves | eBPF_Koka/xdp_drop_prog/xdp_drop_prog.bpf.s:5-51 | the behaviour of the listing: result and messages, memory unchanged |
| XdpTooLong.XdpIsTooLong | eBPF_Koka/xdp_drop_prog/xdp_drop_prog.bpf.c:48-55 | the walk meets every limit on the listing: it is neither accepted nor refused |
| XdpTooLong.GivesUpOnASafeProgram | eBPF_Koka/xdp_drop_prog/xdp_drop_prog.bpf.c:32-36 | the verifier is not smart enough: it gives up at a million instructions on a program that ends on every packet within 589,832 |
| XdpC.FillAndSum | eBPF_Koka/xdp_drop_prog/xdp_drop_prog.bpf.c:19-26 | arr[i] is i + h for all i, the sum is 523776 + 1024 h, and no intermediate sum overflows an int |
| XdpC.XdpDropProg | eBPF_Koka/xdp_drop_prog/xdp_drop_prog.bpf.c:13-44 | short packets are dropped and all others passed; the one message appears exactly for EtherType 0x0800, since the loop makes no call |
| BpfLoop.Loop | eBPF_Koka/bpf_helper_defs.h:4166-4192 | any callback runs on 0, 1, 2, ... until its first answer 1; the result is the number of calls, or an error and no call |
| BpfLoop.DoCheck | eBPF_Koka/bpf_loop/bpf_loop_ex.bpf.c:8-30 | the answer is 1 exactly for indices 1 to 100 of a packet whose byte 100 is 123; a byte is read exactly if the index is in range and the packet has one there |
| BpfLoop.CheckStops | eBPF_Koka/bpf_loop/bpf_loop_ex.bpf.c:8-30 | do_check stops at index 1 or never |
| BpfLoop.LoopCheck | eBPF_Koka/bpf_loop/bpf_loop_ex.bpf.c:40 | with n loops the result is -7 for n above 8,388,608, 2 if n is at least 2 and byte 100 is 123, and n otherwise |
| BpfLoop.LooksCounted | eBPF_Koka/bpf_loop/bpf_loop_ex.bpf.c:8-30 | n calls of do_check look at a byte n - 1 times, at most 100 times, and never in a packet of at most 100 bytes |
| BpfLoop.XdpParserFunc | eBPF_Koka/bpf_loop/bpf_loop_ex.bpf.c:32-42 | one call of the callback, which looks at no byte of any packet; every packet passes |
| Sequential.Serve | eBPF_Koka/bpf_maps/hash_map_example.bpf.c:18-42 | a loop of calls leaves the table of the sequence |
| Sequential.Conservation | eBPF_Koka/bpf_maps/hash_map_example.bpf.c:9-42 | for fewer than 2^64 events, the sum of all counters plus the rejected events is the number of events |
| Sequential.CounterIsAccepted | eBPF_Koka/bpf_maps/hash_map_example.bpf.c:18-42 | a counter is the number of its user's accepted events |
| Sequential.ExactOnceTracked | eBPF_Koka/bpf_maps/hash_map_example.bpf.c:34-40 | once a user is in the table, every further event of that user counts |
| Sequential.SizeBound | eBPF_Koka/bpf_maps/hash_map_example.bpf.c:9-14 | at most 5,000,000 entries after any events |
| Sequential.RejectedIffFull | eBPF_Koka/bpf_maps/hash_map_example.bpf.c:9-42 | an event that the kernel does not refuse is rejected exactly if its user is new and the table holds 5,000,000 entries; otherwise it counts for the user |
| Sequential.TableHistory | eBPF_Koka/bpf_maps/hash_map_example.bpf.c:9-42 | keys never disappear, the size bound holds, and tracked counters are exact, for any split of the events |
| Concurrent.OneCallIsHello | eBPF_Koka/bpf_maps/hash_map_example.bpf.c:31-40 | the interleaved steps of one invocation, uninterrupted, are the C function, in both variants |
| Concurrent.SequentialVariantsAgree | eBPF_Koka/bpf_maps_dup/hash_map_example.bpf.c:16-43 | one after another, the variants with local and with global uid leave the same table |
| Concurrent.LocalRuns | eBPF_Koka/bpf_maps/hash_map_example.bpf.c:31-40 | what every interleaving keeps: a user is tracked exactly from the first completed update, and the counter lies between 1 and their number |
| Concurrent.LocalBounds | eBPF_Koka/bpf_maps/hash_map_example.bpf.c:31-40 | the bounds read off for one user |
| Concurrent.ExactIffNoStale | eBPF_Koka/bpf_maps/hash_map_example.bpf.c:34-40 | after every interleaving a counter equals its completed updates if and only if none of them had read its value before another one completed |
| Concurrent.ExactWithoutOverlap | eBPF_Koka/bpf_maps/hash_map_example.bpf.c:34-40 | the counter is exact if invocations for the user do not overlap, whatever other users do |
| Concurrent.LostUpdate | eBPF_Koka/bpf_maps/hash_map_example.bpf.c:34-40 | two overlapping invocations for one user: two updates, a counter of 1 |
| Concurrent.TotalIsSum | eBPF_Koka/bpf_maps_dup/hash_map_example.bpf.c:34-40 | in either variant the number of all updates is the sum of the completed updates of each key |
| Concurrent.SharedRuns | eBPF_Koka/bpf_maps_dup/hash_map_example.bpf.c:16-43 | what every interleaving with the global uid keeps: every key is an id that some invocation stored, and every value at most the number of all updates |
| Concurrent.SharedCounters | eBPF_Koka/bpf_maps_dup/hash_map_example.bpf.c:16-43 | read off for one key: stored by some invocation, with a value of at most the sum of all completed updates |
| Concurrent.SharedExceeds | eBPF_Koka/bpf_maps_dup/hash_map_example.bpf.c:32-41 | with the global uid a counter may exceed its own updates: an interleaving |
| Concurrent.BoundedIffNoExcess | eBPF_Koka/bpf_maps_dup/hash_map_example.bpf.c:32-41 | with the global uid, the counter of a user stays within the user's updates throughout a run if and only if no accepted update writes to it a value that was read from another key and exceeds the updates so far by more than one |
| Concurrent.BoundedWithoutForeign | eBPF_Koka/bpf_maps_dup/hash_map_example.bpf.c:32-41 | in particular the bound holds if nothing read from another key is written to it |
| Concurrent.HarmlessForeign | eBPF_Koka/bpf_maps_dup/hash_map_example.bpf.c:32-41 | that condition is not necessary: an update from another key that keeps the bound |
| Concurrent.SharedIsLocal | eBPF_Koka/bpf_maps_dup/hash_map_example.bpf.c:32-41 | if the global uid is never overwritten before it has been used, every interleaving does what it does with the local uid |
| Concurrent.SharedBounds | eBPF_Koka/bpf_maps_dup/hash_map_example.bpf.c:32-41 | so then the bound holds, and is exact if and only if no update was stale |
| HelloCopies.CopiesAreInvocations | eBPF_Koka/bpf_maps/hash_map_example.md:8-40 | whatever the schedule, copies of the object code interleaved at every instruction do to an empty table exactly what the interleaved invocations of the C function do at the accesses read off the schedule; no copy faults, and all return 0 |
| HelloCopies.CopiesCount | eBPF_Koka/bpf_maps/hash_map_example.md:8-40 | so for the bytecode, too: a stored counter lies between 1 and the completed updates, and is exact if and only if none of them was stale |
| KprobeCounter.Increase | eBPF_Koka/verifier_example/hello-verifier.bpf.c:30-31 | below the wrap-around, k interleaved increments raise c by at least 1 and at most k, and by exactly k if and only if none stored a stale value |
| KprobeCopies.CopiesCount | eBPF_Koka/verifier_example/hello-verifier.md:7-92 | whatever the schedule, copies of the object code interleaved at every instruction change nothing that is shared but c, and c as those increments do |
| CopiesVerified.StepEvolves | Notes/eBPF_verified.md:29-37 | no instruction of any program does to memory what the other CPUs of a verified program may not do |
| CopiesVerified.CopiesSafe | Plan.md:38-46 | any number of CPUs run a program with a complete record on shared memory, interleaved at every instruction: none faults, and each ends within its own bound of turns |
| CopiesVerified.AcceptedCopiesSafe | Plan.md:110-120 | the same for every program that the walk accepts, with the limit as the bound |
| Codec.SlotsRoundTrip | eBPF_Koka/bpf_maps/hash_map_example.bpf.i:193-199 | slots survive the way to bytes and back: two four-bit registers, signed offset, signed immediate |
| Codec.BytesOfSlots | eBPF_Koka/bpf_maps/hash_map_example.bpf.i:193-199 | bytes survive the way to slots and back |
| Codec.EncodeDecode | eBPF_Koka/verifier_example/hello-verifier.md:8-92 | decoding gives back every well-formed program, wide loads, symbols and slot-counted jumps included |
| Codec.DecodeEncode | eBPF_Koka/verifier_example/hello-verifier.md:8-92 | whatever bytes and relocations decode are the encoding of the result, which is well-formed |
| ListingBytes.HelloBytes | eBPF_Koka/bpf_maps/hash_map_example.md:10-40 | the bytes listed for hello encode its instructions and decode to them |
| ListingBytes.KprobeBytes | eBPF_Koka/verifier_example/hello-verifier.md:8-92 | the bytes listed for kprobe_exec encode its instructions and decode to them |
| ListingBytes.XdpBytes | eBPF_Koka/xdp_drop_prog/xdp_drop_prog.bpf.s:7-51 | the bytes listed for xdp_drop_prog encode its instructions and decode to them |

## Left out

- The 32-bit ALU and jump classes, atomic operations, stores of immediates and byte swaps: no listing uses them; `Codec` does not encode byte swaps.
- Codec.EncodeDecode: programs whose fields are of the given widths only; it does not include the pseudo source registers with which the loader replaces relocations.
- Pointers stored in the frame: no listing spills a pointer, and the machine does not allow it.
- Abstract.AluFits: ranges are intervals of unsigned numbers; the kernel's known bits and signed bounds are not modelled.
- CheckExact.CheckIsExact: signed division by a negative number, the comparison of two pointers into the packet other than with its end, and formats outside the constant section are refused although the machine can execute them.
- Verifier.Verify: the kernel also keeps record of paths in progress to name infinite loops early; here such programs run into the limit.
- Verifier.AcceptedIsSafe: other CPUs may change any bytes of data and map values and add keys, but they delete no element while the program runs.
- Interpreter.Interpreter.Write: the range part of the rule only; alignment is asked for by DoStore, its caller.
- Pruning.AcceptedIffAllPathsPass: speaks of walks that decide within their limit; which programs some limit suffices for is the subject of Acceptance.AcceptedIffPathsBounded.
- Jit.CompilePreservesBehaviour: programs made of the instructions that occur in the two compiled listings, with jumps of two bytes; prologue and epilogue (frame set-up, callee-saved registers, the return thunk) are outside the compiled body, and helpers and maps are named instead of given addresses.
- Rewriter.RewritePreservesBehaviour: helper addresses are names; inlining of helpers other than map lookup does not occur in the listings.
- HelloCopies.CopiesAreInvocations: the table is empty at first, and one instruction of one CPU takes effect at a time.
- Concurrent.LocalRuns: memory is sequentially consistent, an element replaced by an update is not reused for another key while a pointer to it is live, and nobody deletes elements.
- LlvmHello.IrMeetsC: the table holds integer keys and values, and debug intrinsics are skipped.
- Rules.FillRule: the kernel's bytes are arbitrary; that a command name ends with a zero byte is not asked of them.
- KprobeProof.ObjectMeetsC: the reading of `struct data_t` by user space; the record loss of a full perf buffer is one of the helper's arbitrary results.
- NullArithmetic.Faults: about a stand-in program with two map lookups where the original reserves ring buffer space; the ring buffer is not part of this model.
- NullArithmetic.FailsIffFirstHits: about the same stand-in program.
- NullArithmetic.NotAccepted: about the same stand-in program.
- The `xdp_hello` listing: five instructions without a branch that hand packet pointers to a print.
- `bpf_maps2`, `bpf_maps3`, `bpf_map4`, `packet_count`, `packet_count_float`, `error_packet_count`, `simple`: repetitions of the counter body or unfinished experiments, which would add only easy members.
- User-space loaders and skeletons, the Rust firewall notes, prose about other projects, real time, scheduling, devices, BTF, ELF loading and licence checks.
