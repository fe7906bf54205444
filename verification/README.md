# lttng-ust-benchmarks, verified

A Dafny model of the parts of lttng-ust-benchmarks that compute something, with proofs of what they are for.

* **The SHA-224/256 and HMAC engine** (`sha2.c`). `Sha2.Sha2Context` has the fields of `sha2_context` as arrays that its
  methods update in place: the two counter words with their hand-written carry, the eight state words, the 64-byte side
  buffer, the two HMAC pads. `Fips180` and `Rfc2104` state the standards (FIPS 180-2 with Change Notice 1, RFC 2104)
  without looking at the code, and `KnownAnswer` works out one digest. The main results: any message, in any pieces, gets
  the standard's digest; one HMAC context gives every message its RFC 2104 code, whatever was called on it before the
  last reset.
* **The kernel benchmark** (`kernel-benchmark/lttng_benchmark.c`). `KernelBarrier` is the system of all steps of the main
  thread and its workers: start barrier, event loop, completions, sum. Its results hold in every interleaving.
* **The user-space harness** (`shared_events.c`, `lttng-ust-benchmarks.c`). `SharedEvents.Process` is one process's way
  into the logs in shared memory; `Harness` interleaves a parent and its children on that memory; `Reporting` prints;
  `Json` is a parser written from RFC 8259, and `Printer` proves that it reads back what is printed. `HarnessHistory`
  follows the clock readings of each child through a run, and `HarnessRuns` has the results on whole runs.
* **The driver** (`linux_cpu.py`, `benchmarks.py`). `CpuList` and `LinuxCpu` are the set of online CPUs, `Flatten` and
  `UstBenchmark` the flattening of results and the arithmetic on them.

How the pieces meet: `HarnessRuns.ReportedIntervals` takes the times of any run through the printed text and the parser
to the differences that `UstBenchmark.AddUp` adds up, and `HarnessRuns.DriverTotals` is the whole way from the clock
readings of the processes to those sums; the steps of the harness are the calls of `SharedEvents` and `Reporting`
(`Harness.ChildCalls`, `Harness.ParentPrints`, `HarnessRuns.ReportIsTheOutput`); `Flatten.AveragesLoseNothing` is about
the dictionary that main makes of what `UstBenchmark.Average` returns; and `LinuxCpu.TurnsAreContiguous` gives the kernel
benchmark the CPU ids 0 to n - 1 that `KernelBarrier` indexes its slots with.

## Reading guide

* Words are `bv32` in the round functions and bytes are `bv8`. The counter words are integers below 2^32 with every
  wrap-around written out, and `PUT_UINT32_BE` therefore appears twice, as `Words.PutBE` and `Counter.PutCount`. `& 0x3F`
  is the remainder modulo 64, the shifts of a counter word are a division and a product modulo 2^32, and `|` of the two
  shifted words is their sum, which `Counter.OrDisjoint` allows only for operands without a common bit.
* The 64 rounds are eight turns of a loop over the eight lines at `sha2.c:154-161`, with the names in the order the
  source gives them. The code takes its 64 constants from the same table as the standard; `Constants.RoundConstants`
  ties that table to the cube roots of the primes, so that a wrong constant cannot hide in both.
* `const` inputs are sequences; the pointer arithmetic on them is slicing. Two parts of `sha2_update` that the source
  has inline are methods of their own (`FillBuffer`, `ProcessWhole`), as are the two updates of `sha2_finish` (`Pad`).
* `Sha2.Live` (bytes taken, counter) is the abstract value of a context. `Valid()` makes everything but the stale part of
  the buffer a function of it.
* In the two systems of steps, `KernelBarrier` and `Harness`, the results on time are stated by the moves of a run:
  `Traces.Places` are the positions of the moves that are one participant's own, and `Reading` is the time that the k-th
  of them has read.
* `hide` statements keep definitions out of proofs that do not need them; they have no effect on what is stated.

Where the code does not do what it may be thought to do:

* `sha2_update` counts only the low 32 bits of a piece's length. `Counter.AdvanceIsExact` and
  `Sha2.OneShotPadsRightExactlyWhen` say exactly when that is right; the contracts hold for every length.
* `print_events` escapes nothing. `Printer.ReportReadsBackExactlyWhen` gives the exact condition.
* `print_events` prints the log of the given process only when `ctx` is `NULL` (`Reporting.PrintEvents`).
* The start overhead in `do_ust_benchmark` adds running sums, so that it is not the mean overhead;
  `UstBenchmark.OverheadIsMeanExactlyWhen` gives the exact condition, `UstBenchmark.OverheadIsNotTheMean` an input.
* `threads[cpu]` stays inside its array exactly when the online CPUs are 0, 1, ... (`LinuxCpu.IndexInRangeIffContiguous`).
* `flatten_dict` can lose a leaf, by a key with a dot (`Flatten.DottedKeysCollide`) or by an empty key at the root
  (`Flatten.EmptyKeysCollide`). `Flatten.FlattenLosesNothingExactlyWhen` and `Flatten.FlattenKeepsAllExactlyWhen` give
  the exact condition; `Flatten.Separable` is a sufficient one, and `Flatten.AveragesLoseNothing` shows that the keys
  with dots that main flattens at the end do no harm.

## Model

| member | source | states |
|---|---|---|
| Words.GetPutInverse | sha2.c:42-60 | reading back four stored bytes gives the word, for every word |
| Words.PutGetInverse | sha2.c:42-60 | storing the word read from four bytes gives those bytes, for all bytes |
| Words.GetIsBase256 | sha2.c:42-50 | the word loaded is the number that its four bytes spell in base 256 |
| Words.PutIsBase256 | sha2.c:52-60 | the four bytes stored are the digits of the word in base 256 |
| Words.PutAllAt | sha2.c:299-308 | bytes 4i to 4i + 3 of the output are word i of the state, for every i |
| Fips180.AdditionIs | sha2.c:134-143 | addition of words is the successor function iterated, around from 2^32 - 1 to 0 |
| Macros.Plus | sha2.c:134-226 | + on uint32_t is the addition of the standard |
| Macros.S0 | sha2.c:120-123 | the shifts and masks are the standard's small sigma 0, with true rotations (section 4.1.2 of FIPS 180-2) |
| Macros.S1 | sha2.c:120-124 | likewise small sigma 1 |
| Macros.S2 | sha2.c:120-126 | likewise capital sigma 0 |
| Macros.S3 | sha2.c:120-127 | likewise capital sigma 1 |
| Macros.F0 | sha2.c:129 | the two-operation form is the majority function |
| Macros.F1 | sha2.c:130 | the two-operation form is the choice function |
| Constants.RoundConstants | sha2.c:154-217 | each of the 64 constants is the first 32 fractional bits of the cube root of its prime |
| Constants.InitialValues256 | sha2.c:70-81 | each initial word is the first 32 fractional bits of the square root of its prime |
| Constants.InitialValues224 | sha2.c:82-93 | each initial word is the second 32 fractional bits of the square root of its prime |
| Process.R | sha2.c:132-136 | computing W[t] inside the round gives the schedule word that the standard computes up front, and keeps the earlier ones |
| Process.P | sha2.c:138-143 | updating two of eight registers in place is one round that shifts all eight values |
| Process.EightRounds | sha2.c:154-161 | eight rounds with moving names are eight rounds of the standard, and bring the names back in order |
| Process.AllRounds | sha2.c:145-217 | the 64 rounds from any registers on any block are the standard's, with the schedule filled in on the way |
| Process.Process | sha2.c:98-227 | for every state and block, the state becomes the standard's compression of both (section 6.2.2) |
| PaddingLaws.FlattenBlocks | sha2.c:249-266 | cutting into blocks and putting them end to end gives the bytes back up to the incomplete tail |
| PaddingLaws.AppendFilling | sha2.c:249-256 | completing a tail to a block and cutting the rest on its own is cutting the whole message |
| PaddingLaws.ZeroCountIsLeast | sha2.c:293-294 | the number of zero bytes solves the congruence of section 5.1.1, and no smaller one does |
| PaddingLaws.PaddedBlockCount | sha2.c:293-297 | padding always adds one or two blocks, and floor((n + 8) / 64) + 1 are compressed in all |
| PaddingLaws.PaddingIsInjective | sha2.c:286-297 | two messages of any lengths with the same padded form are equal |
| PaddingLaws.LengthFieldIsExact | sha2.c:286-291 | below 2^61 bytes the last eight bytes spell the length in bits |
| PaddingLaws.FoldOver | sha2.c:258-263 | the state after some blocks and then others is theirs one after the other; one block is one compression, no block none |
| PaddingLaws.WordsOfDigest | sha2.c:299-308 | the digest is the first seven or all eight words of the folded state, in order |
| KnownAnswer.DigestOfAbc | sha2.c:448-520 | the digest of "abc", byte by byte, worked out through all 64 rounds |
| KnownAnswer.HashAbc | sha2.c:612-645 | hashing "abc" gives the expected sum of the self test |
| Rfc2104.PadBytes | sha2.c:371-385 | each byte of a pad is the byte of the key, of its hash or a zero, xored with the pad byte |
| Counter.CarryIsRight | sha2.c:243-247 | the wrap test finds the carry: the two words add up modulo 2^64, through every wrap |
| Counter.AdvanceKeepsPosition | sha2.c:240-247 | the position in the buffer read from the counter stays right even for pieces whose length is cut off |
| Counter.AdvanceIsExact | sha2.c:243-247 | an exact counter stays exact if and only if the piece is shorter than 2^32 bytes |
| Counter.LengthBytes | sha2.c:286-291 | the shifted and stored words are eight times the count, big-endian, for all words |
| Streaming.FilledBuffer | sha2.c:249-256 | filling up and compressing the buffer leaves exactly the rest of the input to be taken |
| Streaming.UntouchedBuffer | sha2.c:249 | when that branch is not taken, the whole input is still to be taken and the buffer stays live |
| Streaming.DirectBlock | sha2.c:258-263 | each turn of the loop compresses the next block of the message, straight from the input |
| Streaming.NewTail | sha2.c:265-266 | copying what is left restores the split between state and buffer for the longer message |
| Sha2.Sha2Context.constructor | sha2.h:50-60 | a context with its arrays allocated and distinct, and arbitrary contents |
| Sha2.Sha2Context.Starts | sha2.c:65-96 | any context becomes one that has taken nothing, with the initial state of the chosen digest |
| Sha2.Sha2Context.AddToTotal | sha2.c:243-247 | the two words in place become the sum with the cast length modulo 2^64 |
| Sha2.Sha2Context.Update | sha2.c:232-267 | the context has taken the input on top of what it had, its invariant holds again: state is the fold over the whole blocks, buffer starts with the tail, each block was compressed once and in order |
| Sha2.PaddingPieces | sha2.c:269-297 | padn is in 1..64, and the two pieces fed are the padding of section 5.1.1 |
| Sha2.FinishPieces | sha2.c:286-297 | the two pieces computed from the counter words and the position, fed one after the other, close the message |
| Sha2.Sha2Context.Pad | sha2.c:286-297 | two more updates feed exactly the padding, with the length field from the counter |
| Sha2.Sha2Context.Finish | sha2.c:280-309 | the output is the digest of all bytes taken; with SHA-224 the last four bytes of the buffer do not change; floor((n + 8) / 64) + 1 blocks were compressed |
| Sha2.UpdatesCompose | sha2.c:232-267 | two updates are one update with both inputs, and an empty update changes nothing |
| Sha2.SameLiveSameContext | sha2.c:232-267 | contexts that have taken the same bytes agree in state, counter and live buffer bytes, however the bytes were cut |
| Sha2.RightCountGivesSha | sha2.c:286-297 | the digest is the standard's whenever the counter is right modulo 2^61 |
| Sha2.OneShotIsSha | sha2.c:316-326 | what sha2 computes is the standard's digest for every message under 2^32 bytes |
| Sha2.OneShotPadsRightExactlyWhen | sha2.c:316-326 | one call of sha2 hashes the standard's padded message if and only if the message is under 2^32 bytes |
| Sha2.OneShot | sha2.c:316-326 | the output is that digest, and nothing beyond its length is written |
| Sha2.CodeKeyIsBlockKey | sha2.c:371-385 | the key block the code uses is the one of RFC 2104, with long keys hashed first |
| Sha2.Sha2Context.SetPads | sha2.c:378-385 | in place, both pads become the key block xored with the two pad bytes |
| Sha2.Sha2Context.HmacStarts | sha2.c:365-391 | the pads are set from the key, and the context has taken exactly the inner pad |
| Sha2.Sha2Context.HmacUpdate | sha2.c:396-399 | as for an update; the pads stay |
| Sha2.Sha2Context.HmacFinish | sha2.c:404-419 | the output is the hash of the outer pad and the inner digest, of which only its own 28 or 32 bytes are read; the pads stay |
| Sha2.Sha2Context.HmacReset | sha2.c:424-428 | from any state the context has taken exactly the inner pad again; the pads stay |
| Sha2.HmacOneShot | sha2.c:433-444 | for keys and messages under 2^32 bytes the output is the code of section 2 of RFC 2104 |
| Sha2Runs.PiecesAreOneMessage | sha2.c:232-267 | for every cutting of a message into pieces under 2^32 bytes, the context has taken the message and counts its length modulo 2^64 |
| Sha2Runs.DigestOfPieces | sha2.c:342-347 | for every cutting, the digest is the standard's digest of the concatenation |
| Sha2Runs.HashPieces | sha2.c:342-347 | starts, updates, finish: the standard's digest of the concatenation; the compressed blocks start with the message, and their number depends on its length alone |
| Sha2Runs.HmacSession | sha2.c:365-428 | any mix of updates, finishes and resets on one context writes exactly the codes of the abstract run, with the pads of the start throughout |
| Sha2Runs.MacOfFirst | sha2.c:387-419 | after the start, a message in any pieces gets its RFC 2104 code |
| Sha2Runs.MacAfterReset | sha2.c:424-428 | after any calls whatever, a reset restores the state of the start, and the next message gets the code a fresh context gives |
| KernelBarrier.ElapsedIsTrueDifference | kernel-benchmark/lttng_benchmark.c:42-44 | the unsigned arithmetic, with its negative microsecond difference, gives the true elapsed time modulo 2^64 |
| KernelBarrier.StepKeepsInv | kernel-benchmark/lttng_benchmark.c:27-101 | every step of every thread keeps the invariant of the protocol |
| KernelBarrier.SafeInEveryRun | kernel-benchmark/lttng_benchmark.c:35-97 | in every interleaving no start time is read before all workers exist and are released, only times of finished workers are summed, and nothing can touch the slots after they are freed |
| KernelBarrier.EveryRunHasHistory | kernel-benchmark/lttng_benchmark.c:35-51 | in every reachable state: a worker holds the times that its first step and its step after the events have read, and the trace is the one that its steps in between have fired |
| KernelBarrier.TotalOfEveryCompleteRun | kernel-benchmark/lttng_benchmark.c:37-100 | from the moves alone: each worker takes count + 4 steps, fires events 0 to count - 1 once and in order between its first and its second reading of the time, n * count in all, and the total is the sum of the microseconds between the two readings modulo 2^64 |
| KernelBarrier.SomebodyCanMove | kernel-benchmark/lttng_benchmark.c:35-97 | no deadlock: until main has returned, some thread has a step |
| KernelBarrier.WorkersRunFreely | kernel-benchmark/lttng_benchmark.c:35-51 | after the release no worker ever waits for another: each can take its next step at any time |
| KernelBarrier.StepsCountDown | kernel-benchmark/lttng_benchmark.c:35-97 | every step brings the end one step nearer |
| KernelBarrier.EveryRunTerminates | kernel-benchmark/lttng_benchmark.c:35-101 | no run is longer than 4n + 5 + n(count + 4) steps, and a run is that long exactly when main has returned, which is exactly when nobody can move |
| KernelBarrier.EveryRunCanBeCompleted | kernel-benchmark/lttng_benchmark.c:35-101 | from every reachable state some continuation brings main to its return |
| SharedEvents.Process.Close | shared_events.c:58-71 | ctx is NULL afterwards |
| SharedEvents.Process.Open | shared_events.c:73-119 | an attached ctx is kept; otherwise the segment of the given process is attached, and made if missing, with any read pointer |
| SharedEvents.Process.Clear | shared_events.c:129-136 | the process's own segment is emptied; its slots and the read pointer stay |
| SharedEvents.Process.Add | shared_events.c:138-186 | the event goes to the end of the log, with the part of its name that fits, stamped on leaving if it is "start" and on entering otherwise; a full log is left alone and reported |
| SharedEvents.Process.Read | shared_events.c:188-196 | nothing exactly if the read pointer equals the count, and otherwise the slot it points to, whether or not that is in use |
| SharedEvents.Process.Rewind | shared_events.c:198-205 | the read pointer is at the start, whatever malloc had left in it |
| SharedEvents.KeptIs | shared_events.c:165 | of a name, at most the first 256 characters are kept |
| Reporting.PrintEvents | lttng-ust-benchmarks.c:31-66 | prints the log of the given process if ctx is NULL, and the log ctx is attached to otherwise; ctx is NULL afterwards and no log changes |
| Reporting.RunChild | lttng-ust-benchmarks.c:74-80 | whatever ctx was inherited and whatever the segment held, the child's log is then the one event "exec", and no other segment has changed |
| Reporting.Report | lttng-ust-benchmarks.c:127-144 | prints all logs in order if every child exited with 0, and nothing otherwise |
| Printer.ObjectRead | lttng-ust-benchmarks.c:49-63 | one printed object parses to the events it was printed from |
| Printer.PrintedForm | lttng-ust-benchmarks.c:49-142 | the printed text of two processes, character by character around names and numerals |
| Text.DigitsAre | lttng-ust-benchmarks.c:57-60 | numerals are written with the characters 0 to 9, of those values |
| Text.NumeralsAre | lttng-ust-benchmarks.c:57-60 | in base ten, most significant digit first, %09ld with zeros in front |
| Printer.ReportReadsBack | lttng-ust-benchmarks.c:133-142 | printing then parsing is the identity: as many objects, the same names in order, the exact rational times |
| Printer.ReportReadsBackExactlyWhen | lttng-ust-benchmarks.c:57-60 | and that if and only if no name needs an escape |
| Printer.NeedsNoEscapeIs | lttng-ust-benchmarks.c:57-60 | which names those are: no control character, quotation mark or backslash; the names that the driver reads are among them |
| Harness.StepKeepsInv | lttng-ust-benchmarks.c:68-145 | every step of parent and children keeps the invariant: each segment holds what its own child added since its clear, the parent's ctx is NULL between its calls, and what it has printed is the logs so far |
| Harness.ChildCalls | lttng-ust-benchmarks.c:74-80 | the child's steps in the interleaved system are the calls of shared_events.c, and execv is a process afresh: same memory, same ctx |
| Harness.ChildKeepsOther | lttng-ust-benchmarks.c:68-88 | no step of a child changes the segment, the ctx or the history of another |
| Harness.ChildrenRunFreely | lttng-ust-benchmarks.c:68-88 | from fork to exit no child waits for another: each can take its next step at any time |
| Harness.ParentPrints | lttng-ust-benchmarks.c:31-66 | the printing step of the parent in the interleaved system is the call of print_events: same memory, same ctx, same text |
| HarnessHistory.CallsAreReadings | shared_events.c:149-184 | in every reachable state: each call of shared_events_add was entered and left at the times that two successive steps of its own child have read |
| HarnessRuns.EveryRunPrintsTheLogs | lttng-ust-benchmarks.c:110-145 | in every interleaving, from any memory: output appears exactly if no program adds more than 255 events, and then the text is a function of the moves: the i-th object is "exec" and the events of program i, in order, each with the time that the step of child i entering its call has read, or leaving it for "start"; it parses back to that |
| HarnessRuns.ReportIsTheOutput | lttng-ust-benchmarks.c:126-144 | once all children have been waited for, the output of every run is what the method for the end of main prints on that memory with that ctx |
| HarnessRuns.SomebodyCanMove | lttng-ust-benchmarks.c:110-145 | no deadlock: until main has finished, some process has a step |
| HarnessRuns.StepsCountDown | lttng-ust-benchmarks.c:68-145 | every step is at least one step less to go, and exactly one as long as no child has overrun its log |
| HarnessRuns.EveryRunTerminates | lttng-ust-benchmarks.c:110-145 | no run is longer than 3n + 3 steps, two for each event and four for each child; it is that long exactly when the report has been printed; nobody can move exactly when main has finished |
| HarnessRuns.EveryRunCanBeCompleted | lttng-ust-benchmarks.c:110-145 | from every reachable state some continuation brings main to its end |
| HarnessRuns.StampsInOrder | shared_events.c:149-184 | times along a log never decrease |
| HarnessRuns.IntervalExcludesLogging | shared_events.c:168-184 | the time from "start" to a later event is the time between the two calls, and no moment of either call is in it |
| HarnessRuns.ReportedIntervals | benchmarks.py:73-122 | in every run with output, for all CPUs: the printed text parses to one dictionary per CPU, and the difference of two of its times is the exact time between the readings of two steps of that child, and never negative |
| HarnessRuns.DriverTotals | benchmarks.py:111-122 | in every run with output: the sums that the driver forms from the parsed text are the sums over all children of the times between their own readings |
| CpuList.ReadCpuFile | linux_cpu.py:7-16 | the loop gives the union of the listed ranges, or the exception for a malformed list |
| CpuList.ListIsUnion | linux_cpu.py:10-15 | a list is read exactly when each nonempty element is, and gives what they cover together |
| CpuList.OneMinusSign | linux_cpu.py:11-15 | an element with one minus sign is read exactly when there are numbers on both sides, and covers all from one to the other; one without is a single number |
| CpuList.TwoMinusSigns | linux_cpu.py:12 | an element with more minus signs raises |
| CpuList.IntOfGroups | linux_cpu.py:13-15 | int() reads digits with single underscores between them, with a plus sign or none, in white space |
| CpuList.IntIsOfGroups | linux_cpu.py:13-15 | and nothing else |
| CpuList.RStripIs | linux_cpu.py:10 | rstrip takes off all white space at the end and nothing else |
| Text.JoinOfSplit | linux_cpu.py:10-12 | the parts of a split joined give the string back, and no part has the separator in it |
| CpuList.RunsAreMaximal | linux_cpu.py:8-15 | the ranges of the kernel are as long as they can be |
| CpuList.KernelTextIs | linux_cpu.py:10-12 | its notation: ranges with a minus sign, commas between |
| CpuList.ReadsKernelFormat | linux_cpu.py:7-16 | any list of ranges in the kernel's format reads as exactly the CPUs it covers |
| CpuList.ReadsBackKernelText | linux_cpu.py:7-16 | the file of any set of CPUs reads back as that set |
| LinuxCpu.Cpus.constructor | linux_cpu.py:18-35 | any set of online CPUs among any present ones is a valid state |
| LinuxCpu.Cpus.AssignOnline | linux_cpu.py:32-35 | exactly the given CPUs that are present are online |
| LinuxCpu.Cpus.AssignOffline | linux_cpu.py:43-46 | exactly the given CPUs are offline |
| LinuxCpu.Cpus.AssignOnlineCount | linux_cpu.py:54-74 | which exception is raised and when; otherwise exactly count CPUs are online, chosen lowest first, and the check at the end never fails; how many are online after an interrupt among the writes |
| LinuxCpu.IndexInRangeIffContiguous | kernel-benchmark/lttng_benchmark.c:62-76 | CPU ids index an array sized by their number if and only if they are 0, 1, ... |
| LinuxCpu.CpuLoop | benchmarks.py:274-281 | turn i runs on all but i of the CPUs, the ones with the lowest ids, and no turn raises unless it is interrupted |
| LinuxCpu.TurnsAreContiguous | benchmarks.py:274-281 | starting from CPUs 0 to n - 1, turn i runs on 0 to n - i - 1, so that every id is a valid index |
| LinuxCpu.Program | benchmarks.py:336-344 | wherever the loop is interrupted, between turns or among the writes of a setter, the CPUs online before are the CPUs online after |
| Flatten.Destination.FlattenInternal | benchmarks.py:189-203 | the recursion on the shared dictionary makes exactly the listed assignments in order |
| Flatten.FlattenDict | benchmarks.py:205-208 | the result of those assignments from an empty dictionary |
| Flatten.WritesArePlaced | benchmarks.py:189-203 | under a prefix, each leaf is assigned to the prefix followed by a dot and a step for every step of its path |
| Flatten.LeavesAreReached | benchmarks.py:189-203 | the leaves are exactly what keys and positions, counted from 0, lead to; None is no leaf |
| Flatten.SmallExample | benchmarks.py:189-208 | a dictionary with a list in it, flattened |
| Flatten.FlattenUnderPrefix | benchmarks.py:193-195 | flattening a dictionary under a prefix is prepending the prefix and a dot to its own flattening |
| Flatten.PrefixedKeysApart | benchmarks.py:302-314 | keys under different CPU-count keys never collide |
| Flatten.FlattenKeepsAllExactlyWhen | benchmarks.py:189-208 | for all data: at most one key per leaf, and as many keys as leaves if and only if no two leaves have the same key; each leaf is then under its own |
| Flatten.FlattenLosesNothingExactlyWhen | benchmarks.py:205-208 | a dictionary without an empty key at its root loses no leaf if and only if no two of its paths are the same string when joined with dots; each leaf is then under its dotted path |
| Flatten.FlattenLosesNothing | benchmarks.py:205-208 | nonempty, dot-free, distinct keys are enough: every leaf is found under its own dotted path, paths do not collide, and there is nothing else |
| Flatten.AveragesLoseNothing | benchmarks.py:302-314 | the averages of all CPU counts are flattened without loss, whatever their keys: each is found under its CPU-count key, a dot and its own key, and there is nothing else |
| Flatten.DottedKeysCollide | benchmarks.py:193-195 | an input with a dotted key that loses a leaf |
| Flatten.EmptyKeysCollide | benchmarks.py:193-195 | an input with an empty key that loses a leaf |
| UstBenchmark.AddUp | benchmarks.py:94-122 | the running sums in closed form, with the overhead counting the j-th process n - j times; which keys are read with and without a run; which inputs raise IndexError and which KeyError |
| UstBenchmark.Accumulate | benchmarks.py:94-165 | every reported number as a function of the event times, and exactly when which exception is raised |
| UstBenchmark.TotalsAre | benchmarks.py:111-122 | start times are main minus exec and run times end minus start, added up |
| UstBenchmark.FastPass | benchmarks.py:111-165 | a pass without a run needs exec and main only, and what is then reported |
| UstBenchmark.FullPass | benchmarks.py:111-165 | a pass with a run, and what is then reported |
| UstBenchmark.OverheadStep | benchmarks.py:114-119 | each turn adds the difference of the running sums to the overhead |
| UstBenchmark.OverheadIsMeanExactlyWhen | benchmarks.py:114-128 | the reported overhead is the difference of the mean start times if and only if the surplus is nil, in particular for one process |
| UstBenchmark.OverheadIsNotTheMean | benchmarks.py:114-128 | two processes with one second of overhead each are reported with one and a half |
| UstBenchmark.Average | benchmarks.py:290-300 | a key is averaged exactly if some pass has a number for it, and its average is the mean of those numbers |
| UstBenchmark.OneMorePass | benchmarks.py:293-300 | one more pass with a number moves the total by that number and the count by one; anything else moves nothing |

## Left out

- Aliasing of an input with the context's own buffer, and wiping with memset: inputs are values, and wiping changes no result.
- sha2_file: opening, reading and its error codes; its loop is `Sha2Runs.HashPieces`. The vectors of the self test other than SHA-256 of "abc".
- Sha2.HmacOneShot: stated for keys and messages under 2^32 bytes; longer ones are hashed with a cut-off count, which `Sha2.Sha2Context.HmacStarts` and `HmacUpdate` describe.
- Interrupted waits, failing allocation or thread creation, CPU hotplug by others, and changes of event_count during a run of the kernel benchmark; with event_count above 2^31 - 1 the int loop variable of a worker would overflow.
- OS failure branches of shm_open, ftruncate, mmap, fork, execv, waitpid and clock_gettime, the errno test in shared_events_open, and shared_events_delete. Shared memory is a map from process id to segment, the clock an input that never goes back.
- SharedEvents.Process.Add: requires a segment whose count is at most 256, which clear establishes; the source writes past its array otherwise.
- SharedEvents.Process.Read: requires a read pointer equal to the count or within the slots; the source reads past its array otherwise.
- Names of 256 characters and more, which fill their slot: `Reporting.PrintEvents` and `Harness` require shorter ones, since %s would run on into what follows the slot.
- Printer.ReportReadsBack: requires nanoseconds below 10^9, as clock_gettime gives them.
- Programs under measurement do nothing to their log but add events; execv succeeds, and the results of waitpid are inputs of `Reporting.Report`.
- The threads of the kernel benchmark and the processes of the harness are values in a step system, not objects: what it does not capture is the order of memory accesses below one step.
- JSON escapes by code point (\u) are not read by the parser; the printer writes no escapes at all.
- Digits and white space outside ASCII, and the limit on the length of a numeral, in int() and str.rstrip.
- A second KeyboardInterrupt, during the restoring assignment of online_cpus itself.
- Refusal by the kernel to take a CPU offline, and the exceptions that would follow.
- Rounding: benchmarks.py computes in floating point, the model in exact rationals.
- LTTng sessions, subprocesses, files and plots, lttng_kernel_benchmark.py, tpgen.py, basic-benchmark.c and sha2-benchmark.c: calls into libraries and thin loops.
