# lmp observability tools: a verified model

This project models the core of several eBPF observability tools from the lmp
repository (eBPF_Supermarket) and proves properties of that model in Dafny.

- **Stack_Analyser.**
  - *Kernel side:* the on-CPU, off-CPU and probe programs. They filter tasks
    by pid, build the count key from the pid and the traced stack ids, save
    per-pid task info, and insert into or increment a count map of bounded
    capacity.
  - *Host side:* the collector framework, the `CommonMaps` count list
    sorted by value, and the per-round report. It also covers the skeleton
    life cycle behind load, attach, detach and unload, the on-CPU, off-CPU,
    IO and stack-count collectors, and the probe-string split and
    classification.
  - *Driver:* `main.cpp` builds the registry from the command line, evicts
    collectors whose load fails, and runs the sampling loop one collector at
    a time.
- **cpu_watcher.**
  - The scheduling-delay program keeps a sum, maximum and minimum summary.
  - The preemption program pairs a stamp with a ring-buffer event.
  - The user-space side has the log2 histogram, the counter deltas and the
    averages.
- **mem_watcher.** The memleak allocation accounting per stack, and the ion
  latency buckets.
- **net_watcher.**
  - *Kernel side:* the connection table with port filters and removal on
    close, the tuple builders, the retransmission counters and the simplified
    segment-acceptability test.
  - *User side:* the kallsyms binary search, HTTP first-line extraction and
    protocol and reason classification.
- **blazesym.** The C-API conversions of normalized addresses with their
  round trips, the null-safe free functions, and the ELF backend cache
  validated by `fstat`.

Each kernel program has two layers:

- a state datatype and transition functions whose contracts state the effect
  of one hook;
- a class whose fields are the program's maps, and whose methods update them
  in place and are proved equal to those functions.

Some inputs come from outside the program: what the kernel reads, clocks,
whether a ring-buffer reservation succeeds, what the file system answers,
and the results of skeleton calls. These are parameters of the operations.

The BPF helper semantics in `BpfMaps` are the kernel's and are not defined
in the repository:

- an update of a new key fails with -E2BIG when the map is full;
- a BPF_NOEXIST update of a present key fails with -EEXIST.

Their rows cite a call site that relies on them.

## Model

| member | source | states |
|---|---|---|
| BpfMaps.Update | eBPF_Supermarket/CPU_Subsystem/cpu_watcher/schedule_delay.bpf.c:33-34 | an update succeeds or leaves the map as it was, and a success stores the value under the key; BPF_NOEXIST fails on a present key, BPF_EXIST on an absent one, and an insert of a new key succeeds exactly when the map is below its max_entries |
| BpfMaps.Delete | eBPF_Supermarket/CPU_Subsystem/cpu_watcher/schedule_delay.bpf.c:143 | the key is gone and every other entry stays |
| BpfMaps.UpdateKeepsCapacity | eBPF_Supermarket/CPU_Subsystem/cpu_watcher/schedule_delay.bpf.c:10-11 | no update lets a hash map grow past its max_entries |
| BpfMaps.InsertFlagsAgree | eBPF_Supermarket/Memory_Subsystem/applications/mem_watcher/memleak.bpf.c:94-97 | on an absent key a BPF_NOEXIST insert does what a BPF_ANY one does |
| BpfMaps.ToU32 | eBPF_Supermarket/Stack_Analyser/bpf/off_cpu.bpf.c:40 | an int compared with a u32 is read modulo 2^32: unchanged when it is in range, otherwise off by a multiple of 2^32 |
| BpfMaps.ToU64 | eBPF_Supermarket/Network_Subsystem/net_watcher/netwatcher.c:411-414 | a location read as an unsigned long is taken modulo 2^64: unchanged when it is in range, otherwise off by a multiple of 2^64 |
| BpfMaps.AddU32 | eBPF_Supermarket/Stack_Analyser/bpf/off_cpu.bpf.c:65 | the 32-bit sum is the plain sum below 2^32 and the sum less 2^32 otherwise |
| BpfMaps.SubU32 | eBPF_Supermarket/Network_Subsystem/net_watcher/netwatcher.bpf.c:884 | the 32-bit difference is the plain difference when it is not negative and wraps by 2^32 otherwise |
| BpfMaps.AddU64 | eBPF_Supermarket/CPU_Subsystem/cpu_watcher/schedule_delay.bpf.c:112-113 | the 64-bit sum is the plain sum below 2^64 and the sum less 2^64 otherwise |
| BpfMaps.SubU64 | eBPF_Supermarket/Stack_Analyser/bpf/off_cpu.bpf.c:54 | the 64-bit difference of two clock readings is the plain difference when it is not negative and wraps by 2^64 otherwise |
| SaEbpf.DefaultVals | eBPF_Supermarket/Stack_Analyser/include/sa_ebpf.h:70-73 | a program starts with user and kernel stack tracing off and self pid 0 |
| SaEbpf.IsKernelThread | eBPF_Supermarket/Stack_Analyser/include/sa_ebpf.h:24-31 | a task is a kernel thread exactly when bit 21 (PF_KTHREAD) of its flags is set |
| SaEbpf.InfoOf | eBPF_Supermarket/Stack_Analyser/include/sa_ebpf.h:78-82 | the saved record holds the namespace pid and tgid, the command and the container id of the task |
| SaEbpf.SaveTaskInfo | eBPF_Supermarket/Stack_Analyser/include/sa_ebpf.h:75-84 | a pid already recorded keeps its record; an unrecorded pid gets the task's namespace pid, tgid, command and container when the map has room (insert with BPF_NOEXIST), and nothing changes when it is full |
| SaEbpf.CountKey | eBPF_Supermarket/Stack_Analyser/include/sa_ebpf.h:86-91 | the count key holds the pid, the user stack id only when user tracing is on (else -1) and the kernel stack id only when kernel tracing is on (else -1) |
| SaEbpf.UntracedStacksMerge | eBPF_Supermarket/Stack_Analyser/include/sa_ebpf.h:89 | with user tracing off, samples that differ only in their user stack fall on one key whose user id is -1 |
| SaEbpf.TracedStacksSeparate | eBPF_Supermarket/Stack_Analyser/include/sa_ebpf.h:86-91 | with both stacks traced, distinct stack pairs of one pid get distinct keys |
| SaEbpf.SaveTaskInfoBounded | eBPF_Supermarket/Stack_Analyser/include/sa_ebpf.h:83 | saving task info never takes pid_info_map past its capacity |
| OnCpuBpf.Sample | eBPF_Supermarket/Stack_Analyser/bpf/on_cpu.bpf.c:35-54 | kernel threads, pid 0 and the collector's own pid leave both maps unchanged; any other sample saves the task info and adds one, modulo 2^32, to its key's count, or inserts 1 when the key is absent and the map has room |
| OnCpuBpf.Accepts | eBPF_Supermarket/Stack_Analyser/bpf/on_cpu.bpf.c:37-41 | a sample is dropped when it comes from a kernel thread, pid 0 or the collector itself, and kept otherwise |
| OnCpuBpf.RepeatedSamples | eBPF_Supermarket/Stack_Analyser/bpf/on_cpu.bpf.c:46-52 | n accepted samples of one task and stack pair on an empty count map leave exactly that key, with count n modulo 2^32 |
| OnCpuBpf.SampleBounded | eBPF_Supermarket/Stack_Analyser/bpf/on_cpu.bpf.c:42-52 | a sample never takes either map past the shared capacity |
| OnCpuBpf.OnCpuProgram.DoStack | eBPF_Supermarket/Stack_Analyser/bpf/on_cpu.bpf.c:34-54 | the program returns 0 and its maps become those Sample gives for the running task |
| OffCpuBpf.OffCpuDelta | eBPF_Supermarket/Stack_Analyser/bpf/off_cpu.bpf.c:54 | the increment is the elapsed 64-bit nanoseconds shifted right by 20, truncated to 32 bits; for a non-negative span below 2^52 ns it is the plain quotient by 2^20 |
| OffCpuBpf.Traced | eBPF_Supermarket/Stack_Analyser/bpf/off_cpu.bpf.c:40 | a non-negative target traces exactly its own pid; a negative one traces every pid but 0 and the collector |
| OffCpuBpf.RecordStart | eBPF_Supermarket/Stack_Analyser/bpf/off_cpu.bpf.c:40-45 | the task switched out is stamped with the current time only when it is traced (the target pid, or any non-zero pid but the collector's when the target is negative), not yet stamped and the map has room |
| OffCpuBpf.Account | eBPF_Supermarket/Stack_Analyser/bpf/off_cpu.bpf.c:48-67 | an unstamped task changes nothing; a stamped task loses its stamp, a zero delta then changes nothing more, and a non-zero delta saves its info and adds the delta (mod 2^32) to its key, or inserts it |
| OffCpuBpf.Switch | eBPF_Supermarket/Stack_Analyser/bpf/off_cpu.bpf.c:36-68 | a kernel thread being switched out makes the whole handler a no-op, including the accounting of the incoming task |
| OffCpuBpf.OffTimeAccumulates | eBPF_Supermarket/Stack_Analyser/bpf/off_cpu.bpf.c:36-67 | a traced user task switched out for another user task at t0 and switched back in when that task is switched out at t1 gets a count of exactly (t1 - t0) >> 20 on its key, and its stamp is gone, whatever the first switch did for the other task |
| OffCpuBpf.StampConsumedOnce | eBPF_Supermarket/Stack_Analyser/bpf/off_cpu.bpf.c:50-53 | a second switch-in without a new stamp changes nothing |
| OffCpuBpf.OffCpuProgram.DoStack | eBPF_Supermarket/Stack_Analyser/bpf/off_cpu.bpf.c:35-68 | the program returns 0 and its three maps become those Switch gives |
| ProbeBpf.Hit | eBPF_Supermarket/Stack_Analyser/bpf/probe.bpf.c:33-57 | kernel threads, pids other than a non-negative target, pid 0 and the collector leave the maps unchanged; any other hit saves the task info and counts one more hit on its key (keyed by namespace pid) |
| ProbeBpf.Accepts | eBPF_Supermarket/Stack_Analyser/bpf/probe.bpf.c:36-40 | a hit is kept only from a user task whose namespace pid is not 0, not the collector and, for a non-negative target, the target; with a negative target every such task is kept |
| ProbeBpf.SameCountingAsOnCpu | eBPF_Supermarket/Stack_Analyser/bpf/probe.bpf.c:39-54 | with no target pid and a task whose namespace pid is its pid, a probe hit counts exactly as an on-CPU sample |
| ProbeBpf.ProbeProgram.HandleFunc | eBPF_Supermarket/Stack_Analyser/bpf/probe.bpf.c:33-57 | returns 0 and the maps become those Hit gives |
| ProbeBpf.ProbeProgram.Handle | eBPF_Supermarket/Stack_Analyser/bpf/probe.bpf.c:59-64 | the kprobe entry has exactly the effect of handle_func and returns 0 |
| ProbeBpf.ProbeProgram.HandleTp | eBPF_Supermarket/Stack_Analyser/bpf/probe.bpf.c:65-69 | the tracepoint entry has exactly the effect of handle_func and returns 0 |
| OnCpuBpf.OnCpuProgram.constructor | eBPF_Supermarket/Stack_Analyser/bpf/on_cpu.bpf.c:29-30 | a loaded program has empty count and task-info maps and the configuration values it was given |
| OffCpuBpf.OffCpuProgram.constructor | eBPF_Supermarket/Stack_Analyser/bpf/off_cpu.bpf.c:27-31 | a loaded program has empty count, task-info and start maps and the configuration it was given |
| ProbeBpf.ProbeProgram.constructor | eBPF_Supermarket/Stack_Analyser/bpf/probe.bpf.c:27-28 | a loaded program has empty count and task-info maps and the configuration it was given |
| SaCollector.LessIsStrictOrder | eBPF_Supermarket/Stack_Analyser/src/bpf_wapper/eBPFStackCollector.cpp:37-43 | operator< is irreflexive, asymmetric and transitive, and two items are incomparable exactly when they share value and pid |
| SaCollector.SortedAscends | eBPF_Supermarket/Stack_Analyser/src/bpf_wapper/eBPFStackCollector.cpp:37-43 | in a sorted list the values ascend, and pids ascend among equal values |
| SaCollector.Less | eBPF_Supermarket/Stack_Analyser/src/bpf_wapper/eBPFStackCollector.cpp:37-43 | items are ordered by value first; a smaller value always comes first, and equal values are ordered by pid |
| SaCollector.InsertAtLowerBound | eBPF_Supermarket/Stack_Analyser/src/bpf_wapper/eBPFStackCollector.cpp:78 | the item sits at its lower bound, the items before it are unchanged and the items after it are shifted by one |
| SaCollector.InsertOrders | eBPF_Supermarket/Stack_Analyser/src/bpf_wapper/eBPFStackCollector.cpp:78 | inserting an item at its lower bound keeps a sorted list sorted |
| SaCollector.LowerBound | eBPF_Supermarket/Stack_Analyser/src/bpf_wapper/eBPFStackCollector.cpp:78 | std::lower_bound: every item before the position is less than the new one, and the item at it is not |
| SaCollector.LowerBoundPartitions | eBPF_Supermarket/Stack_Analyser/src/bpf_wapper/eBPFStackCollector.cpp:78 | in a sorted list no item from the lower bound on is less than the new one |
| SaCollector.InsertKeepsSorted | eBPF_Supermarket/Stack_Analyser/src/bpf_wapper/eBPFStackCollector.cpp:78 | inserting at the lower bound keeps the list sorted and adds exactly that item |
| SaCollector.SortItems | eBPF_Supermarket/Stack_Analyser/src/bpf_wapper/eBPFStackCollector.cpp:74-79 | the insertion loop yields a sorted permutation of the items read |
| SaCollector.IoModeIndex | eBPF_Supermarket/Stack_Analyser/include/bpf_wapper/io.h:39-44 | COUNT, SIZE and AVE are the enumerators 0, 1 and 2 |
| SaCollector.IoScale | eBPF_Supermarket/Stack_Analyser/src/bpf_wapper/io.cpp:37-45 | COUNT reports IOCount in counts, SIZE IOSize in bytes, AVE AverageIOSize in bytes, all with period 1 |
| SaCollector.IoValue | eBPF_Supermarket/Stack_Analyser/src/bpf_wapper/io.cpp:21-35 | COUNT reads the count, SIZE the size, AVE the quotient of size by count |
| SaCollector.OnCpuScale | eBPF_Supermarket/Stack_Analyser/src/bpf_wapper/on_cpu.cpp:46-52 | OnCPUTime in nanoseconds, with a period of 1e9/freq rounded down |
| SaCollector.OffCpuPeriodIsKernelShift | eBPF_Supermarket/Stack_Analyser/src/bpf_wapper/off_cpu.cpp:22-27 | the off-CPU period 1 << 20 is the unit the kernel program shifts its deltas by |
| SaCollector.ProbeScale | eBPF_Supermarket/Stack_Analyser/src/bpf_wapper/probe.cpp:50-55 | the probe string is prefixed to the current type; unit and period are kept |
| SaCollector.CountValue | eBPF_Supermarket/Stack_Analyser/src/bpf_wapper/on_cpu.cpp:54-57 | the on-CPU, off-CPU and stack-count collectors read the stored u32 unchanged; the IO collector reads its mode's statistic |
| SaCollector.Items | eBPF_Supermarket/Stack_Analyser/src/bpf_wapper/eBPFStackCollector.cpp:75-77 | one item per key the batch returned, in that order, with the value count_value reads |
| SaCollector.ItemsFromMap | eBPF_Supermarket/Stack_Analyser/src/bpf_wapper/eBPFStackCollector.cpp:75-77 | every item read names a key of the count map and carries that key's value |
| SaCollector.LastNonZero | eBPF_Supermarket/Stack_Analyser/src/bpf_wapper/eBPFStackCollector.cpp:108-109 | the first loop stops at the last non-zero slot: that slot is non-zero and every later one is zero |
| SaCollector.TraceFrames | eBPF_Supermarket/Stack_Analyser/src/bpf_wapper/eBPFStackCollector.cpp:108-139 | the printed frames run from the last non-zero slot back to slot 0, one per slot, starting with a non-zero address |
| SaCollector.ResolveTrace | eBPF_Supermarket/Stack_Analyser/src/bpf_wapper/eBPFStackCollector.cpp:108-111 | the two loops over a trace produce exactly its frames in print order |
| SaCollector.ResolveOnce | eBPF_Supermarket/Stack_Analyser/src/bpf_wapper/eBPFStackCollector.cpp:105-107 | a positive stack id not yet in the table is looked up and resolved once; an id already there or not positive changes nothing |
| SaCollector.ResolveTraces | eBPF_Supermarket/Stack_Analyser/src/bpf_wapper/eBPFStackCollector.cpp:99-164 | the table holds the frames of exactly the positive user and kernel stack ids of the counts, and no id is looked up twice |
| SaCollector.InfoRows | eBPF_Supermarket/Stack_Analyser/src/bpf_wapper/eBPFStackCollector.cpp:203-208 | one row per pid the info batch returned, in that order, with its record |
| SaCollector.LoadRodata | eBPF_Supermarket/Stack_Analyser/include/bpf_wapper/eBPFStackCollector.h:101-112 | the loaded program traces user and kernel stacks as the collector's flags say and knows the collector's pid; every program but the on-CPU one also gets the target pid |
| SaCollector.LoadedProgramSkipsCollector | eBPF_Supermarket/Stack_Analyser/src/bpf_wapper/off_cpu.cpp:34-38 | with a negative target pid, the off-CPU program a collector loads never stamps the collector itself |
| SaCollector.DetachSkel | eBPF_Supermarket/Stack_Analyser/include/bpf_wapper/eBPFStackCollector.h:120-126 | a loaded skeleton ends detached; NULL or an unloaded skeleton is left alone |
| SaCollector.DetachIdempotent | eBPF_Supermarket/Stack_Analyser/include/bpf_wapper/eBPFStackCollector.h:120-126 | detaching twice is detaching once |
| SaCollector.FirstBadCpu | eBPF_Supermarket/Stack_Analyser/src/bpf_wapper/on_cpu.cpp:91-105 | the first online CPU whose perf event or link fails; every online CPU before it succeeded |
| SaCollector.OpenCpuEvents | eBPF_Supermarket/Stack_Analyser/src/bpf_wapper/on_cpu.cpp:85-106 | returns 0 exactly when no online CPU fails; each slot holds its descriptor and link for the online CPUs reached, and -1 and no link elsewhere |
| SaCollector.OpenFds | eBPF_Supermarket/Stack_Analyser/src/bpf_wapper/on_cpu.cpp:120-131 | the descriptors closed are exactly the non-negative slots: all of them when no slot is -1, none when every slot is negative |
| SaCollector.StackCollector.SetIoScale | eBPF_Supermarket/Stack_Analyser/src/bpf_wapper/io.cpp:37-45 | the mode becomes the one given and the Scale becomes its table entry |
| SaCollector.StackCollector.SetOnCpuScale | eBPF_Supermarket/Stack_Analyser/src/bpf_wapper/on_cpu.cpp:46-52 | the frequency becomes the one given and the Scale becomes OnCpuScale of it |
| SaCollector.StackCollector.SetProbeScale | eBPF_Supermarket/Stack_Analyser/src/bpf_wapper/probe.cpp:50-55 | the probe becomes the one given and its string is prefixed to the current type |
| SaCollector.StackCollector.Load | eBPF_Supermarket/Stack_Analyser/include/bpf_wapper/eBPFStackCollector.h:101-112 | a failed open leaves no skeleton and returns -1; a failed load keeps the loader's error, an opened skeleton and no object, and returns -1; success loads the skeleton with LoadRodata, records the object and returns 0 |
| SaCollector.StackCollector.DefaultAttach | eBPF_Supermarket/Stack_Analyser/include/bpf_wapper/eBPFStackCollector.h:114-118 | err is the attach result, and the collector returns 0 and is attached exactly when that result is 0, -1 otherwise |
| SaCollector.StackCollector.OffCpuAttach | eBPF_Supermarket/Stack_Analyser/src/bpf_wapper/off_cpu.cpp:40-50 | -1 and nothing attached when finish_task_switch is not found; otherwise 0 whether or not the kprobe link was created |
| SaCollector.StackCollector.ProbeAttach | eBPF_Supermarket/Stack_Analyser/src/bpf_wapper/probe.cpp:63-126 | the split probe string chooses the hook; kprobe, tracepoint and uprobe return 0 exactly when the link exists, USDT returns 0 unattached, and any other shape returns 0 after prefixing the probe to the type |
| SaCollector.StackCollector.OnCpuAttach | eBPF_Supermarket/Stack_Analyser/src/bpf_wapper/on_cpu.cpp:66-107 | a failed online-mask read or no possible CPU returns -1; otherwise both buffers have one slot per possible CPU and are filled as OpenCpuEvents says |
| SaCollector.StackCollector.OnCpuDetach | eBPF_Supermarket/Stack_Analyser/src/bpf_wapper/on_cpu.cpp:109-132 | the descriptors that are not -1 are closed in CPU order and both buffers are dropped, so a second detach closes nothing |
| SaCollector.StackCollector.DefaultDetach | eBPF_Supermarket/Stack_Analyser/include/bpf_wapper/eBPFStackCollector.h:120-126 | the skeleton becomes DetachSkel of what it was |
| SaCollector.StackCollector.Unload | eBPF_Supermarket/Stack_Analyser/include/bpf_wapper/eBPFStackCollector.h:128-135 | a skeleton is destroyed exactly when there is one, and none is left afterwards |
| SaCollector.StackCollector.SortedCountList | eBPF_Supermarket/Stack_Analyser/src/bpf_wapper/eBPFStackCollector.cpp:50-83 | EFAULT gives NULL; otherwise the result is a sorted permutation of the items of the map; with showDelta the map is emptied by the read |
| SaCollector.StackCollector.Render | eBPF_Supermarket/Stack_Analyser/src/bpf_wapper/eBPFStackCollector.cpp:85-214 | the header carries the Scale; a failed count batch ends the report; otherwise it holds the sorted counts, the frames of each positive stack id resolved once, and the info rows unless the info batch fails, which also withholds "OK"; showDelta empties both maps |
| ProbeString.Find | eBPF_Supermarket/Stack_Analyser/src/bpf_wapper/probe.cpp:41 | std::string::find of a character: -1 exactly when it is absent, otherwise its first position |
| ProbeString.SplitString | eBPF_Supermarket/Stack_Analyser/src/bpf_wapper/probe.cpp:36-49 | appends nothing for the empty string and otherwise the fields of the string between its separators |
| ProbeString.ChunksOfTerminated | eBPF_Supermarket/Stack_Analyser/src/bpf_wapper/probe.cpp:40-48 | consuming the string with a separator appended yields exactly its fields |
| ProbeString.FieldsCount | eBPF_Supermarket/Stack_Analyser/src/bpf_wapper/probe.cpp:36-49 | a non-empty string splits into one field more than it has separators |
| ProbeString.FieldsHaveNoSeparator | eBPF_Supermarket/Stack_Analyser/src/bpf_wapper/probe.cpp:36-49 | no field holds the separator |
| ProbeString.JoinFields | eBPF_Supermarket/Stack_Analyser/src/bpf_wapper/probe.cpp:36-49 | joining the fields with the separator gives back the string |
| ProbeString.Split | eBPF_Supermarket/Stack_Analyser/src/bpf_wapper/probe.cpp:36-49 | nothing for the empty string; otherwise one field more than there are separators, none holding the separator, joining back to the string |
| ProbeString.AtFirstColon | eBPF_Supermarket/Stack_Analyser/src/bpf_wapper/probe.cpp:97-100 | the library is the text before the first ':' and the function the text after it |
| ProbeString.Classify | eBPF_Supermarket/Stack_Analyser/src/bpf_wapper/probe.cpp:68-122 | one field or "p::f" is a kernel function, "t:c:n" a tracepoint, two fields or "p:lib:f" with a library a user function, "u:..:.." USDT, and anything else unsupported, each case exactly when its test holds |
| ProbeString.TargetOf | eBPF_Supermarket/Stack_Analyser/src/bpf_wapper/probe.cpp:68-122 | a probe string without ':' is a kernel function of that name, the empty string is unsupported, and a tracepoint comes only from "t:category:name" with neither part holding ':' |
| ProbeString.SplitFieldCount | eBPF_Supermarket/Stack_Analyser/src/bpf_wapper/probe.cpp:36-49 | a string without ':' is one field; two fields mean the string holds a ':' |
| ProbeString.ThreeFieldsJoin | eBPF_Supermarket/Stack_Analyser/src/bpf_wapper/probe.cpp:36-49 | three fields join back as first:second:third |
| ProbeString.UprobeNamesFields | eBPF_Supermarket/Stack_Analyser/src/bpf_wapper/probe.cpp:87-100 | a user-space probe names the library and function exactly as its fields do |
| ProbeString.EmptyLibraryIsKprobe | eBPF_Supermarket/Stack_Analyser/src/bpf_wapper/probe.cpp:68-73 | "p::f" probes the kernel function f, never a user one |
| SaCollector.StackCollector.OnCpuCollector | eBPF_Supermarket/Stack_Analyser/src/bpf_wapper/on_cpu.cpp:41-44 | a new on-CPU collector has the StackCollector defaults and the Scale of its initial frequency |
| SaCollector.StackCollector.OffCpuCollector | eBPF_Supermarket/Stack_Analyser/src/bpf_wapper/off_cpu.cpp:22-27 | a new off-CPU collector has the defaults and reports OffCPUTime in nanoseconds with period 2^20 |
| SaCollector.StackCollector.IoCollector | eBPF_Supermarket/Stack_Analyser/src/bpf_wapper/io.cpp:47-52 | a new IO collector traces user but not kernel stacks, in COUNT mode |
| SaCollector.StackCollector.ProbeCollector | eBPF_Supermarket/Stack_Analyser/src/bpf_wapper/probe.cpp:27-34 | a new stack-count collector reports StackCounts in Counts with period 1 |
| SaMain.NewEntry | eBPF_Supermarket/Stack_Analyser/src/main.cpp:84 | a collector created by its option traces kernel stacks off, and user stacks only when it is the IO collector |
| SaMain.Origin | eBPF_Supermarket/Stack_Analyser/src/main.cpp:82-159 | every collector kind is created by one of the collector options |
| SaMain.Modify | eBPF_Supermarket/Stack_Analyser/src/main.cpp:73-159 | a modifier option (-u, -k, -f, -i, -w, -M, -b) never changes which kind of collector it modifies |
| SaMain.TakesOnlyModifiers | eBPF_Supermarket/Stack_Analyser/src/main.cpp:73-159 | only modifiers belong to a collector; every collector but the IO one takes -u and -k, and the IO collector takes only its mode |
| SaMain.Register | eBPF_Supermarket/Stack_Analyser/src/main.cpp:73-159 | the registry has no more entries than there were tokens, is non-empty after any token, and ends with a fresh collector after a collector option |
| SaMain.Apply | eBPF_Supermarket/Stack_Analyser/src/main.cpp:73-159 | a collector option appends one fresh collector; a modifier changes only the last collector of the list and leaves the others as they were |
| SaMain.Origins | eBPF_Supermarket/Stack_Analyser/src/main.cpp:82-159 | one creating option per registry entry |
| SaMain.OriginsOfPrefixAndLast | eBPF_Supermarket/Stack_Analyser/src/main.cpp:73-159 | modifying the last collector keeps the list of creating options |
| SaMain.RegistryFollowsOptions | eBPF_Supermarket/Stack_Analyser/src/main.cpp:73-159 | after parsing, the collector list holds one collector per collector option, in command-line order |
| SaMain.Survivors | eBPF_Supermarket/Stack_Analyser/src/main.cpp:255-268 | the load phase never adds collectors |
| SaMain.SurvivorsAreLoaded | eBPF_Supermarket/Stack_Analyser/src/main.cpp:255-268 | a collector stays in the list exactly when it was in it and its load returned 0 |
| SaMain.SurvivorsKeepOrder | eBPF_Supermarket/Stack_Analyser/src/main.cpp:255-268 | erasing the failed collectors keeps the others in their registry order |
| SaMain.LoadStepUnfolds | eBPF_Supermarket/Stack_Analyser/src/main.cpp:255-268 | the load log and the survivors after k+1 collectors are those after k plus the step of collector k |
| SaMain.LoadStepUnloadsIff | eBPF_Supermarket/Stack_Analyser/src/main.cpp:257-266 | each collector has its pid set and is loaded, and is unloaded exactly when its load failed |
| SaMain.LoadLoop | eBPF_Supermarket/Stack_Analyser/src/main.cpp:255-268 | the iterator loop, erasing failed entries in place, leaves exactly the survivors and does for each collector: set pid, load, and unload when the load fails |
| SaMain.RoundLoop | eBPF_Supermarket/Stack_Analyser/src/main.cpp:306-312 | the inner loop gives each collector in list order its attach, sleep, detach and render |
| SaMain.RoundShape | eBPF_Supermarket/Stack_Analyser/src/main.cpp:306-312 | a round is four events per collector, the i-th four being collector i's turn |
| SaMain.TurnTouchesOnlyItsCollector | eBPF_Supermarket/Stack_Analyser/src/main.cpp:307-311 | a turn attaches the collector, sleeps the delay, detaches and renders it, and involves no other collector |
| SaMain.AttachIsFollowedByDetach | eBPF_Supermarket/Stack_Analyser/src/main.cpp:306-312 | every attach in a round is followed by the sleep and then the detach of the same collector: only one collector is attached at a time |
| SaMain.EndLogRendersIff | eBPF_Supermarket/Stack_Analyser/src/main.cpp:46-57 | the finaliser renders only when run time is left, then renders every collector; every collector is detached and unloaded |
| SaMain.EndLog | eBPF_Supermarket/Stack_Analyser/src/main.cpp:46-57 | the finaliser does three things per collector while run time is left (render, detach, unload) and two once it is used up |
| SaMain.Range | eBPF_Supermarket/Stack_Analyser/src/main.cpp:44 | the registry positions 0..n-1 in order |
| SaMain.Driver.constructor | eBPF_Supermarket/Stack_Analyser/src/main.cpp:34-42 | the driver starts from the parsed collector list and configuration, with every collector in the list and nothing done yet |
| SaMain.Driver.LoadAll | eBPF_Supermarket/Stack_Analyser/src/main.cpp:255-268 | the list is reduced to the collectors whose load returned 0, and the log grows by the load phase's events |
| SaMain.Driver.SampleLoop | eBPF_Supermarket/Stack_Analyser/src/main.cpp:296-313 | the loop runs while run time is left and the target is alive, the run time falls by the delay once per iteration; a poll error or POLLERR stops it with the iterations done so far plus the failed poll |
| SaMain.Driver.EndCollect | eBPF_Supermarket/Stack_Analyser/src/main.cpp:46-62 | endCollect adds the finaliser's events: render while run time is left, detach and unload each collector, then SIGTERM to a spawned child |
| SaMain.Driver.Collect | eBPF_Supermarket/Stack_Analyser/src/main.cpp:276-313 | after the load phase the program returns 0 or -1, -1 when the trigger cannot be opened or written, 0 without a trigger; it loads nothing more, attaches only listed collectors and kills only the spawned child |
| SaMain.Driver.Run | eBPF_Supermarket/Stack_Analyser/src/main.cpp:218-313 | no collector: -1 and nothing done; the child is woken only after every load; only collectors whose load returned 0 are attached; only the spawned child is killed; no survivor: -1 with no attach, kill or wake-up |
| SaMain.AfterLoadAppend | eBPF_Supermarket/Stack_Analyser/src/main.cpp:276-313 | the after-load discipline holds for a concatenation of event logs that keep it |
| SaMain.CollectTail | eBPF_Supermarket/Stack_Analyser/src/main.cpp:276-313 | wake-up, sampling and finaliser together keep the after-load discipline |
| SaMain.AfterLoadEvents | eBPF_Supermarket/Stack_Analyser/src/main.cpp:276-313 | every event of a log that keeps the after-load discipline keeps it |
| SaMain.IterationsAfterLoad | eBPF_Supermarket/Stack_Analyser/src/main.cpp:296-313 | the sampling loop keeps the after-load discipline |
| SaMain.EndLogAfterLoad | eBPF_Supermarket/Stack_Analyser/src/main.cpp:46-62 | the finaliser keeps the after-load discipline |
| SaMain.LoadPhaseEvents | eBPF_Supermarket/Stack_Analyser/src/main.cpp:229-268 | nothing before the wake-up attaches, kills or wakes the child |
| SaMain.SurvivorsLoaded | eBPF_Supermarket/Stack_Analyser/src/main.cpp:255-270 | every collector left after loading is a registry position whose load returned 0 |
| SaMain.MainEvents | eBPF_Supermarket/Stack_Analyser/src/main.cpp:255-313 | in the whole log, loads come before the wake-up, attaches are of loaded collectors, kills are of the spawned child |
| SaMain.LoadLogEvents | eBPF_Supermarket/Stack_Analyser/src/main.cpp:255-268 | the load loop only sets pids, loads and unloads listed collectors |
| SaMain.RoundEvents | eBPF_Supermarket/Stack_Analyser/src/main.cpp:306-312 | a round only attaches, sleeps, detaches and renders listed collectors |
| SaMain.IterationsEvents | eBPF_Supermarket/Stack_Analyser/src/main.cpp:296-313 | the sampling loop only polls, reports triggers, attaches, sleeps, detaches and renders, and attaches only listed collectors |
| SaMain.EndLogEvents | eBPF_Supermarket/Stack_Analyser/src/main.cpp:46-57 | the finaliser only renders, detaches and unloads listed collectors |
| SaMain.WakeAfterLoads | eBPF_Supermarket/Stack_Analyser/src/main.cpp:255-280 | a wake-up in a log part after all loads sits after every load |
| ScheduleDelayBpf.KeyOf | eBPF_Supermarket/CPU_Subsystem/cpu_watcher/schedule_delay.bpf.c:20-25 | the map key holds the pid, and the CPU only for the idle task (pid 0); otherwise the CPU field stays 0 |
| ScheduleDelayBpf.KeyIgnoresCpuOfUserTasks | eBPF_Supermarket/CPU_Subsystem/cpu_watcher/schedule_delay.bpf.c:20-25 | two non-idle tasks share a key exactly when their pids agree, whatever CPU they run on |
| ScheduleDelayBpf.MarkRunnable | eBPF_Supermarket/CPU_Subsystem/cpu_watcher/schedule_delay.bpf.c:26-37 | a task with an event only has its enter time refreshed; a task without one gets count 1, enter time now and has_scheduled=false, each insert taking effect when its map has room; the summary is untouched |
| ScheduleDelayBpf.Wakeup | eBPF_Supermarket/CPU_Subsystem/cpu_watcher/schedule_delay.bpf.c:15-39 | sched_wakeup marks the woken task runnable under its key |
| ScheduleDelayBpf.WakeupNew | eBPF_Supermarket/CPU_Subsystem/cpu_watcher/schedule_delay.bpf.c:41-59 | sched_wakeup_new overwrites both entries of the new task (count 1, stamped now, not yet scheduled) when the maps have room, and leaves the summary alone |
| ScheduleDelayBpf.Summarize | eBPF_Supermarket/CPU_Subsystem/cpu_watcher/schedule_delay.bpf.c:119-126 | the summary counts one more switch, adds the delay modulo 2^64, keeps the larger maximum and takes the delay as minimum when the minimum is 0 or larger; the delay lies between the new minimum and maximum |
| ScheduleDelayBpf.SummarizeAll | eBPF_Supermarket/CPU_Subsystem/cpu_watcher/schedule_delay.bpf.c:119-126 | after a run of delays the maximum has not fallen and bounds every delay of the run, and the minimum is at most the last delay |
| ScheduleDelayBpf.FreshIsUpdateOfZero | eBPF_Supermarket/CPU_Subsystem/cpu_watcher/schedule_delay.bpf.c:109-126 | the branch for a missing summary slot builds the same summary as updating a zeroed one |
| ScheduleDelayBpf.Record | eBPF_Supermarket/CPU_Subsystem/cpu_watcher/schedule_delay.bpf.c:109-126 | after a switch slot 0 holds the updated summary (starting from zero when missing) and every other slot is unchanged |
| ScheduleDelayBpf.Switch | eBPF_Supermarket/CPU_Subsystem/cpu_watcher/schedule_delay.bpf.c:61-128 | a still-running prev is marked runnable; a next task lacking either entry leaves the maps as they are; otherwise has_scheduled becomes true, the count grows only on a repeated switch, and the delay since the enter time (wrapping) goes into the summary |
| ScheduleDelayBpf.Exit | eBPF_Supermarket/CPU_Subsystem/cpu_watcher/schedule_delay.bpf.c:130-150 | both entries of the exiting task are removed and nothing else changes |
| ScheduleDelayBpf.FirstSwitchDoesNotCount | eBPF_Supermarket/CPU_Subsystem/cpu_watcher/schedule_delay.bpf.c:99-107 | after a wakeup the first switch to the task leaves its count at 1 and sets has_scheduled; the second switch makes it 2 |
| ScheduleDelayBpf.SummaryCountsAndSums | eBPF_Supermarket/CPU_Subsystem/cpu_watcher/schedule_delay.bpf.c:119-126 | from a zeroed summary, the count is the number of recorded delays and the sum their total, both modulo 2^64 |
| ScheduleDelayBpf.SummaryMaximum | eBPF_Supermarket/CPU_Subsystem/cpu_watcher/schedule_delay.bpf.c:122-123 | from a zeroed summary, the maximum is the largest recorded delay |
| ScheduleDelayBpf.SummaryMinimum | eBPF_Supermarket/CPU_Subsystem/cpu_watcher/schedule_delay.bpf.c:124-125 | from a zeroed summary, a run of non-zero delays leaves their smallest as the minimum |
| ScheduleDelayBpf.ZeroDelayResetsMinimum | eBPF_Supermarket/CPU_Subsystem/cpu_watcher/schedule_delay.bpf.c:124-125 | whatever came before, a zero delay leaves the minimum 0 ("none yet"), and the next delay becomes the minimum even when it is larger |
| ScheduleDelayBpf.ScheduleDelayProgram.constructor | eBPF_Supermarket/CPU_Subsystem/cpu_watcher/schedule_delay.bpf.c:10-12 | the hash maps start empty and the one-slot array holds a zeroed summary |
| ScheduleDelayBpf.ScheduleDelayProgram.Runnable | eBPF_Supermarket/CPU_Subsystem/cpu_watcher/schedule_delay.bpf.c:26-37 | the maps become MarkRunnable of the old maps |
| ScheduleDelayBpf.ScheduleDelayProgram.SchedWakeup | eBPF_Supermarket/CPU_Subsystem/cpu_watcher/schedule_delay.bpf.c:15-39 | returns 0 and the maps become Wakeup of the old maps |
| ScheduleDelayBpf.ScheduleDelayProgram.SchedWakeupNew | eBPF_Supermarket/CPU_Subsystem/cpu_watcher/schedule_delay.bpf.c:41-59 | returns 0 and the maps become WakeupNew of the old maps |
| ScheduleDelayBpf.ScheduleDelayProgram.SchedSwitch | eBPF_Supermarket/CPU_Subsystem/cpu_watcher/schedule_delay.bpf.c:61-128 | returns 0 and the maps become Switch of the old maps |
| ScheduleDelayBpf.ScheduleDelayProgram.RecordDelay | eBPF_Supermarket/CPU_Subsystem/cpu_watcher/schedule_delay.bpf.c:109-126 | the summary map becomes Record of the old one |
| ScheduleDelayBpf.ScheduleDelayProgram.SchedProcessExit | eBPF_Supermarket/CPU_Subsystem/cpu_watcher/schedule_delay.bpf.c:130-150 | returns 0 and the maps become Exit of the old maps |
| PreemptBpf.SchedSwitch | eBPF_Supermarket/CPU_Subsystem/cpu_watcher/preempt.bpf.c:19-34 | a preempting switch stamps prev with the current time, replacing an earlier stamp, when the map has room; a non-preempting switch changes nothing; nothing is submitted |
| PreemptBpf.FinishTaskSwitch | eBPF_Supermarket/CPU_Subsystem/cpu_watcher/preempt.bpf.c:36-57 | with a stamp for prev and room in the ring buffer, one event (prev pid, current tgid, time since the stamp, command) is submitted and the stamp removed; otherwise nothing changes |
| PreemptBpf.PreemptionPairs | eBPF_Supermarket/CPU_Subsystem/cpu_watcher/preempt.bpf.c:19-57 | a task preempted at t0 whose switch completes at t1 yields exactly one event of duration t1-t0 and no stamp remains; a second completion emits nothing |
| PreemptBpf.FailedReserveKeepsStamp | eBPF_Supermarket/CPU_Subsystem/cpu_watcher/preempt.bpf.c:44-47 | when the ring buffer is full the stamp stays, so a later completion reports the whole time since the preemption |
| PreemptBpf.PreemptProgram.constructor | eBPF_Supermarket/CPU_Subsystem/cpu_watcher/preempt.bpf.c:12-17 | the map and the ring buffer start empty |
| PreemptBpf.PreemptProgram.OnSchedSwitch | eBPF_Supermarket/CPU_Subsystem/cpu_watcher/preempt.bpf.c:19-34 | returns 0 and the state becomes SchedSwitch of the old state |
| PreemptBpf.PreemptProgram.OnFinishTaskSwitch | eBPF_Supermarket/CPU_Subsystem/cpu_watcher/preempt.bpf.c:36-57 | returns 0 and the state becomes FinishTaskSwitch of the old state |
| CpuWatcher.ToI32 | eBPF_Supermarket/CPU_Subsystem/cpu_watcher/cpu_watcher.c:359 | a C conversion to int lands in the 32-bit signed range and keeps the value modulo 2^32 |
| CpuWatcher.TruncDiv | eBPF_Supermarket/CPU_Subsystem/cpu_watcher/cpu_watcher.c:742 | C's division: its magnitude is the floor quotient of the magnitudes, its sign is the product of the signs, it agrees with floor division on non-negative operands, and the remainder makes up the difference |
| CpuWatcher.TruncRem | eBPF_Supermarket/CPU_Subsystem/cpu_watcher/cpu_watcher.c:742 | C's remainder: smaller than the divisor in magnitude, with the sign of the dividend |
| CpuWatcher.TruncDivUnique | eBPF_Supermarket/CPU_Subsystem/cpu_watcher/cpu_watcher.c:742 | the truncating quotient and remainder are the only pair that rebuilds the dividend with a remainder of the dividend's sign below the divisor |
| CpuWatcher.Pow | eBPF_Supermarket/CPU_Subsystem/cpu_watcher/cpu_watcher.c:383-391 | the program's pow is n^k for k >= 0 and the reciprocal of n^-k for k < 0 |
| CpuWatcher.Log2 | eBPF_Supermarket/CPU_Subsystem/cpu_watcher/cpu_watcher.c:359-363 | the halving loop stops at the exponent i with 2^i <= delay < 2^(i+1), and at 0 for delays up to 1 |
| CpuWatcher.Log2Unique | eBPF_Supermarket/CPU_Subsystem/cpu_watcher/cpu_watcher.c:359-364 | a delay in [2^i, 2^(i+1)) is counted in bucket i and no other |
| CpuWatcher.BucketInRange | eBPF_Supermarket/CPU_Subsystem/cpu_watcher/cpu_watcher.c:353-364 | a delay below 2^25 falls in one of the 25 buckets |
| CpuWatcher.RowLabelsMatchBuckets | eBPF_Supermarket/CPU_Subsystem/cpu_watcher/cpu_watcher.c:417-425 | the labels printed for row i (0 to 1, then 2^i to 2^(i+1)-1) hold exactly the delays counted in bucket i |
| CpuWatcher.DecimalExponent | eBPF_Supermarket/CPU_Subsystem/cpu_watcher/cpu_watcher.c:396-400 | the division-by-ten loop stops at the d with 10^d <= count < 10^(d+1), and at 0 below 10 |
| CpuWatcher.CountWithExponent | eBPF_Supermarket/CPU_Subsystem/cpu_watcher/cpu_watcher.c:395-402 | a tally of decimal exponents never exceeds the number of counts |
| CpuWatcher.Tally | eBPF_Supermarket/CPU_Subsystem/cpu_watcher/cpu_watcher.c:394-402 | the table of fifteen tallies, entry d counting the values whose decimal exponent is d |
| CpuWatcher.ScanMax | eBPF_Supermarket/CPU_Subsystem/cpu_watcher/cpu_watcher.c:404-407 | the scan named "maximum" yields 0 or an index of log10 |
| CpuWatcher.Stars | eBPF_Supermarket/CPU_Subsystem/cpu_watcher/cpu_watcher.c:367-382 | a bucket of count c at scale p gets the largest number of stars s with s * p <= c, and none for a negative count |
| CpuWatcher.FirstFailure | eBPF_Supermarket/CPU_Subsystem/cpu_watcher/cpu_watcher.c:225-336 | every lookup before the first failed one succeeded |
| CpuWatcher.FirstFailureIs | eBPF_Supermarket/CPU_Subsystem/cpu_watcher/cpu_watcher.c:225-336 | k successful lookups followed by a failed one make k the first failure |
| CpuWatcher.Deltas | eBPF_Supermarket/CPU_Subsystem/cpu_watcher/cpu_watcher.c:237-333 | one difference per counter |
| CpuWatcher.DeltasAddUp | eBPF_Supermarket/CPU_Subsystem/cpu_watcher/cpu_watcher.c:237-333 | adding each reported difference to the old total gives the new total, modulo 2^64 |
| CpuWatcher.ReadCounters | eBPF_Supermarket/CPU_Subsystem/cpu_watcher/cpu_watcher.c:225-336 | print_all's lookups stop at the first failure; each counter read gets its new total and the others keep theirs; after a full read the differences are those of the totals |
| CpuWatcher.DeltaIsGrowth | eBPF_Supermarket/CPU_Subsystem/cpu_watcher/cpu_watcher.c:237-333 | a counter that did not wrap reports exactly its growth |
| CpuWatcher.CpuWatcherState.constructor | eBPF_Supermarket/CPU_Subsystem/cpu_watcher/cpu_watcher.c:81-98 | the buckets and all totals start at 0, the first report is suppressed, the preemption accumulators are 0 |
| CpuWatcher.CpuWatcherState.HandleEvent | eBPF_Supermarket/CPU_Subsystem/cpu_watcher/cpu_watcher.c:354-366 | handle_event adds one to the bucket of log2 of the delay cast to int, and to no other bucket |
| CpuWatcher.CpuWatcherState.PrintHstgram | eBPF_Supermarket/CPU_Subsystem/cpu_watcher/cpu_watcher.c:367-382 | one star per per_len events of the bucket (one per event when per_len is 1), returning per_len |
| CpuWatcher.CpuWatcherState.TallyExponents | eBPF_Supermarket/CPU_Subsystem/cpu_watcher/cpu_watcher.c:394-402 | log10 is the tally of the decimal exponents of the first ten buckets |
| CpuWatcher.CpuWatcherState.Histogram | eBPF_Supermarket/CPU_Subsystem/cpu_watcher/cpu_watcher.c:392-427 | the star scale is 10 to the power of the scan's index over the tally of the first ten buckets, a power of ten below 10^10; twenty rows are printed, each with its bucket's count, its stars at that scale and its delay range |
| CpuWatcher.CpuWatcherState.PrintRows | eBPF_Supermarket/CPU_Subsystem/cpu_watcher/cpu_watcher.c:417-425 | the twenty rows carry the buckets' counts, their stars and their delay ranges |
| CpuWatcher.CpuWatcherState.SetTotals | eBPF_Supermarket/CPU_Subsystem/cpu_watcher/cpu_watcher.c:225-336 | the stored totals become the given ones |
| CpuWatcher.CpuWatcherState.PrintAll | eBPF_Supermarket/CPU_Subsystem/cpu_watcher/cpu_watcher.c:225-351 | every counter read stores its new total; a failed lookup returns -1 and reports nothing; the first full read only enables reporting, later ones report each counter's growth |
| CpuWatcher.CpuWatcherState.PreemptPrint | eBPF_Supermarket/CPU_Subsystem/cpu_watcher/cpu_watcher.c:446-453 | one more preemption counted, its duration added to the int total with 32-bit wrap-around, nothing else changes |
| CpuWatcher.CpuWatcherState.PreemptWindow | eBPF_Supermarket/CPU_Subsystem/cpu_watcher/cpu_watcher.c:738-747 | the first window prints no average, later ones the truncating quotient of total by count; both accumulators restart at 0 |
| CpuWatcher.AverageDelay | eBPF_Supermarket/CPU_Subsystem/cpu_watcher/cpu_watcher.c:472 | the average delay is the floor of the sum over the count |
| CpuWatcher.SumWithinExtremes | eBPF_Supermarket/CPU_Subsystem/cpu_watcher/cpu_watcher.c:472 | n delays sum to between n times the smallest and n times the largest |
| CpuWatcher.AverageWithinExtremes | eBPF_Supermarket/CPU_Subsystem/cpu_watcher/cpu_watcher.c:467-474 | without wrap-around, the average of a run of positive recorded delays lies between the minimum and the maximum the kernel side kept |
| MemleakBpf.AllocEnter | eBPF_Supermarket/Memory_Subsystem/applications/mem_watcher/memleak.bpf.c:61-67 | the size requested by the process replaces any earlier one when the sizes map has room; the other maps are untouched |
| MemleakBpf.AllocExit | eBPF_Supermarket/Memory_Subsystem/applications/mem_watcher/memleak.bpf.c:69-104 | without a recorded size nothing changes; otherwise the size is consumed, and a non-NULL address is recorded with its size and stack (room permitting) while its stack's totals grow by the size and one allocation, or start at them (insert only when absent and room is left) |
| MemleakBpf.FreeEnter | eBPF_Supermarket/Memory_Subsystem/applications/mem_watcher/memleak.bpf.c:110-133 | a free of an unrecorded address, or of one whose stack has no totals, changes nothing; otherwise the stack's totals shrink by the allocation and the address is forgotten |
| MemleakBpf.AllocThenFree | eBPF_Supermarket/Memory_Subsystem/applications/mem_watcher/memleak.bpf.c:61-133 | a malloc at a fresh address followed by its free restores sizes and allocs, and the stack's totals too when it had some; a first-seen stack is left with zero totals |
| MemleakBpf.AllocRecords | eBPF_Supermarket/Memory_Subsystem/applications/mem_watcher/memleak.bpf.c:61-104 | a successful malloc moves the size to its address and adds it to its stack's totals |
| MemleakBpf.FreeAfterAlloc | eBPF_Supermarket/Memory_Subsystem/applications/mem_watcher/memleak.bpf.c:110-133 | the free of a recorded allocation takes exactly its contribution off its stack's totals |
| MemleakBpf.FailedMallocRecordsNothing | eBPF_Supermarket/Memory_Subsystem/applications/mem_watcher/memleak.bpf.c:82-84 | a malloc returning NULL leaves the maps as before its entry |
| MemleakBpf.MemleakProgram.constructor | eBPF_Supermarket/Memory_Subsystem/applications/mem_watcher/memleak.bpf.c:28-50 | the three maps start empty |
| MemleakBpf.MemleakProgram.GenAllocEnter | eBPF_Supermarket/Memory_Subsystem/applications/mem_watcher/memleak.bpf.c:135-138 | returns 0 and the maps become AllocEnter of the old maps |
| MemleakBpf.MemleakProgram.GenAllocExit2 | eBPF_Supermarket/Memory_Subsystem/applications/mem_watcher/memleak.bpf.c:140-143 | returns 0 and the maps become AllocExit of the old maps |
| MemleakBpf.MemleakProgram.GenFreeEnter | eBPF_Supermarket/Memory_Subsystem/applications/mem_watcher/memleak.bpf.c:145-148 | returns 0 and the maps become FreeEnter of the old maps |
| IonMonitorBpf.Bucket | eBPF_Supermarket/mem_watcher/page_fault/ion/ion_monitor.bpf.c:47-49 | the bucket is the elapsed time in 10 ms units, clamped to the last of six buckets; the quotient is narrowed to 32 bits before the clamp |
| IonMonitorBpf.BucketMonotone | eBPF_Supermarket/mem_watcher/page_fault/ion/ion_monitor.bpf.c:47-49 | within 2^32 buckets' worth, a longer wait never lands in an earlier bucket |
| IonMonitorBpf.TruncatedWaitLandsInFirstBucket | eBPF_Supermarket/mem_watcher/page_fault/ion/ion_monitor.bpf.c:47 | a wait of exactly 2^32 bucket widths wraps to bucket 0 |
| IonMonitorBpf.Prog1 | eBPF_Supermarket/mem_watcher/page_fault/ion/ion_monitor.bpf.c:24-33 | ion_alloc stamps the process with the current time, replacing any earlier stamp, when the map has room; the counts are untouched |
| IonMonitorBpf.Prog2 | eBPF_Supermarket/mem_watcher/page_fault/ion/ion_monitor.bpf.c:35-61 | an ioctl without a stamp returns -1 and changes nothing; otherwise the stamp is removed and the count of the wait's bucket goes up by one, or starts at 1 when the map has room, and it returns 0 |
| IonMonitorBpf.ProgramsKeepBuckets | eBPF_Supermarket/mem_watcher/page_fault/ion/ion_monitor.bpf.c:24-61 | both programs keep count_map's keys among the six buckets |
| IonMonitorBpf.IonMonitorProgram.constructor | eBPF_Supermarket/mem_watcher/page_fault/ion/ion_monitor.bpf.c:10-22 | both maps start empty |
| IonMonitorBpf.IonMonitorProgram.BpfProg1 | eBPF_Supermarket/mem_watcher/page_fault/ion/ion_monitor.bpf.c:24-33 | returns 0 and the maps become Prog1 of the old maps |
| IonMonitorBpf.IonMonitorProgram.BpfProg2 | eBPF_Supermarket/mem_watcher/page_fault/ion/ion_monitor.bpf.c:35-61 | the maps and the return value are Prog2 of the old maps |
| NetwatcherBpf.LookupOrTryInit | eBPF_Supermarket/Network_Subsystem/net_watcher/netwatcher.bpf.c:67-82 | a present key yields its entry and changes nothing; an absent key is inserted with the initial value and yields it when the map has room, and otherwise yields NULL |
| NetwatcherBpf.LookupOrTryInitStable | eBPF_Supermarket/Network_Subsystem/net_watcher/netwatcher.bpf.c:67-82 | a second lookup-or-init of the same key finds the entry the first produced and changes nothing |
| NetwatcherBpf.NewConn | eBPF_Supermarket/Network_Subsystem/net_watcher/netwatcher.bpf.c:207-251 | a new connection record holds the socket, thread and pid (high half of pid_tgid), ports, family and start time in microseconds, and the IPv4 or IPv6 addresses according to the family (zeros otherwise) |
| NetwatcherBpf.PassesFilters | eBPF_Supermarket/Network_Subsystem/net_watcher/netwatcher.bpf.c:175-187 | a zero filter lets every port through; a non-zero destination or source filter lets only its own port through; a connection on both filtered ports passes |
| NetwatcherBpf.RecordConn | eBPF_Supermarket/Network_Subsystem/net_watcher/netwatcher.bpf.c:175-251 | a TCP socket whose ports pass the filters (a zero filter passes all) gets its record in conns_info; anything else changes nothing |
| NetwatcherBpf.AcceptExit | eBPF_Supermarket/Network_Subsystem/net_watcher/netwatcher.bpf.c:405-432 | a NULL accepted socket changes nothing; otherwise it is recorded as the server side |
| NetwatcherBpf.ConnectEnter | eBPF_Supermarket/Network_Subsystem/net_watcher/netwatcher.bpf.c:440-451 | the connecting thread's socket is remembered, replacing an earlier one; nothing else changes |
| NetwatcherBpf.ConnectExit | eBPF_Supermarket/Network_Subsystem/net_watcher/netwatcher.bpf.c:453-483 | a thread with no remembered socket changes nothing; a failed connect forgets the socket; a successful one records it as the client side and keeps it remembered |
| NetwatcherBpf.SetState | eBPF_Supermarket/Network_Subsystem/net_watcher/netwatcher.bpf.c:533-546 | without all_conn, closing a recorded socket forgets its record and its thread's remembered socket; anything else changes nothing |
| NetwatcherBpf.ConnectThenCloseForgets | eBPF_Supermarket/Network_Subsystem/net_watcher/netwatcher.bpf.c:440-546 | a thread with no earlier connection that connects and then closes leaves no record and no remembered socket behind |
| NetwatcherBpf.FailedConnectForgets | eBPF_Supermarket/Network_Subsystem/net_watcher/netwatcher.bpf.c:440-483 | a failed connect leaves no trace of the attempt |
| NetwatcherBpf.EnterRecovery | eBPF_Supermarket/Network_Subsystem/net_watcher/netwatcher.bpf.c:1238-1252 | with retrans_info on, a recorded connection counts one more fast retransmission and nothing else changes; otherwise nothing changes |
| NetwatcherBpf.EnterLoss | eBPF_Supermarket/Network_Subsystem/net_watcher/netwatcher.bpf.c:1259-1270 | with retrans_info on, a recorded connection counts one more timeout and nothing else changes; otherwise nothing changes |
| NetwatcherBpf.RetransCountersCommute | eBPF_Supermarket/Network_Subsystem/net_watcher/netwatcher.bpf.c:1238-1270 | recovery and loss counting commute |
| NetwatcherBpf.TcpTuple | eBPF_Supermarket/Network_Subsystem/net_watcher/netwatcher.bpf.c:351-367 | an IPv4 TCP tuple holds the addresses, ports and sequence numbers of its headers and is flagged TCP; the IPv6 fields are kept |
| NetwatcherBpf.UdpTuple | eBPF_Supermarket/Network_Subsystem/net_watcher/netwatcher.bpf.c:369-381 | an IPv4 UDP tuple holds the addresses and ports, zero sequence numbers, and is flagged UDP |
| NetwatcherBpf.TcpTupleV6 | eBPF_Supermarket/Network_Subsystem/net_watcher/netwatcher.bpf.c:383-399 | an IPv6 TCP tuple holds the IPv6 addresses, ports and sequence numbers and is flagged TCP; the IPv4 fields are kept |
| NetwatcherBpf.TcpAndUdpTuplesDiffer | eBPF_Supermarket/Network_Subsystem/net_watcher/netwatcher.bpf.c:351-399 | a TCP tuple and a UDP tuple are never the same key |
| NetwatcherBpf.SeqAcceptable | eBPF_Supermarket/Network_Subsystem/net_watcher/netwatcher.bpf.c:884-891 | with the window forced to 0 a segment passes exactly when it starts at or before rcv_nxt and ends at or after rcv_wup |
| NetwatcherBpf.WrappedSegmentRejected | eBPF_Supermarket/Network_Subsystem/net_watcher/netwatcher.bpf.c:887 | the plain comparison rejects the next in-order segment once it wraps past 2^32 |
| NetwatcherBpf.ValidateIncoming | eBPF_Supermarket/Network_Subsystem/net_watcher/netwatcher.bpf.c:863-919 | only with err_packet on, for a recorded socket and a present buffer that fails the test, an IPv4 or IPv6 socket and room in the ring buffer, one error packet with err 1, the socket and the segment's sequence numbers is submitted; the connection tables never change |
| NetwatcherBpf.NetwatcherProgram.constructor | eBPF_Supermarket/Network_Subsystem/net_watcher/netwatcher.bpf.c:122-135 | the tables and the ring buffer start empty |
| NetwatcherBpf.NetwatcherProgram.Record | eBPF_Supermarket/Network_Subsystem/net_watcher/netwatcher.bpf.c:207-251 | the state becomes RecordConn of the old state |
| NetwatcherBpf.NetwatcherProgram.InetCskAcceptExit | eBPF_Supermarket/Network_Subsystem/net_watcher/netwatcher.bpf.c:405-432 | returns 0 and the state becomes AcceptExit of the old state |
| NetwatcherBpf.NetwatcherProgram.TcpV4Connect | eBPF_Supermarket/Network_Subsystem/net_watcher/netwatcher.bpf.c:440-451 | returns 0 and the state becomes ConnectEnter of the old state |
| NetwatcherBpf.NetwatcherProgram.TcpV4ConnectExit | eBPF_Supermarket/Network_Subsystem/net_watcher/netwatcher.bpf.c:453-483 | returns 0 and the state becomes ConnectExit of the old state |
| NetwatcherBpf.NetwatcherProgram.TcpV6Connect | eBPF_Supermarket/Network_Subsystem/net_watcher/netwatcher.bpf.c:485-494 | returns 0 and the state becomes ConnectEnter of the old state |
| NetwatcherBpf.NetwatcherProgram.TcpV6ConnectExit | eBPF_Supermarket/Network_Subsystem/net_watcher/netwatcher.bpf.c:496-526 | returns 0 and the state becomes ConnectExit of the old state |
| NetwatcherBpf.NetwatcherProgram.TcpSetState | eBPF_Supermarket/Network_Subsystem/net_watcher/netwatcher.bpf.c:533-546 | returns 0 and the state becomes SetState of the old state |
| NetwatcherBpf.NetwatcherProgram.TcpEnterRecovery | eBPF_Supermarket/Network_Subsystem/net_watcher/netwatcher.bpf.c:1238-1252 | returns 0 and the state becomes EnterRecovery of the old state |
| NetwatcherBpf.NetwatcherProgram.TcpEnterLoss | eBPF_Supermarket/Network_Subsystem/net_watcher/netwatcher.bpf.c:1259-1270 | returns 0 and the state becomes EnterLoss of the old state |
| NetwatcherBpf.NetwatcherProgram.TcpValidateIncoming | eBPF_Supermarket/Network_Subsystem/net_watcher/netwatcher.bpf.c:863-919 | returns 0 and the state becomes ValidateIncoming of the old state |
| Netwatcher.EntryOf | eBPF_Supermarket/Network_Subsystem/net_watcher/netwatcher.c:150-154 | a stored symbol keeps the scanned address and at most the first 30 characters of the name, all of it when it fits |
| Netwatcher.Matched | eBPF_Supermarket/Network_Subsystem/net_watcher/netwatcher.c:148-157 | readallsym never stores more entries than lines |
| Netwatcher.MatchedCount | eBPF_Supermarket/Network_Subsystem/net_watcher/netwatcher.c:151-156 | exactly the lines for which sscanf matched all three fields are stored |
| Netwatcher.MatchedGrows | eBPF_Supermarket/Network_Subsystem/net_watcher/netwatcher.c:148-157 | reading more lines never stores fewer entries |
| Netwatcher.MatchedPrefix | eBPF_Supermarket/Network_Subsystem/net_watcher/netwatcher.c:148-157 | each further line adds its entry when all three fields matched, and nothing otherwise |
| Netwatcher.LastBelow | eBPF_Supermarket/Network_Subsystem/net_watcher/netwatcher.c:123-139 | the reference answer of the search: the last index whose address is below the sought one, every later entry being at or above it, or -1 |
| Netwatcher.LastBelowUnique | eBPF_Supermarket/Network_Subsystem/net_watcher/netwatcher.c:123-139 | only one index has those properties |
| Netwatcher.SortedBelow | eBPF_Supermarket/Network_Subsystem/net_watcher/netwatcher.c:123-139 | on a sorted table every entry up to the found one starts below the address |
| Netwatcher.LookupDefinedIffFirstBelow | eBPF_Supermarket/Network_Subsystem/net_watcher/netwatcher.c:126-138 | on a sorted table the search finds a symbol exactly when the first symbol starts below the address |
| SymbolSearch.SearchKeepsBelow | eBPF_Supermarket/Network_Subsystem/net_watcher/netwatcher.c:125-138 | whatever the order of the table, the search ends on the index it kept or on one in the part still to search whose address is below the sought one |
| SymbolSearch.SearchStep | eBPF_Supermarket/Network_Subsystem/net_watcher/netwatcher.c:128-135 | each probe lies in the part still to search, and its address decides which half the search goes on with |
| SymbolSearch.BinarySearch | eBPF_Supermarket/Network_Subsystem/net_watcher/netwatcher.c:123-139 | findfunc's index is -1 or a symbol starting below the address, whether or not the table is sorted |
| SymbolSearch.SearchLoop | eBPF_Supermarket/Network_Subsystem/net_watcher/netwatcher.c:125-136 | the while loop over the table's first num_symbols slots ends on the index BinarySearch names |
| SymbolSearch.Advance | eBPF_Supermarket/Network_Subsystem/net_watcher/netwatcher.c:129-135 | one probe shrinks the part still to search and leaves unchanged the index the search ends on |
| Netwatcher.SearchFromSorted | eBPF_Supermarket/Network_Subsystem/net_watcher/netwatcher.c:125-138 | on a sorted table, a search whose lower part lies below the address and whose upper part does not ends on the linear reference's index |
| Netwatcher.SearchFindsLastBelow | eBPF_Supermarket/Network_Subsystem/net_watcher/netwatcher.c:123-139 | on a sorted table the binary search and the linear reference agree |
| Netwatcher.SortedSearch | eBPF_Supermarket/Network_Subsystem/net_watcher/netwatcher.c:123-139 | the binary search agrees with the linear reference whenever the table is sorted |
| Netwatcher.SymbolTable.constructor | eBPF_Supermarket/Network_Subsystem/net_watcher/netwatcher.c:121-122 | the table starts with no symbols |
| Netwatcher.SymbolTable.ReadAllSym | eBPF_Supermarket/Network_Subsystem/net_watcher/netwatcher.c:140-160 | the table grows by one entry per fully scanned line, in file order, into the same array |
| Netwatcher.SymbolTable.Append | eBPF_Supermarket/Network_Subsystem/net_watcher/netwatcher.c:153-155 | one entry goes into the next free slot and the count grows by one |
| Netwatcher.SymbolTable.FindFunc | eBPF_Supermarket/Network_Subsystem/net_watcher/netwatcher.c:123-139 | the entry returned is the one at the index the binary search keeps, which starts below the address; on a sorted table it is the last symbol starting below the address, the one the linear reference names |
| Netwatcher.ProtocolName | eBPF_Supermarket/Network_Subsystem/net_watcher/netwatcher.c:394-406 | "ipv4" exactly for EtherType 0x0800, "ipv6" exactly for 0x86DD, "other" for anything else |
| Netwatcher.ErrorReason | eBPF_Supermarket/Network_Subsystem/net_watcher/netwatcher.c:273-284 | "Invalid SEQ" exactly for code 1, "Invalid checksum" exactly for 2, "Unkonwn" (sic) for every other code |
| Netwatcher.KernelErrorsReadAsInvalidSeq | eBPF_Supermarket/Network_Subsystem/net_watcher/netwatcher.c:271-289 | every error packet the kernel side emits is logged as an invalid sequence number |
| Netwatcher.CStr | eBPF_Supermarket/Network_Subsystem/net_watcher/netwatcher.c:294 | the C string of a buffer is its longest NUL-free prefix, ending at the first NUL or the buffer's end |
| Netwatcher.FirstIndex | eBPF_Supermarket/Network_Subsystem/net_watcher/netwatcher.c:296-302 | the first occurrence of a character, or the length when there is none |
| Netwatcher.LastBeforeIsFirst | eBPF_Supermarket/Network_Subsystem/net_watcher/netwatcher.c:296-302 | an occurrence with none before it is the first one |
| Netwatcher.HttpInfo | eBPF_Supermarket/Network_Subsystem/net_watcher/netwatcher.c:292-306 | for HTTP/1 data the payload is copied up to its first carriage return, which becomes a NUL (the whole payload without NUL when there is none); otherwise "-" |
| Netwatcher.PrintPacket | eBPF_Supermarket/Network_Subsystem/net_watcher/netwatcher.c:267-334 | nothing is logged while a UDP, netfilter, kfree or ICMP view is on; an error event gives its reason line; a normal one gives a timing line with the socket, sequence numbers and direction, and layer times only when they were asked for (0 otherwise) |
| Netwatcher.SymbolTable.PrintKfree | eBPF_Supermarket/Network_Subsystem/net_watcher/netwatcher.c:382-418 | events are skipped without kfree_info or with both addresses 0; otherwise the line carries the addresses, ports, protocol name and drop reason, and the location raw or as a positive offset into the symbol at the index the binary search keeps |
| Netwatcher.OffsetBelow | eBPF_Supermarket/Network_Subsystem/net_watcher/netwatcher.c:414 | the offset past a symbol's start does not wrap and is positive |
| Normalize.CStringNew | eBPF_Supermarket/Memory_Subsystem/blazesym/src/c_api/normalize.rs:182-184 | a path becomes C memory, its bytes and a terminating NUL, exactly when it holds no NUL (otherwise the code panics) |
| Normalize.FromRaw | eBPF_Supermarket/Memory_Subsystem/blazesym/src/c_api/normalize.rs:214-216 | reading a C string back yields the bytes before its first NUL |
| Normalize.CStringRoundTrip | eBPF_Supermarket/Memory_Subsystem/blazesym/src/c_api/normalize.rs:182-184 | a NUL-free path survives the trip through C memory unchanged |
| Normalize.CPath | eBPF_Supermarket/Memory_Subsystem/blazesym/src/c_api/normalize.rs:110-115 | the C string written for a NUL-free path reads back as that path |
| Normalize.BuildIdToC | eBPF_Supermarket/Memory_Subsystem/blazesym/src/c_api/normalize.rs:185-200 | the length is that of the build id, or 0 without one; the pointer is NULL exactly when there is no build id and otherwise points to its bytes |
| Normalize.BuildIdFromC | eBPF_Supermarket/Memory_Subsystem/blazesym/src/c_api/normalize.rs:217-219 | a NULL pointer is no build id; otherwise the build id is the first build_id_len bytes it points to |
| Normalize.BuildIdRoundTrip | eBPF_Supermarket/Memory_Subsystem/blazesym/src/c_api/normalize.rs:185-219 | a build id converted to C and back is the same, NULL and all |
| Normalize.ElfToC | eBPF_Supermarket/Memory_Subsystem/blazesym/src/c_api/normalize.rs:174-203 | the C record's path reads back as the ELF path, and its length and pointer describe the build id |
| Normalize.ElfFromC | eBPF_Supermarket/Memory_Subsystem/blazesym/src/c_api/normalize.rs:205-223 | the ELF record read back has the C string's path and the counted build id, none for NULL |
| Normalize.ElfRoundTrip | eBPF_Supermarket/Memory_Subsystem/blazesym/src/c_api/normalize.rs:616-625 | an ELF record converted to C and back is the same |
| Normalize.ApkElfToC | eBPF_Supermarket/Memory_Subsystem/blazesym/src/c_api/normalize.rs:101-134 | both C paths read back as the APK and ELF paths, and the length and pointer describe the build id |
| Normalize.ApkElfFromC | eBPF_Supermarket/Memory_Subsystem/blazesym/src/c_api/normalize.rs:136-159 | the APK ELF record read back has both paths and the counted build id, none for NULL |
| Normalize.ApkElfRoundTrip | eBPF_Supermarket/Memory_Subsystem/blazesym/src/c_api/normalize.rs:587-606 | an APK ELF record converted to C and back is the same |
| Normalize.EmptyApkElfRoundTrip | eBPF_Supermarket/Memory_Subsystem/blazesym/src/c_api/normalize.rs:598-606 | empty paths without build id become two empty C strings with a NULL buffer of length 0, and come back the same |
| Normalize.UnknownToC | eBPF_Supermarket/Memory_Subsystem/blazesym/src/c_api/normalize.rs:234-241 | the unused byte is written as 0 |
| Normalize.UnknownFromC | eBPF_Supermarket/Memory_Subsystem/blazesym/src/c_api/normalize.rs:243-250 | the value read back converts to the zero unused byte again |
| Normalize.UnknownRoundTrip | eBPF_Supermarket/Memory_Subsystem/blazesym/src/c_api/normalize.rs:243-250 | the unused byte is ignored on the way back, so the round trip is the identity |
| Normalize.MetaToC | eBPF_Supermarket/Memory_Subsystem/blazesym/src/c_api/normalize.rs:282-305 | the kind tag names exactly the variant the metadata is, and that variant holds the converted record |
| Normalize.MetaFromC | eBPF_Supermarket/Memory_Subsystem/blazesym/src/c_api/normalize.rs:307-327 | the metadata read back is of the kind the tag names, converted from that variant |
| Normalize.MetaRoundTrip | eBPF_Supermarket/Memory_Subsystem/blazesym/src/c_api/normalize.rs:571-611 | metadata of each kind converted to C and back is the same |
| Normalize.MetasToC | eBPF_Supermarket/Memory_Subsystem/blazesym/src/c_api/normalize.rs:350-362 | one converted entry per metadata entry, in order |
| Normalize.AddrsToC | eBPF_Supermarket/Memory_Subsystem/blazesym/src/c_api/normalize.rs:66-70 | one C address per normalized address, with its address and metadata index |
| Normalize.AddrToC | eBPF_Supermarket/Memory_Subsystem/blazesym/src/c_api/normalize.rs:66-70 | the C address holds the normalized address and its metadata index, and gives back the pair |
| Normalize.UserAddrsToC | eBPF_Supermarket/Memory_Subsystem/blazesym/src/c_api/normalize.rs:346-379 | the counts are the lengths of the arrays, and each array holds the converted entries in order |
| Normalize.NormalizeUserAddrs | eBPF_Supermarket/Memory_Subsystem/blazesym/src/c_api/normalize.rs:398-418 | NULL exactly when the normalizer failed, the converted result otherwise |
| Normalize.MetasFromC | eBPF_Supermarket/Memory_Subsystem/blazesym/src/c_api/normalize.rs:492-494 | each C entry is converted back, in order |
| Normalize.UserAddrsFree | eBPF_Supermarket/Memory_Subsystem/blazesym/src/c_api/normalize.rs:469-495 | NULL reclaims nothing; otherwise exactly the meta_count counted entries are reclaimed, each converted back |
| Normalize.MetasRoundTrip | eBPF_Supermarket/Memory_Subsystem/blazesym/src/c_api/normalize.rs:346-495 | converting a metadata array to C and back gives the original array |
| Normalize.FreeReclaimsAll | eBPF_Supermarket/Memory_Subsystem/blazesym/src/c_api/normalize.rs:398-495 | freeing what a successful normalization returned reclaims every metadata entry it produced, in order; freeing a failure's NULL reclaims nothing |
| Normalize.NormalizerNew | eBPF_Supermarket/Memory_Subsystem/blazesym/src/c_api/normalize.rs:28-33 | a new normalizer is a non-NULL address that was not live, and it becomes live |
| Normalize.NormalizerFree | eBPF_Supermarket/Memory_Subsystem/blazesym/src/c_api/normalize.rs:44-50 | NULL is ignored; a live normalizer stops being live |
| Normalize.NewThenFree | eBPF_Supermarket/Memory_Subsystem/blazesym/src/c_api/normalize.rs:28-50 | creating a normalizer and freeing it leaves the same normalizers live |
| ElfCache.DwarfResolver.constructor | eBPF_Supermarket/Memory_Subsystem/blazesym/src/elf/cache.rs:67-71 | a DWARF resolver shares the parser it is built over and keeps the two options |
| ElfCache.IsValidIffSameStat | eBPF_Supermarket/Memory_Subsystem/blazesym/src/elf/cache.rs:86-92 | an entry is valid for exactly the stat it was built from: same device, inode, size and modification time to the nanosecond |
| ElfCache.CreateError | eBPF_Supermarket/Memory_Subsystem/blazesym/src/elf/cache.rs:58-84 | building an entry fails exactly when fstat fails, the ELF file does not parse, or (with DWARF) the DWARF data does not load; an fstat failure is reported as such, before the others |
| ElfCache.NewEntry | eBPF_Supermarket/Memory_Subsystem/blazesym/src/elf/cache.rs:58-84 | a new entry records the stat fstat reported over a newly opened parser, wrapped in a new DWARF resolver with the given options exactly when DWARF is on; otherwise the first error is returned |
| ElfCache.ProbeCache | eBPF_Supermarket/Memory_Subsystem/blazesym/src/elf/cache.rs:120-126 | a cached lookup reuses the entry's backend exactly when the path is cached and the file's fstat matches the entry; an fstat failure on a cached path is returned as an error |
| ElfCache.ElfCache.constructor | eBPF_Supermarket/Memory_Subsystem/blazesym/src/elf/cache.rs:153-158 | the cache starts empty with the given options |
| ElfCache.ElfCache.FindOrCreateBackend | eBPF_Supermarket/Memory_Subsystem/blazesym/src/elf/cache.rs:118-132 | with the lru feature: a valid entry's backend is returned and nothing changes; otherwise a new entry is built and put under the path, replacing a stale one, and its new backend returned; an error leaves the cache alone |
| ElfCache.ElfCache.FindOrCreateBackendUncached | eBPF_Supermarket/Memory_Subsystem/blazesym/src/elf/cache.rs:134-139 | without the lru feature every lookup builds a new backend and nothing is kept |
| ElfCache.ElfCache.Find | eBPF_Supermarket/Memory_Subsystem/blazesym/src/elf/cache.rs:141-163 | a file that cannot be opened gives an error naming the path and changes nothing; otherwise the lookup goes through find_or_create_backend |
| ElfCache.ElfCache.FindTwice | eBPF_Supermarket/Memory_Subsystem/blazesym/src/elf/cache.rs:176-197 | two finds of an unchanged file: with the cache the second returns the same backend, and so the same parser, as the first; without it each gets its own parser |
| ElfCache.SecondLookupHits | eBPF_Supermarket/Memory_Subsystem/blazesym/src/elf/cache.rs:119-131 | after a successful lookup, a lookup of the unchanged file returns the same backend and leaves the cache as it was |
| ElfCache.StaleEntryReplaced | eBPF_Supermarket/Memory_Subsystem/blazesym/src/elf/cache.rs:119-131 | an entry whose file changed is replaced by one valid for the file as it is now, whose backend is returned; other paths keep their entries |
| ElfCache.CreateErrorInsertsNothing | eBPF_Supermarket/Memory_Subsystem/blazesym/src/elf/cache.rs:128 | when the new entry cannot be built its error is returned and nothing is inserted |

## Left out

- Floating point is not modelled; integer arithmetic stands in for it.
  - The AVE mode of the IO collector divides with integer division, and a zero count gives 0.
  - The value in `CountItem` is an integer.
  - The on-CPU period 1e9/freq is an integer quotient, bounded in `OnCpuScale`.
  - cpu_watcher's percentage with `/99.0`, its `abs`-based float deltas and the `/1000.0` unit conversions are not modelled.
  - net_watcher's `bytes_to_str` is not modelled.
- Output and I/O are left out:
  - printing, log files and time formatting;
  - ring-buffer polling;
  - `perf_event_open`, `fork`, `eventfd`, `execl`, `kill`, `atexit` and signals;
  - argument parsing.

  What a report contains is modelled as data, not as text.
- Symbolization is left out: the symbol parser, demangling, `resolve_binary_path`, the ELF function offset, and reading `/proc/kallsyms` from disk.
- Concurrency is left out. Every probe is a sequential map transition, and `__sync_fetch_and_add` is an ordinary addition.
- Stack_Analyser's `MAX_ENTRIES` is defined in a header that is not part of this model, so the map capacity is a parameter.
- The memleak.cpp and readahead.cpp collectors are not part of this model. In the driver they are registry entries only.
- SaMain.Driver.Run models only the parent process after `fork`. The child's `execl` path is left out.
- SaMain.Driver.SampleLoop requires a positive delay within INT_MAX. With a delay of 0 and no target, the source loops forever.
- SaCollector.OnCpuScale and SaCollector.StackCollector.SetOnCpuScale require a positive frequency. `-f 0` reaches `setScale(0)` unchecked (main.cpp:64, 87-90); 1e9/0.0 is infinity, and its conversion to the int64 period is undefined behaviour.
- SaCollector.StackCollector.OnCpuAttach requires that no descriptors or links are left from an earlier attach. The source would leak them.
- CpuWatcher.ScanMax and CpuWatcher.CpuWatcherState.Histogram follow the code as written: in `histogram`, `max` is compared with a count (`max < log10[i]`) but is assigned an index.
- CpuWatcher.CpuWatcherState.HandleEvent requires the delay, read as a 32-bit int, to be below 2^25. In the source a larger delay indexes past `count`.
- CpuWatcher.CpuWatcherState.PreemptWindow requires a non-zero count for every window after the first. The source divides by it unguarded.
- CpuWatcher.AverageDelay requires a non-zero `sum_count`. `schedule_print` divides by it unguarded (cpu_watcher.c:472), and integer division by zero traps with SIGFPE.
- CpuWatcher.CpuWatcherState.HandleEvent counts its buckets in unbounded integers. The source's `int count[25]` entries are signed 32-bit and would overflow, which is undefined behaviour, after 2^31 - 1 events in one bucket.
- CpuWatcher.CpuWatcherState.PreemptPrint counts windows in an unbounded integer. The source's `int preempt_count` is signed 32-bit and its overflow is undefined behaviour; only `sum_preemptTime` is wrapped, by `ToI32`.
- cpu_watcher's main loop, its skeleton loading, and the sar, cs_delay, sc_delay and mq_delay programs are not modelled. Only the histogram rows 0-19 that `print_hstgram` prints are modelled; the spare buckets up to 24 are counted but never printed.
- PreemptBpf: `next_pid` is the tgid half of `bpf_get_current_pid_tgid`. It is an input of the hook, as is the command name.
- memleak's `combined_alloc_info` is a bit-packed union in a header that is not part of this model. It is modelled as a pair of unbounded totals, and the capacities of `allocs` and `combined_allocs` are parameters.
- net_watcher's LRU hash maps `conns_info` and `sock_stores` are unbounded maps. LRU eviction at `MAX_CONN` is not modelled.
- Port numbers are taken as already in host byte order.
- The other handlers of netwatcher.bpf.c are not modelled: the per-layer packet timing on receive and send, the checksum-failure report, `tcp_sendmsg`, UDP, the IP-layer netfilter timing, kfree_skb and ICMP. They copy kernel fields and timestamps into ring-buffer events.
- Netwatcher.SymbolTable.ReadAllSym requires room for the new symbols. The source does not check its 300000-entry capacity.
- Netwatcher.SymbolTable.FindFunc requires that the search keeps an index (BinarySearch >= 0). Otherwise the source reads `symbols[-1]`.
- Netwatcher.EntryOf keeps the first 30 characters of a longer name. In the source a name of 30 or more characters already overflows sscanf's 30-byte `name` buffer (netwatcher.c:150-152), which is undefined behaviour, and `strncpy` of 30 bytes then leaves the stored name without a terminating NUL.
- blazesym's `Normalizer` internals behind `blaze_normalize_user_addrs` are not shown. Their result is a parameter of `NormalizeUserAddrs`, and the sorted variant shares that model.
- blazesym paths containing a NUL byte are excluded by a precondition. The source panics on them.
- The width of `Addr` is not modelled; addresses are unbounded integers.
- ElfCache.ProbeCache, ElfCache.StaleEntryReplaced, ElfCache.SecondLookupHits and ElfCache.ElfCache.FindOrCreateBackend model the cache as a map keyed by path with no eviction. Their results hold while at most `DFL_CACHE_MAX` (1024) paths are cached; the `lru` crate evicts its least recently used entry when another path is put after that (cache.rs:22, 112, 130), and eviction is not modelled.
- The two `fstat` calls on one lookup are taken to report the same values: one `FileView` per lookup.
- The `RefCell` around the cache is folded into the class's mutable field.
