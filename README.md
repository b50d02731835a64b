# cloudsim_eec scheduler, modelled in Dafny

This project models the scheduler that cloudsim_eec's simulator calls on each event. The scheduler keeps a directory:
- a pool of machines, and the subset of the pool it believes is powered on;
- the VMs it created;
- three maps: VM to host, host to VMs, and task to VM.

It reacts to events by issuing control calls to the simulated fabric: create and attach a VM, add a task, shut a VM down, change a machine's power state, migrate, and change a task's priority.

There are five modules:

- `Fabric` — identifiers, sentinels, the records the fabric reports, the control calls, and the 32-bit unsigned arithmetic the scheduler applies to what it reads.
  - Free memory `memory_size - memory_used` wraps when a machine is overcommitted.
  - `required_memory + VM_MEMORY_OVERHEAD` wraps too.
  - `(int)active_tasks.size()` is a two's-complement truncation.
  - The SchedulerCheck counter is `unsigned`.
- `Placement` — `determinePriority` and the three searches of NewTask's ladder. They are:
  - the least-loaded eligible existing VM, where the first minimum wins;
  - the first running machine that can host a new VM;
  - the first S5 machine with the task's CPU.

  Each search is a loop proved against a predicate that names the machine or VM it must return, and each predicate is proved to determine that choice uniquely.
- `Power` — the idle test and the S5 requests of the periodic sweep.
- `Directory` — the directory invariant (`Consistent`), stated over values, and the lemmas that each update the handlers make keeps it.
- `Scheduling` — the `Scheduler` class has the source's fields plus:
  - `calls`, the control calls issued so far;
  - `checks`, SchedulerCheck's static counter.

  It has one method per handler, each with its whole new state in its `ensures`. Every handler keeps `Valid()`, which is a `Consistent` directory plus a 32-bit counter equal to `Ticks` of a ghost count of SchedulerCheck calls.

  "No entry names an unknown VM" is the stricter `Tidy()`:
  - Init establishes it, NewTask keeps it, and TaskComplete keeps it exactly when the task is known or VM id 0 exists.
  - The reason is that TaskComplete reads `task_to_vm[task_id]` and `vm_to_machine[vm]` with `operator[]`, which stores 0 under a missing key. The model does the same.

The fabric's answers during one event are a `Snapshot` of three total functions, so every query the scheduler makes gets an answer (see the first Placement.SelectVm line under "## Left out"). `VM_Create`'s results are parameters: `vmIds` for Init, and `newVm` for NewTask. At the source level, step 2 of NewTask creates a VM but does not hand it the task ("task deferred"), and the model records exactly that.

## Model

| member | source | states |
|---|---|---|
| Fabric.Sub32 | Scheduler.cpp:83 | unsigned subtraction: the exact difference when no wrap, 2^32 + a - b when a < b |
| Fabric.Add32 | Scheduler.cpp:84 | unsigned addition: the exact sum below 2^32, the sum minus 2^32 past it |
| Fabric.Int32Of | Scheduler.cpp:86-88 | the (int) cast of a size lies in the 32-bit signed range and is the size itself up to INT_MAX |
| Fabric.Int32OfCongruent | Scheduler.cpp:86 | the truncated load agrees with the size modulo 2^32 |
| Fabric.Lookup | Scheduler.cpp:379-380 | an unordered_map operator[] read: the stored value for a present key, the default (0) for a missing one |
| Placement.DeterminePriority | Scheduler.cpp:15-23 | HIGH exactly for SLA0/SLA1, LOW exactly for SLA3, MID exactly for SLA2 and any other value |
| Placement.StricterTierNeverLessUrgent | Scheduler.cpp:15-23 | among SLA0..SLA3 a stricter tier never gets a less urgent priority |
| Placement.HasRoomWithoutWrap | Scheduler.cpp:83-84 | without overflow the memory test is free memory >= required memory + overhead |
| Placement.OvercommitWrapsFreeMemory | Scheduler.cpp:83 | an overcommitted machine reports 2^32 minus the overcommit as free memory |
| Placement.FreeMemory | Scheduler.cpp:83 | a machine's free memory as the unsigned difference memory_size - memory_used |
| Placement.NeededMemory | Scheduler.cpp:84 | the memory a task needs as the unsigned sum required_memory + VM_MEMORY_OVERHEAD |
| Placement.Load | Scheduler.cpp:86-88 | a VM's load is the (int) cast of its active task count |
| Placement.Eligible | Scheduler.cpp:76-84 | a VM survives step 1's tests: attached, host in S0, CPU and VM type match, GPU when the task needs one, free memory at least the need |
| Placement.Candidate | Scheduler.cpp:86 | an eligible VM whose load is below the INT_MAX start value, so the strict `<` can pick it |
| Placement.SelectVm | Scheduler.cpp:67-90 | returns -1 exactly when no eligible VM (attached, host S0, CPU and VM type match, GPU and memory fit) has load below INT_MAX; otherwise the least-loaded such VM, the first one among equals |
| Placement.SelectStep | Scheduler.cpp:67-90 | one round of step 1's loop keeps the loop's state exact: vms[k] replaces the running choice exactly when it is eligible and strictly less loaded |
| Placement.LeastLoadedUnique | Scheduler.cpp:86-89 | at most one VM meets step 1's specification |
| Placement.LeastLoadedBeatsEarlier | Scheduler.cpp:86-89 | every eligible VM before the chosen one has strictly more load |
| Placement.FindHost | Scheduler.cpp:118-124 | none exactly when no machine of the pool is in S0 with the task's CPU, GPU and memory room; otherwise the first such machine |
| Placement.FirstHostUnique | Scheduler.cpp:118-124 | at most one machine meets step 2's specification |
| Placement.FindWakeable | Scheduler.cpp:139-141 | none exactly when no pool machine is in S5 with the task's CPU; otherwise the first such (memory and GPU unchecked) |
| Placement.FirstWakeableUnique | Scheduler.cpp:139-141 | at most one machine meets step 3's specification |
| Placement.CanHost | Scheduler.cpp:120-124 | step 2's test: S0, the task's CPU, a GPU when needed, and memory room |
| Placement.Wakeable | Scheduler.cpp:141 | step 3's test: S5 and the task's CPU, nothing else |
| Power.Idle | Scheduler.cpp:351 | a machine reporting zero active tasks and zero active VMs |
| Power.ShutdownDue | Scheduler.cpp:383 | TaskComplete's test: idle and in S0 |
| Power.SleepRequests | Scheduler.cpp:349-355 | the sweep's S5 requests in pool order, one per idle machine present in powered_on |
| Power.SleepRequestsTargets | Scheduler.cpp:349-355 | every sweep request is an S5 request for an idle pooled machine in powered_on, and each such machine gets one |
| Power.SleepRequestsOnce | Scheduler.cpp:349-355 | with distinct pool ids, each idle powered-on machine gets exactly one S5 request and no other machine any |
| Directory.RecordKeepsHostsAgree | Scheduler.cpp:130-132 | pushing a new VM onto vms, vm_to_machine and machine_to_vms[m] keeps the two maps describing one hosting relation |
| Directory.RecordKeepsKnown | Scheduler.cpp:45-47 | the same update keeps every map entry naming a known VM (or id 0), and keeps the strict form |
| Directory.AssignKeepsKnown | Scheduler.cpp:111-112 | recording a task under a known VM keeps task_to_vm naming known VMs, strict form included |
| Directory.DefaultReadsKeep | Scheduler.cpp:379-380 | the two operator[] reads keep the directory consistent; the strict form survives exactly when the task is known or VM 0 exists |
| Scheduling.PoolSize | Scheduler.cpp:38 | the pool size is at most 16 and at most the machine count, and equals one of them |
| Scheduling.PoolMapsDomain | Scheduler.cpp:45-47 | after the pool loop, vm_to_machine's keys are the pool's VMs and machine_to_vms's keys are machines 0 .. n-1, each listing one VM |
| Scheduling.PoolDirectoryAt | Scheduler.cpp:42-47 | round j's VM is recorded on machine j, and machine j lists exactly that VM |
| Scheduling.PoolHostsAgree | Scheduler.cpp:38-48 | the directory the pool loop builds is one consistent hosting relation |
| Directory.DefaultReadsConsistent | Scheduler.cpp:379-386 | the operator[] reads plus the erase from powered_on keep the directory invariant |
| Directory.Consistent | Scheduler.hpp:35-40 | the directory invariant: distinct pool and VM ids, no VM with id -1, powered_on and machine_to_vms keys inside the pool, one hosting relation, map entries naming known VMs or the default 0 |
| Scheduling.IotaBelow | Scheduler.cpp:38-40 | the pool sequence lists machines 0 .. n-1 in order, and the powered_on set is exactly the ids below n |
| Scheduling.PoolMachinesCover | Scheduler.cpp:38-40 | the pool's machine ids are distinct, and every id put in powered_on is in the pool |
| Scheduling.PoolKeys | Scheduler.cpp:45-47 | vm_to_machine's keys are exactly the created VMs, and machine_to_vms's keys are pool machines |
| Scheduling.PoolDirectoryValid | Scheduler.cpp:38-48 | the pool directory meets every scheduler invariant, strict form included |
| Scheduling.BootCallsShape | Scheduler.cpp:42-43 | round i issues VM_Create(LINUX, X86) then VM_Attach of that VM to machine i, in pool order |
| Scheduling.BootCallsSetNoState | Scheduler.cpp:38-48 | the pool loop requests no power-state change |
| Scheduling.SleepRangeTargets | Scheduler.cpp:51-53 | the second loop sends exactly machines 24 .. total-1 to S5 |
| Scheduling.InitSleepsOnlyArm | Scheduler.cpp:38-53 | Init requests a state change for m exactly when 24 <= m < total, and only S5; machines 16..23 are neither pooled nor slept |
| Scheduling.ShutdownCallsOnce | Scheduler.cpp:362-364 | with distinct VM ids Shutdown sends each known VM exactly one VM_Shutdown and nothing else |
| Scheduling.PoolWakesOnlyPooled | Scheduler.cpp:139-141 | step 3 can wake only a pooled machine (id below 16), never a machine Init sent to S5 |
| Scheduling.TicksCountUp | Scheduler.cpp:446-447 | before it wraps, the counter holds the number of calls made |
| Scheduling.TicksPeriodic | Scheduler.cpp:446-447 | the unsigned counter wraps: 2^32 more calls give the same value |
| Scheduling.MigratesAgainAfterWrap | Scheduler.cpp:446-450 | after the wrap, call 2^32 + 10 brings the counter to 10 and migrates again |
| Scheduling.Ticks | Scheduler.cpp:446-447 | the counter after n calls: each call adds one modulo 2^32 |
| Scheduling.MigratesOnlyOnTenthCall | Scheduler.cpp:446-450 | among the first 2^32-1 calls only the 10th brings the counter to 10 |
| Scheduling.Scheduler.constructor | Scheduler.hpp:26 | a fresh scheduler has an empty directory, no calls, counter 0, and meets both invariants |
| Scheduling.Scheduler.Valid | Scheduler.hpp:35-40 | the fields form a Consistent directory, and the counter is Ticks of how many times SchedulerCheck has run |
| Scheduling.Scheduler.RecordVm | Scheduler.cpp:130-132 | appends the VM to vms, maps it to its host and appends it to that host's list, keeping both invariants |
| Scheduling.Scheduler.Init | Scheduler.cpp:25-57 | machines = 0..n-1 with n = min(16, total), powered_on = that set, vms = the created VMs, VM i on machine i, calls = create/attach pairs then S5 for 24..total-1; both invariants hold |
| Scheduling.Scheduler.BuildPool | Scheduler.cpp:38-48 | the pool loop's resulting machines, powered_on, vms, both maps and calls |
| Scheduling.Scheduler.SleepArm | Scheduler.cpp:51-53 | the second loop appends S5 requests for 24..total-1 in order |
| Scheduling.Scheduler.NewTask | Scheduler.cpp:63-150 | the ladder is strict and each rung is taken exactly when the earlier ones fail: step 1 adds the task with its SLA priority to the least-loaded eligible VM and records it; step 2 creates, attaches and records one VM on the first fitting machine and leaves task_to_vm alone; step 3 issues one S0 request for the first matching S5 machine and changes no field; otherwise nothing changes; Valid and Tidy are kept |
| Scheduling.Scheduler.PeriodicCheck | Scheduler.cpp:344-356 | powered_on loses exactly the idle pool machines; one S5 request is issued per idle pool machine that was powered on, in pool order |
| Scheduling.Scheduler.TaskComplete | Scheduler.cpp:375-389 | the operator[] reads store their result; if the host reports no task, no VM and S0, VM_Shutdown and S5 are issued and the host leaves powered_on, otherwise nothing is issued; task_to_vm is never erased |
| Scheduling.Scheduler.Shutdown | Scheduler.cpp:358-365 | one VM_Shutdown per known VM, in order |
| Scheduling.Scheduler.SchedulerCheck | Scheduler.cpp:442-452 | the periodic sweep, then the counter advances modulo 2^32 and equals Ticks of the number of calls so far; VM_Migrate(1, 9) is issued exactly when it reaches 10, which among the first 2^32 - 1 calls is exactly the 10th |
| Scheduling.Scheduler.SlaWarning | Scheduler.cpp:467-469 | issues one priority change to HIGH for the task |

The directory fields and `Valid()` model Scheduler.hpp:35-40. NewTask, TaskComplete, PeriodicCheck and SchedulerCheck do not list `machines` in their frames, so after Init the pool is fixed. They also never remove a VM, so `vms` and the two VM maps only grow.

## Left out

- Logging (`SimOutput`), the energy and SLA reports, and the console output of SimulationComplete are left out. They carry no scheduling decision, and the floating-point energy figures are out of scope.
- The `now`/`time` parameters are left out: no modelled handler reads them.
- MigrationComplete, StateChangeComplete, MemoryWarning and the `migrating` flag are left out. The handlers are empty or only log, and the flag is written but never read.
- `CompareMachineEnergy` is left out: nothing calls it.
- The singleton glue (`InitScheduler`, `HandleNewTask`, and so on) is left out. Each handler is called directly.
- Interfaces.h is not part of this model. `VM_MEMORY_OVERHEAD` is the constructor parameter `memoryOverhead`. `IsTaskGPUCapable` is taken to equal the task record's `gpuCapable`. `Machine_GetTotal` is Init's `total` parameter.
- The fabric's behaviour is left out: how it executes the control calls and how its reports evolve. Each handler sees one fixed `Snapshot`.
- `VM_Create`'s id allocation is left out. The ids are parameters, required to be fresh and different from -1.
- Placement.SelectVm: the scan queries VM_GetInfo for every id in vms and Machine_GetInfo for the reported host before the unattached test, including VMs already sent VM_Shutdown (vms is never pruned) and host id 0xFFFFFFFF. The model's Snapshot answers every such query, so "unattached or dead VMs are skipped" holds only under the assumption that the fabric answers those queries without failing.
- Placement.SelectVm: requires that no known VM has id 0xFFFFFFFF. The source would pick such a VM and then treat its choice as "none". `Valid()` excludes that id.
- Scheduling.Scheduler.Init: requires an empty scheduler. The source calls Init once, on a freshly constructed object. The element-wise facts about the pool are the lemmas PoolDirectoryAt and PoolMapsDomain, not clauses of Init itself.
- Scheduling.Scheduler.SchedulerCheck: `VM_Migrate(1, 9)` is logged as a call only. vm_to_machine and machine_to_vms are left naming the old host, as in the source.
- Scheduling.Scheduler.NewTask: a machine woken in step 3 is not put back into `powered_on`, as in the source.
