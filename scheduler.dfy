/** The scheduler: its directory of machines, VMs and task assignments, and one
    method per event the fabric delivers. Control calls go to the fabric; here
    they are appended, in order, to `calls`. */
module Scheduling {
  import opened Fabric
  import opened Placement
  import opened Power
  import opened Directory

  /** active_machines: how many machines Init takes into the pool. */
  const ActiveMachines: nat := 16
  /** Machines from this id up are assumed ARM and sent to S5 by Init. */
  const ArmBoundary: nat := 24
  /** SchedulerCheck issues its one migration when its counter reaches this value. */
  const MigrateAt: nat := 10

  /** How many machines Init takes into the pool out of `total`. */
  function PoolSize(total: nat): (n: nat)
    ensures n <= total && n <= ActiveMachines
    ensures n == total || n == ActiveMachines
  {
    if total < ActiveMachines then total else ActiveMachines
  }

  /** The machine ids 0 .. n - 1, in increasing order. */
  function Iota(n: nat): seq<MachineId>
  {
    if n == 0 then [] else Iota(n - 1) + [n - 1]
  }

  /** The machine ids below n, as a set. */
  function Below(n: nat): set<MachineId>
  {
    if n == 0 then {} else Below(n - 1) + {n - 1}
  }

  /** Iota(n) holds machine j at position j, and Below(n) is its set of elements. */
  lemma {:induction false} IotaBelow(n: nat)
    ensures |Iota(n)| == n && forall j :: 0 <= j < n ==> Iota(n)[j] == j
    ensures forall m: MachineId :: m in Below(n) <==> m < n
  {
    if n > 0 {
      IotaBelow(n - 1);
    }
  }

  /** vm_to_machine after n rounds of Init's pool loop: round j's VM is on machine j. */
  function PoolVmToMachine(ids: seq<VmId>, n: nat): map<VmId, MachineId>
    requires n <= |ids|
  {
    if n == 0 then map[] else PoolVmToMachine(ids, n - 1)[ids[n - 1] := n - 1]
  }

  /** machine_to_vms after n rounds of Init's pool loop: machine j lists round j's VM. */
  function PoolMachineToVms(ids: seq<VmId>, n: nat): map<MachineId, seq<VmId>>
    requires n <= |ids|
  {
    if n == 0 then map[] else PoolMachineToVms(ids, n - 1)[n - 1 := [ids[n - 1]]]
  }

  /** The calls of n rounds of Init's pool loop: round j creates VM ids[j], LINUX
      on X86, and attaches it to machine j. */
  function BootCalls(ids: seq<VmId>, n: nat): seq<Call>
    requires n <= |ids|
  {
    if n == 0 then []
    else BootCalls(ids, n - 1) + [VmCreate(LINUX, X86, ids[n - 1]), VmAttach(ids[n - 1], n - 1)]
  }

  /** The pool maps' keys after n rounds: exactly the first n VMs, and exactly
      machines 0 .. n - 1, machine m listing only VM ids[m]. */
  lemma {:induction false} PoolMapsDomain(ids: seq<VmId>, n: nat)
    requires n <= |ids|
    ensures forall v :: v in PoolVmToMachine(ids, n) <==> v in ids[..n]
    ensures forall m: MachineId :: m in PoolMachineToVms(ids, n) <==> m < n
    ensures forall m | m in PoolMachineToVms(ids, n) :: m < |ids| && PoolMachineToVms(ids, n)[m] == [ids[m]]
  {
    if n > 0 {
      PoolMapsDomain(ids, n - 1);
      assert ids[..n] == ids[..n - 1] + [ids[n - 1]];
    }
  }

  /** With distinct ids, round j's VM is on machine j, and machine j lists
      exactly that VM. */
  lemma {:induction false} PoolDirectoryAt(ids: seq<VmId>, n: nat, j: nat)
    requires Distinct(ids) && j < n <= |ids|
    ensures ids[j] in PoolVmToMachine(ids, n) && PoolVmToMachine(ids, n)[ids[j]] == j
    ensures j in PoolMachineToVms(ids, n) && PoolMachineToVms(ids, n)[j] == [ids[j]]
  {
    if j < n - 1 {
      PoolDirectoryAt(ids, n - 1, j);
      assert ids[n - 1] != ids[j];
    }
  }

  /** With distinct VM ids the pool directory is one consistent hosting relation. */
  lemma PoolHostsAgree(ids: seq<VmId>)
    requires Distinct(ids)
    ensures HostsAgree(ids, PoolVmToMachine(ids, |ids|), PoolMachineToVms(ids, |ids|))
  {
    var n := |ids|;
    var vtm, mtv := PoolVmToMachine(ids, n), PoolMachineToVms(ids, n);
    PoolMapsDomain(ids, n);
    assert ids[..n] == ids;
    forall v | v in ids
      ensures v in vtm && vtm[v] in mtv && v in mtv[vtm[v]]
    {
      var j :| 0 <= j < n && ids[j] == v;
      PoolDirectoryAt(ids, n, j);
    }
    forall m, v | m in mtv && v in mtv[m]
      ensures v in ids && vtm[v] == m
    {
      PoolDirectoryAt(ids, n, m);
    }
  }

  /** The directory Init builds from distinct VM ids is consistent, and strictly so. */
  lemma PoolDirectoryValid(ids: seq<VmId>)
    requires Distinct(ids) && NoVm !in ids
    ensures Consistent(Iota(|ids|), ids, Below(|ids|), PoolVmToMachine(ids, |ids|),
                       PoolMachineToVms(ids, |ids|), map[])
    ensures NoDangling(ids, PoolVmToMachine(ids, |ids|), map[])
  {
    PoolHostsAgree(ids);
    PoolMachinesCover(|ids|);
    PoolKeys(ids);
  }

  /** The pool Iota(n) is n distinct machines and covers Below(n). */
  lemma PoolMachinesCover(n: nat)
    ensures Distinct(Iota(n))
    ensures forall m :: m in Below(n) ==> m in Iota(n)
  {
    IotaBelow(n);
    forall m: MachineId | m in Below(n)
      ensures m in Iota(n)
    {
      assert Iota(n)[m] == m;
    }
  }

  /** The pool maps' keys: exactly the pool's VMs, and machines of the pool. */
  lemma PoolKeys(ids: seq<VmId>)
    ensures forall v :: v in PoolVmToMachine(ids, |ids|) <==> v in ids
    ensures forall m :: m in PoolMachineToVms(ids, |ids|) ==> m in Iota(|ids|)
  {
    PoolMapsDomain(ids, |ids|);
    PoolMachinesCover(|ids|);
    IotaBelow(|ids|);
    assert ids[..|ids|] == ids;
  }

  /** Init's S5 requests: one per machine id in [lo, hi), in increasing order. */
  function SleepRange(lo: nat, hi: nat): seq<Call>
    decreases hi
  {
    if hi <= lo then [] else SleepRange(lo, hi - 1) + [MachineSetState(hi - 1, S5)]
  }

  /** Everything Init issues for a cluster of `total` machines. */
  function InitCalls(ids: seq<VmId>, total: nat): seq<Call>
  {
    BootCalls(ids, |ids|) + SleepRange(ArmBoundary, total)
  }

  /** Shutdown's calls: one VM_Shutdown per known VM, in the order of vs. */
  function ShutdownCalls(vs: seq<VmId>): seq<Call>
  {
    if vs == [] then [] else ShutdownCalls(vs[..|vs| - 1]) + [VmShutdown(vs[|vs| - 1])]
  }

  /** The value of SchedulerCheck's counter after n calls. */
  function Ticks(n: nat): nat
  {
    if n == 0 then 0 else (Ticks(n - 1) + 1) % Modulus32
  }

  /** Which rung of the placement ladder NewTask took. */
  datatype Placed = Assigned(vm: VmId) | CreatedOn(machine: MachineId) | WokeUp(machine: MachineId) | Dropped

  /** Init's create-and-attach calls come in pairs, in pool order. */
  lemma {:induction false} BootCallsShape(ids: seq<VmId>, n: nat)
    requires n <= |ids|
    ensures |BootCalls(ids, n)| == 2 * n
    ensures forall i :: 0 <= i < n ==>
      BootCalls(ids, n)[2 * i] == VmCreate(LINUX, X86, ids[i]) && BootCalls(ids, n)[2 * i + 1] == VmAttach(ids[i], i)
  {
    if n > 0 {
      BootCallsShape(ids, n - 1);
    }
  }

  /** Init's create-and-attach phase requests no power-state change. */
  lemma {:induction false} BootCallsSetNoState(ids: seq<VmId>, n: nat)
    requires n <= |ids|
    ensures forall c | c in BootCalls(ids, n) :: c.VmCreate? || c.VmAttach?
  {
    if n > 0 {
      BootCallsSetNoState(ids, n - 1);
    }
  }

  /** SleepRange(lo, hi) sends exactly the machines lo .. hi - 1 to S5. */
  lemma {:induction false} SleepRangeTargets(lo: nat, hi: nat)
    ensures forall c | c in SleepRange(lo, hi) :: c.MachineSetState? && c.state == S5 && lo <= c.machine < hi
    ensures forall m: MachineId | lo <= m < hi :: MachineSetState(m, S5) in SleepRange(lo, hi)
    decreases hi
  {
    if lo < hi {
      SleepRangeTargets(lo, hi - 1);
    }
  }

  /** Init requests a power-state change for machine m exactly when m >= 24, and
      then only S5: machines 16 .. 23 are neither pooled nor put to sleep. */
  lemma InitSleepsOnlyArm(ids: seq<VmId>, total: nat, m: MachineId)
    ensures forall s :: MachineSetState(m, s) in InitCalls(ids, total) <==> s == S5 && ArmBoundary <= m < total
    ensures ActiveMachines <= m < ArmBoundary ==> m >= PoolSize(total)
  {
    BootCallsSetNoState(ids, |ids|);
    SleepRangeTargets(ArmBoundary, total);
  }

  /** With distinct VM ids, Shutdown sends each known VM exactly one VM_Shutdown
      and issues nothing else. */
  lemma {:induction false} ShutdownCallsOnce(vs: seq<VmId>, v: VmId)
    requires Distinct(vs)
    ensures forall c | c in ShutdownCalls(vs) :: c.VmShutdown? && c.vm in vs
    ensures multiset(ShutdownCalls(vs))[VmShutdown(v)] == if v in vs then 1 else 0
  {
    if vs != [] {
      var init := vs[..|vs| - 1];
      assert vs == init + [vs[|vs| - 1]];
      assert Distinct(init);
      ShutdownCallsOnce(init, v);
    }
  }

  /** Step 3 searches only the pool Init built, so a machine Init sent to S5
      (id 24 and up) is never woken; nor is any machine from 16 up. */
  lemma PoolWakesOnlyPooled(total: nat, f: Snapshot, t: TaskInfo, m: MachineId)
    requires IsFirstWakeable(Iota(PoolSize(total)), f, t, m)
    ensures m < PoolSize(total) && m < ActiveMachines
  {
    var pool := Iota(PoolSize(total));
    IotaBelow(PoolSize(total));
    assert pool[FirstIndex(pool, m)] == m;
  }

  /** Below 2^32 calls the counter holds the number of calls made. */
  lemma {:induction false} TicksCountUp(n: nat)
    requires n < Modulus32
    ensures Ticks(n) == n
  {
    if n > 0 {
      TicksCountUp(n - 1);
    }
  }

  /** The counter wraps: 2^32 further calls bring it back to the same value. */
  lemma {:induction false} TicksPeriodic(n: nat)
    ensures Ticks(n + Modulus32) == Ticks(n)
  {
    if n == 0 {
      TicksCountUp(Modulus32 - 1);
    } else {
      TicksPeriodic(n - 1);
    }
  }

  /** Among the first 2^32 - 1 calls, only the 10th brings the counter to 10. */
  lemma MigratesOnlyOnTenthCall(n: nat)
    requires 1 <= n < Modulus32
    ensures Ticks(n) == MigrateAt <==> n == 10
  {
    TicksCountUp(n);
  }

  /** Once the counter has wrapped, call 2^32 + 10 migrates again. */
  lemma MigratesAgainAfterWrap()
    ensures Ticks(Modulus32 + 10) == MigrateAt
  {
    TicksPeriodic(10);
    TicksCountUp(10);
  }

  class Scheduler {
    /** VM_MEMORY_OVERHEAD, the memory the fabric reserves for each VM. */
    const memoryOverhead: nat

    var vms: seq<VmId>
    var machines: seq<MachineId>
    var vmToMachine: map<VmId, MachineId>
    var machineToVms: map<MachineId, seq<VmId>>
    var taskToVm: map<TaskId, VmId>
    var poweredOn: set<MachineId>

    /** The control calls issued so far, oldest first. */
    var calls: seq<Call>
    /** SchedulerCheck's function-static, 32-bit unsigned call counter. */
    var checks: nat
    /** How many times SchedulerCheck has run. */
    ghost var nChecks: nat

    /** The directory invariant every handler keeps. */
    ghost predicate Valid()
      reads this`machines, this`vms, this`poweredOn, this`machineToVms, this`vmToMachine,
        this`taskToVm, this`checks, this`nChecks
    {
      Consistent(machines, vms, poweredOn, vmToMachine, machineToVms, taskToVm) && checks == Ticks(nChecks)
    }

    /** No map entry names anything but a known VM (TaskComplete may break this). */
    ghost predicate Tidy()
      reads this`vms, this`vmToMachine, this`taskToVm
    {
      NoDangling(vms, vmToMachine, taskToVm)
    }

    ghost predicate Empty()
      reads this`machines, this`vms, this`poweredOn, this`machineToVms, this`vmToMachine, this`taskToVm
    {
      && vms == [] && machines == [] && vmToMachine == map[] && machineToVms == map[]
      && taskToVm == map[] && poweredOn == {}
    }

    constructor (memoryOverhead: nat)
      ensures this.memoryOverhead == memoryOverhead
      ensures Empty() && calls == [] && checks == 0 && nChecks == 0
      ensures Valid() && Tidy()
    {
      this.memoryOverhead := memoryOverhead;
      vms, machines := [], [];
      vmToMachine, machineToVms, taskToVm := map[], map[], map[];
      poweredOn := {};
      calls, checks := [], 0;
      nChecks := 0;
    }

    /** Registers VM vm as hosted by machine m in vms, vmToMachine and
        machineToVms: the three updates Init and NewTask make together. */
    method RecordVm(vm: VmId, m: MachineId)
      requires Valid()
      requires vm !in vms && vm != NoVm && m in machines
      modifies this`vms, this`vmToMachine, this`machineToVms
      ensures Valid()
      ensures old(Tidy()) ==> Tidy()
      ensures vms == old(vms) + [vm]
      ensures vmToMachine == old(vmToMachine)[vm := m]
      ensures machineToVms == old(machineToVms)[m := Lookup(old(machineToVms), m, []) + [vm]]
    {
      RecordKeepsHostsAgree(vms, vmToMachine, machineToVms, vm, m);
      RecordKeepsKnown(vms, vmToMachine, taskToVm, vm, m);
      DistinctAppend(vms, vm);
      vms := vms + [vm];
      vmToMachine := vmToMachine[vm := m];
      machineToVms := machineToVms[m := Lookup(machineToVms, m, []) + [vm]];
    }

    /** Init: pools machines 0 .. PoolSize(total) - 1, each with one LINUX/X86 VM
        whose id VM_Create returns as vmIds[i], then sends machines 24 and up to S5. */
    method Init(total: nat, vmIds: seq<VmId>)
      requires Empty() && checks == Ticks(nChecks)
      requires |vmIds| == PoolSize(total) && Distinct(vmIds) && NoVm !in vmIds
      modifies this`machines, this`poweredOn, this`vms, this`vmToMachine, this`machineToVms, this`calls
      ensures Valid() && Tidy()
      ensures machines == Iota(PoolSize(total)) && poweredOn == Below(PoolSize(total))
      ensures vms == vmIds
      ensures vmToMachine == PoolVmToMachine(vmIds, |vmIds|) && machineToVms == PoolMachineToVms(vmIds, |vmIds|)
      ensures calls == old(calls) + InitCalls(vmIds, total)
    {
      BuildPool(total, vmIds);
      PoolDirectoryValid(vmIds);
      assert Valid() && Tidy();
      SleepArm(total);
      AppendAssociative(old(calls), BootCalls(vmIds, |vmIds|), SleepRange(ArmBoundary, total));
    }

    /** Init's first loop: machine i joins the pool and poweredOn, and VM vmIds[i]
        is created, attached to it and recorded, for i below 16 and below total. */
    method BuildPool(total: nat, vmIds: seq<VmId>)
      requires vms == [] && machines == [] && poweredOn == {}
      requires vmToMachine == map[] && machineToVms == map[]
      requires |vmIds| == PoolSize(total)
      modifies this`machines, this`poweredOn, this`vms, this`vmToMachine, this`machineToVms, this`calls
      ensures machines == Iota(|vmIds|) && poweredOn == Below(|vmIds|)
      ensures vms == vmIds
      ensures vmToMachine == PoolVmToMachine(vmIds, |vmIds|) && machineToVms == PoolMachineToVms(vmIds, |vmIds|)
      ensures calls == old(calls) + BootCalls(vmIds, |vmIds|)
    {
      var i := 0;
      while i < ActiveMachines && i < total
        invariant i <= |vmIds|
        invariant (i < ActiveMachines && i < total) == (i < |vmIds|)
        invariant machines == Iota(i) && poweredOn == Below(i)
        invariant vms == vmIds[..i]
        invariant vmToMachine == PoolVmToMachine(vmIds, i)
        invariant machineToVms == PoolMachineToVms(vmIds, i)
        invariant calls == old(calls) + BootCalls(vmIds, i)
      {
        assert vmIds[..i + 1] == vmIds[..i] + [vmIds[i]];
        assert Lookup(machineToVms, i, []) + [vmIds[i]] == [vmIds[i]] by {
          PoolMapsDomain(vmIds, i);
        }
        machines := machines + [i];
        poweredOn := poweredOn + {i};
        var vm := vmIds[i];
        calls := calls + [VmCreate(LINUX, X86, vm), VmAttach(vm, i)];
        vms := vms + [vm];
        vmToMachine := vmToMachine[vm := i];
        machineToVms := machineToVms[i := Lookup(machineToVms, i, []) + [vm]];
        i := i + 1;
      }
      assert vmIds[..i] == vmIds;
    }

    /** Init's second loop: machines 24 .. total - 1 are sent to S5. */
    method SleepArm(total: nat)
      modifies this`calls
      ensures calls == old(calls) + SleepRange(ArmBoundary, total)
    {
      var i := ArmBoundary;
      while i < total
        invariant calls == old(calls) + SleepRange(ArmBoundary, if i < total then i else total)
      {
        calls := calls + [MachineSetState(i, S5)];
        i := i + 1;
      }
    }

    /** NewTask: the placement ladder. Step 1 adds the task to the least-loaded
        eligible VM; otherwise step 2 creates and attaches a VM (id newVm, the one
        VM_Create returns) on the first running machine that fits, without adding
        the task; otherwise step 3 wakes the first S5 machine of the task's CPU;
        otherwise the task is dropped. */
    method NewTask(task: TaskId, f: Snapshot, newVm: VmId) returns (ghost placed: Placed)
      requires Valid()
      requires newVm !in vms && newVm != NoVm
      modifies this`calls, this`vms, this`vmToMachine, this`machineToVms, this`taskToVm
      ensures Valid()
      ensures old(Tidy()) ==> Tidy()
      ensures placed.Assigned? <==> AnyCandidate(old(vms), f, f.task(task), memoryOverhead)
      ensures placed.CreatedOn? <==>
        !AnyCandidate(old(vms), f, f.task(task), memoryOverhead) && AnyHost(machines, f, f.task(task), memoryOverhead)
      ensures placed.WokeUp? <==>
        && !AnyCandidate(old(vms), f, f.task(task), memoryOverhead)
        && !AnyHost(machines, f, f.task(task), memoryOverhead)
        && AnyWakeable(machines, f, f.task(task))
      ensures placed.Assigned? ==>
        && IsLeastLoaded(old(vms), f, f.task(task), memoryOverhead, placed.vm)
        && calls == old(calls) + [VmAddTask(placed.vm, task, DeterminePriority(f.task(task).requiredSla))]
        && taskToVm == old(taskToVm)[task := placed.vm]
        && vms == old(vms) && vmToMachine == old(vmToMachine) && machineToVms == old(machineToVms)
      ensures placed.CreatedOn? ==>
        && IsFirstHost(machines, f, f.task(task), memoryOverhead, placed.machine)
        && calls == old(calls) + [VmCreate(f.task(task).requiredVm, f.task(task).requiredCpu, newVm),
                                  VmAttach(newVm, placed.machine)]
        && vms == old(vms) + [newVm]
        && vmToMachine == old(vmToMachine)[newVm := placed.machine]
        && machineToVms == old(machineToVms)[placed.machine := Lookup(old(machineToVms), placed.machine, []) + [newVm]]
        && taskToVm == old(taskToVm)
      ensures placed.WokeUp? ==>
        && IsFirstWakeable(machines, f, f.task(task), placed.machine)
        && calls == old(calls) + [MachineSetState(placed.machine, S0)]
        && vms == old(vms) && vmToMachine == old(vmToMachine) && machineToVms == old(machineToVms)
        && taskToVm == old(taskToVm)
      ensures placed.Dropped? ==>
        && calls == old(calls)
        && vms == old(vms) && vmToMachine == old(vmToMachine) && machineToVms == old(machineToVms)
        && taskToVm == old(taskToVm)
    {
      var t := f.task(task);
      var priority := DeterminePriority(t.requiredSla);

      // Step 1
      var best := SelectVm(vms, f, t, memoryOverhead);
      if best != NoVm {
        AssignKeepsKnown(vms, vmToMachine, taskToVm, task, best);
        calls := calls + [VmAddTask(best, task, priority)];
        taskToVm := taskToVm[task := best];
        placed := Assigned(best);
        return;
      }

      // Step 2
      var host := FindHost(machines, f, t, memoryOverhead);
      if host.Some? {
        calls := calls + [VmCreate(t.requiredVm, t.requiredCpu, newVm), VmAttach(newVm, host.value)];
        RecordVm(newVm, host.value);
        placed := CreatedOn(host.value);
        return;
      }

      // Step 3
      var sleeper := FindWakeable(machines, f, t);
      if sleeper.Some? {
        calls := calls + [MachineSetState(sleeper.value, S0)];
        placed := WokeUp(sleeper.value);
        return;
      }

      // Step 4
      placed := Dropped;
    }

    /** PeriodicCheck: the idle sweep. Every pooled machine that reports no task
        and no VM and is in poweredOn is sent to S5 and leaves poweredOn. */
    method PeriodicCheck(f: Snapshot)
      requires Valid()
      modifies this`poweredOn, this`calls
      ensures Valid()
      ensures poweredOn == old(poweredOn) - IdleMachines(machines, f)
      ensures calls == old(calls) + SleepRequests(machines, old(poweredOn), f)
    {
      for k := 0 to |machines|
        invariant poweredOn == old(poweredOn) - IdleMachines(machines[..k], f)
        invariant calls == old(calls) + SleepRequests(machines[..k], old(poweredOn), f)
      {
        var m := machines[k];
        var info := f.machine(m);
        assert machines[..k + 1][..k] == machines[..k];
        assert m !in machines[..k];
        assert IdleMachines(machines[..k + 1], f)
            == IdleMachines(machines[..k], f) + (if Idle(info) then {m} else {});
        if info.activeTasks == 0 && info.activeVms == 0 && m in poweredOn {
          calls := calls + [MachineSetState(m, S5)];
          poweredOn := poweredOn - {m};
        }
      }
      assert machines[..|machines|] == machines;
    }

    /** TaskComplete: looks up the task's VM and the VM's machine through
        operator[] (a missing key reads, and is stored, as 0); if that machine
        reports no task, no VM and S0, shuts the VM down and sends the machine to S5. */
    method TaskComplete(task: TaskId, f: Snapshot)
      requires Valid()
      modifies this`taskToVm, this`vmToMachine, this`poweredOn, this`calls
      ensures Valid()
      ensures taskToVm == old(taskToVm)[task := Lookup(old(taskToVm), task, DefaultVm)]
      ensures var vm := Lookup(old(taskToVm), task, DefaultVm);
        vmToMachine == old(vmToMachine)[vm := Lookup(old(vmToMachine), vm, DefaultMachine)]
      ensures var vm := Lookup(old(taskToVm), task, DefaultVm);
        var m := Lookup(old(vmToMachine), vm, DefaultMachine);
        if ShutdownDue(f.machine(m))
        then calls == old(calls) + [VmShutdown(vm), MachineSetState(m, S5)] && poweredOn == old(poweredOn) - {m}
        else calls == old(calls) && poweredOn == old(poweredOn)
      ensures old(Tidy()) && (task in old(taskToVm) || DefaultVm in vms) ==> Tidy()
      ensures old(Tidy()) && task !in old(taskToVm) && DefaultVm !in vms ==> !Tidy()
    {
      DefaultReadsKeep(vms, vmToMachine, machineToVms, taskToVm, task);
      var vm := Lookup(taskToVm, task, DefaultVm);
      taskToVm := taskToVm[task := vm];
      var machine := Lookup(vmToMachine, vm, DefaultMachine);
      vmToMachine := vmToMachine[vm := machine];
      var info := f.machine(machine);
      if info.activeTasks == 0 && info.activeVms == 0 && info.sState == S0 {
        calls := calls + [VmShutdown(vm), MachineSetState(machine, S5)];
        poweredOn := poweredOn - {machine};
      }
      DefaultReadsConsistent(machines, vms, old(poweredOn), poweredOn, old(vmToMachine), machineToVms,
                             old(taskToVm), task);
    }

    /** Shutdown: sends VM_Shutdown to every VM in vms, in order. */
    method Shutdown()
      modifies this`calls
      ensures calls == old(calls) + ShutdownCalls(vms)
    {
      for k := 0 to |vms|
        invariant calls == old(calls) + ShutdownCalls(vms[..k])
      {
        assert vms[..k + 1][..k] == vms[..k];
        calls := calls + [VmShutdown(vms[k])];
      }
      assert vms[..|vms|] == vms;
    }

    /** SchedulerCheck: the periodic sweep, then the 32-bit counter; when the
        counter reaches 10, VM 1 is migrated to machine 9. */
    method SchedulerCheck(f: Snapshot)
      requires Valid()
      modifies this`poweredOn, this`calls, this`checks, this`nChecks
      ensures Valid()
      ensures nChecks == old(nChecks) + 1 && checks == Ticks(nChecks)
      ensures nChecks < Modulus32 ==> (checks == MigrateAt <==> nChecks == 10)
      ensures checks == (old(checks) + 1) % Modulus32
      ensures poweredOn == old(poweredOn) - IdleMachines(machines, f)
      ensures calls == old(calls) + SleepRequests(machines, old(poweredOn), f)
                       + (if checks == MigrateAt then [VmMigrate(1, 9)] else [])
    {
      PeriodicCheck(f);
      checks := (checks + 1) % Modulus32;
      nChecks := nChecks + 1;
      if nChecks < Modulus32 {
        MigratesOnlyOnTenthCall(nChecks);
      }
      if checks == MigrateAt {
        calls := calls + [VmMigrate(1, 9)];
      }
    }

    /** SLAWarning: raises the task's priority to HIGH. */
    method SlaWarning(task: TaskId)
      modifies this`calls
      ensures calls == old(calls) + [SetTaskPriority(task, HighPriority)]
    {
      calls := calls + [SetTaskPriority(task, HighPriority)];
    }
  }
}
