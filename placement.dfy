/** The decisions NewTask takes: the priority of a task, and the three searches
    of its placement ladder (an existing VM, a running machine to host a new VM,
    a machine in S5 to wake), each with the eligibility test it applies. */
module Placement {
  import opened Fabric

  /** determinePriority: the fixed SLA-tier to priority table. */
  function DeterminePriority(sla: SlaType): (p: Priority)
    ensures p == HighPriority <==> sla == SLA0 || sla == SLA1
    ensures p == LowPriority <==> sla == SLA3
    ensures p == MidPriority <==> sla == SLA2 || sla.UnknownSla?
  {
    match sla
    case SLA0 => HighPriority
    case SLA1 => HighPriority
    case SLA2 => MidPriority
    case SLA3 => LowPriority
    case UnknownSla(_) => MidPriority
  }

  /** How strict a recognised tier is (SLA0 strictest) and how urgent a priority is. */
  function Strictness(sla: SlaType): nat
  {
    match sla
    case SLA0 => 3
    case SLA1 => 2
    case SLA2 => 1
    case SLA3 => 0
    case UnknownSla(_) => 1
  }

  function Urgency(p: Priority): nat
  {
    match p
    case HighPriority => 2
    case MidPriority => 1
    case LowPriority => 0
  }

  /** A stricter tier never gets a less urgent priority. */
  lemma StricterTierNeverLessUrgent(a: SlaType, b: SlaType)
    requires !a.UnknownSla? && !b.UnknownSla?
    requires Strictness(a) >= Strictness(b)
    ensures Urgency(DeterminePriority(a)) >= Urgency(DeterminePriority(b))
  {
  }

  // ---------------------------------------------------------------------------
  // Memory and GPU tests shared by steps 1 and 2

  /** memory_size - memory_used, computed in unsigned 32-bit arithmetic. */
  function FreeMemory(m: MachineInfo): nat
  {
    Sub32(m.memorySize, m.memoryUsed)
  }

  /** required_memory + VM_MEMORY_OVERHEAD, computed in unsigned 32-bit arithmetic. */
  function NeededMemory(t: TaskInfo, overhead: nat): nat
  {
    Add32(t.requiredMemory, overhead)
  }

  predicate HasRoom(m: MachineInfo, t: TaskInfo, overhead: nat)
  {
    FreeMemory(m) >= NeededMemory(t, overhead)
  }

  predicate GpuOk(m: MachineInfo, t: TaskInfo)
  {
    t.gpuCapable ==> m.gpus
  }

  /** Without wrap-around the memory test is the plain one. */
  lemma HasRoomWithoutWrap(m: MachineInfo, t: TaskInfo, overhead: nat)
    requires m.memoryUsed <= m.memorySize < Modulus32
    requires t.requiredMemory + overhead < Modulus32
    ensures HasRoom(m, t, overhead) <==> m.memorySize - m.memoryUsed >= t.requiredMemory + overhead
  {
  }

  /** An overcommitted machine (used above size) reports almost 2^32 of free memory. */
  lemma OvercommitWrapsFreeMemory(m: MachineInfo)
    requires m.memorySize < m.memoryUsed < Modulus32
    ensures FreeMemory(m) == Modulus32 - (m.memoryUsed - m.memorySize)
  {
  }

  // ---------------------------------------------------------------------------
  // Step 1: the least-loaded eligible existing VM

  /** The tests a VM must pass in step 1, in the order the source applies them. */
  predicate Eligible(f: Snapshot, v: VmId, t: TaskInfo, overhead: nat)
  {
    var info := f.vm(v);
    var host := f.machine(info.machineId);
    && info.machineId != NoMachine
    && host.sState == S0
    && info.cpu == t.requiredCpu
    && info.vmType == t.requiredVm
    && GpuOk(host, t)
    && HasRoom(host, t, overhead)
  }

  /** The load compared against min_tasks: (int) of the VM's active-task count. */
  function Load(info: VmInfo): int
  {
    Int32Of(|info.activeTasks|)
  }

  /** An eligible VM that can beat the initial min_tasks of INT_MAX. */
  predicate Candidate(f: Snapshot, v: VmId, t: TaskInfo, overhead: nat)
  {
    Eligible(f, v, t, overhead) && Load(f.vm(v)) < IntMax
  }

  predicate AnyCandidate(vms: seq<VmId>, f: Snapshot, t: TaskInfo, overhead: nat)
  {
    exists v :: v in vms && Candidate(f, v, t, overhead)
  }

  /** best is a candidate, no eligible VM has a smaller load, and every other
      candidate of the same load comes later in vms (the first minimum wins). */
  predicate IsLeastLoaded(vms: seq<VmId>, f: Snapshot, t: TaskInfo, overhead: nat, best: VmId)
  {
    && best in vms
    && Candidate(f, best, t, overhead)
    && (forall i :: 0 <= i < |vms| && Eligible(f, vms[i], t, overhead) ==>
          Load(f.vm(best)) <= Load(f.vm(vms[i])))
    && (forall i | 0 <= i < |vms| && Candidate(f, vms[i], t, overhead)
                   && Load(f.vm(vms[i])) == Load(f.vm(best)) ::
          FirstIndex(vms, best) <= i)
  }

  /** The position of the first occurrence of x in s. */
  function FirstIndex<T(==)>(s: seq<T>, x: T): (i: nat)
    requires x in s
    ensures i < |s| && s[i] == x && x !in s[..i]
  {
    if s[0] == x then 0
    else
      var i := 1 + FirstIndex(s[1..], x);
      assert s[..i] == [s[0]] + s[1..][..i - 1];
      i
  }

  /** The element at position k first occurs no later than k. */
  lemma FirstIndexAtMost<T>(s: seq<T>, k: nat)
    requires k < |s|
    ensures FirstIndex(s, s[k]) <= k
  {
  }

  /** IsLeastLoaded determines the chosen VM: at most one VM satisfies it. */
  lemma LeastLoadedUnique(vms: seq<VmId>, f: Snapshot, t: TaskInfo, overhead: nat, a: VmId, b: VmId)
    requires IsLeastLoaded(vms, f, t, overhead, a)
    requires IsLeastLoaded(vms, f, t, overhead, b)
    ensures a == b
  {
    var p := FirstIndex(vms, a);
    var q := FirstIndex(vms, b);
    assert Load(f.vm(a)) <= Load(f.vm(vms[q])) && Load(f.vm(b)) <= Load(f.vm(vms[p]));
  }

  /** The first minimum wins: every eligible VM placed before the chosen one
      carries strictly more load. */
  lemma LeastLoadedBeatsEarlier(vms: seq<VmId>, f: Snapshot, t: TaskInfo, overhead: nat, best: VmId, i: nat)
    requires IsLeastLoaded(vms, f, t, overhead, best)
    requires i < FirstIndex(vms, best) && Eligible(f, vms[i], t, overhead)
    ensures Load(f.vm(best)) < Load(f.vm(vms[i]))
  {
    if Load(f.vm(vms[i])) == Load(f.vm(best)) {
      assert Candidate(f, vms[i], t, overhead);
    }
  }

  /** The state of step 1's loop after scanning vms[..k]: best is the first
      least-loaded candidate so far (or NoVm when there is none), and minTasks
      its load (or INT_MAX). */
  ghost predicate SelectInv(vms: seq<VmId>, f: Snapshot, t: TaskInfo, overhead: nat,
                            k: nat, best: VmId, minTasks: int)
  {
    && k <= |vms|
    && (best == NoVm <==> forall i :: 0 <= i < k ==> !Candidate(f, vms[i], t, overhead))
    && (best == NoVm ==> minTasks == IntMax)
    && (best != NoVm ==>
          best in vms && FirstIndex(vms, best) < k
          && Candidate(f, best, t, overhead) && minTasks == Load(f.vm(best)))
    && (forall i :: 0 <= i < k && Eligible(f, vms[i], t, overhead) ==>
          minTasks <= Load(f.vm(vms[i])))
    && (forall i | 0 <= i < k && Candidate(f, vms[i], t, overhead)
                   && Load(f.vm(vms[i])) == minTasks ::
          best != NoVm && FirstIndex(vms, best) <= i)
  }

  /** One round of step 1's loop: vms[k] replaces the running choice exactly
      when it is eligible and strictly less loaded. */
  lemma SelectStep(vms: seq<VmId>, f: Snapshot, t: TaskInfo, overhead: nat,
                   k: nat, best: VmId, minTasks: int)
    requires NoVm !in vms && k < |vms|
    requires SelectInv(vms, f, t, overhead, k, best, minTasks)
    ensures Eligible(f, vms[k], t, overhead) && Load(f.vm(vms[k])) < minTasks ==>
      SelectInv(vms, f, t, overhead, k + 1, vms[k], Load(f.vm(vms[k])))
    ensures !(Eligible(f, vms[k], t, overhead) && Load(f.vm(vms[k])) < minTasks) ==>
      SelectInv(vms, f, t, overhead, k + 1, best, minTasks)
  {
    if Eligible(f, vms[k], t, overhead) && Load(f.vm(vms[k])) < minTasks {
      SelectTake(vms, f, t, overhead, k, best, minTasks);
    } else {
      SelectSkip(vms, f, t, overhead, k, best, minTasks);
    }
  }

  lemma SelectTake(vms: seq<VmId>, f: Snapshot, t: TaskInfo, overhead: nat,
                   k: nat, best: VmId, minTasks: int)
    requires NoVm !in vms && k < |vms|
    requires SelectInv(vms, f, t, overhead, k, best, minTasks)
    requires Eligible(f, vms[k], t, overhead) && Load(f.vm(vms[k])) < minTasks
    ensures SelectInv(vms, f, t, overhead, k + 1, vms[k], Load(f.vm(vms[k])))
  {
    FirstIndexAtMost(vms, k);
  }

  lemma SelectSkip(vms: seq<VmId>, f: Snapshot, t: TaskInfo, overhead: nat,
                   k: nat, best: VmId, minTasks: int)
    requires k < |vms|
    requires SelectInv(vms, f, t, overhead, k, best, minTasks)
    requires !Eligible(f, vms[k], t, overhead) || Load(f.vm(vms[k])) >= minTasks
    ensures SelectInv(vms, f, t, overhead, k + 1, best, minTasks)
  {
  }

  /** After the whole scan the running choice meets step 1's specification. */
  lemma SelectDone(vms: seq<VmId>, f: Snapshot, t: TaskInfo, overhead: nat, best: VmId, minTasks: int)
    requires SelectInv(vms, f, t, overhead, |vms|, best, minTasks)
    ensures best == NoVm <==> !AnyCandidate(vms, f, t, overhead)
    ensures best != NoVm ==> IsLeastLoaded(vms, f, t, overhead, best)
  {
  }

  /** Step 1's loop: keeps the first VM whose load is strictly below the running minimum. */
  method SelectVm(vms: seq<VmId>, f: Snapshot, t: TaskInfo, overhead: nat) returns (best: VmId)
    requires NoVm !in vms
    ensures best == NoVm <==> !AnyCandidate(vms, f, t, overhead)
    ensures best != NoVm ==> IsLeastLoaded(vms, f, t, overhead, best)
  {
    best := NoVm;
    var minTasks := IntMax;
    for k := 0 to |vms|
      invariant SelectInv(vms, f, t, overhead, k, best, minTasks)
    {
      SelectStep(vms, f, t, overhead, k, best, minTasks);
      var vm := vms[k];
      var info := f.vm(vm);
      var host := f.machine(info.machineId);
      if info.machineId == NoMachine { continue; }
      if host.sState != S0 { continue; }
      if info.cpu != t.requiredCpu || info.vmType != t.requiredVm { continue; }
      if t.gpuCapable && !host.gpus { continue; }
      if FreeMemory(host) < NeededMemory(t, overhead) { continue; }
      if Load(info) < minTasks {
        best := vm;
        minTasks := Load(info);
      }
    }
    SelectDone(vms, f, t, overhead, best, minTasks);
  }

  // ---------------------------------------------------------------------------
  // Step 2: the first running machine that can host a new VM for the task

  predicate CanHost(m: MachineInfo, t: TaskInfo, overhead: nat)
  {
    && m.sState == S0
    && m.cpu == t.requiredCpu
    && GpuOk(m, t)
    && HasRoom(m, t, overhead)
  }

  predicate AnyHost(machines: seq<MachineId>, f: Snapshot, t: TaskInfo, overhead: nat)
  {
    exists m :: m in machines && CanHost(f.machine(m), t, overhead)
  }

  /** m qualifies and every qualifying machine comes no earlier than m. */
  predicate IsFirstHost(machines: seq<MachineId>, f: Snapshot, t: TaskInfo, overhead: nat, m: MachineId)
  {
    && m in machines
    && CanHost(f.machine(m), t, overhead)
    && forall i | 0 <= i < |machines| && CanHost(f.machine(machines[i]), t, overhead) ::
         FirstIndex(machines, m) <= i
  }

  /** IsFirstHost determines the chosen machine. */
  lemma FirstHostUnique(machines: seq<MachineId>, f: Snapshot, t: TaskInfo, overhead: nat, a: MachineId, b: MachineId)
    requires IsFirstHost(machines, f, t, overhead, a)
    requires IsFirstHost(machines, f, t, overhead, b)
    ensures a == b
  {
    var p, q := FirstIndex(machines, a), FirstIndex(machines, b);
    assert p <= q && q <= p;
  }

  method FindHost(machines: seq<MachineId>, f: Snapshot, t: TaskInfo, overhead: nat)
    returns (host: Option<MachineId>)
    ensures host.None? <==> !AnyHost(machines, f, t, overhead)
    ensures host.Some? ==> IsFirstHost(machines, f, t, overhead, host.value)
  {
    for k := 0 to |machines|
      invariant forall i :: 0 <= i < k ==> !CanHost(f.machine(machines[i]), t, overhead)
    {
      var info := f.machine(machines[k]);
      if info.sState != S0 || info.cpu != t.requiredCpu { continue; }
      if t.gpuCapable && !info.gpus { continue; }
      if FreeMemory(info) < NeededMemory(t, overhead) { continue; }
      FirstIndexAtMost(machines, k);
      return Some(machines[k]);
    }
    return None;
  }

  // ---------------------------------------------------------------------------
  // Step 3: the first machine in S5 with the task's CPU (memory and GPU unchecked)

  predicate Wakeable(m: MachineInfo, t: TaskInfo)
  {
    m.sState == S5 && m.cpu == t.requiredCpu
  }

  predicate AnyWakeable(machines: seq<MachineId>, f: Snapshot, t: TaskInfo)
  {
    exists m :: m in machines && Wakeable(f.machine(m), t)
  }

  predicate IsFirstWakeable(machines: seq<MachineId>, f: Snapshot, t: TaskInfo, m: MachineId)
  {
    && m in machines
    && Wakeable(f.machine(m), t)
    && forall i | 0 <= i < |machines| && Wakeable(f.machine(machines[i]), t) ::
         FirstIndex(machines, m) <= i
  }

  /** IsFirstWakeable determines the machine woken. */
  lemma FirstWakeableUnique(machines: seq<MachineId>, f: Snapshot, t: TaskInfo, a: MachineId, b: MachineId)
    requires IsFirstWakeable(machines, f, t, a)
    requires IsFirstWakeable(machines, f, t, b)
    ensures a == b
  {
    var p, q := FirstIndex(machines, a), FirstIndex(machines, b);
    assert p <= q && q <= p;
  }

  method FindWakeable(machines: seq<MachineId>, f: Snapshot, t: TaskInfo) returns (sleeper: Option<MachineId>)
    ensures sleeper.None? <==> !AnyWakeable(machines, f, t)
    ensures sleeper.Some? ==> IsFirstWakeable(machines, f, t, sleeper.value)
  {
    for k := 0 to |machines|
      invariant forall i :: 0 <= i < k ==> !Wakeable(f.machine(machines[i]), t)
    {
      var info := f.machine(machines[k]);
      if info.sState == S5 && info.cpu == t.requiredCpu {
        FirstIndexAtMost(machines, k);
        return Some(machines[k]);
      }
    }
    return None;
  }
}
