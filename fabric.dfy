/** The simulator interface the scheduler is written against: identifiers, the
    snapshot records the fabric reports on query, the control calls it accepts,
    and the 32-bit unsigned arithmetic the scheduler applies to what it reads. */
module Fabric {

  type MachineId = nat
  type VmId = nat
  type TaskId = nat

  /** 2^32: memory sizes, identifiers and the tick counter are 32-bit unsigned. */
  const Modulus32: nat := 0x1_0000_0000
  /** INT_MAX, the initial value of the running minimum in task placement. */
  const IntMax: int := 0x7FFF_FFFF
  /** (MachineId_t)-1: the host a VM reports while it is not attached. */
  const NoMachine: MachineId := 0xFFFF_FFFF
  /** VMId_t(-1): "no VM chosen yet" during task placement. */
  const NoVm: VmId := 0xFFFF_FFFF
  /** The value an unordered_map's operator[] inserts for a missing key. */
  const DefaultVm: VmId := 0
  const DefaultMachine: MachineId := 0

  datatype Option<T> = None | Some(value: T)

  datatype CpuType = ARM | POWER | RISCV | X86
  datatype VmType = LINUX | LINUX_RT | WIN | AIX
  /** The four SLA tiers, strictest first, and any other value of the enumeration. */
  datatype SlaType = SLA0 | SLA1 | SLA2 | SLA3 | UnknownSla(code: int)
  datatype Priority = HighPriority | MidPriority | LowPriority
  /** Machine power states: only S0 (running) and S5 (off) are distinguished;
      the intermediate sleep states are one value. */
  datatype SState = S0 | S5 | Intermediate

  datatype MachineInfo = MachineInfo(
    cpu: CpuType,
    memorySize: nat,
    memoryUsed: nat,
    gpus: bool,
    sState: SState,
    activeTasks: nat,
    activeVms: nat)

  datatype VmInfo = VmInfo(
    cpu: CpuType,
    vmType: VmType,
    machineId: MachineId,
    activeTasks: seq<TaskId>)

  /** gpuCapable is what IsTaskGPUCapable reports for the task. */
  datatype TaskInfo = TaskInfo(
    requiredCpu: CpuType,
    requiredVm: VmType,
    requiredMemory: nat,
    gpuCapable: bool,
    requiredSla: SlaType)

  /** What Machine_GetInfo, VM_GetInfo and GetTaskInfo answer during one event. */
  datatype Snapshot = Snapshot(
    machine: MachineId -> MachineInfo,
    vm: VmId -> VmInfo,
    task: TaskId -> TaskInfo)

  /** One control call issued to the fabric. */
  datatype Call =
    | VmCreate(vmType: VmType, cpu: CpuType, vm: VmId)
    | VmAttach(vm: VmId, machine: MachineId)
    | VmAddTask(vm: VmId, task: TaskId, priority: Priority)
    | VmShutdown(vm: VmId)
    | MachineSetState(machine: MachineId, state: SState)
    | VmMigrate(vm: VmId, machine: MachineId)
    | SetTaskPriority(task: TaskId, priority: Priority)

  /** Unsigned 32-bit subtraction: wraps around when b exceeds a. */
  function Sub32(a: nat, b: nat): (r: nat)
    ensures r < Modulus32
    ensures b <= a < Modulus32 ==> r == a - b
    ensures a < b < Modulus32 ==> r == Modulus32 + a - b
  {
    (a - b) % Modulus32
  }

  /** Unsigned 32-bit addition: wraps around past 2^32 - 1. */
  function Add32(a: nat, b: nat): (r: nat)
    ensures r < Modulus32
    ensures a + b < Modulus32 ==> r == a + b
    ensures a < Modulus32 && b < Modulus32 && Modulus32 <= a + b ==> r == a + b - Modulus32
  {
    (a + b) % Modulus32
  }

  /** The (int) cast of a container size: two's-complement truncation to 32 bits. */
  function Int32Of(n: nat): (r: int)
    ensures -0x8000_0000 <= r <= IntMax
    ensures n <= IntMax ==> r == n
  {
    var w := n % Modulus32;
    if w <= IntMax then w else w - Modulus32
  }

  /** Int32Of keeps the count's value modulo 2^32. */
  lemma Int32OfCongruent(n: nat)
    ensures (n - Int32Of(n)) % Modulus32 == 0
  {
  }

  /** unordered_map::operator[] as a read: the stored value, or the default. */
  function Lookup<K, V>(m: map<K, V>, k: K, default: V): V
  {
    if k in m then m[k] else default
  }

  predicate Distinct<T(==)>(s: seq<T>)
  {
    forall i, j :: 0 <= i < j < |s| ==> s[i] != s[j]
  }
}
