/** The scheduler's directory, as values: the invariants that tie its pool of
    machines, its VMs and its three maps together, and the updates the event
    handlers make to it, each proved to keep those invariants. */
module Directory {
  import opened Fabric

  /** vmToMachine and machineToVms describe one hosting relation over the known
      VMs: v is listed under m exactly when vmToMachine[v] == m, once. */
  ghost predicate HostsAgree(vms: seq<VmId>, vmToMachine: map<VmId, MachineId>,
                             machineToVms: map<MachineId, seq<VmId>>)
  {
    && (forall v :: v in vms ==>
          v in vmToMachine && vmToMachine[v] in machineToVms && v in machineToVms[vmToMachine[v]])
    && (forall m, v :: m in machineToVms && v in machineToVms[m] ==>
          v in vms && vmToMachine[v] == m)
    && (forall m :: m in machineToVms ==> Distinct(machineToVms[m]))
  }

  /** Every key of vmToMachine is a known VM, or the default id 0 that
      operator[] inserts for a missing key. */
  ghost predicate KeysKnownOrDefault(vms: seq<VmId>, vmToMachine: map<VmId, MachineId>)
  {
    forall v :: v in vmToMachine ==> v in vms || v == DefaultVm
  }

  ghost predicate TasksKnownOrDefault(vms: seq<VmId>, taskToVm: map<TaskId, VmId>)
  {
    forall t :: t in taskToVm ==> taskToVm[t] in vms || taskToVm[t] == DefaultVm
  }

  /** The strict form: no entry names anything but a known VM. */
  ghost predicate NoDangling(vms: seq<VmId>, vmToMachine: map<VmId, MachineId>, taskToVm: map<TaskId, VmId>)
  {
    && (forall v :: v in vmToMachine <==> v in vms)
    && (forall t :: t in taskToVm ==> taskToVm[t] in vms)
  }

  /** The scheduler's directory invariant: distinct machines and VMs, no VM
      with the "none" id, poweredOn and machineToVms's keys inside the pool,
      one hosting relation, and map contents that name known VMs or the default id. */
  ghost predicate Consistent(machines: seq<MachineId>, vms: seq<VmId>, poweredOn: set<MachineId>,
                             vmToMachine: map<VmId, MachineId>, machineToVms: map<MachineId, seq<VmId>>,
                             taskToVm: map<TaskId, VmId>)
  {
    && Distinct(machines)
    && Distinct(vms)
    && NoVm !in vms
    && (forall m :: m in poweredOn ==> m in machines)
    && (forall m :: m in machineToVms ==> m in machines)
    && HostsAgree(vms, vmToMachine, machineToVms)
    && KeysKnownOrDefault(vms, vmToMachine)
    && TasksKnownOrDefault(vms, taskToVm)
  }

  lemma AppendAssociative<T>(a: seq<T>, b: seq<T>, c: seq<T>)
    ensures a + b + c == a + (b + c)
  {
  }

  lemma DistinctAppend<T>(s: seq<T>, x: T)
    requires Distinct(s) && x !in s
    ensures Distinct(s + [x])
  {
  }

  /** Registering a new VM under machine m keeps the hosting relation consistent. */
  lemma RecordKeepsHostsAgree(vms: seq<VmId>, vmToMachine: map<VmId, MachineId>,
                              machineToVms: map<MachineId, seq<VmId>>, vm: VmId, m: MachineId)
    requires HostsAgree(vms, vmToMachine, machineToVms)
    requires vm !in vms
    ensures HostsAgree(vms + [vm], vmToMachine[vm := m],
                       machineToVms[m := Lookup(machineToVms, m, []) + [vm]])
  {
    var hosted := Lookup(machineToVms, m, []);
    assert vm !in hosted;
    DistinctAppend(hosted, vm);
    var vms', vtm', mtv' := vms + [vm], vmToMachine[vm := m], machineToVms[m := hosted + [vm]];
    forall v | v in vms'
      ensures v in vtm' && vtm'[v] in mtv' && v in mtv'[vtm'[v]]
    {
      if v != vm {
        assert v in vms;
      }
    }
    forall m', v | m' in mtv' && v in mtv'[m']
      ensures v in vms' && vtm'[v] == m'
    {
      if m' == m && v !in hosted {
        assert v == vm;
      }
    }
  }

  /** Registering a new VM keeps the default-key and task conditions. */
  lemma RecordKeepsKnown(vms: seq<VmId>, vmToMachine: map<VmId, MachineId>,
                         taskToVm: map<TaskId, VmId>, vm: VmId, m: MachineId)
    requires KeysKnownOrDefault(vms, vmToMachine) && TasksKnownOrDefault(vms, taskToVm)
    ensures KeysKnownOrDefault(vms + [vm], vmToMachine[vm := m])
    ensures TasksKnownOrDefault(vms + [vm], taskToVm)
    ensures NoDangling(vms, vmToMachine, taskToVm) ==> NoDangling(vms + [vm], vmToMachine[vm := m], taskToVm)
  {
  }

  /** Assigning a task to a known VM keeps the task condition, strict form included. */
  lemma AssignKeepsKnown(vms: seq<VmId>, vmToMachine: map<VmId, MachineId>,
                         taskToVm: map<TaskId, VmId>, task: TaskId, vm: VmId)
    requires vm in vms && TasksKnownOrDefault(vms, taskToVm)
    ensures TasksKnownOrDefault(vms, taskToVm[task := vm])
    ensures NoDangling(vms, vmToMachine, taskToVm) ==> NoDangling(vms, vmToMachine, taskToVm[task := vm])
  {
  }

  /** Reading a task's VM and that VM's machine through operator[], each read
      storing its result, keeps the relaxed invariants; the strict one survives
      exactly when the stored VM id is a known VM. */
  lemma DefaultReadsKeep(vms: seq<VmId>, vmToMachine: map<VmId, MachineId>,
                         machineToVms: map<MachineId, seq<VmId>>, taskToVm: map<TaskId, VmId>, task: TaskId)
    requires HostsAgree(vms, vmToMachine, machineToVms)
    requires KeysKnownOrDefault(vms, vmToMachine) && TasksKnownOrDefault(vms, taskToVm)
    ensures var vm := Lookup(taskToVm, task, DefaultVm);
      var vtm' := vmToMachine[vm := Lookup(vmToMachine, vm, DefaultMachine)];
      var ttv' := taskToVm[task := vm];
      && HostsAgree(vms, vtm', machineToVms)
      && KeysKnownOrDefault(vms, vtm') && TasksKnownOrDefault(vms, ttv')
      && (NoDangling(vms, vmToMachine, taskToVm) ==>
            (NoDangling(vms, vtm', ttv') <==> task in taskToVm || DefaultVm in vms))
  {
    var vm := Lookup(taskToVm, task, DefaultVm);
    var vtm' := vmToMachine[vm := Lookup(vmToMachine, vm, DefaultMachine)];
    if vm in vmToMachine {
      assert vtm' == vmToMachine;
    } else {
      assert vm !in vms;
      forall m, v | m in machineToVms && v in machineToVms[m]
        ensures v in vms && vtm'[v] == m
      {
      }
    }
  }

  /** TaskComplete's whole update: the two operator[] reads, and a powered-on
      set that can only shrink, keep the directory consistent. */
  lemma DefaultReadsConsistent(machines: seq<MachineId>, vms: seq<VmId>, poweredOn: set<MachineId>,
                               poweredOn': set<MachineId>, vmToMachine: map<VmId, MachineId>,
                               machineToVms: map<MachineId, seq<VmId>>, taskToVm: map<TaskId, VmId>,
                               task: TaskId)
    requires Consistent(machines, vms, poweredOn, vmToMachine, machineToVms, taskToVm)
    requires poweredOn' <= poweredOn
    ensures var vm := Lookup(taskToVm, task, DefaultVm);
      Consistent(machines, vms, poweredOn', vmToMachine[vm := Lookup(vmToMachine, vm, DefaultMachine)],
                 machineToVms, taskToVm[task := vm])
  {
    DefaultReadsKeep(vms, vmToMachine, machineToVms, taskToVm, task);
  }
}
