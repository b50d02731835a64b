/** The power manager's tests and the requests its periodic idle sweep issues. */
module Power {
  import opened Fabric

  /** A machine that reports no active task and no active VM. */
  predicate Idle(m: MachineInfo)
  {
    m.activeTasks == 0 && m.activeVms == 0
  }

  /** The completion-triggered test: idle and still in S0. */
  predicate ShutdownDue(m: MachineInfo)
  {
    Idle(m) && m.sState == S0
  }

  /** The machines of ms that report idle. */
  function IdleMachines(ms: seq<MachineId>, f: Snapshot): set<MachineId>
  {
    set m | m in ms && Idle(f.machine(m))
  }

  /** The S5 requests the sweep issues, in the order of ms: one for each idle
      machine of ms that is in `on`, the powered-on set as the sweep starts.
      That matches the sweep's shrinking set when ms has no repeated ids, since
      each erase then removes a machine the sweep does not meet again. */
  function SleepRequests(ms: seq<MachineId>, on: set<MachineId>, f: Snapshot): seq<Call>
  {
    if ms == [] then []
    else
      var m := ms[|ms| - 1];
      SleepRequests(ms[..|ms| - 1], on, f)
        + (if Idle(f.machine(m)) && m in on then [MachineSetState(m, S5)] else [])
  }

  /** Every request of the sweep sends an idle, powered-on machine of ms to S5,
      and every such machine is sent one. */
  lemma {:induction false} SleepRequestsTargets(ms: seq<MachineId>, on: set<MachineId>, f: Snapshot)
    ensures forall c | c in SleepRequests(ms, on, f) ::
      && c.MachineSetState?
      && c.state == S5
      && c.machine in ms
      && c.machine in on
      && Idle(f.machine(c.machine))
    ensures forall m | m in ms && m in on && Idle(f.machine(m)) ::
      MachineSetState(m, S5) in SleepRequests(ms, on, f)
  {
    if ms != [] {
      var init := ms[..|ms| - 1];
      SleepRequestsTargets(init, on, f);
      assert ms == init + [ms[|ms| - 1]];
    }
  }

  /** With distinct machine ids, each idle powered-on machine gets exactly one
      S5 request and every other machine none. */
  lemma {:induction false} SleepRequestsOnce(ms: seq<MachineId>, on: set<MachineId>, f: Snapshot, m: MachineId)
    requires Distinct(ms)
    ensures multiset(SleepRequests(ms, on, f))[MachineSetState(m, S5)]
              == if m in ms && m in on && Idle(f.machine(m)) then 1 else 0
  {
    if ms != [] {
      var init := ms[..|ms| - 1];
      var last := ms[|ms| - 1];
      assert ms == init + [last];
      assert Distinct(init);
      SleepRequestsOnce(init, on, f, m);
      assert last !in init;
    }
  }
}
