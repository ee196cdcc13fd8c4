/**
 The vCont packet of gdbstub.c: a list of actions, each for some threads, of which the leftmost one
 that matches a CPU counts.
 */
module VCont {
  import opened Options

  /** A CPU, its cpu_index, and its cluster if it has been assigned to one. */
  datatype Cpu = Cpu(index: nat, cluster: Option<nat>)

  datatype Process = Process(pid: nat, attached: bool)

  datatype Target = AllProcesses | AllThreads(pid: nat) | OneThread(pid: nat, tid: nat)

  /** 'c' or 's' with the threads it is for */
  datatype Action = Action(code: nat, target: Target)

  /** Crash is the use of a process that gdb_get_process did not find. */
  datatype Result = Ok | Einval | Crash

  const VALID: nat := 1

  /** What the stub knows: the list of CPUs, the processes and max_cpus. */
  datatype World = World(cpus: seq<Cpu>, processes: seq<Process>, maxCpus: nat)

  /** gdb_get_cpu_pid */
  function PidOf(w: World, c: Cpu): nat
    requires w.processes != []
  {
    if c.cluster.None? then w.processes[|w.processes| - 1].pid else c.cluster.value + 1
  }

  /** cpu_gdb_index */
  function ThreadId(c: Cpu): nat {
    c.index + 1
  }

  /** The first process with this pid, or the number of processes. */
  function ProcessAt(ps: seq<Process>, pid: nat, k: nat): (r: nat)
    requires k <= |ps|
    ensures k <= r <= |ps| && (r < |ps| ==> ps[r].pid == pid) && forall j | k <= j < r :: ps[j].pid != pid
    decreases |ps| - k
  {
    if k == |ps| || ps[k].pid == pid then k else ProcessAt(ps, pid, k + 1)
  }

  /** gdb_get_process: pid 0 stands for any process. */
  function GetProcess(w: World, pid: nat): Option<Process>
    requires w.processes != []
  {
    if pid == 0 then Some(w.processes[0]) else
    var k := ProcessAt(w.processes, pid, 0);
    if k < |w.processes| then Some(w.processes[k]) else None
  }

  ghost predicate WorldOk(w: World) {
    && w.cpus != [] && w.processes != []
    && (forall i | 0 <= i < |w.processes| :: w.processes[i].pid > 0)
    && (forall i | 0 <= i < |w.cpus| :: w.cpus[i].index < w.maxCpus && GetProcess(w, PidOf(w, w.cpus[i])).Some?)
    && (forall i, j | 0 <= i < j < |w.cpus| :: w.cpus[i].index != w.cpus[j].index)
  }

  /** The CPU's process is attached. */
  predicate Attached(w: World, c: Cpu)
    requires w.processes != []
  {
    var p := GetProcess(w, PidOf(w, c));
    p.Some? && p.value.attached
  }

  // -------------------------------------------------------------------------------------------
  // Which CPUs an action is for
  // -------------------------------------------------------------------------------------------

  /** The position of the first CPU from k on with property f, or the number of CPUs. */
  function FirstCpu(cpus: seq<Cpu>, f: Cpu -> bool, k: nat): (r: nat)
    requires k <= |cpus|
    ensures k <= r <= |cpus| && (r < |cpus| ==> f(cpus[r])) && forall j | k <= j < r :: !f(cpus[j])
    decreases |cpus| - k
  {
    if k == |cpus| || f(cpus[k]) then k else FirstCpu(cpus, f, k + 1)
  }

  function OfPid(w: World, pid: nat): Cpu -> bool
    requires w.processes != []
  {
    c => PidOf(w, c) == pid
  }

  function IsAttached(w: World): Cpu -> bool
    requires w.processes != []
  {
    c => Attached(w, c)
  }

  /** gdb_get_cpu: the position of the CPU that a thread specifier names, or the number of CPUs. */
  function GetCpu(w: World, pid: nat, tid: nat): (r: nat)
    requires w.processes != []
  {
    if pid == 0 && tid == 0 then FirstCpu(w.cpus, IsAttached(w), 0)
    else if tid == 0 then
      var p := GetProcess(w, pid);
      if p.None? || !p.value.attached then |w.cpus| else FirstCpu(w.cpus, OfPid(w, p.value.pid), 0)
    else
      var k := FirstCpu(w.cpus, c => ThreadId(c) == tid, 0);
      if k < |w.cpus| && (pid == 0 || PidOf(w, w.cpus[k]) == pid) && Attached(w, w.cpus[k]) then k else |w.cpus|
  }

  /** What handling an action for this target returns. */
  function Check(w: World, t: Target): Result
    requires w.processes != []
  {
    match t
    case AllProcesses => Ok
    case AllThreads(pid) =>
      var p := GetProcess(w, pid);
      if p.None? then Crash else if !p.value.attached then Einval else Ok
    case OneThread(pid, tid) => if GetCpu(w, pid, tid) < |w.cpus| then Ok else Einval
  }

  /** The action is for the k-th CPU. */
  predicate Matches(w: World, t: Target, k: nat)
    requires w.processes != [] && k < |w.cpus|
  {
    match t
    case AllProcesses => Attached(w, w.cpus[k])
    case AllThreads(pid) => GetProcess(w, pid).Some? && PidOf(w, w.cpus[k]) == GetProcess(w, pid).value.pid
    case OneThread(pid, tid) => k == GetCpu(w, pid, tid)
  }

  /** Action codes are 'c' and 's', not the mark of a CPU without an action. */
  predicate CodesOk(actions: seq<Action>) {
    forall i | 0 <= i < |actions| :: actions[i].code != VALID
  }

  /** What the k-th CPU has to do: the leftmost action for it. */
  function Leftmost(w: World, actions: seq<Action>, k: nat): nat
    requires w.processes != [] && k < |w.cpus|
  {
    if actions == [] then VALID
    else if Matches(w, actions[0].target, k) then actions[0].code
    else Leftmost(w, actions[1..], k)
  }

  /** Only CPUs of attached processes are resumed. */
  lemma {:induction false} OnlyAttached(w: World, actions: seq<Action>, k: nat)
    requires WorldOk(w) && k < |w.cpus| && (forall i | 0 <= i < |actions| :: Check(w, actions[i].target).Ok?)
    requires !Attached(w, w.cpus[k])
    ensures Leftmost(w, actions, k) == VALID
  {
    if actions != [] {
      assert Check(w, actions[0].target).Ok?;
      MatchIsAttached(w, actions[0].target, k);
      forall i | 0 <= i < |actions[1..]| ensures Check(w, actions[1..][i].target).Ok? {
        assert actions[1..][i] == actions[i + 1];
      }
      OnlyAttached(w, actions[1..], k);
    }
  }

  lemma {:induction false} MatchIsAttached(w: World, t: Target, k: nat)
    requires WorldOk(w) && k < |w.cpus| && Check(w, t).Ok?
    ensures Matches(w, t, k) ==> Attached(w, w.cpus[k])
  {
    if t.AllThreads? || (t.OneThread? && t.pid != 0 && GetProcess(w, t.pid).Some?) { SamePid(w, t.pid); }
  }

  /** Looking a process up by its own pid finds it. */
  lemma {:induction false} SamePid(w: World, pid: nat)
    requires WorldOk(w) && GetProcess(w, pid).Some?
    ensures GetProcess(w, GetProcess(w, pid).value.pid) == GetProcess(w, pid)
  {
  }

  // -------------------------------------------------------------------------------------------
  // Handling a packet
  // -------------------------------------------------------------------------------------------

  /** The first error, if any. */
  function FirstError(w: World, actions: seq<Action>): Result
    requires w.processes != []
  {
    if actions == [] then Ok
    else if !Check(w, actions[0].target).Ok? then Check(w, actions[0].target)
    else FirstError(w, actions[1..])
  }

  /** No CPU of an attached process is thread tid of process pid, where 0 stands for any. */
  ghost predicate NoSuchThread(w: World, pid: nat, tid: nat)
    requires w.processes != []
  {
    forall k | 0 <= k < |w.cpus| && Attached(w, w.cpus[k]) ::
      (pid != 0 && PidOf(w, w.cpus[k]) != pid) || (tid != 0 && ThreadId(w.cpus[k]) != tid)
  }

  /** The first process with this pid is not attached; 0 stands for the first process. */
  ghost predicate Detached(w: World, pid: nat)
    requires w.processes != []
  {
    exists i :: 0 <= i < |w.processes| && !w.processes[i].attached
      && (forall j | 0 <= j < i :: w.processes[j].pid != pid)
      && if pid == 0 then i == 0 else w.processes[i].pid == pid
  }

  /**
   How an action for target t goes wrong, if it does: only the process of an "all threads" target is used unchecked.
   */
  ghost predicate GoesWrong(w: World, t: Target, r: Result)
    requires w.processes != []
  {
    match t
    case AllProcesses => false
    case AllThreads(pid) =>
      || (r.Crash? && pid != 0 && forall i | 0 <= i < |w.processes| :: w.processes[i].pid != pid)
      || (r.Einval? && Detached(w, pid))
    case OneThread(pid, tid) => r.Einval? && NoSuchThread(w, pid, tid)
  }

  lemma {:induction false} CheckIs(w: World, t: Target, r: Result)
    requires WorldOk(w) && r != Ok
    ensures Check(w, t) == r <==> GoesWrong(w, t, r)
  {
    match t
    case AllProcesses =>
    case AllThreads(pid) => FoundIsFirst(w, pid);
    case OneThread(pid, tid) => GetCpuFinds(w, pid, tid);
  }

  lemma {:induction false} FoundIsFirst(w: World, pid: nat)
    requires WorldOk(w)
    ensures GetProcess(w, pid).None? <==> pid != 0 && forall i | 0 <= i < |w.processes| :: w.processes[i].pid != pid
    ensures GetProcess(w, pid).Some? && !GetProcess(w, pid).value.attached <==> Detached(w, pid)
  {
    var k := if pid == 0 then 0 else ProcessAt(w.processes, pid, 0);
    if k < |w.processes| && !w.processes[k].attached {
      assert forall j | 0 <= j < k :: w.processes[j].pid != pid;
    }
    if Detached(w, pid) {
      var i :| 0 <= i < |w.processes| && !w.processes[i].attached
        && (forall j | 0 <= j < i :: w.processes[j].pid != pid)
        && if pid == 0 then i == 0 else w.processes[i].pid == pid;
      assert i == k;
    }
  }

  lemma {:induction false} GetCpuFinds(w: World, pid: nat, tid: nat)
    requires WorldOk(w)
    ensures GetCpu(w, pid, tid) < |w.cpus| <==> !NoSuchThread(w, pid, tid)
  {
    if tid == 0 && pid != 0 && GetProcess(w, pid).Some? { SamePid(w, pid); }
  }

  /** Action i is the first that goes wrong, and it does so as r says. */
  ghost predicate FirstWrong(w: World, actions: seq<Action>, i: nat, r: Result)
    requires w.processes != []
  {
    && i < |actions| && GoesWrong(w, actions[i].target, r)
    && forall j | 0 <= j < i :: !GoesWrong(w, actions[j].target, Einval) && !GoesWrong(w, actions[j].target, Crash)
  }

  ghost predicate FailsAs(w: World, actions: seq<Action>, r: Result)
    requires w.processes != []
  {
    exists i: nat :: FirstWrong(w, actions, i, r)
  }

  /** When exactly the handling of a list of actions fails, and how. */
  lemma {:induction false} FirstErrorIs(w: World, actions: seq<Action>, r: Result)
    requires WorldOk(w) && r != Ok
    ensures FirstError(w, actions) == r <==> FailsAs(w, actions, r)
  {
    if actions != [] {
      var rest := actions[1..];
      FirstErrorIs(w, rest, r);
      CheckIs(w, actions[0].target, Einval);
      CheckIs(w, actions[0].target, Crash);
      if !Check(w, actions[0].target).Ok? {
        if Check(w, actions[0].target) == r { assert FirstWrong(w, actions, 0, r); }
      } else {
        if i: nat :| FirstWrong(w, rest, i, r) { assert FirstWrong(w, actions, i + 1, r); }
        if i: nat :| FirstWrong(w, actions, i, r) { assert i > 0 && FirstWrong(w, rest, i - 1, r); }
      }
    }
  }

  /** A vCont action for all threads of a process that does not exist */
  lemma {:induction false} UnknownProcessCrashes()
    ensures var w := World([Cpu(0, None)], [Process(1, true)], 1);
      WorldOk(w) && FirstError(w, [Action('c' as nat, AllThreads(2))]) == Crash
  {
    var w := World([Cpu(0, None)], [Process(1, true)], 1);
    assert GetProcess(w, PidOf(w, w.cpus[0])).Some?;
  }

  /** One more action only concerns CPUs that have none yet. */
  lemma {:induction false} LeftmostNext(w: World, actions: seq<Action>, a: Action, k: nat)
    requires w.processes != [] && k < |w.cpus| && CodesOk(actions)
    ensures Leftmost(w, actions + [a], k) ==
      if Leftmost(w, actions, k) == VALID && Matches(w, a.target, k) then a.code else Leftmost(w, actions, k)
  {
    if actions == [] {
      assert [] + [a] == [a] && [a][1..] == [];
    } else {
      assert (actions + [a])[1..] == actions[1..] + [a];
      LeftmostNext(w, actions[1..], a, k);
    }
  }

  /** gdb_first_attached_cpu */
  method FirstAttached(w: World) returns (k: nat)
    requires WorldOk(w)
    ensures k == FirstCpu(w.cpus, IsAttached(w), 0)
  {
    if !Attached(w, w.cpus[0]) {
      k := NextAttached(w, 0);
      return;
    }
    return 0;
  }

  /** gdb_next_attached_cpu */
  method NextAttached(w: World, cpu: nat) returns (k: nat)
    requires WorldOk(w) && cpu < |w.cpus|
    ensures k == FirstCpu(w.cpus, IsAttached(w), cpu + 1)
  {
    k := cpu + 1;
    while k < |w.cpus|
      invariant cpu < k <= |w.cpus| && FirstCpu(w.cpus, IsAttached(w), k) == FirstCpu(w.cpus, IsAttached(w), cpu + 1)
    {
      if Attached(w, w.cpus[k]) {
        break;
      }
      k := k + 1;
    }
  }

  /** get_first_cpu_in_process */
  method FirstInProcess(w: World, pid: nat) returns (k: nat)
    requires WorldOk(w)
    ensures k == FirstCpu(w.cpus, OfPid(w, pid), 0)
  {
    k := 0;
    while k < |w.cpus| && PidOf(w, w.cpus[k]) != pid
      invariant 0 <= k <= |w.cpus| && FirstCpu(w.cpus, OfPid(w, pid), k) == FirstCpu(w.cpus, OfPid(w, pid), 0)
    {
      k := k + 1;
    }
  }

  /** gdb_next_cpu_in_process */
  method NextInProcess(w: World, cpu: nat) returns (k: nat)
    requires WorldOk(w) && cpu < |w.cpus|
    ensures k == FirstCpu(w.cpus, OfPid(w, PidOf(w, w.cpus[cpu])), cpu + 1)
  {
    ghost var f := OfPid(w, PidOf(w, w.cpus[cpu]));
    k := cpu + 1;
    while k < |w.cpus|
      invariant cpu < k <= |w.cpus| && FirstCpu(w.cpus, f, k) == FirstCpu(w.cpus, f, cpu + 1)
    {
      if PidOf(w, w.cpus[k]) == PidOf(w, w.cpus[cpu]) {
        break;
      }
      k := k + 1;
    }
  }

  /** The states of the CPUs before position n have got the action if they match, the others are as before. */
  ghost predicate Marked(w: World, was: seq<nat>, now: seq<nat>, t: Target, code: nat, n: nat)
    requires WorldOk(w)
  {
    && |was| == |now| == w.maxCpus && n <= |w.cpus|
    && (forall k | 0 <= k < |w.cpus| :: now[w.cpus[k].index] ==
          if k < n && Matches(w, t, k) && was[w.cpus[k].index] == VALID then code else was[w.cpus[k].index])
    && (forall i | 0 <= i < |now| && (forall k | 0 <= k < |w.cpus| :: w.cpus[k].index != i) :: now[i] == was[i])
  }

  /** Marking the CPU at k, when no CPU from n up to k matches. */
  lemma {:induction false} MarkedNext(w: World, was: seq<nat>, now: seq<nat>, t: Target, code: nat, n: nat, k: nat)
    requires WorldOk(w) && Marked(w, was, now, t, code, n) && n <= k < |w.cpus| && Matches(w, t, k)
    requires forall j | n <= j < k :: !Matches(w, t, j)
    ensures var i := w.cpus[k].index;
      Marked(w, was, if now[i] == VALID then now[i := code] else now, t, code, k + 1)
  {
  }

  lemma {:induction false} MarkedRest(w: World, was: seq<nat>, now: seq<nat>, t: Target, code: nat, n: nat)
    requires WorldOk(w) && Marked(w, was, now, t, code, n) && forall j | n <= j < |w.cpus| :: !Matches(w, t, j)
    ensures Marked(w, was, now, t, code, |w.cpus|)
  {
  }

  /** The CPU at position k gets the action, unless it already has one. */
  method MarkCpu(w: World, states: array<nat>, a: Action, k: nat, ghost was: seq<nat>, ghost n: nat)
    requires WorldOk(w) && states.Length == w.maxCpus && n <= k < |w.cpus| && Matches(w, a.target, k)
    requires Marked(w, was, states[..], a.target, a.code, n) && forall j | n <= j < k :: !Matches(w, a.target, j)
    modifies states
    ensures Marked(w, was, states[..], a.target, a.code, k + 1)
  {
    MarkedNext(w, was, states[..], a.target, a.code, n, k);
    ghost var now := states[..];
    if states[w.cpus[k].index] == VALID {
      states[w.cpus[k].index] := a.code;
      assert states[..] == now[w.cpus[k].index := a.code];
    }
  }

  /** The case of one thread in gdb_handle_vcont */
  method MarkOne(w: World, states: array<nat>, a: Action)
    requires WorldOk(w) && states.Length == w.maxCpus && Check(w, a.target).Ok? && a.target.OneThread?
    modifies states
    ensures Marked(w, old(states[..]), states[..], a.target, a.code, |w.cpus|)
  {
    var cpu := GetCpu(w, a.target.pid, a.target.tid);
    ghost var was := states[..];
    MarkCpu(w, states, a, cpu, was, 0);
    MarkedRest(w, was, states[..], a.target, a.code, cpu + 1);
  }

  /** The loops over all attached CPUs and over the CPUs of a process in gdb_handle_vcont */
  method MarkMany(w: World, states: array<nat>, a: Action)
    requires WorldOk(w) && states.Length == w.maxCpus && Check(w, a.target).Ok? && !a.target.OneThread?
    modifies states
    ensures Marked(w, old(states[..]), states[..], a.target, a.code, |w.cpus|)
  {
    ghost var was, n := states[..], 0;
    var cpu := FirstMatch(w, a.target);
    while cpu < |w.cpus|
      invariant 0 <= n <= cpu <= |w.cpus| && (cpu < |w.cpus| ==> Matches(w, a.target, cpu))
      invariant forall j | n <= j < cpu :: !Matches(w, a.target, j)
      invariant Marked(w, was, states[..], a.target, a.code, n)
    {
      MarkCpu(w, states, a, cpu, was, n);
      n := cpu + 1;
      cpu := NextMatch(w, a.target, cpu);
    }
    MarkedRest(w, was, states[..], a.target, a.code, n);
  }

  /** The position that the iteration for this target starts with */
  method FirstMatch(w: World, t: Target) returns (k: nat)
    requires WorldOk(w) && Check(w, t).Ok? && !t.OneThread?
    ensures k <= |w.cpus| && (k < |w.cpus| ==> Matches(w, t, k)) && forall j | 0 <= j < k :: !Matches(w, t, j)
  {
    if t.AllProcesses? {
      k := FirstAttached(w);
    } else {
      k := FirstInProcess(w, GetProcess(w, t.pid).value.pid);
    }
  }

  /** The position that it goes on with */
  method NextMatch(w: World, t: Target, cpu: nat) returns (k: nat)
    requires WorldOk(w) && Check(w, t).Ok? && !t.OneThread? && cpu < |w.cpus| && Matches(w, t, cpu)
    ensures cpu < k <= |w.cpus| && (k < |w.cpus| ==> Matches(w, t, k)) && forall j | cpu < j < k :: !Matches(w, t, j)
  {
    if t.AllProcesses? {
      k := NextAttached(w, cpu);
    } else {
      k := NextInProcess(w, cpu);
    }
  }

  /** The switch of gdb_handle_vcont for one action that has no error */
  method Mark(w: World, states: array<nat>, a: Action)
    requires WorldOk(w) && states.Length == w.maxCpus && Check(w, a.target).Ok?
    modifies states
    ensures Marked(w, old(states[..]), states[..], a.target, a.code, |w.cpus|)
  {
    if a.target.OneThread? {
      MarkOne(w, states, a);
    } else {
      MarkMany(w, states, a);
    }
  }

  /** gdb_handle_vcont: if there is no error, every CPU has the leftmost action that matches it, or none. */
  method HandleVcont(w: World, actions: seq<Action>) returns (res: Result, states: array<nat>)
    requires WorldOk(w) && CodesOk(actions)
    ensures res == FirstError(w, actions) && states.Length == w.maxCpus
    ensures (res.Crash? <==> FailsAs(w, actions, Crash)) && (res.Einval? <==> FailsAs(w, actions, Einval))
    ensures res.Ok? ==> forall k | 0 <= k < |w.cpus| :: states[w.cpus[k].index] == Leftmost(w, actions, k)
    ensures res.Ok? ==> forall i | 0 <= i < w.maxCpus && (forall k | 0 <= k < |w.cpus| :: w.cpus[k].index != i) ::
      states[i] == 0
  {
    FirstErrorIs(w, actions, Crash);
    FirstErrorIs(w, actions, Einval);
    states := new nat[w.maxCpus](_ => 0);
    MarkValid(w, states);
    var i := 0;
    assert actions[0..] == actions;
    while i < |actions|
      invariant 0 <= i <= |actions| && FirstError(w, actions[i..]) == FirstError(w, actions)
      invariant Held(w, states[..], actions[..i])
    {
      assert actions[i..][1..] == actions[i + 1..] && actions[..i + 1] == actions[..i] + [actions[i]];
      var r := Check(w, actions[i].target);
      if !r.Ok? {
        return r, states;
      }
      ghost var was := states[..];
      Mark(w, states, actions[i]);
      HeldNext(w, was, states[..], actions[..i], actions[i]);
      i := i + 1;
    }
    assert actions[..i] == actions;
    return Ok, states;
  }

  /** Every CPU has its leftmost action so far. */
  ghost predicate Held(w: World, states: seq<nat>, actions: seq<Action>)
    requires WorldOk(w)
  {
    && |states| == w.maxCpus
    && (forall k | 0 <= k < |w.cpus| :: states[w.cpus[k].index] == Leftmost(w, actions, k))
    && (forall i | 0 <= i < |states| && (forall k | 0 <= k < |w.cpus| :: w.cpus[k].index != i) :: states[i] == 0)
  }

  lemma {:induction false} HeldNext(w: World, was: seq<nat>, now: seq<nat>, actions: seq<Action>, a: Action)
    requires WorldOk(w) && Held(w, was, actions) && Marked(w, was, now, a.target, a.code, |w.cpus|)
    requires CodesOk(actions)
    ensures Held(w, now, actions + [a])
  {
    forall k | 0 <= k < |w.cpus| ensures now[w.cpus[k].index] == Leftmost(w, actions + [a], k) {
      LeftmostNext(w, actions, a, k);
    }
  }

  /** The loop that marks the CPUs that exist */
  method MarkValid(w: World, states: array<nat>)
    requires WorldOk(w) && states.Length == w.maxCpus && forall i | 0 <= i < states.Length :: states[i] == 0
    modifies states
    ensures Held(w, states[..], [])
  {
    var i := 0;
    while i < |w.cpus|
      invariant 0 <= i <= |w.cpus|
      invariant forall k | 0 <= k < i :: states[w.cpus[k].index] == VALID
      invariant forall j | 0 <= j < states.Length && (forall k | 0 <= k < |w.cpus| :: w.cpus[k].index != j) ::
        states[j] == 0
    {
      states[w.cpus[i].index] := VALID;
      i := i + 1;
    }
  }
}
