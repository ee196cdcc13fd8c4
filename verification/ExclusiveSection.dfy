/**
 The exclusive-section protocol of cpus-common.c as an interleaved step machine.

 Every thread has a program counter; each step performs one shared-memory access, one lock
 operation or one condition-variable operation, so the unlocked accesses of cpu_exec_start and
 cpu_exec_end race with the scan of start_exclusive exactly as in the code.  Steps are
 sequentially consistent, which is what the smp_mb() calls buy.  A condition wait may also end
 without a signal.
 */
module ExclusiveSection {

  /** A thread; the thread of a virtual CPU carries the CPU's identity. */
  type Thread = nat

  datatype Owner = Free | Held(holder: Thread)

  datatype Cond = ExclusiveCond | ExclusiveResume

  /** Points inside qemu_cpu_list_lock.  Each name is the access that is performed next. */
  datatype Critical =
      // cpu_exec_start
    | StartCheck | StartLoop | StartRerun
      // cpu_exec_end
    | EndCheck | EndDrop | EndSignal
      // start_exclusive
    | BeginLoop | BeginPublish | WaitLoop
    | Scan(todo: set<Thread>, found: nat)
    | Mark(cpu: Thread, todo: set<Thread>, found: nat)
      // end_exclusive
    | FinishClear | FinishBroadcast
      // cpu_list_add, cpu_list_remove
    | ListAdd | ListRemove
      // qemu_mutex_unlock at the end of each function
    | UnlockToOutside | UnlockToExecuting | UnlockToExclusive

  datatype Pc =
    | Outside                              // neither executing nor exclusive
    | StartRead                            // cpu_exec_start, about to read pending_cpus
    | Executing                            // between cpu_exec_start and cpu_exec_end
    | EndRead                              // cpu_exec_end, about to read pending_cpus
    | Exclusive                            // between start_exclusive and end_exclusive
    | Lock(next: Critical)                 // about to acquire the lock
    | Sleep(cond: Cond, next: Critical)    // blocked in qemu_cond_wait, lock released
    | In(at: Critical)                     // holding the lock

  datatype State = State(
    lock: Owner,             // qemu_cpu_list_lock
    pending: int,            // pending_cpus
    cpus: set<Thread>,       // the CPU list
    running: set<Thread>,    // CPUs whose running flag is set
    hasWaiter: set<Thread>,  // CPUs whose has_waiter flag is set
    pc: map<Thread, Pc>
  )

  // -------------------------------------------------------------------------------------------
  // Steps
  // -------------------------------------------------------------------------------------------

  ghost predicate Init(s: State) {
    && s.lock == Free && s.pending == 0
    && s.running == {} && s.hasWaiter == {}
    && s.cpus <= s.pc.Keys
    && forall t | t in s.pc :: s.pc[t] == Outside
  }

  function Goto(s: State, t: Thread, p: Pc): State {
    s.(pc := s.pc[t := p])
  }

  /** Release the lock, either for good or while waiting for a condition. */
  function Release(s: State, t: Thread, p: Pc): State {
    Goto(s, t, p).(lock := Free)
  }

  /** Steps that the surrounding program decides on: entering and leaving the protocol. */
  ghost predicate ClientStep(s: State, t: Thread, s': State)
    requires t in s.pc
  {
    match s.pc[t]
    case Outside =>
      || (t in s.cpus && s' == Goto(s, t, StartRead).(running := s.running + {t}))
      || s' == Goto(s, t, Lock(BeginLoop))
      || (t !in s.cpus && s' == Goto(s, t, Lock(ListAdd)))
      || (t in s.cpus && s' == Goto(s, t, Lock(ListRemove)))
    case Executing => s' == Goto(s, t, EndRead).(running := s.running - {t})
    case Exclusive => s' == Goto(s, t, Lock(FinishClear))
    case _ => false
  }

  /** A condition wait that returns without having been signalled. */
  ghost predicate SpuriousWake(s: State, t: Thread, s': State)
    requires t in s.pc
  {
    s.pc[t].Sleep? && s' == Goto(s, t, Lock(s.pc[t].next))
  }

  ghost predicate LockStep(s: State, t: Thread, s': State)
    requires t in s.pc
  {
    s.pc[t].Lock? && s.lock == Free && s' == Goto(s, t, In(s.pc[t].next)).(lock := Held(t))
  }

  /** The reads of pending_cpus in cpu_exec_start and cpu_exec_end, outside the lock. */
  ghost predicate ReadStep(s: State, t: Thread, s': State)
    requires t in s.pc
  {
    match s.pc[t]
    case StartRead => s' == Goto(s, t, if s.pending == 0 then Executing else Lock(StartCheck))
    case EndRead => s' == Goto(s, t, if s.pending == 0 then Outside else Lock(EndCheck))
    case _ => false
  }

  /** qemu_cond_signal(&exclusive_cond): some sleeper wakes up, if there is one. */
  ghost predicate Signal(s: State, t: Thread, s': State) {
    if exists u :: SleepsOn(s, u, ExclusiveCond) then
      exists u :: SleepsOn(s, u, ExclusiveCond) && s' == Goto(Goto(s, u, Lock(s.pc[u].next)), t, In(UnlockToOutside))
    else
      s' == Goto(s, t, In(UnlockToOutside))
  }

  predicate SleepsOn(s: State, u: Thread, cond: Cond) {
    u in s.pc && s.pc[u].Sleep? && s.pc[u].cond == cond
  }

  /** qemu_cond_broadcast(&exclusive_resume): every sleeper in exclusive_idle wakes up. */
  function Resumed(pc: map<Thread, Pc>): map<Thread, Pc> {
    map t | t in pc :: if pc[t].Sleep? && pc[t].cond == ExclusiveResume then Lock(pc[t].next) else pc[t]
  }

  predicate InExec(p: Pc) {
    p.In? && (p.at.StartCheck? || p.at.StartLoop? || p.at.StartRerun? || p.at.EndCheck? || p.at.EndDrop?
      || p.at.EndSignal?)
  }

  predicate InBegin(p: Pc) {
    p.In? && (p.at.BeginLoop? || p.at.BeginPublish? || p.at.Scan? || p.at.Mark? || p.at.WaitLoop?)
  }

  /** cpu_exec_start and cpu_exec_end inside the lock, up to the choice of whom to wake */
  function ExecNext(s: State, t: Thread): State
    requires t in s.pc && InExec(s.pc[t])
  {
    match s.pc[t].at
    case StartCheck =>
      if t in s.hasWaiter then Goto(s, t, In(UnlockToExecuting))
      else Goto(s, t, In(StartLoop)).(running := s.running - {t})
    case StartLoop =>
      if s.pending != 0 then Release(s, t, Sleep(ExclusiveResume, StartLoop)) else Goto(s, t, In(StartRerun))
    case StartRerun => Goto(s, t, In(UnlockToExecuting)).(running := s.running + {t})
    case EndCheck =>
      if t in s.hasWaiter then Goto(s, t, In(EndDrop)).(hasWaiter := s.hasWaiter - {t})
      else Goto(s, t, In(UnlockToOutside))
    case EndDrop => Goto(s, t, In(EndSignal)).(pending := s.pending - 1)
    case EndSignal => Goto(s, t, In(UnlockToOutside))
  }

  ghost predicate ExecStep(s: State, t: Thread, s': State)
    requires t in s.pc
  {
    InExec(s.pc[t]) &&
    if s.pc[t].at.EndSignal? && s.pending == 1 then Signal(s, t, s') else s' == ExecNext(s, t)
  }

  /** start_exclusive inside the lock, up to the order in which CPUs are visited */
  function BeginNext(s: State, t: Thread): State
    requires t in s.pc && InBegin(s.pc[t])
  {
    match s.pc[t].at
    case BeginLoop =>
      if s.pending != 0 then Release(s, t, Sleep(ExclusiveResume, BeginLoop)) else Goto(s, t, In(BeginPublish))
    case BeginPublish => Goto(s, t, In(Scan(s.cpus, 0))).(pending := 1)
    case Scan(_, found) => Goto(s, t, In(WaitLoop)).(pending := found + 1)
    case Mark(c, todo, found) => Goto(s, t, In(Scan(todo, found + 1))).(hasWaiter := s.hasWaiter + {c})
    case WaitLoop =>
      if s.pending > 1 then Release(s, t, Sleep(ExclusiveCond, WaitLoop)) else Goto(s, t, In(UnlockToExclusive))
  }

  /** start_exclusive reads the running flag of one more CPU. */
  function ScanNext(s: State, t: Thread, c: Thread, todo: set<Thread>, found: nat): State {
    Goto(s, t, In(if c in s.running then Mark(c, todo - {c}, found) else Scan(todo - {c}, found)))
  }

  ghost predicate BeginStep(s: State, t: Thread, s': State)
    requires t in s.pc
  {
    InBegin(s.pc[t]) &&
    var at := s.pc[t].at;
    if at.Scan? && at.todo != {} then exists c :: c in at.todo && s' == ScanNext(s, t, c, at.todo, at.found)
    else s' == BeginNext(s, t)
  }

  /** end_exclusive, the CPU list and every final unlock */
  function FinishNext(s: State, t: Thread): State
    requires t in s.pc && s.pc[t].In? && !InExec(s.pc[t]) && !InBegin(s.pc[t])
  {
    match s.pc[t].at
    case FinishClear => Goto(s, t, In(FinishBroadcast)).(pending := 0)
    case FinishBroadcast => s.(pc := Resumed(s.pc)[t := In(UnlockToOutside)])
    case ListAdd => Goto(s, t, In(UnlockToOutside)).(cpus := s.cpus + {t})
    case ListRemove => Goto(s, t, In(UnlockToOutside)).(cpus := s.cpus - {t})
    case UnlockToOutside => Release(s, t, Outside)
    case UnlockToExecuting => Release(s, t, Executing)
    case UnlockToExclusive => Release(s, t, Exclusive)
  }

  ghost predicate FinishStep(s: State, t: Thread, s': State)
    requires t in s.pc
  {
    s.pc[t].In? && !InExec(s.pc[t]) && !InBegin(s.pc[t]) && s' == FinishNext(s, t)
  }

  ghost predicate ProtocolStep(s: State, t: Thread, s': State)
    requires t in s.pc
  {
    || LockStep(s, t, s')
    || ReadStep(s, t, s')
    || ExecStep(s, t, s') || BeginStep(s, t, s') || FinishStep(s, t, s')
  }

  ghost predicate Step(s: State, t: Thread, s': State) {
    t in s.pc && (ClientStep(s, t, s') || SpuriousWake(s, t, s') || ProtocolStep(s, t, s'))
  }

  ghost predicate Next(s: State, s': State) {
    exists t :: Step(s, t, s')
  }

  /** A finite run of the machine; every reachable state is the last state of one. */
  ghost predicate Run(r: seq<State>) {
    && 0 < |r| && Init(r[0])
    && forall i | 0 < i < |r| :: Next(r[i - 1], r[i])
  }

  // -------------------------------------------------------------------------------------------
  // The invariant
  // -------------------------------------------------------------------------------------------

  /** What the lock holder is about to do, where the invariant depends on it. */
  datatype Spot = NoSpot | DropSpot | SignalSpot | BroadcastSpot | ZeroSpot

  /** The part a thread plays in an exclusive operation, from publishing pending_cpus to clearing it. */
  datatype Role =
    | NoRole
    | Scanning(todo: set<Thread>, found: nat)
    | Marking(cpu: Thread, todo: set<Thread>, found: nat)
    | Counted(granted: bool, asleep: bool)

  /** Everything the invariant needs to know about a program point. */
  datatype View = View(
    holds: bool,   // the lock is held
    runs: bool,    // the thread's running flag is set
    onCpu: bool,   // only reached on behalf of a listed CPU
    waits: bool,   // has_waiter may be set: not asleep, and cpu_exec_end's locked part is still to come
    live: bool,    // executing guest code, or about to without a further check
    idles: bool,   // asleep on exclusive_resume
    spot: Spot,
    role: Role
  )

  const BYSTANDER := View(false, false, false, false, false, false, NoSpot, NoRole)

  function ViewOf(p: Pc): View {
    var cpu := BYSTANDER.(onCpu := true);
    match p
    case Outside => BYSTANDER
    case StartRead => cpu.(runs := true, waits := true)
    case Executing => cpu.(runs := true, waits := true, live := true)
    case EndRead => cpu.(waits := true)
    case Exclusive => BYSTANDER.(role := Counted(true, false))
    case Sleep(ExclusiveResume, StartLoop) => cpu.(idles := true)
    case Sleep(ExclusiveResume, _) => BYSTANDER.(idles := true)
    case Sleep(ExclusiveCond, _) => BYSTANDER.(role := Counted(false, true))
    case Lock(StartCheck) => cpu.(runs := true, waits := true)
    case Lock(EndCheck) => cpu.(waits := true)
    case Lock(StartLoop) => cpu
    case Lock(ListRemove) => cpu
    case Lock(WaitLoop) => BYSTANDER.(role := Counted(false, false))
    case Lock(FinishClear) => BYSTANDER.(role := Counted(true, false))
    case Lock(_) => BYSTANDER
    case In(at) =>
      var cpu, bystander := cpu.(holds := true), BYSTANDER.(holds := true);
      match at
      case StartCheck => cpu.(runs := true, waits := true)
      case StartLoop => cpu
      case StartRerun => cpu.(spot := ZeroSpot)
      case UnlockToExecuting => cpu.(runs := true, waits := true, live := true)
      case EndCheck => cpu.(waits := true)
      case EndDrop => bystander.(spot := DropSpot)
      case EndSignal => bystander.(spot := SignalSpot)
      case BeginPublish => bystander.(spot := ZeroSpot)
      case Scan(todo, found) => bystander.(role := Scanning(todo, found))
      case Mark(c, todo, found) => bystander.(role := Marking(c, todo, found))
      case WaitLoop => bystander.(role := Counted(false, false))
      case UnlockToExclusive => bystander.(role := Counted(true, false))
      case FinishClear => bystander.(role := Counted(true, false))
      case FinishBroadcast => bystander.(spot := BroadcastSpot)
      case ListRemove => cpu
      case _ => bystander
  }

  /** CPUs that the owner still has to look at. */
  predicate Unscanned(r: Role, c: Thread) {
    (r.Scanning? && c in r.todo) || (r.Marking? && (c in r.todo || c == r.cpu))
  }

  // The invariant and its preservation are stated for an arbitrary reading f of program points, so
  // that they depend on nothing but the views; f is ViewOf everywhere else.

  ghost function HolderSpot(s: State, f: Pc -> View): Spot {
    if s.lock.Held? && s.lock.holder in s.pc then f(s.pc[s.lock.holder]).spot else NoSpot
  }

  ghost predicate LockInv(s: State, f: Pc -> View) {
    && (s.lock.Held? ==> s.lock.holder in s.pc)
    && forall t | t in s.pc :: f(s.pc[t]).holds <==> s.lock == Held(t)
  }

  ghost predicate FlagInv(s: State, f: Pc -> View) {
    && s.cpus <= s.pc.Keys && s.running <= s.pc.Keys && s.hasWaiter <= s.pc.Keys
    && (forall t | t in s.pc :: f(s.pc[t]).runs <==> t in s.running)
    && (forall t | t in s.pc :: f(s.pc[t]).onCpu ==> t in s.cpus)
    && (forall t | t in s.hasWaiter :: f(s.pc[t]).waits)
  }

  ghost predicate IdleInv(s: State, f: Pc -> View) {
    && (s.pending == 0 ==> s.hasWaiter == {} && HolderSpot(s, f) != DropSpot)
    && (s.pending == 0 <==> forall t | t in s.pc :: f(s.pc[t]).role == NoRole)
    && (HolderSpot(s, f) == ZeroSpot || HolderSpot(s, f) == BroadcastSpot ==> s.pending == 0)
    && (HolderSpot(s, f) == SignalSpot ==> s.pending >= 1)
    && (forall t | t in s.pc && f(s.pc[t]).idles :: s.pending != 0 || HolderSpot(s, f) == BroadcastSpot)
  }

  ghost predicate OwnerInv(s: State, f: Pc -> View, o: Thread)
    requires o in s.pc
  {
    var r := f(s.pc[o]).role;
    r != NoRole ==>
      && s.pending >= 1
      && (forall u | u in s.pc && f(s.pc[u]).role != NoRole :: u == o)
      && (forall c | c in s.hasWaiter :: !Unscanned(r, c))
      && (forall c | c in s.pc && f(s.pc[c]).live :: Unscanned(r, c) || c in s.hasWaiter)
      && match r
         case NoRole => true
         case Scanning(_, found) => s.pending == 1 && found == |s.hasWaiter|
         case Marking(c, todo, found) => s.pending == 1 && found == |s.hasWaiter| && c !in todo && c in s.pc
           && f(s.pc[c]).waits
         case Counted(granted, asleep) =>
           && s.pending == 1 + |s.hasWaiter| + (if HolderSpot(s, f) == DropSpot then 1 else 0)
           && (granted ==> s.pending == 1)
           && (asleep ==> s.pending > 1 || HolderSpot(s, f) == SignalSpot)
  }

  ghost predicate Inv(s: State, f: Pc -> View) {
    && LockInv(s, f) && FlagInv(s, f) && IdleInv(s, f)
    && forall t {:trigger OwnerInv(s, f, t)} | t in s.pc :: OwnerInv(s, f, t)
  }

  lemma {:induction false} InitEstablishesInv(s: State, f: Pc -> View)
    requires Init(s) && f(Outside) == BYSTANDER
    ensures Inv(s, f)
  {
  }

  /** Thread t moves to q; its flag, the lock and the CPU list follow the new view. */
  ghost predicate Moves(s: State, f: Pc -> View, t: Thread, q: Pc, s': State) {
    && t in s.pc
    && s'.pc == s.pc[t := q]
    && s'.running == (if f(q).runs then s.running + {t} else s.running - {t})
    && (s'.lock == s.lock || (s.lock == Free && s'.lock == Held(t)) || (s.lock == Held(t) && s'.lock == Free))
    && (f(q).holds <==> s'.lock == Held(t))
    && s'.cpus <= s.cpus + {t} && s.cpus <= s'.cpus + {t}
    && (f(q).onCpu ==> t in s'.cpus)
  }

  /** Spots and the scan belong to the lock holder, and guest code runs with the flag set. */
  ghost predicate Coherent(f: Pc -> View) {
    && (forall p :: f(p).spot != NoSpot || f(p).role.Scanning? || f(p).role.Marking? ==> f(p).holds)
    && (forall p ::
          (f(p).live ==> f(p).runs) && (f(p).runs ==> f(p).waits && f(p).onCpu) && (f(p).waits ==> f(p).role == NoRole))
  }

  ghost predicate QuietRole(s: State, r: Role, r': Role) {
    || r' == r
    || (r.Scanning? && r'.Scanning? && r'.found == r.found && exists c :: c !in s.running && r'.todo == r.todo - {c})
    || (r.Scanning? && r'.Marking? && r'.found == r.found && r'.cpu in s.running && r'.cpu in r.todo
      && r'.todo == r.todo - {r'.cpu})
    || (r.Counted? && r'.Counted? && (r'.granted ==> r.granted || s.pending == 1) && (r'.asleep ==> s.pending > 1))
  }

  /** No owner is blocked on exclusive_cond. */
  ghost predicate NobodyWaits(s: State, f: Pc -> View) {
    forall u | u in s.pc && f(s.pc[u]).role.Counted? :: !f(s.pc[u]).role.asleep
  }

  /** A step that leaves pending_cpus and every has_waiter flag alone. */
  ghost predicate Quiet(s: State, f: Pc -> View, t: Thread, q: Pc, s': State) {
    && Moves(s, f, t, q, s')
    && s'.pending == s.pending && s'.hasWaiter == s.hasWaiter
    && var v, v' := f(s.pc[t]), f(q);
      && (v.waits ==> v'.waits || (t !in s.hasWaiter && (s.pending == 0 || s.lock == Held(t))))
      && (v'.live ==> v.live || s.pending == 0 || t in s.hasWaiter)
      && QuietRole(s, v.role, v'.role)
      && (v'.idles ==> s.pending != 0)
      && v'.spot != DropSpot && v.spot != DropSpot && v'.spot != SignalSpot
      && (v.spot == SignalSpot ==> s.pending > 1 || NobodyWaits(s, f))
      && v.spot != BroadcastSpot
      && (v'.spot == ZeroSpot || v'.spot == BroadcastSpot ==> s.pending == 0)
  }

  lemma {:induction false} QuietKeepsFlags(s: State, f: Pc -> View, t: Thread, q: Pc, s': State)
    requires Inv(s, f) && Coherent(f) && Quiet(s, f, t, q, s')
    ensures LockInv(s', f) && FlagInv(s', f)
  {
  }

  lemma {:induction false} QuietKeepsIdle(s: State, f: Pc -> View, t: Thread, q: Pc, s': State)
    requires Inv(s, f) && Coherent(f) && Quiet(s, f, t, q, s')
    ensures IdleInv(s', f)
  {
    if s.pending != 0 {
      var o :| o in s.pc && f(s.pc[o]).role != NoRole;
      assert f(s'.pc[o]).role != NoRole;
    }
  }

  lemma {:induction false} QuietKeepsOwner(s: State, f: Pc -> View, t: Thread, q: Pc, s': State, o: Thread)
    requires Inv(s, f) && Coherent(f) && Quiet(s, f, t, q, s') && o in s'.pc
    ensures OwnerInv(s', f, o)
  {
    assert OwnerInv(s, f, o);
    if o == t { QuietOwnerMoves(s, f, t, q, s'); }
  }

  lemma {:induction false} QuietOwnerMoves(s: State, f: Pc -> View, t: Thread, q: Pc, s': State)
    requires Inv(s, f) && Coherent(f) && Quiet(s, f, t, q, s')
    ensures OwnerInv(s', f, t)
  {
    assert OwnerInv(s, f, t);
  }

  lemma {:induction false} QuietKeepsInv(s: State, f: Pc -> View, t: Thread, q: Pc, s': State)
    requires Inv(s, f) && Coherent(f) && Quiet(s, f, t, q, s')
    ensures Inv(s', f)
  {
    QuietKeepsFlags(s, f, t, q, s');
    QuietKeepsIdle(s, f, t, q, s');
    forall o | o in s'.pc ensures OwnerInv(s', f, o) { QuietKeepsOwner(s, f, t, q, s', o); }
  }

  /** Steps of the lock holder that change pending_cpus or a has_waiter flag. */
  ghost predicate Loud(s: State, f: Pc -> View, t: Thread, q: Pc, s': State) {
    Moves(s, f, t, q, s') && s.lock == Held(t) && s'.lock == Held(t) && s'.cpus == s.cpus
    && !f(q).live && !f(q).idles && f(s.pc[t]).spot != BroadcastSpot && f(s.pc[t]).spot != SignalSpot
  }

  lemma {:induction false} LoudKeepsFlags(s: State, f: Pc -> View, t: Thread, q: Pc, s': State)
    requires Inv(s, f) && Coherent(f) && Loud(s, f, t, q, s')
    requires forall c | c in s'.hasWaiter :: c in s.pc && f(s'.pc[c]).waits
    ensures LockInv(s', f) && FlagInv(s', f)
  {
  }

  /** cpu_exec_end clears has_waiter; the CPU is still counted. */
  ghost predicate Untick(s: State, f: Pc -> View, t: Thread, q: Pc, s': State) {
    && Loud(s, f, t, q, s')
    && t in s.hasWaiter && s'.hasWaiter == s.hasWaiter - {t} && s'.pending == s.pending
    && f(s.pc[t]).spot == NoSpot && f(q).spot == DropSpot && f(q).role == NoRole
  }

  lemma {:induction false} UntickKeepsInv(s: State, f: Pc -> View, t: Thread, q: Pc, s': State)
    requires Inv(s, f) && Coherent(f) && Untick(s, f, t, q, s')
    ensures Inv(s', f)
  {
    assert f(s.pc[t]).role == NoRole;
    LoudKeepsFlags(s, f, t, q, s');
    var o :| o in s.pc && f(s.pc[o]).role != NoRole;
    assert OwnerInv(s, f, o) && f(s'.pc[o]) == f(s.pc[o]);
    assert OwnerInv(s', f, o);
  }

  /** cpu_exec_end stops counting the CPU. */
  ghost predicate Drop(s: State, f: Pc -> View, t: Thread, q: Pc, s': State) {
    && Loud(s, f, t, q, s')
    && s'.hasWaiter == s.hasWaiter && s'.pending == s.pending - 1
    && f(s.pc[t]).spot == DropSpot && f(q).spot == SignalSpot && f(s.pc[t]).role == f(q).role == NoRole
    && !f(s.pc[t]).waits
  }

  lemma {:induction false} DropKeepsInv(s: State, f: Pc -> View, t: Thread, q: Pc, s': State)
    requires Inv(s, f) && Coherent(f) && Drop(s, f, t, q, s')
    ensures Inv(s', f)
  {
    LoudKeepsFlags(s, f, t, q, s');
    var o :| o in s.pc && f(s.pc[o]).role != NoRole;
    assert OwnerInv(s, f, o) && f(s'.pc[o]) == f(s.pc[o]);
    assert OwnerInv(s', f, o);
    OnlyOwner(s, f, t, q, s', o);
  }

  /** start_exclusive sets pending_cpus to 1 and begins to scan the CPU list. */
  ghost predicate Publish(s: State, f: Pc -> View, t: Thread, q: Pc, s': State) {
    && Loud(s, f, t, q, s')
    && s'.hasWaiter == s.hasWaiter && s'.pending == 1
    && f(s.pc[t]).spot == ZeroSpot && f(q).spot == NoSpot && f(q).role == Scanning(s.cpus, 0)
  }

  lemma {:induction false} PublishKeepsInv(s: State, f: Pc -> View, t: Thread, q: Pc, s': State)
    requires Inv(s, f) && Coherent(f) && Publish(s, f, t, q, s')
    ensures Inv(s', f)
  {
  }

  /** start_exclusive stores the number of running CPUs plus one. */
  ghost predicate Store(s: State, f: Pc -> View, t: Thread, q: Pc, s': State) {
    && Loud(s, f, t, q, s')
    && f(s.pc[t]).role.Scanning? && f(s.pc[t]).role.todo == {} && f(s.pc[t]).spot == NoSpot
    && s'.hasWaiter == s.hasWaiter && s'.pending == f(s.pc[t]).role.found + 1
    && f(q).spot == NoSpot && f(q).role == Counted(false, false)
  }

  lemma {:induction false} StoreKeepsInv(s: State, f: Pc -> View, t: Thread, q: Pc, s': State)
    requires Inv(s, f) && Coherent(f) && Store(s, f, t, q, s')
    ensures Inv(s', f)
  {
    assert OwnerInv(s, f, t);
    LoudKeepsFlags(s, f, t, q, s');
    assert OwnerInv(s', f, t);
  }

  /** start_exclusive sets has_waiter of a CPU that it saw running. */
  ghost predicate Tick(s: State, f: Pc -> View, t: Thread, q: Pc, s': State) {
    && Loud(s, f, t, q, s')
    && f(s.pc[t]).role.Marking? && f(s.pc[t]).spot == NoSpot && f(q).spot == NoSpot
    && var Marking(c, todo, found) := f(s.pc[t]).role;
      && s'.hasWaiter == s.hasWaiter + {c} && s'.pending == s.pending
      && f(q).role == Scanning(todo, found + 1)
  }

  lemma {:induction false} TickKeepsInv(s: State, f: Pc -> View, t: Thread, q: Pc, s': State)
    requires Inv(s, f) && Coherent(f) && Tick(s, f, t, q, s')
    ensures Inv(s', f)
  {
    assert OwnerInv(s, f, t);
    LoudKeepsFlags(s, f, t, q, s');
    TickKeepsOwner(s, f, t, q, s');
    OnlyOwner(s, f, t, q, s', t);
  }

  lemma {:induction false} TickKeepsOwner(s: State, f: Pc -> View, t: Thread, q: Pc, s': State)
    requires Inv(s, f) && Coherent(f) && Tick(s, f, t, q, s')
    ensures t in s'.pc && OwnerInv(s', f, t)
  {
    assert OwnerInv(s, f, t);
  }

  /** If the owner is in order after a step of the lock holder, so are the threads without a role. */
  lemma {:induction false} OnlyOwner(s: State, f: Pc -> View, t: Thread, q: Pc, s': State, o: Thread)
    requires Inv(s, f) && Loud(s, f, t, q, s') && o in s'.pc && OwnerInv(s', f, o) && f(s'.pc[o]).role != NoRole
    ensures forall u | u in s'.pc :: OwnerInv(s', f, u)
  {
    forall u | u in s'.pc ensures OwnerInv(s', f, u) { if f(s'.pc[u]).role != NoRole { assert u == o; } }
  }

  /** end_exclusive resets pending_cpus. */
  ghost predicate Clear(s: State, f: Pc -> View, t: Thread, q: Pc, s': State) {
    && Loud(s, f, t, q, s')
    && f(s.pc[t]).role == Counted(true, false) && f(s.pc[t]).spot == NoSpot
    && s'.hasWaiter == s.hasWaiter && s'.pending == 0
    && f(q).spot == BroadcastSpot && f(q).role == NoRole
  }

  lemma {:induction false} ClearKeepsInv(s: State, f: Pc -> View, t: Thread, q: Pc, s': State)
    requires Inv(s, f) && Coherent(f) && Clear(s, f, t, q, s')
    ensures Inv(s', f)
  {
    assert OwnerInv(s, f, t);
  }

  /** Every step that moves a single thread is one of these. */
  ghost predicate Action(s: State, f: Pc -> View, t: Thread, q: Pc, s': State) {
    || Quiet(s, f, t, q, s')
    || Untick(s, f, t, q, s') || Drop(s, f, t, q, s')
    || Publish(s, f, t, q, s') || Store(s, f, t, q, s') || Tick(s, f, t, q, s') || Clear(s, f, t, q, s')
  }

  lemma {:induction false} ActionKeepsInv(s: State, f: Pc -> View, t: Thread, q: Pc, s': State)
    requires Inv(s, f) && Coherent(f) && Action(s, f, t, q, s')
    ensures Inv(s', f)
  {
    if Quiet(s, f, t, q, s') { QuietKeepsInv(s, f, t, q, s'); }
    else if Untick(s, f, t, q, s') { UntickKeepsInv(s, f, t, q, s'); }
    else if Drop(s, f, t, q, s') { DropKeepsInv(s, f, t, q, s'); }
    else if Publish(s, f, t, q, s') { PublishKeepsInv(s, f, t, q, s'); }
    else if Store(s, f, t, q, s') { StoreKeepsInv(s, f, t, q, s'); }
    else if Tick(s, f, t, q, s') { TickKeepsInv(s, f, t, q, s'); }
    else { ClearKeepsInv(s, f, t, q, s'); }
  }

  /** end_exclusive wakes everybody who waits for the operation to end. */
  lemma {:induction false} BroadcastKeepsInv(s: State, f: Pc -> View, t: Thread, s': State)
    requires Inv(s, f) && Coherent(f) && t in s.pc && s'.pc.Keys == s.pc.Keys
    requires s' == s.(pc := s'.pc) && f(s.pc[t]) == BYSTANDER.(holds := true, spot := BroadcastSpot)
    requires f(s'.pc[t]) == BYSTANDER.(holds := true)
    requires forall u | u in s.pc && u != t :: f(s'.pc[u]) == f(s.pc[u]).(idles := false)
    ensures Inv(s', f)
  {
  }

  // -------------------------------------------------------------------------------------------
  // Every step keeps the invariant
  // -------------------------------------------------------------------------------------------

  /** The points at which a function of the protocol acquires the lock, or reacquires it after a wait. */
  predicate Entry(at: Critical) {
    match at
    case StartCheck | StartLoop | EndCheck | BeginLoop | WaitLoop | FinishClear | ListAdd | ListRemove => true
    case _ => false
  }

  predicate Shape(p: Pc) {
    match p
    case Sleep(ExclusiveCond, next) => next == WaitLoop
    case Sleep(ExclusiveResume, next) => next == StartLoop || next == BeginLoop
    case Lock(next) => Entry(next)
    case _ => true
  }

  ghost predicate Shaped(s: State) {
    forall t | t in s.pc :: Shape(s.pc[t])
  }

  lemma {:induction false} StepKeepsShape(s: State, t: Thread, s': State, u: Thread)
    requires Step(s, t, s') && u in s'.pc && (u in s.pc ==> Shape(s.pc[u]))
    ensures Shape(s'.pc[u])
  {
  }

  /** f reads the program points that t leaves and reaches as ViewOf does. */
  ghost predicate Reads(f: Pc -> View, s: State, t: Thread, s': State) {
    && t in s.pc && t in s'.pc
    && f(s.pc[t]) == ViewOf(s.pc[t]) && f(s'.pc[t]) == ViewOf(s'.pc[t])
  }

  /** What the invariant says about thread t alone. */
  ghost predicate Local(s: State, t: Thread) {
    t in s.pc && Shape(s.pc[t]) &&
    var v := ViewOf(s.pc[t]);
    && (v.holds <==> s.lock == Held(t))
    && (v.runs <==> t in s.running)
    && (v.onCpu ==> t in s.cpus)
    && (t in s.hasWaiter ==> v.waits && s.pending != 0)
    && (v.spot == ZeroSpot ==> s.pending == 0)
    && (v.role != NoRole || v.spot == SignalSpot ==> s.pending >= 1)
  }

  lemma {:induction false} InvIsLocal(s: State, f: Pc -> View, t: Thread)
    requires Inv(s, f) && t in s.pc && Shape(s.pc[t]) && f(s.pc[t]) == ViewOf(s.pc[t])
    ensures Local(s, t)
  {
    assert OwnerInv(s, f, t);
  }

  lemma {:induction false} ClientAction(s: State, f: Pc -> View, t: Thread, s': State)
    requires Local(s, t) && Reads(f, s, t, s') && ClientStep(s, t, s')
    ensures Action(s, f, t, s'.pc[t], s')
  {
    assert Quiet(s, f, t, s'.pc[t], s');
  }

  lemma {:induction false} WakeAction(s: State, f: Pc -> View, t: Thread, s': State)
    requires Local(s, t) && Reads(f, s, t, s') && SpuriousWake(s, t, s')
    ensures Action(s, f, t, s'.pc[t], s')
  {
    assert Quiet(s, f, t, s'.pc[t], s');
  }

  lemma {:induction false} LockOrReadAction(s: State, f: Pc -> View, t: Thread, s': State)
    requires Local(s, t) && Reads(f, s, t, s') && (LockStep(s, t, s') || ReadStep(s, t, s'))
    ensures Action(s, f, t, s'.pc[t], s')
  {
    assert Quiet(s, f, t, s'.pc[t], s');
  }

  lemma {:induction false} ExecAction(s: State, f: Pc -> View, t: Thread, s': State)
    requires Local(s, t) && Reads(f, s, t, s') && ExecStep(s, t, s')
    requires s.pc[t].at != EndSignal || s.pending != 1
    ensures Action(s, f, t, s'.pc[t], s')
  {
    var at, q := s.pc[t].at, s'.pc[t];
    if at == EndCheck && t in s.hasWaiter {
      assert Untick(s, f, t, q, s');
    } else if at == EndDrop {
      assert Drop(s, f, t, q, s');
    } else {
      assert Quiet(s, f, t, q, s');
    }
  }

  lemma {:induction false} BeginLoudAction(s: State, f: Pc -> View, t: Thread, s': State)
    requires Local(s, t) && Reads(f, s, t, s') && BeginStep(s, t, s')
    requires s.pc[t].at.BeginPublish? || s.pc[t].at.Mark? || (s.pc[t].at.Scan? && s.pc[t].at.todo == {})
    ensures Action(s, f, t, s'.pc[t], s')
  {
    var at, q := s.pc[t].at, s'.pc[t];
    if at.BeginPublish? {
      assert Publish(s, f, t, q, s');
    } else if at.Mark? {
      assert Tick(s, f, t, q, s');
    } else {
      assert Store(s, f, t, q, s');
    }
  }

  lemma {:induction false} ScanAction(s: State, f: Pc -> View, t: Thread, s': State)
    requires Local(s, t) && Reads(f, s, t, s') && BeginStep(s, t, s') && s.pc[t].at.Scan? && s.pc[t].at.todo != {}
    ensures Action(s, f, t, s'.pc[t], s')
  {
    assert Quiet(s, f, t, s'.pc[t], s');
  }

  lemma {:induction false} BeginAction(s: State, f: Pc -> View, t: Thread, s': State)
    requires Local(s, t) && Reads(f, s, t, s') && BeginStep(s, t, s')
    ensures Action(s, f, t, s'.pc[t], s')
  {
    var at := s.pc[t].at;
    if at.BeginPublish? || at.Mark? || (at.Scan? && at.todo == {}) {
      BeginLoudAction(s, f, t, s');
    } else if at.Scan? {
      ScanAction(s, f, t, s');
    } else {
      BeginLoopAction(s, f, t, s');
    }
  }

  lemma {:induction false} BeginLoopAction(s: State, f: Pc -> View, t: Thread, s': State)
    requires Local(s, t) && Reads(f, s, t, s') && BeginStep(s, t, s') && (s.pc[t].at.BeginLoop? || s.pc[t].at.WaitLoop?)
    ensures Action(s, f, t, s'.pc[t], s')
  {
    assert Quiet(s, f, t, s'.pc[t], s');
  }

  lemma {:induction false} FinishAction(s: State, f: Pc -> View, t: Thread, s': State)
    requires Local(s, t) && Reads(f, s, t, s') && FinishStep(s, t, s') && s.pc[t].at != FinishBroadcast
    ensures Action(s, f, t, s'.pc[t], s')
  {
    var q := s'.pc[t];
    if s.pc[t].at == FinishClear {
      assert Clear(s, f, t, q, s');
    } else {
      assert Quiet(s, f, t, q, s');
    }
  }

  lemma {:induction false} SingleAction(s: State, f: Pc -> View, t: Thread, s': State)
    requires Local(s, t) && Reads(f, s, t, s') && Step(s, t, s')
    requires s.pc[t] != In(FinishBroadcast) && (s.pc[t] == In(EndSignal) ==> s.pending != 1)
    ensures Action(s, f, t, s'.pc[t], s')
  {
    if ClientStep(s, t, s') { ClientAction(s, f, t, s'); }
    else if SpuriousWake(s, t, s') { WakeAction(s, f, t, s'); }
    else if LockStep(s, t, s') || ReadStep(s, t, s') { LockOrReadAction(s, f, t, s'); }
    else if ExecStep(s, t, s') { ExecAction(s, f, t, s'); }
    else if BeginStep(s, t, s') { BeginAction(s, f, t, s'); }
    else { FinishAction(s, f, t, s'); }
  }

  /** f is ViewOf; the trigger keeps program points that no proof asks about unread. */
  ghost predicate Faithful(f: Pc -> View) {
    forall p {:trigger ViewOf(p)} :: f(p) == ViewOf(p)
  }

  lemma {:induction false} FaithfulReads(f: Pc -> View, s: State, t: Thread, s': State)
    requires Faithful(f) && t in s.pc && t in s'.pc
    ensures Reads(f, s, t, s')
  {
  }

  lemma {:induction false} FaithfulCoherent(f: Pc -> View)
    requires Faithful(f)
    ensures Coherent(f)
  {
    forall p ensures f(p) == ViewOf(p) { var v := ViewOf(p); }
  }

  lemma {:induction false} SleeperWaits(f: Pc -> View, p: Pc)
    requires Faithful(f)
    ensures f(p).role.Counted? && f(p).role.asleep <==> p.Sleep? && p.cond == ExclusiveCond
  {
    var v := ViewOf(p);
  }

  lemma {:induction false} SoleOwner(s: State, f: Pc -> View, o: Thread, u: Thread)
    requires Inv(s, f) && o in s.pc && u in s.pc && f(s.pc[o]).role != NoRole && f(s.pc[u]).role != NoRole
    ensures o == u
  {
    assert OwnerInv(s, f, o);
  }

  /** The sleeper that a signal wakes is the only one. */
  lemma {:induction false} WakeSleeper(s: State, f: Pc -> View, u: Thread, s1: State)
    requires Inv(s, f) && Faithful(f) && Coherent(f) && Shaped(s)
    requires SleepsOn(s, u, ExclusiveCond) && s1 == Goto(s, u, Lock(s.pc[u].next))
    ensures Inv(s1, f) && forall w :: !SleepsOn(s1, w, ExclusiveCond)
  {
    FaithfulReads(f, s, u, s1);
    InvIsLocal(s, f, u);
    WakeAction(s, f, u, s1);
    ActionKeepsInv(s, f, u, s1.pc[u], s1);
    forall w ensures !SleepsOn(s1, w, ExclusiveCond) {
      if SleepsOn(s, w, ExclusiveCond) {
        SleeperWaits(f, s.pc[w]);
        SleeperWaits(f, s.pc[u]);
        SoleOwner(s, f, u, w);
      }
    }
  }

  lemma {:induction false} SignalledKeepsInv(s: State, f: Pc -> View, t: Thread, s': State)
    requires Inv(s, f) && Faithful(f) && Coherent(f) && t in s.pc && s.pc[t] == In(EndSignal)
    requires (forall w :: !SleepsOn(s, w, ExclusiveCond)) && s' == Goto(s, t, In(UnlockToOutside))
    ensures Inv(s', f)
  {
    FaithfulReads(f, s, t, s');
    InvIsLocal(s, f, t);
    forall w | w in s.pc ensures !(f(s.pc[w]).role.Counted? && f(s.pc[w]).role.asleep) {
      assert !SleepsOn(s, w, ExclusiveCond);
      SleeperWaits(f, s.pc[w]);
    }
    QuietKeepsInv(s, f, t, In(UnlockToOutside), s');
  }

  lemma {:induction false} SignalKeepsInv(s: State, f: Pc -> View, t: Thread, s': State)
    requires Inv(s, f) && Faithful(f) && Coherent(f) && Shaped(s) && t in s.pc && s.pc[t] == In(EndSignal)
    requires Signal(s, t, s')
    ensures Inv(s', f)
  {
    if u :| SleepsOn(s, u, ExclusiveCond) && s' == Goto(Goto(s, u, Lock(s.pc[u].next)), t, In(UnlockToOutside)) {
      WakeSleeper(s, f, u, Goto(s, u, Lock(s.pc[u].next)));
      SignalledKeepsInv(Goto(s, u, Lock(s.pc[u].next)), f, t, s');
    } else {
      SignalledKeepsInv(s, f, t, s');
    }
  }

  /** After a broadcast nobody sleeps on exclusive_resume, and nothing else has changed. */
  lemma {:induction false} ResumedViews(s: State, f: Pc -> View, t: Thread, s': State)
    requires Faithful(f) && Shaped(s) && t in s.pc && s' == s.(pc := Resumed(s.pc)[t := In(UnlockToOutside)])
    ensures s'.pc.Keys == s.pc.Keys
    ensures forall u | u in s.pc && u != t :: f(s'.pc[u]) == f(s.pc[u]).(idles := false)
  {
    forall u | u in s.pc && u != t ensures f(s'.pc[u]) == f(s.pc[u]).(idles := false) {
      var v, v' := ViewOf(s.pc[u]), ViewOf(s'.pc[u]);
    }
  }

  lemma {:induction false} ResumeKeepsInv(s: State, f: Pc -> View, t: Thread, s': State)
    requires Inv(s, f) && Coherent(f) && t in s.pc && Reads(f, s, t, s')
    requires s.pc[t] == In(FinishBroadcast) && s'.pc[t] == In(UnlockToOutside) && s' == s.(pc := s'.pc)
    requires s'.pc.Keys == s.pc.Keys
    requires forall u | u in s.pc && u != t :: f(s'.pc[u]) == f(s.pc[u]).(idles := false)
    ensures Inv(s', f)
  {
    BroadcastKeepsInv(s, f, t, s');
  }

  lemma {:induction false} SingleKeepsInv(s: State, f: Pc -> View, t: Thread, s': State)
    requires Inv(s, f) && Faithful(f) && Coherent(f) && Shaped(s) && Step(s, t, s')
    requires s.pc[t] != In(FinishBroadcast) && (s.pc[t] == In(EndSignal) ==> s.pending != 1)
    ensures Inv(s', f)
  {
    FaithfulReads(f, s, t, s');
    InvIsLocal(s, f, t);
    SingleAction(s, f, t, s');
    ActionKeepsInv(s, f, t, s'.pc[t], s');
  }
}
