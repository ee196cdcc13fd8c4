/**
 What the exclusive-section protocol of cpus-common.c guarantees: the invariant holds over every run, and with it mutual
 exclusion, the meaning of pending_cpus, no lost wake-up and no deadlock.
 */
module ExclusiveGuarantees {
  import opened ExclusiveSection

  lemma {:induction false} StepKeepsInv(s: State, f: Pc -> View, t: Thread, s': State)
    requires Inv(s, f) && Faithful(f) && Shaped(s) && Step(s, t, s')
    ensures Inv(s', f)
  {
    FaithfulCoherent(f);
    if s.pc[t] == In(FinishBroadcast) {
      ResumedViews(s, f, t, s');
      FaithfulReads(f, s, t, s');
      ResumeKeepsInv(s, f, t, s');
    } else if s.pc[t] == In(EndSignal) && s.pending == 1 {
      SignalKeepsInv(s, f, t, s');
    } else {
      SingleKeepsInv(s, f, t, s');
    }
  }

  lemma {:induction false} RunKeepsInv(r: seq<State>, f: Pc -> View, i: nat)
    requires Run(r) && Faithful(f) && i < |r|
    ensures Inv(r[i], f) && Shaped(r[i])
  {
    if i == 0 {
      assert ViewOf(Outside) == BYSTANDER;
      InitEstablishesInv(r[0], f);
    } else {
      RunKeepsInv(r, f, i - 1);
      assert Next(r[i - 1], r[i]);
      var t :| Step(r[i - 1], t, r[i]);
      StepKeepsInv(r[i - 1], f, t, r[i]);
      forall u | u in r[i].pc ensures Shape(r[i].pc[u]) { StepKeepsShape(r[i - 1], t, r[i], u); }
    }
  }

  // -------------------------------------------------------------------------------------------
  // What the protocol guarantees in every reachable state
  // -------------------------------------------------------------------------------------------

  /** While a thread is between start_exclusive and end_exclusive, nobody executes and nobody else is exclusive. */
  lemma {:induction false} ExclusiveExcludes(r: seq<State>, i: nat, t: Thread, u: Thread)
    requires Run(r) && i < |r| && t in r[i].pc && u in r[i].pc && u != t
    requires r[i].pc[t] == Exclusive
    ensures r[i].pc[u] != Executing && r[i].pc[u] != Exclusive
  {
    var s := r[i];
    RunKeepsInv(r, ViewOf, i);
    assert OwnerInv(s, ViewOf, t);
    assert ViewOf(s.pc[u]).live ==> u in s.hasWaiter;
  }

  /** The points of an exclusive operation after pending_cpus is stored, up to where end_exclusive clears it. */
  predicate HasStored(p: Pc) {
    match p
    case In(at) => at == WaitLoop || at == UnlockToExclusive || at == FinishClear
    case Lock(at) => at == WaitLoop || at == FinishClear
    case Sleep(cond, _) => cond == ExclusiveCond
    case Exclusive => true
    case _ => false
  }

  /** Those of them after the wait of start_exclusive. */
  predicate IsGranted(p: Pc) {
    HasStored(p) && !p.Sleep? && p != In(WaitLoop) && p != Lock(WaitLoop)
  }

  /**
   Once the count is stored, pending_cpus is one plus the number of CPUs with has_waiter, except
   between the two writes of cpu_exec_end, which the lock covers; after the wait it is 1.
   */
  lemma {:induction false} PendingCountsWaiters(r: seq<State>, i: nat, t: Thread)
    requires Run(r) && i < |r| && t in r[i].pc
    requires HasStored(r[i].pc[t])
    ensures r[i].pending == 1 + |r[i].hasWaiter| || (r[i].lock.Held? && r[i].lock.holder in r[i].pc
      && r[i].pc[r[i].lock.holder] == In(EndDrop))
    ensures IsGranted(r[i].pc[t]) ==> r[i].pending == 1 && r[i].hasWaiter == {}
  {
    RunKeepsInv(r, ViewOf, i);
    PendingIs(r[i], t);
  }

  lemma {:induction false} PendingIs(s: State, t: Thread)
    requires Inv(s, ViewOf) && t in s.pc && HasStored(s.pc[t])
    ensures s.pending == 1 + |s.hasWaiter| || (s.lock.Held? && s.lock.holder in s.pc
      && s.pc[s.lock.holder] == In(EndDrop))
    ensures IsGranted(s.pc[t]) ==> s.pending == 1 && s.hasWaiter == {}
  {
    assert OwnerInv(s, ViewOf, t) && ViewOf(s.pc[t]).role.Counted?;
  }

  /** A set has_waiter flag is always counted, and its CPU is neither asleep nor outside. */
  lemma {:induction false} WaiterIsCounted(r: seq<State>, i: nat, c: Thread)
    requires Run(r) && i < |r| && c in r[i].hasWaiter
    ensures r[i].pending >= 1
    ensures c in r[i].pc && r[i].pc[c] != Outside && !r[i].pc[c].Sleep?
  {
    var s := r[i];
    RunKeepsInv(r, ViewOf, i);
    var o :| o in s.pc && ViewOf(s.pc[o]).role != NoRole;
    assert OwnerInv(s, ViewOf, o);
  }

  // -------------------------------------------------------------------------------------------
  // Progress of start_exclusive
  // -------------------------------------------------------------------------------------------

  /** Once the count is stored, a CPU that executes is one that it counts. */
  lemma {:induction false} ExecutingIsAwaited(r: seq<State>, i: nat, t: Thread, c: Thread)
    requires Run(r) && i < |r| && t in r[i].pc && HasStored(r[i].pc[t])
    requires c in r[i].pc && r[i].pc[c] == Executing
    ensures c in r[i].hasWaiter
  {
    RunKeepsInv(r, ViewOf, i);
    ExecutingHasWaiter(r[i], t, c);
  }

  lemma {:induction false} ExecutingHasWaiter(s: State, t: Thread, c: Thread)
    requires Inv(s, ViewOf) && t in s.pc && HasStored(s.pc[t]) && c in s.pc && s.pc[c] == Executing
    ensures c in s.hasWaiter
  {
    assert OwnerInv(s, ViewOf, t) && ViewOf(s.pc[t]).role.Counted? && ViewOf(s.pc[c]).live;
  }

  /** The operation of t is under way in the states i to j. */
  ghost predicate During(r: seq<State>, i: nat, j: nat, t: Thread)
    requires i <= j < |r|
  {
    forall k {:trigger r[k]} | i <= k <= j :: t in r[k].pc && HasStored(r[k].pc[t])
  }

  /** The thread us[k] takes step k of the run. */
  ghost predicate Takes(r: seq<State>, us: seq<Thread>) {
    |us| == |r| - 1
    && forall k {:trigger Step(r[k], us[k], r[k + 1])} | 0 <= k < |us| :: Step(r[k], us[k], r[k + 1])
  }

  /** The points from which start_exclusive sets a flag or a count. */
  predicate Raises(p: Pc) {
    p.In? && (p.at.BeginPublish? || p.at.Scan? || p.at.Mark?)
  }

  /** No other thread is there while an operation is under way. */
  lemma {:induction false} NobodyRaises(s: State, t: Thread, u: Thread)
    requires Inv(s, ViewOf) && t in s.pc && HasStored(s.pc[t]) && u in s.pc
    ensures !Raises(s.pc[u]) && s.pending >= 1
  {
    assert OwnerInv(s, ViewOf, t) && ViewOf(s.pc[t]).role.Counted?;
  }

  lemma {:induction false} StepLowers(s: State, u: Thread, s': State)
    requires Step(s, u, s') && !Raises(s.pc[u]) && s.pending >= 1
    ensures s'.hasWaiter <= s.hasWaiter && s'.pending <= s.pending
  {
  }

  /** From one state of an operation to a later one, no flag is set and the count does not grow. */
  lemma {:induction false} CountOnlyFalls(r: seq<State>, i: nat, j: nat, t: Thread)
    requires Run(r) && i <= j < |r| && During(r, i, j, t)
    ensures r[j].hasWaiter <= r[i].hasWaiter && r[j].pending <= r[i].pending
  {
    if i < j {
      var k := j - 1;
      CountOnlyFalls(r, i, k, t);
      assert Next(r[k], r[j]);
      var u :| Step(r[k], u, r[j]);
      RunKeepsInv(r, ViewOf, k);
      NobodyRaises(r[k], t, u);
      StepLowers(r[k], u, r[j]);
    }
  }

  /** How many steps of its own a CPU with has_waiter takes until it has cleared the flag. */
  function StepsLeft(p: Pc): nat {
    match p
    case StartRead => 8
    case Lock(StartCheck) => 7
    case In(StartCheck) => 6
    case In(UnlockToExecuting) => 5
    case Executing => 4
    case EndRead => 3
    case Lock(EndCheck) => 2
    case In(EndCheck) => 1
    case _ => 0
  }

  /** Such a CPU comes closer to that with every step of its own, and the others do not move it. */
  lemma {:induction false} AwaitedMovesOn(s: State, u: Thread, s': State, c: Thread)
    requires Step(s, u, s') && c in s.pc && c in s.hasWaiter && ViewOf(s.pc[c]).waits && s.pending != 0
    ensures c in s'.pc && (c in s'.hasWaiter ==> StepsLeft(s'.pc[c]) == StepsLeft(s.pc[c]) - if u == c then 1 else 0)
  {
  }

  lemma {:induction false} AwaitedHasStepsLeft(s: State, c: Thread)
    requires Inv(s, ViewOf) && c in s.hasWaiter
    ensures c in s.pc && ViewOf(s.pc[c]).waits && 1 <= StepsLeft(s.pc[c]) <= 8
  {
    assert ViewOf(s.pc[c]).waits;
  }

  lemma {:induction false} StepOfOperation(s: State, u: Thread, s': State, t: Thread, c: Thread)
    requires Inv(s, ViewOf) && Step(s, u, s') && t in s.pc && HasStored(s.pc[t]) && c in s'.hasWaiter
    ensures c in s.hasWaiter && c in s.pc && c in s'.pc
    ensures StepsLeft(s'.pc[c]) == StepsLeft(s.pc[c]) - if u == c then 1 else 0
  {
    NobodyRaises(s, t, u);
    StepLowers(s, u, s');
    AwaitedHasStepsLeft(s, c);
    AwaitedMovesOn(s, u, s', c);
  }

  lemma {:induction false} StepOfRun(r: seq<State>, us: seq<Thread>, k: nat, t: Thread, c: Thread)
    requires Run(r) && Takes(r, us) && k < |us| && t in r[k].pc && HasStored(r[k].pc[t]) && c in r[k + 1].hasWaiter
    ensures c in r[k].hasWaiter && c in r[k].pc && c in r[k + 1].pc
    ensures StepsLeft(r[k + 1].pc[c]) == StepsLeft(r[k].pc[c]) - if us[k] == c then 1 else 0
  {
    RunKeepsInv(r, ViewOf, k);
    assert Step(r[k], us[k], r[k + 1]);
    StepOfOperation(r[k], us[k], r[k + 1], t, c);
  }

  /**
   While an operation is under way, a CPU whose flag is still set has taken fewer than eight steps, so
   start_exclusive waits for at most eight steps of every CPU that it has counted.
   */
  lemma {:induction false} WaitIsBounded(r: seq<State>, us: seq<Thread>, i: nat, j: nat, t: Thread, c: Thread)
    requires Run(r) && i <= j < |r| && Takes(r, us) && During(r, i, j, t)
    requires c in r[j].hasWaiter
    ensures c in r[i].hasWaiter && c in r[i].pc && c in r[j].pc
    ensures multiset(us[i..j])[c] == StepsLeft(r[i].pc[c]) - StepsLeft(r[j].pc[c]) < 8
  {
    RunKeepsInv(r, ViewOf, j);
    AwaitedHasStepsLeft(r[j], c);
    OwnSteps(r, us, i, j, t, c);
    RunKeepsInv(r, ViewOf, i);
    AwaitedHasStepsLeft(r[i], c);
  }

  lemma {:induction false} OwnSteps(r: seq<State>, us: seq<Thread>, i: nat, j: nat, t: Thread, c: Thread)
    requires Run(r) && i <= j < |r| && Takes(r, us) && During(r, i, j, t)
    requires c in r[j].hasWaiter && c in r[j].pc
    ensures c in r[i].hasWaiter && c in r[i].pc
    ensures multiset(us[i..j])[c] == StepsLeft(r[i].pc[c]) - StepsLeft(r[j].pc[c])
  {
    if i < j {
      var k := j - 1;
      StepOfRun(r, us, k, t, c);
      assert us[i..j] == us[i..k] + [us[k]];
      OwnSteps(r, us, i, k, t, c);
    }
  }

  // -------------------------------------------------------------------------------------------
  // Wake-ups
  // -------------------------------------------------------------------------------------------

  /** Whoever sleeps has something to wait for, or the wake-up is the next step of the lock holder. */
  lemma {:induction false} NoLostWakeup(r: seq<State>, i: nat, t: Thread)
    requires Run(r) && i < |r| && t in r[i].pc && r[i].pc[t].Sleep?
    ensures r[i].pc[t].cond == ExclusiveCond ==>
      r[i].pending > 1 || (r[i].lock.Held? && r[i].lock.holder in r[i].pc && r[i].pc[r[i].lock.holder] == In(EndSignal))
    ensures r[i].pc[t].cond == ExclusiveResume ==>
      r[i].pending != 0 || (r[i].lock.Held? && r[i].lock.holder in r[i].pc
        && r[i].pc[r[i].lock.holder] == In(FinishBroadcast))
  {
    RunKeepsInv(r, ViewOf, i);
    assert OwnerInv(r[i], ViewOf, t);
  }

  /** The lock holder can always take its next step. */
  lemma {:induction false} HolderCanStep(s: State, t: Thread)
    requires t in s.pc && s.pc[t].In?
    ensures exists s' :: ProtocolStep(s, t, s')
  {
    var at := s.pc[t].at;
    if at.EndSignal? && s.pending == 1 && exists u :: SleepsOn(s, u, ExclusiveCond) {
      var u :| SleepsOn(s, u, ExclusiveCond);
      var s' := Goto(Goto(s, u, Lock(s.pc[u].next)), t, In(UnlockToOutside));
      assert ExecStep(s, t, s') && ProtocolStep(s, t, s');
    } else if at.Scan? && at.todo != {} {
      var c :| c in at.todo;
      assert BeginStep(s, t, ScanNext(s, t, c, at.todo, at.found))
        && ProtocolStep(s, t, ScanNext(s, t, c, at.todo, at.found));
    } else if InExec(s.pc[t]) {
      assert ExecStep(s, t, ExecNext(s, t)) && ProtocolStep(s, t, ExecNext(s, t));
    } else if InBegin(s.pc[t]) {
      assert BeginStep(s, t, BeginNext(s, t)) && ProtocolStep(s, t, BeginNext(s, t));
    } else {
      assert FinishStep(s, t, FinishNext(s, t)) && ProtocolStep(s, t, FinishNext(s, t));
    }
  }

  /** No thread can take a protocol step. */
  ghost predicate Stuck(s: State) {
    forall t, s' {:trigger ProtocolStep(s, t, s')} | t in s.pc :: !ProtocolStep(s, t, s')
  }

  /** A stuck machine has no lock holder, so everybody is asleep or in the hands of the caller. */
  lemma {:induction false} StuckThreads(s: State, t: Thread)
    requires Stuck(s) && t in s.pc && (s.lock.Held? ==> s.lock.holder in s.pc && s.pc[s.lock.holder].In?)
    ensures s.lock == Free && (s.pc[t] == Outside || s.pc[t] == Executing || s.pc[t] == Exclusive || s.pc[t].Sleep?)
  {
    if s.lock.Held? { HolderCanStep(s, s.lock.holder); }
    if s.pc[t].In? { HolderCanStep(s, t); }
    if s.pc[t].Lock? { assert ProtocolStep(s, t, Goto(s, t, In(s.pc[t].next)).(lock := Held(t))); }
    if s.pc[t] == StartRead {
      assert ProtocolStep(s, t, Goto(s, t, if s.pending == 0 then Executing else Lock(StartCheck)));
    }
    if s.pc[t] == EndRead { assert ProtocolStep(s, t, Goto(s, t, if s.pending == 0 then Outside else Lock(EndCheck))); }
  }

  /**
   The protocol never deadlocks: if a thread sleeps and nobody can take a protocol step, then some
   caller still has to call end_exclusive, or a CPU that has been kicked still has to call cpu_exec_end.
   */
  lemma {:induction false} NoDeadlock(r: seq<State>, i: nat, t: Thread)
    requires Run(r) && i < |r| && Stuck(r[i]) && t in r[i].pc && r[i].pc[t].Sleep?
    ensures exists c :: c in r[i].pc && (r[i].pc[c] == Exclusive || (r[i].pc[c] == Executing && c in r[i].hasWaiter))
  {
    RunKeepsInv(r, ViewOf, i);
    SleeperHasOwner(r[i], t);
    StuckOwner(r[i]);
  }

  /** Without a lock holder, nobody sleeps unless an exclusive operation is under way. */
  lemma {:induction false} SleeperHasOwner(s: State, t: Thread)
    requires Inv(s, ViewOf) && Stuck(s) && t in s.pc && s.pc[t].Sleep?
    ensures s.pending != 0
  {
    StuckThreads(s, t);
    assert OwnerInv(s, ViewOf, t);
  }

  lemma {:induction false} StuckOwner(s: State)
    requires Inv(s, ViewOf) && Stuck(s) && s.pending != 0
    ensures exists c :: c in s.pc && (s.pc[c] == Exclusive || (s.pc[c] == Executing && c in s.hasWaiter))
  {
    var o :| o in s.pc && ViewOf(s.pc[o]).role != NoRole;
    StuckThreads(s, o);
    if s.pc[o] != Exclusive {
      assert OwnerInv(s, ViewOf, o);
      assert s.pending > 1 && |s.hasWaiter| > 0;
      var c :| c in s.hasWaiter;
      StuckThreads(s, c);
      assert s.pc[c] == Executing;
    }
  }
}
