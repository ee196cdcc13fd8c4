/**
 The instruction-count clock of cpus.c: virtual time is a bias plus the instruction counter shifted
 left.  The counter follows the budget of the running CPU, the shift adapts to the host clock, and
 warps move the bias.
 */
module IcountClock {
  import opened Options

  const MAX_ICOUNT_SHIFT: nat := 10
  const ICOUNT_WOBBLE: int := 100_000_000

  /** TimersState, and last_delta of icount_adjust */
  datatype Timers = Timers(
    icount: int,
    shift: int,
    bias: int,
    warpStart: int,
    clockOffset: int,
    ticksOffset: int,
    ticksPrev: int,
    enabled: bool,
    lastDelta: int
  )

  /** The icount counters of a CPU */
  datatype Cpu = Cpu(budget: int, low: int, extra: int)

  /** x << shift */
  function Shl(x: int, shift: int): int {
    if shift <= 0 then x else 2 * Shl(x, shift - 1)
  }

  /** What a read of the virtual clock returns. */
  function Reading(t: Timers): int {
    t.bias + Shl(t.icount, t.shift)
  }

  /** cpu_get_clock_locked, where host is get_clock() */
  function Clock(t: Timers, host: int): int {
    t.clockOffset + if t.enabled then host else 0
  }

  /** The host cycles that a machine which runs since it was started has seen, where cycles is cpu_get_host_ticks() */
  function Ticks(t: Timers, cycles: int): int {
    t.ticksOffset + if t.enabled then cycles else 0
  }

  /** cpu_get_icount_executed */
  function Executed(c: Cpu): int {
    c.budget - (c.low + c.extra)
  }

  // -------------------------------------------------------------------------------------------
  // The operations as functions
  // -------------------------------------------------------------------------------------------

  /** cpu_update_icount_locked */
  function Counted(t: Timers, c: Cpu): Timers {
    t.(icount := t.icount + Executed(c))
  }

  function Paid(c: Cpu): Cpu {
    c.(budget := c.budget - Executed(c))
  }

  /** The counters that prepare_icount_for_run and the refill in cpu_loop_exec_tb set from a budget */
  function Filled(budget: int): Cpu {
    var left := if budget < 0xffff then budget else 0xffff;
    Cpu(budget, left, budget - left)
  }

  /** icount_adjust on a running machine, after its read of the clock */
  function Adjusted(t: Timers, host: int): Timers {
    var now := Reading(t);
    var delta := now - Clock(t, host);
    var shift :=
      if delta > 0 && t.lastDelta + ICOUNT_WOBBLE < delta * 2 && t.shift > 0 then t.shift - 1
      else if delta < 0 && t.lastDelta - ICOUNT_WOBBLE > delta * 2 && t.shift < MAX_ICOUNT_SHIFT then t.shift + 1
      else t.shift;
    t.(shift := shift, lastDelta := delta, bias := now - Shl(t.icount, shift))
  }

  /** icount_warp_rt, after its read of the clock */
  function Warped(t: Timers, host: int, running: bool, adaptive: bool): Timers {
    if t.warpStart == -1 then t
    else if running then
      var since, behind := Clock(t, host) - t.warpStart, Clock(t, host) - Reading(t);
      t.(bias := t.bias + (if adaptive && behind < since then behind else since), warpStart := -1)
    else t.(warpStart := -1)
  }

  /** qemu_start_warp_timer with a deadline in the future; sleep is icount_sleep */
  function WarpStarted(t: Timers, host: int, deadline: int, sleep: bool): Timers {
    if !sleep then t.(bias := t.bias + deadline)
    else if t.warpStart == -1 || t.warpStart > Clock(t, host) then t.(warpStart := Clock(t, host))
    else t
  }

  /** cpu_enable_ticks */
  function TicksEnabled(t: Timers, host: int, cycles: int): Timers {
    if t.enabled then t else t.(ticksOffset := t.ticksOffset - cycles, clockOffset := t.clockOffset - host,
      enabled := true)
  }

  /** cpu_disable_ticks */
  function TicksDisabled(t: Timers, host: int, cycles: int): Timers {
    if t.enabled then t.(ticksOffset := t.ticksOffset + cycles, clockOffset := Clock(t, host), enabled := false) else t
  }

  /** cpu_get_ticks_locked, which returns the new ticksPrev */
  function TicksRead(t: Timers, cycles: int): Timers {
    if t.ticksPrev > Ticks(t, cycles) then t.(ticksOffset := t.ticksOffset + (t.ticksPrev - Ticks(t, cycles)))
    else t.(ticksPrev := Ticks(t, cycles))
  }

  // -------------------------------------------------------------------------------------------
  // Runs
  // -------------------------------------------------------------------------------------------

  datatype World = World(t: Timers, cpu: Cpu, host: int, cycles: int, running: bool)

  datatype Event =
    | HostTick(d: nat)                               // time passes on the host
    | Retire(n: nat)                                 // the CPU executes n instructions
    | Read(byCpu: bool)                              // somebody reads the virtual clock, maybe the running CPU itself
    | Refill                                         // the decrementer has expired
    | Prepare(limit: nat)                            // a new slice with this budget
    | Process                                        // the slice ends
    | Adjust(byCpu: bool)
    | StartWarp(deadline: int, idle: bool, sleep: bool)
    | Warp(adaptive: bool, byCpu: bool)
    | HostCycles(cycles: int)                        // the host's cycle counter changes, backwards if it was suspended
    | ReadTicks
    | EnableTicks
    | DisableTicks
    | SetRunning(on: bool)

  /** Counters are not negative, and no more is left than budgeted; a warp starts in the past. */
  ghost predicate Valid(w: World) {
    && 0 <= w.t.shift <= MAX_ICOUNT_SHIFT
    && 0 <= w.cpu.low && 0 <= w.cpu.extra && 0 <= Executed(w.cpu)
    && 0 <= Clock(w.t, w.host) && -1 <= w.t.warpStart <= Clock(w.t, w.host)
  }

  /**
   What the source demands: a CPU only executes what its decrementer allows, and a slice starts with cleared counters.
   */
  ghost predicate Enabled(w: World, e: Event) {
    match e
    case Retire(n) => n <= w.cpu.low
    case Prepare(_) => w.cpu == Cpu(0, 0, 0)
    case _ => true
  }

  function AfterRead(w: World, byCpu: bool): World {
    if byCpu then w.(t := Counted(w.t, w.cpu), cpu := Paid(w.cpu)) else w
  }

  function AfterAdjust(w: World, byCpu: bool): World {
    if !w.running then w else var r := AfterRead(w, byCpu); r.(t := Adjusted(r.t, w.host))
  }

  function AfterStartWarp(w: World, deadline: int, idle: bool, sleep: bool): World {
    if w.running && idle && deadline > 0 then w.(t := WarpStarted(w.t, w.host, deadline, sleep)) else w
  }

  function AfterWarp(w: World, adaptive: bool, byCpu: bool): World {
    var r := AfterRead(w, adaptive && byCpu && w.running && w.t.warpStart != -1);
    r.(t := Warped(r.t, w.host, w.running, adaptive))
  }

  function Next(w: World, e: Event): World {
    match e
    case HostTick(d) => w.(host := w.host + d)
    case Retire(n) => w.(cpu := w.cpu.(low := w.cpu.low - n))
    case Read(byCpu) => AfterRead(w, byCpu)
    case Refill => w.(t := Counted(w.t, w.cpu), cpu := Filled(Paid(w.cpu).budget))
    case Prepare(limit) => w.(cpu := Filled(limit))
    case Process => w.(t := Counted(w.t, w.cpu), cpu := Cpu(0, 0, 0))
    case Adjust(byCpu) => AfterAdjust(w, byCpu)
    case StartWarp(deadline, idle, sleep) => AfterStartWarp(w, deadline, idle, sleep)
    case Warp(adaptive, byCpu) => AfterWarp(w, adaptive, byCpu)
    case HostCycles(cycles) => w.(cycles := cycles)
    case ReadTicks => w.(t := TicksRead(w.t, w.cycles))
    case EnableTicks => w.(t := TicksEnabled(w.t, w.host, w.cycles))
    case DisableTicks => w.(t := TicksDisabled(w.t, w.host, w.cycles))
    case SetRunning(on) => w.(running := on)
  }

  lemma {:induction false} ShlMonotone(x: int, y: int, shift: int)
    requires x <= y
    ensures Shl(x, shift) <= Shl(y, shift)
  {
    if shift > 0 { ShlMonotone(x, y, shift - 1); }
  }

  /** Rescaling leaves the reading as it is, and the shift in its range. */
  lemma {:induction false} AdjustKeepsReading(t: Timers, host: int)
    requires 0 <= t.shift <= MAX_ICOUNT_SHIFT
    ensures Reading(Adjusted(t, host)) == Reading(t) && 0 <= Adjusted(t, host).shift <= MAX_ICOUNT_SHIFT
  {
  }

  /** Stopping and starting the clock does not make it jump. */
  lemma {:induction false} TicksKeepClock(t: Timers, host: int, cycles: int)
    ensures Clock(TicksEnabled(t, host, cycles), host) == Clock(t, host) == Clock(TicksDisabled(t, host, cycles), host)
    ensures Ticks(TicksEnabled(t, host, cycles), cycles) == Ticks(t, cycles) ==
      Ticks(TicksDisabled(t, host, cycles), cycles)
  {
  }

  /** Accounting for executed instructions moves the clock forward. */
  lemma {:induction false} UpdateIsMonotone(t: Timers, c: Cpu)
    requires 0 <= Executed(c)
    ensures Reading(Counted(t, c)) >= Reading(t) && Executed(Paid(c)) == 0
  {
    ShlMonotone(t.icount, t.icount + Executed(c), t.shift);
  }

  /** The clocks of w' are not behind those of w. */
  ghost predicate Forward(w: World, w': World) {
    Valid(w') && Reading(w'.t) >= Reading(w.t) && Steady(w, w')
  }

  /** The clock of the machine and the ticks that were last read do not go back either. */
  ghost predicate Steady(w: World, w': World) {
    Valid(w') && Clock(w'.t, w'.host) >= Clock(w.t, w.host) && w'.t.ticksPrev >= w.t.ticksPrev
  }

  lemma {:induction false} ReadIsMonotone(w: World, byCpu: bool)
    requires Valid(w)
    ensures Forward(w, AfterRead(w, byCpu))
  {
    UpdateIsMonotone(w.t, w.cpu);
  }

  lemma {:induction false} AdjustIsMonotone(w: World, byCpu: bool)
    requires Valid(w)
    ensures Forward(w, AfterAdjust(w, byCpu))
  {
    ReadIsMonotone(w, byCpu);
    AdjustKeepsReading(AfterRead(w, byCpu).t, w.host);
  }

  lemma {:induction false} CountIsMonotone(w: World, e: Event)
    requires Valid(w) && (e.Refill? || e.Process?)
    ensures Forward(w, Next(w, e))
  {
    UpdateIsMonotone(w.t, w.cpu);
  }

  /** A warp in adaptive mode takes place while the virtual clock is ahead of the clock of the machine. */
  ghost predicate WarpsBack(w: World, e: Event) {
    e.Warp? && e.adaptive && w.running && w.t.warpStart != -1 && Clock(w.t, w.host) < Reading(w.t)
  }

  lemma {:induction false} WarpIs(w: World, adaptive: bool, byCpu: bool)
    requires Valid(w)
    ensures var w' := AfterWarp(w, adaptive, byCpu);
      Steady(w, w') && (Reading(w'.t) >= Reading(w.t) <==> !WarpsBack(w, Warp(adaptive, byCpu)))
  {
    ReadIsMonotone(w, adaptive && byCpu && w.running && w.t.warpStart != -1);
  }

  lemma {:induction false} StartWarpIsMonotone(w: World, deadline: int, idle: bool, sleep: bool)
    requires Valid(w)
    ensures Forward(w, AfterStartWarp(w, deadline, idle, sleep))
  {
    var w' := AfterStartWarp(w, deadline, idle, sleep);
    assert w' == w.(t := w'.t) && w'.t == w.t.(bias := w'.t.bias, warpStart := w'.t.warpStart);
  }

  lemma {:induction false} TicksAreMonotone(w: World, e: Event)
    requires Valid(w) && (e.ReadTicks? || e.EnableTicks? || e.DisableTicks?)
    ensures Forward(w, Next(w, e))
  {
    TicksKeepClock(w.t, w.host, w.cycles);
    var t := Next(w, e).t;
    assert Next(w, e) == w.(t := t);
    assert t.icount == w.t.icount && t.shift == w.t.shift && t.bias == w.t.bias && t.warpStart == w.t.warpStart;
  }

  /** The other events leave the timers alone. */
  lemma {:induction false} OtherIsMonotone(w: World, e: Event)
    requires Valid(w) && Enabled(w, e)
    requires e.HostTick? || e.Retire? || e.Prepare? || e.HostCycles? || e.SetRunning?
    ensures Forward(w, Next(w, e))
  {
    assert Next(w, e).t == w.t;
  }

  /** A step moves the virtual clock back if and only if it is such a warp. */
  lemma {:induction false} StepIsMonotone(w: World, e: Event)
    requires Valid(w) && Enabled(w, e)
    ensures Steady(w, Next(w, e)) && (Reading(Next(w, e).t) >= Reading(w.t) <==> !WarpsBack(w, e))
  {
    match e
    case Read(byCpu) => ReadIsMonotone(w, byCpu);
    case Adjust(byCpu) => AdjustIsMonotone(w, byCpu);
    case Warp(adaptive, byCpu) => WarpIs(w, adaptive, byCpu);
    case Refill => CountIsMonotone(w, e);
    case Process => CountIsMonotone(w, e);
    case StartWarp(deadline, idle, sleep) => StartWarpIsMonotone(w, deadline, idle, sleep);
    case ReadTicks => TicksAreMonotone(w, e);
    case EnableTicks => TicksAreMonotone(w, e);
    case DisableTicks => TicksAreMonotone(w, e);
    case _ => OtherIsMonotone(w, e);
  }


  ghost predicate Step(w: World, e: Event, w': World) {
    Enabled(w, e) && w' == Next(w, e)
  }

  ghost predicate Run(ws: seq<World>, es: seq<Event>) {
    && |ws| == |es| + 1
    && forall i {:trigger Step(ws[i], es[i], ws[i + 1])} | 0 <= i < |es| :: Step(ws[i], es[i], ws[i + 1])
  }

  lemma {:induction false} OneMoreStep(ws: seq<World>, es: seq<Event>, e: Event, w': World)
    requires Run(ws, es) && Step(ws[|es|], e, w')
    ensures Run(ws + [w'], es + [e])
  {
    forall i | 0 <= i < |es| + 1 ensures Step((ws + [w'])[i], (es + [e])[i], (ws + [w'])[i + 1]) {
      if i < |es| { assert Step(ws[i], es[i], ws[i + 1]); }
    }
  }

  /** The clock of the machine is started, and at time 1 a CPU executes a slice of five instructions. */
  lemma {:induction false} SliceOfFive(w0: World) returns (ws: seq<World>, es: seq<Event>)
    requires w0 == World(Timers(0, 0, 0, -1, 0, 0, 0, false, 0), Cpu(0, 0, 0), 0, 0, true)
    ensures |es| == 5 && Run(ws, es) && ws[0] == w0
    ensures ws[5] == World(Timers(5, 0, 0, -1, 0, 0, 0, true, 0), Cpu(0, 0, 0), 1, 0, true)
  {
    var w1 := w0.(t := w0.t.(enabled := true));
    OneMoreStep([w0], [], EnableTicks, w1);
    var w2 := w1.(host := 1);
    OneMoreStep([w0, w1], [EnableTicks], HostTick(1), w2);
    var w3 := w2.(cpu := Cpu(5, 5, 0));
    OneMoreStep([w0, w1, w2], [EnableTicks, HostTick(1)], Prepare(5), w3);
    var w4 := w3.(cpu := Cpu(5, 0, 0));
    OneMoreStep([w0, w1, w2, w3], [EnableTicks, HostTick(1), Prepare(5)], Retire(5), w4);
    var w5 := w4.(t := w4.t.(icount := 5), cpu := Cpu(0, 0, 0));
    OneMoreStep([w0, w1, w2, w3, w4], [EnableTicks, HostTick(1), Prepare(5), Retire(5)], Process, w5);
    ws, es := [w0, w1, w2, w3, w4, w5], [EnableTicks, HostTick(1), Prepare(5), Retire(5), Process];
  }

  /** In adaptive mode the last step of a run can take the virtual clock back: here from 5 to 2. */
  lemma {:induction false} AdaptiveWarpGoesBack(w0: World) returns (ws: seq<World>, es: seq<Event>)
    requires w0 == World(Timers(0, 0, 0, -1, 0, 0, 0, false, 0), Cpu(0, 0, 0), 0, 0, true)
    ensures |es| == 8 && Run(ws, es) && ws[0] == w0 && Valid(w0)
    ensures WarpsBack(ws[7], es[7]) && Reading(ws[7].t) == 5 && Reading(ws[8].t) == 2
  {
    ws, es := SliceOfFive(w0);
    var w6 := ws[5].(t := ws[5].t.(warpStart := 1));
    OneMoreStep(ws, es, StartWarp(10, true, true), w6);
    ws, es := ws + [w6], es + [StartWarp(10, true, true)];
    var w7 := w6.(host := 2);
    OneMoreStep(ws, es, HostTick(1), w7);
    ws, es := ws + [w7], es + [HostTick(1)];
    var w8 := w7.(t := w7.t.(bias := -3, warpStart := -1));
    OneMoreStep(ws, es, Warp(true, false), w8);
    ws, es := ws + [w8], es + [Warp(true, false)];
  }

  lemma {:induction false} RunIsValid(ws: seq<World>, es: seq<Event>, i: nat)
    requires Run(ws, es) && Valid(ws[0]) && i < |ws|
    ensures Valid(ws[i])
  {
    if i > 0 {
      var k := i - 1;
      RunIsValid(ws, es, k);
      assert Step(ws[k], es[k], ws[k + 1]);
      StepIsMonotone(ws[k], es[k]);
    }
  }

  /**
   Over every run, the clock of the machine and the ticks never go back, the shift stays in its range, and the virtual
   clock does not go back either from one state to a later one, unless an adaptive warp in between sets it back.
   */
  lemma {:induction false} ClockNeverGoesBack(ws: seq<World>, es: seq<Event>, i: nat, j: nat)
    requires Run(ws, es) && Valid(ws[0]) && i <= j < |ws|
    ensures Valid(ws[i]) && Steady(ws[i], ws[j])
    ensures (forall k | i <= k < j :: !WarpsBack(ws[k], es[k])) ==> Reading(ws[i].t) <= Reading(ws[j].t)
  {
    RunIsValid(ws, es, i);
    if i < j {
      var k := j - 1;
      ClockNeverGoesBack(ws, es, i, k);
      assert Step(ws[k], es[k], ws[k + 1]);
      StepIsMonotone(ws[k], es[k]);
    }
  }

  // -------------------------------------------------------------------------------------------
  // Slices
  // -------------------------------------------------------------------------------------------

  function Retired(es: seq<Event>): nat {
    if es == [] then 0 else Retired(es[..|es| - 1]) + if es[|es| - 1].Retire? then es[|es| - 1].n else 0
  }

  /** Instructions that the counter and the current CPU have seen together. */
  function Seen(w: World): int {
    w.t.icount + Executed(w.cpu)
  }

  lemma {:induction false} UpdateCounts(w: World, byCpu: bool)
    ensures Seen(AfterRead(w, byCpu)) == Seen(w)
    ensures w.t.icount + Executed(w.cpu) == Counted(w.t, w.cpu).icount
  {
  }

  lemma {:induction false} AdjustCounts(w: World, byCpu: bool)
    ensures Seen(AfterAdjust(w, byCpu)) == Seen(w)
  {
    UpdateCounts(w, byCpu);
  }

  lemma {:induction false} WarpCounts(w: World, adaptive: bool, byCpu: bool)
    ensures Seen(AfterWarp(w, adaptive, byCpu)) == Seen(w)
  {
    UpdateCounts(w, adaptive && byCpu && w.running && w.t.warpStart != -1);
  }

  lemma {:induction false} StartWarpCounts(w: World, deadline: int, idle: bool, sleep: bool)
    ensures Seen(AfterStartWarp(w, deadline, idle, sleep)) == Seen(w)
  {
  }

  lemma {:induction false} TicksCount(w: World, e: Event)
    requires e.ReadTicks? || e.EnableTicks? || e.DisableTicks?
    ensures Seen(Next(w, e)) == Seen(w)
  {
    assert Next(w, e).t.icount == w.t.icount && Next(w, e).cpu == w.cpu;
  }

  lemma {:induction false} FillCounts(w: World, e: Event)
    requires Enabled(w, e) && (e.Refill? || e.Prepare? || e.Process?)
    ensures Seen(Next(w, e)) == Seen(w)
  {
    assert Executed(Next(w, e).cpu) == 0;
    UpdateCounts(w, true);
  }

  lemma {:induction false} OtherCounts(w: World, e: Event)
    requires Enabled(w, e) && (e.HostTick? || e.Retire? || e.HostCycles? || e.SetRunning?)
    ensures Seen(Next(w, e)) == Seen(w) + if e.Retire? then e.n else 0
  {
    assert Next(w, e).t == w.t;
  }

  lemma {:induction false} StepCounts(w: World, e: Event)
    requires Enabled(w, e)
    ensures Seen(Next(w, e)) == Seen(w) + if e.Retire? then e.n else 0
  {
    match e
    case Read(byCpu) => UpdateCounts(w, byCpu);
    case Refill => FillCounts(w, e);
    case Prepare(_) => FillCounts(w, e);
    case Process => FillCounts(w, e);
    case Adjust(byCpu) => AdjustCounts(w, byCpu);
    case StartWarp(deadline, idle, sleep) => StartWarpCounts(w, deadline, idle, sleep);
    case Warp(adaptive, byCpu) => WarpCounts(w, adaptive, byCpu);
    case ReadTicks => TicksCount(w, e);
    case EnableTicks => TicksCount(w, e);
    case DisableTicks => TicksCount(w, e);
    case _ => OtherCounts(w, e);
  }

  lemma {:induction false} RunCounts(ws: seq<World>, es: seq<Event>)
    requires Run(ws, es)
    ensures Seen(ws[|es|]) == Seen(ws[0]) + Retired(es)
  {
    if es != [] {
      var n := |es| - 1;
      forall i | 0 <= i < n ensures Step(ws[..n + 1][i], es[..n][i], ws[..n + 1][i + 1]) {
        assert Step(ws[i], es[i], ws[i + 1]);
      }
      RunCounts(ws[..n + 1], es[..n]);
      assert Step(ws[n], es[n], ws[n + 1]);
      StepCounts(ws[n], es[n]);
    }
  }

  /**
   From the start of a slice to its end, the instruction counter grows by exactly the instructions that
   were executed, however often the clock was read, adjusted or warped, and the decrementer refilled.
   */
  lemma {:induction false} SliceCountsExactly(ws: seq<World>, es: seq<Event>)
    requires Run(ws, es) && |es| >= 2 && es[0].Prepare? && es[|es| - 1].Process?
    ensures ws[|es|].t.icount == ws[0].t.icount + Retired(es)
  {
    RunCounts(ws, es);
    SliceEnds(ws, es);
  }

  /** Outside of slices, the counter has seen everything. */
  lemma {:induction false} SliceEnds(ws: seq<World>, es: seq<Event>)
    requires Run(ws, es) && |es| >= 2 && es[0].Prepare? && es[|es| - 1].Process?
    ensures Seen(ws[0]) == ws[0].t.icount && Seen(ws[|es|]) == ws[|es|].t.icount
  {
    var first, last := 0, |es| - 1;
    assert Step(ws[first], es[first], ws[first + 1]);
    PrepareStarts(ws[first], es[first], ws[first + 1]);
    assert Step(ws[last], es[last], ws[last + 1]);
    ProcessEnds(ws[last], es[last], ws[last + 1]);
  }

  lemma {:induction false} PrepareStarts(w: World, e: Event, w': World)
    requires Step(w, e, w') && e.Prepare?
    ensures Seen(w) == w.t.icount
  {
  }

  lemma {:induction false} ProcessEnds(w: World, e: Event, w': World)
    requires Step(w, e, w') && e.Process?
    ensures Seen(w') == w'.t.icount
  {
    assert w' == w.(t := Counted(w.t, w.cpu), cpu := Cpu(0, 0, 0));
  }

  // -------------------------------------------------------------------------------------------
  // The timers in place
  // -------------------------------------------------------------------------------------------

  class CpuState {
    var icountBudget: int
    var icountLow: int      // icount_decr.u16.low
    var icountExtra: int

    constructor ()
      ensures Abs() == Cpu(0, 0, 0)
    {
      icountBudget, icountLow, icountExtra := 0, 0, 0;
    }

    ghost function Abs(): Cpu
      reads this
    {
      Cpu(icountBudget, icountLow, icountExtra)
    }

    /** prepare_icount_for_run */
    method PrepareIcountForRun(limit: int)
      requires icountLow == 0 && icountExtra == 0
      modifies this
      ensures Abs() == Filled(limit) && icountLow + icountExtra == icountBudget == limit && icountLow <= 0xffff
      ensures 0 <= limit ==> 0 <= icountLow && 0 <= icountExtra
    {
      icountBudget := limit;
      var left := if icountBudget < 0xffff then icountBudget else 0xffff;
      icountLow := left;
      icountExtra := icountBudget - left;
    }
  }

  class TimersState {
    var qemuIcount: int
    var icountTimeShift: int
    var qemuIcountBias: int
    var vmClockWarpStart: int
    var cpuClockOffset: int
    var cpuTicksOffset: int
    var cpuTicksPrev: int
    var cpuTicksEnabled: bool
    var lastDelta: int

    constructor (shift: int)
      ensures Abs() == Timers(0, shift, 0, -1, 0, 0, 0, false, 0)
    {
      qemuIcount, icountTimeShift, qemuIcountBias, vmClockWarpStart := 0, shift, 0, -1;
      cpuClockOffset, cpuTicksOffset, cpuTicksPrev, cpuTicksEnabled, lastDelta := 0, 0, 0, false, 0;
    }

    ghost function Abs(): Timers
      reads this
    {
      Timers(qemuIcount, icountTimeShift, qemuIcountBias, vmClockWarpStart,
        cpuClockOffset, cpuTicksOffset, cpuTicksPrev, cpuTicksEnabled, lastDelta)
    }

    /** cpu_update_icount_locked */
    method CpuUpdateIcount(cpu: CpuState)
      modifies this`qemuIcount, cpu`icountBudget
      ensures Abs() == Counted(old(Abs()), old(cpu.Abs())) && cpu.Abs() == Paid(old(cpu.Abs()))
    {
      var executed := cpu.icountBudget - (cpu.icountLow + cpu.icountExtra);
      cpu.icountBudget := cpu.icountBudget - executed;
      qemuIcount := qemuIcount + executed;
    }

    /**
     cpu_get_icount_locked; byCpu says whether the current thread runs the CPU, and canDoIo is its
     can_do_io.  None where the process exits because of a bad read.
     */
    method CpuGetIcount(cpu: CpuState, byCpu: bool, canDoIo: bool) returns (r: Option<int>)
      modifies this`qemuIcount, cpu`icountBudget
      ensures r.None? <==> byCpu && !canDoIo
      ensures r.Some? ==> r.value == Reading(Abs())
      ensures Abs() == (if byCpu && canDoIo then Counted(old(Abs()), old(cpu.Abs())) else old(Abs()))
      ensures cpu.Abs() == (if byCpu && canDoIo then Paid(old(cpu.Abs())) else old(cpu.Abs()))
    {
      if byCpu {
        if !canDoIo {
          return None;
        }
        CpuUpdateIcount(cpu);
      }
      return Some(qemuIcountBias + Shl(qemuIcount, icountTimeShift));
    }

    /** The refill in cpu_loop_exec_tb */
    method Refill(cpu: CpuState)
      modifies this`qemuIcount, cpu
      ensures Abs() == Counted(old(Abs()), old(cpu.Abs())) && cpu.Abs() == Filled(Paid(old(cpu.Abs())).budget)
    {
      CpuUpdateIcount(cpu);
      var left := if cpu.icountBudget < 0xffff then cpu.icountBudget else 0xffff;
      cpu.icountLow := left;
      cpu.icountExtra := cpu.icountBudget - left;
    }

    /** process_icount_data */
    method ProcessIcountData(cpu: CpuState)
      modifies this`qemuIcount, cpu
      ensures Abs() == Counted(old(Abs()), old(cpu.Abs())) && cpu.Abs() == Cpu(0, 0, 0)
    {
      CpuUpdateIcount(cpu);
      cpu.icountLow, cpu.icountExtra, cpu.icountBudget := 0, 0, 0;
    }

    /**
     icount_adjust: whatever it does to the shift, the clock reads the same afterwards. Not alive after a bad read.
     */
    method IcountAdjust(cpu: CpuState, byCpu: bool, canDoIo: bool, host: int, running: bool) returns (alive: bool)
      requires 0 <= icountTimeShift <= MAX_ICOUNT_SHIFT
      modifies this, cpu`icountBudget
      ensures alive <==> !(running && byCpu && !canDoIo)
      ensures alive && running ==>
        var t := (if byCpu then Counted(old(Abs()), old(cpu.Abs())) else old(Abs()));
        Abs() == Adjusted(t, host) && Reading(Abs()) == Reading(t)
      ensures alive && running ==> cpu.Abs() == if byCpu then Paid(old(cpu.Abs())) else old(cpu.Abs())
      ensures !(alive && running) ==> Abs() == old(Abs()) && cpu.Abs() == old(cpu.Abs())
      ensures 0 <= icountTimeShift <= MAX_ICOUNT_SHIFT
    {
      if !running {
        return true;
      }
      var curTime := CpuGetClock(host);
      var read := CpuGetIcount(cpu, byCpu, canDoIo);
      if read.None? {
        return false;
      }
      var curIcount := read.value;
      AdjustKeepsReading(Abs(), host);
      var delta := curIcount - curTime;
      if delta > 0 && lastDelta + ICOUNT_WOBBLE < delta * 2 && icountTimeShift > 0 {
        icountTimeShift := icountTimeShift - 1;
      }
      if delta < 0 && lastDelta - ICOUNT_WOBBLE > delta * 2 && icountTimeShift < MAX_ICOUNT_SHIFT {
        icountTimeShift := icountTimeShift + 1;
      }
      lastDelta := delta;
      qemuIcountBias := curIcount - Shl(qemuIcount, icountTimeShift);
      alive := true;
    }

    /** cpu_get_clock_locked */
    method CpuGetClock(host: int) returns (r: int)
      ensures r == Clock(Abs(), host)
    {
      r := cpuClockOffset;
      if cpuTicksEnabled {
        r := r + host;
      }
    }

    /** cpu_get_ticks_locked: what it returns is never less than what it returned before. */
    method CpuGetTicks(cycles: int) returns (r: int)
      modifies this
      ensures Abs() == TicksRead(old(Abs()), cycles)
      ensures r == cpuTicksPrev == Ticks(Abs(), cycles) && r >= old(cpuTicksPrev)
    {
      r := cpuTicksOffset;
      if cpuTicksEnabled {
        r := r + cycles;
      }
      if cpuTicksPrev > r {
        cpuTicksOffset := cpuTicksOffset + (cpuTicksPrev - r);
        r := cpuTicksPrev;
      }
      cpuTicksPrev := r;
    }

    /** icount_warp_rt; it reads the instruction counter in adaptive mode only. */
    method IcountWarpRt(cpu: CpuState, byCpu: bool, canDoIo: bool, host: int, running: bool, adaptive: bool)
      returns (alive: bool)
      modifies this, cpu`icountBudget
      ensures alive <==> !(byCpu && !canDoIo && adaptive && running && old(vmClockWarpStart) != -1)
      ensures alive ==>
        var counts := byCpu && adaptive && running && old(vmClockWarpStart) != -1;
        Abs() == Warped(if counts then Counted(old(Abs()), old(cpu.Abs())) else old(Abs()), host, running, adaptive)
      ensures alive ==>
        var counts := byCpu && adaptive && running && old(vmClockWarpStart) != -1;
        cpu.Abs() == if counts then Paid(old(cpu.Abs())) else old(cpu.Abs())
    {
      if vmClockWarpStart == -1 {
        return true;
      }
      if running {
        var clock := CpuGetClock(host);
        var warpDelta := clock - vmClockWarpStart;
        if adaptive {
          var read := CpuGetIcount(cpu, byCpu, canDoIo);
          if read.None? {
            return false;
          }
          var delta := clock - read.value;
          warpDelta := if delta < warpDelta then delta else warpDelta;
        }
        qemuIcountBias := qemuIcountBias + warpDelta;
      }
      vmClockWarpStart := -1;
      alive := true;
    }

    /**
     qemu_start_warp_timer outside of replay; idle says that all CPUs are idle and that this is no qtest run.
     notify says whether it wakes the virtual clock.
     */
    method StartWarpTimer(useIcount: bool, running: bool, idle: bool, host: int, deadline: int, sleep: bool)
      returns (notify: bool)
      modifies this
      ensures Abs() == if useIcount && running && idle
        && deadline > 0 then WarpStarted(old(Abs()), host, deadline, sleep) else old(Abs())
      ensures notify <==> useIcount && running && idle && (deadline == 0 || (deadline > 0 && !sleep))
    {
      if !useIcount || !running || !idle {
        return false;
      }
      var clock := CpuGetClock(host);
      if deadline < 0 {
        return false;
      }
      if deadline > 0 {
        if !sleep {
          qemuIcountBias := qemuIcountBias + deadline;
          return true;
        }
        if vmClockWarpStart == -1 || vmClockWarpStart > clock {
          vmClockWarpStart := clock;
        }
        return false;
      }
      return true;
    }

    /** cpu_enable_ticks */
    method CpuEnableTicks(host: int, cycles: int)
      modifies this
      ensures Abs() == TicksEnabled(old(Abs()), host, cycles)
      ensures Clock(Abs(), host) == Clock(old(Abs()), host) && Ticks(Abs(), cycles) == Ticks(old(Abs()), cycles)
    {
      if !cpuTicksEnabled {
        cpuTicksOffset := cpuTicksOffset - cycles;
        cpuClockOffset := cpuClockOffset - host;
        cpuTicksEnabled := true;
      }
    }

    /** cpu_disable_ticks */
    method CpuDisableTicks(host: int, cycles: int)
      modifies this
      ensures Abs() == TicksDisabled(old(Abs()), host, cycles)
      ensures Clock(Abs(), host) == Clock(old(Abs()), host) && Ticks(Abs(), cycles) == Ticks(old(Abs()), cycles)
    {
      if cpuTicksEnabled {
        cpuTicksOffset := cpuTicksOffset + cycles;
        cpuClockOffset := CpuGetClock(host);
        cpuTicksEnabled := false;
      }
    }
  }
}
