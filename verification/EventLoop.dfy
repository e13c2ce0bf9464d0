/** The deadline scheduler of the daemon's event loop: the reducer, the maintenance outcomes and the driver. */
module EventLoop {
  import opened Domain

  datatype ScreenState = On | Off | Unknown

  datatype LoopEvent =
    | TimerExpired
    | Uevent(subsystem: string)
    | UeventBufferOverflow
    | ShutdownSignal
    | ReloadSignal
    | OtherSignal
    | IpcReadable
    | PsiPressure(level: nat)
    | ReconcileScreen(screen: ScreenState)

  datatype LoopAction =
    RunMaintenance | PreemptCleaning | Shutdown | ReloadConfig | HandleIpc | ReclaimMemory(level: nat) | ReconcileSysfs

  /** Instants and durations are seconds of the monotonic clock. */
  datatype Schedule = Schedule(
    screen: ScreenState,
    screenOffSince: Option<real>,
    ueventOk: bool,
    maintenance: real,
    screenOff: Option<real>,
    retry: Option<real>,
    backoff: real)

  const INITIAL_BACKOFF: real := 5.0
  const MAX_BACKOFF: real := 60.0

  predicate IsDisplayOrPower(subsystem: string) {
    subsystem in {"backlight", "leds", "graphics", "drm", "power_supply"}
  }

  function Started(interval: real, now: real): Schedule {
    Schedule(Unknown, None, true, now + interval, None, None, INITIAL_BACKOFF)
  }

  function Reduced(s: Schedule, event: LoopEvent, now: real, minOff: real, interval: real, cleaning: bool)
    : (Schedule, seq<LoopAction>)
  {
    match event
    case TimerExpired =>
      (s.(screenOff := if s.screenOff.Some? && now >= s.screenOff.value then None else s.screenOff),
       if now >= s.maintenance || (s.retry.Some? && now >= s.retry.value) then [RunMaintenance] else [])
    case Uevent(subsystem) => (s, if IsDisplayOrPower(subsystem) then [ReconcileSysfs] else [])
    case UeventBufferOverflow => (s.(ueventOk := false), [ReconcileSysfs])
    case ReconcileScreen(On) =>
      (s.(ueventOk := true, screen := On, screenOffSince := None, screenOff := None, backoff := INITIAL_BACKOFF),
       if s.screen != On && cleaning then [PreemptCleaning] else [])
    case ReconcileScreen(Off) =>
      (if s.screen == Off then s.(ueventOk := true)
       else s.(ueventOk := true, screen := Off, screenOffSince := Some(now), screenOff := Some(now + minOff),
               backoff := INITIAL_BACKOFF),
       [])
    case ReconcileScreen(Unknown) => (s.(ueventOk := true), [])
    case ShutdownSignal => (s, [Shutdown])
    case ReloadSignal => (s.(maintenance := now + interval, retry := None, backoff := INITIAL_BACKOFF), [ReloadConfig])
    case OtherSignal => (s, [])
    case IpcReadable => (s, [HandleIpc])
    case PsiPressure(level) => (s, [ReclaimMemory(level)])
  }

  /** Advances from the old deadline, so that the cycle does not drift, unless that lies in the past. */
  function AfterSuccess(s: Schedule, now: real, interval: real): Schedule {
    var next := s.maintenance + interval;
    s.(maintenance := if next < now then now + interval else next, retry := None, backoff := INITIAL_BACKOFF)
  }

  function AfterPostponement(s: Schedule, now: real, interval: real): Schedule {
    s.(retry := Some(now + s.backoff),
       backoff := if s.backoff * 2.0 < MAX_BACKOFF then s.backoff * 2.0 else MAX_BACKOFF,
       maintenance := if s.maintenance <= now then now + interval else s.maintenance)
  }

  class LoopState {
    var screen: ScreenState
    var screenOffSince: Option<real>
    var ueventOk: bool
    var maintenance: real
    var screenOff: Option<real>
    var retry: Option<real>
    var backoff: real

    ghost function View(): Schedule
      reads this
    {
      Schedule(screen, screenOffSince, ueventOk, maintenance, screenOff, retry, backoff)
    }

    constructor (interval: real, now: real)
      ensures View() == Started(interval, now)
      ensures screen == Unknown && screenOffSince == None && ueventOk && maintenance == now + interval
      ensures screenOff == None && retry == None && backoff == 5.0
    {
      screen, screenOffSince, ueventOk := Unknown, None, true;
      maintenance, screenOff, retry, backoff := now + interval, None, None, INITIAL_BACKOFF;
    }

    /** The earliest of the active deadlines. */
    method EarliestDeadline() returns (earliest: real)
      ensures earliest in Deadlines(View()) && forall d :: d in Deadlines(View()) ==> earliest <= d
    {
      earliest := maintenance;
      if screenOff.Some? && screenOff.value < earliest {
        earliest := screenOff.value;
      }
      if retry.Some? && retry.value < earliest {
        earliest := retry.value;
      }
    }

    method ResetRetryBackoff()
      modifies this`backoff
      ensures backoff == INITIAL_BACKOFF
    {
      backoff := INITIAL_BACKOFF;
    }

    method Reduce(event: LoopEvent, now: real, minOff: real, interval: real, cleaning: bool)
      returns (actions: seq<LoopAction>)
      modifies this
      ensures (View(), actions) == Reduced(old(View()), event, now, minOff, interval, cleaning)
    {
      actions := [];
      match event {
        case TimerExpired =>
          if screenOff.Some? && now >= screenOff.value {
            screenOff := None;
          }
          if now >= maintenance || (retry.Some? && now >= retry.value) {
            actions := [RunMaintenance];
          }
        case Uevent(subsystem) =>
          if IsDisplayOrPower(subsystem) {
            actions := [ReconcileSysfs];
          }
        case UeventBufferOverflow =>
          ueventOk := false;
          actions := [ReconcileSysfs];
        case ReconcileScreen(next) =>
          ueventOk := true;
          if next == On {
            var wasOff := screen != On;
            screen, screenOffSince, screenOff := On, None, None;
            ResetRetryBackoff();
            if wasOff && cleaning {
              actions := [PreemptCleaning];
            }
          } else if next == Off && screen != Off {
            screen, screenOffSince, screenOff := Off, Some(now), Some(now + minOff);
            ResetRetryBackoff();
          }
        case ShutdownSignal => actions := [Shutdown];
        case ReloadSignal =>
          maintenance, retry := now + interval, None;
          ResetRetryBackoff();
          actions := [ReloadConfig];
        case OtherSignal =>
        case IpcReadable => actions := [HandleIpc];
        case PsiPressure(level) => actions := [ReclaimMemory(level)];
      }
    }

    method OnMaintenanceSuccess(now: real, interval: real)
      modifies this
      ensures View() == AfterSuccess(old(View()), now, interval)
    {
      maintenance := maintenance + interval;
      if maintenance < now {
        maintenance := now + interval;
      }
      retry := None;
      ResetRetryBackoff();
    }

    method OnMaintenancePostponed(now: real, interval: real)
      modifies this
      ensures View() == AfterPostponement(old(View()), now, interval)
    {
      var current := backoff;
      retry := Some(now + current);
      backoff := if current * 2.0 < MAX_BACKOFF then current * 2.0 else MAX_BACKOFF;
      if maintenance <= now {
        maintenance := now + interval;
      }
    }

    /**
     One batch of the driver: every event through the reducer, every action carried out; false after a shutdown
     signal.
     */
    method ProcessBatch(batch: Batch) returns (running: bool)
      modifies this
      ensures (View(), running) == BatchResult(old(View()), batch, |batch.inputs|)
    {
      hide Handled;
      var i := 0;
      running := true;
      while i < |batch.inputs| && running
        invariant 0 <= i <= |batch.inputs|
        invariant (View(), running) == BatchResult(old(View()), batch, i)
      {
        running := Process(batch.inputs[i], batch.now, batch.minOff, batch.interval);
        i := i + 1;
      }
      if !running {
        StoppedStays(old(View()), batch, i, |batch.inputs|);
      }
    }

    method Process(input: Input, now: real, minOff: real, interval: real) returns (running: bool)
      modifies this
      ensures (View(), running) == Handled(old(View()), input, now, minOff, interval)
    {
      var actions := Reduce(input.event, now, minOff, interval, input.cleaning);
      running := true;
      if actions == [RunMaintenance] {
        if input.shouldRun && !input.cleaning && !input.shutdown {
          OnMaintenanceSuccess(now, interval);
        } else if !input.shutdown {
          OnMaintenancePostponed(now, interval);
        }
      } else if actions == [ReconcileSysfs] {
        var _ := Reduce(ReconcileScreen(input.sysfs), now, minOff, interval, input.cleaning);
      } else if actions == [Shutdown] {
        running := false;
      }
    }
  }

  // ------------------------------------------------------------------ What an event does, field by field

  /** Which actions an event asks for: at most one, and each exactly in its own case. */
  lemma ActionsExactly(s: Schedule, event: LoopEvent, now: real, minOff: real, interval: real, cleaning: bool)
    ensures
      var actions := Reduced(s, event, now, minOff, interval, cleaning).1;
      && |actions| <= 1
      && (PreemptCleaning in actions <==> event == ReconcileScreen(On) && s.screen != On && cleaning)
      && (RunMaintenance in actions <==>
        event == TimerExpired && (s.maintenance <= now || (s.retry.Some? && s.retry.value <= now)))
      && (Shutdown in actions <==> event == ShutdownSignal)
      && (ReloadConfig in actions <==> event == ReloadSignal)
      && (HandleIpc in actions <==> event == IpcReadable)
      && (forall level :: ReclaimMemory(level) in actions <==> event == PsiPressure(level))
      && (ReconcileSysfs in actions <==>
        || event == UeventBufferOverflow
        || (event.Uevent? && event.subsystem in {"backlight", "leds", "graphics", "drm", "power_supply"}))
  {
  }

  /** The screen goes on, or goes off. */
  ghost predicate TurnsOn(event: LoopEvent) {
    event == ReconcileScreen(On)
  }

  ghost predicate TurnsOff(s: Schedule, event: LoopEvent) {
    event == ReconcileScreen(Off) && s.screen != Off
  }

  /** Which events change each field of the schedule, and to what. */
  lemma FieldsExactly(s: Schedule, event: LoopEvent, now: real, minOff: real, interval: real, cleaning: bool)
    ensures
      var s' := Reduced(s, event, now, minOff, interval, cleaning).0;
      && s'.screen == (if TurnsOn(event) then On else if TurnsOff(s, event) then Off else s.screen)
      && s'.screenOffSince
        == (if TurnsOn(event) then None else if TurnsOff(s, event) then Some(now) else s.screenOffSince)
      && s'.screenOff
        == (if TurnsOn(event) then None
            else if TurnsOff(s, event) then Some(now + minOff)
            else if event == TimerExpired && s.screenOff.Some? && s.screenOff.value <= now then None
            else s.screenOff)
      && s'.ueventOk == (event.ReconcileScreen? || (s.ueventOk && event != UeventBufferOverflow))
      && s'.maintenance == (if event == ReloadSignal then now + interval else s.maintenance)
      && s'.retry == (if event == ReloadSignal then None else s.retry)
      && s'.backoff == (if TurnsOn(event) || TurnsOff(s, event) || event == ReloadSignal then 5.0 else s.backoff)
  {
  }

  function Successes(s: Schedule, times: seq<real>, interval: real): Schedule {
    if times == [] then s
    else AfterSuccess(Successes(s, times[..|times| - 1], interval), times[|times| - 1], interval)
  }

  /** The `n`-th deadline after this one. */
  function OnGrid(deadline: real, interval: real, n: nat): real {
    if n == 0 then deadline else OnGrid(deadline, interval, n - 1) + interval
  }

  /** Maintenance that always ends before the next deadline keeps the deadlines on their grid, without drift. */
  lemma {:induction false} SuccessDoesNotDrift(s: Schedule, times: seq<real>, interval: real)
    requires forall i :: 0 <= i < |times| ==> times[i] <= OnGrid(s.maintenance, interval, i + 1)
    ensures
      var s' := Successes(s, times, interval);
      && s'.maintenance == OnGrid(s.maintenance, interval, |times|)
      && (times != [] ==> s'.retry == None && s'.backoff == 5.0)
      && s'.screen == s.screen && s'.screenOff == s.screenOff && s'.screenOffSince == s.screenOffSince
  {
    if times != [] {
      var n := |times| - 1;
      SuccessDoesNotDrift(s, times[..n], interval);
    }
  }

  /** Maintenance that ends too late starts a new grid. */
  lemma LateSuccessStartsOver(s: Schedule, now: real, interval: real)
    requires s.maintenance + interval < now
    ensures AfterSuccess(s, now, interval).maintenance == now + interval
  {
  }

  function Postponements(s: Schedule, times: seq<real>, interval: real): Schedule {
    if times == [] then s
    else AfterPostponement(Postponements(s, times[..|times| - 1], interval), times[|times| - 1], interval)
  }

  /** The waits between retries. */
  function BackoffStep(n: nat): real {
    if n == 0 then 5.0 else if n == 1 then 10.0 else if n == 2 then 20.0 else if n == 3 then 40.0 else 60.0
  }

  /** A postponement moves the maintenance deadline only if it has passed. */
  lemma PostponedDeadline(s: Schedule, now: real, interval: real)
    ensures
      var s' := AfterPostponement(s, now, interval);
      && (s.maintenance <= now ==> s'.maintenance == now + interval)
      && (s.maintenance > now ==> s'.maintenance == s.maintenance)
      && s'.screen == s.screen && s'.screenOff == s.screenOff && s'.screenOffSince == s.screenOffSince
  {
  }

  /** From a reset backoff the retries come after 5, 10, 20, 40 and then always 60 seconds. */
  lemma {:induction false} RetriesBackOff(s: Schedule, times: seq<real>, interval: real)
    requires s.backoff == 5.0
    ensures
      var n, s' := |times|, Postponements(s, times, interval);
      && s'.backoff == BackoffStep(n)
      && (n > 0 ==> s'.retry == Some(times[n - 1] + BackoffStep(n - 1)))
  {
    if times != [] {
      RetriesBackOff(s, times[..|times| - 1], interval);
    }
  }

  // ------------------------------------------------------------------ The driver

  /** An event and what the rest of the daemon answers while it is handled. */
  datatype Input = Input(event: LoopEvent, cleaning: bool, sysfs: ScreenState, shouldRun: bool, shutdown: bool)

  datatype Batch = Batch(now: real, minOff: real, interval: real, inputs: seq<Input>)

  function Handled(s: Schedule, input: Input, now: real, minOff: real, interval: real): (Schedule, bool) {
    var (s1, actions) := Reduced(s, input.event, now, minOff, interval, input.cleaning);
    if actions == [RunMaintenance] then
      (if input.shouldRun && !input.cleaning && !input.shutdown then AfterSuccess(s1, now, interval)
       else if !input.shutdown then AfterPostponement(s1, now, interval)
       else s1, true)
    else if actions == [ReconcileSysfs] then
      (Reduced(s1, ReconcileScreen(input.sysfs), now, minOff, interval, input.cleaning).0, true)
    else (s1, actions != [Shutdown])
  }

  /** The timer fired and a deadline for maintenance has passed. */
  ghost predicate IsDue(s: Schedule, input: Input, now: real) {
    input.event == TimerExpired && (s.maintenance <= now || (s.retry.Some? && s.retry.value <= now))
  }

  /**
   What becomes of due maintenance: it runs exactly if it should, no cleaning is under way and the daemon is not
   shutting down; it is postponed exactly if it does not run although the daemon goes on; and the loop ends exactly
   on a shutdown signal.
   */
  lemma HandledExactly(s: Schedule, input: Input, now: real, minOff: real, interval: real)
    ensures
      var (s', running) := Handled(s, input, now, minOff, interval);
      var runs := IsDue(s, input, now) && input.shouldRun && !input.cleaning && !input.shutdown;
      var waits := IsDue(s, input, now) && !runs && !input.shutdown;
      && (running <==> input.event != ShutdownSignal)
      && (runs ==>
        && s'.retry == None && s'.backoff == 5.0
        && s'.maintenance == (if s.maintenance + interval < now then now + interval else s.maintenance + interval))
      && (waits ==>
        && s'.retry == Some(now + s.backoff)
        && s'.backoff == (if s.backoff * 2.0 < 60.0 then s.backoff * 2.0 else 60.0)
        && s'.maintenance == (if s.maintenance <= now then now + interval else s.maintenance))
      && (!runs && !waits && input.event != ReloadSignal ==>
        s'.retry == s.retry && s'.maintenance == s.maintenance)
      && (input.event == UeventBufferOverflow ==>
        s'.screen == if input.sysfs == ScreenState.Unknown then s.screen else input.sysfs)
  {
    hide IsDisplayOrPower;
  }

  /** After the first `n` inputs of a batch; a shutdown signal leaves the loop at once. */
  function BatchResult(s: Schedule, batch: Batch, n: nat): (Schedule, bool)
    requires n <= |batch.inputs|
  {
    if n == 0 then (s, true)
    else
      var (s1, running) := BatchResult(s, batch, n - 1);
      if running then Handled(s1, batch.inputs[n - 1], batch.now, batch.minOff, batch.interval) else (s1, false)
  }

  lemma {:induction false} StoppedStays(s: Schedule, batch: Batch, i: nat, n: nat)
    requires i <= n <= |batch.inputs| && !BatchResult(s, batch, i).1
    ensures BatchResult(s, batch, n) == BatchResult(s, batch, i)
    decreases n - i
  {
    if i < n {
      StoppedStays(s, batch, i, n - 1);
    }
  }

  // ------------------------------------------------------------------ Invariants

  ghost function Deadlines(s: Schedule): set<real> {
    {s.maintenance}
    + (if s.screenOff.Some? then {s.screenOff.value} else {})
    + (if s.retry.Some? then {s.retry.value} else {})
  }

  /** Intervals are at most `longest` long. */
  ghost predicate Bounded(s: Schedule, now: real, longest: real) {
    && s.maintenance <= now + 2.0 * longest
    && (s.retry.Some? ==> s.maintenance <= now + longest && s.retry.value <= now + MAX_BACKOFF)
    && s.backoff in {5.0, 10.0, 20.0, 40.0, 60.0}
  }

  ghost predicate ScreenKnown(s: Schedule) {
    && (s.screenOffSince.Some? <==> s.screen == Off)
    && (s.screenOff.Some? ==> s.screen == Off)
  }

  /** No active deadline has passed. */
  ghost predicate Upcoming(s: Schedule, now: real) {
    forall d :: d in Deadlines(s) ==> now <= d
  }

  ghost predicate Configured(minOff: real, interval: real, longest: real) {
    0.0 <= minOff && 0.0 <= interval <= longest
  }

  ghost predicate Healthy(s: Schedule, now: real, longest: real) {
    Bounded(s, now, longest) && ScreenKnown(s)
  }

  lemma ReducedKeepsHealthy(
    s: Schedule, event: LoopEvent, now: real, minOff: real, interval: real, longest: real, cleaning: bool)
    requires Healthy(s, now, longest) && Configured(minOff, interval, longest)
    ensures
      var (s', actions) := Reduced(s, event, now, minOff, interval, cleaning);
      && Healthy(s', now, longest)
      && (actions == [RunMaintenance] ==> s'.maintenance <= now + longest)
  {
    hide IsDisplayOrPower;
  }

  lemma OutcomesKeepHealthy(s: Schedule, now: real, interval: real, longest: real)
    requires Healthy(s, now, longest) && 0.0 <= interval <= longest && s.maintenance <= now + longest
    ensures Healthy(AfterSuccess(s, now, interval), now, longest) && Healthy(AfterPostponement(s, now, interval),
      now, longest)
  {
  }

  lemma HandledKeepsHealthy(s: Schedule, input: Input, now: real, minOff: real, interval: real, longest: real)
    requires Healthy(s, now, longest) && Configured(minOff, interval, longest)
    ensures Healthy(Handled(s, input, now, minOff, interval).0, now, longest)
  {
    hide Healthy, Reduced, AfterSuccess, AfterPostponement;
    var (s1, actions) := Reduced(s, input.event, now, minOff, interval, input.cleaning);
    ReducedKeepsHealthy(s, input.event, now, minOff, interval, longest, input.cleaning);
    ReducedKeepsHealthy(s1, ReconcileScreen(input.sysfs), now, minOff, interval, longest, input.cleaning);
    if actions == [RunMaintenance] {
      OutcomesKeepHealthy(s1, now, interval, longest);
    }
  }

  /** Handling the timer leaves no deadline behind, unless the daemon is shutting down. */
  lemma TimerClearsDeadlines(s: Schedule, input: Input, now: real, minOff: real, interval: real, longest: real)
    requires Healthy(s, now, longest) && Configured(minOff, interval, longest)
    requires input.event.TimerExpired? && !input.shutdown
    ensures Upcoming(Handled(s, input, now, minOff, interval).0, now)
  {
  }

  lemma ReducedKeepsUpcoming(s: Schedule, event: LoopEvent, now: real, minOff: real, interval: real, cleaning: bool)
    requires 0.0 <= minOff && 0.0 <= interval && Upcoming(s, now)
    ensures Upcoming(Reduced(s, event, now, minOff, interval, cleaning).0, now)
  {
    hide IsDisplayOrPower;
    assert s.maintenance in Deadlines(s);
    assert s.screenOff.Some? ==> s.screenOff.value in Deadlines(s);
    assert s.retry.Some? ==> s.retry.value in Deadlines(s);
  }

  lemma OutcomesKeepUpcoming(s: Schedule, now: real, interval: real)
    requires 0.0 <= interval && 0.0 <= s.backoff && Upcoming(s, now)
    ensures Upcoming(AfterSuccess(s, now, interval), now) && Upcoming(AfterPostponement(s, now, interval), now)
  {
    assert s.maintenance in Deadlines(s);
    assert s.screenOff.Some? ==> s.screenOff.value in Deadlines(s);
  }

  lemma HandledKeepsUpcoming(s: Schedule, input: Input, now: real, minOff: real, interval: real, longest: real)
    requires Healthy(s, now, longest) && Configured(minOff, interval, longest) && Upcoming(s, now)
    ensures Upcoming(Handled(s, input, now, minOff, interval).0, now)
  {
    hide Reduced, AfterSuccess, AfterPostponement, Upcoming;
    var s1 := Reduced(s, input.event, now, minOff, interval, input.cleaning).0;
    ReducedKeepsHealthy(s, input.event, now, minOff, interval, longest, input.cleaning);
    ReducedKeepsUpcoming(s, input.event, now, minOff, interval, input.cleaning);
    ReducedKeepsUpcoming(s1, ReconcileScreen(input.sysfs), now, minOff, interval, input.cleaning);
    OutcomesKeepUpcoming(s1, now, interval);
  }

  ghost predicate HasTimer(batch: Batch, n: nat)
    requires n <= |batch.inputs|
  {
    exists i :: 0 <= i < n && batch.inputs[i].event.TimerExpired? && !batch.inputs[i].shutdown
  }

  lemma {:induction false} BatchKeepsHealthy(s: Schedule, batch: Batch, n: nat, longest: real)
    requires n <= |batch.inputs| && Configured(batch.minOff, batch.interval, longest)
    requires Healthy(s, batch.now, longest)
    ensures Healthy(BatchResult(s, batch, n).0, batch.now, longest)
    ensures BatchResult(s, batch, n).1 && HasTimer(batch, n) ==> Upcoming(BatchResult(s, batch, n).0, batch.now)
  {
    hide Handled, Healthy, Upcoming;
    if n > 0 {
      var input := batch.inputs[n - 1];
      var s1 := BatchResult(s, batch, n - 1).0;
      BatchKeepsHealthy(s, batch, n - 1, longest);
      HandledKeepsHealthy(s1, input, batch.now, batch.minOff, batch.interval, longest);
      if input.event.TimerExpired? && !input.shutdown {
        TimerClearsDeadlines(s1, input, batch.now, batch.minOff, batch.interval, longest);
      } else if HasTimer(batch, n) && BatchResult(s, batch, n).1 {
        assert HasTimer(batch, n - 1);
        HandledKeepsUpcoming(s1, input, batch.now, batch.minOff, batch.interval, longest);
      }
    }
  }

  // ------------------------------------------------------------------ Every run

  /** A run: batches at non-decreasing times. */
  ghost predicate Monotone(start: real, batches: seq<Batch>) {
    && (forall i :: 0 <= i < |batches| ==> start <= batches[i].now)
    && (forall i, j :: 0 <= i < j < |batches| ==> batches[i].now <= batches[j].now)
  }

  function Ran(s: Schedule, batches: seq<Batch>): (Schedule, bool) {
    if batches == [] then (s, true)
    else
      var last := |batches| - 1;
      var (s1, running) := Ran(s, batches[..last]);
      if running then BatchResult(s1, batches[last], |batches[last].inputs|) else (s1, false)
  }

  function Clock(start: real, batches: seq<Batch>): real {
    if batches == [] then start else batches[|batches| - 1].now
  }

  /**
   After any run of the driver the maintenance deadline is at most two intervals away, and at most one
   while a retry is pending within 60 seconds; the backoff is on its ladder; the screen-off instant is
   set exactly while the screen is off; and after a batch in which the timer fired no deadline has passed.
   */
  lemma {:induction false} DeadlinesStayBounded(interval: real, start: real, batches: seq<Batch>, longest: real)
    requires 0.0 <= interval <= longest && Monotone(start, batches)
    requires forall b :: b in batches ==> Configured(b.minOff, b.interval, longest)
    ensures
      var (s, running) := Ran(Started(interval, start), batches);
      && Bounded(s, Clock(start, batches), longest) && ScreenKnown(s)
      && (running && batches != [] && HasTimer(batches[|batches| - 1], |batches[|batches| - 1].inputs|) ==>
        Upcoming(s, Clock(start, batches)))
  {
    hide BatchResult, Upcoming, Configured;
    if batches != [] {
      var last := |batches| - 1;
      var front, batch := batches[..last], batches[last];
      assert Monotone(start, front);
      assert batch in batches;
      DeadlinesStayBounded(interval, start, front, longest);
      var s := Ran(Started(interval, start), front).0;
      assert Clock(start, front) <= batch.now;
      BatchKeepsHealthy(s, batch, |batch.inputs|, longest);
    }
  }
}
