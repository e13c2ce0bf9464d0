/** Idle assessment: thermal hysteresis, the maintenance policy and the manager that keeps both over time. */
module Idle {
  import opened Domain
  import opened EventLoop

  // ------------------------------------------------------------------ Thermal hysteresis

  datatype Thermal = Normal | Warm | Hot | Critical

  function NextThermal(current: Thermal, celsius: real): Thermal {
    if celsius >= 50.0 then Critical
    else if celsius >= 45.0 then Hot
    else if celsius > 40.0 then (if current == Hot then Hot else Warm)
    else Normal
  }

  function ThermalAfter(readings: seq<real>): Thermal {
    if readings == [] then Normal else NextThermal(ThermalAfter(readings[..|readings| - 1]), readings[|readings| - 1])
  }

  /** The `i`-th reading was hot and everything after it stayed strictly between 40 and 50 degrees. */
  ghost predicate HotSince(readings: seq<real>, i: nat)
    requires i < |readings|
  {
    && 45.0 <= readings[i] < 50.0
    && forall j :: i < j < |readings| ==> 40.0 < readings[j] < 50.0
  }

  /**
   What the state remembers of all readings: Hot exactly when a reading in [45, 50) was followed only
   by readings strictly between 40 and 50. A critical reading is forgotten at once below 45 degrees.
   */
  lemma {:induction false} ThermalRemembers(readings: seq<real>)
    ensures ThermalAfter(readings) == Hot <==> exists i :: 0 <= i < |readings| && HotSince(readings, i)
    ensures ThermalAfter(readings) == Critical <==> readings != [] && readings[|readings| - 1] >= 50.0
    ensures ThermalAfter(readings) == Normal <==> readings == [] || readings[|readings| - 1] <= 40.0
  {
    if readings != [] {
      var n := |readings| - 1;
      var front := readings[..n];
      ThermalRemembers(front);
      if i :| 0 <= i < |front| && HotSince(front, i) {
        assert 40.0 < readings[n] < 50.0 ==> HotSince(readings, i);
      }
      if i :| 0 <= i < |readings| && HotSince(readings, i) {
        assert i < n ==> HotSince(front, i);
      }
      if 45.0 <= readings[n] < 50.0 {
        assert HotSince(readings, n);
      }
    }
  }

  /** Cooling from Critical into (40, 45) gives Warm, where cooling from Hot stays Hot. */
  lemma CriticalForgetsHot()
    ensures ThermalAfter([46.0, 42.0]) == Hot && ThermalAfter([46.0, 51.0, 42.0]) == Warm
  {
    assert [46.0, 42.0][..1] == [46.0] && [46.0][..0] == [];
    assert [46.0, 51.0, 42.0][..2] == [46.0, 51.0] && [46.0, 51.0][..1] == [46.0];
    assert ThermalAfter([46.0]) == Hot;
    assert ThermalAfter([46.0, 51.0]) == Critical;
  }

  // ------------------------------------------------------------------ The policy

  datatype IdleState = Active | IdleCandidate | Resting | DeepIdle

  datatype Eligibility = Allowed | Blocked | OnHold

  datatype Blocker =
    | ScreenOn | GracePeriodRemaining | NotCharging | BatteryTooLow | BatteryBelowDeepThreshold | CpuPressureHigh
    | SensorUnavailable | IoPressureHigh | ThermalHot | ThermalCritical | RecentActivity

  datatype Positive = ScreenOff | GraceElapsed | Charging | HighBattery | CpuIdle | IoIdle | ThermalSafe | Stationary

  /** A sensor that gives no value is either silent for now or not there at all. */
  datatype Sensor = Reading(value: real) | Silent | Unsupported

  datatype Context = Context(
    screen: ScreenState, offFor: Option<real>, charging: bool, battery: nat,
    cpu: Sensor, io: Sensor, temperature: Sensor, stationary: bool, userActive: bool)

  datatype Assessment = Assessment(
    score: nat, state: IdleState, standard: Eligibility, heavy: Eligibility,
    blockers: seq<Blocker>, positives: seq<Positive>, rate: nat, untilNext: Option<real>)

  function Points(p: Positive): nat {
    match p
    case ScreenOff => 25
    case Charging => 15
    case _ => 10
  }

  function TotalPoints(positives: seq<Positive>): nat {
    if positives == [] then 0 else TotalPoints(positives[..|positives| - 1]) + Points(positives[|positives| - 1])
  }

  predicate AtLeast(s: Sensor, limit: real) {
    s.Reading? && s.value >= limit
  }

  /** Screen off for the whole grace period. */
  predicate Quiet(c: Context, grace: real) {
    c.screen == Off && (if c.offFor.Some? then c.offFor.value else 0.0) >= grace
  }

  /** When ordinary maintenance may run. */
  ghost predicate MayMaintain(c: Context, thermal: Thermal, grace: real) {
    && (thermal == Normal || thermal == Warm)
    && Quiet(c, grace) && !c.userActive && c.battery >= 20
    && !AtLeast(c.cpu, 10.0) && !AtLeast(c.io, 8.0)
  }

  /** When heavy maintenance may run. */
  ghost predicate MayWorkHard(c: Context, thermal: Thermal, grace: real) {
    && MayMaintain(c, thermal, grace) && thermal == Normal && c.charging && c.battery >= 70
    && !AtLeast(c.cpu, 5.0) && !AtLeast(c.io, 3.0) && !AtLeast(c.temperature, 40.0)
  }

  lemma {:induction false} PointsConcat(a: seq<Positive>, b: seq<Positive>)
    ensures TotalPoints(a + b) == TotalPoints(a) + TotalPoints(b)
  {
    if b == [] {
      assert a + b == a;
    } else {
      assert (a + b)[..|a + b| - 1] == a + b[..|b| - 1];
      PointsConcat(a, b[..|b| - 1]);
    }
  }

  /** The blockers and positives of one group of signals, with the points they are worth. */
  datatype Signals = Signals(score: nat, blockers: seq<Blocker>, positives: seq<Positive>)

  ghost predicate Consistent(s: Signals) {
    s.score == TotalPoints(s.positives)
  }

  lemma Worth(p: Positive)
    ensures TotalPoints([p]) == Points(p)
  {
    assert [p][..0] == [];
  }

  method Join(a: Signals, b: Signals) returns (s: Signals)
    requires Consistent(a) && Consistent(b)
    ensures Consistent(s) && s.score == a.score + b.score
    ensures forall p :: p in s.positives <==> p in a.positives || p in b.positives
    ensures forall x :: x in s.blockers <==> x in a.blockers || x in b.blockers
  {
    PointsConcat(a.positives, b.positives);
    s := Signals(a.score + b.score, a.blockers + b.blockers, a.positives + b.positives);
  }

  /** When each favourable sign is reported. */
  predicate Favours(p: Positive, c: Context, grace: real) {
    match p
    case ScreenOff => c.screen == Off
    case GraceElapsed => Quiet(c, grace)
    case Charging => c.charging
    case HighBattery => c.battery >= 70
    case CpuIdle => c.cpu.Reading? && c.cpu.value < 5.0
    case IoIdle => c.io.Reading? && c.io.value < 3.0
    case ThermalSafe => c.temperature.Reading? && c.temperature.value < 38.0
    case Stationary => c.stationary && !c.userActive
  }

  /** The points of one sign, if it is there. */
  ghost function Earned(p: Positive, c: Context, grace: real): nat {
    if Favours(p, c, grace) then Points(p) else 0
  }

  /** The points of all eight signs. */
  ghost function Score(c: Context, grace: real): nat {
    Earned(ScreenOff, c, grace) + Earned(GraceElapsed, c, grace) + Earned(Charging, c, grace) + Earned(HighBattery,
      c, grace)
    + Earned(CpuIdle, c, grace) + Earned(IoIdle, c, grace) + Earned(ThermalSafe, c, grace) + Earned(Stationary, c,
      grace)
  }

  /** When each obstacle is reported. */
  predicate Obstructs(x: Blocker, c: Context, thermal: Thermal, grace: real) {
    match x
    case ScreenOn => c.screen != Off
    case GracePeriodRemaining => c.screen == Off && !Quiet(c, grace)
    case NotCharging => !c.charging
    case BatteryTooLow => c.battery < 20
    case BatteryBelowDeepThreshold => 20 <= c.battery < 70
    case CpuPressureHigh => AtLeast(c.cpu, 10.0)
    case IoPressureHigh => AtLeast(c.io, 8.0)
    case SensorUnavailable => c.cpu == Silent || c.io == Silent
    case ThermalHot => thermal == Hot
    case ThermalCritical => thermal == Critical
    case RecentActivity => c.userActive
  }

  method ScreenSignals(c: Context, grace: real) returns (s: Signals)
    ensures Consistent(s) && s.score == Earned(ScreenOff, c, grace) + Earned(GraceElapsed, c, grace)
    ensures forall p :: p in s.positives <==> (p == ScreenOff || p == GraceElapsed) && Favours(p, c, grace)
    ensures forall x :: x in s.blockers <==>
      || (x == ScreenOn && c.screen != Off)
      || (x == GracePeriodRemaining && c.screen == Off && !Quiet(c, grace))
  {
    Worth(ScreenOff);
    if c.screen != Off {
      return Signals(0, [ScreenOn], []);
    }
    s := Signals(25, [], [ScreenOff]);
    if Quiet(c, grace) {
      Worth(GraceElapsed);
      s := Join(s, Signals(10, [], [GraceElapsed]));
    } else {
      s := s.(blockers := [GracePeriodRemaining]);
    }
  }

  method PowerSignals(c: Context, ghost grace: real) returns (s: Signals)
    ensures Consistent(s) && s.score == Earned(Charging, c, grace) + Earned(HighBattery, c, grace)
    ensures forall p :: p in s.positives <==> (p == Charging || p == HighBattery) && Favours(p, c, grace)
    ensures forall x :: x in s.blockers <==>
      || (x == NotCharging && !c.charging)
      || (x == BatteryTooLow && c.battery < 20)
      || (x == BatteryBelowDeepThreshold && 20 <= c.battery < 70)
  {
    Worth(Charging);
    Worth(HighBattery);
    s := if c.charging then Signals(15, [], [Charging]) else Signals(0, [NotCharging], []);
    if c.battery >= 70 {
      s := Join(s, Signals(10, [], [HighBattery]));
    } else {
      s := Join(s, Signals(0, if c.battery < 20 then [BatteryTooLow] else [BatteryBelowDeepThreshold], []));
    }
  }

  method BodySignals(c: Context, thermal: Thermal, ghost grace: real) returns (s: Signals)
    ensures Consistent(s) && s.score == Earned(ThermalSafe, c, grace) + Earned(Stationary, c, grace)
    ensures forall p :: p in s.positives <==> (p == ThermalSafe || p == Stationary) && Favours(p, c, grace)
    ensures forall x :: x in s.blockers <==>
      || (x == ThermalHot && thermal == Hot)
      || (x == ThermalCritical && thermal == Critical)
      || (x == RecentActivity && c.userActive)
  {
    Worth(ThermalSafe);
    Worth(Stationary);
    s := Signals(0, [], []);
    if c.temperature.Reading? && c.temperature.value < 38.0 {
      s := Signals(10, [], [ThermalSafe]);
    }
    if thermal == Hot {
      s := s.(blockers := [ThermalHot]);
    } else if thermal == Critical {
      s := s.(blockers := [ThermalCritical]);
    }
    if c.stationary && !c.userActive {
      s := Join(s, Signals(10, [], [Stationary]));
    }
    if c.userActive {
      s := s.(blockers := s.blockers + [RecentActivity]);
    }
  }

  lemma PressureFavours(c: Context, grace: real)
    ensures Favours(CpuIdle, c, grace) <==> c.cpu.Reading? && !AtLeast(c.cpu, 5.0)
    ensures Favours(IoIdle, c, grace) <==> c.io.Reading? && !AtLeast(c.io, 3.0)
    ensures Earned(CpuIdle, c, grace) == (if Favours(CpuIdle, c, grace) then 10 else 0)
    ensures Earned(IoIdle, c, grace) == (if Favours(IoIdle, c, grace) then 10 else 0)
  {
  }

  /** The signals in the order in which the policy looks at them. */
  method Gather(c: Context, thermal: Thermal, grace: real) returns (s: Signals, cpuLow: bool, ioLow: bool)
    ensures Consistent(s) && s.score == Score(c, grace)
    ensures forall x :: x in s.blockers <==> Obstructs(x, c, thermal, grace)
    ensures forall p :: p in s.positives <==> Favours(p, c, grace)
    ensures cpuLow <==> !AtLeast(c.cpu, 5.0)
    ensures ioLow <==> !AtLeast(c.io, 3.0)
  {
    hide Consistent, Quiet, AtLeast, Favours, Earned;
    PressureFavours(c, grace);
    s := ScreenSignals(c, grace);
    var power := PowerSignals(c, grace);
    s := Join(s, power);
    var cpu, io;
    cpuLow, cpu := PressureSignals(c.cpu, 5.0, 10.0, CpuPressureHigh, CpuIdle);
    s := Join(s, cpu);
    ioLow, io := PressureSignals(c.io, 3.0, 8.0, IoPressureHigh, IoIdle);
    s := Join(s, io);
    var body := BodySignals(c, thermal, grace);
    s := Join(s, body);
  }

  method PressureSignals(sensor: Sensor, low: real, high: real, tooHigh: Blocker, idle: Positive)
    returns (isLow: bool, s: Signals)
    requires low <= high && Points(idle) == 10
    ensures Consistent(s) && s.score == if sensor.Reading? && isLow then 10 else 0
    ensures s.positives == if sensor.Reading? && isLow then [idle] else []
    ensures isLow <==> !AtLeast(sensor, low)
    ensures forall x :: x in s.blockers <==>
      (x == tooHigh && AtLeast(sensor, high)) || (x == SensorUnavailable && sensor == Silent)
  {
    Worth(idle);
    if sensor.Reading? {
      if sensor.value < low {
        return true, Signals(10, [], [idle]);
      }
      return false, Signals(0, if sensor.value >= high then [tooHigh] else [], []);
    }
    return true, Signals(0, if sensor == Silent then [SensorUnavailable] else [], []);
  }

  /**
   What an assessment says. Ordinary and heavy maintenance are allowed exactly under their conditions;
   Hot puts both on hold, and in Hot and Critical, and only then, the work rate is zero; every blocker
   and every favourable sign is reported exactly when it applies, and the score is what the signs earn.
   */
  ghost predicate Assesses(a: Assessment, c: Context, thermal: Thermal, grace: real) {
    && (a.standard == Allowed <==> MayMaintain(c, thermal, grace))
    && (a.heavy == Allowed <==> MayWorkHard(c, thermal, grace))
    && (a.standard == OnHold <==> thermal == Hot) && (a.heavy == OnHold <==> thermal == Hot)
    && a.rate == RateFor(c, thermal)
    && (forall x :: x in a.blockers <==> Obstructs(x, c, thermal, grace))
    && (forall p :: p in a.positives <==> Favours(p, c, grace))
    && a.score == TotalPoints(a.positives) == Score(c, grace)
    && StateFits(a, c, thermal, grace)
  }

  /** The work rate by thermal state, and by pressure when it is normal. */
  function RateFor(c: Context, thermal: Thermal): nat {
    match thermal
    case Critical => 0
    case Hot => 0
    case Warm => 300
    case Normal => if AtLeast(c.io, 8.0) then 50 else if AtLeast(c.cpu, 10.0) then 150 else 500
  }

  ghost predicate StateFits(a: Assessment, c: Context, thermal: Thermal, grace: real) {
    && StateMeans(a.state, c, thermal, grace)
    && Until(a.untilNext, a.state, c, grace)
  }

  /** The rest of the grace period is reported exactly while it is what the device waits for. */
  ghost predicate Until(left: Option<real>, state: IdleState, c: Context, grace: real) {
    && (left.Some? <==> state == IdleCandidate)
    && (left.Some? && c.offFor.Some? ==> left.value == grace - c.offFor.value > 0.0)
  }

  lemma ScoreIsBounded(c: Context, grace: real)
    ensures Score(c, grace) <= 100
  {
  }

  lemma EarnedInNumbers(c: Context, grace: real)
    ensures Earned(ScreenOff, c, grace) == (if c.screen == Off then 25 else 0)
    ensures Earned(Charging, c, grace) == (if c.charging then 15 else 0)
    ensures Earned(GraceElapsed, c, grace) == (if Quiet(c, grace) then 10 else 0)
    ensures Earned(HighBattery, c, grace) == (if c.battery >= 70 then 10 else 0)
    ensures Earned(CpuIdle, c, grace) == (if c.cpu.Reading? && c.cpu.value < 5.0 then 10 else 0)
    ensures Earned(IoIdle, c, grace) == (if c.io.Reading? && c.io.value < 3.0 then 10 else 0)
    ensures Earned(ThermalSafe, c, grace) == (if c.temperature.Reading? && c.temperature.value < 38.0 then 10 else 0)
    ensures Earned(Stationary, c, grace) == (if c.stationary && !c.userActive then 10 else 0)
  {
  }

  /**
   What a state says: something keeps the device active; only the grace period is missing; even heavy
   maintenance may run; or none of these.
   */
  ghost predicate StateMeans(state: IdleState, c: Context, thermal: Thermal, grace: real) {
    var active := Obstructs(ScreenOn, c, thermal, grace) || Obstructs(RecentActivity, c, thermal, grace)
      || Obstructs(ThermalCritical, c, thermal, grace);
    && (state == Active <==> active)
    && (state == IdleCandidate <==> !active && Obstructs(GracePeriodRemaining, c, thermal, grace))
    && (state == DeepIdle <==> MayWorkHard(c, thermal, grace))
  }

  method Transition(c: Context, thermal: Thermal, grace: real, cpuLow: bool, ioLow: bool) returns (state: IdleState)
    requires cpuLow == !AtLeast(c.cpu, 5.0) && ioLow == !AtLeast(c.io, 3.0)
    ensures StateMeans(state, c, thermal, grace)
  {
    var thermalSafe := c.temperature.Reading? ==> c.temperature.value < 40.0;
    if c.screen != Off || c.userActive || thermal == Critical {
      state := Active;
    } else if !Quiet(c, grace) {
      state := IdleCandidate;
    } else if c.charging && c.battery >= 70 && thermal == Normal && thermalSafe && cpuLow && ioLow {
      state := DeepIdle;
    } else {
      state := Resting;
    }
  }

  /** The hard gates. */
  method Gates(c: Context, thermal: Thermal, grace: real, state: IdleState, pressed: bool)
    returns (standard: Eligibility, heavy: Eligibility)
    requires StateMeans(state, c, thermal, grace)
    requires pressed == (AtLeast(c.cpu, 10.0) || AtLeast(c.io, 8.0))
    ensures standard == Allowed <==> MayMaintain(c, thermal, grace)
    ensures heavy == Allowed <==> MayWorkHard(c, thermal, grace)
    ensures (standard == OnHold <==> thermal == Hot) && (heavy == OnHold <==> thermal == Hot)
  {
    if thermal == Hot {
      return OnHold, OnHold;
    }
    if thermal == Critical || c.screen != Off || !Quiet(c, grace) || c.userActive || c.battery < 20 || pressed {
      standard := Blocked;
    } else {
      standard := if state == Resting || state == DeepIdle then Allowed else Blocked;
    }
    if state == DeepIdle && standard == Allowed && c.charging && c.battery >= 70 && thermal == Normal {
      heavy := Allowed;
    } else {
      heavy := Blocked;
    }
  }

  method UntilNext(c: Context, ghost thermal: Thermal, grace: real, state: IdleState) returns (left: Option<real>)
    requires StateMeans(state, c, thermal, grace)
    ensures Until(left, state, c, grace)
  {
    var waited := if c.offFor.Some? then c.offFor.value else 0.0;
    left := if state == IdleCandidate then Some(if grace > waited then grace - waited else 0.0) else None;
  }

  method Evaluate(c: Context, thermal: Thermal, grace: real) returns (a: Assessment)
    ensures Assesses(a, c, thermal, grace)
  {
    hide TotalPoints, Score, Favours, MayMaintain, MayWorkHard, AtLeast, Until, StateMeans;
    ScoreIsBounded(c, grace);
    var signals, cpuLow, ioLow := Gather(c, thermal, grace);
    var blockers := signals.blockers;
    var state := Transition(c, thermal, grace, cpuLow, ioLow);
    var standard, heavy := Gates(c, thermal, grace, state, CpuPressureHigh in blockers || IoPressureHigh in blockers);
    var rate := match thermal
      case Critical => 0
      case Hot => 0
      case Warm => 300
      case Normal => if IoPressureHigh in blockers then 50 else if CpuPressureHigh in blockers then 150 else 500;
    var left := UntilNext(c, thermal, grace, state);
    a := Assessment(
      if signals.score < 100 then signals.score else 100, state, standard, heavy, blockers, signals.positives, rate,
      left);
  }

  /**
   The state and both eligibilities read off the report alone: deep idle is exactly heavy maintenance
   allowed, and ordinary maintenance is allowed exactly in the two resting states unless the report names
   heat, an empty battery or pressure.
   */
  lemma ReportExplainsState(a: Assessment, c: Context, thermal: Thermal, grace: real)
    requires Assesses(a, c, thermal, grace)
    ensures a.state == Active <==>
      ScreenOn in a.blockers || RecentActivity in a.blockers || ThermalCritical in a.blockers
    ensures a.state == IdleCandidate <==>
      && GracePeriodRemaining in a.blockers && RecentActivity !in a.blockers && ThermalCritical !in a.blockers
    ensures a.rate == 0 <==> ThermalHot in a.blockers || ThermalCritical in a.blockers
    ensures a.rate == 300 <==> thermal == Warm
    ensures a.rate == 50 <==> thermal == Normal && IoPressureHigh in a.blockers
    ensures a.rate == 150 <==> thermal == Normal && IoPressureHigh !in a.blockers && CpuPressureHigh in a.blockers
    ensures a.rate in {0, 50, 150, 300, 500}
    ensures a.state == DeepIdle <==> a.heavy == Allowed
    ensures a.state == DeepIdle ==> a.standard == Allowed && a.rate == 500
    ensures a.state == DeepIdle ==> forall x :: x in a.blockers ==> x == SensorUnavailable
    ensures a.standard == Allowed <==>
      && (a.state == Resting || a.state == DeepIdle) && ThermalHot !in a.blockers && BatteryTooLow !in a.blockers
      && CpuPressureHigh !in a.blockers && IoPressureHigh !in a.blockers
  {
    hide Score, TotalPoints, Favours;
  }

  // ------------------------------------------------------------------ The manager over time

  /** What the manager was told, in order. */
  datatype IdleEvent =
    | Updated(now: real, screen: ScreenState, temperature: Sensor)
    | ScreenChanged(now: real, screen: ScreenState)
    | Measured(celsius: real)
    | Touched

  function Screens(e: IdleEvent): ScreenState {
    match e
    case Updated(_, screen, _) => screen
    case ScreenChanged(_, screen) => screen
    case _ => ScreenState.Unknown
  }

  function Readings(history: seq<IdleEvent>): seq<real> {
    if history == [] then []
    else
      var front := Readings(history[..|history| - 1]);
      match history[|history| - 1]
      case Updated(_, _, Reading(celsius)) => front + [celsius]
      case Measured(celsius) => front + [celsius]
      case _ => front
  }

  /** The screen was reported off at `since` (event `k`) and never reported on afterwards. */
  ghost predicate OffEverSince(history: seq<IdleEvent>, k: nat, since: real) {
    && k < |history|
    && (history[k].Updated? || history[k].ScreenChanged?) && history[k].now == since
    && Screens(history[k]) == Off
    && forall j :: k < j < |history| ==> Screens(history[j]) != On
  }

  /** The start of the grace period: the first off report since the last on report. */
  function OffSince(history: seq<IdleEvent>): Option<real> {
    if history == [] then None
    else
      var before, e := OffSince(history[..|history| - 1]), history[|history| - 1];
      match Screens(e)
      case Off => if before.None? then Some(TimeOf(e)) else before
      case On => None
      case Unknown => before
  }

  function TimeOf(e: IdleEvent): real {
    match e
    case Updated(now, _, _) => now
    case ScreenChanged(now, _) => now
    case _ => 0.0
  }

  ghost predicate OnBetween(history: seq<IdleEvent>, from: nat, to: nat)
    requires to <= |history|
  {
    exists m :: from < m < to && Screens(history[m]) == On
  }

  /**
   Event `k` reported the screen off, nothing reported it on since, and every earlier off report was followed
   by an on report.
   */
  ghost predicate GraceStarts(history: seq<IdleEvent>, k: nat, since: real) {
    && OffEverSince(history, k, since)
    && forall j :: 0 <= j < k && Screens(history[j]) == Off ==> OnBetween(history, j, k)
  }

  /** No off report is without a later on report. */
  ghost predicate NeverOffSince(history: seq<IdleEvent>) {
    forall j :: 0 <= j < |history| && Screens(history[j]) == Off ==> OnBetween(history, j, |history|)
  }

  lemma OnBetweenExtends(history: seq<IdleEvent>, event: IdleEvent, from: nat, to: nat)
    requires to <= |history| && OnBetween(history, from, to)
    ensures OnBetween(history + [event], from, to)
  {
    var m :| from < m < to && Screens(history[m]) == On;
    assert Screens((history + [event])[m]) == On;
  }

  lemma GraceContinues(history: seq<IdleEvent>, event: IdleEvent, k: nat, since: real)
    requires GraceStarts(history, k, since) && Screens(event) != On
    ensures GraceStarts(history + [event], k, since)
  {
    hide OnBetween;
    forall j | 0 <= j < k && Screens((history + [event])[j]) == Off ensures OnBetween(history + [event], j, k) {
      OnBetweenExtends(history, event, j, k);
    }
  }

  lemma GraceBegins(history: seq<IdleEvent>, event: IdleEvent)
    requires NeverOffSince(history) && Screens(event) == Off
    ensures GraceStarts(history + [event], |history|, TimeOf(event))
  {
    hide OnBetween;
    forall j | 0 <= j < |history| && Screens(history[j]) == Off ensures OnBetween(history + [event], j, |history|) {
      OnBetweenExtends(history, event, j, |history|);
    }
  }

  lemma NeverOffContinues(history: seq<IdleEvent>, event: IdleEvent)
    requires Screens(event) == On || (NeverOffSince(history) && Screens(event) != Off)
    ensures NeverOffSince(history + [event])
  {
    var all := history + [event];
    forall j | 0 <= j < |all| && Screens(all[j]) == Off ensures OnBetween(all, j, |all|) {
      if Screens(event) == On {
        assert Screens(all[|history|]) == On;
      } else {
        assert OnBetween(history, j, |history|);
        OnBetweenExtends(history, event, j, |history|);
      }
    }
  }

  /**
   The remembered instant is that of the off report that started the current grace period; without one there is
   none.
   */
  lemma {:induction false} OffSinceMeaning(history: seq<IdleEvent>)
    ensures match OffSince(history)
      case Some(since) => exists k: nat :: GraceStarts(history, k, since)
      case None => NeverOffSince(history)
  {
    hide GraceStarts, NeverOffSince;
    if history == [] {
      NothingReported();
    } else {
      var front, e := history[..|history| - 1], history[|history| - 1];
      assert history == front + [e];
      OffSinceMeaning(front);
      OffSinceEnd(front, e);
      if Screens(e) == On || (Screens(e) != Off && OffSince(front).None?) {
        NeverOffContinues(front, e);
      } else if OffSince(front).None? {
        GraceBegins(front, e);
        assert GraceStarts(history, |front|, TimeOf(e));
      } else {
        var k: nat :| GraceStarts(front, k, OffSince(front).value);
        GraceContinues(front, e, k, OffSince(front).value);
      }
    }
  }

  lemma NothingReported()
    ensures NeverOffSince([])
  {
  }

  /** The context with the time that the screen has been off filled in. */
  function Seen(c: Context, now: real, since: Option<real>): Context {
    if since.None? then c else c.(offFor := Some(if now > since.value then now - since.value else 0.0))
  }

  lemma OffSinceEnd(before: seq<IdleEvent>, event: IdleEvent)
    ensures OffSince(before + [event]) == match Screens(event) {
      case Off => if OffSince(before).None? then Some(TimeOf(event)) else OffSince(before)
      case On => None
      case Unknown => OffSince(before)
    }
  {
    assert (before + [event])[..|before|] == before;
  }

  lemma ReadingsEnd(before: seq<IdleEvent>, event: IdleEvent)
    ensures Readings(before + [event]) == Readings(before) +
      match event {
        case Updated(_, _, Reading(celsius)) => [celsius]
        case Measured(celsius) => [celsius]
        case _ => []
      }
  {
    assert (before + [event])[..|before|] == before;
  }

  lemma ThermalEnd(readings: seq<real>, celsius: real)
    ensures ThermalAfter(readings + [celsius]) == NextThermal(ThermalAfter(readings), celsius)
  {
    assert (readings + [celsius])[..|readings|] == readings;
  }

  lemma GraceIs(a: Assessment, c: Context, thermal: Thermal, grace: real)
    requires Assesses(a, c, thermal, grace)
    ensures GraceElapsed in a.positives <==> Quiet(c, grace)
  {
  }

  /** A screen of which nothing is known to be off since has been off for no time. */
  lemma QuietExactly(c: Context, now: real, since: Option<real>, grace: real)
    requires grace > 0.0
    ensures since.Some? ==> (Quiet(Seen(c, now, since), grace) <==> c.screen == Off && now - since.value >= grace)
    ensures since.None? ==>
      (Quiet(Seen(c, now, since), grace) <==> c.screen == Off && c.offFor.Some? && c.offFor.value >= grace)
  {
  }

  /** Ordinary maintenance is allowed only a grace period after the off report that started it. */
  lemma AllowedMeansQuiet(history: seq<IdleEvent>, c: Context, now: real, thermal: Thermal, grace: real)
    requires MayMaintain(Seen(c, now, OffSince(history)), thermal, grace) && grace > 0.0
    requires OffSince(history).Some?
    ensures exists k: nat, since :: GraceStarts(history, k, since) && now - since >= grace
  {
    hide GraceStarts, OffSince;
    OffSinceMeaning(history);
    var k: nat :| GraceStarts(history, k, OffSince(history).value);
  }

  class IdleManager {
    var state: IdleState
    var candidateSince: Option<real>
    var thermal: Thermal
    const grace: real
    ghost var history: seq<IdleEvent>

    /** The fields are what the whole history makes of them. */
    ghost predicate Valid()
      reads this
    {
      thermal == ThermalAfter(Readings(history)) && candidateSince == OffSince(history)
    }

    constructor (grace: real)
      ensures Valid() && this.grace == grace && history == [] && state == Active
    {
      state, candidateSince, thermal := Active, None, Normal;
      this.grace := grace;
      history := [];
    }

    /** The part of an update or a screen event that keeps the grace period's start. */
    method TrackScreen(now: real, screen: ScreenState)
      modifies this`candidateSince
      ensures candidateSince == match screen {
        case Off => if old(candidateSince).None? then Some(now) else old(candidateSince)
        case On => None
        case Unknown => old(candidateSince)
      }
    {
      match screen {
        case Off =>
          if candidateSince.None? {
            candidateSince := Some(now);
          }
        case On => candidateSince := None;
        case Unknown =>
      }
    }

    /**
     The periodic update: the assessment of the context with the time since the start of the grace
     period, under the thermal state of all readings so far.
     */
    method Update(now: real, c: Context) returns (a: Assessment)
      requires Valid()
      modifies this
      ensures Valid() && history == old(history) + [Updated(now, c.screen, c.temperature)] && state == a.state
      ensures Assesses(a, Seen(c, now, OffSince(history)), ThermalAfter(Readings(history)), grace)
      ensures a.standard == Allowed && grace > 0.0 ==>
        exists k: nat, since :: GraceStarts(history, k, since) && now - since >= grace
      ensures grace > 0.0 && OffSince(history).Some? ==>
        (GraceElapsed in a.positives <==> c.screen == Off && now - OffSince(history).value >= grace)
    {
      hide ThermalAfter, Readings, OffSince, GraceStarts, Assesses;
      ghost var before := history;
      ghost var event := Updated(now, c.screen, c.temperature);
      TrackScreen(now, c.screen);
      history := history + [event];
      OffSinceEnd(before, event);
      ReadingsEnd(before, event);
      if c.temperature.Reading? {
        ThermalEnd(Readings(before), c.temperature.value);
        thermal := NextThermal(thermal, c.temperature.value);
      } else {
        assert Readings(before) + [] == Readings(before);
      }
      a := Evaluate(Seen(c, now, candidateSince), thermal, grace);
      state := a.state;
      if grace > 0.0 {
        QuietExactly(c, now, candidateSince, grace);
        GraceIs(a, Seen(c, now, candidateSince), thermal, grace);
      }
      if a.standard == Allowed && grace > 0.0 {
        AllowedIs(a, Seen(c, now, candidateSince), thermal, grace);
        AllowedMeansQuiet(history, c, now, thermal, grace);
      }
    }

    method OnScreenStateChange(now: real, screen: ScreenState)
      requires Valid()
      modifies this
      ensures Valid() && history == old(history) + [ScreenChanged(now, screen)]
      ensures state == if screen == On then Active else old(state)
    {
      hide ThermalAfter, Readings, OffSince;
      ghost var before := history;
      TrackScreen(now, screen);
      if screen == On {
        state := Active;
      }
      history := history + [ScreenChanged(now, screen)];
      OffSinceEnd(before, ScreenChanged(now, screen));
      ReadingsEnd(before, ScreenChanged(now, screen));
      assert Readings(before) + [] == Readings(before);
    }

    method OnThermalUpdate(celsius: real) returns (next: Thermal)
      requires Valid()
      modifies this
      ensures Valid() && history == old(history) + [Measured(celsius)] && next == thermal && state == old(state)
    {
      hide ThermalAfter, Readings, OffSince;
      ghost var before := history;
      next := NextThermal(thermal, celsius);
      thermal := next;
      history := history + [Measured(celsius)];
      OffSinceEnd(before, Measured(celsius));
      ReadingsEnd(before, Measured(celsius));
      ThermalEnd(Readings(before), celsius);
    }

    method OnUserActivity()
      requires Valid()
      modifies this
      ensures Valid() && history == old(history) + [Touched] && state == Active
    {
      hide ThermalAfter, Readings, OffSince;
      ghost var before := history;
      state := Active;
      history := history + [Touched];
      OffSinceEnd(before, Touched);
      ReadingsEnd(before, Touched);
      assert Readings(before) + [] == Readings(before);
    }

    /** The read-only assessment: nothing is tracked, the current thermal state decides. */
    method GetAssessment(c: Context) returns (a: Assessment)
      ensures Assesses(a, c, thermal, grace)
    {
      a := Evaluate(c, thermal, grace);
    }
  }

  /** Allowed maintenance means a screen that is off. */
  lemma AllowedIs(a: Assessment, c: Context, thermal: Thermal, grace: real)
    requires Assesses(a, c, thermal, grace) && a.standard == Allowed
    ensures MayMaintain(c, thermal, grace) && c.screen == Off
  {
  }
}
