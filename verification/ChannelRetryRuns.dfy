/**
  Runs of accepted writes, readings and ticks that show what the retry limit
  does not cover: limits above the buffer capacity, which only the field write
  refuses, and retries of 2^32 ms ago (lib/voltage_control/vc_channel.c:351-431, 522-547).
 */
module ChannelRetryRuns {
  import opened CInt
  import opened VcTypes
  import opened ChannelSpec
  import opened ChannelSafety
  import opened ChannelRetry

  const ALL_CAPS: Caps := Caps(true, true, true, true)

  // The current reading is its raw value.
  const UNIT_GAIN: Calibration := Calibration(1, 0, 0, 1, 0, 0, 1, 0, 0)

  // The configuration `base` with automatic retries without delay. A channel
  // that measures its current trips above zero and leaves the output as it is.
  function Eagerly(base: Config, measures: bool, limit: uint16, window: uint16): Config {
    var cfg := base.(recoveryPolicy := RECOVERY_AUTO_RETRY, retryDelay := 0, retryMax := limit,
                     retryWindow := window, safeBandPct := 0);
    if measures
    then cfg.(protectionMode := PROTECTION_APPLY_OUTPUT_ACTION, protectionAction := ACTION_NONE, currentLimit := 0)
    else cfg
  }

  function Eager(limit: uint16, window: uint16): Config {
    Eagerly(DefaultConfig(), true, limit, window)
  }

  // A channel may keep its own configuration, and it is in range.
  predicate Consistent(caps: Caps, cfg: Config) {
    CapabilityAllows(caps, cfg, cfg) && ConfigInRange(cfg)
  }

  // SetConfig accepts it on any channel, with any limit.
  lemma EagerlyAccepted(c: State, limit: uint16, window: uint16)
    requires Consistent(c.caps, c.cfg)
    ensures var cfg := Eagerly(c.cfg, c.caps.current, limit, window);
            SetConfig(c, cfg) == (ApplyHw(c.(cfg := cfg)), Ok)
  {
    hide ApplyHw;
  }

  lemma EagerAccepted(c: State, limit: uint16, window: uint16)
    requires c.caps == ALL_CAPS && c.cfg == DefaultConfig()
    ensures SetConfig(c, Eager(limit, window)) == (ApplyHw(c.(cfg := Eager(limit, window))), Ok)
  {
    hide ApplyHw, SetConfig;
    EagerlyAccepted(c, limit, window);
  }

  /**
    An over-current reading, a safe one, and the recovery tick; for a channel
    that does not measure its current, a reported current fault and the tick.
   */
  function OneRetry(measures: bool): (es: seq<Event>)
    ensures forall e | e in es :: !e.Field? && !e.Configure?
  {
    (if measures then [ReadCurrent(1), ReadCurrent(0)] else [External({Current})]) +
    [RecoveryTick(MODE_AUTOMATIC, 0)]
  }

  predicate Quick(cfg: Config, limit: uint16, window: uint16) {
    && cfg.recoveryPolicy == RECOVERY_AUTO_RETRY && cfg.retryDelay == 0
    && cfg.retryMax == limit && cfg.retryWindow == window
    && cfg.safeBandPct == 0 && cfg.currentLimit >= 0
  }

  predicate TripsAboveZero(c: State) {
    && c.cfg.protectionMode == PROTECTION_APPLY_OUTPUT_ACTION && c.cfg.protectionAction == ACTION_NONE
    && c.cfg.currentLimit == 0 && c.cal == UNIT_GAIN
  }

  lemma QuickIsSafe(cfg: Config, limit: uint16, window: uint16)
    requires Quick(cfg, limit, window)
    ensures SafeLimit(cfg) >= 0
  {
    DivNonNegative(cfg.currentLimit * 100, 100);
  }

  // Nothing is latched or moving, and no time has passed.
  predicate Cycling(c: State, limit: uint16, window: uint16, n: nat) {
    && Quick(c.cfg, limit, window) && (c.caps.current ==> TripsAboveZero(c))
    && c.fault.active == {} && !c.drive.ramping && c.meas.measuredI == 0
    && c.now == 0 && c.uptime == 0
    && c.log == seq(n, _ => 0)
    && RetryInv(c)
  }

  lemma UnitGain(raw: int32)
    requires -0x8000 <= raw <= 0x7FFF
    ensures ClampInt16(Gain(raw, 1, 0) + 0) == raw
  {
  }

  // Latched by a current fault, with a safe reading.
  predicate Faulted(c: State, limit: uint16, window: uint16, n: nat) {
    && Quick(c.cfg, limit, window) && (c.caps.current ==> TripsAboveZero(c))
    && c.fault.active == {Current} && !c.drive.ramping && c.drive.smf != RetryCooldown
    && c.meas.measuredI == 0
    && c.now == 0 && c.uptime == 0 && c.log == seq(n, _ => 0)
    && RetryInv(c) && CountActiveRetries(c) < limit
  }

  // The over-current reading trips, the safe one is only stored.
  lemma TripAndCalm(c: State, limit: uint16, window: uint16, n: nat)
    requires Cycling(c, limit, window, n) && c.caps.current && CountActiveRetries(c) < limit
    ensures Faulted(ConsumeCurrent(ConsumeCurrent(c, 1), 0), limit, window, n)
  {
    hide HwCode, HwEnable, Gain, RetryInv, CountActiveRetries;
    UnitGain(1);
    UnitGain(0);
    SameRetries(c, ConsumeCurrent(ConsumeCurrent(c, 1), 0));
  }

  lemma ReportLatches(c: State, limit: uint16, window: uint16, n: nat)
    requires Cycling(c, limit, window, n) && CountActiveRetries(c) < limit
    ensures Faulted(ConsumeFault(c, {Current}), limit, window, n)
  {
    hide HwCode, HwEnable, Gain, RetryInv, CountActiveRetries;
    SameRetries(c, ConsumeFault(c, {Current}));
  }

  lemma RetriesAtOnce(c: State, limit: uint16, window: uint16, n: nat)
    requires Faulted(c, limit, window, n)
    ensures Cycling(TickRecovery(c, MODE_AUTOMATIC, 0), limit, window, n + 1)
  {
    hide HwCode, HwEnable, RetryInv, CountActiveRetries, SafeLimit;
    var c1 := c.(drive := c.drive.(cooldown := 0, smf := RetryCooldown));
    QuickIsSafe(c.cfg, limit, window);
    SameRetries(c, c1);
    assert TickRecovery(c, MODE_AUTOMATIC, 0) == RetryOrExhaust(c1);
    OutcomeKeepsRetries(c1);
    assert seq(n, _ => 0) + [0] == seq(n + 1, _ => 0);
  }

  lemma OneMoreRetry(c: State, limit: uint16, window: uint16, n: nat)
    requires Cycling(c, limit, window, n) && CountActiveRetries(c) < limit
    ensures Cycling(Exec(c, OneRetry(c.caps.current)), limit, window, n + 1)
  {
    hide Cycling, Faulted, ConsumeCurrent, ConsumeFault, Exec;
    if c.caps.current {
      ExecThree(c, ReadCurrent(1), ReadCurrent(0), RecoveryTick(MODE_AUTOMATIC, 0));
      assert OneRetry(true) == [ReadCurrent(1), ReadCurrent(0), RecoveryTick(MODE_AUTOMATIC, 0)];
      TripAndCalm(c, limit, window, n);
      RetriesAtOnce(ConsumeCurrent(ConsumeCurrent(c, 1), 0), limit, window, n);
    } else {
      ExecTwo(c, External({Current}), RecoveryTick(MODE_AUTOMATIC, 0));
      assert OneRetry(false) == [External({Current}), RecoveryTick(MODE_AUTOMATIC, 0)];
      ReportLatches(c, limit, window, n);
      RetriesAtOnce(ConsumeFault(c, {Current}), limit, window, n);
    }
  }

  lemma ExecTwo(c: State, a: Event, b: Event)
    ensures Exec(c, [a, b]) == Step(Step(c, a), b)
  {
    hide Step;
    ExecAppend(c, [], a);
    ExecAppend(c, [a], b);
    assert [] + [a] == [a] && [a] + [b] == [a, b];
  }

  lemma ExecThree(c: State, a: Event, b: Event, d: Event)
    ensures Exec(c, [a, b, d]) == Step(Step(Step(c, a), b), d)
  {
    hide Step;
    ExecAppend(c, [], a);
    ExecAppend(c, [a], b);
    ExecAppend(c, [a, b], d);
    assert [] + [a] == [a] && [a] + [b] == [a, b] && [a, b] + [d] == [a, b, d];
  }

  function Cycles(measures: bool, n: nat): (es: seq<Event>)
    ensures forall e | e in es :: !e.Field? && !e.Configure?
  {
    if n == 0 then [] else Cycles(measures, n - 1) + OneRetry(measures)
  }

  // Power-on and one accepted configuration.
  function Configured(limit: uint16, window: uint16): State {
    Step(Init(ALL_CAPS, DefaultConfig(), UNIT_GAIN), Configure(Eager(limit, window)))
  }

  lemma ConfiguredCycles(limit: uint16, window: uint16)
    ensures Cycling(Configured(limit, window), limit, window, 0) && Configured(limit, window).caps.current
  {
    hide HwCode, HwEnable, SetConfig;
    var c := Init(ALL_CAPS, DefaultConfig(), UNIT_GAIN);
    EagerAccepted(c, limit, window);
    InitRetry(ALL_CAPS, DefaultConfig(), UNIT_GAIN);
    assert seq(0, _ => 0) == c.log;
  }

  // Above the capacity every retry is admitted, however many there were; up to
  // it, the first ones are, as many as the limit says.
  lemma {:induction false} UnlimitedRetries(c: State, limit: uint16, window: uint16, n: nat)
    requires Cycling(c, limit, window, 0) && (limit > MAX_RETRY_HISTORY || n <= limit)
    ensures Cycling(Exec(c, Cycles(c.caps.current, n)), limit, window, n)
  {
    hide Cycling, Step;
    if n > 0 {
      var done := Cycles(c.caps.current, n - 1);
      UnlimitedRetries(c, limit, window, n - 1);
      var c1 := Exec(c, done);
      ConfigKept(c, done);
      BelowLimit(c1, limit, window, n - 1);
      OneMoreRetry(c1, limit, window, n - 1);
      ExecConcat(c, done, OneRetry(c.caps.current));
    }
  }

  lemma BelowLimit(c: State, limit: uint16, window: uint16, n: nat)
    requires Cycling(c, limit, window, n) && (limit > MAX_RETRY_HISTORY || n < limit)
    ensures CountActiveRetries(c) < limit
  {
    CountBound(c.retries, c.uptime, c.cfg.retryWindow * 1000);
  }

  lemma {:induction false} ConfigKept(c: State, es: seq<Event>)
    requires forall e | e in es :: !e.Field? && !e.Configure?
    ensures Exec(c, es).cfg == c.cfg && Exec(c, es).caps == c.caps
  {
    hide Step;
    if es != [] {
      var last := |es| - 1;
      assert es[last] in es;
      ConfigKept(c, es[..last]);
      OnlyWritesConfigure(Exec(c, es[..last]), es[last]);
    }
  }

  // ---- The rate limit, exactly ----

  // The configuration stays within the window and the limit during the run.
  ghost predicate Configures(c: State, es: seq<Event>, window: nat, limit: nat) {
    forall n :: 0 <= n < |es| ==> Within(Exec(c, es[..n]).cfg, window, limit)
  }

  // Every run within window and limit is rate-limited by them.
  ghost predicate RateLimits(window: nat, limit: nat) {
    forall c: State, es: seq<Event> :: RetryInv(c) && Configures(c, es, window, limit) ==>
      Spaced(Exec(c, es).log, |c.log|, window, limit)
  }

  /**
    Window and limit bound the rate of retries in every run if and only if the
    limit does not exceed the capacity of the buffer.
   */
  lemma RateLimitExactly(window: uint16, limit: uint16)
    ensures RateLimits(window, limit) <==> limit <= MAX_RETRY_HISTORY
  {
    hide Exec, RetryInv;
    if limit <= MAX_RETRY_HISTORY {
      forall c: State, es: seq<Event> | RetryInv(c) && Configures(c, es, window, limit)
        ensures Spaced(Exec(c, es).log, |c.log|, window, limit)
      {
        RetryRateLimit(c, es, window, limit);
      }
    } else {
      var c := Configured(limit, window);
      Burst(c, limit, window);
    }
  }

  /**
    After one accepted configuration with a limit above the capacity: limit + 1
    retries (and any other number) are recorded in the same millisecond, with
    that limit in force throughout.
   */
  lemma Burst(c: State, limit: uint16, window: uint16)
    requires limit > MAX_RETRY_HISTORY && c == Configured(limit, window)
    ensures var es := Cycles(true, limit + 1);
            && RetryInv(c) && Configures(c, es, window, limit)
            && Exec(c, es).log == seq(limit + 1, _ => 0)
            && !Spaced(Exec(c, es).log, |c.log|, window, limit)
  {
    hide Exec, Configured, RetryInv, Cycles;
    ConfiguredCycles(limit, window);
    assert c.caps.current;
    UnlimitedRetries(c, limit, window, limit + 1);
    var es := Cycles(true, limit + 1);
    forall n | 0 <= n < |es|
      ensures Exec(c, es[..n]).cfg == c.cfg
    {
      ConfigKept(c, es[..n]);
    }
    var log := Exec(c, es).log;
    assert log[limit] - log[0] == 0;
  }

  // ---- Old retries counted again ----

  // One retry, 2^32 ms of uptime, and the old entry is counted again: a limit
  // of one then refuses a retry that the log would admit.
  lemma AliasingIsReached(window: uint16)
    ensures var c := Exec(Configured(1, window), OneRetry(true) + [Elapse(0xFFFF_FFFF), Elapse(1)]);
            && CountActiveRetries(c) == 1 && InWindow(c.log, c.now, c.cfg.retryWindow * 1000) == 0
            && c.cfg.retryMax == 1
  {
    hide Exec, Configured, RetryInv;
    var c0 := Configured(1, window);
    ConfiguredCycles(1, window);
    NothingCounted(c0, window);
    OneMoreRetry(c0, 1, window, 0);
    var c1 := Exec(c0, OneRetry(true));
    var c2 := Advance(Advance(c1, 0xFFFF_FFFF), 1);
    ExecAppend(c0, OneRetry(true), Elapse(0xFFFF_FFFF));
    ExecAppend(c0, OneRetry(true) + [Elapse(0xFFFF_FFFF)], Elapse(1));
    assert OneRetry(true) + [Elapse(0xFFFF_FFFF)] + [Elapse(1)] == OneRetry(true) + [Elapse(0xFFFF_FFFF), Elapse(1)];
    assert Exec(c0, OneRetry(true) + [Elapse(0xFFFF_FFFF), Elapse(1)]) == c2;
    StepKeepsRetry(c1, Elapse(0xFFFF_FFFF));
    StepKeepsRetry(Advance(c1, 0xFFFF_FFFF), Elapse(1));
    assert c2.log == [0];
    AliasingHappens(c2);
  }

  lemma NothingCounted(c: State, window: uint16)
    requires Cycling(c, 1, window, 0)
    ensures CountActiveRetries(c) < 1
  {
    CountBound(c.retries, c.uptime, c.cfg.retryWindow * 1000);
  }
}
