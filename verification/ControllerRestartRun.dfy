/**
  A run that defeats the retry limit by a restart: the records of an earlier
  power-on are loaded, one retry, an initialisation, the records are loaded
  again, one more retry (lib/voltage_control/vc_channel.c:351-431, 454-481).
 */
module ControllerRestartRun {
  import opened CInt
  import opened VcTypes
  import opened Channel = ChannelSpec
  import opened ChannelSafety
  import opened ChannelRetry
  import opened ChannelRetryRuns
  import opened ControllerSpec
  import opened ControllerHistory
  import opened ControllerChannels
  import opened Wrappers

  // Devicetree leaves the defaults as they are: no retries.
  const DEFAULT_BOARD: Board := Board(ALL_CAPS, DefaultConfig(), DefaultCalibration())

  // What an earlier power-on saved: one retry per window.
  function Saved(window: uint16): Store {
    Store(None, map[0 := Eager(1, window)], map[0 := UNIT_GAIN])
  }

  // Load, AUTOMATIC, an over-current reading, a safe one.
  function OneUse(): seq<Command> {
    [ChannelParams(0, PARAM_LOAD, true, true), Mode(MODE_AUTOMATIC),
     TickAll(0, [Reading(None, Some(1))]), TickAll(0, [Reading(None, Some(0))])]
  }

  function UsedTwice(): seq<Command> {
    OneUse() + [Restart] + OneUse()
  }

  // ---- The channel ----

  // Loaded and idle.
  predicate Loaded(c: State, window: uint16) {
    && Cycling(c, 1, window, 0) && c.caps == ALL_CAPS && c.cfg == Eager(1, window)
    && !c.drive.outputEnabled && c.session == CalSession(0, false)
  }

  lemma LoadedFromInit(dev: Device, window: uint16)
    ensures var c := InitChannel(DEFAULT_BOARD, dev);
            && SetConfig(c, Eager(1, window)).1 == Ok
            && Loaded(LoadCal(SetConfig(c, Eager(1, window)).0, UNIT_GAIN), window)
  {
    hide HwCode, HwEnable, SetConfig;
    var c := InitChannel(DEFAULT_BOARD, dev);
    EagerAccepted(c, 1, window);
    assert seq(0, _ => 0) == c.log;
  }

  // The first tick trips, and recovery waits for a safe reading.
  predicate Waiting(c: State, window: uint16) {
    && c.cfg == Eager(1, window) && c.cal == UNIT_GAIN && c.caps == ALL_CAPS
    && c.fault.active == {Current} && !c.drive.outputEnabled && !c.drive.ramping
    && c.drive.smf == RetryCooldown && c.drive.cooldown == 0
    && c.now == 0 && c.uptime == 0 && c.log == [] && c.retries == []
  }

  lemma EagerLimitZero(window: uint16)
    ensures SafeLimit(Eager(1, window)) == 0
  {
  }

  lemma FirstTick(c: State, window: uint16)
    requires Loaded(c, window)
    ensures Waiting(Run(c, 0, None, Some(1), MODE_AUTOMATIC), window)
  {
    hide HwCode, HwEnable, Gain, SafeLimit, RetryOrExhaust;
    UnitGain(1);
    EagerLimitZero(window);
    var c1 := ConsumeCurrent(Advance(c, 0), 1);
    assert c1.fault.active == {Current} && !c1.drive.outputEnabled && c1.meas.measuredI == 1;
    assert TickRamp(c1, 0) == c1;
    assert c.retries == [] by { assert |c.log| == 0; }
  }

  lemma SecondTick(c: State, window: uint16)
    requires Waiting(c, window)
    ensures var c' := Run(c, 0, None, Some(0), MODE_AUTOMATIC);
            && c'.log == [0] && c'.now == 0 && c'.cfg == Eager(1, window)
  {
    hide HwCode, HwEnable, Gain, SafeLimit;
    UnitGain(0);
    EagerLimitZero(window);
    var c1 := ConsumeCurrent(Advance(c, 0), 0);
    assert c1.fault == c.fault && c1.drive == c.drive && c1.meas.measuredI == 0;
    assert TickRamp(c1, 0) == c1;
    assert CountActiveRetries(c1) == 0;
  }

  // ---- The controller ----

  // Just initialised, with the records of before.
  predicate Fresh(s: Ctrl, window: uint16) {
    && s.boards == [DEFAULT_BOARD] && |s.chans| == 1
    && s.chans[0] == InitChannel(DEFAULT_BOARD, s.chans[0].dev)
    && s.mode == MODE_NORMAL && s.hasStorage && s.store == Saved(window)
  }

  lemma LoadCommand(s: Ctrl, window: uint16)
    requires Fresh(s, window)
    ensures var c := LoadCal(SetConfig(s.chans[0], Eager(1, window)).0, UNIT_GAIN);
            && Do(s, OneUse()[0]).0 == s.(chans := [c]) && Loaded(c, window)
  {
    hide SetConfig, LoadCal, Loaded, InitChannel;
    LoadedFromInit(s.chans[0].dev, window);
  }

  lemma ModeCommand(s: Ctrl, c: State, window: uint16)
    requires s.chans == [c] && s.mode == MODE_NORMAL && Loaded(c, window)
    ensures Do(s, OneUse()[1]).0 == s.(mode := MODE_AUTOMATIC, sys := s.sys.(mode := MODE_AUTOMATIC))
  {
    hide OutputAction, ResetCalibration;
    assert !WantsOutput(c);
    assert EnableWanting([c]) == [c];
  }

  lemma TickCommand(s: Ctrl, c: State, raw: int32)
    requires s.chans == [c] && s.mode == MODE_AUTOMATIC && s.sys.mode == MODE_AUTOMATIC
    ensures Do(s, TickAll(0, [Reading(None, Some(raw))])).0 == s.(chans := [Run(c, 0, None, Some(raw), MODE_AUTOMATIC)])
  {
    hide Run;
    assert RunChannels([c], 0, [Reading(None, Some(raw))], MODE_AUTOMATIC) ==
           [Run(c, 0, None, Some(raw), MODE_AUTOMATIC)];
  }

  // The states of one use.
  datatype Uses = Uses(s1: Ctrl, s2: Ctrl, s3: Ctrl, s4: Ctrl)

  function Use(s: Ctrl): Uses {
    var s1 := Do(s, OneUse()[0]).0;
    var s2 := Do(s1, OneUse()[1]).0;
    var s3 := Do(s2, OneUse()[2]).0;
    Uses(s1, s2, s3, Do(s3, OneUse()[3]).0)
  }

  // One channel, with that configuration.
  predicate OneChannelWith(s: Ctrl, cfg: Config) {
    |s.chans| == 1 && s.chans[0].cfg == cfg
  }

  lemma UseRetries(s: Ctrl, window: uint16)
    requires Fresh(s, window)
    ensures var u := Use(s);
            && OneChannelWith(u.s1, Eager(1, window)) && OneChannelWith(u.s2, Eager(1, window))
            && OneChannelWith(u.s3, Eager(1, window)) && OneChannelWith(u.s4, Eager(1, window))
            && u.s4.chans[0].log == [0] && u.s4.chans[0].now == 0
            && u.s4.boards == s.boards && u.s4.hasStorage && u.s4.store == s.store
  {
    hide Do, Run, Loaded, SetConfig, LoadCal;
    var c1 := LoadCal(SetConfig(s.chans[0], Eager(1, window)).0, UNIT_GAIN);
    LoadCommand(s, window);
    var u := Use(s);
    assert u.s1 == s.(chans := [c1]);
    LoadedConfig(c1, window);
    ModeCommand(u.s1, c1, window);
    TickCommand(u.s2, c1, 1);
    FirstTick(c1, window);
    var c2 := Run(c1, 0, None, Some(1), MODE_AUTOMATIC);
    TickCommand(u.s3, c2, 0);
    SecondTick(c2, window);
  }

  lemma LoadedConfig(c: State, window: uint16)
    requires Loaded(c, window)
    ensures c.cfg == Eager(1, window)
  {
  }

  lemma InitKeepsDevice(b: Board, dev: Device)
    ensures InitChannel(b, dev).dev == dev
  {
  }

  lemma InitIsFresh(store: Store, before: seq<State>, window: uint16)
    requires store == Saved(window)
    ensures Fresh(InitOver([DEFAULT_BOARD], true, store, before), window)
  {
    hide InitChannel;
    InitKeepsDevice(DEFAULT_BOARD, DeviceBefore(before, 0));
  }

  lemma RestartIsFresh(s: Ctrl, window: uint16)
    requires s.boards == [DEFAULT_BOARD] && s.hasStorage && s.store == Saved(window)
    ensures Fresh(Do(s, Restart).0, window)
  {
    hide Fresh, InitOver, Saved;
    RebootCount(s);
    InitIsFresh(s.store, s.chans, window);
  }

  lemma UseRuns(s: Ctrl, es: seq<Command>, n: nat)
    requires n + 4 <= |es| && es[n..n + 4] == OneUse()
    ensures var u := Use(DoAll(s, es[..n]));
            && DoAll(s, es[..n + 1]) == u.s1 && DoAll(s, es[..n + 2]) == u.s2
            && DoAll(s, es[..n + 3]) == u.s3 && DoAll(s, es[..n + 4]) == u.s4
  {
    hide Do, DoAll;
    var use := es[n..n + 4];
    assert use[0] == es[n] && use[1] == es[n + 1] && use[2] == es[n + 2] && use[3] == es[n + 3];
    DoNext(s, es, n);
    DoNext(s, es, n + 1);
    DoNext(s, es, n + 2);
    DoNext(s, es, n + 3);
  }

  // The configuration of the channel after each command of the run.
  function ConfigAfter(n: nat, window: uint16): Config {
    if n == 0 || n == 5 then DefaultConfig() else Eager(1, window)
  }

  lemma FreshConfig(s: Ctrl, window: uint16)
    requires Fresh(s, window)
    ensures OneChannelWith(s, DefaultConfig()) && s.chans[0].log == [] && s.chans[0].now == 0
  {
  }

  // The run, prefix by prefix.
  lemma RunByPrefixes(window: uint16)
    ensures var s := Boot([DEFAULT_BOARD], true, Saved(window));
            && (forall n | 0 <= n <= 9 :: OneChannelWith(DoAll(s, UsedTwice()[..n]), ConfigAfter(n, window)))
            && forall n | n == 4 || n == 9 :: var c := DoAll(s, UsedTwice()[..n]).chans[0];
                 c.log == [0] && c.now == 0
  {
    hide Do, DoAll, Fresh, Use, InitOver, Saved, Eager, DefaultConfig;
    var s, es := Boot([DEFAULT_BOARD], true, Saved(window)), UsedTwice();
    InitIsFresh(Saved(window), [], window);
    assert s == DoAll(s, es[..0]) by { DoNothing(s); }
    UseRuns(s, es, 0);
    UseRetries(s, window);
    FreshFields(s, window);
    FreshConfig(s, window);
    var s4 := DoAll(s, es[..4]);
    DoNext(s, es, 4);
    RestartIsFresh(s4, window);
    var s5 := DoAll(s, es[..5]);
    FreshConfig(s5, window);
    UseRuns(s, es, 5);
    UseRetries(s5, window);
  }

  lemma FreshFields(s: Ctrl, window: uint16)
    requires Fresh(s, window)
    ensures s.boards == [DEFAULT_BOARD] && s.hasStorage && s.store == Saved(window)
  {
  }

  lemma DoNothing(s: Ctrl)
    ensures DoAll(s, []) == s
  {
  }

  lemma BothWithin(window: uint16)
    ensures forall n: nat :: Within(ConfigAfter(n, window), window, 1)
  {
  }

  // Commands other than a restart leave the past as it is.
  lemma {:induction false} PastStays(s: Ctrl, es: seq<Command>, from: nat, n: nat)
    requires from <= n <= |es| && forall i | from <= i < n :: es[i] != Restart
    ensures Past(s, es[..n], 0) == Past(s, es[..from], 0)
    decreases n
  {
    hide Do, DoAll;
    if from < n {
      assert es[..n][..n - 1] == es[..n - 1];
      PastStays(s, es, from, n - 1);
    }
  }

  lemma PastOfRestart(s: Ctrl, es: seq<Command>, n: nat)
    requires n < |es| && es[n] == Restart && |DoAll(s, es[..n]).chans| > 0
    ensures Past(s, es[..n + 1], 0) == Upto(Past(s, es[..n], 0), DoAll(s, es[..n]).chans[0])
  {
    hide Do, DoAll;
    assert es[..n + 1][..n] == es[..n];
  }

  // Both uses in the history.
  lemma HistoryOfUses(window: uint16)
    ensures var s, es := Boot([DEFAULT_BOARD], true, Saved(window)), UsedTwice();
            && Whole(s, es[..4], 0) == History(0, [0])
            && Whole(s, es[..9], 0) == History(0, [0, 0])
  {
    hide Do, DoAll, InitOver, Saved, Past;
    var s, es := Boot([DEFAULT_BOARD], true, Saved(window)), UsedTwice();
    RunByPrefixes(window);
    PastStays(s, es, 0, 4);
    NoPast(s, es);
    assert Whole(s, es[..4], 0) == History(0, [0]) by { assert [] + Shift(0, [0]) == [0]; }
    PastOfRestart(s, es, 4);
    PastStays(s, es, 5, 9);
    assert [0] + Shift(0, [0]) == [0, 0];
  }

  lemma NoPast(s: Ctrl, es: seq<Command>)
    ensures Past(s, es[..0], 0) == History(0, [])
  {
  }

  /**
    From power-on, with a devicetree that leaves retries off and one retry per
    window in the stored records: the records are loaded, the channel retries,
    the controller initialises again, the records are loaded again, the channel
    retries again. It stays configured for one retry per window throughout, and
    both retries happen in the same millisecond.
   */
  lemma RestartDefeatsLimit(window: uint16)
    ensures var s, es := Boot([DEFAULT_BOARD], true, Saved(window)), UsedTwice();
            && ConfiguresChannel(s, es, 0, window, 1)
            && DoAll(s, es).chans[0].cfg == Eager(1, window)
            && Whole(s, es, 0) == History(0, [0, 0])
            && !Spaced(Whole(s, es, 0).log, 0, window, 1)
            && !RestartsSettled(s, es, 0, window)
  {
    hide Do, DoAll, InitOver, Saved, Eager, DefaultConfig, Within, Past;
    var s, es := Boot([DEFAULT_BOARD], true, Saved(window)), UsedTwice();
    RunByPrefixes(window);
    BothWithin(window);
    HistoryOfUses(window);
    assert es[..9] == es;
    assert es[4] == Restart && !Settled(Whole(s, es[..4], 0), window);
    assert Whole(s, es, 0).log[1] - Whole(s, es, 0).log[0] == 0;
  }
}
