/**
  What a controller run does to one of its channels, as the run of that
  channel's events: so the theorems about one channel hold of a channel inside
  a controller, in runs without a restart.
 */
module ControllerTrace {
  import opened CInt
  import opened VcTypes
  import opened Channel = ChannelSpec
  import opened ControllerSpec
  import opened ChannelSafety

  // ---- The events of one command ----

  predicate ModeChanges(s: Ctrl, mode: uint16) {
    SetMode(s, mode).1 == Ok && mode != s.mode
  }

  function TransitionEvents(c: State, from: uint16, to: uint16): seq<Event> {
    (if from == MODE_CALIBRATION then [Reset(false)] else []) +
    (if to == MODE_NORMAL && from == MODE_AUTOMATIC then [Action(ACTION_DISABLE_GRACEFUL)] else []) +
    (if to == MODE_AUTOMATIC && WantsOutput(c) && c.fault.active == {} then [Action(ACTION_ENABLE)] else []) +
    (if to == MODE_CALIBRATION then [Reset(true)] else [])
  }

  function ModeEvents(s: Ctrl, mode: uint16, k: nat): seq<Event>
    requires k < |s.chans|
  {
    if ModeChanges(s, mode) then TransitionEvents(s.chans[k], s.mode, mode) else []
  }

  function TickEvents(s: Ctrl, dt: uint32, rs: seq<Reading>, k: nat): seq<Event>
    requires k < |s.chans|
  {
    if s.mode != MODE_CALIBRATION then MicroSteps(dt, ReadingAt(rs, k).v, ReadingAt(rs, k).i, s.sys.mode)
    else if dt >= s.watchdog then ModeEvents(s, s.preCal, k)
    else []
  }

  function ConfigureEvents(s: Ctrl, cfg: SystemConfig, k: nat): seq<Event>
    requires k < |s.chans|
  {
    if cfg.mode != s.mode then ModeEvents(s, cfg.mode, k) else []
  }

  function FieldEvents(s: Ctrl, k: nat, field: ConfigField, value: uint16): seq<Event>
    requires k < |s.chans|
  {
    var (c, st) := SetField(s.chans[k], field, value);
    [Field(field, value)] + if st == Ok && AutoEnables(s, c, field, value) then [Action(ACTION_ENABLE)] else []
  }

  function ReloadEvents(s: Ctrl, k: nat, calWorks: bool): seq<Event> {
    if s.hasStorage && calWorks && k in s.store.cals then [CalLoad(s.store.cals[k])] else []
  }

  function ParamEvents(s: Ctrl, k: nat, action: uint16, works: bool, calWorks: bool): seq<Event>
    requires k < |s.chans|
  {
    if action == PARAM_LOAD && s.hasStorage && works then
      if k !in s.store.cfgs then ReloadEvents(s, k, calWorks)
      else if SetConfig(s.chans[k], s.store.cfgs[k]).1 != Ok then []
      else [Configure(s.store.cfgs[k])] + ReloadEvents(s, k, calWorks)
    else if action == PARAM_FACTORY_RESET && SetConfig(s.chans[k], DefaultConfig()).1 == Ok then
      [Configure(DefaultConfig())] + ReloadEvents(s, k, calWorks)
    else []
  }

  // The one event of a command addressed to one channel, when it gets there.
  function DirectEvents(s: Ctrl, e: Command): seq<Event> {
    var inCal := s.mode == MODE_CALIBRATION;
    match e
    case Act(_, action) => if inCal then [] else [Action(action)]
    case FaultCommandAt(_, cmd) => [FaultCmd(cmd)]
    case FaultAt(_, cause) => [External(cause)]
    case CalFieldAt(_, field, value) => if inCal then [CalWrite(field, value)] else []
    case CalEnableAt(k, enable) =>
      if inCal && !(enable && OtherBusy(s.chans, k)) then [CalEnable(enable)] else []
    case CalDacAt(_, code) => if inCal then [CalDac(code)] else []
    case CalSampleAt(_, v, i) => if inCal then [Sample(v, i)] else []
    case _ => []
  }

  function Trace(s: Ctrl, e: Command, k: nat): seq<Event> {
    if k >= |s.chans| then []
    else
      match e
      case TickAll(dt, rs) => TickEvents(s, dt, rs, k)
      case Mode(mode) => ModeEvents(s, mode, k)
      case Exit => if s.mode == MODE_CALIBRATION then ModeEvents(s, s.preCal, k) else []
      case SystemConfigure(cfg) => ConfigureEvents(s, cfg, k)
      case SystemField(field, value) =>
        if field == OperatingMode then ModeEvents(s, value, k)
        else if field == StartupChannelPolicy then ConfigureEvents(s, s.sys.(startupPolicy := value), k)
        else []
      case SystemParams(action, works) =>
        if action == PARAM_LOAD && s.hasStorage && works && s.store.sys.Some?
        then ConfigureEvents(s, s.store.sys.value, k)
        else []
      case FieldAt(j, field, value) => if j == k then FieldEvents(s, k, field, value) else []
      case ChannelParams(j, action, works, calWorks) =>
        if j == k then ParamEvents(s, k, action, works, calWorks) else []
      case UnlockWrite(_) => []
      case Beat => []
      case CalCommitAt(_, _) => []
      case Restart => []
      case _ => if e.k == k then DirectEvents(s, e) else []
  }

  // ---- One command ----

  // `s'` has the channels of `s`, and channel `k` after these events.
  predicate Runs(s: Ctrl, s': Ctrl, k: nat, es: seq<Event>) {
    |s'.chans| == |s.chans| && k < |s.chans| && s'.chans[k] == Exec(s.chans[k], es)
  }

  lemma ExecOne(c: State, e: Event)
    ensures Exec(c, [e]) == Step(c, e)
  {
    hide Step;
    ExecAppend(c, [], e);
    assert [] + [e] == [e];
  }

  lemma ExecTwo(c: State, a: Event, b: Event)
    ensures Exec(c, [a] + [b]) == Step(Step(c, a), b)
  {
    hide Step;
    ExecOne(c, a);
    ExecAppend(c, [a], b);
  }

  // What the loop over the channels does to one of them.
  lemma TransitionRuns(cs: seq<State>, from: uint16, to: uint16, k: nat)
    requires k < |cs|
    ensures var cs' := Transition(cs, from, to);
            |cs'| == |cs| && cs'[k] == Exec(cs[k], TransitionEvents(cs[k], from, to))
  {
    hide Step, ResetCalibration, OutputAction, WantsOutput;
    var c := cs[k];
    var es1: seq<Event> := if from == MODE_CALIBRATION then [Reset(false)] else [];
    var c1 := if from == MODE_CALIBRATION then ResetCalibration(c, false) else c;
    ExecOptional(c, from == MODE_CALIBRATION, Reset(false));
    assert Exec(c, es1) == c1 by { ResetIsStep(c, false); }
    var disables := to == MODE_NORMAL && from == MODE_AUTOMATIC;
    var es2: seq<Event> := if disables then [Action(ACTION_DISABLE_GRACEFUL)] else [];
    var c2 := if disables then OutputAction(c1, ACTION_DISABLE_GRACEFUL).0 else c1;
    ExecOptional(c1, disables, Action(ACTION_DISABLE_GRACEFUL));
    ActionIsStep(c1, ACTION_DISABLE_GRACEFUL);
    ExecConcat(c, es1, es2);
    ResetKeepsWish(c, false);
    var enables := to == MODE_AUTOMATIC && WantsOutput(c) && c.fault.active == {};
    var es3: seq<Event> := if enables then [Action(ACTION_ENABLE)] else [];
    var c3 := if to == MODE_AUTOMATIC then EnableIfWanted(c2) else c2;
    ExecOptional(c2, enables, Action(ACTION_ENABLE));
    ActionIsStep(c2, ACTION_ENABLE);
    assert Exec(c2, es3) == c3;
    ExecConcat(c, es1 + es2, es3);
    var es4: seq<Event> := if to == MODE_CALIBRATION then [Reset(true)] else [];
    ExecOptional(c3, to == MODE_CALIBRATION, Reset(true));
    ResetIsStep(c3, true);
    ExecConcat(c, es1 + es2 + es3, es4);
  }

  lemma ExecOptional(c: State, happens: bool, e: Event)
    ensures Exec(c, if happens then [e] else []) == if happens then Step(c, e) else c
  {
    hide Step;
    ExecOne(c, e);
  }

  lemma ResetIsStep(c: State, entering: bool)
    ensures Step(c, Reset(entering)) == ResetCalibration(c, entering)
  {
  }

  lemma ActionIsStep(c: State, action: uint16)
    ensures Step(c, Action(action)) == OutputAction(c, action).0
  {
  }

  lemma ResetKeepsWish(c: State, entering: bool)
    ensures var c' := ResetCalibration(c, entering);
            WantsOutput(c') == WantsOutput(c) && c'.fault == c.fault
  {
  }

  lemma ModeRuns(s: Ctrl, mode: uint16, k: nat)
    requires k < |s.chans|
    ensures Runs(s, SetMode(s, mode).0, k, ModeEvents(s, mode, k))
  {
    hide Transition, TransitionEvents, AnyFaulted, Step;
    TransitionRuns(s.chans, s.mode, mode, k);
  }

  lemma ConfigureRuns(s: Ctrl, cfg: SystemConfig, k: nat)
    requires k < |s.chans|
    ensures Runs(s, SetSystemConfig(s, cfg).0, k, ConfigureEvents(s, cfg, k))
  {
    hide Transition, TransitionEvents, Step;
    var sys := if cfg.mode == MODE_CALIBRATION then cfg.(mode := s.sys.mode) else cfg;
    var s1 := s.(sys := sys);
    ModeRuns(s1, cfg.mode, k);
    assert ModeChanges(s1, cfg.mode) == ModeChanges(s, cfg.mode);
  }

  lemma TickRuns(s: Ctrl, dt: uint32, rs: seq<Reading>, k: nat)
    requires k < |s.chans|
    ensures Runs(s, Tick(s, dt, rs), k, TickEvents(s, dt, rs, k))
  {
    hide Step, Run, SetMode, MicroSteps, ModeChanges;
    ModeRuns(s, s.preCal, k);
    RunIsMicroSteps(s.chans[k], dt, ReadingAt(rs, k).v, ReadingAt(rs, k).i, s.sys.mode);
  }

  lemma FieldRuns(s: Ctrl, j: nat, field: ConfigField, value: uint16, k: nat)
    requires k < |s.chans|
    ensures Runs(s, ChannelSetField(s, j, field, value).0, k, if j == k then FieldEvents(s, k, field, value) else [])
  {
    hide SetField, OutputAction, Step;
    var c := s.chans[k];
    var c1 := SetField(c, field, value).0;
    ExecOne(c, Field(field, value));
    ExecTwo(c, Field(field, value), Action(ACTION_ENABLE));
    FieldIsStep(c, field, value);
    ActionIsStep(c1, ACTION_ENABLE);
    assert [Event.Field(field, value)] + [] == [Event.Field(field, value)];
  }

  lemma FieldIsStep(c: State, field: ConfigField, value: uint16)
    ensures Step(c, Field(field, value)) == SetField(c, field, value).0
  {
  }

  lemma ReloadRuns(s: Ctrl, k: nat, c: State, calWorks: bool)
    ensures ReloadCal(s, k, c, calWorks) == Exec(c, ReloadEvents(s, k, calWorks))
  {
    hide LoadCal;
    if s.hasStorage && calWorks && k in s.store.cals {
      ExecOne(c, CalLoad(s.store.cals[k]));
    }
  }

  lemma ParamRuns(s: Ctrl, j: nat, action: uint16, works: bool, calWorks: bool, k: nat)
    requires k < |s.chans|
    ensures Runs(s, ChannelParam(s, j, action, works, calWorks).0, k,
                 if j == k then ParamEvents(s, k, action, works, calWorks) else [])
  {
    hide SetConfig, ReloadCal, ReloadEvents, Step;
    var c := s.chans[k];
    ReloadRuns(s, k, c, calWorks);
    if k in s.store.cfgs {
      ReconfigureRuns(s, k, s.store.cfgs[k], calWorks);
    }
    ReconfigureRuns(s, k, DefaultConfig(), calWorks);
  }

  lemma ReconfigureRuns(s: Ctrl, k: nat, cfg: Config, calWorks: bool)
    requires k < |s.chans|
    ensures ReloadCal(s, k, SetConfig(s.chans[k], cfg).0, calWorks) ==
            Exec(s.chans[k], [Configure(cfg)] + ReloadEvents(s, k, calWorks))
  {
    hide SetConfig, ReloadCal, ReloadEvents;
    var c := s.chans[k];
    ExecOne(c, Configure(cfg));
    ReloadRuns(s, k, SetConfig(c, cfg).0, calWorks);
    ExecConcat(c, [Configure(cfg)], ReloadEvents(s, k, calWorks));
  }

  predicate Direct(e: Command) {
    || e.Act? || e.FaultCommandAt? || e.FaultAt?
    || e.CalFieldAt? || e.CalEnableAt? || e.CalDacAt? || e.CalSampleAt?
  }

  lemma HostRuns(s: Ctrl, e: Command, k: nat)
    requires k < |s.chans| && (e.Act? || e.FaultCommandAt? || e.FaultAt?)
    ensures Runs(s, Do(s, e).0, k, if e.k == k then DirectEvents(s, e) else [])
  {
    hide OutputAction, FaultCommand, ConsumeFault;
    var event := match e
      case Act(_, action) => Action(action)
      case FaultCommandAt(_, cmd) => FaultCmd(cmd)
      case FaultAt(_, cause) => External(cause);
    ExecOne(s.chans[k], event);
  }

  lemma SessionRuns(s: Ctrl, e: Command, k: nat)
    requires k < |s.chans| && (e.CalFieldAt? || e.CalDacAt? || e.CalSampleAt?)
    ensures Runs(s, Do(s, e).0, k, if e.k == k then DirectEvents(s, e) else [])
  {
    hide SetCalField, CalSetRawDac, CalSample;
    var event := match e
      case CalFieldAt(_, field, value) => CalWrite(field, value)
      case CalDacAt(_, code) => CalDac(code)
      case CalSampleAt(_, v, i) => Sample(v, i);
    ExecOne(s.chans[k], event);
  }

  lemma CalEnableRuns(s: Ctrl, j: nat, enable: bool, k: nat)
    requires k < |s.chans|
    ensures var e := CalEnableAt(j, enable);
            Runs(s, Do(s, e).0, k, if j == k then DirectEvents(s, e) else [])
  {
    hide OtherBusy, CalSetOutputEnable;
    ExecOne(s.chans[k], CalEnable(enable));
  }

  lemma DirectRuns(s: Ctrl, e: Command, k: nat)
    requires k < |s.chans| && Direct(e)
    ensures Runs(s, Do(s, e).0, k, if e.k == k then DirectEvents(s, e) else [])
  {
    hide Do, Runs, DirectEvents;
    if e.Act? || e.FaultCommandAt? || e.FaultAt? {
      HostRuns(s, e, k);
    } else if e.CalEnableAt? {
      CalEnableRuns(s, e.k, e.enable, k);
    } else {
      SessionRuns(s, e, k);
    }
  }

  // Every command but a restart does to a channel what its events do.
  lemma CommandRuns(s: Ctrl, e: Command, k: nat)
    requires k < |s.chans| && e != Restart
    ensures Runs(s, Do(s, e).0, k, Trace(s, e, k))
  {
    hide Tick, TickEvents, SetMode, ModeEvents, SetSystemConfig, ConfigureEvents, ChannelSetField, FieldEvents;
    hide ChannelParam, ParamEvents, ChannelAction, ChannelFaultCommand, ChannelFault, DirectEvents;
    hide ChannelSetCalField, CalOutputEnable, CalRawDac, CalSampleChannel, CalCommit, Step;
    if Direct(e) {
      DirectRuns(s, e, k);
    } else {
      match e {
        case TickAll(dt, rs) => TickRuns(s, dt, rs, k);
        case Mode(mode) => ModeRuns(s, mode, k);
        case Exit => ModeRuns(s, s.preCal, k);
        case SystemConfigure(cfg) => ConfigureRuns(s, cfg, k);
        case SystemField(_, value) =>
          ModeRuns(s, value, k);
          ConfigureRuns(s, s.sys.(startupPolicy := value), k);
        case SystemParams(_, _) => if s.store.sys.Some? { ConfigureRuns(s, s.store.sys.value, k); }
        case FieldAt(j, field, value) => FieldRuns(s, j, field, value, k);
        case ChannelParams(j, action, works, calWorks) => ParamRuns(s, j, action, works, calWorks, k);
        case _ =>
      }
    }
  }

  // ---- Runs ----

  predicate NoRestart(es: seq<Command>) {
    forall n :: 0 <= n < |es| ==> es[n] != Restart
  }

  // The events of channel `k` during a run.
  function Traces(s: Ctrl, es: seq<Command>, k: nat): seq<Event> {
    if es == [] then []
    else
      var last := |es| - 1;
      Traces(s, es[..last], k) + Trace(DoAll(s, es[..last]), es[last], k)
  }

  // A channel inside a controller runs as a channel on its own.
  lemma {:induction false} ChannelRuns(s: Ctrl, es: seq<Command>, k: nat)
    requires k < |s.chans| && NoRestart(es)
    ensures Runs(s, DoAll(s, es), k, Traces(s, es, k))
  {
    hide Do, Trace, Step;
    if es != [] {
      var last := |es| - 1;
      ChannelRuns(s, es[..last], k);
      var t := DoAll(s, es[..last]);
      CommandRuns(t, es[last], k);
      ExecConcat(s.chans[k], Traces(s, es[..last], k), Trace(t, es[last], k));
    }
  }
}
