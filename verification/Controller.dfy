/**
  The controller as the firmware keeps it: one record over an array of channels,
  updated in place (lib/voltage_control/vc_controller.c). Its ghost field `abs`
  is the value that ControllerSpec speaks about; every method is proved to
  update it as the function of the same name says.
 */
module ControllerImpl {
  import opened CInt
  import opened VcTypes
  import ChannelSpec
  import opened ChannelImpl
  import Spec = ControllerSpec
  import opened Wrappers

  // The mode machine of `struct vc_controller`.
  datatype ModeRecord = ModeRecord(
    mode: uint16,
    preCal: uint16,
    watchdog: uint32,
    unlockStep: uint16,
    unlocked: bool)

  lemma RefusedConfigIsIgnored(c: ChannelSpec.State, cfg: Config)
    ensures ChannelSpec.SetConfig(c, cfg).1 != Ok ==> ChannelSpec.SetConfig(c, cfg).0 == c
  {
  }

  // A field write is a write followed by the automatic start.
  lemma SetFieldInSteps(s: Spec.Ctrl, k: nat, field: ConfigField, value: uint16)
    ensures k >= |s.chans| ==> Spec.ChannelSetField(s, k, field, value) == (s, UnsupportedChannel)
    ensures k < |s.chans| ==>
              var (c, st) := ChannelSpec.SetField(s.chans[k], field, value);
              var s1 := Spec.WithChannel(s, k, c);
              && k < |s1.chans| && s1.chans[k] == c
              && Spec.ChannelSetField(s, k, field, value) ==
                 (if st == Ok && Spec.AutoEnables(s, c, field, value)
                  then Spec.WithChannel(s1, k, ChannelSpec.OutputAction(c, ACTION_ENABLE).0)
                  else s1, st)
  {
    hide ChannelSpec.SetField, ChannelSpec.OutputAction;
    if k < |s.chans| {
      var (c, st) := ChannelSpec.SetField(s.chans[k], field, value);
      var d := ChannelSpec.OutputAction(c, ACTION_ENABLE).0;
      assert s.chans[k := c][k := d] == s.chans[k := d];
    }
  }

  class Controller {
    const boards: seq<Spec.Board>
    const channels: seq<Channel>
    const hasStorage: bool
    var rec: ModeRecord
    var sys: SystemConfig
    var store: Spec.Store

    ghost const repr: set<object>
    ghost var abs: Spec.Ctrl

    // The channels do not share any object.
    ghost predicate Separate() {
      && this !in repr
      && (forall k :: 0 <= k < |channels| ==>
            channels[k] in repr && channels[k].retries in repr && channels[k].retries.stamps in repr)
      && (forall j, k :: 0 <= j < k < |channels| ==>
            && channels[j] != channels[k]
            && channels[j].retries != channels[k].retries
            && channels[j].retries.stamps != channels[k].retries.stamps)
    }

    ghost predicate ChannelIs(k: nat, c: ChannelSpec.State)
      requires k < |channels|
      reads channels[k], channels[k].retries, channels[k].retries.stamps
    {
      channels[k].Valid() && channels[k].View() == c
    }

    ghost predicate ChannelsAre(cs: seq<ChannelSpec.State>)
      requires Separate()
      reads repr
    {
      |cs| == |channels| && forall k :: 0 <= k < |channels| ==> ChannelIs(k, cs[k])
    }

    ghost predicate RecordIs(s: Spec.Ctrl)
      reads this
    {
      && s.boards == boards && s.hasStorage == hasStorage
      && rec == ModeRecord(s.mode, s.preCal, s.watchdog, s.unlockStep, s.unlocked)
      && s.sys == sys && s.store == store
    }

    // Stored and devicetree calibrations are in range, so loading them is safe.
    ghost predicate CalibrationsOk()
      reads this
    {
      && |boards| == |channels|
      && (forall k :: 0 <= k < |boards| ==> channels[k].caps == boards[k].caps && CalibrationOk(boards[k].cal))
      && (forall k :: k in store.cals ==> CalibrationOk(store.cals[k]))
    }

    ghost predicate Valid()
      reads this, repr
    {
      Separate() && CalibrationsOk() && RecordIs(abs) && ChannelsAre(abs.chans)
    }

    constructor (boards: seq<Spec.Board>, hasStorage: bool)
      requires forall k :: 0 <= k < |boards| ==> CalibrationOk(boards[k].cal)
      ensures Valid() && fresh(repr)
      ensures abs == Spec.Boot(boards, hasStorage, Spec.EMPTY_STORE)
    {
      var cs: seq<Channel> := [];
      ghost var objects: set<object> := {};
      for i := 0 to |boards|
        invariant |cs| == i && fresh(objects)
        invariant forall k :: 0 <= k < i ==>
          && cs[k] in objects && cs[k].retries in objects && cs[k].retries.stamps in objects
          && cs[k].caps == boards[k].caps && cs[k].Valid()
          && cs[k].View() == ChannelSpec.Init(boards[k].caps, boards[k].cfg, boards[k].cal)
        invariant forall j, k :: 0 <= j < k < i ==>
          && cs[j] != cs[k] && cs[j].retries != cs[k].retries && cs[j].retries.stamps != cs[k].retries.stamps
      {
        var c := new Channel(boards[i].caps, boards[i].cfg, boards[i].cal);
        cs := cs + [c];
        objects := objects + {c, c.retries, c.retries.stamps};
      }
      this.boards, this.channels, this.hasStorage := boards, cs, hasStorage;
      rec := ModeRecord(MODE_NORMAL, MODE_NORMAL, 0, 0, false);
      sys := DefaultSystemConfig();
      store := Spec.EMPTY_STORE;
      repr := objects;
      abs := Spec.Boot(boards, hasStorage, Spec.EMPTY_STORE);
    }

    // ---- Loops over all channels ----

    method ResetAll(entering: bool, ghost cs: seq<ChannelSpec.State>)
      requires Separate() && ChannelsAre(cs)
      modifies repr
      ensures ChannelsAre(Spec.ResetAll(cs, entering))
    {
      for i := 0 to |channels|
        invariant forall k :: 0 <= k < i ==> ChannelIs(k, ChannelSpec.ResetCalibration(cs[k], entering))
        invariant forall k :: i <= k < |channels| ==> ChannelIs(k, cs[k])
      {
        assert ChannelIs(i, cs[i]);
        channels[i].ResetCalibration(entering);
        assert ChannelIs(i, ChannelSpec.ResetCalibration(cs[i], entering));
      }
    }

    method DisableAll(ghost cs: seq<ChannelSpec.State>)
      requires Separate() && ChannelsAre(cs)
      modifies repr
      ensures ChannelsAre(Spec.DisableAll(cs))
    {
      hide ChannelSpec.OutputAction;
      for i := 0 to |channels|
        invariant forall k :: 0 <= k < i ==>
                    ChannelIs(k, ChannelSpec.OutputAction(cs[k], ACTION_DISABLE_GRACEFUL).0)
        invariant forall k :: i <= k < |channels| ==> ChannelIs(k, cs[k])
      {
        assert ChannelIs(i, cs[i]);
        var _ := channels[i].OutputAction(ACTION_DISABLE_GRACEFUL);
        assert ChannelIs(i, ChannelSpec.OutputAction(cs[i], ACTION_DISABLE_GRACEFUL).0);
      }
    }

    method EnableWanting(ghost cs: seq<ChannelSpec.State>)
      requires Separate() && ChannelsAre(cs)
      modifies repr
      ensures ChannelsAre(Spec.EnableWanting(cs))
    {
      hide ChannelSpec.OutputAction;
      for i := 0 to |channels|
        invariant forall k :: 0 <= k < i ==> ChannelIs(k, Spec.EnableIfWanted(cs[k]))
        invariant forall k :: i <= k < |channels| ==> ChannelIs(k, cs[k])
      {
        assert ChannelIs(i, cs[i]);
        var ch := channels[i];
        var wantsOutput := if ch.caps.rawDrive then ch.cfg.target != 0 else ch.cfg.outputEnabled;
        if wantsOutput && ch.fault.active == {} {
          var _ := ch.OutputAction(ACTION_ENABLE);
        }
        assert ChannelIs(i, Spec.EnableIfWanted(cs[i]));
      }
    }

    method RunChannels(dt: uint32, rs: seq<Spec.Reading>, mode: uint16, ghost cs: seq<ChannelSpec.State>)
      requires Separate() && ChannelsAre(cs)
      modifies repr
      ensures ChannelsAre(Spec.RunChannels(cs, dt, rs, mode))
    {
      hide ChannelSpec.Run;
      for i := 0 to |channels|
        invariant forall k :: 0 <= k < i ==>
                    ChannelIs(k, ChannelSpec.Run(cs[k], dt, Spec.ReadingAt(rs, k).v, Spec.ReadingAt(rs, k).i, mode))
        invariant forall k :: i <= k < |channels| ==> ChannelIs(k, cs[k])
      {
        assert ChannelIs(i, cs[i]);
        var r := Spec.ReadingAt(rs, i);
        channels[i].Run(dt, r.v, r.i, mode);
        assert ChannelIs(i, ChannelSpec.Run(cs[i], dt, r.v, r.i, mode));
      }
    }

    method AnyFaulted(ghost cs: seq<ChannelSpec.State>) returns (faulted: bool)
      requires Separate() && ChannelsAre(cs)
      ensures faulted == Spec.AnyFaulted(cs)
    {
      for i := 0 to |channels|
        invariant forall k :: 0 <= k < i ==> cs[k].fault.active == {}
      {
        assert ChannelIs(i, cs[i]);
        if channels[i].fault.active != {} {
          return true;
        }
      }
      return false;
    }

    method OtherBusy(ch: nat, ghost cs: seq<ChannelSpec.State>) returns (busy: bool)
      requires Separate() && ChannelsAre(cs)
      ensures busy == Spec.OtherBusy(cs, ch)
    {
      for i := 0 to |channels|
        invariant forall j :: 0 <= j < i && j != ch ==> !cs[j].session.calOutput && cs[j].session.rawDac == 0
      {
        assert ChannelIs(i, cs[i]);
        if i != ch && (channels[i].session.calOutput || channels[i].session.rawDac != 0) {
          return true;
        }
      }
      return false;
    }

    // ---- Operating mode ----

    // The channel side of a mode change, in the order of the source.
    method ChangeChannels(to: uint16, ghost cs: seq<ChannelSpec.State>)
      requires Separate() && ChannelsAre(cs)
      modifies repr
      ensures ChannelsAre(Spec.Transition(cs, rec.mode, to))
    {
      hide Spec.ResetAll, Spec.DisableAll, Spec.EnableWanting, ChannelsAre;
      ghost var now := cs;
      if rec.mode == MODE_CALIBRATION {
        ResetAll(false, now);
        now := Spec.ResetAll(now, false);
      }
      if to == MODE_NORMAL && rec.mode == MODE_AUTOMATIC {
        DisableAll(now);
        now := Spec.DisableAll(now);
      }
      if to == MODE_AUTOMATIC {
        EnableWanting(now);
        now := Spec.EnableWanting(now);
      }
      if to == MODE_CALIBRATION {
        ResetAll(true, now);
      }
    }

    method SetOperatingMode(mode: uint16) returns (st: Status)
      requires Valid()
      modifies this, repr
      ensures Valid() && (abs, st) == Spec.SetMode(old(abs), mode)
    {
      hide ChannelsAre, Spec.Transition, Spec.AnyFaulted;
      ghost var s := abs;
      abs := Spec.SetMode(s, mode).0;
      if mode != MODE_NORMAL && mode != MODE_AUTOMATIC && mode != MODE_CALIBRATION {
        return InvalidValue;
      }
      if rec.mode != MODE_CALIBRATION && mode == MODE_CALIBRATION && !rec.unlocked {
        return InvalidCommand;
      }
      if mode == rec.mode {
        if mode == MODE_CALIBRATION {
          rec := rec.(watchdog := Spec.WATCHDOG_MS);
        }
        return Ok;
      }
      if mode == MODE_AUTOMATIC && rec.mode == MODE_NORMAL {
        var faulted := AnyFaulted(s.chans);
        if faulted {
          return UnsafeState;
        }
      }
      ChangeChannels(mode, s.chans);
      if mode == MODE_CALIBRATION {
        rec := rec.(preCal := rec.mode, watchdog := Spec.WATCHDOG_MS);
      }
      rec := rec.(mode := mode);
      if mode != MODE_CALIBRATION {
        sys := sys.(mode := mode);
      } else {
        rec := rec.(unlockStep := 0, unlocked := false);
      }
      return Ok;
    }

    method CalibrationUnlock(value: uint16) returns (st: Status)
      requires Valid()
      modifies this
      ensures Valid() && (abs, st) == Spec.Unlock(old(abs), value)
    {
      hide ChannelsAre;
      abs := Spec.Unlock(abs, value).0;
      if value == CAL_UNLOCK_STEP1 {
        rec := rec.(unlockStep := 1, unlocked := false);
        return Ok;
      }
      if value == CAL_UNLOCK_STEP2 && rec.unlockStep == 1 {
        rec := rec.(unlockStep := 0, unlocked := true);
        return Ok;
      }
      rec := rec.(unlockStep := 0, unlocked := false);
      return InvalidCommand;
    }

    method CalExit() returns (st: Status)
      requires Valid()
      modifies this, repr
      ensures Valid() && (abs, st) == Spec.CalExit(old(abs))
    {
      hide ChannelsAre, Spec.SetMode;
      if rec.mode != MODE_CALIBRATION {
        return InvalidCommand;
      }
      st := SetOperatingMode(rec.preCal);
    }

    method Tick(dt: uint32, rs: seq<Spec.Reading>)
      requires Valid()
      modifies this, repr
      ensures Valid() && abs == Spec.Tick(old(abs), dt, rs)
    {
      hide ChannelsAre, Spec.CalExit, Spec.RunChannels;
      if rec.mode == MODE_CALIBRATION {
        if dt >= rec.watchdog {
          var _ := CalExit();
        } else {
          rec := rec.(watchdog := rec.watchdog - dt);
          abs := abs.(watchdog := rec.watchdog);
        }
        return;
      }
      ghost var s := abs;
      RunChannels(dt, rs, sys.mode, s.chans);
      abs := Spec.Tick(s, dt, rs);
    }

    method CalHeartbeat()
      requires Valid()
      modifies this
      ensures Valid() && abs == Spec.Heartbeat(old(abs))
    {
      hide ChannelsAre;
      if rec.mode == MODE_CALIBRATION {
        rec := rec.(watchdog := Spec.WATCHDOG_MS);
        abs := Spec.Refresh(abs);
      }
    }

    // ---- One channel ----

    method ChannelOutputAction(k: nat, action: uint16) returns (st: Status)
      requires Valid()
      modifies this, repr
      ensures Valid() && (abs, st) == Spec.ChannelAction(old(abs), k, action)
    {
      hide ChannelSpec.OutputAction;
      if k >= |channels| {
        return UnsupportedChannel;
      }
      if rec.mode == MODE_CALIBRATION {
        return InvalidCommand;
      }
      ghost var cs := abs.chans;
      assert ChannelIs(k, cs[k]);
      st := channels[k].OutputAction(action);
      assert forall j :: 0 <= j < |channels| && j != k ==> ChannelIs(j, cs[j]);
      assert ChannelIs(k, ChannelSpec.OutputAction(cs[k], action).0);
      abs := Spec.ChannelAction(abs, k, action).0;
    }

    method ChannelFaultCommand(k: nat, cmd: uint16) returns (st: Status)
      requires Valid()
      modifies this, repr
      ensures Valid() && (abs, st) == Spec.ChannelFaultCommand(old(abs), k, cmd)
    {
      hide ChannelSpec.FaultCommand;
      if k >= |channels| {
        return UnsupportedChannel;
      }
      ghost var cs := abs.chans;
      assert ChannelIs(k, cs[k]);
      st := channels[k].FaultCommand(cmd);
      assert forall j :: 0 <= j < |channels| && j != k ==> ChannelIs(j, cs[j]);
      assert ChannelIs(k, ChannelSpec.FaultCommand(cs[k], cmd).0);
      abs := Spec.ChannelFaultCommand(abs, k, cmd).0;
    }

    // In AUTOMATIC mode a new non-zero target also starts a healthy channel.
    method ChannelSetField(k: nat, field: ConfigField, value: uint16) returns (st: Status)
      requires Valid()
      modifies this, repr
      ensures Valid() && (abs, st) == Spec.ChannelSetField(old(abs), k, field, value)
    {
      assert |abs.chans| == |channels|;
      hide ChannelSpec.SetField, ChannelSpec.OutputAction, ChannelsAre, Spec.ChannelSetField, Spec.WithChannel;
      SetFieldInSteps(abs, k, field, value);
      if k >= |channels| {
        return UnsupportedChannel;
      }
      st := WriteField(k, field, value);
      if st == Ok && field == ConfiguredTarget && rec.mode == MODE_AUTOMATIC && ToInt16(value) != 0 {
        StartIfHealthy(k);
      }
    }

    method WriteField(k: nat, field: ConfigField, value: uint16) returns (st: Status)
      requires Valid() && k < |channels|
      modifies this, repr
      ensures Valid()
      ensures var (c, st') := ChannelSpec.SetField(old(abs).chans[k], field, value);
              st == st' && abs == Spec.WithChannel(old(abs), k, c)
      ensures rec == old(rec)
    {
      hide ChannelSpec.SetField;
      ghost var cs := abs.chans;
      assert ChannelIs(k, cs[k]);
      st := channels[k].SetField(field, value);
      assert forall j :: 0 <= j < |channels| && j != k ==> ChannelIs(j, cs[j]);
      assert ChannelIs(k, ChannelSpec.SetField(cs[k], field, value).0);
      abs := Spec.WithChannel(abs, k, ChannelSpec.SetField(cs[k], field, value).0);
    }

    method StartIfHealthy(k: nat)
      requires Valid() && k < |channels|
      modifies this, repr
      ensures Valid()
      ensures var c := old(abs).chans[k];
              abs == if c.fault.active == {}
                     then Spec.WithChannel(old(abs), k, ChannelSpec.OutputAction(c, ACTION_ENABLE).0)
                     else old(abs)
    {
      hide ChannelSpec.OutputAction;
      ghost var cs := abs.chans;
      assert ChannelIs(k, cs[k]);
      if channels[k].fault.active == {} {
        var _ := channels[k].OutputAction(ACTION_ENABLE);
        abs := Spec.WithChannel(abs, k, ChannelSpec.OutputAction(cs[k], ACTION_ENABLE).0);
        assert forall j :: 0 <= j < |channels| && j != k ==> ChannelIs(j, cs[j]);
        assert ChannelIs(k, abs.chans[k]);
      }
    }

    method ConsumeFault(k: nat, cause: Faults)
      requires Valid()
      modifies this, repr
      ensures Valid() && abs == Spec.ChannelFault(old(abs), k, cause)
    {
      hide ChannelSpec.ConsumeFault;
      if k < |channels| {
        ghost var cs := abs.chans;
        assert ChannelIs(k, cs[k]);
        channels[k].ConsumeFault(cause);
        assert forall j :: 0 <= j < |channels| && j != k ==> ChannelIs(j, cs[j]);
        assert ChannelIs(k, ChannelSpec.ConsumeFault(cs[k], cause));
        abs := Spec.ChannelFault(abs, k, cause);
      }
    }

    // ---- Calibration session ----

    method CalWatchdogReset(st: Status)
      modifies this`rec
      ensures rec == if st == Ok then old(rec).(watchdog := Spec.WATCHDOG_MS) else old(rec)
    {
      if st == Ok {
        rec := rec.(watchdog := Spec.WATCHDOG_MS);
      }
    }

    method ChannelSetCalField(k: nat, field: CalField, value: uint16) returns (st: Status)
      requires Valid()
      modifies this, repr
      ensures Valid() && (abs, st) == Spec.ChannelSetCalField(old(abs), k, field, value)
    {
      assert |abs.chans| == |channels|;
      hide ChannelsAre, ChannelSpec.SetCalField;
      if k >= |channels| {
        return UnsupportedChannel;
      }
      if rec.mode != MODE_CALIBRATION {
        return InvalidCommand;
      }
      st := WriteCalField(k, field, value);
    }

    method WriteCalField(k: nat, field: CalField, value: uint16) returns (st: Status)
      requires Valid() && k < |channels|
      modifies this, repr
      ensures Valid()
      ensures var (c, st') := ChannelSpec.SetCalField(old(abs).chans[k], field, value);
              st == st' && abs == Spec.RefreshIf(Spec.WithChannel(old(abs), k, c), st)
    {
      hide ChannelSpec.SetCalField;
      ghost var s, cs := abs, abs.chans;
      assert ChannelIs(k, cs[k]);
      st := channels[k].SetCalField(field, value);
      CalWatchdogReset(st);
      assert forall j :: 0 <= j < |channels| && j != k ==> ChannelIs(j, cs[j]);
      assert ChannelIs(k, ChannelSpec.SetCalField(cs[k], field, value).0);
      abs := Spec.RefreshIf(Spec.WithChannel(s, k, ChannelSpec.SetCalField(cs[k], field, value).0), st);
    }

    method CalOutputEnable(k: nat, enable: bool) returns (st: Status)
      requires Valid()
      modifies this, repr
      ensures Valid() && (abs, st) == Spec.CalOutputEnable(old(abs), k, enable)
    {
      assert |abs.chans| == |channels|;
      hide ChannelsAre, ChannelSpec.CalSetOutputEnable, Spec.OtherBusy;
      if k >= |channels| {
        return UnsupportedChannel;
      }
      if rec.mode != MODE_CALIBRATION {
        return InvalidCommand;
      }
      if enable {
        var busy := OtherBusy(k, abs.chans);
        if busy {
          return UnsafeState;
        }
      }
      st := CalEnable(k, enable);
    }

    method CalEnable(k: nat, enable: bool) returns (st: Status)
      requires Valid() && k < |channels|
      modifies this, repr
      ensures Valid()
      ensures var (c, st') := ChannelSpec.CalSetOutputEnable(old(abs).chans[k], enable);
              st == st' && abs == Spec.RefreshIf(Spec.WithChannel(old(abs), k, c), st)
    {
      hide ChannelSpec.CalSetOutputEnable;
      ghost var s, cs := abs, abs.chans;
      assert ChannelIs(k, cs[k]);
      st := channels[k].CalSetOutputEnable(enable);
      CalWatchdogReset(st);
      assert forall j :: 0 <= j < |channels| && j != k ==> ChannelIs(j, cs[j]);
      assert ChannelIs(k, ChannelSpec.CalSetOutputEnable(cs[k], enable).0);
      abs := Spec.RefreshIf(Spec.WithChannel(s, k, ChannelSpec.CalSetOutputEnable(cs[k], enable).0), st);
    }

    method CalRawDac(k: nat, code: uint32) returns (st: Status)
      requires Valid()
      modifies this, repr
      ensures Valid() && (abs, st) == Spec.CalRawDac(old(abs), k, code)
    {
      hide ChannelSpec.CalSetRawDac;
      if k >= |channels| {
        return UnsupportedChannel;
      }
      if rec.mode != MODE_CALIBRATION {
        return InvalidCommand;
      }
      ghost var cs := abs.chans;
      assert ChannelIs(k, cs[k]);
      st := channels[k].CalSetRawDac(code);
      CalWatchdogReset(st);
      assert forall j :: 0 <= j < |channels| && j != k ==> ChannelIs(j, cs[j]);
      assert ChannelIs(k, ChannelSpec.CalSetRawDac(cs[k], code).0);
      abs := Spec.RefreshIf(Spec.WithChannel(abs, k, ChannelSpec.CalSetRawDac(cs[k], code).0), st);
    }

    method CalSample(k: nat, v: int32, i: int32) returns (st: Status)
      requires Valid()
      modifies this, repr
      ensures Valid() && (abs, st) == Spec.CalSampleChannel(old(abs), k, v, i)
    {
      hide ChannelSpec.CalSample;
      if k >= |channels| {
        return UnsupportedChannel;
      }
      if rec.mode != MODE_CALIBRATION {
        return InvalidCommand;
      }
      ghost var cs := abs.chans;
      assert ChannelIs(k, cs[k]);
      st := channels[k].CalSample(v, i);
      CalWatchdogReset(st);
      assert forall j :: 0 <= j < |channels| && j != k ==> ChannelIs(j, cs[j]);
      assert ChannelIs(k, ChannelSpec.CalSample(cs[k], v, i).0);
      abs := Spec.RefreshIf(Spec.WithChannel(abs, k, ChannelSpec.CalSample(cs[k], v, i).0), st);
    }

    // `stored` is the answer of the storage backend.
    method CalCommit(k: nat, stored: bool) returns (st: Status)
      requires Valid()
      modifies this
      ensures Valid() && (abs, st) == Spec.CalCommitChannel(old(abs), k, stored)
    {
      hide ChannelSpec.CalCommit;
      if k >= |channels| {
        return UnsupportedChannel;
      }
      if rec.mode != MODE_CALIBRATION {
        return InvalidCommand;
      }
      ghost var s := abs;
      assert ChannelIs(k, s.chans[k]);
      st := channels[k].CalCommit();
      if st != Ok {
        return;
      }
      rec := rec.(watchdog := Spec.WATCHDOG_MS);
      abs := Spec.CalCommitChannel(s, k, stored).0;
      if hasStorage {
        if !stored {
          return StorageError;
        }
        store := store.(cals := store.cals[k := channels[k].cal]);
      }
    }

    // ---- System configuration and storage ----

    method SetSystemConfig(cfg: SystemConfig) returns (st: Status)
      requires Valid()
      modifies this, repr
      ensures Valid() && (abs, st) == Spec.SetSystemConfig(old(abs), cfg)
    {
      hide ChannelsAre, Spec.SetMode;
      sys := if cfg.mode == MODE_CALIBRATION then cfg.(mode := sys.mode) else cfg;
      abs := abs.(sys := sys);
      if cfg.mode != rec.mode {
        st := SetOperatingMode(cfg.mode);
      } else {
        st := Ok;
      }
    }

    method SetSystemField(field: ConfigField, value: uint16) returns (st: Status)
      requires Valid()
      modifies this, repr
      ensures Valid() && (abs, st) == Spec.SetSystemField(old(abs), field, value)
    {
      hide ChannelsAre, Spec.SetMode, Spec.SetSystemConfig;
      match field {
        case OperatingMode => st := SetOperatingMode(value);
        case StartupChannelPolicy => st := SetSystemConfig(sys.(startupPolicy := value));
        case _ => return InvalidValue;
      }
    }

    method SystemParamAction(action: uint16, works: bool) returns (st: Status)
      requires Valid()
      modifies this, repr
      ensures Valid() && (abs, st) == Spec.SystemParam(old(abs), action, works)
    {
      hide ChannelsAre, Spec.SetSystemConfig;
      if action == PARAM_NONE {
        return Ok;
      }
      if action == PARAM_SAVE {
        if !hasStorage || !works {
          return StorageError;
        }
        store := store.(sys := Some(sys));
        abs := abs.(store := store);
        return Ok;
      }
      if action == PARAM_LOAD {
        if !hasStorage || !works {
          return StorageError;
        }
        if store.sys.None? {
          return Ok;
        }
        st := SetSystemConfig(store.sys.value);
        return;
      }
      if action == PARAM_FACTORY_RESET {
        abs := Spec.SystemParam(abs, action, works).0;
        if hasStorage && works {
          store := Spec.EMPTY_STORE;
        }
        sys := DefaultSystemConfig();
        rec := rec.(mode := MODE_NORMAL);
        return Ok;
      }
      return InvalidValue;
    }

    // Accepts `cfg` on channel `k` and then reloads its stored calibration.
    method Reconfigure(k: nat, cfg: Option<Config>, calWorks: bool) returns (st: Status)
      requires k < |channels| && Valid()
      modifies repr
      ensures Separate()
      ensures var cs := abs.chans;
              var (c, st') := if cfg.Some? then ChannelSpec.SetConfig(cs[k], cfg.value) else (cs[k], Ok);
              && st == st'
              && ChannelsAre(cs[k := if st == Ok then Spec.ReloadCal(abs, k, c, calWorks) else cs[k]])
    {
      hide ChannelSpec.SetConfig;
      ghost var cs := abs.chans;
      assert ChannelIs(k, cs[k]);
      ghost var c := cs[k];
      st := Ok;
      if cfg.Some? {
        c := ChannelSpec.SetConfig(c, cfg.value).0;
        st := channels[k].SetConfig(cfg.value);
        assert ChannelIs(k, c);
        RefusedConfigIsIgnored(cs[k], cfg.value);
      }
      if st == Ok && hasStorage && calWorks && k in store.cals {
        channels[k].LoadCal(store.cals[k]);
        c := ChannelSpec.LoadCal(c, store.cals[k]);
      }
      assert forall j :: 0 <= j < |channels| && j != k ==> ChannelIs(j, cs[j]);
      assert ChannelIs(k, c);
    }

    method ChannelParamAction(k: nat, action: uint16, works: bool, calWorks: bool) returns (st: Status)
      requires Valid()
      modifies this, repr
      ensures Valid() && (abs, st) == Spec.ChannelParam(old(abs), k, action, works, calWorks)
    {
      assert |abs.chans| == |channels|;
      hide ChannelSpec.SetConfig, Spec.ReloadCal, ChannelsAre;
      if k >= |channels| {
        return UnsupportedChannel;
      }
      if action == PARAM_NONE {
        return Ok;
      }
      ghost var s := abs;
      if action == PARAM_SAVE {
        if !hasStorage || !works {
          return StorageError;
        }
        SaveConfig(k);
        return Ok;
      }
      if action == PARAM_LOAD {
        if !hasStorage || !works {
          return StorageError;
        }
        assert s.chans[k := s.chans[k]] == s.chans;
        st := Reconfigure(k, if k in store.cfgs then Some(store.cfgs[k]) else None, calWorks);
        abs := Spec.ChannelParam(s, k, action, works, calWorks).0;
        return;
      }
      if action == PARAM_FACTORY_RESET {
        assert s.chans[k := s.chans[k]] == s.chans;
        st := Reconfigure(k, Some(DefaultConfig()), calWorks);
        abs := Spec.ChannelParam(s, k, action, works, calWorks).0;
        return;
      }
      return InvalidValue;
    }

    method SaveConfig(k: nat)
      requires Valid() && k < |channels| && hasStorage
      modifies this
      ensures Valid() && abs == Spec.ChannelParam(old(abs), k, PARAM_SAVE, true, true).0
    {
      assert ChannelIs(k, abs.chans[k]);
      store := store.(cfgs := store.cfgs[k := channels[k].cfg]);
      abs := abs.(store := store);
    }

    // `vc_controller_init` again over the same storage and devices.
    method Restart()
      requires Valid()
      modifies this, repr
      ensures Valid() && abs == Spec.Reboot(old(abs))
    {
      ghost var s := abs;
      InitChannels(s.chans);
      rec := ModeRecord(MODE_NORMAL, MODE_NORMAL, 0, 0, false);
      sys := DefaultSystemConfig();
      abs := Spec.Reboot(s);
    }

    method InitChannels(ghost cs: seq<ChannelSpec.State>)
      requires Separate() && CalibrationsOk() && ChannelsAre(cs)
      modifies repr
      ensures ChannelsAre(Spec.InitChannels(boards, cs))
    {
      hide ChannelSpec.Init;
      for i := 0 to |channels|
        invariant forall k :: 0 <= k < i ==> ChannelIs(k, Spec.InitChannel(boards[k], cs[k].dev))
        invariant forall k :: i <= k < |channels| ==> ChannelIs(k, cs[k])
      {
        assert ChannelIs(i, cs[i]);
        channels[i].Reinit(boards[i].cfg, boards[i].cal);
        assert ChannelIs(i, Spec.InitChannel(boards[i], cs[i].dev));
      }
    }

    // One command of the runtime's queue, one tick, one fault report.
    method Perform(e: Spec.Command) returns (st: Status)
      requires Valid()
      modifies this, repr
      ensures Valid() && (abs, st) == Spec.Do(old(abs), e)
    {
      hide Valid;
      st := Ok;
      match e {
        case TickAll(dt, rs) => Tick(dt, rs);
        case Mode(mode) => st := SetOperatingMode(mode);
        case UnlockWrite(value) => st := CalibrationUnlock(value);
        case Exit => st := CalExit();
        case Beat => CalHeartbeat();
        case Act(k, action) => st := ChannelOutputAction(k, action);
        case FaultCommandAt(k, cmd) => st := ChannelFaultCommand(k, cmd);
        case FieldAt(k, field, value) => st := ChannelSetField(k, field, value);
        case FaultAt(k, cause) => ConsumeFault(k, cause);
        case CalFieldAt(k, field, value) => st := ChannelSetCalField(k, field, value);
        case CalEnableAt(k, enable) => st := CalOutputEnable(k, enable);
        case CalDacAt(k, code) => st := CalRawDac(k, code);
        case CalSampleAt(k, v, i) => st := CalSample(k, v, i);
        case CalCommitAt(k, works) => st := CalCommit(k, works);
        case SystemConfigure(cfg) => st := SetSystemConfig(cfg);
        case SystemField(field, value) => st := SetSystemField(field, value);
        case SystemParams(action, works) => st := SystemParamAction(action, works);
        case ChannelParams(k, action, works, calWorks) => st := ChannelParamAction(k, action, works, calWorks);
        case Restart => Restart();
      }
    }
  }
}
