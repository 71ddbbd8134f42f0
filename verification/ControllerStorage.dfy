/**
  What the stored records keep over runs: committed calibrations, the system
  configuration, and nothing after an erase
  (lib/voltage_control/vc_controller.c:426-543, 607-634).
 */
module ControllerStorage {
  import opened CInt
  import opened VcTypes
  import opened Channel = ChannelSpec
  import opened ControllerSpec
  import opened ControllerInv
  import opened ControllerRuns
  import opened Wrappers

  // ---- Committed calibrations ----

  // A commit is accepted in calibration with the output released and no hard
  // fault; the record is written exactly then, when there is a working store.
  lemma CommitStoresExactly(s: Ctrl, k: nat, works: bool)
    ensures var (s', st) := CalCommitChannel(s, k, works);
            var allowed := k < |s.chans| && s.mode == MODE_CALIBRATION &&
                           s.chans[k].session == CalSession(0, false) && !HardFault(s.chans[k].fault.active);
            && (st == Ok <==> allowed && (s.hasStorage ==> works))
            && (st == StorageError <==> allowed && s.hasStorage && !works)
            && (s.hasStorage && st == Ok ==>
                  k in s'.store.cals && s'.store.cals[k] == s.chans[k].cal &&
                  forall j :: j != k ==> (j in s'.store.cals <==> j in s.store.cals) &&
                                         (j in s.store.cals ==> s'.store.cals[j] == s.store.cals[j]))
            && (!s.hasStorage || st != Ok ==> s'.store == s.store)
            && s'.store.cfgs == s.store.cfgs && s'.store.sys == s.store.sys && s'.chans == s.chans
  {
  }

  // The command may rewrite or erase the stored calibration of channel `k`.
  predicate TouchesCalibration(e: Command, k: nat) {
    || (e.CalCommitAt? && e.k == k)
    || (e.SystemParams? && e.param == PARAM_FACTORY_RESET)
  }

  // The commands that may write or erase a record.
  predicate Stores(e: Command) {
    || e.CalCommitAt?
    || (e.SystemParams? && (e.param == PARAM_SAVE || e.param == PARAM_FACTORY_RESET))
    || (e.ChannelParams? && e.param == PARAM_SAVE)
  }

  lemma OnlyStoresWrite(s: Ctrl, e: Command)
    requires !Stores(e)
    ensures var s' := Do(s, e).0;
            s'.hasStorage == s.hasStorage && s'.store == s.store
  {
    hide SetMode, RunChannels, SetConfig, CalCommit, LoadCal, InitChannels, SetSystemConfig;
    hide ChannelAction, ChannelFaultCommand, ChannelSetField, ChannelFault;
    hide ChannelSetCalField, CalOutputEnable, CalRawDac, CalSampleChannel;
    if ToOneChannel(e) {
      ToOneChannelFrame(s, e);
    } else {
      match e {
        case Mode(mode) => ModeKeepsStore(s, mode);
        case Exit => ModeKeepsStore(s, s.preCal);
        case TickAll(_, _) => ModeKeepsStore(s, s.preCal);
        case SystemConfigure(cfg) => ConfigureKeepsStore(s, cfg);
        case SystemField(_, value) =>
          ModeKeepsStore(s, value);
          ConfigureKeepsStore(s, s.sys.(startupPolicy := value));
        case SystemParams(_, _) => if s.store.sys.Some? { ConfigureKeepsStore(s, s.store.sys.value); }
        case _ =>
      }
    }
  }

  lemma CalibrationStep(s: Ctrl, e: Command, k: nat)
    requires !TouchesCalibration(e, k) && k in s.store.cals
    ensures var s' := Do(s, e).0;
            s'.hasStorage == s.hasStorage && k in s'.store.cals && s'.store.cals[k] == s.store.cals[k]
  {
    hide SetConfig, CalCommit;
    if !Stores(e) {
      OnlyStoresWrite(s, e);
    }
  }

  lemma {:induction false} CalibrationKept(s: Ctrl, es: seq<Command>, k: nat)
    requires k in s.store.cals && forall e | e in es :: !TouchesCalibration(e, k)
    ensures var s' := DoAll(s, es);
            s'.hasStorage == s.hasStorage && k in s'.store.cals && s'.store.cals[k] == s.store.cals[k]
  {
    hide Do, TouchesCalibration;
    if es != [] {
      var last := |es| - 1;
      assert es[last] in es;
      CalibrationKept(s, es[..last], k);
      CalibrationStep(DoAll(s, es[..last]), es[last], k);
    }
  }

  // In a reachable state a load with readable records succeeds.
  lemma LoadTakes(s: Ctrl, k: nat)
    requires CtrlInv(s, false) && s.hasStorage && k < |s.chans|
    ensures var (s', st) := ChannelParam(s, k, PARAM_LOAD, true, true);
            && st == Ok && |s'.chans| == |s.chans|
            && (k in s.store.cfgs ==> s'.chans[k].cfg == s.store.cfgs[k])
            && s'.chans[k].cal == (if k in s.store.cals then s.store.cals[k] else s.chans[k].cal)
  {
    hide CtrlInv, HwCode, HwEnable, SetConfig;
    if k in s.store.cfgs {
      LoadAccepted(s, k, true);
      ConfigKeepsCalibration(s.chans[k], s.store.cfgs[k]);
    }
  }

  lemma ConfigKeepsCalibration(c: State, cfg: Config)
    ensures SetConfig(c, cfg).0.cal == c.cal
  {
  }

  /**
    An accepted COMMIT, then any run (further sessions, other commits, saves,
    channel factory resets, restarts), then LOAD restores exactly the committed
    calibration.
   */
  lemma CommitRunLoad(s: Ctrl, k: nat, es: seq<Command>)
    requires CtrlInv(s, false) && s.hasStorage && CalCommitChannel(s, k, true).1 == Ok
    requires forall e | e in es :: !TouchesCalibration(e, k)
    ensures var (s3, st) := ChannelParam(DoAll(CalCommitChannel(s, k, true).0, es), k, PARAM_LOAD, true, true);
            st == Ok && k < |s3.chans| && s3.chans[k].cal == s.chans[k].cal
  {
    hide CtrlInv, Do, ChannelParam;
    var s1 := CalCommitChannel(s, k, true).0;
    CommitStoresExactly(s, k, true);
    CommitIsStep(s, k);
    DoKeeps(s, CalCommitAt(k, true), false);
    CalibrationKept(s1, es, k);
    InvOnEveryRun(s1, es, false);
    BoardsKept(s1, es);
    ChannelCount(s1);
    ChannelCount(DoAll(s1, es));
    LoadTakes(DoAll(s1, es), k);
  }

  lemma CommitIsStep(s: Ctrl, k: nat)
    ensures Do(s, CalCommitAt(k, true)) == CalCommitChannel(s, k, true)
  {
  }

  lemma ChannelCount(s: Ctrl)
    requires CtrlInv(s, false)
    ensures |s.chans| == |s.boards|
  {
  }

  // ---- The system configuration ----

  predicate TouchesSystemRecord(e: Command) {
    e.SystemParams? && (e.param == PARAM_SAVE || e.param == PARAM_FACTORY_RESET)
  }

  lemma {:induction false} SystemRecordKept(s: Ctrl, es: seq<Command>)
    requires forall e | e in es :: !TouchesSystemRecord(e)
    ensures DoAll(s, es).hasStorage == s.hasStorage && DoAll(s, es).store.sys == s.store.sys
  {
    hide Do, TouchesSystemRecord;
    if es != [] {
      var last := |es| - 1;
      assert es[last] in es;
      SystemRecordKept(s, es[..last]);
      SystemRecordStep(DoAll(s, es[..last]), es[last]);
    }
  }

  lemma SystemRecordStep(s: Ctrl, e: Command)
    requires !TouchesSystemRecord(e)
    ensures Do(s, e).0.hasStorage == s.hasStorage && Do(s, e).0.store.sys == s.store.sys
  {
    hide SetConfig, CalCommit;
    if !Stores(e) {
      OnlyStoresWrite(s, e);
    }
  }

  // The configuration is taken over whole; the mode follows it unless refused.
  lemma ConfigureTakes(s: Ctrl, cfg: SystemConfig)
    requires cfg.mode != MODE_CALIBRATION
    ensures var (s', st) := SetSystemConfig(s, cfg);
            && s'.sys == cfg
            && (st == Ok <==> s'.mode == cfg.mode)
            && (st == UnsafeState <==> cfg.mode != s.mode && ModeRefused(s, cfg.mode))
            && (st != Ok ==> s'.mode == s.mode && s'.chans == s.chans)
  {
    hide Transition, AnyFaulted;
  }

  /**
    System SAVE, any run that neither saves the system configuration again nor
    erases it, then LOAD: the saved configuration is back, and the controller
    is in the saved mode exactly when the load reports success.
   */
  lemma SystemSaveRunLoad(s: Ctrl, es: seq<Command>)
    requires s.hasStorage && s.sys.mode != MODE_CALIBRATION
    requires forall e | e in es :: !TouchesSystemRecord(e)
    ensures var (s1, saved) := SystemParam(s, PARAM_SAVE, true);
            var s2 := DoAll(s1, es);
            var (s3, st) := SystemParam(s2, PARAM_LOAD, true);
            && saved == Ok && s3.sys == s.sys
            && (st == Ok <==> s3.mode == s.sys.mode)
            && (st == UnsafeState <==> s.sys.mode != s2.mode && ModeRefused(s2, s.sys.mode))
            && s3.store == s2.store
  {
    hide DoAll, SetSystemConfig, ModeRefused;
    var s1 := SystemParam(s, PARAM_SAVE, true).0;
    SystemRecordKept(s1, es);
    ConfigureTakes(DoAll(s1, es), s.sys);
    ConfigureKeepsStore(DoAll(s1, es), s.sys);
  }

  // ---- Erasing ----

  lemma {:induction false} StoreKept(s: Ctrl, es: seq<Command>)
    requires forall e | e in es :: !Stores(e)
    ensures DoAll(s, es).hasStorage == s.hasStorage && DoAll(s, es).store == s.store
  {
    hide Do, Stores;
    if es != [] {
      var last := |es| - 1;
      assert es[last] in es;
      StoreKept(s, es[..last]);
      OnlyStoresWrite(DoAll(s, es[..last]), es[last]);
    }
  }

  /**
    After a system factory reset that could erase, and any run that stores
    nothing, the loads find nothing: they succeed and change nothing.
   */
  lemma ErasedLoadsNothing(s: Ctrl, es: seq<Command>, k: nat)
    requires s.hasStorage && forall e | e in es :: !Stores(e)
    ensures var (s1, st1) := SystemParam(s, PARAM_FACTORY_RESET, true);
            var s2 := DoAll(s1, es);
            && st1 == Ok && s1.sys == DefaultSystemConfig() && s1.mode == MODE_NORMAL && s1.chans == s.chans
            && SystemParam(s2, PARAM_LOAD, true) == (s2, Ok)
            && (k < |s2.chans| ==> ChannelParam(s2, k, PARAM_LOAD, true, true) == (s2, Ok))
  {
    hide DoAll, SetConfig;
    var s1 := SystemParam(s, PARAM_FACTORY_RESET, true).0;
    StoreKept(s1, es);
    var s2 := DoAll(s1, es);
    if k < |s2.chans| {
      assert s2.chans[k := s2.chans[k]] == s2.chans;
    }
  }

  // A factory reset of one channel: its defaults, and the committed calibration.
  lemma ChannelResetTakes(s: Ctrl, k: nat, works: bool)
    requires k < |s.chans|
    ensures var (s', st) := ChannelParam(s, k, PARAM_FACTORY_RESET, true, works);
            && (st == Ok <==> CapabilityAllows(s.chans[k].caps, s.chans[k].cfg, DefaultConfig()))
            && (st != Ok ==> st == UnsupportedCapability && s' == s)
            && (st == Ok ==>
                  && |s'.chans| == |s.chans| && s'.chans[k].cfg == DefaultConfig()
                  && s'.chans[k].cal == (if s.hasStorage && works && k in s.store.cals then s.store.cals[k]
                                         else s.chans[k].cal)
                  && s'.chans[k].drive == s.chans[k].drive && s'.chans[k].fault == s.chans[k].fault
                  && s' == s.(chans := s.chans[k := s'.chans[k]]))
  {
    hide HwCode, HwEnable;
  }

  // SAVE writes the record of that channel and no other.
  lemma SaveStoresExactly(s: Ctrl, k: nat, works: bool, calWorks: bool)
    requires k < |s.chans|
    ensures var (s', st) := ChannelParam(s, k, PARAM_SAVE, works, calWorks);
            && (st == Ok <==> s.hasStorage && works)
            && (st != Ok ==> st == StorageError && s' == s)
            && (st == Ok ==> s'.store.cfgs == s.store.cfgs[k := s.chans[k].cfg] && s'.store.cals == s.store.cals)
  {
  }
}
