/**
  The retry log across initialisations. The firmware empties its buffer when it
  initialises again, so a history that survives restarts is kept here, and the
  rate limit holds of it exactly when the window has passed at each restart
  (lib/voltage_control/vc_channel.c:351-431, 454-481).
 */
module ControllerHistory {
  import opened CInt
  import opened VcTypes
  import opened Channel = ChannelSpec
  import opened ChannelSafety
  import opened ChannelRetry
  import opened ChannelRetryRuns
  import opened ControllerSpec
  import opened ControllerTrace
  import ControllerChannels

  function Shift(offset: nat, log: seq<nat>): seq<nat> {
    seq(|log|, i requires 0 <= i < |log| => offset + log[i])
  }

  // Uptime since power-on, and all retries in it.
  datatype History = History(now: nat, log: seq<nat>)

  // A history that ended when the channel was initialised, and the channel's own.
  function Upto(p: History, c: State): History {
    History(p.now + c.now, p.log + Shift(p.now, c.log))
  }

  // The last retry is outside the window by now.
  predicate Settled(h: History, window: nat) {
    h.log == [] || h.now - h.log[|h.log| - 1] > window * 1000
  }

  predicate Ordered(h: History) {
    Sorted(h.log) && forall i :: 0 <= i < |h.log| ==> h.log[i] <= h.now
  }

  lemma UptoOrdered(p: History, c: State)
    requires Ordered(p) && RetryInv(c)
    ensures Ordered(Upto(p, c))
  {
    var h := Upto(p, c);
    var n := |p.log|;
    assert forall i :: 0 <= i < |c.log| ==> h.log[n + i] == p.now + c.log[i];
    assert forall i :: 0 <= i < n ==> h.log[i] == p.log[i];
  }

  // Two spaced parts are spaced together when the first one has settled.
  lemma Join(p: History, c: State, from: nat, segment: nat, window: nat, limit: nat)
    requires Ordered(p) && Settled(p, window)
    requires Spaced(p.log, from, window, limit) && Spaced(c.log, segment, window, limit)
    requires segment == 0 || (p.log == [] && segment == from)
    ensures Spaced(Upto(p, c).log, from, window, limit)
  {
    var log, n := Upto(p, c).log, |p.log|;
    forall j | from <= j < |log| && limit <= j
      ensures log[j] - log[j - limit] > window * 1000
    {
      if j < n {
        assert log[j] == p.log[j] && log[j - limit] == p.log[j - limit];
      } else {
        assert log[j] == p.now + c.log[j - n];
        if j - limit >= n {
          assert log[j - limit] == p.now + c.log[j - limit - n];
          assert c.log[j - n] - c.log[j - n - limit] > window * 1000;
        } else {
          assert log[j - limit] == p.log[j - limit] <= p.log[n - 1];
        }
      }
    }
  }

  // ---- One restart, exactly ----

  /**
    Whatever events follow the restart of `c` into this devicetree
    configuration: as long as the channel stays configured within window and
    limit, the retries before and after the restart are spaced together.
   */
  ghost predicate LimitSpansRestart(c: State, cfg: Config, cal: Calibration, window: nat, limit: nat) {
    forall es: seq<Event> ::
      Configures(Reinit(c, cfg, cal), es, window, limit) ==>
        Spaced(Upto(History(c.now, c.log), Exec(Reinit(c, cfg, cal), es)).log, |c.log|, window, limit)
  }

  lemma ReinitRetry(c: State, cfg: Config, cal: Calibration)
    ensures RetryInv(Reinit(c, cfg, cal)) && Reinit(c, cfg, cal).log == [] && Reinit(c, cfg, cal).now == 0
  {
  }

  // A stored calibration and a stored configuration are loaded.
  function Loads(base: Config, measures: bool, limit: uint16, window: uint16): seq<Event> {
    [CalLoad(UNIT_GAIN), Configure(Eagerly(base, measures, limit, window))]
  }

  lemma LoadsCycle(c: State, limit: uint16, window: uint16)
    requires Consistent(c.caps, c.cfg) && RetryInv(c)
    requires c == Init(c.caps, c.cfg, c.cal).(dev := c.dev)
    ensures var c' := Exec(c, Loads(c.cfg, c.caps.current, limit, window));
            && Cycling(c', limit, window, 0) && c'.caps == c.caps
            && c'.cfg == Eagerly(c.cfg, c.caps.current, limit, window)
  {
    hide Exec, HwCode, HwEnable, SetConfig, RetryInv;
    var es := Loads(c.cfg, c.caps.current, limit, window);
    ExecAppend(c, [], es[0]);
    ExecAppend(c, [es[0]], es[1]);
    assert Exec(c, []) == c by { ExecNothing(c); }
    assert [] + [es[0]] == [es[0]] && [es[0]] + [es[1]] == es;
    var c1 := LoadCal(c, UNIT_GAIN);
    EagerlyAccepted(c1, limit, window);
    var c2 := ApplyHw(c1.(cfg := Eagerly(c.cfg, c.caps.current, limit, window)));
    assert Exec(c, es) == c2;
    SameLog(c, c2);
    assert seq(0, _ => 0) == [];
  }

  lemma ExecNothing(c: State)
    ensures Exec(c, []) == c
  {
  }

  lemma SameLog(c: State, c': State)
    requires RetryInv(c) && c'.retries == c.retries && c'.log == c.log && c'.now == c.now && c'.uptime == c.uptime
    ensures RetryInv(c')
  {
  }

  // While the records are loaded, the configuration is the old or the new one.
  lemma LoadsConfigure(c: State, limit: uint16, window: uint16)
    requires Consistent(c.caps, c.cfg) && RetryInv(c) && Within(c.cfg, window, limit)
    requires c == Init(c.caps, c.cfg, c.cal).(dev := c.dev)
    ensures var es := Loads(c.cfg, c.caps.current, limit, window) + Cycles(c.caps.current, limit);
            && Configures(c, es, window, limit)
            && Exec(c, es).log == seq(limit, _ => 0)
  {
    hide Exec, RetryInv, Cycles, Cycling;
    var loads, cycles := Loads(c.cfg, c.caps.current, limit, window), Cycles(c.caps.current, limit);
    var c' := Exec(c, loads);
    LoadsCycle(c, limit, window);
    UnlimitedRetries(c', limit, window, limit);
    CyclingFacts(Exec(c', cycles), limit, window, limit);
    CyclingFacts(c', limit, window, 0);
    ExecConcat(c, loads, cycles);
    forall n | 0 <= n < |loads + cycles|
      ensures Within(Exec(c, (loads + cycles)[..n]).cfg, window, limit)
    {
      if n < 2 {
        assert (loads + cycles)[..n] == if n == 0 then [] else [CalLoad(UNIT_GAIN)];
        ConfigKept(c, (loads + cycles)[..n]);
      } else {
        assert (loads + cycles)[..n] == loads + cycles[..n - 2];
        ExecConcat(c, loads, cycles[..n - 2]);
        ConfigKept(c', cycles[..n - 2]);
      }
    }
  }

  lemma CyclingFacts(c: State, limit: uint16, window: uint16, n: nat)
    requires Cycling(c, limit, window, n)
    ensures c.cfg.retryWindow == window && c.cfg.retryMax == limit && c.log == seq(n, _ => 0)
  {
  }

  // Records are loaded after the restart, and `limit` retries follow at once.
  lemma BurstAfterRestart(c: State, cfg: Config, cal: Calibration, limit: uint16, window: uint16)
    requires Consistent(c.caps, cfg) && Within(cfg, window, limit)
    requires 0 < limit && !Settled(History(c.now, c.log), window)
    ensures !LimitSpansRestart(c, cfg, cal, window, limit)
  {
    hide Exec, RetryInv, Cycles, Loads, Consistent, Within;
    var c1 := Reinit(c, cfg, cal);
    ReinitRetry(c, cfg, cal);
    LoadsConfigure(c1, limit, window);
    var es := Loads(cfg, c.caps.current, limit, window) + Cycles(c.caps.current, limit);
    var log := Upto(History(c.now, c.log), Exec(c1, es)).log;
    var j := |c.log| + limit - 1;
    assert log[j] == c.now && log[j - limit] == c.log[|c.log| - 1];
  }

  lemma SpansWhenSettled(c: State, cfg: Config, cal: Calibration, es: seq<Event>, window: nat, limit: nat)
    requires RetryInv(c) && limit <= MAX_RETRY_HISTORY
    requires limit == 0 || Settled(History(c.now, c.log), window)
    requires Configures(Reinit(c, cfg, cal), es, window, limit)
    ensures Spaced(Upto(History(c.now, c.log), Exec(Reinit(c, cfg, cal), es)).log, |c.log|, window, limit)
  {
    hide Exec, Reinit;
    var c1, p := Reinit(c, cfg, cal), History(c.now, c.log);
    ReinitRetry(c, cfg, cal);
    SpacingOnEveryRun(c1, es, 0, window, limit);
    if limit == 0 {
      NoneWithoutLimit(Exec(c1, es).log, window, limit);
    } else {
      Join(p, Exec(c1, es), |c.log|, 0, window, limit);
    }
  }

  // A run that starts outside window and limit has no first event.
  lemma NothingOutside(c: State, es: seq<Event>, window: nat, limit: nat)
    ensures es != [] && !Within(c.cfg, window, limit) ==> !Configures(c, es, window, limit)
  {
    hide Within;
    if es != [] && !Within(c.cfg, window, limit) {
      assert es[..0] == [] && Exec(c, es[..0]) == c;
    }
  }

  /**
    For every channel and every devicetree configuration (the defaults have
    limit zero): the rate limit spans a restart, whatever follows within window
    and limit, if and only if the limit is zero, or the last retry is outside
    the window when the restart happens, or the devicetree configuration is
    itself outside window and limit.
   */
  lemma LimitSpansRestartExactly(c: State, cfg: Config, cal: Calibration, window: uint16, limit: uint16)
    requires RetryInv(c) && limit <= MAX_RETRY_HISTORY && Consistent(c.caps, cfg)
    ensures LimitSpansRestart(c, cfg, cal, window, limit) <==>
            limit == 0 || Settled(History(c.now, c.log), window) || !Within(cfg, window, limit)
  {
    hide Exec, Settled, Within, Consistent;
    if limit == 0 || Settled(History(c.now, c.log), window) {
      forall es: seq<Event> | Configures(Reinit(c, cfg, cal), es, window, limit)
        ensures Spaced(Upto(History(c.now, c.log), Exec(Reinit(c, cfg, cal), es)).log, |c.log|, window, limit)
      {
        SpansWhenSettled(c, cfg, cal, es, window, limit);
      }
    } else if !Within(cfg, window, limit) {
      var c1 := Reinit(c, cfg, cal);
      forall es: seq<Event> | Configures(c1, es, window, limit)
        ensures Spaced(Upto(History(c.now, c.log), Exec(c1, es)).log, |c.log|, window, limit)
      {
        NothingOutside(c1, es, window, limit);
        ExecNothing(c1);
      }
    } else {
      BurstAfterRestart(c, cfg, cal, limit, window);
    }
  }

  lemma NoneWithoutLimit(log: seq<nat>, window: nat, limit: nat)
    ensures limit == 0 && log != [] ==> !Spaced(log, 0, window, limit)
  {
    if limit == 0 && log != [] {
      assert log[0] - log[0 - limit] == 0;
    }
  }

  // ---- Controller runs with restarts ----

  // The history of channel `k` up to its last restart.
  function Past(s: Ctrl, es: seq<Command>, k: nat): History {
    if es == [] then History(0, [])
    else
      var last := |es| - 1;
      var before := Past(s, es[..last], k);
      var cs := DoAll(s, es[..last]).chans;
      if es[last] == Restart && k < |cs| then Upto(before, cs[k]) else before
  }

  // The whole history of channel `k`, through all restarts.
  function Whole(s: Ctrl, es: seq<Command>, k: nat): History {
    var cs := DoAll(s, es).chans;
    if k < |cs| then Upto(Past(s, es, k), cs[k]) else Past(s, es, k)
  }

  predicate Restarted(es: seq<Command>) {
    exists n :: 0 <= n < |es| && es[n] == Restart
  }

  lemma PastNext(s: Ctrl, es: seq<Command>, e: Command, k: nat)
    requires k < |DoAll(s, es).chans|
    ensures var p := Past(s, es, k);
            Past(s, es + [e], k) == if e == Restart then Upto(p, DoAll(s, es).chans[k]) else p
  {
    hide DoAll;
    assert (es + [e])[..|es|] == es;
  }

  lemma DoAllNext(s: Ctrl, es: seq<Command>, e: Command)
    ensures DoAll(s, es + [e]) == Do(DoAll(s, es), e).0
  {
    hide Do;
    assert (es + [e])[..|es|] == es;
  }

  lemma NothingSinceInit(h: History, c: State)
    requires c.log == [] && c.now == 0
    ensures Upto(h, c) == h
  {
    assert h.log + Shift(h.now, []) == h.log;
  }

  // A restart itself neither adds to the history nor loses any of it.
  lemma RestartKeepsHistory(s: Ctrl, es: seq<Command>, k: nat)
    requires |DoAll(s, es).chans| == |DoAll(s, es).boards| && k < |DoAll(s, es).chans|
    ensures Whole(s, es + [Restart], k) == Whole(s, es, k)
  {
    hide DoAll, Do, Past, Upto;
    PastNext(s, es, Restart, k);
    DoAllNext(s, es, Restart);
    RebootedChannel(DoAll(s, es), k);
    NothingSinceInit(Whole(s, es, k), DoAll(s, es + [Restart]).chans[k]);
  }

  // Every restart finds the window passed since the channel's last retry.
  ghost predicate RestartsSettled(s: Ctrl, es: seq<Command>, k: nat, window: nat) {
    forall n :: 0 <= n < |es| && es[n] == Restart ==> Settled(Whole(s, es[..n], k), window)
  }

  // What a run keeps of the two parts of the history.
  ghost predicate Parts(p: History, c: State, restarted: bool, from: nat, window: nat, limit: nat) {
    && RetryInv(c) && Ordered(p) && Settled(p, window)
    && Spaced(p.log, from, window, limit)
    && Spaced(c.log, if restarted then 0 else from, window, limit)
    && (!restarted ==> p.log == [])
  }

  lemma RestartParts(p: History, c: State, c': State, restarted: bool, from: nat, window: nat, limit: nat)
    requires Parts(p, c, restarted, from, window, limit) && Settled(Upto(p, c), window)
    requires RetryInv(c') && c'.log == []
    ensures Parts(Upto(p, c), c', true, from, window, limit)
  {
    Join(p, c, from, if restarted then 0 else from, window, limit);
    UptoOrdered(p, c);
  }

  lemma CommandParts(s: Ctrl, e: Command, k: nat, p: History, restarted: bool, from: nat, window: nat, limit: nat)
    requires k < |s.chans| && e != Restart && limit <= MAX_RETRY_HISTORY
    requires Parts(p, s.chans[k], restarted, from, window, limit)
    requires Within(s.chans[k].cfg, window, limit)
    requires var cs := Do(s, e).0.chans;
             k < |cs| && Within(cs[k].cfg, window, limit)
    ensures Parts(p, Do(s, e).0.chans[k], restarted, from, window, limit)
  {
    hide Do, Trace, Exec, RetryInv, Spaced, Ordered, Settled;
    var tr := Trace(s, e, k);
    CommandRuns(s, e, k);
    ControllerChannels.TraceWritesFirst(s, e, k);
    forall n | 0 <= n < |tr|
      ensures Within(Exec(s.chans[k], tr[..n]).cfg, window, limit)
    {
      ControllerChannels.ConfigBeforeOrAfter(s.chans[k], tr, n);
    }
    SpacingOnEveryRun(s.chans[k], tr, if restarted then 0 else from, window, limit);
    RetryInvOnEveryRun(s.chans[k], tr);
  }

  lemma RebootedChannel(s: Ctrl, k: nat)
    requires k < |s.boards|
    ensures var cs := Do(s, Restart).0.chans;
            k < |cs| && RetryInv(cs[k]) && cs[k].log == [] && cs[k].now == 0
  {
  }

  lemma {:induction false} PartsOnEveryRun(s: Ctrl, es: seq<Command>, k: nat, window: nat, limit: nat)
    requires |s.chans| == |s.boards| && k < |s.chans| && limit <= MAX_RETRY_HISTORY
    requires RetryInv(s.chans[k])
    requires ControllerChannels.ConfiguresChannel(s, es, k, window, limit) && RestartsSettled(s, es, k, window)
    ensures var cs := DoAll(s, es).chans;
            && |cs| == |s.chans|
            && Parts(Past(s, es, k), cs[k], Restarted(es), |s.chans[k].log|, window, limit)
  {
    hide Do, DoAll, Past, Parts, Settled, RetryInv, Within, Restarted;
    if es == [] {
      NoParts(s.chans[k], window, limit);
      NothingYet(s, k);
    } else {
      var last := |es| - 1;
      var before := es[..last];
      assert forall n | 0 <= n <= last :: before[..n] == es[..n];
      PartsOnEveryRun(s, before, k, window, limit);
      assert before + [es[last]] == es && es[..|es|] == es && es[..last] == before;
      PartsNext(s, before, es[last], k, |s.chans[k].log|, window, limit);
    }
  }

  lemma NothingYet(s: Ctrl, k: nat)
    ensures DoAll(s, []) == s && Past(s, [], k) == History(0, []) && !Restarted([])
  {
  }

  lemma RestartedNext(es: seq<Command>, e: Command)
    ensures Restarted(es + [e]) <==> Restarted(es) || e == Restart
  {
    assert (es + [e])[|es|] == e;
    if n :| 0 <= n < |es| && es[n] == Restart {
      assert (es + [e])[n] == Restart;
    }
  }

  // One more command.
  lemma PartsNext(s: Ctrl, es: seq<Command>, e: Command, k: nat, from: nat, window: nat, limit: nat)
    requires |s.chans| == |s.boards| && k < |s.chans| && limit <= MAX_RETRY_HISTORY
    requires |DoAll(s, es).chans| == |s.chans|
    requires Parts(Past(s, es, k), DoAll(s, es).chans[k], Restarted(es), from, window, limit)
    requires Within(DoAll(s, es).chans[k].cfg, window, limit)
    requires var cs := DoAll(s, es + [e]).chans;
             k < |cs| && Within(cs[k].cfg, window, limit)
    requires e == Restart ==> Settled(Whole(s, es, k), window)
    ensures var cs := DoAll(s, es + [e]).chans;
            && |cs| == |s.chans|
            && Parts(Past(s, es + [e], k), cs[k], Restarted(es + [e]), from, window, limit)
  {
    hide Do, DoAll, Past, Parts, Settled, RetryInv, Within, Restarted, Upto;
    var t, p := DoAll(s, es), Past(s, es, k);
    PastNext(s, es, e, k);
    DoAllNext(s, es, e);
    RestartedNext(es, e);
    ControllerChannels.ChannelCountOnEveryRun(s, es, k);
    ControllerChannels.ChannelCountOnEveryRun(s, es + [e], k);
    if e == Restart {
      RebootedChannel(t, k);
      RestartParts(p, t.chans[k], Do(t, Restart).0.chans[k], Restarted(es), from, window, limit);
    } else {
      CommandParts(t, e, k, p, Restarted(es), from, window, limit);
    }
  }

  lemma NoParts(c: State, window: nat, limit: nat)
    requires RetryInv(c)
    ensures Parts(History(0, []), c, false, |c.log|, window, limit)
  {
  }

  /**
    The rate limit in every run of a controller, restarts included: while
    channel `k` stays configured within window and limit and every restart
    finds its last retry outside the window, any limit + 1 consecutive retries
    of its whole history span more than the window.
   */
  lemma RateLimitAcrossRestarts(s: Ctrl, es: seq<Command>, k: nat, window: nat, limit: nat)
    requires |s.chans| == |s.boards| && k < |s.chans| && limit <= MAX_RETRY_HISTORY
    requires RetryInv(s.chans[k])
    requires ControllerChannels.ConfiguresChannel(s, es, k, window, limit) && RestartsSettled(s, es, k, window)
    ensures Spaced(Whole(s, es, k).log, |s.chans[k].log|, window, limit)
  {
    hide DoAll, Past;
    PartsOnEveryRun(s, es, k, window, limit);
    Join(Past(s, es, k), DoAll(s, es).chans[k], |s.chans[k].log|,
         if Restarted(es) then 0 else |s.chans[k].log|, window, limit);
  }
}
