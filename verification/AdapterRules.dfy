/**
  What every run of the adapter keeps, with failed saves, loads and server
  starts anywhere (lib/modbus_adapter/modbus_adapter.c).
 */
module AdapterRules {
  import opened CInt
  import opened AdapterSpec
  import opened Wrappers

  /**
    The persisted configuration is the one for the next boot, both
    configurations are valid, and a running server runs the active one.
   */
  predicate Ready(s: State) {
    && s.present
    && s.stored == Some(s.boot)
    && Valid(s.boot) && Valid(s.active)
    && (s.server.Some? ==> s.iface && s.server.value == s.active)
  }

  predicate Creates(e: Event) {
    e.ECreate? || e.EStart?
  }

  // The creation in `e`, from state `s`, delivers an adapter.
  predicate Delivers(s: State, e: Event) {
    Creates(e) && (LoadIsValid(s, e.loads) || e.saves)
  }

  lemma StepKeepsReady(s: State, e: Event)
    requires Ready(s) && !Creates(e)
    ensures Ready(Step(s, e).0)
  {
  }

  // A creation that delivers starts from the persisted configuration, or else
  // persists the default and starts from that.
  lemma CreationIsReady(s: State, e: Event)
    requires Delivers(s, e) && (e.ECreate? ==> s.server.None?)
    ensures var s' := Step(s, e).0;
            && Ready(s') && s'.active == s'.boot
            && (LoadIsValid(s, e.loads) ==> s'.boot == s.stored.value && s'.stored == s.stored)
            && (!LoadIsValid(s, e.loads) ==> s'.boot == DEFAULT)
  {
  }

  // Every creation of the run delivers (and none is made under a running server).
  ghost predicate AllDeliver(s: State, es: seq<Event>) {
    forall n :: 0 <= n < |es| && Creates(es[n]) ==>
      Delivers(Exec(s, es[..n]), es[n]) && (es[n].ECreate? ==> Exec(s, es[..n]).server.None?)
  }

  /**
    After a creation that delivered, whatever is written, saved, loaded or
    reset and whichever saves and restarts fail, the adapter stays ready.
   */
  lemma {:induction false} ReadyOnEveryRun(s: State, es: seq<Event>)
    requires es != [] && Creates(es[0]) && AllDeliver(s, es)
    ensures Ready(Exec(s, es))
  {
    hide Ready, Step, Delivers;
    var last := |es| - 1;
    var before := es[..last];
    assert forall n | 0 <= n < last :: before[n] == es[n] && before[..n] == es[..n];
    if before != [] {
      ReadyOnEveryRun(s, before);
    }
    if Creates(es[last]) {
      CreationIsReady(Exec(s, before), es[last]);
    } else {
      StepKeepsReady(Exec(s, before), es[last]);
    }
  }

  // A later creation that can read its record makes the next-boot
  // configuration the active one.
  lemma CreationAppliesNextBoot(s: State, e: Event)
    requires Ready(s) && Creates(e) && e.loads
    ensures Step(s, e).0.active == s.boot == Step(s, e).0.boot
  {
  }

  // Writes that are about the next boot only.
  predicate AboutNextBoot(e: Event) {
    e.EWriteNextBoot? || e.ESave? || e.EParamAction?
  }

  // No run of them changes what is active or what the server runs.
  lemma {:induction false} NextBootLeavesActive(s: State, es: seq<Event>)
    requires forall e | e in es :: AboutNextBoot(e)
    ensures Exec(s, es).active == s.active && Exec(s, es).server == s.server
  {
    if es != [] {
      assert es[|es| - 1] in es;
      NextBootLeavesActive(s, es[..|es| - 1]);
    }
  }

  // Changes of the active configuration alone.
  predicate AboutActive(e: Event) {
    e.ESetAddress? || e.ESetBaudCode?
  }

  // No run of them, working or failing, changes the next boot.
  lemma {:induction false} ActiveLeavesNextBoot(s: State, es: seq<Event>)
    requires forall e | e in es :: AboutActive(e)
    ensures Exec(s, es).boot == s.boot && Exec(s, es).stored == s.stored
  {
    if es != [] {
      assert es[|es| - 1] in es;
      ActiveLeavesNextBoot(s, es[..|es| - 1]);
    }
  }

  /**
    An accepted write for the next boot survives everything that is about the
    active configuration and takes effect at the next start.
   */
  lemma NextBootTakesEffect(s: State, field: NextField, value: uint16, es: seq<Event>, e: Event)
    requires Ready(s) && WriteNextBoot(s, field, value, true).1 == Ok
    requires (forall d | d in es :: AboutActive(d)) && e.EStart? && e.loads
    ensures var s1 := WriteNextBoot(s, field, value, true).0;
            var c := Step(Exec(s1, es), e).0.active;
            if field == NextAddress then c == s.boot.(address := value) else c == s.boot.(baudCode := value)
  {
    hide Ready, Step;
    var s1 := WriteNextBoot(s, field, value, true).0;
    assert s1 == Step(s, EWriteNextBoot(field, value, true)).0 by { WriteIsStep(s, field, value); }
    StepKeepsReady(s, EWriteNextBoot(field, value, true));
    ActiveLeavesNextBoot(s1, es);
    ActiveKeepsReady(s1, es);
    CreationAppliesNextBoot(Exec(s1, es), e);
  }

  lemma WriteIsStep(s: State, field: NextField, value: uint16)
    ensures WriteNextBoot(s, field, value, true) == Step(s, EWriteNextBoot(field, value, true))
  {
  }

  lemma {:induction false} ActiveKeepsReady(s: State, es: seq<Event>)
    requires Ready(s) && forall e | e in es :: AboutActive(e)
    ensures Ready(Exec(s, es))
  {
    hide Ready, Step;
    if es != [] {
      assert es[|es| - 1] in es;
      ActiveKeepsReady(s, es[..|es| - 1]);
      StepKeepsReady(Exec(s, es[..|es| - 1]), es[|es| - 1]);
    }
  }

  // ---- Which requests are accepted, and what they do ----

  /**
    Accepted are exactly: addresses 1 to 247 and the four baud codes, active
    ones only if the server comes up with them and next-boot ones only if they
    are saved; saves and loads that the store performs; and what is delegated.
   */
  lemma AcceptedExactly(s: State, e: Event)
    requires Ready(s) && !Creates(e)
    ensures Step(s, e).1 == Ok <==>
            match e
            case ESetAddress(address, starts, _) => 1 <= address <= 247 && (s.iface ==> starts)
            case ESetBaudCode(code, starts, _) => code <= 3 && (s.iface ==> starts)
            case EWriteNextBoot(field, value, saves) =>
              saves && ((field == NextAddress && 1 <= value <= 247) || (field == NextBaudCode && value <= 3))
            case ESave(saves) => saves
            case ELoad(loads, starts, _) => loads && (s.iface ==> starts)
            case EFactory(saves, starts, _) => saves && (s.iface ==> starts)
            case EParamAction(action, loads, saves) =>
              (action == PARAM_LOAD ==> loads) && (action == PARAM_FACTORY_RESET ==> saves)
            case _ => false
  {
  }

  /**
    An accepted request changes exactly one field of one configuration, or
    makes the two agree, or restores the default; the server runs what became
    active, and the store holds what is for the next boot.
   */
  lemma AcceptedTakesEffect(s: State, e: Event)
    requires Ready(s) && !Creates(e) && Step(s, e).1 == Ok
    ensures var s' := Step(s, e).0;
            && s'.active == (match e
                             case ESetAddress(address, _, _) => Config(address, s.active.baudCode)
                             case ESetBaudCode(code, _, _) => Config(s.active.address, code)
                             case ELoad(_, _, _) => s.boot
                             case EFactory(_, _, _) => DEFAULT
                             case _ => s.active)
            && s'.boot == (match e
                           case EWriteNextBoot(field, value, _) =>
                             if field == NextAddress then Config(value, s.boot.baudCode)
                             else Config(s.boot.address, value)
                           case ESave(_) => s.active
                           case EFactory(_, _, _) => DEFAULT
                           case EParamAction(action, _, _) => if action == PARAM_FACTORY_RESET then DEFAULT else s.boot
                           case _ => s.boot)
            && s'.stored == Some(s'.boot)
            && s'.server == (if Restarts(s, e) then Some(s'.active) else s.server)
            && s'.present && s'.iface == s.iface
  {
  }

  // A parameter load takes the stored record over, whatever it is by then, if
  // it can be read and is valid, and otherwise changes nothing.
  lemma ParamLoadTakes(s: State, loads: bool, saves: bool)
    requires s.present
    ensures var (s', st) := ParamAction(s, PARAM_LOAD, loads, saves);
            && (st == Ok <==> loads && s.stored.Some? && Valid(s.stored.value))
            && (st == Ok ==> s'.boot == s.stored.value && s' == s.(boot := s'.boot))
            && (st != Ok ==> s' == s)
  {
  }

  // The same with the server: active and next boot become the stored record
  // together, and a failed load leaves both.
  lemma LoadTakes(s: State, loads: bool, starts: bool, restarts: bool)
    requires s.present
    ensures var (s', st) := Load(s, loads, starts, restarts);
            && (st == Ok <==> LoadIsValid(s, loads) && (s.iface ==> starts))
            && (st == Ok ==> s'.active == s'.boot == s.stored.value)
            && (st != Ok ==> s'.active == s.active && s'.boot == s.boot)
            && s'.stored == s.stored
  {
  }

  // A start succeeds exactly when an adapter is delivered, the interface is
  // there and the server comes up; it then runs the active configuration.
  lemma StartServesExactly(s: State, loads: bool, saves: bool, found: bool, starts: bool)
    ensures var (s', st) := Start(s, loads, saves, found, starts);
            && (st == Ok <==> (LoadIsValid(s, loads) || saves) && found && starts)
            && (st == Ok ==> Ready(s') && s'.iface && s'.server == Some(s'.active))
            && (st != Ok ==> s'.server.None?)
  {
  }

  // ---- Errors ----

  predicate SameConfigs(s: State, s': State) {
    s'.active == s.active && s'.boot == s.boot && s'.stored == s.stored
  }

  /**
    A refused request leaves all three configurations as they were, except a
    factory reset that was persisted before the server failed to restart.
   */
  lemma RefusedChangesNothingExactly(s: State, e: Event)
    requires Ready(s) && !Creates(e) && Step(s, e).1 != Ok
    ensures SameConfigs(s, Step(s, e).0) <==> !(e.EFactory? && e.saves && s.boot != DEFAULT)
  {
  }

  // The server is down after a request exactly when it was restarted and both
  // starts failed, or it was down and not restarted.
  lemma ServerDownExactly(s: State, e: Event)
    requires Ready(s) && !Creates(e)
    ensures Step(s, e).0.server.None? <==>
            if Restarts(s, e) then !e.starts && !e.restarts else s.server.None?
  {
  }

  // The request reaches the restart of the server.
  predicate Restarts(s: State, e: Event) {
    s.iface &&
    match e
    case ESetAddress(address, _, _) => AddressOk(address)
    case ESetBaudCode(code, _, _) => code <= MAX_BAUD_CODE
    case ELoad(loads, _, _) => loads
    case EFactory(saves, _, _) => saves
    case _ => false
  }

  /**
    A creation that does not deliver returns no adapter, but when called on its
    own it leaves the global pointer set: the state it leaves is ready exactly
    when the unreadable record happens to be the default.
   */
  lemma FailedCreation(s: State, saves: bool, loads: bool)
    requires !Delivers(s, ECreate(loads, saves))
    ensures var s' := Create(s, loads, saves).0;
            && s'.present
            && (Ready(s') <==>
                  && s.stored == Some(DEFAULT) && Valid(s.active)
                  && (s.server.Some? ==> s.iface && s.server.value == s.active))
  {
  }

  lemma AbsentRefuses(s: State, e: Event)
    requires !s.present && !Creates(e)
    ensures Step(s, e) == (s, NoDevice)
  {
  }

  // Through the start routine the pointer is cleared and nothing is accepted.
  lemma {:induction false} FailedStartRefuses(s: State, es: seq<Event>)
    requires !s.present && forall e | e in es :: !Creates(e)
    ensures Exec(s, es) == s
  {
    if es != [] {
      assert es[|es| - 1] in es;
      FailedStartRefuses(s, es[..|es| - 1]);
    }
  }

  // SAVE followed by a start, whatever fails in between, keeps what was active.
  lemma SaveThenStart(s: State, es: seq<Event>, e: Event)
    requires Ready(s) && e.EStart? && e.loads
    requires forall d | d in es :: AboutActive(d)
    ensures Step(Exec(Save(s, true).0, es), e).0.active == s.active
  {
    hide Step;
    var s1 := Save(s, true).0;
    assert Ready(s1);
    hide Ready;
    ActiveLeavesNextBoot(s1, es);
    ActiveKeepsReady(s1, es);
    CreationAppliesNextBoot(Exec(s1, es), e);
  }
}
