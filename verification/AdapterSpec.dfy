/**
  The configuration of the Modbus adapter (lib/modbus_adapter/modbus_adapter.c):
  the active one, the one for the next boot and the persisted one, where saves,
  loads and server starts may fail. Builds with CONFIG_SETTINGS and CONFIG_MODBUS.
 */
module AdapterSpec {
  import opened CInt
  import opened Wrappers

  datatype Config = Config(address: uint16, baudCode: uint16)

  const MAX_BAUD_CODE: uint16 := 3

  const PARAM_SAVE: uint16 := 1
  const PARAM_LOAD: uint16 := 2
  const PARAM_FACTORY_RESET: uint16 := 3

  /** Addresses of servers are 1 to 247 (section 2.2 of the MODBUS over Serial
      Line Specification and Implementation Guide V1.02). */
  predicate AddressOk(address: uint16) {
    1 <= address <= 247
  }

  predicate Valid(c: Config) {
    AddressOk(c.address) && c.baudCode <= MAX_BAUD_CODE
  }

  // Kconfig ranges make the default valid in every build.
  type ValidConfig = c: Config | Valid(c) witness Config(1, 0)

  const DEFAULT: ValidConfig

  datatype Status = Ok | InvalidValue | NoDevice | IoError

  /**
    `present` is `mb != NULL`, `iface` that the Modbus interface was found,
    `server` the configuration the running server was started with.
   */
  datatype State = State(
    present: bool,
    iface: bool,
    active: Config,
    boot: Config,
    stored: Option<Config>,
    server: Option<Config>)

  // ---- Creation ----

  // What `adapter_load_config` delivers; `works` is false on any read error.
  function Loaded(s: State, works: bool): Option<Config> {
    if works then s.stored else None
  }

  predicate LoadIsValid(s: State, loads: bool) {
    Loaded(s, loads).Some? && Valid(Loaded(s, loads).value)
  }

  // vc_mb_adapter_create; the second component tells that it returned an adapter.
  function Create(s: State, loads: bool, saves: bool): (State, bool) {
    var s1 := s.(present := true);
    if LoadIsValid(s, loads) then (s1.(boot := s.stored.value, active := s.stored.value), true)
    else if !saves then (s1.(boot := DEFAULT), false)
    else (s1.(boot := DEFAULT, stored := Some(DEFAULT), active := DEFAULT), true)
  }

  // modbus_adapter_init
  function Start(s: State, loads: bool, saves: bool, found: bool, starts: bool): (State, Status) {
    var (s1, created) := Create(s.(server := None), loads, saves);
    if !created then (s1.(present := false), IoError)
    else if !found then (s1.(iface := false), NoDevice)
    else if !starts then (s1.(iface := true), IoError)
    else (s1.(iface := true, server := Some(s1.active)), Ok)
  }

  // ---- The active configuration ----

  // `starts` and `restarts` say whether the server comes up with the new
  // configuration and, failing that, with the previous one.
  function ApplyConfig(s: State, c: Config, starts: bool, restarts: bool): (State, Status) {
    if !s.present then (s, NoDevice)
    else if !s.iface then (s.(active := c), Ok)
    else if starts then (s.(active := c, server := Some(c)), Ok)
    else (s.(server := if restarts then Some(s.active) else None), IoError)
  }

  function SetAddress(s: State, address: uint16, starts: bool, restarts: bool): (State, Status) {
    if !s.present then (s, NoDevice)
    else if !AddressOk(address) then (s, InvalidValue)
    else ApplyConfig(s, s.active.(address := address), starts, restarts)
  }

  function SetBaudCode(s: State, code: uint16, starts: bool, restarts: bool): (State, Status) {
    if !s.present then (s, NoDevice)
    else if code > MAX_BAUD_CODE then (s, InvalidValue)
    else ApplyConfig(s, s.active.(baudCode := code), starts, restarts)
  }

  // ---- The next boot ----

  datatype NextField = NextAddress | NextBaudCode | OtherField

  function WriteNextBoot(s: State, field: NextField, value: uint16, saves: bool): (State, Status) {
    if !s.present then (s, NoDevice)
    else if field == OtherField then (s, InvalidValue)
    else
      var c := if field == NextAddress then s.boot.(address := value) else s.boot.(baudCode := value);
      if !Valid(c) then (s, InvalidValue)
      else if !saves then (s, IoError)
      else (s.(boot := c, stored := Some(c)), Ok)
  }

  // ---- Save, load, factory ----

  function Save(s: State, saves: bool): (State, Status) {
    if !s.present then (s, NoDevice)
    else if !saves then (s, IoError)
    else (s.(boot := s.active, stored := Some(s.active)), Ok)
  }

  function Load(s: State, loads: bool, starts: bool, restarts: bool): (State, Status) {
    if !s.present then (s, NoDevice)
    else if Loaded(s, loads).None? then (s, IoError)
    else if !Valid(s.stored.value) then (s, InvalidValue)
    else
      var (s1, st) := ApplyConfig(s, s.stored.value, starts, restarts);
      (if st == Ok then s1.(boot := s.stored.value) else s1, st)
  }

  function Factory(s: State, saves: bool, starts: bool, restarts: bool): (State, Status) {
    if !s.present then (s, NoDevice)
    else if !saves then (s, IoError)
    else ApplyConfig(s.(boot := DEFAULT, stored := Some(DEFAULT)), DEFAULT, starts, restarts)
  }

  // The adapter's own part of a system parameter action.
  function ParamAction(s: State, action: uint16, loads: bool, saves: bool): (State, Status) {
    if !s.present then (s, NoDevice)
    else if action == PARAM_LOAD then
      if !LoadIsValid(s, loads) then (s, IoError) else (s.(boot := s.stored.value), Ok)
    else if action == PARAM_FACTORY_RESET then
      if !saves then (s, IoError) else (s.(boot := DEFAULT, stored := Some(DEFAULT)), Ok)
    else (s, Ok)
  }

  // ---- Runs ----

  datatype Event =
    | ECreate(loads: bool, saves: bool)
    | EStart(loads: bool, saves: bool, found: bool, starts: bool)
    | ESetAddress(address: uint16, starts: bool, restarts: bool)
    | ESetBaudCode(code: uint16, starts: bool, restarts: bool)
    | EWriteNextBoot(field: NextField, value: uint16, saves: bool)
    | ESave(saves: bool)
    | ELoad(loads: bool, starts: bool, restarts: bool)
    | EFactory(saves: bool, starts: bool, restarts: bool)
    | EParamAction(action: uint16, loads: bool, saves: bool)

  function Step(s: State, e: Event): (State, Status) {
    match e
    case ECreate(loads, saves) =>
      var (s1, created) := Create(s, loads, saves);
      (s1, if created then Ok else IoError)
    case EStart(loads, saves, found, starts) => Start(s, loads, saves, found, starts)
    case ESetAddress(address, starts, restarts) => SetAddress(s, address, starts, restarts)
    case ESetBaudCode(code, starts, restarts) => SetBaudCode(s, code, starts, restarts)
    case EWriteNextBoot(field, value, saves) => WriteNextBoot(s, field, value, saves)
    case ESave(saves) => Save(s, saves)
    case ELoad(loads, starts, restarts) => Load(s, loads, starts, restarts)
    case EFactory(saves, starts, restarts) => Factory(s, saves, starts, restarts)
    case EParamAction(action, loads, saves) => ParamAction(s, action, loads, saves)
  }

  function Exec(s: State, es: seq<Event>): State {
    if es == [] then s else Step(Exec(s, es[..|es| - 1]), es[|es| - 1]).0
  }
}
