/**
  The adapter record as the firmware keeps it, updated in place
  (lib/modbus_adapter/modbus_adapter.c). Every method is proved to do what the
  function of the same name in AdapterSpec says.
 */
module AdapterImpl {
  import opened CInt
  import opened Spec = AdapterSpec
  import opened Wrappers

  class Adapter {
    var present: bool
    var iface: bool
    var active: Config
    var boot: Config
    var stored: Option<Config>
    var server: Option<Config>

    ghost function View(): State
      reads this
    {
      State(present, iface, active, boot, stored, server)
    }

    // Before the first creation: nothing but what the settings hold.
    constructor (record: Option<Config>)
      ensures View() == State(false, false, Config(0, 0), Config(0, 0), record, None)
    {
      present, iface := false, false;
      active, boot := Config(0, 0), Config(0, 0);
      stored, server := record, None;
    }

    // ---- Settings ----

    method SaveConfig(c: Config, works: bool) returns (saved: bool)
      modifies this`stored
      ensures saved == works && stored == if works then Some(c) else old(stored)
    {
      if works {
        stored := Some(c);
      }
      saved := works;
    }

    method LoadConfig(works: bool) returns (c: Option<Config>)
      ensures c == Loaded(View(), works)
    {
      c := if works then stored else None;
    }

    // ---- Creation ----

    method Create(loads: bool, saves: bool) returns (created: bool)
      modifies this
      ensures (View(), created) == Spec.Create(old(View()), loads, saves)
    {
      present := true;
      boot := DEFAULT;
      var c := LoadConfig(loads);
      if c.Some? {
        boot := c.value;
      }
      if c.None? || !Valid(boot) {
        boot := DEFAULT;
        var saved := SaveConfig(boot, saves);
        if !saved {
          return false;
        }
      }
      active := boot;
      return true;
    }

    method Start(loads: bool, saves: bool, found: bool, starts: bool) returns (st: Status)
      modifies this
      ensures (View(), st) == Spec.Start(old(View()), loads, saves, found, starts)
    {
      server := None;
      var created := Create(loads, saves);
      if !created {
        present := false;
        return IoError;
      }
      iface := found;
      if !found {
        return NoDevice;
      }
      if !starts {
        return IoError;
      }
      server := Some(active);
      return Ok;
    }

    // ---- The active configuration ----

    method ApplyConfig(c: Config, starts: bool, restarts: bool) returns (st: Status)
      modifies this`active, this`server
      ensures (View(), st) == Spec.ApplyConfig(old(View()), c, starts, restarts)
    {
      if !present {
        return NoDevice;
      }
      if !iface {
        active := c;
        return Ok;
      }
      var previous := active;
      server := None;
      if !starts {
        if restarts {
          server := Some(previous);
        }
        return IoError;
      }
      server := Some(c);
      active := c;
      return Ok;
    }

    method SetSlaveAddress(address: uint16, starts: bool, restarts: bool) returns (st: Status)
      modifies this
      ensures (View(), st) == Spec.SetAddress(old(View()), address, starts, restarts)
    {
      if !present {
        return NoDevice;
      }
      if address < 1 || address > 247 {
        return InvalidValue;
      }
      st := ApplyConfig(active.(address := address), starts, restarts);
    }

    method SetBaudRateCode(code: uint16, starts: bool, restarts: bool) returns (st: Status)
      modifies this
      ensures (View(), st) == Spec.SetBaudCode(old(View()), code, starts, restarts)
    {
      if !present {
        return NoDevice;
      }
      if code > MAX_BAUD_CODE {
        return InvalidValue;
      }
      st := ApplyConfig(active.(baudCode := code), starts, restarts);
    }

    // ---- The next boot ----

    method WriteNextBootField(field: NextField, value: uint16, saves: bool) returns (st: Status)
      modifies this
      ensures (View(), st) == Spec.WriteNextBoot(old(View()), field, value, saves)
    {
      if !present {
        return NoDevice;
      }
      var candidate := boot;
      match field {
        case NextAddress => candidate := candidate.(address := value);
        case NextBaudCode => candidate := candidate.(baudCode := value);
        case OtherField => return InvalidValue;
      }
      if !Valid(candidate) {
        return InvalidValue;
      }
      var saved := SaveConfig(candidate, saves);
      if !saved {
        return IoError;
      }
      boot := candidate;
      return Ok;
    }

    // ---- Save, load, factory ----

    method ConfigSave(saves: bool) returns (st: Status)
      modifies this
      ensures (View(), st) == Spec.Save(old(View()), saves)
    {
      if !present {
        return NoDevice;
      }
      var saved := SaveConfig(active, saves);
      if !saved {
        return IoError;
      }
      boot := active;
      return Ok;
    }

    method ConfigLoad(loads: bool, starts: bool, restarts: bool) returns (st: Status)
      modifies this
      ensures (View(), st) == Spec.Load(old(View()), loads, starts, restarts)
    {
      if !present {
        return NoDevice;
      }
      var candidate := LoadConfig(loads);
      if candidate.None? {
        return IoError;
      }
      if !Valid(candidate.value) {
        return InvalidValue;
      }
      st := ApplyConfig(candidate.value, starts, restarts);
      if st == Ok {
        boot := candidate.value;
      }
    }

    method ConfigFactory(saves: bool, starts: bool, restarts: bool) returns (st: Status)
      modifies this
      ensures (View(), st) == Spec.Factory(old(View()), saves, starts, restarts)
    {
      if !present {
        return NoDevice;
      }
      var saved := SaveConfig(DEFAULT, saves);
      if !saved {
        return IoError;
      }
      boot := DEFAULT;
      st := ApplyConfig(DEFAULT, starts, restarts);
    }

    method HandleParamAction(action: uint16, loads: bool, saves: bool) returns (st: Status)
      modifies this
      ensures (View(), st) == Spec.ParamAction(old(View()), action, loads, saves)
    {
      if !present {
        return NoDevice;
      }
      if action == PARAM_LOAD {
        var candidate := LoadConfig(loads);
        if candidate.None? || !Valid(candidate.value) {
          return IoError;
        }
        boot := candidate.value;
      } else if action == PARAM_FACTORY_RESET {
        var saved := SaveConfig(DEFAULT, saves);
        if !saved {
          return IoError;
        }
        boot := DEFAULT;
      }
      return Ok;
    }

    // One event of a run.
    method Perform(e: Event) returns (st: Status)
      modifies this
      ensures (View(), st) == Spec.Step(old(View()), e)
    {
      match e {
        case ECreate(loads, saves) =>
          var created := Create(loads, saves);
          st := if created then Ok else IoError;
        case EStart(loads, saves, found, starts) => st := Start(loads, saves, found, starts);
        case ESetAddress(address, starts, restarts) => st := SetSlaveAddress(address, starts, restarts);
        case ESetBaudCode(code, starts, restarts) => st := SetBaudRateCode(code, starts, restarts);
        case EWriteNextBoot(field, value, saves) => st := WriteNextBootField(field, value, saves);
        case ESave(saves) => st := ConfigSave(saves);
        case ELoad(loads, starts, restarts) => st := ConfigLoad(loads, starts, restarts);
        case EFactory(saves, starts, restarts) => st := ConfigFactory(saves, starts, restarts);
        case EParamAction(action, loads, saves) => st := HandleParamAction(action, loads, saves);
      }
    }
  }
}
