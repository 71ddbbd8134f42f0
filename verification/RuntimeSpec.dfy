/**
  The runtime lifecycle of lib/voltage_control/vc_runtime.c as an interleaving
  of single atomic operations: any number of register operations (acquire, use,
  release), the worker thread with its command queue, one creator and one
  destroyer. A blocked operation is a move that does nothing.
 */
module RuntimeSpec {
  type QueueDepth = x: int | 1 <= x witness 8
  const QUEUE_DEPTH: QueueDepth

  datatype Lifecycle = Stopped | Starting | Running | Stopping

  // Where one register operation is.
  datatype Pc =
    | Idle       // outside
    | Checked    // saw RUNNING
    | Counted    // has incremented the counter
    | Passed     // saw RUNNING again
    | Holding    // has the runtime
    | Waiting    // its command is queued; waits on a semaphore of its own stack frame
    | Dropping   // in release, before the decrement
    | Dropped    // has decremented the counter to zero
    | Giving     // saw STOPPING after that

  datatype Worker = NoThread | Parked | Head | Draining | Busy(owner: nat) | Exited

  datatype Destroyer = Absent | Claimed | AtSemaphore | Going | Cleared | Joining

  datatype Creator = Away | Clearing | Initialising | Publishing | Opening | Launching

  /**
    `sent` and `done` are histories: the owners of all commands ever queued and
    of all commands ever executed. `starts` counts the starts.
   */
  datatype State = State(
    life: Lifecycle,
    counter: int,
    sem: bool,
    catalog: bool,
    ops: seq<Pc>,
    queue: seq<nat>,
    stop: bool,
    worker: Worker,
    destroyer: Destroyer,
    creator: Creator,
    sent: seq<nat>,
    done: seq<nat>,
    starts: nat)

  function Init(n: nat): State {
    State(Stopped, 0, false, false, seq(n, _ => Idle), [], false, NoThread, Absent, Away, [], [], 0)
  }

  // What a register operation does next.
  datatype Act =
    // vc_catalog_acquire
    | Check | Count | Recheck | Fetch
    // vc_runtime_submit_command, or an operation that needs no command
    | Submit | Finish
    // vc_catalog_release
    | Decrement | Inspect | Give

  datatype Move =
    | Op(i: nat, act: Act)
    // vc_runtime_worker
    | Wake | Pop | Deliver
    // vc_runtime_destroy
    | Claim | ReadCounter | TakeSem | ClearCatalog | RequestStop | Join
    // vc_runtime_create_static
    | Begin | Clear | Fail | MakeThread | Publish | Open | Launch

  predicate At(s: State, i: nat, pc: Pc) {
    i < |s.ops| && s.ops[i] == pc
  }

  function From(a: Act): Pc {
    match a
    case Check => Idle
    case Count => Checked
    case Recheck => Counted
    case Fetch => Passed
    case Submit => Holding
    case Finish => Holding
    case Decrement => Dropping
    case Inspect => Dropped
    case Give => Giving
  }

  function To(s: State, a: Act): Pc {
    match a
    case Check => if s.life == Running then Checked else Idle
    case Count => Counted
    case Recheck => if s.life == Running then Passed else Dropping
    case Fetch => if s.catalog then Holding else Dropping
    case Submit => Waiting
    case Finish => Dropping
    case Decrement => if s.counter == 1 then Dropped else Idle
    case Inspect => if s.life == Stopping then Giving else Idle
    case Give => Idle
  }

  predicate Enabled(s: State, m: Move) {
    match m
    case Op(i, a) => At(s, i, From(a)) && (a == Submit ==> |s.queue| < QUEUE_DEPTH)
    case Wake => s.worker == Head
    case Pop => s.worker == Draining
    case Deliver => s.worker.Busy?
    case Claim => s.life == Running
    case ReadCounter => s.destroyer == Claimed
    case TakeSem => s.destroyer == AtSemaphore && s.sem
    case ClearCatalog => s.destroyer == Going
    case RequestStop => s.destroyer == Cleared
    case Join => s.destroyer == Joining && s.worker == Exited
    case Begin => s.life == Stopped
    case Clear => s.creator == Clearing
    case Fail => s.creator == Initialising
    case MakeThread => s.creator == Initialising
    case Publish => s.creator == Publishing
    case Open => s.creator == Opening
    case Launch => s.creator == Launching
  }

  function Goto(s: State, i: nat, pc: Pc): State
    requires i < |s.ops|
  {
    s.(ops := s.ops[i := pc])
  }

  function Operate(s: State, i: nat, a: Act): State
    requires i < |s.ops|
  {
    var s1 := Goto(s, i, To(s, a));
    match a
    case Count => s1.(counter := s.counter + 1)
    case Submit => s1.(queue := s.queue + [i], sent := s.sent + [i])
    case Decrement => s1.(counter := s.counter - 1)
    case Give => s1.(sem := true)
    case _ => s1
  }

  function Apply(s: State, m: Move): State
    requires Enabled(s, m)
  {
    match m
    case Op(i, a) => Operate(s, i, a)
    case Wake => s.(worker := if s.stop then Exited else Draining)
    case Pop =>
      if s.queue == [] then s.(worker := Head)
      else s.(worker := Busy(s.queue[0]), queue := s.queue[1..])
    case Deliver =>
      var i := s.worker.owner;
      var s1 := s.(worker := Draining, done := s.done + [i]);
      if At(s, i, Waiting) then Goto(s1, i, Dropping) else s1
    case Claim => s.(life := Stopping, destroyer := Claimed)
    case ReadCounter => s.(destroyer := if s.counter != 0 then AtSemaphore else Going)
    case TakeSem => s.(destroyer := Going, sem := false)
    case ClearCatalog => s.(destroyer := Cleared, catalog := false)
    case RequestStop => s.(destroyer := Joining, stop := true)
    case Join => s.(destroyer := Absent, life := Stopped)
    case Begin => s.(life := Starting, creator := Clearing)
    case Clear =>
      s.(creator := Initialising, counter := 0, sem := false, queue := [], stop := false, worker := NoThread)
    case Fail => s.(life := Stopped, creator := Away)
    case MakeThread => s.(creator := Publishing, worker := Parked)
    case Publish => s.(creator := Opening, catalog := true)
    case Open => s.(creator := Launching, life := Running, starts := s.starts + 1)
    case Launch => s.(creator := Away, worker := Head)
  }

  function Step(s: State, m: Move): State {
    if Enabled(s, m) then Apply(s, m) else s
  }

  // Every sequence of moves is an interleaving.
  function Exec(s: State, ms: seq<Move>): State {
    if ms == [] then s else Step(Exec(s, ms[..|ms| - 1]), ms[|ms| - 1])
  }
}
