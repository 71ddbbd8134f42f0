/**
  Shutdown of the runtime: no operation is admitted any more, the destroyer is
  never stranded, and the exact condition under which nobody uses the runtime
  when its worker is told to stop (lib/voltage_control/vc_runtime.c:69-96, 911-930).
 */
module RuntimeShutdown {
  import opened RuntimeSpec
  import opened RuntimeInv

  // ---- No admission after STOPPING ----

  lemma {:induction false} NoneAdmittedAfterStopping(s: State, ms: seq<Move>, i: nat)
    requires s.life == Stopping
    requires forall n :: 0 <= n <= |ms| ==> Exec(s, ms[..n]).life != Running
    requires i < |s.ops| && !Admitted(s.ops[i])
    ensures |Exec(s, ms).ops| == |s.ops| && !Admitted(Exec(s, ms).ops[i])
  {
    if ms != [] {
      var last := |ms| - 1;
      var before := ms[..last];
      assert forall n | 0 <= n <= last :: before[..n] == ms[..n];
      NoneAdmittedAfterStopping(s, before, i);
      assert ms[..last] == before && before[..last] == before;
      AdmissionNeedsRunning(Exec(s, before), ms[last], i);
    }
  }

  lemma AdmissionNeedsRunning(s: State, m: Move, i: nat)
    requires s.life != Running && i < |s.ops|
    ensures |Step(s, m).ops| == |s.ops|
    ensures Admitted(Step(s, m).ops[i]) ==> Admitted(s.ops[i])
  {
    hide Operate;
    if m.Op? && Enabled(s, m) {
      OperateAdmits(s, m.i, m.act, i);
    }
  }

  lemma OperateAdmits(s: State, j: nat, a: Act, i: nat)
    requires s.life != Running && i < |s.ops| && At(s, j, From(a))
    ensures |Operate(s, j, a).ops| == |s.ops|
    ensures Admitted(Operate(s, j, a).ops[i]) ==> Admitted(s.ops[i])
  {
  }

  // ---- Progress ----

  function OpRank(pc: Pc): nat {
    match pc
    case Idle => 0
    case Giving => 1
    case Dropped => 2
    case Dropping => 3
    case Waiting => 4
    case Holding => 5
    case Passed => 6
    case Counted => 7
    case Checked => 8
  }

  function OpsRank(ops: seq<Pc>): nat {
    if ops == [] then 0 else OpsRank(ops[..|ops| - 1]) + OpRank(ops[|ops| - 1])
  }

  function WorkerRank(s: State): nat {
    if s.stop then
      match s.worker
      case Parked => 4
      case Busy(_) => 3
      case Draining => 2
      case Head => 1
      case _ => 0
    else if s.worker == Parked then 2
    else if s.worker == Head && s.queue != [] then 1
    else 0
  }

  function DestroyerRank(d: Destroyer): nat {
    match d
    case Absent => 0
    case Joining => 1
    case Cleared => 2
    case Going => 3
    case AtSemaphore => 4
    case Claimed => 5
  }

  // What is left to do until the destroyer returns.
  function Rank(s: State): nat {
    4 * OpsRank(s.ops) + 2 * |s.queue| + WorkerRank(s) + 10 * DestroyerRank(s.destroyer)
  }

  lemma {:induction false} RankUpdate(ops: seq<Pc>, i: nat, pc: Pc)
    requires i < |ops|
    ensures OpsRank(ops[i := pc]) == OpsRank(ops) - OpRank(ops[i]) + OpRank(pc)
  {
    var last := |ops| - 1;
    if i == last {
      assert ops[i := pc][..last] == ops[..last];
    } else {
      assert ops[i := pc][..last] == ops[..last][i := pc];
      RankUpdate(ops[..last], i, pc);
    }
  }

  // The moves that bring the shutdown closer.
  predicate Advances(s: State, m: Move) {
    && Enabled(s, m)
    && (m.Op? ==> m.act != Check)
    && (m == Wake ==> s.stop || s.queue != [])
    && (m == Pop ==> s.stop || s.queue != [])
  }

  lemma OperateRank(s: State, i: nat, a: Act)
    requires s.life == Stopping && At(s, i, From(a))
    ensures if a == Check then Operate(s, i, a) == s else Rank(Operate(s, i, a)) < Rank(s)
  {
    RankUpdate(s.ops, i, To(s, a));
    if a == Check {
      assert s.ops[i := Idle] == s.ops;
    }
  }

  /**
    While the runtime is stopping no move takes it further from the end, and
    every move but an empty round of the worker or a refused acquire brings it
    closer.
   */
  lemma RankNeverGrows(s: State, m: Move)
    requires Inv(s) && s.life == Stopping
    ensures Rank(Step(s, m)) <= Rank(s)
    ensures Advances(s, m) ==> Rank(Step(s, m)) < Rank(s)
  {
    hide Operate, OpsRank, CounterExact, TokenFresh, InOrder, NoneLost, Wakeable;
    if Enabled(s, m) {
      match m {
        case Op(i, a) => OperateRank(s, i, a);
        case Deliver => RankUpdate(s.ops, s.worker.owner, Dropping);
        case _ =>
      }
    }
  }

  // A waiting operation is served by the worker, which runs until told to stop.
  function Serve(s: State): Move {
    match s.worker
    case Parked => Launch
    case Head => Wake
    case Draining => Pop
    case _ => Deliver
  }

  function NextAct(pc: Pc): Act {
    match pc
    case Idle => Check
    case Checked => Count
    case Counted => Recheck
    case Passed => Fetch
    case Holding => Finish
    case Dropping => Decrement
    case Dropped => Inspect
    case _ => Give
  }

  // The waiting destroyer is never stranded: some move brings the end closer.
  lemma SomeMoveAdvances(s: State) returns (m: Move)
    requires Inv(s) && s.life == Stopping
    ensures Advances(s, m)
  {
    hide PointersValid, CounterExact, TokenFresh, InOrder;
    match s.destroyer {
      case Claimed => m := ReadCounter;
      case Going => m := ClearCatalog;
      case Cleared => m := RequestStop;
      case Joining => m := if s.worker == Exited then Join else Serve(s);
      case AtSemaphore =>
        if s.sem {
          m := TakeSem;
        } else {
          var i: nat :| i < |s.ops| && WillGive(s.ops[i]);
          m := if s.ops[i] == Waiting then Serve(s) else Op(i, NextAct(s.ops[i]));
        }
    }
  }

  lemma NoStartMeanwhile(s: State, m: Move)
    requires Inv(s) && s.life == Stopping
    ensures !Enabled(s, Clear)
    ensures Step(s, m).life == Stopping || Step(s, m).life == Stopped
  {
    hide PointersValid, CounterExact, TokenFresh, InOrder, NoneLost, Wakeable;
  }

  /**
    From every state of a shutdown the destroyer can still return: a run of at
    most Rank(s) moves gets there.
   */
  lemma {:induction false} ShutdownFinishes(s: State) returns (ms: seq<Move>)
    requires Inv(s) && s.life == Stopping
    ensures |ms| <= Rank(s) && Exec(s, ms).life == Stopped
    decreases Rank(s)
  {
    hide Inv, Rank, Advances, Step;
    var m := SomeMoveAdvances(s);
    RankNeverGrows(s, m);
    NoStartMeanwhile(s, m);
    var s1 := Step(s, m);
    if s1.life == Stopped {
      ms := [m];
      assert ms[..0] == [] && Exec(s, ms[..0]) == s;
    } else {
      StepKeepsInv(s, m);
      var rest := ShutdownFinishes(s1);
      ms := [m] + rest;
      ExecPrepend(s, m, rest);
    }
  }

  // How many moves of the run advance the shutdown.
  function Advancing(s: State, ms: seq<Move>): nat {
    if ms == [] then 0
    else
      var last := |ms| - 1;
      Advancing(s, ms[..last]) + if Advances(Exec(s, ms[..last]), ms[last]) then 1 else 0
  }

  lemma {:induction false} AdvancingBound(s: State, ms: seq<Move>)
    requires Inv(s) && s.life == Stopping && DuringShutdown(s, ms)
    ensures Inv(Exec(s, ms)) && Advancing(s, ms) + Rank(Exec(s, ms)) <= Rank(s)
  {
    hide Inv, Step, Rank, Advances;
    if ms != [] {
      var last := |ms| - 1;
      assert forall n | 0 <= n <= last :: ms[..last][..n] == ms[..n];
      AdvancingBound(s, ms[..last]);
      var t := Exec(s, ms[..last]);
      LastIsStopping(s, ms[..last]);
      RankNeverGrows(t, ms[last]);
      NoStartMeanwhile(t, ms[last]);
      StepKeepsInv(t, ms[last]);
    }
  }

  /**
    Whatever the schedule: a run with more than Rank(s) moves that advance the
    shutdown has come to its end on the way. SomeMoveAdvances says that until
    then such a move is always enabled, so every fair run gets there.
   */
  lemma EnoughMovesFinish(s: State, ms: seq<Move>)
    requires Inv(s) && s.life == Stopping && Advancing(s, ms) > Rank(s)
    ensures exists n :: 0 <= n <= |ms| && Exec(s, ms[..n]).life != Stopping
  {
    hide Inv, Rank, Advances, Exec;
    if DuringShutdown(s, ms) {
      AdvancingBound(s, ms);
    }
  }

  // In every orderly run, a destroyer that has begun can still return.
  lemma DestroyerNeverStranded(n: nat, ms: seq<Move>)
    requires Orderly(Init(n), ms) && Exec(Init(n), ms).life == Stopping
    ensures var s := Exec(Init(n), ms);
            exists more :: |more| <= Rank(s) && Exec(s, more).life == Stopped
  {
    hide Inv, Orderly, Exec, Rank;
    InitInv(n);
    InvOnEveryRun(Init(n), ms);
    var more := ShutdownFinishes(Exec(Init(n), ms));
  }

  lemma {:induction false} ExecPrepend(s: State, m: Move, ms: seq<Move>)
    ensures Exec(s, [m] + ms) == Exec(Step(s, m), ms)
  {
    hide Step;
    if ms == [] {
      assert [m] + ms == [m] && [m][..0] == [];
      assert Exec(s, [m][..0]) == s;
    } else {
      var last := |ms| - 1;
      assert ([m] + ms)[..last + 1] == [m] + ms[..last];
      ExecPrepend(s, m, ms[..last]);
    }
  }

  // ---- Quiescence when the worker is told to stop ----

  ghost predicate SomeAdmitted(s: State) {
    exists i :: 0 <= i < |s.ops| && Admitted(s.ops[i])
  }

  // Some operation is between its decrement to zero and its lifecycle check.
  ghost predicate SomeDropped(s: State) {
    exists i :: 0 <= i < |s.ops| && s.ops[i] == Dropped
  }

  // An operation has the runtime, or a command is pending.
  ghost predicate InUse(s: State) {
    || (exists i :: 0 <= i < |s.ops| && (s.ops[i] == Holding || s.ops[i] == Waiting))
    || s.queue != []
    || s.worker.Busy?
  }

  // The destroyer can only be woken when no operation is admitted any more.
  ghost predicate Clean(s: State) {
    s.life == Stopping && SomeAdmitted(s) ==>
      && (s.destroyer == Claimed || s.destroyer == AtSemaphore)
      && !s.sem
      && forall i :: 0 <= i < |s.ops| ==> s.ops[i] != Dropped && s.ops[i] != Giving
  }

  lemma OperateStaysClean(s: State, i: nat, a: Act)
    requires CounterExact(s) && Clean(s) && s.life == Stopping && At(s, i, From(a))
    ensures Clean(Operate(s, i, a))
  {
    var s' := Operate(s, i, a);
    if SomeAdmitted(s') {
      var j :| 0 <= j < |s'.ops| && Admitted(s'.ops[j]);
      assert Admitted(s.ops[j]);
      if a == Decrement && s.counter == 1 {
        FlyingUpdate(s.ops, i, Dropped);
        FlyingZero(s'.ops);
      }
    }
  }

  lemma StopMovesStayClean(s: State, m: Move)
    requires CounterExact(s) && Clean(s) && s.life == Stopping && !m.Op?
    ensures Clean(Step(s, m))
  {
    var s' := Step(s, m);
    if s'.life == Stopping && SomeAdmitted(s') {
      var j :| 0 <= j < |s'.ops| && Admitted(s'.ops[j]);
      AdmissionNeedsRunning(s, m, j);
      FlyingZero(s.ops);
      assert InFlight(s.ops[j]);
    }
  }

  lemma StaysClean(s: State, m: Move)
    requires Inv(s) && Clean(s)
    requires m == Claim && Enabled(s, m) ==> !(SomeDropped(s) && SomeAdmitted(s))
    ensures Clean(Step(s, m))
  {
    hide PointersValid, InOrder, NoneLost, Wakeable, Operate, Clean;
    if s.life == Stopping {
      if m.Op? {
        if Enabled(s, m) {
          OperateStaysClean(s, m.i, m.act);
        }
      } else {
        StopMovesStayClean(s, m);
      }
    } else {
      ClaimIsClean(s, m);
    }
  }

  lemma ClaimIsClean(s: State, m: Move)
    requires s.life != Stopping && TokenFresh(s)
    requires m == Claim && Enabled(s, m) ==> !(SomeDropped(s) && SomeAdmitted(s))
    ensures Clean(Step(s, m))
  {
    if m == Claim && Enabled(s, m) {
      assert SomeAdmitted(Step(s, m)) == SomeAdmitted(s);
    } else {
      assert Step(s, m).life != Stopping;
    }
  }

  lemma UseNeedsAdmission(s: State)
    requires PointersValid(s)
    ensures InUse(s) ==> SomeAdmitted(s)
  {
    if s.queue != [] {
      assert At(s, s.queue[0], Waiting);
      assert Admitted(s.ops[s.queue[0]]);
    }
    if s.worker.Busy? {
      assert Admitted(s.ops[s.worker.owner]);
    }
    assert forall i :: 0 <= i < |s.ops| && (s.ops[i] == Holding || s.ops[i] == Waiting) ==> Admitted(s.ops[i]);
  }

  lemma CleanStop(s: State)
    requires PointersValid(s) && Phases(s) && Clean(s) && s.life == Stopping && s.stop
    ensures !InUse(s)
  {
    hide InUse, SomeAdmitted, PointersValid;
    UseNeedsAdmission(s);
  }

  // No shutdown of the run begins while one operation is between its
  // decrement to zero and its check and another one is admitted.
  ghost predicate ClaimsAreSafe(s: State, ms: seq<Move>) {
    forall n :: 0 <= n < |ms| && ms[n] == Claim && Enabled(Exec(s, ms[..n]), Claim) ==>
      !(SomeDropped(Exec(s, ms[..n])) && SomeAdmitted(Exec(s, ms[..n])))
  }

  lemma {:induction false} CleanOnEveryRun(s: State, ms: seq<Move>)
    requires Inv(s) && Clean(s) && Orderly(s, ms) && ClaimsAreSafe(s, ms)
    ensures Clean(Exec(s, ms))
  {
    hide Inv, Step, Quiet, Enabled, Clean, SomeDropped, SomeAdmitted;
    if ms != [] {
      var last := |ms| - 1;
      assert forall n | 0 <= n < last :: ms[..last][n] == ms[n] && ms[..last][..n] == ms[..n];
      CleanOnEveryRun(s, ms[..last]);
      InvOnEveryRun(s, ms[..last]);
      StaysClean(Exec(s, ms[..last]), ms[last]);
    }
  }

  // The decrement and the check of every release happen as one step.
  ghost predicate Fused(s: State, ms: seq<Move>) {
    forall n :: 0 <= n < |ms| && SomeDropped(Exec(s, ms[..n])) ==> ms[n].Op? && ms[n].act == Inspect
  }

  /**
    With the release fused into one step, over whole runs: whenever the worker
    has been told to stop, no operation has the runtime and no command is
    queued or being executed.
   */
  lemma FusedReleaseIsQuiescent(n: nat, ms: seq<Move>)
    requires Orderly(Init(n), ms) && Fused(Init(n), ms)
    ensures var s := Exec(Init(n), ms); s.life == Stopping && s.stop ==> !InUse(s)
  {
    hide Step, Orderly, Quiet, Enabled, Clean, SomeDropped, SomeAdmitted, InUse;
    hide PointersValid, CounterExact, TokenFresh, InOrder, NoneLost, Wakeable, Phases;
    InitInv(n);
    InitIsClean(n);
    InvOnEveryRun(Init(n), ms);
    CleanOnEveryRun(Init(n), ms);
    var s := Exec(Init(n), ms);
    if s.life == Stopping && s.stop {
      CleanStop(s);
    }
  }

  lemma InitIsClean(n: nat)
    ensures Clean(Init(n))
  {
  }

  // ---- The race of release and destroy, exactly ----

  // Everything that happens in `ms` happens within one shutdown.
  ghost predicate DuringShutdown(s: State, ms: seq<Move>) {
    forall n :: 0 <= n <= |ms| ==> Exec(s, ms[..n]).life == Stopping
  }

  ghost predicate AlwaysStopsQuietly(s: State) {
    forall ms :: DuringShutdown(s, ms) && Exec(s, ms).stop ==> !InUse(Exec(s, ms))
  }

  lemma {:induction false} ShutdownStaysClean(s: State, ms: seq<Move>)
    requires Inv(s) && Clean(s) && s.life == Stopping && DuringShutdown(s, ms)
    ensures Inv(Exec(s, ms)) && Clean(Exec(s, ms))
  {
    hide Inv, Step, Clean, Enabled;
    if ms != [] {
      var last := |ms| - 1;
      assert forall n | 0 <= n <= last :: ms[..last][..n] == ms[..n];
      ShutdownStaysClean(s, ms[..last]);
      var t := Exec(s, ms[..last]);
      NoStartMeanwhile(t, ms[last]);
      StepKeepsInv(t, ms[last]);
      StoppingStaysClean(t, ms[last]);
    }
  }

  lemma StoppingStaysClean(s: State, m: Move)
    requires Inv(s) && Clean(s) && s.life == Stopping
    ensures Clean(Step(s, m))
  {
    hide Clean, PointersValid, CounterExact, TokenFresh, InOrder, NoneLost, Wakeable;
    StaysClean(s, m);
  }

  lemma Grow(s: State, ms: seq<Move>, m: Move)
    ensures Exec(s, ms + [m]) == Step(Exec(s, ms), m)
    ensures DuringShutdown(s, ms) && Step(Exec(s, ms), m).life == Stopping ==> DuringShutdown(s, ms + [m])
  {
    hide Step;
    assert (ms + [m])[..|ms|] == ms && ms[..|ms|] == ms;
    assert (ms + [m])[..|ms| + 1] == ms + [m];
    assert forall n | 0 <= n <= |ms| :: (ms + [m])[..n] == ms[..n];
  }

  lemma NoMoves(s: State)
    ensures Exec(s, []) == s
    ensures s.life == Stopping ==> DuringShutdown(s, [])
  {
    var none: seq<Move> := [];
    assert forall n | 0 <= n <= |none| :: none[..n] == none;
  }

  /**
    How the destroyer slips past. Going on from `before`: with `i` between its
    decrement to zero and its check and `j` in possession of the runtime, `i`
    gives the token early and the worker is told to stop while `j` still has it.
   */
  lemma EarlyWake(s0: State, before: seq<Move>, i: nat, j: nat) returns (ms: seq<Move>)
    requires DuringShutdown(s0, before)
    requires var s := Exec(s0, before);
             && s.life == Stopping && s.destroyer == Claimed && s.counter != 0
             && At(s, i, Dropped) && (At(s, j, Holding) || At(s, j, Waiting))
    ensures DuringShutdown(s0, ms) && Exec(s0, ms).stop && InUse(Exec(s0, ms))
  {
    hide DuringShutdown, Exec;
    var s := Exec(s0, before);
    ms := GiveEarly(s0, before, i);
    Grow(s0, ms, TakeSem);
    Grow(s0, ms + [TakeSem], ClearCatalog);
    Grow(s0, ms + [TakeSem] + [ClearCatalog], RequestStop);
    ms := ms + [TakeSem] + [ClearCatalog] + [RequestStop];
    assert Exec(s0, ms).ops[j] == s.ops[j];
  }

  lemma GiveEarly(s0: State, before: seq<Move>, i: nat) returns (ms: seq<Move>)
    requires DuringShutdown(s0, before)
    requires var s := Exec(s0, before);
             s.life == Stopping && s.destroyer == Claimed && s.counter != 0 && At(s, i, Dropped)
    ensures DuringShutdown(s0, ms)
    ensures var s := Exec(s0, before);
            Exec(s0, ms) == s.(destroyer := AtSemaphore, sem := true, ops := s.ops[i := Idle])
  {
    hide DuringShutdown, Exec;
    ms := before;
    Grow(s0, ms, ReadCounter);
    Grow(s0, ms + [ReadCounter], Op(i, Inspect));
    Grow(s0, ms + [ReadCounter] + [Op(i, Inspect)], Op(i, Give));
    ms := ms + [ReadCounter] + [Op(i, Inspect)] + [Op(i, Give)];
  }

  lemma AdmittedCounts(s: State, j: nat)
    requires CounterExact(s) && j < |s.ops| && Admitted(s.ops[j])
    ensures s.counter != 0
  {
    FlyingZero(s.ops);
  }

  lemma RaceStopsInUse(s: State, i: nat, j: nat) returns (ms: seq<Move>)
    requires Inv(s) && s.life == Stopping && s.destroyer == Claimed
    requires At(s, i, Dropped) && j < |s.ops| && Admitted(s.ops[j])
    ensures DuringShutdown(s, ms) && Exec(s, ms).stop && InUse(Exec(s, ms))
  {
    hide DuringShutdown, Exec, InUse;
    NoMoves(s);
    AdmittedCounts(s, j);
    ms := [];
    if s.ops[j] == Passed {
      Grow(s, [], Op(j, Fetch));
      ms := [] + [Op(j, Fetch)];
    }
    ms := EarlyWake(s, ms, i, j);
  }

  /**
    Exactly when a shutdown is safe. Starting with the destroyer's claim, every
    continuation finds the runtime unused when its worker is told to stop if
    and only if at the claim there is not both an operation between its
    decrement to zero and its check and another one admitted.
   */
  lemma ShutdownSafeExactly(s: State)
    requires Inv(s) && s.life == Running
    ensures AlwaysStopsQuietly(Apply(s, Claim)) <==> !(SomeDropped(s) && SomeAdmitted(s))
  {
    hide PointersValid, CounterExact, TokenFresh, InOrder, NoneLost, Wakeable, DuringShutdown, Exec, InUse, Clean;
    var s1 := Apply(s, Claim);
    StepKeepsInv(s, Claim);
    if SomeDropped(s) && SomeAdmitted(s) {
      var i: nat :| i < |s.ops| && s.ops[i] == Dropped;
      var j: nat :| j < |s.ops| && Admitted(s.ops[j]);
      var ms := RaceStopsInUse(s1, i, j);
    } else {
      ClaimIsClean(s, Claim);
      forall ms | DuringShutdown(s1, ms) && Exec(s1, ms).stop
        ensures !InUse(Exec(s1, ms))
      {
        ShutdownStaysClean(s1, ms);
        LastIsStopping(s1, ms);
        CleanStop(Exec(s1, ms));
      }
    }
  }

  lemma LastIsStopping(s: State, ms: seq<Move>)
    requires DuringShutdown(s, ms)
    ensures Exec(s, ms).life == Stopping
  {
    assert ms[..|ms|] == ms;
  }

  // ---- The race is reachable ----

  // Power-on, one complete start, and two operations left to run.
  lemma Started(n: nat) returns (ms: seq<Move>)
    ensures Orderly(Init(n), ms)
    ensures Exec(Init(n), ms) ==
            Init(n).(life := Running, catalog := true, worker := Head, starts := 1)
  {
    hide Orderly, Exec, Quiet;
    var s := Init(n);
    InitInv(n);
    ms := [];
    NoMoves(s);
    OrderlyEmpty(s);
    ms := Go(s, ms, Begin);
    assert Quiet(Exec(s, ms)) by { SameOpsQuiet(s, Exec(s, ms)); }
    ms := Go(s, ms, Clear);
    var cleared := s.(life := Starting, creator := Initialising);
    assert Exec(s, ms) == cleared;
    ms := Go(s, ms, MakeThread);
    ms := Go(s, ms, Publish);
    ms := Go(s, ms, Open);
    ms := Go(s, ms, Launch);
  }

  lemma SameOpsQuiet(s: State, t: State)
    requires s.ops == t.ops
    ensures Quiet(s) == Quiet(t)
  {
  }

  lemma OrderlyEmpty(s: State)
    ensures Orderly(s, [])
  {
  }

  lemma Go(s: State, ms: seq<Move>, m: Move) returns (more: seq<Move>)
    requires Orderly(s, ms) && (m == Clear ==> Quiet(Exec(s, ms)))
    ensures more == ms + [m] && Orderly(s, more) && Exec(s, more) == Step(Exec(s, ms), m)
  {
    hide Step, Quiet, Enabled;
    more := ms + [m];
    Grow(s, ms, m);
    assert more[..|ms|] == ms;
    assert forall n | 0 <= n < |ms| :: more[..n] == ms[..n] && more[n] == ms[n];
  }

  /**
    Two operations suffice: one releases as the last user, the other acquires
    before the first has checked the lifecycle.
   */
  lemma RaceIsReachable() returns (ms: seq<Move>)
    ensures Orderly(Init(2), ms)
    ensures var s := Exec(Init(2), ms); s.life == Running && SomeDropped(s) && SomeAdmitted(s)
  {
    hide Orderly, Exec;
    var s := Init(2);
    ms := Started(2);
    ms := Acquire(s, ms, 0);
    ms := Go(s, ms, Op(0, Finish));
    ms := Go(s, ms, Op(0, Decrement));
    ms := Acquire(s, ms, 1);
    var t := Exec(s, ms);
    assert t.ops[0] == Dropped && Admitted(t.ops[1]);
  }

  // So quiescence fails in some run of the code.
  lemma QuiescenceCanFail()
    ensures exists ms ::
              && Orderly(Init(2), ms)
              && Exec(Init(2), ms).life == Running
              && !AlwaysStopsQuietly(Apply(Exec(Init(2), ms), Claim))
  {
    hide Orderly, Exec, Inv, AlwaysStopsQuietly, SomeDropped, SomeAdmitted;
    var ms := RaceIsReachable();
    InitInv(2);
    InvOnEveryRun(Init(2), ms);
    ShutdownSafeExactly(Exec(Init(2), ms));
  }

  // ---- What the early stop costs the holder ----

  // The operation waits for a command that nobody has any more.
  predicate Lost(s: State, i: nat) {
    At(s, i, Waiting) && i !in s.queue && s.worker != Busy(i)
  }

  lemma LostStep(s: State, m: Move, i: nat)
    requires Lost(s, i)
    ensures Lost(Step(s, m), i)
  {
    if m.Op? && Enabled(s, m) {
      assert m.i != i;
    }
  }

  lemma {:induction false} LostForEver(s: State, ms: seq<Move>, i: nat)
    requires Lost(s, i)
    ensures Lost(Exec(s, ms), i)
  {
    hide Step, Lost;
    if ms != [] {
      LostForEver(s, ms[..|ms| - 1], i);
      LostStep(Exec(s, ms[..|ms| - 1]), ms[|ms| - 1], i);
    }
  }

  // Two operations and a destroyer: the worker is told to stop while
  // operation 1 holds the runtime.
  lemma StoppedUnderHolder() returns (ms: seq<Move>)
    ensures Exec(Init(2), ms) ==
            State(Stopping, 1, false, false, [Idle, Holding], [], true, Head, Joining, Away, [], [], 1)
  {
    hide Orderly, Exec;
    var s := Init(2);
    ms := Started(2);
    ms := Acquire(s, ms, 0);
    ms := Go(s, ms, Op(0, Finish));
    ms := Go(s, ms, Op(0, Act.Decrement));
    ms := Acquire(s, ms, 1);
    assert Exec(s, ms) == State(Running, 1, false, true, [Dropped, Holding], [], false, Head, Absent, Away, [], [], 1);
    ms := WakeAndStop(s, ms);
  }

  lemma WakeAndStop(s0: State, before: seq<Move>) returns (ms: seq<Move>)
    requires Exec(s0, before) ==
             State(Running, 1, false, true, [Dropped, Holding], [], false, Head, Absent, Away, [], [], 1)
    ensures Exec(s0, ms) ==
            State(Stopping, 1, false, false, [Idle, Holding], [], true, Head, Joining, Away, [], [], 1)
  {
    hide Exec;
    ms := Append(s0, before, Claim);
    ms := Append(s0, ms, ReadCounter);
    ms := Append(s0, ms, Op(0, Inspect));
    ms := Append(s0, ms, Op(0, Act.Give));
    assert Exec(s0, ms) ==
           State(Stopping, 1, true, true, [Idle, Holding], [], false, Head, AtSemaphore, Away, [], [], 1);
    ms := Append(s0, ms, TakeSem);
    ms := Append(s0, ms, ClearCatalog);
    ms := Append(s0, ms, RequestStop);
  }

  lemma CommandDropped(s0: State, before: seq<Move>) returns (ms: seq<Move>)
    requires Exec(s0, before) ==
             State(Stopping, 1, false, false, [Idle, Holding], [], true, Head, Joining, Away, [], [], 1)
    ensures Exec(s0, ms) ==
            State(Starting, 0, false, false, [Idle, Waiting], [], false, NoThread, Absent, Initialising, [1], [], 1)
  {
    hide Exec;
    ms := Append(s0, before, Wake);
    ms := Append(s0, ms, Op(1, Act.Submit));
    assert Exec(s0, ms) ==
           State(Stopping, 1, false, false, [Idle, Waiting], [1], true, Exited, Joining, Away, [1], [], 1);
    ms := Append(s0, ms, Join);
    ms := Append(s0, ms, Begin);
    ms := Append(s0, ms, Clear);
  }

  /**
    The worker exits, the holder queues a command that nobody will execute, and
    the next start empties the queue: in every continuation it waits for ever.
   */
  lemma EarlyStopLosesCommand()
    ensures exists ms ::
              && At(Exec(Init(2), ms), 1, Waiting)
              && forall more :: Lost(Exec(Exec(Init(2), ms), more), 1)
  {
    hide Exec;
    var ms := StoppedUnderHolder();
    ms := CommandDropped(Init(2), ms);
    var t := Exec(Init(2), ms);
    assert Lost(t, 1);
    forall more
      ensures Lost(Exec(t, more), 1)
    {
      LostForEver(t, more, 1);
    }
  }

  // A complete shutdown while the counter is zero.
  lemma StopUnused(s: State, before: seq<Move>) returns (ms: seq<Move>)
    requires Orderly(s, before)
    requires var t := Exec(s, before);
             t.life == Running && t.counter == 0 && t.worker == Head && t.destroyer == Absent
    ensures Orderly(s, ms)
    ensures Exec(s, ms) == Exec(s, before).(life := Stopped, catalog := false, stop := true, worker := Exited)
  {
    hide Orderly, Exec;
    ms := ToldToStop(s, before);
    ms := Go(s, ms, Wake);
    ms := Go(s, ms, Join);
  }

  lemma ToldToStop(s: State, before: seq<Move>) returns (ms: seq<Move>)
    requires Orderly(s, before)
    requires var t := Exec(s, before); t.life == Running && t.counter == 0
    ensures Orderly(s, ms)
    ensures Exec(s, ms) ==
            Exec(s, before).(life := Stopping, destroyer := Joining, catalog := false, stop := true)
  {
    hide Orderly, Exec;
    ms := Go(s, before, Claim);
    ms := Go(s, ms, ReadCounter);
    ms := Go(s, ms, ClearCatalog);
    ms := Go(s, ms, RequestStop);
  }

  // Operation 0 passes its first check, a shutdown completes, it counts itself
  // in, and the next start begins.
  lemma LateOperation(n: nat) returns (ms: seq<Move>)
    requires n > 0
    ensures Orderly(Init(n), ms)
    ensures var s := Init(n);
            Exec(s, ms) == s.(life := Starting, creator := Clearing, counter := 1, stop := true, worker := Exited,
                              starts := 1, ops := s.ops[0 := Counted])
  {
    hide Orderly, Exec;
    var s := Init(n);
    ms := Started(n);
    ms := Go(s, ms, Op(0, Check));
    ms := StopUnused(s, ms);
    ms := Go(s, ms, Op(0, Count));
    ms := Go(s, ms, Begin);
  }

  // An operation that passed its first check before a shutdown can be inside
  // when the next start clears the counter.
  lemma LateOperationMeetsStart()
    ensures exists ms ::
              && Orderly(Init(1), ms)
              && Enabled(Exec(Init(1), ms), Clear)
              && At(Exec(Init(1), ms), 0, Counted)
  {
    hide Orderly, Exec;
    var ms := LateOperation(1);
    assert At(Exec(Init(1), ms), 0, Counted);
  }

  // ---- What becomes of the counter then ----

  // The late operation has found the runtime starting and backed out of a
  // counter that was cleared under it; the start then completes.
  lemma CounterGoesNegative(n: nat) returns (ms: seq<Move>)
    requires n > 0
    ensures Exec(Init(n), ms) ==
            Init(n).(life := Running, catalog := true, worker := Head, starts := 2, counter := -1)
  {
    hide Orderly, Exec;
    ms := LateOperation(n);
    ms := BackOut(Init(n), ms);
  }

  // From the clear on; the run is not orderly any more.
  lemma BackOut(s0: State, before: seq<Move>) returns (ms: seq<Move>)
    requires var s := Exec(s0, before);
             && At(s, 0, Counted) && s.creator == Clearing && s.life == Starting
             && s.destroyer == Absent && !s.sem && s.queue == []
    ensures var s := Exec(s0, before);
            Exec(s0, ms) == s.(life := Running, catalog := true, worker := Head, starts := s.starts + 1,
                               counter := -1, stop := false, creator := Away, ops := s.ops[0 := Idle])
  {
    hide Exec, DuringShutdown;
    ms := Append(s0, before, Clear);
    ms := Append(s0, ms, Op(0, Recheck));
    ms := Append(s0, ms, Op(0, Act.Decrement));
    ms := Append(s0, ms, MakeThread);
    ms := Append(s0, ms, Publish);
    ms := Append(s0, ms, Open);
    ms := Append(s0, ms, Launch);
  }

  lemma Append(s: State, ms: seq<Move>, m: Move) returns (more: seq<Move>)
    ensures more == ms + [m] && Exec(s, more) == Step(Exec(s, ms), m)
  {
    hide Step;
    Grow(s, ms, m);
    more := ms + [m];
  }

  // A destroyer that waits while every operation is outside.
  predicate Stranded(s: State) {
    && s.life == Stopping && s.destroyer == AtSemaphore && !s.sem
    && (s.creator == Away || s.creator == Launching)
    && forall i :: 0 <= i < |s.ops| ==> s.ops[i] == Idle
  }

  lemma StrandedStep(s: State, m: Move)
    requires Stranded(s) && !s.worker.Busy?
    ensures Stranded(Step(s, m)) && (s.queue == [] ==> !Step(s, m).worker.Busy? && Step(s, m).queue == [])
  {
  }

  lemma {:induction false} StrandedForEver(s: State, ms: seq<Move>)
    requires Stranded(s) && !s.worker.Busy? && s.queue == []
    ensures Stranded(Exec(s, ms)) && !Exec(s, ms).worker.Busy? && Exec(s, ms).queue == []
  {
    hide Step, Stranded;
    if ms != [] {
      StrandedForEver(s, ms[..|ms| - 1]);
      StrandedStep(Exec(s, ms[..|ms| - 1]), ms[|ms| - 1]);
    }
  }

  /**
    After that a destroyer can wait for ever: it reads the counter -1, no
    operation is inside, and no continuation wakes it.
   */
  lemma LateOperationStrandsDestroyer()
    ensures exists ms ::
              && Exec(Init(1), ms).destroyer == AtSemaphore
              && forall more :: Exec(Exec(Init(1), ms), more).destroyer == AtSemaphore
  {
    hide Exec;
    var s := Init(1);
    var ms := CounterGoesNegative(1);
    ms := Append(s, ms, Claim);
    ms := Append(s, ms, ReadCounter);
    var t := Exec(s, ms);
    assert Stranded(t);
    forall more
      ensures Exec(t, more).destroyer == AtSemaphore
    {
      StrandedForEver(t, more);
    }
  }

  // Or it can pass a holder: one operation inside brings the counter to zero.
  lemma LateOperationHidesHolder()
    ensures exists ms ::
              var s := Exec(Init(1), ms);
              s.life == Stopping && s.stop && At(s, 0, Holding)
  {
    hide Exec;
    var s := Init(1);
    var ms := CounterGoesNegative(1);
    ms := Enter(s, ms, 0);
    ms := StopUnseen(s, ms);
    assert At(Exec(s, ms), 0, Holding);
  }

  lemma Enter(s: State, before: seq<Move>, i: nat) returns (ms: seq<Move>)
    requires var t := Exec(s, before); t.life == Running && t.catalog && At(t, i, Idle)
    ensures var t := Exec(s, before);
            Exec(s, ms) == t.(ops := t.ops[i := Holding], counter := t.counter + 1)
  {
    hide Exec;
    ms := Append(s, before, Op(i, Check));
    ms := Append(s, ms, Op(i, Count));
    ms := Append(s, ms, Op(i, Recheck));
    ms := Append(s, ms, Op(i, Fetch));
  }

  lemma StopUnseen(s: State, before: seq<Move>) returns (ms: seq<Move>)
    requires var t := Exec(s, before); t.life == Running && t.counter == 0
    ensures var t := Exec(s, before);
            Exec(s, ms) == t.(life := Stopping, destroyer := Joining, catalog := false, stop := true)
  {
    hide Exec;
    ms := Append(s, before, Claim);
    ms := Append(s, ms, ReadCounter);
    ms := Append(s, ms, ClearCatalog);
    ms := Append(s, ms, RequestStop);
  }

  lemma Acquire(s: State, before: seq<Move>, i: nat) returns (ms: seq<Move>)
    requires Orderly(s, before)
    requires var t := Exec(s, before); t.life == Running && t.catalog && At(t, i, Idle)
    ensures Orderly(s, ms)
    ensures var t := Exec(s, before);
            Exec(s, ms) == t.(ops := t.ops[i := Holding], counter := t.counter + 1)
  {
    hide Orderly, Exec;
    ms := Go(s, before, Op(i, Check));
    ms := Go(s, ms, Op(i, Count));
    ms := Go(s, ms, Op(i, Recheck));
    ms := Go(s, ms, Op(i, Fetch));
  }
}
