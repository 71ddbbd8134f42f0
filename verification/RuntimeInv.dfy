/**
  What every interleaving keeps. Two facts hold without any condition; the
  others need that a start clears the counter while no operation is inside,
  which the first start always does and a later one may not.
 */
module RuntimeInv {
  import opened RuntimeSpec

  predicate InFlight(pc: Pc) {
    pc == Counted || pc == Passed || pc == Holding || pc == Waiting || pc == Dropping
  }

  // Past the second check: the operation uses, or is about to use, the runtime.
  predicate Admitted(pc: Pc) {
    pc == Passed || pc == Holding || pc == Waiting
  }

  function Flying(ops: seq<Pc>): nat {
    if ops == [] then 0 else Flying(ops[..|ops| - 1]) + if InFlight(ops[|ops| - 1]) then 1 else 0
  }

  lemma {:induction false} FlyingUpdate(ops: seq<Pc>, i: nat, pc: Pc)
    requires i < |ops|
    ensures Flying(ops[i := pc]) ==
            Flying(ops) - (if InFlight(ops[i]) then 1 else 0) + (if InFlight(pc) then 1 else 0)
  {
    var last := |ops| - 1;
    if i == last {
      assert ops[i := pc][..last] == ops[..last];
    } else {
      assert ops[i := pc][..last] == ops[..last][i := pc];
      FlyingUpdate(ops[..last], i, pc);
    }
  }

  lemma {:induction false} FlyingZero(ops: seq<Pc>)
    ensures Flying(ops) == 0 <==> forall i :: 0 <= i < |ops| ==> !InFlight(ops[i])
  {
    if ops != [] {
      var last := |ops| - 1;
      FlyingZero(ops[..last]);
      assert forall i :: 0 <= i < last ==> ops[..last][i] == ops[i];
    }
  }

  // ---- In every interleaving ----

  predicate Distinct(q: seq<nat>) {
    forall j, k :: 0 <= j < k < |q| ==> q[j] != q[k]
  }

  /**
    Every command the worker holds or will take belongs to an operation that
    still waits for it, so the pointers into that stack frame are valid, and
    no operation has two commands pending.
   */
  predicate PointersValid(s: State) {
    && Distinct(s.queue)
    && (forall j :: 0 <= j < |s.queue| ==> At(s, s.queue[j], Waiting))
    && (s.worker.Busy? ==> At(s, s.worker.owner, Waiting) && s.worker.owner !in s.queue)
  }

  lemma StepKeepsPointers(s: State, m: Move)
    requires PointersValid(s)
    ensures PointersValid(Step(s, m))
  {
    hide Operate;
    if m.Op? && Enabled(s, m) {
      OperateKeepsPointers(s, m.i, m.act);
    }
  }

  lemma OperateKeepsPointers(s: State, i: nat, a: Act)
    requires PointersValid(s) && At(s, i, From(a))
    ensures PointersValid(Operate(s, i, a))
  {
    assert s.ops[i] != Waiting;
    assert i !in s.queue;
  }

  lemma {:induction false} PointersAlwaysValid(n: nat, ms: seq<Move>)
    ensures PointersValid(Exec(Init(n), ms))
  {
    if ms != [] {
      var last := |ms| - 1;
      PointersAlwaysValid(n, ms[..last]);
      StepKeepsPointers(Exec(Init(n), ms[..last]), ms[last]);
    }
  }

  // ---- When starts find no operation inside ----

  // Nobody is between the increment and the end of release.
  predicate Quiet(s: State) {
    forall i :: 0 <= i < |s.ops| ==> s.ops[i] == Idle || s.ops[i] == Checked
  }

  // The phases of creator, destroyer and worker fit the lifecycle.
  predicate Phases(s: State) {
    && (s.destroyer != Absent <==> s.life == Stopping)
    && (s.life == Starting <==> s.creator != Away && s.creator != Launching)
    && (s.creator == Launching ==> s.life == Running || s.life == Stopping)
    && (s.catalog <==>
          || s.life == Running
          || s.creator == Opening
          || (s.life == Stopping && s.destroyer != Cleared && s.destroyer != Joining))
    && (s.life == Running || s.life == Stopping ==>
          && (s.stop <==> s.destroyer == Joining)
          && (s.worker == Parked <==> s.creator == Launching)
          && s.worker != NoThread
          && (s.worker == Exited ==> s.stop))
    && (s.life == Stopped || s.life == Starting ==>
          s.worker == NoThread || s.worker == Parked || s.worker == Exited)
    && (s.creator == Publishing || s.creator == Opening ==> s.worker == Parked && !s.stop)
    && (s.creator == Initialising ==> !s.stop)
  }

  predicate CounterExact(s: State) {
    s.counter == Flying(s.ops)
  }

  // No token and no giver is left over when the runtime opens.
  predicate TokenFresh(s: State) {
    s.life == Running || (s.life == Starting && s.creator != Clearing) ==>
      !s.sem && forall i :: 0 <= i < |s.ops| ==> s.ops[i] != Giving
  }

  // The command that the worker executes, if any, in front of the queue.
  function Pending(s: State): seq<nat> {
    (if s.worker.Busy? then [s.worker.owner] else []) + s.queue
  }

  // Commands are executed in the order of admission.
  predicate InOrder(s: State) {
    s.sent == s.done + Pending(s)
  }

  // No command of a waiting operation is lost.
  predicate NoneLost(s: State) {
    forall i :: 0 <= i < |s.ops| && s.ops[i] == Waiting ==> s.worker == Busy(i) || i in s.queue
  }

  predicate WillGive(pc: Pc) {
    InFlight(pc) || pc == Dropped || pc == Giving
  }

  // Someone will wake the waiting destroyer, or already has.
  predicate Wakeable(s: State) {
    s.destroyer == AtSemaphore ==> s.sem || exists i :: 0 <= i < |s.ops| && WillGive(s.ops[i])
  }

  predicate Inv(s: State) {
    PointersValid(s) && Phases(s) && CounterExact(s) && TokenFresh(s) && InOrder(s) && NoneLost(s) && Wakeable(s)
  }

  lemma StepKeepsPhases(s: State, m: Move)
    requires Phases(s)
    ensures Phases(Step(s, m))
  {
  }

  lemma OperateCounts(s: State, i: nat, a: Act)
    requires CounterExact(s) && At(s, i, From(a))
    ensures CounterExact(Operate(s, i, a))
  {
    FlyingUpdate(s.ops, i, To(s, a));
  }

  lemma StepKeepsCounter(s: State, m: Move)
    requires CounterExact(s) && (m == Clear && Enabled(s, m) ==> Quiet(s))
    ensures CounterExact(Step(s, m))
  {
    hide Operate;
    if Enabled(s, m) {
      match m {
        case Op(i, a) => OperateCounts(s, i, a);
        case Deliver =>
          if At(s, s.worker.owner, Waiting) {
            FlyingUpdate(s.ops, s.worker.owner, Dropping);
          }
        case Clear => FlyingZero(s.ops);
        case _ =>
      }
    }
  }

  lemma StepKeepsToken(s: State, m: Move)
    requires Phases(s) && TokenFresh(s) && (m == Clear && Enabled(s, m) ==> Quiet(s))
    ensures TokenFresh(Step(s, m))
  {
  }

  lemma OperateKeepsOrder(s: State, i: nat, a: Act)
    requires InOrder(s) && i < |s.ops|
    ensures InOrder(Operate(s, i, a))
  {
    var s' := Operate(s, i, a);
    if a == Submit {
      Associates(s.done, Pending(s), [i]);
      if s.worker.Busy? {
        Associates([s.worker.owner], s.queue, [i]);
      } else {
        assert Pending(s) == s.queue && Pending(s') == s'.queue;
      }
    }
  }

  lemma Associates(a: seq<nat>, b: seq<nat>, c: seq<nat>)
    ensures a + b + c == a + (b + c)
  {
  }

  lemma DeliverKeepsOrder(s: State)
    requires InOrder(s) && s.worker.Busy?
    ensures InOrder(Apply(s, Deliver))
  {
    hide At;
    Associates(s.done, [s.worker.owner], s.queue);
    assert Pending(Apply(s, Deliver)) == s.queue;
  }

  lemma PopKeepsOrder(s: State)
    requires InOrder(s) && s.worker == Draining
    ensures InOrder(Apply(s, Pop))
  {
    if s.queue != [] {
      assert s.queue == [s.queue[0]] + s.queue[1..];
    }
  }

  lemma QueuedIsNotQuiet(s: State)
    requires PointersValid(s)
    ensures s.queue != [] ==> !Quiet(s)
  {
    if s.queue != [] {
      assert At(s, s.queue[0], Waiting);
    }
  }

  lemma StepKeepsOrder(s: State, m: Move)
    requires PointersValid(s) && InOrder(s) && Phases(s) && (m == Clear && Enabled(s, m) ==> Quiet(s))
    ensures InOrder(Step(s, m))
  {
    hide Operate;
    if Enabled(s, m) {
      match m {
        case Op(i, a) => OperateKeepsOrder(s, i, a);
        case Pop => PopKeepsOrder(s);
        case Deliver => DeliverKeepsOrder(s);
        case Clear => QueuedIsNotQuiet(s);
        case _ => assert Pending(Apply(s, m)) == Pending(s);
      }
    }
  }

  lemma OperateLosesNone(s: State, i: nat, a: Act)
    requires NoneLost(s) && At(s, i, From(a))
    ensures NoneLost(Operate(s, i, a))
  {
    var s' := Operate(s, i, a);
    if a == Submit {
      assert s'.queue[|s.queue|] == i;
      assert forall j :: j in s.queue ==> j in s'.queue;
    }
  }

  lemma PopLosesNone(s: State)
    requires NoneLost(s) && s.worker == Draining && s.queue != []
    ensures NoneLost(Apply(s, Pop))
  {
    assert forall j :: j in s.queue ==> j == s.queue[0] || j in s.queue[1..];
  }

  lemma StepLosesNone(s: State, m: Move)
    requires NoneLost(s) && (m == Clear && Enabled(s, m) ==> Quiet(s)) && Phases(s)
    ensures NoneLost(Step(s, m))
  {
    hide Operate;
    if Enabled(s, m) {
      match m {
        case Op(i, a) => OperateLosesNone(s, i, a);
        case Pop => if s.queue != [] { PopLosesNone(s); }
        case _ =>
      }
    }
  }

  lemma OperateKeepsWakeable(s: State, i: nat, a: Act)
    requires Phases(s) && CounterExact(s) && Wakeable(s) && At(s, i, From(a))
    ensures Wakeable(Operate(s, i, a))
  {
    var s' := Operate(s, i, a);
    if s.destroyer == AtSemaphore && !s'.sem {
      if WillGive(To(s, a)) {
        assert WillGive(s'.ops[i]);
      } else if a == Decrement {
        FlyingUpdate(s.ops, i, Idle);
        FlyingZero(s'.ops);
      } else {
        assert !WillGive(s.ops[i]);
        var j :| 0 <= j < |s.ops| && WillGive(s.ops[j]);
        assert WillGive(s'.ops[j]);
      }
    }
  }

  lemma StepKeepsWakeable(s: State, m: Move)
    requires Phases(s) && CounterExact(s) && Wakeable(s)
    ensures Wakeable(Step(s, m))
  {
    hide Operate;
    if Enabled(s, m) {
      match m {
        case Op(i, a) => OperateKeepsWakeable(s, i, a);
        case ReadCounter => FlyingZero(s.ops);
        case Deliver =>
          if At(s, s.worker.owner, Waiting) {
            assert WillGive(Apply(s, m).ops[s.worker.owner]);
          }
        case _ =>
      }
    }
  }

  lemma StepKeepsInv(s: State, m: Move)
    requires Inv(s) && (m == Clear && Enabled(s, m) ==> Quiet(s))
    ensures Inv(Step(s, m))
  {
    hide Step, PointersValid, Phases, CounterExact, TokenFresh, InOrder, NoneLost, Wakeable, Quiet, Enabled;
    StepKeepsPointers(s, m);
    StepKeepsPhases(s, m);
    StepKeepsCounter(s, m);
    StepKeepsToken(s, m);
    StepKeepsOrder(s, m);
    StepLosesNone(s, m);
    StepKeepsWakeable(s, m);
  }

  lemma InitInv(n: nat)
    ensures Inv(Init(n)) && Quiet(Init(n))
  {
    FlyingZero(Init(n).ops);
  }

  // Every start of the run clears the counter while no operation is inside.
  ghost predicate Orderly(s: State, ms: seq<Move>) {
    forall n :: 0 <= n < |ms| && ms[n] == Clear && Enabled(Exec(s, ms[..n]), Clear) ==> Quiet(Exec(s, ms[..n]))
  }

  lemma {:induction false} InvOnEveryRun(s: State, ms: seq<Move>)
    requires Inv(s) && Orderly(s, ms)
    ensures Inv(Exec(s, ms))
  {
    hide Inv, Step, Quiet, Enabled;
    if ms != [] {
      var last := |ms| - 1;
      assert forall n | 0 <= n < last :: ms[..last][n] == ms[n] && ms[..last][..n] == ms[..n];
      InvOnEveryRun(s, ms[..last]);
      StepKeepsInv(Exec(s, ms[..last]), ms[last]);
    }
  }

  // ---- The first start is orderly; a later one may not be ----

  // Before anything was opened, every operation is outside.
  predicate NotYetOpened(s: State) {
    s.starts == 0 ==> Phases(s) && s.life != Running && forall i :: 0 <= i < |s.ops| ==> s.ops[i] == Idle
  }

  lemma StepBeforeFirstOpen(s: State, m: Move)
    requires NotYetOpened(s)
    ensures NotYetOpened(Step(s, m))
  {
    hide Phases;
    if s.starts == 0 {
      StepKeepsPhases(s, m);
    }
  }

  lemma {:induction false} NothingBeforeFirstOpen(n: nat, ms: seq<Move>)
    ensures NotYetOpened(Exec(Init(n), ms))
  {
    hide Step, NotYetOpened;
    if ms != [] {
      NothingBeforeFirstOpen(n, ms[..|ms| - 1]);
      StepBeforeFirstOpen(Exec(Init(n), ms[..|ms| - 1]), ms[|ms| - 1]);
    } else {
      assert NotYetOpened(Init(n)) by {
        InitNotOpened(n);
      }
    }
  }

  lemma InitNotOpened(n: nat)
    ensures NotYetOpened(Init(n))
  {
  }

  // Within one start-stop cycle there is one clear, before the first open.
  lemma OneCycleIsOrderly(n: nat, ms: seq<Move>)
    requires forall k :: 0 <= k < |ms| && ms[k] == Clear ==> Exec(Init(n), ms[..k]).starts == 0
    ensures Orderly(Init(n), ms)
  {
    forall k | 0 <= k < |ms| && ms[k] == Clear
      ensures Quiet(Exec(Init(n), ms[..k]))
    {
      NothingBeforeFirstOpen(n, ms[..k]);
    }
  }

  // A start breaks the count exactly when it finds an operation inside.
  lemma ClearBreaksCount(s: State)
    requires Inv(s) && Enabled(s, Clear)
    ensures CounterExact(Apply(s, Clear)) <==> forall i :: 0 <= i < |s.ops| ==> !InFlight(s.ops[i])
  {
    FlyingZero(s.ops);
  }

  // Whoever comes to hold the runtime passed both checks and saw it published.
  lemma HolderSawRuntime(s: State, m: Move, i: nat)
    requires !At(s, i, Holding) && At(Step(s, m), i, Holding)
    ensures At(s, i, Passed) && s.catalog && Step(s, m) == Goto(s, i, Holding)
  {
  }
}
