/**
  The sliding-window retry limit (lib/voltage_control/vc_channel.c:351-431):
  the bounded shifting buffer decides as the unbounded log would, and retries
  are rate-limited over whole runs, even across the wrap of the 32-bit uptime.
 */
module ChannelRetry {
  import opened CInt
  import opened VcTypes
  import opened ChannelSpec
  import opened ChannelSafety

  predicate Sorted(s: seq<nat>) {
    forall i, j :: 0 <= i <= j < |s| ==> s[i] <= s[j]
  }

  // The part of the log that the buffer still covers.
  function Covered(log: seq<nat>): seq<nat> {
    if |log| <= MAX_RETRY_HISTORY then log else log[|log| - MAX_RETRY_HISTORY..]
  }

  predicate RetryInv(c: State) {
    && c.uptime == ToUint32(c.now)
    && |c.retries| == |Covered(c.log)|
    && (forall i :: 0 <= i < |c.retries| ==> c.retries[i] == ToUint32(Covered(c.log)[i]))
    && Sorted(c.log)
    && (forall i :: 0 <= i < |c.log| ==> c.log[i] <= c.now)
  }

  // ---- Counting ----

  // How many entries lie in the window that ends at `now`, without wrapping.
  function InWindow(log: seq<nat>, now: nat, windowMs: int): nat {
    if log == [] then 0
    else
      var last := |log| - 1;
      InWindow(log[..last], now, windowMs) + if now - log[last] <= windowMs then 1 else 0
  }

  lemma InWindowBound(log: seq<nat>, now: nat, windowMs: int)
    ensures InWindow(log, now, windowMs) <= |log|
  {
  }

  lemma {:induction false} InWindowConcat(a: seq<nat>, b: seq<nat>, now: nat, windowMs: int)
    ensures InWindow(a + b, now, windowMs) == InWindow(a, now, windowMs) + InWindow(b, now, windowMs)
    decreases |b|
  {
    if b == [] {
      assert a + b == a;
    } else {
      var last := |b| - 1;
      assert (a + b)[..|a| + last] == a + b[..last];
      InWindowConcat(a, b[..last], now, windowMs);
    }
  }

  lemma {:induction false} AllInWindow(log: seq<nat>, now: nat, windowMs: int)
    requires forall i :: 0 <= i < |log| ==> now - log[i] <= windowMs
    ensures InWindow(log, now, windowMs) == |log|
  {
    if log != [] {
      AllInWindow(log[..|log| - 1], now, windowMs);
    }
  }

  lemma {:induction false} NoneInWindow(log: seq<nat>, now: nat, windowMs: int)
    requires forall i :: 0 <= i < |log| ==> now - log[i] > windowMs
    ensures InWindow(log, now, windowMs) == 0
  {
    if log != [] {
      NoneInWindow(log[..|log| - 1], now, windowMs);
    }
  }

  function Min(a: nat, b: nat): nat {
    if a < b then a else b
  }

  // Dropping old entries loses nothing below the capacity.
  lemma CoveredDecides(log: seq<nat>, now: nat, windowMs: int)
    requires Sorted(log)
    ensures InWindow(Covered(log), now, windowMs) == Min(MAX_RETRY_HISTORY, InWindow(log, now, windowMs))
  {
    if |log| <= MAX_RETRY_HISTORY {
      InWindowBound(log, now, windowMs);
    } else {
      var cut := |log| - MAX_RETRY_HISTORY;
      var old_, kept := log[..cut], log[cut..];
      assert log == old_ + kept;
      InWindowConcat(old_, kept, now, windowMs);
      if now - old_[cut - 1] <= windowMs {
        AllInWindow(kept, now, windowMs);
      } else {
        NoneInWindow(old_, now, windowMs);
        InWindowBound(kept, now, windowMs);
      }
    }
  }

  // An entry so old that its age, taken modulo 2^32, falls into the window again.
  predicate Aliased(now: nat, entry: nat, windowMs: int) {
    now - entry > windowMs && ToUint32(now - entry) <= windowMs
  }

  lemma WrappedAge(now: nat, entry: nat)
    requires entry <= now
    ensures ToUint32(ToUint32(now) - ToUint32(entry)) == ToUint32(now - entry)
    ensures ToUint32(now - entry) <= now - entry
  {
  }

  /**
    The wrapping count over the buffer is never below the true count, and the
    two are equal exactly when no entry is aliased.
   */
  lemma {:induction false} WrappedCount(stamps: seq<uint32>, entries: seq<nat>, now: nat, windowMs: int)
    requires |stamps| == |entries|
    requires forall i :: 0 <= i < |entries| ==> entries[i] <= now && stamps[i] == ToUint32(entries[i])
    ensures InWindow(entries, now, windowMs) <= CountRecent(stamps, ToUint32(now), windowMs)
    ensures InWindow(entries, now, windowMs) == CountRecent(stamps, ToUint32(now), windowMs) <==>
            forall i :: 0 <= i < |entries| ==> !Aliased(now, entries[i], windowMs)
  {
    if entries != [] {
      var last := |entries| - 1;
      WrappedCount(stamps[..last], entries[..last], now, windowMs);
      WrappedAge(now, entries[last]);
      assert forall i :: 0 <= i < last ==> entries[..last][i] == entries[i];
    }
  }

  ghost predicate NoAliases(c: State) {
    var entries := Covered(c.log);
    forall i :: 0 <= i < |entries| ==> !Aliased(c.now, entries[i], c.cfg.retryWindow * 1000)
  }

  /**
    The buffer refines the log: what is counted is the number of in-window
    entries of the whole log, capped at the capacity, exactly when no covered
    entry is aliased by the wrap of the uptime counter. Aliases only overcount.
   */
  lemma BufferRefinesLog(c: State)
    requires RetryInv(c)
    ensures CountActiveRetries(c) >= Min(MAX_RETRY_HISTORY, InWindow(c.log, c.now, c.cfg.retryWindow * 1000))
    ensures CountActiveRetries(c) == Min(MAX_RETRY_HISTORY, InWindow(c.log, c.now, c.cfg.retryWindow * 1000))
            <==> NoAliases(c)
  {
    var windowMs := c.cfg.retryWindow * 1000;
    CoveredDecides(c.log, c.now, windowMs);
    WrappedCount(c.retries, Covered(c.log), c.now, windowMs);
  }

  // Before the counter first wraps nothing is aliased.
  lemma NoAliasesBeforeWrap(c: State)
    requires RetryInv(c) && c.now < TWO_32
    ensures NoAliases(c)
  {
  }

  // So "retry or exhaust" is decided as the unbounded log would decide it.
  lemma DecisionMatchesLog(c: State)
    requires RetryInv(c) && NoAliases(c) && c.cfg.retryMax <= MAX_RETRY_HISTORY
    ensures CountActiveRetries(c) < c.cfg.retryMax <==>
            InWindow(c.log, c.now, c.cfg.retryWindow * 1000) < c.cfg.retryMax
  {
    BufferRefinesLog(c);
  }

  lemma {:induction false} CountBound(stamps: seq<uint32>, up: uint32, windowMs: int)
    ensures CountRecent(stamps, up, windowMs) <= |stamps|
  {
    if stamps != [] {
      CountBound(stamps[..|stamps| - 1], up, windowMs);
    }
  }

  // A limit above the capacity is never reached.
  lemma LimitOutOfReach(c: State)
    requires RetryInv(c) && c.cfg.retryMax > MAX_RETRY_HISTORY
    ensures CountActiveRetries(c) < c.cfg.retryMax
  {
    CountBound(c.retries, c.uptime, c.cfg.retryWindow * 1000);
  }

  // For every log, the decision taken with this limit is the log's.
  ghost predicate DecidesAsLog(limit: uint16) {
    forall c: State :: RetryInv(c) && NoAliases(c) && c.cfg.retryMax == limit ==>
      (CountActiveRetries(c) < limit <==> InWindow(c.log, c.now, c.cfg.retryWindow * 1000) < limit)
  }

  // A log that has just reached the limit, all of it at time zero.
  function FullState(limit: uint16): State {
    var zeros := seq(limit, _ => 0);
    Init(Caps(true, true, true, true), DefaultConfig().(retryMax := limit), DefaultCalibration())
    .(log := zeros, retries := seq(|Covered(zeros)|, _ => 0))
  }

  /**
    The bounded buffer decides as the unbounded log, for every log, if and only
    if the limit does not exceed the capacity. Only the field write checks it.
   */
  lemma DecidesAsLogExactly(limit: uint16)
    ensures DecidesAsLog(limit) <==> limit <= MAX_RETRY_HISTORY
  {
    if limit <= MAX_RETRY_HISTORY {
      forall c: State | RetryInv(c) && NoAliases(c) && c.cfg.retryMax == limit
        ensures CountActiveRetries(c) < limit <==> InWindow(c.log, c.now, c.cfg.retryWindow * 1000) < limit
      {
        DecisionMatchesLog(c);
      }
    } else {
      var c := FullState(limit);
      assert RetryInv(c);
      NoAliasesBeforeWrap(c);
      LimitOutOfReach(c);
      AllInWindow(c.log, c.now, c.cfg.retryWindow * 1000);
    }
  }

  // One retry, then 2^32 ms: the old entry is counted again.
  lemma AliasingHappens(c: State)
    requires RetryInv(c) && c.log == [0] && c.now == TWO_32
    ensures CountActiveRetries(c) == 1 && InWindow(c.log, c.now, c.cfg.retryWindow * 1000) == 0
  {
    assert Covered(c.log) == c.log && c.retries == [0];
    assert c.retries[..0] == [] && c.log[..0] == [];
    assert CountRecent(c.retries[..0], c.uptime, c.cfg.retryWindow * 1000) == 0;
    assert InWindow(c.log[..0], c.now, c.cfg.retryWindow * 1000) == 0;
  }

  // ---- The invariant over runs ----

  lemma RecordKeepsInv(c: State)
    requires RetryInv(c)
    ensures RetryInv(RecordRetry(c))
  {
    var c' := RecordRetry(c);
    assert |c.log| > MAX_RETRY_HISTORY ==> Covered(c'.log) == Covered(c.log)[1..] + [c.now];
    assert |c.log| == MAX_RETRY_HISTORY ==> Covered(c'.log) == c.log[1..] + [c.now];
  }

  // What matters here of an outcome `c'` of a tick that started in `c`.
  predicate RetriesKept(c: State, c': State) {
    && RetryInv(c')
    && c'.now == c.now
    && (c'.log == c.log || (c'.log == c.log + [c.now] && CountActiveRetries(c) < c.cfg.retryMax))
  }

  lemma OutcomeKeepsRetries(c: State)
    requires RetryInv(c)
    ensures RetriesKept(c, RetryOrExhaust(c))
  {
    hide HwCode, HwEnable, RetryInv, CountActiveRetries;
    RecordKeepsInv(c);
    if RetryAllowed(c) {
      SameRetries(RecordRetry(c), RetryOrExhaust(c));
    } else {
      SameRetries(c, RetryOrExhaust(c));
    }
  }

  lemma SameRetries(c: State, c': State)
    requires c'.retries == c.retries && c'.log == c.log && c'.now == c.now && c'.uptime == c.uptime
    requires c'.cfg == c.cfg
    ensures RetryInv(c) ==> RetryInv(c')
    ensures CountActiveRetries(c) == CountActiveRetries(c')
  {
  }

  lemma RecoveryKeepsInv(c: State, mode: uint16, dt: uint32)
    requires RetryInv(c)
    ensures RetriesKept(c, TickRecovery(c, mode, dt))
  {
    hide RetryInv, CountActiveRetries, RetryOrExhaust;
    var c1 := if c.drive.smf == RetryCooldown then c
              else c.(drive := c.drive.(cooldown := c.cfg.retryDelay * 1000, smf := RetryCooldown));
    var c2 := c1.(drive := c1.drive.(cooldown := 0));
    SameRetries(c, c2);
    OutcomeKeepsRetries(c2);
    if RecoveryActive(c, mode) && c1.drive.cooldown > dt {
      SameRetries(c, TickRecovery(c, mode, dt));
    }
  }

  lemma StepKeepsRetry(c: State, e: Event)
    requires RetryInv(c)
    ensures RetryInv(Step(c, e))
    ensures Step(c, e).log == c.log || (Step(c, e).log == c.log + [c.now] && CountActiveRetries(c) < c.cfg.retryMax)
  {
    match e {
      case RecoveryTick(mode, dt) => RecoveryKeepsInv(c, mode, dt);
      case Field(field, value) => FieldLeavesRetries(c, field, value);
      case _ => OthersLeaveRetries(c, e);
    }
  }

  lemma FieldLeavesRetries(c: State, field: ConfigField, value: uint16)
    requires RetryInv(c)
    ensures var c' := SetField(c, field, value).0;
            RetryInv(c') && c'.log == c.log
  {
    FieldWrite(c, field, value);
    var c' := SetField(c, field, value).0;
    assert c'.retries == c.retries && c'.log == c.log && c'.now == c.now && c'.uptime == c.uptime;
    match field { case _ => }
  }

  lemma OnlyRecoveryRecords(c: State, e: Event)
    requires !e.RecoveryTick? && !e.Field?
    ensures var c' := Step(c, e);
            && c'.retries == c.retries && c'.log == c.log
            && (e.Elapse? || (c'.now == c.now && c'.uptime == c.uptime))
  {
    hide HwCode, HwEnable, Gain;
  }

  lemma OthersLeaveRetries(c: State, e: Event)
    requires RetryInv(c) && !e.RecoveryTick? && !e.Field?
    ensures RetryInv(Step(c, e)) && Step(c, e).log == c.log
  {
    OnlyRecoveryRecords(c, e);
    if !e.Elapse? {
      hide Step;
    }
  }

  lemma InitRetry(caps: Caps, cfg: Config, cal: Calibration)
    ensures RetryInv(Init(caps, cfg, cal))
  {
  }

  lemma {:induction false} RetryInvOnEveryRun(c: State, es: seq<Event>)
    requires RetryInv(c)
    ensures RetryInv(Exec(c, es))
  {
    if es != [] {
      var last := |es| - 1;
      RetryInvOnEveryRun(c, es[..last]);
      StepKeepsRetry(Exec(c, es[..last]), es[last]);
    }
  }

  // ---- The rate limit ----

  // When the m-th entry from the end is in the window, so are all after it.
  lemma ManyInWindow(log: seq<nat>, now: nat, windowMs: int, m: nat)
    requires Sorted(log) && 0 < m <= |log| && now - log[|log| - m] <= windowMs
    ensures InWindow(log, now, windowMs) >= m
  {
    var n := |log|;
    var recent := log[n - m..];
    AllInWindow(recent, now, windowMs);
    InWindowConcat(log[..n - m], recent, now, windowMs);
    assert log == log[..n - m] + recent;
  }

  // A retry admitted now lies outside the window of the retry `retryMax` before it.
  lemma AdmittedRetryIsSpaced(c: State)
    requires RetryInv(c) && CountActiveRetries(c) < c.cfg.retryMax <= |c.log|
    requires c.cfg.retryMax <= MAX_RETRY_HISTORY
    ensures c.now - c.log[|c.log| - c.cfg.retryMax] > c.cfg.retryWindow * 1000
  {
    hide CountActiveRetries, InWindow;
    var windowMs, m, n := c.cfg.retryWindow * 1000, c.cfg.retryMax, |c.log|;
    if c.now - c.log[n - m] <= windowMs {
      ManyInWindow(c.log, c.now, windowMs, m);
      BufferRefinesLog(c);
    }
  }

  // Entries from position `from` on: any one and the one `limit` before it lie
  // more than `window` seconds apart.
  predicate Spaced(log: seq<nat>, from: nat, window: nat, limit: nat) {
    forall j :: from <= j < |log| && limit <= j ==> log[j] - log[j - limit] > window * 1000
  }

  // A configuration within window and limit; a limit of zero records nothing.
  predicate Within(cfg: Config, window: nat, limit: nat) {
    cfg.retryMax == 0 || (cfg.retryWindow >= window && cfg.retryMax <= limit)
  }

  lemma StepKeepsSpacing(c: State, e: Event, from: nat, window: nat, limit: nat)
    requires RetryInv(c) && Spaced(c.log, from, window, limit)
    requires Within(c.cfg, window, limit) && limit <= MAX_RETRY_HISTORY
    ensures Spaced(Step(c, e).log, from, window, limit)
  {
    StepKeepsRetry(c, e);
    var n := |c.log|;
    if Step(c, e).log != c.log && limit <= n {
      AdmittedRetryIsSpaced(c);
      assert c.log[n - limit] <= c.log[n - c.cfg.retryMax];
    }
  }

  lemma {:induction false} SpacingOnEveryRun(c: State, es: seq<Event>, from: nat, window: nat, limit: nat)
    requires RetryInv(c) && limit <= MAX_RETRY_HISTORY && Spaced(c.log, from, window, limit)
    requires forall n :: 0 <= n < |es| ==> Within(Exec(c, es[..n]).cfg, window, limit)
    ensures Spaced(Exec(c, es).log, from, window, limit)
  {
    hide Step, RetryInv;
    if es != [] {
      var last := |es| - 1;
      var before := es[..last];
      assert forall n | 0 <= n <= last :: es[..n] == before[..n];
      SpacingOnEveryRun(c, before, from, window, limit);
      RetryInvOnEveryRun(c, before);
      assert before[..last] == before;
      StepKeepsSpacing(Exec(c, before), es[last], from, window, limit);
    }
  }

  /**
    Rate limit over whole runs. As long as the configured limit is zero or the
    configured window at least `window` and the configured limit at most `limit`
    (they may otherwise be rewritten), any `limit` + 1 consecutive retries of which the last one is
    recorded during the run span more than `window` seconds of uptime. With
    `limit` zero, none is recorded.
   */
  lemma RetryRateLimit(c: State, es: seq<Event>, window: nat, limit: nat)
    requires RetryInv(c) && limit <= MAX_RETRY_HISTORY
    requires forall n :: 0 <= n < |es| ==> Within(Exec(c, es[..n]).cfg, window, limit)
    ensures Spaced(Exec(c, es).log, |c.log|, window, limit)
  {
    SpacingOnEveryRun(c, es, |c.log|, window, limit);
  }
}
