/**
 * The circuit breaker: closed, open and half-open, a lazily pruned rolling window of failures, and a
 * bounded number of half-open probes. A call is two steps, admission and outcome, and any number of
 * calls overlap, across any state changes. The proofs compare the breaker with the full log of what
 * was recorded.
 */
module CircuitBreaker {
  import opened Prelude

  datatype Mode = Closed | Open | HalfOpen

  datatype Config = Config(failureThreshold: nat, successThreshold: nat, timeoutMs: nat, windowMs: nat, trialCount: nat)

  datatype Breaker = Breaker(
    mode: Mode, failures: seq<int>, failureCount: nat, successCount: nat, openedAt: Option<int>, halfOpenCalls: nat)

  const FRESH := Breaker(Closed, [], 0, 0, None, 0)

  /** The constructor clamps every setting to at least 1. */
  predicate Clamped(c: Config) {
    c.failureThreshold >= 1 && c.successThreshold >= 1 && c.timeoutMs >= 1 && c.windowMs >= 1 && c.trialCount >= 1
  }

  // ---------------------------------------------------------------- the breaker's operations, on values

  function NotBefore(times: seq<int>, cutoff: int): seq<int> {
    if times == [] then []
    else
      var n := |times| - 1;
      NotBefore(times[..n], cutoff) + (if times[n] >= cutoff then [times[n]] else [])
  }

  function Prune(c: Config, b: Breaker, now: int): Breaker {
    var kept := NotBefore(b.failures, now - c.windowMs);
    b.(failures := kept, failureCount := if b.mode.Closed? then |kept| else b.failureCount)
  }

  function TransitionTo(b: Breaker, mode: Mode, now: int): Breaker {
    if b.mode == mode then b
    else b.(mode := mode, failureCount := 0, failures := [], successCount := 0,
            openedAt := if mode.Open? then Some(now) else None)
  }

  function MoveToHalfOpenIfReady(c: Config, b: Breaker, now: int): Breaker {
    if b.mode.Open? && b.openedAt.Some? && now - b.openedAt.value >= c.timeoutMs then TransitionTo(b, HalfOpen, now)
    else b
  }

  function RecordSuccess(c: Config, b: Breaker, now: int): Breaker {
    match b.mode
    case HalfOpen =>
      var b1 := b.(successCount := b.successCount + 1);
      if b1.successCount >= c.successThreshold then TransitionTo(b1, Closed, now) else b1
    case Closed => b.(failureCount := 0, failures := [])
    case Open => b
  }

  function RecordFailure(c: Config, b: Breaker, now: int): Breaker {
    match b.mode
    case HalfOpen => TransitionTo(b, Open, now)
    case Closed =>
      var b1 := Prune(c, b.(failures := b.failures + [now]), now);
      if b1.failureCount >= c.failureThreshold then TransitionTo(b1, Open, now) else b1
    case Open => b
  }

  datatype Admission = Refused | Admitted(probing: bool)

  function Admit(c: Config, b: Breaker): Admission {
    if b.mode.Open? || (b.mode.HalfOpen? && b.halfOpenCalls >= c.trialCount) then Refused
    else Admitted(b.mode.HalfOpen?)
  }

  function Enter(b: Breaker, a: Admission): Breaker {
    if a == Admitted(true) then b.(halfOpenCalls := b.halfOpenCalls + 1) else b
  }

  function Leave(b: Breaker, probing: bool): Breaker {
    if probing then b.(halfOpenCalls := Max(0, b.halfOpenCalls - 1)) else b
  }

  // ---------------------------------------------------------------- overlapping calls and the full log

  type CallId = nat

  /** Outcome of a call: a dependency failure counts against the breaker, any other error counts nowhere. */
  datatype Outcome = Succeeded | Failed | Ignored

  datatype Event = Success | Failure(at: int) | Changed(mode: Mode, at: int) | Reset

  /** `calls` are the admitted calls still running, each with its probing flag; `log` is the whole history. */
  datatype Sys = Sys(b: Breaker, now: int, calls: map<CallId, bool>, log: seq<Event>)

  datatype Step =
    | Tick(now: int)
    | Inspect                          // getState, isOpen
    | Count                            // getFailureCount
    | Call(id: CallId)
    | Settle(id: CallId, outcome: Outcome)
    | ManualReset

  /** The log after the breaker went from b to b', recording `event` on the way. */
  function Logged(y: Sys, events: seq<Event>, b': Breaker): Sys {
    y.(b := b', log := y.log + events + (if b'.mode == y.b.mode then [] else [Changed(b'.mode, y.now)]))
  }

  function Opened(c: Config, y: Sys): Sys {
    Logged(y, [], MoveToHalfOpenIfReady(c, y.b, y.now))
  }

  function Recorded(c: Config, y: Sys, outcome: Outcome): Sys {
    match outcome
    case Succeeded => Logged(y, [Success], RecordSuccess(c, y.b, y.now))
    case Failed => Logged(y, [Failure(y.now)], RecordFailure(c, y.b, y.now))
    case Ignored => y
  }

  ghost predicate Next(c: Config, y: Sys, step: Step, y': Sys) {
    match step
    case Tick(now) => y.now <= now && y' == y.(now := now)
    case Inspect => y' == Opened(c, y)
    case Count => y' == Logged(y, [], Prune(c, y.b, y.now))
    case Call(id) =>
      && id !in y.calls
      && var y1 := Opened(c, y);
         var a := Admit(c, y1.b);
         y' == y1.(b := Enter(y1.b, a), calls := if a.Admitted? then y1.calls[id := a.probing] else y1.calls)
    case Settle(id, outcome) =>
      && id in y.calls
      && var y1 := Recorded(c, y, outcome);
         y' == y1.(b := Leave(y1.b, y.calls[id]), calls := y1.calls - {id})
    case ManualReset => y' == Logged(y, [Reset], TransitionTo(y.b, Closed, y.now))
  }

  ghost predicate Init(y: Sys) {
    y.b == FRESH && y.calls == map[] && y.log == []
  }

  ghost predicate StepAt(c: Config, ys: seq<Sys>, steps: seq<Step>, k: nat)
    requires k < |steps| && |ys| == |steps| + 1
  {
    Next(c, ys[k], steps[k], ys[k + 1])
  }

  ghost predicate Run(c: Config, ys: seq<Sys>, steps: seq<Step>) {
    |ys| == |steps| + 1 && Init(ys[0]) && forall k :: 0 <= k < |steps| ==> StepAt(c, ys, steps, k)
  }

  // ---------------------------------------------------------------- what the log says

  /** All failures recorded since the last success or state change. */
  function FailuresSince(log: seq<Event>): seq<int> {
    if log == [] then []
    else match log[|log| - 1]
      case Failure(t) => FailuresSince(log[..|log| - 1]) + [t]
      case Reset => FailuresSince(log[..|log| - 1])
      case _ => []
  }

  /** Successes recorded at the end of the log, and the event they follow. */
  function Streak(log: seq<Event>): nat {
    if log != [] && log[|log| - 1].Success? then Streak(log[..|log| - 1]) + 1 else 0
  }

  function BeforeStreak(log: seq<Event>): Option<Event> {
    if log == [] then None
    else if log[|log| - 1].Success? then BeforeStreak(log[..|log| - 1])
    else Some(log[|log| - 1])
  }

  /** When the breaker last opened, unless it was reset by hand since. */
  function LastOpening(log: seq<Event>): Option<int> {
    if log == [] then None
    else match log[|log| - 1]
      case Changed(Open, t) => Some(t)
      case Reset => None
      case _ => LastOpening(log[..|log| - 1])
  }

  ghost function Probes(y: Sys): set<CallId> {
    set id | id in y.calls && y.calls[id]
  }

  // ---------------------------------------------------------------- invariants

  /** Within the window that ends now, the pruned list agrees with the list of all failures that count. */
  ghost predicate WindowOk(c: Config, b: Breaker, now: int, full: seq<int>) {
    if b.mode.Closed? then NotBefore(b.failures, now - c.windowMs) == NotBefore(full, now - c.windowMs)
    else b.failures == [] && b.failureCount == 0
  }

  ghost predicate ProbesOk(c: Config, y: Sys) {
    y.b.halfOpenCalls == |Probes(y)| <= c.trialCount
  }

  ghost predicate CooldownOk(c: Config, y: Sys) {
    var last := LastOpening(y.log);
    match y.b.mode
    case Open => y.b.openedAt.Some? && last == y.b.openedAt
    case HalfOpen => y.b.openedAt.None? && last.Some? && last.value + c.timeoutMs <= y.now
    case Closed => y.b.openedAt.None? && (last.Some? ==> last.value + c.timeoutMs <= y.now)
  }

  ghost predicate StreakOk(c: Config, y: Sys) {
    y.b.mode.HalfOpen? ==>
      && y.b.successCount == Streak(y.log) < c.successThreshold
      && BeforeStreak(y.log).Some? && BeforeStreak(y.log).value.Changed? && BeforeStreak(y.log).value.mode.HalfOpen?
  }

  ghost predicate Inv(c: Config, y: Sys) {
    WindowOk(c, y.b, y.now, FailuresSince(y.log)) && ProbesOk(c, y) && CooldownOk(c, y) && StreakOk(c, y)
  }

  // ---------------------------------------------------------------- window lemmas

  lemma {:induction false} PruningTwice(times: seq<int>, j: int, k: int)
    requires j <= k
    ensures NotBefore(NotBefore(times, j), k) == NotBefore(times, k)
  {
    if times != [] {
      var n := |times| - 1;
      PruningTwice(times[..n], j, k);
      var kept := NotBefore(times[..n], j);
      if times[n] >= j {
        assert (kept + [times[n]])[..|kept|] == kept;
      } else {
        assert kept + [] == kept;
      }
    }
  }

  lemma {:induction false} PruneAppend(times: seq<int>, t: int, k: int)
    ensures NotBefore(times + [t], k) == NotBefore(times, k) + (if t >= k then [t] else [])
  {
    assert (times + [t])[..|times|] == times;
  }

  lemma {:induction false} LogAppend(log: seq<Event>, e: Event)
    ensures var l := log + [e];
      && FailuresSince(l) ==
           (match e case Failure(t) => FailuresSince(log) + [t] case Reset => FailuresSince(log) case _ => [])
      && Streak(l) == (if e.Success? then Streak(log) + 1 else 0)
      && BeforeStreak(l) == (if e.Success? then BeforeStreak(log) else Some(e))
      && LastOpening(l) == (match e case Changed(Open, t) => Some(t) case Reset => None case _ => LastOpening(log))
  {
    assert (log + [e])[..|log|] == log;
  }

  // ---------------------------------------------------------------- steps keep the invariants

  /** Whenever the mode changes, the window starts over and a Changed event ends the log. */
  lemma {:induction false} LoggedLog(c: Config, y: Sys, events: seq<Event>, b': Breaker)
    requires |events| <= 1
    ensures var y' := Logged(y, events, b');
      && (events == [] ==> y'.log == if b'.mode == y.b.mode then y.log else y.log + [Changed(b'.mode, y.now)])
      && (events != [] ==> y'.log == if b'.mode == y.b.mode then y.log + [events[0]]
        else y.log + [events[0]] + [Changed(b'.mode, y.now)])
  {
    assert events != [] ==> events == [events[0]];
    assert y.log + [] + [] == y.log;
  }

  lemma {:induction false} OpenedKeepsInv(c: Config, y: Sys)
    requires Clamped(c) && Inv(c, y)
    ensures Inv(c, Opened(c, y)) && Probes(Opened(c, y)) == Probes(y)
  {
    var b' := MoveToHalfOpenIfReady(c, y.b, y.now);
    LoggedLog(c, y, [], b');
    LogAppend(y.log, Changed(b'.mode, y.now));
  }

  lemma {:induction false} SuccessKeepsInv(c: Config, y: Sys)
    requires Clamped(c) && Inv(c, y)
    ensures Inv(c, Recorded(c, y, Succeeded))
  {
    var b' := RecordSuccess(c, y.b, y.now);
    LoggedLog(c, y, [Success], b');
    LogAppend(y.log, Success);
    LogAppend(y.log + [Success], Changed(b'.mode, y.now));
  }

  lemma {:induction false} AppendWindow(kept: seq<int>, full: seq<int>, t: int, cut: int)
    requires NotBefore(kept, cut) == NotBefore(full, cut)
    ensures NotBefore(kept + [t], cut) == NotBefore(full + [t], cut)
  {
    PruneAppend(kept, t, cut);
    PruneAppend(full, t, cut);
  }

  /** The pruned list after a failure agrees with the full list with that failure. */
  lemma {:induction false} PrunedAppend(kept: seq<int>, full: seq<int>, t: int, cut: int)
    requires NotBefore(kept, cut) == NotBefore(full, cut)
    ensures NotBefore(NotBefore(kept + [t], cut), cut) == NotBefore(full + [t], cut)
  {
    var longer := kept + [t];
    PruningTwice(longer, cut, cut);
    AppendWindow(kept, full, t, cut);
  }

  /** Time only narrows the window. */
  lemma {:induction false} TickKeepsWindow(c: Config, b: Breaker, now: int, now': int, full: seq<int>)
    requires WindowOk(c, b, now, full) && now <= now'
    ensures WindowOk(c, b, now', full)
  {
    PruningTwice(b.failures, now - c.windowMs, now' - c.windowMs);
    PruningTwice(full, now - c.windowMs, now' - c.windowMs);
  }

  /** What a failure does to a closed breaker and to the log. */
  lemma {:induction false} FailureResult(c: Config, y: Sys)
    requires y.b.mode.Closed?
    ensures var y', kept := Recorded(c, y, Failed), NotBefore(y.b.failures + [y.now], y.now - c.windowMs);
      && y'.now == y.now && y'.calls == y.calls && y'.b.halfOpenCalls == y.b.halfOpenCalls
      && if |kept| >= c.failureThreshold
         then y'.b.mode.Open? && y'.b.failures == [] && y'.b.failureCount == 0 && y'.b.openedAt == Some(y.now)
           && y'.log == y.log + [Failure(y.now)] + [Changed(Open, y.now)]
         else y'.b == y.b.(failures := kept, failureCount := |kept|) && y'.log == y.log + [Failure(y.now)]
  {
    LoggedLog(c, y, [Failure(y.now)], RecordFailure(c, y.b, y.now));
  }

  lemma {:induction false} FailureWhileClosed(c: Config, y: Sys)
    requires Clamped(c) && Inv(c, y) && y.b.mode.Closed?
    ensures Inv(c, Recorded(c, y, Failed))
  {
    var y' := Recorded(c, y, Failed);
    FailureResult(c, y);
    if y'.b.mode.Closed? {
      PrunedAppend(y.b.failures, FailuresSince(y.log), y.now, y.now - c.windowMs);
      LoggedFailure(c, y, y');
    } else {
      OpeningFailure(c, y, y');
    }
  }

  lemma {:induction false} LoggedFailure(c: Config, y: Sys, y': Sys)
    requires Inv(c, y) && y.b.mode.Closed? && y'.b.mode.Closed? && y'.now == y.now && y'.calls == y.calls
    requires y'.b.openedAt == y.b.openedAt && y'.b.halfOpenCalls == y.b.halfOpenCalls
    requires y'.log == y.log + [Failure(y.now)]
    requires WindowOk(c, y'.b, y.now, FailuresSince(y.log) + [y.now])
    ensures Inv(c, y')
  {
    LogAppend(y.log, Failure(y.now));
    assert Probes(y') == Probes(y);
  }

  lemma {:induction false} OpeningFailure(c: Config, y: Sys, y': Sys)
    requires Inv(c, y) && y.b.mode.Closed? && y'.b.mode.Open? && y'.now == y.now && y'.calls == y.calls
    requires y'.b.halfOpenCalls == y.b.halfOpenCalls && y'.b.failures == [] && y'.b.failureCount == 0
    requires y'.b.openedAt == Some(y.now)
    requires y'.log == y.log + [Failure(y.now)] + [Changed(Open, y.now)]
    ensures Inv(c, y')
  {
    LogAppend(y.log + [Failure(y.now)], Changed(Open, y.now));
    assert Probes(y') == Probes(y);
  }

  lemma {:induction false} FailureKeepsInv(c: Config, y: Sys)
    requires Clamped(c) && Inv(c, y)
    ensures Inv(c, Recorded(c, y, Failed))
  {
    if y.b.mode.Closed? {
      FailureWhileClosed(c, y);
    } else {
      var b' := RecordFailure(c, y.b, y.now);
      LoggedLog(c, y, [Failure(y.now)], b');
      LogAppend(y.log, Failure(y.now));
      LogAppend(y.log + [Failure(y.now)], Changed(b'.mode, y.now));
      assert Probes(Recorded(c, y, Failed)) == Probes(y);
    }
  }

  lemma {:induction false} ResetKeepsInv(c: Config, y: Sys)
    requires Clamped(c) && Inv(c, y)
    ensures Inv(c, Logged(y, [Reset], TransitionTo(y.b, Closed, y.now)))
  {
    var b' := TransitionTo(y.b, Closed, y.now);
    LoggedLog(c, y, [Reset], b');
    LogAppend(y.log, Reset);
    LogAppend(y.log + [Reset], Changed(b'.mode, y.now));
  }

  lemma {:induction false} CountKeepsInv(c: Config, y: Sys)
    requires Inv(c, y)
    ensures Inv(c, Logged(y, [], Prune(c, y.b, y.now)))
  {
    LoggedLog(c, y, [], Prune(c, y.b, y.now));
    PruningTwice(y.b.failures, y.now - c.windowMs, y.now - c.windowMs);
  }

  lemma {:induction false} CallKeepsInv(c: Config, y: Sys, id: CallId, y': Sys)
    requires Clamped(c) && Inv(c, y) && Next(c, y, Call(id), y')
    ensures Inv(c, y')
  {
    var y1 := Opened(c, y);
    OpenedKeepsInv(c, y);
    assert y'.log == y1.log && y'.now == y1.now;
    if Admit(c, y1.b) == Admitted(true) {
      assert Probes(y') == Probes(y) + {id};
    } else {
      assert Probes(y') == Probes(y);
    }
  }

  lemma {:induction false} RecordedKeepsInv(c: Config, y: Sys, outcome: Outcome)
    requires Clamped(c) && Inv(c, y)
    ensures Inv(c, Recorded(c, y, outcome)) && Probes(Recorded(c, y, outcome)) == Probes(y)
  {
    match outcome {
      case Succeeded => SuccessKeepsInv(c, y);
      case Failed => FailureKeepsInv(c, y);
      case Ignored =>
    }
  }

  lemma {:induction false} SettleKeepsInv(c: Config, y: Sys, id: CallId, outcome: Outcome, y': Sys)
    requires Clamped(c) && Inv(c, y) && Next(c, y, Settle(id, outcome), y')
    ensures Inv(c, y')
  {
    var y1 := Recorded(c, y, outcome);
    RecordedKeepsInv(c, y, outcome);
    LeavingKeepsInv(c, y1, y');
    assert Probes(y') == Probes(y) - {id};
    if y.calls[id] { assert id in Probes(y); } else { assert id !in Probes(y); }
  }

  /** Running calls take no part in the window, the cool-down or the success streak. */
  lemma {:induction false} LeavingKeepsInv(c: Config, y: Sys, y': Sys)
    requires Inv(c, y) && y'.now == y.now && y'.log == y.log && y'.b == y.b.(halfOpenCalls := y'.b.halfOpenCalls)
    ensures WindowOk(c, y'.b, y'.now, FailuresSince(y'.log)) && CooldownOk(c, y') && StreakOk(c, y')
  {
  }

  lemma {:induction false} StepKeepsInv(c: Config, y: Sys, step: Step, y': Sys)
    requires Clamped(c) && Inv(c, y) && Next(c, y, step, y')
    ensures Inv(c, y')
  {
    match step
    case Tick(now) =>
      TickKeepsWindow(c, y.b, y.now, now, FailuresSince(y.log));
      assert Probes(y') == Probes(y);
    case Inspect => OpenedKeepsInv(c, y);
    case Count => CountKeepsInv(c, y);
    case ManualReset => ResetKeepsInv(c, y);
    case Call(id) => CallKeepsInv(c, y, id, y');
    case Settle(id, outcome) => SettleKeepsInv(c, y, id, outcome, y');
  }

  lemma {:induction false} RunKeepsInv(c: Config, ys: seq<Sys>, steps: seq<Step>, n: nat)
    requires Clamped(c) && Run(c, ys, steps) && n < |ys|
    ensures Inv(c, ys[n])
  {
    if n == 0 {
      assert Probes(ys[0]) == {};
    } else {
      RunKeepsInv(c, ys, steps, n - 1);
      assert StepAt(c, ys, steps, n - 1);
      StepKeepsInv(c, ys[n - 1], steps[n - 1], ys[n]);
    }
  }

  // ---------------------------------------------------------------- the promises

  /**
   * In every run, a closed breaker's failure count is the number of failures in the window of the full log; any other
   * breaker reports none.
   */
  lemma {:induction false} LazyWindowIsTheWindow(c: Config, ys: seq<Sys>, steps: seq<Step>, n: nat)
    requires Clamped(c) && Run(c, ys, steps) && n < |ys|
    ensures var window := NotBefore(FailuresSince(ys[n].log), ys[n].now - c.windowMs);
      var counted := if ys[n].b.mode.Closed? then window else [];
      && Prune(c, ys[n].b, ys[n].now).failures == counted
      && Prune(c, ys[n].b, ys[n].now).failureCount == |counted|
  {
    RunKeepsInv(c, ys, steps, n);
  }

  lemma {:induction false} FailureOpensIff(c: Config, b: Breaker, now: int, full: seq<int>)
    requires WindowOk(c, b, now, full) && b.mode.Closed?
    ensures RecordFailure(c, b, now).mode.Open? <==> |NotBefore(full + [now], now - c.windowMs)| >= c.failureThreshold
  {
    AppendWindow(b.failures, full, now, now - c.windowMs);
  }

  lemma {:induction false} OnlyFailureOpens(c: Config, y: Sys, step: Step, y': Sys)
    requires y.b.mode.Closed? && Next(c, y, step, y')
    ensures y'.b.mode.Open? <==> step.Settle? && step.outcome.Failed? && RecordFailure(c, y.b, y.now).mode.Open?
  {
  }

  /** A closed breaker opens exactly on a failure that brings the window of the full log up to the threshold. */
  lemma {:induction false} OpensExactlyAtThreshold(c: Config, ys: seq<Sys>, steps: seq<Step>, n: nat)
    requires Clamped(c) && Run(c, ys, steps) && n < |steps| && ys[n].b.mode.Closed?
    ensures ys[n + 1].b.mode.Open? <==>
      && steps[n].Settle? && steps[n].outcome.Failed?
      && |NotBefore(FailuresSince(ys[n].log) + [ys[n].now], ys[n].now - c.windowMs)| >= c.failureThreshold
  {
    RunKeepsInv(c, ys, steps, n);
    assert StepAt(c, ys, steps, n);
    FailureOpensIff(c, ys[n].b, ys[n].now, FailuresSince(ys[n].log));
    OnlyFailureOpens(c, ys[n], steps[n], ys[n + 1]);
  }

  /**
   * However calls overlap, the half-open counter is the number of probes running; it never passes trialCount and never
   * needs its clamp.
   */
  lemma {:induction false} ProbesAreCounted(c: Config, ys: seq<Sys>, steps: seq<Step>, n: nat)
    requires Clamped(c) && Run(c, ys, steps) && n < |ys|
    ensures ys[n].b.halfOpenCalls == |Probes(ys[n])| <= c.trialCount
    ensures forall id :: id in ys[n].calls && ys[n].calls[id] ==> ys[n].b.halfOpenCalls >= 1
  {
    RunKeepsInv(c, ys, steps, n);
    assert forall id :: id in ys[n].calls && ys[n].calls[id] ==> id in Probes(ys[n]);
  }

  /** Unless it was reset by hand since, no call starts until a full cooldown after the breaker last opened. */
  lemma {:induction false} NoCallDuringCooldown(c: Config, ys: seq<Sys>, steps: seq<Step>, n: nat)
    requires Clamped(c) && Run(c, ys, steps) && n < |steps| && steps[n].Call? && steps[n].id in ys[n + 1].calls
    ensures LastOpening(ys[n].log).Some? ==> LastOpening(ys[n].log).value + c.timeoutMs <= ys[n].now
  {
    RunKeepsInv(c, ys, steps, n);
    assert StepAt(c, ys, steps, n);
  }

  /**
   * Half-open closes, without a reset, exactly on the success that completes successThreshold of them in a row since
   * half-open began.
   */
  lemma {:induction false} ClosesExactlyAfterSuccesses(c: Config, ys: seq<Sys>, steps: seq<Step>, n: nat)
    requires Clamped(c) && Run(c, ys, steps) && n < |steps| && ys[n].b.mode.HalfOpen? && !steps[n].ManualReset?
    ensures BeforeStreak(ys[n].log).Some? && BeforeStreak(ys[n].log).value.Changed?
      && BeforeStreak(ys[n].log).value.mode.HalfOpen?
    ensures ys[n + 1].b.mode.Closed?
      <==> steps[n].Settle? && steps[n].outcome.Succeeded? && Streak(ys[n].log) + 1 == c.successThreshold
  {
    RunKeepsInv(c, ys, steps, n);
    assert StepAt(c, ys, steps, n);
  }

  // ---------------------------------------------------------------- the class

  /**
   * A call is let through exactly when the breaker is closed, or its cool-down is over or it is half-open already, and
   * then only while fewer than `trialCount` probes run; it runs as a probe exactly when the breaker was not closed.
   */
  lemma {:induction false} AdmittedIff(c: Config, ys: seq<Sys>, steps: seq<Step>, n: nat)
    requires Clamped(c) && Run(c, ys, steps) && n < |steps| && steps[n].Call?
    ensures var y, id := ys[n], steps[n].id;
      && (id in ys[n + 1].calls <==>
           || y.b.mode.Closed?
           || (|Probes(y)| < c.trialCount && (y.b.mode.HalfOpen? || CooldownOver(c, y))))
      && (id in ys[n + 1].calls ==> (ys[n + 1].calls[id] <==> !y.b.mode.Closed?))
  {
    RunKeepsInv(c, ys, steps, n);
    assert StepAt(c, ys, steps, n);
  }

  /** The time since the last opening has reached the timeout. */
  ghost predicate CooldownOver(c: Config, y: Sys) {
    y.b.mode.Open? && LastOpening(y.log).Some? && LastOpening(y.log).value + c.timeoutMs <= y.now
  }

  /** An open breaker that is looked at is half-open from that time on, and still open before. */
  lemma {:induction false} InspectedOpenIff(c: Config, ys: seq<Sys>, steps: seq<Step>, n: nat)
    requires Clamped(c) && Run(c, ys, steps) && n < |steps| && steps[n].Inspect? && ys[n].b.mode.Open?
    ensures ys[n + 1].b.mode.HalfOpen? <==> CooldownOver(c, ys[n])
    ensures ys[n + 1].b.mode.Open? <==> !CooldownOver(c, ys[n])
  {
    RunKeepsInv(c, ys, steps, n);
    assert StepAt(c, ys, steps, n);
  }

  /** Every change of mode, and no other: what opens, half-opens and closes a breaker. */
  lemma {:induction false} ModeChangesIff(c: Config, ys: seq<Sys>, steps: seq<Step>, n: nat)
    requires Clamped(c) && Run(c, ys, steps) && n < |steps|
    ensures steps[n].ManualReset? ==> ys[n + 1].b.mode.Closed?
    ensures ys[n].b.mode.Closed? ==> !ys[n + 1].b.mode.HalfOpen?
    ensures ys[n].b.mode.Open? && !steps[n].ManualReset? ==>
      && !ys[n + 1].b.mode.Closed?
      && (ys[n + 1].b.mode.HalfOpen? <==> (steps[n].Inspect? || steps[n].Call?) && CooldownOver(c, ys[n]))
    ensures ys[n].b.mode.HalfOpen? ==> (ys[n + 1].b.mode.Open? <==> steps[n].Settle? && steps[n].outcome.Failed?)
  {
    RunKeepsInv(c, ys, steps, n);
    assert StepAt(c, ys, steps, n);
  }

  class Circuit {
    const config: Config
    var mode: Mode
    var failures: seq<int>
    var failureCount: nat
    var successCount: nat
    var openedAt: Option<int>
    var halfOpenCallsInFlight: nat

    function View(): Breaker reads this {
      Breaker(mode, failures, failureCount, successCount, openedAt, halfOpenCallsInFlight)
    }

    constructor (c: Config)
      ensures View() == FRESH && Clamped(config)
      ensures config.failureThreshold == Max(1, c.failureThreshold)
        && config.successThreshold == Max(1, c.successThreshold)
      ensures config.timeoutMs == Max(1, c.timeoutMs) && config.windowMs == Max(1, c.windowMs)
      ensures config.trialCount == Max(1, c.trialCount)
    {
      config := Config(Max(1, c.failureThreshold), Max(1, c.successThreshold), Max(1, c.timeoutMs),
        Max(1, c.windowMs), Max(1, c.trialCount));
      mode, failures, failureCount, successCount, openedAt, halfOpenCallsInFlight := Closed, [], 0, 0, None, 0;
    }

    method PruneFailures(now: int)
      modifies this`failures, this`failureCount
      ensures View() == Prune(config, old(View()), now)
    {
      var cutoff := now - config.windowMs;
      var kept: seq<int> := [];
      for i := 0 to |failures|
        invariant kept == NotBefore(failures[..i], cutoff)
      {
        assert failures[..i + 1][..i] == failures[..i];
        if failures[i] >= cutoff { kept := kept + [failures[i]]; }
      }
      assert failures[..|failures|] == failures;
      failures := kept;
      if mode == Closed { failureCount := |failures|; }
    }

    method Transition(next: Mode, now: int)
      modifies this
      ensures View() == TransitionTo(old(View()), next, now)
    {
      if mode == next { return; }
      mode := next;
      failureCount := 0;
      failures := [];
      successCount := 0;
      openedAt := if next == Open then Some(now) else None;
    }

    method GetState(now: int) returns (m: Mode)
      modifies this
      ensures View() == MoveToHalfOpenIfReady(config, old(View()), now) && m == mode
      ensures !old(mode).Open? || old(openedAt).None? ==> m == old(mode)
      ensures old(mode).Open? && old(openedAt).Some? ==>
        m == if old(openedAt).value + config.timeoutMs <= now then HalfOpen else Open
    {
      if mode == Open && openedAt.Some? && now - openedAt.value >= config.timeoutMs {
        Transition(HalfOpen, now);
      }
      m := mode;
    }

    /** The part of call() before the wrapped function starts. */
    method BeginCall(now: int) returns (a: Admission)
      modifies this
      ensures var b := MoveToHalfOpenIfReady(config, old(View()), now); a == Admit(config, b) && View() == Enter(b, a)
      ensures a.Admitted? <==>
        || old(mode).Closed?
        || (&& old(halfOpenCallsInFlight) < config.trialCount
            && (old(mode).HalfOpen?
                || (old(openedAt).Some? && old(openedAt).value + config.timeoutMs <= now)))
      ensures a.Admitted? ==> (a.probing <==> !old(mode).Closed?)
      ensures halfOpenCallsInFlight == old(halfOpenCallsInFlight) + if a.Admitted? && a.probing then 1 else 0
    {
      var m := GetState(now);
      if m == Open { return Refused; }
      if m == HalfOpen && halfOpenCallsInFlight >= config.trialCount { return Refused; }
      if m == HalfOpen { halfOpenCallsInFlight := halfOpenCallsInFlight + 1; }
      return Admitted(m == HalfOpen);
    }

    method Success(now: int)
      modifies this
      ensures View() == RecordSuccess(config, old(View()), now)
    {
      if mode == HalfOpen {
        successCount := successCount + 1;
        if successCount >= config.successThreshold { Transition(Closed, now); }
        return;
      }
      if mode == Closed {
        failureCount := 0;
        failures := [];
      }
    }

    method Failure(now: int)
      modifies this
      ensures View() == RecordFailure(config, old(View()), now)
    {
      if mode == HalfOpen {
        Transition(Open, now);
        return;
      }
      if mode == Closed {
        failures := failures + [now];
        PruneFailures(now);
        failureCount := |failures|;
        if failureCount >= config.failureThreshold { Transition(Open, now); }
      }
    }

    /** The part of call() after it settles, finally-block included. */
    method EndCall(probing: bool, outcome: Outcome, now: int)
      modifies this
      ensures View() == Leave(
        match outcome
        case Succeeded => RecordSuccess(config, old(View()), now)
        case Failed => RecordFailure(config, old(View()), now)
        case Ignored => old(View()), probing)
    {
      match outcome {
        case Succeeded => Success(now);
        case Failed => Failure(now);
        case Ignored =>
      }
      if probing { halfOpenCallsInFlight := Max(0, halfOpenCallsInFlight - 1); }
    }
  }
}
