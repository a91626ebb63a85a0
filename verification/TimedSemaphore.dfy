/**
 * The counting semaphore: permits, a first-in first-out queue of waiters and a timer per waiter that asked
 * for one. The history of calls and answers is kept beside the semaphore's own two fields and its timers.
 */
module TimedSemaphore {
  import opened Prelude

  type Call = nat

  /**
   * `current`, `queue` and the `armed` timers are the semaphore; the other fields record every acquire call in
   * order of arrival, the grants and the rejections in the order they were answered, and the released calls.
   */
  datatype State = State(
    current: int, queue: seq<Call>, armed: set<Call>,
    arrived: seq<Call>, granted: seq<Call>, rejected: seq<Call>, released: set<Call>)

  const START := State(0, [], {}, [], [], [], {})

  datatype Step =
    | Acquire(call: Call, timeoutMs: int)
    | Release(call: Call)
    | TimerFires(call: Call)

  // ---------------------------------------------------------------- the operations, on values

  function Acquired(max: nat, s: State, call: Call, timeoutMs: int): State {
    var s1 := s.(arrived := s.arrived + [call]);
    if s.current < max then s1.(current := s.current + 1, granted := s.granted + [call])
    else if timeoutMs == 0 then s1.(rejected := s.rejected + [call])
    else s1.(queue := s.queue + [call], armed := if timeoutMs > 0 then s.armed + {call} else s.armed)
  }

  function ReleasedBy(s: State, call: Call): State {
    var s1 := s.(current := s.current - 1, released := s.released + {call});
    if s.queue == [] then s1
    else
      var next := s.queue[0];
      s1.(current := s.current, queue := s.queue[1..], armed := s.armed - {next}, granted := s.granted + [next])
  }

  function IndexOf(q: seq<Call>, x: Call): (i: nat)
    ensures i <= |q| && (i < |q| ==> q[i] == x) && (i == |q| ==> x !in q) && x !in q[..i]
  {
    if q == [] then 0 else if q[0] == x then 0 else
      var i := IndexOf(q[1..], x);
      assert q[..i + 1] == [q[0]] + q[1..][..i];
      i + 1
  }

  function SplicedOut(q: seq<Call>, x: Call): seq<Call> {
    var i := IndexOf(q, x);
    if i < |q| then q[..i] + q[i + 1..] else q
  }

  function TimedOut(s: State, call: Call): State {
    s.(queue := SplicedOut(s.queue, call), armed := s.armed - {call}, rejected := s.rejected + [call])
  }

  function Apply(max: nat, s: State, step: Step): State {
    match step
    case Acquire(call, timeoutMs) => Acquired(max, s, call, timeoutMs)
    case Release(call) => ReleasedBy(s, call)
    case TimerFires(call) => TimedOut(s, call)
  }

  /** Each acquire is a new call; only a granted call has a release function; only an armed timer fires. */
  ghost predicate Allowed(s: State, step: Step) {
    match step
    case Acquire(call, _) => call !in s.arrived
    case Release(call) => call in s.granted
    case TimerFires(call) => call in s.armed
  }

  ghost predicate ReleasedOnce(s: State, step: Step) {
    step.Release? ==> step.call !in s.released
  }

  // ---------------------------------------------------------------- sequences without some members

  /** The members of a sequence outside a set, in order. */
  ghost function Keep(s: seq<Call>, out: set<Call>): seq<Call> {
    if s == [] then [] else Keep(s[..|s| - 1], out) + (if s[|s| - 1] in out then [] else [s[|s| - 1]])
  }

  lemma {:induction false} KeepConcat(a: seq<Call>, b: seq<Call>, out: set<Call>)
    ensures Keep(a + b, out) == Keep(a, out) + Keep(b, out)
  {
    if b == [] {
      assert a + b == a;
    } else {
      KeepConcat(a, b[..|b| - 1], out);
      assert (a + b)[..|a + b| - 1] == a + b[..|b| - 1];
    }
  }

  lemma {:induction false} KeepLast(s: seq<Call>, y: Call, out: set<Call>)
    ensures Keep(s + [y], out) == Keep(s, out) + (if y in out then [] else [y])
  {
    assert (s + [y])[..|s|] == s;
  }

  lemma {:induction false} KeepMore(s: seq<Call>, out: set<Call>, x: Call)
    ensures Keep(s, out + {x}) == Keep(Keep(s, out), {x})
  {
    if s != [] {
      KeepMore(s[..|s| - 1], out, x);
      if s[|s| - 1] !in out {
        KeepLast(Keep(s[..|s| - 1], out), s[|s| - 1], {x});
      } else {
        assert Keep(s, out) == Keep(s[..|s| - 1], out);
      }
    }
  }

  lemma {:induction false} KeepHas(s: seq<Call>, out: set<Call>, x: Call)
    ensures x in Keep(s, out) <==> x in s && x !in out
  {
    if s != [] {
      KeepHas(s[..|s| - 1], out, x);
      assert s == s[..|s| - 1] + [s[|s| - 1]];
    }
  }

  lemma {:induction false} KeepAll(s: seq<Call>, x: Call)
    requires x !in s
    ensures Keep(s, {x}) == s
  {
    if s != [] {
      KeepAll(s[..|s| - 1], x);
      assert s == s[..|s| - 1] + [s[|s| - 1]];
    }
  }

  lemma {:induction false} KeepUnused(s: seq<Call>, out: set<Call>, x: Call)
    requires x !in s
    ensures Keep(s, out + {x}) == Keep(s, out)
  {
    if s != [] {
      KeepUnused(s[..|s| - 1], out, x);
    }
  }

  lemma {:induction false} KeepDistinct(s: seq<Call>, out: set<Call>)
    requires NoDuplicates(s)
    ensures NoDuplicates(Keep(s, out))
  {
    if s != [] {
      KeepDistinct(s[..|s| - 1], out);
      KeepHas(s[..|s| - 1], out, s[|s| - 1]);
    }
  }

  /** Cutting a member out of a duplicate-free queue leaves the others in order. */
  lemma {:induction false} SpliceKeeps(q: seq<Call>, x: Call)
    requires NoDuplicates(q)
    ensures SplicedOut(q, x) == Keep(q, {x})
  {
    var i := IndexOf(q, x);
    if i < |q| {
      assert x !in q[i + 1..];
      KeepAround(q[..i], x, q[i + 1..]);
      assert q == q[..i] + [x] + q[i + 1..];
    } else {
      KeepAll(q, x);
    }
  }

  lemma {:induction false} KeepAround(a: seq<Call>, x: Call, b: seq<Call>)
    requires x !in a && x !in b
    ensures Keep(a + [x] + b, {x}) == a + b
  {
    KeepLast(a, x, {x});
    KeepAll(a, x);
    assert Keep(a + [x], {x}) == a;
    KeepAll(b, x);
    KeepConcat(a + [x], b, {x});
  }

  // ---------------------------------------------------------------- every run

  ghost function Members(s: seq<Call>): set<Call> {
    set x | x in s
  }

  lemma {:induction false} MembersAppend(s: seq<Call>, x: Call)
    ensures Members(s + [x]) == Members(s) + {x}
  {
  }

  /** The calls that hold a permit. */
  ghost function Held(s: State): set<Call> {
    Members(s.granted) - s.released
  }

  /** Calls that were not rejected are answered in order of arrival: the grants, then the queue. */
  ghost predicate Fifo(s: State) {
    && NoDuplicates(s.arrived) && Members(s.rejected) <= Members(s.arrived) && NoDuplicates(s.rejected)
    && Keep(s.arrived, Members(s.rejected)) == s.granted + s.queue
  }

  ghost predicate Permits(max: nat, s: State) {
    && s.current == |Held(s)| <= max && (s.queue != [] ==> s.current == max)
    && s.released <= Members(s.granted) && s.armed <= Members(s.queue)
  }

  ghost predicate Inv(max: nat, s: State) {
    Fifo(s) && Permits(max, s)
  }

  /** No call is both granted and queued, and none is granted or queued twice. */
  lemma {:induction false} Distinct(s: State)
    requires Fifo(s)
    ensures NoDuplicates(s.granted + s.queue) && NoDuplicates(s.granted) && NoDuplicates(s.queue)
    ensures forall x: Call :: x in s.granted || x in s.queue ==> x in s.arrived && x !in s.rejected
    ensures forall x: Call :: x in s.granted ==> x !in s.queue
  {
    var all := s.granted + s.queue;
    KeepDistinct(s.arrived, Members(s.rejected));
    forall x: Call | x in s.granted || x in s.queue ensures x in s.arrived && x !in s.rejected {
      KeepHas(s.arrived, Members(s.rejected), x);
      assert x in all;
    }
    forall i, j | 0 <= i < j < |s.granted| ensures s.granted[i] != s.granted[j] { assert all[i] != all[j]; }
    forall i, j | 0 <= i < j < |s.queue| ensures s.queue[i] != s.queue[j] {
      assert all[|s.granted| + i] != all[|s.granted| + j];
    }
    forall i, j | 0 <= i < |s.granted| && 0 <= j < |s.queue| ensures s.granted[i] != s.queue[j] {
      assert all[i] != all[|s.granted| + j];
    }
  }

  lemma {:induction false} ArrivalServed(s: State, s': State, call: Call)
    requires Fifo(s) && call !in s.arrived && s'.arrived == s.arrived + [call] && s'.rejected == s.rejected
    requires s'.granted + s'.queue == s.granted + s.queue + [call]
    ensures Fifo(s')
  {
    MembersAppend(s.arrived, call);
    assert call !in Members(s.arrived);
    KeepLast(s.arrived, call, Members(s.rejected));
  }

  lemma {:induction false} DistinctAppend(s: seq<Call>, x: Call)
    requires NoDuplicates(s) && x !in s
    ensures NoDuplicates(s + [x])
  {
  }

  /** A call rejected on arrival leaves the order of the others alone. */
  lemma {:induction false} KeepRejected(arrived: seq<Call>, out: set<Call>, call: Call)
    requires call !in arrived
    ensures Keep(arrived + [call], out + {call}) == Keep(arrived, out)
  {
    KeepUnused(arrived, out, call);
    KeepLast(arrived, call, out + {call});
  }

  lemma {:induction false} ArrivalRejected(s: State, s': State, call: Call)
    requires Fifo(s) && call !in s.arrived && s'.arrived == s.arrived + [call] && s'.rejected == s.rejected + [call]
    requires s'.granted == s.granted && s'.queue == s.queue
    ensures Fifo(s')
  {
    assert call !in Members(s.arrived) && call !in Members(s.rejected);
    DistinctAppend(s.arrived, call);
    DistinctAppend(s.rejected, call);
    MembersAppend(s.arrived, call);
    MembersAppend(s.rejected, call);
    KeepRejected(s.arrived, Members(s.rejected), call);
  }

  lemma {:induction false} AcquireKeepsFifo(max: nat, s: State, call: Call, timeoutMs: int)
    requires Inv(max, s) && call !in s.arrived
    ensures Fifo(Acquired(max, s, call, timeoutMs))
  {
    var s' := Acquired(max, s, call, timeoutMs);
    if s.current >= max && timeoutMs == 0 {
      ArrivalRejected(s, s', call);
    } else {
      ArrivalServed(s, s', call);
    }
  }

  lemma {:induction false} AcquireKeepsPermits(max: nat, s: State, call: Call, timeoutMs: int)
    requires Inv(max, s) && call !in s.arrived
    ensures Permits(max, Acquired(max, s, call, timeoutMs))
  {
    Distinct(s);
    assert call !in Members(s.granted);
    if s.current < max {
      GrantHolds(s, Acquired(max, s, call, timeoutMs), call);
    } else {
      MembersAppend(s.queue, call);
    }
  }

  /** A new grant adds one holder. */
  lemma {:induction false} GrantHolds(s: State, s': State, call: Call)
    requires s'.granted == s.granted + [call] && s'.released == s.released
    requires call !in Members(s.granted) && s.released <= Members(s.granted)
    ensures |Held(s')| == |Held(s)| + 1 && s'.released <= Members(s'.granted)
  {
    MembersAppend(s.granted, call);
    assert Held(s') == Held(s) + {call};
  }

  /** Handing a permit on keeps the order; nothing depends on who gave it back. */
  lemma {:induction false} ReleaseKeepsFifo(s: State, call: Call)
    requires Fifo(s)
    ensures Fifo(ReleasedBy(s, call))
  {
    if s.queue != [] {
      assert s.granted + [s.queue[0]] + s.queue[1..] == s.granted + s.queue;
    }
  }

  lemma {:induction false} ReleaseKeepsPermitsIff(max: nat, s: State, call: Call)
    requires Inv(max, s) && call in s.granted
    ensures Permits(max, ReleasedBy(s, call)) <==> call !in s.released
  {
    var s' := ReleasedBy(s, call);
    assert call in Members(s.granted);
    assert |Held(s) - {call}| == |Held(s)| - (if call in s.released then 0 else 1);
    if s.queue == [] {
      assert Held(s') == Held(s) - {call};
    } else {
      HandOver(s, call);
    }
  }

  /** The head of the queue joins the holders. */
  lemma {:induction false} HandOver(s: State, call: Call)
    requires Fifo(s) && s.queue != [] && call in s.granted && s.released <= Members(s.granted)
      && s.armed <= Members(s.queue)
    ensures var s' := ReleasedBy(s, call);
      |Held(s')| == |Held(s) - {call}| + 1 && s'.released <= Members(s'.granted) && s'.armed <= Members(s'.queue)
  {
    var s', next := ReleasedBy(s, call), s.queue[0];
    Distinct(s);
    assert s.queue == [next] + s.queue[1..];
    assert next !in Members(s.granted);
    MembersAppend(s.granted, next);
    assert Held(s') == (Held(s) - {call}) + {next};
    assert Members(s.queue) == {next} + Members(s.queue[1..]);
  }

  lemma {:induction false} TimerKeepsInv(max: nat, s: State, call: Call)
    requires Inv(max, s) && call in s.armed
    ensures Inv(max, TimedOut(s, call))
  {
    var s' := TimedOut(s, call);
    Distinct(s);
    assert call in Members(s.queue);
    TimerKeepsFifo(s, call);
    SpliceKeeps(s.queue, call);
    forall x | x in s'.armed ensures x in s'.queue {
      assert x in Members(s.queue);
      KeepHas(s.queue, {call}, x);
    }
  }

  lemma {:induction false} TimerKeepsFifo(s: State, call: Call)
    requires Fifo(s) && call in s.queue
    ensures Fifo(TimedOut(s, call))
  {
    Distinct(s);
    SpliceKeeps(s.queue, call);
    KeepAll(s.granted, call);
    KeepConcat(s.granted, s.queue, {call});
    KeepMore(s.arrived, Members(s.rejected), call);
    MembersAppend(s.rejected, call);
    assert call in Members(s.arrived);
  }

  /** A step keeps permits and order exactly when it is not a second release of the same permit. */
  lemma {:induction false} StepKeepsInvIff(max: nat, s: State, step: Step)
    requires Inv(max, s) && Allowed(s, step)
    ensures Inv(max, Apply(max, s, step)) <==> ReleasedOnce(s, step)
  {
    match step
    case Acquire(call, timeoutMs) =>
      AcquireKeepsFifo(max, s, call, timeoutMs);
      AcquireKeepsPermits(max, s, call, timeoutMs);
    case Release(call) =>
      ReleaseKeepsFifo(s, call);
      ReleaseKeepsPermitsIff(max, s, call);
    case TimerFires(call) => TimerKeepsInv(max, s, call);
  }

  ghost predicate StepAt(max: nat, ss: seq<State>, steps: seq<Step>, k: nat)
    requires k < |steps| && |ss| == |steps| + 1
  {
    Allowed(ss[k], steps[k]) && ReleasedOnce(ss[k], steps[k]) && ss[k + 1] == Apply(max, ss[k], steps[k])
  }

  /** A run in which every release is called once. */
  ghost predicate Run(max: nat, ss: seq<State>, steps: seq<Step>) {
    |ss| == |steps| + 1 && ss[0] == START && forall k :: 0 <= k < |steps| ==> StepAt(max, ss, steps, k)
  }

  /**
   * Active permits are the granted and unreleased ones, never above the maximum, and nobody waits beside a free permit.
   */
  lemma {:induction false} RunKeepsInv(max: nat, ss: seq<State>, steps: seq<Step>, n: nat)
    requires Run(max, ss, steps) && n < |ss|
    ensures Inv(max, ss[n])
  {
    if n == 0 {
      assert Held(ss[0]) == {};
    } else {
      RunKeepsInv(max, ss, steps, n - 1);
      assert StepAt(max, ss, steps, n - 1);
      StepKeepsInvIff(max, ss[n - 1], steps[n - 1]);
    }
  }

  /**
   * A call is granted at once exactly when fewer than the maximum hold a permit, rejected at once exactly when none is
   * free and it will not wait, and otherwise queued last, with a timer exactly when it named a positive time.
   */
  lemma {:induction false} AcquireAnswerIff(max: nat, ss: seq<State>, steps: seq<Step>, n: nat)
    requires Run(max, ss, steps) && n < |steps| && steps[n].Acquire?
    ensures var s, s', call, time := ss[n], ss[n + 1], steps[n].call, steps[n].timeoutMs;
      var free := |Held(s)| < max;
      && s'.granted == s.granted + (if free then [call] else [])
      && s'.rejected == s.rejected + (if !free && time == 0 then [call] else [])
      && s'.queue == s.queue + (if !free && time != 0 then [call] else [])
      && s'.armed == s.armed + (if !free && time > 0 then {call} else {}) && s'.released == s.released
  {
    RunKeepsInv(max, ss, steps, n);
    assert StepAt(max, ss, steps, n);
  }

  /** A release hands the permit to the call that has waited longest, if any waits, and frees it otherwise. */
  lemma {:induction false} ReleaseServesTheFirst(max: nat, ss: seq<State>, steps: seq<Step>, n: nat)
    requires Run(max, ss, steps) && n < |steps| && steps[n].Release?
    ensures var s, s' := ss[n], ss[n + 1];
      if s.queue == [] then s'.granted == s.granted && s'.queue == [] && s'.current == s.current - 1
      else s'.granted == s.granted + [s.queue[0]] && [s.queue[0]] + s'.queue == s.queue && s'.current == s.current
  {
    assert StepAt(max, ss, steps, n);
  }

  /** Every call is waiting, granted once or rejected once. */
  lemma {:induction false} EachCallAnsweredOnce(max: nat, ss: seq<State>, steps: seq<Step>, n: nat, call: Call)
    requires Run(max, ss, steps) && n < |ss| && call in ss[n].arrived
    ensures var s := ss[n];
      && multiset(s.granted)[call] + multiset(s.rejected)[call] + multiset(s.queue)[call] == 1
  {
    var s := ss[n];
    RunKeepsInv(max, ss, steps, n);
    Distinct(s);
    KeepHas(s.arrived, Members(s.rejected), call);
    assert call in s.granted + s.queue <==> call in s.granted || call in s.queue;
    CountedOnce(s.granted, call);
    CountedOnce(s.rejected, call);
    CountedOnce(s.queue, call);
  }

  /**
   * First come, first served: a call is never granted while an earlier arrival still waits, and grants follow arrivals.
   */
  lemma {:induction false} NobodyOvertakes(max: nat, ss: seq<State>, steps: seq<Step>, n: nat, i: nat, j: nat)
    requires Run(max, ss, steps) && n < |ss| && i < j < |ss[n].arrived| && ss[n].arrived[j] in ss[n].granted
    ensures var s := ss[n];
      || s.arrived[i] in s.rejected
      || (exists p, q :: 0 <= p < q < |s.granted| && s.granted[p] == s.arrived[i] && s.granted[q] == s.arrived[j])
  {
    var s := ss[n];
    RunKeepsInv(max, ss, steps, n);
    Distinct(s);
    if s.arrived[i] !in s.rejected {
      var p, q := KeepOrder(s.arrived, Members(s.rejected), i, j);
      assert (s.granted + s.queue)[p] == s.arrived[i] && (s.granted + s.queue)[q] == s.arrived[j];
      var late := s.arrived[j];
      assert q >= |s.granted| ==> late in s.queue;
      assert s.granted[p] == s.arrived[i] && s.granted[q] == s.arrived[j];
    }
  }

  lemma {:induction false} KeepOrder(s: seq<Call>, out: set<Call>, i: nat, j: nat) returns (p: nat, q: nat)
    requires i < j < |s| && s[i] !in out && s[j] !in out
    ensures p < q < |Keep(s, out)| && Keep(s, out)[p] == s[i] && Keep(s, out)[q] == s[j]
  {
    var init := s[..|s| - 1];
    if j < |s| - 1 {
      p, q := KeepOrder(init, out, i, j);
    } else {
      KeepHas(init, out, s[i]);
      p :| 0 <= p < |Keep(init, out)| && Keep(init, out)[p] == s[i];
      q := |Keep(init, out)|;
    }
  }

  /** One permit released twice: two calls hold permits at once under a maximum of one. */
  lemma DoubleReleaseOverAdmits()
    ensures var s1 := Acquired(1, START, 0, 0);
      var s2 := ReleasedBy(ReleasedBy(s1, 0), 0);
      var s3 := Acquired(1, Acquired(1, s2, 1, 0), 2, 0);
      Held(s3) == {1, 2} && s3.current == 1
  {
    var s1 := Acquired(1, START, 0, 0);
    var s2 := ReleasedBy(ReleasedBy(s1, 0), 0);
    var s3 := Acquired(1, Acquired(1, s2, 1, 0), 2, 0);
    assert s3.granted == [0, 1, 2] && s3.released == {0};
  }

  // ---------------------------------------------------------------- the class

  datatype Answer = Granted | Rejected | Waiting

  class Semaphore {
    const maxConcurrency: nat
    var current: int
    var queue: seq<Call>
    var armed: set<Call>

    /** The semaphore's fields are those of a history. */
    ghost predicate Shows(s: State) reads this {
      current == s.current && queue == s.queue && armed == s.armed
    }

    constructor (max: nat)
      ensures maxConcurrency == max && Shows(START)
    {
      maxConcurrency := max;
      current, queue, armed := 0, [], {};
    }

    method AcquirePermit(ghost s: State, call: Call, timeoutMs: int) returns (answer: Answer)
      requires Shows(s)
      modifies this
      ensures Shows(Acquired(maxConcurrency, s, call, timeoutMs))
      ensures var s' := Acquired(maxConcurrency, s, call, timeoutMs);
        match answer
        case Granted => s'.granted == s.granted + [call]
        case Rejected => s'.rejected == s.rejected + [call]
        case Waiting => s'.queue == s.queue + [call]
      ensures answer.Granted? <==> old(current) < maxConcurrency
      ensures answer.Rejected? <==> old(current) >= maxConcurrency && timeoutMs == 0
    {
      if current < maxConcurrency {
        current := current + 1;
        return Granted;
      }
      if timeoutMs == 0 { return Rejected; }
      if timeoutMs > 0 { armed := armed + {call}; }
      queue := queue + [call];
      return Waiting;
    }

    /** Returns the waiter that receives the permit, if any. */
    method ReleasePermit(ghost s: State, call: Call) returns (next: Option<Call>)
      requires Shows(s)
      modifies this
      ensures Shows(ReleasedBy(s, call))
      ensures ReleasedBy(s, call).granted == s.granted + (if next.Some? then [next.value] else [])
      ensures next == if old(queue) == [] then None else Some(old(queue)[0])
    {
      current := current - 1;
      if |queue| > 0 {
        next := Some(queue[0]);
        queue := queue[1..];
        armed := armed - {next.value};
        current := current + 1;
      } else {
        next := None;
      }
    }

    method TimerFired(ghost s: State, call: Call)
      requires Shows(s)
      modifies this
      ensures Shows(TimedOut(s, call))
    {
      var idx := 0;
      while idx < |queue| && queue[idx] != call
        invariant idx <= |queue| && call !in queue[..idx]
      {
        idx := idx + 1;
      }
      if idx < |queue| { queue := queue[..idx] + queue[idx + 1..]; }
      armed := armed - {call};
    }
  }
}
