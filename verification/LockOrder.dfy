/**
 * Row locking in sorted order. Transactions come and go freely; each takes the exclusive locks of one
 * lockRows call one row at a time, in ascending id order, waiting whenever another transaction owns the
 * next row. The model also covers taking rows in the caller's own order, to show what sorting prevents.
 */
module LockOrder {
  import opened Prelude
  import Sorting

  type Tx = nat
  type Row = int

  // ---------------------------------------------------------------- sortIds

  ghost predicate Ascending(s: seq<Row>) {
    forall i, j :: 0 <= i < j < |s| ==> s[i] < s[j]
  }

  predicate AtMost(a: Row, b: Row) {
    a <= b
  }

  function SortIds(ids: seq<Row>): seq<Row> {
    Sorting.Sort(AtMost, ids)
  }

  ghost predicate NonDescending(s: seq<Row>) {
    forall i, j :: 0 <= i < j < |s| ==> s[i] <= s[j]
  }

  /** sortIds returns a sorted permutation of its input. */
  lemma {:induction false} SortIdsSorts(ids: seq<Row>)
    ensures NonDescending(SortIds(ids)) && multiset(SortIds(ids)) == multiset(ids)
  {
    Sorting.SortSorts(AtMost, ids);
    assert forall i, j :: 0 <= i < j < |SortIds(ids)| ==> AtMost(SortIds(ids)[i], SortIds(ids)[j]);
  }

  /** The query returns each requested row once, however often it was requested. */
  function Distinct(s: seq<Row>): seq<Row> {
    if |s| <= 1 then s else if s[0] == s[1] then Distinct(s[1..]) else [s[0]] + Distinct(s[1..])
  }

  lemma {:induction false} DistinctAscends(s: seq<Row>)
    requires NonDescending(s)
    ensures Ascending(Distinct(s)) && forall x :: x in Distinct(s) <==> x in s
    decreases |s|
  {
    if |s| > 1 {
      DistinctAscends(s[1..]);
      assert s == [s[0]] + s[1..];
      if s[0] != s[1] {
        var tail := Distinct(s[1..]);
        assert forall x :: x in s[1..] ==> s[1] <= x;
        assert s[0] < s[1];
        forall i | 0 <= i < |tail| ensures s[0] < tail[i] { assert tail[i] in tail && tail[i] in s[1..]; }
        assert Distinct(s) == [s[0]] + tail;
      }
    }
  }

  /** The rows one lockRows call locks, in the order it locks them. */
  function LockPlan(ids: seq<Row>): seq<Row> {
    Distinct(SortIds(ids))
  }

  lemma {:induction false} LockPlanAscends(ids: seq<Row>)
    ensures Ascending(LockPlan(ids)) && forall x :: x in LockPlan(ids) <==> x in ids
  {
    SortIdsSorts(ids);
    DistinctAscends(SortIds(ids));
    forall x ensures x in SortIds(ids) <==> x in ids {
      assert x in multiset(SortIds(ids)) <==> x in multiset(ids);
    }
  }

  // ---------------------------------------------------------------- the state machine

  /** Sorted is lockRows; AsGiven takes the rows in the order the caller listed them. */
  datatype Policy = Sorted | AsGiven

  /** A running transaction: the rows it will lock, and how many it has. */
  datatype Locker = Locker(plan: seq<Row>, taken: nat)

  datatype State = State(lockers: map<Tx, Locker>, owner: map<Row, Tx>)

  datatype Step = Begin(t: Tx, ids: seq<Row>) | Lock(t: Tx) | End(t: Tx)

  predicate Wants(s: State, t: Tx) {
    t in s.lockers && s.lockers[t].taken < |s.lockers[t].plan|
  }

  function NextRow(s: State, t: Tx): Row
    requires Wants(s, t)
  {
    s.lockers[t].plan[s.lockers[t].taken]
  }

  predicate WaitsFor(s: State, t: Tx, u: Tx) {
    Wants(s, t) && NextRow(s, t) in s.owner && s.owner[NextRow(s, t)] == u && u != t
  }

  ghost predicate Blocked(s: State, t: Tx) {
    exists u: Tx :: WaitsFor(s, t, u)
  }

  ghost predicate Next(policy: Policy, s: State, step: Step, s': State) {
    match step
    case Begin(t, ids) =>
      t !in s.lockers && s' == s.(lockers := s.lockers[t := Locker(if policy.Sorted? then LockPlan(ids) else ids, 0)])
    case Lock(t) =>
      && Wants(s, t) && !Blocked(s, t)
      && s' == State(s.lockers[t := s.lockers[t].(taken := s.lockers[t].taken + 1)], s.owner[NextRow(s, t) := t])
    case End(t) => // commit or rollback, at any moment: every lock of t is released
      t in s.lockers && s' == State(s.lockers - {t}, map r | r in s.owner && s.owner[r] != t :: s.owner[r])
  }

  ghost predicate Init(s: State) {
    s.lockers == map[] && s.owner == map[]
  }

  ghost predicate StepAt(policy: Policy, ss: seq<State>, steps: seq<Step>, k: nat)
    requires k < |steps| && |ss| == |steps| + 1
  {
    Next(policy, ss[k], steps[k], ss[k + 1])
  }

  ghost predicate Run(policy: Policy, ss: seq<State>, steps: seq<Step>) {
    |ss| == |steps| + 1 && Init(ss[0]) && forall k :: 0 <= k < |steps| ==> StepAt(policy, ss, steps, k)
  }

  /** Plans ascend, and whoever owns a row is running and has already taken it. */
  ghost predicate Inv(s: State) {
    && (forall t :: t in s.lockers ==> Ascending(s.lockers[t].plan) && s.lockers[t].taken <= |s.lockers[t].plan|)
    && (forall r :: r in s.owner ==> Took(s, s.owner[r], r))
  }

  ghost predicate Took(s: State, t: Tx, r: Row) {
    t in s.lockers && s.lockers[t].taken <= |s.lockers[t].plan| && r in s.lockers[t].plan[..s.lockers[t].taken]
  }

  lemma {:induction false} StepKeepsInv(s: State, step: Step, s': State)
    requires Inv(s) && Next(Sorted, s, step, s')
    ensures Inv(s')
  {
    if step.Begin? { LockPlanAscends(step.ids); }
    forall r | r in s'.owner ensures Took(s', s'.owner[r], r) {
      if step.Lock? && s'.owner[r] == step.t {
        var x := s.lockers[step.t];
        assert x.plan[..x.taken + 1] == x.plan[..x.taken] + [x.plan[x.taken]];
        assert r == NextRow(s, step.t) || Took(s, step.t, r);
      } else {
        assert Took(s, s.owner[r], r);
      }
    }
  }

  lemma {:induction false} RunKeepsInv(ss: seq<State>, steps: seq<Step>, n: nat)
    requires Run(Sorted, ss, steps) && n < |ss|
    ensures Inv(ss[n])
  {
    if n > 0 {
      RunKeepsInv(ss, steps, n - 1);
      assert StepAt(Sorted, ss, steps, n - 1);
      StepKeepsInv(ss[n - 1], steps[n - 1], ss[n]);
    }
  }

  // ---------------------------------------------------------------- exclusion

  /** Sorted or not: a transaction owns exactly the rows it has taken, until it ends. */
  ghost predicate OwnsWhatItTook(s: State) {
    && (forall t :: t in s.lockers ==> s.lockers[t].taken <= |s.lockers[t].plan|)
    && forall t: Tx, r: Row :: Took(s, t, r) <==> r in s.owner && s.owner[r] == t
  }

  lemma {:induction false} StepKeepsOwners(policy: Policy, s: State, step: Step, s': State)
    requires OwnsWhatItTook(s) && Next(policy, s, step, s')
    ensures OwnsWhatItTook(s')
  {
    forall t: Tx, r: Row ensures Took(s', t, r) <==> r in s'.owner && s'.owner[r] == t {
      assert Took(s, t, r) <==> r in s.owner && s.owner[r] == t;
      if step == Lock(t) {
        var x := s.lockers[t];
        assert x.plan[..x.taken + 1] == x.plan[..x.taken] + [x.plan[x.taken]];
      } else if step.Lock? && r == NextRow(s, step.t) {
        assert !WaitsFor(s, step.t, t);
      }
    }
  }

  /** No two transactions have taken the same row, in any state of any run, and what they took is locked. */
  lemma {:induction false} LocksExclude(policy: Policy, ss: seq<State>, steps: seq<Step>, n: nat)
    requires Run(policy, ss, steps) && n < |ss|
    ensures OwnsWhatItTook(ss[n])
    ensures forall t: Tx, u: Tx, r: Row :: Took(ss[n], t, r) && Took(ss[n], u, r) ==> t == u
  {
    if n > 0 {
      LocksExclude(policy, ss, steps, n - 1);
      assert StepAt(policy, ss, steps, n - 1);
      StepKeepsOwners(policy, ss[n - 1], steps[n - 1], ss[n]);
    }
  }

  // ---------------------------------------------------------------- no deadlock

  /** Along a wait, the row waited for grows. */
  lemma {:induction false} WaitsClimb(s: State, t: Tx, u: Tx)
    requires Inv(s) && WaitsFor(s, t, u) && Wants(s, u)
    ensures NextRow(s, t) < NextRow(s, u)
  {
    var r, x := NextRow(s, t), s.lockers[u];
    assert Took(s, u, r);
    var i :| 0 <= i < x.taken && x.plan[..x.taken][i] == r;
    assert x.plan[i] == r;
  }

  /** A chain of transactions, each waiting for the next. */
  ghost predicate WaitChain(s: State, ts: seq<Tx>) {
    |ts| > 0 && forall i :: 0 <= i < |ts| - 1 ==> WaitsFor(s, ts[i], ts[i + 1])
  }

  lemma {:induction false} ChainsClimb(s: State, ts: seq<Tx>)
    requires Inv(s) && WaitChain(s, ts) && |ts| > 1 && Wants(s, ts[|ts| - 1])
    ensures Wants(s, ts[0]) && NextRow(s, ts[0]) < NextRow(s, ts[|ts| - 1])
    decreases |ts|
  {
    var n := |ts| - 1;
    assert WaitsFor(s, ts[n - 1], ts[n - 1 + 1]);
    WaitsClimb(s, ts[n - 1], ts[n]);
    if n > 1 {
      assert forall i :: 0 <= i < n - 1 ==> WaitsFor(s, ts[i], ts[i + 1]);
      ChainsClimb(s, ts[..n]);
    }
  }

  /** In no reachable state does a chain of waits close into a cycle. */
  lemma {:induction false} NoWaitCycle(ss: seq<State>, steps: seq<Step>, n: nat, ts: seq<Tx>)
    requires Run(Sorted, ss, steps) && n < |ss| && WaitChain(ss[n], ts) && |ts| > 1
    ensures ts[0] != ts[|ts| - 1]
  {
    RunKeepsInv(ss, steps, n);
    assert WaitsFor(ss[n], ts[0], ts[0 + 1]);
    if ts[0] == ts[|ts| - 1] {
      ChainsClimb(ss[n], ts);
    }
  }

  /** Some member of a non-empty set of waiting transactions waits for the highest row. */
  lemma {:induction false} HighestWait(s: State, ts: set<Tx>) returns (t: Tx)
    requires ts != {} && forall u :: u in ts ==> Wants(s, u)
    ensures t in ts && forall u :: u in ts ==> NextRow(s, u) <= NextRow(s, t)
    decreases |ts|
  {
    t :| t in ts;
    if ts != {t} {
      var u := HighestWait(s, ts - {t});
      if NextRow(s, t) < NextRow(s, u) { t := u; }
    }
  }

  /** Whenever any transaction is running, some running transaction is not blocked. */
  lemma {:induction false} SomeoneCanProceed(ss: seq<State>, steps: seq<Step>, n: nat) returns (t: Tx)
    requires Run(Sorted, ss, steps) && n < |ss| && ss[n].lockers != map[]
    ensures t in ss[n].lockers && !Blocked(ss[n], t)
  {
    var s := ss[n];
    RunKeepsInv(ss, steps, n);
    if u: Tx :| u in s.lockers && !Wants(s, u) {
      t := u;
    } else {
      assert s.lockers.Keys != {};
      t := HighestWait(s, s.lockers.Keys);
      if Blocked(s, t) {
        var u: Tx :| WaitsFor(s, t, u);
        assert Took(s, u, NextRow(s, t));
        WaitsClimb(s, t, u);
        assert false;
      }
    }
  }

  /** Without sorting, two transactions that list two rows in opposite orders can block each other. */
  lemma {:induction false} UnsortedOrderDeadlocks() returns (ss: seq<State>, steps: seq<Step>)
    ensures Run(AsGiven, ss, steps)
    ensures WaitsFor(ss[|steps|], 0, 1) && WaitsFor(ss[|steps|], 1, 0)
  {
    var a, b := Locker([1, 2], 0), Locker([2, 1], 0);
    ss := [
      State(map[], map[]),
      State(map[0 := a], map[]),
      State(map[0 := a, 1 := b], map[]),
      State(map[0 := a.(taken := 1), 1 := b], map[1 := 0]),
      State(map[0 := a.(taken := 1), 1 := b.(taken := 1)], map[1 := 0, 2 := 1])];
    steps := [Begin(0, [1, 2]), Begin(1, [2, 1]), Lock(0), Lock(1)];
    assert StepAt(AsGiven, ss, steps, 0) && StepAt(AsGiven, ss, steps, 1) && StepAt(AsGiven, ss, steps, 2)
      && StepAt(AsGiven, ss, steps, 3);
  }

  // ---------------------------------------------------------------- withTransaction

  datatype Attempt<T> = Committed(value: T) | Deadlock | OtherError

  /**
   * The retry loop; outcomes[i] is what attempt i yields. It stops at the first attempt that did not
   * fail on a deadlock or serialization error, or after maxRetries retries.
   */
  method WithTransaction<T>(outcomes: seq<Attempt<T>>, maxRetries: nat) returns (result: Attempt<T>, attempts: nat)
    requires |outcomes| > maxRetries
    ensures 1 <= attempts <= maxRetries + 1 && result == outcomes[attempts - 1]
    ensures forall i :: 0 <= i < attempts - 1 ==> outcomes[i].Deadlock?
    ensures result.Deadlock? <==> forall i :: 0 <= i <= maxRetries ==> outcomes[i].Deadlock?
    ensures result.Deadlock? ==> attempts == maxRetries + 1
  {
    var attempt := 0;
    while true
      invariant attempt <= maxRetries
      invariant forall i :: 0 <= i < attempt ==> outcomes[i].Deadlock?
      decreases maxRetries - attempt
    {
      var outcome := outcomes[attempt];
      if !outcome.Deadlock? || attempt >= maxRetries {
        return outcome, attempt + 1;
      }
      attempt := attempt + 1;
    }
  }
}
