/**
 * Leader election over one Redis key. Every instance runs acquire-or-renew cycles, one at a time;
 * a command, its execution by Redis and the arrival of its answer are three separate steps, so
 * answers may be late, lost or never come. Releasing (on stop) overlaps freely with a cycle.
 */
module LeaderLease {
  import opened Prelude

  type Id = nat

  /** `ttl` is leaseTtlMs. `period` and `delay` bound idle time and cycle time, for the timed result only. */
  datatype Config = Config(ttl: nat, period: nat, delay: nat)

  datatype Lease = Lease(holder: Id, expires: nat)

  datatype Command = Acquire | Renew
  datatype Answer = Yes | No | Error
  datatype Cycle = Resting | Sent(command: Command, at: nat) | Answered(command: Command, at: nat, answer: Answer)
  datatype Release = NoRelease | ReleaseSent | ReleaseAnswered

  /**
   * `leader`, `cycle` and `release` are the closure's own state. `grant` (expiry of the last lease
   * granted and not released), `ok` (start of the cycle that last succeeded), `rested` (end of the last
   * cycle), `life` and `late` (an acquire granted between a stop and the next start) are recorded for the proofs.
   */
  datatype Instance = Instance(
    leader: bool, cycle: Cycle, release: Release, grant: Option<nat>, ok: nat, rested: nat, life: Life, late: bool)

  /** An instance started again is restarting until whatever its old life left in flight has settled. */
  datatype Life = Running | Stopped | Restarting

  const FRESH := Instance(false, Resting, NoRelease, None, 0, 0, Running, false)

  datatype State = State(now: nat, key: Option<Lease>, instances: map<Id, Instance>)

  datatype Step =
    | Tick(now: nat)
    | StartCycle(i: Id)
    | Execute(i: Id, lost: bool)
    | Drop(i: Id)
    | Settle(i: Id)
    | Stop(i: Id)
    | ExecuteRelease(i: Id, lost: bool)
    | SettleRelease(i: Id)
    | Restart(i: Id)

  function Of(s: State, i: Id): Instance {
    if i in s.instances then s.instances[i] else FRESH
  }

  function With(s: State, i: Id, x: Instance): State {
    s.(instances := s.instances[i := x])
  }

  // ---------------------------------------------------------------- the three scripts

  /** A key whose time has passed is gone. */
  function Holder(key: Option<Lease>, now: nat): Option<Id> {
    if key.Some? && now < key.value.expires then Some(key.value.holder) else None
  }

  /** SET NX PX for an acquire, the compare-and-PEXPIRE script for a renew. */
  predicate Granted(s: State, i: Id, command: Command) {
    match command
    case Acquire => Holder(s.key, s.now) == None
    case Renew => Holder(s.key, s.now) == Some(i)
  }

  // ---------------------------------------------------------------- steps

  ghost predicate Next(c: Config, s: State, step: Step, s': State) {
    match step
    case Tick(now) => s.now <= now && s' == s.(now := now)
    case StartCycle(i) =>
      var x := Of(s, i);
      x.cycle.Resting? && s' == With(s, i, x.(cycle := Sent(if x.leader then Renew else Acquire, s.now)))
    case Execute(i, lost) =>
      var x := Of(s, i);
      x.cycle.Sent? &&
      var granted := Granted(s, i, x.cycle.command);
      var answer := if lost then Error else if granted then Yes else No;
      var y := x.(cycle := Answered(x.cycle.command, x.cycle.at, answer));
      if granted
      then s' == With(s, i, y.(grant := Some(s.now + c.ttl))).(key := Some(Lease(i, s.now + c.ttl)))
      else s' == With(s, i, y)
    case Drop(i) =>
      var x := Of(s, i);
      x.cycle.Sent? && s' == With(s, i, x.(cycle := Answered(x.cycle.command, x.cycle.at, Error)))
    case Settle(i) =>
      var x := Of(s, i);
      x.cycle.Answered? && s' == With(s, i, Rejoined(Settled(x, s.now)))
    case Stop(i) => s' == With(s, i,
      Of(s, i).(release := if Of(s, i).leader then ReleaseSent else Of(s, i).release, life := Stopped))
    case ExecuteRelease(i, lost) =>
      var x := Of(s, i);
      x.release.ReleaseSent? &&
      if !lost && Holder(s.key, s.now) == Some(i)
      then s' == With(s, i, x.(release := ReleaseAnswered, grant := None)).(key := None)
      else s' == With(s, i, x.(release := ReleaseAnswered))
    case SettleRelease(i) =>
      var x := Of(s, i);
      x.release.ReleaseAnswered? && s' == With(s, i, Rejoined(Released(x)))
    case Restart(i) =>
      var x := Of(s, i);
      var y := x.(release := if x.leader then ReleaseSent else x.release, life := Restarting, late := false);
      x.life.Stopped? && s' == With(s, i, Rejoined(y))
  }

  function Released(x: Instance): Instance {
    x.(release := NoRelease, leader := false, late := false)
  }

  /** A restart is over once no command is in flight and the instance, if it leads, has an unreleased lease. */
  function Rejoined(x: Instance): Instance {
    if x.life.Restarting? && x.cycle.Resting? && x.release.NoRelease? && (x.leader ==> x.grant.Some?)
    then x.(life := Running) else x
  }

  /** What tryAcquire and renew make of their answers; only a granted acquire ever sets the flag. */
  function Settled(x: Instance, now: nat): Instance
    requires x.cycle.Answered?
  {
    var y := x.(cycle := Resting, rested := now, ok := if x.cycle.answer.Yes? then x.cycle.at else x.ok);
    match x.cycle.command
    case Acquire =>
      y.(leader := x.cycle.answer.Yes? || (x.cycle.answer.Error? && x.leader),
         late := x.late || (x.life.Stopped? && x.cycle.answer.Yes?))
    case Renew => y.(leader := x.leader && x.cycle.answer.Yes?)
  }

  ghost predicate Init(s: State) {
    s.key == None && s.instances == map[]
  }

  ghost predicate StepAt(c: Config, ss: seq<State>, steps: seq<Step>, k: nat)
    requires k < |steps| && |ss| == |steps| + 1
  {
    Next(c, ss[k], steps[k], ss[k + 1])
  }

  ghost predicate Path(c: Config, ss: seq<State>, steps: seq<Step>) {
    |ss| == |steps| + 1 && forall k :: 0 <= k < |steps| ==> StepAt(c, ss, steps, k)
  }

  ghost predicate Run(c: Config, ss: seq<State>, steps: seq<Step>) {
    Path(c, ss, steps) && Init(ss[0])
  }

  // ---------------------------------------------------------------- who believes it leads

  /** An acquire of instance i is answered with success. */
  predicate Wins(s: State, step: Step, i: Id) {
    step == Settle(i) && Of(s, i).cycle.Answered? && Of(s, i).cycle.command.Acquire? && Of(s, i).cycle.answer.Yes?
  }

  /** A cycle of instance i is answered with a refusal, or its renew with an error, or its release comes to an end. */
  predicate Loses(s: State, step: Step, i: Id) {
    || step == SettleRelease(i)
    || (step == Settle(i) && Of(s, i).cycle.Answered?
        && (Of(s, i).cycle.answer.No? || (Of(s, i).cycle.command.Renew? && Of(s, i).cycle.answer.Error?)))
  }

  lemma {:induction false} LeadsAfterStep(c: Config, s: State, step: Step, s': State, i: Id)
    requires Next(c, s, step, s')
    ensures Of(s', i).leader <==> Wins(s, step, i) || (Of(s, i).leader && !Loses(s, step, i))
  {
  }

  /** An instance that leads goes on leading, however often it renews, exactly until it loses. */
  lemma {:induction false} LeadsUntilItLoses(c: Config, ss: seq<State>, steps: seq<Step>, i: Id, a: nat, b: nat)
    requires Path(c, ss, steps) && a <= b < |ss| && Of(ss[a], i).leader
    requires forall k :: a <= k < b ==> !Wins(ss[k], steps[k], i)
    ensures Of(ss[b], i).leader <==> forall k :: a <= k < b ==> !Loses(ss[k], steps[k], i)
    decreases b
  {
    if a < b {
      LeadsUntilItLoses(c, ss, steps, i, a, b - 1);
      assert StepAt(c, ss, steps, b - 1);
      LeadsAfterStep(c, ss[b - 1], steps[b - 1], ss[b], i);
    }
  }

  /** In every run an instance leads exactly when it has won at some point and not lost since. */
  lemma {:induction false} LeadsIffWonAndNotLost(c: Config, ss: seq<State>, steps: seq<Step>, i: Id, n: nat)
    requires Run(c, ss, steps) && n < |ss|
    ensures Of(ss[n], i).leader <==>
      exists k :: 0 <= k < n && Wins(ss[k], steps[k], i) && forall m :: k < m < n ==> !Loses(ss[m], steps[m], i)
  {
    if n > 0 {
      LeadsIffWonAndNotLost(c, ss, steps, i, n - 1);
      assert StepAt(c, ss, steps, n - 1);
      LeadsAfterStep(c, ss[n - 1], steps[n - 1], ss[n], i);
      if Of(ss[n], i).leader && !Wins(ss[n - 1], steps[n - 1], i) {
        var k :| 0 <= k < n - 1 && Wins(ss[k], steps[k], i) && forall m :: k < m < n - 1 ==> !Loses(ss[m], steps[m], i);
        assert forall m :: k < m < n ==> !Loses(ss[m], steps[m], i);
      }
    }
  }

  // ---------------------------------------------------------------- what becomes of the key

  /** An acquire takes the key unless some unexpired lease, even its own, is there; a renew, only from its own. */
  lemma {:induction false} LeaseAfterStep(c: Config, s: State, step: Step, s': State)
    requires Next(c, s, step, s')
    ensures var live := s.key.Some? && s.now < s.key.value.expires;
      match step
      case Execute(i, lost) =>
        var mine := live && s.key.value.holder == i;
        var taken := if Of(s, i).cycle.command.Renew? then mine else !live;
        && s'.key == (if taken then Some(Lease(i, s.now + c.ttl)) else s.key)
        && Of(s', i).cycle.answer == (if lost then Error else if taken then Yes else No)
      case Drop(i) => s'.key == s.key && Of(s', i).cycle.answer.Error?
      case ExecuteRelease(i, lost) => s'.key == if !lost && live && s.key.value.holder == i then None else s.key
      case _ => s'.key == s.key
  {
  }

  predicate Acquiring(s: State, i: Id) {
    Of(s, i).cycle.Sent? && Of(s, i).cycle.command.Acquire?
  }

  /** The step lets the holder of a lease extend it or give it up. */
  predicate Yields(s: State, step: Step, h: Id) {
    || (step.ExecuteRelease? && step.i == h)
    || (step.Execute? && step.i == h && !Acquiring(s, h))
  }

  /**
   * A lease stands until it expires unless its holder renews or releases it: not even the holder can acquire it
   * afresh, so an instance that stepped down on an error waits out its own lease.
   */
  lemma {:induction false} LeaseStandsUntilItExpires(
    c: Config, ss: seq<State>, steps: seq<Step>, lease: Lease, a: nat, b: nat)
    requires Path(c, ss, steps) && a <= b < |ss| && ss[a].key == Some(lease) && ss[b].now < lease.expires
    requires forall k :: a <= k < b ==> !Yields(ss[k], steps[k], lease.holder)
    ensures ss[b].key == Some(lease)
    ensures forall k, i :: a <= k < b && steps[k] == Execute(i, false) && Acquiring(ss[k], i) ==>
      Of(ss[k + 1], i).cycle == Answered(Acquire, Of(ss[k], i).cycle.at, No)
    decreases b
  {
    if a < b {
      assert StepAt(c, ss, steps, b - 1);
      assert ss[b - 1].now <= ss[b].now;
      LeaseStandsUntilItExpires(c, ss, steps, lease, a, b - 1);
      LeaseAfterStep(c, ss[b - 1], steps[b - 1], ss[b]);
    }
  }

  // ---------------------------------------------------------------- one live lease at a time

  ghost predicate Live(s: State, i: Id) {
    Of(s, i).grant.Some? && s.now < Of(s, i).grant.value
  }

  /** An instance's unexpired, unreleased grant is what the key stores, and conversely. */
  ghost predicate Inv(s: State) {
    && (forall i: Id :: Live(s, i) ==> s.key == Some(Lease(i, Of(s, i).grant.value)))
    && (Holder(s.key, s.now).Some? ==> Of(s, s.key.value.holder).grant == Some(s.key.value.expires))
  }

  lemma {:induction false} StepKeepsInv(c: Config, s: State, step: Step, s': State)
    requires Inv(s) && Next(c, s, step, s')
    ensures Inv(s')
  {
    forall i: Id | Live(s', i) ensures s'.key == Some(Lease(i, Of(s', i).grant.value)) {
      if Of(s', i).grant == Of(s, i).grant {
        assert Live(s, i);
      }
    }
  }

  lemma {:induction false} RunKeepsInv(c: Config, ss: seq<State>, steps: seq<Step>, n: nat)
    requires Run(c, ss, steps) && n < |ss|
    ensures Inv(ss[n])
  {
    if n > 0 {
      RunKeepsInv(c, ss, steps, n - 1);
      assert StepAt(c, ss, steps, n - 1);
      StepKeepsInv(c, ss[n - 1], steps[n - 1], ss[n]);
    }
  }

  /**
   * In every interleaving, whatever is late or lost: at most one instance that believes it leads has
   * an unexpired, unreleased lease, and it is the holder the key stores.
   */
  lemma {:induction false} AtMostOneLiveLeader(c: Config, ss: seq<State>, steps: seq<Step>, n: nat, i: Id, j: Id)
    requires Run(c, ss, steps) && n < |ss|
    requires Of(ss[n], i).leader && Live(ss[n], i) && Of(ss[n], j).leader && Live(ss[n], j)
    ensures i == j && Holder(ss[n].key, ss[n].now) == Some(i)
  {
    RunKeepsInv(c, ss, steps, n);
  }

  // ---------------------------------------------------------------- and, on time, one believer at a time

  /** No cycle takes longer than `delay`, and a running leader rests no longer than `period`. */
  ghost predicate OnTime(c: Config, s: State) {
    forall i :: i in s.instances ==>
      var x := s.instances[i];
      && (!x.cycle.Resting? ==> s.now <= x.cycle.at + c.delay)
      && (x.cycle.Resting? && x.leader && x.life.Running? ==> s.now <= x.rested + c.period)
  }

  ghost predicate Fresh(c: Config, s: State, x: Instance) {
    && x.release.NoRelease? && x.ok <= s.now
    && (x.leader ==> x.grant.Some? && x.ok + c.ttl <= x.grant.value && x.rested <= x.ok + c.delay)
    && match x.cycle
       case Resting => true
       case Sent(command, at) => at <= s.now && x.leader == command.Renew? && (x.leader ==> at <= x.rested + c.period)
       case Answered(command, at, answer) =>
         && at <= s.now && x.leader == command.Renew? && (x.leader ==> at <= x.rested + c.period)
         && (answer.Yes? ==> x.grant.Some? && at + c.ttl <= x.grant.value)
  }

  /**
   * Recorded times are past and grants long enough; a believer that is not running has its release on the way, was
   * granted its lease while stopped, or, once restarting, has already lost its lease to that release.
   */
  ghost predicate Settling(c: Config, s: State, x: Instance) {
    && x.ok <= s.now && (!x.cycle.Resting? ==> x.cycle.at <= s.now && (x.cycle.command.Acquire? ==> !x.leader))
    && (x.cycle.Answered? && x.cycle.answer.Yes? ==> x.grant.None? || x.cycle.at + c.ttl <= x.grant.value)
    && (x.life.Stopped? && x.leader ==> !x.release.NoRelease? || x.late)
    && (x.life.Restarting? && x.leader ==> !x.release.NoRelease? || x.grant.None?)
  }

  ghost predicate TimedInv(c: Config, s: State) {
    && Inv(s) && (forall i :: i in s.instances ==> Settling(c, s, s.instances[i]))
    && forall i :: i in s.instances && s.instances[i].life.Running? ==> Fresh(c, s, s.instances[i])
  }

  /** A believer that keeps time still has its lease. */
  lemma {:induction false} BelieverIsLive(c: Config, s: State, i: Id)
    requires TimedInv(c, s) && OnTime(c, s) && c.period + 2 * c.delay < c.ttl && Runs(s, i)
    ensures Live(s, i) && Holder(s.key, s.now) == Some(i)
  {
    assert i in s.instances && Fresh(c, s, s.instances[i]);
  }

  lemma {:induction false} ExecuteStaysFresh(c: Config, s: State, step: Step, s': State, i: Id)
    requires Next(c, s, step, s') && step.Execute? && step.i == i && Fresh(c, s, Of(s, i))
    requires Of(s, i).leader ==> Holder(s.key, s.now) == Some(i)
    ensures Fresh(c, s', Of(s', i))
  {
    assert Of(s, i).leader ==> Granted(s, i, Of(s, i).cycle.command);
  }

  lemma {:induction false} StaysFresh(c: Config, s: State, step: Step, s': State, i: Id)
    requires Next(c, s, step, s') && OnTime(c, s) && OnTime(c, s')
    requires Fresh(c, s, Of(s, i)) && Of(s, i).life.Running? && Of(s', i).life.Running?
    requires Of(s, i).leader ==> Holder(s.key, s.now) == Some(i)
    ensures Fresh(c, s', Of(s', i))
  {
    var x := Of(s, i);
    if step.StartCycle? && step.i == i {
      assert x.leader ==> i in s.instances && s.now <= x.rested + c.period;
    } else if step.Settle? && step.i == i {
      assert i in s.instances && s.now <= x.cycle.at + c.delay;
    } else if step.Execute? && step.i == i {
      ExecuteStaysFresh(c, s, step, s', i);
    } else if !step.Tick? && step.i == i {
      assert step.Drop?;
    } else {
      assert Of(s', i) == x;
    }
  }

  lemma {:induction false} StepKeepsTimedInv(c: Config, s: State, step: Step, s': State)
    requires TimedInv(c, s) && OnTime(c, s) && OnTime(c, s') && Next(c, s, step, s') && c.period + 2 * c.delay < c.ttl
    ensures TimedInv(c, s')
  {
    StepKeepsInv(c, s, step, s');
    forall i | i in s'.instances ensures Settling(c, s', s'.instances[i]) { SettlingStep(c, s, step, s', i); }
    forall i | i in s'.instances && s'.instances[i].life.Running? ensures Fresh(c, s', s'.instances[i]) {
      if !Of(s, i).life.Running? {
        RejoinsFresh(c, s, step, s', i);
      } else {
        assert Fresh(c, s, Of(s, i));
        if Of(s, i).leader { BelieverIsLive(c, s, i); }
        StaysFresh(c, s, step, s', i);
      }
    }
  }

  lemma {:induction false} SettlingStep(c: Config, s: State, step: Step, s': State, i: Id)
    requires TimedInv(c, s) && Next(c, s, step, s')
    ensures Settling(c, s', Of(s', i))
  {
    assert Settling(c, s, Of(s, i));
    if !step.Tick? && step.i == i {
      assert Of(s, i).life.Running? ==> Fresh(c, s, Of(s, i));
    } else {
      assert Of(s', i) == Of(s, i);
    }
  }

  /** A stopped instance with nothing left in flight and no lease to give back runs again at once when started. */
  lemma {:induction false} RestartRunsAtOnce(c: Config, s: State, i: Id, s': State)
    requires Next(c, s, Restart(i), s') && !Of(s, i).leader && Of(s, i).cycle.Resting? && Of(s, i).release.NoRelease?
    ensures Of(s', i).life.Running?
  {
  }

  /** The new life starts like a fresh one, or with a lease just granted. */
  lemma {:induction false} RejoinsFresh(c: Config, s: State, step: Step, s': State, i: Id)
    requires TimedInv(c, s) && OnTime(c, s) && Next(c, s, step, s')
    requires !Of(s, i).life.Running? && Of(s', i).life.Running?
    ensures Fresh(c, s', Of(s', i))
  {
    assert i in s.instances && Settling(c, s, Of(s, i));
    if step.Settle? { assert s.now <= Of(s, i).cycle.at + c.delay; }
  }

  lemma {:induction false} TimedRunKeepsInv(c: Config, ss: seq<State>, steps: seq<Step>, n: nat)
    requires OnTimeRun(c, ss, steps, n) && c.period + 2 * c.delay < c.ttl
    ensures TimedInv(c, ss[n])
  {
    if n > 0 {
      TimedRunKeepsInv(c, ss, steps, n - 1);
      assert StepAt(c, ss, steps, n - 1) && OnTime(c, ss[n - 1]) && OnTime(c, ss[n]);
      StepKeepsTimedInv(c, ss[n - 1], steps[n - 1], ss[n]);
    }
  }

  ghost predicate OnTimeRun(c: Config, ss: seq<State>, steps: seq<Step>, n: nat) {
    Run(c, ss, steps) && n < |ss| && forall k :: 0 <= k <= n ==> OnTime(c, ss[k])
  }

  /** Instance i is running, not stopped or still restarting, and believes it leads. */
  predicate Runs(s: State, i: Id) {
    Of(s, i).leader && Of(s, i).life.Running?
  }

  /** When the lease outlasts a period and two delays, a running believer is the stored holder, so there is only one. */
  lemma {:induction false} TimelyLeadersAreExclusive(
    c: Config, ss: seq<State>, steps: seq<Step>, n: nat, i: Id, j: Id)
    requires OnTimeRun(c, ss, steps, n) && c.period + 2 * c.delay < c.ttl
    requires Runs(ss[n], i) && Runs(ss[n], j)
    ensures i == j && Holder(ss[n].key, ss[n].now) == Some(i)
  {
    TimedRunKeepsInv(c, ss, steps, n);
    BelieverIsLive(c, ss[n], i);
    BelieverIsLive(c, ss[n], j);
  }

  /** And its renewals succeed: a renew that is not lost on the way is answered with success. */
  lemma {:induction false} TimelyRenewalSucceeds(c: Config, ss: seq<State>, steps: seq<Step>, n: nat, i: Id)
    requires OnTimeRun(c, ss, steps, n) && c.period + 2 * c.delay < c.ttl && n < |steps| && Runs(ss[n], i)
    requires steps[n] == Execute(i, false)
    ensures Of(ss[n + 1], i).cycle.Answered? && Of(ss[n + 1], i).cycle.command.Renew?
    ensures Of(ss[n + 1], i).cycle.answer.Yes? && ss[n + 1].key == Some(Lease(i, ss[n].now + c.ttl))
  {
    TimedRunKeepsInv(c, ss, steps, n);
    BelieverIsLive(c, ss[n], i);
    assert StepAt(c, ss, steps, n) && Fresh(c, ss[n], Of(ss[n], i));
  }

  /**
   * Two believers overlap only while one of them is stopped or restarting, and then only while its release is on its
   * way, or it was granted its lease while stopped, or that release took the lease its new life had acquired.
   */
  lemma {:induction false} OverlapOnlyWhileStopping(
    c: Config, ss: seq<State>, steps: seq<Step>, n: nat, i: Id, j: Id) returns (k: Id)
    requires OnTimeRun(c, ss, steps, n) && c.period + 2 * c.delay < c.ttl
    requires Of(ss[n], i).leader && Of(ss[n], j).leader && i != j
    ensures (k == i || k == j) && !Of(ss[n], k).life.Running?
    ensures var x := Of(ss[n], k);
      !x.release.NoRelease? || (x.life.Stopped? && x.late) || (x.life.Restarting? && x.grant.None?)
  {
    TimedRunKeepsInv(c, ss, steps, n);
    if Of(ss[n], i).life.Running? && Of(ss[n], j).life.Running? {
      TimelyLeadersAreExclusive(c, ss, steps, n, i, j);
    }
    k := if Of(ss[n], i).life.Running? then j else i;
    assert Settling(c, ss[n], Of(ss[n], k));
  }

  /** An instance that acquired at 0 and heard of it at `settled`. */
  function LeaderSince(c: Config, settled: nat): Instance {
    FRESH.(leader := true, grant := Some(c.ttl), rested := settled)
  }

  lemma {:induction false} AcquireRun(c: Config, t: nat) returns (ss: seq<State>, steps: seq<Step>)
    requires t <= c.delay
    ensures OnTimeRun(c, ss, steps, |steps|)
    ensures ss[|steps|] == State(t, Some(Lease(0, c.ttl)), map[0 := LeaderSince(c, t)])
  {
    var a1 := FRESH.(cycle := Sent(Acquire, 0));
    var a2 := a1.(cycle := Answered(Acquire, 0, Yes), grant := Some(c.ttl));
    var key := Some(Lease(0, c.ttl));
    ss, steps := [State(0, None, map[])], [];
    ss, steps := Extend(c, ss, steps, StartCycle(0), State(0, None, map[0 := a1]));
    ss, steps := Extend(c, ss, steps, Execute(0, false), State(0, key, map[0 := a2]));
    ss, steps := Extend(c, ss, steps, Tick(t), State(t, key, map[0 := a2]));
    ss, steps := Extend(c, ss, steps, Settle(0), State(t, key, map[0 := LeaderSince(c, t)]));
  }

  /** Its next cycle starts as late as allowed and is still in flight when the lease ends. */
  lemma {:induction false} LateRenewalRun(c: Config, t: nat, t': nat) returns (ss: seq<State>, steps: seq<Step>)
    requires t <= c.delay && t <= t' <= t + c.period && t' <= c.ttl <= t' + c.delay
    ensures OnTimeRun(c, ss, steps, |steps|)
    ensures ss[|steps|] == State(c.ttl, Some(Lease(0, c.ttl)), map[0 := LeaderSince(c, t).(cycle := Sent(Renew, t'))])
  {
    var key, a3 := Some(Lease(0, c.ttl)), LeaderSince(c, t);
    var a4 := a3.(cycle := Sent(Renew, t'));
    ss, steps := AcquireRun(c, t);
    ss, steps := Extend(c, ss, steps, Tick(t'), State(t', key, map[0 := a3]));
    ss, steps := Extend(c, ss, steps, StartCycle(0), State(t', key, map[0 := a4]));
    ss, steps := Extend(c, ss, steps, Tick(c.ttl), State(c.ttl, key, map[0 := a4]));
  }

  /** Another instance then acquires the lease beside it, with everybody on time. */
  lemma {:induction false} LateRenewalOverlaps(c: Config) returns (ss: seq<State>, steps: seq<Step>)
    requires c.ttl <= c.period + 2 * c.delay
    ensures OnTimeRun(c, ss, steps, |steps|) && Runs(ss[|steps|], 0) && Runs(ss[|steps|], 1)
  {
    var t := Min(c.delay, c.ttl);
    var t' := Min(t + c.period, c.ttl);
    var a := LeaderSince(c, t).(cycle := Sent(Renew, t'));
    var b1 := FRESH.(cycle := Sent(Acquire, c.ttl));
    var b2 := b1.(cycle := Answered(Acquire, c.ttl, Yes), grant := Some(c.ttl + c.ttl));
    var b3 := b2.(cycle := Resting, leader := true, rested := c.ttl, ok := c.ttl);
    var key := Some(Lease(1, c.ttl + c.ttl));
    ss, steps := LateRenewalRun(c, t, t');
    ss, steps := Extend(c, ss, steps, StartCycle(1), State(c.ttl, Some(Lease(0, c.ttl)), map[0 := a, 1 := b1]));
    ss, steps := Extend(c, ss, steps, Execute(1, false), State(c.ttl, key, map[0 := a, 1 := b2]));
    ss, steps := Extend(c, ss, steps, Settle(1), State(c.ttl, key, map[0 := a, 1 := b3]));
  }

  lemma {:induction false} ExtendRun(c: Config, ss: seq<State>, steps: seq<Step>, step: Step, s': State)
    returns (ss': seq<State>, steps': seq<Step>)
    requires Run(c, ss, steps) && Next(c, ss[|steps|], step, s')
    ensures Run(c, ss', steps') && ss' == ss + [s'] && steps' == steps + [step]
  {
    ss', steps' := ss + [s'], steps + [step];
    forall k | 0 <= k < |steps'| ensures StepAt(c, ss', steps', k) {
      assert k < |steps| ==> StepAt(c, ss, steps, k);
    }
  }

  lemma {:induction false} Extend(c: Config, ss: seq<State>, steps: seq<Step>, step: Step, s': State)
    returns (ss': seq<State>, steps': seq<Step>)
    requires OnTimeRun(c, ss, steps, |steps|) && Next(c, ss[|steps|], step, s') && OnTime(c, s')
    ensures OnTimeRun(c, ss', steps', |steps'|) && ss'[|steps'|] == s'
  {
    ss', steps' := ExtendRun(c, ss, steps, step, s');
    forall k | 0 <= k < |ss'| ensures OnTime(c, ss'[k]) {
      assert k < |ss| ==> OnTime(c, ss[k]);
    }
  }

  /** No two running instances that keep time ever both believe they lead. */
  ghost predicate Exclusive(c: Config) {
    forall ss: seq<State>, steps: seq<Step>, n: nat, i: Id, j: Id ::
      (OnTimeRun(c, ss, steps, n) && Runs(ss[n], i) && Runs(ss[n], j)) ==> i == j
  }

  /** That holds for exactly the configurations whose lease outlasts a period and two delays. */
  lemma {:induction false} ExclusiveIffLeaseOutlasts(c: Config)
    ensures Exclusive(c) <==> c.period + 2 * c.delay < c.ttl
  {
    if c.period + 2 * c.delay < c.ttl {
      forall ss: seq<State>, steps: seq<Step>, n: nat, i: Id, j: Id
        | OnTimeRun(c, ss, steps, n) && Runs(ss[n], i) && Runs(ss[n], j)
        ensures i == j
      {
        TimelyLeadersAreExclusive(c, ss, steps, n, i, j);
      }
    } else {
      var ss, steps := LateRenewalOverlaps(c);
    }
  }

  /** The timing is needed: an instance that pauses past its TTL goes on believing beside its successor. */
  lemma {:induction false} PausedLeaderOverlaps(c: Config) returns (ss: seq<State>, steps: seq<Step>)
    ensures Run(c, ss, steps)
    ensures Runs(ss[|steps|], 0) && Runs(ss[|steps|], 1)
  {
    var a, key := LeaderSince(c, 0), Some(Lease(0, c.ttl));
    var b1 := FRESH.(cycle := Sent(Acquire, c.ttl));
    var b2 := b1.(cycle := Answered(Acquire, c.ttl, Yes), grant := Some(c.ttl + c.ttl));
    var b3 := b2.(cycle := Resting, leader := true, rested := c.ttl, ok := c.ttl);
    var key' := Some(Lease(1, c.ttl + c.ttl));
    ss, steps := AcquireRun(c, 0);
    ss, steps := ExtendRun(c, ss, steps, Tick(c.ttl), State(c.ttl, key, map[0 := a]));
    ss, steps := ExtendRun(c, ss, steps, StartCycle(1), State(c.ttl, key, map[0 := a, 1 := b1]));
    ss, steps := ExtendRun(c, ss, steps, Execute(1, false), State(c.ttl, key', map[0 := a, 1 := b2]));
    ss, steps := ExtendRun(c, ss, steps, Settle(1), State(c.ttl, key', map[0 := a, 1 := b3]));
  }

  // ---------------------------------------------------------------- stopping

  /** The steps by which instance i could begin something new. */
  predicate Begins(step: Step, i: Id) {
    step == StartCycle(i) || step == Stop(i) || step == Restart(i)
  }

  /** At position k an answer granting an acquire reaches instance i. */
  ghost predicate LateGrant(ss: seq<State>, steps: seq<Step>, i: Id, k: nat)
    requires k < |steps| && |ss| == |steps| + 1
  {
    Wins(ss[k], steps[k], i)
  }

  /** Between a stop and its end: leading means a release is still on its way, unless a late grant arrived. */
  ghost predicate WindingDown(x: Instance, granted: bool) {
    if granted then x.leader && x.cycle.Resting? && x.release.NoRelease?
    else
      && (x.leader ==> !x.release.NoRelease?)
      && (!x.cycle.Resting? && x.cycle.command.Acquire? ==> !x.leader && x.release.NoRelease?)
  }

  lemma {:induction false} WindingDownLasts(
    c: Config, ss: seq<State>, steps: seq<Step>, i: Id, n: nat) returns (granted: bool)
    requires Path(c, ss, steps) && 0 < n < |ss| && steps[0] == Stop(i)
    requires Of(ss[0], i).release.NoRelease?
    requires !Of(ss[0], i).cycle.Resting? ==> Of(ss[0], i).leader == Of(ss[0], i).cycle.command.Renew?
    requires forall k :: 0 < k < n ==> !Begins(steps[k], i)
    ensures granted <==> exists k :: 0 < k < n && LateGrant(ss, steps, i, k)
    ensures WindingDown(Of(ss[n], i), granted)
  {
    if n == 1 {
      granted := false;
      assert StepAt(c, ss, steps, 0);
    } else {
      granted := WindingDownLasts(c, ss, steps, i, n - 1);
      assert StepAt(c, ss, steps, n - 1) && !Begins(steps[n - 1], i);
      granted := granted || LateGrant(ss, steps, i, n - 1);
    }
  }

  /**
   * Once a stopped instance has nothing in flight, its leader flag is still set exactly when an
   * acquire that was in flight at the stop was granted: release() had nothing to release, so the
   * flag and the lease outlive the stop.
   */
  lemma {:induction false} StopLeavesLeaderIffLateGrant(c: Config, ss: seq<State>, steps: seq<Step>, i: Id)
    requires Path(c, ss, steps) && |steps| > 0 && steps[0] == Stop(i)
    requires Of(ss[0], i).release.NoRelease?
    requires !Of(ss[0], i).cycle.Resting? ==> Of(ss[0], i).leader == Of(ss[0], i).cycle.command.Renew?
    requires forall k :: 0 < k < |steps| ==> !Begins(steps[k], i)
    requires Of(ss[|steps|], i).cycle.Resting? && Of(ss[|steps|], i).release.NoRelease?
    ensures Of(ss[|steps|], i).leader <==> exists k :: 0 < k < |steps| && LateGrant(ss, steps, i, k)
  {
    var granted := WindingDownLasts(c, ss, steps, i, |steps|);
  }

  /** And that does happen. */
  lemma {:induction false} StopRaceHappens(c: Config) returns (ss: seq<State>, steps: seq<Step>)
    ensures Run(c, ss, steps)
    ensures var x := Of(ss[|steps|], 0);
      x.life.Stopped? && x.leader && x.cycle.Resting? && x.release.NoRelease? && c.ttl <= ss[|steps|].now
  {
    var a1 := FRESH.(cycle := Sent(Acquire, 0));
    var a2 := a1.(life := Stopped);
    var a3 := a2.(cycle := Answered(Acquire, 0, Yes), grant := Some(c.ttl));
    var a4 := a3.(cycle := Resting, leader := true, late := true);
    ss := [
      State(0, None, map[]),
      State(0, None, map[0 := a1]),
      State(0, None, map[0 := a2]),
      State(0, Some(Lease(0, c.ttl)), map[0 := a3]),
      State(0, Some(Lease(0, c.ttl)), map[0 := a4]),
      State(c.ttl, Some(Lease(0, c.ttl)), map[0 := a4])];
    steps := [StartCycle(0), Stop(0), Execute(0, false), Settle(0), Tick(c.ttl)];
    assert StepAt(c, ss, steps, 0) && StepAt(c, ss, steps, 1) && StepAt(c, ss, steps, 2) && StepAt(c, ss, steps, 3)
      && StepAt(c, ss, steps, 4);
  }

  // ---------------------------------------------------------------- failover

  /** h never again gets the lease it holds extended. */
  ghost predicate Silent(step: Step, h: Id) {
    step != Execute(h, true) && step != Execute(h, false)
  }

  /** While h is silent, the key is h's old lease, or was granted since to somebody else. */
  lemma {:induction false} OldLeaseOrSuccessor(c: Config, ss: seq<State>, steps: seq<Step>, h: Id, lease: Lease, n: nat)
    requires Path(c, ss, steps) && n < |ss| && ss[0].key == Some(lease) && lease.holder == h
    requires forall k :: 0 <= k < |steps| ==> Silent(steps[k], h)
    ensures ss[n].key == None || ss[n].key == Some(lease) || ss[n].key.value.holder != h
  {
    if n > 0 {
      OldLeaseOrSuccessor(c, ss, steps, h, lease, n - 1);
      assert StepAt(c, ss, steps, n - 1) && Silent(steps[n - 1], h);
    }
  }

  /** Instance f's acquire reaches Redis at position k. */
  ghost predicate Attempt(ss: seq<State>, steps: seq<Step>, f: Id, k: nat)
    requires |ss| == |steps| + 1
  {
    k < |steps| && steps[k].Execute? && steps[k].i == f && Of(ss[k], f).cycle.Sent?
      && Of(ss[k], f).cycle.command.Acquire?
  }

  /** An attempt at or after the expiry leaves the key with a live holder other than h. */
  lemma {:induction false} AttemptAfterExpiryTakesOver(
    c: Config, ss: seq<State>, steps: seq<Step>, h: Id, lease: Lease, f: Id, k: nat)
    requires Path(c, ss, steps) && ss[0].key == Some(lease) && lease.holder == h && f != h && 0 < c.ttl
    requires forall m :: 0 <= m < |steps| ==> Silent(steps[m], h)
    requires Attempt(ss, steps, f, k) && lease.expires <= ss[k].now
    ensures var key := Holder(ss[k + 1].key, ss[k + 1].now); key.Some? && key.value != h
  {
    OldLeaseOrSuccessor(c, ss, steps, h, lease, k);
    assert StepAt(c, ss, steps, k);
  }

  /**
   * Failover bound: the last grant to h was at `granted`; h is silent from then on. If follower f's
   * attempts (at positions `tries`) come at most `period` apart and go on past the expiry, then by granted + ttl +
   * period some other instance holds the key.
   */
  lemma {:induction false} FailoverWithinTtlPlusPeriod(
    c: Config, ss: seq<State>, steps: seq<Step>, h: Id, granted: nat, f: Id, tries: seq<nat>) returns (k: nat)
    requires Path(c, ss, steps) && ss[0].key == Some(Lease(h, granted + c.ttl)) && f != h && 0 < c.ttl
    requires forall m :: 0 <= m < |steps| ==> Silent(steps[m], h)
    requires |tries| > 0 && forall m :: 0 <= m < |tries| ==> tries[m] < |steps| && Attempt(ss, steps, f, tries[m])
    requires forall m :: 0 < m < |tries| ==> ss[tries[m]].now <= ss[tries[m - 1]].now + c.period
    requires ss[tries[0]].now <= granted + c.ttl + c.period && granted + c.ttl <= ss[tries[|tries| - 1]].now
    ensures k < |steps| && ss[k].now <= granted + c.ttl + c.period
    ensures var key := Holder(ss[k + 1].key, ss[k + 1].now); key.Some? && key.value != h
    decreases |tries|
  {
    if granted + c.ttl <= ss[tries[0]].now {
      k := tries[0];
      AttemptAfterExpiryTakesOver(c, ss, steps, h, Lease(h, granted + c.ttl), f, k);
    } else {
      assert Attempt(ss, steps, f, tries[1]);
      k := FailoverWithinTtlPlusPeriod(c, ss, steps, h, granted, f, tries[1..]);
    }
  }

  // ---------------------------------------------------------------- the closure's variables

  /** One instance's election closure; the timestamps are what its state report shows. */
  class LeaderElection {
    var leader: bool
    var cycleInFlight: bool
    var acquiredAt: Option<nat>
    var lastRenewedAt: Option<nat>

    ghost predicate Shows(x: Instance) reads this {
      leader == x.leader && cycleInFlight == !x.cycle.Resting?
    }

    /** An instance reports when it became leader exactly while it believes it leads. */
    ghost predicate Valid() reads this {
      (acquiredAt.Some? <==> leader) && (leader ==> lastRenewedAt.Some?)
    }

    constructor ()
      ensures Shows(FRESH) && Valid()
    {
      leader, cycleInFlight, acquiredAt, lastRenewedAt := false, false, None, None;
    }

    /** Returns the command to send, or nothing while a cycle is in flight. */
    method BeginCycle(ghost x: Instance, now: nat) returns (command: Option<Command>)
      requires Shows(x) && Valid()
      modifies this`cycleInFlight
      ensures Valid() && (command.None? <==> !x.cycle.Resting?)
      ensures Shows(if command.Some? then x.(cycle := Sent(command.value, now)) else x)
      ensures command.Some? ==> command.value == if x.leader then Renew else Acquire
    {
      if cycleInFlight { return None; }
      cycleInFlight := true;
      return Some(if leader then Renew else Acquire);
    }

    method StepDown()
      modifies this
      ensures !leader && acquiredAt == None && lastRenewedAt == None && cycleInFlight == old(cycleInFlight)
    {
      leader, acquiredAt, lastRenewedAt := false, None, None;
    }

    /** The answer of the command in flight arrives and the cycle ends. */
    method CycleAnswered(ghost x: Instance, command: Command, answer: Answer, now: nat)
      requires Shows(x) && Valid() && x.cycle.Answered? && x.cycle.command == command && x.cycle.answer == answer
      modifies this
      ensures Valid() && Shows(Settled(x, now))
      ensures command.Acquire? && answer.Yes? ==> leader && acquiredAt == lastRenewedAt == Some(now)
      ensures command.Renew? && answer.Yes? ==>
        leader == old(leader) && acquiredAt == old(acquiredAt) && lastRenewedAt == Some(now)
      ensures answer.No? || (command.Renew? && answer.Error?) ==>
        && !leader && acquiredAt == None
        && lastRenewedAt == if old(leader) || command.Renew? then None else old(lastRenewedAt)
      ensures command.Acquire? && answer.Error? ==>
        leader == old(leader) && acquiredAt == old(acquiredAt) && lastRenewedAt == old(lastRenewedAt)
    {
      if command.Acquire? {
        if answer.Yes? {
          leader, acquiredAt, lastRenewedAt := true, Some(now), Some(now);
        } else if answer.No? && leader {
          StepDown();
        }
      } else if answer.Yes? {
        lastRenewedAt := Some(now);
      } else {
        StepDown();
      }
      cycleInFlight := false;
    }

    /** The release script has answered, or failed. */
    method ReleaseSettled(ghost x: Instance)
      requires Shows(x) && Valid()
      modifies this
      ensures Valid() && Shows(Released(x))
    {
      StepDown();
    }
  }
}
