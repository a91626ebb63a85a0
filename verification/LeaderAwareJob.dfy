/**
 * The job wrapper that starts and stops an underlying job as leadership comes and goes. Each `start()` makes
 * its own leadership checker with its own memory of the last observation; a checker whose timer or whose
 * election call is still outstanding can fire after `stop()`, even into a later `start()`.
 */
module LeaderAwareJob {

  datatype JobCall = StartJob | StopJob

  /** Idle, started, `stop()` awaiting the renewal loop, `stop()` awaiting the underlying job. */
  datatype Phase = Idle | Active | Stopping | StoppingJob

  /** `was[e]` is what the checker of the e-th `start()` last observed; `calls` are the underlying job's calls. */
  datatype Wrapper = Wrapper(
    started: bool, manualStop: bool, lostWhileRunning: bool, was: seq<bool>, phase: Phase, calls: seq<JobCall>)

  const FRESH := Wrapper(false, false, false, [], Idle, [])

  datatype Step =
    | Start
    | Check(checker: nat, leader: bool)
    | StopBegins
    | StopReleased
    | StopDone

  function Acquired(w: Wrapper): Wrapper {
    if w.manualStop then w
    else if !w.started then w.(calls := w.calls + [StartJob], started := true)
    else if w.lostWhileRunning then w.(calls := w.calls + [StartJob], lostWhileRunning := false)
    else w
  }

  function Lost(w: Wrapper): Wrapper {
    if w.started then w.(calls := w.calls + [StopJob], started := false, lostWhileRunning := true) else w
  }

  function Checked(w: Wrapper, checker: nat, leader: bool): Wrapper
    requires checker < |w.was|
  {
    var w1 := if leader && !w.was[checker] then Acquired(w) else if !leader && w.was[checker] then Lost(w) else w;
    w1.(was := w.was[checker := leader])
  }

  function Released(w: Wrapper): Wrapper {
    if w.started then w.(calls := w.calls + [StopJob], phase := StoppingJob) else w.(phase := Idle)
  }

  function Apply(w: Wrapper, step: Step): Wrapper
    requires Allowed(w, step)
  {
    match step
    case Start => w.(manualStop := false, lostWhileRunning := false, was := w.was + [false], phase := Active)
    case Check(checker, leader) => Checked(w, checker, leader)
    case StopBegins => w.(manualStop := true, phase := Stopping)
    case StopReleased => Released(w)
    case StopDone => w.(started := false, phase := Idle)
  }

  /** `start()` and `stop()` take turns; any checker ever made may fire at any time. */
  predicate Allowed(w: Wrapper, step: Step) {
    match step
    case Start => w.phase.Idle?
    case Check(checker, _) => checker < |w.was|
    case StopBegins => w.phase.Active?
    case StopReleased => w.phase.Stopping?
    case StopDone => w.phase.StoppingJob?
  }

  ghost predicate StepAt(ws: seq<Wrapper>, steps: seq<Step>, k: nat)
    requires k < |steps| && |ws| == |steps| + 1
  {
    Allowed(ws[k], steps[k]) && ws[k + 1] == Apply(ws[k], steps[k])
  }

  ghost predicate Run(ws: seq<Wrapper>, steps: seq<Step>) {
    |ws| == |steps| + 1 && ws[0] == FRESH && forall k :: 0 <= k < |steps| ==> StepAt(ws, steps, k)
  }

  // ---------------------------------------------------------------- every run, stale checkers included

  /** The underlying job is running: its last call was a start. */
  predicate Running(w: Wrapper) {
    |w.calls| > 0 && w.calls[|w.calls| - 1] == StartJob
  }

  ghost predicate Inv(w: Wrapper) {
    && (w.manualStop <==> w.phase.Stopping? || w.phase.StoppingJob? || (w.phase.Idle? && |w.was| > 0))
    && (w.phase.Idle? ==> !w.started) && (|w.was| == 0 ==> w.phase.Idle?)
    && (if w.phase.StoppingJob? then !Running(w) else Running(w) <==> w.started)
  }

  lemma {:induction false} StepKeepsInv(w: Wrapper, step: Step)
    requires Inv(w) && Allowed(w, step)
    ensures Inv(Apply(w, step))
  {
    if step.Check? {
      assert Inv(Acquired(w)) && Inv(Lost(w));
    }
  }

  lemma {:induction false} RunKeepsInv(ws: seq<Wrapper>, steps: seq<Step>, n: nat)
    requires Run(ws, steps) && n < |ws|
    ensures Inv(ws[n])
  {
    if n > 0 {
      RunKeepsInv(ws, steps, n - 1);
      assert StepAt(ws, steps, n - 1);
      StepKeepsInv(ws[n - 1], steps[n - 1]);
    }
  }

  /**
   * From a `stop()` to the next `start()` no late checker restarts the job, and it is not running once `stop()`
   * completes.
   */
  lemma {:induction false} StoppedStaysStopped(ws: seq<Wrapper>, steps: seq<Step>, i: nat, j: nat)
    requires Run(ws, steps) && i <= j < |ws| && ws[i].phase.Idle? && forall k :: i <= k < j ==> !steps[k].Start?
    ensures ws[j].phase.Idle? && !Running(ws[j]) && ws[j].calls == ws[i].calls
    decreases j
  {
    RunKeepsInv(ws, steps, j);
    if i < j {
      StoppedStaysStopped(ws, steps, i, j - 1);
      RunKeepsInv(ws, steps, j - 1);
      assert StepAt(ws, steps, j - 1);
    }
  }

  // ---------------------------------------------------------------- alternation

  /** Starts and stops take turns, a start first. */
  ghost predicate Alternates(calls: seq<JobCall>) {
    forall i :: 0 <= i < |calls| ==> (calls[i] == StartJob <==> i % 2 == 0)
  }

  lemma {:induction false} AlternatesExtends(calls: seq<JobCall>, call: JobCall)
    requires Alternates(calls)
    ensures Alternates(calls + [call]) <==> (call == StartJob <==> |calls| % 2 == 0)
    ensures |calls| % 2 == 0 <==> !(|calls| > 0 && calls[|calls| - 1] == StartJob)
  {
    assert (calls + [call])[|calls|] == call;
    assert Alternates(calls + [call]) ==> ((calls + [call])[|calls|] == StartJob <==> |calls| % 2 == 0);
  }

  /** The "re-acquired while started" branch is taken. */
  predicate Restarts(w: Wrapper, step: Step)
    requires Allowed(w, step)
  {
    step.Check? && step.leader && !w.was[step.checker] && !w.manualStop && w.started && w.lostWhileRunning
  }

  /** A checker sees leadership gone while `stop()` is waiting for the underlying job. */
  predicate StopsAgain(w: Wrapper, step: Step)
    requires Allowed(w, step)
  {
    step.Check? && !step.leader && w.was[step.checker] && w.phase.StoppingJob? && w.started
  }

  /** Exactly two situations break the alternation of the underlying job's starts and stops. */
  lemma {:induction false} StepAlternatesIff(w: Wrapper, step: Step)
    requires Inv(w) && Alternates(w.calls) && Allowed(w, step)
    ensures Alternates(Apply(w, step).calls) <==> !Restarts(w, step) && !StopsAgain(w, step)
  {
    AlternatesExtends(w.calls, StartJob);
    AlternatesExtends(w.calls, StopJob);
  }

  /** The job is stopped because a checker sees leadership gone. */
  ghost predicate LosesAt(ws: seq<Wrapper>, steps: seq<Step>, k: nat)
    requires k < |steps| && |ws| == |steps| + 1
  {
    && steps[k].Check? && !steps[k].leader && steps[k].checker < |ws[k].was| && ws[k].was[steps[k].checker]
    && (Running(ws[k]) || ws[k].phase.StoppingJob?) && ws[k].started
  }

  /** `start()` is called, or a job that is running is started again. */
  ghost predicate ForgetsAt(ws: seq<Wrapper>, steps: seq<Step>, k: nat)
    requires k < |steps| && |ws| == |steps| + 1
  {
    steps[k].Start? || (steps[k].Check? && Running(ws[k]) && ws[k + 1].calls == ws[k].calls + [StartJob])
  }

  /** The wrapper remembers a loss exactly from the stop it caused to the next `start()` or second start of the job. */
  lemma {:induction false} RemembersLossIff(ws: seq<Wrapper>, steps: seq<Step>, n: nat)
    requires Run(ws, steps) && n < |ws|
    ensures ws[n].lostWhileRunning <==>
      exists k :: 0 <= k < n && LosesAt(ws, steps, k) && forall m :: k < m < n ==> !ForgetsAt(ws, steps, m)
  {
    if n > 0 {
      var m := n - 1;
      RemembersLossIff(ws, steps, m);
      RunKeepsInv(ws, steps, m);
      assert StepAt(ws, steps, m);
      assert ws[n].lostWhileRunning <==> LosesAt(ws, steps, m) || (ws[m].lostWhileRunning && !ForgetsAt(ws, steps, m));
      if ws[m].lostWhileRunning && !ForgetsAt(ws, steps, m) {
        var k :| 0 <= k < m && LosesAt(ws, steps, k) && forall j :: k < j < m ==> !ForgetsAt(ws, steps, j);
        assert forall j :: k < j < n ==> !ForgetsAt(ws, steps, j);
      }
    }
  }

  /** Only the checker of the latest `start()` fires, and not while `stop()` is waiting for the underlying job. */
  ghost predicate Undisturbed(w: Wrapper, step: Step) {
    step.Check? ==> step.checker == |w.was| - 1 && !w.phase.StoppingJob?
  }

  /** In an active epoch the job runs iff leadership was last observed as held. */
  ghost predicate Follows(w: Wrapper) {
    Inv(w) && Alternates(w.calls) && (w.phase.Active? ==> |w.was| > 0 && (w.started <==> w.was[|w.was| - 1]))
  }

  lemma {:induction false} StepFollows(w: Wrapper, step: Step)
    requires Follows(w) && Allowed(w, step) && Undisturbed(w, step)
    ensures Follows(Apply(w, step)) && !Restarts(w, step)
  {
    StepKeepsInv(w, step);
    StepAlternatesIff(w, step);
  }

  /**
   * Whatever is observed, start and stop calls alternate, the job runs iff leadership was last seen held, and it is
   * never re-started while started.
   */
  lemma {:induction false} RunFollowsLeadership(ws: seq<Wrapper>, steps: seq<Step>, n: nat)
    requires Run(ws, steps) && n < |ws| && forall k :: 0 <= k < n ==> Undisturbed(ws[k], steps[k])
    ensures Alternates(ws[n].calls)
    ensures ws[n].phase.Active? ==> |ws[n].was| > 0 && (Running(ws[n]) <==> ws[n].was[|ws[n].was| - 1])
    ensures n < |steps| && Allowed(ws[n], steps[n]) && Undisturbed(ws[n], steps[n]) ==> !Restarts(ws[n], steps[n])
  {
    RunIsFollowing(ws, steps, n);
    if n < |steps| && Allowed(ws[n], steps[n]) && Undisturbed(ws[n], steps[n]) {
      StepFollows(ws[n], steps[n]);
    }
  }

  lemma {:induction false} RunIsFollowing(ws: seq<Wrapper>, steps: seq<Step>, n: nat)
    requires Run(ws, steps) && n < |ws| && forall k :: 0 <= k < n ==> Undisturbed(ws[k], steps[k])
    ensures Follows(ws[n])
  {
    if n > 0 {
      RunIsFollowing(ws, steps, n - 1);
      assert StepAt(ws, steps, n - 1) && Undisturbed(ws[n - 1], steps[n - 1]);
      StepFollows(ws[n - 1], steps[n - 1]);
    }
  }

  ghost function After(w: Wrapper, step: Step): Wrapper {
    if Allowed(w, step) then Apply(w, step) else w
  }

  /**
   * A checker of an earlier `start()` that fires after leadership was lost and regained starts the running job a second
   * time.
   */
  lemma StaleCheckerStartsTwice()
    ensures exists ws: seq<Wrapper>, steps: seq<Step> ::
      Run(ws, steps) && ws[|steps|].calls == [StartJob, StopJob, StartJob, StartJob]
  {
    var w0 := FRESH;
    var w1 := After(w0, Start);
    var w2 := After(w1, StopBegins);
    var w3 := After(w2, StopReleased);
    var w4 := After(w3, Start);
    var w5 := After(w4, Check(1, true));
    var w6 := After(w5, Check(1, false));
    var w7 := After(w6, Check(1, true));
    var w8 := After(w7, Check(0, true));
    var ws := [w0, w1, w2, w3, w4, w5, w6, w7, w8];
    var steps := [Start, StopBegins, StopReleased, Start, Check(1, true), Check(1, false), Check(1, true),
      Check(0, true)];
    forall k | 0 <= k < |steps| ensures StepAt(ws, steps, k) { }
    assert Run(ws, steps) && ws[|steps|].calls == [StartJob, StopJob, StartJob, StartJob];
  }

  /** A check that sees leadership gone while `stop()` awaits the job stops it a second time. */
  lemma CheckDuringStopStopsTwice()
    ensures exists ws: seq<Wrapper>, steps: seq<Step> ::
      Run(ws, steps) && ws[|steps|].calls == [StartJob, StopJob, StopJob]
  {
    var w0 := FRESH;
    var w1 := After(w0, Start);
    var w2 := After(w1, Check(0, true));
    var w3 := After(w2, StopBegins);
    var w4 := After(w3, StopReleased);
    var w5 := After(w4, Check(0, false));
    var ws := [w0, w1, w2, w3, w4, w5];
    var steps := [Start, Check(0, true), StopBegins, StopReleased, Check(0, false)];
    forall k | 0 <= k < |steps| ensures StepAt(ws, steps, k) { }
    assert Run(ws, steps) && ws[|steps|].calls == [StartJob, StopJob, StopJob];
  }

  // ---------------------------------------------------------------- the closure's variables

  class JobWrapper {
    var underlyingStarted: bool
    var manualStop: bool
    var leadershipLostWhileRunning: bool
    var wasLeader: seq<bool>
    var phase: Phase
    var jobCalls: seq<JobCall>

    function View(): Wrapper reads this {
      Wrapper(underlyingStarted, manualStop, leadershipLostWhileRunning, wasLeader, phase, jobCalls)
    }

    constructor ()
      ensures View() == FRESH
    {
      underlyingStarted, manualStop, leadershipLostWhileRunning, wasLeader, phase, jobCalls := false, false, false,
        [], Idle, [];
    }

    method OnLeadershipAcquired()
      modifies this
      ensures View() == Acquired(old(View()))
    {
      if manualStop { return; }
      if !underlyingStarted {
        jobCalls := jobCalls + [StartJob];
        underlyingStarted := true;
      } else if leadershipLostWhileRunning {
        jobCalls := jobCalls + [StartJob];
        leadershipLostWhileRunning := false;
      }
    }

    method OnLeadershipLost()
      modifies this
      ensures View() == Lost(old(View()))
    {
      if underlyingStarted {
        jobCalls := jobCalls + [StopJob];
        underlyingStarted := false;
        leadershipLostWhileRunning := true;
      }
    }

    method CheckLeader(checker: nat, isLeaderNow: bool)
      requires checker < |wasLeader|
      modifies this
      ensures View() == Checked(old(View()), checker, isLeaderNow)
    {
      if isLeaderNow && !wasLeader[checker] {
        OnLeadershipAcquired();
      } else if !isLeaderNow && wasLeader[checker] {
        OnLeadershipLost();
      }
      wasLeader := wasLeader[checker := isLeaderNow];
    }

    /** Returns the number of the checker this start makes. */
    method Begin() returns (checker: nat)
      requires phase.Idle?
      modifies this
      ensures View() == Apply(old(View()), Start) && checker == |old(wasLeader)|
    {
      manualStop := false;
      leadershipLostWhileRunning := false;
      checker := |wasLeader|;
      wasLeader := wasLeader + [false];
      phase := Active;
    }

    method StopRequested()
      requires phase.Active?
      modifies this
      ensures View() == Apply(old(View()), StopBegins)
    {
      manualStop := true;
      phase := Stopping;
    }

    method RenewLoopStopped()
      requires phase.Stopping?
      modifies this
      ensures View() == Apply(old(View()), StopReleased)
    {
      if underlyingStarted {
        jobCalls := jobCalls + [StopJob];
        phase := StoppingJob;
      } else {
        phase := Idle;
      }
    }

    method JobStopped()
      requires phase.StoppingJob?
      modifies this
      ensures View() == Apply(old(View()), StopDone)
    {
      underlyingStarted := false;
      phase := Idle;
    }
  }
}
