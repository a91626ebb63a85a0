/**
 * The life of a webhook delivery across any number of dispatchers and retry workers: claimed when
 * created or popped, attempted, and then concluded or put back into the retry queue with a backoff.
 * Rescheduling is two writes, the queue entry first and the record second, and they are two steps here.
 */
module DeliveryLifecycle {
  import opened Prelude

  type Id = nat
  type Worker = nat

  datatype Status = Pending | Success | Failed
  datatype Record = Record(status: Status, attempts: nat)

  datatype Response = NetworkError | Http(status: int)

  predicate Succeeded(r: Response) {
    r.Http? && 200 <= r.status < 300
  }

  predicate ShouldRetry(r: Response) {
    r.NetworkError? || 500 <= r.status < 600 || r.status == 408 || r.status == 429
  }

  /** Where one attempter stands with one delivery; attempt numbers are those the attempter computed. */
  datatype Phase =
    | Claimed
    | Posting(read: nat)
    | Posted(attempt: nat, response: Response)
    | Rescheduled(attempt: nat)

  /** `posts` counts the HTTP requests actually made, for the proofs. */
  datatype State = State(
    now: int,
    records: map<Id, Record>,
    queue: map<Id, int>,
    held: map<(Worker, Id), Phase>,
    posts: map<Id, nat>)

  datatype Step =
    | Tick(now: int)
    | Dispatch(w: Worker, id: Id)
    | Pop(w: Worker, ids: set<Id>)
    | Begin(w: Worker, id: Id)
    | Inactive(w: Worker, id: Id)
    | Post(w: Worker, id: Id, response: Response)
    | Conclude(w: Worker, id: Id, max: nat)
    | Reschedule(w: Worker, id: Id, max: nat, delay: int)
    | Note(w: Worker, id: Id)
    | GiveUp(w: Worker, id: Id)

  function Release(s: State, w: Worker, id: Id): State {
    s.(held := s.held - {(w, id)})
  }

  function Hold(s: State, w: Worker, id: Id, ph: Phase): State {
    s.(held := s.held[(w, id) := ph])
  }

  predicate Holds(s: State, w: Worker, id: Id) {
    (w, id) in s.held
  }

  /** After a failed attempt: retry only a retryable failure with attempts left. */
  predicate WillRetry(ph: Phase, max: nat)
    requires ph.Posted?
  {
    !Succeeded(ph.response) && ShouldRetry(ph.response) && ph.attempt < max
  }

  /** `limit` bounds every maxAttempts setting in force during the run. */
  ghost predicate Next(limit: nat, s: State, step: Step, s': State) {
    match step
    case Tick(now) => s.now <= now && s' == s.(now := now)
    case Dispatch(w, id) =>
      && id !in s.records
      && s' == Hold(s.(records := s.records[id := Record(Pending, 0)], posts := s.posts[id := 0]), w, id, Claimed)
    case Pop(w, ids) =>
      && (forall id :: id in ids ==> id in s.queue && s.queue[id] <= s.now)
      && s' == s.(queue := s.queue - ids, held := s.held + map id | id in ids :: (w, id) := Claimed)
    case Begin(w, id) =>
      && Holds(s, w, id) && s.held[(w, id)].Claimed? && id in s.records
      && s' == (if s.records[id].status == Success then Release(s, w, id)
        else Hold(s, w, id, Posting(s.records[id].attempts)))
    case Inactive(w, id) =>
      && Holds(s, w, id) && s.held[(w, id)].Posting? && id in s.records
      && s' == Release(s.(records := s.records[id := Record(Failed, s.records[id].attempts)]), w, id)
    case Post(w, id, response) =>
      && Holds(s, w, id) && s.held[(w, id)].Posting? && id in s.posts
      && s' == Hold(s.(posts := s.posts[id := s.posts[id] + 1]), w, id, Posted(s.held[(w, id)].read + 1, response))
    case Conclude(w, id, max) =>
      && Holds(s, w, id) && s.held[(w, id)].Posted? && id in s.records && max <= limit
      && var ph := s.held[(w, id)];
         !WillRetry(ph, max)
         && var outcome := if Succeeded(ph.response) then Success else Failed;
            s' == Release(s.(records := s.records[id := Record(outcome, ph.attempt)]), w, id)
    case Reschedule(w, id, max, delay) =>
      && Holds(s, w, id) && s.held[(w, id)].Posted? && max <= limit && 0 < delay
      && var ph := s.held[(w, id)];
         WillRetry(ph, max)
         && s' == Hold(s.(queue := s.queue[id := s.now + delay]), w, id, Rescheduled(ph.attempt))
    case Note(w, id) =>
      && Holds(s, w, id) && s.held[(w, id)].Rescheduled? && id in s.records
      && s' == Release(s.(records := s.records[id := Record(Pending, s.held[(w, id)].attempt)]), w, id)
    case GiveUp(w, id) => Holds(s, w, id) && s' == Release(s, w, id)
  }

  ghost predicate Init(s: State) {
    s.records == map[] && s.queue == map[] && s.held == map[] && s.posts == map[]
  }

  /** The record of every popped delivery was written before its retry came due. */
  ghost predicate UpdateLandsFirst(s: State, step: Step) {
    step.Pop? ==> forall id, v: Worker :: id in step.ids && Holds(s, v, id) ==> !s.held[(v, id)].Rescheduled?
  }

  /** That, and no attempter lets go of a delivery by dying, by a swallowed error or by failing to read the record. */
  ghost predicate Careful(s: State, step: Step) {
    UpdateLandsFirst(s, step) && !step.GiveUp?
  }

  ghost predicate StepAt(limit: nat, ss: seq<State>, steps: seq<Step>, k: nat)
    requires k < |steps| && |ss| == |steps| + 1
  {
    Next(limit, ss[k], steps[k], ss[k + 1])
  }

  ghost predicate Run(limit: nat, ss: seq<State>, steps: seq<Step>) {
    |ss| == |steps| + 1 && Init(ss[0]) && forall k :: 0 <= k < |steps| ==> StepAt(limit, ss, steps, k)
  }

  ghost predicate Timely(ss: seq<State>, steps: seq<Step>) {
    |ss| == |steps| + 1 && forall k :: 0 <= k < |steps| ==> Careful(ss[k], steps[k])
  }

  // ---------------------------------------------------------------- exactly one place at a time

  /** Most attempts any delivery may see: the first is always made. */
  function Cap(limit: nat): nat { Max(1, limit) }

  ghost predicate OneHolder(s: State, id: Id) {
    forall v: Worker, w: Worker :: Holds(s, v, id) && Holds(s, w, id) ==> v == w
  }

  ghost predicate Unheld(s: State, id: Id) {
    forall w: Worker :: !Holds(s, w, id)
  }

  ghost predicate HolderOk(limit: nat, s: State, id: Id, ph: Phase) {
    && id in s.records && s.records[id].status == Pending && id in s.posts
    && var a := s.records[id].attempts;
       match ph
       case Claimed => id !in s.queue && s.posts[id] == a < Cap(limit)
       case Posting(read) => id !in s.queue && read == a == s.posts[id] < Cap(limit)
       case Posted(attempt, _) => id !in s.queue && attempt == a + 1 == s.posts[id] <= Cap(limit)
       case Rescheduled(attempt) => id in s.queue && attempt == a + 1 == s.posts[id] < Cap(limit)
  }

  ghost predicate UnheldOk(limit: nat, s: State, id: Id)
    requires id in s.records
  {
    && id in s.posts && s.posts[id] == s.records[id].attempts <= Cap(limit)
    && (id in s.queue <==> s.records[id].status == Pending)
    && (id in s.queue ==> s.posts[id] < Cap(limit))
  }

  ghost predicate IdInv(limit: nat, s: State, id: Id) {
    && OneHolder(s, id) && (id in s.queue ==> id in s.records)
    && (forall w: Worker :: Holds(s, w, id) ==> HolderOk(limit, s, id, s.held[(w, id)]))
    && (id in s.records && Unheld(s, id) ==> UnheldOk(limit, s, id))
  }

  ghost predicate Inv(limit: nat, s: State) {
    forall id: Id :: IdInv(limit, s, id)
  }

  predicate Touches(step: Step, id: Id) {
    match step
    case Tick(_) => false
    case Pop(_, ids) => id in ids
    case _ => step.id == id
  }

  /** A step leaves every delivery it does not name exactly as it was. */
  lemma {:induction false} OthersUntouched(limit: nat, s: State, step: Step, s': State, id: Id)
    requires Next(limit, s, step, s') && !Touches(step, id)
    ensures id in s'.records <==> id in s.records
    ensures id in s.records ==> s'.records[id] == s.records[id]
    ensures id in s'.queue <==> id in s.queue
    ensures id in s'.posts <==> id in s.posts
    ensures id in s.posts ==> s'.posts[id] == s.posts[id]
    ensures forall w: Worker :: Holds(s', w, id) <==> Holds(s, w, id)
    ensures forall w: Worker :: Holds(s, w, id) ==> s'.held[(w, id)] == s.held[(w, id)]
  {
  }

  lemma {:induction false} UntouchedStaysOk(limit: nat, s: State, step: Step, s': State, id: Id)
    requires Next(limit, s, step, s') && !Touches(step, id) && IdInv(limit, s, id)
    ensures IdInv(limit, s', id)
  {
    OthersUntouched(limit, s, step, s', id);
    assert Unheld(s', id) <==> Unheld(s, id);
  }

  /** Popping one delivery keeps it in one place exactly when nobody still has its record to write. */
  lemma {:induction false} PopKeepsIdInvIff(limit: nat, s: State, step: Step, s': State, id: Id)
    requires IdInv(limit, s, id) && Next(limit, s, step, s') && step.Pop? && id in step.ids
    ensures IdInv(limit, s', id) <==> forall v: Worker :: Holds(s, v, id) ==> !s.held[(v, id)].Rescheduled?
  {
    var w := step.w;
    assert Holds(s', w, id) && s'.held[(w, id)] == Claimed && id !in s'.queue;
    if v: Worker :| Holds(s, v, id) {
      // A queued delivery that is held is in the middle of being rescheduled.
      assert s.held[(v, id)].Rescheduled?;
      if v == w {
        assert s'.posts[id] != s'.records[id].attempts;
      } else {
        assert Holds(s', v, id);
      }
    } else {
      assert Unheld(s, id);
      assert forall v: Worker :: Holds(s', v, id) ==> v == w;
    }
  }

  lemma {:induction false} TouchedStaysOk(limit: nat, s: State, step: Step, s': State, id: Id)
    requires IdInv(limit, s, id) && Next(limit, s, step, s') && Touches(step, id) && !step.Pop? && !step.GiveUp?
    ensures IdInv(limit, s', id)
  {
    assert step.Dispatch? ==> Unheld(s, id);
    assert forall v: Worker :: v != step.w && Holds(s', v, id) ==> Holds(s, v, id);
    assert forall v: Worker :: v != step.w ==> !Holds(s', v, id) by {
      assert step.Dispatch? || Holds(s, step.w, id);
    }
    if !Holds(s', step.w, id) {
      assert Unheld(s', id);
    }
  }

  /** A pending delivery in neither place: nobody attempts it and nothing will retry it. */
  ghost predicate Stranded(s: State, id: Id) {
    id in s.records && s.records[id].status == Pending && Unheld(s, id) && id !in s.queue
  }

  /** Letting go of a delivery always breaks its bookkeeping, and strands it unless its retry is queued already. */
  lemma {:induction false} GiveUpStrandsIff(limit: nat, s: State, w: Worker, id: Id, s': State)
    requires IdInv(limit, s, id) && Next(limit, s, GiveUp(w, id), s')
    ensures !IdInv(limit, s', id) && (Stranded(s', id) <==> !s.held[(w, id)].Rescheduled?)
  {
    assert HolderOk(limit, s, id, s.held[(w, id)]);
    assert forall v: Worker :: Holds(s', v, id) ==> Holds(s, v, id) && v != w;
    assert Unheld(s', id);
  }

  lemma {:induction false} StrandedStep(limit: nat, s: State, step: Step, s': State, id: Id)
    requires Next(limit, s, step, s') && Stranded(s, id)
    ensures Stranded(s', id)
  {
    assert !Touches(step, id);
    OthersUntouched(limit, s, step, s', id);
  }

  /** A stranded delivery stays pending for ever, in every run. */
  lemma {:induction false} StrandedForever(limit: nat, ss: seq<State>, steps: seq<Step>, i: nat, j: nat, id: Id)
    requires Run(limit, ss, steps) && i <= j < |ss| && Stranded(ss[i], id)
    ensures Stranded(ss[j], id)
    decreases j
  {
    if i < j {
      StrandedForever(limit, ss, steps, i, j - 1, id);
      assert StepAt(limit, ss, steps, j - 1);
      StrandedStep(limit, ss[j - 1], steps[j - 1], ss[j], id);
    }
  }

  /** The step lets go of a delivery whose retry is not queued. */
  predicate LetsGo(s: State, step: Step, id: Id) {
    step.GiveUp? && step.id == id && Holds(s, step.w, id) && !s.held[(step.w, id)].Rescheduled?
  }

  /** Where a delivery can be, whatever was let go of: attempt numbers aside. */
  ghost predicate PlaceOk(s: State, id: Id) {
    && OneHolder(s, id) && (id in s.queue ==> id in s.records && s.records[id].status == Pending)
    && forall w: Worker :: Holds(s, w, id) ==>
         id in s.records && s.records[id].status == Pending && (id in s.queue <==> s.held[(w, id)].Rescheduled?)
  }

  lemma {:induction false} PlaceStep(limit: nat, s: State, step: Step, s': State, id: Id)
    requires PlaceOk(s, id) && Next(limit, s, step, s') && UpdateLandsFirst(s, step)
    ensures PlaceOk(s', id) && (Stranded(s', id) <==> Stranded(s, id) || LetsGo(s, step, id))
  {
    if !Touches(step, id) {
      OthersUntouched(limit, s, step, s', id);
      assert Unheld(s', id) <==> Unheld(s, id);
    } else if step.Pop? {
      assert Holds(s', step.w, id) && Unheld(s, id);
    } else {
      assert step.Dispatch? || Holds(s, step.w, id);
      assert forall v: Worker :: v != step.w ==> (Holds(s', v, id) <==> Holds(s, v, id));
      assert Holds(s', step.w, id) || Unheld(s', id);
    }
  }

  /**
   * In every run whose pops come after the records, a delivery is stranded exactly when some attempter let go of it so.
   */
  lemma {:induction false} StrandedIffLetGo(limit: nat, ss: seq<State>, steps: seq<Step>, n: nat, id: Id)
    requires Run(limit, ss, steps) && n < |ss| && forall k :: 0 <= k < |steps| ==> UpdateLandsFirst(ss[k], steps[k])
    ensures PlaceOk(ss[n], id)
    ensures Stranded(ss[n], id) <==> exists k :: 0 <= k < n && LetsGo(ss[k], steps[k], id)
  {
    if n > 0 {
      StrandedIffLetGo(limit, ss, steps, n - 1, id);
      assert StepAt(limit, ss, steps, n - 1) && UpdateLandsFirst(ss[n - 1], steps[n - 1]);
      PlaceStep(limit, ss[n - 1], steps[n - 1], ss[n], id);
    }
  }

  /**
   * A step keeps every delivery in exactly one place iff it pops nothing whose record is still to be written and lets
   * go of nothing.
   */
  lemma {:induction false} StepKeepsInvIff(limit: nat, s: State, step: Step, s': State)
    requires Inv(limit, s) && Next(limit, s, step, s')
    ensures Inv(limit, s') <==> Careful(s, step)
  {
    if step.GiveUp? {
      assert IdInv(limit, s, step.id);
      GiveUpStrandsIff(limit, s, step.w, step.id, s');
      return;
    }
    forall id: Id ensures IdInv(limit, s', id) <==>
      (step.Pop? && id in step.ids ==> forall v: Worker :: Holds(s, v, id) ==> !s.held[(v, id)].Rescheduled?)
    {
      assert IdInv(limit, s, id);
      if !Touches(step, id) {
        UntouchedStaysOk(limit, s, step, s', id);
      } else if step.Pop? {
        PopKeepsIdInvIff(limit, s, step, s', id);
      } else {
        TouchedStaysOk(limit, s, step, s', id);
      }
    }
  }

  lemma {:induction false} RunKeepsInv(limit: nat, ss: seq<State>, steps: seq<Step>, n: nat)
    requires Run(limit, ss, steps) && Timely(ss, steps) && n < |ss|
    ensures Inv(limit, ss[n])
  {
    if n > 0 {
      RunKeepsInv(limit, ss, steps, n - 1);
      assert StepAt(limit, ss, steps, n - 1) && Careful(ss[n - 1], steps[n - 1]);
      StepKeepsInvIff(limit, ss[n - 1], steps[n - 1], ss[n]);
    } else {
      assert forall id: Id :: Unheld(ss[0], id);
    }
  }

  /**
   * In every state of every timely run: a pending delivery is held by exactly one attempter or waits
   * in the queue (both only while that attempter is writing its record), a concluded one is in neither
   * place, and no delivery is ever posted more than max(1, maxAttempts) times.
   */
  lemma {:induction false} EachDeliveryInOnePlace(limit: nat, ss: seq<State>, steps: seq<Step>, n: nat, id: Id)
    requires Run(limit, ss, steps) && Timely(ss, steps) && n < |ss| && id in ss[n].records
    ensures var s := ss[n];
      && OneHolder(s, id)
      && (s.records[id].status == Pending <==> id in s.queue || !Unheld(s, id))
      && (forall w: Worker :: Holds(s, w, id) && id in s.queue ==> s.held[(w, id)].Rescheduled?)
      && id in s.posts && s.posts[id] <= Cap(limit)
      && (Unheld(s, id) ==> s.records[id].attempts == s.posts[id])
  {
    RunKeepsInv(limit, ss, steps, n);
    var s := ss[n];
    assert IdInv(limit, s, id);
    if !Unheld(s, id) {
      var w: Worker :| Holds(s, w, id);
      assert HolderOk(limit, s, id, s.held[(w, id)]);
    }
  }

  /** A retry waits out its delay: until it comes due the delivery stays queued as it was, and nobody posts it. */
  lemma {:induction false} BackoffIsWaitedOut(limit: nat, ss: seq<State>, steps: seq<Step>, id: Id, k: nat, n: nat)
    requires Run(limit, ss, steps) && Timely(ss, steps) && k < n < |ss|
    requires steps[k].Reschedule? && steps[k].id == id && ss[n].now < ss[k].now + steps[k].delay
    ensures id in ss[n].queue && ss[n].queue[id] == ss[k].now + steps[k].delay
    ensures n < |steps| ==> !(steps[n].Post? && steps[n].id == id) && !(steps[n].Pop? && id in steps[n].ids)
  {
    assert StepAt(limit, ss, steps, n - 1);
    if k < n - 1 {
      BackoffIsWaitedOut(limit, ss, steps, id, k, n - 1);
      RunKeepsInv(limit, ss, steps, n - 1);
      assert IdInv(limit, ss[n - 1], id);
    }
    RunKeepsInv(limit, ss, steps, n);
    assert IdInv(limit, ss[n], id);
    assert n < |steps| ==> StepAt(limit, ss, steps, n);
  }

  // ---------------------------------------------------------------- which response leads where

  /** An attempt goes ahead unless the delivery already succeeded: a failed one is posted again. */
  lemma {:induction false} AttemptBeginsIff(limit: nat, s: State, w: Worker, id: Id, s': State)
    requires Next(limit, s, Begin(w, id), s')
    ensures Holds(s', w, id) <==> s.records[id].status != Success
    ensures Holds(s', w, id) ==> s'.held[(w, id)] == Posting(s.records[id].attempts)
    ensures s'.records == s.records && s'.queue == s.queue && s'.posts == s.posts
  {
  }

  /** The step concludes an attempt that was answered with a 2xx status. */
  predicate Accepted(s: State, step: Step, id: Id) {
    && step.Conclude? && step.id == id && Holds(s, step.w, id) && s.held[(step.w, id)].Posted?
    && var r := s.held[(step.w, id)].response; r.Http? && 200 <= r.status <= 299
  }

  /** It finds the webhook gone, or concludes an attempt that was answered otherwise. */
  predicate Rejected(s: State, step: Step, id: Id) {
    && (step.Inactive? || step.Conclude?) && step.id == id && Holds(s, step.w, id) && !Accepted(s, step, id)
  }

  /**
   * After a post: a 2xx ends the delivery; a network error, a 5xx, a 408 or a 429 is retried while attempts are left;
   * anything else fails it.
   */
  lemma {:induction false} AttemptOutcomeIff(limit: nat, s: State, w: Worker, id: Id, max: nat, delay: int)
    requires Holds(s, w, id) && s.held[(w, id)].Posted? && id in s.records && max <= limit && delay > 0
    ensures var attempt, r := s.held[(w, id)].attempt, s.held[(w, id)].response;
      var accepted := r.Http? && 200 <= r.status <= 299;
      var again := attempt < max && (r == NetworkError || 500 <= r.status <= 599 || r.status == 408 || r.status == 429);
      && ((exists s' :: Next(limit, s, Conclude(w, id, max), s')) <==> !again)
      && (forall s' :: Next(limit, s, Conclude(w, id, max), s') ==>
           id in s'.records && s'.records[id] == Record(if accepted then Success else Failed, attempt))
      && ((exists s' :: Next(limit, s, Reschedule(w, id, max, delay), s')) <==> again)
      && (forall s' :: Next(limit, s, Reschedule(w, id, max, delay), s') ==>
           id in s'.queue && s'.queue[id] == s.now + delay)
  {
    var ph := s.held[(w, id)];
    var outcome := if Succeeded(ph.response) then Success else Failed;
    var concluded := Release(s.(records := s.records[id := Record(outcome, ph.attempt)]), w, id);
    assert !WillRetry(ph, max) ==> Next(limit, s, Conclude(w, id, max), concluded);
    var again := Hold(s.(queue := s.queue[id := s.now + delay]), w, id, Rescheduled(ph.attempt));
    assert WillRetry(ph, max) ==> Next(limit, s, Reschedule(w, id, max, delay), again);
  }

  lemma {:induction false} StatusAfterStep(limit: nat, s: State, step: Step, s': State, id: Id)
    requires Inv(limit, s) && Next(limit, s, step, s') && id in s'.records
    ensures s'.records[id].status == Success <==>
      (id in s.records && s.records[id].status == Success) || Accepted(s, step, id)
    ensures s'.records[id].status == Failed <==>
      (id in s.records && s.records[id].status == Failed) || Rejected(s, step, id)
  {
    assert IdInv(limit, s, id);
    if !step.Tick? && !step.Pop? && Holds(s, step.w, step.id) && step.id == id {
      assert HolderOk(limit, s, id, s.held[(step.w, id)]);
    }
  }

  /**
   * A delivery has succeeded exactly when an attempt of it was answered with a 2xx, and failed exactly when one was
   * rejected.
   */
  lemma {:induction false} OutcomeIff(limit: nat, ss: seq<State>, steps: seq<Step>, n: nat, id: Id)
    requires Run(limit, ss, steps) && Timely(ss, steps) && n < |ss| && id in ss[n].records
    ensures ss[n].records[id].status == Success <==> exists k :: 0 <= k < n && Accepted(ss[k], steps[k], id)
    ensures ss[n].records[id].status == Failed <==> exists k :: 0 <= k < n && Rejected(ss[k], steps[k], id)
  {
    if n > 0 {
      RunKeepsInv(limit, ss, steps, n - 1);
      assert StepAt(limit, ss, steps, n - 1);
      StatusAfterStep(limit, ss[n - 1], steps[n - 1], ss[n], id);
      if id in ss[n - 1].records {
        OutcomeIff(limit, ss, steps, n - 1, id);
      } else {
        UnknownWasNeverHeld(limit, ss, steps, n - 1, id);
      }
    }
  }

  lemma {:induction false} UnknownWasNeverHeld(limit: nat, ss: seq<State>, steps: seq<Step>, n: nat, id: Id)
    requires Run(limit, ss, steps) && Timely(ss, steps) && n < |ss| && id !in ss[n].records
    ensures forall k :: 0 <= k < n ==> !Accepted(ss[k], steps[k], id) && !Rejected(ss[k], steps[k], id)
  {
    if n > 0 {
      RunKeepsInv(limit, ss, steps, n - 1);
      assert StepAt(limit, ss, steps, n - 1) && IdInv(limit, ss[n - 1], id);
      UnknownWasNeverHeld(limit, ss, steps, n - 1, id);
    }
  }

  // ---------------------------------------------------------------- every delivery is concluded

  /** Steps left for a delivery, at most: six per attempt. */
  ghost function Rank(limit: nat, s: State, id: Id): int
    requires id in s.records && id in s.posts
  {
    if s.records[id].status != Pending then 0
    else 6 * (Cap(limit) - s.posts[id]) + (if Unheld(s, id) then 2 else PhaseRank(s, id))
  }

  ghost function RankAt(ph: Phase): int {
    match ph case Claimed => 1 case Posting(_) => 0 case Posted(_, _) => 4 case Rescheduled(_) => 3
  }

  ghost function PhaseRank(s: State, id: Id): int
    requires !Unheld(s, id)
  {
    var w: Worker :| Holds(s, w, id);
    RankAt(s.held[(w, id)])
  }

  lemma {:induction false} PhaseRankIs(s: State, w: Worker, id: Id)
    requires OneHolder(s, id) && Holds(s, w, id)
    ensures !Unheld(s, id) && PhaseRank(s, id) == RankAt(s.held[(w, id)])
  {
    assert exists v: Worker :: Holds(s, v, id);
  }

  /** Every step on a delivery brings it closer to its end; steps on others leave it where it is. */
  lemma {:induction false} StepsLowerRank(limit: nat, s: State, step: Step, s': State, id: Id)
    requires Inv(limit, s) && Next(limit, s, step, s') && Careful(s, step) && id in s.records
    ensures id in s.posts && id in s'.records && id in s'.posts
    ensures 0 <= Rank(limit, s', id)
    ensures if Touches(step, id) then Rank(limit, s', id) < Rank(limit, s, id)
      else Rank(limit, s', id) == Rank(limit, s, id)
  {
    StepKeepsInvIff(limit, s, step, s');
    assert IdInv(limit, s, id) && IdInv(limit, s', id);
    if !Unheld(s, id) {
      var w: Worker :| Holds(s, w, id);
      PhaseRankIs(s, w, id);
    }
    if !Touches(step, id) {
      OthersUntouched(limit, s, step, s', id);
      if !Unheld(s, id) {
        var w: Worker :| Holds(s, w, id);
        PhaseRankIs(s', w, id);
      }
    } else {
      TouchedRank(limit, s, step, s', id);
    }
  }

  lemma {:induction false} TouchedRank(limit: nat, s: State, step: Step, s': State, id: Id)
    requires IdInv(limit, s, id) && IdInv(limit, s', id) && Next(limit, s, step, s') && Careful(s, step)
    requires id in s.records && Touches(step, id)
    ensures id in s.posts && id in s'.records && id in s'.posts
    ensures 0 <= Rank(limit, s', id) < Rank(limit, s, id)
  {
    var w := step.w;
    if Holds(s, w, id) { PhaseRankIs(s, w, id); }
    if Holds(s', w, id) { PhaseRankIs(s', w, id); }
    if step.Pop? {
      assert Unheld(s, id);
    } else if !Holds(s', w, id) {
      assert forall v: Worker :: v != w ==> !Holds(s', v, id);
      assert Unheld(s', id);
    }
  }

  function TouchCount(steps: seq<Step>, id: Id): nat {
    if steps == [] then 0 else TouchCount(steps[..|steps| - 1], id) + (if Touches(steps[|steps| - 1], id) then 1 else 0)
  }

  lemma {:induction false} TouchCountStep(steps: seq<Step>, i: nat, j: nat, id: Id)
    requires i < j <= |steps|
    ensures TouchCount(steps[i..j], id) == TouchCount(steps[i..j - 1], id) + if Touches(steps[j - 1], id) then 1 else 0
  {
    assert steps[i..j][..j - 1 - i] == steps[i..j - 1];
  }

  /** From any point on, a delivery sees at most 6·max(1, maxAttempts) + 4 more steps, whatever the others do. */
  lemma {:induction false} DeliveryIsSoonConcluded(limit: nat, ss: seq<State>, steps: seq<Step>, i: nat, j: nat, id: Id)
    requires Run(limit, ss, steps) && Timely(ss, steps) && i <= j < |ss| && id in ss[i].records
    ensures id in ss[j].records && id in ss[i].posts && id in ss[j].posts
    ensures TouchCount(steps[i..j], id) + Rank(limit, ss[j], id) <= Rank(limit, ss[i], id) <= 6 * Cap(limit) + 4
    ensures 0 <= Rank(limit, ss[j], id)
    decreases j
  {
    RunKeepsInv(limit, ss, steps, j);
    assert IdInv(limit, ss[j], id);
    if i < j {
      DeliveryIsSoonConcluded(limit, ss, steps, i, j - 1, id);
      RunKeepsInv(limit, ss, steps, j - 1);
      assert StepAt(limit, ss, steps, j - 1) && Careful(ss[j - 1], steps[j - 1]);
      StepsLowerRank(limit, ss[j - 1], steps[j - 1], ss[j], id);
      TouchCountStep(steps, i, j, id);
    } else {
      RankBounds(limit, ss[i], id);
    }
  }

  lemma {:induction false} RankBounds(limit: nat, s: State, id: Id)
    requires IdInv(limit, s, id) && id in s.records
    ensures id in s.posts && 0 <= Rank(limit, s, id) <= 6 * Cap(limit) + 4
  {
    if !Unheld(s, id) {
      var w: Worker :| Holds(s, w, id);
      PhaseRankIs(s, w, id);
      assert HolderOk(limit, s, id, s.held[(w, id)]);
    }
  }

  /** And a pending delivery always has its next step open, once its retry time has come. */
  lemma {:induction false} PendingIsNeverStuck(limit: nat, s: State, id: Id) returns (step: Step, s': State)
    requires Inv(limit, s) && id in s.records && s.records[id].status == Pending
    requires id in s.queue ==> s.queue[id] <= s.now
    ensures Touches(step, id) && Next(limit, s, step, s')
  {
    assert IdInv(limit, s, id);
    if Unheld(s, id) {
      step, s' := Pop(0, {id}), s.(queue := s.queue - {id}, held := s.held + map x | x in {id} :: (0, x) := Claimed);
    } else {
      var w: Worker :| Holds(s, w, id);
      var ph := s.held[(w, id)];
      assert HolderOk(limit, s, id, ph);
      match ph
      case Claimed =>
        step, s' := Begin(w, id), Hold(s, w, id, Posting(s.records[id].attempts));
      case Posting(read) =>
        step, s' := Post(w, id, NetworkError),
          Hold(s.(posts := s.posts[id := s.posts[id] + 1]), w, id, Posted(read + 1, NetworkError));
      case Posted(attempt, response) =>
        if WillRetry(ph, limit) {
          step, s' := Reschedule(w, id, limit, 1),
            Hold(s.(queue := s.queue[id := s.now + 1]), w, id, Rescheduled(attempt));
        } else {
          step := Conclude(w, id, limit);
          var outcome := if Succeeded(response) then Success else Failed;
          s' := Release(s.(records := s.records[id := Record(outcome, attempt)]), w, id);
        }
      case Rescheduled(attempt) =>
        step, s' := Note(w, id), Release(s.(records := s.records[id := Record(Pending, attempt)]), w, id);
    }
  }

  lemma {:induction false} RunExtends(limit: nat, ss: seq<State>, steps: seq<Step>, step: Step, s': State)
    requires Run(limit, ss, steps) && Next(limit, ss[|steps|], step, s')
    ensures Run(limit, ss + [s'], steps + [step])
  {
    forall k | 0 <= k < |steps| + 1 ensures StepAt(limit, ss + [s'], steps + [step], k) {
      assert k < |steps| ==> StepAt(limit, ss, steps, k);
    }
  }

  lemma {:induction false} Extend(limit: nat, ss: seq<State>, steps: seq<Step>, step: Step, s': State)
    returns (ss': seq<State>, steps': seq<Step>)
    requires Run(limit, ss, steps) && Next(limit, ss[|steps|], step, s')
    ensures Run(limit, ss', steps') && ss'[|steps'|] == s'
  {
    RunExtends(limit, ss, steps, step, s');
    ss', steps' := ss + [s'], steps + [step];
  }

  lemma {:induction false} PostedRun(limit: nat) returns (ss: seq<State>, steps: seq<Step>)
    ensures Run(limit, ss, steps)
    ensures ss[|steps|] == State(0, map[7 := Record(Pending, 0)], map[], map[(0, 7) := Posted(1, NetworkError)],
      map[7 := 1])
  {
    ss, steps := [State(0, map[], map[], map[], map[])], [];
    var s1 := State(0, map[7 := Record(Pending, 0)], map[], map[(0, 7) := Claimed], map[7 := 0]);
    ss, steps := Extend(limit, ss, steps, Dispatch(0, 7), s1);
    var s2 := s1.(held := map[(0, 7) := Posting(0)]);
    ss, steps := Extend(limit, ss, steps, Begin(0, 7), s2);
    var s3 := s2.(held := map[(0, 7) := Posted(1, NetworkError)], posts := map[7 := 1]);
    ss, steps := Extend(limit, ss, steps, Post(0, 7, NetworkError), s3);
  }

  lemma {:induction false} EarlyPopRun(limit: nat) returns (ss: seq<State>, steps: seq<Step>)
    requires limit > 1
    ensures Run(limit, ss, steps)
    ensures ss[|steps|] == State(1, map[7 := Record(Pending, 0)], map[],
      map[(0, 7) := Rescheduled(1), (1, 7) := Claimed], map[7 := 1])
  {
    ss, steps := PostedRun(limit);
    var s0 := ss[|steps|].(queue := map[7 := 1], held := map[(0, 7) := Rescheduled(1)]);
    ss, steps := Extend(limit, ss, steps, Reschedule(0, 7, 2, 1), s0);
    var s1 := s0.(now := 1);
    ss, steps := Extend(limit, ss, steps, Tick(1), s1);
    var s2 := s1.(queue := map[], held := map[(0, 7) := Rescheduled(1), (1, 7) := Claimed]);
    assert s2.held == s1.held + map id | id in {7} :: (1, id) := Claimed;
    assert s2.queue == s1.queue - {7};
    ss, steps := Extend(limit, ss, steps, Pop(1, {7}), s2);
  }

  /** The order of the two rescheduling writes matters: a retry due before its record lands is attempted twice over. */
  lemma {:induction false} EarlyPopDoublesTheAttempt(limit: nat) returns (ss: seq<State>, steps: seq<Step>)
    requires limit > 1
    ensures Run(limit, ss, steps)
    ensures var s := ss[|steps|];
      Holds(s, 0, 7) && Holds(s, 1, 7) && s.held[(1, 7)] == Posting(0) && s.posts == map[7 := 1]
  {
    ss, steps := EarlyPopRun(limit);
    var s3 := Hold(ss[|steps|], 1, 7, Posting(0));
    ss, steps := Extend(limit, ss, steps, Begin(1, 7), s3);
  }
}
