/**
 * The indexer cursor protocol: any number of pollers, on any number of replicas, share one stored
 * cursor and one event store. Each poller reads the cursor, fetches a possibly truncated batch,
 * saves it one record at a time and finally compare-and-sets the cursor. Redis commands are the
 * atomic steps; everything between two commands may interleave, and a poller may die anywhere.
 */
module IndexerCursor {
  import opened Prelude

  type EventId = string
  type PollerId = nat

  /** A contract event on the chain; `recognised` says whether the parser knows its name. */
  datatype ChainEvent = ChainEvent(id: EventId, ledger: nat, recognised: bool)

  datatype Config = Config(startLedger: nat, pollLimit: nat)

  /** An RPC answer. A `latestLedger` of 0 stands for a missing one. */
  datatype Reply = Reply(events: seq<ChainEvent>, latestLedger: nat)

  // ---------------------------------------------------------------- one poll, as pure functions

  function StartLedger(c: Config, prev: Option<nat>): nat {
    if prev.None? then c.startLedger else Max(prev.value + 1, c.startLedger)
  }

  predicate Truncated(c: Config, reply: Reply) {
    |reply.events| >= c.pollLimit
  }

  /** Math.max(floor, ...ledgers of the recognised events). */
  function MaxLedger(floor: nat, events: seq<ChainEvent>): (m: nat)
    ensures floor <= m
    ensures forall e :: e in events && e.recognised ==> e.ledger <= m
    ensures m == floor || exists e :: e in events && e.recognised && e.ledger == m
  {
    if events == [] then floor
    else
      var last := events[|events| - 1];
      var rest := MaxLedger(floor, events[..|events| - 1]);
      if last.recognised then Max(rest, last.ledger) else rest
  }

  /** A missing cursor counts as ledger 0. */
  function Known(cursor: Option<nat>): nat {
    if cursor.Some? then cursor.value else 0
  }

  function NextCursor(c: Config, prev: Option<nat>, reply: Reply): nat {
    if Truncated(c, reply) then MaxLedger(Known(prev), reply.events)
    else MaxLedger(if reply.latestLedger != 0 then reply.latestLedger else Known(prev), reply.events)
  }

  /** The Lua script: write only if the cursor still equals `expected` and does not move back. */
  predicate CanAdvance(cursor: Option<nat>, expected: Option<nat>, next: nat) {
    cursor == expected && (cursor.Some? ==> cursor.value <= next)
  }

  // ---------------------------------------------------------------- what an RPC node may answer

  /**
   * A node that has seen the chain up to `horizon` answers honestly: the events are on the chain
   * and in range, at most `pollLimit` of them, all of them unless the limit was hit, and whatever
   * was cut off comes no earlier than anything returned. Order inside a ledger is left open.
   */
  ghost predicate Honest(c: Config, chain: set<ChainEvent>, prev: Option<nat>, reply: Reply, horizon: nat) {
    && |reply.events| <= c.pollLimit
    && (reply.latestLedger == 0 || reply.latestLedger == horizon)
    && (forall e :: e in reply.events ==> e in chain && StartLedger(c, prev) <= e.ledger <= horizon)
    && (forall e :: Missed(c, chain, prev, reply, horizon, e) ==>
          Truncated(c, reply) && forall b :: b in reply.events ==> b.ledger <= e.ledger)
  }

  /** In range and on the chain, but not in the answer. */
  ghost predicate Missed(
    c: Config, chain: set<ChainEvent>, prev: Option<nat>, reply: Reply, horizon: nat, e: ChainEvent) {
    e in chain && StartLedger(c, prev) <= e.ledger <= horizon && e !in reply.events
  }

  // ---------------------------------------------------------------- the state machine

  datatype Phase =
    | Idle
    | HasCursor(prev: Option<nat>)
    | Saving(prev: Option<nat>, reply: Reply, horizon: nat, saved: nat)

  datatype State = State(
    chain: set<ChainEvent>, tip: nat,
    cursor: Option<nat>, store: map<EventId, ChainEvent>,
    pollers: map<PollerId, Phase>)

  datatype Step =
    | Grow(events: set<ChainEvent>, tip: nat)
    | ReadCursor(p: PollerId)
    | Fetch(p: PollerId, reply: Reply, horizon: nat)
    | SaveNext(p: PollerId)
    | AdvanceCursor(p: PollerId)
    | Abandon(p: PollerId)

  function PhaseOf(s: State, p: PollerId): Phase {
    if p in s.pollers then s.pollers[p] else Idle
  }

  function Save(store: map<EventId, ChainEvent>, e: ChainEvent): map<EventId, ChainEvent> {
    if e.recognised then store[e.id := e] else store
  }

  ghost predicate Next(c: Config, s: State, step: Step, s': State) {
    match step
    case Grow(events, tip) =>
      && s.tip <= tip
      && (forall e :: e in events ==> s.tip < e.ledger <= tip)
      && UniqueIds(s.chain + events)
      && s' == s.(chain := s.chain + events, tip := tip)
    case ReadCursor(p) =>
      PhaseOf(s, p).Idle? && s' == s.(pollers := s.pollers[p := HasCursor(s.cursor)])
    case Fetch(p, reply, horizon) =>
      && PhaseOf(s, p).HasCursor? && horizon <= s.tip
      && Honest(c, s.chain, PhaseOf(s, p).prev, reply, horizon)
      && s' == s.(pollers := s.pollers[p := Saving(PhaseOf(s, p).prev, reply, horizon, 0)])
    case SaveNext(p) =>
      && PhaseOf(s, p).Saving? && PhaseOf(s, p).saved < |PhaseOf(s, p).reply.events|
      && var ph := PhaseOf(s, p);
         s' == s.(store := Save(s.store, ph.reply.events[ph.saved]),
           pollers := s.pollers[p := ph.(saved := ph.saved + 1)])
    case AdvanceCursor(p) =>
      && PhaseOf(s, p).Saving? && PhaseOf(s, p).saved == |PhaseOf(s, p).reply.events|
      && var ph := PhaseOf(s, p);
         var next := NextCursor(c, ph.prev, ph.reply);
         s' == s.(cursor := if CanAdvance(s.cursor, ph.prev, next) then Some(next) else s.cursor,
                  pollers := s.pollers[p := Idle])
    case Abandon(p) => s' == s.(pollers := s.pollers[p := Idle])
  }

  ghost predicate UniqueIds(chain: set<ChainEvent>) {
    forall a, b :: a in chain && b in chain && a.id == b.id ==> a == b
  }

  /** Ledgers are numbered from 1; the store and the cursor start out empty. */
  ghost predicate Init(s: State) {
    && ChainOk(s)
    && s.cursor == None && s.store == map[] && s.pollers == map[]
  }

  ghost predicate ChainOk(s: State) {
    UniqueIds(s.chain) && forall e :: e in s.chain ==> 1 <= e.ledger <= s.tip
  }

  ghost predicate StepAt(c: Config, ss: seq<State>, steps: seq<Step>, i: nat)
    requires i < |steps| && |ss| == |steps| + 1
  {
    Next(c, ss[i], steps[i], ss[i + 1])
  }

  ghost predicate Path(c: Config, ss: seq<State>, steps: seq<Step>) {
    |ss| == |steps| + 1 && forall i :: 0 <= i < |steps| ==> StepAt(c, ss, steps, i)
  }

  ghost predicate Run(c: Config, ss: seq<State>, steps: seq<Step>) {
    Path(c, ss, steps) && Init(ss[0])
  }

  // ---------------------------------------------------------------- what every step keeps

  ghost predicate AtMost(a: Option<nat>, b: Option<nat>) {
    a.Some? ==> b.Some? && a.value <= b.value
  }

  ghost predicate Stored(s: State, e: ChainEvent) {
    e.id in s.store && s.store[e.id] == e
  }

  ghost predicate PollerOk(c: Config, s: State, ph: Phase) {
    match ph
    case Idle => true
    case HasCursor(prev) => AtMost(prev, s.cursor)
    case Saving(prev, reply, horizon, saved) =>
      && AtMost(prev, s.cursor) && horizon <= s.tip && saved <= |reply.events|
      && Honest(c, s.chain, prev, reply, horizon)
      && forall i :: 0 <= i < saved && reply.events[i].recognised ==> Stored(s, reply.events[i])
  }

  ghost predicate Inv(c: Config, s: State) {
    && ChainOk(s) && AtMost(s.cursor, Some(s.tip))
    && forall p :: p in s.pollers ==> PollerOk(c, s, s.pollers[p])
  }

  lemma {:induction false} PollerStaysOk(c: Config, s: State, step: Step, s': State, ph: Phase)
    requires Inv(c, s) && Next(c, s, step, s') && PollerOk(c, s, ph)
    ensures PollerOk(c, s', ph)
  {
    if ph.Saving? {
      if step.Grow? {
        assert forall e :: Missed(c, s'.chain, ph.prev, ph.reply, ph.horizon, e) ==>
          Missed(c, s.chain, ph.prev, ph.reply, ph.horizon, e);
      }
      if step.SaveNext? {
        assert PollerOk(c, s, s.pollers[step.p]);
      }
    }
  }

  lemma {:induction false} StepKeepsInv(c: Config, s: State, step: Step, s': State)
    requires Inv(c, s) && Next(c, s, step, s')
    ensures Inv(c, s')
  {
    forall p | p in s'.pollers ensures PollerOk(c, s', s'.pollers[p]) {
      if p in s.pollers && s'.pollers[p] == s.pollers[p] {
        PollerStaysOk(c, s, step, s', s.pollers[p]);
      } else if step.SaveNext? {
        PollerStaysOk(c, s, step, s', s.pollers[p]);
      }
    }
  }

  lemma {:induction false} RunKeepsInv(c: Config, ss: seq<State>, steps: seq<Step>, n: nat)
    requires Run(c, ss, steps) && n < |ss|
    ensures Inv(c, ss[n])
  {
    if n > 0 {
      RunKeepsInv(c, ss, steps, n - 1);
      assert StepAt(c, ss, steps, n - 1);
      StepKeepsInv(c, ss[n - 1], steps[n - 1], ss[n]);
    }
  }

  /** The cursor never moves back, and moves only by a poller whose read value it still held. */
  lemma {:induction false} CursorOnlyAdvances(c: Config, ss: seq<State>, steps: seq<Step>, i: nat, j: nat)
    requires Run(c, ss, steps) && i <= j < |ss|
    ensures AtMost(ss[i].cursor, ss[j].cursor)
    ensures i < j && ss[j - 1].cursor != ss[j].cursor ==>
      && steps[j - 1].AdvanceCursor? && PhaseOf(ss[j - 1], steps[j - 1].p).Saving?
      && PhaseOf(ss[j - 1], steps[j - 1].p).prev == ss[j - 1].cursor
    decreases j
  {
    if i < j {
      CursorOnlyAdvances(c, ss, steps, i, j - 1);
      assert StepAt(c, ss, steps, j - 1);
    }
  }

  // ---------------------------------------------------------------- nothing below the cursor is missing

  ghost predicate Due(c: Config, s: State, e: ChainEvent) {
    e in s.chain && e.recognised && s.cursor.Some? && c.startLedger <= e.ledger <= s.cursor.value
  }

  ghost predicate NoGap(c: Config, s: State) {
    forall e :: Due(c, s, e) ==> Stored(s, e)
  }

  /** `e` shares the last recognised ledger of the batch, but the limit cut it off. */
  ghost predicate SplitOff(c: Config, chain: set<ChainEvent>, prev: Option<nat>, reply: Reply, e: ChainEvent) {
    && Truncated(c, reply) && e in chain && e.recognised && e !in reply.events
    && StartLedger(c, prev) <= e.ledger == NextCursor(c, prev, reply)
  }

  /** The step moves the cursor over an event that its own batch split off and nobody has saved. */
  ghost predicate Loses(c: Config, s: State, step: Step) {
    && step.AdvanceCursor? && PhaseOf(s, step.p).Saving?
    && var ph := PhaseOf(s, step.p);
       CanAdvance(s.cursor, ph.prev, NextCursor(c, ph.prev, ph.reply))
       && exists e :: SplitOff(c, s.chain, ph.prev, ph.reply, e) && !Stored(s, e)
  }

  /** Everything the advance newly covers is in the batch, or was split off from its last ledger. */
  lemma {:induction false} CoveredOrSplitOff(c: Config, s: State, ph: Phase, e: ChainEvent)
    requires ChainOk(s) && ph.Saving? && PollerOk(c, s, ph)
    requires e in s.chain && e.recognised && StartLedger(c, ph.prev) <= e.ledger <= NextCursor(c, ph.prev, ph.reply)
    ensures e in ph.reply.events || SplitOff(c, s.chain, ph.prev, ph.reply, e)
  {
    if e !in ph.reply.events {
      assert e.ledger <= ph.horizon;
      assert Missed(c, s.chain, ph.prev, ph.reply, ph.horizon, e);
    }
  }

  /** One step keeps the no-gap property exactly when it does not lose a split-off event. */
  lemma {:induction false} NoGapKeptIffNothingSplitOff(c: Config, s: State, step: Step, s': State)
    requires Inv(c, s) && Next(c, s, step, s') && NoGap(c, s)
    ensures NoGap(c, s') <==> !Loses(c, s, step)
  {
    if Loses(c, s, step) {
      var ph := PhaseOf(s, step.p);
      var e :| SplitOff(c, s.chain, ph.prev, ph.reply, e) && !Stored(s, e);
      assert Due(c, s', e) && !Stored(s', e);
    } else {
      forall e | Due(c, s', e) ensures Stored(s', e) {
        if !Due(c, s, e) {
          if step.AdvanceCursor? {
            var ph := PhaseOf(s, step.p);
            CoveredOrSplitOff(c, s, ph, e);
            if e in ph.reply.events {
              var i :| 0 <= i < |ph.reply.events| && ph.reply.events[i] == e;
              assert Stored(s, ph.reply.events[i]);
            }
          }
        } else if step.SaveNext? {
          var ph := PhaseOf(s, step.p);
          assert PollerOk(c, s, ph) && ph.reply.events[ph.saved] in ph.reply.events;
        }
      }
    }
  }

  /**
   * In every interleaving, crashes included: if no step loses a split-off event then every
   * recognised event from the configured start up to the cursor is stored, in every state.
   */
  lemma {:induction false} NothingBelowCursorIsMissing(c: Config, ss: seq<State>, steps: seq<Step>, n: nat)
    requires Run(c, ss, steps) && n < |ss|
    requires forall i :: 0 <= i < n ==> !Loses(c, ss[i], steps[i])
    ensures NoGap(c, ss[n])
  {
    if n == 0 {
      assert ss[0].cursor == None;
    } else {
      NothingBelowCursorIsMissing(c, ss, steps, n - 1);
      RunKeepsInv(c, ss, steps, n - 1);
      assert !Loses(c, ss[n - 1], steps[n - 1]);
      assert StepAt(c, ss, steps, n - 1);
      NoGapKeptIffNothingSplitOff(c, ss[n - 1], steps[n - 1], ss[n]);
    }
  }

  /** The node never cuts a batch in the middle of its last recognised ledger. */
  ghost predicate Aligned(c: Config, chain: set<ChainEvent>, prev: Option<nat>, reply: Reply) {
    !exists e :: SplitOff(c, chain, prev, reply, e)
  }

  ghost predicate AlignedFetch(c: Config, s: State, step: Step) {
    step.Fetch? && PhaseOf(s, step.p).HasCursor? ==> Aligned(c, s.chain, PhaseOf(s, step.p).prev, step.reply)
  }

  ghost predicate AllAligned(c: Config, s: State) {
    forall p :: p in s.pollers && s.pollers[p].Saving? ==> Aligned(c, s.chain, s.pollers[p].prev, s.pollers[p].reply)
  }

  lemma {:induction false} AlignedStep(c: Config, s: State, step: Step, s': State)
    requires Inv(c, s) && Next(c, s, step, s') && AllAligned(c, s) && AlignedFetch(c, s, step)
    ensures AllAligned(c, s')
  {
    forall p | p in s'.pollers && s'.pollers[p].Saving?
      ensures Aligned(c, s'.chain, s'.pollers[p].prev, s'.pollers[p].reply)
    {
      var ph := s'.pollers[p];
      if step.Grow? {
        assert PollerOk(c, s, ph);
        assert AtMost(Some(NextCursor(c, ph.prev, ph.reply)), Some(s.tip));
        forall e | SplitOff(c, s'.chain, ph.prev, ph.reply, e) ensures SplitOff(c, s.chain, ph.prev, ph.reply, e) { }
      }
    }
  }

  lemma {:induction false} AlignedFetchesStayAligned(c: Config, ss: seq<State>, steps: seq<Step>, n: nat)
    requires Run(c, ss, steps) && n < |ss|
    requires forall i :: 0 <= i < |steps| ==> AlignedFetch(c, ss[i], steps[i])
    ensures AllAligned(c, ss[n])
  {
    if n > 0 {
      AlignedFetchesStayAligned(c, ss, steps, n - 1);
      RunKeepsInv(c, ss, steps, n - 1);
      assert StepAt(c, ss, steps, n - 1);
      AlignedStep(c, ss[n - 1], steps[n - 1], ss[n]);
    }
  }

  /** The protocol's promise, from a hypothesis on the node's answers alone. */
  lemma {:induction false} AlignedNodeNeverLeavesAGap(c: Config, ss: seq<State>, steps: seq<Step>, n: nat)
    requires Run(c, ss, steps) && n < |ss|
    requires forall i :: 0 <= i < |steps| ==> AlignedFetch(c, ss[i], steps[i])
    ensures NoGap(c, ss[n])
  {
    if n > 0 {
      AlignedNodeNeverLeavesAGap(c, ss, steps, n - 1);
      RunKeepsInv(c, ss, steps, n - 1);
      AlignedFetchesStayAligned(c, ss, steps, n - 1);
      assert StepAt(c, ss, steps, n - 1);
      NoGapKeptIffNothingSplitOff(c, ss[n - 1], steps[n - 1], ss[n]);
    }
  }

  // ---------------------------------------------------------------- a lost event is lost for good

  /** `e` is behind the cursor, unsaved, and in nobody's hands. */
  ghost predicate Lost(c: Config, s: State, e: ChainEvent) {
    && Due(c, s, e) && e.id !in s.store
    && forall p :: p in s.pollers ==> OutOfReach(s.pollers[p], e)
  }

  ghost predicate OutOfReach(ph: Phase, e: ChainEvent) {
    match ph
    case Idle => true
    case HasCursor(prev) => prev.Some? && e.ledger <= prev.value
    case Saving(_, reply, _, saved) => forall i :: 0 <= i < |reply.events| && saved <= i ==> reply.events[i] != e
  }

  lemma {:induction false} LostStaysLost(c: Config, s: State, step: Step, s': State, e: ChainEvent)
    requires Inv(c, s) && Next(c, s, step, s') && Lost(c, s, e)
    ensures Lost(c, s', e)
  {
    if step.SaveNext? {
      var ph := s.pollers[step.p];
      assert PollerOk(c, s, ph) && OutOfReach(ph, e) && ph.reply.events[ph.saved] in ph.reply.events;
    }
    forall p | p in s'.pollers ensures OutOfReach(s'.pollers[p], e) {
      assert p in s.pollers ==> OutOfReach(s.pollers[p], e);
    }
  }

  lemma {:induction false} LostIsForever(c: Config, ss: seq<State>, steps: seq<Step>, i: nat, j: nat, e: ChainEvent)
    requires Run(c, ss, steps) && i <= j < |ss| && Lost(c, ss[i], e)
    ensures Lost(c, ss[j], e)
    decreases j
  {
    if i < j {
      LostIsForever(c, ss, steps, i, j - 1, e);
      RunKeepsInv(c, ss, steps, j - 1);
      assert StepAt(c, ss, steps, j - 1);
      LostStaysLost(c, ss[j - 1], steps[j - 1], ss[j], e);
    }
  }

  /** The concrete failure: one poller, a limit of 1, two claims in one ledger. */
  lemma {:induction false} SplitLedgerLosesAnEvent()
    returns (c: Config, ss: seq<State>, steps: seq<Step>, e: ChainEvent)
    ensures Run(c, ss, steps) && Lost(c, ss[|ss| - 1], e)
  {
    c := Config(1, 1);
    var a := ChainEvent("", 1, true);
    e := ChainEvent("b", 1, true);
    var reply := Reply([a], 1);
    var s0 := State({a, e}, 1, None, map[], map[]);
    assert MaxLedger(0, reply.events) == 1;
    var ss0, steps0 := PollOnceIsAPath(c, s0, 0, reply, 1);
    ss, steps := ss0, steps0;
    assert SaveAll(map[], reply.events[..0]) == map[];
    assert AfterPoll(c, s0, 0, reply) == State({a, e}, 1, Some(1), map["" := a], map[0 := Idle]);
  }

  // ---------------------------------------------------------------- when the cursor moves

  /** The batch holds a recognised event past the cursor, or is complete and its node has seen further. */
  predicate Moves(c: Config, prev: Option<nat>, reply: Reply) {
    || (exists e :: e in reply.events && e.recognised && Known(prev) < e.ledger)
    || (!Truncated(c, reply) && Known(prev) < reply.latestLedger)
  }

  /** An advance moves the cursor up exactly when the cursor is still the one read and the batch moves it. */
  lemma {:induction false} CursorMovesIff(c: Config, s: State, p: PollerId, s': State)
    requires Next(c, s, AdvanceCursor(p), s')
    ensures var ph := PhaseOf(s, p);
      Known(s.cursor) < Known(s'.cursor) <==> s.cursor == ph.prev && Moves(c, ph.prev, ph.reply)
  {
    var ph := PhaseOf(s, p);
    var next := NextCursor(c, ph.prev, ph.reply);
    if e :| e in ph.reply.events && e.recognised && e.ledger == next {
      assert Known(ph.prev) < next ==> Moves(c, ph.prev, ph.reply);
    }
  }

  /** `t` is the highest of `floor` and the recognised ledgers of a batch. */
  ghost predicate Highest(t: nat, floor: nat, events: seq<ChainEvent>) {
    && floor <= t && (forall e :: e in events && e.recognised ==> e.ledger <= t)
    && (t == floor || exists e :: e in events && e.recognised && e.ledger == t)
  }

  /**
   * An advance by a poller whose read value still stands puts the cursor at the highest recognised ledger of its batch
   * or, whichever is higher, at the node's latest ledger if the batch is complete and reports one, and at the old
   * cursor otherwise; it changes nothing only when that would be a step back.
   */
  lemma {:induction false} AdvanceSetsTheHighest(c: Config, s: State, p: PollerId, s': State) returns (t: nat)
    requires Next(c, s, AdvanceCursor(p), s') && s.cursor == PhaseOf(s, p).prev
    ensures var reply := PhaseOf(s, p).reply;
      var complete := |reply.events| < c.pollLimit && reply.latestLedger != 0;
      Highest(t, if complete then reply.latestLedger else Known(s.cursor), reply.events)
    ensures s'.cursor == if s.cursor.Some? && t < s.cursor.value then s.cursor else Some(t)
  {
    t := NextCursor(c, s.cursor, PhaseOf(s, p).reply);
  }

  /** A complete poll whose node has seen the tip and reports it leaves the cursor at the tip. */
  lemma {:induction false} CompletePollReachesTheTip(c: Config, ss: seq<State>, steps: seq<Step>, n: nat, p: PollerId)
    requires Run(c, ss, steps) && n < |steps| && steps[n] == AdvanceCursor(p)
    requires PhaseOf(ss[n], p).Saving? && ss[n].cursor == PhaseOf(ss[n], p).prev
    requires var ph := PhaseOf(ss[n], p);
      |ph.reply.events| < c.pollLimit && ph.reply.latestLedger == ph.horizon == ss[n].tip
    ensures ss[n + 1].cursor == Some(ss[n].tip)
  {
    RunKeepsInv(c, ss, steps, n);
    assert StepAt(c, ss, steps, n) && PollerOk(c, ss[n], PhaseOf(ss[n], p));
    var t := AdvanceSetsTheHighest(c, ss[n], p, ss[n + 1]);
    if e :| e in PhaseOf(ss[n], p).reply.events && e.recognised && e.ledger == t {
      assert e.ledger <= ss[n].tip;
    }
  }

  /** So one undisturbed poll of such a node catches up, from any reachable state, a crash in mid-poll included. */
  lemma {:induction false} UndisturbedPollCatchesUp(
    c: Config, ss: seq<State>, steps: seq<Step>, n: nat, p: PollerId, reply: Reply)
    returns (ss': seq<State>, steps': seq<Step>)
    requires Run(c, ss, steps) && n < |ss|
    requires Honest(c, ss[n].chain, ss[n].cursor, reply, ss[n].tip)
    requires |reply.events| < c.pollLimit && reply.latestLedger == ss[n].tip
    ensures Path(c, ss', steps') && ss'[0] == ss[n] && ss'[|steps'|].cursor == Some(ss[n].tip)
  {
    RunKeepsInv(c, ss, steps, n);
    var s := ss[n].(pollers := ss[n].pollers[p := Idle]);
    assert Next(c, ss[n], Abandon(p), s);
    var polled, poll := PollOnceIsAPath(c, s, p, reply, s.tip);
    ss', steps' := [ss[n]] + polled, [Abandon(p)] + poll;
    forall i | 0 <= i < |steps'| ensures StepAt(c, ss', steps', i) {
      assert i > 0 ==> StepAt(c, polled, poll, i - 1);
    }
  }

  // ---------------------------------------------------------------- stretches the parser does not know

  /** Past ledger `known` and from the configured start on. */
  predicate Ahead(c: Config, known: nat, e: ChainEvent) {
    c.startLedger <= e.ledger && known < e.ledger
  }

  /** Between the cursor and ledger `b` there are at least `pollLimit` unrecognised events and no recognised one. */
  ghost predicate Stretch(c: Config, chain: set<ChainEvent>, known: nat, b: nat, unknown: set<ChainEvent>) {
    && unknown <= chain && |unknown| >= c.pollLimit
    && (forall e :: e in unknown ==> Ahead(c, known, e) && e.ledger <= b)
    && forall e :: e in chain && Ahead(c, known, e) && e.ledger <= b ==> !e.recognised
  }

  /** A fetch that has seen the whole stretch leaves the cursor where it was. */
  lemma {:induction false} StretchStopsOneAdvance(c: Config, s: State, ph: Phase, b: nat, unknown: set<ChainEvent>)
    requires ChainOk(s) && ph.Saving? && PollerOk(c, s, ph) && b <= ph.horizon
    requires Stretch(c, s.chain, Known(ph.prev), b, unknown)
    ensures Truncated(c, ph.reply) && NextCursor(c, ph.prev, ph.reply) == Known(ph.prev)
  {
    var events := ph.reply.events;
    forall u | u in unknown ensures u in events || Missed(c, s.chain, ph.prev, ph.reply, ph.horizon, u) { }
    if forall u :: u in unknown ==> u in events {
      CoverSize(unknown, events);
    }
    forall e | e in events && e.recognised ensures false {
      assert Ahead(c, Known(ph.prev), e) && b < e.ledger;
      forall u | u in unknown + {e} ensures u in events { }
      assert |unknown + {e}| == |unknown| + 1;
      CoverSize(unknown + {e}, events);
    }
  }

  /** Every poller that is saving fetched from a node that had seen ledger `b`. */
  ghost predicate AllHaveSeen(s: State, b: nat) {
    forall p :: p in s.pollers && s.pollers[p].Saving? ==> b <= s.pollers[p].horizon
  }

  /** From such a point on the cursor stands still for as long as fetches see the whole stretch. */
  lemma {:induction false} StretchBlocksTheCursor(
    c: Config, ss: seq<State>, steps: seq<Step>, i: nat, j: nat, b: nat, unknown: set<ChainEvent>)
    requires Run(c, ss, steps) && i <= j < |ss| && b <= ss[i].tip && AllHaveSeen(ss[i], b)
    requires Stretch(c, ss[i].chain, Known(ss[i].cursor), b, unknown)
    requires forall k :: i <= k < j && steps[k].Fetch? ==> b <= steps[k].horizon
    ensures Known(ss[j].cursor) == Known(ss[i].cursor) && b <= ss[j].tip && AllHaveSeen(ss[j], b)
    ensures Stretch(c, ss[j].chain, Known(ss[j].cursor), b, unknown)
    decreases j
  {
    if i < j {
      StretchBlocksTheCursor(c, ss, steps, i, j - 1, b, unknown);
      RunKeepsInv(c, ss, steps, j - 1);
      assert StepAt(c, ss, steps, j - 1);
      StretchStep(c, ss[j - 1], steps[j - 1], ss[j], b, unknown);
    }
  }

  lemma {:induction false} StretchStep(c: Config, s: State, step: Step, s': State, b: nat, unknown: set<ChainEvent>)
    requires Inv(c, s) && Next(c, s, step, s') && b <= s.tip && AllHaveSeen(s, b)
    requires Stretch(c, s.chain, Known(s.cursor), b, unknown) && (step.Fetch? ==> b <= step.horizon)
    ensures Known(s'.cursor) == Known(s.cursor) && b <= s'.tip && AllHaveSeen(s', b)
    ensures Stretch(c, s'.chain, Known(s'.cursor), b, unknown)
  {
    if step.AdvanceCursor? && s.cursor == PhaseOf(s, step.p).prev {
      StretchStopsOneAdvance(c, s, s.pollers[step.p], b, unknown);
    }
  }

  // ---------------------------------------------------------------- a burst within one ledger

  /** Ledger `l` carries at least `pollLimit` unrecognised events and no recognised one. */
  ghost predicate Burst(c: Config, chain: set<ChainEvent>, l: nat, unknown: set<ChainEvent>) {
    && unknown <= chain && |unknown| >= c.pollLimit && c.startLedger <= l
    && (forall e :: e in unknown ==> e.ledger == l)
    && forall e :: e in chain && e.ledger == l ==> !e.recognised
  }

  ghost predicate Behind(cursor: Option<nat>, l: nat) {
    cursor.Some? ==> cursor.value < l
  }

  lemma {:induction false} BurstStopsOneAdvance(c: Config, s: State, ph: Phase, l: nat, unknown: set<ChainEvent>)
    requires ChainOk(s) && ph.Saving? && PollerOk(c, s, ph)
    requires Burst(c, s.chain, l, unknown) && 1 <= l && Behind(ph.prev, l)
    ensures NextCursor(c, ph.prev, ph.reply) < l
  {
    var events := ph.reply.events;
    if ph.horizon >= l {
      // Either the whole burst fits, or something recognised beyond it came back: both exceed the limit.
      if !Truncated(c, ph.reply) {
        forall u | u in unknown ensures u in events {
          assert Missed(c, s.chain, ph.prev, ph.reply, ph.horizon, u) || u in events;
        }
        CoverSize(unknown, events);
        assert false;
      }
      forall e | e in events && e.recognised ensures e.ledger < l {
        if e.ledger > l {
          forall u | u in unknown + {e} ensures u in events {
            assert u in unknown ==> Missed(c, s.chain, ph.prev, ph.reply, ph.horizon, u) || u in events;
          }
          assert |unknown + {e}| == |unknown| + 1;
          CoverSize(unknown + {e}, events);
        }
      }
    }
  }

  /** Such a ledger blocks every poller forever, however little its node has seen: the cursor never reaches it. */
  lemma {:induction false} BurstBlocksTheCursor(
    c: Config, ss: seq<State>, steps: seq<Step>, i: nat, j: nat, l: nat, unknown: set<ChainEvent>)
    requires Run(c, ss, steps) && i <= j < |ss|
    requires Burst(c, ss[i].chain, l, unknown) && 1 <= l <= ss[i].tip && Behind(ss[i].cursor, l)
    ensures Burst(c, ss[j].chain, l, unknown) && l <= ss[j].tip && Behind(ss[j].cursor, l)
    decreases j
  {
    if i < j {
      BurstBlocksTheCursor(c, ss, steps, i, j - 1, l, unknown);
      RunKeepsInv(c, ss, steps, j - 1);
      var s, step, s' := ss[j - 1], steps[j - 1], ss[j];
      assert StepAt(c, ss, steps, j - 1);
      if step.AdvanceCursor? {
        assert PollerOk(c, s, s.pollers[step.p]);
        BurstStopsOneAdvance(c, s, s.pollers[step.p], l, unknown);
      }
    }
  }

  // ---------------------------------------------------------------- such a node exists

  ghost predicate LedgerOrder(events: seq<ChainEvent>) {
    forall i, j :: 0 <= i < j < |events| ==> events[i].ledger <= events[j].ledger
  }

  function InRange(events: seq<ChainEvent>, start: nat, horizon: nat): (r: seq<ChainEvent>)
    ensures forall e :: e in r <==> e in events && start <= e.ledger <= horizon
  {
    if events == [] then []
    else
      var n := |events| - 1;
      InRange(events[..n], start, horizon) + (if start <= events[n].ledger <= horizon then [events[n]] else [])
  }

  lemma {:induction false} InRangeKeepsOrder(events: seq<ChainEvent>, start: nat, horizon: nat)
    requires LedgerOrder(events)
    ensures LedgerOrder(InRange(events, start, horizon))
  {
    if events != [] {
      var n := |events| - 1;
      var init := InRange(events[..n], start, horizon);
      InRangeKeepsOrder(events[..n], start, horizon);
      forall i | 0 <= i < |init| ensures init[i].ledger <= events[n].ledger {
        assert init[i] in events[..n];
      }
    }
  }

  function Cut(all: seq<ChainEvent>, limit: nat): seq<ChainEvent> {
    if |all| <= limit then all else all[..limit]
  }

  /** getEvents over an ordered ledger log: filter, then cut at the limit. */
  function Serve(c: Config, log: seq<ChainEvent>, prev: Option<nat>, horizon: nat): Reply {
    Reply(Cut(InRange(log, StartLedger(c, prev), horizon), c.pollLimit), horizon)
  }

  lemma {:induction false} CutOffComesLater(all: seq<ChainEvent>, n: nat, e: ChainEvent)
    requires LedgerOrder(all) && n <= |all| && e in all && e !in all[..n]
    ensures forall b :: b in all[..n] ==> b.ledger <= e.ledger
  {
    var i :| 0 <= i < |all| && all[i] == e;
    assert forall k :: 0 <= k < n ==> all[..n][k] == all[k];
    assert n <= i;
  }

  lemma {:induction false} CutIsHonest(
    c: Config, chain: set<ChainEvent>, prev: Option<nat>, horizon: nat, all: seq<ChainEvent>)
    requires LedgerOrder(all) && forall e :: e in all <==> e in chain && StartLedger(c, prev) <= e.ledger <= horizon
    ensures Honest(c, chain, prev, Reply(Cut(all, c.pollLimit), horizon), horizon)
  {
    var reply := Reply(Cut(all, c.pollLimit), horizon);
    forall e | Missed(c, chain, prev, reply, horizon, e)
      ensures Truncated(c, reply) && forall b :: b in reply.events ==> b.ledger <= e.ledger
    {
      CutOffComesLater(all, c.pollLimit, e);
    }
  }

  lemma {:induction false} ServeIsHonest(c: Config, log: seq<ChainEvent>, prev: Option<nat>, horizon: nat)
    requires LedgerOrder(log)
    ensures Honest(c, (set e | e in log), prev, Serve(c, log, prev, horizon), horizon)
  {
    InRangeKeepsOrder(log, StartLedger(c, prev), horizon);
    CutIsHonest(c, (set e | e in log), prev, horizon, InRange(log, StartLedger(c, prev), horizon));
  }

  // ---------------------------------------------------------------- pollOnce itself

  const RPC_MAX_RETRIES: nat := 3

  function SaveAll(store: map<EventId, ChainEvent>, events: seq<ChainEvent>): map<EventId, ChainEvent> {
    if events == [] then store
    else Save(SaveAll(store, events[..|events| - 1]), events[|events| - 1])
  }

  /** The shared keys as one caller sees them, updated in place. */
  class IndexerStore {
    var cursor: Option<nat>
    var events: map<EventId, ChainEvent>

    constructor ()
      ensures cursor == None && events == map[]
    {
      cursor, events := None, map[];
    }

    method AdvanceLastLedger(expected: Option<nat>, next: nat) returns (applied: bool)
      modifies this`cursor
      ensures applied <==> old(cursor) == expected && (old(cursor).Some? ==> old(cursor).value <= next)
      ensures cursor == if applied then Some(next) else old(cursor)
    {
      if expected.None? {
        if cursor.Some? { return false; }
      } else if cursor.None? || cursor.value != expected.value {
        return false;
      }
      if cursor.Some? && next < cursor.value { return false; }
      cursor := Some(next);
      return true;
    }

    method SaveEvents(batch: seq<ChainEvent>)
      modifies this`events
      ensures events == SaveAll(old(events), batch)
    {
      for i := 0 to |batch|
        invariant events == SaveAll(old(events), batch[..i])
      {
        assert batch[..i + 1][..i] == batch[..i];
        if batch[i].recognised {
          events := events[batch[i].id := batch[i]];
        }
      }
      assert batch[..|batch|] == batch;
    }
  }

  datatype Outcome = NotConfigured | Paused | RpcFailed | Skipped | Indexed(next: nat)

  /** The answer a cycle works with: the first one within the retry budget, if any. */
  function FirstAnswer(answers: seq<Option<Reply>>): (r: Option<Reply>)
    ensures r.None? <==> forall i :: 0 <= i < |answers| ==> answers[i].None?
    ensures r.Some? ==> exists i :: 0 <= i < |answers| && answers[i] == r && forall j :: 0 <= j < i ==> answers[j].None?
  {
    if answers == [] then None else if answers[0].Some? then answers[0] else FirstAnswer(answers[1..])
  }

  /** The events the parser knows, in order. */
  function Recognised(events: seq<ChainEvent>): seq<ChainEvent> {
    if events == [] then []
    else
      var last := events[|events| - 1];
      Recognised(events[..|events| - 1]) + (if last.recognised then [last] else [])
  }

  /** As many as there are positions with a recognised event. */
  lemma {:induction false} RecognisedCount(events: seq<ChainEvent>)
    ensures |Recognised(events)| == |set i | 0 <= i < |events| && events[i].recognised|
  {
    if events != [] {
      var n := |events| - 1;
      var init := set i | 0 <= i < n && events[..n][i].recognised;
      RecognisedCount(events[..n]);
      assert (set i | 0 <= i < |events| && events[i].recognised) == init + if events[n].recognised then {n} else {};
    }
  }

  class EventPoller {
    const config: Config
    var pollsAttempted: nat
    var pollsSkipped: nat
    var eventsIndexed: nat
    var lastIndexedLedger: Option<nat>
    var latestLedger: Option<nat>

    constructor (c: Config)
      ensures config == c && pollsAttempted == pollsSkipped == eventsIndexed == 0
      ensures lastIndexedLedger == latestLedger == None
    {
      config := c;
      pollsAttempted, pollsSkipped, eventsIndexed, lastIndexedLedger, latestLedger := 0, 0, 0, None, None;
    }

    /** One undisturbed cycle; `answers[i]` is what RPC attempt i yields (None: error or open breaker). */
    method PollOnce(
      store: IndexerStore, configured: bool, breakerOpen: bool, answers: seq<Option<Reply>>) returns (outcome: Outcome)
      requires |answers| == RPC_MAX_RETRIES
      modifies this, store
      ensures outcome.NotConfigured? <==> !configured
      ensures outcome.Paused? <==> configured && breakerOpen
      ensures outcome.RpcFailed? <==> configured && !breakerOpen && FirstAnswer(answers).None?
      ensures !outcome.Skipped? && !outcome.Indexed? ==>
        store.cursor == old(store.cursor) && store.events == old(store.events)
      ensures outcome.Skipped? || outcome.Indexed? ==>
        FirstAnswer(answers).Some? &&
        var reply := FirstAnswer(answers).value;
        var next := NextCursor(config, old(store.cursor), reply);
        && store.events == SaveAll(old(store.events), reply.events)
        && (outcome == Indexed(next) <==> CanAdvance(old(store.cursor), old(store.cursor), next))
        && store.cursor == (if outcome.Indexed? then Some(next) else old(store.cursor))
      ensures outcome.Indexed? ==>
        var reply := FirstAnswer(answers).value;
        var complete := |reply.events| < config.pollLimit && reply.latestLedger != 0;
        && store.cursor == Some(outcome.next)
        && Highest(outcome.next, if complete then reply.latestLedger else Known(old(store.cursor)), reply.events)
      ensures outcome.Skipped? <==>
        && configured && !breakerOpen && FirstAnswer(answers).Some?
        && var reply := FirstAnswer(answers).value;
           var complete := |reply.events| < config.pollLimit && reply.latestLedger != 0;
           && complete && reply.latestLedger < Known(old(store.cursor))
           && forall e :: e in reply.events && e.recognised ==> e.ledger < Known(old(store.cursor))
      ensures outcome.Indexed? ==>
        var reply := FirstAnswer(answers).value;
        && lastIndexedLedger == store.cursor
        && eventsIndexed == old(eventsIndexed) + |Recognised(reply.events)|
        && latestLedger == if reply.latestLedger == 0 then None else Some(reply.latestLedger)
      ensures !outcome.Indexed? ==>
        && lastIndexedLedger == old(lastIndexedLedger) && eventsIndexed == old(eventsIndexed)
        && latestLedger == old(latestLedger)
      ensures pollsAttempted == old(pollsAttempted) + if configured && !breakerOpen then 1 else 0
      ensures pollsSkipped == old(pollsSkipped) + if outcome.Skipped? || outcome.Paused? then 1 else 0
    {
      if !configured { return NotConfigured; }
      if breakerOpen {
        pollsSkipped := pollsSkipped + 1;
        return Paused;
      }
      pollsAttempted := pollsAttempted + 1;
      var previous := store.cursor;
      var response: Option<Reply> := None;
      var attempt := 0;
      while attempt < RPC_MAX_RETRIES && response.None?
        invariant 0 <= attempt <= RPC_MAX_RETRIES
        invariant FirstAnswer(answers) == if response.Some? then response else FirstAnswer(answers[attempt..])
        decreases RPC_MAX_RETRIES - attempt
      {
        response := answers[attempt];
        attempt := attempt + 1;
      }
      if response.None? { return RpcFailed; }
      store.SaveEvents(response.value.events);
      var next := NextCursor(config, previous, response.value);
      var advanced := store.AdvanceLastLedger(previous, next);
      if !advanced {
        pollsSkipped := pollsSkipped + 1;
        return Skipped;
      }
      lastIndexedLedger := Some(next);
      eventsIndexed := eventsIndexed + |Recognised(response.value.events)|;
      latestLedger := if response.value.latestLedger != 0 then Some(response.value.latestLedger) else None;
      return Indexed(next);
    }
  }

  function AfterPoll(c: Config, s: State, p: PollerId, reply: Reply): State {
    var next := NextCursor(c, s.cursor, reply);
    s.(cursor := if CanAdvance(s.cursor, s.cursor, next) then Some(next) else s.cursor,
       store := SaveAll(s.store, reply.events), pollers := s.pollers[p := Idle])
  }

  lemma {:induction false} PathExtends(c: Config, ss: seq<State>, steps: seq<Step>, step: Step, s': State)
    requires Path(c, ss, steps) && Next(c, ss[|steps|], step, s')
    ensures Path(c, ss + [s'], steps + [step])
  {
    forall i | 0 <= i < |steps| + 1 ensures StepAt(c, ss + [s'], steps + [step], i) {
      assert i < |steps| ==> StepAt(c, ss, steps, i);
    }
  }

  lemma {:induction false} SavingPath(c: Config, s: State, p: PollerId, reply: Reply, horizon: nat, n: nat)
    returns (ss: seq<State>, steps: seq<Step>)
    requires PhaseOf(s, p).Idle? && horizon <= s.tip && Honest(c, s.chain, s.cursor, reply, horizon)
      && n <= |reply.events|
    ensures Path(c, ss, steps) && ss[0] == s
    ensures ss[|steps|] == s.(store := SaveAll(s.store, reply.events[..n]),
      pollers := s.pollers[p := Saving(s.cursor, reply, horizon, n)])
  {
    if n == 0 {
      var s1 := s.(pollers := s.pollers[p := HasCursor(s.cursor)]);
      var s2 := s1.(pollers := s1.pollers[p := Saving(s.cursor, reply, horizon, 0)]);
      ss, steps := [s, s1, s2], [ReadCursor(p), Fetch(p, reply, horizon)];
      assert s2.pollers == s.pollers[p := Saving(s.cursor, reply, horizon, 0)];
      assert StepAt(c, ss, steps, 0) && StepAt(c, ss, steps, 1);
    } else {
      var ss0, steps0 := SavingPath(c, s, p, reply, horizon, n - 1);
      var s1 := s.(store := SaveAll(s.store, reply.events[..n]),
        pollers := s.pollers[p := Saving(s.cursor, reply, horizon, n)]);
      assert reply.events[..n][..n - 1] == reply.events[..n - 1];
      ss, steps := ss0 + [s1], steps0 + [SaveNext(p)];
      assert Next(c, ss0[|steps0|], SaveNext(p), s1);
      PathExtends(c, ss0, steps0, SaveNext(p), s1);
    }
  }

  /** An undisturbed pollOnce is a path of the protocol, so the protocol's theorems speak of it. */
  lemma {:induction false} PollOnceIsAPath(c: Config, s: State, p: PollerId, reply: Reply, horizon: nat)
    returns (ss: seq<State>, steps: seq<Step>)
    requires PhaseOf(s, p).Idle? && horizon <= s.tip && Honest(c, s.chain, s.cursor, reply, horizon)
    ensures Path(c, ss, steps) && ss[0] == s && ss[|steps|] == AfterPoll(c, s, p, reply)
  {
    var ss0, steps0 := SavingPath(c, s, p, reply, horizon, |reply.events|);
    assert reply.events[..|reply.events|] == reply.events;
    var s1 := AfterPoll(c, s, p, reply);
    ss, steps := ss0 + [s1], steps0 + [AdvanceCursor(p)];
    PathExtends(c, ss0, steps0, AdvanceCursor(p), s1);
  }
}
