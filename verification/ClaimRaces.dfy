/**
 * Two replicas over a well-behaved node: runs in which one poller's stale write takes back a claim that the other has
 * already projected and moved the cursor over. In one the recipient no longer counts as having claimed, in the other
 * the claim is missing from the recipient's list.
 */
module ClaimRaces {
  import opened Prelude
  import C = IndexerCursor
  import P = EventProjection
  import opened IndexedClaims

  const CONFIG := C.Config(1, 10)
  const FIRST := C.ChainEvent("first", 1, true)
  const SECOND := C.ChainEvent("second", 2, true)

  /** One poller is answered by a node that has seen ledger 1, the other by one that has seen ledger 2. */
  const EARLY := C.Reply([FIRST], 1)
  const LATE := C.Reply([FIRST, SECOND], 2)

  // ---------------------------------------------------------------- building runs

  ghost predicate Reaches(parse: Parser, ss: seq<State>, steps: seq<Step>, end: State) {
    Run(CONFIG, parse, ss, steps) && AlignedRun(CONFIG, ss, steps) && ss[|steps|] == end
  }

  lemma {:induction false} Extend(parse: Parser, ss: seq<State>, steps: seq<Step>, step: Step, s': State)
    returns (ss': seq<State>, steps': seq<Step>)
    requires |ss| == |steps| + 1 && Reaches(parse, ss, steps, ss[|steps|])
    requires Next(CONFIG, parse, ss[|steps|], step, s') && AlignedStep(CONFIG, ss[|steps|], step)
    ensures Reaches(parse, ss', steps', s')
  {
    ss', steps' := ss + [s'], steps + [step];
    forall i | 0 <= i < |steps'| ensures StepAt(CONFIG, parse, ss', steps', i)
      && AlignedStep(CONFIG, ss'[i], steps'[i]) {
      if i < |steps| { assert StepAt(CONFIG, parse, ss, steps, i) && AlignedStep(CONFIG, ss[i], steps[i]); }
    }
  }

  /** A poller reads the slot it is at. */
  function AfterRead(parse: Parser, s: State, p: C.PollerId): State
    requires AtSlot(parse, s, p)
  {
    s.(work := s.work[p := WorkOf(s, p).(read := Some(Stored(s, SlotAt(parse, s, p))))])
  }

  lemma {:induction false} DoRead(parse: Parser, ss: seq<State>, steps: seq<Step>, p: C.PollerId)
    returns (ss': seq<State>, steps': seq<Step>)
    requires |ss| == |steps| + 1 && Reaches(parse, ss, steps, ss[|steps|])
    requires AtSlot(parse, ss[|steps|], p) && WorkOf(ss[|steps|], p).read.None?
    ensures Reaches(parse, ss', steps', AfterRead(parse, ss[|steps|], p))
  {
    ss', steps' := Extend(parse, ss, steps, Read(p), AfterRead(parse, ss[|steps|], p));
  }

  /** A poller reads the slot it is at and writes it at once. */
  function AfterUpsert(parse: Parser, s: State, p: C.PollerId): State
    requires AtSlot(parse, s, p)
  {
    s.(slots := s.slots[SlotAt(parse, s, p) := NextValue(parse(Current(s, p)), Stored(s, SlotAt(parse, s, p)))],
       work := s.work[p := NextPart(s, p)])
  }

  lemma {:induction false} DoUpsert(parse: Parser, ss: seq<State>, steps: seq<Step>, p: C.PollerId)
    returns (ss': seq<State>, steps': seq<Step>)
    requires |ss| == |steps| + 1 && Reaches(parse, ss, steps, ss[|steps|])
    requires AtSlot(parse, ss[|steps|], p) && WorkOf(ss[|steps|], p).read.None?
    requires NeedsWrite(parse(Current(ss[|steps|], p)), Stored(ss[|steps|], SlotAt(parse, ss[|steps|], p)))
    ensures Reaches(parse, ss', steps', AfterUpsert(parse, ss[|steps|], p))
  {
    var s := ss[|steps|];
    ss', steps' := DoRead(parse, ss, steps, p);
    var s1, s2 := ss'[|steps'|], AfterUpsert(parse, s, p);
    assert s2.work == s1.work[p := NextPart(s1, p)];
    ss', steps' := Extend(parse, ss', steps', Write(p), s2);
  }

  // ---------------------------------------------------------------- both pollers have stored their raw records

  function Chain(cursor: Option<nat>, store: map<C.EventId, C.ChainEvent>, pollers: map<C.PollerId, C.Phase>): C.State {
    C.State({FIRST, SECOND}, 2, cursor, store, pollers)
  }

  const ONE: map<C.EventId, C.ChainEvent> := map["first" := FIRST]
  const BOTH: map<C.EventId, C.ChainEvent> := map["first" := FIRST, "second" := SECOND]
  const WAITING := C.Saving(None, EARLY, 1, 1)
  const LATEWORK := C.Saving(None, LATE, 2, 2)

  function Start(
    pollers: map<C.PollerId, C.Phase>, store: map<C.EventId, C.ChainEvent>, work: map<C.PollerId, Work>): State {
    State(Chain(None, store, pollers), map[], work, {})
  }

  const READY := Start(map[0 := WAITING, 1 := LATEWORK], BOTH, map[0 := IDLE, 1 := IDLE])

  lemma {:induction false} RepliesAreHonest(chain: set<C.ChainEvent>)
    requires chain == {FIRST, SECOND}
    ensures C.Honest(CONFIG, chain, None, EARLY, 1) && C.Aligned(CONFIG, chain, None, EARLY)
    ensures C.Honest(CONFIG, chain, None, LATE, 2) && C.Aligned(CONFIG, chain, None, LATE)
  {
  }

  lemma {:induction false} EarlyFetched(parse: Parser) returns (ss: seq<State>, steps: seq<Step>)
    ensures Reaches(parse, ss, steps, Start(map[0 := C.Saving(None, EARLY, 1, 0)], map[], map[0 := IDLE]))
  {
    RepliesAreHonest({FIRST, SECOND});
    ss, steps := [Start(map[], map[], map[])], [];
    ss, steps := Extend(parse, ss, steps, Base(C.ReadCursor(0)), Start(map[0 := C.HasCursor(None)], map[], map[]));
    var s2 := Start(map[0 := C.Saving(None, EARLY, 1, 0)], map[], map[0 := IDLE]);
    ss, steps := Extend(parse, ss, steps, Base(C.Fetch(0, EARLY, 1)), s2);
  }

  lemma {:induction false} EarlySaved(parse: Parser) returns (ss: seq<State>, steps: seq<Step>)
    ensures Reaches(parse, ss, steps, Start(map[0 := WAITING], ONE, map[0 := IDLE]))
  {
    ss, steps := EarlyFetched(parse);
    ss, steps := Extend(parse, ss, steps, Base(C.SaveNext(0)), Start(map[0 := WAITING], ONE, map[0 := IDLE]));
  }

  lemma {:induction false} LateFetched(parse: Parser) returns (ss: seq<State>, steps: seq<Step>)
    ensures Reaches(
      parse, ss, steps, Start(map[0 := WAITING, 1 := C.Saving(None, LATE, 2, 0)], ONE, map[0 := IDLE, 1 := IDLE]))
  {
    RepliesAreHonest({FIRST, SECOND});
    ss, steps := EarlySaved(parse);
    var s1 := Start(map[0 := WAITING, 1 := C.HasCursor(None)], ONE, map[0 := IDLE]);
    ss, steps := Extend(parse, ss, steps, Base(C.ReadCursor(1)), s1);
    var s2 := Start(map[0 := WAITING, 1 := C.Saving(None, LATE, 2, 0)], ONE, map[0 := IDLE, 1 := IDLE]);
    ss, steps := Extend(parse, ss, steps, Base(C.Fetch(1, LATE, 2)), s2);
  }

  lemma {:induction false} BothSaved(parse: Parser) returns (ss: seq<State>, steps: seq<Step>)
    ensures Reaches(parse, ss, steps, READY)
  {
    ss, steps := LateFetched(parse);
    var s1 := Start(map[0 := WAITING, 1 := C.Saving(None, LATE, 2, 1)], ONE, map[0 := IDLE, 1 := IDLE]);
    ss, steps := Extend(parse, ss, steps, Base(C.SaveNext(1)), s1);
    ss, steps := Extend(parse, ss, steps, Base(C.SaveNext(1)), READY);
  }

  // ---------------------------------------------------------------- a claim is no longer counted

  /** The recipient is added in ledger 1 and claims in ledger 2. */
  function AddThenClaim(e: C.ChainEvent): P.Event {
    P.Event(e.id, if e == SECOND then P.TokenClaimed else P.RecipientAdded, e.ledger, "", "drop", "alice", None,
            "", "", None, None, None, None)
  }

  const ALICE := RecipientSlot("drop", "alice")
  const LIST := ClaimsSlot("alice")
  const PENDING := NextValue(AddThenClaim(FIRST), RecipientValue(None))
  const CLAIMED := NextValue(AddThenClaim(SECOND), PENDING)
  const HELD := Work(0, 0, Some(RecipientValue(None)))

  /** A state in which both pollers have stored their raw records. */
  function At(
    cursor: Option<nat>, late: C.Phase, slots: map<Slot, Value>, early: Work, work: Work,
      written: set<C.ChainEvent>): State {
    State(Chain(cursor, BOTH, map[0 := WAITING, 1 := late]), slots, map[0 := early, 1 := work], written)
  }

  lemma {:induction false} FirstProjected() returns (ss: seq<State>, steps: seq<Step>)
    ensures Reaches(AddThenClaim, ss, steps, At(None, LATEWORK, map[ALICE := PENDING], HELD, Work(1, 0, None), {FIRST}))
  {
    ss, steps := BothSaved(AddThenClaim);
    ss, steps := DoRead(AddThenClaim, ss, steps, 0);
    assert ss[|steps|] == At(None, LATEWORK, map[], HELD, IDLE, {});
    ss, steps := DoUpsert(AddThenClaim, ss, steps, 1);
    assert ss[|steps|] == At(None, LATEWORK, map[ALICE := PENDING], HELD, Work(0, 1, None), {});
    var s := At(None, LATEWORK, map[ALICE := PENDING], HELD, Work(1, 0, None), {FIRST});
    ss, steps := Extend(AddThenClaim, ss, steps, Done(1), s);
  }

  const COUNTEDSLOTS: map<Slot,
    Value> := map[ALICE := CLAIMED, LIST := NextValue(AddThenClaim(SECOND), ClaimsValue([]))]

  lemma {:induction false} SecondProjected() returns (ss: seq<State>, steps: seq<Step>)
    ensures Reaches(AddThenClaim, ss, steps, At(Some(2), C.Idle, COUNTEDSLOTS, HELD, Work(2, 0, None), {FIRST, SECOND}))
  {
    ss, steps := FirstProjected();
    ss, steps := DoUpsert(AddThenClaim, ss, steps, 1);
    assert ss[|steps|] == At(None, LATEWORK, map[ALICE := CLAIMED], HELD, Work(1, 1, None), {FIRST});
    ss, steps := DoUpsert(AddThenClaim, ss, steps, 1);
    assert ss[|steps|] == At(None, LATEWORK, COUNTEDSLOTS, HELD, Work(1, 2, None), {FIRST});
    ss, steps := Extend(
      AddThenClaim, ss, steps, Done(1), At(None, LATEWORK, COUNTEDSLOTS, HELD, Work(2, 0, None), {FIRST, SECOND}));
    assert C.NextCursor(CONFIG, None, LATE) == 2;
    ss, steps := Extend(AddThenClaim, ss, steps, Base(C.AdvanceCursor(1)),
      At(Some(2), C.Idle, COUNTEDSLOTS, HELD, Work(2, 0, None), {FIRST, SECOND}));
  }

  /**
   * The first poller's write then lands: a claim behind the cursor is not counted, and by LeftBehindForever never is.
   */
  lemma {:induction false} RacedClaimIsLost() returns (ss: seq<State>, steps: seq<Step>)
    ensures Run(CONFIG, AddThenClaim, ss, steps) && AlignedRun(CONFIG, ss, steps)
    ensures C.Due(CONFIG, ss[|steps|].base, SECOND) && Leaves(AddThenClaim, SECOND, Counted("drop", "alice"))
    ensures LeftBehind(CONFIG, AddThenClaim, ss[|steps|], Counted("drop", "alice"))
  {
    ss, steps := SecondProjected();
    assert Has(ss[|steps|], Counted("drop", "alice"));
    var s := At(Some(2), C.Idle, COUNTEDSLOTS[ALICE := PENDING], Work(0, 1, None), Work(2, 0, None), {FIRST, SECOND});
    ss, steps := Extend(AddThenClaim, ss, steps, Write(0), s);
  }

  // ---------------------------------------------------------------- a claim is no longer listed

  /** The recipient claims from one airdrop in ledger 1 and from another in ledger 2. */
  function TwoClaims(e: C.ChainEvent): P.Event {
    P.Event(e.id, P.TokenClaimed, e.ledger, "", if e == SECOND then "drop2" else "drop1", "alice", None,
            "", "", None, None, None, None)
  }

  const SLOT1 := RecipientSlot("drop1", "alice")
  const SLOT2 := RecipientSlot("drop2", "alice")
  const RECORD1 := NextValue(TwoClaims(FIRST), RecipientValue(None))
  const RECORD1AGAIN := NextValue(TwoClaims(FIRST), RECORD1)
  const RECORD2 := NextValue(TwoClaims(SECOND), RecipientValue(None))
  const LIST1 := NextValue(TwoClaims(FIRST), ClaimsValue([]))
  const LIST2 := NextValue(TwoClaims(SECOND), LIST1)
  const HELDLIST := Work(0, 1, Some(ClaimsValue([])))

  lemma {:induction false} EarlyHoldsTheList() returns (ss: seq<State>, steps: seq<Step>)
    ensures Reaches(TwoClaims, ss, steps, At(None, LATEWORK, map[SLOT1 := RECORD1], HELDLIST, IDLE, {}))
  {
    ss, steps := BothSaved(TwoClaims);
    ss, steps := DoUpsert(TwoClaims, ss, steps, 0);
    assert ss[|steps|] == At(None, LATEWORK, map[SLOT1 := RECORD1], Work(0, 1, None), IDLE, {});
    ss, steps := DoRead(TwoClaims, ss, steps, 0);
  }

  const SLOTS1: map<Slot, Value> := map[SLOT1 := RECORD1AGAIN, LIST := LIST1]
  const SLOTS2: map<Slot, Value> := map[SLOT1 := RECORD1AGAIN, SLOT2 := RECORD2, LIST := LIST2]

  lemma {:induction false} FirstListed() returns (ss: seq<State>, steps: seq<Step>)
    ensures Reaches(TwoClaims, ss, steps, At(None, LATEWORK, SLOTS1, HELDLIST, Work(1, 0, None), {FIRST}))
  {
    ss, steps := EarlyHoldsTheList();
    ss, steps := DoUpsert(TwoClaims, ss, steps, 1);
    assert ss[|steps|] == At(None, LATEWORK, map[SLOT1 := RECORD1AGAIN], HELDLIST, Work(0, 1, None), {});
    ss, steps := DoUpsert(TwoClaims, ss, steps, 1);
    assert ss[|steps|] == At(None, LATEWORK, SLOTS1, HELDLIST, Work(0, 2, None), {});
    ss, steps := Extend(TwoClaims, ss, steps, Done(1), At(None, LATEWORK, SLOTS1, HELDLIST, Work(1, 0, None), {FIRST}));
  }

  /** The two claims have different keys. */
  lemma {:induction false} KeysDiffer()
    ensures P.DedupKey(TwoClaims(FIRST).id, TwoClaims(FIRST).airdrop) == "first:drop1"
    ensures P.DedupKey(TwoClaims(SECOND).id, TwoClaims(SECOND).airdrop) == "second:drop2"
    ensures NeedsWrite(TwoClaims(SECOND), LIST1)
  {
    assert "first" + ":" + "drop1" == "first:drop1" && "second" + ":" + "drop2" == "second:drop2";
    assert |"first:drop1"| != |"second:drop2"|;
  }

  lemma {:induction false} SecondListed() returns (ss: seq<State>, steps: seq<Step>)
    ensures Reaches(TwoClaims, ss, steps, At(None, LATEWORK, SLOTS2, HELDLIST, Work(1, 2, None), {FIRST}))
  {
    KeysDiffer();
    ss, steps := FirstListed();
    ss, steps := DoUpsert(TwoClaims, ss, steps, 1);
    assert ss[|steps|] == At(None, LATEWORK, SLOTS1[SLOT2 := RECORD2], HELDLIST, Work(1, 1, None), {FIRST});
    ss, steps := DoUpsert(TwoClaims, ss, steps, 1);
    assert ss[|steps|] == At(None, LATEWORK, SLOTS2, HELDLIST, Work(1, 2, None), {FIRST});
  }

  lemma {:induction false} ListAdvanced() returns (ss: seq<State>, steps: seq<Step>)
    ensures Reaches(TwoClaims, ss, steps, At(Some(2), C.Idle, SLOTS2, HELDLIST, Work(2, 0, None), {FIRST, SECOND}))
  {
    ss, steps := SecondListed();
    ss, steps := Extend(
      TwoClaims, ss, steps, Done(1), At(None, LATEWORK, SLOTS2, HELDLIST, Work(2, 0, None), {FIRST, SECOND}));
    assert C.NextCursor(CONFIG, None, LATE) == 2;
    ss, steps := Extend(TwoClaims, ss, steps, Base(C.AdvanceCursor(1)),
      At(Some(2), C.Idle, SLOTS2, HELDLIST, Work(2, 0, None), {FIRST, SECOND}));
  }

  /**
   * The first poller then writes back the list it had read with its own claim: the other claim is gone from it for
   * good.
   */
  lemma {:induction false} RacedListLosesAClaim() returns (ss: seq<State>, steps: seq<Step>)
    ensures Run(CONFIG, TwoClaims, ss, steps) && AlignedRun(CONFIG, ss, steps)
    ensures C.Due(CONFIG, ss[|steps|].base, SECOND) && Leaves(TwoClaims, SECOND, Listed("alice", "second:drop2"))
    ensures LeftBehind(CONFIG, TwoClaims, ss[|steps|], Listed("alice", "second:drop2"))
  {
    KeysDiffer();
    ss, steps := ListAdvanced();
    var s := At(Some(2), C.Idle, SLOTS2[LIST := LIST1], Work(0, 2, None), Work(2, 0, None), {FIRST, SECOND});
    ss, steps := Extend(TwoClaims, ss, steps, Write(0), s);
  }
}
