/**
 * The cursor protocol and the records derived from claims together: what a reader of the airdrop status or of a
 * recipient's claims may conclude about the chain. Within one upsert the read and the write are separate commands,
 * so the upserts of different pollers interleave. `parse` is the event parser, any function from a chain event to
 * its decoded form.
 */
module IndexedClaims {
  import opened Prelude
  import C = IndexerCursor
  import P = EventProjection

  type Parser = C.ChainEvent -> P.Event

  /** A stored value: one recipient of one airdrop, or one recipient's list of claims. */
  datatype Slot = RecipientSlot(airdrop: string, recipient: string) | ClaimsSlot(recipient: string)
  datatype Value = RecipientValue(record: Option<P.Recipient>) | ClaimsValue(list: seq<P.Claim>)

  /**
   * How many events of its batch a poller has projected, how many upserts of the next one, and what it read for the
   * next.
   */
  datatype Work = Work(done: nat, part: nat, read: Option<Value>)

  const IDLE := Work(0, 0, None)

  /** `written` are the recognised events some poller has projected; it is recorded for the proofs. */
  datatype State = State(
    base: C.State, slots: map<Slot, Value>, work: map<C.PollerId, Work>, written: set<C.ChainEvent>)

  /** `Pass` is an upsert that finds nothing to write; `Done` moves on to the next event. */
  datatype Step =
    | Base(step: C.Step)
    | Read(p: C.PollerId)
    | Write(p: C.PollerId)
    | Pass(p: C.PollerId)
    | Done(p: C.PollerId)

  // ---------------------------------------------------------------- one event's upserts

  /** The upserts of an event, in order. */
  function Slots(parse: Parser, e: C.ChainEvent): seq<Slot> {
    var v := parse(e);
    if !e.recognised || v.airdrop == "" || v.recipient == "" then []
    else if P.IsClaim(v) then [RecipientSlot(v.airdrop, v.recipient), ClaimsSlot(v.recipient)]
    else [RecipientSlot(v.airdrop, v.recipient)]
  }

  function Empty(k: Slot): Value {
    if k.RecipientSlot? then RecipientValue(None) else ClaimsValue([])
  }

  function Stored(s: State, k: Slot): Value {
    if k in s.slots then s.slots[k] else Empty(k)
  }

  /** A claim already listed is not written again. */
  predicate NeedsWrite(v: P.Event, x: Value) {
    x.ClaimsValue? ==> !P.Listed(x.list, P.DedupKey(v.id, v.airdrop))
  }

  function NextValue(v: P.Event, x: Value): Value {
    match x
    case RecipientValue(record) => RecipientValue(Some(P.NextRecipient(v, record)))
    case ClaimsValue(list) => ClaimsValue(list + [P.ClaimOf(v)])
  }

  // ---------------------------------------------------------------- steps

  function WorkOf(s: State, p: C.PollerId): Work {
    if p in s.work then s.work[p] else IDLE
  }

  /** The raw records of the batch are stored and an event is left to project. */
  predicate Busy(s: State, p: C.PollerId) {
    var ph := C.PhaseOf(s.base, p);
    ph.Saving? && ph.saved == |ph.reply.events| && WorkOf(s, p).done < |ph.reply.events|
  }

  function Current(s: State, p: C.PollerId): C.ChainEvent
    requires Busy(s, p)
  {
    C.PhaseOf(s.base, p).reply.events[WorkOf(s, p).done]
  }

  /** The next upsert of the current event, if any is left. */
  predicate AtSlot(parse: Parser, s: State, p: C.PollerId) {
    Busy(s, p) && WorkOf(s, p).part < |Slots(parse, Current(s, p))|
  }

  function SlotAt(parse: Parser, s: State, p: C.PollerId): Slot
    requires AtSlot(parse, s, p)
  {
    Slots(parse, Current(s, p))[WorkOf(s, p).part]
  }

  ghost predicate Next(c: C.Config, parse: Parser, s: State, step: Step, s': State) {
    match step
    case Base(b) =>
      && C.Next(c, s.base, b, s'.base) && (b.AdvanceCursor? ==> Finished(s, b.p))
      && s' == s.(base := s'.base, work := if b.Fetch? then s.work[b.p := IDLE] else s.work)
    case Read(p) =>
      && AtSlot(parse, s, p) && WorkOf(s, p).read.None?
      && s' == s.(work := s.work[p := WorkOf(s, p).(read := Some(Stored(s, SlotAt(parse, s, p))))])
    case Write(p) =>
      && Holding(parse, s, p) && NeedsWrite(parse(Current(s, p)), WorkOf(s, p).read.value)
      && s' == s.(slots := s.slots[SlotAt(parse, s, p) := NextValue(parse(Current(s, p)), WorkOf(s, p).read.value)],
                  work := s.work[p := NextPart(s, p)])
    case Pass(p) =>
      && Holding(parse, s, p) && !NeedsWrite(parse(Current(s, p)), WorkOf(s, p).read.value)
      && s' == s.(work := s.work[p := NextPart(s, p)])
    case Done(p) =>
      && Busy(s, p) && WorkOf(s, p).part == |Slots(parse, Current(s, p))| && WorkOf(s, p).read.None?
      && var e := Current(s, p);
         s' == s.(work := s.work[p := Work(WorkOf(s, p).done + 1, 0, None)],
                  written := if e.recognised then s.written + {e} else s.written)
  }

  /** The poller has read the value of the current slot and not written it yet. */
  predicate Holding(parse: Parser, s: State, p: C.PollerId) {
    AtSlot(parse, s, p) && WorkOf(s, p).read.Some?
  }

  function NextPart(s: State, p: C.PollerId): Work {
    Work(WorkOf(s, p).done, WorkOf(s, p).part + 1, None)
  }

  /** saveEvents has returned: the whole batch is projected. */
  predicate Finished(s: State, p: C.PollerId) {
    var ph := C.PhaseOf(s.base, p);
    ph.Saving? ==> WorkOf(s, p).done == |ph.reply.events|
  }

  ghost predicate Init(s: State) {
    C.Init(s.base) && s.slots == map[] && s.work == map[] && s.written == {}
  }

  ghost predicate StepAt(c: C.Config, parse: Parser, ss: seq<State>, steps: seq<Step>, k: nat)
    requires k < |steps| && |ss| == |steps| + 1
  {
    Next(c, parse, ss[k], steps[k], ss[k + 1])
  }

  ghost predicate Run(c: C.Config, parse: Parser, ss: seq<State>, steps: seq<Step>) {
    |ss| == |steps| + 1 && Init(ss[0]) && forall k :: 0 <= k < |steps| ==> StepAt(c, parse, ss, steps, k)
  }

  // ---------------------------------------------------------------- what every step keeps

  /** What a poller counts as projected is written, and it works on an event only when its turn has come. */
  ghost predicate WorkOk(s: State, p: C.PollerId) {
    var ph, w := C.PhaseOf(s.base, p), WorkOf(s, p);
    ph.Saving? ==>
      && w.done <= |ph.reply.events|
      && (forall i :: 0 <= i < w.done && ph.reply.events[i].recognised ==> ph.reply.events[i] in s.written)
      && (w.read.Some? || w.part > 0 ==> Busy(s, p))
  }

  /** Every slot holds a value of its kind. */
  ghost predicate KindOk(s: State, k: Slot) {
    Stored(s, k).RecipientValue? <==> k.RecipientSlot?
  }

  ghost predicate HeldKindOk(parse: Parser, s: State, p: C.PollerId) {
    Holding(parse, s, p) ==> (WorkOf(s, p).read.value.RecipientValue? <==> SlotAt(parse, s, p).RecipientSlot?)
  }

  ghost predicate Inv(c: C.Config, parse: Parser, s: State) {
    && C.Inv(c, s.base) && (forall p: C.PollerId :: WorkOk(s, p))
    && (forall k: Slot :: KindOk(s, k)) && (forall p: C.PollerId :: HeldKindOk(parse, s, p))
  }

  /** A step of another poller, or of the chain, leaves a poller where it is. */
  predicate Concerns(step: Step, p: C.PollerId) {
    if step.Base? then !step.step.Grow? && step.step.p == p else step.p == p
  }

  lemma {:induction false} OthersStay(c: C.Config, parse: Parser, s: State, step: Step, s': State, p: C.PollerId)
    requires Next(c, parse, s, step, s') && !Concerns(step, p)
    ensures C.PhaseOf(s'.base, p) == C.PhaseOf(s.base, p) && WorkOf(s', p) == WorkOf(s, p)
  {
  }

  lemma {:induction false} WorkStaysOk(c: C.Config, parse: Parser, s: State, step: Step, s': State, p: C.PollerId)
    requires WorkOk(s, p) && Next(c, parse, s, step, s')
    ensures WorkOk(s', p)
  {
    if !Concerns(step, p) { OthersStay(c, parse, s, step, s', p); }
  }

  /** Whoever is at work on an event without just having taken it up was at work on it before. */
  lemma {:induction false} StaysAtWork(c: C.Config, parse: Parser, s: State, step: Step, s': State, p: C.PollerId)
    requires Next(c, parse, s, step, s') && WorkOk(s, p) && Busy(s', p)
    requires WorkOf(s', p).part > 0 || WorkOf(s', p).read.Some?
    ensures Busy(s, p) && Current(s, p) == Current(s', p)
    ensures WorkOf(s', p) == WorkOf(s, p) || step == Read(p) || step == Write(p) || step == Pass(p)
  {
    if !Concerns(step, p) { OthersStay(c, parse, s, step, s', p); }
  }

  lemma {:induction false} KindsStayOk(c: C.Config, parse: Parser, s: State, step: Step, s': State)
    requires Inv(c, parse, s) && Next(c, parse, s, step, s')
    ensures forall k: Slot :: KindOk(s', k)
    ensures forall p: C.PollerId :: HeldKindOk(parse, s', p)
  {
    forall k: Slot ensures KindOk(s', k) {
      assert KindOk(s, k);
      if step.Write? { assert HeldKindOk(parse, s, step.p); }
    }
    forall p: C.PollerId ensures HeldKindOk(parse, s', p) {
      assert HeldKindOk(parse, s, p) && WorkOk(s, p);
      if Holding(parse, s', p) {
        StaysAtWork(c, parse, s, step, s', p);
        if step == Read(p) { assert KindOk(s, SlotAt(parse, s, p)); }
      }
    }
  }

  lemma {:induction false} StepKeepsInv(c: C.Config, parse: Parser, s: State, step: Step, s': State)
    requires Inv(c, parse, s) && Next(c, parse, s, step, s')
    ensures Inv(c, parse, s')
  {
    if step.Base? { C.StepKeepsInv(c, s.base, step.step, s'.base); }
    forall p: C.PollerId ensures WorkOk(s', p) { WorkStaysOk(c, parse, s, step, s', p); }
    KindsStayOk(c, parse, s, step, s');
  }

  lemma {:induction false} RunKeepsInv(c: C.Config, parse: Parser, ss: seq<State>, steps: seq<Step>, n: nat)
    requires Run(c, parse, ss, steps) && n < |ss|
    ensures Inv(c, parse, ss[n])
  {
    if n > 0 {
      RunKeepsInv(c, parse, ss, steps, n - 1);
      assert StepAt(c, parse, ss, steps, n - 1);
      StepKeepsInv(c, parse, ss[n - 1], steps[n - 1], ss[n]);
    }
  }

  // ---------------------------------------------------------------- no claim is listed twice

  ghost predicate KeysApart(x: Value) {
    x.ClaimsValue? ==>
      forall i, j :: 0 <= i < j < |x.list| ==> P.ClaimKey(x.list[i]) != P.ClaimKey(x.list[j])
  }

  ghost predicate ListsOk(s: State) {
    && (forall k: Slot :: KeysApart(Stored(s, k)))
    && forall p: C.PollerId :: WorkOf(s, p).read.Some? ==> KeysApart(WorkOf(s, p).read.value)
  }

  lemma {:induction false} NextValueKeepsApart(v: P.Event, x: Value)
    requires KeysApart(x) && NeedsWrite(v, x)
    ensures KeysApart(NextValue(v, x))
  {
    if x.ClaimsValue? {
      assert P.ClaimKey(P.ClaimOf(v)) == P.DedupKey(v.id, v.airdrop);
    }
  }

  /** However the pollers race, no list of claims ever has two entries with the same key. */
  lemma {:induction false} NoKeyListedTwice(c: C.Config, parse: Parser, ss: seq<State>, steps: seq<Step>, n: nat)
    requires Run(c, parse, ss, steps) && n < |ss|
    ensures ListsOk(ss[n])
  {
    if n > 0 {
      var s, step, s' := ss[n - 1], steps[n - 1], ss[n];
      NoKeyListedTwice(c, parse, ss, steps, n - 1);
      assert StepAt(c, parse, ss, steps, n - 1);
      if step.Write? {
        assert WorkOf(s, step.p).read.Some?;
        NextValueKeepsApart(parse(Current(s, step.p)), WorkOf(s, step.p).read.value);
      }
      forall k: Slot ensures KeysApart(Stored(s', k)) { assert KeysApart(Stored(s, k)); }
      forall p: C.PollerId | WorkOf(s', p).read.Some? ensures KeysApart(WorkOf(s', p).read.value) {
        assert WorkOf(s, p).read.Some? ==> KeysApart(WorkOf(s, p).read.value);
        if step == Read(p) { assert KeysApart(Stored(s, SlotAt(parse, s, p))); }
      }
    }
  }

  // ---------------------------------------------------------------- everything up to the cursor was written

  ghost predicate AlignedStep(c: C.Config, s: State, step: Step) {
    step.Base? ==> C.AlignedFetch(c, s.base, step.step)
  }

  /** No answer of the node splits its last recognised ledger. */
  ghost predicate AlignedRun(c: C.Config, ss: seq<State>, steps: seq<Step>)
    requires |ss| == |steps| + 1
  {
    forall k :: 0 <= k < |steps| ==> AlignedStep(c, ss[k], steps[k])
  }

  ghost predicate AllWritten(c: C.Config, s: State) {
    forall e :: C.Due(c, s.base, e) ==> e in s.written
  }

  lemma {:induction false} StepKeepsAllWritten(c: C.Config, parse: Parser, s: State, step: Step, s': State)
    requires Inv(c, parse, s) && Next(c, parse, s, step, s') && C.AllAligned(c, s.base) && AllWritten(c, s)
    ensures AllWritten(c, s')
  {
    forall e | C.Due(c, s'.base, e) ensures e in s'.written {
      if !C.Due(c, s.base, e) {
        var p := step.step.p;
        var ph := C.PhaseOf(s.base, p);
        assert C.PollerOk(c, s.base, ph) && WorkOk(s, p);
        C.CoveredOrSplitOff(c, s.base, ph, e);
        assert C.Aligned(c, s.base.chain, ph.prev, ph.reply);
        var i :| 0 <= i < |ph.reply.events| && ph.reply.events[i] == e;
      }
    }
  }

  /** Over a node that splits no ledger, every recognised event up to the cursor has been projected by somebody. */
  lemma {:induction false} DueIsWritten(c: C.Config, parse: Parser, ss: seq<State>, steps: seq<Step>, n: nat)
    requires Run(c, parse, ss, steps) && n < |ss| && AlignedRun(c, ss, steps)
    ensures C.AllAligned(c, ss[n].base) && AllWritten(c, ss[n])
  {
    if n > 0 {
      var s, step := ss[n - 1], steps[n - 1];
      DueIsWritten(c, parse, ss, steps, n - 1);
      RunKeepsInv(c, parse, ss, steps, n - 1);
      assert StepAt(c, parse, ss, steps, n - 1) && AlignedStep(c, s, step);
      StepKeepsAllWritten(c, parse, s, step, ss[n]);
      if step.Base? { C.AlignedStep(c, s.base, step.step, ss[n].base); }
    }
  }

  // ---------------------------------------------------------------- marks

  /** What a claim leaves behind: its recipient counts as having claimed, and its key is in the recipient's list. */
  datatype Mark = Counted(airdrop: string, recipient: string) | Listed(recipient: string, key: string)

  function SlotOf(m: Mark): Slot {
    if m.Counted? then RecipientSlot(m.airdrop, m.recipient) else ClaimsSlot(m.recipient)
  }

  predicate Shows(m: Mark, x: Value) {
    match m
    case Counted(_, _) => x.RecipientValue? && x.record.Some? && x.record.value.status == Some(P.Claimed)
    case Listed(_, key) => x.ClaimsValue? && P.Listed(x.list, key)
  }

  /** The event is a claim that leaves the mark. */
  predicate Leaves(parse: Parser, e: C.ChainEvent, m: Mark) {
    && e.recognised && P.IsClaim(parse(e)) && parse(e).recipient == m.recipient
    && match m
       case Counted(a, _) => parse(e).airdrop == a
       case Listed(_, key) => P.DedupKey(parse(e).id, parse(e).airdrop) == key
  }

  predicate Has(s: State, m: Mark) {
    Shows(m, Stored(s, SlotOf(m)))
  }

  /** Writing an event over a value shows the mark exactly when the event leaves it or the value showed it. */
  lemma {:induction false} NextValueShows(parse: Parser, e: C.ChainEvent, m: Mark, x: Value)
    requires SlotOf(m) in Slots(parse, e) && (x.RecipientValue? <==> m.Counted?)
    ensures Shows(m, NextValue(parse(e), x)) <==> Leaves(parse, e, m) || Shows(m, x)
  {
    if m.Listed? {
      var was, longer := x.list, x.list + [P.ClaimOf(parse(e))];
      assert P.ClaimKey(longer[|was|]) == P.DedupKey(parse(e).id, parse(e).airdrop);
      if i :| 0 <= i < |was| && P.ClaimKey(was[i]) == m.key {
        assert P.ClaimKey(longer[i]) == m.key;
      }
    }
  }

  /** The step writes the slot of the mark. */
  predicate Writes(parse: Parser, s: State, step: Step, m: Mark) {
    step.Write? && Holding(parse, s, step.p) && SlotAt(parse, s, step.p) == SlotOf(m)
  }

  /** It writes a claim that leaves the mark, or another event over a value that showed it when read. */
  predicate Carries(parse: Parser, s: State, step: Step, m: Mark) {
    && Writes(parse, s, step, m)
    && (Leaves(parse, Current(s, step.p), m) || Shows(m, WorkOf(s, step.p).read.value))
  }

  /** It writes an event that does not leave the mark over a value that did not show it when read. */
  predicate Undoes(parse: Parser, s: State, step: Step, m: Mark) {
    Writes(parse, s, step, m) && !Carries(parse, s, step, m)
  }

  ghost predicate WritesAt(parse: Parser, ss: seq<State>, steps: seq<Step>, m: Mark, i: nat)
    requires |ss| == |steps| + 1
  {
    i < |steps| && Writes(parse, ss[i], steps[i], m)
  }

  ghost predicate CarriesAt(parse: Parser, ss: seq<State>, steps: seq<Step>, m: Mark, i: nat)
    requires |ss| == |steps| + 1
  {
    i < |steps| && Carries(parse, ss[i], steps[i], m)
  }

  ghost predicate UndoesAt(parse: Parser, ss: seq<State>, steps: seq<Step>, m: Mark, i: nat)
    requires |ss| == |steps| + 1
  {
    i < |steps| && Undoes(parse, ss[i], steps[i], m)
  }

  lemma {:induction false} HasAfterStep(c: C.Config, parse: Parser, s: State, step: Step, s': State, m: Mark)
    requires Inv(c, parse, s) && Next(c, parse, s, step, s')
    ensures Has(s', m) <==> if Writes(parse, s, step, m) then Carries(parse, s, step, m) else Has(s, m)
  {
    if Writes(parse, s, step, m) {
      assert HeldKindOk(parse, s, step.p);
      NextValueShows(parse, Current(s, step.p), m, WorkOf(s, step.p).read.value);
    }
  }

  /** The last write of a slot before step n, if any, decides whether it shows the mark. */
  lemma {:induction false} LastWriteDecides(
    c: C.Config, parse: Parser, ss: seq<State>, steps: seq<Step>, n: nat, m: Mark) returns (last: Option<nat>)
    requires Run(c, parse, ss, steps) && n < |ss|
    ensures last.None? ==> !Has(ss[n], m) && forall i :: 0 <= i < n ==> !WritesAt(parse, ss, steps, m, i)
    ensures last.Some? ==> last.value < n && WritesAt(parse, ss, steps, m, last.value)
    ensures last.Some? ==> forall i :: last.value < i < n ==> !WritesAt(parse, ss, steps, m, i)
    ensures last.Some? ==> (Has(ss[n], m) <==> CarriesAt(parse, ss, steps, m, last.value))
  {
    if n == 0 {
      last := None;
      NothingShowsAtFirst(ss[0], m);
    } else {
      last := LastWriteDecides(c, parse, ss, steps, n - 1, m);
      HasNext(c, parse, ss, steps, n - 1, m);
      if WritesAt(parse, ss, steps, m, n - 1) {
        last := Some(n - 1);
      }
    }
  }

  lemma {:induction false} NothingShowsAtFirst(s: State, m: Mark)
    requires Init(s)
    ensures !Has(s, m)
  {
  }

  lemma {:induction false} HasNext(c: C.Config, parse: Parser, ss: seq<State>, steps: seq<Step>, i: nat, m: Mark)
    requires Run(c, parse, ss, steps) && i < |steps|
    ensures Has(ss[i + 1], m) <==>
      if WritesAt(parse, ss, steps, m, i) then CarriesAt(parse, ss, steps, m, i) else Has(ss[i], m)
  {
    RunKeepsInv(c, parse, ss, steps, i);
    assert StepAt(c, parse, ss, steps, i);
    HasAfterStep(c, parse, ss[i], steps[i], ss[i + 1], m);
  }

  // ---------------------------------------------------------------- where a held value came from

  lemma {:induction false} WasAtWork(
    c: C.Config, parse: Parser, ss: seq<State>, steps: seq<Step>, n: nat, p: C.PollerId)
    requires Run(c, parse, ss, steps) && n < |ss| && Busy(ss[n], p)
    requires WorkOf(ss[n], p).part > 0 || WorkOf(ss[n], p).read.Some?
    ensures n > 0 && Busy(ss[n - 1], p) && Current(ss[n - 1], p) == Current(ss[n], p)
    ensures var step := steps[n - 1];
      WorkOf(ss[n], p) == WorkOf(ss[n - 1], p) || step == Read(p) || step == Write(p) || step == Pass(p)
  {
    assert n > 0;
    RunKeepsInv(c, parse, ss, steps, n - 1);
    assert StepAt(c, parse, ss, steps, n - 1) && WorkOk(ss[n - 1], p);
    StaysAtWork(c, parse, ss[n - 1], steps[n - 1], ss[n], p);
  }

  /** The value a poller holds is what the store held when it read it, for the slot it is about to write. */
  lemma {:induction false} HeldValueWasStored(
    c: C.Config, parse: Parser, ss: seq<State>, steps: seq<Step>, n: nat, p: C.PollerId) returns (r: nat)
    requires Run(c, parse, ss, steps) && n < |ss| && Holding(parse, ss[n], p)
    ensures r < n && steps[r] == Read(p)
    ensures WorkOf(ss[n], p).read == Some(Stored(ss[r], SlotAt(parse, ss[n], p)))
  {
    WasAtWork(c, parse, ss, steps, n, p);
    assert StepAt(c, parse, ss, steps, n - 1);
    if steps[n - 1] == Read(p) {
      r := n - 1;
    } else {
      r := HeldValueWasStored(c, parse, ss, steps, n - 1, p);
    }
  }

  /** A write undoes a mark only if its poller read the slot at a time when the mark did not show. */
  lemma {:induction false} UndoingWriteReadEarlier(
    c: C.Config, parse: Parser, ss: seq<State>, steps: seq<Step>, i: nat, m: Mark) returns (r: nat)
    requires Run(c, parse, ss, steps) && i < |steps| && UndoesAt(parse, ss, steps, m, i)
    ensures r < i && steps[r] == Read(steps[i].p) && !Has(ss[r], m)
    ensures !Leaves(parse, Current(ss[i], steps[i].p), m)
  {
    r := HeldValueWasStored(c, parse, ss, steps, i, steps[i].p);
  }

  lemma {:induction false} PassedIsListed(parse: Parser, s: State, p: C.PollerId, m: Mark)
    requires Holding(parse, s, p) && HeldKindOk(parse, s, p) && SlotAt(parse, s, p) == SlotOf(m)
    requires Leaves(parse, Current(s, p), m) && !NeedsWrite(parse(Current(s, p)), WorkOf(s, p).read.value)
    ensures Shows(m, WorkOf(s, p).read.value)
  {
  }

  /** An upsert a poller is past was written, or found its claim listed already: either way the mark was carried. */
  lemma {:induction false} PastUpsertWasCarried(
    c: C.Config, parse: Parser, ss: seq<State>, steps: seq<Step>, n: nat, p: C.PollerId, q: nat, m: Mark)
    returns (i: nat)
    requires Run(c, parse, ss, steps) && n < |ss| && Busy(ss[n], p)
    requires q < WorkOf(ss[n], p).part && q < |Slots(parse, Current(ss[n], p))|
    requires Slots(parse, Current(ss[n], p))[q] == SlotOf(m) && Leaves(parse, Current(ss[n], p), m)
    ensures i < n && CarriesAt(parse, ss, steps, m, i)
  {
    WasAtWork(c, parse, ss, steps, n, p);
    assert StepAt(c, parse, ss, steps, n - 1);
    if q < WorkOf(ss[n - 1], p).part {
      i := PastUpsertWasCarried(c, parse, ss, steps, n - 1, p, q, m);
    } else if steps[n - 1] == Write(p) {
      i := n - 1;
    } else {
      i := PassedWasCarried(c, parse, ss, steps, n - 1, p, m);
    }
  }

  lemma {:induction false} PassedWasCarried(
    c: C.Config, parse: Parser, ss: seq<State>, steps: seq<Step>, n: nat, p: C.PollerId, m: Mark) returns (i: nat)
    requires Run(c, parse, ss, steps) && n < |ss| && Holding(parse, ss[n], p) && SlotAt(parse, ss[n], p) == SlotOf(m)
    requires Leaves(parse, Current(ss[n], p), m) && !NeedsWrite(parse(Current(ss[n], p)), WorkOf(ss[n], p).read.value)
    ensures i < n && CarriesAt(parse, ss, steps, m, i)
  {
    RunKeepsInv(c, parse, ss, steps, n);
    assert HeldKindOk(parse, ss[n], p);
    PassedIsListed(parse, ss[n], p, m);
    var r := HeldValueWasStored(c, parse, ss, steps, n, p);
    var last := LastWriteDecides(c, parse, ss, steps, r, m);
    i := last.value;
  }

  lemma {:induction false} WrittenClaimWasCarried(
    c: C.Config, parse: Parser, ss: seq<State>, steps: seq<Step>, n: nat, e: C.ChainEvent, m: Mark) returns (i: nat)
    requires Run(c, parse, ss, steps) && n < |ss| && e in ss[n].written && Leaves(parse, e, m)
    ensures i < n && CarriesAt(parse, ss, steps, m, i)
  {
    assert n > 0;
    assert StepAt(c, parse, ss, steps, n - 1);
    if e in ss[n - 1].written {
      i := WrittenClaimWasCarried(c, parse, ss, steps, n - 1, e, m);
    } else {
      var q := if m.Counted? then 0 else 1;
      i := PastUpsertWasCarried(c, parse, ss, steps, n - 1, steps[n - 1].p, q, m);
    }
  }

  // ---------------------------------------------------------------- a due claim shows unless it was undone

  /** Some write that undoes the mark has had no write after it that carries it. */
  ghost predicate Undone(parse: Parser, ss: seq<State>, steps: seq<Step>, n: nat, m: Mark)
    requires |ss| == |steps| + 1
  {
    exists i :: 0 <= i < n && UndoesAt(parse, ss, steps, m, i)
      && forall j :: i < j < n ==> !CarriesAt(parse, ss, steps, m, j)
  }

  /**
   * With any number of pollers, crashes and repeats over a node that splits no ledger: a claim on the chain up to the
   * cursor is counted, and listed, exactly when no write of another event, from a value read without it, landed after
   * the last write that carried it.
   */
  lemma {:induction false} DueClaimShowsIffNotUndone(
    c: C.Config, parse: Parser, ss: seq<State>, steps: seq<Step>, n: nat, e: C.ChainEvent, m: Mark)
    requires Run(c, parse, ss, steps) && n < |ss| && AlignedRun(c, ss, steps)
    requires C.Due(c, ss[n].base, e) && Leaves(parse, e, m)
    ensures Has(ss[n], m) <==> !Undone(parse, ss, steps, n, m)
  {
    DueIsWritten(c, parse, ss, steps, n);
    var first := WrittenClaimWasCarried(c, parse, ss, steps, n, e, m);
    var last := LastWriteDecides(c, parse, ss, steps, n, m);
    assert WritesAt(parse, ss, steps, m, first);
    forall i | last.value < i < n ensures !CarriesAt(parse, ss, steps, m, i) && !UndoesAt(parse, ss, steps, m, i) {
      assert !WritesAt(parse, ss, steps, m, i);
    }
    if !Has(ss[n], m) {
      assert UndoesAt(parse, ss, steps, m, last.value);
    } else {
      assert CarriesAt(parse, ss, steps, m, last.value) && !UndoesAt(parse, ss, steps, m, last.value);
    }
  }

  // ---------------------------------------------------------------- nothing shows without a claim

  ghost predicate OnChain(c: C.Config, s: State, e: C.ChainEvent) {
    e in s.base.chain && e.recognised && c.startLedger <= e.ledger
  }

  lemma {:induction false} ChainGrows(c: C.Config, parse: Parser, ss: seq<State>, steps: seq<Step>, i: nat, j: nat)
    requires Run(c, parse, ss, steps) && i <= j < |ss|
    ensures ss[i].base.chain <= ss[j].base.chain
    decreases j
  {
    if i < j {
      ChainGrows(c, parse, ss, steps, i, j - 1);
      assert StepAt(c, parse, ss, steps, j - 1);
    }
  }

  /** Whatever is counted or listed has a claim event on the chain, from the configured start on. */
  lemma {:induction false} ShownHasClaimed(
    c: C.Config, parse: Parser, ss: seq<State>, steps: seq<Step>, n: nat, m: Mark) returns (e: C.ChainEvent)
    requires Run(c, parse, ss, steps) && n < |ss| && Has(ss[n], m)
    ensures OnChain(c, ss[n], e) && Leaves(parse, e, m)
  {
    var last := LastWriteDecides(c, parse, ss, steps, n, m);
    var w := last.value;
    var p := steps[w].p;
    if Leaves(parse, Current(ss[w], p), m) {
      e := Current(ss[w], p);
      RunKeepsInv(c, parse, ss, steps, w);
      assert C.PollerOk(c, ss[w].base, C.PhaseOf(ss[w].base, p)) && e in C.PhaseOf(ss[w].base, p).reply.events;
      ChainGrows(c, parse, ss, steps, w, n);
    } else {
      var r := HeldValueWasStored(c, parse, ss, steps, w, p);
      e := ShownHasClaimed(c, parse, ss, steps, r, m);
      ChainGrows(c, parse, ss, steps, r, n);
    }
  }

  /** A claim on the chain leaves the mark. */
  ghost predicate ClaimedOnChain(c: C.Config, parse: Parser, s: State, m: Mark) {
    exists e :: OnChain(c, s, e) && Leaves(parse, e, m)
  }

  /** Once the cursor is at the tip, exactly the claims on the chain that were not undone are counted and listed. */
  lemma {:induction false} CaughtUpIndexIsExact(
    c: C.Config, parse: Parser, ss: seq<State>, steps: seq<Step>, n: nat, m: Mark)
    requires Run(c, parse, ss, steps) && n < |ss| && AlignedRun(c, ss, steps)
    requires ss[n].base.cursor == Some(ss[n].base.tip)
    ensures Has(ss[n], m) <==> ClaimedOnChain(c, parse, ss[n], m) && !Undone(parse, ss, steps, n, m)
  {
    RunKeepsInv(c, parse, ss, steps, n);
    if Has(ss[n], m) {
      var e := ShownHasClaimed(c, parse, ss, steps, n, m);
    }
    if e :| OnChain(c, ss[n], e) && Leaves(parse, e, m) {
      assert C.Due(c, ss[n].base, e);
      DueClaimShowsIffNotUndone(c, parse, ss, steps, n, e, m);
    }
  }

  // ---------------------------------------------------------------- uncontested upserts

  /** No other write of the slot came between this upsert's read and its write. */
  ghost predicate Uncontested(parse: Parser, s: State, step: Step) {
    step.Write? && Holding(parse, s, step.p) ==>
      WorkOf(s, step.p).read == Some(Stored(s, SlotAt(parse, s, step.p)))
  }

  lemma {:induction false} ShownStays(
    c: C.Config, parse: Parser, ss: seq<State>, steps: seq<Step>, i: nat, j: nat, m: Mark)
    requires Run(c, parse, ss, steps) && i <= j < |ss| && Has(ss[i], m)
    requires forall k :: 0 <= k < |steps| ==> Uncontested(parse, ss[k], steps[k])
    ensures Has(ss[j], m)
    decreases j
  {
    if i < j {
      ShownStays(c, parse, ss, steps, i, j - 1, m);
      assert Uncontested(parse, ss[j - 1], steps[j - 1]);
      HasNext(c, parse, ss, steps, j - 1, m);
    }
  }

  /** When no upsert is overtaken between its read and its write, every claim up to the cursor is counted and listed. */
  lemma {:induction false} UncontestedClaimsShow(
    c: C.Config, parse: Parser, ss: seq<State>, steps: seq<Step>, n: nat, e: C.ChainEvent, m: Mark)
    requires Run(c, parse, ss, steps) && n < |ss| && AlignedRun(c, ss, steps)
    requires forall k :: 0 <= k < |steps| ==> Uncontested(parse, ss[k], steps[k])
    requires C.Due(c, ss[n].base, e) && Leaves(parse, e, m)
    ensures Has(ss[n], m)
  {
    DueIsWritten(c, parse, ss, steps, n);
    var i := WrittenClaimWasCarried(c, parse, ss, steps, n, e, m);
    HasNext(c, parse, ss, steps, i, m);
    ShownStays(c, parse, ss, steps, i + 1, n, m);
  }

  // ---------------------------------------------------------------- an undone claim stays undone

  ghost predicate OutOfReach(c: C.Config, parse: Parser, s: State, p: C.PollerId, m: Mark) {
    match C.PhaseOf(s.base, p)
    case Idle => true
    case HasCursor(prev) => forall e :: e in s.base.chain && Leaves(parse, e, m) ==> e.ledger < C.StartLedger(c, prev)
    case Saving(_, reply, _, _) =>
      && (forall i :: WorkOf(s, p).done <= i < |reply.events| ==> !Leaves(parse, reply.events[i], m))
      && (Holding(parse, s, p) && SlotAt(parse, s, p) == SlotOf(m) ==> !Shows(m, WorkOf(s, p).read.value))
  }

  /** The mark does not show, the cursor has passed all its claims and no poller has one of them still in hand. */
  ghost predicate LeftBehind(c: C.Config, parse: Parser, s: State, m: Mark) {
    && !Has(s, m) && s.base.cursor.Some?
    && (forall e :: e in s.base.chain && Leaves(parse, e, m) ==> e.ledger <= s.base.cursor.value)
    && forall p: C.PollerId :: OutOfReach(c, parse, s, p, m)
  }

  ghost predicate BringsNoClaim(parse: Parser, step: Step, m: Mark) {
    step.Base? && step.step.Grow? ==> forall e :: e in step.step.events ==> !Leaves(parse, e, m)
  }

  lemma {:induction false} OwnStepStaysOutOfReach(
    c: C.Config, parse: Parser, s: State, step: Step, s': State, p: C.PollerId, m: Mark)
    requires Next(c, parse, s, step, s') && !step.Base? && step.p == p && !Has(s, m)
    requires OutOfReach(c, parse, s, p, m) && WorkOk(s, p)
    ensures OutOfReach(c, parse, s', p, m)
  {
  }

  lemma {:induction false} BaseStaysOutOfReach(
    c: C.Config, parse: Parser, s: State, step: Step, s': State, p: C.PollerId, m: Mark)
    requires Next(c, parse, s, step, s') && step.Base? && BringsNoClaim(parse, step, m)
    requires OutOfReach(c, parse, s, p, m) && WorkOk(s, p) && s.base.cursor.Some?
    requires forall e :: e in s.base.chain && Leaves(parse, e, m) ==> e.ledger <= s.base.cursor.value
    ensures OutOfReach(c, parse, s', p, m)
  {
    var b := step.step;
    if Concerns(step, p) {
      if b.Fetch? {
        forall i | 0 <= i < |b.reply.events| ensures !Leaves(parse, b.reply.events[i], m) {
          assert b.reply.events[i] in b.reply.events;
        }
      }
    } else {
      OthersStay(c, parse, s, step, s', p);
    }
  }

  lemma {:induction false} LeftBehindStep(c: C.Config, parse: Parser, s: State, step: Step, s': State, m: Mark)
    requires Inv(c, parse, s) && Next(c, parse, s, step, s') && LeftBehind(c, parse, s, m)
    requires BringsNoClaim(parse, step, m)
    ensures LeftBehind(c, parse, s', m)
  {
    forall p: C.PollerId ensures OutOfReach(c, parse, s', p, m) {
      assert OutOfReach(c, parse, s, p, m) && WorkOk(s, p);
      if step.Base? {
        BaseStaysOutOfReach(c, parse, s, step, s', p, m);
      } else if step.p == p {
        OwnStepStaysOutOfReach(c, parse, s, step, s', p, m);
      } else {
        OthersStay(c, parse, s, step, s', p);
      }
    }
    HasAfterStep(c, parse, s, step, s', m);
    if step.Write? { assert OutOfReach(c, parse, s, step.p, m); }
  }

  /** Without a new claim that leaves the mark on the chain, it never shows again. */
  lemma {:induction false} LeftBehindForever(
    c: C.Config, parse: Parser, ss: seq<State>, steps: seq<Step>, i: nat, j: nat, m: Mark)
    requires Run(c, parse, ss, steps) && i <= j < |ss| && LeftBehind(c, parse, ss[i], m)
    requires forall k :: i <= k < j ==> BringsNoClaim(parse, steps[k], m)
    ensures LeftBehind(c, parse, ss[j], m)
    decreases j
  {
    if i < j {
      LeftBehindForever(c, parse, ss, steps, i, j - 1, m);
      RunKeepsInv(c, parse, ss, steps, j - 1);
      assert StepAt(c, parse, ss, steps, j - 1) && BringsNoClaim(parse, steps[j - 1], m);
      LeftBehindStep(c, parse, ss[j - 1], steps[j - 1], ss[j], m);
    }
  }
}
