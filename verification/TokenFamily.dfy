/**
 * Refresh-token rotation. Every token belongs to a family; refreshing marks the presented token used,
 * keeps it for a grace period and issues a successor; presenting a used token again revokes the whole
 * family. Tokens and family sets are Redis keys with their own expiry. A refresh that rotates reads the record,
 * stores it as used and later stores the successor; other steps may come between any two of the three.
 */
module TokenFamily {
  import opened Prelude

  type Hash = nat
  type FamilyId = nat
  type Reader = nat

  /** Seconds a used token stays recorded, to detect reuse. */
  const GRACE: nat := 60

  /** `until` is the key's Redis expiry; `expiresAt` is the field inside the record. */
  datatype Token = Token(family: FamilyId, used: bool, expiresAt: nat, until: nat)
  datatype Family = Family(members: set<Hash>, until: nat)

  /** A refresh that has read its record, or has marked it used and still has to issue the successor. */
  datatype Phase = HasRead(h: Hash, record: Token) | Marked(family: FamilyId)

  /** `hashes` (with their families) and `ids` are all values ever drawn; fresh random values avoid them. */
  datatype State = State(
    now: nat, tokens: map<Hash, Token>, families: map<FamilyId, Family>, readers: map<Reader, Phase>,
    hashes: map<Hash, FamilyId>, ids: set<FamilyId>)

  predicate LiveToken(s: State, h: Hash) {
    h in s.tokens && s.now < s.tokens[h].until
  }

  predicate LiveFamily(s: State, f: FamilyId) {
    f in s.families && s.now < s.families[f].until
  }

  predicate LiveIn(s: State, h: Hash, f: FamilyId) {
    LiveToken(s, h) && s.tokens[h].family == f
  }

  /** A live token of the family that has not been used. */
  predicate UnusedIn(s: State, h: Hash, f: FamilyId) {
    LiveIn(s, h, f) && !s.tokens[h].used
  }

  // ---------------------------------------------------------------- the operations, on values

  /** SET EX, then SADD to the family set and reset the set's expiry. */
  function StoreToken(s: State, h: Hash, family: FamilyId, used: bool, expiresAt: nat, ttl: nat): State {
    var members := if LiveFamily(s, family) then s.families[family].members else {};
    s.(tokens := s.tokens[h := Token(family, used, expiresAt, s.now + ttl)],
       families := s.families[family := Family(members + {h}, s.now + ttl)])
  }

  /** The record's own expiry counts from `signed`, when the pair was put together, before it is stored. */
  function CreatePair(s: State, family: FamilyId, h: Hash, signed: nat, ttl: nat): State {
    StoreToken(s, h, family, false, signed + ttl, ttl).(hashes := s.hashes[h := family], ids := s.ids + {family})
  }

  /** Delete every token the set lists, then the set; an expired set lists nothing. */
  function RevokeFamily(s: State, family: FamilyId): State {
    if LiveFamily(s, family) then s.(tokens := s.tokens - s.families[family].members, families := s.families - {family})
    else s
  }

  datatype Reply = Invalid | ReuseDetected | Expired | Rotated

  function RefreshReply(s: State, h: Hash): Reply {
    if !LiveToken(s, h) then Invalid
    else if s.tokens[h].used then ReuseDetected
    else if s.now > s.tokens[h].expiresAt then Expired
    else Rotated
  }

  /** The first store of a rotation: the record that was read, now used, for the grace period. */
  function MarkUsed(s: State, h: Hash, record: Token): State {
    StoreToken(s, h, record.family, true, record.expiresAt, GRACE)
  }

  /** Both stores of a rotation, one right after the other. */
  function Rotate(s: State, h: Hash, record: Token, h': Hash, signed: nat, ttl: nat): State {
    CreatePair(MarkUsed(s, h, record), record.family, h', signed, ttl)
  }

  function Refresh(s: State, h: Hash, h': Hash, signed: nat, ttl: nat): State {
    match RefreshReply(s, h)
    case Invalid => s
    case ReuseDetected => RevokeFamily(s, s.tokens[h].family)
    case Expired => s.(tokens := s.tokens - {h})
    case Rotated => Rotate(s, h, s.tokens[h], h', signed, ttl)
  }

  function Logout(s: State, h: Hash): State {
    if LiveToken(s, h) then s.(tokens := s.tokens - {h}) else s
  }

  /** `Present` is a refresh nothing interleaves with; `Read`, `Mark` and `Issue` are the parts of one that rotates. */
  datatype Step =
    | Tick(now: nat)
    | Login(family: FamilyId, h: Hash, signed: nat, ttl: nat)
    | Present(h: Hash, h': Hash, signed: nat, ttl: nat)
    | Read(reader: Reader, h: Hash)
    | Mark(reader: Reader)
    | Issue(reader: Reader, h': Hash, signed: nat, ttl: nat)
    | Revoke(family: FamilyId)
    | SignOut(h: Hash)

  /** The refresh has marked its token and not issued the successor yet. */
  predicate Busy(s: State, reader: Reader) {
    reader in s.readers && s.readers[reader].Marked?
  }

  ghost predicate Next(s: State, step: Step, s': State) {
    match step
    case Tick(now) => s.now <= now && s' == s.(now := now)
    case Login(family, h, signed, ttl) =>
      family !in s.ids && h !in s.hashes && signed <= s.now && s' == CreatePair(s, family, h, signed, ttl)
    case Present(h, h', signed, ttl) => h' !in s.hashes && signed <= s.now && s' == Refresh(s, h, h', signed, ttl)
    case Read(reader, h) =>
      && RefreshReply(s, h) == Rotated && !Busy(s, reader)
      && s' == s.(readers := s.readers[reader := HasRead(h, s.tokens[h])])
    case Mark(reader) =>
      && reader in s.readers && s.readers[reader].HasRead?
      && var x := s.readers[reader];
         s' == MarkUsed(s, x.h, x.record).(readers := s.readers[reader := Marked(x.record.family)])
    case Issue(reader, h', signed, ttl) =>
      && Busy(s, reader) && h' !in s.hashes && signed <= s.now
      && s' == CreatePair(s, s.readers[reader].family, h', signed, ttl).(readers := s.readers - {reader})
    case Revoke(family) => s' == RevokeFamily(s, family)
    case SignOut(h) => s' == Logout(s, h)
  }

  ghost predicate Init(s: State) {
    s.tokens == map[] && s.families == map[] && s.readers == map[] && s.hashes == map[] && s.ids == {}
  }

  ghost predicate StepAt(ss: seq<State>, steps: seq<Step>, k: nat)
    requires k < |steps| && |ss| == |steps| + 1
  {
    Next(ss[k], steps[k], ss[k + 1])
  }

  ghost predicate Run(ss: seq<State>, steps: seq<Step>) {
    |ss| == |steps| + 1 && Init(ss[0]) && forall k :: 0 <= k < |steps| ==> StepAt(ss, steps, k)
  }

  /** A mark comes in time when the record it was read from is still stored, live and unused. */
  ghost predicate InTime(s: State, step: Step) {
    step.Mark? && step.reader in s.readers && s.readers[step.reader].HasRead? ==>
      UnusedIn(s, s.readers[step.reader].h, s.readers[step.reader].record.family)
  }

  /** A run in which every mark comes in time; one-step refreshes always do. */
  ghost predicate TimelyRun(ss: seq<State>, steps: seq<Step>) {
    Run(ss, steps) && forall k :: 0 <= k < |steps| ==> InTime(ss[k], steps[k])
  }

  /** No refresh is configured with a lifetime shorter than the grace period. */
  ghost predicate LongEnough(steps: seq<Step>) {
    forall k :: 0 <= k < |steps| && (steps[k].Present? || steps[k].Issue?) ==> steps[k].ttl >= GRACE
  }

  // ---------------------------------------------------------------- invariants, for every lifetime

  /** Every hash in use was drawn for the family it is used in. */
  ghost predicate Known(s: State) {
    && (forall h :: h in s.tokens ==> h in s.hashes && s.tokens[h].family == s.hashes[h])
    && (forall h :: h in s.hashes ==> s.hashes[h] in s.ids)
    && (forall f :: f in s.families ==> f in s.ids)
    && (forall f, h :: f in s.families && h in s.families[f].members ==> h in s.hashes && s.hashes[h] == f)
    && forall p: Reader :: ReaderKnown(s, p)
  }

  ghost predicate ReaderKnown(s: State, p: Reader) {
    p in s.readers ==>
      match s.readers[p]
      case HasRead(h, record) => h in s.hashes && record.family == s.hashes[h]
      case Marked(f) => f in s.ids
  }

  /** The token is listed in its family's set, which outlives it. */
  ghost predicate Listed(s: State, h: Hash)
    requires h in s.tokens
  {
    var t := s.tokens[h];
    LiveFamily(s, t.family) && h in s.families[t.family].members && t.until <= s.families[t.family].until
  }

  /** An unused live token is listed. */
  ghost predicate UnusedListed(s: State, h: Hash) {
    LiveToken(s, h) && !s.tokens[h].used ==> Listed(s, h)
  }

  /** What a family has in play: an unused live token, or a successor still to be issued. */
  datatype Stake = Usable(h: Hash) | Pending(reader: Reader)

  predicate InPlay(s: State, x: Stake, f: FamilyId) {
    match x
    case Usable(h) => UnusedIn(s, h, f)
    case Pending(p) => Busy(s, p) && s.readers[p].family == f
  }

  ghost predicate OnlyOne(s: State, x: Stake, y: Stake, f: FamilyId) {
    InPlay(s, x, f) && InPlay(s, y, f) ==> x == y
  }

  ghost predicate AtMostOne(s: State) {
    forall x: Stake, y: Stake, f: FamilyId :: OnlyOne(s, x, y, f)
  }

  ghost predicate Inv(s: State) {
    Known(s) && (forall h: Hash :: UnusedListed(s, h)) && AtMostOne(s)
  }

  lemma {:induction false} LoginKeepsInv(s: State, family: FamilyId, h: Hash, signed: nat, ttl: nat)
    requires Inv(s) && family !in s.ids && h !in s.hashes
    ensures Inv(CreatePair(s, family, h, signed, ttl))
  {
    var s' := CreatePair(s, family, h, signed, ttl);
    forall p: Reader ensures ReaderKnown(s', p) { assert ReaderKnown(s, p); }
    forall g: Hash ensures UnusedListed(s', g) { assert UnusedListed(s, g); }
    forall x: Stake, y: Stake, f: FamilyId ensures OnlyOne(s', x, y, f) {
      assert OnlyOne(s, x, y, f);
      assert x.Pending? ==> ReaderKnown(s, x.reader);
      assert y.Pending? ==> ReaderKnown(s, y.reader);
    }
  }

  /** The mark of a record still stored unused turns the family's usable token into a successor to be issued. */
  lemma {:induction false} MarkKeepsInv(s: State, p: Reader)
    requires Inv(s) && p in s.readers && s.readers[p].HasRead?
    requires UnusedIn(s, s.readers[p].h, s.readers[p].record.family)
    ensures var x := s.readers[p]; Inv(MarkUsed(s, x.h, x.record).(readers := s.readers[p := Marked(x.record.family)]))
  {
    var h, record := s.readers[p].h, s.readers[p].record;
    var s' := MarkUsed(s, h, record).(readers := s.readers[p := Marked(record.family)]);
    assert ReaderKnown(s, p) && UnusedListed(s, h);
    forall q: Reader ensures ReaderKnown(s', q) { assert ReaderKnown(s, q); }
    forall g: Hash ensures UnusedListed(s', g) {
      assert UnusedListed(s, g) && OnlyOne(s, Usable(h), Usable(g), record.family);
    }
    forall x: Stake, y: Stake, f: FamilyId ensures OnlyOne(s', x, y, f) {
      assert OnlyOne(s, x, y, f) && OnlyOne(s, Usable(h), x, f) && OnlyOne(s, Usable(h), y, f);
    }
  }

  /** Issuing turns it back into a usable token, whatever became of the family in between. */
  lemma {:induction false} IssueKeepsInv(s: State, p: Reader, h': Hash, signed: nat, ttl: nat)
    requires Inv(s) && Busy(s, p) && h' !in s.hashes
    ensures Inv(CreatePair(s, s.readers[p].family, h', signed, ttl).(readers := s.readers - {p}))
  {
    var family := s.readers[p].family;
    var s' := CreatePair(s, family, h', signed, ttl).(readers := s.readers - {p});
    assert ReaderKnown(s, p);
    forall q: Reader ensures ReaderKnown(s', q) { assert ReaderKnown(s, q); }
    forall g: Hash ensures UnusedListed(s', g) {
      assert UnusedListed(s, g) && OnlyOne(s, Pending(p), Usable(g), family);
    }
    forall x: Stake, y: Stake, f: FamilyId ensures OnlyOne(s', x, y, f) {
      assert OnlyOne(s, x, y, f) && OnlyOne(s, Pending(p), x, f) && OnlyOne(s, Pending(p), y, f);
    }
  }

  /** A rotation from a record that is stored unused, whatever the new lifetime. */
  lemma {:induction false} RotateKeepsInv(s: State, h: Hash, h': Hash, signed: nat, ttl: nat)
    requires Inv(s) && LiveToken(s, h) && !s.tokens[h].used && h' !in s.hashes
    ensures Inv(Rotate(s, h, s.tokens[h], h', signed, ttl))
  {
    var family := s.tokens[h].family;
    var s' := Rotate(s, h, s.tokens[h], h', signed, ttl);
    assert UnusedListed(s, h);
    assert s'.families[family].members == s.families[family].members + {h, h'};
    forall q: Reader ensures ReaderKnown(s', q) { assert ReaderKnown(s, q); }
    forall g: Hash ensures UnusedListed(s', g) {
      assert UnusedListed(s, g) && OnlyOne(s, Usable(h), Usable(g), family);
    }
    forall x: Stake, y: Stake, f: FamilyId ensures OnlyOne(s', x, y, f) {
      assert OnlyOne(s, x, y, f) && OnlyOne(s, Usable(h), x, f) && OnlyOne(s, Usable(h), y, f);
    }
  }

  /** Taking tokens away, and a family set only together with its unused tokens. */
  lemma {:induction false} RemovalKeepsInv(s: State, s': State)
    requires Inv(s) && s'.now == s.now && s'.hashes == s.hashes && s'.ids == s.ids && s'.readers == s.readers
    requires s'.tokens.Keys <= s.tokens.Keys && forall h :: h in s'.tokens ==> s'.tokens[h] == s.tokens[h]
    requires s'.families.Keys <= s.families.Keys && forall f :: f in s'.families ==> s'.families[f] == s.families[f]
    requires forall h: Hash, f :: UnusedIn(s', h, f) ==> f in s'.families
    ensures Inv(s')
  {
    forall p: Reader ensures ReaderKnown(s', p) { assert ReaderKnown(s, p); }
    forall h: Hash ensures UnusedListed(s', h) {
      assert UnusedListed(s, h);
      assert LiveToken(s', h) && !s'.tokens[h].used ==> UnusedIn(s', h, s'.tokens[h].family);
    }
    forall x: Stake, y: Stake, f: FamilyId ensures OnlyOne(s', x, y, f) { assert OnlyOne(s, x, y, f); }
  }

  ghost predicate NoUnused(s: State, f: FamilyId) {
    f in s.ids && forall h: Hash :: !UnusedIn(s, h, f)
  }

  lemma {:induction false} RevokeKeepsInv(s: State, f: FamilyId)
    requires Inv(s)
    ensures Inv(RevokeFamily(s, f)) && forall h: Hash :: !UnusedIn(RevokeFamily(s, f), h, f)
  {
    var s' := RevokeFamily(s, f);
    forall h: Hash ensures !UnusedIn(s', h, f) { assert UnusedListed(s, h); }
    forall h: Hash, g | UnusedIn(s', h, g) ensures g in s'.families { assert UnusedListed(s, h); }
    RemovalKeepsInv(s, s');
  }

  lemma {:induction false} SignOutKeepsInv(s: State, h: Hash)
    requires Inv(s)
    ensures Inv(s.(tokens := s.tokens - {h}))
  {
    var s' := s.(tokens := s.tokens - {h});
    forall g: Hash, f | UnusedIn(s', g, f) ensures f in s'.families { assert UnusedListed(s, g); }
    RemovalKeepsInv(s, s');
  }

  /** Passing time and reading change nothing that is in play. */
  lemma {:induction false} IdleKeepsInv(s: State, s': State)
    requires Inv(s) && s.now <= s'.now && s'.tokens == s.tokens && s'.families == s.families
    requires s'.hashes == s.hashes && s'.ids == s.ids
    requires forall p: Reader :: ReaderKnown(s', p) && (Busy(s', p) ==> Busy(s, p) && s'.readers[p] == s.readers[p])
    ensures Inv(s')
  {
    forall h: Hash ensures UnusedListed(s', h) { assert UnusedListed(s, h); }
    forall x: Stake, y: Stake, f: FamilyId ensures OnlyOne(s', x, y, f) { assert OnlyOne(s, x, y, f); }
  }

  lemma {:induction false} StepKeepsInv(s: State, step: Step, s': State)
    requires Inv(s) && Next(s, step, s') && InTime(s, step)
    ensures Inv(s')
  {
    match step
    case Tick(_) =>
      forall p: Reader ensures ReaderKnown(s', p) { assert ReaderKnown(s, p); }
      IdleKeepsInv(s, s');
    case Login(family, h, signed, ttl) => LoginKeepsInv(s, family, h, signed, ttl);
    case Present(h, h', signed, ttl) =>
      match RefreshReply(s, h) {
        case Rotated => RotateKeepsInv(s, h, h', signed, ttl);
        case ReuseDetected => RevokeKeepsInv(s, s.tokens[h].family);
        case Expired => SignOutKeepsInv(s, h);
        case Invalid =>
      }
    case Read(reader, h) =>
      forall p: Reader ensures ReaderKnown(s', p) { assert ReaderKnown(s, p); }
      IdleKeepsInv(s, s');
    case Mark(reader) => MarkKeepsInv(s, reader);
    case Issue(reader, h', signed, ttl) => IssueKeepsInv(s, reader, h', signed, ttl);
    case Revoke(family) => RevokeKeepsInv(s, family);
    case SignOut(h) => SignOutKeepsInv(s, h);
  }

  lemma {:induction false} RunKeepsInv(ss: seq<State>, steps: seq<Step>, n: nat)
    requires TimelyRun(ss, steps) && n < |ss|
    ensures Inv(ss[n])
  {
    if n > 0 {
      RunKeepsInv(ss, steps, n - 1);
      assert StepAt(ss, steps, n - 1) && InTime(ss[n - 1], steps[n - 1]);
      StepKeepsInv(ss[n - 1], steps[n - 1], ss[n]);
    }
  }

  // ---------------------------------------------------------------- the promises, for every lifetime

  /**
   * A family never has more than one unused live token or successor still to be issued, and its set lists the unused
   * token and outlives it.
   */
  lemma {:induction false} OneUnusedTokenPerFamily(
    ss: seq<State>, steps: seq<Step>, n: nat, x: Stake, y: Stake, f: FamilyId)
    requires TimelyRun(ss, steps) && n < |ss| && InPlay(ss[n], x, f) && InPlay(ss[n], y, f)
    ensures x == y && (x.Usable? ==> Listed(ss[n], x.h))
  {
    RunKeepsInv(ss, steps, n);
    assert OnlyOne(ss[n], x, y, f);
    assert x.Usable? ==> UnusedListed(ss[n], x.h);
  }

  /**
   * What presenting a token does: an unknown one nothing; a used one revokes its family; an unused one past its own
   * expiry is deleted; any other is marked used for the grace period and followed by a fresh unused one.
   */
  lemma {:induction false} PresentOutcome(s: State, h: Hash, h': Hash, signed: nat, ttl: nat)
    requires Inv(s) && h' !in s.hashes
    ensures var live := h in s.tokens && s.now < s.tokens[h].until;
      var s', reply := Refresh(s, h, h', signed, ttl), RefreshReply(s, h);
      && (reply == Invalid <==> !live) && (!live ==> s' == s)
      && (reply == ReuseDetected <==> live && s.tokens[h].used)
      && (reply == Expired <==> live && !s.tokens[h].used && s.tokens[h].expiresAt < s.now)
      && (reply == Expired ==> s' == s.(tokens := s.tokens - {h}))
      && (reply == Rotated ==>
           var f := s.tokens[h].family;
           && s'.tokens == s.tokens[h := Token(f, true, s.tokens[h].expiresAt, s.now + 60)]
                                   [h' := Token(f, false, signed + ttl, s.now + ttl)]
           && f in s'.families && {h, h'} <= s'.families[f].members && s'.families[f].until == s.now + ttl)
  {
  }

  /** What else there is to do with tokens: a new login, a mark, an issue and a sign-out, in full. */
  lemma {:induction false} StoresInFull(s: State, step: Step, s': State)
    requires Inv(s) && Next(s, step, s')
    ensures step.Login? ==>
      s'.tokens == s.tokens[step.h := Token(step.family, false, step.signed + step.ttl, s.now + step.ttl)]
    ensures step.Mark? ==>
      var x := s.readers[step.reader];
      s'.tokens == s.tokens[x.h := Token(x.record.family, true, x.record.expiresAt, s.now + 60)]
    ensures step.Issue? ==>
      var token := Token(s.readers[step.reader].family, false, step.signed + step.ttl, s.now + step.ttl);
      s'.tokens == s.tokens[step.h' := token]
    ensures step.SignOut? ==>
      && !LiveToken(s', step.h)
      && forall g: Hash :: g != step.h ==> (LiveToken(s', g) <==> LiveToken(s, g))
  {
  }

  /** Revoking a family, by hand or after a reuse, leaves every token of the other families as it was. */
  lemma {:induction false} RevocationSparesOthers(s: State, f: FamilyId, g: Hash)
    requires Inv(s) && g in s.tokens && s.tokens[g].family != f
    ensures g in RevokeFamily(s, f).tokens && RevokeFamily(s, f).tokens[g] == s.tokens[g]
  {
  }

  /** The family's unexpired record lists the token, so that a revocation would delete it. */
  predicate Filed(s: State, f: FamilyId, g: Hash) {
    f in s.families && s.now < s.families[f].until && g in s.families[f].members
  }

  /**
   * A token is filed by the write that stores it and stays filed as long as the family's record: a record that lapsed
   * starts again from nothing, and a revocation leaves none.
   */
  lemma {:induction false} FiledAfterStep(s: State, step: Step, s': State, f: FamilyId, g: Hash)
    requires Next(s, step, s')
    ensures Filed(s', f, g) <==>
      match step
      case Tick(now) => Filed(s, f, g) && now < s.families[f].until
      case Login(family, h, _, ttl) => if f == family then ttl > 0 && (g == h || Filed(s, f, g)) else Filed(s, f, g)
      case Mark(reader) => Filed(s, f, g) || (f == s.readers[reader].record.family && g == s.readers[reader].h)
      case Issue(reader, h', _, ttl) =>
        if f == s.readers[reader].family then ttl > 0 && (g == h' || Filed(s, f, g)) else Filed(s, f, g)
      case Present(h, h', _, ttl) =>
        if !(LiveToken(s, h) && f == s.tokens[h].family) then Filed(s, f, g)
        else if s.tokens[h].used then false
        else if s.tokens[h].expiresAt < s.now then Filed(s, f, g)
        else ttl > 0 && (g == h || g == h' || Filed(s, f, g))
      case Revoke(family) => f != family && Filed(s, f, g)
      case _ => Filed(s, f, g)
  {
  }

  /** The step issues the successor of a token of the family, with a lifetime. */
  predicate Issues(s: State, step: Step, f: FamilyId) {
    step.Issue? && InPlay(s, Pending(step.reader), f) && step.ttl > 0
  }

  lemma {:induction false} NoPendingAdded(s: State, step: Step, s': State, f: FamilyId)
    requires Inv(s) && Next(s, step, s') && InTime(s, step) && NoUnused(s, f)
    ensures forall p: Reader :: InPlay(s', Pending(p), f) ==> InPlay(s, Pending(p), f)
  {
    if step.Mark? { assert !UnusedIn(s, s.readers[step.reader].h, f); }
  }

  lemma {:induction false} NoUnusedStep(s: State, step: Step, s': State, f: FamilyId)
    requires Inv(s) && Next(s, step, s') && InTime(s, step) && NoUnused(s, f)
    ensures NoUnused(s', f) <==> !Issues(s, step, f)
    ensures forall p: Reader :: InPlay(s', Pending(p), f) ==> InPlay(s, Pending(p), f)
  {
    NoPendingAdded(s, step, s', f);
    if Issues(s, step, f) {
      assert UnusedIn(s', step.h', f);
    } else {
      forall h: Hash ensures !UnusedIn(s', h, f) {
        assert !UnusedIn(s, h, f);
        if step.Present? { assert !UnusedIn(s, step.h, f); }
      }
    }
  }

  /** A family with nothing in play never has a usable token again. */
  lemma {:induction false} NothingInPlayStays(ss: seq<State>, steps: seq<Step>, i: nat, j: nat, f: FamilyId)
    requires TimelyRun(ss, steps) && i <= j < |ss| && f in ss[i].ids && forall x: Stake :: !InPlay(ss[i], x, f)
    ensures NoUnused(ss[j], f) && forall x: Stake :: !InPlay(ss[j], x, f)
    decreases j
  {
    if i == j {
      forall h: Hash ensures !UnusedIn(ss[i], h, f) { assert !InPlay(ss[i], Usable(h), f); }
    } else {
      NothingInPlayStays(ss, steps, i, j - 1, f);
      RunKeepsInv(ss, steps, j - 1);
      assert StepAt(ss, steps, j - 1) && InTime(ss[j - 1], steps[j - 1]);
      NoUnusedStep(ss[j - 1], steps[j - 1], ss[j], f);
    }
  }

  predicate PresentsUsed(s: State, step: Step, f: FamilyId) {
    step.Present? && LiveIn(s, step.h, f) && s.tokens[step.h].used
  }

  /** Step i presents a used token that is still recorded, or revokes the family after having read such a token. */
  ghost predicate ReusedAt(ss: seq<State>, steps: seq<Step>, i: nat, f: FamilyId)
    requires |ss| == |steps| + 1
  {
    i < |steps| && (PresentsUsed(ss[i], steps[i], f) || (steps[i] == Revoke(f) && f in ss[i].ids))
  }

  /** A refresh of the family that had marked its token before step i issues the successor at step k. */
  ghost predicate IssuesAfter(ss: seq<State>, steps: seq<Step>, i: nat, k: nat, f: FamilyId)
    requires |ss| == |steps| + 1
  {
    && i < k < |steps| && Issues(ss[k], steps[k], f)
    && forall m :: i <= m <= k ==> InPlay(ss[m], Pending(steps[k].reader), f)
  }

  ghost predicate AnyIssuesAfter(ss: seq<State>, steps: seq<Step>, i: nat, j: nat, f: FamilyId)
    requires |ss| == |steps| + 1
  {
    exists k :: i < k < j && IssuesAfter(ss, steps, i, k, f)
  }

  /** Without such an issue, nothing becomes usable and whoever is about to issue was so at the reuse already. */
  lemma {:induction false} QuietAfterReuse(ss: seq<State>, steps: seq<Step>, i: nat, j: nat, f: FamilyId)
    requires TimelyRun(ss, steps) && i < j < |ss| && ReusedAt(ss, steps, i, f) && !AnyIssuesAfter(ss, steps, i, j, f)
    ensures NoUnused(ss[j], f)
    ensures forall p: Reader, m :: i <= m <= j && InPlay(ss[j], Pending(p), f) ==> InPlay(ss[m], Pending(p), f)
    decreases j
  {
    RunKeepsInv(ss, steps, j - 1);
    assert StepAt(ss, steps, j - 1) && InTime(ss[j - 1], steps[j - 1]);
    if j == i + 1 {
      RevokeKeepsInv(ss[i], f);
    } else {
      QuietAfterReuse(ss, steps, i, j - 1, f);
      assert !IssuesAfter(ss, steps, i, j - 1, f);
      NoUnusedStep(ss[j - 1], steps[j - 1], ss[j], f);
    }
  }

  /**
   * After a used token is presented, its family stays without a usable token exactly as long as no refresh that had
   * marked its token before then issues the successor.
   */
  lemma {:induction false} ReuseHoldsIffNoneIssuesAfter(ss: seq<State>, steps: seq<Step>, i: nat, j: nat, f: FamilyId)
    requires TimelyRun(ss, steps) && i < j < |ss| && ReusedAt(ss, steps, i, f)
    ensures (forall m :: i < m <= j ==> NoUnused(ss[m], f)) <==> !AnyIssuesAfter(ss, steps, i, j, f)
  {
    if k :| i < k < j && IssuesAfter(ss, steps, i, k, f) {
      assert StepAt(ss, steps, k);
      assert UnusedIn(ss[k + 1], steps[k].h', f) && !NoUnused(ss[k + 1], f);
    } else {
      forall m | i < m <= j ensures NoUnused(ss[m], f) { QuietAfterReuse(ss, steps, i, m, f); }
    }
  }

  /** In particular for good, if no refresh of the family is between its two stores when the token is presented. */
  lemma {:induction false} ReuseLeavesNothingUsable(ss: seq<State>, steps: seq<Step>, i: nat, j: nat, f: FamilyId)
    requires TimelyRun(ss, steps) && i < j < |ss| && ReusedAt(ss, steps, i, f)
    requires forall p: Reader :: !InPlay(ss[i], Pending(p), f)
    ensures NoUnused(ss[j], f)
  {
    assert forall k :: i < k < j ==> !IssuesAfter(ss, steps, i, k, f);
    QuietAfterReuse(ss, steps, i, j, f);
  }

  // ---------------------------------------------------------------- and no used record is left either

  /** A live token, used or not, is listed. */
  ghost predicate Tracked(s: State, h: Hash) {
    LiveToken(s, h) ==> Listed(s, h) && (s.tokens[h].used ==> s.tokens[h].until <= s.now + GRACE)
  }

  ghost predicate AllTracked(s: State) {
    forall h: Hash :: Tracked(s, h)
  }

  lemma {:induction false} MarkKeepsTracked(s: State, h: Hash, record: Token)
    requires Inv(s) && AllTracked(s) && UnusedIn(s, h, record.family)
    ensures AllTracked(MarkUsed(s, h, record))
  {
    var s' := MarkUsed(s, h, record);
    assert Tracked(s, h);
    forall g: Hash ensures Tracked(s', g) {
      assert Tracked(s, g) && OnlyOne(s, Usable(h), Usable(g), record.family);
    }
  }

  /** A new pair keeps the used records listed when it lives at least as long and nothing else is unused. */
  lemma {:induction false} CreateKeepsTracked(s: State, f: FamilyId, h': Hash, signed: nat, ttl: nat)
    requires Known(s) && AllTracked(s) && h' !in s.hashes && ttl >= GRACE && forall g: Hash :: !UnusedIn(s, g, f)
    ensures AllTracked(CreatePair(s, f, h', signed, ttl))
  {
    var s' := CreatePair(s, f, h', signed, ttl);
    forall g: Hash ensures Tracked(s', g) { assert Tracked(s, g) && !UnusedIn(s, g, f); }
  }

  lemma {:induction false} RotateKeepsTracked(s: State, h: Hash, h': Hash, signed: nat, ttl: nat)
    requires Inv(s) && AllTracked(s) && LiveToken(s, h) && !s.tokens[h].used && h' !in s.hashes && ttl >= GRACE
    ensures AllTracked(Rotate(s, h, s.tokens[h], h', signed, ttl))
  {
    var f, s1 := s.tokens[h].family, MarkUsed(s, h, s.tokens[h]);
    MarkKeepsTracked(s, h, s.tokens[h]);
    forall g: Hash ensures !UnusedIn(s1, g, f) { assert OnlyOne(s, Usable(h), Usable(g), f); }
    forall p: Reader ensures ReaderKnown(s1, p) { assert ReaderKnown(s, p); }
    assert UnusedListed(s, h);
    CreateKeepsTracked(s1, f, h', signed, ttl);
  }

  /** Who is refreshing takes no part in what is stored. */
  lemma {:induction false} SameStoreTracked(s: State, s': State)
    requires AllTracked(s) && s.now <= s'.now && s'.tokens == s.tokens && s'.families == s.families
    ensures AllTracked(s')
  {
    forall g: Hash ensures Tracked(s', g) { assert Tracked(s, g); }
  }

  lemma {:induction false} StepKeepsTracked(s: State, step: Step, s': State)
    requires Inv(s) && AllTracked(s) && Next(s, step, s') && InTime(s, step)
    requires step.Present? || step.Issue? ==> step.ttl >= GRACE
    ensures AllTracked(s')
  {
    if step.Present? && RefreshReply(s, step.h) == Rotated {
      RotateKeepsTracked(s, step.h, step.h', step.signed, step.ttl);
    } else if step.Mark? {
      var x := s.readers[step.reader];
      MarkKeepsTracked(s, x.h, x.record);
      SameStoreTracked(MarkUsed(s, x.h, x.record), s');
    } else if step.Issue? {
      var f := s.readers[step.reader].family;
      forall g: Hash ensures !UnusedIn(s, g, f) { assert OnlyOne(s, Pending(step.reader), Usable(g), f); }
      CreateKeepsTracked(s, f, step.h', step.signed, step.ttl);
      SameStoreTracked(CreatePair(s, f, step.h', step.signed, step.ttl), s');
    } else {
      forall g: Hash ensures Tracked(s', g) { assert Tracked(s, g); }
    }
  }

  lemma {:induction false} RunKeepsTracked(ss: seq<State>, steps: seq<Step>, n: nat)
    requires TimelyRun(ss, steps) && LongEnough(steps) && n < |ss|
    ensures AllTracked(ss[n])
  {
    if n > 0 {
      RunKeepsTracked(ss, steps, n - 1);
      RunKeepsInv(ss, steps, n - 1);
      assert StepAt(ss, steps, n - 1) && InTime(ss[n - 1], steps[n - 1]);
      StepKeepsTracked(ss[n - 1], steps[n - 1], ss[n]);
    }
  }

  /** An issued family without any live token, used or not. */
  ghost predicate Dead(s: State, f: FamilyId) {
    f in s.ids && forall h: Hash :: !LiveIn(s, h, f)
  }

  /** Revoking a family leaves no record of it exactly when its set lists all its live tokens. */
  lemma {:induction false} RevokedIsDeadIffListed(s: State, f: FamilyId)
    requires Inv(s) && f in s.ids
    ensures Dead(RevokeFamily(s, f), f)
       <==> forall h: Hash :: LiveIn(s, h, f) ==> LiveFamily(s, f) && h in s.families[f].members
  {
    var s' := RevokeFamily(s, f);
    if Dead(s', f) {
      forall h: Hash | LiveIn(s, h, f) ensures LiveFamily(s, f) && h in s.families[f].members {
        assert !LiveIn(s', h, f);
      }
    }
  }

  lemma {:induction false} DeadStep(s: State, step: Step, s': State, f: FamilyId)
    requires Inv(s) && Next(s, step, s') && InTime(s, step) && Dead(s, f)
    ensures Dead(s', f) <==> !Issues(s, step, f)
  {
    if Issues(s, step, f) {
      assert LiveIn(s', step.h', f);
    } else {
      forall h: Hash ensures !LiveIn(s', h, f) {
        assert !LiveIn(s, h, f);
        if step.Present? { assert !LiveIn(s, step.h, f); }
        if step.Mark? { assert !LiveIn(s, s.readers[step.reader].h, f); }
      }
    }
  }

  /**
   * A family without any record has none up to j exactly as long as no pending successor is issued, for every lifetime.
   */
  lemma {:induction false} DeadStaysDeadIffNoneIssues(ss: seq<State>, steps: seq<Step>, i: nat, j: nat, f: FamilyId)
    requires TimelyRun(ss, steps) && i <= j < |ss| && Dead(ss[i], f)
    ensures (forall m :: i <= m <= j ==> Dead(ss[m], f)) <==> (forall k :: i <= k < j ==> !Issues(ss[k], steps[k], f))
    decreases j
  {
    if i < j {
      DeadStaysDeadIffNoneIssues(ss, steps, i, j - 1, f);
      RunKeepsInv(ss, steps, j - 1);
      assert StepAt(ss, steps, j - 1) && InTime(ss[j - 1], steps[j - 1]);
      if Dead(ss[j - 1], f) { DeadStep(ss[j - 1], steps[j - 1], ss[j], f); }
    }
  }

  /**
   * With lifetimes of at least the grace period, a reuse leaves no record of the family at all, and there is none
   * exactly as long as no refresh that had marked its token before then issues the successor.
   */
  lemma {:induction false} ReuseKillsTheFamilyIff(ss: seq<State>, steps: seq<Step>, i: nat, j: nat, f: FamilyId)
    requires TimelyRun(ss, steps) && LongEnough(steps) && i < j < |ss| && ReusedAt(ss, steps, i, f)
    ensures Dead(ss[i + 1], f)
    ensures (forall m :: i < m <= j ==> Dead(ss[m], f)) <==> !AnyIssuesAfter(ss, steps, i, j, f)
  {
    RunKeepsInv(ss, steps, i);
    RunKeepsTracked(ss, steps, i);
    assert StepAt(ss, steps, i);
    forall h: Hash | LiveIn(ss[i], h, f) ensures LiveFamily(ss[i], f) && h in ss[i].families[f].members {
      assert Tracked(ss[i], h);
    }
    RevokedIsDeadIffListed(ss[i], f);
    DeadStaysDeadIffNoneIssues(ss, steps, i + 1, j, f);
    if AnyIssuesAfter(ss, steps, i, j, f) {
      var k :| i < k < j && IssuesAfter(ss, steps, i, k, f);
      assert Issues(ss[k], steps[k], f);
    } else {
      forall k | i + 1 <= k < j ensures !Issues(ss[k], steps[k], f) {
        assert !AnyIssuesAfter(ss, steps, i, k, f);
        QuietAfterReuse(ss, steps, i, k, f);
        assert !IssuesAfter(ss, steps, i, k, f);
      }
    }
  }

  // ---------------------------------------------------------------- what the hypotheses are for

  /**
   * A rotation leaves the presented token listed for as long as it lives exactly when the new lifetime is no shorter
   * than the grace period.
   */
  lemma {:induction false} TrackedAfterRotationIff(s: State, h: Hash, h': Hash, signed: nat, ttl: nat)
    requires Inv(s) && LiveToken(s, h) && !s.tokens[h].used && h' !in s.hashes
    ensures Tracked(Rotate(s, h, s.tokens[h], h', signed, ttl), h) <==> ttl >= GRACE
  {
    assert h in s.hashes && h != h';
  }

  /** With a shorter lifetime there is a time when a reuse is reported but leaves the used record in place. */
  lemma {:induction false} ShortLifetimeKeepsTheRecord(
    s: State, h: Hash, h': Hash, signed: nat, ttl: nat, h'': Hash, signed': nat, ttl': nat)
    requires Inv(s) && LiveToken(s, h) && !s.tokens[h].used && h' !in s.hashes && ttl < GRACE
    ensures var late := Rotate(s, h, s.tokens[h], h', signed, ttl).(now := s.now + ttl);
      RefreshReply(late, h) == ReuseDetected && Refresh(late, h, h'', signed', ttl') == late && LiveToken(late, h)
  {
    assert h in s.hashes && h != h';
  }

  /** The family has an unused live token or a successor still to be issued. */
  ghost predicate Alive(s: State, f: FamilyId) {
    exists x: Stake :: InPlay(s, x, f)
  }

  /**
   * A mark neither doubles what the family has in play nor revives a family that had nothing exactly when it comes in
   * time: the record it was read from is still stored, live and unused.
   */
  lemma {:induction false} MarkIsSafeIffInTime(s: State, p: Reader, s': State)
    requires Inv(s) && Next(s, Mark(p), s')
    ensures var f := s.readers[p].record.family;
      Alive(s, f) && AtMostOne(s') <==> UnusedIn(s, s.readers[p].h, f)
  {
    var h, f := s.readers[p].h, s.readers[p].record.family;
    assert ReaderKnown(s, p) && InPlay(s', Pending(p), f);
    if UnusedIn(s, h, f) {
      assert InPlay(s, Usable(h), f);
      MarkKeepsInv(s, p);
    } else if x: Stake :| InPlay(s, x, f) {
      assert InPlay(s', x, f) && x != Pending(p) && !OnlyOne(s', x, Pending(p), f);
    }
  }

  lemma {:induction false} Extend(ss: seq<State>, steps: seq<Step>, step: Step, s': State)
    returns (ss': seq<State>, steps': seq<Step>)
    requires Run(ss, steps) && Next(ss[|steps|], step, s')
    ensures Run(ss', steps') && ss'[|steps'|] == s' && |steps'| == |steps| + 1
    ensures ss'[..|ss|] == ss && steps' == steps + [step]
  {
    ss', steps' := ss + [s'], steps + [step];
    forall k | 0 <= k < |steps'| ensures StepAt(ss', steps', k) {
      assert k < |steps| ==> StepAt(ss, steps, k);
    }
  }

  function FirstRecord(ttl: nat): Token { Token(0, false, ttl, ttl) }

  function LoggedIn(ttl: nat, readers: map<Reader, Phase>): State {
    State(0, map[0 := FirstRecord(ttl)], map[0 := Family({0}, ttl)], readers, map[0 := 0], {0})
  }

  lemma {:induction false} BothRead(ttl: nat) returns (ss: seq<State>, steps: seq<Step>)
    requires ttl > 0
    ensures Run(ss, steps)
    ensures ss[|steps|] == LoggedIn(ttl, map[0 := HasRead(0, FirstRecord(ttl)), 1 := HasRead(0, FirstRecord(ttl))])
  {
    var x := HasRead(0, FirstRecord(ttl));
    var s0 := State(0, map[], map[], map[], map[], {});
    var s1 := CreatePair(s0, 0, 0, 0, ttl);
    assert s1.families[0].members == {0} && s1.ids == {0} && s1 == LoggedIn(ttl, map[]);
    ss, steps := [s0], [];
    ss, steps := Extend(ss, steps, Login(0, 0, 0, ttl), LoggedIn(ttl, map[]));
    ss, steps := Extend(ss, steps, Read(0, 0), LoggedIn(ttl, map[0 := x]));
    ss, steps := Extend(ss, steps, Read(1, 0), LoggedIn(ttl, map[0 := x, 1 := x]));
  }

  lemma {:induction false} BothMark(ttl: nat) returns (ss: seq<State>, steps: seq<Step>)
    requires ttl > 0
    ensures Run(ss, steps)
    ensures var s := ss[|steps|];
      s.now == 0 && s.readers == map[0 := Marked(0), 1 := Marked(0)] && s.hashes == map[0 := 0]
  {
    ss, steps := BothRead(ttl);
    var record, s3 := FirstRecord(ttl), ss[|steps|];
    var s4 := MarkUsed(s3, 0, record).(readers := s3.readers[0 := Marked(0)]);
    ss, steps := Extend(ss, steps, Mark(0), s4);
    var s5 := MarkUsed(s4, 0, record).(readers := s4.readers[1 := Marked(0)]);
    ss, steps := Extend(ss, steps, Mark(1), s5);
  }

  /** Two refreshes that both read before either marks leave two usable tokens, for every lifetime. */
  lemma {:induction false} TwoReadersGetTwoTokens(ttl: nat) returns (ss: seq<State>, steps: seq<Step>)
    requires ttl > 0
    ensures Run(ss, steps) && UnusedIn(ss[|steps|], 1, 0) && UnusedIn(ss[|steps|], 2, 0)
  {
    ss, steps := BothMark(ttl);
    var s5 := ss[|steps|];
    var s6 := CreatePair(s5, 0, 1, 0, ttl).(readers := s5.readers - {0});
    ss, steps := Extend(ss, steps, Issue(0, 1, 0, ttl), s6);
    var s7 := CreatePair(s6, 0, 2, 0, ttl).(readers := s6.readers - {1});
    ss, steps := Extend(ss, steps, Issue(1, 2, 0, ttl), s7);
  }

  lemma {:induction false} TimelyExtend(ss: seq<State>, steps: seq<Step>, step: Step, s': State)
    returns (ss': seq<State>, steps': seq<Step>)
    requires TimelyRun(ss, steps) && Next(ss[|steps|], step, s') && InTime(ss[|steps|], step)
    ensures TimelyRun(ss', steps') && ss'[|steps'|] == s' && steps' == steps + [step] && ss'[..|ss|] == ss
  {
    ss', steps' := Extend(ss, steps, step, s');
    forall k | 0 <= k < |steps'| ensures InTime(ss'[k], steps'[k]) {
      assert k < |steps| ==> ss'[k] == ss'[..|ss|][k] && InTime(ss[k], steps[k]);
    }
  }

  /** One refresh has marked its token, in time. */
  lemma {:induction false} MarkedRun(ttl: nat) returns (ss: seq<State>, steps: seq<Step>)
    requires ttl > 0
    ensures TimelyRun(ss, steps)
    ensures ss[|steps|] == MarkUsed(LoggedIn(ttl, map[0 := Marked(0)]), 0, FirstRecord(ttl))
  {
    var s0 := State(0, map[], map[], map[], map[], {});
    var s1 := CreatePair(s0, 0, 0, 0, ttl);
    assert s1.families[0].members == {0} && s1.ids == {0} && s1 == LoggedIn(ttl, map[]);
    ss, steps := [s0], [];
    ss, steps := TimelyExtend(ss, steps, Login(0, 0, 0, ttl), LoggedIn(ttl, map[]));
    ss, steps := TimelyExtend(ss, steps, Read(0, 0), LoggedIn(ttl, map[0 := HasRead(0, FirstRecord(ttl))]));
    ss, steps := TimelyExtend(ss, steps, Mark(0), MarkUsed(LoggedIn(ttl, map[0 := Marked(0)]), 0, FirstRecord(ttl)));
  }

  /**
   * The same token presented again between the two stores is detected as reuse and the family revoked; the first
   * refresh then issues a usable successor. All marks came in time.
   */
  lemma {:induction false} ReuseBetweenTheStores(ttl: nat) returns (ss: seq<State>, steps: seq<Step>, i: nat)
    requires ttl > 0
    ensures TimelyRun(ss, steps) && i < |steps| && ReusedAt(ss, steps, i, 0)
    ensures NoUnused(ss[i + 1], 0) && UnusedIn(ss[|steps|], 1, 0)
  {
    ss, steps := MarkedRun(ttl);
    i := |steps|;
    var s3 := ss[i];
    var s4 := Refresh(s3, 0, 9, 0, ttl);
    assert s3.families[0].members == {0} && s4.tokens == map[];
    ss, steps := TimelyExtend(ss, steps, Present(0, 9, 0, ttl), s4);
    assert ss[i] == ss[..i + 1][i] == s3;
    var s5 := CreatePair(s4, 0, 1, 0, ttl).(readers := s4.readers - {0});
    ss, steps := TimelyExtend(ss, steps, Issue(0, 1, 0, ttl), s5);
    assert ss[i] == ss[..i + 2][i] && ss[i + 1] == ss[..i + 2][i + 1];
  }

  // ---------------------------------------------------------------- the store itself

  class TokenStore {
    var tokens: map<Hash, Token>
    var families: map<FamilyId, Family>
    ghost var hashes: map<Hash, FamilyId>
    ghost var ids: set<FamilyId>

    ghost function At(now: nat): State reads this {
      State(now, tokens, families, map[], hashes, ids)
    }

    constructor ()
      ensures At(0) == State(0, map[], map[], map[], map[], {})
    {
      tokens, families, hashes, ids := map[], map[], map[], {};
    }

    method Store(now: nat, h: Hash, family: FamilyId, used: bool, expiresAt: nat, ttl: nat)
      modifies this`tokens, this`families
      ensures At(now) == StoreToken(old(At(now)), h, family, used, expiresAt, ttl)
    {
      tokens := tokens[h := Token(family, used, expiresAt, now + ttl)];
      var members := if family in families && now < families[family].until then families[family].members else {};
      families := families[family := Family(members + {h}, now + ttl)];
    }

    method Create(now: nat, family: FamilyId, h: Hash, signed: nat, ttl: nat)
      modifies this
      ensures At(now) == CreatePair(old(At(now)), family, h, signed, ttl)
    {
      Store(now, h, family, false, signed + ttl, ttl);
      hashes, ids := hashes[h := family], ids + {family};
    }

    method RevokeAll(now: nat, family: FamilyId)
      modifies this`tokens, this`families
      ensures At(now) == RevokeFamily(old(At(now)), family)
    {
      if family !in families || now >= families[family].until { return; }
      var members := families[family].members;
      var left := members;
      while left != {}
        invariant left <= members
        invariant tokens == old(tokens) - (members - left)
        invariant families == old(families)
        decreases |left|
      {
        var h :| h in left;
        tokens := tokens - {h};
        left := left - {h};
        assert members - left == members - (left + {h}) + {h};
      }
      families := families - {family};
    }

    /** refreshTokens for the token with hash h; h' is the hash of the token drawn for its successor. */
    method RefreshTokens(now: nat, h: Hash, h': Hash, signed: nat, ttl: nat) returns (reply: Reply)
      modifies this
      ensures reply == RefreshReply(old(At(now)), h)
      ensures At(now) == Refresh(old(At(now)), h, h', signed, ttl)
    {
      if h !in tokens || now >= tokens[h].until { return Invalid; }
      var record := tokens[h];
      if record.used {
        RevokeAll(now, record.family);
        return ReuseDetected;
      }
      if now > record.expiresAt {
        tokens := tokens - {h};
        return Expired;
      }
      Store(now, h, record.family, true, record.expiresAt, GRACE);
      Create(now, record.family, h', signed, ttl);
      return Rotated;
    }
  }
}
