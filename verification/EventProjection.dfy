/**
 * The projections the indexer derives from the event log: airdrop records, recipient records and
 * per-recipient claim lists. Each saved event rewrites one record of each kind from its old value.
 * The proofs view a whole batch as one transformer per record; those transformers are closed under
 * composition and idempotent, which is what makes replay after a crash safe.
 */
module EventProjection {
  import opened Prelude

  datatype EventName = AirdropCreated | RecipientAdded | TokenClaimed | AirdropExpired

  /** An empty `airdrop`, `recipient`, `creator` or `token` stands for a missing (falsy) one. */
  datatype Event = Event(
    id: string, name: EventName, ledger: nat, closedAt: string,
    airdrop: string, recipient: string, amount: Option<int>,
    creator: string, token: string, totalAmount: Option<int>, expiryLedger: Option<nat>,
    unclaimedAmount: Option<int>, dataLedger: Option<nat>)

  datatype Stamp = Stamp(ledger: nat, at: string)

  datatype AirdropStatus = Created | Active | Expired
  datatype Creation = Creation(creator: string, token: string, totalAmount: int, expiryLedger: nat, stamp: Stamp)
  datatype Expiration = Expiration(unclaimedAmount: Option<int>, stamp: Stamp)
  datatype Airdrop = Airdrop(status: Option<AirdropStatus>, creation: Option<Creation>,
    expiration: Option<Expiration>, updated: Stamp)

  datatype RecipientStatus = Pending | Claimed
  datatype Recipient = Recipient(status: Option<RecipientStatus>, amount: Option<int>, addedLedger: Option<nat>,
    claimed: Option<Stamp>, updated: Stamp)

  datatype Claim = Claim(eventId: string, airdrop: string, recipient: string, amount: Option<int>, stamp: Stamp)

  /** The recipients hash of airdrop `a` holds field `r` under the pair `(a, r)`. */
  datatype Projection = Projection(
    airdrops: map<string, Airdrop>,
    recipients: map<(string, string), Recipient>,
    claims: map<string, seq<Claim>>)

  function Get<K, V>(m: map<K, V>, k: K): Option<V> {
    if k in m then Some(m[k]) else None
  }

  function OrElse<T>(newer: Option<T>, older: Option<T>): Option<T> {
    if newer.Some? then newer else older
  }

  function StampOf(e: Event): Stamp { Stamp(e.ledger, e.closedAt) }

  function ClaimStamp(e: Event): Stamp {
    Stamp(if e.dataLedger.Some? then e.dataLedger.value else e.ledger, e.closedAt)
  }

  // ---------------------------------------------------------------- one event, as the code rewrites records

  predicate CompleteCreation(e: Event) {
    e.creator != "" && e.token != "" && e.totalAmount.Some? && e.expiryLedger.Some?
  }

  /** upsertAirdrop skips events without an airdrop and incomplete creations. */
  predicate TouchesAirdrop(e: Event, a: string) {
    e.airdrop != "" && e.airdrop == a && (e.name.AirdropCreated? ==> CompleteCreation(e))
  }

  function NextAirdrop(e: Event, existing: Option<Airdrop>): Airdrop
    requires TouchesAirdrop(e, e.airdrop)
  {
    var was := if existing.Some? then existing.value else Airdrop(None, None, None, StampOf(e));
    var next := was.(updated := StampOf(e));
    match e.name
    case AirdropCreated =>
      next.(status := Some(Created),
        creation := Some(Creation(e.creator, e.token, e.totalAmount.value, e.expiryLedger.value, StampOf(e))))
    case TokenClaimed => next.(status := if was.status == Some(Expired) then Some(Expired) else Some(Active))
    case AirdropExpired => next.(status := Some(Expired), expiration := Some(Expiration(e.unclaimedAmount, StampOf(e))))
    case RecipientAdded => next
  }

  predicate TouchesRecipient(e: Event, k: (string, string)) {
    e.airdrop != "" && e.recipient != "" && (e.airdrop, e.recipient) == k
  }

  function NextRecipient(e: Event, existing: Option<Recipient>): Recipient {
    var was := if existing.Some? then existing.value else Recipient(None, None, None, None, StampOf(e));
    var next := was.(amount := OrElse(e.amount, was.amount), updated := StampOf(e));
    match e.name
    case RecipientAdded => next.(status := OrElse(was.status, Some(Pending)), addedLedger := Some(e.ledger))
    case TokenClaimed => next.(status := Some(Claimed), claimed := Some(ClaimStamp(e)))
    case _ => next
  }

  predicate IsClaim(e: Event) {
    e.name.TokenClaimed? && e.recipient != "" && e.airdrop != ""
  }

  /** The composite key is a concatenation, compared as a string. */
  function DedupKey(eventId: string, airdrop: string): string {
    eventId + ":" + airdrop
  }

  function ClaimKey(c: Claim): string { DedupKey(c.eventId, c.airdrop) }

  function ClaimOf(e: Event): Claim {
    Claim(e.id, e.airdrop, e.recipient, e.amount, ClaimStamp(e))
  }

  predicate Listed(claims: seq<Claim>, key: string) {
    exists i :: 0 <= i < |claims| && ClaimKey(claims[i]) == key
  }

  function ClaimsList(m: map<string, seq<Claim>>, r: string): seq<Claim> {
    if r in m then m[r] else []
  }

  function SaveAirdrop(m: map<string, Airdrop>, e: Event): map<string, Airdrop> {
    if TouchesAirdrop(e, e.airdrop) then m[e.airdrop := NextAirdrop(e, Get(m, e.airdrop))] else m
  }

  function SaveRecipient(m: map<(string, string), Recipient>, e: Event): map<(string, string), Recipient> {
    var k := (e.airdrop, e.recipient);
    if TouchesRecipient(e, k) then m[k := NextRecipient(e, Get(m, k))] else m
  }

  function SaveClaim(m: map<string, seq<Claim>>, e: Event): map<string, seq<Claim>> {
    if IsClaim(e) && !Listed(ClaimsList(m, e.recipient), DedupKey(e.id, e.airdrop))
    then m[e.recipient := ClaimsList(m, e.recipient) + [ClaimOf(e)]]
    else m
  }

  // ---------------------------------------------------------------- a batch, in order

  function SaveAirdrops(m: map<string, Airdrop>, log: seq<Event>): map<string, Airdrop> {
    if log == [] then m else SaveAirdrop(SaveAirdrops(m, log[..|log| - 1]), log[|log| - 1])
  }

  function SaveRecipients(m: map<(string, string), Recipient>, log: seq<Event>): map<(string, string), Recipient> {
    if log == [] then m else SaveRecipient(SaveRecipients(m, log[..|log| - 1]), log[|log| - 1])
  }

  function SaveClaims(m: map<string, seq<Claim>>, log: seq<Event>): map<string, seq<Claim>> {
    if log == [] then m else SaveClaim(SaveClaims(m, log[..|log| - 1]), log[|log| - 1])
  }

  function SaveRecords(m: map<string, Event>, log: seq<Event>): map<string, Event> {
    if log == [] then m else SaveRecords(m, log[..|log| - 1])[log[|log| - 1].id := log[|log| - 1]]
  }

  function SaveEvents(p: Projection, log: seq<Event>): Projection {
    Projection(SaveAirdrops(p.airdrops, log), SaveRecipients(p.recipients, log), SaveClaims(p.claims, log))
  }

  const EMPTY := Projection(map[], map[], map[])

  // ---------------------------------------------------------------- airdrop records as transformers

  datatype StatusEffect = Keep | Claiming | Put(status: AirdropStatus)

  /** What a batch does to one airdrop record; `touched` is the stamp of the last write, if any. */
  datatype AirdropEffect = AirdropEffect(status: StatusEffect, creation: Option<Creation>,
    expiration: Option<Expiration>, touched: Option<Stamp>)

  const NOTHING := AirdropEffect(Keep, None, None, None)

  function ClaimStatus(s: Option<AirdropStatus>): AirdropStatus {
    if s == Some(Expired) then Expired else Active
  }

  function ApplyStatus(x: StatusEffect, s: Option<AirdropStatus>): Option<AirdropStatus> {
    match x case Keep => s case Claiming => Some(ClaimStatus(s)) case Put(p) => Some(p)
  }

  function ApplyAirdrop(x: AirdropEffect, r: Option<Airdrop>): Option<Airdrop> {
    if x.touched.None? then r
    else
      var was := if r.Some? then r.value else Airdrop(None, None, None, x.touched.value);
      Some(Airdrop(ApplyStatus(x.status, was.status), OrElse(x.creation, was.creation),
        OrElse(x.expiration, was.expiration), x.touched.value))
  }

  function AirdropEffectOf(e: Event, a: string): AirdropEffect {
    if !TouchesAirdrop(e, a) then NOTHING
    else match e.name
      case AirdropCreated =>
        var creation := Creation(e.creator, e.token, e.totalAmount.value, e.expiryLedger.value, StampOf(e));
        AirdropEffect(Put(Created), Some(creation), None, Some(StampOf(e)))
      case TokenClaimed => AirdropEffect(Claiming, None, None, Some(StampOf(e)))
      case AirdropExpired => AirdropEffect(Put(Expired), None, Some(Expiration(e.unclaimedAmount, StampOf(e))),
        Some(StampOf(e)))
      case RecipientAdded => AirdropEffect(Keep, None, None, Some(StampOf(e)))
  }

  function ThenStatus(x: StatusEffect, y: StatusEffect): StatusEffect {
    match y
    case Keep => x
    case Put(_) => y
    case Claiming => if x.Put? then Put(ClaimStatus(Some(x.status))) else Claiming
  }

  function Then(x: AirdropEffect, y: AirdropEffect): AirdropEffect {
    AirdropEffect(ThenStatus(x.status, y.status), OrElse(y.creation, x.creation), OrElse(y.expiration, x.expiration),
      OrElse(y.touched, x.touched))
  }

  function AirdropBatch(log: seq<Event>, a: string): AirdropEffect {
    if log == [] then NOTHING else Then(AirdropBatch(log[..|log| - 1], a), AirdropEffectOf(log[|log| - 1], a))
  }

  lemma {:induction false} AirdropBatchMeansTheFold(m: map<string, Airdrop>, log: seq<Event>, a: string)
    ensures AirdropBatch(log, a).touched.None? ==> AirdropBatch(log, a) == NOTHING
    ensures Get(SaveAirdrops(m, log), a) == ApplyAirdrop(AirdropBatch(log, a), Get(m, a))
  {
    if log != [] {
      var rest, e := log[..|log| - 1], log[|log| - 1];
      AirdropBatchMeansTheFold(m, rest, a);
    }
  }

  lemma {:induction false} AirdropEffectIsIdempotent(x: AirdropEffect, r: Option<Airdrop>)
    ensures ApplyAirdrop(x, ApplyAirdrop(x, r)) == ApplyAirdrop(x, r)
  {
    if x.touched.Some? {
      var s := if r.Some? then r.value.status else None;
      assert ApplyStatus(x.status, ApplyStatus(x.status, s)) == ApplyStatus(x.status, s);
    }
  }

  // ---------------------------------------------------------------- recipient records as transformers

  datatype RecipientEffect = RecipientEffect(added: Option<nat>, claimed: Option<Stamp>, amount: Option<int>,
    touched: Option<Stamp>)

  function ApplyRecipient(x: RecipientEffect, r: Option<Recipient>): Option<Recipient> {
    if x.touched.None? then r
    else
      var was := if r.Some? then r.value else Recipient(None, None, None, None, x.touched.value);
      var status := if x.claimed.Some? then Some(Claimed)
        else if x.added.Some? then OrElse(was.status, Some(Pending)) else was.status;
      Some(Recipient(status, OrElse(x.amount, was.amount), OrElse(x.added, was.addedLedger),
        OrElse(x.claimed, was.claimed), x.touched.value))
  }

  function RecipientEffectOf(e: Event, k: (string, string)): RecipientEffect {
    if !TouchesRecipient(e, k) then RecipientEffect(None, None, None, None)
    else RecipientEffect(
      if e.name.RecipientAdded? then Some(e.ledger) else None,
      if e.name.TokenClaimed? then Some(ClaimStamp(e)) else None, e.amount, Some(StampOf(e)))
  }

  function RecipientBatch(log: seq<Event>, k: (string, string)): RecipientEffect {
    if log == [] then RecipientEffect(None, None, None, None)
    else
      var x, y := RecipientBatch(log[..|log| - 1], k), RecipientEffectOf(log[|log| - 1], k);
      RecipientEffect(OrElse(y.added, x.added), OrElse(y.claimed, x.claimed), OrElse(y.amount, x.amount),
        OrElse(y.touched, x.touched))
  }

  lemma {:induction false} RecipientBatchMeansTheFold(
    m: map<(string, string), Recipient>, log: seq<Event>, k: (string, string))
    ensures RecipientBatch(log, k).touched.None? ==> RecipientBatch(log, k) == RecipientEffect(None, None, None, None)
    ensures Get(SaveRecipients(m, log), k) == ApplyRecipient(RecipientBatch(log, k), Get(m, k))
  {
    if log != [] {
      RecipientBatchMeansTheFold(m, log[..|log| - 1], k);
    }
  }

  // ---------------------------------------------------------------- claim lists

  lemma {:induction false} SavingKeepsListed(m: map<string, seq<Claim>>, log: seq<Event>, r: string, key: string)
    requires Listed(ClaimsList(m, r), key)
    ensures Listed(ClaimsList(SaveClaims(m, log), r), key)
  {
    if log != [] {
      var m' := SaveClaims(m, log[..|log| - 1]);
      SavingKeepsListed(m, log[..|log| - 1], r, key);
      var i :| 0 <= i < |ClaimsList(m', r)| && ClaimKey(ClaimsList(m', r)[i]) == key;
      assert ClaimsList(SaveClaims(m, log), r)[i] == ClaimsList(m', r)[i];
    }
  }

  /** Every claim event of a saved log is listed under its recipient. */
  lemma {:induction false} SavedClaimsAreListed(m: map<string, seq<Claim>>, log: seq<Event>, i: nat)
    requires i < |log| && IsClaim(log[i])
    ensures Listed(ClaimsList(SaveClaims(m, log), log[i].recipient), DedupKey(log[i].id, log[i].airdrop))
  {
    var e, m' := log[|log| - 1], SaveClaims(m, log[..|log| - 1]);
    if i < |log| - 1 {
      SavedClaimsAreListed(m, log[..|log| - 1], i);
      SavingKeepsListed(m', [e], log[i].recipient, DedupKey(log[i].id, log[i].airdrop));
      assert [e][..0] == [] && SaveClaims(m', [e]) == SaveClaim(m', e);
    } else if !Listed(ClaimsList(m', e.recipient), DedupKey(e.id, e.airdrop)) {
      var claims := ClaimsList(SaveClaims(m, log), e.recipient);
      assert ClaimKey(claims[|claims| - 1]) == DedupKey(e.id, e.airdrop);
    }
  }

  /** A batch whose claims are all listed already changes no list. */
  lemma {:induction false} ListedBatchIsSkipped(m: map<string, seq<Claim>>, b: seq<Event>)
    requires forall e :: e in b && IsClaim(e) ==> Listed(ClaimsList(m, e.recipient), DedupKey(e.id, e.airdrop))
    ensures SaveClaims(m, b) == m
  {
    if b != [] {
      ListedBatchIsSkipped(m, b[..|b| - 1]);
      assert b[|b| - 1] in b;
    }
  }

  // ---------------------------------------------------------------- replay

  lemma {:induction false} MapsAgree<K, V>(m: map<K, V>, n: map<K, V>)
    requires forall k :: Get(m, k) == Get(n, k)
    ensures m == n
  {
    assert forall k :: (k in m <==> k in n) by {
      forall k ensures k in m <==> k in n { assert Get(m, k) == Get(n, k); }
    }
    forall k | k in m ensures m[k] == n[k] { assert Get(m, k) == Get(n, k); }
  }

  /** Saving a batch twice is saving it once, from any prior projection. */
  lemma {:induction false} SavingTwiceIsSavingOnce(p: Projection, b: seq<Event>)
    ensures SaveEvents(SaveEvents(p, b), b) == SaveEvents(p, b)
  {
    var q := SaveEvents(p, b);
    forall a ensures Get(SaveAirdrops(q.airdrops, b), a) == Get(q.airdrops, a) {
      AirdropBatchMeansTheFold(p.airdrops, b, a);
      AirdropBatchMeansTheFold(q.airdrops, b, a);
      AirdropEffectIsIdempotent(AirdropBatch(b, a), Get(p.airdrops, a));
    }
    MapsAgree(SaveAirdrops(q.airdrops, b), q.airdrops);
    forall k ensures Get(SaveRecipients(q.recipients, b), k) == Get(q.recipients, k) {
      RecipientBatchMeansTheFold(p.recipients, b, k);
      RecipientBatchMeansTheFold(q.recipients, b, k);
    }
    MapsAgree(SaveRecipients(q.recipients, b), q.recipients);
    forall e | e in b && IsClaim(e) ensures Listed(ClaimsList(q.claims, e.recipient), DedupKey(e.id, e.airdrop)) {
      var i :| 0 <= i < |b| && b[i] == e;
      SavedClaimsAreListed(p.claims, b, i);
    }
    ListedBatchIsSkipped(q.claims, b);
  }

  lemma {:induction false} SaveConcat(p: Projection, x: seq<Event>, y: seq<Event>)
    ensures SaveEvents(p, x + y) == SaveEvents(SaveEvents(p, x), y)
    decreases |y|
  {
    if y == [] {
      assert x + y == x;
    } else {
      SaveConcat(p, x, y[..|y| - 1]);
      assert (x + y)[..|x + y| - 1] == x + y[..|y| - 1];
    }
  }

  /**
   * A save that died anywhere, even between the three writes of one event, is repaired by saving
   * the whole batch again: each projection may have stopped at its own point.
   */
  lemma {:induction false} ReplayRepairsACrash(p: Projection, b: seq<Event>, i: nat, j: nat, k: nat)
    requires i <= |b| && j <= |b| && k <= |b|
    ensures SaveEvents(Projection(SaveAirdrops(p.airdrops, b[..i]), SaveRecipients(p.recipients, b[..j]),
      SaveClaims(p.claims, b[..k])), b)
         == SaveEvents(p, b)
  {
    PrefixReplay(p, b, i);
    PrefixReplay(p, b, j);
    PrefixReplay(p, b, k);
  }

  lemma {:induction false} PrefixReplay(p: Projection, b: seq<Event>, i: nat)
    requires i <= |b|
    ensures SaveEvents(SaveEvents(p, b[..i]), b) == SaveEvents(p, b)
  {
    assert b == b[..i] + b[i..];
    SaveConcat(p, b[..i], b[i..]);
    SaveConcat(SaveEvents(p, b[..i]), b[..i], b[i..]);
    SavingTwiceIsSavingOnce(p, b[..i]);
  }

  // ---------------------------------------------------------------- a slow poller saves an old batch late

  ghost predicate Touched(log: seq<Event>, a: string) {
    exists i :: 0 <= i < |log| && TouchesAirdrop(log[i], a)
  }

  lemma {:induction false} LastTouch(log: seq<Event>, a: string)
    ensures AirdropBatch(log, a).touched.Some? <==> Touched(log, a)
    ensures Touched(log, a) ==>
      exists i :: 0 <= i < |log| && TouchesAirdrop(log[i], a) && AirdropBatch(log, a).touched == Some(StampOf(log[i]))
  {
    if log != [] {
      var n := |log| - 1;
      LastTouch(log[..n], a);
      assert forall i :: 0 <= i < n ==> log[..n][i] == log[i];
      if TouchesAirdrop(log[n], a) {
        assert Touched(log, a);
      } else if Touched(log[..n], a) {
        var i :| 0 <= i < n && TouchesAirdrop(log[..n][i], a)
          && AirdropBatch(log[..n], a).touched == Some(StampOf(log[..n][i]));
        assert TouchesAirdrop(log[i], a) && AirdropBatch(log, a).touched == Some(StampOf(log[i]));
      } else {
        assert forall i :: 0 <= i < |log| ==> !TouchesAirdrop(log[i], a);
      }
    }
  }

  /**
   * Re-saving batch `b` after the later batch `c` (strictly later ledgers, as two cycles fetch them)
   * leaves airdrop `a` alone exactly when not both batches touched it; otherwise its record goes back.
   */
  lemma {:induction false} StaleSaveHarmlessIff(m: map<string, Airdrop>, b: seq<Event>, c: seq<Event>, a: string)
    requires forall x, y :: x in b && y in c ==> x.ledger < y.ledger
    ensures Get(SaveAirdrops(SaveAirdrops(SaveAirdrops(m, b), c), b), a) == Get(SaveAirdrops(SaveAirdrops(m, b), c), a)
      <==> !(Touched(b, a) && Touched(c, a))
  {
    var m1 := SaveAirdrops(m, b);
    var m2 := SaveAirdrops(m1, c);
    AirdropBatchMeansTheFold(m, b, a);
    AirdropBatchMeansTheFold(m1, c, a);
    AirdropBatchMeansTheFold(m2, b, a);
    AirdropEffectIsIdempotent(AirdropBatch(b, a), Get(m, a));
    LastTouch(b, a);
    LastTouch(c, a);
    if Touched(b, a) && Touched(c, a) {
      var i :| 0 <= i < |b| && TouchesAirdrop(b[i], a) && AirdropBatch(b, a).touched == Some(StampOf(b[i]));
      var j :| 0 <= j < |c| && TouchesAirdrop(c[j], a) && AirdropBatch(c, a).touched == Some(StampOf(c[j]));
      assert b[i] in b && c[j] in c && b[i].ledger < c[j].ledger;
    }
  }

  function StatusOf(m: map<string, Airdrop>, a: string): Option<AirdropStatus> {
    if a in m then m[a].status else None
  }

  /** Doing x again after y gives another status than y left. */
  predicate Overrides(x: StatusEffect, y: StatusEffect) {
    match x
    case Keep => false
    case Claiming => y.Put? && y.status.Created?
    case Put(p) => (y.Put? && y.status != p) || (y.Claiming? && p.Created?)
  }

  /**
   * What a batch does to the status follows from its events alone: re-saving `b` after `c` moves the status of airdrop
   * `a` exactly when b's effect overrides c's, as a creation does a later claim or expiry.
   */
  lemma {:induction false} StaleSaveMovesStatusIff(m: map<string, Airdrop>, b: seq<Event>, c: seq<Event>, a: string)
    ensures var before := SaveAirdrops(SaveAirdrops(m, b), c);
      && (StatusOf(SaveAirdrops(before, b), a) != StatusOf(before, a) <==>
           Overrides(AirdropBatch(b, a).status, AirdropBatch(c, a).status))
  {
    var m1 := SaveAirdrops(m, b);
    var m2 := SaveAirdrops(m1, c);
    AirdropBatchMeansTheFold(m, b, a);
    AirdropBatchMeansTheFold(m1, c, a);
    AirdropBatchMeansTheFold(m2, b, a);
    var x, y := AirdropBatch(b, a).status, AirdropBatch(c, a).status;
    StatusAfter(AirdropBatch(b, a), Get(m, a));
    StatusAfter(AirdropBatch(c, a), Get(m1, a));
    StatusAfter(AirdropBatch(b, a), Get(m2, a));
    OverridesMeans(x, y, StatusOf(m, a));
  }

  lemma {:induction false} OverridesMeans(x: StatusEffect, y: StatusEffect, r: Option<AirdropStatus>)
    ensures var s := ApplyStatus(y, ApplyStatus(x, r)); ApplyStatus(x, s) != s <==> Overrides(x, y)
  {
    match x
    case Keep =>
    case Claiming => assert ApplyStatus(x, r) == Some(Active) || ApplyStatus(x, r) == Some(Expired);
    case Put(p) => assert y.Claiming? ==> ApplyStatus(y, Some(p)) == Some(ClaimStatus(Some(p)));
  }

  lemma {:induction false} StatusAfter(x: AirdropEffect, r: Option<Airdrop>)
    requires x.touched.None? ==> x == NOTHING
    ensures var was := if r.Some? then r.value.status else None;
      (if ApplyAirdrop(x, r).Some? then ApplyAirdrop(x, r).value.status else None) == ApplyStatus(x.status, was)
  {
  }

  // ---------------------------------------------------------------- raw records

  /** The raw record of an id is the last saved event with that id. */
  lemma {:induction false} RecordIsTheLastSaved(m: map<string, Event>, log: seq<Event>, i: nat)
    requires i < |log| && forall j :: i < j < |log| ==> log[j].id != log[i].id
    ensures log[i].id in SaveRecords(m, log) && SaveRecords(m, log)[log[i].id] == log[i]
  {
    if i < |log| - 1 {
      RecordIsTheLastSaved(m, log[..|log| - 1], i);
    }
  }

  // ---------------------------------------------------------------- who has claimed

  predicate ClaimsFor(e: Event, a: string, r: string) {
    IsClaim(e) && e.airdrop == a && e.recipient == r
  }

  predicate HasClaimed(m: map<(string, string), Recipient>, a: string, r: string) {
    (a, r) in m && m[(a, r)].status == Some(Claimed)
  }

  /** A claimed recipient stays claimed, and becomes claimed exactly by a claim event. */
  lemma {:induction false} ClaimedExactlyByClaimEvents(
    m: map<(string, string), Recipient>, log: seq<Event>, a: string, r: string)
    ensures HasClaimed(SaveRecipients(m, log), a, r)
      <==> HasClaimed(m, a, r) || exists i :: 0 <= i < |log| && ClaimsFor(log[i], a, r)
  {
    if log != [] {
      var n := |log| - 1;
      ClaimedExactlyByClaimEvents(m, log[..n], a, r);
      assert forall i :: 0 <= i < n ==> log[..n][i] == log[i];
    }
  }

  function ClaimedSet(m: map<(string, string), Recipient>, a: string): set<string> {
    set k | k in m.Keys && k.0 == a && m[k].status == Some(Claimed) :: k.1
  }

  function RecipientSet(m: map<(string, string), Recipient>, a: string): set<string> {
    set k | k in m.Keys && k.0 == a :: k.1
  }

  datatype Status = Status(airdrop: Airdrop, recipientsCount: nat, claimedCount: nat, pendingCount: int)

  function GetAirdropStatus(p: Projection, a: string): Option<Status> {
    if a !in p.airdrops then None
    else
      var n, k := |RecipientSet(p.recipients, a)|, |ClaimedSet(p.recipients, a)|;
      Some(Status(p.airdrops[a], n, k, n - k))
  }

  /** The distinct recipients with a token_claimed event for `a`, read off the log alone. */
  ghost function Claimants(log: seq<Event>, a: string): set<string> {
    set i | 0 <= i < |log| && IsClaim(log[i]) && log[i].airdrop == a :: log[i].recipient
  }

  /** After any log, claimed_count is the number of distinct claimants and pending_count is never negative. */
  lemma {:induction false} ClaimedCountIsDistinctClaimants(log: seq<Event>, a: string)
    ensures ClaimedSet(SaveEvents(EMPTY, log).recipients, a) == Claimants(log, a)
    ensures var s := GetAirdropStatus(SaveEvents(EMPTY, log), a);
      s.Some? ==> s.value.claimedCount == |Claimants(log, a)| && 0 <= s.value.pendingCount
  {
    var m := SaveEvents(EMPTY, log).recipients;
    forall r ensures r in ClaimedSet(m, a) <==> r in Claimants(log, a) {
      ClaimedExactlyByClaimEvents(map[], log, a, r);
      assert r in ClaimedSet(m, a) <==> HasClaimed(m, a, r) by {
        if HasClaimed(m, a, r) { assert (a, r) in m.Keys; }
      }
      if r in Claimants(log, a) {
        var i :| 0 <= i < |log| && IsClaim(log[i]) && log[i].airdrop == a && log[i].recipient == r;
        assert ClaimsFor(log[i], a, r);
      }
    }
    SubsetSize(ClaimedSet(m, a), RecipientSet(m, a));
  }

  /** The event concerns the airdrop: it names it, and if it creates it, completely. */
  predicate Concerns(e: Event, a: string) {
    && e.airdrop == a != ""
    && (e.name == AirdropCreated ==>
      e.creator != "" && e.token != "" && e.totalAmount != None && e.expiryLedger != None)
  }

  /** The event names the recipient of the airdrop. */
  predicate NamesRecipient(e: Event, a: string, r: string) {
    e.airdrop == a != "" && e.recipient == r != ""
  }

  ghost function NamedRecipients(log: seq<Event>, a: string): set<string> {
    set i | 0 <= i < |log| && NamesRecipient(log[i], a, log[i].recipient) :: log[i].recipient
  }

  ghost function ClaimedRecipients(log: seq<Event>, a: string): set<string> {
    set i | 0 <= i < |log| && NamesRecipient(log[i], a, log[i].recipient) && log[i].name == TokenClaimed ::
      log[i].recipient
  }

  lemma {:induction false} AirdropKnownIff(log: seq<Event>, a: string)
    ensures a in SaveAirdrops(map[], log) <==> exists i :: 0 <= i < |log| && Concerns(log[i], a)
  {
    if log != [] {
      var n := |log| - 1;
      AirdropKnownIff(log[..n], a);
      assert forall i :: 0 <= i < n ==> log[..n][i] == log[i];
    }
  }

  lemma {:induction false} RecipientKnownIff(log: seq<Event>, a: string, r: string)
    ensures (a, r) in SaveRecipients(map[], log) <==> exists i :: 0 <= i < |log| && NamesRecipient(log[i], a, r)
  {
    if log != [] {
      var n := |log| - 1;
      RecipientKnownIff(log[..n], a, r);
      assert forall i :: 0 <= i < n ==> log[..n][i] == log[i];
    }
  }

  /**
   * The whole status, read off the log: it is there exactly when some event concerns the airdrop, and counts the
   * distinct recipients named, those with a claim, and those without.
   */
  lemma {:induction false} StatusReadOffTheLog(log: seq<Event>, a: string)
    ensures var s := GetAirdropStatus(SaveEvents(EMPTY, log), a);
      && (s.Some? <==> exists i :: 0 <= i < |log| && Concerns(log[i], a))
      && (s.Some? ==>
           && s.value.recipientsCount == |NamedRecipients(log, a)|
           && s.value.claimedCount == |ClaimedRecipients(log, a)|
           && s.value.pendingCount == |NamedRecipients(log, a) - ClaimedRecipients(log, a)|
           && a in SaveAirdrops(map[], log) && s.value.airdrop == SaveAirdrops(map[], log)[a])
  {
    var m := SaveRecipients(map[], log);
    AirdropKnownIff(log, a);
    forall r ensures r in RecipientSet(m, a) <==> r in NamedRecipients(log, a) {
      RecipientKnownIff(log, a, r);
      if (a, r) in m { assert (a, r) in m.Keys; }
    }
    assert RecipientSet(m, a) == NamedRecipients(log, a);
    ClaimedCountIsDistinctClaimants(log, a);
    assert Claimants(log, a) == ClaimedRecipients(log, a);
    var named, claimed := NamedRecipients(log, a), ClaimedRecipients(log, a);
    assert claimed <= named && named == claimed + (named - claimed);
  }

  // ---------------------------------------------------------------- records, read off the log

  /** Event i is the last one of the log in a set of names that concerns the airdrop. */
  ghost predicate LastOf(log: seq<Event>, a: string, names: set<EventName>, i: nat) {
    && i < |log| && Concerns(log[i], a) && log[i].name in names
    && forall j :: i < j < |log| ==> !(Concerns(log[j], a) && log[j].name in names)
  }

  ghost predicate NoneOf(log: seq<Event>, a: string, names: set<EventName>, from: nat) {
    forall j :: from <= j < |log| ==> !(Concerns(log[j], a) && log[j].name in names)
  }

  const EVERY: set<EventName> := {AirdropCreated, RecipientAdded, TokenClaimed, AirdropExpired}

  lemma {:induction false} AirdropFieldsReadOffTheLog(log: seq<Event>, a: string, i: nat)
    requires i < |log| && Concerns(log[i], a)
    ensures a in SaveAirdrops(map[], log)
    ensures var x, e := SaveAirdrops(map[], log)[a], log[i];
      && (LastOf(log, a, EVERY, i) ==> x.updated == Stamp(e.ledger, e.closedAt))
      && (LastOf(log, a, {AirdropCreated}, i) ==>
           x.creation == Some(Creation(
             e.creator, e.token, e.totalAmount.value, e.expiryLedger.value, Stamp(e.ledger, e.closedAt))))
      && (LastOf(log, a, {AirdropExpired}, i) ==>
           x.expiration == Some(Expiration(e.unclaimedAmount, Stamp(e.ledger, e.closedAt))))
  {
    var n := |log| - 1;
    assert forall j :: 0 <= j < n ==> log[..n][j] == log[j];
    if i < n { AirdropFieldsReadOffTheLog(log[..n], a, i); }
  }

  /** What no event sets stays unset. */
  lemma {:induction false} AirdropFieldsUnset(log: seq<Event>, a: string)
    requires a in SaveAirdrops(map[], log)
    ensures var x := SaveAirdrops(map[], log)[a];
      && (NoneOf(log, a, {AirdropCreated}, 0) ==> x.creation == None)
      && (NoneOf(log, a, {AirdropExpired}, 0) ==> x.expiration == None)
  {
    var n := |log| - 1;
    assert forall j :: 0 <= j < n ==> log[..n][j] == log[j];
    if a in SaveAirdrops(map[], log[..n]) { AirdropFieldsUnset(log[..n], a); }
  }

  const SETTERS: set<EventName> := {AirdropCreated, AirdropExpired}

  /** The status is set by the last creation or expiry; a claim after a creation makes it active ... */
  lemma {:induction false} AirdropStatusReadOffTheLog(log: seq<Event>, a: string, i: nat)
    requires LastOf(log, a, SETTERS, i)
    ensures a in SaveAirdrops(map[], log)
    ensures SaveAirdrops(map[], log)[a].status ==
      Some(if log[i].name == AirdropExpired then Expired
           else if NoneOf(log, a, {TokenClaimed}, i) then Created else Active)
  {
    var n := |log| - 1;
    var init := log[..n];
    assert forall j :: 0 <= j < n ==> init[j] == log[j];
    if i < n {
      AirdropStatusReadOffTheLog(init, a, i);
      NoneOfLast(log, a, {TokenClaimed}, i);
    }
  }

  lemma {:induction false} NoneOfLast(log: seq<Event>, a: string, names: set<EventName>, i: nat)
    requires i < |log|
    ensures var n := |log| - 1;
      NoneOf(log, a, names, i) <==> NoneOf(log[..n], a, names, i) && !(Concerns(log[n], a) && log[n].name in names)
  {
    var n := |log| - 1;
    assert forall j :: 0 <= j < n ==> log[..n][j] == log[j];
  }

  /** ... and without either, a claim makes it active and nothing else sets it. */
  lemma {:induction false} AirdropStatusWithoutSetter(log: seq<Event>, a: string)
    requires a in SaveAirdrops(map[], log) && NoneOf(log, a, SETTERS, 0)
    ensures SaveAirdrops(map[], log)[a].status == if NoneOf(log, a, {TokenClaimed}, 0) then None else Some(Active)
  {
    var n := |log| - 1;
    NoneOfLast(log, a, {TokenClaimed}, 0);
    NoneOfLast(log, a, SETTERS, 0);
    AirdropKnownIff(log[..n], a);
    if a in SaveAirdrops(map[], log[..n]) {
      AirdropStatusWithoutSetter(log[..n], a);
    }
  }

  /**
   * Event i is the last one of the log that names the recipient, is in a set of names and, if asked, carries an amount.
   */
  ghost predicate LastNaming(log: seq<Event>, a: string, r: string, names: set<EventName>, withAmount: bool, i: nat) {
    && i < |log| && Naming(log[i], a, r, names, withAmount)
    && forall j :: i < j < |log| ==> !Naming(log[j], a, r, names, withAmount)
  }

  predicate Naming(e: Event, a: string, r: string, names: set<EventName>, withAmount: bool) {
    NamesRecipient(e, a, r) && e.name in names && (withAmount ==> e.amount != None)
  }

  lemma {:induction false} RecipientFieldsReadOffTheLog(log: seq<Event>, a: string, r: string, i: nat)
    requires i < |log| && NamesRecipient(log[i], a, r)
    ensures (a, r) in SaveRecipients(map[], log)
    ensures var x, e := SaveRecipients(map[], log)[(a, r)], log[i];
      && (LastNaming(log, a, r, EVERY, false, i) ==> x.updated == Stamp(e.ledger, e.closedAt))
      && (LastNaming(log, a, r, EVERY, true, i) ==> x.amount == e.amount)
      && (LastNaming(log, a, r, {RecipientAdded}, false, i) ==> x.addedLedger == Some(e.ledger))
      && (LastNaming(log, a, r, {TokenClaimed}, false, i) ==>
           x.claimed == Some(Stamp(if e.dataLedger.Some? then e.dataLedger.value else e.ledger, e.closedAt)))
  {
    var n := |log| - 1;
    assert forall j :: 0 <= j < n ==> log[..n][j] == log[j];
    if i < n { RecipientFieldsReadOffTheLog(log[..n], a, r, i); }
  }

  ghost predicate NoneNaming(log: seq<Event>, a: string, r: string, names: set<EventName>, withAmount: bool) {
    forall j :: 0 <= j < |log| ==> !Naming(log[j], a, r, names, withAmount)
  }

  /**
   * The status is claimed once a claim names the recipient, pending once only additions do; what is never set stays
   * unset.
   */
  lemma {:induction false} RecipientStatusReadOffTheLog(log: seq<Event>, a: string, r: string)
    requires (a, r) in SaveRecipients(map[], log)
    ensures var x := SaveRecipients(map[], log)[(a, r)];
      && x.status == (if !NoneNaming(log, a, r, {TokenClaimed}, false) then Some(Claimed)
                      else if !NoneNaming(log, a, r, {RecipientAdded}, false) then Some(Pending) else None)
      && (NoneNaming(log, a, r, EVERY, true) ==> x.amount == None)
      && (NoneNaming(log, a, r, {RecipientAdded}, false) ==> x.addedLedger == None)
      && (NoneNaming(log, a, r, {TokenClaimed}, false) ==> x.claimed == None)
  {
    var n := |log| - 1;
    var init := log[..n];
    assert forall j :: 0 <= j < n ==> init[j] == log[j];
    assert forall names, amt :: NoneNaming(log, a, r, names, amt) <==>
      NoneNaming(init, a, r, names, amt) && !Naming(log[n], a, r, names, amt);
    if (a, r) in SaveRecipients(map[], init) {
      RecipientStatusReadOffTheLog(init, a, r);
    } else {
      RecipientKnownIff(init, a, r);
    }
  }

  /** So duplicates, replays and reorderings of the log never change who counts as having claimed. */
  lemma {:induction false} ClaimedCountIgnoresReplayAndOrder(x: seq<Event>, y: seq<Event>, a: string)
    requires forall e :: e in x <==> e in y
    ensures ClaimedSet(SaveEvents(EMPTY, x).recipients, a) == ClaimedSet(SaveEvents(EMPTY, y).recipients, a)
  {
    ClaimedCountIsDistinctClaimants(x, a);
    ClaimedCountIsDistinctClaimants(y, a);
    SameClaimants(x, y, a);
    SameClaimants(y, x, a);
  }

  lemma {:induction false} SameClaimants(x: seq<Event>, y: seq<Event>, a: string)
    requires forall e :: e in x ==> e in y
    ensures Claimants(x, a) <= Claimants(y, a)
  {
    forall r | r in Claimants(x, a) ensures r in Claimants(y, a) {
      var i :| 0 <= i < |x| && IsClaim(x[i]) && x[i].airdrop == a && x[i].recipient == r;
      assert x[i] in x;
      var j :| 0 <= j < |y| && y[j] == x[i];
    }
  }

  // ---------------------------------------------------------------- claim lists in first-seen order

  predicate ClaimOfRecipient(e: Event, r: string) {
    IsClaim(e) && e.recipient == r
  }

  predicate SamePair(e: Event, f: Event) {
    e.id == f.id && e.airdrop == f.airdrop
  }

  predicate SameKey(e: Event, f: Event) {
    DedupKey(e.id, e.airdrop) == DedupKey(f.id, f.airdrop)
  }

  /** Event i is the first claim of recipient r under its key. */
  ghost predicate FirstSeen(log: seq<Event>, r: string, i: nat) {
    && i < |log| && ClaimOfRecipient(log[i], r)
    && forall j :: 0 <= j < i && ClaimOfRecipient(log[j], r) ==> !SameKey(log[j], log[i])
  }

  /** The positions of the first-seen claims, in log order: the reference the stored list must match. */
  ghost function FirstSeenUpTo(log: seq<Event>, r: string, n: nat): (idx: seq<nat>)
    requires n <= |log|
    ensures forall k :: 0 <= k < |idx| ==> idx[k] < n
  {
    if n == 0 then []
    else FirstSeenUpTo(log, r, n - 1) + (if FirstSeen(log, r, n - 1) then [n - 1] else [])
  }

  /** The reference is what its name says: ascending, and exactly the first-seen positions. */
  lemma {:induction false} FirstSeenPositions(log: seq<Event>, r: string, n: nat, idx: seq<nat>)
    requires n <= |log| && idx == FirstSeenUpTo(log, r, n)
    ensures forall i :: 0 <= i < n && FirstSeen(log, r, i) ==> i in idx
    ensures forall k :: 0 <= k < |idx| ==> FirstSeen(log, r, idx[k])
    ensures forall k, l :: 0 <= k < l < |idx| ==> idx[k] < idx[l]
  {
    if n > 0 {
      var init := FirstSeenUpTo(log, r, n - 1);
      FirstSeenPositions(log, r, n - 1, init);
      assert idx == init + (if FirstSeen(log, r, n - 1) then [n - 1] else []);
    }
  }

  /** The key of any claim in the log was first seen somewhere. */
  lemma {:induction false} FirstSeenExists(log: seq<Event>, r: string, i: nat) returns (f: nat)
    requires i < |log| && ClaimOfRecipient(log[i], r)
    ensures f <= i && FirstSeen(log, r, f) && SameKey(log[f], log[i])
  {
    if FirstSeen(log, r, i) {
      f := i;
    } else {
      var j :| 0 <= j < i && ClaimOfRecipient(log[j], r) && SameKey(log[j], log[i]);
      f := FirstSeenExists(log, r, j);
    }
  }

  ghost function ClaimsAt(log: seq<Event>, idx: seq<nat>): (claims: seq<Claim>)
    requires forall k :: 0 <= k < |idx| ==> idx[k] < |log|
    ensures |claims| == |idx| && forall k :: 0 <= k < |idx| ==> claims[k] == ClaimOf(log[idx[k]])
  {
    seq(|idx|, k requires 0 <= k < |idx| => ClaimOf(log[idx[k]]))
  }

  /** The dedup test of the code finds the key exactly when the claim is not first-seen. */
  lemma {:induction false} ListedIffSeenBefore(log: seq<Event>, r: string, n: nat)
    requires n < |log| && IsClaim(log[n]) && log[n].recipient == r
    ensures Listed(ClaimsAt(log, FirstSeenUpTo(log, r, n)), DedupKey(log[n].id, log[n].airdrop))
      <==> !FirstSeen(log, r, n)
  {
    var idx := FirstSeenUpTo(log, r, n);
    var list, key := ClaimsAt(log, idx), DedupKey(log[n].id, log[n].airdrop);
    FirstSeenPositions(log, r, n, idx);
    if Listed(list, key) {
      var k :| 0 <= k < |list| && ClaimKey(list[k]) == key;
      assert idx[k] < n && FirstSeen(log, r, idx[k]);
    }
    if !FirstSeen(log, r, n) {
      var f := FirstSeenExists(log, r, n);
      var k :| 0 <= k < |idx| && idx[k] == f;
      assert ClaimKey(list[k]) == key;
    }
  }

  lemma {:induction false} ClaimedByOneMore(log: seq<Event>, r: string, n: nat, m: map<string, seq<Claim>>)
    requires n < |log| && ClaimsList(m, r) == ClaimsAt(log, FirstSeenUpTo(log, r, n))
    ensures ClaimsList(SaveClaim(m, log[n]), r) == ClaimsAt(log, FirstSeenUpTo(log, r, n + 1))
  {
    if IsClaim(log[n]) && log[n].recipient == r {
      ListedIffSeenBefore(log, r, n);
      if FirstSeen(log, r, n) {
        assert ClaimsList(SaveClaim(m, log[n]), r) == ClaimsList(m, r) + [ClaimOf(log[n])];
      } else {
        assert FirstSeenUpTo(log, r, n + 1) == FirstSeenUpTo(log, r, n);
      }
    } else {
      assert FirstSeenUpTo(log, r, n + 1) == FirstSeenUpTo(log, r, n);
    }
  }

  lemma {:induction false} ClaimsAreFirstSeenUpTo(log: seq<Event>, r: string, n: nat)
    requires n <= |log|
    ensures ClaimsList(SaveClaims(map[], log[..n]), r) == ClaimsAt(log, FirstSeenUpTo(log, r, n))
  {
    if n > 0 {
      ClaimsAreFirstSeenUpTo(log, r, n - 1);
      assert log[..n][..n - 1] == log[..n - 1];
      var e, m := log[n - 1], SaveClaims(map[], log[..n - 1]);
      assert SaveClaims(map[], log[..n]) == SaveClaim(m, e);
      ClaimedByOneMore(log, r, n - 1, m);
    }
  }

  /** Each claims list is exactly the first-seen claims of its recipient, in order. */
  lemma {:induction false} ClaimsListIsFirstSeenClaims(log: seq<Event>, r: string)
    ensures ClaimsList(SaveEvents(EMPTY, log).claims, r) == ClaimsAt(log, FirstSeenUpTo(log, r, |log|))
  {
    assert log[..|log|] == log;
    ClaimsAreFirstSeenUpTo(log, r, |log|);
  }

  /** Each listed claim says what its event says. */
  lemma {:induction false} ListedClaimFields(log: seq<Event>, r: string, k: nat)
    requires k < |ClaimsList(SaveEvents(EMPTY, log).claims, r)|
    ensures var idx := FirstSeenUpTo(log, r, |log|);
      && k < |idx|
      && var e, claim := log[idx[k]], ClaimsList(SaveEvents(EMPTY, log).claims, r)[k];
         && e.name == TokenClaimed && e.recipient == r
         && claim.eventId == e.id && claim.airdrop == e.airdrop && claim.recipient == r && claim.amount == e.amount
         && claim.stamp == Stamp(if e.dataLedger.Some? then e.dataLedger.value else e.ledger, e.closedAt)
  {
    ClaimsListIsFirstSeenClaims(log, r);
    FirstSeenPositions(log, r, |log|, FirstSeenUpTo(log, r, |log|));
  }

  /** Re-saving any events the log already holds, in any order and at any time, leaves the claim lists alone. */
  lemma {:induction false} StaleSaveKeepsClaims(m: map<string, seq<Claim>>, log: seq<Event>, b: seq<Event>)
    requires forall e :: e in b ==> e in log
    ensures SaveClaims(SaveClaims(m, log), b) == SaveClaims(m, log)
  {
    forall e | e in b && IsClaim(e)
      ensures Listed(ClaimsList(SaveClaims(m, log), e.recipient), DedupKey(e.id, e.airdrop))
    {
      var i :| 0 <= i < |log| && log[i] == e;
      SavedClaimsAreListed(m, log, i);
    }
    ListedBatchIsSkipped(SaveClaims(m, log), b);
  }

  // ---------------------------------------------------------------- keys and the pairs they stand for

  /** The string key tells (event, airdrop) pairs apart as long as event ids hold no colon. */
  lemma {:induction false} DedupKeyTellsPairsApart(e1: string, a1: string, e2: string, a2: string)
    requires ':' !in e1 && ':' !in e2 && DedupKey(e1, a1) == DedupKey(e2, a2)
    ensures e1 == e2 && a1 == a2
  {
    var k := DedupKey(e1, a1);
    assert k[|e1|] == ':' && k[|e2|] == ':';
    assert forall i :: 0 <= i < |e1| ==> k[i] == e1[i] && e1[i] in e1;
    assert forall i :: 0 <= i < |e2| ==> k[i] == e2[i] && e2[i] in e2;
    assert k[..|e1|] == e1 && k[..|e2|] == e2;
    assert k[|e1| + 1..] == a1 && k[|e2| + 1..] == a2;
  }

  /** A different pair with the same key. */
  ghost predicate Rival(e: string, a: string, e': string, a': string) {
    (e', a') != (e, a) && DedupKey(e', a') == DedupKey(e, a)
  }

  /** The key is split at position i of the concatenation. */
  lemma {:induction false} SplitKey(k: string, i: nat)
    requires i < |k| && k[i] == ':'
    ensures DedupKey(k[..i], k[i + 1..]) == k
  {
    assert k == k[..i] + [k[i]] + k[i + 1..];
  }

  /** A pair shares its key with another one exactly when its event id or its airdrop id holds a colon. */
  lemma {:induction false} HasRivalIffColon(e: string, a: string)
    ensures (exists e', a' :: Rival(e, a, e', a')) <==> ':' in e || ':' in a
  {
    var k := DedupKey(e, a);
    if ':' in e {
      var i :| 0 <= i < |e| && e[i] == ':';
      SplitKey(k, i);
      assert |k[..i]| != |e|;
      assert Rival(e, a, k[..i], k[i + 1..]);
    } else if ':' in a {
      var i :| 0 <= i < |a| && a[i] == ':';
      var j := |e| + 1 + i;
      assert k[j] == ':';
      SplitKey(k, j);
      assert |k[..j]| != |e|;
      assert Rival(e, a, k[..j], k[j + 1..]);
    } else {
      forall e', a' | DedupKey(e', a') == k ensures (e', a') == (e, a) {
        OnlyColon(e, a, |e'|);
        assert k[|e'|] == ':';
        assert k[..|e'|] == e' && k[|e'| + 1..] == a';
        assert k[..|e|] == e && k[|e| + 1..] == a;
      }
    }
  }

  lemma {:induction false} OnlyColon(e: string, a: string, i: nat)
    requires ':' !in e && ':' !in a && i < |DedupKey(e, a)| && DedupKey(e, a)[i] == ':'
    ensures i == |e|
  {
  }

  /** Event i is the first claim of recipient r for its (event, airdrop) pair. */
  ghost predicate FirstPair(log: seq<Event>, r: string, i: nat) {
    && i < |log| && ClaimOfRecipient(log[i], r)
    && forall j :: 0 <= j < i && ClaimOfRecipient(log[j], r) ==> !SamePair(log[j], log[i])
  }

  ghost function FirstPairsUpTo(log: seq<Event>, r: string, n: nat): (idx: seq<nat>)
    requires n <= |log|
    ensures forall k :: 0 <= k < |idx| ==> idx[k] < n
  {
    if n == 0 then []
    else FirstPairsUpTo(log, r, n - 1) + (if FirstPair(log, r, n - 1) then [n - 1] else [])
  }

  /** Two claims of recipient r for different pairs with one key. */
  ghost predicate Collides(log: seq<Event>, r: string, i: nat, j: nat) {
    && i < |log| && j < |log| && ClaimOfRecipient(log[i], r) && ClaimOfRecipient(log[j], r)
    && !SamePair(log[i], log[j]) && SameKey(log[i], log[j])
  }

  /** The code drops the claim at i although its pair is new. */
  ghost predicate Dropped(log: seq<Event>, r: string, i: nat) {
    FirstPair(log, r, i) && !FirstSeen(log, r, i)
  }

  lemma {:induction false} ListsDifferIffDropped(log: seq<Event>, r: string, n: nat)
    requires n <= |log|
    ensures var keys, pairs := FirstSeenUpTo(log, r, n), FirstPairsUpTo(log, r, n);
      if exists i :: 0 <= i < n && Dropped(log, r, i) then |keys| < |pairs| else keys == pairs
  {
    if n > 0 {
      ListsDifferIffDropped(log, r, n - 1);
      assert FirstSeen(log, r, n - 1) ==> FirstPair(log, r, n - 1);
      assert (exists i :: 0 <= i < n && Dropped(log, r, i))
        <==> (exists i :: 0 <= i < n - 1 && Dropped(log, r, i)) || Dropped(log, r, n - 1);
    }
  }

  lemma {:induction false} FirstPairExists(log: seq<Event>, r: string, i: nat) returns (f: nat)
    requires i < |log| && ClaimOfRecipient(log[i], r)
    ensures f <= i && FirstPair(log, r, f) && SamePair(log[f], log[i])
  {
    if FirstPair(log, r, i) {
      f := i;
    } else {
      var j :| 0 <= j < i && ClaimOfRecipient(log[j], r) && SamePair(log[j], log[i]);
      f := FirstPairExists(log, r, j);
    }
  }

  lemma {:induction false} DroppedIffCollides(log: seq<Event>, r: string)
    ensures (exists i :: 0 <= i < |log| && Dropped(log, r, i)) <==> exists i: nat, j: nat :: Collides(log, r, i, j)
  {
    if i :| 0 <= i < |log| && Dropped(log, r, i) {
      var j :| 0 <= j < i && ClaimOfRecipient(log[j], r) && SameKey(log[j], log[i]);
      assert Collides(log, r, j, i);
    }
    if i: nat, j: nat :| Collides(log, r, i, j) {
      var f := FirstPairExists(log, r, i);
      var g := FirstPairExists(log, r, j);
      assert SameKey(log[f], log[g]) && f != g;
      assert Dropped(log, r, if f < g then g else f);
    }
  }

  /**
   * Each list holds each (event, airdrop) pair of its recipient once, in first-seen order, exactly when no keys
   * collide.
   */
  lemma {:induction false} ClaimsListIsFirstSeenPairsIff(log: seq<Event>, r: string)
    ensures ClaimsList(SaveEvents(EMPTY, log).claims, r) == ClaimsAt(log, FirstPairsUpTo(log, r, |log|))
       <==> !exists i: nat, j: nat :: Collides(log, r, i, j)
  {
    ClaimsListIsFirstSeenClaims(log, r);
    ListsDifferIffDropped(log, r, |log|);
    DroppedIffCollides(log, r);
  }

  /** Event ids without a colon are enough for that, whatever the airdrop ids. */
  lemma {:induction false} ColonFreeIdsListEveryPair(log: seq<Event>, r: string)
    requires forall i :: 0 <= i < |log| && ClaimOfRecipient(log[i], r) ==> ':' !in log[i].id
    ensures ClaimsList(SaveEvents(EMPTY, log).claims, r) == ClaimsAt(log, FirstPairsUpTo(log, r, |log|))
  {
    forall i: nat, j: nat ensures !Collides(log, r, i, j) {
      if i < |log| && j < |log| && ClaimOfRecipient(log[i], r) && ClaimOfRecipient(log[j], r)
         && SameKey(log[i], log[j]) {
        DedupKeyTellsPairsApart(log[i].id, log[i].airdrop, log[j].id, log[j].airdrop);
      }
    }
    ClaimsListIsFirstSeenPairsIff(log, r);
  }

  // ---------------------------------------------------------------- the store itself

  class EventStore {
    var airdrops: map<string, Airdrop>
    var airdropIds: set<string>
    var recipients: map<(string, string), Recipient>
    var claims: map<string, seq<Claim>>
    var events: map<string, Event>
    var eventIds: set<string>

    /** Each record is written along with its id-set entry. */
    ghost predicate Valid() reads this {
      airdropIds == airdrops.Keys && eventIds == events.Keys
    }

    function View(): Projection reads this {
      Projection(airdrops, recipients, claims)
    }

    constructor ()
      ensures Valid() && View() == EMPTY && events == map[]
    {
      airdrops, airdropIds, recipients, claims, events, eventIds := map[], {}, map[], map[], map[], {};
    }

    method UpsertAirdrop(e: Event)
      requires Valid()
      modifies this`airdrops, this`airdropIds
      ensures Valid() && airdrops == SaveAirdrop(old(airdrops), e)
    {
      if e.airdrop == "" { return; }
      if e.name.AirdropCreated?
        && (e.creator == "" || e.token == "" || e.totalAmount.None? || e.expiryLedger.None?) { return; }
      var existing := if e.airdrop in airdrops then airdrops[e.airdrop] else Airdrop(None, None, None, StampOf(e));
      var next := existing.(updated := StampOf(e));
      if e.name.AirdropCreated? {
        next := next.(status := Some(Created),
          creation := Some(Creation(e.creator, e.token, e.totalAmount.value, e.expiryLedger.value, StampOf(e))));
      }
      if e.name.TokenClaimed? {
        next := next.(status := if existing.status == Some(Expired) then Some(Expired) else Some(Active));
      }
      if e.name.AirdropExpired? {
        next := next.(status := Some(Expired), expiration := Some(Expiration(e.unclaimedAmount, StampOf(e))));
      }
      airdrops := airdrops[e.airdrop := next];
      airdropIds := airdropIds + {e.airdrop};
    }

    method UpsertRecipient(e: Event)
      modifies this`recipients
      ensures recipients == SaveRecipient(old(recipients), e)
    {
      if e.airdrop == "" || e.recipient == "" { return; }
      var k := (e.airdrop, e.recipient);
      var existing := if k in recipients then recipients[k] else Recipient(None, None, None, None, StampOf(e));
      var next := existing.(amount := OrElse(e.amount, existing.amount), updated := StampOf(e));
      if e.name.RecipientAdded? {
        next := next.(status := OrElse(existing.status, Some(Pending)), addedLedger := Some(e.ledger));
      }
      if e.name.TokenClaimed? {
        next := next.(status := Some(Claimed), claimed := Some(ClaimStamp(e)));
      }
      recipients := recipients[k := next];
    }

    method AppendClaim(e: Event)
      modifies this`claims
      ensures claims == SaveClaim(old(claims), e)
    {
      if !e.name.TokenClaimed? || e.recipient == "" || e.airdrop == "" { return; }
      var list := if e.recipient in claims then claims[e.recipient] else [];
      var found, i := false, 0;
      while i < |list| && !found
        invariant 0 <= i <= |list|
        invariant found ==> Listed(list, DedupKey(e.id, e.airdrop))
        invariant !found ==> forall j :: 0 <= j < i ==> ClaimKey(list[j]) != DedupKey(e.id, e.airdrop)
        decreases |list| - i, !found
      {
        if ClaimKey(list[i]) == DedupKey(e.id, e.airdrop) { found := true; } else { i := i + 1; }
      }
      if !found {
        claims := claims[e.recipient := list + [ClaimOf(e)]];
      }
    }

    method SaveRaw(batch: seq<Event>)
      requires Valid()
      modifies this`events, this`eventIds
      ensures Valid() && events == SaveRecords(old(events), batch)
    {
      for i := 0 to |batch|
        invariant Valid() && events == SaveRecords(old(events), batch[..i])
      {
        assert batch[..i + 1][..i] == batch[..i];
        events := events[batch[i].id := batch[i]];
        eventIds := eventIds + {batch[i].id};
      }
      assert batch[..|batch|] == batch;
    }

    /** saveEvents: the raw records first, then the three projections event by event, in order. */
    method SaveBatch(batch: seq<Event>)
      requires Valid()
      modifies this
      ensures Valid() && View() == SaveEvents(old(View()), batch)
      ensures events == SaveRecords(old(events), batch)
    {
      SaveRaw(batch);
      for i := 0 to |batch|
        invariant airdropIds == airdrops.Keys
        invariant airdrops == SaveAirdrops(old(airdrops), batch[..i])
        invariant recipients == SaveRecipients(old(recipients), batch[..i])
        invariant claims == SaveClaims(old(claims), batch[..i])
        modifies this`airdrops, this`airdropIds, this`recipients, this`claims
      {
        assert batch[..i + 1][..i] == batch[..i];
        UpsertAirdrop(batch[i]);
        UpsertRecipient(batch[i]);
        if batch[i].name.TokenClaimed? { AppendClaim(batch[i]); }
      }
      assert batch[..|batch|] == batch;
    }
  }
}
