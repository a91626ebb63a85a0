/**
 * The webhook delivery log: delivery records, a per-webhook index of recent deliveries, a per-status
 * index, and the retry queue, all kept in sorted sets. Each create and update commits its record and
 * index writes together; the indexes are trimmed to a cap on every write.
 */
module DeliveryRepository {
  import opened Prelude
  import Sorting

  type Id = nat
  type WebhookId = nat

  const RECENT_DELIVERIES_LIMIT: nat := 100

  datatype Status = Pending | Success | Failed
  datatype Delivery = Delivery(webhook: WebhookId, status: Status, createdAt: int, attempts: nat)

  // ---------------------------------------------------------------- sorted sets

  /** A member with its score; members are ordered by score, then by id. */
  datatype Entry = Entry(score: int, id: Id)

  predicate Older(a: Entry, b: Entry) {
    a.score < b.score || (a.score == b.score && a.id < b.id)
  }

  ghost predicate Sorted(z: seq<Entry>) {
    forall i, j :: 0 <= i < j < |z| ==> Older(z[i], z[j])
  }

  function Ids(z: seq<Entry>): set<Id> {
    set e | e in z :: e.id
  }

  function Insert(z: seq<Entry>, e: Entry): seq<Entry> {
    Sorting.Insert(Older, e, z)
  }

  function ZRem(z: seq<Entry>, id: Id): seq<Entry> {
    if z == [] then [] else (if z[0].id == id then [] else [z[0]]) + ZRem(z[1..], id)
  }

  /** ZADD: a member already present moves to its new score. */
  function ZAdd(z: seq<Entry>, e: Entry): seq<Entry> {
    Insert(ZRem(z, e.id), e)
  }

  /** ZREMRANGEBYRANK 0 -(cap+1): drop the oldest members beyond the cap. */
  function Trim(z: seq<Entry>, cap: nat): seq<Entry> {
    if |z| <= cap then z else z[|z| - cap..]
  }

  function IndexWrite(z: seq<Entry>, e: Entry, cap: nat): seq<Entry> {
    Trim(ZAdd(z, e), cap)
  }

  function Reverse(z: seq<Entry>): (r: seq<Entry>)
    ensures |r| == |z| && forall i :: 0 <= i < |z| ==> r[i] == z[|z| - 1 - i]
  {
    if z == [] then [] else Reverse(z[1..]) + [z[0]]
  }

  /** ZREVRANGE 0 take-1: the newest members, newest first. */
  function ZRevRange(z: seq<Entry>, take: nat): seq<Entry> {
    Reverse(Trim(z, take))
  }

  lemma {:induction false} InsertMembers(z: seq<Entry>, e: Entry)
    ensures |Insert(z, e)| == |z| + 1 && forall x :: x in Insert(z, e) <==> x in z || x == e
    decreases |z|
  {
    if z != [] && !Older(e, z[0]) {
      InsertMembers(z[1..], e);
    }
  }

  lemma {:induction false} RemoveMembers(z: seq<Entry>, id: Id)
    ensures |ZRem(z, id)| <= |z| && forall x :: x in ZRem(z, id) <==> x in z && x.id != id
    decreases |z|
  {
    if z != [] {
      RemoveMembers(z[1..], id);
    }
  }

  lemma {:induction false} InsertSorts(z: seq<Entry>, e: Entry)
    requires Sorted(z) && e.id !in Ids(z)
    ensures Sorted(Insert(z, e))
    decreases |z|
  {
    if z != [] && !Older(e, z[0]) {
      assert z[0] in z && z[0].id in Ids(z);
      assert forall x :: x in z[1..] ==> x in z;
      InsertSorts(z[1..], e);
      InsertMembers(z[1..], e);
      assert forall x :: x in Insert(z[1..], e) ==> Older(z[0], x);
    }
  }

  lemma {:induction false} RemoveAbsent(z: seq<Entry>, id: Id)
    requires id !in Ids(z)
    ensures ZRem(z, id) == z
    decreases |z|
  {
    if z != [] {
      assert z[0] in z && z[0].id in Ids(z);
      assert forall e :: e in z[1..] ==> e in z;
      RemoveAbsent(z[1..], id);
    }
  }

  lemma {:induction false} RemoveKeepsSorted(z: seq<Entry>, id: Id)
    requires Sorted(z)
    ensures Sorted(ZRem(z, id)) && Ids(ZRem(z, id)) == Ids(z) - {id}
    decreases |z|
  {
    if z != [] {
      RemoveKeepsSorted(z[1..], id);
      RemoveMembers(z[1..], id);
      assert forall e :: e in ZRem(z[1..], id) ==> Older(z[0], e);
    }
    RemoveMembers(z, id);
  }

  // ---------------------------------------------------------------- trimming as we go is trimming at the end

  lemma {:induction false} InsertFirst(t: seq<Entry>, h: Entry, e: Entry)
    requires Sorted([h] + t) && Older(e, h)
    ensures Insert(t, e) == [e] + t
  {
    if t != [] {
      assert ([h] + t)[1] == t[0] && Older(([h] + t)[0], ([h] + t)[1]);
    }
  }

  /** The oldest member of a full set never survives the trim that follows an insert. */
  lemma {:induction false} OldestIsTrimmed(h: Entry, t: seq<Entry>, e: Entry, cap: nat)
    requires Sorted([h] + t) && |t| >= cap
    ensures Trim(Insert([h] + t, e), cap) == Trim(Insert(t, e), cap)
  {
    assert ([h] + t)[1..] == t;
    if Older(e, h) {
      InsertFirst(t, h, e);
      assert Insert([h] + t, e) == [e] + ([h] + t);
      TrimDropsOldest(e, [h] + t, cap);
      TrimDropsOldest(h, t, cap);
      TrimDropsOldest(e, t, cap);
    } else {
      InsertMembers(t, e);
      assert Insert([h] + t, e) == [h] + Insert(t, e);
      TrimDropsOldest(h, Insert(t, e), cap);
    }
  }

  lemma {:induction false} TrimDropsOldest(h: Entry, t: seq<Entry>, cap: nat)
    requires |t| >= cap
    ensures Trim([h] + t, cap) == Trim(t, cap)
  {
  }

  /** Dropping old members early loses nothing a later trim would keep. */
  lemma {:induction false} TrimBeforeInsert(z: seq<Entry>, e: Entry, cap: nat)
    requires Sorted(z)
    ensures Trim(Insert(Trim(z, cap), e), cap) == Trim(Insert(z, e), cap)
    decreases |z|
  {
    if |z| > cap {
      assert z == [z[0]] + z[1..];
      TrimBeforeInsert(z[1..], e, cap);
      OldestIsTrimmed(z[0], z[1..], e, cap);
      assert Trim(z[1..], cap) == Trim(z, cap);
    }
  }

  /** Every entry ever created, sorted. */
  function SortAll(log: seq<Entry>): seq<Entry> {
    if log == [] then [] else Insert(SortAll(log[..|log| - 1]), log[|log| - 1])
  }

  ghost predicate DistinctIds(log: seq<Entry>) {
    forall i, j :: 0 <= i < j < |log| ==> log[i].id != log[j].id
  }

  /** SortAll is a sort: ordered, and a permutation of the log. */
  lemma {:induction false} SortAllSorts(log: seq<Entry>)
    requires DistinctIds(log)
    ensures Sorted(SortAll(log)) && multiset(SortAll(log)) == multiset(log) && Ids(SortAll(log)) == Ids(log)
    decreases |log|
  {
    if log != [] {
      var rest, e := log[..|log| - 1], log[|log| - 1];
      SortAllSorts(rest);
      assert log == rest + [e];
      assert Ids(log) == Ids(rest) + {e.id};
      InsertSorts(SortAll(rest), e);
      Sorting.InsertAdds(Older, e, SortAll(rest));
      InsertMembers(SortAll(rest), e);
      assert Ids(SortAll(log)) == Ids(SortAll(rest)) + {e.id};
    }
  }

  /** One incremental index write equals sorting everything and trimming once. */
  lemma {:induction false} WriteIsTrimmedSort(log: seq<Entry>, e: Entry, cap: nat)
    requires DistinctIds(log) && e.id !in Ids(log)
    ensures IndexWrite(Trim(SortAll(log), cap), e, cap) == Trim(SortAll(log + [e]), cap)
  {
    var all := SortAll(log);
    SortAllSorts(log);
    assert forall x :: x in Trim(all, cap) ==> x in all;
    assert e.id !in Ids(Trim(all, cap));
    RemoveAbsent(Trim(all, cap), e.id);
    TrimBeforeInsert(all, e, cap);
    assert (log + [e])[..|log|] == log;
  }

  // ---------------------------------------------------------------- create and update

  datatype Repo = Repo(
    records: map<Id, Delivery>,
    index: map<WebhookId, seq<Entry>>,
    statusIndex: map<(WebhookId, Status), seq<Entry>>)

  const EMPTY := Repo(map[], map[], map[])

  function IndexOf(repo: Repo, w: WebhookId): seq<Entry> {
    if w in repo.index then repo.index[w] else []
  }

  function StatusIndexOf(repo: Repo, w: WebhookId, st: Status): seq<Entry> {
    if (w, st) in repo.statusIndex then repo.statusIndex[(w, st)] else []
  }

  datatype Op =
    | Create(id: Id, webhook: WebhookId, now: int)
    | Update(id: Id, status: Option<Status>, attempts: Option<nat>)

  function Apply(repo: Repo, op: Op, cap: nat): Repo {
    match op
    case Create(id, w, now) =>
      Repo(
        repo.records[id := Delivery(w, Pending, now, 0)],
        repo.index[w := IndexWrite(IndexOf(repo, w), Entry(now, id), cap)],
        repo.statusIndex[(w, Pending) := IndexWrite(StatusIndexOf(repo, w, Pending), Entry(now, id), cap)])
    case Update(id, status, attempts) =>
      if id !in repo.records then repo else Commit(repo, id, repo.records[id], status, attempts, cap)
  }

  function Patched(d: Delivery, status: Option<Status>, attempts: Option<nat>): Delivery {
    d.(attempts := if attempts.Some? then attempts.value else d.attempts,
       status := if status.Some? then status.value else d.status)
  }

  /** The transaction of an update, built from the record `d` that was read before it. */
  function Commit(repo: Repo, id: Id, d: Delivery, status: Option<Status>, attempts: Option<nat>, cap: nat): Repo {
    var next := Patched(d, status, attempts);
    repo.(records := repo.records[id := next],
          statusIndex := if next.status == d.status then repo.statusIndex else Moved(repo, id, d, next.status, cap))
  }

  /** The status-index move: out of the index of the status read, into the new one at the creation score. */
  function Moved(repo: Repo, id: Id, d: Delivery, st: Status, cap: nat): map<(WebhookId, Status), seq<Entry>> {
    repo.statusIndex
      [(d.webhook, d.status) := ZRem(StatusIndexOf(repo, d.webhook, d.status), id)]
      [(d.webhook, st) := IndexWrite(StatusIndexOf(repo, d.webhook, st), Entry(d.createdAt, id), cap)]
  }

  function ApplyAll(ops: seq<Op>, cap: nat): Repo {
    if ops == [] then EMPTY else Apply(ApplyAll(ops[..|ops| - 1], cap), ops[|ops| - 1], cap)
  }

  /** Delivery ids are random: no two creates share one. */
  ghost predicate FreshIds(ops: seq<Op>) {
    forall i, j :: 0 <= i < j < |ops| && ops[i].Create? && ops[j].Create? ==> ops[i].id != ops[j].id
  }

  function CreatedFor(ops: seq<Op>, w: WebhookId): seq<Entry> {
    if ops == [] then []
    else
      var op := ops[|ops| - 1];
      CreatedFor(ops[..|ops| - 1], w) + (if op.Create? && op.webhook == w then [Entry(op.now, op.id)] else [])
  }

  lemma {:induction false} CreatedForIds(ops: seq<Op>, w: WebhookId, id: Id)
    ensures id in Ids(CreatedFor(ops, w)) ==> exists i :: 0 <= i < |ops| && ops[i].Create? && ops[i].id == id
    decreases |ops|
  {
    if ops != [] && id in Ids(CreatedFor(ops, w)) {
      var n := |ops| - 1;
      CreatedForIds(ops[..n], w, id);
      if id in Ids(CreatedFor(ops[..n], w)) {
        var i :| 0 <= i < n && ops[..n][i].Create? && ops[..n][i].id == id;
        assert ops[i].Create? && ops[i].id == id;
      } else {
        assert ops[n].Create? && ops[n].id == id;
      }
    }
  }

  lemma {:induction false} CreatedForDistinct(ops: seq<Op>, w: WebhookId)
    requires FreshIds(ops)
    ensures DistinctIds(CreatedFor(ops, w))
    decreases |ops|
  {
    if ops != [] {
      var n := |ops| - 1;
      CreatedForDistinct(ops[..n], w);
      if ops[n].Create? {
        CreatedForIds(ops[..n], w, ops[n].id);
        assert forall e :: e in CreatedFor(ops[..n], w) ==> e.id in Ids(CreatedFor(ops[..n], w));
      }
    }
  }

  lemma {:induction false} LastCreateIsFresh(ops: seq<Op>, w: WebhookId)
    requires FreshIds(ops) && ops != [] && ops[|ops| - 1].Create?
    ensures ops[|ops| - 1].id !in Ids(CreatedFor(ops[..|ops| - 1], w))
  {
    CreatedForIds(ops[..|ops| - 1], w, ops[|ops| - 1].id);
  }

  lemma {:induction false} IndexAfter(repo: Repo, op: Op, cap: nat, w: WebhookId)
    ensures IndexOf(Apply(repo, op, cap), w)
      == if op.Create? && op.webhook == w then IndexWrite(IndexOf(repo, w), Entry(op.now, op.id), cap)
        else IndexOf(repo, w)
  {
  }

  /**
   * After any creates and updates, a webhook's index is exactly the newest `cap` of all deliveries
   * ever created for it, though it was only ever trimmed incrementally.
   */
  lemma {:induction false} IndexIsNewestOfAll(ops: seq<Op>, w: WebhookId, cap: nat)
    requires FreshIds(ops)
    ensures IndexOf(ApplyAll(ops, cap), w) == Trim(SortAll(CreatedFor(ops, w)), cap)
    decreases |ops|
  {
    if ops != [] {
      var before, op := ops[..|ops| - 1], ops[|ops| - 1];
      IndexIsNewestOfAll(before, w, cap);
      IndexAfter(ApplyAll(before, cap), op, cap, w);
      if op.Create? && op.webhook == w {
        LastCreateIsFresh(ops, w);
        CreatedForDistinct(before, w);
        WriteIsTrimmedSort(CreatedFor(before, w), Entry(op.now, op.id), cap);
      } else {
        assert CreatedFor(ops, w) == CreatedFor(before, w);
      }
    }
  }

  /** So listing up to 100 deliveries of a webhook is sorting all of them and taking the newest. */
  lemma {:induction false} ListingIsSortAllThenTake(ops: seq<Op>, w: WebhookId, take: nat)
    requires FreshIds(ops) && take <= RECENT_DELIVERIES_LIMIT
    ensures ZRevRange(IndexOf(ApplyAll(ops, RECENT_DELIVERIES_LIMIT), w), take) ==
      ZRevRange(SortAll(CreatedFor(ops, w)), take)
  {
    IndexIsNewestOfAll(ops, w, RECENT_DELIVERIES_LIMIT);
    TrimTwice(SortAll(CreatedFor(ops, w)), RECENT_DELIVERIES_LIMIT, take);
  }

  lemma {:induction false} TrimTwice(all: seq<Entry>, cap: nat, take: nat)
    requires take <= cap
    ensures Trim(Trim(all, cap), take) == Trim(all, take)
  {
  }

  // ---------------------------------------------------------------- what a listing holds

  /** The newest `take` of `all`, newest first: by creation time, then by id. */
  ghost predicate NewestFirst(z: seq<Entry>, all: seq<Entry>, take: nat) {
    && |z| == Min(take, |all|) && (forall e :: e in z ==> e in all)
    && (forall i, j :: 0 <= i < j < |z| ==>
         z[j].score < z[i].score || (z[j].score == z[i].score && z[j].id < z[i].id))
    && (forall e, f :: e in all && e !in z && f in z ==> e.score < f.score || (e.score == f.score && e.id < f.id))
  }

  /** The last members of a sequence, last first. */
  ghost predicate RevHead(z: seq<Entry>, all: seq<Entry>, take: nat) {
    |z| == Min(take, |all|) && forall i :: 0 <= i < |z| ==> z[i] == all[|all| - 1 - i]
  }

  lemma {:induction false} ZRevRangeIsRevHead(all: seq<Entry>, take: nat)
    ensures RevHead(ZRevRange(all, take), all, take)
  {
  }

  lemma {:induction false} RevHeadIsNewest(z: seq<Entry>, all: seq<Entry>, take: nat)
    requires Sorted(all) && RevHead(z, all, take)
    ensures NewestFirst(z, all, take)
  {
    var n := |all|;
    forall e | e in z ensures e in all {
      var i :| 0 <= i < |z| && z[i] == e;
      assert all[n - 1 - i] in all;
    }
    forall i, j | 0 <= i < j < |z| ensures Older(z[j], z[i]) {
      assert z[i] == all[n - 1 - i] && z[j] == all[n - 1 - j];
    }
    forall b | n - |z| <= b < n ensures all[b] in z { assert z[n - 1 - b] == all[b]; }
    forall e, f | e in all && e !in z && f in z ensures Older(e, f) {
      var a :| 0 <= a < n && all[a] == e;
      var i :| 0 <= i < |z| && z[i] == f;
      assert f == all[n - 1 - i];
    }
  }

  lemma {:induction false} SameMembersNewest(z: seq<Entry>, a: seq<Entry>, b: seq<Entry>, take: nat)
    requires NewestFirst(z, a, take) && multiset(a) == multiset(b)
    ensures NewestFirst(z, b, take)
  {
    assert |multiset(a)| == |multiset(b)|;
    forall e ensures e in a <==> e in b { assert e in multiset(a) <==> e in multiset(b); }
  }

  /** A listing of up to 100 is the newest deliveries ever created for the webhook, newest first. */
  lemma {:induction false} ListingIsNewestFirst(ops: seq<Op>, w: WebhookId, take: nat)
    requires FreshIds(ops) && take <= RECENT_DELIVERIES_LIMIT
    ensures NewestFirst(ZRevRange(IndexOf(ApplyAll(ops, RECENT_DELIVERIES_LIMIT), w), take), CreatedFor(ops, w), take)
  {
    var created := CreatedFor(ops, w);
    var all := SortAll(created);
    ListingIsSortAllThenTake(ops, w, take);
    CreatedForDistinct(ops, w);
    SortAllSorts(created);
    ZRevRangeIsRevHead(all, take);
    RevHeadIsNewest(ZRevRange(all, take), all, take);
    SameMembersNewest(ZRevRange(all, take), all, created, take);
  }

  /** The entries created for a webhook are those of its create operations. */
  lemma {:induction false} CreatedForMembers(ops: seq<Op>, w: WebhookId, e: Entry)
    ensures e in CreatedFor(ops, w) <==> exists k :: 0 <= k < |ops| && ops[k] == Create(e.id, w, e.score)
    decreases |ops|
  {
    if ops != [] {
      var n := |ops| - 1;
      CreatedForMembers(ops[..n], w, e);
      assert forall k :: 0 <= k < n ==> ops[..n][k] == ops[k];
    }
  }

  /** The status, and the attempts, a history leaves a delivery with: those of the last update that set them. */
  function StatusIn(ops: seq<Op>, id: Id): Status {
    if ops == [] then Pending
    else
      var op := ops[|ops| - 1];
      if op.id == id && op.Create? then Pending
      else if op.id == id && op.Update? && op.status.Some? then op.status.value
      else StatusIn(ops[..|ops| - 1], id)
  }

  function AttemptsIn(ops: seq<Op>, id: Id): nat {
    if ops == [] then 0
    else
      var op := ops[|ops| - 1];
      if op.id == id && op.Create? then 0
      else if op.id == id && op.Update? && op.attempts.Some? then op.attempts.value
      else AttemptsIn(ops[..|ops| - 1], id)
  }

  /** A record is what its create and its last updates say, whatever was trimmed. */
  lemma {:induction false} RecordReadOffTheHistory(ops: seq<Op>, cap: nat, id: Id, w: WebhookId, now: int, k: nat)
    requires FreshIds(ops) && k < |ops| && ops[k] == Create(id, w, now)
    ensures id in ApplyAll(ops, cap).records
    ensures ApplyAll(ops, cap).records[id] == Delivery(w, StatusIn(ops, id), now, AttemptsIn(ops, id))
    decreases |ops|
  {
    var n := |ops| - 1;
    var was := ApplyAll(ops[..n], cap);
    if k < n {
      RecordReadOffTheHistory(ops[..n], cap, id, w, now, k);
      assert ops[n].Create? ==> ops[n].id != id;
    }
    RecordAfter(was, ops[n], cap, id);
  }

  /** One operation writes the record of its own delivery and of no other. */
  lemma {:induction false} RecordAfter(repo: Repo, op: Op, cap: nat, id: Id)
    ensures var records := Apply(repo, op, cap).records;
      if op.id != id then (id in records <==> id in repo.records) && (id in records ==> records[id] == repo.records[id])
      else match op
        case Create(_, w, now) => id in records && records[id] == Delivery(w, Pending, now, 0)
        case Update(_, status, attempts) =>
          && (id in records <==> id in repo.records)
          && (id in records ==>
               records[id] == Delivery(
                 repo.records[id].webhook, if status.Some? then status.value else repo.records[id].status,
                 repo.records[id].createdAt, if attempts.Some? then attempts.value else repo.records[id].attempts))
  {
  }

  /** With every record present, a listing's records are those of its entries, in their order ... */
  lemma {:induction false} HydratesEach(records: map<Id, Delivery>, z: seq<Entry>)
    requires forall e :: e in z ==> e.id in records
    ensures |Hydrate(records, z)| == |z| && forall i :: 0 <= i < |z| ==> Hydrate(records, z)[i] == records[z[i].id]
  {
    if z != [] { HydratesEach(records, z[..|z| - 1]); }
  }

  /** ... and an entry whose record is gone is passed over. */
  lemma {:induction false} HydrateSkips(records: map<Id, Delivery>, a: seq<Entry>, e: Entry, b: seq<Entry>)
    requires e.id !in records
    ensures Hydrate(records, a + [e] + b) == Hydrate(records, a + b)
    decreases |b|
  {
    if b == [] {
      assert (a + [e] + b)[..|a|] == a && a + b == a;
    } else {
      var n := |b| - 1;
      HydrateSkips(records, a, e, b[..n]);
      assert (a + [e] + b)[..|a| + 1 + n] == a + [e] + b[..n] && (a + b)[..|a| + n] == a + b[..n];
    }
  }

  /**
   * So a listing returns the records of the webhook's newest deliveries, newest first, as their histories left them.
   */
  lemma {:induction false} ListedRecords(ops: seq<Op>, w: WebhookId, take: nat, i: nat)
    requires FreshIds(ops) && take <= RECENT_DELIVERIES_LIMIT && i < Min(take, |CreatedFor(ops, w)|)
    ensures var repo := ApplyAll(ops, RECENT_DELIVERIES_LIMIT); var z := ZRevRange(IndexOf(repo, w), take);
      && |Hydrate(repo.records, z)| == |z| == Min(take, |CreatedFor(ops, w)|)
      && Hydrate(repo.records, z)[i] == Delivery(w, StatusIn(ops, z[i].id), z[i].score, AttemptsIn(ops, z[i].id))
  {
    var repo := ApplyAll(ops, RECENT_DELIVERIES_LIMIT);
    var z := ZRevRange(IndexOf(repo, w), take);
    ListingIsNewestFirst(ops, w, take);
    forall e | e in z
      ensures e.id in repo.records
      ensures repo.records[e.id] == Delivery(w, StatusIn(ops, e.id), e.score, AttemptsIn(ops, e.id))
    {
      CreatedForMembers(ops, w, e);
      var k :| 0 <= k < |ops| && ops[k] == Create(e.id, w, e.score);
      RecordReadOffTheHistory(ops, RECENT_DELIVERIES_LIMIT, e.id, w, e.score, k);
    }
    HydratesEach(repo.records, z);
    assert z[i] in z;
  }

  // ---------------------------------------------------------------- status indexes

  ghost predicate StatusIndexOk(repo: Repo, w: WebhookId, st: Status, cap: nat) {
    var z := StatusIndexOf(repo, w, st);
    Sorted(z) && |z| <= cap && forall e :: e in z ==> Points(repo, w, st, e)
  }

  /** The index entry names a stored delivery of this webhook, in this status, at its creation time. */
  ghost predicate Points(repo: Repo, w: WebhookId, st: Status, e: Entry) {
    e.id in repo.records && repo.records[e.id].webhook == w && repo.records[e.id].status == st
      && repo.records[e.id].createdAt == e.score
  }

  ghost predicate StatusInv(repo: Repo, cap: nat) {
    forall w: WebhookId, st :: StatusIndexOk(repo, w, st, cap)
  }

  lemma {:induction false} IndexWriteOk(z: seq<Entry>, e: Entry, cap: nat)
    requires Sorted(z) && e.id !in Ids(z)
    ensures var r := IndexWrite(z, e, cap);
      Sorted(r) && |r| <= cap && (forall x :: x in r ==> x in z || x == e)
        && (|z| < cap ==> forall x :: x in r <==> x in z || x == e)
  {
    RemoveAbsent(z, e.id);
    InsertSorts(z, e);
    InsertMembers(z, e);
    var all := Insert(z, e);
    assert forall x :: x in Trim(all, cap) ==> x in all;
  }

  predicate Has(repo: Repo, id: Id, w: WebhookId, st: Status) {
    id in repo.records && repo.records[id].webhook == w && repo.records[id].status == st
  }

  /** A status index changes only when the delivery written enters or leaves that status. */
  lemma {:induction false} StatusIndexAfter(repo: Repo, op: Op, cap: nat, w: WebhookId, st: Status)
    requires op.Create? ==> op.id !in repo.records
    ensures var repo' := Apply(repo, op, cap);
      var z, was, now := StatusIndexOf(repo, w, st), Has(repo, op.id, w, st), Has(repo', op.id, w, st);
      StatusIndexOf(repo', w, st) ==
        if now && !was then IndexWrite(z, Entry(repo'.records[op.id].createdAt, op.id), cap)
          else if was && !now then ZRem(z, op.id) else z
  {
  }

  lemma {:induction false} StatusIndexStaysOk(repo: Repo, op: Op, cap: nat, w: WebhookId, st: Status)
    requires StatusIndexOk(repo, w, st, cap) && (op.Create? ==> op.id !in repo.records)
    ensures StatusIndexOk(Apply(repo, op, cap), w, st, cap)
  {
    var repo' := Apply(repo, op, cap);
    var z, z' := StatusIndexOf(repo, w, st), StatusIndexOf(repo', w, st);
    StatusIndexAfter(repo, op, cap, w, st);
    forall e | e in z ensures Points(repo, w, st, e) && (e.id == op.id ==> Has(repo, op.id, w, st)) { }
    if Has(repo', op.id, w, st) && !Has(repo, op.id, w, st) {
      IndexWriteOk(z, Entry(repo'.records[op.id].createdAt, op.id), cap);
    } else if Has(repo, op.id, w, st) && !Has(repo', op.id, w, st) {
      RemoveKeepsSorted(z, op.id);
      RemoveMembers(z, op.id);
    }
    forall e | e in z' ensures Points(repo', w, st, e) {
      if e in z { PointsAfter(repo, op, cap, w, st, e); }
    }
  }

  /** An entry that points right still does, unless its own delivery left the status. */
  lemma {:induction false} PointsAfter(repo: Repo, op: Op, cap: nat, w: WebhookId, st: Status, e: Entry)
    requires Points(repo, w, st, e) && (op.Create? ==> op.id !in repo.records)
    ensures var repo' := Apply(repo, op, cap); (e.id == op.id ==> Has(repo', op.id, w, st)) ==> Points(repo', w, st, e)
  {
  }

  /** Every step keeps every status index honest, sorted and capped. */
  lemma {:induction false} StepKeepsStatusInv(repo: Repo, op: Op, cap: nat)
    requires StatusInv(repo, cap) && (op.Create? ==> op.id !in repo.records)
    ensures StatusInv(Apply(repo, op, cap), cap)
  {
    forall w: WebhookId, st ensures StatusIndexOk(Apply(repo, op, cap), w, st, cap) {
      assert StatusIndexOk(repo, w, st, cap);
      StatusIndexStaysOk(repo, op, cap, w, st);
    }
  }

  lemma {:induction false} RecordsAreCreated(ops: seq<Op>, cap: nat, id: Id)
    ensures id in ApplyAll(ops, cap).records ==> exists i :: 0 <= i < |ops| && ops[i].Create? && ops[i].id == id
    decreases |ops|
  {
    if ops != [] && id in ApplyAll(ops, cap).records {
      var n := |ops| - 1;
      RecordsAreCreated(ops[..n], cap, id);
      if id in ApplyAll(ops[..n], cap).records {
        var i :| 0 <= i < n && ops[..n][i].Create? && ops[..n][i].id == id;
        assert ops[i].Create? && ops[i].id == id;
      } else {
        assert ops[n].Create? && ops[n].id == id;
      }
    }
  }

  /**
   * Over any history: indexed ids exist with that status and webhook, no id is in two status indexes, none exceeds the
   * cap.
   */
  lemma {:induction false} StatusIndexesAreHonest(ops: seq<Op>, cap: nat)
    requires FreshIds(ops)
    ensures StatusInv(ApplyAll(ops, cap), cap)
    ensures forall w: WebhookId, v: WebhookId, st, su, e, f ::
      (e in StatusIndexOf(ApplyAll(ops, cap), w, st) && f in StatusIndexOf(ApplyAll(ops, cap), v, su)
        && e.id == f.id) ==> w == v && st == su
    decreases |ops|
  {
    if ops != [] {
      var n := |ops| - 1;
      StatusIndexesAreHonest(ops[..n], cap);
      RecordsAreCreated(ops[..n], cap, ops[n].id);
      StepKeepsStatusInv(ApplyAll(ops[..n], cap), ops[n], cap);
    }
    var repo := ApplyAll(ops, cap);
    forall w: WebhookId, v: WebhookId, st, su, e, f | e in StatusIndexOf(repo, w, st)
      && f in StatusIndexOf(repo, v, su) && e.id == f.id
      ensures w == v && st == su
    {
      assert StatusIndexOk(repo, w, st, cap) && StatusIndexOk(repo, v, su, cap);
    }
  }

  /** A status listing is the newest of its index, newest first, and its records have that status and webhook. */
  lemma {:induction false} StatusListingIsNewestFirst(ops: seq<Op>, w: WebhookId, st: Status, cap: nat, take: nat)
    requires FreshIds(ops)
    ensures var repo := ApplyAll(ops, cap); var z := ZRevRange(StatusIndexOf(repo, w, st), take);
      && NewestFirst(z, StatusIndexOf(repo, w, st), take)
      && forall e :: e in z ==>
           && e.id in repo.records && repo.records[e.id].webhook == w
           && repo.records[e.id].status == st && repo.records[e.id].createdAt == e.score
  {
    var repo := ApplyAll(ops, cap);
    var all := StatusIndexOf(repo, w, st);
    StatusIndexesAreHonest(ops, cap);
    assert StatusIndexOk(repo, w, st, cap);
    ZRevRangeIsRevHead(all, take);
    RevHeadIsNewest(ZRevRange(all, take), all, take);
    forall e | e in ZRevRange(all, take) ensures Points(repo, w, st, e) { }
  }

  // ---------------------------------------------------------------- when a status listing is complete

  ghost function WithStatus(repo: Repo, w: WebhookId, st: Status): set<Id> {
    set id | id in repo.records && repo.records[id].webhook == w && repo.records[id].status == st
  }

  ghost predicate Complete(repo: Repo, w: WebhookId, st: Status) {
    Ids(StatusIndexOf(repo, w, st)) == WithStatus(repo, w, st)
  }

  lemma {:induction false} IdsSize(z: seq<Entry>)
    requires Sorted(z) && DistinctIds(z)
    ensures |Ids(z)| == |z|
    decreases |z|
  {
    if z != [] {
      IdsSize(z[1..]);
      assert Ids(z) == {z[0].id} + Ids(z[1..]);
    } else {
      assert Ids(z) == {};
    }
  }

  lemma {:induction false} IndexedOnce(repo: Repo, w: WebhookId, st: Status, cap: nat)
    requires StatusIndexOk(repo, w, st, cap)
    ensures DistinctIds(StatusIndexOf(repo, w, st))
  {
    var z := StatusIndexOf(repo, w, st);
    forall i, j | 0 <= i < j < |z| ensures z[i].id != z[j].id {
      assert Points(repo, w, st, z[i]) && Points(repo, w, st, z[j]) && Older(z[i], z[j]);
    }
  }

  /** As long as no more than `cap` deliveries share a status, that status index lists all of them. */
  lemma {:induction false} CompleteWhileWithinCap(repo: Repo, op: Op, w: WebhookId, st: Status, cap: nat)
    requires StatusInv(repo, cap) && (op.Create? ==> op.id !in repo.records)
    requires Complete(repo, w, st) && |WithStatus(Apply(repo, op, cap), w, st)| <= cap
    ensures Complete(Apply(repo, op, cap), w, st)
  {
    var repo' := Apply(repo, op, cap);
    var z := StatusIndexOf(repo, w, st);
    assert StatusIndexOk(repo, w, st, cap);
    StatusIndexAfter(repo, op, cap, w, st);
    WithStatusAfter(repo, op, cap, w, st);
    if Has(repo', op.id, w, st) && !Has(repo, op.id, w, st) {
      IndexedOnce(repo, w, st, cap);
      IdsSize(z);
      WriteWithinCap(z, Entry(repo'.records[op.id].createdAt, op.id), cap);
    } else if Has(repo, op.id, w, st) && !Has(repo', op.id, w, st) {
      RemoveKeepsSorted(z, op.id);
    }
  }

  lemma {:induction false} WithStatusAfter(repo: Repo, op: Op, cap: nat, w: WebhookId, st: Status)
    requires op.Create? ==> op.id !in repo.records
    ensures var repo' := Apply(repo, op, cap); var ids := WithStatus(repo, w, st);
      WithStatus(repo', w, st) == if Has(repo', op.id, w, st) then ids + {op.id} else ids - {op.id}
  {
    var repo' := Apply(repo, op, cap);
    assert forall id: Id :: id in WithStatus(repo', w, st) <==> Has(repo', id, w, st);
    assert forall id: Id :: id in WithStatus(repo, w, st) <==> Has(repo, id, w, st);
    assert forall id: Id :: id != op.id ==> (Has(repo', id, w, st) <==> Has(repo, id, w, st));
  }

  lemma {:induction false} WriteWithinCap(z: seq<Entry>, e: Entry, cap: nat)
    requires Sorted(z) && e.id !in Ids(z) && |z| < cap
    ensures Ids(IndexWrite(z, e, cap)) == Ids(z) + {e.id}
  {
    IndexWriteOk(z, e, cap);
    assert e in IndexWrite(z, e, cap);
  }

  /** After `k` operations no more than `cap` deliveries have the status. */
  ghost predicate FewAt(ops: seq<Op>, k: nat, w: WebhookId, st: Status, cap: nat)
    requires k <= |ops|
  {
    |WithStatus(ApplyAll(ops[..k], cap), w, st)| <= cap
  }

  /** Over a whole history: a status that never holds more than `cap` deliveries is listed in full. */
  lemma {:induction false} StatusListingIsComplete(ops: seq<Op>, w: WebhookId, st: Status, cap: nat)
    requires FreshIds(ops)
    requires forall k :: 0 <= k <= |ops| ==> FewAt(ops, k, w, st, cap)
    ensures Complete(ApplyAll(ops, cap), w, st)
    decreases |ops|
  {
    if ops != [] {
      var n := |ops| - 1;
      var before := ops[..n];
      forall k | 0 <= k <= n ensures FewAt(before, k, w, st, cap) {
        assert before[..k] == ops[..k] && FewAt(ops, k, w, st, cap);
      }
      StatusListingIsComplete(before, w, st, cap);
      StatusIndexesAreHonest(before, cap);
      RecordsAreCreated(before, cap, ops[n].id);
      assert ops[..|ops|] == ops && FewAt(ops, |ops|, w, st, cap);
      CompleteWhileWithinCap(ApplyAll(before, cap), ops[n], w, st, cap);
    }
  }

  lemma {:induction false} RemoveShortens(z: seq<Entry>, e: Entry)
    requires DistinctIds(z) && e in z
    ensures |ZRem(z, e.id)| == |z| - 1
    decreases |z|
  {
    if z[0].id == e.id {
      assert forall x :: x in z[1..] ==> x.id != e.id by {
        forall x | x in z[1..] ensures x.id != e.id {
          var j :| 0 <= j < |z[1..]| && z[1..][j] == x;
          assert z[j + 1] == x;
        }
      }
      RemoveAbsent(z[1..], e.id);
    } else {
      RemoveShortens(z[1..], e);
    }
  }

  /**
   * Once more than `cap` share the status, moving an indexed one out leaves the index one short of
   * the newest `cap`: removal never brings back what trimming dropped. Exactly then, not otherwise.
   */
  lemma {:induction false} RemovalKeepsNewestIffWithinCap(all: seq<Entry>, e: Entry, cap: nat)
    requires Sorted(all) && DistinctIds(all) && e in Trim(all, cap)
    ensures ZRem(Trim(all, cap), e.id) == Trim(ZRem(all, e.id), cap) <==> |all| <= cap
  {
    assert forall i :: 0 <= i < |Trim(all, cap)| ==> Trim(all, cap)[i] in all;
    assert DistinctIds(Trim(all, cap));
    RemoveShortens(Trim(all, cap), e);
    RemoveShortens(all, e);
  }

  // ---------------------------------------------------------------- the retry queue

  /** ZADD leaves one entry for the member, at its new score, and every other entry as it was. */
  lemma {:induction false} ZAddReplaces(z: seq<Entry>, e: Entry)
    ensures Sorted(z) ==> Sorted(ZAdd(z, e))
    ensures forall x :: x in ZAdd(z, e) <==> x == e || (x in z && x.id != e.id)
  {
    RemoveMembers(z, e.id);
    InsertMembers(ZRem(z, e.id), e);
    if Sorted(z) {
      RemoveKeepsSorted(z, e.id);
      InsertSorts(ZRem(z, e.id), e);
    }
  }

  /** How many members a pop takes: the due ones, oldest first, at most `max`. */
  function DueCount(z: seq<Entry>, now: int, max: nat): (n: nat)
    ensures n <= |z| && n <= max
    ensures forall i :: 0 <= i < n ==> z[i].score <= now
    ensures n < |z| && n < max ==> z[n].score > now
  {
    if z == [] || max == 0 || z[0].score > now then 0 else 1 + DueCount(z[1..], now, max - 1)
  }

  lemma {:induction false} DueStep(z: seq<Entry>, n: nat, now: int, max: nat)
    requires n < |z| && n < max && z[n].score <= now
    ensures DueCount(z[n..], now, max - n) == 1 + DueCount(z[n + 1..], now, max - n - 1)
    ensures IdList(z[..n + 1]) == IdList(z[..n]) + [z[n].id]
  {
    assert z[n..][1..] == z[n + 1..];
  }

  lemma {:induction false} DueStops(z: seq<Entry>, n: nat, now: int, max: nat)
    requires n <= |z| && n <= max && (n == |z| || n == max || z[n].score > now)
    requires DueCount(z, now, max) == n + DueCount(z[n..], now, max - n)
    ensures PopDue(z, now, max) == (z[..n], z[n..])
  {
    assert DueCount(z[n..], now, max - n) == 0;
  }

  function IdList(z: seq<Entry>): (ids: seq<Id>)
    ensures |ids| == |z| && forall i :: 0 <= i < |z| ==> ids[i] == z[i].id
  {
    seq(|z|, i requires 0 <= i < |z| => z[i].id)
  }

  /** The Lua script's ZRANGEBYSCORE + ZREM. */
  function PopDue(z: seq<Entry>, now: int, max: nat): (r: (seq<Entry>, seq<Entry>))
    ensures r.0 + r.1 == z
  {
    var n := DueCount(z, now, max);
    (z[..n], z[n..])
  }

  /** A pop takes exactly a due part of the queue, oldest first, and concurrent pops can never share an id. */
  lemma {:induction false} PopsAreDisjoint(z: seq<Entry>, now: int, max: nat, now2: int, max2: nat)
    requires Sorted(z) && DistinctIds(z)
    ensures var (a, rest) := PopDue(z, now, max); var (b, rest2) := PopDue(rest, now2, max2);
      && Ids(a) !! Ids(b) && Ids(a) !! Ids(rest2) && Ids(b) !! Ids(rest2)
      && (forall e :: e in a ==> e.score <= now) && |a| <= max
        && (|a| < max ==> forall e :: e in rest ==> e.score > now)
  {
    var (a, rest) := PopDue(z, now, max);
    var (b, rest2) := PopDue(rest, now2, max2);
    SplitIds(a, rest);
    SplitIds(b, rest2);
    PopTakesTheDue(z, now, max);
  }

  /** The two parts of a queue without repeated ids share none. */
  lemma {:induction false} SplitIds(a: seq<Entry>, b: seq<Entry>)
    requires DistinctIds(a + b)
    ensures Ids(a) !! Ids(b) && Ids(a + b) == Ids(a) + Ids(b) && DistinctIds(b)
  {
    var z := a + b;
    forall i, j | 0 <= i < |a| && 0 <= j < |b| ensures a[i].id != b[j].id {
      assert z[i] == a[i] && z[|a| + j] == b[j];
    }
    forall i, j | 0 <= i < j < |b| ensures b[i].id != b[j].id {
      assert z[|a| + i] == b[i] && z[|a| + j] == b[j];
    }
  }

  lemma {:induction false} PopTakesTheDue(z: seq<Entry>, now: int, max: nat)
    requires Sorted(z)
    ensures var (a, rest) := PopDue(z, now, max);
      (forall e :: e in a ==> e.score <= now) && |a| <= max && (|a| < max ==> forall e :: e in rest ==> e.score > now)
  {
    var (a, rest) := PopDue(z, now, max);
    var n := DueCount(z, now, max);
    if n < max {
      forall i | 0 <= i < |rest| ensures rest[i].score > now {
        assert rest[i] == z[n + i] && z[n].score > now;
        assert i > 0 ==> Older(z[n], z[n + i]);
      }
    }
  }

  // ---------------------------------------------------------------- the repository itself

  class Repository {
    var records: map<Id, Delivery>
    var index: map<WebhookId, seq<Entry>>
    var statusIndex: map<(WebhookId, Status), seq<Entry>>
    var retries: seq<Entry>

    function View(): Repo reads this { Repo(records, index, statusIndex) }

    constructor ()
      ensures View() == EMPTY && retries == []
    {
      records, index, statusIndex, retries := map[], map[], map[], [];
    }

    /** `webhookExists` is the answer of the webhook repository; an unknown webhook is an error. */
    method CreateDelivery(id: Id, webhook: WebhookId, now: int, webhookExists: bool) returns (created: Option<Delivery>)
      modifies this`records, this`index, this`statusIndex
      ensures created.Some? <==> webhookExists
      ensures View() == if webhookExists
        then Apply(old(View()), Create(id, webhook, now), RECENT_DELIVERIES_LIMIT) else old(View())
      ensures created.Some? ==> created.value == records[id]
    {
      if !webhookExists { return None; }
      var record := Delivery(webhook, Pending, now, 0);
      var e := Entry(now, id);
      var z := if webhook in index then index[webhook] else [];
      var p := if (webhook, Pending) in statusIndex then statusIndex[(webhook, Pending)] else [];
      records := records[id := record];
      index := index[webhook := IndexWrite(z, e, RECENT_DELIVERIES_LIMIT)];
      statusIndex := statusIndex[(webhook, Pending) := IndexWrite(p, e, RECENT_DELIVERIES_LIMIT)];
      return Some(record);
    }

    /** An update that nothing interleaves with. */
    method UpdateDelivery(id: Id, status: Option<Status>, attempts: Option<nat>) returns (updated: Option<Delivery>)
      modifies this`records, this`statusIndex
      ensures updated.Some? <==> id in old(records)
      ensures updated.Some? ==> id in records && updated.value == records[id]
      ensures View() == Apply(old(View()), Update(id, status, attempts), RECENT_DELIVERIES_LIMIT)
    {
      if id !in records { return None; }
      var next := CommitUpdate(id, records[id], status, attempts);
      return Some(next);
    }

    /** The transaction alone, from the record that was read. */
    method CommitUpdate(
      id: Id, existing: Delivery, status: Option<Status>, attempts: Option<nat>) returns (next: Delivery)
      modifies this`records, this`statusIndex
      ensures View() == Commit(old(View()), id, existing, status, attempts, RECENT_DELIVERIES_LIMIT)
      ensures next == records[id]
    {
      next := existing;
      if attempts.Some? { next := next.(attempts := attempts.value); }
      if status.Some? { next := next.(status := status.value); }
      if status.Some? && status.value != existing.status {
        var from, to := (existing.webhook, existing.status), (existing.webhook, status.value);
        var z := if from in statusIndex then statusIndex[from] else [];
        var p := if to in statusIndex then statusIndex[to] else [];
        statusIndex := statusIndex[from := ZRem(z, id)];
        statusIndex := statusIndex[to := IndexWrite(p, Entry(existing.createdAt, id), RECENT_DELIVERIES_LIMIT)];
      }
      records := records[id := next];
    }

    /** The stored records behind the newest `take` index entries, newest first. */
    method ListByWebhook(webhook: WebhookId, take: nat, status: Option<Status>) returns (list: seq<Delivery>)
      ensures var all := if status.Some? then StatusIndexOf(View(), webhook, status.value)
        else IndexOf(View(), webhook);
        exists z :: RevHead(z, all, take) && list == Hydrate(records, z)
    {
      var z := if status.Some?
        then (if (webhook, status.value) in statusIndex then statusIndex[(webhook, status.value)] else [])
        else (if webhook in index then index[webhook] else []);
      var ids := ZRevRange(z, take);
      ZRevRangeIsRevHead(z, take);
      list := [];
      for i := 0 to |ids|
        invariant list == Hydrate(records, ids[..i])
      {
        assert ids[..i + 1][..i] == ids[..i];
        if ids[i].id in records { list := list + [records[ids[i].id]]; }
      }
      assert ids[..|ids|] == ids;
    }

    /** The id is queued once, at its new time; the other entries and the order are kept. */
    method ScheduleRetry(id: Id, at: int)
      modifies this`retries
      ensures retries == ZAdd(old(retries), Entry(at, id))
      ensures Sorted(old(retries)) ==> Sorted(retries)
      ensures forall e :: e in retries <==> e == Entry(at, id) || (e in old(retries) && e.id != id)
    {
      ZAddReplaces(retries, Entry(at, id));
      retries := ZAdd(retries, Entry(at, id));
    }

    method PopDueRetries(now: int, max: nat) returns (ids: seq<Id>)
      modifies this`retries
      ensures ids == IdList(PopDue(old(retries), now, max).0)
      ensures retries == PopDue(old(retries), now, max).1
    {
      var z, n := retries, 0;
      ids := [];
      while n < |z| && n < max && z[n].score <= now
        invariant n <= |z| && n <= max
        invariant DueCount(z, now, max) == n + DueCount(z[n..], now, max - n)
        invariant ids == IdList(z[..n])
      {
        DueStep(z, n, now, max);
        ids := ids + [z[n].id];
        n := n + 1;
      }
      DueStops(z, n, now, max);
      retries := z[n..];
    }
  }

  /** Records behind index entries; an entry whose record is gone is dropped. */
  function Hydrate(records: map<Id, Delivery>, z: seq<Entry>): seq<Delivery> {
    if z == [] then []
    else
      var e := z[|z| - 1];
      Hydrate(records, z[..|z| - 1]) + (if e.id in records then [records[e.id]] else [])
  }
}
