/**
 * Delivery updates as they run: the record is read with one command and the transaction is built from what was
 * read, so two updates of one delivery can overlap. `DeliveryRepository` takes an update as one step.
 */
module OverlappingUpdates {
  import opened Prelude
  import opened DeliveryRepository

  type Updater = nat

  datatype Reading = Reading(id: Id, record: Delivery)

  datatype State = State(repo: Repo, readings: map<Updater, Reading>)

  datatype Step =
    | CreateDelivery(id: Id, webhook: WebhookId, now: int)
    | ReadRecord(updater: Updater, id: Id)
    | WriteUpdate(updater: Updater, status: Option<Status>, attempts: Option<nat>)

  ghost predicate Next(cap: nat, s: State, step: Step, s': State) {
    match step
    case CreateDelivery(id, w, now) =>
      id !in s.repo.records && s' == s.(repo := Apply(s.repo, Create(id, w, now), cap))
    case ReadRecord(u, id) =>
      id in s.repo.records && s' == s.(readings := s.readings[u := Reading(id, s.repo.records[id])])
    case WriteUpdate(u, status, attempts) =>
      && u in s.readings
      && var x := s.readings[u];
         s' == State(Commit(s.repo, x.id, x.record, status, attempts, cap), s.readings - {u})
  }

  ghost predicate StepAt(cap: nat, ss: seq<State>, steps: seq<Step>, k: nat)
    requires k < |steps| && |ss| == |steps| + 1
  {
    Next(cap, ss[k], steps[k], ss[k + 1])
  }

  ghost predicate Run(cap: nat, ss: seq<State>, steps: seq<Step>) {
    |ss| == |steps| + 1 && ss[0] == State(EMPTY, map[]) && forall k :: 0 <= k < |steps| ==> StepAt(cap, ss, steps, k)
  }

  // ---------------------------------------------------------------- what one write keeps

  /** Webhook and creation time never change, so a reading is at most out of date in status and attempts. */
  ghost predicate SameDelivery(repo: Repo, id: Id, d: Delivery) {
    id in repo.records && repo.records[id].webhook == d.webhook && repo.records[id].createdAt == d.createdAt
  }

  /** The index of the status stored now lists the delivery, and the write neither read nor writes that status. */
  ghost predicate Strands(repo: Repo, id: Id, d: Delivery, status: Option<Status>) {
    id in repo.records &&
    var stored := repo.records[id].status;
    stored != d.status && stored != Patched(d, status, None).status && id in Ids(StatusIndexOf(repo, d.webhook, stored))
  }

  lemma {:induction false} IndexAfterCommit(
    repo: Repo, id: Id, d: Delivery, status: Option<Status>, attempts: Option<nat>, cap: nat, w: WebhookId, st: Status)
    ensures var z, to := StatusIndexOf(repo, w, st), Patched(d, status, attempts).status;
      StatusIndexOf(Commit(repo, id, d, status, attempts, cap), w, st) ==
        if to == d.status || w != d.webhook then z
        else if st == to then IndexWrite(z, Entry(d.createdAt, id), cap)
        else if st == d.status then ZRem(z, id)
        else z
  {
  }

  /** Writing an id that may be listed already. */
  lemma {:induction false} RewriteOk(z: seq<Entry>, e: Entry, cap: nat)
    requires Sorted(z)
    ensures var r := IndexWrite(z, e, cap);
      Sorted(r) && |r| <= cap && forall x :: x in r ==> x == e || (x in z && x.id != e.id)
  {
    ZAddReplaces(z, e);
    var all := ZAdd(z, e);
    assert forall x :: x in Trim(all, cap) ==> x in all;
  }

  lemma {:induction false} PointsAfterCommit(
    repo: Repo, id: Id, d: Delivery, status: Option<Status>, attempts: Option<nat>, cap: nat,
    w: WebhookId, st: Status, e: Entry)
    requires SameDelivery(repo, id, d)
    ensures var repo' := Commit(repo, id, d, status, attempts, cap);
      && (e.id != id ==> (Points(repo', w, st, e) <==> Points(repo, w, st, e)))
      && (e == Entry(d.createdAt, id) ==>
        (Points(repo', w, st, e) <==> w == d.webhook && st == Patched(d, status, attempts).status))
  {
  }

  /** One index after the write: honest unless it is the one that strands the delivery. */
  lemma {:induction false} IndexOkAfterCommit(
    repo: Repo, id: Id, d: Delivery, status: Option<Status>, attempts: Option<nat>, cap: nat, w: WebhookId, st: Status)
    requires StatusInv(repo, cap) && SameDelivery(repo, id, d)
    requires !(w == d.webhook && st == repo.records[id].status && Strands(repo, id, d, status))
    ensures StatusIndexOk(Commit(repo, id, d, status, attempts, cap), w, st, cap)
  {
    var repo', z := Commit(repo, id, d, status, attempts, cap), StatusIndexOf(repo, w, st);
    var z', to := StatusIndexOf(repo', w, st), Patched(d, status, attempts).status;
    assert StatusIndexOk(repo, w, st, cap);
    IndexAfterCommit(repo, id, d, status, attempts, cap, w, st);
    RemoveKeepsSorted(z, id);
    RemoveMembers(z, id);
    RewriteOk(z, Entry(d.createdAt, id), cap);
    forall e | e in z' ensures Points(repo', w, st, e) {
      PointsAfterCommit(repo, id, d, status, attempts, cap, w, st, e);
      if e in z && e.id == id {
        assert Points(repo, w, st, e) && id in Ids(z);
      }
    }
  }

  /**
   * The transaction of an update keeps every status index honest exactly when the status stored by then is the one
   * it read or the one it writes, or its index no longer lists the delivery.
   */
  lemma {:induction false} CommitKeepsHonestIff(
    repo: Repo, id: Id, d: Delivery, status: Option<Status>, attempts: Option<nat>, cap: nat)
    requires StatusInv(repo, cap) && SameDelivery(repo, id, d)
    ensures StatusInv(Commit(repo, id, d, status, attempts, cap), cap) <==> !Strands(repo, id, d, status)
  {
    var repo', w, st := Commit(repo, id, d, status, attempts, cap), d.webhook, repo.records[id].status;
    if Strands(repo, id, d, status) {
      IndexAfterCommit(repo, id, d, status, attempts, cap, w, st);
      var z := StatusIndexOf(repo, w, st);
      var e :| e in z && e.id == id;
      assert StatusIndexOf(repo', w, st) == z && !Points(repo', w, st, e);
      assert !StatusIndexOk(repo', w, st, cap);
    } else {
      forall v: WebhookId, su ensures StatusIndexOk(repo', v, su, cap) {
        IndexOkAfterCommit(repo, id, d, status, attempts, cap, v, su);
      }
    }
  }

  // ---------------------------------------------------------------- over every run

  ghost predicate ReadsOk(s: State) {
    forall u :: u in s.readings ==> SameDelivery(s.repo, s.readings[u].id, s.readings[u].record)
  }

  ghost predicate Inv(cap: nat, s: State) {
    StatusInv(s.repo, cap) && ReadsOk(s)
  }

  ghost predicate StrandsAt(s: State, step: Step) {
    step.WriteUpdate? && step.updater in s.readings
    && Strands(s.repo, s.readings[step.updater].id, s.readings[step.updater].record, step.status)
  }

  /** However reads and writes overlap, a step keeps the indexes honest exactly when it strands no delivery. */
  lemma {:induction false} StepKeepsInvIff(cap: nat, s: State, step: Step, s': State)
    requires Inv(cap, s) && Next(cap, s, step, s')
    ensures ReadsOk(s') && (Inv(cap, s') <==> !StrandsAt(s, step))
  {
    match step
    case CreateDelivery(id, w, now) => StepKeepsStatusInv(s.repo, Create(id, w, now), cap);
    case ReadRecord(u, id) =>
    case WriteUpdate(u, status, attempts) =>
      CommitKeepsHonestIff(s.repo, s.readings[u].id, s.readings[u].record, status, attempts, cap);
  }

  ghost predicate NothingStranded(ss: seq<State>, steps: seq<Step>, n: nat)
    requires |ss| == |steps| + 1 && n <= |steps|
  {
    forall k :: 0 <= k < n ==> !StrandsAt(ss[k], steps[k])
  }

  lemma {:induction false} RunKeepsInv(cap: nat, ss: seq<State>, steps: seq<Step>, n: nat)
    requires Run(cap, ss, steps) && n < |ss| && NothingStranded(ss, steps, n)
    ensures Inv(cap, ss[n])
  {
    if n == 0 {
      assert forall w: WebhookId, st :: StatusIndexOk(EMPTY, w, st, cap);
    } else {
      RunKeepsInv(cap, ss, steps, n - 1);
      assert StepAt(cap, ss, steps, n - 1);
      StepKeepsInvIff(cap, ss[n - 1], steps[n - 1], ss[n]);
    }
  }

  /** In every such run no id is in two status indexes. */
  lemma {:induction false} NoIdInTwoIndexes(
    cap: nat, ss: seq<State>, steps: seq<Step>, n: nat, w: WebhookId, v: WebhookId, st: Status, su: Status, e: Entry,
      f: Entry)
    requires Run(cap, ss, steps) && n < |ss| && NothingStranded(ss, steps, n) && e.id == f.id
    requires e in StatusIndexOf(ss[n].repo, w, st) && f in StatusIndexOf(ss[n].repo, v, su)
    ensures w == v && st == su
  {
    RunKeepsInv(cap, ss, steps, n);
    assert StatusIndexOk(ss[n].repo, w, st, cap) && StatusIndexOk(ss[n].repo, v, su, cap);
  }

  // ---------------------------------------------------------------- two updates that overlap

  lemma {:induction false} Extend(cap: nat, ss: seq<State>, steps: seq<Step>, step: Step, s': State)
    returns (ss': seq<State>, steps': seq<Step>)
    requires Run(cap, ss, steps) && Next(cap, ss[|steps|], step, s')
    ensures Run(cap, ss', steps') && ss'[|steps'|] == s'
  {
    ss', steps' := ss + [s'], steps + [step];
    forall k | 0 <= k < |steps'| ensures StepAt(cap, ss', steps', k) {
      assert k < |steps| ==> StepAt(cap, ss, steps, k);
    }
  }

  function FirstDelivery(): Delivery { Delivery(0, Pending, 0, 0) }

  function Stored(d: Delivery, byStatus: map<(WebhookId, Status), seq<Entry>>): Repo {
    Repo(map[0 := d], map[0 := [Entry(0, 0)]], byStatus)
  }

  /** Two updaters have read the same pending record. */
  lemma {:induction false} BothRead(cap: nat) returns (ss: seq<State>, steps: seq<Step>)
    requires cap > 0
    ensures Run(cap, ss, steps)
    ensures var x := Reading(0, FirstDelivery());
      ss[|steps|] == State(Stored(FirstDelivery(), map[(0, Pending) := [Entry(0, 0)]]), map[0 := x, 1 := x])
  {
    var x, repo := Reading(0, FirstDelivery()), Stored(FirstDelivery(), map[(0, Pending) := [Entry(0, 0)]]);
    ss, steps := [State(EMPTY, map[])], [];
    assert IndexWrite([], Entry(0, 0), cap) == [Entry(0, 0)];
    ss, steps := Extend(cap, ss, steps, CreateDelivery(0, 0, 0), State(repo, map[]));
    ss, steps := Extend(cap, ss, steps, ReadRecord(0, 0), State(repo, map[0 := x]));
    ss, steps := Extend(cap, ss, steps, ReadRecord(1, 0), State(repo, map[0 := x, 1 := x]));
  }

  /** One then writes success and the other failed: the id is in both indexes. */
  lemma {:induction false} OverlappingUpdatesShareAnId(cap: nat) returns (ss: seq<State>, steps: seq<Step>)
    requires cap > 0
    ensures Run(cap, ss, steps)
    ensures var repo := ss[|steps|].repo;
      && 0 in repo.records && repo.records[0].status == Failed
      && Entry(0, 0) in StatusIndexOf(repo, 0, Success) && Entry(0, 0) in StatusIndexOf(repo, 0, Failed)
  {
    ss, steps := BothRead(cap);
    var s0, d, z := ss[|steps|], FirstDelivery(), [Entry(0, 0)];
    assert IndexWrite([], Entry(0, 0), cap) == z && ZRem(z, 0) == [] && ZRem([], 0) == [];
    var s1 := State(Commit(s0.repo, 0, d, Some(Success), None, cap), s0.readings - {0});
    ss, steps := Extend(cap, ss, steps, WriteUpdate(0, Some(Success), None), s1);
    var s2 := State(Commit(s1.repo, 0, d, Some(Failed), None, cap), s1.readings - {1});
    ss, steps := Extend(cap, ss, steps, WriteUpdate(1, Some(Failed), None), s2);
    IndexAfterCommit(s0.repo, 0, d, Some(Success), None, cap, 0, Success);
    IndexAfterCommit(s0.repo, 0, d, Some(Success), None, cap, 0, Failed);
    IndexAfterCommit(s1.repo, 0, d, Some(Failed), None, cap, 0, Success);
    IndexAfterCommit(s1.repo, 0, d, Some(Failed), None, cap, 0, Failed);
  }
}
