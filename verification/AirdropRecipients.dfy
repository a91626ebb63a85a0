/**
 * The recipients of an airdrop: a set of addresses that decides who is new and a list that is paged through.
 * A call adds its addresses to the set in one transaction and appends the entries it won to the list later,
 * so calls interleave between the two and a caller can die between them.
 */
module AirdropRecipients {
  import opened Prelude

  type Address = string

  datatype Recipient = Recipient(address: Address, amount: string)

  /**
   * A call after its transaction: what it asked for, what it won and has not appended yet, and the duplicates it
   * returns.
   */
  datatype Call = Call(asked: seq<Recipient>, pending: seq<Recipient>, duplicates: seq<Address>, finished: bool)

  /** `lost` collects the entries of callers that died before appending. */
  datatype Airdrop = Airdrop(addresses: set<Address>, list: seq<Recipient>, calls: seq<Call>, lost: seq<Recipient>)

  datatype Step =
    | AddAll(recipients: seq<Recipient>)
    | Append(call: nat)
    | Die(call: nat)

  function AddressesOf(rs: seq<Recipient>): (a: seq<Address>)
    ensures |a| == |rs| && forall i :: 0 <= i < |rs| ==> a[i] == rs[i].address
  {
    seq(|rs|, i requires 0 <= i < |rs| => rs[i].address)
  }

  function SetOf(rs: seq<Recipient>): set<Address> {
    set r | r in rs :: r.address
  }

  /** The replies of the queued SADD commands: one for an address neither stored nor earlier in the batch. */
  function AddedCounts(stored: set<Address>, rs: seq<Recipient>): (counts: seq<nat>)
    ensures |counts| == |rs|
    decreases |rs|
  {
    if rs == [] then []
    else [if rs[0].address in stored then 0 else 1] + AddedCounts(stored + {rs[0].address}, rs[1..])
  }

  function Won(rs: seq<Recipient>, counts: seq<nat>): seq<Recipient>
    requires |rs| == |counts|
  {
    if rs == [] then []
    else Won(rs[..|rs| - 1], counts[..|rs| - 1]) + (if counts[|rs| - 1] == 1 then [rs[|rs| - 1]] else [])
  }

  function Duplicates(rs: seq<Recipient>, counts: seq<nat>): seq<Address>
    requires |rs| == |counts|
  {
    if rs == [] then []
    else Duplicates(rs[..|rs| - 1], counts[..|rs| - 1]) + (if counts[|rs| - 1] == 1 then [] else [rs[|rs| - 1].address])
  }

  function Created(recipients: seq<Recipient>): Airdrop {
    Airdrop(SetOf(recipients), recipients, [], [])
  }

  function Added(d: Airdrop, rs: seq<Recipient>): Airdrop {
    var counts := AddedCounts(d.addresses, rs);
    d.(addresses := d.addresses + SetOf(rs),
      calls := d.calls + [Call(rs, Won(rs, counts), Duplicates(rs, counts), false)])
  }

  function Finished(c: Call): Call {
    c.(pending := [], finished := true)
  }

  function Apply(d: Airdrop, step: Step): Airdrop
    requires Allowed(d, step)
  {
    match step
    case AddAll(recipients) => Added(d, recipients)
    case Append(k) => d.(list := d.list + d.calls[k].pending, calls := d.calls[k := Finished(d.calls[k])])
    case Die(k) => d.(lost := d.lost + d.calls[k].pending, calls := d.calls[k := Finished(d.calls[k])])
  }

  predicate Allowed(d: Airdrop, step: Step) {
    !step.AddAll? ==> step.call < |d.calls| && !d.calls[step.call].finished
  }

  ghost predicate StepAt(ds: seq<Airdrop>, steps: seq<Step>, k: nat)
    requires k < |steps| && |ds| == |steps| + 1
  {
    Allowed(ds[k], steps[k]) && ds[k + 1] == Apply(ds[k], steps[k])
  }

  ghost predicate Run(ds: seq<Airdrop>, steps: seq<Step>) {
    |ds| == |steps| + 1 && forall k :: 0 <= k < |steps| ==> StepAt(ds, steps, k)
  }

  // ---------------------------------------------------------------- what one batch wins

  /** An entry is new exactly when its address is neither stored nor carried by an earlier entry of the batch. */
  lemma {:induction false} NewIffFirst(stored: set<Address>, rs: seq<Recipient>, i: nat)
    requires i < |rs|
    ensures AddedCounts(stored, rs)[i] == 1 <==> rs[i].address !in stored && rs[i].address !in AddressesOf(rs[..i])
    decreases |rs|
  {
    if i > 0 {
      NewIffFirst(stored + {rs[0].address}, rs[1..], i - 1);
      assert AddressesOf(rs[..i]) == [rs[0].address] + AddressesOf(rs[1..][..i - 1]);
    }
  }

  ghost function Listed(rs: seq<Recipient>): multiset<Address> {
    multiset(AddressesOf(rs))
  }

  lemma {:induction false} ListedLast(rs: seq<Recipient>, last: Recipient)
    ensures Listed(rs + [last]) == Listed(rs) + multiset{last.address}
  {
    assert AddressesOf(rs + [last]) == AddressesOf(rs) + [last.address];
  }

  /** The addresses a batch wins, each once, are exactly those it adds to the set. */
  lemma {:induction false} WinsAreTheNewAddresses(stored: set<Address>, rs: seq<Recipient>)
    ensures Listed(Won(rs, AddedCounts(stored, rs))) == multiset(SetOf(rs) - stored)
  {
    if rs == [] {
      assert SetOf(rs) == {};
    } else {
      var n, counts := |rs| - 1, AddedCounts(stored, rs);
      var init, last, isNew := rs[..n], rs[n], counts[n] == 1;
      CountsPrefix(stored, rs, n);
      WinsAreTheNewAddresses(stored, init);
      NewIffFirst(stored, rs, n);
      var won := Won(init, counts[..n]);
      LastWins(stored, init, last, won, isNew);
      assert Won(rs, counts) == won + (if isNew then [last] else []);
      assert rs == init + [last];
    }
  }

  lemma {:induction false} LastWins(
    stored: set<Address>, init: seq<Recipient>, last: Recipient, won: seq<Recipient>, isNew: bool)
    requires Listed(won) == multiset(SetOf(init) - stored)
    requires isNew <==> last.address !in stored && last.address !in AddressesOf(init)
    ensures Listed(won + (if isNew then [last] else [])) == multiset(SetOf(init + [last]) - stored)
  {
    var a := last.address;
    SetOfLast(init, last);
    if isNew {
      ListedLast(won, last);
      assert SetOf(init + [last]) - stored == (SetOf(init) - stored) + {a};
      assert multiset((SetOf(init) - stored) + {a}) == multiset(SetOf(init) - stored) + multiset{a};
    } else {
      assert SetOf(init + [last]) - stored == SetOf(init) - stored;
      assert won + [] == won;
    }
  }

  lemma {:induction false} SetOfLast(init: seq<Recipient>, last: Recipient)
    ensures SetOf(init + [last]) == SetOf(init) + {last.address}
    ensures last.address in SetOf(init) <==> last.address in AddressesOf(init)
  {
    if last.address in AddressesOf(init) {
      var i :| 0 <= i < |init| && AddressesOf(init)[i] == last.address;
      assert init[i] in init;
    }
    forall a | a in SetOf(init) + {last.address} ensures a in SetOf(init + [last]) {
      if a in SetOf(init) {
        var r :| r in init && r.address == a;
        assert r in init + [last];
      } else {
        assert last in init + [last];
      }
    }
  }

  lemma {:induction false} CountsPrefix(stored: set<Address>, rs: seq<Recipient>, n: nat)
    requires n <= |rs|
    ensures AddedCounts(stored, rs)[..n] == AddedCounts(stored, rs[..n])
    decreases |rs|
  {
    if n > 0 {
      CountsPrefix(stored + {rs[0].address}, rs[1..], n - 1);
      assert rs[..n][1..] == rs[1..][..n - 1];
    }
  }

  /** Every entry of a call is either won or reported as a duplicate: the two together are the addresses asked for. */
  lemma {:induction false} WonAndDuplicatesAreAll(rs: seq<Recipient>, counts: seq<nat>)
    requires |rs| == |counts|
    ensures Listed(Won(rs, counts)) + multiset(Duplicates(rs, counts)) == Listed(rs)
  {
    if rs != [] {
      var init, last, most := rs[..|rs| - 1], rs[|rs| - 1], counts[..|rs| - 1];
      WonAndDuplicatesAreAll(init, most);
      assert rs == init + [last];
      ListedLast(init, last);
      SplitLast(Won(init, most), Duplicates(init, most), last, counts[|rs| - 1] == 1);
    }
  }

  /** The last entry goes to one side or the other. */
  lemma {:induction false} SplitLast(won: seq<Recipient>, duplicates: seq<Address>, last: Recipient, isNew: bool)
    ensures Listed(won + (if isNew then [last] else [])) + multiset(duplicates + (if isNew then [] else [last.address]))
         == Listed(won) + multiset(duplicates) + multiset{last.address}
  {
    if isNew {
      ListedLast(won, last);
      assert duplicates + [] == duplicates;
    } else {
      assert won + [] == won;
    }
  }

  /** The entry that follows `before` in a batch is the first with its address, and the address is not stored. */
  predicate IsNew(stored: set<Address>, before: seq<Recipient>, r: Recipient) {
    r.address !in stored && forall b :: b in before ==> b.address != r.address
  }

  ghost function NewCount(stored: set<Address>, rs: seq<Recipient>): (n: nat)
    ensures n <= |rs|
  {
    if rs == [] then 0
    else
      var init := rs[..|rs| - 1];
      NewCount(stored, init) + (if IsNew(stored, init, rs[|rs| - 1]) then 1 else 0)
  }

  /** Both replies keep the order of the batch: entry i is preceded by the new, or the known, entries before it. */
  ghost predicate Splits(stored: set<Address>, rs: seq<Recipient>, won: seq<Recipient>, duplicates: seq<Address>) {
    && |won| == NewCount(stored, rs) && |won| + |duplicates| == |rs|
    && forall i :: 0 <= i < |rs| ==> GoesTo(stored, rs, won, duplicates, i)
  }

  ghost predicate GoesTo(
    stored: set<Address>, rs: seq<Recipient>, won: seq<Recipient>, duplicates: seq<Address>, i: nat)
    requires i < |rs|
  {
    var k := NewCount(stored, rs[..i]);
    if IsNew(stored, rs[..i], rs[i]) then k < |won| && won[k] == rs[i]
    else i - k < |duplicates| && duplicates[i - k] == rs[i].address
  }

  lemma {:induction false} RepliesSplitTheBatch(stored: set<Address>, rs: seq<Recipient>)
    ensures var counts := AddedCounts(stored, rs); Splits(stored, rs, Won(rs, counts), Duplicates(rs, counts))
  {
    if rs != [] {
      var n, counts := |rs| - 1, AddedCounts(stored, rs);
      var init := rs[..n];
      CountsPrefix(stored, rs, n);
      RepliesSplitTheBatch(stored, init);
      NewIffFirst(stored, rs, n);
      AddressesHave(init, rs[n].address);
      SplitsLast(stored, init, rs[n], Won(init, counts[..n]), Duplicates(init, counts[..n]));
      assert rs == init + [rs[n]];
    }
  }

  lemma {:induction false} SplitsLast(
    stored: set<Address>, init: seq<Recipient>, last: Recipient, won: seq<Recipient>, duplicates: seq<Address>)
    requires Splits(stored, init, won, duplicates)
    ensures var isNew := IsNew(stored, init, last);
      Splits(stored, init + [last], won + (if isNew then [last] else []),
        duplicates + (if isNew then [] else [last.address]))
  {
    var rs := init + [last];
    assert rs[..|init|] == init;
    forall i | 0 <= i < |init| ensures rs[..i] == init[..i] && GoesTo(stored, init, won, duplicates, i) { }
  }

  lemma {:induction false} AddressesHave(rs: seq<Recipient>, a: Address)
    ensures a in AddressesOf(rs) <==> exists r :: r in rs && r.address == a
  {
    if a in AddressesOf(rs) {
      var i :| 0 <= i < |rs| && AddressesOf(rs)[i] == a;
      assert rs[i] in rs;
    }
  }

  /** What a call is told: its new entries, to be listed in its own order, and its duplicates, in that order too. */
  lemma {:induction false} CallIsToldItsDuplicates(ds: seq<Airdrop>, steps: seq<Step>, n: nat)
    requires Run(ds, steps) && n < |steps| && steps[n].AddAll?
    ensures var d, d' := ds[n], ds[n + 1];
      && |d'.calls| == |d.calls| + 1 && d'.calls[..|d.calls|] == d.calls && d'.list == d.list && d'.lost == d.lost
      && var x := d'.calls[|d.calls|];
         !x.finished && x.asked == steps[n].recipients
           && Splits(d.addresses, steps[n].recipients, x.pending, x.duplicates)
  {
    assert StepAt(ds, steps, n);
    RepliesSplitTheBatch(ds[n].addresses, steps[n].recipients);
  }

  /** The list only ever grows at its end, by what one call had pending. */
  lemma {:induction false} ListOnlyGrows(ds: seq<Airdrop>, steps: seq<Step>, i: nat, j: nat)
    requires Run(ds, steps) && i <= j < |ds|
    ensures ds[i].list <= ds[j].list
    ensures i < j && !steps[j - 1].Append? ==> ds[j].list == ds[j - 1].list
    ensures i < j && steps[j - 1].Append? && Allowed(ds[j - 1], steps[j - 1]) ==>
      ds[j].list == ds[j - 1].list + ds[j - 1].calls[steps[j - 1].call].pending
    decreases j
  {
    if i < j {
      ListOnlyGrows(ds, steps, i, j - 1);
      assert StepAt(ds, steps, j - 1);
    }
  }

  // ---------------------------------------------------------------- conservation

  ghost function Pending(calls: seq<Call>): multiset<Address> {
    if calls == [] then multiset{} else Pending(calls[..|calls| - 1]) + Listed(calls[|calls| - 1].pending)
  }

  /** Every stored address, once, is in the list, pending in a call or lost. */
  ghost predicate Conserved(d: Airdrop) {
    Listed(d.list) + Pending(d.calls) + Listed(d.lost) == multiset(d.addresses)
  }

  lemma {:induction false} ListedConcat(a: seq<Recipient>, b: seq<Recipient>)
    ensures Listed(a + b) == Listed(a) + Listed(b)
  {
    assert AddressesOf(a + b) == AddressesOf(a) + AddressesOf(b);
  }

  lemma {:induction false} FinishedFreesPending(calls: seq<Call>, k: nat)
    requires k < |calls|
    ensures Pending(calls[k := Finished(calls[k])]) + Listed(calls[k].pending) == Pending(calls)
  {
    var init, calls' := calls[..|calls| - 1], calls[k := Finished(calls[k])];
    if k < |calls| - 1 {
      FinishedFreesPending(init, k);
      assert calls'[..|calls| - 1] == init[k := Finished(init[k])];
    } else {
      assert calls'[..|calls| - 1] == init;
      assert Listed([]) == multiset{};
    }
  }

  /** Creating an airdrop stores every address once in both places exactly when its recipients are distinct. */
  lemma {:induction false} CreatedConservesIffDistinct(recipients: seq<Recipient>)
    ensures Conserved(Created(recipients)) <==> NoDuplicates(AddressesOf(recipients))
  {
    assert Listed([]) == multiset{};
    ListedIsSetIffDistinct(recipients);
  }

  lemma {:induction false} ListedIsSetIffDistinct(rs: seq<Recipient>)
    ensures Listed(rs) == multiset(SetOf(rs)) <==> NoDuplicates(AddressesOf(rs))
  {
    var s := AddressesOf(rs);
    if NoDuplicates(s) {
      forall a ensures multiset(s)[a] == multiset(SetOf(rs))[a] {
        CountedOnce(s, a);
        SetOfHas(rs, a);
      }
    } else {
      var i, j :| 0 <= i < j < |s| && s[i] == s[j];
      CountedTwice(s, i, j);
      assert multiset(SetOf(rs))[s[i]] <= 1;
    }
  }

  lemma {:induction false} SetOfHas(rs: seq<Recipient>, a: Address)
    ensures a in SetOf(rs) <==> a in AddressesOf(rs)
  {
    if a in AddressesOf(rs) {
      var i :| 0 <= i < |rs| && AddressesOf(rs)[i] == a;
      assert rs[i] in rs;
    }
  }

  lemma {:induction false} CountedTwice(s: seq<Address>, i: nat, j: nat)
    requires i < j < |s| && s[i] == s[j]
    ensures multiset(s)[s[i]] >= 2
  {
    assert s == s[..i] + [s[i]] + s[i + 1..j] + [s[j]] + s[j + 1..];
  }

  lemma {:induction false} AddConserves(d: Airdrop, rs: seq<Recipient>)
    requires Conserved(d)
    ensures Conserved(Added(d, rs))
  {
    var d' := Added(d, rs);
    WinsAreTheNewAddresses(d.addresses, rs);
    assert d'.calls[..|d.calls|] == d.calls;
    assert d'.addresses == d.addresses + (SetOf(rs) - d.addresses);
    assert multiset(d'.addresses) == multiset(d.addresses) + multiset(SetOf(rs) - d.addresses);
  }

  lemma {:induction false} StepConserves(d: Airdrop, step: Step)
    requires Conserved(d) && Allowed(d, step)
    ensures Conserved(Apply(d, step))
  {
    match step
    case AddAll(recipients) => AddConserves(d, recipients);
    case Append(k) =>
      FinishedFreesPending(d.calls, k);
      ListedConcat(d.list, d.calls[k].pending);
    case Die(k) =>
      FinishedFreesPending(d.calls, k);
      ListedConcat(d.lost, d.calls[k].pending);
  }

  /** In every interleaving, started from distinct recipients, each stored address is in exactly one place, once. */
  lemma {:induction false} RunConserves(ds: seq<Airdrop>, steps: seq<Step>, n: nat)
    requires Run(ds, steps) && n < |ds| && Conserved(ds[0])
    ensures Conserved(ds[n])
  {
    if n > 0 {
      RunConserves(ds, steps, n - 1);
      assert StepAt(ds, steps, n - 1);
      StepConserves(ds[n - 1], steps[n - 1]);
    }
  }

  /** No address is ever listed twice. */
  lemma {:induction false} NoAddressListedTwice(ds: seq<Airdrop>, steps: seq<Step>, n: nat, i: nat, j: nat)
    requires Run(ds, steps) && n < |ds| && Conserved(ds[0]) && i < j < |ds[n].list|
    ensures ds[n].list[i].address != ds[n].list[j].address
  {
    RunConserves(ds, steps, n);
    var s := AddressesOf(ds[n].list);
    assert multiset(s)[s[i]] <= multiset(ds[n].addresses)[s[i]] <= 1;
    if s[i] == s[j] {
      CountedTwice(s, i, j);
    }
  }

  /** A caller dies in step `k` between its transaction and its append, having won something. */
  ghost predicate DiesHolding(ds: seq<Airdrop>, steps: seq<Step>, k: nat)
    requires k < |steps| && |ds| == |steps| + 1 && StepAt(ds, steps, k)
  {
    steps[k].Die? && ds[k].calls[steps[k].call].pending != []
  }

  lemma {:induction false} LostIffSomebodyDied(ds: seq<Airdrop>, steps: seq<Step>, n: nat)
    requires Run(ds, steps) && n < |ds| && ds[0].lost == []
    ensures ds[n].lost == [] <==> forall k :: 0 <= k < n ==> !DiesHolding(ds, steps, k)
  {
    if n > 0 {
      LostIffSomebodyDied(ds, steps, n - 1);
      assert StepAt(ds, steps, n - 1);
      assert ds[n].lost == [] <==> ds[n - 1].lost == [] && !DiesHolding(ds, steps, n - 1);
    }
  }

  /** The stored addresses are those listed or pending, each once, exactly when no caller died holding some. */
  lemma {:induction false} StoredIsListedOrPendingIffNobodyDied(ds: seq<Airdrop>, steps: seq<Step>, n: nat)
    requires Run(ds, steps) && n < |ds| && Conserved(ds[0]) && ds[0].lost == []
    ensures Listed(ds[n].list) + Pending(ds[n].calls) == multiset(ds[n].addresses)
       <==> forall k :: 0 <= k < n ==> !DiesHolding(ds, steps, k)
  {
    var d := ds[n];
    RunConserves(ds, steps, n);
    LostIffSomebodyDied(ds, steps, n);
    if d.lost == [] {
      assert Listed(d.lost) == multiset{};
    } else {
      assert |Listed(d.lost)| == |d.lost| > 0;
      assert |Listed(d.list) + Pending(d.calls)| < |multiset(d.addresses)|;
    }
  }

  lemma {:induction false} LostIsKept(ds: seq<Airdrop>, steps: seq<Step>, i: nat, j: nat, r: Recipient)
    requires Run(ds, steps) && i <= j < |ds| && r in ds[i].lost
    ensures r in ds[j].lost
    decreases j
  {
    if i < j {
      LostIsKept(ds, steps, i, j - 1, r);
      assert StepAt(ds, steps, j - 1);
    }
  }

  /** An address lost with its caller is never listed, and every later call is told it is a duplicate. */
  lemma {:induction false} LostIsForever(ds: seq<Airdrop>, steps: seq<Step>, i: nat, j: nat, r: Recipient)
    requires Run(ds, steps) && i <= j < |ds| && Conserved(ds[0]) && r in ds[i].lost
    ensures r.address !in AddressesOf(ds[j].list) && r.address in ds[j].addresses
    ensures forall rs: seq<Recipient>, k: nat :: k < |rs| && rs[k].address == r.address ==>
      AddedCounts(ds[j].addresses, rs)[k] != 1
  {
    LostIsKept(ds, steps, i, j, r);
    RunConserves(ds, steps, j);
    SetOfHas(ds[j].lost, r.address);
    InOnePlace(ds[j], r.address);
    forall rs: seq<Recipient>, k: nat | k < |rs| && rs[k].address == r.address
      ensures AddedCounts(ds[j].addresses, rs)[k] != 1
    {
      NewIffFirst(ds[j].addresses, rs, k);
    }
  }

  lemma {:induction false} InOnePlace(d: Airdrop, a: Address)
    requires Conserved(d) && a in AddressesOf(d.lost)
    ensures a in d.addresses && a !in AddressesOf(d.list)
  {
    assert Listed(d.lost)[a] >= 1;
    assert multiset(d.addresses)[a] == Listed(d.list)[a] + Pending(d.calls)[a] + Listed(d.lost)[a];
    assert multiset(d.addresses)[a] <= 1;
  }

  // ---------------------------------------------------------------- the store

  class RecipientStore {
    var addresses: set<Address>
    var list: seq<Recipient>

    constructor (recipients: seq<Recipient>)
      ensures addresses == Created(recipients).addresses && list == Created(recipients).list
    {
      addresses := SetOf(recipients);
      list := recipients;
    }

    /** The transaction of SADD commands. */
    method AddBatch(rs: seq<Recipient>) returns (counts: seq<nat>)
      modifies this`addresses
      ensures addresses == old(addresses) + SetOf(rs) && counts == AddedCounts(old(addresses), rs)
    {
      counts := [];
      var i := 0;
      assert old(addresses) + SetOf([]) == old(addresses);
      while i < |rs|
        invariant i <= |rs| && |counts| == i
        invariant addresses == old(addresses) + SetOf(rs[..i])
        invariant counts == AddedCounts(old(addresses), rs)[..i]
      {
        NextCount(old(addresses), rs, i);
        counts := counts + [if rs[i].address in addresses then 0 else 1];
        addresses := addresses + {rs[i].address};
        i := i + 1;
      }
      assert rs[..i] == rs;
    }

    /** The whole call, when nothing interleaves. */
    method AddRecipients(rs: seq<Recipient>) returns (duplicates: seq<Address>)
      modifies this
      ensures addresses == old(addresses) + SetOf(rs)
      ensures list == old(list) + Won(rs, AddedCounts(old(addresses), rs))
      ensures duplicates == Duplicates(rs, AddedCounts(old(addresses), rs))
    {
      var counts := AddBatch(rs);
      var won: seq<Recipient>, i := [], 0;
      duplicates := [];
      while i < |rs|
        invariant i <= |rs|
        invariant won == Won(rs[..i], counts[..i]) && duplicates == Duplicates(rs[..i], counts[..i])
      {
        assert rs[..i + 1][..i] == rs[..i] && counts[..i + 1][..i] == counts[..i];
        if counts[i] == 1 { won := won + [rs[i]]; } else { duplicates := duplicates + [rs[i].address]; }
        i := i + 1;
      }
      assert rs[..i] == rs && counts[..i] == counts;
      if |won| > 0 { list := list + won; }
    }
  }

  /** Each command's reply depends on the addresses stored before it, those of the batch included. */
  lemma {:induction false} NextCount(stored: set<Address>, rs: seq<Recipient>, i: nat)
    requires i < |rs|
    ensures AddedCounts(stored, rs)[i] == if rs[i].address in stored + SetOf(rs[..i]) then 0 else 1
    ensures stored + SetOf(rs[..i + 1]) == stored + SetOf(rs[..i]) + {rs[i].address}
  {
    NewIffFirst(stored, rs, i);
    SetOfLast(rs[..i], rs[i]);
    assert rs[..i + 1] == rs[..i] + [rs[i]];
    CountIsBit(stored, rs, i);
  }

  lemma {:induction false} CountIsBit(stored: set<Address>, rs: seq<Recipient>, i: nat)
    requires i < |rs|
    ensures AddedCounts(stored, rs)[i] <= 1
    decreases |rs|
  {
    if i > 0 { CountIsBit(stored + {rs[0].address}, rs[1..], i - 1); }
  }
}
