/**
 * The WebSocket subscription manager: connected sockets with the assets each one watches, the reverse
 * index from asset to watching sockets that broadcasts use, per-address connection counts, heartbeats
 * and draining at shutdown. All of them are updated separately and should keep agreeing.
 *
 * The per-address counts do so only while nobody whose address is the empty string departs: an empty
 * address is counted as itself on arrival and as "unknown" on departure.
 */
module PriceSubscriptions {
  import opened Prelude

  type Socket = nat
  type Asset = string
  type Ip = string
  type Index = map<Asset, set<Socket>>

  const MAX_ASSETS_PER_CLIENT: nat := 5
  const MAX_MISSED_PINGS: nat := 3
  const UNKNOWN: Ip := "unknown"

  /** The two configured connection caps. */
  datatype Config = Config(maxConnections: nat, maxConnectionsPerIp: nat)

  datatype Client = Client(assets: set<Asset>, missedPings: nat)

  /** `drained` lists the sockets frozen when draining began. */
  datatype Manager = Manager(
    clients: map<Socket, Client>, ipOf: map<Socket, Ip>, perIp: map<Ip, nat>,
    subscribers: Index, draining: bool, drained: seq<Socket>)

  const EMPTY := Manager(map[], map[], map[], map[], false, [])

  // ---------------------------------------------------------------- the operations, on values

  function Receivers(subs: Index, a: Asset): set<Socket> {
    if a in subs then subs[a] else {}
  }

  /** The index once a socket is entered under each asset of a set. */
  function IndexWith(subs: Index, ws: Socket, assets: set<Asset>): Index {
    map a | a in subs.Keys + assets :: Receivers(subs, a) + (if a in assets then {ws} else {})
  }

  /** The index once a socket is taken out of each asset of a set, with the entries that became empty dropped. */
  function IndexWithout(subs: Index, ws: Socket, assets: set<Asset>): Index {
    map a | a in subs.Keys && (a in assets ==> subs[a] - {ws} != {}) :: if a in assets then subs[a] - {ws} else subs[a]
  }

  function CountAt(perIp: map<Ip, nat>, ip: Ip): nat {
    if ip in perIp then perIp[ip] else 0
  }

  predicate Accepts(c: Config, m: Manager, ip: Ip) {
    !m.draining && |m.clients| < c.maxConnections && CountAt(m.perIp, ip) < c.maxConnectionsPerIp
  }

  function Added(c: Config, m: Manager, ws: Socket, ip: Ip): Manager {
    if !Accepts(c, m, ip) then m
    else m.(clients := m.clients[ws := Client({}, 0)], ipOf := m.ipOf[ws := ip],
      perIp := m.perIp[ip := CountAt(m.perIp, ip) + 1])
  }

  /** The address a departure is charged to: an absent or empty address reads as "unknown". */
  function ChargedTo(ipOf: map<Socket, Ip>, ws: Socket): Ip {
    if ws in ipOf && ipOf[ws] != "" then ipOf[ws] else UNKNOWN
  }

  /** One connection fewer; a count that would reach zero is dropped. */
  function Uncounted(perIp: map<Ip, nat>, ip: Ip): map<Ip, nat> {
    if CountAt(perIp, ip) <= 1 then perIp - {ip} else perIp[ip := CountAt(perIp, ip) - 1]
  }

  function Removed(m: Manager, ws: Socket): Manager {
    if ws !in m.clients then m
    else
      m.(clients := m.clients - {ws}, ipOf := m.ipOf - {ws}, perIp := Uncounted(m.perIp, ChargedTo(m.ipOf, ws)),
         subscribers := IndexWithout(m.subscribers, ws, m.clients[ws].assets))
  }

  /** Dropping listed sockets one after another. */
  function RemovedAll(m: Manager, sockets: seq<Socket>): Manager {
    if sockets == [] then m else Removed(RemovedAll(m, sockets[..|sockets| - 1]), sockets[|sockets| - 1])
  }

  /** The requested assets are taken in order until the cap is reached. */
  function Accepted(assets: set<Asset>, requested: seq<Asset>): set<Asset>
    decreases |requested|
  {
    if requested == [] || |assets| >= MAX_ASSETS_PER_CLIENT then assets
    else Accepted(assets + {requested[0]}, requested[1..])
  }

  function Subscribed(m: Manager, ws: Socket, requested: seq<Asset>): Manager {
    if ws !in m.clients then m
    else
      var x := m.clients[ws];
      var assets := Accepted(x.assets, requested);
      m.(clients := m.clients[ws := x.(assets := assets)],
        subscribers := IndexWith(m.subscribers, ws, assets - x.assets))
  }

  function Unsubscribed(m: Manager, ws: Socket, dropped: set<Asset>): Manager {
    if ws !in m.clients then m
    else
      var x := m.clients[ws];
      m.(clients := m.clients[ws := x.(assets := x.assets - dropped)],
        subscribers := IndexWithout(m.subscribers, ws, dropped))
  }

  function Ponged(m: Manager, ws: Socket): Manager {
    if ws !in m.clients then m else m.(clients := m.clients[ws := m.clients[ws].(missedPings := 0)])
  }

  predicate TimedOut(x: Client) {
    x.missedPings >= MAX_MISSED_PINGS
  }

  function Pinged(x: Client): Client {
    if TimedOut(x) then x else x.(missedPings := x.missedPings + 1)
  }

  /** One more missed ping for every client that has not timed out. */
  function AllPinged(m: Manager): Manager {
    m.(clients := map ws | ws in m.clients :: Pinged(m.clients[ws]))
  }

  function Draining(m: Manager, frozen: seq<Socket>): Manager {
    m.(draining := true, drained := frozen)
  }

  datatype Op =
    | Connect(ws: Socket, ip: Ip)
    | Disconnect(ws: Socket)
    | Subscribe(ws: Socket, requested: seq<Asset>)
    | Unsubscribe(ws: Socket, dropped: set<Asset>)
    | Pong(ws: Socket)
    | Heartbeat(timedOut: seq<Socket>)
    | Drain(frozen: seq<Socket>)
    | Deadline

  function Apply(c: Config, m: Manager, op: Op): Manager {
    match op
    case Connect(ws, ip) => Added(c, m, ws, ip)
    case Disconnect(ws) => Removed(m, ws)
    case Subscribe(ws, requested) => Subscribed(m, ws, requested)
    case Unsubscribe(ws, dropped) => Unsubscribed(m, ws, dropped)
    case Pong(ws) => Ponged(m, ws)
    case Heartbeat(timedOut) => RemovedAll(AllPinged(m), timedOut)
    case Drain(frozen) => Draining(m, frozen)
    case Deadline => RemovedAll(m, m.drained)
  }

  /**
   * Every connection is a new socket; a heartbeat lists the timed-out clients and a drain all of them, in any order.
   */
  ghost predicate Allowed(m: Manager, op: Op) {
    match op
    case Connect(ws, _) => ws !in m.clients
    case Heartbeat(timedOut) => forall ws: Socket :: ws in timedOut <==> ws in m.clients && TimedOut(m.clients[ws])
    case Drain(frozen) => forall ws: Socket :: ws in frozen <==> ws in m.clients
    case _ => true
  }

  ghost predicate StepAt(c: Config, ms: seq<Manager>, ops: seq<Op>, k: nat)
    requires k < |ops| && |ms| == |ops| + 1
  {
    Allowed(ms[k], ops[k]) && ms[k + 1] == Apply(c, ms[k], ops[k])
  }

  ghost predicate Run(c: Config, ms: seq<Manager>, ops: seq<Op>) {
    |ms| == |ops| + 1 && ms[0] == EMPTY && forall k :: 0 <= k < |ops| ==> StepAt(c, ms, ops, k)
  }

  // ---------------------------------------------------------------- the index and the global caps

  /** A socket is indexed under an asset iff it watches it. */
  ghost predicate Indexed(m: Manager, a: Asset, ws: Socket) {
    ws in Receivers(m.subscribers, a) <==> ws in m.clients && a in m.clients[ws].assets
  }

  ghost predicate NoEmptyEntry(m: Manager, a: Asset) {
    a in m.subscribers ==> m.subscribers[a] != {}
  }

  ghost predicate WithinCaps(m: Manager, ws: Socket) {
    ws in m.clients ==> |m.clients[ws].assets| <= MAX_ASSETS_PER_CLIENT && m.clients[ws].missedPings <= MAX_MISSED_PINGS
  }

  ghost predicate Consistent(c: Config, m: Manager) {
    && (forall a, ws: Socket :: Indexed(m, a, ws)) && (forall a :: NoEmptyEntry(m, a))
      && (forall ws: Socket :: WithinCaps(m, ws))
    && m.ipOf.Keys == m.clients.Keys && |m.clients| <= c.maxConnections
    && (m.draining ==> forall ws: Socket :: ws in m.clients ==> ws in m.drained)
  }

  lemma {:induction false} AcceptedIsCapped(assets: set<Asset>, requested: seq<Asset>)
    requires |assets| <= MAX_ASSETS_PER_CLIENT
    ensures assets <= Accepted(assets, requested) && |Accepted(assets, requested)| <= MAX_ASSETS_PER_CLIENT
    decreases |requested|
  {
    if requested != [] && |assets| < MAX_ASSETS_PER_CLIENT {
      AcceptedIsCapped(assets + {requested[0]}, requested[1..]);
    }
  }

  lemma {:induction false} AddedIsConsistent(c: Config, m: Manager, ws: Socket, ip: Ip)
    requires Consistent(c, m) && ws !in m.clients
    ensures Consistent(c, Added(c, m, ws, ip))
  {
    var m' := Added(c, m, ws, ip);
    if Accepts(c, m, ip) {
      assert m'.clients.Keys == m.clients.Keys + {ws};
      assert |m'.clients.Keys| == |m.clients.Keys| + 1;
      forall a, v: Socket ensures Indexed(m', a, v) { assert Indexed(m, a, v); }
      forall a ensures NoEmptyEntry(m', a) { assert NoEmptyEntry(m, a); }
      forall v: Socket ensures WithinCaps(m', v) { assert WithinCaps(m, v); }
    }
  }

  lemma {:induction false} RemovedIsConsistent(c: Config, m: Manager, ws: Socket)
    requires Consistent(c, m)
    ensures Consistent(c, Removed(m, ws)) && Removed(m, ws).clients == m.clients - {ws}
    ensures Removed(m, ws).draining == m.draining && Removed(m, ws).drained == m.drained
  {
    if ws in m.clients {
      var m' := Removed(m, ws);
      assert m'.clients.Keys == m.clients.Keys - {ws};
      SubsetSize(m'.clients.Keys, m.clients.Keys);
      forall a, v: Socket ensures Indexed(m', a, v) { assert Indexed(m, a, v) && Indexed(m, a, ws); }
      forall a ensures NoEmptyEntry(m', a) { assert NoEmptyEntry(m, a); }
      forall v: Socket ensures WithinCaps(m', v) { assert WithinCaps(m, v); }
    } else {
      assert m.clients - {ws} == m.clients;
    }
  }

  lemma {:induction false} RemovedAllIsConsistent(c: Config, m: Manager, sockets: seq<Socket>)
    requires Consistent(c, m)
    ensures var m' := RemovedAll(m, sockets);
      && Consistent(c, m') && m'.draining == m.draining && m'.drained == m.drained
  {
    if sockets != [] {
      var init, ws := sockets[..|sockets| - 1], sockets[|sockets| - 1];
      RemovedAllIsConsistent(c, m, init);
      RemovedIsConsistent(c, RemovedAll(m, init), ws);
    }
  }

  /** Exactly the listed sockets go; the others are untouched. */
  lemma {:induction false} RemovedAllDrops(m: Manager, sockets: seq<Socket>, ws: Socket)
    ensures var left := RemovedAll(m, sockets).clients;
      (ws in left <==> ws in m.clients && ws !in sockets) && (ws in left ==> left[ws] == m.clients[ws])
  {
    if sockets != [] {
      RemovedAllDrops(m, sockets[..|sockets| - 1], ws);
      assert ws in sockets <==> ws in sockets[..|sockets| - 1] || ws == sockets[|sockets| - 1];
    }
  }

  lemma {:induction false} SubscribedIsConsistent(c: Config, m: Manager, ws: Socket, requested: seq<Asset>)
    requires Consistent(c, m)
    ensures Consistent(c, Subscribed(m, ws, requested))
  {
    if ws in m.clients {
      var m' := Subscribed(m, ws, requested);
      assert WithinCaps(m, ws);
      AcceptedIsCapped(m.clients[ws].assets, requested);
      assert m'.clients.Keys == m.clients.Keys && |m'.clients.Keys| == |m.clients.Keys|;
      forall a, v: Socket ensures Indexed(m', a, v) { assert Indexed(m, a, v); }
      forall a ensures NoEmptyEntry(m', a) { assert NoEmptyEntry(m, a); }
      forall v: Socket ensures WithinCaps(m', v) { assert WithinCaps(m, v); }
    }
  }

  lemma {:induction false} UnsubscribedIsConsistent(c: Config, m: Manager, ws: Socket, dropped: set<Asset>)
    requires Consistent(c, m)
    ensures Consistent(c, Unsubscribed(m, ws, dropped))
  {
    if ws in m.clients {
      var m' := Unsubscribed(m, ws, dropped);
      SubsetSize(m.clients[ws].assets - dropped, m.clients[ws].assets);
      assert m'.clients.Keys == m.clients.Keys && |m'.clients.Keys| == |m.clients.Keys|;
      forall a, v: Socket ensures Indexed(m', a, v) { assert Indexed(m, a, v); }
      forall a ensures NoEmptyEntry(m', a) { assert NoEmptyEntry(m, a); }
      forall v: Socket ensures WithinCaps(m', v) { assert WithinCaps(m, v); }
    }
  }

  ghost predicate SameAssets(m: Manager, m': Manager, ws: Socket) {
    ws in m.clients && ws in m'.clients ==> m'.clients[ws].assets == m.clients[ws].assets
  }

  /** Missed-ping counters and the draining flag take no part in what must agree. */
  lemma {:induction false} OthersAreConsistent(c: Config, m: Manager, m': Manager)
    requires Consistent(c, m) && m'.clients.Keys == m.clients.Keys && m'.ipOf == m.ipOf
      && m'.subscribers == m.subscribers
    requires forall ws: Socket :: WithinCaps(m', ws) && SameAssets(m, m', ws)
    requires m'.draining ==> forall ws: Socket :: ws in m.clients ==> ws in m'.drained
    ensures Consistent(c, m')
  {
    assert |m'.clients.Keys| == |m.clients.Keys|;
    forall a, v: Socket ensures Indexed(m', a, v) { assert Indexed(m, a, v) && SameAssets(m, m', v); }
    forall a ensures NoEmptyEntry(m', a) { assert NoEmptyEntry(m, a); }
  }

  lemma {:induction false} PongedIsConsistent(c: Config, m: Manager, ws: Socket)
    requires Consistent(c, m)
    ensures Consistent(c, Ponged(m, ws))
  {
    forall v: Socket ensures WithinCaps(Ponged(m, ws), v)
      && SameAssets(m, Ponged(m, ws), v) { assert WithinCaps(m, v); }
    OthersAreConsistent(c, m, Ponged(m, ws));
  }

  lemma {:induction false} PingedIsConsistent(c: Config, m: Manager)
    requires Consistent(c, m)
    ensures Consistent(c, AllPinged(m))
  {
    forall v: Socket ensures WithinCaps(AllPinged(m), v) && SameAssets(m, AllPinged(m), v) { assert WithinCaps(m, v); }
    OthersAreConsistent(c, m, AllPinged(m));
  }

  lemma {:induction false} DrainIsConsistent(c: Config, m: Manager, frozen: seq<Socket>)
    requires Consistent(c, m) && Allowed(m, Drain(frozen))
    ensures Consistent(c, Draining(m, frozen))
  {
    forall v: Socket ensures WithinCaps(Draining(m, frozen), v)
      && SameAssets(m, Draining(m, frozen), v) { assert WithinCaps(m, v); }
    OthersAreConsistent(c, m, Draining(m, frozen));
  }

  lemma {:induction false} StepIsConsistent(c: Config, m: Manager, op: Op)
    requires Consistent(c, m) && Allowed(m, op)
    ensures Consistent(c, Apply(c, m, op))
  {
    match op
    case Connect(ws, ip) => AddedIsConsistent(c, m, ws, ip);
    case Disconnect(ws) => RemovedIsConsistent(c, m, ws);
    case Subscribe(ws, requested) => SubscribedIsConsistent(c, m, ws, requested);
    case Unsubscribe(ws, dropped) => UnsubscribedIsConsistent(c, m, ws, dropped);
    case Pong(ws) => PongedIsConsistent(c, m, ws);
    case Heartbeat(timedOut) =>
      PingedIsConsistent(c, m);
      RemovedAllIsConsistent(c, AllPinged(m), timedOut);
    case Drain(frozen) => DrainIsConsistent(c, m, frozen);
    case Deadline => RemovedAllIsConsistent(c, m, m.drained);
  }

  /** In every run the index agrees with the clients, and the total and per-client caps hold. */
  lemma {:induction false} RunIsConsistent(c: Config, ms: seq<Manager>, ops: seq<Op>, n: nat)
    requires Run(c, ms, ops) && n < |ms|
    ensures Consistent(c, ms[n])
  {
    if n > 0 {
      RunIsConsistent(c, ms, ops, n - 1);
      assert StepAt(c, ms, ops, n - 1);
      StepIsConsistent(c, ms[n - 1], ops[n - 1]);
    }
  }

  /** What a broadcast reaches: a socket that is closing is still indexed, and skipped. */
  function Reached(subs: Index, a: Asset, open: set<Socket>): set<Socket> {
    Receivers(subs, a) * open
  }

  /** In every run a broadcast reaches exactly the connected sockets that watch the asset and are open. */
  lemma {:induction false} BroadcastReachesExactlyTheWatchers(
    c: Config, ms: seq<Manager>, ops: seq<Op>, n: nat, a: Asset, open: set<Socket>, ws: Socket)
    requires Run(c, ms, ops) && n < |ms|
    ensures ws in Reached(ms[n].subscribers, a, open)
       <==> ws in ms[n].clients && a in ms[n].clients[ws].assets && ws in open
    ensures a in ms[n].subscribers <==> exists v: Socket :: v in ms[n].clients && a in ms[n].clients[v].assets
  {
    var m := ms[n];
    RunIsConsistent(c, ms, ops, n);
    assert Indexed(m, a, ws) && NoEmptyEntry(m, a);
    if a in m.subscribers {
      var v :| v in m.subscribers[a];
      assert Indexed(m, a, v);
    }
    if v: Socket :| v in m.clients && a in m.clients[v].assets {
      assert Indexed(m, a, v);
    }
  }

  /** A heartbeat drops exactly the timed-out clients and charges each of the others one missed ping. */
  lemma {:induction false} HeartbeatDropsExactlyTheSilent(c: Config, m: Manager, timedOut: seq<Socket>, ws: Socket)
    requires Allowed(m, Heartbeat(timedOut)) && ws in m.clients
    ensures var m' := Apply(c, m, Heartbeat(timedOut));
      && (ws in m'.clients <==> !TimedOut(m.clients[ws]))
      && (ws in m'.clients ==> m'.clients[ws] == m.clients[ws].(missedPings := m.clients[ws].missedPings + 1))
  {
    RemovedAllDrops(AllPinged(m), timedOut, ws);
  }

  // ---------------------------------------------------------------- what each operation does for its client

  /** The assets named in the first `k` requests. */
  ghost function Named(requested: seq<Asset>, k: nat): set<Asset>
    requires k <= |requested|
  {
    set i | 0 <= i < k :: requested[i]
  }

  /** A subscription takes the requested assets in order, each one while fewer than five are held, and no more. */
  lemma {:induction false} AcceptedInOrder(assets: set<Asset>, requested: seq<Asset>) returns (k: nat)
    ensures k <= |requested| && Accepted(assets, requested) == assets + Named(requested, k)
    ensures k == |requested| || |Accepted(assets, requested)| >= MAX_ASSETS_PER_CLIENT
    ensures forall i :: 0 <= i < k ==> |assets + Named(requested, i)| < MAX_ASSETS_PER_CLIENT
    decreases |requested|
  {
    if requested == [] || |assets| >= MAX_ASSETS_PER_CLIENT {
      k := 0;
      assert Named(requested, 0) == {};
      assert assets + {} == assets;
    } else {
      var more := assets + {requested[0]};
      var j := AcceptedInOrder(more, requested[1..]);
      k := j + 1;
      forall i | 0 < i <= k ensures assets + Named(requested, i) == more + Named(requested[1..], i - 1) {
        NamedTail(requested, i);
      }
      assert Named(requested, 0) == {} && assets + {} == assets;
    }
  }

  lemma {:induction false} NamedTail(requested: seq<Asset>, i: nat)
    requires 0 < i <= |requested|
    ensures Named(requested, i) == {requested[0]} + Named(requested[1..], i - 1)
  {
    forall a | a in Named(requested, i) ensures a in {requested[0]} + Named(requested[1..], i - 1) {
      var j :| 0 <= j < i && requested[j] == a;
      assert j > 0 ==> requested[1..][j - 1] == a;
    }
    forall a | a in Named(requested[1..], i - 1) ensures a in Named(requested, i) {
      var j :| 0 <= j < i - 1 && requested[1..][j] == a;
      assert requested[j + 1] == a;
    }
  }

  /** Each message changes its own client, and no other, as it asks. */
  lemma {:induction false} MessageEffect(c: Config, m: Manager, op: Op, ws: Socket)
    requires (op.Subscribe? || op.Unsubscribe? || op.Pong?) && ws in m.clients
    ensures var m' := Apply(c, m, op);
      && m'.clients.Keys == m.clients.Keys
      && (op.ws != ws ==> m'.clients[ws] == m.clients[ws])
      && (op == Pong(ws) ==> m'.clients[ws] == Client(m.clients[ws].assets, 0))
      && (op.Unsubscribe? && op.ws == ws ==>
           m'.clients[ws] == Client(m.clients[ws].assets - op.dropped, m.clients[ws].missedPings))
      && (op.Subscribe? && op.ws == ws ==>
           m'.clients[ws] == Client(Accepted(m.clients[ws].assets, op.requested), m.clients[ws].missedPings))
  {
  }

  /**
   * In every run a connection is let in exactly while nobody drains and its address's count, which for an ordinary
   * address is its sockets, leaves room under the caps.
   */
  lemma {:induction false} LetInIff(c: Config, ms: seq<Manager>, ops: seq<Op>, n: nat)
    requires Run(c, ms, ops) && n < |ops| && ops[n].Connect?
    ensures var m, ip := ms[n], ops[n].ip;
      var count := if ip in m.perIp then m.perIp[ip] else 0;
      && (ip != "" && ip != UNKNOWN ==> count == |SocketsAt(m.ipOf, ip)|)
      && ms[n + 1].clients ==
         if !m.draining && |m.clients| < c.maxConnections && count < c.maxConnectionsPerIp
         then m.clients[ops[n].ws := Client({}, 0)] else m.clients
  {
    if ops[n].ip != "" && ops[n].ip != UNKNOWN { OrdinaryAddressIsCounted(c, ms, ops, n, ops[n].ip); }
    assert StepAt(c, ms, ops, n);
  }

  // ---------------------------------------------------------------- draining

  lemma {:induction false} RemovedAllShrinks(m: Manager, sockets: seq<Socket>)
    ensures RemovedAll(m, sockets).draining == m.draining && RemovedAll(m, sockets).drained == m.drained
    ensures RemovedAll(m, sockets).clients.Keys <= m.clients.Keys
  {
    if sockets != [] {
      RemovedAllShrinks(m, sockets[..|sockets| - 1]);
    }
  }

  /** A draining manager stays draining and admits nobody. */
  lemma {:induction false} DrainingStep(c: Config, m: Manager, op: Op)
    requires m.draining && Allowed(m, op)
    ensures Apply(c, m, op).draining && Apply(c, m, op).clients.Keys <= m.clients.Keys
  {
    match op
    case Deadline => RemovedAllShrinks(m, m.drained);
    case Heartbeat(timedOut) => RemovedAllShrinks(AllPinged(m), timedOut);
    case _ =>
  }

  lemma {:induction false} DrainingForever(c: Config, ms: seq<Manager>, ops: seq<Op>, i: nat, j: nat)
    requires Run(c, ms, ops) && i <= j < |ms| && ms[i].draining
    ensures ms[j].draining && ms[j].clients.Keys <= ms[i].clients.Keys
    decreases j
  {
    if i < j {
      DrainingForever(c, ms, ops, i, j - 1);
      assert StepAt(c, ms, ops, j - 1);
      DrainingStep(c, ms[j - 1], ops[j - 1]);
    }
  }

  lemma {:induction false} DeadlineEmpties(c: Config, m: Manager)
    requires Consistent(c, m) && m.draining
    ensures RemovedAll(m, m.drained).clients == map[] && RemovedAll(m, m.drained).draining
  {
    var m' := RemovedAll(m, m.drained);
    RemovedAllShrinks(m, m.drained);
    if m'.clients != map[] {
      var ws :| ws in m'.clients;
      RemovedAllDrops(m, m.drained, ws);
    }
  }

  /** Once a drain's deadline has fired, no client or index entry remains and nobody ever joins. */
  lemma {:induction false} DrainEmptiesForGood(
    c: Config, ms: seq<Manager>, ops: seq<Op>, i: nat, j: nat, k: nat, ip: Ip)
    requires Run(c, ms, ops) && i < j < k < |ms| && ops[i].Drain? && ops[j].Deadline?
    ensures ms[k].clients == map[] && ms[k].subscribers == map[] && !Accepts(c, ms[k], ip)
  {
    assert StepAt(c, ms, ops, i) && StepAt(c, ms, ops, j);
    DrainingForever(c, ms, ops, i + 1, j);
    RunIsConsistent(c, ms, ops, j);
    DeadlineEmpties(c, ms[j]);
    DrainingForever(c, ms, ops, j + 1, k);
    RunIsConsistent(c, ms, ops, k);
    forall a ensures a !in ms[k].subscribers {
      BroadcastReachesExactlyTheWatchers(c, ms, ops, k, a, {}, 0);
    }
  }

  // ---------------------------------------------------------------- the per-address counts

  ghost function SocketsAt(ipOf: map<Socket, Ip>, ip: Ip): set<Socket> {
    set ws | ws in ipOf && ipOf[ws] == ip
  }

  /** The count is the number of sockets at that address, within the cap, and is kept only while positive. */
  ghost predicate Counted(c: Config, m: Manager, ip: Ip) {
    CountAt(m.perIp, ip) == |SocketsAt(m.ipOf, ip)| <= c.maxConnectionsPerIp && (ip in m.perIp ==> m.perIp[ip] > 0)
  }

  /** The counts after `leaked` sockets with an empty address have departed. */
  ghost predicate CountedUpTo(c: Config, m: Manager, ip: Ip, leaked: nat) {
    var count, sockets := CountAt(m.perIp, ip), |SocketsAt(m.ipOf, ip)|;
    && (ip in m.perIp ==> m.perIp[ip] > 0) && count <= c.maxConnectionsPerIp
    && (if ip == "" then count == sockets + leaked else if ip == UNKNOWN && leaked > 0 then count <= sockets
      else count == sockets)
  }

  ghost predicate Counts(c: Config, m: Manager, leaked: nat) {
    m.ipOf.Keys == m.clients.Keys && forall ip :: CountedUpTo(c, m, ip, leaked)
  }

  lemma {:induction false} OneMoreSocket(ipOf: map<Socket, Ip>, ws: Socket, ip: Ip, p: Ip)
    requires ws !in ipOf
    ensures |SocketsAt(ipOf[ws := ip], p)| == |SocketsAt(ipOf, p)| + (if p == ip then 1 else 0)
  {
    assert SocketsAt(ipOf[ws := ip], p) == SocketsAt(ipOf, p) + (if p == ip then {ws} else {});
  }

  lemma {:induction false} OneSocketFewer(ipOf: map<Socket, Ip>, ws: Socket, p: Ip)
    requires ws in ipOf
    ensures |SocketsAt(ipOf - {ws}, p)| == |SocketsAt(ipOf, p)| - (if p == ipOf[ws] then 1 else 0)
  {
    assert SocketsAt(ipOf - {ws}, p) == SocketsAt(ipOf, p) - {ws};
    assert p == ipOf[ws] ==> ws in SocketsAt(ipOf, p);
  }

  lemma {:induction false} AddedCounts(c: Config, m: Manager, ws: Socket, ip: Ip, leaked: nat)
    requires Counts(c, m, leaked) && ws !in m.clients
    ensures Counts(c, Added(c, m, ws, ip), leaked)
  {
    if Accepts(c, m, ip) {
      forall p ensures CountedUpTo(c, Added(c, m, ws, ip), p, leaked) {
        assert CountedUpTo(c, m, p, leaked);
        OneMoreSocket(m.ipOf, ws, ip, p);
      }
    }
  }

  /** Sockets with an empty address that a step lets go. */
  ghost function Gone(ipOf: map<Socket, Ip>, ipOf': map<Socket, Ip>): set<Socket> {
    set ws | ws in ipOf && ipOf[ws] == "" && ws !in ipOf'
  }

  ghost function Departed(m: Manager, m': Manager): nat {
    |Gone(m.ipOf, m'.ipOf)|
  }

  ghost predicate Within(ipOf: map<Socket, Ip>, ipOf': map<Socket, Ip>) {
    forall ws :: ws in ipOf' ==> ws in ipOf && ipOf[ws] == ipOf'[ws]
  }

  lemma {:induction false} RemovedCounts(c: Config, m: Manager, ws: Socket, leaked: nat)
    requires Counts(c, m, leaked)
    ensures Counts(c, Removed(m, ws), leaked + Departed(m, Removed(m, ws)))
  {
    var m' := Removed(m, ws);
    if ws in m.clients {
      var leaked' := leaked + if m.ipOf[ws] == "" then 1 else 0;
      assert Gone(m.ipOf, m'.ipOf) == if m.ipOf[ws] == "" then {ws} else {};
      forall p ensures CountedUpTo(c, m', p, leaked') {
        assert CountedUpTo(c, m, p, leaked);
        OneSocketFewer(m.ipOf, ws, p);
      }
    } else {
      assert Gone(m.ipOf, m'.ipOf) == {};
    }
  }

  lemma {:induction false} DepartedAdds(m: Manager, m1: Manager, m2: Manager)
    requires Within(m.ipOf, m1.ipOf) && Within(m1.ipOf, m2.ipOf)
    ensures Departed(m, m2) == Departed(m, m1) + Departed(m1, m2)
  {
    assert Gone(m.ipOf, m2.ipOf) == Gone(m.ipOf, m1.ipOf) + Gone(m1.ipOf, m2.ipOf);
    assert Gone(m.ipOf, m1.ipOf) !! Gone(m1.ipOf, m2.ipOf);
  }

  lemma {:induction false} RemovedAllCounts(c: Config, m: Manager, sockets: seq<Socket>, leaked: nat)
    requires Counts(c, m, leaked)
    ensures Counts(c, RemovedAll(m, sockets), leaked + Departed(m, RemovedAll(m, sockets)))
    ensures Within(m.ipOf, RemovedAll(m, sockets).ipOf)
  {
    if sockets == [] {
      assert Gone(m.ipOf, m.ipOf) == {};
    } else {
      var m1, m2 := RemovedAll(m, sockets[..|sockets| - 1]), RemovedAll(m, sockets);
      RemovedAllCounts(c, m, sockets[..|sockets| - 1], leaked);
      RemovedCounts(c, m1, sockets[|sockets| - 1], leaked + Departed(m, m1));
      DepartedAdds(m, m1, m2);
    }
  }

  /** Counts depend only on who is connected from where. */
  lemma {:induction false} SameCounts(c: Config, m: Manager, m': Manager, leaked: nat)
    requires Counts(c, m, leaked) && m'.ipOf == m.ipOf && m'.perIp == m.perIp && m'.clients.Keys == m.clients.Keys
    ensures Counts(c, m', leaked) && Departed(m, m') == 0
  {
    assert Gone(m.ipOf, m'.ipOf) == {};
    forall p ensures CountedUpTo(c, m', p, leaked) {
      assert CountedUpTo(c, m, p, leaked);
    }
  }

  lemma {:induction false} StepCounts(c: Config, m: Manager, op: Op, leaked: nat)
    requires Counts(c, m, leaked) && Allowed(m, op)
    ensures Counts(c, Apply(c, m, op), leaked + Departed(m, Apply(c, m, op)))
  {
    match op
    case Connect(ws, ip) =>
      AddedCounts(c, m, ws, ip, leaked);
      assert Gone(m.ipOf, Added(c, m, ws, ip).ipOf) == {};
    case Disconnect(ws) => RemovedCounts(c, m, ws, leaked);
    case Subscribe(ws, requested) => SameCounts(c, m, Subscribed(m, ws, requested), leaked);
    case Unsubscribe(ws, dropped) => SameCounts(c, m, Unsubscribed(m, ws, dropped), leaked);
    case Pong(ws) => SameCounts(c, m, Ponged(m, ws), leaked);
    case Heartbeat(timedOut) =>
      SameCounts(c, m, AllPinged(m), leaked);
      RemovedAllCounts(c, AllPinged(m), timedOut, leaked);
    case Drain(frozen) => SameCounts(c, m, Draining(m, frozen), leaked);
    case Deadline => RemovedAllCounts(c, m, m.drained, leaked);
  }

  lemma {:induction false} EmptyCounts(c: Config)
    ensures Counts(c, EMPTY, 0)
  {
    forall ip ensures CountedUpTo(c, EMPTY, ip, 0) { assert SocketsAt(EMPTY.ipOf, ip) == {}; }
  }

  /** How many sockets with an empty address have departed in the first `n` steps. */
  ghost function Leaked(ms: seq<Manager>, n: nat): nat
    requires n < |ms|
  {
    if n == 0 then 0 else Leaked(ms, n - 1) + Departed(ms[n - 1], ms[n])
  }

  /**
   * In every run each departure of an empty address leaves its count one too high for good; ordinary addresses are
   * exact.
   */
  lemma {:induction false} RunCounts(c: Config, ms: seq<Manager>, ops: seq<Op>, n: nat)
    requires Run(c, ms, ops) && n < |ms|
    ensures Counts(c, ms[n], Leaked(ms, n))
  {
    if n == 0 {
      EmptyCounts(c);
    } else {
      RunCounts(c, ms, ops, n - 1);
      assert StepAt(c, ms, ops, n - 1);
      StepCounts(c, ms[n - 1], ops[n - 1], Leaked(ms, n - 1));
    }
  }

  /** All counts equal the actual sockets exactly when no socket with an empty address has departed. */
  lemma {:induction false} CountsAgreeIffNoEmptyAddressLeft(c: Config, ms: seq<Manager>, ops: seq<Op>, n: nat)
    requires Run(c, ms, ops) && n < |ms|
    ensures (forall ip :: Counted(c, ms[n], ip)) <==> Leaked(ms, n) == 0
  {
    RunCounts(c, ms, ops, n);
    assert CountedUpTo(c, ms[n], "", Leaked(ms, n));
    if Leaked(ms, n) == 0 {
      forall ip ensures Counted(c, ms[n], ip) { assert CountedUpTo(c, ms[n], ip, 0); }
    } else {
      assert !Counted(c, ms[n], "");
    }
  }

  /** Every other address but "unknown" is always counted exactly, within its cap. */
  lemma {:induction false} OrdinaryAddressIsCounted(c: Config, ms: seq<Manager>, ops: seq<Op>, n: nat, ip: Ip)
    requires Run(c, ms, ops) && n < |ms| && ip != "" && ip != UNKNOWN
    ensures Counted(c, ms[n], ip)
  {
    RunCounts(c, ms, ops, n);
    assert CountedUpTo(c, ms[n], ip, Leaked(ms, n));
  }

  lemma {:induction false} LeakedGrows(ms: seq<Manager>, i: nat, j: nat)
    requires i <= j < |ms|
    ensures Leaked(ms, i) <= Leaked(ms, j)
    decreases j
  {
    if i < j { LeakedGrows(ms, i, j - 1); }
  }

  /** After as many departures as the per-address cap, an empty address is refused for the rest of the run. */
  lemma {:induction false} LeakedAddressIsRefusedForever(c: Config, ms: seq<Manager>, ops: seq<Op>, i: nat, j: nat)
    requires Run(c, ms, ops) && i <= j < |ms| && Leaked(ms, i) >= c.maxConnectionsPerIp
    ensures !Accepts(c, ms[j], "")
  {
    LeakedGrows(ms, i, j);
    RunCounts(c, ms, ops, j);
    assert CountedUpTo(c, ms[j], "", Leaked(ms, j));
  }

  /** One connection and disconnection: nobody is connected, and the empty address is refused under a cap of one. */
  lemma EmptyAddressLeaks(maxConnections: nat)
    requires maxConnections > 0
    ensures var c, ops := Config(maxConnections, 1), [Connect(0, ""), Disconnect(0)];
      exists ms: seq<Manager> ::
        Run(c, ms, ops) && ms[2].clients == map[] && Leaked(ms, 2) == 1 && !Accepts(c, ms[2], "")
  {
    var c, ops := Config(maxConnections, 1), [Connect(0, ""), Disconnect(0)];
    var m1 := Added(c, EMPTY, 0, "");
    var m2 := Removed(m1, 0);
    var ms := [EMPTY, m1, m2];
    assert StepAt(c, ms, ops, 0) && StepAt(c, ms, ops, 1);
    assert Gone(EMPTY.ipOf, m1.ipOf) == {} && Gone(m1.ipOf, m2.ipOf) == {0};
    assert Leaked(ms, 1) == Leaked(ms, 0) + Departed(EMPTY, m1) == 0;
    assert Leaked(ms, 2) == Leaked(ms, 1) + Departed(m1, m2) == 1;
    assert m2.clients == map[];
  }

  // ---------------------------------------------------------------- the class

  lemma {:induction false} IndexOneMore(subs: Index, ws: Socket, assets: set<Asset>, a: Asset)
    ensures var s := IndexWith(subs, ws, assets);
      IndexWith(subs, ws, assets + {a}) == s[a := Receivers(s, a) + {ws}]
  {
    var s := IndexWith(subs, ws, assets);
    var l, r := IndexWith(subs, ws, assets + {a}), s[a := Receivers(s, a) + {ws}];
    assert l.Keys == r.Keys;
    forall x | x in l ensures l[x] == r[x] { }
  }

  lemma {:induction false} UnindexOneMore(subs: Index, ws: Socket, assets: set<Asset>, a: Asset)
    ensures var s := IndexWithout(subs, ws, assets);
      IndexWithout(subs, ws, assets + {a}) ==
        if a !in s then s else if s[a] - {ws} == {} then s - {a} else s[a := s[a] - {ws}]
  {
    var s := IndexWithout(subs, ws, assets);
    var l := IndexWithout(subs, ws, assets + {a});
    if a in s {
      assert s[a] - {ws} == subs[a] - {ws};
      if s[a] - {ws} == {} {
        assert l == s - {a};
      } else {
        assert l == s[a := s[a] - {ws}];
      }
    } else {
      assert l == s;
    }
  }

  lemma {:induction false} IndexNone(subs: Index, ws: Socket)
    ensures IndexWith(subs, ws, {}) == subs && IndexWithout(subs, ws, {}) == subs
  {
    var l := IndexWith(subs, ws, {});
    assert l.Keys == subs.Keys;
    forall a | a in subs ensures l[a] == subs[a] { assert subs[a] + {} == subs[a]; }
  }

  class SubscriptionManager {
    const config: Config
    var clients: map<Socket, Client>
    var clientIpBySocket: map<Socket, Ip>
    var connectionsByIp: map<Ip, nat>
    var assetSubscribers: Index
    var draining: bool
    var drainedSockets: seq<Socket>

    function View(): Manager reads this {
      Manager(clients, clientIpBySocket, connectionsByIp, assetSubscribers, draining, drainedSockets)
    }

    constructor (c: Config)
      ensures config == c && View() == EMPTY
    {
      config := c;
      clients, clientIpBySocket, connectionsByIp, assetSubscribers, draining, drainedSockets := map[], map[], map[],
        map[], false, [];
    }

    method Add(ws: Socket, ip: Ip) returns (accepted: bool)
      modifies this
      ensures accepted == Accepts(config, old(View()), ip) && View() == Added(config, old(View()), ws, ip)
    {
      if draining { return false; }
      var currentByIp := if ip in connectionsByIp then connectionsByIp[ip] else 0;
      if |clients| >= config.maxConnections || currentByIp >= config.maxConnectionsPerIp { return false; }
      clients := clients[ws := Client({}, 0)];
      clientIpBySocket := clientIpBySocket[ws := ip];
      connectionsByIp := connectionsByIp[ip := currentByIp + 1];
      return true;
    }

    method AddToAssetIndex(ws: Socket, assets: set<Asset>)
      modifies this`assetSubscribers
      ensures assetSubscribers == IndexWith(old(assetSubscribers), ws, assets)
    {
      var done: set<Asset> := {};
      IndexNone(assetSubscribers, ws);
      while !(assets <= done)
        invariant done <= assets
        invariant assetSubscribers == IndexWith(old(assetSubscribers), ws, done)
        decreases assets - done
      {
        var a :| a in assets && a !in done;
        IndexOneMore(old(assetSubscribers), ws, done, a);
        var subs := if a in assetSubscribers then assetSubscribers[a] else {};
        assetSubscribers := assetSubscribers[a := subs + {ws}];
        done := done + {a};
      }
      assert done == assets;
    }

    method RemoveFromAssetIndex(ws: Socket, assets: set<Asset>)
      modifies this`assetSubscribers
      ensures assetSubscribers == IndexWithout(old(assetSubscribers), ws, assets)
    {
      var done: set<Asset> := {};
      IndexNone(assetSubscribers, ws);
      while !(assets <= done)
        invariant done <= assets
        invariant assetSubscribers == IndexWithout(old(assetSubscribers), ws, done)
        decreases assets - done
      {
        var a :| a in assets && a !in done;
        UnindexOneMore(old(assetSubscribers), ws, done, a);
        if a in assetSubscribers {
          var subs := assetSubscribers[a] - {ws};
          assetSubscribers := if subs == {} then assetSubscribers - {a} else assetSubscribers[a := subs];
        }
        done := done + {a};
      }
      assert done == assets;
    }

    method Remove(ws: Socket)
      modifies this
      ensures View() == Removed(old(View()), ws)
    {
      if ws !in clients { return; }
      var ip := if ws in clientIpBySocket && clientIpBySocket[ws] != "" then clientIpBySocket[ws] else UNKNOWN;
      RemoveFromAssetIndex(ws, clients[ws].assets);
      clients := clients - {ws};
      clientIpBySocket := clientIpBySocket - {ws};
      var nextCount: int := (if ip in connectionsByIp && connectionsByIp[ip] != 0 then connectionsByIp[ip] as int
        else 1) - 1;
      connectionsByIp := if nextCount <= 0 then connectionsByIp - {ip} else connectionsByIp[ip := nextCount];
    }

    method RemoveEach(sockets: seq<Socket>)
      modifies this
      ensures View() == RemovedAll(old(View()), sockets)
    {
      var i := 0;
      while i < |sockets|
        invariant i <= |sockets|
        invariant View() == RemovedAll(old(View()), sockets[..i])
      {
        Remove(sockets[i]);
        assert sockets[..i + 1][..i] == sockets[..i];
        i := i + 1;
      }
      assert sockets[..i] == sockets;
    }

    method HandleSubscribe(ws: Socket, requested: seq<Asset>)
      modifies this
      ensures View() == Subscribed(old(View()), ws, requested)
    {
      if ws !in clients { return; }
      var client := clients[ws];
      var assets, i := client.assets, 0;
      while i < |requested| && |assets| < MAX_ASSETS_PER_CLIENT
        invariant i <= |requested|
        invariant Accepted(client.assets, requested) == Accepted(assets, requested[i..])
        decreases |requested| - i
      {
        assets := assets + {requested[i]};
        i := i + 1;
      }
      clients := clients[ws := client.(assets := assets)];
      AddToAssetIndex(ws, assets - client.assets);
    }

    method HandleUnsubscribe(ws: Socket, dropped: set<Asset>)
      modifies this
      ensures View() == Unsubscribed(old(View()), ws, dropped)
    {
      if ws !in clients { return; }
      RemoveFromAssetIndex(ws, dropped);
      clients := clients[ws := clients[ws].(assets := clients[ws].assets - dropped)];
    }

    method HandlePong(ws: Socket)
      modifies this
      ensures View() == Ponged(old(View()), ws)
    {
      if ws !in clients { return; }
      clients := clients[ws := clients[ws].(missedPings := 0)];
    }

    /** Pings every client and collects the timed-out ones, then drops those. */
    method HeartbeatTick() returns (timedOut: seq<Socket>)
      modifies this
      ensures Allowed(old(View()), Heartbeat(timedOut))
      ensures View() == Apply(config, old(View()), Heartbeat(timedOut))
    {
      var was, done: set<Socket> := clients, {};
      timedOut := [];
      while !(was.Keys <= done)
        invariant done <= was.Keys && clients.Keys == was.Keys
        invariant forall ws: Socket :: ws in timedOut <==> ws in done && TimedOut(was[ws])
        invariant forall ws :: ws in was ==> clients[ws] == if ws in done then Pinged(was[ws]) else was[ws]
        invariant View() == old(View()).(clients := clients)
        decreases was.Keys - done
      {
        var ws :| ws in was.Keys && ws !in done;
        if clients[ws].missedPings >= MAX_MISSED_PINGS {
          timedOut := timedOut + [ws];
        } else {
          clients := clients[ws := clients[ws].(missedPings := clients[ws].missedPings + 1)];
        }
        done := done + {ws};
      }
      assert clients == AllPinged(old(View())).clients;
      RemoveEach(timedOut);
    }

    /**
     * While index and clients agree, what is sent reaches exactly the connected sockets that watch the asset and are
     * open; `open` are the sockets whose state is OPEN.
     */
    method Broadcast(a: Asset, open: set<Socket>) returns (sent: set<Socket>)
      ensures Consistent(config, View()) ==>
        forall ws: Socket :: ws in sent <==> ws in clients && a in clients[ws].assets && ws in open
    {
      sent := {};
      var done: set<Socket>, all := {}, if a in assetSubscribers then assetSubscribers[a] else {};
      while !(all <= done)
        invariant done <= all && sent == done * open
        decreases all - done
      {
        var ws :| ws in all && ws !in done;
        if ws in open { sent := sent + {ws}; }
        done := done + {ws};
      }
      assert sent == Reached(assetSubscribers, a, open);
      if Consistent(config, View()) {
        forall ws: Socket ensures ws in sent <==> ws in clients && a in clients[ws].assets && ws in open {
          assert Indexed(View(), a, ws);
        }
      }
    }

    /** `frozen` is the list of connected sockets taken in the same tick. */
    method BeginDrain(frozen: seq<Socket>)
      modifies this
      ensures View() == Draining(old(View()), frozen)
    {
      draining := true;
      drainedSockets := frozen;
    }

    method DrainDeadline()
      modifies this
      ensures View() == RemovedAll(old(View()), old(drainedSockets))
    {
      RemoveEach(drainedSockets);
    }
  }
}
