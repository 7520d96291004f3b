/**
  A syncing client and one honest peer, joined by a network that neither loses
  nor reorders messages. Requests may time out at any moment and be sent again
  while the first is still under way.
*/
module SyncSystem {
  import opened Wrappers
  import opened Bytes
  import opened MemoryStore
  import opened BlockSync
  import opened SyncReactors

  /** What does not change: the peer, its blocks, the client's settings. */
  datatype World = World(peer: PeerId, chain: Store, k: Settings)

  datatype System = System(client: Client, asked: seq<int>, answered: seq<seq<BlockData>>)

  function At(s: Store, h: int): BlockData
    requires h in s.blocks
  {
    BlockData(h, s.blocks[h].hash, s.blocks[h].data)
  }

  /** The peer's blocks 1 to Height have distinct hashes and pass the client's checks. */
  ghost predicate Honest(w: World) {
    && w.peer != "" && 1 <= w.k.batchSize <= MAX_BATCH_SIZE && w.k.maxParallel >= 1
    && GapFree(w.chain) && Indexed(w.chain) && w.chain.height <= MAX_BLOCK_HEIGHT
    && forall h :: h in w.chain.blocks ==> WellFormedBlock(At(w.chain, h)) && Genuine(w.k.rules, At(w.chain, h))
  }

  function Answer(w: World, start: int): seq<BlockData> {
    Stretch(w.chain, start, ClampBatchSize(w.k.batchSize))
  }

  function Starts(rs: seq<Request>): seq<int> {
    seq(|rs|, i requires 0 <= i < |rs| => rs[i].1)
  }

  datatype Event = Tick(now: int) | Serving | Deliver(now: int)

  ghost predicate Step(w: World, s: System, e: Event, t: System) {
    match e
    case Tick(now) =>
      exists rs :: Checks(w.k, s.client, now, t.client, rs) && t == s.(client := t.client, asked := s.asked + Starts(rs))
    case Serving =>
      && s.asked != [] && ValidHeight(s.asked[0])
      && var a := Answer(w, s.asked[0]);
         t == s.(asked := s.asked[1..], answered := if a == [] then s.answered else s.answered + [a])
    case Deliver(now) =>
      && s.answered != []
      && exists rs ::
         && Handles(w.k, s.client, w.peer, s.answered[0], now, t.client, rs)
         && t == s.(client := t.client, answered := s.answered[1..], asked := s.asked + Starts(rs))
  }

  // ----- storing what the peer answers

  /** The client's store holds the first blocks of the chain. */
  ghost predicate PrefixOf(s: Store, chain: Store) {
    && GapFree(s) && Indexed(s) && s.height <= chain.height
    && forall h :: h in s.blocks ==> h in chain.blocks && s.blocks[h] == chain.blocks[h]
  }

  function Min(a: int, b: int): int { if a < b then a else b }
  function Max(a: int, b: int): int { if a < b then b else a }

  lemma HashNew(s: Store, chain: Store, h: int)
    requires PrefixOf(s, chain) && Indexed(chain) && h in chain.blocks && h !in s.blocks
    ensures chain.blocks[h].hash !in s.byHash
  {
    assert forall g :: g in s.blocks ==> s.blocks[g].hash != chain.blocks[h].hash;
  }

  lemma StoreNext(w: World, s: Store)
    requires Honest(w) && PrefixOf(s, w.chain) && s.height < w.chain.height
    ensures var b := At(w.chain, s.height + 1);
      PrefixOf(StoreOne(w.k.rules, s, b), w.chain) && StoreOne(w.k.rules, s, b).height == s.height + 1
  {
    var b := At(w.chain, s.height + 1);
    HashNew(s, w.chain, s.height + 1);
  }

  /** Storing an answer that starts within reach brings the store up to its
      last block, and nobody is blamed. */
  lemma {:induction false} StoreAnswer(w: World, s: Store, start: int, n: nat)
    requires Honest(w) && PrefixOf(s, w.chain) && 1 <= start <= s.height + 1
    ensures var blocks := Stretch(w.chain, start, n); var t := StoreAll(w.k.rules, s, blocks);
      && PrefixOf(t, w.chain) && Penalties(w.k.rules, s, blocks) == 0
      && t.height == Max(s.height, Min(start + n - 1, w.chain.height))
    decreases n
  {
    hide PrefixOf, Honest, StoreOne;
    HonestReach(w, start);
    PrefixReach(w, s, start);
    if n > 0 && start <= w.chain.height {
      var b := At(w.chain, start);
      var rest := Stretch(w.chain, start + 1, n - 1);
      assert Stretch(w.chain, start, n) == [b] + rest;
      assert ([b] + rest)[1..] == rest;
      var t := StoreOne(w.k.rules, s, b);
      StoreOneOf(w, s, start);
      StoreAnswer(w, t, start + 1, n - 1);
    }
  }

  lemma HonestReach(w: World, h: int)
    requires Honest(w) && 1 <= h
    ensures h in w.chain.blocks <==> h <= w.chain.height
    ensures h in w.chain.blocks ==> WellFormedBlock(At(w.chain, h)) && Genuine(w.k.rules, At(w.chain, h))
  {
  }

  lemma PrefixReach(w: World, s: Store, h: int)
    requires PrefixOf(s, w.chain) && 1 <= h
    ensures h in s.blocks <==> h <= s.height
    ensures 0 <= s.height <= w.chain.height
  {
  }

  lemma StoreOneOf(w: World, s: Store, h: int)
    requires Honest(w) && PrefixOf(s, w.chain) && 1 <= h <= s.height + 1 && h in w.chain.blocks
    ensures var t := StoreOne(w.k.rules, s, At(w.chain, h));
      PrefixOf(t, w.chain) && t.height == Max(s.height, h)
  {
    if h == s.height + 1 { StoreNext(w, s); }
  }

  /** An answer starts where it was asked to and passes the contiguity check. */
  lemma {:induction false} AnswerBlocks(w: World, start: int, n: nat)
    requires Honest(w) && 1 <= start
    ensures var blocks := Stretch(w.chain, start, n);
      && ConsecutiveFrom(blocks, start)
      && (forall i :: 0 <= i < |blocks| ==> WellFormedBlock(blocks[i]))
      && (n > 0 && start <= w.chain.height ==> blocks != [])
    decreases n
  {
    hide Honest;
    HonestReach(w, start);
    if n > 0 && start <= w.chain.height {
      AnswerBlocks(w, start + 1, n - 1);
      assert Stretch(w.chain, start, n) == [At(w.chain, start)] + Stretch(w.chain, start + 1, n - 1);
    }
  }

  lemma AnswerAccepted(w: World, s: Store, start: int)
    requires Honest(w) && 1 <= start <= s.height + 1
    ensures Contiguous(s, Answer(w, start))
    ensures start <= w.chain.height ==> Answer(w, start) != [] && Answer(w, start)[0].height == start
  {
    AnswerBlocks(w, start, ClampBatchSize(w.k.batchSize));
  }

  // ----- one check

  /** Where the next request would start, if blocks above `since` are wanted. */
  function NextStart(k: Settings, c: Client, peer: PeerId, since: int, now: int): int {
    var n := if peer in c.pending && now - c.pending[peer].requestedAt > k.timeout
             then Min(c.next, c.pending[peer].startHeight) else c.next;
    Max(n, since + 1)
  }

  /** Whether a request is still waited for. */
  predicate Waiting(k: Settings, c: Client, peer: PeerId, now: int) {
    peer in c.pending && now - c.pending[peer].requestedAt <= k.timeout
  }

  function Sent(k: Settings, c: Client, peer: PeerId, start: int, now: int): Client {
    c.(next := start + k.batchSize,
       pending := map[peer := PendingRequest(start, start + k.batchSize - 1, now)])
  }

  function Unsent(k: Settings, c: Client, peer: PeerId, start: int, now: int): Client {
    c.(next := start, pending := if Waiting(k, c, peer, now) then c.pending else map[])
  }

  ghost predicate KnowsOnly(c: Client, peer: PeerId, height: int) {
    c.peerHeights == map[peer := height] && c.pending.Keys <= {peer}
  }

  lemma PeerLists(c: Client, peer: PeerId, height: int, min: int, peers: seq<PeerId>)
    requires KnowsOnly(c, peer, height) && Lists(peers, PeersWithHeight(c.peerHeights, min))
    ensures peers == if height >= min then [peer] else []
  {
    assert PeersWithHeight(c.peerHeights, min) == if height >= min then {peer} else {};
    assert height >= min ==> peer in peers;
  }

  /** A check with one known peer, in closed form. */
  lemma CheckOne(k: Settings, c: Client, peer: PeerId, height: int, now: int, d: Client, rs: seq<Request>)
    requires peer != "" && k.maxParallel >= 1 && KnowsOnly(c, peer, height) && c.store.height < height
    requires Checks(k, c, now, d, rs)
    ensures var start := NextStart(k, c, peer, c.store.height, now);
      if Waiting(k, c, peer, now) || height < start
      then rs == [] && d == Unsent(k, c, peer, start, now).(syncing := true)
      else rs == [(peer, start)] && d == Sent(k, c, peer, start, now).(syncing := true)
  {
    hide Requests;
    BehindOne(k, c, peer, height, now, d, rs);
    RequestsOne(k, c.(syncing := true), peer, height, c.store.height, now, d, rs);
  }

  /** So is a request for what lies above `since`. */
  lemma RequestsOne(k: Settings, c: Client, peer: PeerId, height: int, since: int, now: int, d: Client, rs: seq<Request>)
    requires peer != "" && k.maxParallel >= 1 && KnowsOnly(c, peer, height) && Requests(k, c, since, now, d, rs)
    ensures var start := NextStart(k, c, peer, since, now);
      if Waiting(k, c, peer, now) || height < start
      then rs == [] && d == Unsent(k, c, peer, start, now)
      else rs == [(peer, start)] && d == Sent(k, c, peer, start, now)
  {
    hide Lists, Requests, HandsOut, Rewound;
    var n, peers := RequestsWith(k, c, since, now, d, rs);
    RewoundTo(k, c, peer, since, now, n);
    HandsOutOne(k, c, peer, height, since, now, n, peers, d, rs);
  }

  lemma BehindOne(k: Settings, c: Client, peer: PeerId, height: int, now: int, d: Client, rs: seq<Request>)
    requires KnowsOnly(c, peer, height) && c.store.height < height && Checks(k, c, now, d, rs)
    ensures Requests(k, c.(syncing := true), c.store.height, now, d, rs)
  {
    hide Requests;
    assert peer in c.peerHeights && c.peerHeights[peer] > c.store.height;
  }

  lemma RequestsWith(k: Settings, c: Client, since: int, now: int, d: Client, rs: seq<Request>) returns (n: int, peers: seq<PeerId>)
    requires Requests(k, c, since, now, d, rs)
    ensures Rewound(c.pending, TimedOut(k, c.pending, now), c.next, n)
    ensures HandsOut(k, c, c.pending - TimedOut(k, c.pending, now), n, since, peers, now, d, rs)
  {
    hide HandsOut, Rewound;
    n, peers :| && Rewound(c.pending, TimedOut(k, c.pending, now), c.next, n)
                && HandsOut(k, c, c.pending - TimedOut(k, c.pending, now), n, since, peers, now, d, rs);
  }

  lemma RewoundTo(k: Settings, c: Client, peer: PeerId, since: int, now: int, n: int)
    requires c.pending.Keys <= {peer} && Rewound(c.pending, TimedOut(k, c.pending, now), c.next, n)
    ensures Max(n, since + 1) == NextStart(k, c, peer, since, now)
    ensures c.pending - TimedOut(k, c.pending, now) == if Waiting(k, c, peer, now) then c.pending else map[]
  {
    var dropped := TimedOut(k, c.pending, now);
    if peer in dropped {
      assert c.pending - dropped == map[];
    } else {
      assert dropped == {};
      assert c.pending - dropped == c.pending;
      assert peer !in c.pending ==> c.pending == map[];
    }
  }

  lemma HandsOutOne(
    k: Settings, c: Client, peer: PeerId, height: int, since: int, now: int, n: int, peers: seq<PeerId>, d: Client, rs: seq<Request>)
    requires peer != "" && k.maxParallel >= 1 && KnowsOnly(c, peer, height)
    requires Max(n, since + 1) == NextStart(k, c, peer, since, now)
    requires HandsOut(k, c, if Waiting(k, c, peer, now) then c.pending else map[], n, since, peers, now, d, rs)
    ensures var start := NextStart(k, c, peer, since, now);
      if Waiting(k, c, peer, now) || height < start
      then rs == [] && d == Unsent(k, c, peer, start, now)
      else rs == [(peer, start)] && d == Sent(k, c, peer, start, now)
  {
    hide Lists, Assign;
    var start := NextStart(k, c, peer, since, now);
    PeerLists(c, peer, height, start, peers);
    AssignOne(k, if Waiting(k, c, peer, now) then c.pending else map[], peer, height >= start, start, now);
  }

  lemma AssignOne(k: Settings, pending: map<PeerId, PendingRequest>, peer: PeerId, able: bool, start: int, now: int)
    requires peer != "" && k.maxParallel >= 1 && pending.Keys <= {peer}
    ensures Assign(k, pending, if able then [peer] else [], k.maxParallel - |pending|, start, now) ==
      if able && peer !in pending
      then (map[peer := PendingRequest(start, start + k.batchSize - 1, now)], start + k.batchSize, [(peer, start)])
      else (pending, start, [])
  {
    assert [peer][1..] == [];
    if able && peer !in pending {
      assert pending == map[];
      var one: map<PeerId, PendingRequest> := map[peer := PendingRequest(start, start + k.batchSize - 1, now)];
      assert pending[peer := PendingRequest(start, start + k.batchSize - 1, now)] == one;
      assert Assign(k, one, [], k.maxParallel - 1, start + k.batchSize, now) == (one, start + k.batchSize, []);
      assert [(peer, start)] + [] == [(peer, start)];
    }
  }

  /** A check can always be made. */
  lemma CheckPossible(k: Settings, c: Client, peer: PeerId, height: int, now: int) returns (d: Client, rs: seq<Request>)
    requires KnowsOnly(c, peer, height)
    ensures Checks(k, c, now, d, rs)
  {
    hide Requests, Behind;
    if Behind(c) {
      d, rs := RequestPossible(k, c.(syncing := true), peer, height, c.store.height, now);
    } else {
      d, rs := if c.syncing then c.(syncing := false, completions := c.completions + 1) else c, [];
    }
  }

  lemma RequestPossible(k: Settings, c: Client, peer: PeerId, height: int, since: int, now: int) returns (d: Client, rs: seq<Request>)
    requires KnowsOnly(c, peer, height)
    ensures Requests(k, c, since, now, d, rs)
  {
    hide Assign, Lists, Rewound, HandsOut;
    var dropped := TimedOut(k, c.pending, now);
    var n := RewindPossible(c.pending, peer, dropped, c.next);
    var peers := ListPossible(c, peer, height, if n <= since then since + 1 else n);
    d, rs := HandOutPossible(k, c, c.pending - dropped, n, since, peers, now);
    assert Rewound(c.pending, dropped, c.next, n) && HandsOut(k, c, c.pending - dropped, n, since, peers, now, d, rs);
  }

  lemma HandOutPossible(k: Settings, c: Client, left: map<PeerId, PendingRequest>, n: int, since: int, peers: seq<PeerId>, now: int)
    returns (d: Client, rs: seq<Request>)
    requires Lists(peers, PeersWithHeight(c.peerHeights, if n <= since then since + 1 else n))
    ensures HandsOut(k, c, left, n, since, peers, now, d, rs)
  {
    hide Assign, Lists;
    var r := Assign(k, left, peers, k.maxParallel - |left|, if n <= since then since + 1 else n, now);
    d, rs := c.(pending := r.0, next := r.1), r.2;
  }

  lemma RewindPossible(pending: map<PeerId, PendingRequest>, peer: PeerId, dropped: set<PeerId>, next: int) returns (n: int)
    requires dropped <= pending.Keys <= {peer}
    ensures Rewound(pending, dropped, next, n)
  {
    n := if peer in dropped then Min(next, pending[peer].startHeight) else next;
  }

  lemma ListPossible(c: Client, peer: PeerId, height: int, next: int) returns (peers: seq<PeerId>)
    requires KnowsOnly(c, peer, height)
    ensures Lists(peers, PeersWithHeight(c.peerHeights, next))
  {
    assert PeersWithHeight(c.peerHeights, next) == if height >= next then {peer} else {};
    peers := if height >= next then [peer] else [];
  }

  /** With no request waited for, a check sends one exactly when some known
      peer has a block at or above the next height to ask for. */
  lemma AsksExactly(k: Settings, c: Client, now: int, d: Client, rs: seq<Request>)
    requires k.maxParallel >= 1 && c.pending == map[] && "" !in c.peerHeights && Behind(c) && Checks(k, c, now, d, rs)
    ensures rs == [] <==> PeersWithHeight(c.peerHeights, Max(c.next, c.store.height + 1)) == {}
    ensures rs == [] ==> d == c.(syncing := true, next := Max(c.next, c.store.height + 1))
  {
    hide Rewound, HandsOut;
    var b := c.(syncing := true);
    var n, peers := RequestsWith(k, b, c.store.height, now, d, rs);
    assert c.pending - TimedOut(k, c.pending, now) == map[];
    NothingRewound(k, c.next, now, n);
    FirstAsked(k, b, n, peers, now, d, rs);
  }

  lemma NothingRewound(k: Settings, next: int, now: int, n: int)
    requires Rewound(map[], TimedOut(k, map[], now), next, n)
    ensures n == next
  {
    assert TimedOut(k, map[], now) == {};
  }

  lemma FirstAsked(k: Settings, c: Client, n: int, peers: seq<PeerId>, now: int, d: Client, rs: seq<Request>)
    requires k.maxParallel >= 1 && c.pending == map[] && "" !in c.peerHeights
    requires HandsOut(k, c, map[], n, c.store.height, peers, now, d, rs)
    ensures rs == [] <==> PeersWithHeight(c.peerHeights, Max(n, c.store.height + 1)) == {}
    ensures rs == [] ==> d == c.(next := Max(n, c.store.height + 1))
  {
    var eligible := PeersWithHeight(c.peerHeights, Max(n, c.store.height + 1));
    if peers != [] {
      assert peers[0] in peers;
      assert peers[0] in eligible && peers[0] != "";
    } else {
      assert eligible == {};
    }
  }

  ghost predicate Ticks(k: Settings, c: Client, now: int, d: Client) {
    exists rs :: Checks(k, c, now, d, rs)
  }

  /** A request that could not be sent is not asked for again: once the next
      height has passed every peer, a client that is behind stays behind. */
  lemma {:induction false} StuckForever(k: Settings, c: Client, ticks: seq<int>, run: seq<Client>)
    requires k.maxParallel >= 1 && c.pending == map[] && "" !in c.peerHeights && Behind(c)
    requires PeersWithHeight(c.peerHeights, c.next) == {}
    requires |run| == |ticks| + 1 && run[0] == c
    requires forall i :: 0 <= i < |ticks| ==> Ticks(k, run[i], ticks[i], run[i + 1])
    ensures run[|ticks|].store == c.store && run[|ticks|].pending == map[] && Behind(run[|ticks|])
    decreases |ticks|
  {
    hide Checks;
    if ticks != [] {
      var d := run[1];
      assert Ticks(k, run[0], ticks[0], run[0 + 1]);
      var rs :| Checks(k, c, ticks[0], d, rs);
      assert PeersWithHeight(c.peerHeights, Max(c.next, c.store.height + 1)) <= PeersWithHeight(c.peerHeights, c.next);
      AsksExactly(k, c, ticks[0], d, rs);
      assert PeersWithHeight(d.peerHeights, d.next) <= PeersWithHeight(c.peerHeights, c.next);
      assert Behind(d);
      forall i | 0 <= i < |ticks[1..]|
        ensures Ticks(k, run[1..][i], ticks[1..][i], run[1..][i + 1])
      {
        assert Ticks(k, run[i + 1], ticks[i + 1], run[i + 1 + 1]);
      }
      StuckForever(k, d, ticks[1..], run[1..]);
    }
  }

  // ----- what is on its way

  /** How far the store will reach, plus one, after an answer from `start`. */
  function Bump(w: World, r: int, start: int): int {
    Max(r, Min(start + w.k.batchSize, w.chain.height + 1))
  }

  /** The same after all these answers, delivered in order: one that starts
      beyond what the store holds by then is refused. */
  function Reach(w: World, starts: seq<int>, r: int): int
    decreases |starts|
  {
    if starts == [] then r else Reach(w, starts[1..], if starts[0] <= r then Bump(w, r, starts[0]) else r)
  }

  /** Delivered in order, every request on its way starts within reach. */
  predicate Lined(w: World, starts: seq<int>, r: int)
    decreases |starts|
  {
    starts == [] || (1 <= starts[0] <= Min(r, w.chain.height) && Lined(w, starts[1..], Bump(w, r, starts[0])))
  }

  lemma {:induction false} LinedAppend(w: World, starts: seq<int>, r: int, x: int)
    requires Lined(w, starts, r) && 1 <= x <= Min(Reach(w, starts, r), w.chain.height)
    ensures Lined(w, starts + [x], r) && Reach(w, starts + [x], r) == Bump(w, Reach(w, starts, r), x)
    decreases |starts|
  {
    if starts == [] {
      assert (starts + [x])[1..] == [];
    } else {
      assert (starts + [x])[1..] == starts[1..] + [x];
      LinedAppend(w, starts[1..], Bump(w, r, starts[0]), x);
    }
  }

  lemma {:induction false} ReachGrows(w: World, starts: seq<int>, r: int)
    ensures r <= Reach(w, starts, r)
    decreases |starts|
  {
    if starts != [] { ReachGrows(w, starts[1..], if starts[0] <= r then Bump(w, r, starts[0]) else r); }
  }

  /** An answer starts where it was asked to. */
  lemma AnswerAt(w: World, start: int)
    requires Honest(w) && 1 <= start <= w.chain.height
    ensures Answer(w, start) != [] && First(Answer(w, start)) == start
  {
    hide Honest, Answer, Contiguous;
    AnswerAccepted(w, w.chain.(height := start), start);
  }

  // ----- the invariant

  ghost predicate Core(w: World, c: Client, flight: seq<int>) {
    var r := c.store.height + 1;
    && PrefixOf(c.store, w.chain) && KnowsOnly(c, w.peer, w.chain.height) && c.penalties == 0
    && Lined(w, flight, r) && Min(c.next, w.chain.height + 1) <= Reach(w, flight, r)
    && (w.peer in c.pending ==> flight != [] && c.pending[w.peer].startHeight <= Reach(w, flight, r))
  }

  /** The completion callback has fired once if the client has caught up, else not at all. */
  ghost predicate Tallied(w: World, c: Client) {
    c.completions == if c.syncing || c.store.height < w.chain.height then 0 else 1
  }

  function Flight(s: System): seq<int> {
    seq(|s.answered|, i requires 0 <= i < |s.answered| => First(s.answered[i])) + s.asked
  }

  function First(blocks: seq<BlockData>): int {
    if blocks == [] then 0 else blocks[0].height
  }

  ghost predicate Truthful(w: World, answered: seq<seq<BlockData>>) {
    forall i :: 0 <= i < |answered| ==> answered[i] == Answer(w, First(answered[i]))
  }

  ghost predicate Inv(w: World, s: System) {
    && Core(w, s.client, Flight(s)) && Tallied(w, s.client) && Truthful(w, s.answered)
    && (s.client.syncing ==> s.client.store.height < w.chain.height)
    && (Flight(s) != [] && s.client.store.height < w.chain.height ==> s.client.syncing)
  }

  /** A client that is behind, knows the peer and has asked for nothing yet. */
  ghost predicate Init(w: World, s: System) {
    var c := s.client;
    && PrefixOf(c.store, w.chain) && c.store.height < w.chain.height
    && c == Client(c.store, false, map[w.peer := w.chain.height], map[], 0, 0, 0)
    && s.asked == [] && s.answered == []
  }

  lemma InitHolds(w: World, s: System)
    requires Honest(w) && Init(w, s)
    ensures Inv(w, s)
  {
    assert Flight(s) == [];
  }

  /** There is such a world and such a client: a chain of one block, and nothing yet. */
  lemma SomeoneSyncs() returns (w: World, s: System)
    ensures Honest(w) && Init(w, s)
  {
    var rules := Rules(data => data, Some((h, hash, data) => true));
    var block: seq<byte> := [1];
    w := World("peer", Save(Empty(None), 1, block, block), Settings(1, 1, 1, rules));
    s := System(Client(Empty(None), false, map["peer" := 1], map[], 0, 0, 0), [], []);
    assert w.chain.blocks == map[1 := Entry(block, block)];
  }

  /** What a check does to the client, when nothing else changes. */
  lemma CheckKeeps(w: World, c: Client, flight: seq<int>, now: int, d: Client, rs: seq<Request>)
    requires Honest(w) && Core(w, c, flight) && Tallied(w, c) && Checks(w.k, c, now, d, rs)
    ensures Core(w, d, flight + Starts(rs)) && Tallied(w, d) && d.store == c.store
    ensures d.syncing <==> d.store.height < w.chain.height
    ensures rs != [] ==> Starts(rs) == [NextStart(w.k, c, w.peer, c.store.height, now)] && d.next == NextStart(w.k, c, w.peer, c.store.height, now) + w.k.batchSize
    ensures rs == [] ==> d.next == c.next || d.next == NextStart(w.k, c, w.peer, c.store.height, now)
  {
    hide Lined, Reach, Honest, PrefixOf, Rewound, Requests, Checks;
    HonestReach(w, 1);
    PrefixReach(w, c.store, 1);
    if c.store.height == w.chain.height {
      CaughtUp(w.k, c, w.peer, w.chain.height, now, d, rs);
      assert flight + Starts(rs) == flight;
    } else {
      HonestSettings(w);
      CheckOne(w.k, c, w.peer, w.chain.height, now, d, rs);
      ReachGrows(w, flight, c.store.height + 1);
      var start := NextStart(w.k, c, w.peer, c.store.height, now);
      if rs == [] {
        assert flight + Starts(rs) == flight;
      } else {
        assert Starts(rs) == [start];
        LinedAppend(w, flight, c.store.height + 1, start);
      }
    }
  }

  lemma HonestSettings(w: World)
    requires Honest(w)
    ensures w.peer != "" && 1 <= w.k.batchSize <= MAX_BATCH_SIZE && w.k.maxParallel >= 1
    ensures w.chain.height <= MAX_BLOCK_HEIGHT
  {
  }

  lemma CaughtUp(k: Settings, c: Client, peer: PeerId, height: int, now: int, d: Client, rs: seq<Request>)
    requires KnowsOnly(c, peer, height) && c.store.height >= height && Checks(k, c, now, d, rs)
    ensures rs == [] && d == if c.syncing then c.(syncing := false, completions := c.completions + 1) else c
  {
    hide Requests;
    assert !Behind(c);
  }

  // ----- every step keeps the invariant

  lemma TickKeeps(w: World, s: System, now: int, t: System)
    requires Honest(w) && Inv(w, s) && Step(w, s, Tick(now), t)
    ensures Inv(w, t) && t.client.store == s.client.store
  {
    hide Honest, Core, Checks;
    var rs :| Checks(w.k, s.client, now, t.client, rs) && t == s.(client := t.client, asked := s.asked + Starts(rs));
    assert Flight(t) == Flight(s) + Starts(rs);
    CheckKeeps(w, s.client, Flight(s), now, t.client, rs);
  }

  lemma ServingKeeps(w: World, s: System, t: System)
    requires Honest(w) && Inv(w, s) && Step(w, s, Serving, t)
    ensures Inv(w, t) && Flight(t) == Flight(s) && t.answered == s.answered + [Answer(w, s.asked[0])]
  {
    hide Honest, Answer, Contiguous, Checks;
    var start := s.asked[0];
    LinedAt(w, Flight(s), s.client.store.height + 1, |s.answered|);
    var there := s.client.store.(height := start);
    AnswerAccepted(w, there, start);
    assert Flight(t) == Flight(s);
  }

  lemma {:induction false} LinedAt(w: World, starts: seq<int>, r: int, i: nat)
    requires Lined(w, starts, r) && i < |starts|
    ensures 1 <= starts[i] <= w.chain.height
    decreases |starts|
  {
    if i > 0 { LinedAt(w, starts[1..], Bump(w, r, starts[0]), i - 1); }
  }

  /** A delivered answer is accepted and stored up to its last block. */
  lemma ReceiveKeeps(w: World, c: Client, start: int, flight: seq<int>)
    requires Honest(w) && Core(w, c, [start] + flight)
    ensures Contiguous(c.store, Answer(w, start))
    ensures var d := Receive(w.k, c, w.peer, Answer(w, start));
      Core(w, d, flight) && d.store.height + 1 == Bump(w, c.store.height + 1, start)
  {
    hide Honest, Contiguous, PrefixOf, StoreAll, Penalties, Stretch;
    assert ([start] + flight)[1..] == flight;
    HonestSettings(w);
    AnswerAccepted(w, c.store, start);
    StoreAnswer(w, c.store, start, ClampBatchSize(w.k.batchSize));
  }

  lemma DeliverKeeps(w: World, s: System, now: int, t: System)
    requires Honest(w) && Inv(w, s) && Step(w, s, Deliver(now), t)
    ensures Inv(w, t)
    ensures t.client.store.height + 1 == Bump(w, s.client.store.height + 1, First(s.answered[0]))
  {
    hide Honest, Core, Checks, Receive, Contiguous, Answer;
    var rs :| Handles(w.k, s.client, w.peer, s.answered[0], now, t.client, rs)
      && t == s.(client := t.client, answered := s.answered[1..], asked := s.asked + Starts(rs));
    var start := First(s.answered[0]);
    var rest := Flight(s.(answered := s.answered[1..]));
    assert Flight(s) == [start] + rest;
    ReceiveKeeps(w, s.client, start, rest);
    var c := Receive(w.k, s.client, w.peer, s.answered[0]);
    ReceiveFields(w.k, s.client, w.peer, s.answered[0]);
    CoreStore(w, s.client, Flight(s));
    CheckKeeps(w, c, rest, now, t.client, rs);
    assert Flight(t) == rest + Starts(rs);
  }

  lemma CoreStore(w: World, c: Client, flight: seq<int>)
    requires Core(w, c, flight)
    ensures 0 <= c.store.height <= w.chain.height
  {
  }

  lemma ReceiveFields(k: Settings, c: Client, peer: PeerId, blocks: seq<BlockData>)
    ensures var d := Receive(k, c, peer, blocks);
      d.syncing == c.syncing && d.completions == c.completions && d.next == c.next && d.pending == c.pending - {peer}
  {
  }

  lemma StepKeeps(w: World, s: System, e: Event, t: System)
    requires Honest(w) && Inv(w, s) && Step(w, s, e, t)
    ensures Inv(w, t)
  {
    match e
    case Tick(now) => TickKeeps(w, s, now, t);
    case Serving => ServingKeeps(w, s, t);
    case Deliver(now) => DeliverKeeps(w, s, now, t);
  }

  // ----- whole runs

  ghost predicate Run(w: World, run: seq<System>, events: seq<Event>) {
    && |run| == |events| + 1
    && forall i :: 0 <= i < |events| ==> Step(w, run[i], events[i], run[i + 1])
  }

  lemma RunTail(w: World, run: seq<System>, events: seq<Event>)
    requires Run(w, run, events) && events != []
    ensures Step(w, run[0], events[0], run[1]) && Run(w, run[1..], events[1..])
  {
    hide Step;
    assert Step(w, run[0], events[0], run[0 + 1]);
    forall i | 0 <= i < |events[1..]| ensures Step(w, run[1..][i], events[1..][i], run[1..][i + 1]) {
      assert Step(w, run[i + 1], events[i + 1], run[i + 1 + 1]);
    }
  }

  lemma {:induction false} RunKeeps(w: World, run: seq<System>, events: seq<Event>)
    requires Honest(w) && Run(w, run, events) && Inv(w, run[0])
    ensures Inv(w, run[|events|])
    decreases |events|
  {
    hide Run, Inv, Honest, Step;
    RunLength(w, run, events);
    if events != [] {
      RunTail(w, run, events);
      StepKeeps(w, run[0], events[0], run[1]);
      RunKeeps(w, run[1..], events[1..]);
    }
  }

  lemma RunLength(w: World, run: seq<System>, events: seq<Event>)
    requires Run(w, run, events)
    ensures |run| == |events| + 1
  {
  }

  /** However requests time out and are repeated: the store is always a gapless
      prefix of the peer's chain, the peer is never penalised, and the callback
      has fired once if the client has caught up and not at all before. */
  lemma SyncIsSafe(w: World, run: seq<System>, events: seq<Event>)
    requires Honest(w) && |run| == |events| + 1 && Init(w, run[0]) && Run(w, run, events)
    ensures var c := run[|events|].client;
      && GapFree(c.store) && c.store.height <= w.chain.height
      && (forall h :: h in c.store.blocks ==> h in w.chain.blocks && c.store.blocks[h] == w.chain.blocks[h])
      && c.penalties == 0
      && c.completions == (if c.store.height == w.chain.height then 1 else 0)
      && (c.syncing ==> c.store.height < w.chain.height)
  {
    hide Run, Honest;
    InitHolds(w, run[0]);
    RunKeeps(w, run, events);
  }

  // ----- progress

  /** No request is given up at this step. */
  predicate OnTime(w: World, s: System, e: Event) {
    e.Tick? && w.peer in s.client.pending ==> Waiting(w.k, s.client, w.peer, e.now)
  }

  predicate Moves(s: System, t: System) {
    s.asked != t.asked || s.answered != t.answered
  }

  /** What is left to do: heights to ask for, requests to serve, answers to deliver. */
  function Left(w: World, s: System): int {
    var top := w.chain.height + 1;
    2 * |s.asked| + |s.answered| + 3 * (top - Min(Max(s.client.next, s.client.store.height + 1), top))
  }

  lemma CheckSpends(w: World, c: Client, flight: seq<int>, now: int, d: Client, rs: seq<Request>)
    requires Honest(w) && Core(w, c, flight) && Tallied(w, c) && Checks(w.k, c, now, d, rs)
    requires w.peer in c.pending ==> Waiting(w.k, c, w.peer, now)
    ensures d.store == c.store && |Starts(rs)| == |rs| <= 1
    ensures var top := w.chain.height + 1;
      Min(Max(d.next, d.store.height + 1), top) >= Min(Max(c.next, c.store.height + 1), top) + |rs|
  {
    hide Honest, Core, Checks, Lined, Reach, Step;
    HonestSettings(w);
    CoreStore(w, c, flight);
    CheckKeeps(w, c, flight, now, d, rs);
    if rs != [] {
      var start := NextStart(w.k, c, w.peer, c.store.height, now);
      assert (flight + Starts(rs))[|flight|] == start;
      CoreLined(w, d, flight + Starts(rs));
      LinedAt(w, flight + Starts(rs), d.store.height + 1, |flight|);
    }
  }

  lemma CoreLined(w: World, c: Client, flight: seq<int>)
    requires Core(w, c, flight)
    ensures Lined(w, flight, c.store.height + 1)
  {
  }

  /** Unless a request is given up, every step that moves a message leaves less to do. */
  lemma StepSpends(w: World, s: System, e: Event, t: System)
    requires Honest(w) && Inv(w, s) && Step(w, s, e, t) && OnTime(w, s, e)
    ensures Left(w, t) <= Left(w, s) && (Moves(s, t) ==> Left(w, t) < Left(w, s))
  {
    hide Honest, Core, Checks, Handles, Lined, Reach, Answer, Truthful;
    match e
    case Tick(now) =>
      var rs :| Checks(w.k, s.client, now, t.client, rs) && t == s.(client := t.client, asked := s.asked + Starts(rs));
      CheckSpends(w, s.client, Flight(s), now, t.client, rs);
      assert rs == [] ==> s.asked + Starts(rs) == s.asked;
    case Serving => ServingKeeps(w, s, t);
    case Deliver(now) => DeliverSpends(w, s, now, t);
  }

  lemma DeliverSpends(w: World, s: System, now: int, t: System)
    requires Honest(w) && Inv(w, s) && Step(w, s, Deliver(now), t)
    ensures Left(w, t) < Left(w, s)
  {
    hide Honest, Core, Checks, Receive, Contiguous, Answer;
    var rs :| Handles(w.k, s.client, w.peer, s.answered[0], now, t.client, rs)
      && t == s.(client := t.client, answered := s.answered[1..], asked := s.asked + Starts(rs));
    var start := First(s.answered[0]);
    var rest := Flight(s.(answered := s.answered[1..]));
    assert Flight(s) == [start] + rest;
    ReceiveKeeps(w, s.client, start, rest);
    var c := Receive(w.k, s.client, w.peer, s.answered[0]);
    ReceiveFields(w.k, s.client, w.peer, s.answered[0]);
    CoreStore(w, s.client, Flight(s));
    CheckSpends(w, c, rest, now, t.client, rs);
  }

  /** The number of steps of a run that move a message. */
  function Work(run: seq<System>): nat
    decreases |run|
  {
    if |run| < 2 then 0 else (if Moves(run[0], run[1]) then 1 else 0) + Work(run[1..])
  }

  /** Without timeouts a run of any length moves a bounded number of messages. */
  lemma {:induction false} WorkIsBounded(w: World, run: seq<System>, events: seq<Event>)
    requires Honest(w) && Run(w, run, events) && Inv(w, run[0])
    requires forall i :: 0 <= i < |events| ==> OnTime(w, run[i], events[i])
    ensures Work(run) <= Left(w, run[0])
    decreases |events|
  {
    hide Run, Inv, Honest, Step, OnTime, Left;
    RunLength(w, run, events);
    LeftIsNat(w, run[0]);
    if events != [] {
      RunTail(w, run, events);
      StepKeeps(w, run[0], events[0], run[1]);
      StepSpends(w, run[0], events[0], run[1]);
      forall i | 0 <= i < |events[1..]| ensures OnTime(w, run[1..][i], events[1..][i]) {
        assert OnTime(w, run[i + 1], events[i + 1]);
      }
      WorkIsBounded(w, run[1..], events[1..]);
    }
  }

  lemma LeftIsNat(w: World, s: System)
    ensures Left(w, s) >= 0
  {
  }

  /** While the client is behind there is always a message to move, and if none
      is on its way a tick asks for exactly the block after the last. */
  lemma TickAsks(w: World, s: System, now: int, t: System)
    requires Honest(w) && Inv(w, s) && s.asked == [] && s.answered == []
    requires s.client.store.height < w.chain.height && Step(w, s, Tick(now), t)
    ensures t.asked == [s.client.store.height + 1]
  {
    hide Honest, Checks, PrefixOf;
    var rs :| Checks(w.k, s.client, now, t.client, rs) && t == s.(client := t.client, asked := s.asked + Starts(rs));
    assert Flight(s) == [];
    HonestSettings(w);
    CheckOne(w.k, s.client, w.peer, w.chain.height, now, t.client, rs);
    assert Starts(rs) == [s.client.store.height + 1];
  }

  /** One undisturbed round raises the height by a batch, or to the peer's height. */
  lemma RoundRaises(w: World, s0: System, now: int, s1: System, s2: System, later: int, s3: System)
    requires Honest(w) && Inv(w, s0) && s0.asked == [] && s0.answered == [] && s0.client.store.height < w.chain.height
    requires Step(w, s0, Tick(now), s1) && Step(w, s1, Serving, s2) && Step(w, s2, Deliver(later), s3)
    ensures s3.client.store.height == Min(s0.client.store.height + w.k.batchSize, w.chain.height)
    ensures s3.client.store.height > s0.client.store.height
  {
    hide Honest, Core, Checks, Handles, Answer;
    HonestSettings(w);
    TickAsks(w, s0, now, s1);
    TickKeeps(w, s0, now, s1);
    ServingKeeps(w, s1, s2);
    assert Flight(s2)[0] == Flight(s1)[0];
    DeliverKeeps(w, s2, later, s3);
  }

  /** Nothing on its way and a tick with nothing to ask for: exactly when the
      client holds the peer's whole chain, is synced, and has said so once. */
  lemma RestIsComplete(w: World, s: System, now: int, t: System)
    requires Honest(w) && Inv(w, s) && s.asked == [] && s.answered == [] && Step(w, s, Tick(now), t)
    ensures !Moves(s, t) <==> s.client.store.height == w.chain.height
    ensures !Moves(s, t) ==> s.client.store.blocks == w.chain.blocks && !s.client.syncing && s.client.completions == 1
  {
    if s.client.store.height < w.chain.height {
      TickAsks(w, s, now, t);
    } else {
      var rs :| Checks(w.k, s.client, now, t.client, rs) && t == s.(client := t.client, asked := s.asked + Starts(rs));
      CaughtUp(w.k, s.client, w.peer, w.chain.height, now, t.client, rs);
      assert s.asked + Starts(rs) == s.asked;
      PrefixWhole(s.client.store, w.chain);
    }
  }

  lemma PrefixWhole(s: Store, chain: Store)
    requires PrefixOf(s, chain) && GapFree(chain) && s.height == chain.height
    ensures s.blocks == chain.blocks
  {
    assert forall h :: h in chain.blocks.Keys ==> 1 <= h <= s.height && h in s.blocks.Keys;
    assert forall h :: h in s.blocks.Keys ==> h in chain.blocks.Keys;
    assert s.blocks.Keys == chain.blocks.Keys;
    assert forall h :: h in s.blocks ==> s.blocks[h] == chain.blocks[h];
    assert s.blocks == chain.blocks;
  }
}
