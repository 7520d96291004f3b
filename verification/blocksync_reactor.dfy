/** The sync reactor: which blocks are asked for, from whom, and when it is done. */
module SyncReactors {
  import opened Wrappers
  import opened Bytes
  import opened MemoryStore
  import opened BlockSync

  datatype Client = Client(
    store: Store, syncing: bool, peerHeights: map<PeerId, int>, pending: map<PeerId, PendingRequest>,
    next: int, completions: nat, penalties: nat)

  datatype Settings = Settings(batchSize: int, maxParallel: int, timeout: int, rules: Rules)

  type Request = (PeerId, int)

  // ----- the decisions as values

  ghost predicate Behind(c: Client) {
    exists p :: p in c.peerHeights && c.peerHeights[p] > c.store.height
  }

  function TimedOut(k: Settings, pending: map<PeerId, PendingRequest>, now: int): set<PeerId> {
    set p | p in pending && now - pending[p].requestedAt > k.timeout
  }

  /** n is the lowest of `next` and the start heights of the dropped requests. */
  ghost predicate Rewound(pending: map<PeerId, PendingRequest>, dropped: set<PeerId>, next: int, n: int)
    requires dropped <= pending.Keys
  {
    && n <= next && (forall p :: p in dropped ==> n <= pending[p].startHeight)
    && (n == next || exists p :: p in dropped && n == pending[p].startHeight)
  }

  lemma RewoundNone(pending: map<PeerId, PendingRequest>, next: int)
    ensures Rewound(pending, {}, next, next)
  {
  }

  lemma RewoundOne(pending: map<PeerId, PendingRequest>, dropped: set<PeerId>, p: PeerId, next: int, n: int)
    requires dropped <= pending.Keys && p in pending && Rewound(pending, dropped, next, n)
    ensures Rewound(pending, dropped + {p}, next, if pending[p].startHeight < n then pending[p].startHeight else n)
  {
    if pending[p].startHeight >= n && n != next {
      var q :| q in dropped && n == pending[q].startHeight;
      assert q in dropped + {p};
    }
  }

  /** Consecutive batches for the first idle peers, as many as are allowed. */
  function Assign(k: Settings, pending: map<PeerId, PendingRequest>, peers: seq<PeerId>, available: int, next: int, now: int)
    : (map<PeerId, PendingRequest>, int, seq<Request>)
    decreases |peers|
  {
    if peers == [] || available <= 0 then (pending, next, [])
    else if peers[0] in pending then Assign(k, pending, peers[1..], available, next, now)
    else if peers[0] == "" then (pending, next, [])
    else
      var request := PendingRequest(next, next + k.batchSize - 1, now);
      var (p, n, rs) := Assign(k, pending[peers[0] := request], peers[1..], available - 1, next + k.batchSize, now);
      (p, n, [(peers[0], next)] + rs)
  }

  function Prepended(rs: seq<Request>, r: (map<PeerId, PendingRequest>, int, seq<Request>))
    : (map<PeerId, PendingRequest>, int, seq<Request>)
  {
    (r.0, r.1, rs + r.2)
  }

  lemma AssignStep(k: Settings, pending: map<PeerId, PendingRequest>, peers: seq<PeerId>, i: nat, available: int, next: int, now: int)
    requires i < |peers| && available > 0
    ensures peers[i] in pending ==>
      Assign(k, pending, peers[i..], available, next, now) == Assign(k, pending, peers[i + 1..], available, next, now)
    ensures peers[i] !in pending && peers[i] != "" ==>
      Assign(k, pending, peers[i..], available, next, now) ==
      Prepended([(peers[i], next)],
                Assign(k, pending[peers[i] := PendingRequest(next, next + k.batchSize - 1, now)], peers[i + 1..],
                       available - 1, next + k.batchSize, now))
  {
    assert peers[i..][1..] == peers[i + 1..];
  }

  lemma AssignEnds(k: Settings, pending: map<PeerId, PendingRequest>, peers: seq<PeerId>, i: nat, available: int, next: int, now: int)
    requires i <= |peers|
    requires available <= 0 || i == |peers| || (peers[i] == "" && peers[i] !in pending)
    ensures Assign(k, pending, peers[i..], available, next, now) == (pending, next, [])
  {
  }

  /** The start of batch i from height `next` on. */
  function BatchStart(k: Settings, next: int, i: int): int {
    next + i * k.batchSize
  }

  lemma NextBatch(k: Settings, next: int, i: int)
    ensures BatchStart(k, next + k.batchSize, i) == BatchStart(k, next, i + 1)
    ensures BatchStart(k, next, 0) == next
  {
    assert (i + 1) * k.batchSize == i * k.batchSize + k.batchSize;
  }

  /** Request i is for batch i, goes to a listed peer that had none, and is
      recorded for it with its first and last height and the time. */
  ghost predicate AssignedAt(k: Settings, pending: map<PeerId, PendingRequest>, peers: seq<PeerId>, next: int, now: int,
                             p: map<PeerId, PendingRequest>, rs: seq<Request>, i: nat)
    requires i < |rs|
  {
    var (peer, start) := rs[i];
    && start == BatchStart(k, next, i) && peer in peers && peer !in pending && peer != "" && peer in p
    && p[peer].startHeight == start && p[peer].endHeight == start + k.batchSize - 1 && p[peer].requestedAt == now
  }

  ghost predicate AllAssigned(k: Settings, pending: map<PeerId, PendingRequest>, peers: seq<PeerId>, next: int, now: int,
                              p: map<PeerId, PendingRequest>, rs: seq<Request>)
  {
    forall i :: 0 <= i < |rs| ==> AssignedAt(k, pending, peers, next, now, p, rs, i)
  }

  ghost predicate OneEach(rs: seq<Request>) {
    forall i, j :: 0 <= i < j < |rs| ==> rs[i].0 != rs[j].0
  }

  ghost predicate Extends(p: map<PeerId, PendingRequest>, pending: map<PeerId, PendingRequest>) {
    forall q :: q in pending ==> q in p && p[q] == pending[q]
  }

  /** What the request loop hands out: consecutive batches, one to each of some
      idle peers, as many as are available unless the idle peers run out. */
  ghost predicate Assigned(k: Settings, pending: map<PeerId, PendingRequest>, peers: seq<PeerId>, available: int, next: int, now: int,
                           p: map<PeerId, PendingRequest>, m: int, rs: seq<Request>)
  {
    && AllAssigned(k, pending, peers, next, now, p, rs)
    && OneEach(rs) && Extends(p, pending)
    && |p| == |pending| + |rs| && m == BatchStart(k, next, |rs|)
    && |rs| <= (if available > 0 then available else 0)
    && (|rs| == available || available <= 0 || "" in peers || forall q :: q in peers ==> q in p)
  }

  lemma {:induction false} AssignExactly(
    k: Settings, pending: map<PeerId, PendingRequest>, peers: seq<PeerId>, available: int, next: int, now: int)
    ensures var (p, m, rs) := Assign(k, pending, peers, available, next, now);
      Assigned(k, pending, peers, available, next, now, p, m, rs)
    decreases |peers|
  {
    hide Assigned, BatchStart;
    if peers == [] || available <= 0 || (peers[0] == "" && peers[0] !in pending) {
      NoneAssigned(k, pending, peers, available, next, now);
    } else if peers[0] in pending {
      AssignExactly(k, pending, peers[1..], available, next, now);
      SkippedPeer(k, pending, peers, available, next, now);
    } else {
      var request := PendingRequest(next, next + k.batchSize - 1, now);
      var (p, m, rs) := Assign(k, pending[peers[0] := request], peers[1..], available - 1, next + k.batchSize, now);
      AssignExactly(k, pending[peers[0] := request], peers[1..], available - 1, next + k.batchSize, now);
      OneMoreAssigned(k, pending, peers, available, next, now, p, m, rs);
    }
  }

  lemma NoneAssigned(k: Settings, pending: map<PeerId, PendingRequest>, peers: seq<PeerId>, available: int, next: int, now: int)
    requires peers == [] || available <= 0 || peers[0] == ""
    ensures Assigned(k, pending, peers, available, next, now, pending, next, [])
  {
    NextBatch(k, next, 0);
  }

  lemma SkippedPeer(k: Settings, pending: map<PeerId, PendingRequest>, peers: seq<PeerId>, available: int, next: int, now: int)
    requires peers != [] && peers[0] in pending
    requires var (p, m, rs) := Assign(k, pending, peers[1..], available, next, now);
      Assigned(k, pending, peers[1..], available, next, now, p, m, rs)
    ensures var (p, m, rs) := Assign(k, pending, peers[1..], available, next, now);
      Assigned(k, pending, peers, available, next, now, p, m, rs)
  {
    hide Assign, BatchStart;
    var (p, m, rs) := Assign(k, pending, peers[1..], available, next, now);
    assert peers == [peers[0]] + peers[1..];
    forall i | 0 <= i < |rs| ensures AssignedAt(k, pending, peers, next, now, p, rs, i) {
      assert AssignedAt(k, pending, peers[1..], next, now, p, rs, i);
    }
  }

  lemma OneMoreAssigned(k: Settings, pending: map<PeerId, PendingRequest>, peers: seq<PeerId>, available: int, next: int, now: int,
                        p: map<PeerId, PendingRequest>, m: int, rs: seq<Request>)
    requires peers != [] && peers[0] !in pending && peers[0] != "" && available > 0
    requires Assigned(k, pending[peers[0] := PendingRequest(next, next + k.batchSize - 1, now)], peers[1..], available - 1,
                      next + k.batchSize, now, p, m, rs)
    ensures Assigned(k, pending, peers, available, next, now, p, m, [(peers[0], next)] + rs)
  {
    hide BatchStart, AllAssigned, OneEach, Extends;
    var first := pending[peers[0] := PendingRequest(next, next + k.batchSize - 1, now)];
    assert peers == [peers[0]] + peers[1..];
    OneMorePending(p, pending, peers[0], PendingRequest(next, next + k.batchSize - 1, now));
    NextBatch(k, next, |rs|);
    AllOnward(k, pending, peers, next, now, p, rs);
    OneEachMore(rs, (peers[0], next));
  }

  lemma OneMorePending(p: map<PeerId, PendingRequest>, pending: map<PeerId, PendingRequest>, peer: PeerId, r: PendingRequest)
    requires peer !in pending && Extends(p, pending[peer := r])
    ensures Extends(p, pending) && peer in p && p[peer] == r && |pending[peer := r]| == |pending| + 1
  {
    assert pending[peer := r].Keys == pending.Keys + {peer};
  }

  lemma OneEachMore(rs: seq<Request>, r: Request)
    requires OneEach(rs) && forall i :: 0 <= i < |rs| ==> rs[i].0 != r.0
    ensures OneEach([r] + rs)
  {
  }

  lemma AllOnward(k: Settings, pending: map<PeerId, PendingRequest>, peers: seq<PeerId>, next: int, now: int,
                  p: map<PeerId, PendingRequest>, rs: seq<Request>)
    requires peers != [] && peers[0] !in pending && peers[0] != ""
    requires peers[0] in p && p[peers[0]] == PendingRequest(next, next + k.batchSize - 1, now)
    requires AllAssigned(k, pending[peers[0] := PendingRequest(next, next + k.batchSize - 1, now)], peers[1..],
                         next + k.batchSize, now, p, rs)
    ensures AllAssigned(k, pending, peers, next, now, p, [(peers[0], next)] + rs)
    ensures forall i :: 0 <= i < |rs| ==> rs[i].0 != peers[0]
  {
    hide BatchStart;
    var all := [(peers[0], next)] + rs;
    NextBatch(k, next, 0);
    forall i | 0 <= i < |rs| ensures AssignedAt(k, pending, peers, next, now, p, all, i + 1) && rs[i].0 != peers[0] {
      assert all[i + 1] == rs[i];
      assert AssignedAt(k, pending[peers[0] := PendingRequest(next, next + k.batchSize - 1, now)], peers[1..], next + k.batchSize, now, p, rs, i);
      assert peers == [peers[0]] + peers[1..];
      NextBatch(k, next, i);
    }
    forall i | 0 <= i < |all| ensures AssignedAt(k, pending, peers, next, now, p, all, i) {
      if i > 0 { assert AssignedAt(k, pending, peers, next, now, p, all, (i - 1) + 1); }
    }
  }

  /** Each element of s once, in some order. */
  ghost predicate Lists(peers: seq<PeerId>, s: set<PeerId>) {
    |peers| == |s| && forall p :: p in peers <==> p in s
  }

  function PeersWithHeight(heights: map<PeerId, int>, min: int): set<PeerId> {
    set p | p in heights && heights[p] >= min
  }

  /** Batches from height n on, or from the first one above `since`, to these peers. */
  ghost predicate HandsOut(
    k: Settings, c: Client, pending: map<PeerId, PendingRequest>, n: int, since: int, peers: seq<PeerId>, now: int,
    d: Client, rs: seq<Request>)
  {
    var next := if n <= since then since + 1 else n;
    && Lists(peers, PeersWithHeight(c.peerHeights, next))
    && var (p, m, requests) := Assign(k, pending, peers, k.maxParallel - |pending|, next, now);
       d == c.(pending := p, next := m) && rs == requests
  }

  /** requestBlocks: drop what timed out, then hand out batches. */
  ghost predicate Requests(k: Settings, c: Client, since: int, now: int, d: Client, rs: seq<Request>) {
    var dropped := TimedOut(k, c.pending, now);
    exists n, peers ::
      && Rewound(c.pending, dropped, c.next, n)
      && HandsOut(k, c, c.pending - dropped, n, since, peers, now, d, rs)
  }

  /** Where a round of requests goes: to peers that reach at least the first
      height asked for and have no other request, each a batch of its own above
      `since`, with no more requests under way than are allowed. */
  lemma RequestsGoToPeersAhead(k: Settings, c: Client, since: int, now: int, d: Client, rs: seq<Request>, i: nat)
    requires Requests(k, c, since, now, d, rs) && i < |rs|
    ensures var (peer, start) := rs[i];
      && peer in c.peerHeights && c.peerHeights[peer] > since && (k.batchSize >= 0 ==> start > since)
      && (peer in c.pending ==> now > c.pending[peer].requestedAt + k.timeout)
      && peer in d.pending && d.pending[peer] == PendingRequest(start, start + k.batchSize - 1, now)
      && (forall j :: 0 <= j < |rs| && j != i ==> rs[j].0 != peer)
      && |d.pending| <= (if |c.pending| > k.maxParallel then |c.pending| else k.maxParallel)
  {
    hide Assign, BatchStart, Rewound;
    var dropped := TimedOut(k, c.pending, now);
    var n, peers :| Rewound(c.pending, dropped, c.next, n) && HandsOut(k, c, c.pending - dropped, n, since, peers, now, d, rs);
    var next := if n <= since then since + 1 else n;
    AssignExactly(k, c.pending - dropped, peers, k.maxParallel - |c.pending - dropped|, next, now);
    assert AssignedAt(k, c.pending - dropped, peers, next, now, d.pending, rs, i);
    FewerPending(c.pending, dropped);
    if k.batchSize >= 0 { LaterBatch(k, next, i); }
  }

  lemma FewerPending(pending: map<PeerId, PendingRequest>, dropped: set<PeerId>)
    ensures |pending - dropped| <= |pending|
  {
    assert (pending - dropped).Keys == pending.Keys - dropped;
  }

  lemma LaterBatch(k: Settings, next: int, i: nat)
    requires k.batchSize >= 0
    ensures BatchStart(k, next, i) >= next
  {
    assert i * k.batchSize >= 0;
  }

  /** checkSync: synced when nobody is ahead, else ask for blocks. */
  ghost predicate Checks(k: Settings, c: Client, now: int, d: Client, rs: seq<Request>) {
    if !Behind(c) then
      rs == [] && d == if c.syncing then c.(syncing := false, completions := c.completions + 1) else c
    else Requests(k, c.(syncing := true), c.store.height, now, d, rs)
  }

  /** handleBlocksResponse up to the final checkSync. */
  function Receive(k: Settings, c: Client, peer: PeerId, blocks: seq<BlockData>): Client {
    c.(pending := c.pending - {peer},
       store := StoreAll(k.rules, c.store, blocks),
       penalties := c.penalties + Penalties(k.rules, c.store, blocks))
  }

  ghost predicate Handles(k: Settings, c: Client, peer: PeerId, blocks: seq<BlockData>, now: int, d: Client, rs: seq<Request>) {
    if Contiguous(c.store, blocks) then Checks(k, Receive(k, c, peer, blocks), now, d, rs)
    else d == c.(pending := c.pending - {peer}, penalties := c.penalties + 1) && rs == []
  }

  /** A request that could not be sent is forgotten; the height it was for is not taken back. */
  function SendFailed(c: Client, peer: PeerId): Client {
    c.(pending := c.pending - {peer})
  }

  // ----- the object

  class SyncReactor {
    const k: Settings
    var store: Store
    var syncing: bool
    var peerHeights: map<PeerId, int>
    var pending: map<PeerId, PendingRequest>
    var next: int
    ghost var completions: nat
    ghost var penalties: nat

    ghost function C(): Client
      reads this
    {
      Client(store, syncing, peerHeights, pending, next, completions, penalties)
    }

    constructor (k: Settings, store: Store)
      ensures this.k == k && C() == Client(store, false, map[], map[], 0, 0, 0)
    {
      this.k, this.store := k, store;
      syncing, peerHeights, pending, next := false, map[], map[], 0;
      completions, penalties := 0, 0;
    }

    method MaxPeerHeight() returns (max: int)
      ensures max >= 0 && forall p :: p in peerHeights ==> peerHeights[p] <= max
      ensures max > 0 ==> exists p :: p in peerHeights && peerHeights[p] == max
    {
      max := 0;
      var todo := peerHeights.Keys;
      while todo != {}
        invariant todo <= peerHeights.Keys && max >= 0
        invariant forall p :: p in peerHeights && p !in todo ==> peerHeights[p] <= max
        invariant max > 0 ==> exists p :: p in peerHeights && peerHeights[p] == max
        decreases |todo|
      {
        var p :| p in todo;
        todo := todo - {p};
        if peerHeights[p] > max { max := peerHeights[p]; }
      }
    }

    method CleanupTimedOut(now: int)
      modifies `pending, `next
      ensures Rewound(old(pending), TimedOut(k, old(pending), now), old(next), next)
      ensures pending == old(pending) - TimedOut(k, old(pending), now)
      ensures forall p :: p in pending <==> p in old(pending) && now <= old(pending)[p].requestedAt + k.timeout
    {
      hide Rewound;
      var todo := pending.Keys;
      ghost var was, gone: set<PeerId> := pending, {};
      RewoundNone(was, next);
      while todo != {}
        invariant todo <= was.Keys && gone == TimedOut(k, was, now) - todo
        invariant pending == was - gone
        invariant Rewound(was, gone, old(next), next)
        decreases |todo|
      {
        var p :| p in todo;
        var req := pending[p];
        assert was - gone - {p} == was - (gone + {p});
        if now - req.requestedAt > k.timeout {
          RewoundOne(was, gone, p, old(next), next);
          gone := gone + {p};
          pending := pending - {p};
          if req.startHeight < next { next := req.startHeight; }
        }
        todo := todo - {p};
      }
      assert gone == TimedOut(k, was, now);
    }

    method PeersAt(min: int) returns (peers: seq<PeerId>)
      ensures Lists(peers, PeersWithHeight(peerHeights, min))
    {
      peers := [];
      var todo := peerHeights.Keys;
      assert PeersWithHeight(peerHeights, min) - todo == {};
      while todo != {}
        invariant todo <= peerHeights.Keys
        invariant Lists(peers, PeersWithHeight(peerHeights, min) - todo)
        decreases |todo|
      {
        var p :| p in todo;
        if peerHeights[p] >= min {
          assert PeersWithHeight(peerHeights, min) - (todo - {p}) == PeersWithHeight(peerHeights, min) - todo + {p};
          peers := peers + [p];
        } else {
          assert PeersWithHeight(peerHeights, min) - (todo - {p}) == PeersWithHeight(peerHeights, min) - todo;
        }
        todo := todo - {p};
      }
    }

    /** The first peer from idx on without a pending request, and where to go on. */
    method NextIdle(peers: seq<PeerId>, idx: nat, available: int, now: int) returns (peer: PeerId, after: nat)
      requires idx <= |peers| && available > 0
      ensures idx <= after <= |peers| && (peer != "" ==> idx < after && peer == peers[after - 1] && peer !in pending)
      ensures Assign(k, pending, peers[idx..], available, next, now) ==
        if peer == "" then (pending, next, [])
        else Assign(k, pending, peers[after - 1..], available, next, now)
    {
      hide Assign;
      after := idx;
      while after < |peers|
        invariant idx <= after <= |peers|
        invariant Assign(k, pending, peers[idx..], available, next, now) ==
          Assign(k, pending, peers[after..], available, next, now)
      {
        var candidate := peers[after];
        after := after + 1;
        if candidate !in pending {
          if candidate == "" { AssignEnds(k, pending, peers, after - 1, available, next, now); }
          return candidate, after;
        }
        AssignStep(k, pending, peers, after - 1, available, next, now);
      }
      AssignEnds(k, pending, peers, after, available, next, now);
      return "", after;
    }

    /** The request loop: pairs idle peers with consecutive batches. */
    method HandOut(peers: seq<PeerId>, available: int, now: int) returns (requests: seq<Request>)
      modifies `pending, `next
      ensures (pending, next, requests) == Assign(k, old(pending), peers, available, old(next), now)
    {
      hide Assign;
      requests := [];
      var idx, i := 0, 0;
      ghost var whole := Assign(k, pending, peers, available, next, now);
      assert peers[0..] == peers && [] + whole.2 == whole.2;
      while i < available && idx < |peers|
        invariant 0 <= idx <= |peers|
        invariant Prepended(requests, Assign(k, pending, peers[idx..], available - i, next, now)) == whole
        decreases |peers| - idx
      {
        var peer, after := NextIdle(peers, idx, available - i, now);
        if peer == "" {
          assert requests + [] == requests;
          return;
        }
        AssignStep(k, pending, peers, after - 1, available - i, next, now);
        ghost var sent := requests;
        var start := next;
        requests := requests + [(peer, start)];
        pending := pending[peer := PendingRequest(start, start + k.batchSize - 1, now)];
        next := start + k.batchSize;
        idx, i := after, i + 1;
        ghost var rest := Assign(k, pending, peers[idx..], available - i, next, now).2;
        assert sent + ([(peer, start)] + rest) == requests + rest;
      }
      AssignEnds(k, pending, peers, idx, available - i, next, now);
      assert requests + [] == requests;
    }

    method RequestBlocks(since: int, now: int) returns (requests: seq<Request>)
      modifies `pending, `next
      ensures Requests(k, old(C()), since, now, C(), requests)
    {
      hide Assign, Lists, Rewound;
      CleanupTimedOut(now);
      ghost var n := next;
      if next <= since { next := since + 1; }
      var peers := PeersAt(next);
      var available := k.maxParallel - |pending|;
      requests := [];
      if |peers| > 0 && available > 0 {
        requests := HandOut(peers, available, now);
      } else {
        AssignEnds(k, pending, peers, 0, available, next, now);
        assert peers[0..] == peers;
      }
      assert HandsOut(k, old(C()), old(pending) - TimedOut(k, old(pending), now), n, since, peers, now, C(), requests);
    }

    method CheckSync(now: int) returns (requests: seq<Request>)
      requires store.height >= 0
      modifies this
      ensures Checks(k, old(C()), now, C(), requests)
    {
      hide Requests;
      var max := MaxPeerHeight();
      if max <= store.height {
        if syncing {
          syncing := false;
          completions := completions + 1;
        }
        return [];
      }
      syncing := true;
      requests := RequestBlocks(store.height, now);
    }

    method HandleBlocksResponse(peer: PeerId, blocks: seq<BlockData>, now: int) returns (ok: bool, requests: seq<Request>)
      requires store.height >= 0
      modifies this
      ensures Handles(k, old(C()), peer, blocks, now, C(), requests)
      ensures ok <==> Contiguous(old(store), blocks)
    {
      hide Checks, StoreAll, Penalties, Contiguous;
      pending := pending - {peer};
      ok := CheckContiguous(store, blocks);
      if !ok {
        penalties := penalties + 1;
        return false, [];
      }
      StoreAllHeight(k.rules, store, blocks);
      var t, bad := StoreBlocks(k.rules, store, blocks);
      store, penalties := t, penalties + bad;
      requests := CheckSync(now);
    }

    method UpdatePeerHeight(peer: PeerId, height: int)
      modifies `peerHeights
      ensures peerHeights == old(peerHeights)[peer := height]
    {
      peerHeights := peerHeights[peer := height];
    }

    /** Forgets the peer and asks again for what it was asked. */
    method OnPeerDisconnected(peer: PeerId)
      modifies `peerHeights, `pending, `next
      ensures peerHeights == old(peerHeights) - {peer} && pending == old(pending) - {peer}
      ensures next == if peer in old(pending) && old(pending)[peer].startHeight < old(next)
        then old(pending)[peer].startHeight else old(next)
    {
      peerHeights := peerHeights - {peer};
      if peer in pending {
        if pending[peer].startHeight < next { next := pending[peer].startHeight; }
        pending := pending - {peer};
      } else {
        assert pending - {peer} == pending;
      }
    }

    method OnSendFailed(peer: PeerId)
      modifies `pending
      ensures C() == SendFailed(old(C()), peer)
    {
      pending := pending - {peer};
    }
  }

  lemma {:induction false} StoreAllHeight(r: Rules, s: Store, blocks: seq<BlockData>)
    ensures StoreAll(r, s, blocks).height >= s.height
    decreases |blocks|
  {
    if blocks != [] { StoreAllHeight(r, StoreOne(r, s, blocks[0]), blocks[1..]); }
  }
}
