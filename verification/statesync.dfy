/** State sync: choosing a snapshot, downloading its chunks, importing it once. */
module StateSync {
  import opened Wrappers
  import opened Bytes

  type PeerId = string
  type Hash = seq<byte>

  datatype Phase = Idle | Discovering | Downloading | Applying | Complete | Failed

  datatype Offer = Offer(peer: PeerId, height: int, hash: Hash, chunks: nat, appHash: Hash)

  /** One snapshot of a response; a field may be missing. */
  datatype Metadata = Metadata(height: Option<int>, hash: Option<Hash>, chunks: Option<nat>, appHash: Option<Hash>)

  datatype ChunkResponse = ChunkResponse(
    snapshot: Option<Hash>, index: Option<int>, data: Option<seq<byte>>, chunkHash: Option<Hash>)

  datatype Import = Import(offer: Offer, chunks: seq<seq<byte>>)

  /** The callbacks: with the height and app hash imported, or with an error. */
  datatype Callback = Completed(height: int, appHash: Hash) | GaveUp

  datatype Config = Config(trustHeight: int, trustHash: Hash, timeout: int, maxRetries: int, sha: seq<byte> -> Hash)

  /** The reactor's fields. `candidates` holds the offers a choice was made from,
      `importing` is true while an import runs with the lock released, and
      `imports` lists the imports begun, `calls` the callbacks made. */
  datatype View = View(
    running: bool, phase: Phase, offers: map<Hash, Offer>, selected: Option<Offer>,
    chunks: seq<seq<byte>>, status: seq<bool>,
    pending: map<int, PeerId>, retries: map<int, int>, asked: map<int, int>,
    candidates: map<Hash, Offer>, importing: bool, imports: seq<Import>, calls: seq<Callback>)

  const INITIAL := View(false, Idle, map[], None, [], [], map[], map[], map[], map[], false, [], [])

  // ----- the steps as values

  predicate Eligible(k: Config, o: Offer) {
    o.height >= k.trustHeight && (o.height == k.trustHeight && k.trustHash != [] ==> o.appHash == k.trustHash)
  }

  /** None when nothing is eligible, else an eligible offer of greatest height. */
  ghost predicate Best(k: Config, offers: map<Hash, Offer>, o: Option<Offer>) {
    match o
    case None => forall h :: h in offers ==> !Eligible(k, offers[h])
    case Some(b) =>
      && (exists h :: h in offers && offers[h] == b)
      && Eligible(k, b)
      && forall h :: h in offers && Eligible(k, offers[h]) ==> offers[h].height <= b.height
  }

  function AddOffers(offers: map<Hash, Offer>, peer: PeerId, metas: seq<Metadata>): map<Hash, Offer>
    decreases |metas|
  {
    if metas == [] then offers
    else
      var m := metas[0];
      AddOffers(
        if m.height.None? || m.hash.None? || m.chunks.None? || m.appHash.None? then offers
        else offers[m.hash.value := Offer(peer, m.height.value, m.hash.value, m.chunks.value, m.appHash.value)],
        peer, metas[1..])
  }

  function Select(v: View, o: Option<Offer>): View {
    match o
    case None => v
    case Some(b) =>
      v.(selected := o, candidates := v.offers, phase := Downloading,
         chunks := NoChunks(b.chunks), status := NoneReceived(b.chunks))
  }

  function NoChunks(n: nat): seq<seq<byte>> {
    seq(n, i => [])
  }

  function NoneReceived(n: nat): seq<bool> {
    seq(n, i => false)
  }

  function Retries(retries: map<int, int>, i: int): int {
    if i in retries then retries[i] else 0
  }

  /** m without the keys in gone. */
  function Less<T>(m: map<int, T>, gone: set<int>): map<int, T> {
    m - gone
  }

  function Overdue(k: Config, asked: map<int, int>, now: int): set<int> {
    set i | i in asked && now - asked[i] > k.timeout
  }

  /** The retry counts with one more for each chunk in gone. */
  function CountOne(retries: map<int, int>, gone: set<int>): map<int, int> {
    map i | i in retries.Keys + gone :: Retries(retries, i) + if i in gone then 1 else 0
  }

  function GiveUp(k: Config, v: View, now: int): View {
    if v.phase != Downloading then v
    else
      var gone := Overdue(k, v.asked, now);
      v.(pending := Less(v.pending, gone), asked := Less(v.asked, gone),
         retries := CountOne(v.retries, gone))
  }

  predicate AllReceived(status: seq<bool>) {
    forall i :: 0 <= i < |status| ==> status[i]
  }

  /** The peers whose offer names this snapshot: offers are kept by hash, so at most one. */
  function PeersWith(offers: map<Hash, Offer>, hash: Hash): seq<PeerId> {
    if hash in offers then [offers[hash].peer] else []
  }

  function GiveUpOn(v: View): View {
    v.(phase := Failed, calls := v.calls + [GaveUp])
  }

  /** The request loop from chunk i on; n requests were tried before. */
  function AskFrom(k: Config, v: View, i: nat, peers: seq<PeerId>, n: nat, now: int, sends: int -> bool): View
    requires peers != []
    decreases |v.status| - i
  {
    if i >= |v.status| then v
    else if v.status[i] || i in v.pending then AskFrom(k, v, i + 1, peers, n, now, sends)
    else if Retries(v.retries, i) >= k.maxRetries then GiveUpOn(v)
    else if !sends(i) then AskFrom(k, v, i + 1, peers, n + 1, now, sends)
    else AskFrom(k, v.(pending := v.pending[i := peers[n % |peers|]], asked := v.asked[i := now]), i + 1, peers, n + 1, now, sends)
  }

  function BeginImport(v: View): View
    requires v.selected.Some?
  {
    v.(phase := Applying, importing := true, imports := v.imports + [Import(v.selected.value, v.chunks)])
  }

  function Finished(v: View, ok: bool): View
    requires v.selected.Some?
  {
    if ok
    then v.(importing := false, phase := Complete, calls := v.calls + [Completed(v.selected.value.height, v.selected.value.appHash)])
    else GiveUpOn(v.(importing := false))
  }

  function AskMissing(k: Config, v: View, now: int, sends: int -> bool): View {
    if v.phase != Downloading || v.selected.None? then v
    else if AllReceived(v.status) then BeginImport(v)
    else if PeersWith(v.offers, v.selected.value.hash) == [] then v
    else AskFrom(k, v, 0, PeersWith(v.offers, v.selected.value.hash), 0, now, sends)
  }

  /** Whether a response brings a chunk that is wanted and hashes as it claims. */
  predicate Wanted(k: Config, v: View, r: ChunkResponse) {
    Expected(v, r) && k.sha(r.data.value) == r.chunkHash.value
  }

  /** A complete response with a missing chunk of the chosen snapshot. */
  predicate Expected(v: View, r: ChunkResponse) {
    && r.snapshot.Some? && r.index.Some? && r.data.Some? && r.chunkHash.Some?
    && v.phase == Downloading && v.selected.Some? && r.snapshot.value == v.selected.value.hash
    && 0 <= r.index.value < |v.chunks| && r.index.value < |v.status| && !v.status[r.index.value]
  }

  function Receive(k: Config, v: View, r: ChunkResponse): View {
    if !Wanted(k, v, r) then v
    else
      var i := r.index.value;
      v.(chunks := v.chunks[i := r.data.value], status := v.status[i := true],
         pending := v.pending - {i}, asked := v.asked - {i})
  }

  function AskedOf(pending: map<int, PeerId>, peer: PeerId): set<int> {
    set i | i in pending && pending[i] == peer
  }

  function Drop(v: View, peer: PeerId): View {
    v.(pending := Less(v.pending, AskedOf(v.pending, peer)), asked := Less(v.asked, AskedOf(v.pending, peer)))
  }

  datatype Event =
    | Started | Stopped | Offered(peer: PeerId, metas: seq<Metadata>) | Discovered
    | Timed(now: int) | Asked(now: int, sends: int -> bool) | Received(r: ChunkResponse)
    | Disconnected(peer: PeerId) | Imported(ok: bool)

  ghost predicate Step(k: Config, v: View, e: Event, w: View) {
    match e
    case Started => w == if v.running then v else v.(running := true, phase := Discovering)
    case Stopped => w == v.(running := false)
    case Offered(peer, metas) => w == if v.phase == Discovering then v.(offers := AddOffers(v.offers, peer, metas)) else v
    case Discovered =>
      if v.phase != Discovering || v.offers == map[] || v.selected.Some? then w == v
      else exists o :: Best(k, v.offers, o) && w == Select(v, o)
    case Timed(now) => w == GiveUp(k, v, now)
    case Asked(now, sends) => w == AskMissing(k, v, now, sends)
    case Received(r) => w == Receive(k, v, r)
    case Disconnected(peer) => w == Drop(v, peer)
    case Imported(ok) => v.importing && v.selected.Some? && w == Finished(v, ok)
  }

  // ----- what every step keeps

  /** Pending chunks are exactly the dated ones, missing, and have retries left. */
  ghost predicate Tracked(k: Config, v: View) {
    && v.pending.Keys == v.asked.Keys
    && forall i :: i in v.pending ==> 0 <= i < |v.status| && !v.status[i] && Retries(v.retries, i) < k.maxRetries
  }

  ghost predicate Counted(k: Config, v: View) {
    forall i :: i in v.retries ==> 0 <= i < |v.status| && 0 < v.retries[i] <= k.maxRetries
  }

  ghost predicate Keyed(offers: map<Hash, Offer>) {
    forall h :: h in offers ==> offers[h].hash == h
  }

  /** A choice stands, and its chunks are laid out. */
  ghost predicate Chosen(k: Config, v: View) {
    && |v.chunks| == |v.status|
    && (v.selected.None? ==> v.status == [] && (v.phase == Idle || v.phase == Discovering))
    && (v.selected.Some? ==> Best(k, v.candidates, v.selected) && |v.status| == v.selected.value.chunks && v.phase != Idle)
    && (v.phase == Downloading ==> v.offers == v.candidates)
  }

  /** At most one import, of the chosen snapshot with all its chunks. */
  ghost predicate ImportedOnce(v: View) {
    && (v.imports == [] || (v.selected.Some? && v.imports == [Import(v.selected.value, v.chunks)]))
    && (v.imports != [] ==> AllReceived(v.status) && v.phase != Downloading)
    && (v.importing || v.phase == Applying || v.phase == Complete ==> v.imports != [])
  }

  function Completions(calls: seq<Callback>): nat {
    if calls == [] then 0 else Completions(calls[..|calls| - 1]) + if calls[|calls| - 1].Completed? then 1 else 0
  }

  /** Completion is reported at most once, after an import and for what was imported. */
  ghost predicate ReportedOnce(v: View) {
    && Completions(v.calls) + (if v.importing then 1 else 0) <= |v.imports|
    && forall c :: c in v.calls && c.Completed? ==>
         v.selected.Some? && c == Completed(v.selected.value.height, v.selected.value.appHash)
  }

  lemma OneMoreCall(calls: seq<Callback>, c: Callback)
    ensures Completions(calls + [c]) == Completions(calls) + if c.Completed? then 1 else 0
  {
    assert (calls + [c])[..|calls|] == calls;
  }

  /** Some missing chunk has used up its retries. */
  ghost predicate Exhausted(k: Config, v: View) {
    exists i :: 0 <= i < |v.status| && !v.status[i] && Retries(v.retries, i) >= k.maxRetries
  }

  ghost predicate Inv(k: Config, v: View) {
    && Tracked(k, v) && Counted(k, v) && Keyed(v.offers) && Chosen(k, v) && ImportedOnce(v)
    && (v.phase == Failed && v.imports == [] ==> Exhausted(k, v))
    && ReportedOnce(v)
  }

  /** Every chunk v has received, w holds unchanged. */
  ghost predicate Kept(v: View, w: View)
    requires |v.chunks| == |v.status| <= |w.status| == |w.chunks|
  {
    forall i :: 0 <= i < |v.status| && v.status[i] ==> w.status[i] && w.chunks[i] == v.chunks[i]
  }

  /** Nothing received is lost or replaced, a choice is final, counters only grow. */
  ghost predicate Evolves(v: View, w: View) {
    && |v.chunks| == |v.status| <= |w.status| == |w.chunks| && Kept(v, w)
    && (v.selected.Some? ==> w.selected == v.selected && |w.status| == |v.status|)
    && (forall i :: Retries(v.retries, i) <= Retries(w.retries, i))
    && v.imports <= w.imports
  }

  lemma InitialHolds(k: Config)
    ensures Inv(k, INITIAL)
  {
  }

  lemma {:induction false} AddOffersKeyed(offers: map<Hash, Offer>, peer: PeerId, metas: seq<Metadata>)
    requires Keyed(offers)
    ensures Keyed(AddOffers(offers, peer, metas))
    decreases |metas|
  {
    if metas != [] {
      var m := metas[0];
      if m.height.None? || m.hash.None? || m.chunks.None? || m.appHash.None? {
        AddOffersKeyed(offers, peer, metas[1..]);
      } else {
        AddOffersKeyed(
          offers[m.hash.value := Offer(peer, m.height.value, m.hash.value, m.chunks.value, m.appHash.value)], peer, metas[1..]);
      }
    }
  }

  lemma DiscoverKeeps(k: Config, v: View, w: View)
    requires Inv(k, v) && Step(k, v, Discovered, w)
    ensures Inv(k, w) && Evolves(v, w)
  {
    if w != v {
      hide Best;
      assert forall i :: i !in v.pending.Keys;
      assert forall i :: i !in v.asked.Keys;
      assert forall i :: i !in v.retries.Keys;
    }
  }

  lemma GiveUpKeeps(k: Config, v: View, now: int)
    requires Inv(k, v)
    ensures Inv(k, GiveUp(k, v, now)) && Evolves(v, GiveUp(k, v, now))
    ensures Step(k, v, Timed(now), GiveUp(k, v, now))
  {
    hide Best, Keyed, AllReceived, Exhausted, Completions;
    var w := GiveUp(k, v, now);
    assert w.pending.Keys == w.asked.Keys;
  }

  /** The request loop touches only pending chunks, and only missing ones with retries left. */
  lemma {:induction false} AskFromKeeps(k: Config, v: View, i: nat, peers: seq<PeerId>, n: nat, now: int, sends: int -> bool)
    requires peers != [] && Tracked(k, v)
    ensures var w := AskFrom(k, v, i, peers, n, now, sends);
      && Tracked(k, w) && w == v.(phase := w.phase, pending := w.pending, asked := w.asked, calls := w.calls)
      && ((w.phase == v.phase && w.calls == v.calls) || (w.phase == Failed && Exhausted(k, v) && w.calls == v.calls + [GaveUp]))
    decreases |v.status| - i
  {
    hide Exhausted;
    if i < |v.status| {
      if v.status[i] || i in v.pending {
        AskFromKeeps(k, v, i + 1, peers, n, now, sends);
      } else if Retries(v.retries, i) < k.maxRetries {
        if !sends(i) {
          AskFromKeeps(k, v, i + 1, peers, n + 1, now, sends);
        } else {
          var u := v.(pending := v.pending[i := peers[n % |peers|]], asked := v.asked[i := now]);
          assert Tracked(k, u);
          SameExhausted(k, u, v);
          AskFromKeeps(k, u, i + 1, peers, n + 1, now, sends);
        }
      } else {
        ExhaustedAt(k, v, i);
      }
    }
  }

  lemma ExhaustedAt(k: Config, v: View, i: nat)
    requires i < |v.status| && !v.status[i] && Retries(v.retries, i) >= k.maxRetries
    ensures Exhausted(k, v)
  {
  }

  lemma SameExhausted(k: Config, v: View, w: View)
    requires v.status == w.status && v.retries == w.retries
    ensures Exhausted(k, v) <==> Exhausted(k, w)
  {
  }

  lemma AskMissingKeeps(k: Config, v: View, now: int, sends: int -> bool)
    requires Inv(k, v)
    ensures Inv(k, AskMissing(k, v, now, sends)) && Evolves(v, AskMissing(k, v, now, sends))
    ensures Step(k, v, Asked(now, sends), AskMissing(k, v, now, sends))
  {
    hide Best, Keyed, AllReceived, AskFrom, Exhausted, Completions;
    if v.phase == Downloading && v.selected.Some? && !AllReceived(v.status) {
      var peers := PeersWith(v.offers, v.selected.value.hash);
      if peers != [] {
        AskFromKeeps(k, v, 0, peers, 0, now, sends);
        SameExhausted(k, v, AskFrom(k, v, 0, peers, 0, now, sends));
        OneMoreCall(v.calls, GaveUp);
      }
    }
  }

  lemma ReceiveKeeps(k: Config, v: View, r: ChunkResponse)
    requires Inv(k, v)
    ensures Inv(k, Receive(k, v, r)) && Evolves(v, Receive(k, v, r))
    ensures Step(k, v, Event.Received(r), Receive(k, v, r))
  {
    hide Best, Keyed, AllReceived, Exhausted, Completions;
    if Wanted(k, v, r) {
      var w := Receive(k, v, r);
      assert w.pending.Keys == w.asked.Keys;
    }
  }

  lemma DropKeeps(k: Config, v: View, peer: PeerId)
    requires Inv(k, v)
    ensures Inv(k, Drop(v, peer)) && Evolves(v, Drop(v, peer))
    ensures Step(k, v, Disconnected(peer), Drop(v, peer))
  {
    hide Best, Keyed, AllReceived, Exhausted, Completions;
    var w := Drop(v, peer);
    SameExhausted(k, v, w);
    assert w.pending.Keys == w.asked.Keys;
  }

  /** What is tracked does not depend on the phase and the reports. */
  lemma SameTracking(k: Config, v: View, w: View)
    requires w == v.(phase := w.phase, importing := w.importing, imports := w.imports, calls := w.calls)
    ensures (Tracked(k, w) <==> Tracked(k, v)) && (Counted(k, w) <==> Counted(k, v)) && (Exhausted(k, w) <==> Exhausted(k, v))
  {
  }

  lemma FinishedKeeps(k: Config, v: View, ok: bool)
    requires Inv(k, v) && v.importing && v.selected.Some?
    ensures Inv(k, Finished(v, ok)) && Evolves(v, Finished(v, ok))
    ensures Step(k, v, Imported(ok), Finished(v, ok))
  {
    hide Best, Keyed, AllReceived, Exhausted, Completions, Tracked, Counted;
    var w := Finished(v, ok);
    SameTracking(k, v, w);
    OneMoreCall(v.calls, w.calls[|v.calls|]);
    assert w.calls == v.calls + [w.calls[|v.calls|]];
  }

  lemma StepKeeps(k: Config, v: View, e: Event, w: View)
    requires Inv(k, v) && Step(k, v, e, w)
    ensures Inv(k, w) && Evolves(v, w)
  {
    hide Best, AllReceived, AddOffers, AskFrom, Exhausted, Completions;
    SameExhausted(k, v, w.(status := v.status, retries := v.retries));
    match e
    case Offered(peer, metas) => AddOffersKeyed(v.offers, peer, metas);
    case Discovered => DiscoverKeeps(k, v, w);
    case Timed(now) => GiveUpKeeps(k, v, now);
    case Asked(now, sends) => AskMissingKeeps(k, v, now, sends);
    case Received(r) => ReceiveKeeps(k, v, r);
    case Disconnected(peer) => DropKeeps(k, v, peer);
    case Imported(ok) => FinishedKeeps(k, v, ok);
    case _ =>
  }

  // ----- whole runs

  ghost predicate Run(k: Config, run: seq<View>, events: seq<Event>) {
    && |run| == |events| + 1
    && forall i :: 0 <= i < |events| ==> Step(k, run[i], events[i], run[i + 1])
  }

  lemma RunStep(k: Config, run: seq<View>, events: seq<Event>)
    requires Run(k, run, events) && events != []
    ensures Step(k, run[|events| - 1], events[|events| - 1], run[|events|])
    ensures Run(k, run[..|events|], events[..|events| - 1])
  {
    hide Step;
    assert Step(k, run[|events| - 1], events[|events| - 1], run[|events| - 1 + 1]);
  }

  lemma {:induction false} RunKeeps(k: Config, run: seq<View>, events: seq<Event>)
    requires Run(k, run, events) && Inv(k, run[0])
    ensures Inv(k, run[|events|]) && Evolves(run[0], run[|events|])
    decreases |events|
  {
    hide Step, Inv, Evolves;
    if events == [] {
      Unchanged(k, run[0]);
    } else {
      RunStep(k, run, events);
      RunKeeps(k, run[..|events|], events[..|events| - 1]);
      StepKeeps(k, run[|events| - 1], events[|events| - 1], run[|events|]);
      EvolvesOn(run[0], run[|events| - 1], run[|events|]);
    }
  }

  lemma Unchanged(k: Config, v: View)
    requires Inv(k, v)
    ensures Evolves(v, v)
  {
  }

  lemma EvolvesOn(u: View, v: View, w: View)
    requires Evolves(u, v) && Evolves(v, w)
    ensures Evolves(u, w)
  {
    assert forall i :: Retries(u.retries, i) <= Retries(v.retries, i) <= Retries(w.retries, i);
  }

  /** A reported completion has its import. */
  lemma ReportedFor(v: View)
    requires ReportedOnce(v)
    ensures forall c :: c in v.calls && c.Completed? ==> v.imports != []
  {
    if v.imports == [] {
      forall c | c in v.calls ensures !c.Completed? { NoneCompleted(v.calls, c); }
    }
  }

  lemma {:induction false} NoneCompleted(calls: seq<Callback>, c: Callback)
    requires Completions(calls) == 0 && c in calls
    ensures !c.Completed?
    decreases |calls|
  {
    var last := |calls| - 1;
    if calls[last] != c {
      assert c in calls[..last];
      NoneCompleted(calls[..last], c);
    }
  }

  /** Over any run from the start, stops and restarts included: requests are
      tracked as Tracked says, no chunk is retried too often, and there is at
      most one import, of a highest eligible offer and with every chunk. */
  lemma RunIsSafe(k: Config, run: seq<View>, events: seq<Event>)
    requires Run(k, run, events) && run[0] == INITIAL
    ensures var v := run[|events|];
      && v.pending.Keys == v.asked.Keys
      && (forall i :: i in v.pending ==> 0 <= i < |v.status| && !v.status[i] && Retries(v.retries, i) < k.maxRetries)
      && (forall i :: Retries(v.retries, i) == 0 || Retries(v.retries, i) <= k.maxRetries)
      && (v.phase == Failed && v.imports == [] ==>
            exists i :: 0 <= i < |v.status| && !v.status[i] && Retries(v.retries, i) >= k.maxRetries)
      && |v.imports| <= 1
      && (v.imports != [] ==>
            && v.selected == Some(v.imports[0].offer) && Best(k, v.candidates, v.selected)
            && v.imports[0].chunks == v.chunks && |v.chunks| == v.imports[0].offer.chunks && AllReceived(v.status))
      && Completions(v.calls) <= |v.imports|
      && (forall c :: c in v.calls && c.Completed? ==>
            v.imports != [] && c == Completed(v.imports[0].offer.height, v.imports[0].offer.appHash))
  {
    hide Step, Best;
    InitialHolds(k);
    RunKeeps(k, run, events);
    ReportedFor(run[|events|]);
  }

  // ----- where the chosen snapshot and its chunks come from

  /** One of the events is a response with this chunk of this snapshot, under the hash it has. */
  ghost predicate Delivered(k: Config, events: seq<Event>, hash: Hash, i: int, data: seq<byte>) {
    Event.Received(ChunkResponse(Some(hash), Some(i), Some(data), Some(k.sha(data)))) in events
  }

  /** The same offers, choice and chunks. */
  ghost predicate SameDownload(v: View, w: View) {
    && w.selected == v.selected && w.status == v.status && w.chunks == v.chunks
    && w.offers == v.offers && w.candidates == v.candidates
  }

  lemma GiveUpSame(k: Config, v: View, now: int)
    ensures SameDownload(v, GiveUp(k, v, now))
  {
  }

  lemma DropSame(v: View, peer: PeerId)
    ensures SameDownload(v, Drop(v, peer))
  {
  }

  lemma FinishedSame(v: View, ok: bool)
    requires v.selected.Some?
    ensures SameDownload(v, Finished(v, ok))
  {
  }

  lemma AskMissingSame(k: Config, v: View, now: int, sends: int -> bool)
    requires Tracked(k, v)
    ensures SameDownload(v, AskMissing(k, v, now, sends))
  {
    hide AskFrom, Exhausted, AllReceived, Tracked;
    if v.phase == Downloading && v.selected.Some? {
      var peers := PeersWith(v.offers, v.selected.value.hash);
      if peers != [] { AskFromKeeps(k, v, 0, peers, 0, now, sends); }
    }
  }

  /** Only offers, the choice and deliveries change what is being downloaded. */
  lemma QuietStep(k: Config, v: View, e: Event, w: View)
    requires Tracked(k, v) && Step(k, v, e, w) && !e.Offered? && !e.Discovered? && !e.Received?
    ensures SameDownload(v, w)
  {
    hide Tracked, Best, GiveUp, Drop, AskMissing, Finished;
    match e
    case Timed(now) => GiveUpSame(k, v, now);
    case Asked(now, sends) => AskMissingSame(k, v, now, sends);
    case Disconnected(peer) => DropSame(v, peer);
    case Imported(ok) => FinishedSame(v, ok);
    case _ =>
  }

  lemma ReceiveFields(k: Config, v: View, r: ChunkResponse)
    ensures var w := Receive(k, v, r);
      && w.selected == v.selected && w.offers == v.offers && w.candidates == v.candidates
      && w.status == (if Wanted(k, v, r) then v.status[r.index.value := true] else v.status)
      && w.chunks == (if Wanted(k, v, r) then v.chunks[r.index.value := r.data.value] else v.chunks)
  {
  }

  lemma ReceiveDelivers(k: Config, v: View, r: ChunkResponse, i: nat)
    requires |v.status| == |v.chunks|
    ensures var w := Receive(k, v, r);
      && |w.status| == |w.chunks| == |v.status| && w.selected == v.selected && w.offers == v.offers && w.candidates == v.candidates
      && (i < |w.status| && w.status[i] ==>
            || (v.status[i] && v.chunks[i] == w.chunks[i])
            || (v.selected.Some? && r == ChunkResponse(Some(v.selected.value.hash), Some(i), Some(w.chunks[i]), Some(k.sha(w.chunks[i])))))
  {
    hide Receive;
    ReceiveFields(k, v, r);
  }

  lemma DiscoveredNone(k: Config, v: View, w: View)
    requires Step(k, v, Discovered, w)
    ensures w == v || (v.selected.None? && |w.status| == |w.chunks| && forall i :: 0 <= i < |w.status| ==> !w.status[i])
    ensures w.offers == v.offers && (w.candidates == v.candidates || w.candidates == v.offers)
  {
    hide Best;
  }

  lemma ChosenOf(k: Config, v: View)
    requires Inv(k, v)
    ensures Tracked(k, v) && |v.status| == |v.chunks| && (v.selected.None? ==> v.status == [])
  {
  }

  /** A chunk that counts as received after a step counted before, or the step is its delivery. */
  lemma NewlyReceived(k: Config, v: View, e: Event, w: View, i: nat)
    requires Inv(k, v) && Step(k, v, e, w) && i < |w.status| == |w.chunks| && w.status[i]
    ensures w.selected.Some?
    ensures (v.selected == w.selected && i < |v.status| == |v.chunks| && v.status[i] && v.chunks[i] == w.chunks[i])
      || e == Event.Received(ChunkResponse(Some(w.selected.value.hash), Some(i), Some(w.chunks[i]), Some(k.sha(w.chunks[i]))))
  {
    hide Inv, Best, AddOffers, GiveUp, Drop, AskMissing, Finished, Receive, Tracked, Select;
    ChosenOf(k, v);
    match e
    case Offered(peer, metas) =>
    case Discovered => DiscoveredNone(k, v, w);
    case Received(r) => ReceiveDelivers(k, v, r, i);
    case _ => QuietStep(k, v, e, w);
  }

  lemma {:induction false} ReceivedWereDelivered(k: Config, run: seq<View>, events: seq<Event>, i: nat)
    requires Run(k, run, events) && run[0] == INITIAL
    requires var v := run[|events|]; i < |v.status| == |v.chunks| && v.status[i]
    ensures var v := run[|events|];
      v.selected.Some? && Delivered(k, events, v.selected.value.hash, i, v.chunks[i])
    decreases |events|
  {
    hide Step, Inv;
    if events != [] {
      var n := |events| - 1;
      RunStep(k, run, events);
      InitialHolds(k);
      RunKeeps(k, run[..n + 1], events[..n]);
      NewlyReceived(k, run[n], events[n], run[n + 1], i);
      if run[n].selected == run[n + 1].selected && i < |run[n].status| == |run[n].chunks|
        && run[n].status[i] && run[n].chunks[i] == run[n + 1].chunks[i]
      {
        ReceivedWereDelivered(k, run[..n + 1], events[..n], i);
      }
    }
  }

  /** Over any run from the start: every chunk that counts as received, and every
      chunk handed to the import, arrived in a response for the chosen snapshot
      and that index whose stated hash is the SHA-256 of the data. */
  lemma ChunksWereVerified(k: Config, run: seq<View>, events: seq<Event>)
    requires Run(k, run, events) && run[0] == INITIAL
    ensures var v := run[|events|];
      && |v.chunks| == |v.status|
      && (forall i :: 0 <= i < |v.status| && v.status[i] ==>
            v.selected.Some? && Delivered(k, events, v.selected.value.hash, i, v.chunks[i]))
      && (forall m, i :: m in v.imports && 0 <= i < |m.chunks| ==>
            Delivered(k, events, m.offer.hash, i, m.chunks[i]))
  {
    hide Step, Best, Tracked, Counted, Exhausted, Completions, Delivered;
    InitialHolds(k);
    RunKeeps(k, run, events);
    var v := run[|events|];
    forall i | 0 <= i < |v.status| && v.status[i]
      ensures v.selected.Some? && Delivered(k, events, v.selected.value.hash, i, v.chunks[i])
    {
      ReceivedWereDelivered(k, run, events, i);
    }
  }

  /** The converse: a chunk of the chosen snapshot that is still missing counts
      as received once it is delivered under its own hash. */
  lemma DeliveryCounts(k: Config, v: View, i: nat, data: seq<byte>, w: View)
    requires v.phase == Downloading && v.selected.Some? && i < |v.status| == |v.chunks| && !v.status[i]
    requires Step(k, v, Event.Received(ChunkResponse(Some(v.selected.value.hash), Some(i), Some(data), Some(k.sha(data)))), w)
    ensures w.status == v.status[i := true] && w.chunks == v.chunks[i := data]
    ensures i !in w.pending && i !in w.asked
  {
  }

  /** A peer's message that makes this offer. */
  ghost predicate Offers(e: Event, o: Offer) {
    && e.Offered? && e.peer == o.peer
    && Metadata(Some(o.height), Some(o.hash), Some(o.chunks), Some(o.appHash)) in e.metas
  }

  ghost predicate WasOffered(events: seq<Event>, o: Offer) {
    exists j :: 0 <= j < |events| && Offers(events[j], o)
  }

  /** What a peer's list of snapshots adds: under each hash it names in full,
      the last such entry; everything else stays. */
  lemma {:induction false} AddOffersExactly(offers: map<Hash, Offer>, peer: PeerId, metas: seq<Metadata>, h: Hash)
    ensures var all := AddOffers(offers, peer, metas);
      if NamedBy(metas, h)
      then h in all && exists j :: LastNaming(metas, h, j) && all[h] == OfferOf(peer, metas[j])
      else (h in all <==> h in offers) && (h in all ==> all[h] == offers[h])
    decreases |metas|
  {
    if metas != [] {
      var m := metas[0];
      var next := if Full(m) then offers[m.hash.value := Offer(peer, m.height.value, m.hash.value, m.chunks.value, m.appHash.value)] else offers;
      AddOffersExactly(next, peer, metas[1..], h);
      if NamedBy(metas[1..], h) {
        var j :| LastNaming(metas[1..], h, j) && AddOffers(offers, peer, metas)[h] == OfferOf(peer, metas[1..][j]);
        assert metas[j + 1] == metas[1..][j];
        assert LastNaming(metas, h, j + 1);
        assert NamedBy(metas, h);
      } else {
        forall j | 1 <= j < |metas| ensures !(Full(metas[j]) && metas[j].hash.value == h) {
          assert metas[1..][j - 1] == metas[j];
        }
        if Full(m) && m.hash.value == h { assert LastNaming(metas, h, 0); }
      }
    }
  }

  ghost predicate Full(m: Metadata) {
    m.height.Some? && m.hash.Some? && m.chunks.Some? && m.appHash.Some?
  }

  ghost function OfferOf(peer: PeerId, m: Metadata): Offer
    requires Full(m)
  {
    Offer(peer, m.height.value, m.hash.value, m.chunks.value, m.appHash.value)
  }

  ghost predicate NamedBy(metas: seq<Metadata>, h: Hash) {
    exists j :: 0 <= j < |metas| && Full(metas[j]) && metas[j].hash.value == h
  }

  ghost predicate LastNaming(metas: seq<Metadata>, h: Hash, j: int) {
    && 0 <= j < |metas| && Full(metas[j]) && metas[j].hash.value == h
    && forall i :: j < i < |metas| && Full(metas[i]) ==> metas[i].hash.value != h
  }

  ghost predicate AllOffered(events: seq<Event>, v: View) {
    && (forall h :: h in v.offers ==> WasOffered(events, v.offers[h]))
    && (forall h :: h in v.candidates ==> WasOffered(events, v.candidates[h]))
  }

  lemma StillOffered(events: seq<Event>, e: Event, o: Offer)
    requires WasOffered(events, o) || Offers(e, o)
    ensures WasOffered(events + [e], o)
  {
    if WasOffered(events, o) {
      var j :| 0 <= j < |events| && Offers(events[j], o);
      assert Offers((events + [e])[j], o);
    } else {
      assert Offers((events + [e])[|events|], o);
    }
  }

  lemma AddOffersOffered(offers: map<Hash, Offer>, peer: PeerId, metas: seq<Metadata>, h: Hash)
    requires h in AddOffers(offers, peer, metas)
    ensures (h in offers && AddOffers(offers, peer, metas)[h] == offers[h]) || Offers(Offered(peer, metas), AddOffers(offers, peer, metas)[h])
  {
    AddOffersExactly(offers, peer, metas, h);
    if NamedBy(metas, h) {
      var j :| LastNaming(metas, h, j) && AddOffers(offers, peer, metas)[h] == OfferOf(peer, metas[j]);
      assert metas[j] in metas;
    }
  }

  /** Where the offers after a step come from. */
  lemma OffersAfter(k: Config, v: View, e: Event, w: View)
    requires Inv(k, v) && Step(k, v, e, w)
    ensures forall h :: h in w.offers ==> (h in v.offers && w.offers[h] == v.offers[h]) || Offers(e, w.offers[h])
    ensures w.candidates == v.candidates || w.candidates == v.offers
  {
    hide Inv, Best, AddOffers, GiveUp, Drop, AskMissing, Finished, Receive, Tracked, Select, Offers;
    ChosenOf(k, v);
    match e
    case Offered(peer, metas) =>
      forall h | h in w.offers ensures (h in v.offers && w.offers[h] == v.offers[h]) || Offers(e, w.offers[h]) {
        if v.phase == Discovering { AddOffersOffered(v.offers, peer, metas, h); }
      }
    case Discovered => DiscoveredNone(k, v, w);
    case Received(r) => ReceiveDelivers(k, v, r, 0);
    case _ => QuietStep(k, v, e, w);
  }

  lemma {:induction false} OffersWereMade(k: Config, run: seq<View>, events: seq<Event>)
    requires Run(k, run, events) && run[0] == INITIAL
    ensures AllOffered(events, run[|events|])
    decreases |events|
  {
    hide Step, Inv, WasOffered, Offers;
    if events != [] {
      var n := |events| - 1;
      RunStep(k, run, events);
      InitialHolds(k);
      RunKeeps(k, run[..n + 1], events[..n]);
      OffersWereMade(k, run[..n + 1], events[..n]);
      OffersAfter(k, run[n], events[n], run[n + 1]);
      assert events[..n] + [events[n]] == events;
      forall o | WasOffered(events[..n], o) || Offers(events[n], o) ensures WasOffered(events, o) {
        StillOffered(events[..n], events[n], o);
      }
    }
  }

  /** An offer the trust settings rule out: too low, or at the trusted height
      under another application hash. */
  ghost predicate RuledOut(k: Config, o: Offer) {
    o.height < k.trustHeight || (o.height == k.trustHeight && k.trustHash != [] && o.appHash != k.trustHash)
  }

  /** Over any run from the start: what is chosen, and what is imported, some
      peer offered in full; the trust settings do not rule it out; and no offer
      known when it was chosen that they do not rule out is higher. */
  lemma ChoiceIsTrusted(k: Config, run: seq<View>, events: seq<Event>)
    requires Run(k, run, events) && run[0] == INITIAL && run[|events|].selected.Some?
    ensures var v := run[|events|]; var o := v.selected.value;
      && WasOffered(events, o) && !RuledOut(k, o)
      && (forall h :: h in v.candidates && !RuledOut(k, v.candidates[h]) ==> v.candidates[h].height <= o.height)
      && (forall h :: h in v.candidates ==> WasOffered(events, v.candidates[h]))
      && (forall m :: m in v.imports ==> m.offer == o)
  {
    hide Step, Tracked, Counted, Exhausted, Completions, WasOffered;
    InitialHolds(k);
    RunKeeps(k, run, events);
    OffersWereMade(k, run, events);
  }

  /** The converse: while nothing is chosen, the end of discovery chooses as soon
      as some offer is not ruled out, and otherwise leaves everything as it is. */
  lemma DiscoveryChooses(k: Config, v: View, w: View)
    requires v.phase == Discovering && v.selected.None? && Step(k, v, Discovered, w)
    ensures if exists h :: h in v.offers && !RuledOut(k, v.offers[h])
      then w.phase == Downloading && w.selected.Some? && w.selected.value in v.offers.Values
      else w == v
    ensures w.selected.Some? ==> |w.status| == |w.chunks| == w.selected.value.chunks && w.offers == v.offers
    ensures w.selected.Some? ==> forall i :: 0 <= i < |w.status| ==> !w.status[i]
  {
    forall o: Offer ensures Eligible(k, o) <==> !RuledOut(k, o) { }
    if h :| h in v.offers && !RuledOut(k, v.offers[h]) {
      assert Eligible(k, v.offers[h]);
    }
  }

  // ----- exactly which requests a step makes, gives up and forgets

  /** A chunk that is missing, not under way and has no retry left. */
  ghost predicate Spent(k: Config, v: View, i: int) {
    0 <= i < |v.status| && !v.status[i] && i !in v.pending && Retries(v.retries, i) >= k.maxRetries
  }

  /** The request loop from chunk i on, with one peer that has the snapshot. */
  lemma {:induction false} AskFromExactly(k: Config, v: View, i: nat, peer: PeerId, n: nat, now: int, sends: int -> bool, c: int)
    ensures var w := AskFrom(k, v, i, [peer], n, now, sends);
      && (c in w.pending <==> c in v.pending || NewlyAsked(k, v, i, sends, c))
      && (c in v.pending ==> w.pending[c] == v.pending[c])
      && (c in v.asked && c in v.pending ==> c in w.asked && w.asked[c] == v.asked[c])
      && (c in w.pending && c !in v.pending ==> w.pending[c] == peer && c in w.asked && w.asked[c] == now)
      && (w.phase != v.phase ==> w.phase == Failed)
      && (w.calls == v.calls + [GaveUp] <==> exists j :: i <= j && Spent(k, v, j))
    decreases |v.status| - i
  {
    hide AskFrom, Spent, NewlyAsked, Retries;
    AskStepOne(k, v, i, peer, n, now, sends);
    SpentStops(k, v, i, sends, c);
    if i < |v.status| && !Spent(k, v, i) {
      if v.status[i] || i in v.pending {
        AskFromExactly(k, v, i + 1, peer, n, now, sends, c);
        AskedOnward(k, v, v, i, sends, c);
      } else {
        var u := if sends(i) then v.(pending := v.pending[i := peer], asked := v.asked[i := now]) else v;
        AskFromExactly(k, u, i + 1, peer, n + 1, now, sends, c);
        AskedOnward(k, v, u, i, sends, c);
      }
    }
  }

  lemma AskStepOne(k: Config, v: View, i: nat, peer: PeerId, n: nat, now: int, sends: int -> bool)
    ensures i >= |v.status| ==> AskFrom(k, v, i, [peer], n, now, sends) == v
    ensures Spent(k, v, i) ==> AskFrom(k, v, i, [peer], n, now, sends) == GiveUpOn(v)
    ensures i < |v.status| && (v.status[i] || i in v.pending) ==>
      AskFrom(k, v, i, [peer], n, now, sends) == AskFrom(k, v, i + 1, [peer], n, now, sends)
    ensures i < |v.status| && !v.status[i] && i !in v.pending && !Spent(k, v, i) ==>
      AskFrom(k, v, i, [peer], n, now, sends) ==
      AskFrom(k, if sends(i) then v.(pending := v.pending[i := peer], asked := v.asked[i := now]) else v, i + 1, [peer], n + 1, now, sends)
  {
  }

  lemma SpentStops(k: Config, v: View, i: nat, sends: int -> bool, c: int)
    ensures Spent(k, v, i) ==> i < |v.status| && !NewlyAsked(k, v, i, sends, c)
    ensures i >= |v.status| ==> !NewlyAsked(k, v, i, sends, c) && forall j :: i <= j ==> !Spent(k, v, j)
    ensures NewlyAsked(k, v, i, sends, c) ==> c !in v.pending
    ensures i < |v.status| && !v.status[i] && i !in v.pending && !Spent(k, v, i) ==> (NewlyAsked(k, v, i, sends, i) <==> sends(i))
    ensures i < |v.status| && (v.status[i] || i in v.pending) ==> !Spent(k, v, i) && !NewlyAsked(k, v, i, sends, i)
  {
  }

  /** Chunk c is asked for by the loop from i on: missing, not under way, the
      send succeeds, and no spent chunk comes before it. */
  ghost predicate NewlyAsked(k: Config, v: View, i: int, sends: int -> bool, c: int) {
    0 <= i <= c < |v.status| && !v.status[c] && c !in v.pending && sends(c) && forall j :: i <= j <= c ==> !Spent(k, v, j)
  }

  lemma AskedOnward(k: Config, v: View, u: View, i: nat, sends: int -> bool, c: int)
    requires u.status == v.status && u.retries == v.retries && !Spent(k, v, i)
    requires u.pending == v.pending || (i !in v.pending && u.pending.Keys == v.pending.Keys + {i})
    ensures c != i ==> (NewlyAsked(k, u, i + 1, sends, c) <==> NewlyAsked(k, v, i, sends, c))
    ensures c == i ==> !NewlyAsked(k, u, i + 1, sends, c)
    ensures (exists j :: i + 1 <= j && Spent(k, u, j)) <==> exists j :: i <= j && Spent(k, v, j)
  {
    assert forall j :: j != i ==> (Spent(k, u, j) <==> Spent(k, v, j));
  }

  /** What asking for chunks does while a download is under way and incomplete:
      with the snapshot's peer gone nothing; otherwise every missing chunk that is not under way is
      asked of that peer, dated now, unless the send fails or a spent chunk
      comes first, and a spent chunk anywhere fails the sync. */
  lemma AskExactly(k: Config, v: View, now: int, sends: int -> bool, c: int)
    requires v.phase == Downloading && v.selected.Some? && exists j :: 0 <= j < |v.status| && !v.status[j]
    ensures var w := AskMissing(k, v, now, sends);
      if v.selected.value.hash !in v.offers then w == v else
        && (c in w.pending <==> c in v.pending || NewlyAsked(k, v, 0, sends, c))
        && (c in v.pending ==> w.pending[c] == v.pending[c])
        && (c in w.pending && c !in v.pending ==>
              w.pending[c] == v.offers[v.selected.value.hash].peer && c in w.asked && w.asked[c] == now)
        && (w.calls == v.calls + [GaveUp] <==> exists j :: 0 <= j && Spent(k, v, j))
  {
    hide AskFrom, NewlyAsked, Spent;
    if v.selected.value.hash in v.offers {
      AskFromExactly(k, v, 0, v.offers[v.selected.value.hash].peer, 0, now, sends, c);
    }
  }

  /** A timeout check during a download gives up exactly the requests older than
      the timeout, and counts one retry for each. */
  lemma TimeoutExactly(k: Config, v: View, now: int, i: int)
    requires Inv(k, v)
    ensures var w := GiveUp(k, v, now); var late := v.phase == Downloading && i in v.asked && now > v.asked[i] + k.timeout;
      && (i in w.pending <==> i in v.pending && !late) && (i in w.pending ==> w.pending[i] == v.pending[i])
      && (i in w.asked <==> i in v.asked && !late) && (i in w.asked ==> w.asked[i] == v.asked[i])
      && Retries(w.retries, i) == Retries(v.retries, i) + if late then 1 else 0
  {
    hide Best, AllReceived, Exhausted, Completions, Counted, Keyed;
  }

  /** A lost peer takes with it exactly the requests made to it, at no cost in retries. */
  lemma DropExactly(k: Config, v: View, peer: PeerId, i: int)
    requires Inv(k, v)
    ensures var w := Drop(v, peer);
      && (i in w.pending <==> i in v.pending && v.pending[i] != peer) && (i in w.pending ==> w.pending[i] == v.pending[i])
      && (i in w.asked <==> i in w.pending) && w.retries == v.retries && w.status == v.status && w.chunks == v.chunks
  {
    hide Best, AllReceived, Exhausted, Completions, Counted, Keyed;
  }

  /** A chunk once received is there, unchanged, at any later point of the run
      and in the import. */
  lemma ChunksAreKept(k: Config, run: seq<View>, events: seq<Event>, a: nat, i: nat)
    requires Run(k, run, events) && run[0] == INITIAL
    requires a <= |events| && i < |run[a].status| && i < |run[a].chunks| && run[a].status[i]
    ensures var w := run[|events|];
      && i < |w.status| && i < |w.chunks| && w.status[i] && w.chunks[i] == run[a].chunks[i]
      && (w.imports != [] ==> i < |w.imports[0].chunks| && w.imports[0].chunks[i] == run[a].chunks[i])
  {
    hide Step, Best, Tracked, Counted;
    InitialHolds(k);
    RunPart(k, run, events, 0, a);
    RunKeeps(k, run[0..a + 1], events[0..a]);
    RunPart(k, run, events, a, |events|);
    RunKeeps(k, run[a..], events[a..]);
  }

  lemma RunPart(k: Config, run: seq<View>, events: seq<Event>, a: nat, b: nat)
    requires Run(k, run, events) && a <= b <= |events|
    ensures Run(k, run[a..b + 1], events[a..b])
  {
    hide Step;
    forall i | 0 <= i < b - a ensures Step(k, run[a..b + 1][i], events[a..b][i], run[a..b + 1][i + 1]) {
      assert Step(k, run[a + i], events[a + i], run[a + i + 1]);
    }
  }

  lemma NothingAsked(k: Config, v: View, now: int, sends: int -> bool)
    requires v.phase != Downloading
    ensures AskMissing(k, v, now, sends) == v
  {
  }

  lemma NothingTimed(k: Config, v: View, now: int)
    requires v.phase != Downloading
    ensures GiveUp(k, v, now) == v
  {
  }

  lemma NothingReceived(k: Config, v: View, r: ChunkResponse)
    requires v.phase != Downloading
    ensures Receive(k, v, r) == v
  {
  }

  lemma DropIdles(v: View, peer: PeerId)
    requires v.phase != Downloading
    ensures Idles(v, Drop(v, peer))
  {
  }

  /** The same choice, chunks and imports, and no download. */
  ghost predicate Idles(v: View, w: View) {
    && w.phase != Downloading && w.selected == v.selected && w.chunks == v.chunks && w.status == v.status
    && w.imports == v.imports && w.pending.Keys <= v.pending.Keys && (w.importing ==> v.importing)
    && (v.phase == Discovering && !v.importing ==> w.phase == Discovering)
  }

  lemma SameIdles(v: View)
    requires v.phase != Downloading
    ensures Idles(v, v)
  {
  }

  lemma MarkedIdles(v: View, running: bool, phase: Phase, offers: map<Hash, Offer>)
    requires v.phase != Downloading && (phase == v.phase || phase == Discovering)
    ensures Idles(v, v.(running := running, phase := phase, offers := offers))
  {
  }

  lemma FinishedIdles(v: View, ok: bool)
    requires v.phase != Downloading && v.importing && v.selected.Some?
    ensures Idles(v, Finished(v, ok))
  {
  }

  /** With a snapshot chosen and no download going on, a step changes neither
      the choice nor the chunks nor the imports, and starts no download. */
  lemma NoDownloadStep(k: Config, v: View, e: Event, w: View)
    requires v.phase != Downloading && v.selected.Some? && Step(k, v, e, w)
    ensures Idles(v, w)
  {
    hide AddOffers, Best, AskMissing, Drop, GiveUp, Receive, Idles, Finished;
    SameIdles(v);
    match e
    case Discovered =>
    case Timed(now) => NothingTimed(k, v, now);
    case Asked(now, sends) => NothingAsked(k, v, now, sends);
    case Received(r) => NothingReceived(k, v, r);
    case Disconnected(peer) => DropIdles(v, peer);
    case Imported(ok) => FinishedIdles(v, ok);
    case _ => MarkedIdles(v, w.running, w.phase, w.offers);
  }

  /** A restart with a snapshot chosen puts the reactor back to discovering for
      good: at every later point the choice, the chunks and the imports are the
      same, and nothing is downloaded. */
  lemma {:induction false} RestartNeverResumes(k: Config, run: seq<View>, events: seq<Event>)
    requires Run(k, run, events) && run[0].phase != Downloading && run[0].selected.Some?
    ensures Idles(run[0], run[|events|])
    decreases |events|
  {
    hide Step;
    if events != [] {
      RunStep(k, run, events);
      RestartNeverResumes(k, run[..|events|], events[..|events| - 1]);
      NoDownloadStep(k, run[|events| - 1], events[|events| - 1], run[|events|]);
    }
  }

  ghost predicate Downloads(k: Config, v: View, run: seq<View>, events: seq<Event>) {
    Run(k, run, events) && run[0] == v && run[|events|].phase == Downloading
  }

  ghost predicate CanDownload(k: Config, v: View) {
    exists run, events :: Downloads(k, v, run, events)
  }

  /** Among finitely many offers there is a best one, or none is eligible. */
  lemma {:induction false} BestExists(k: Config, offers: map<Hash, Offer>) returns (o: Option<Offer>)
    ensures Best(k, offers, o)
    decreases |offers|
  {
    if offers == map[] {
      o := None;
    } else {
      var h :| h in offers;
      var rest := offers - {h};
      assert |rest| < |offers| by { assert rest.Keys == offers.Keys - {h}; }
      var p := BestExists(k, rest);
      assert forall g :: g in offers ==> g == h || (g in rest && rest[g] == offers[g]);
      if !Eligible(k, offers[h]) {
        o := p;
      } else if p.None? || p.value.height < offers[h].height {
        o := Some(offers[h]);
      } else {
        o := p;
      }
      if o == p && p.Some? {
        var g :| g in rest && rest[g] == p.value;
        assert g in offers && offers[g] == p.value;
      }
    }
  }

  /** A download can still come about, whatever the offers so far, as long as nothing is chosen. */
  lemma DownloadPossible(k: Config, v: View)
    requires v.phase == Discovering && v.selected.None?
    ensures CanDownload(k, v)
  {
    hide Best, Select;
    var offer := Offer("", k.trustHeight + 1, [], 0, []);
    var metas := [Metadata(Some(offer.height), Some(offer.hash), Some(offer.chunks), Some(offer.appHash))];
    var u := v.(offers := AddOffers(v.offers, "", metas));
    OneOffer(v.offers, offer);
    var o := BestExists(k, u.offers);
    SomeEligible(k, u.offers, [], o);
    var w := Select(u, o);
    SelectStarts(u, o);
    var run, events := [v, u, w], [Offered("", metas), Discovered];
    assert Step(k, run[0], events[0], run[0 + 1]);
    assert Step(k, run[1], events[1], run[1 + 1]);
    assert Downloads(k, v, run, events);
  }

  lemma OneOffer(offers: map<Hash, Offer>, o: Offer)
    ensures AddOffers(offers, o.peer, [Metadata(Some(o.height), Some(o.hash), Some(o.chunks), Some(o.appHash))]) == offers[o.hash := o]
  {
    var m := Metadata(Some(o.height), Some(o.hash), Some(o.chunks), Some(o.appHash));
    assert [m][1..] == [];
    assert AddOffers(offers[o.hash := o], o.peer, []) == offers[o.hash := o];
  }

  lemma SomeEligible(k: Config, offers: map<Hash, Offer>, h: Hash, o: Option<Offer>)
    requires h in offers && Eligible(k, offers[h]) && Best(k, offers, o)
    ensures o.Some?
  {
  }

  lemma SelectStarts(v: View, o: Option<Offer>)
    requires o.Some?
    ensures Select(v, o).phase == Downloading
  {
  }

  /** A reactor that discovers, freshly started or restarted, can come to
      download if and only if no snapshot is chosen yet. */
  lemma ResumesExactly(k: Config, v: View)
    requires v.phase == Discovering
    ensures CanDownload(k, v) <==> v.selected.None?
  {
    hide Step;
    if v.selected.None? {
      DownloadPossible(k, v);
    } else if CanDownload(k, v) {
      var run, events :| Downloads(k, v, run, events);
      RestartNeverResumes(k, run, events);
    }
  }

  // ----- progress in per cent

  function CountReceived(status: seq<bool>): nat {
    if status == [] then 0 else CountReceived(status[..|status| - 1]) + if status[|status| - 1] then 1 else 0
  }

  lemma {:induction false} ReceivedAll(status: seq<bool>)
    ensures CountReceived(status) <= |status|
    ensures CountReceived(status) == |status| <==> AllReceived(status)
  {
    if status != [] { ReceivedAll(status[..|status| - 1]); }
  }

  // ----- the object

  /** Any element: the order in which Go visits a map is not fixed. */
  method Pick(s: set<int>) returns (i: int)
    requires s != {}
    ensures i in s
  {
    if forall x :: x !in s { assert false; }
    i :| i in s;
  }

  class StateSyncReactor {
    const k: Config
    var running: bool
    var phase: Phase
    var offers: map<Hash, Offer>
    var selected: Option<Offer>
    var chunks: seq<seq<byte>>
    var status: seq<bool>
    var pending: map<int, PeerId>
    var retries: map<int, int>
    var asked: map<int, int>
    ghost var candidates: map<Hash, Offer>
    ghost var importing: bool
    ghost var imports: seq<Import>
    ghost var calls: seq<Callback>

    ghost function V(): View
      reads this
    {
      View(running, phase, offers, selected, chunks, status, pending, retries, asked, candidates, importing, imports, calls)
    }

    ghost predicate Valid()
      reads this
    {
      Inv(k, V())
    }

    constructor (k: Config)
      ensures Valid() && this.k == k && V() == INITIAL
    {
      this.k := k;
      running, phase, offers, selected, chunks, status := false, Idle, map[], None, [], [];
      pending, retries, asked := map[], map[], map[];
      candidates, importing, imports, calls := map[], false, [], [];
    }

    method Start()
      requires Valid()
      modifies this
      ensures Valid() && Step(k, old(V()), Started, V())
    {
      hide Inv;
      if !running { running, phase := true, Discovering; }
      StepKeeps(k, old(V()), Started, V());
    }

    method Stop()
      requires Valid()
      modifies this
      ensures Valid() && Step(k, old(V()), Stopped, V())
    {
      hide Inv;
      running := false;
      StepKeeps(k, old(V()), Stopped, V());
    }

    method HandleSnapshotsResponse(peer: PeerId, metas: seq<Metadata>)
      requires Valid()
      modifies this
      ensures Valid() && Step(k, old(V()), Offered(peer, metas), V())
    {
      hide Inv;
      if phase == Discovering {
        assert metas[0..] == metas;
        for j := 0 to |metas|
          invariant V() == old(V()).(offers := offers)
          invariant AddOffers(offers, peer, metas[j..]) == AddOffers(old(offers), peer, metas)
        {
          assert metas[j..][1..] == metas[j + 1..];
          var m := metas[j];
          if m.height.None? || m.hash.None? || m.chunks.None? || m.appHash.None? { continue; }
          offers := offers[m.hash.value := Offer(peer, m.height.value, m.hash.value, m.chunks.value, m.appHash.value)];
        }
      }
      StepKeeps(k, old(V()), Offered(peer, metas), V());
    }

    method DiscoverSnapshots()
      requires Valid()
      modifies this
      ensures Valid() && Step(k, old(V()), Discovered, V())
    {
      hide Inv, Best, Step, NoChunks, NoneReceived;
      if phase == Discovering && |offers| > 0 && selected.None? {
        var best := SelectBest();
        if best.Some? {
          selected, phase := best, Downloading;
          chunks, status := NoChunks(best.value.chunks), NoneReceived(best.value.chunks);
          candidates := offers;
        }
        assert V() == Select(old(V()), best);
        SelectStep(k, old(V()), best);
      } else {
        IdleDiscovery(k, V());
      }
      DiscoverKeeps(k, old(V()), V());
    }

    /** The selection loop, over the offers in any order. */
    method SelectBest() returns (best: Option<Offer>)
      ensures Best(k, offers, best)
    {
      best := None;
      var todo := offers.Keys;
      while todo != {}
        invariant todo <= offers.Keys
        invariant best.None? ==> forall h :: h in offers && h !in todo ==> !Eligible(k, offers[h])
        invariant best.Some? ==> Eligible(k, best.value) && exists h :: h in offers && offers[h] == best.value
        invariant best.Some? ==>
          forall h :: h in offers && h !in todo && Eligible(k, offers[h]) ==> offers[h].height <= best.value.height
        decreases |todo|
      {
        var h :| h in todo;
        todo := todo - {h};
        var offer := offers[h];
        if offer.height < k.trustHeight { continue; }
        if offer.height == k.trustHeight && |k.trustHash| > 0 {
          if offer.appHash != k.trustHash { continue; }
        }
        if best.None? || offer.height > best.value.height { best := Some(offer); }
      }
    }

    method CheckChunkTimeouts(now: int)
      requires Valid()
      modifies this
      ensures Valid() && Step(k, old(V()), Timed(now), V())
    {
      hide Inv, Step;
      if phase == Downloading { Expire(now); }
      GiveUpKeeps(k, old(V()), now);
    }

    /** The timeout loop, over the dated requests in any order. */
    method Expire(now: int)
      modifies `pending, `asked, `retries
      ensures var gone := Overdue(k, old(asked), now);
        pending == Less(old(pending), gone) && asked == Less(old(asked), gone) && retries == CountOne(old(retries), gone)
    {
      hide CountOne, Retries, Overdue, Less;
      var todo := asked.Keys;
      ghost var gone: set<int> := {};
      CountNone(retries);
      LessNone(pending);
      LessNone(asked);
      NotYetOverdue(k, asked, now);
      while todo != {}
        invariant todo <= old(asked).Keys && gone !! todo && gone == Overdue(k, old(asked), now) - todo
        invariant pending == Less(old(pending), gone) && asked == Less(old(asked), gone)
        invariant retries == CountOne(old(retries), gone)
        decreases |todo|
      {
        var i := Pick(todo);
        OverdueNext(k, old(asked), now, todo, i);
        LessOne(old(asked), gone, i);
        if now - asked[i] > k.timeout {
          CountNext(old(retries), gone, i);
          LessOne(old(pending), gone, i);
          retries := retries[i := Retries(retries, i) + 1];
          pending, asked := pending - {i}, asked - {i};
          gone := gone + {i};
        }
        todo := todo - {i};
      }
      assert gone == Overdue(k, old(asked), now);
    }

    method PeersWithSnapshot(hash: Hash) returns (peers: seq<PeerId>)
      requires Keyed(offers)
      ensures peers == PeersWith(offers, hash)
    {
      peers := [];
      var todo := offers.Keys;
      while todo != {}
        invariant todo <= offers.Keys
        invariant peers == if hash in offers && hash !in todo then [offers[hash].peer] else []
        decreases |todo|
      {
        var h :| h in todo;
        if offers[h].hash == hash { peers := peers + [offers[h].peer]; }
        todo := todo - {h};
      }
    }

    /** Up to the point where the import is handed the chunks. */
    method RequestMissingChunks(now: int, sends: int -> bool)
      requires Valid()
      modifies this
      ensures Valid() && Step(k, old(V()), Asked(now, sends), V())
    {
      hide Inv, AskFrom, AllReceived, Step;
      if phase == Downloading && selected.Some? {
        var all := ReceivedEverything();
        if all {
          phase, importing := Applying, true;
          imports := imports + [Import(selected.value, chunks)];
        } else {
          InvKeyed(k, V());
          var peers := PeersWithSnapshot(selected.value.hash);
          if |peers| > 0 { AskLoop(peers, now, sends); }
        }
      }
      AskMissingKeeps(k, old(V()), now, sends);
    }

    method ReceivedEverything() returns (all: bool)
      ensures all <==> AllReceived(status)
    {
      for i := 0 to |status|
        invariant forall j :: 0 <= j < i ==> status[j]
      {
        if !status[i] { return false; }
      }
      return true;
    }

    method AskLoop(peers: seq<PeerId>, now: int, sends: int -> bool)
      requires peers != []
      modifies this
      ensures V() == AskFrom(k, old(V()), 0, peers, 0, now, sends)
    {
      hide AskFrom;
      var peerIdx := 0;
      for i := 0 to |status|
        invariant V() == old(V()).(pending := pending, asked := asked)
        invariant AskFrom(k, V(), i, peers, peerIdx, now, sends) == AskFrom(k, old(V()), 0, peers, 0, now, sends)
      {
        AskStep(k, V(), i, peers, peerIdx, now, sends);
        if status[i] { continue; }
        if i in pending { continue; }
        if Retries(retries, i) >= k.maxRetries {
          phase, calls := Failed, calls + [GaveUp];
          return;
        }
        var peer := peers[peerIdx % |peers|];
        peerIdx := peerIdx + 1;
        if !sends(i) { continue; }
        pending := pending[i := peer];
        asked := asked[i := now];
      }
      AskStep(k, V(), |status|, peers, peerIdx, now, sends);
    }

    /** Also says whether the sender is penalised: exactly when the chunk would be
        wanted but does not hash as claimed. */
    method HandleChunkResponse(r: ChunkResponse) returns (penalised: bool)
      requires Valid()
      modifies this
      ensures Valid() && Step(k, old(V()), Event.Received(r), V())
      ensures penalised <==>
        && old(phase) == Downloading && old(selected).Some? && r.snapshot == Some(old(selected).value.hash)
        && r.index.Some? && 0 <= r.index.value < |old(status)| && !old(status)[r.index.value]
        && r.data.Some? && r.chunkHash.Some? && k.sha(r.data.value) != r.chunkHash.value
      ensures penalised ==> V() == old(V())
    {
      hide Inv, Step;
      ChunkLengths(k, V());
      penalised := false;
      if r.snapshot.Some? && r.index.Some? && r.data.Some? && r.chunkHash.Some? {
        if phase == Downloading && selected.Some? && r.snapshot.value == selected.value.hash {
          var i := r.index.value;
          if 0 <= i < |chunks| && !status[i] {
            if k.sha(r.data.value) != r.chunkHash.value {
              penalised := true;
            } else {
              chunks, status := chunks[i := r.data.value], status[i := true];
              pending, asked := pending - {i}, asked - {i};
            }
          }
        }
      }
      ReceiveKeeps(k, old(V()), r);
    }

    /** What follows the import once the lock is held again. */
    method FinishImport(ok: bool)
      requires Valid() && importing
      modifies this
      ensures Valid() && Step(k, old(V()), Imported(ok), V())
    {
      hide Inv, Step;
      ImportingIsChosen(k, V());
      importing := false;
      if ok {
        phase, calls := Complete, calls + [Completed(selected.value.height, selected.value.appHash)];
      } else {
        phase, calls := Failed, calls + [GaveUp];
      }
      FinishedKeeps(k, old(V()), ok);
    }

    method OnPeerDisconnected(peer: PeerId)
      requires Valid()
      modifies this
      ensures Valid() && Step(k, old(V()), Disconnected(peer), V())
    {
      hide Inv, Step;
      Forget(peer);
      DropKeeps(k, old(V()), peer);
    }

    /** The loop over the pending chunks in any order. */
    method Forget(peer: PeerId)
      modifies `pending, `asked
      ensures var gone := AskedOf(old(pending), peer);
        pending == Less(old(pending), gone) && asked == Less(old(asked), gone)
    {
      hide Less, AskedOf;
      var todo := pending.Keys;
      ghost var gone: set<int> := {};
      LessNone(pending);
      LessNone(asked);
      NoneAskedOf(pending, peer);
      while todo != {}
        invariant todo <= old(pending).Keys && gone !! todo && gone == AskedOf(old(pending), peer) - todo
        invariant pending == Less(old(pending), gone) && asked == Less(old(asked), gone)
        decreases |todo|
      {
        var i := Pick(todo);
        AskedOfNext(old(pending), peer, todo, i);
        LessOne(old(pending), gone, i);
        if pending[i] == peer {
          LessOne(old(asked), gone, i);
          pending, asked := pending - {i}, asked - {i};
          gone := gone + {i};
        }
        todo := todo - {i};
      }
      assert gone == AskedOf(old(pending), peer);
    }

    /** 100 exactly when every chunk of a non-empty snapshot has arrived. */
    method Progress() returns (percent: int)
      requires Valid()
      ensures 0 <= percent <= 100
      ensures percent == 100 <==> selected.Some? && status != [] && AllReceived(status)
      ensures selected.Some? && status != [] ==> percent == CountReceived(status) * 100 / |status|
    {
      ChunkLengths(k, V());
      if selected.None? { return 0; }
      var received := 0;
      for i := 0 to |status|
        invariant received == CountReceived(status[..i])
      {
        assert status[..i + 1][..i] == status[..i];
        if status[i] { received := received + 1; }
      }
      assert status[..|status|] == status;
      if |status| == 0 { return 0; }
      ReceivedAll(status);
      PerCent(received, |status|);
      return received * 100 / |status|;
    }
  }

  lemma PerCent(a: nat, n: nat)
    requires a <= n && n > 0
    ensures 0 <= a * 100 / n <= 100
    ensures a * 100 / n == 100 <==> a == n
  {
    var x := a * 100;
    assert x == n * (x / n) + x % n;
    Between(n, x / n, x);
  }

  lemma Between(n: nat, q: int, x: nat)
    requires n > 0 && n * q <= x < n * q + n && x <= n * 100
    ensures 0 <= q <= 100 && (q == 100 <==> x == n * 100)
  {
    assert q < 0 ==> n * q <= n * -1;
    assert q > 100 ==> n * q >= n * 101;
    assert q < 100 ==> n * q <= n * 99;
  }

  lemma SelectStep(k: Config, v: View, o: Option<Offer>)
    requires v.phase == Discovering && v.offers != map[] && v.selected.None? && Best(k, v.offers, o)
    ensures Step(k, v, Discovered, Select(v, o))
  {
    hide Best;
  }

  lemma IdleDiscovery(k: Config, v: View)
    requires v.phase != Discovering || v.offers == map[] || v.selected.Some?
    ensures Step(k, v, Discovered, v)
  {
  }

  lemma LessNone<T>(m: map<int, T>)
    ensures Less(m, {}) == m
  {
  }

  lemma LessOne<T>(m: map<int, T>, gone: set<int>, i: int)
    ensures Less(m, gone) - {i} == Less(m, gone + {i})
    ensures i in m && i !in gone ==> i in Less(m, gone) && Less(m, gone)[i] == m[i]
  {
  }

  lemma NotYetOverdue(k: Config, asked: map<int, int>, now: int)
    ensures Overdue(k, asked, now) - asked.Keys == {}
  {
  }

  lemma OverdueNext(k: Config, asked: map<int, int>, now: int, todo: set<int>, i: int)
    requires i in todo && todo <= asked.Keys
    ensures Overdue(k, asked, now) - (todo - {i}) ==
      Overdue(k, asked, now) - todo + if now - asked[i] > k.timeout then {i} else {}
  {
  }

  lemma NoneAskedOf(pending: map<int, PeerId>, peer: PeerId)
    ensures AskedOf(pending, peer) - pending.Keys == {}
  {
  }

  lemma AskedOfNext(pending: map<int, PeerId>, peer: PeerId, todo: set<int>, i: int)
    requires i in todo && todo <= pending.Keys
    ensures AskedOf(pending, peer) - (todo - {i}) == AskedOf(pending, peer) - todo + if pending[i] == peer then {i} else {}
  {
  }

  lemma CountNone(retries: map<int, int>)
    ensures CountOne(retries, {}) == retries
  {
  }

  lemma CountNext(retries: map<int, int>, gone: set<int>, i: int)
    requires i !in gone
    ensures CountOne(retries, gone + {i}) == CountOne(retries, gone)[i := Retries(CountOne(retries, gone), i) + 1]
  {
  }

  lemma ImportingIsChosen(k: Config, v: View)
    requires Inv(k, v) && v.importing
    ensures v.selected.Some?
  {
  }

  lemma InvKeyed(k: Config, v: View)
    requires Inv(k, v)
    ensures Keyed(v.offers)
  {
  }

  lemma ChunkLengths(k: Config, v: View)
    requires Inv(k, v)
    ensures |v.chunks| == |v.status|
    ensures v.selected.None? ==> v.status == []
  {
  }

  lemma AskStep(k: Config, v: View, i: nat, peers: seq<PeerId>, n: nat, now: int, sends: int -> bool)
    requires peers != [] && i <= |v.status|
    ensures i == |v.status| ==> AskFrom(k, v, i, peers, n, now, sends) == v
    ensures i < |v.status| && (v.status[i] || i in v.pending) ==>
      AskFrom(k, v, i, peers, n, now, sends) == AskFrom(k, v, i + 1, peers, n, now, sends)
    ensures i < |v.status| && !v.status[i] && i !in v.pending && Retries(v.retries, i) >= k.maxRetries ==>
      AskFrom(k, v, i, peers, n, now, sends) == GiveUpOn(v)
    ensures i < |v.status| && !v.status[i] && i !in v.pending && Retries(v.retries, i) < k.maxRetries ==>
      AskFrom(k, v, i, peers, n, now, sends) ==
      AskFrom(k, if sends(i) then v.(pending := v.pending[i := peers[n % |peers|]], asked := v.asked[i := now]) else v,
              i + 1, peers, n + 1, now, sends)
  {
  }
}
