/**
  The same client and peer with the reactor's two threads apart: the ticker and
  the handler of responses interleave wherever the source releases its locks.
*/
module SyncThreads {
  import opened Wrappers
  import opened Bytes
  import opened MemoryStore
  import opened BlockSync
  import opened SyncReactors
  import opened SyncSystem

  /** Where a thread stands: storing a response, or in the middle of a check,
      having read a height that may be stale by now. */
  datatype Phase = Resting | Storing(blocks: seq<BlockData>, done: nat) | Seen(height: int) | Asking(since: int)

  datatype Thread = Ticker | Handler

  /** `late` counts the checks that put a caught-up, synced client back to syncing. */
  datatype Threads = Threads(
    client: Client, asked: seq<int>, answered: seq<seq<BlockData>>, ticker: Phase, handler: Phase, late: nat)
  {
    function Of(x: Thread): Phase { if x.Ticker? then ticker else handler }
    function At(x: Thread, p: Phase): Threads { if x.Ticker? then this.(ticker := p) else this.(handler := p) }
  }

  ghost predicate AheadOf(c: Client, height: int) {
    exists p :: p in c.peerHeights && c.peerHeights[p] > height
  }

  datatype Event =
    | TickRead | Served | Receives | Stores | StoredAll | Decides(x: Thread) | Requesting(x: Thread, now: int)

  /** The state change of a check that read this height. */
  function Decided(s: Threads, x: Thread, height: int, ahead: bool, caughtUp: bool): Threads {
    var c := s.client;
    if ahead then
      s.(client := c.(syncing := true), late := s.late + if caughtUp && !c.syncing then 1 else 0).At(x, Asking(height))
    else
      s.(client := if c.syncing then c.(syncing := false, completions := c.completions + 1) else c).At(x, Resting)
  }

  ghost predicate Step(w: World, s: Threads, e: Event, t: Threads) {
    var c := s.client;
    match e
    case TickRead => s.ticker.Resting? && t == s.(ticker := Seen(c.store.height))
    case Decides(x) =>
      s.Of(x).Seen? && t == Decided(s, x, s.Of(x).height, AheadOf(c, s.Of(x).height), !AheadOf(c, c.store.height))
    case Requesting(x, now) =>
      && s.Of(x).Asking?
      && exists rs ::
         && Requests(w.k, c, s.Of(x).since, now, t.client, rs)
         && t == s.(client := t.client, asked := s.asked + Starts(rs)).At(x, Resting)
    case Served =>
      && s.asked != [] && ValidHeight(s.asked[0])
      && var a := Answer(w, s.asked[0]);
         t == s.(asked := s.asked[1..], answered := if a == [] then s.answered else s.answered + [a])
    case Receives =>
      && s.handler.Resting? && s.answered != []
      && var d := c.(pending := c.pending - {w.peer});
         t == if Contiguous(c.store, s.answered[0])
              then s.(client := d, answered := s.answered[1..], handler := Storing(s.answered[0], 0))
              else s.(client := d.(penalties := c.penalties + 1), answered := s.answered[1..])
    case Stores =>
      && s.handler.Storing? && s.handler.done < |s.handler.blocks|
      && var b := s.handler.blocks[s.handler.done];
         t == s.(client := c.(store := StoreOne(w.k.rules, c.store, b),
                              penalties := c.penalties + Penalties(w.k.rules, c.store, [b])),
                 handler := Storing(s.handler.blocks, s.handler.done + 1))
    case StoredAll =>
      s.handler.Storing? && s.handler.done == |s.handler.blocks| && t == s.(handler := Seen(c.store.height))
  }

  // ----- the invariant

  function Flight(s: Threads): seq<int> {
    (if s.handler.Storing? then [First(s.handler.blocks)] else [])
    + SyncSystem.Flight(System(s.client, s.asked, s.answered))
  }

  /** What is on its way starts within reach, and so does what is still to be asked for. */
  ghost predicate Lining(w: World, c: Client, flight: seq<int>) {
    var r := c.store.height + 1;
    && Lined(w, flight, r) && Min(c.next, w.chain.height + 1) <= Reach(w, flight, r)
    && (w.peer in c.pending ==> c.pending[w.peer].startHeight <= Reach(w, flight, r))
  }

  ghost predicate Sound(w: World, c: Client) {
    PrefixOf(c.store, w.chain) && KnowsOnly(c, w.peer, w.chain.height) && c.penalties == 0
  }

  ghost predicate PhaseOk(w: World, c: Client, p: Phase) {
    && (p.Seen? ==> 0 <= p.height <= c.store.height)
    && (p.Asking? ==> 0 <= p.since <= c.store.height)
    && (p.Storing? ==>
          && p.blocks == Answer(w, First(p.blocks)) && p.done <= |p.blocks| && 1 <= First(p.blocks) <= w.chain.height
          && First(p.blocks) + p.done <= c.store.height + 1)
  }

  function Bit(b: bool): nat { if b then 1 else 0 }

  /** The callback has fired once when the client catches up, and once more for
      every late check that has been answered. */
  ghost predicate Tally(w: World, s: Threads) {
    var c := s.client;
    && (c.store.height < w.chain.height ==> c.completions == 0 && s.late == 0)
    && (c.store.height == w.chain.height ==> c.completions + Bit(c.syncing) == 1 + s.late)
  }

  ghost predicate Active(s: Threads) {
    Flight(s) != [] || s.ticker.Asking? || s.handler.Asking?
  }

  ghost predicate Inv(w: World, s: Threads) {
    && Sound(w, s.client) && Lining(w, s.client, Flight(s)) && Truthful(w, s.answered) && Tally(w, s)
    && PhaseOk(w, s.client, s.ticker) && PhaseOk(w, s.client, s.handler) && !s.ticker.Storing?
    && (Active(s) && s.client.store.height < w.chain.height ==> s.client.syncing)
  }

  ghost predicate Init(w: World, s: Threads) {
    && SyncSystem.Init(w, System(s.client, s.asked, s.answered))
    && s.ticker == Resting && s.handler == Resting && s.late == 0
  }

  lemma InitHolds(w: World, s: Threads)
    requires Honest(w) && Init(w, s)
    ensures Inv(w, s)
  {
    assert Flight(s) == [];
  }

  lemma SoundStore(w: World, c: Client)
    requires Sound(w, c)
    ensures 0 <= c.store.height <= w.chain.height
    ensures forall h :: AheadOf(c, h) <==> h < w.chain.height
  {
    assert w.peer in c.peerHeights;
  }

  // ----- every step keeps it

  lemma DecidesKeeps(w: World, s: Threads, x: Thread, t: Threads)
    requires Honest(w) && Inv(w, s) && Step(w, s, Decides(x), t)
    ensures Inv(w, t)
  {
    hide Honest, PrefixOf, Lined, Reach, Answer, AheadOf, Truthful;
    SoundStore(w, s.client);
    assert Flight(t) == Flight(s);
  }

  lemma RequestingKeeps(w: World, s: Threads, x: Thread, now: int, t: Threads)
    requires Honest(w) && Inv(w, s) && Step(w, s, Requesting(x, now), t)
    ensures Inv(w, t)
  {
    hide Honest, PrefixOf, Lined, Reach, Answer, Requests, Truthful, AheadOf;
    HonestSettings(w);
    SoundStore(w, s.client);
    var since := s.Of(x).since;
    var rs :| && Requests(w.k, s.client, since, now, t.client, rs)
              && t == s.(client := t.client, asked := s.asked + Starts(rs)).At(x, Resting);
    assert Flight(t) == Flight(s) + Starts(rs);
    RequestsOne(w.k, s.client, w.peer, w.chain.height, since, now, t.client, rs);
    LiningAsked(w, s.client, Flight(s), since, now, t.client, rs);
  }

  lemma LiningAsked(w: World, c: Client, flight: seq<int>, since: int, now: int, d: Client, rs: seq<Request>)
    requires Honest(w) && Sound(w, c) && Lining(w, c, flight) && 0 <= since <= c.store.height
    requires var start := NextStart(w.k, c, w.peer, since, now);
      if Waiting(w.k, c, w.peer, now) || w.chain.height < start
      then rs == [] && d == Unsent(w.k, c, w.peer, start, now)
      else rs == [(w.peer, start)] && d == Sent(w.k, c, w.peer, start, now)
    ensures Lining(w, d, flight + Starts(rs)) && Sound(w, d)
  {
    hide Honest, PrefixOf, Lined, Reach;
    HonestSettings(w);
    SoundStore(w, c);
    ReachGrows(w, flight, c.store.height + 1);
    if rs == [] {
      assert flight + Starts(rs) == flight;
    } else {
      var start := NextStart(w.k, c, w.peer, since, now);
      assert Starts(rs) == [start];
      LinedAppend(w, flight, c.store.height + 1, start);
    }
  }

  lemma ServedKeeps(w: World, s: Threads, t: Threads)
    requires Honest(w) && Inv(w, s) && Step(w, s, Served, t)
    ensures Inv(w, t)
  {
    hide Honest, PrefixOf, Reach, Answer, AheadOf;
    var start := s.asked[0];
    var before := Flight(s);
    var i := |before| - |s.asked|;
    assert before[i] == start;
    LinedAt(w, before, s.client.store.height + 1, i);
    AnswerAt(w, start);
    assert Flight(t) == Flight(s);
  }

  lemma ReceivesKeeps(w: World, s: Threads, t: Threads)
    requires Honest(w) && Inv(w, s) && Step(w, s, Receives, t)
    ensures Inv(w, t)
  {
    hide Honest, PrefixOf, Reach, Answer, AheadOf, Contiguous;
    SoundStore(w, s.client);
    var start := First(s.answered[0]);
    assert Flight(s)[0] == start;
    LinedAt(w, Flight(s), s.client.store.height + 1, 0);
    AnswerAccepted(w, s.client.store, start);
    assert Flight(t) == Flight(s);
  }

  /** Block i of an answer is the chain's block at that height. */
  lemma {:induction false} AnswerBlock(w: World, start: int, n: nat, i: nat)
    requires Honest(w) && 1 <= start <= w.chain.height && i < |Stretch(w.chain, start, n)|
    ensures start + i in w.chain.blocks && Stretch(w.chain, start, n)[i] == SyncSystem.At(w.chain, start + i)
    ensures start + i <= Min(start + n - 1, w.chain.height)
    decreases n
  {
    hide Honest;
    HonestReach(w, start);
    HonestReach(w, start + 1);
    if i > 0 { AnswerBlock(w, start + 1, n - 1, i - 1); }
  }

  lemma {:induction false} AnswerLength(w: World, start: int, n: nat)
    requires Honest(w) && 1 <= start <= w.chain.height + 1
    ensures |Stretch(w.chain, start, n)| == Min(n, w.chain.height - start + 1)
    decreases n
  {
    hide Honest;
    HonestReach(w, start);
    if n > 0 && start <= w.chain.height { AnswerLength(w, start + 1, n - 1); }
  }

  lemma StoresKeeps(w: World, s: Threads, t: Threads)
    requires Honest(w) && Inv(w, s) && Step(w, s, Stores, t)
    ensures Inv(w, t)
  {
    hide Honest, PrefixOf, Stretch, AheadOf, StoreOne, Genuine, Truthful;
    HonestSettings(w);
    SoundStore(w, s.client);
    var start, i := First(s.handler.blocks), s.handler.done;
    AnswerBlock(w, start, ClampBatchSize(w.k.batchSize), i);
    HonestReach(w, start + i);
    var b := s.handler.blocks[i];
    NoBlame(w, s.client.store, b);
    StoreOneOf(w, s.client.store, start + i);
    SoundStore(w, t.client);
    assert Flight(t) == Flight(s) == [start] + Flight(s)[1..];
    assert Bump(w, t.client.store.height + 1, start) == Bump(w, s.client.store.height + 1, start);
  }

  lemma NoBlame(w: World, s: Store, b: BlockData)
    requires Genuine(w.k.rules, b)
    ensures Penalties(w.k.rules, s, [b]) == 0
  {
    assert [b][1..] == [];
    assert Penalties(w.k.rules, StoreOne(w.k.rules, s, b), []) == 0;
  }

  lemma StoredAllKeeps(w: World, s: Threads, t: Threads)
    requires Honest(w) && Inv(w, s) && Step(w, s, StoredAll, t)
    ensures Inv(w, t)
  {
    hide Honest, PrefixOf, Stretch, AheadOf, Truthful;
    HonestSettings(w);
    SoundStore(w, s.client);
    var start := First(s.handler.blocks);
    AnswerLength(w, start, ClampBatchSize(w.k.batchSize));
    assert Flight(s) == [start] + Flight(t);
    assert Flight(s)[1..] == Flight(t);
    assert Bump(w, s.client.store.height + 1, start) == s.client.store.height + 1;
  }

  lemma StepKeeps(w: World, s: Threads, e: Event, t: Threads)
    requires Honest(w) && Inv(w, s) && Step(w, s, e, t)
    ensures Inv(w, t)
  {
    match e
    case TickRead => assert Flight(t) == Flight(s);
    case Decides(x) => DecidesKeeps(w, s, x, t);
    case Requesting(x, now) => RequestingKeeps(w, s, x, now, t);
    case Served => ServedKeeps(w, s, t);
    case Receives => ReceivesKeeps(w, s, t);
    case Stores => StoresKeeps(w, s, t);
    case StoredAll => StoredAllKeeps(w, s, t);
  }

  // ----- whole runs

  ghost predicate Run(w: World, run: seq<Threads>, events: seq<Event>) {
    && |run| == |events| + 1
    && forall i :: 0 <= i < |events| ==> Step(w, run[i], events[i], run[i + 1])
  }

  lemma RunInit(w: World, run: seq<Threads>, events: seq<Event>)
    requires Run(w, run, events)
    ensures |run| == |events| + 1
    ensures events != [] ==> Step(w, run[|events| - 1], events[|events| - 1], run[|events|])
    ensures events != [] ==> Run(w, run[..|events|], events[..|events| - 1])
  {
    hide Step;
    if events != [] { assert Step(w, run[|events| - 1], events[|events| - 1], run[|events| - 1 + 1]); }
  }

  lemma {:induction false} RunKeeps(w: World, run: seq<Threads>, events: seq<Event>)
    requires Honest(w) && Run(w, run, events) && Inv(w, run[0])
    ensures Inv(w, run[|events|])
    decreases |events|
  {
    hide Honest, Run, Step, Inv;
    RunInit(w, run, events);
    if events != [] {
      RunKeeps(w, run[..|events|], events[..|events| - 1]);
      StepKeeps(w, run[|events| - 1], events[|events| - 1], run[|events|]);
    }
  }

  /** However the two threads interleave: the store is always a gapless prefix
      of the peer's chain and the peer is never penalised. The callback does not
      fire before the client has caught up; from then on it has fired once and
      once more for every late check, but for the one still to be answered. */
  lemma ThreadsAreSafe(w: World, run: seq<Threads>, events: seq<Event>)
    requires Honest(w) && |run| == |events| + 1 && Init(w, run[0]) && Run(w, run, events)
    ensures var s := run[|events|]; var c := s.client;
      && PrefixOf(c.store, w.chain) && c.penalties == 0
      && (c.store.height < w.chain.height ==> c.completions == 0)
      && (c.store.height == w.chain.height && !c.syncing ==> c.completions == 1 + s.late)
      && (c.store.height == w.chain.height && c.syncing ==> c.completions == s.late)
  {
    hide Honest, Run, Step, PrefixOf;
    InitHolds(w, run[0]);
    RunKeeps(w, run, events);
    SoundStore(w, run[|events|].client);
  }

  /** For a synced client: fired exactly once if and only if no check was late. */
  lemma FiredOnceExactly(w: World, run: seq<Threads>, events: seq<Event>)
    requires Honest(w) && |run| == |events| + 1 && Init(w, run[0]) && Run(w, run, events)
    requires run[|events|].client.store.height == w.chain.height && !run[|events|].client.syncing
    ensures run[|events|].client.completions == 1 <==> run[|events|].late == 0
  {
    hide Honest, Run, Step, Init;
    ThreadsAreSafe(w, run, events);
  }

  ghost predicate Reaches(w: World, s: Threads) {
    exists run, events :: RunTo(w, run, events, s)
  }

  ghost predicate RunTo(w: World, run: seq<Threads>, events: seq<Event>, s: Threads) {
    Run(w, run, events) && Init(w, run[0]) && run[|events|] == s
  }

  lemma ReachesNext(w: World, s: Threads, e: Event, t: Threads)
    requires Reaches(w, s) && Step(w, s, e, t)
    ensures Reaches(w, t)
  {
    hide Step, Init;
    var run, events :| RunTo(w, run, events, s);
    var longer, more := run + [t], events + [e];
    forall i | 0 <= i < |more| ensures Step(w, longer[i], more[i], longer[i + 1]) {
      if i < |events| { assert Step(w, run[i], events[i], run[i + 1]); }
    }
    assert RunTo(w, longer, more, t);
  }

  /** A check that read its height before the last block was stored, and goes on
      after the client has become synced, makes the callback fire again. */
  lemma StaleCheckFiresAgain(w: World, s: Threads) returns (t: Threads)
    requires Honest(w) && Inv(w, s) && Reaches(w, s)
    requires s.client.store.height == w.chain.height && !s.client.syncing && s.ticker.Seen? && s.ticker.height < w.chain.height
    ensures Reaches(w, t) && !t.client.syncing && t.client.completions == s.client.completions + 1
  {
    hide Honest, PrefixOf, Lined, Reach, Answer, Requests, AheadOf, Reaches, Truthful;
    HonestSettings(w);
    SoundStore(w, s.client);
    var since := s.ticker.height;
    var s1 := Decided(s, Ticker, since, AheadOf(s.client, since), !AheadOf(s.client, s.client.store.height));
    ReachesNext(w, s, Decides(Ticker), s1);
    DecidesKeeps(w, s, Ticker, s1);
    var d, rs := RequestPossible(w.k, s1.client, w.peer, w.chain.height, since, 0);
    var s2 := s1.(client := d, asked := s1.asked + Starts(rs)).At(Ticker, Resting);
    assert Step(w, s1, Requesting(Ticker, 0), s2);
    ReachesNext(w, s1, Requesting(Ticker, 0), s2);
    RequestsOne(w.k, s1.client, w.peer, w.chain.height, since, 0, d, rs);
    var s3 := s2.(ticker := Seen(s2.client.store.height));
    ReachesNext(w, s2, TickRead, s3);
    RequestingKeeps(w, s1, Ticker, 0, s2);
    SoundStore(w, s3.client);
    t := Decided(s3, Ticker, s3.ticker.height, AheadOf(s3.client, s3.ticker.height), !AheadOf(s3.client, s3.client.store.height));
    ReachesNext(w, s3, Decides(Ticker), t);
  }

  /** A client one block behind asks for it and gets the answer; meanwhile the
      ticker has read the old height. */
  lemma AskForLast(w: World, s0: Threads) returns (s: Threads)
    requires Honest(w) && Init(w, s0) && w.chain.height == s0.client.store.height + 1
    ensures Reaches(w, s) && Inv(w, s) && s.client.store == s0.client.store && s.client.completions == 0
    ensures s.answered == [Answer(w, w.chain.height)] && s.asked == []
    ensures s.ticker == Seen(s0.client.store.height) && s.handler == Resting
  {
    hide Honest, PrefixOf, Lined, Reach, Answer, Requests, AheadOf, Reaches, Truthful;
    HonestSettings(w);
    InitHolds(w, s0);
    SoundStore(w, s0.client);
    InitReaches(w, s0);
    var h := s0.client.store.height;
    var s1 := s0.(ticker := Seen(h));
    ReachesNext(w, s0, TickRead, s1);
    var s2 := Decided(s1, Ticker, h, AheadOf(s1.client, h), !AheadOf(s1.client, h));
    ReachesNext(w, s1, Decides(Ticker), s2);
    var d, rs := RequestPossible(w.k, s2.client, w.peer, w.chain.height, h, 0);
    RequestsOne(w.k, s2.client, w.peer, w.chain.height, h, 0, d, rs);
    var s3 := s2.(client := d, asked := s2.asked + Starts(rs)).At(Ticker, Resting);
    assert Step(w, s2, Requesting(Ticker, 0), s3);
    ReachesNext(w, s2, Requesting(Ticker, 0), s3);
    assert s3.asked == [h + 1];
    AnswerAt(w, h + 1);
    var s4 := s3.(asked := s3.asked[1..], answered := s3.answered + [Answer(w, h + 1)]);
    ReachesNext(w, s3, Served, s4);
    s := s4.(ticker := Seen(h));
    ReachesNext(w, s4, TickRead, s);
    ReachedHolds(w, s);
  }

  lemma InitReaches(w: World, s: Threads)
    requires Init(w, s)
    ensures Reaches(w, s)
  {
    hide Init;
    var run: seq<Threads>, events: seq<Event> := [s], [];
    assert RunTo(w, run, events, s);
  }

  lemma ReachedHolds(w: World, s: Threads)
    requires Honest(w) && Reaches(w, s)
    ensures Inv(w, s)
  {
    hide Honest, Step, Inv, Init;
    var run, events :| RunTo(w, run, events, s);
    InitHolds(w, run[0]);
    RunKeeps(w, run, events);
  }

  /** The handler stores the last block and declares the client synced. */
  lemma StoreLast(w: World, s: Threads) returns (t: Threads)
    requires Honest(w) && Reaches(w, s) && Inv(w, s)
    requires w.chain.height == s.client.store.height + 1 && s.answered == [Answer(w, w.chain.height)] && s.handler == Resting
    ensures Reaches(w, t) && Inv(w, t) && t.client.store.height == w.chain.height && !t.client.syncing && t.ticker == s.ticker
    ensures t.client.completions == 1
  {
    hide Honest, PrefixOf, Lined, Reach, Stretch, AheadOf, Reaches, Truthful, Contiguous, StoreOne, Penalties;
    HonestSettings(w);
    SoundStore(w, s.client);
    var last := w.chain.height;
    AnswerAccepted(w, s.client.store, last);
    AnswerLength(w, last, ClampBatchSize(w.k.batchSize));
    AnswerBlock(w, last, ClampBatchSize(w.k.batchSize), 0);
    var b := Answer(w, last)[0];
    var s1 := s.(client := s.client.(pending := s.client.pending - {w.peer}), answered := s.answered[1..],
                 handler := Storing(s.answered[0], 0));
    ReachesNext(w, s, Receives, s1);
    var s2 := s1.(client := s1.client.(store := StoreOne(w.k.rules, s1.client.store, b),
                                       penalties := s1.client.penalties + Penalties(w.k.rules, s1.client.store, [b])),
                  handler := Storing(s1.handler.blocks, 1));
    ReachesNext(w, s1, Stores, s2);
    StoreOneOf(w, s.client.store, last);
    var s3 := s2.(handler := Seen(s2.client.store.height));
    ReachesNext(w, s2, StoredAll, s3);
    ReachedHolds(w, s3);
    SoundStore(w, s3.client);
    t := Decided(s3, Handler, last, AheadOf(s3.client, last), !AheadOf(s3.client, s3.client.store.height));
    ReachesNext(w, s3, Decides(Handler), t);
    DecidesKeeps(w, s3, Handler, t);
  }

  /** So the callback can fire twice for one synchronisation: from any client
      that is one block behind. */
  lemma FiresTwice(w: World, s0: Threads) returns (t: Threads)
    requires Honest(w) && Init(w, s0) && w.chain.height == s0.client.store.height + 1
    ensures Reaches(w, t) && t.client.completions == 2
  {
    hide Honest, Reaches, Inv, Init, PrefixOf;
    var s := AskForLast(w, s0);
    var u := StoreLast(w, s);
    t := StaleCheckFiresAgain(w, u);
  }
}
