/**
  The same client and peer when a send may fail. The reactor then forgets the
  request but not that it has asked, so the batch may be lost for good: this
  module says exactly when.
*/
module SyncLoss {
  import opened Wrappers
  import opened Bytes
  import opened MemoryStore
  import opened BlockSync
  import opened SyncReactors
  import opened SyncSystem

  datatype LossyEvent = Moved(e: Event) | SendFails(i: nat)

  /** Request i never left the client, and the reactor learns of it. */
  function Failing(w: World, s: System, i: nat): System
    requires i < |s.asked|
  {
    s.(client := SendFailed(s.client, w.peer), asked := s.asked[..i] + s.asked[i + 1..])
  }

  ghost predicate LossyStep(w: World, s: System, e: LossyEvent, t: System) {
    match e
    case Moved(m) => Step(w, s, m, t)
    case SendFails(i) => i < |s.asked| && t == Failing(w, s, i)
  }

  /** What holds in every run, whatever is lost: the store is a prefix of the
      chain, and what is on its way was asked for within the chain. */
  ghost predicate Shaped(w: World, s: System) {
    && PrefixOf(s.client.store, w.chain) && KnowsOnly(s.client, w.peer, w.chain.height) && Truthful(w, s.answered)
    && Within(w, Flight(s))
  }

  ghost predicate Within(w: World, starts: seq<int>) {
    forall i :: 0 <= i < |starts| ==> 1 <= starts[i] <= w.chain.height
  }

  /** The lowest height the client may still ask for, now or after a timeout. */
  function Low(w: World, c: Client): int {
    if w.peer in c.pending then Min(c.next, c.pending[w.peer].startHeight) else c.next
  }

  function ReachOf(w: World, s: System): int {
    Reach(w, Flight(s), s.client.store.height + 1)
  }

  /** Between what will have arrived and what will still be asked for, a height is missing. */
  predicate Gap(w: World, s: System) {
    ReachOf(w, s) < Min(Low(w, s.client), w.chain.height + 1)
  }

  // ----- one step

  /** A delivered answer raises the store if it starts within reach, and is refused otherwise. */
  lemma DeliveredAnswer(w: World, c: Client, start: int)
    requires Honest(w) && PrefixOf(c.store, w.chain) && 1 <= start <= w.chain.height
    ensures Contiguous(c.store, Answer(w, start)) <==> start <= c.store.height + 1
    ensures start <= c.store.height + 1 ==>
      var d := Receive(w.k, c, w.peer, Answer(w, start));
      PrefixOf(d.store, w.chain) && d.store.height + 1 == Bump(w, c.store.height + 1, start)
    ensures start <= c.store.height + 1 ==> Receive(w.k, c, w.peer, Answer(w, start)).penalties == c.penalties
  {
    hide Honest, PrefixOf, StoreAll, Penalties, Stretch;
    HonestSettings(w);
    PrefixReach(w, c.store, 1);
    if start <= c.store.height + 1 {
      AnswerAccepted(w, c.store, start);
      StoreAnswer(w, c.store, start, ClampBatchSize(w.k.batchSize));
    } else {
      AnswerAccepted(w, c.store.(height := start), start);
    }
  }

  /** What a check does when nothing is known about where it stands. */
  lemma CheckMoves(w: World, c: Client, now: int, d: Client, rs: seq<Request>)
    requires Honest(w) && PrefixOf(c.store, w.chain) && KnowsOnly(c, w.peer, w.chain.height) && Checks(w.k, c, now, d, rs)
    ensures d.store == c.store && d.penalties == c.penalties && KnowsOnly(d, w.peer, w.chain.height)
    ensures var start := NextStart(w.k, c, w.peer, c.store.height, now);
      && (Starts(rs) == [] || Starts(rs) == [start])
      && (Starts(rs) == [start] ==> 1 <= start <= w.chain.height && d.next == start + w.k.batchSize)
      && (Starts(rs) == [start] ==> w.peer in d.pending && d.pending[w.peer].startHeight == start)
      && (Starts(rs) == [] ==> (d.next == c.next || d.next == start) && (d.pending == c.pending || d.pending == map[]))
      && (Starts(rs) == [] && c.store.height < w.chain.height ==> d.next == start && (Waiting(w.k, c, w.peer, now) || w.chain.height < start))
  {
    hide Honest, PrefixOf, Requests, Checks;
    HonestSettings(w);
    PrefixReach(w, c.store, 1);
    if c.store.height == w.chain.height {
      CaughtUp(w.k, c, w.peer, w.chain.height, now, d, rs);
    } else {
      CheckOne(w.k, c, w.peer, w.chain.height, now, d, rs);
    }
  }

  lemma FlightHead(s: System)
    requires s.answered != []
    ensures var rest := Flight(s.(answered := s.answered[1..])); Flight(s) == [First(s.answered[0])] + rest
  {
  }

  lemma WithinParts(w: World, a: seq<int>, b: seq<int>)
    ensures Within(w, a + b) <==> Within(w, a) && Within(w, b)
  {
    assert forall i :: 0 <= i < |a| ==> (a + b)[i] == a[i];
    assert forall i :: 0 <= i < |b| ==> (a + b)[|a| + i] == b[i];
  }

  lemma ServingMoves(w: World, s: System, t: System)
    requires Honest(w) && Shaped(w, s) && Step(w, s, Serving, t)
    ensures Shaped(w, t) && Flight(t) == Flight(s) && t.client == s.client
    ensures |t.asked| == |s.asked| - 1 && |t.answered| == |s.answered| + 1
  {
    hide Honest, PrefixOf, Answer, Checks;
    var start := s.asked[0];
    assert Flight(s)[|s.answered|] == start;
    AnswerAt(w, start);
    assert Flight(t) == Flight(s);
  }

  lemma TickMoves(w: World, s: System, now: int, t: System) returns (rs: seq<Request>)
    requires Honest(w) && Shaped(w, s) && Step(w, s, Tick(now), t)
    ensures Checks(w.k, s.client, now, t.client, rs) && t == s.(client := t.client, asked := s.asked + Starts(rs))
    ensures Shaped(w, t) && Flight(t) == Flight(s) + Starts(rs)
  {
    hide Honest, PrefixOf, Checks, Answer;
    rs :| Checks(w.k, s.client, now, t.client, rs) && t == s.(client := t.client, asked := s.asked + Starts(rs));
    CheckMoves(w, s.client, now, t.client, rs);
    assert Flight(t) == Flight(s) + Starts(rs);
    WithinParts(w, Flight(s), Starts(rs));
  }

  /** The client right after the answer, before it checks again. */
  function Taken(w: World, c: Client, start: int): Client {
    if start <= c.store.height + 1 then Receive(w.k, c, w.peer, Answer(w, start))
    else c.(pending := c.pending - {w.peer}, penalties := c.penalties + 1)
  }

  lemma DeliverMoves(w: World, s: System, now: int, t: System) returns (rs: seq<Request>)
    requires Honest(w) && Shaped(w, s) && Step(w, s, Deliver(now), t)
    ensures s.answered != []
    ensures var start := First(s.answered[0]); var c := Taken(w, s.client, start); var rest := Flight(s)[1..];
      && 1 <= start <= w.chain.height && Flight(s) == [start] + rest && Flight(t) == rest + Starts(rs)
      && PrefixOf(c.store, w.chain) && KnowsOnly(c, w.peer, w.chain.height) && c.pending == map[] && c.next == s.client.next
      && (start <= s.client.store.height + 1 ==>
            && c.store.height + 1 == Bump(w, s.client.store.height + 1, start)
            && Checks(w.k, c, now, t.client, rs))
      && (start > s.client.store.height + 1 ==> t.client == c && rs == [] && c.store == s.client.store)
      && t == s.(client := t.client, answered := s.answered[1..], asked := s.asked + Starts(rs))
    ensures Shaped(w, t)
  {
    hide Honest, PrefixOf, Checks, Answer, Contiguous, StoreAll, Penalties;
    rs :| Handles(w.k, s.client, w.peer, s.answered[0], now, t.client, rs)
      && t == s.(client := t.client, answered := s.answered[1..], asked := s.asked + Starts(rs));
    FlightHead(s);
    var start := First(s.answered[0]);
    assert Flight(s)[0] == start;
    var rest := Flight(s.(answered := s.answered[1..]));
    assert Flight(s)[1..] == rest;
    DeliveredAnswer(w, s.client, start);
    var c := Taken(w, s.client, start);
    if start <= s.client.store.height + 1 { CheckMoves(w, c, now, t.client, rs); }
    assert Flight(t) == rest + Starts(rs);
    WithinParts(w, [start], rest);
    WithinParts(w, rest, Starts(rs));
  }

  lemma FailingMoves(w: World, s: System, i: nat)
    requires Shaped(w, s) && i < |s.asked|
    ensures var j := |s.answered| + i; var f := Flight(s);
      j < |f| && Flight(Failing(w, s, i)) == f[..j] + f[j + 1..]
    ensures Shaped(w, Failing(w, s, i)) && Failing(w, s, i).client.pending == map[]
  {
    hide PrefixOf, Answer;
    var j, f := |s.answered| + i, Flight(s);
    assert Flight(Failing(w, s, i)) == f[..j] + f[j + 1..];
    assert f == f[..j] + ([f[j]] + f[j + 1..]);
    WithinParts(w, f[..j], [f[j]] + f[j + 1..]);
    WithinParts(w, [f[j]], f[j + 1..]);
    WithinParts(w, f[..j], f[j + 1..]);
  }

  // ----- how far the answers on their way reach

  function After(w: World, r: int, start: int): int {
    if start <= r then Bump(w, r, start) else r
  }

  lemma {:induction false} ReachAppend(w: World, starts: seq<int>, r: int, x: int)
    ensures Reach(w, starts + [x], r) == After(w, Reach(w, starts, r), x)
    decreases |starts|
  {
    if starts == [] {
      assert (starts + [x])[1..] == [];
    } else {
      assert (starts + [x])[1..] == starts[1..] + [x];
      ReachAppend(w, starts[1..], After(w, r, starts[0]), x);
    }
  }

  lemma {:induction false} ReachMonotone(w: World, starts: seq<int>, r: int, q: int)
    requires r <= q
    ensures Reach(w, starts, r) <= Reach(w, starts, q)
    decreases |starts|
  {
    if starts != [] { ReachMonotone(w, starts[1..], After(w, r, starts[0]), After(w, q, starts[0])); }
  }

  lemma {:induction false} ReachCapped(w: World, starts: seq<int>, r: int)
    requires r <= w.chain.height + 1
    ensures Reach(w, starts, r) <= w.chain.height + 1
    decreases |starts|
  {
    if starts != [] { ReachCapped(w, starts[1..], After(w, r, starts[0])); }
  }

  /** What does not arrive cannot help. */
  lemma {:induction false} ReachWithout(w: World, f: seq<int>, j: nat, r: int)
    requires j < |f|
    ensures Reach(w, f[..j] + f[j + 1..], r) <= Reach(w, f, r)
    decreases j
  {
    if j == 0 {
      assert f[..0] + f[1..] == f[1..];
      ReachMonotone(w, f[1..], r, After(w, r, f[0]));
    } else {
      var g := f[..j] + f[j + 1..];
      assert g[1..] == f[1..][..j - 1] + f[1..][j..];
      ReachWithout(w, f[1..], j - 1, After(w, r, f[0]));
    }
  }

  // ----- a gap is for good

  /** No step closes a gap or reaches beyond it. */
  lemma GapKept(w: World, s: System, e: LossyEvent, t: System)
    requires Honest(w) && Shaped(w, s) && Gap(w, s) && LossyStep(w, s, e, t)
    ensures Shaped(w, t) && Gap(w, t) && ReachOf(w, t) <= ReachOf(w, s)
  {
    hide Honest, PrefixOf, Shaped, Step, Reach, Flight;
    match e
    case SendFails(i) =>
      FailingMoves(w, s, i);
      ReachWithout(w, Flight(s), |s.answered| + i, s.client.store.height + 1);
    case Moved(m) =>
      match m {
        case Serving => ServingMoves(w, s, t);
        case Tick(now) => GapTick(w, s, now, t);
        case Deliver(now) => GapDeliver(w, s, now, t);
      }
  }

  /** A check appends nothing within reach and does not lower what may be asked for. */
  lemma GapCheck(w: World, c: Client, flight: seq<int>, now: int, d: Client, rs: seq<Request>)
    requires Honest(w) && PrefixOf(c.store, w.chain) && KnowsOnly(c, w.peer, w.chain.height) && Checks(w.k, c, now, d, rs)
    requires Reach(w, flight, c.store.height + 1) < Min(Low(w, c), w.chain.height + 1)
    ensures d.store == c.store && Reach(w, flight + Starts(rs), d.store.height + 1) == Reach(w, flight, c.store.height + 1)
    ensures Reach(w, flight, c.store.height + 1) < Min(Low(w, d), w.chain.height + 1)
  {
    hide Honest, PrefixOf, Checks, Reach;
    HonestSettings(w);
    CheckMoves(w, c, now, d, rs);
    ReachGrows(w, flight, c.store.height + 1);
    if Starts(rs) == [] {
      assert flight + Starts(rs) == flight;
    } else {
      ReachAppend(w, flight, c.store.height + 1, Starts(rs)[0]);
    }
  }

  lemma GapTick(w: World, s: System, now: int, t: System)
    requires Honest(w) && Shaped(w, s) && Gap(w, s) && Step(w, s, Tick(now), t)
    ensures Shaped(w, t) && Gap(w, t) && ReachOf(w, t) == ReachOf(w, s)
  {
    hide Honest, PrefixOf, Checks, Reach, Flight, Low, Answer;
    var rs := TickMoves(w, s, now, t);
    GapCheck(w, s.client, Flight(s), now, t.client, rs);
  }

  lemma GapDeliver(w: World, s: System, now: int, t: System)
    requires Honest(w) && Shaped(w, s) && Gap(w, s) && Step(w, s, Deliver(now), t)
    ensures Shaped(w, t) && Gap(w, t) && ReachOf(w, t) == ReachOf(w, s)
  {
    hide Honest, PrefixOf, Checks, Flight, Shaped, Step;
    var rs := DeliverMoves(w, s, now, t);
    var start := First(s.answered[0]);
    var c, rest := Taken(w, s.client, start), Flight(s)[1..];
    assert Reach(w, Flight(s), s.client.store.height + 1) == Reach(w, rest, c.store.height + 1);
    if start <= s.client.store.height + 1 {
      GapCheck(w, c, rest, now, t.client, rs);
    } else {
      assert rest + Starts(rs) == rest;
    }
  }

  ghost predicate LossyRun(w: World, run: seq<System>, events: seq<LossyEvent>) {
    && |run| == |events| + 1
    && forall i :: 0 <= i < |events| ==> LossyStep(w, run[i], events[i], run[i + 1])
  }

  lemma LossyTail(w: World, run: seq<System>, events: seq<LossyEvent>)
    requires LossyRun(w, run, events)
    ensures |run| == |events| + 1
    ensures events != [] ==> LossyStep(w, run[0], events[0], run[1]) && LossyRun(w, run[1..], events[1..])
  {
    hide LossyStep;
    if events != [] {
      assert LossyStep(w, run[0], events[0], run[0 + 1]);
      forall i | 0 <= i < |events[1..]| ensures LossyStep(w, run[1..][i], events[1..][i], run[1..][i + 1]) {
        assert LossyStep(w, run[i + 1], events[i + 1], run[i + 1 + 1]);
      }
    }
  }

  lemma ShapedKept(w: World, s: System, e: LossyEvent, t: System)
    requires Honest(w) && Shaped(w, s) && LossyStep(w, s, e, t)
    ensures Shaped(w, t)
  {
    hide Honest, Shaped, Step;
    match e
    case SendFails(i) => FailingMoves(w, s, i);
    case Moved(m) =>
      match m {
        case Serving => ServingMoves(w, s, t);
        case Tick(now) => var _ := TickMoves(w, s, now, t);
        case Deliver(now) => var _ := DeliverMoves(w, s, now, t);
      }
  }

  /** Whatever is lost and whatever times out, the store stays a gapless prefix
      of the peer's chain. */
  lemma {:induction false} LossyIsSafe(w: World, run: seq<System>, events: seq<LossyEvent>)
    requires Honest(w) && LossyRun(w, run, events) && Shaped(w, run[0])
    ensures Shaped(w, run[|events|]) && PrefixOf(run[|events|].client.store, w.chain)
    decreases |events|
  {
    hide Honest, LossyRun, LossyStep, Shaped, PrefixOf;
    LossyTail(w, run, events);
    if events == [] {
      ShapedStore(w, run[0]);
    } else {
      ShapedKept(w, run[0], events[0], run[1]);
      LossyIsSafe(w, run[1..], events[1..]);
    }
  }

  /** From a gap on, the store ends before it, whatever happens. */
  lemma {:induction false} GapIsForGood(w: World, run: seq<System>, events: seq<LossyEvent>)
    requires Honest(w) && LossyRun(w, run, events) && Shaped(w, run[0]) && Gap(w, run[0])
    ensures run[|events|].client.store.height < ReachOf(w, run[0]) <= w.chain.height
    decreases |events|
  {
    hide Honest, LossyRun, LossyStep, Shaped, Reach, Flight, Low;
    LossyTail(w, run, events);
    if events == [] {
      ReachGrows(w, Flight(run[0]), run[0].client.store.height + 1);
    } else {
      GapKept(w, run[0], events[0], run[1]);
      GapIsForGood(w, run[1..], events[1..]);
    }
  }

  // ----- without a gap there is a way

  /** Everything that is still to be asked for lies within reach. */
  predicate Good(w: World, s: System) {
    Min(s.client.next, w.chain.height + 1) <= ReachOf(w, s)
  }

  lemma GoodCheck(w: World, c: Client, flight: seq<int>, now: int, d: Client, rs: seq<Request>)
    requires Honest(w) && PrefixOf(c.store, w.chain) && KnowsOnly(c, w.peer, w.chain.height) && Checks(w.k, c, now, d, rs)
    requires var start := NextStart(w.k, c, w.peer, c.store.height, now);
      c.store.height == w.chain.height || Min(start, w.chain.height + 1) <= Reach(w, flight, c.store.height + 1)
    ensures d.store == c.store
    ensures Min(d.next, w.chain.height + 1) <= Reach(w, flight + Starts(rs), d.store.height + 1)
  {
    hide Honest, PrefixOf, Checks, Reach;
    HonestSettings(w);
    PrefixReach(w, c.store, 1);
    CheckMoves(w, c, now, d, rs);
    ReachGrows(w, flight, c.store.height + 1);
    if Starts(rs) == [] {
      assert flight + Starts(rs) == flight;
    } else {
      ReachAppend(w, flight, c.store.height + 1, Starts(rs)[0]);
    }
  }

  /** With nothing to wait for, the next request starts within reach if the next height does. */
  lemma GoodStart(w: World, c: Client, flight: seq<int>, now: int)
    requires Min(Low(w, c), w.chain.height + 1) <= Reach(w, flight, c.store.height + 1)
    requires w.peer in c.pending && c.pending[w.peer].startHeight < c.next ==> !Waiting(w.k, c, w.peer, now)
    ensures Min(NextStart(w.k, c, w.peer, c.store.height, now), w.chain.height + 1) <= Reach(w, flight, c.store.height + 1)
  {
    hide Reach;
    ReachGrows(w, flight, c.store.height + 1);
  }

  /** A tick at which whatever is pending has timed out. */
  lemma LateTick(w: World, s: System) returns (now: int, t: System)
    requires Honest(w) && Shaped(w, s) && !Gap(w, s)
    ensures Step(w, s, Tick(now), t) && Shaped(w, t) && Good(w, t)
    ensures s.asked == [] && s.answered == [] && s.client.store.height < w.chain.height ==>
      Left(w, t) < Left(w, s) || s.client.next > s.client.store.height + 1
  {
    hide Honest, PrefixOf, Checks, Reach, Flight, Answer;
    now := if w.peer in s.client.pending then s.client.pending[w.peer].requestedAt + w.k.timeout + 1 else 0;
    var d, rs := CheckPossible(w.k, s.client, w.peer, w.chain.height, now);
    t := s.(client := d, asked := s.asked + Starts(rs));
    assert Step(w, s, Tick(now), t);
    var rs' := TickMoves(w, s, now, t);
    ReachGrows(w, Flight(s), s.client.store.height + 1);
    ReachCap(w, s);
    GoodStart(w, s.client, Flight(s), now);
    GoodCheck(w, s.client, Flight(s), now, t.client, rs');
    HonestSettings(w);
    CheckMoves(w, s.client, now, t.client, rs');
    if s.asked == [] && s.answered == [] { NothingOnItsWay(w, s); }
  }

  lemma NothingOnItsWay(w: World, s: System)
    requires s.asked == [] && s.answered == []
    ensures Flight(s) == [] && ReachOf(w, s) == s.client.store.height + 1
  {
  }

  lemma ReachCap(w: World, s: System)
    requires PrefixOf(s.client.store, w.chain)
    ensures s.client.store.height + 1 <= ReachOf(w, s) <= w.chain.height + 1
  {
    hide PrefixOf, Flight, Reach;
    PrefixReach(w, s.client.store, 1);
    ReachGrows(w, Flight(s), s.client.store.height + 1);
    ReachCapped(w, Flight(s), s.client.store.height + 1);
  }

  lemma GoodServing(w: World, s: System) returns (t: System)
    requires Honest(w) && Shaped(w, s) && Good(w, s) && s.asked != []
    ensures Step(w, s, Serving, t) && Shaped(w, t) && Good(w, t) && Left(w, t) < Left(w, s)
  {
    hide Honest, PrefixOf, Reach, Answer;
    HonestSettings(w);
    assert Flight(s)[|s.answered|] == s.asked[0];
    var a := Answer(w, s.asked[0]);
    t := s.(asked := s.asked[1..], answered := if a == [] then s.answered else s.answered + [a]);
    ServingMoves(w, s, t);
  }

  lemma GoodDeliver(w: World, s: System) returns (t: System)
    requires Honest(w) && Shaped(w, s) && Good(w, s) && s.answered != []
    ensures Step(w, s, Deliver(0), t) && Shaped(w, t) && Good(w, t) && Left(w, t) < Left(w, s)
  {
    hide Honest, PrefixOf, Checks, Answer, Contiguous, StoreAll, Penalties;
    HonestSettings(w);
    t := DeliverPossible(w, s);
    var rs := DeliverMoves(w, s, 0, t);
    GoodDelivered(w, s, t, rs);
  }

  lemma DeliverPossible(w: World, s: System) returns (t: System)
    requires Honest(w) && Shaped(w, s) && s.answered != []
    ensures Step(w, s, Deliver(0), t)
  {
    hide Honest, PrefixOf, Checks, Answer, Contiguous, StoreAll, Penalties;
    var blocks := s.answered[0];
    if Contiguous(s.client.store, blocks) {
      var d, rs := CheckPossible(w.k, Receive(w.k, s.client, w.peer, blocks), w.peer, w.chain.height, 0);
      assert Handles(w.k, s.client, w.peer, blocks, 0, d, rs);
      t := s.(client := d, answered := s.answered[1..], asked := s.asked + Starts(rs));
    } else {
      var d := s.client.(pending := s.client.pending - {w.peer}, penalties := s.client.penalties + 1);
      assert Handles(w.k, s.client, w.peer, blocks, 0, d, []);
      t := s.(client := d, answered := s.answered[1..], asked := s.asked + Starts([]));
    }
  }

  lemma GoodDelivered(w: World, s: System, t: System, rs: seq<Request>)
    requires Honest(w) && Shaped(w, s) && Good(w, s) && s.answered != [] && Flight(s) != []
    requires var start := First(s.answered[0]); var c := Taken(w, s.client, start); var rest := Flight(s)[1..];
      && Flight(s) == [start] + rest && Flight(t) == rest + Starts(rs)
      && PrefixOf(c.store, w.chain) && KnowsOnly(c, w.peer, w.chain.height) && c.pending == map[] && c.next == s.client.next
      && (start <= s.client.store.height + 1 ==>
            && c.store.height + 1 == Bump(w, s.client.store.height + 1, start)
            && Checks(w.k, c, 0, t.client, rs))
      && (start > s.client.store.height + 1 ==> t.client == c && rs == [] && c.store == s.client.store)
      && t == s.(client := t.client, answered := s.answered[1..], asked := s.asked + Starts(rs))
    ensures Good(w, t) && Left(w, t) < Left(w, s)
  {
    hide Honest, PrefixOf, Checks, Flight, Taken, Shaped;
    HonestSettings(w);
    var start := First(s.answered[0]);
    var c, rest := Taken(w, s.client, start), Flight(s)[1..];
    assert Reach(w, Flight(s), s.client.store.height + 1) == Reach(w, rest, c.store.height + 1);
    if start <= s.client.store.height + 1 {
      CheckMoves(w, c, 0, t.client, rs);
      GoodStart(w, c, rest, 0);
      GoodCheck(w, c, rest, 0, t.client, rs);
    } else {
      assert rest + Starts(rs) == rest;
    }
  }

  /** One of the runs from here brings the client to the peer's height. */
  ghost predicate CanCatchUp(w: World, s: System) {
    exists run, events :: CatchesUp(w, s, run, events)
  }

  ghost predicate CatchesUp(w: World, s: System, run: seq<System>, events: seq<LossyEvent>) {
    LossyRun(w, run, events) && run[0] == s && run[|events|].client.store.height == w.chain.height
  }

  lemma OneMoreStep(w: World, s: System, e: Event, t: System)
    requires Step(w, s, e, t) && CanCatchUp(w, t)
    ensures CanCatchUp(w, s)
  {
    hide Step;
    var run, events :| CatchesUp(w, t, run, events);
    var longer, more := [s] + run, [Moved(e)] + events;
    forall i | 0 <= i < |more| ensures LossyStep(w, longer[i], more[i], longer[i + 1]) {
      if i > 0 { assert LossyStep(w, run[i - 1], events[i - 1], run[i - 1 + 1]); }
    }
    assert CatchesUp(w, s, longer, more);
  }

  /** Serve and deliver what is on its way; when nothing is, tick. */
  lemma {:induction false} GoodCatchesUp(w: World, s: System)
    requires Honest(w) && Shaped(w, s) && Good(w, s)
    ensures CanCatchUp(w, s)
    decreases Left(w, s)
  {
    hide Honest, Shaped, Step, CanCatchUp, Left, Reach, Flight;
    LeftIsNat(w, s);
    if s.answered != [] {
      var t := GoodDeliver(w, s);
      LeftIsNat(w, t);
      GoodCatchesUp(w, t);
      OneMoreStep(w, s, Deliver(0), t);
    } else if s.asked != [] {
      var t := GoodServing(w, s);
      LeftIsNat(w, t);
      GoodCatchesUp(w, t);
      OneMoreStep(w, s, Serving, t);
    } else if s.client.store.height == w.chain.height {
      AlreadyThere(w, s);
    } else {
      ShapedStore(w, s);
      NothingOnItsWay(w, s);
      var now, t := LateTick(w, s);
      LeftIsNat(w, t);
      GoodCatchesUp(w, t);
      OneMoreStep(w, s, Tick(now), t);
    }
  }

  lemma ShapedStore(w: World, s: System)
    requires Shaped(w, s)
    ensures 0 <= s.client.store.height <= w.chain.height
    ensures PrefixOf(s.client.store, w.chain) && KnowsOnly(s.client, w.peer, w.chain.height)
  {
  }

  lemma AlreadyThere(w: World, s: System)
    requires s.client.store.height == w.chain.height
    ensures CanCatchUp(w, s)
  {
    var run: seq<System>, events: seq<LossyEvent> := [s], [];
    assert CatchesUp(w, s, run, events);
  }

  /** The client can still catch up if and only if there is no gap between what
      will arrive and what it may still ask for. */
  lemma CatchesUpExactly(w: World, s: System)
    requires Honest(w) && Shaped(w, s)
    ensures CanCatchUp(w, s) <==> !Gap(w, s)
  {
    hide Honest, Shaped, Step, LossyRun, Gap;
    if Gap(w, s) {
      if CanCatchUp(w, s) {
        var run, events :| CatchesUp(w, s, run, events);
        GapIsForGood(w, run, events);
      }
    } else {
      var now, t := LateTick(w, s);
      GoodCatchesUp(w, t);
      OneMoreStep(w, s, Tick(now), t);
    }
  }

  /** As long as no send fails there is never a gap. */
  lemma LosslessHasNoGap(w: World, s: System)
    requires Honest(w) && Inv(w, s)
    ensures Shaped(w, s) && !Gap(w, s)
  {
    hide Honest, PrefixOf, Reach, Lined;
    forall i | 0 <= i < |Flight(s)| ensures 1 <= Flight(s)[i] <= w.chain.height {
      LinedAt(w, Flight(s), s.client.store.height + 1, i);
    }
  }

  // ----- the batch right above the store

  /** Nothing on its way, pending or still to be asked for reaches back to the next block. */
  ghost predicate Lost(w: World, s: System) {
    && Shaped(w, s) && s.client.store.height < w.chain.height
    && (forall i :: 0 <= i < |Flight(s)| ==> Flight(s)[i] > s.client.store.height + 1)
    && Low(w, s.client) > s.client.store.height + 1
  }

  function Penalised(e: LossyEvent): nat {
    if e.Moved? && e.e.Deliver? then 1 else 0
  }

  lemma BeyondParts(a: seq<int>, b: seq<int>, r: int)
    ensures (forall i :: 0 <= i < |a + b| ==> (a + b)[i] > r) <==>
      (forall i :: 0 <= i < |a| ==> a[i] > r) && (forall i :: 0 <= i < |b| ==> b[i] > r)
  {
    assert forall i :: 0 <= i < |a| ==> (a + b)[i] == a[i];
    assert forall i :: 0 <= i < |b| ==> (a + b)[|a| + i] == b[i];
  }

  /** Every step leaves the store as it is; every delivered answer is refused and penalised. */
  lemma LostKept(w: World, s: System, e: LossyEvent, t: System)
    requires Honest(w) && Lost(w, s) && LossyStep(w, s, e, t)
    ensures Lost(w, t) && t.client.store == s.client.store && t.client.penalties == s.client.penalties + Penalised(e)
  {
    hide Honest, PrefixOf, Checks, Flight, Answer, Step, Shaped;
    ShapedStore(w, s);
    var r := s.client.store.height + 1;
    match e
    case SendFails(i) =>
      FailingMoves(w, s, i);
      var j, f := |s.answered| + i, Flight(s);
      assert f == f[..j] + ([f[j]] + f[j + 1..]);
      BeyondParts(f[..j], [f[j]] + f[j + 1..], r);
      BeyondParts([f[j]], f[j + 1..], r);
      BeyondParts(f[..j], f[j + 1..], r);
    case Moved(m) =>
      match m {
        case Serving => ServingMoves(w, s, t);
        case Tick(now) =>
          var rs := TickMoves(w, s, now, t);
          CheckMoves(w, s.client, now, t.client, rs);
          HonestSettings(w);
          BeyondParts(Flight(s), Starts(rs), r);
        case Deliver(now) =>
          var rs := DeliverMoves(w, s, now, t);
          BeyondParts([First(s.answered[0])], Flight(s)[1..], r);
          assert [First(s.answered[0])][0] > r;
          assert Flight(s)[1..] + Starts(rs) == Flight(s)[1..];
      }
  }

  function Delivered(events: seq<LossyEvent>): nat {
    if events == [] then 0 else Penalised(events[0]) + Delivered(events[1..])
  }

  /** From then on the store never grows again, and every delivered answer
      costs the honest peer a penalty. */
  lemma {:induction false} LostForGood(w: World, run: seq<System>, events: seq<LossyEvent>)
    requires Honest(w) && LossyRun(w, run, events) && Lost(w, run[0])
    ensures run[|events|].client.store == run[0].client.store
    ensures run[|events|].client.penalties == run[0].client.penalties + Delivered(events)
    decreases |events|
  {
    hide Honest, LossyRun, LossyStep, Lost, Penalised;
    LossyTail(w, run, events);
    if events != [] {
      LostKept(w, run[0], events[0], run[1]);
      LostForGood(w, run[1..], events[1..]);
    }
  }

  /** A client that is behind with nothing on its way asks for the batch right
      above its store. If that send fails the batch is lost for good, whatever
      the peer's height; if it does not, the client can still catch up. */
  lemma SendDecides(w: World, s: System, now: int, t: System, failed: bool)
    requires Honest(w) && Inv(w, s) && s.asked == [] && s.answered == []
    requires s.client.store.height < w.chain.height && Step(w, s, Tick(now), t)
    ensures t.asked != []
    ensures var u := if failed then Failing(w, t, 0) else t;
      && (CanCatchUp(w, u) <==> !failed)
      && (failed ==> Lost(w, u) && u.client.penalties == 0)
  {
    hide Honest, PrefixOf, Reach, CanCatchUp, Answer;
    TickAsks(w, s, now, t);
    TickKeeps(w, s, now, t);
    LosslessHasNoGap(w, t);
    CatchesUpExactly(w, t);
    if failed {
      LosslessHasNoGap(w, s);
      var rs := TickMoves(w, s, now, t);
      CheckMoves(w, s.client, now, t.client, rs);
      HonestSettings(w);
      FailingMoves(w, t, 0);
      var u := Failing(w, t, 0);
      NothingOnItsWay(w, u);
      CatchesUpExactly(w, u);
    }
  }
}
