/** Two nodes running the handshake handler over one connection. Handlers
    interleave at every lock boundary; a message once sent may be delivered at
    any later time, in any order and any number of times. */
module HandshakeSystem {
  import opened Wrappers
  import opened Bytes
  import opened Handshake

  // ----- the step system

  /** One node, the handlers it has in progress, and what reached it. */
  datatype Proc = Proc(node: Node, tasks: seq<Task>, connected: bool, delivered: set<Message>)

  datatype Side = A | B

  datatype Sys = Sys(a: Proc, b: Proc) {
    function Self(x: Side): Proc { if x == A then a else b }
    function Peer(x: Side): Proc { if x == A then b else a }
    function With(x: Side, p: Proc): Sys { if x == A then Sys(p, b) else Sys(a, p) }
  }

  datatype Step =
    | Connect(now: int)
    | Deliver(m: Message)
    | Run(i: nat, env: Env)

  function Init(ca: Config, cb: Config): Sys {
    Sys(Proc(Node(ca, None, NO_EFFECTS), [], false, {}), Proc(Node(cb, None, NO_EFFECTS), [], false, {}))
  }

  predicate Enabled(s: Sys, x: Side, step: Step) {
    match step
    case Connect(_) => true
    case Deliver(m) => m in s.Peer(x).node.fx.sent
    case Run(i, _) => i < |s.Self(x).tasks|
  }

  function Follow(t: Option<Task>): seq<Task> {
    if t.Some? then [t.value] else []
  }

  function Local(p: Proc, step: Step): Proc
    requires step.Run? ==> step.i < |p.tasks|
  {
    match step
    case Connect(now) =>
      p.(node := p.node.(st := Some(GetOrCreate(p.node.st, now))), tasks := p.tasks + [SendRequest], connected := true)
    case Deliver(m) =>
      p.(tasks := p.tasks + Follow(FirstTask(p.node.cfg, m)), delivered := p.delivered + {m})
    case Run(i, env) =>
      var (n, next) := RunTask(p.node, p.tasks[i], env);
      p.(node := n, tasks := p.tasks[..i] + p.tasks[i + 1..] + Follow(next))
  }

  function Apply(s: Sys, x: Side, step: Step): Sys
    requires Enabled(s, x, step)
  {
    s.With(x, Local(s.Self(x), step))
  }

  type Schedule = seq<(Side, Step)>

  /** s is reached from the two fresh nodes by this schedule. */
  ghost predicate Reaches(ca: Config, cb: Config, run: Schedule, s: Sys) {
    if run == [] then s == Init(ca, cb)
    else
      var (x, step) := run[|run| - 1];
      exists r :: Reaches(ca, cb, run[..|run| - 1], r) && Enabled(r, x, step) && s == Apply(r, x, step)
  }

  /** Steps the newest handler, and only that one, until it has finished. */
  function Finish(p: Proc, depth: nat, e: Env): Proc
    requires depth <= |p.tasks| <= depth + 1
    decreases if |p.tasks| == depth then 0 else 1 + Rank(p.tasks[depth])
  {
    if |p.tasks| == depth then p else Finish(Local(p, Run(depth, e)), depth, e)
  }

  /** Undisturbed, those steps are what the handler's methods do in one call. */
  lemma {:induction false} UndisturbedHandler(p: Proc, depth: nat, e: Env)
    requires |p.tasks| == depth + 1
    ensures Finish(p, depth, e) == p.(node := RunHandler(p.node, Some(p.tasks[depth]), e), tasks := p.tasks[..depth])
    decreases Rank(p.tasks[depth])
  {
    hide RunTask;
    var q := Local(p, Run(depth, e));
    var (n, next) := RunTask(p.node, p.tasks[depth], e);
    assert p.tasks[..depth] + p.tasks[depth + 1..] == p.tasks[..depth];
    if next.Some? {
      assert q.tasks[..depth] == p.tasks[..depth];
      UndisturbedHandler(q, depth, e);
    } else {
      assert q.tasks == p.tasks[..depth];
    }
  }

  // ----- safety: what every reachable state keeps

  ghost predicate OwnMessage(cfg: Config, m: Message) {
    match m
    case HelloRequest(nodeId, version, chainId, _, _) => nodeId == cfg.nodeId && version == cfg.version && chainId == cfg.chainId
    case HelloResponse(accepted, key) => accepted && key == cfg.publicKey
    case HelloFinalize(success) => success
  }

  /** The peer's request that this node validated is in its state. */
  ghost predicate Validated(p: Proc, peerSent: seq<Message>, m: Message) {
    && m in peerSent && m.HelloRequest?
    && m.chainId == p.node.cfg.chainId && m.version == p.node.cfg.version
  }

  ghost predicate RecordsRequest(p: Proc, peerSent: seq<Message>)
    requires p.node.st.Some?
  {
    var st := p.node.st.value;
    exists m :: Validated(p, peerSent, m) && st.peerNodeId == m.nodeId && st.peerVersion == m.version
      && st.peerChainId == m.chainId && st.peerHeight == m.latestHeight
  }

  ghost predicate TaskSafe(p: Proc, peerSent: seq<Message>, t: Task) {
    match t
    case SendRequest => true
    case EmitRequest => true
    case RecvRequest(m) => Validated(p, peerSent, m)
    case SendResponse => p.node.st.Some? && p.node.st.value.receivedRequest
    case EmitResponse => p.node.st.Some? && p.node.st.value.receivedRequest
    case RecvResponse(key) => HelloResponse(true, key) in peerSent && |key| == PUBLIC_KEY_SIZE
    case PrepareStreams(key) => p.node.st.Some? && p.node.st.value.receivedResponse && p.node.st.value.peerPubKey == key
    case MarkPrepared => p.node.st.Some? && p.node.st.value.receivedResponse && p.node.st.value.peerPubKey in p.node.fx.prepared
    case SendFinalize => p.node.st.Some? && p.node.st.value.streamsPrepared
    case EmitFinalize => p.node.st.Some? && p.node.st.value.streamsPrepared
    case RecvFinalize => HelloFinalize(true) in peerSent
    case TryComplete => true
    case FinalizeNetwork(key) => p.node.st.Some? && p.node.st.value.complete && p.node.st.value.peerPubKey == key
    case StoreKey(key) => p.node.st.Some? && p.node.st.value.complete && p.node.st.value.peerPubKey == key
  }

  ghost predicate StateSafe(p: Proc, peerSent: seq<Message>)
    requires p.node.st.Some?
  {
    var st := p.node.st.value;
    && (st.receivedRequest ==> RecordsRequest(p, peerSent))
    && (st.receivedResponse ==> HelloResponse(true, st.peerPubKey) in peerSent && |st.peerPubKey| == PUBLIC_KEY_SIZE)
    && (st.streamsPrepared ==> st.receivedResponse && st.peerPubKey in p.node.fx.prepared)
    && (st.receivedFinalize ==> HelloFinalize(true) in peerSent)
    && (st.complete ==> st.streamsPrepared && st.receivedFinalize)
  }

  ghost predicate SentSafe(p: Proc) {
    forall m :: m in p.node.fx.sent ==>
      && OwnMessage(p.node.cfg, m)
      && (m.HelloResponse? ==> p.node.st.Some? && p.node.st.value.receivedRequest)
      && (m.HelloFinalize? ==> p.node.st.Some? && p.node.st.value.streamsPrepared)
  }

  ghost predicate ProcSafe(p: Proc, peerSent: seq<Message>) {
    && SentSafe(p)
    && (p.node.st.Some? ==> StateSafe(p, peerSent))
    && (forall t :: t in p.tasks ==> TaskSafe(p, peerSent, t))
    && (p.node.fx.storedKey.Some? ==>
          p.node.st.Some? && p.node.st.value.complete && p.node.fx.storedKey.value == p.node.st.value.peerPubKey)
  }

  ghost predicate Safe(s: Sys) {
    forall x: Side :: ProcSafe(s.Self(x), s.Peer(x).node.fx.sent)
  }

  lemma RecordsMonotone(p: Proc, sent: seq<Message>, more: seq<Message>)
    requires p.node.st.Some? && RecordsRequest(p, sent) && sent <= more
    ensures RecordsRequest(p, more)
  {
    var st := p.node.st.value;
    var m :| Validated(p, sent, m) && st.peerNodeId == m.nodeId && st.peerVersion == m.version
      && st.peerChainId == m.chainId && st.peerHeight == m.latestHeight;
    assert Validated(p, more, m);
  }

  /** The peer sending more messages disturbs nothing. */
  lemma PeerSendsMore(p: Proc, sent: seq<Message>, more: seq<Message>)
    requires ProcSafe(p, sent) && sent <= more
    ensures ProcSafe(p, more)
  {
    if p.node.st.Some? && p.node.st.value.receivedRequest { RecordsMonotone(p, sent, more); }
    forall t | t in p.tasks ensures TaskSafe(p, more, t) { assert TaskSafe(p, sent, t); }
  }

  lemma RunTaskKeepsState(p: Proc, sent: seq<Message>, t: Task, env: Env)
    requires ProcSafe(p, sent) && TaskSafe(p, sent, t)
    ensures var q := p.(node := RunTask(p.node, t, env).0);
      && SentSafe(q)
      && (q.node.st.Some? ==> StateSafe(q, sent))
  {
    var q := p.(node := RunTask(p.node, t, env).0);
    if p.node.st.Some? && p.node.st.value.receivedRequest {
      var st := p.node.st.value;
      var m :| Validated(p, sent, m) && st.peerNodeId == m.nodeId && st.peerVersion == m.version
        && st.peerChainId == m.chainId && st.peerHeight == m.latestHeight;
      assert Validated(q, sent, m);
    }
    if t.RecvRequest? { assert Validated(q, sent, t.req); }
  }

  lemma RunTaskKeepsTasks(p: Proc, sent: seq<Message>, t: Task, env: Env, u: Task)
    requires ProcSafe(p, sent) && TaskSafe(p, sent, t)
    requires TaskSafe(p, sent, u) || Some(u) == RunTask(p.node, t, env).1
    ensures TaskSafe(p.(node := RunTask(p.node, t, env).0), sent, u)
  {
    if u.RecvRequest? { assert Validated(p, sent, u.req); }
  }

  lemma StoredKeyKept(p: Proc, sent: seq<Message>, t: Task, env: Env)
    requires ProcSafe(p, sent) && TaskSafe(p, sent, t)
    ensures var n := RunTask(p.node, t, env).0;
      n.fx.storedKey.Some? ==> n.st.Some? && n.st.value.complete && n.fx.storedKey.value == n.st.value.peerPubKey
  {
  }

  lemma RunKeepsSafe(p: Proc, sent: seq<Message>, i: nat, env: Env)
    requires ProcSafe(p, sent) && i < |p.tasks|
    ensures ProcSafe(Local(p, Run(i, env)), sent)
  {
    hide RunTask;
    var t, q := p.tasks[i], Local(p, Run(i, env));
    RunTaskKeepsState(p, sent, t, env);
    StoredKeyKept(p, sent, t, env);
    forall u | u in q.tasks ensures TaskSafe(q, sent, u) {
      assert u in p.tasks || Some(u) == RunTask(p.node, t, env).1;
      RunTaskKeepsTasks(p, sent, t, env, u);
      assert TaskSafe(p.(node := RunTask(p.node, t, env).0), sent, u);
    }
  }

  lemma LocalKeepsSafe(p: Proc, sent: seq<Message>, step: Step)
    requires ProcSafe(p, sent)
    requires step.Run? ==> step.i < |p.tasks|
    requires step.Deliver? ==> step.m in sent
    ensures ProcSafe(Local(p, step), sent)
    ensures p.node.fx.sent <= Local(p, step).node.fx.sent
    ensures Local(p, step).node.cfg == p.node.cfg
  {
    var q := Local(p, step);
    match step {
      case Connect(_) =>
        if p.node.st.Some? && p.node.st.value.receivedRequest { assert q.node.st == p.node.st; }
        forall t | t in q.tasks ensures TaskSafe(q, sent, t) {
          assert t == SendRequest || TaskSafe(p, sent, t);
        }
      case Deliver(m) =>
        forall t | t in q.tasks ensures TaskSafe(q, sent, t) {
          if t in p.tasks { assert TaskSafe(p, sent, t); }
        }
      case Run(i, env) =>
        RunKeepsSafe(p, sent, i, env);
    }
  }

  lemma {:induction false} ReachableIsSafe(ca: Config, cb: Config, run: Schedule, s: Sys)
    requires Reaches(ca, cb, run, s)
    ensures Safe(s) && s.a.node.cfg == ca && s.b.node.cfg == cb
  {
    if run != [] {
      var (x, step) := run[|run| - 1];
      var r :| Reaches(ca, cb, run[..|run| - 1], r) && Enabled(r, x, step) && s == Apply(r, x, step);
      ReachableIsSafe(ca, cb, run[..|run| - 1], r);
      var y := if x == A then B else A;
      assert ProcSafe(r.Self(x), r.Peer(x).node.fx.sent) && ProcSafe(r.Self(y), r.Peer(y).node.fx.sent);
      LocalKeepsSafe(r.Self(x), r.Peer(x).node.fx.sent, step);
      PeerSendsMore(r.Self(y), r.Self(x).node.fx.sent, s.Self(x).node.fx.sent);
    }
  }

  // ----- where a request and the height in it come from

  /** In step j this side sent request m, with its configuration and with the
      clock and the block height of that step. */
  ghost predicate SentIn(run: Schedule, j: int, x: Side, cfg: Config, m: Message) {
    && 0 <= j < |run| && run[j].0 == x && run[j].1.Run? && run[j].1.env.requestSent && m.HelloRequest?
    && m.nodeId == cfg.nodeId && m.version == cfg.version && m.chainId == cfg.chainId
    && m.timestamp == run[j].1.env.now && m.latestHeight == run[j].1.env.height
  }

  function ConfigOf(ca: Config, cb: Config, x: Side): Config {
    if x == A then ca else cb
  }

  /** A task sends a new request only as the current step has it. */
  lemma NewRequest(n: Node, t: Task, env: Env, m: Message)
    requires m in RunTask(n, t, env).0.fx.sent && m !in n.fx.sent && m.HelloRequest?
    ensures env.requestSent && m.nodeId == n.cfg.nodeId && m.version == n.cfg.version && m.chainId == n.cfg.chainId
    ensures m.timestamp == env.now && m.latestHeight == env.height
  {
  }

  /** Every request a side has sent was sent by a step of that side, with the
      height and the time its environment reported in that step. */
  lemma {:induction false} RequestsAreReported(ca: Config, cb: Config, run: Schedule, s: Sys, x: Side, m: Message)
    requires Reaches(ca, cb, run, s) && m in s.Self(x).node.fx.sent && m.HelloRequest?
    ensures exists j :: SentIn(run, j, x, ConfigOf(ca, cb, x), m)
  {
    hide RunTask;
    if run != [] {
      var last := |run| - 1;
      var (y, step) := run[last];
      var r :| Reaches(ca, cb, run[..last], r) && Enabled(r, y, step) && s == Apply(r, y, step);
      if m in r.Self(x).node.fx.sent {
        RequestsAreReported(ca, cb, run[..last], r, x, m);
        var j :| SentIn(run[..last], j, x, ConfigOf(ca, cb, x), m);
        assert SentIn(run, j, x, ConfigOf(ca, cb, x), m);
      } else {
        ReachableIsSafe(ca, cb, run[..last], r);
        assert step.Run?;
        NewRequest(r.Self(x).node, r.Self(x).tasks[step.i], step.env, m);
        assert SentIn(run, last, x, ConfigOf(ca, cb, x), m);
      }
    }
  }

  /** Some step of this side that sent a request had this block height. */
  ghost predicate HeightReported(run: Schedule, x: Side, height: int) {
    exists j :: 0 <= j < |run| && run[j].0 == x && run[j].1.Run? && run[j].1.env.requestSent && run[j].1.env.height == height
  }

  function Other(x: Side): Side {
    if x == A then B else A
  }

  /** Whatever has become of the handshake: the height recorded for the peer is
      one the peer's node had when it sent its request. */
  lemma RecordedHeightIsReported(ca: Config, cb: Config, run: Schedule, s: Sys, x: Side)
    requires Reaches(ca, cb, run, s)
    requires s.Self(x).node.st.Some? && s.Self(x).node.st.value.receivedRequest
    ensures HeightReported(run, Other(x), s.Self(x).node.st.value.peerHeight)
  {
    hide Reaches;
    ReachableIsSafe(ca, cb, run, s);
    SafeSide(s, x);
    var p, sent := s.Self(x), s.Peer(x).node.fx.sent;
    var st := p.node.st.value;
    assert RecordsRequest(p, sent);
    var m :| Validated(p, sent, m) && st.peerNodeId == m.nodeId && st.peerVersion == m.version
      && st.peerChainId == m.chainId && st.peerHeight == m.latestHeight;
    RequestsAreReported(ca, cb, run, s, Other(x), m);
    var j :| SentIn(run, j, Other(x), ConfigOf(ca, cb, Other(x)), m);
    assert run[j].1.env.height == st.peerHeight;
  }

  /** Once one side is complete, both have received the other's request. */
  lemma BothReceived(ca: Config, cb: Config, run: Schedule, s: Sys, x: Side)
    requires Reaches(ca, cb, run, s)
    requires s.Self(x).node.st.Some? && s.Self(x).node.st.value.complete
    ensures s.Self(x).node.st.value.receivedRequest
    ensures s.Peer(x).node.st.Some? && s.Peer(x).node.st.value.receivedRequest
  {
    hide Reaches;
    ReachableIsSafe(ca, cb, run, s);
    SafeSide(s, x);
    SafeSide(s, Other(x));
    var p, q := s.Self(x), s.Peer(x);
    assert HelloFinalize(true) in q.node.fx.sent;
    assert HelloResponse(true, p.node.st.value.peerPubKey) in q.node.fx.sent;
    assert HelloResponse(true, q.node.st.value.peerPubKey) in p.node.fx.sent;
  }

  /** In every interleaving, with any sends and stream preparations failing: once
      one side is complete, both sides prepared their streams with the key the
      other one sent, both validated the other's request and recorded a height
      the other's node had when it sent it, and the two configurations agree. */
  lemma CompleteImpliesMutual(ca: Config, cb: Config, run: Schedule, s: Sys, x: Side)
    requires Reaches(ca, cb, run, s)
    requires s.Self(x).node.st.Some? && s.Self(x).node.st.value.complete
    ensures s.Peer(x).node.st.Some?
    ensures var mine, theirs := s.Self(x).node, s.Peer(x).node;
      && mine.st.value.streamsPrepared && theirs.st.value.streamsPrepared
      && mine.st.value.receivedRequest && theirs.st.value.receivedRequest
      && mine.st.value.peerPubKey == theirs.cfg.publicKey && theirs.st.value.peerPubKey == mine.cfg.publicKey
      && theirs.cfg.publicKey in mine.fx.prepared && mine.cfg.publicKey in theirs.fx.prepared
      && |mine.cfg.publicKey| == 32 && |theirs.cfg.publicKey| == 32
      && (mine.fx.storedKey.Some? ==> mine.fx.storedKey.value == theirs.cfg.publicKey)
    ensures ca.chainId == cb.chainId && ca.version == cb.version
    ensures RecordsRequest(s.Self(x), s.Peer(x).node.fx.sent) && RecordsRequest(s.Peer(x), s.Self(x).node.fx.sent)
    ensures HeightReported(run, Other(x), s.Self(x).node.st.value.peerHeight)
    ensures HeightReported(run, x, s.Peer(x).node.st.value.peerHeight)
  {
    hide Reaches, HeightReported;
    BothReceived(ca, cb, run, s, x);
    RecordedHeightIsReported(ca, cb, run, s, x);
    RecordedHeightIsReported(ca, cb, run, s, Other(x));
    ReachableIsSafe(ca, cb, run, s);
    var y := Other(x);
    var p, q := s.Self(x), s.Peer(x);
    assert ProcSafe(p, q.node.fx.sent);
    assert ProcSafe(s.Self(y), s.Peer(y).node.fx.sent);
    assert HelloFinalize(true) in q.node.fx.sent;
    assert HelloResponse(true, p.node.st.value.peerPubKey) in q.node.fx.sent;
    assert HelloResponse(true, q.node.st.value.peerPubKey) in p.node.fx.sent;
    var m :| Validated(p, q.node.fx.sent, m);
    assert OwnMessage(q.node.cfg, m);
  }

  // ----- completion: what every fault-free run keeps

  function Bit(b: bool): nat { if b then 1 else 0 }

  /** How many handlers are at each point. */
  datatype Tally = Tally(
    sendRequest: nat, emitRequest: nat, recvRequest: nat, sendResponse: nat, emitResponse: nat,
    recvResponse: nat, prepareStreams: nat, markPrepared: nat, sendFinalize: nat, emitFinalize: nat,
    recvFinalize: nat, tryComplete: nat, finalizeNetwork: nat, storeKey: nat)

  const NO_TASKS := Tally(0, 0, 0, 0, 0, 0, 0, 0, 0, 0, 0, 0, 0, 0)

  function Plus(c: Tally, t: Task): Tally {
    Tally(
      c.sendRequest + Bit(t.SendRequest?), c.emitRequest + Bit(t.EmitRequest?), c.recvRequest + Bit(t.RecvRequest?),
      c.sendResponse + Bit(t.SendResponse?), c.emitResponse + Bit(t.EmitResponse?), c.recvResponse + Bit(t.RecvResponse?),
      c.prepareStreams + Bit(t.PrepareStreams?), c.markPrepared + Bit(t.MarkPrepared?), c.sendFinalize + Bit(t.SendFinalize?),
      c.emitFinalize + Bit(t.EmitFinalize?), c.recvFinalize + Bit(t.RecvFinalize?), c.tryComplete + Bit(t.TryComplete?),
      c.finalizeNetwork + Bit(t.FinalizeNetwork?), c.storeKey + Bit(t.StoreKey?))
  }

  function PlusNext(c: Tally, next: Option<Task>): Tally {
    if next.Some? then Plus(c, next.value) else c
  }

  function TallyOf(ts: seq<Task>): Tally {
    if ts == [] then NO_TASKS else Plus(TallyOf(ts[..|ts| - 1]), ts[|ts| - 1])
  }

  lemma PlusCommutes(c: Tally, t: Task, u: Task)
    ensures Plus(Plus(c, t), u) == Plus(Plus(c, u), t)
  {
  }

  lemma TallyAppend(s: seq<Task>, next: Option<Task>)
    ensures TallyOf(s + Follow(next)) == PlusNext(TallyOf(s), next)
  {
    if next.Some? {
      assert (s + [next.value])[..|s|] == s;
    } else {
      assert s + Follow(next) == s;
    }
  }

  lemma {:induction false} TallyRemove(s: seq<Task>, i: nat)
    requires i < |s|
    ensures TallyOf(s) == Plus(TallyOf(s[..i] + s[i + 1..]), s[i])
  {
    hide Plus;
    var last := |s| - 1;
    if i == last {
      assert s[..i] + s[i + 1..] == s[..last];
    } else {
      var rest, init := s[..i] + s[i + 1..], s[..last];
      assert rest[..|rest| - 1] == init[..i] + init[i + 1..];
      TallyRemove(init, i);
      PlusCommutes(TallyOf(rest[..|rest| - 1]), s[i], s[last]);
    }
  }

  function Requests(sent: seq<Message>): nat {
    if sent == [] then 0 else Requests(sent[..|sent| - 1]) + Bit(sent[|sent| - 1].HelloRequest?)
  }

  function Responses(sent: seq<Message>): nat {
    if sent == [] then 0 else Responses(sent[..|sent| - 1]) + Bit(sent[|sent| - 1].HelloResponse?)
  }

  function Finalizes(sent: seq<Message>): nat {
    if sent == [] then 0 else Finalizes(sent[..|sent| - 1]) + Bit(sent[|sent| - 1].HelloFinalize?)
  }

  lemma SentOneMore(sent: seq<Message>, m: Message)
    ensures Requests(sent + [m]) == Requests(sent) + Bit(m.HelloRequest?)
    ensures Responses(sent + [m]) == Responses(sent) + Bit(m.HelloResponse?)
    ensures Finalizes(sent + [m]) == Finalizes(sent) + Bit(m.HelloFinalize?)
  {
    assert (sent + [m])[..|sent|] == sent;
  }

  lemma {:induction false} SentKinds(sent: seq<Message>)
    ensures Requests(sent) > 0 ==> exists m :: m in sent && m.HelloRequest?
    ensures Responses(sent) > 0 ==> exists m :: m in sent && m.HelloResponse?
    ensures Finalizes(sent) > 0 ==> exists m :: m in sent && m.HelloFinalize?
    ensures |sent| == Requests(sent) + Responses(sent) + Finalizes(sent)
  {
    if sent != [] { SentKinds(sent[..|sent| - 1]); }
  }

  function Flags(n: Node): PeerState { GetOrCreate(n.st, 0) }

  /** Each message is sent once per flag. */
  ghost predicate SendsOnce(n: Node, c: Tally) {
    var st := Flags(n);
    && Requests(n.fx.sent) + c.emitRequest == Bit(st.sentRequest)
    && Responses(n.fx.sent) + c.emitResponse == Bit(st.sentResponse)
    && Finalizes(n.fx.sent) + c.emitFinalize == Bit(st.sentFinalize)
  }

  /** PrepareStreams and FinalizeHandshake are called once per flag. */
  ghost predicate CallsOnce(n: Node, c: Tally) {
    var st := Flags(n);
    && |n.fx.prepared| + c.prepareStreams == Bit(st.receivedResponse)
    && n.fx.finalizeCalls + c.finalizeNetwork == Bit(st.complete)
  }

  /** Every flag that is set has had its consequence, or a handler is about to cause it. */
  ghost predicate LeadsOn(n: Node, c: Tally) {
    LeadsToFinalize(n, c) && LeadsToComplete(n, c)
  }

  ghost predicate LeadsToFinalize(n: Node, c: Tally) {
    var st := Flags(n);
    && (c.sendRequest > 0 ==> n.st.Some?)
    && (st.receivedRequest ==> st.sentResponse || c.sendResponse > 0)
    && (st.receivedResponse ==> st.streamsPrepared || c.prepareStreams + c.markPrepared > 0)
    && (st.streamsPrepared ==> st.sentFinalize || c.sendFinalize > 0)
  }

  ghost predicate LeadsToComplete(n: Node, c: Tally) {
    var st := Flags(n);
    && (st.streamsPrepared && st.receivedFinalize ==>
          st.complete || c.tryComplete + c.sendFinalize + c.emitFinalize > 0)
    && (st.complete ==> n.fx.storedKey.Some? || c.finalizeNetwork + c.storeKey > 0)
  }

  ghost predicate Arrived(n: Node, c: Tally, m: Message) {
    var st := Flags(n);
    match FirstTask(n.cfg, m)
    case None => true
    case Some(t) =>
      && (t.RecvRequest? ==> st.receivedRequest || c.recvRequest > 0)
      && (t.RecvResponse? ==> st.receivedResponse || c.recvResponse > 0)
      && (t.RecvFinalize? ==> st.receivedFinalize || c.recvFinalize > 0)
  }

  ghost predicate Arrivals(p: Proc, c: Tally) {
    && (p.connected ==> p.node.st.Some? && (Flags(p.node).sentRequest || c.sendRequest > 0))
    && forall m :: m in p.delivered ==> Arrived(p.node, c, m)
  }

  ghost predicate Live(p: Proc) {
    var c := TallyOf(p.tasks);
    SendsOnce(p.node, c) && CallsOnce(p.node, c) && LeadsOn(p.node, c) && Arrivals(p, c)
  }

  predicate AllOk(e: Env) {
    e.requestSent && e.responseSent && e.streamsOk && e.finalizeSent && e.finalizeOk
  }

  lemma EmitKept(n: Node, t: Task, env: Env, b: Tally)
    requires t.EmitRequest? || t.EmitResponse? || t.EmitFinalize?
    requires SendsOnce(n, Plus(b, t)) && AllOk(env)
    ensures SendsOnce(RunTask(n, t, env).0, PlusNext(b, RunTask(n, t, env).1))
  {
    hide Requests, Responses, Finalizes;
    SentOneMore(n.fx.sent, match t
      case EmitRequest => OwnRequest(n.cfg, env)
      case EmitResponse => HelloResponse(true, n.cfg.publicKey)
      case _ => HelloFinalize(true));
  }

  lemma SilentKept(p: Proc, sent: seq<Message>, t: Task, env: Env, b: Tally)
    requires !(t.EmitRequest? || t.EmitResponse? || t.EmitFinalize?)
    requires TaskSafe(p, sent, t) && SendsOnce(p.node, Plus(b, t)) && LeadsOn(p.node, Plus(b, t))
    ensures SendsOnce(RunTask(p.node, t, env).0, PlusNext(b, RunTask(p.node, t, env).1))
  {
    hide Requests, Responses, Finalizes;
  }

  lemma SendsOnceKept(p: Proc, sent: seq<Message>, t: Task, env: Env, b: Tally)
    requires TaskSafe(p, sent, t) && SendsOnce(p.node, Plus(b, t)) && LeadsOn(p.node, Plus(b, t)) && AllOk(env)
    ensures SendsOnce(RunTask(p.node, t, env).0, PlusNext(b, RunTask(p.node, t, env).1))
  {
    hide *;
    if t.EmitRequest? || t.EmitResponse? || t.EmitFinalize? {
      EmitKept(p.node, t, env, b);
    } else {
      SilentKept(p, sent, t, env, b);
    }
  }

  lemma CallsOnceKept(p: Proc, sent: seq<Message>, t: Task, env: Env, b: Tally)
    requires TaskSafe(p, sent, t) && CallsOnce(p.node, Plus(b, t)) && AllOk(env)
    ensures CallsOnce(RunTask(p.node, t, env).0, PlusNext(b, RunTask(p.node, t, env).1))
  {
  }

  lemma LeadsToFinalizeKept(p: Proc, sent: seq<Message>, t: Task, env: Env, b: Tally)
    requires TaskSafe(p, sent, t) && LeadsToFinalize(p.node, Plus(b, t)) && AllOk(env)
    ensures LeadsToFinalize(RunTask(p.node, t, env).0, PlusNext(b, RunTask(p.node, t, env).1))
  {
  }

  lemma LeadsToCompleteKept(p: Proc, sent: seq<Message>, t: Task, env: Env, b: Tally)
    requires TaskSafe(p, sent, t) && LeadsToComplete(p.node, Plus(b, t)) && AllOk(env)
    ensures LeadsToComplete(RunTask(p.node, t, env).0, PlusNext(b, RunTask(p.node, t, env).1))
  {
  }

  lemma LeadsOnKept(p: Proc, sent: seq<Message>, t: Task, env: Env, b: Tally)
    requires TaskSafe(p, sent, t) && LeadsOn(p.node, Plus(b, t)) && AllOk(env)
    ensures LeadsOn(RunTask(p.node, t, env).0, PlusNext(b, RunTask(p.node, t, env).1))
  {
    hide LeadsToFinalize, LeadsToComplete, RunTask, TaskSafe, Plus, PlusNext;
    LeadsToFinalizeKept(p, sent, t, env, b);
    LeadsToCompleteKept(p, sent, t, env, b);
  }

  lemma ArrivalsKept(p: Proc, sent: seq<Message>, t: Task, env: Env, b: Tally)
    requires TaskSafe(p, sent, t) && LeadsOn(p.node, Plus(b, t)) && Arrivals(p, Plus(b, t)) && AllOk(env)
    ensures Arrivals(p.(node := RunTask(p.node, t, env).0), PlusNext(b, RunTask(p.node, t, env).1))
  {
  }

  lemma RunKeepsLive(p: Proc, sent: seq<Message>, i: nat, env: Env)
    requires ProcSafe(p, sent) && Live(p) && i < |p.tasks| && AllOk(env)
    ensures Live(Local(p, Run(i, env)))
  {
    hide RunTask, Plus, SendsOnce, CallsOnce, LeadsOn, Arrivals;
    var t, rest := p.tasks[i], p.tasks[..i] + p.tasks[i + 1..];
    var (n, next) := RunTask(p.node, t, env);
    TallyRemove(p.tasks, i);
    TallyAppend(rest, next);
    assert TaskSafe(p, sent, t);
    SendsOnceKept(p, sent, t, env, TallyOf(rest));
    CallsOnceKept(p, sent, t, env, TallyOf(rest));
    LeadsOnKept(p, sent, t, env, TallyOf(rest));
    ArrivalsKept(p, sent, t, env, TallyOf(rest));
    ArrivalsIgnoreTasks(p.(node := n), Local(p, Run(i, env)), TallyOf(rest + Follow(next)));
  }

  lemma ArrivalsIgnoreTasks(p: Proc, q: Proc, c: Tally)
    requires q == p.(tasks := q.tasks) && Arrivals(p, c)
    ensures Arrivals(q, c)
  {
  }

  lemma ConnectKeepsLive(p: Proc, now: int)
    requires Live(p)
    ensures Live(Local(p, Connect(now)))
  {
    hide TallyOf, Requests, Responses, Finalizes;
    TallyAppend(p.tasks, Some(SendRequest));
    assert Follow(Some(SendRequest)) == [SendRequest];
  }

  lemma DeliverKeepsLive(p: Proc, m: Message)
    requires Live(p)
    ensures Live(Local(p, Deliver(m)))
  {
    hide TallyOf, Requests, Responses, Finalizes;
    TallyAppend(p.tasks, FirstTask(p.node.cfg, m));
  }

  lemma LocalKeepsLive(p: Proc, sent: seq<Message>, step: Step)
    requires ProcSafe(p, sent) && Live(p)
    requires step.Run? ==> step.i < |p.tasks| && AllOk(step.env)
    ensures Live(Local(p, step))
  {
    hide *;
    match step
    case Connect(now) => ConnectKeepsLive(p, now);
    case Deliver(m) => DeliverKeepsLive(p, m);
    case Run(i, env) => RunKeepsLive(p, sent, i, env);
  }

  /** A schedule in which every send, stream preparation and finalization succeeds. */
  ghost predicate FaultFree(run: Schedule) {
    forall i :: 0 <= i < |run| && run[i].1.Run? ==> AllOk(run[i].1.env)
  }

  lemma {:induction false} ReachableIsLive(ca: Config, cb: Config, run: Schedule, s: Sys)
    requires Reaches(ca, cb, run, s) && FaultFree(run)
    ensures Live(s.a) && Live(s.b)
  {
    hide Live, Safe, ProcSafe, Local;
    if run == [] {
      InitIsLive(ca, cb);
    } else {
      var (x, step) := run[|run| - 1];
      var r :| Reaches(ca, cb, run[..|run| - 1], r) && Enabled(r, x, step) && s == Apply(r, x, step);
      ReachableIsLive(ca, cb, run[..|run| - 1], r);
      ReachableIsSafe(ca, cb, run[..|run| - 1], r);
      SafeSide(r, x);
      LocalKeepsLive(r.Self(x), r.Peer(x).node.fx.sent, step);
    }
  }

  lemma SafeSide(s: Sys, x: Side)
    requires Safe(s)
    ensures ProcSafe(s.Self(x), s.Peer(x).node.fx.sent)
  {
  }

  lemma InitIsLive(ca: Config, cb: Config)
    ensures Live(Init(ca, cb).a) && Live(Init(ca, cb).b)
  {
  }

  /** No handler is in progress on this side and all the peer sent has arrived. */
  ghost predicate Settled(p: Proc, q: Proc) {
    p.connected && p.tasks == [] && forall m :: m in q.node.fx.sent ==> m in p.delivered
  }

  ghost predicate Agreeing(ca: Config, cb: Config) {
    && ca.chainId == cb.chainId && ca.version == cb.version
    && |ca.publicKey| == PUBLIC_KEY_SIZE && |cb.publicKey| == PUBLIC_KEY_SIZE
  }

  /** The final state: every flag set, the peer's data recorded, and each
      message, stream preparation and finalization done exactly once. */
  ghost predicate Done(p: Proc, q: Proc) {
    && p.node.st.Some?
    && p.node.st.value == PeerState(true, p.node.st.value.startedAt, q.node.cfg.publicKey, q.node.cfg.nodeId,
         p.node.st.value.peerHeight, q.node.cfg.version, q.node.cfg.chainId, true, true, true, true, true, true, true)
    && Requests(p.node.fx.sent) == 1 && Responses(p.node.fx.sent) == 1 && Finalizes(p.node.fx.sent) == 1
    && |p.node.fx.prepared| == 1 && p.node.fx.finalizeCalls == 1
    && p.node.fx.storedKey == Some(q.node.cfg.publicKey)
  }

  /** A settled side whose peer sent some message of each kind has all its flags. */
  lemma SettledFlags(p: Proc, q: Proc)
    requires ProcSafe(p, q.node.fx.sent) && SentSafe(q) && Live(p) && Settled(p, q) && Agreeing(p.node.cfg, q.node.cfg)
    ensures p.node.st.Some? && Requests(p.node.fx.sent) == 1
    ensures Requests(q.node.fx.sent) > 0 ==> p.node.st.value.receivedRequest && Responses(p.node.fx.sent) == 1
    ensures Responses(q.node.fx.sent) > 0 ==>
      p.node.st.value.receivedResponse && p.node.st.value.streamsPrepared && Finalizes(p.node.fx.sent) == 1
    ensures Finalizes(q.node.fx.sent) > 0 ==> p.node.st.value.receivedFinalize
  {
    hide Requests, Responses, Finalizes;
    var sent := q.node.fx.sent;
    SentKinds(sent);
    if Requests(sent) > 0 {
      var m :| m in sent && m.HelloRequest?;
      assert OwnMessage(q.node.cfg, m) && Arrived(p.node, TallyOf(p.tasks), m);
    }
    if Responses(sent) > 0 {
      var m :| m in sent && m.HelloResponse?;
      assert OwnMessage(q.node.cfg, m) && Arrived(p.node, TallyOf(p.tasks), m);
    }
    if Finalizes(sent) > 0 {
      var m :| m in sent && m.HelloFinalize?;
      assert OwnMessage(q.node.cfg, m) && Arrived(p.node, TallyOf(p.tasks), m);
    }
  }

  lemma SettledIsDone(p: Proc, q: Proc)
    requires ProcSafe(p, q.node.fx.sent) && SentSafe(q) && Live(p) && Settled(p, q)
    requires p.node.st.Some? && p.node.st.value.receivedRequest && p.node.st.value.receivedResponse
    requires p.node.st.value.receivedFinalize
    ensures Done(p, q)
  {
    hide Requests, Responses, Finalizes;
    var st := p.node.st.value;
    assert HelloResponse(true, st.peerPubKey) in q.node.fx.sent;
    var m :| Validated(p, q.node.fx.sent, m) && st.peerNodeId == m.nodeId && st.peerVersion == m.version
      && st.peerChainId == m.chainId && st.peerHeight == m.latestHeight;
    assert OwnMessage(q.node.cfg, m);
  }

  /** Every fault-free schedule between agreeing nodes that connects both,
      finishes every handler and delivers every message at least once, in
      whatever order and however often, leaves both sides done. */
  lemma SettledRunCompletes(ca: Config, cb: Config, run: Schedule, s: Sys)
    requires Reaches(ca, cb, run, s) && FaultFree(run) && Agreeing(ca, cb)
    requires Settled(s.a, s.b) && Settled(s.b, s.a)
    ensures Done(s.a, s.b) && Done(s.b, s.a)
    ensures HeightReported(run, B, s.a.node.st.value.peerHeight) && HeightReported(run, A, s.b.node.st.value.peerHeight)
  {
    hide Live, Settled, HeightReported, Requests, Responses, Finalizes, Reaches;
    ReachableIsSafe(ca, cb, run, s);
    ReachableIsLive(ca, cb, run, s);
    SafeSide(s, A);
    SafeSide(s, B);
    SettledFlags(s.a, s.b);
    SettledFlags(s.b, s.a);
    SettledIsDone(s.a, s.b);
    SettledIsDone(s.b, s.a);
    RecordedHeightIsReported(ca, cb, run, s, A);
    RecordedHeightIsReported(ca, cb, run, s, B);
  }

  // ----- handlers finish, and no more than three messages are ever sent

  function Work(ts: seq<Task>): nat {
    if ts == [] then 0 else Work(ts[..|ts| - 1]) + Rank(ts[|ts| - 1])
  }

  lemma {:induction false} WorkConcat(s: seq<Task>, t: seq<Task>)
    ensures Work(s + t) == Work(s) + Work(t)
  {
    if t == [] {
      assert s + t == s;
    } else {
      assert (s + t)[..|s + t| - 1] == s + t[..|t| - 1];
      WorkConcat(s, t[..|t| - 1]);
    }
  }

  lemma WorkOne(t: Option<Task>)
    ensures Work(Follow(t)) == if t.Some? then Rank(t.value) else 0
    ensures Work(Follow(t)) <= 8
  {
    if t.Some? { assert [t.value][..0] == []; }
  }

  /** Replacing one task by what follows it. */
  lemma WorkReplaced(ts: seq<Task>, i: nat, next: Option<Task>)
    requires i < |ts| && (next.Some? ==> Rank(next.value) < Rank(ts[i])) && Rank(ts[i]) > 0
    ensures Work(ts[..i] + ts[i + 1..] + Follow(next)) < Work(ts)
  {
    hide Work, Follow, Rank;
    WorkConcat(ts[..i] + ts[i + 1..], Follow(next));
    WorkConcat(ts[..i], ts[i + 1..]);
    assert ts == ts[..i] + Follow(Some(ts[i])) + ts[i + 1..] by { FollowSome(ts[i]); }
    WorkConcat(ts[..i] + Follow(Some(ts[i])), ts[i + 1..]);
    WorkConcat(ts[..i], Follow(Some(ts[i])));
    WorkOne(Some(ts[i]));
    WorkOne(next);
  }

  lemma FollowSome(t: Task)
    ensures Follow(Some(t)) == [t]
  {
  }

  lemma LocalWork(p: Proc, step: Step)
    requires step.Run? ==> step.i < |p.tasks|
    ensures step.Run? ==> Work(Local(p, step).tasks) < Work(p.tasks)
    ensures !step.Run? ==> Work(Local(p, step).tasks) <= Work(p.tasks) + 8
  {
    hide RunTask, Work, FirstTask, Follow;
    match step
    case Connect(_) =>
      FollowSome(SendRequest);
      WorkOne(Some(SendRequest));
      WorkConcat(p.tasks, [SendRequest]);
    case Deliver(m) =>
      WorkOne(FirstTask(p.node.cfg, m));
      WorkConcat(p.tasks, Follow(FirstTask(p.node.cfg, m)));
    case Run(i, env) =>
      WorkReplaced(p.tasks, i, RunTask(p.node, p.tasks[i], env).1);
  }

  function TaskSteps(run: Schedule): nat {
    if run == [] then 0 else TaskSteps(run[..|run| - 1]) + Bit(run[|run| - 1].1.Run?)
  }

  /** Connections and deliveries are the only fuel: each pays for at most
      eight task steps, so handlers cannot keep each other running. */
  lemma {:induction false} TaskStepsBounded(ca: Config, cb: Config, run: Schedule, s: Sys)
    requires Reaches(ca, cb, run, s)
    ensures TaskSteps(run) + Work(s.a.tasks) + Work(s.b.tasks) <= 8 * (|run| - TaskSteps(run))
  {
    hide Local;
    if run != [] {
      var (x, step) := run[|run| - 1];
      var r :| Reaches(ca, cb, run[..|run| - 1], r) && Enabled(r, x, step) && s == Apply(r, x, step);
      TaskStepsBounded(ca, cb, run[..|run| - 1], r);
      LocalWork(r.Self(x), step);
    }
  }

  /** However a fault-free run goes on, a node never sends more than one
      message of each kind, so only finitely many deliveries are new. */
  lemma AtMostThreeMessages(ca: Config, cb: Config, run: Schedule, s: Sys, x: Side)
    requires Reaches(ca, cb, run, s) && FaultFree(run)
    ensures Requests(s.Self(x).node.fx.sent) <= 1 && Responses(s.Self(x).node.fx.sent) <= 1
    ensures Finalizes(s.Self(x).node.fx.sent) <= 1 && |s.Self(x).node.fx.sent| <= 3
    ensures s.Self(x).node.fx.finalizeCalls <= 1 && |s.Self(x).node.fx.prepared| <= 1
  {
    hide Reaches;
    ReachableIsLive(ca, cb, run, s);
    SentKinds(s.Self(x).node.fx.sent);
  }
}
