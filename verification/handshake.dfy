/** The order-independent handshake: what one handler does, section by section. */
module Handshake {
  import opened Wrappers
  import opened Bytes

  type Key = seq<byte>
  const PUBLIC_KEY_SIZE := 32

  datatype Config = Config(chainId: string, version: int, nodeId: string, publicKey: Key)

  datatype Message =
    | HelloRequest(nodeId: string, version: int, chainId: string, timestamp: int, latestHeight: int)
    | HelloResponse(accepted: bool, publicKey: Key)
    | HelloFinalize(success: bool)

  /** PeerHandshakeState; `complete` is State == StateComplete. */
  datatype PeerState = PeerState(
    complete: bool, startedAt: int, peerPubKey: Key, peerNodeId: string, peerHeight: int,
    peerVersion: int, peerChainId: string,
    sentRequest: bool, receivedRequest: bool, sentResponse: bool, receivedResponse: bool,
    streamsPrepared: bool, sentFinalize: bool, receivedFinalize: bool)

  function FreshState(now: int): PeerState {
    PeerState(false, now, [], "", 0, 0, "", false, false, false, false, false, false, false)
  }

  /** What the handler did to the outside world for one peer, oldest first. */
  datatype Effects = Effects(sent: seq<Message>, prepared: seq<Key>, finalizeCalls: nat, storedKey: Option<Key>)

  const NO_EFFECTS := Effects([], [], 0, None)

  datatype Node = Node(cfg: Config, st: Option<PeerState>, fx: Effects)

  /** The clock, the block height and the outcome of every outside call. */
  datatype Env = Env(now: int, height: int, requestSent: bool, responseSent: bool,
                     streamsOk: bool, finalizeSent: bool, finalizeOk: bool)

  /** What a handler has left to do: each task is one critical section or one
      call made outside the lock. Other handlers may run between two tasks. */
  datatype Task =
    | SendRequest | EmitRequest
    | RecvRequest(req: Message) | SendResponse | EmitResponse
    | RecvResponse(key: Key) | PrepareStreams(key: Key) | MarkPrepared | SendFinalize | EmitFinalize
    | RecvFinalize | TryComplete | FinalizeNetwork(key: Key) | StoreKey(key: Key)

  function Rank(t: Task): nat {
    match t
    case RecvResponse(_) => 8
    case PrepareStreams(_) => 7
    case MarkPrepared => 6
    case SendFinalize => 5
    case EmitFinalize => 4
    case RecvFinalize => 4
    case TryComplete => 3
    case RecvRequest(_) => 3
    case FinalizeNetwork(_) => 2
    case SendRequest => 2
    case SendResponse => 2
    case StoreKey(_) => 1
    case EmitRequest => 1
    case EmitResponse => 1
  }

  function GetOrCreate(st: Option<PeerState>, now: int): PeerState {
    if st.Some? then st.value else FreshState(now)
  }

  function Send(n: Node, m: Message): Node {
    n.(fx := n.fx.(sent := n.fx.sent + [m]))
  }

  function OwnRequest(cfg: Config, e: Env): Message {
    HelloRequest(cfg.nodeId, cfg.version, cfg.chainId, e.now, e.height)
  }

  /** Runs one task; the second result is what that handler does next, if anything. */
  function RunTask(n: Node, t: Task, e: Env): (r: (Node, Option<Task>))
    ensures r.1.Some? ==> Rank(r.1.value) < Rank(t)
    ensures r.0.cfg == n.cfg && n.fx.sent <= r.0.fx.sent
  {
    match t
    case SendRequest =>
      if n.st.Some? && n.st.value.sentRequest then (n, None)
      else (if n.st.Some? then n.(st := Some(n.st.value.(sentRequest := true))) else n, Some(EmitRequest))
    case EmitRequest =>
      (if e.requestSent then Send(n, OwnRequest(n.cfg, e)) else n, None)
    case RecvRequest(m) =>
      var st := GetOrCreate(n.st, e.now);
      if st.receivedRequest || !m.HelloRequest? then (n.(st := Some(st)), None)
      else (n.(st := Some(st.(receivedRequest := true, peerNodeId := m.nodeId, peerVersion := m.version,
                              peerChainId := m.chainId, peerHeight := m.latestHeight))), Some(SendResponse))
    case SendResponse =>
      if n.st.Some? && n.st.value.sentResponse then (n, None)
      else (if n.st.Some? then n.(st := Some(n.st.value.(sentResponse := true))) else n, Some(EmitResponse))
    case EmitResponse =>
      (if e.responseSent then Send(n, HelloResponse(true, n.cfg.publicKey)) else n, None)
    case RecvResponse(key) =>
      var st := GetOrCreate(n.st, e.now);
      if st.receivedResponse then (n.(st := Some(st)), None)
      else (n.(st := Some(st.(receivedResponse := true, peerPubKey := key))), Some(PrepareStreams(key)))
    case PrepareStreams(key) =>
      if e.streamsOk then (n.(fx := n.fx.(prepared := n.fx.prepared + [key])), Some(MarkPrepared)) else (n, None)
    case MarkPrepared =>
      (if n.st.Some? then n.(st := Some(n.st.value.(streamsPrepared := true))) else n, Some(SendFinalize))
    case SendFinalize =>
      if n.st.Some? && n.st.value.sentFinalize then (n, Some(TryComplete))
      else (if n.st.Some? then n.(st := Some(n.st.value.(sentFinalize := true))) else n, Some(EmitFinalize))
    case EmitFinalize =>
      if e.finalizeSent then (Send(n, HelloFinalize(true)), Some(TryComplete)) else (n, None)
    case RecvFinalize =>
      (n.(st := Some(GetOrCreate(n.st, e.now).(receivedFinalize := true))), Some(TryComplete))
    case TryComplete =>
      if n.st.Some? && n.st.value.streamsPrepared && n.st.value.receivedFinalize && !n.st.value.complete
      then (n.(st := Some(n.st.value.(complete := true))), Some(FinalizeNetwork(n.st.value.peerPubKey)))
      else (n, None)
    case FinalizeNetwork(key) =>
      (n.(fx := n.fx.(finalizeCalls := n.fx.finalizeCalls + 1)), if e.finalizeOk then Some(StoreKey(key)) else None)
    case StoreKey(key) =>
      (n.(fx := n.fx.(storedKey := Some(key))), None)
  }

  /** The checks a handler makes before it touches any state. */
  function FirstTask(cfg: Config, m: Message): Option<Task> {
    match m
    case HelloRequest(_, version, chainId, _, _) =>
      if chainId != cfg.chainId || version != cfg.version then None else Some(RecvRequest(m))
    case HelloResponse(accepted, key) =>
      if !accepted || |key| != PUBLIC_KEY_SIZE then None else Some(RecvResponse(key))
    case HelloFinalize(success) =>
      if success then Some(RecvFinalize) else None
  }

  /** One handler run to its end with nothing in between. */
  function RunHandler(n: Node, t: Option<Task>, e: Env): (r: Node)
    ensures r.cfg == n.cfg && n.fx.sent <= r.fx.sent
    decreases if t.Some? then 1 + Rank(t.value) else 0
  {
    if t.None? then n else
      var (n', next) := RunTask(n, t.value, e);
      RunHandler(n', next, e)
  }

  type PeerId = string

  /** What the network is told to do with a peer whose message is refused: a
      request for another chain or version is banned for a while, the chain
      being looked at first; any other refused message ends the connection. */
  datatype Sanction = BanForChain | BanForVersion | Disconnect

  class HandshakeHandler {
    const cfg: Config
    const timeout: int
    var states: map<PeerId, PeerState>
    var effects: map<PeerId, Effects>
    var sanctions: seq<(PeerId, Sanction)>

    constructor (cfg: Config, timeout: int)
      ensures this.cfg == cfg && this.timeout == timeout && sanctions == []
      ensures forall p :: View(p) == Node(cfg, None, NO_EFFECTS)
    {
      this.cfg, this.timeout := cfg, timeout;
      states, effects, sanctions := map[], map[], [];
    }

    function EffectsOf(p: PeerId): Effects
      reads this
    {
      if p in effects then effects[p] else NO_EFFECTS
    }

    /** Everything the handler holds and has done for peer p. */
    function View(p: PeerId): Node
      reads this
    {
      Node(cfg, if p in states then Some(states[p]) else None, EffectsOf(p))
    }

    ghost predicate OthersUnchanged(p: PeerId, oldStates: map<PeerId, PeerState>, oldEffects: map<PeerId, Effects>)
      reads this
    {
      states - {p} == oldStates - {p} && effects - {p} == oldEffects - {p}
    }

    method OnPeerConnected(p: PeerId, e: Env) returns (ok: bool)
      modifies `states, `effects
      ensures View(p) == RunHandler(old(View(p)).(st := Some(GetOrCreate(old(View(p)).st, e.now))), Some(SendRequest), e)
      ensures OthersUnchanged(p, old(states), old(effects))
      ensures !ok ==> !e.requestSent
    {
      if p !in states { states := states[p := FreshState(e.now)]; }
      ok := SendHelloRequest(p, e);
    }

    method Emit(p: PeerId, m: Message)
      modifies `effects
      ensures effects == old(effects)[p := old(EffectsOf(p)).(sent := old(EffectsOf(p)).sent + [m])]
    {
      effects := effects[p := EffectsOf(p).(sent := EffectsOf(p).sent + [m])];
    }

    method SendHelloRequest(p: PeerId, e: Env) returns (ok: bool)
      modifies `states, `effects
      ensures View(p) == RunHandler(old(View(p)), Some(SendRequest), e)
      ensures EffectsOf(p).sent == old(EffectsOf(p)).sent +
        if (p in old(states) && old(states)[p].sentRequest) || !e.requestSent then []
        else [HelloRequest(nodeId := cfg.nodeId, version := cfg.version, chainId := cfg.chainId,
                           timestamp := e.now, latestHeight := e.height)]
      ensures OthersUnchanged(p, old(states), old(effects))
      ensures !ok ==> !e.requestSent
    {
      if p in states && states[p].sentRequest { return true; }
      if p in states { states := states[p := states[p].(sentRequest := true)]; }
      if !e.requestSent { return false; }
      Emit(p, HelloRequest(cfg.nodeId, cfg.version, cfg.chainId, e.now, e.height));
      return true;
    }

    method SendHelloResponse(p: PeerId, e: Env) returns (ok: bool)
      modifies `states, `effects
      ensures View(p) == RunHandler(old(View(p)), Some(SendResponse), e)
      ensures OthersUnchanged(p, old(states), old(effects))
    {
      if p in states && states[p].sentResponse { return true; }
      if p in states { states := states[p := states[p].(sentResponse := true)]; }
      if !e.responseSent { return false; }
      Emit(p, HelloResponse(true, cfg.publicKey));
      return true;
    }

    /** The send alone; the caller goes on to TryComplete only when it succeeds. */
    method SendHelloFinalize(p: PeerId, e: Env) returns (ok: bool)
      modifies `states, `effects
      ensures RunHandler(View(p), if ok then Some(Task.TryComplete) else None, e)
        == RunHandler(old(View(p)), Some(SendFinalize), e)
      ensures OthersUnchanged(p, old(states), old(effects))
    {
      if p in states && states[p].sentFinalize { return true; }
      if p in states { states := states[p := states[p].(sentFinalize := true)]; }
      if !e.finalizeSent { return false; }
      Emit(p, HelloFinalize(true));
      return true;
    }

    method TryComplete(p: PeerId, e: Env) returns (ok: bool)
      modifies `states, `effects
      ensures View(p) == RunHandler(old(View(p)), Some(Task.TryComplete), e)
      ensures OthersUnchanged(p, old(states), old(effects))
    {
      if p !in states { return true; }
      var st := states[p];
      if !(st.streamsPrepared && st.receivedFinalize && !st.complete) { return true; }
      states := states[p := st.(complete := true)];
      ok := Finalize(p, st.peerPubKey, e);
    }

    method Finalize(p: PeerId, pubKey: Key, e: Env) returns (ok: bool)
      modifies `effects
      ensures View(p) == RunHandler(old(View(p)), Some(FinalizeNetwork(pubKey)), e)
      ensures effects - {p} == old(effects) - {p}
    {
      effects := effects[p := EffectsOf(p).(finalizeCalls := EffectsOf(p).finalizeCalls + 1)];
      if !e.finalizeOk { return false; }
      assert RunHandler(View(p), Some(StoreKey(pubKey)), e) == RunHandler(old(View(p)), Some(FinalizeNetwork(pubKey)), e);
      ghost var n := View(p);
      effects := effects[p := EffectsOf(p).(storedKey := Some(pubKey))];
      assert View(p) == RunHandler(n, Some(StoreKey(pubKey)), e);
      assert effects - {p} == old(effects) - {p};
      return true;
    }

    method HandleHelloRequest(p: PeerId, m: Message, e: Env) returns (ok: bool)
      requires m.HelloRequest?
      modifies this
      ensures View(p) == RunHandler(old(View(p)), FirstTask(cfg, m), e)
      ensures OthersUnchanged(p, old(states), old(effects))
      ensures sanctions == old(sanctions) +
        if m.chainId != cfg.chainId then [(p, BanForChain)]
        else if m.version != cfg.version then [(p, BanForVersion)] else []
    {
      if m.chainId != cfg.chainId {
        sanctions := sanctions + [(p, BanForChain)];
        return false;
      }
      if m.version != cfg.version {
        sanctions := sanctions + [(p, BanForVersion)];
        return false;
      }
      if p !in states { states := states[p := FreshState(e.now)]; }
      var st := states[p];
      if st.receivedRequest { return true; }
      states := states[p := st.(receivedRequest := true, peerNodeId := m.nodeId, peerVersion := m.version,
                                peerChainId := m.chainId, peerHeight := m.latestHeight)];
      ok := SendHelloResponse(p, e);
    }

    method HandleHelloResponse(p: PeerId, m: Message, e: Env) returns (ok: bool)
      requires m.HelloResponse?
      modifies this
      ensures View(p) == RunHandler(old(View(p)), FirstTask(cfg, m), e)
      ensures OthersUnchanged(p, old(states), old(effects))
      ensures sanctions == old(sanctions) + if m.accepted && |m.publicKey| == 32 then [] else [(p, Disconnect)]
    {
      if !m.accepted || |m.publicKey| != PUBLIC_KEY_SIZE {
        sanctions := sanctions + [(p, Disconnect)];
        return false;
      }
      if p !in states { states := states[p := FreshState(e.now)]; }
      var st := states[p];
      if st.receivedResponse { return true; }
      states := states[p := st.(receivedResponse := true, peerPubKey := m.publicKey)];
      ok := PrepareAndFinalize(p, m.publicKey, e);
    }

    method PrepareAndFinalize(p: PeerId, key: Key, e: Env) returns (ok: bool)
      requires p in states
      modifies `states, `effects
      ensures View(p) == RunHandler(old(View(p)), Some(PrepareStreams(key)), e)
      ensures OthersUnchanged(p, old(states), old(effects))
    {
      if !e.streamsOk { return false; }
      effects := effects[p := EffectsOf(p).(prepared := EffectsOf(p).prepared + [key])];
      states := states[p := states[p].(streamsPrepared := true)];
      ok := SendHelloFinalize(p, e);
      if !ok { return false; }
      ok := TryComplete(p, e);
    }

    method HandleHelloFinalize(p: PeerId, m: Message, e: Env) returns (ok: bool)
      requires m.HelloFinalize?
      modifies this
      ensures View(p) == RunHandler(old(View(p)), FirstTask(cfg, m), e)
      ensures OthersUnchanged(p, old(states), old(effects))
      ensures sanctions == old(sanctions) + if m.success then [] else [(p, Disconnect)]
    {
      if !m.success {
        sanctions := sanctions + [(p, Disconnect)];
        return false;
      }
      if p !in states { states := states[p := FreshState(e.now)]; }
      states := states[p := states[p].(receivedFinalize := true)];
      ok := TryComplete(p, e);
    }

    /** Drops exactly the incomplete handshakes that are older than the timeout. */
    method CleanupStaleHandshakes(now: int) returns (dropped: set<PeerId>)
      modifies `states
      ensures dropped == set p | p in old(states) && !old(states)[p].complete && now - old(states)[p].startedAt > timeout
      ensures states == old(states) - dropped
    {
      dropped := {};
      var todo := states.Keys;
      while todo != {}
        invariant todo <= old(states).Keys
        invariant dropped == set p | p in old(states) && p !in todo && !old(states)[p].complete
                                     && now - old(states)[p].startedAt > timeout
        invariant states == old(states) - dropped
        decreases |todo|
      {
        var p :| p in todo;
        todo := todo - {p};
        if !states[p].complete && now - states[p].startedAt > timeout {
          states := states - {p};
          dropped := dropped + {p};
        }
      }
    }
  }
}
