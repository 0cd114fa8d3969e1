/**
 The peer agent ("client") as a function of its state: the confirmed peers
 (append-only), its socket as an inbox consumed from the front and an outbox
 appended to in order, and how many nonces it has drawn (the k-th nonce is
 rng(k)). The agent also knows the puncher's address, the only source whose
 ConnectTo it obeys.

 A receive on an empty inbox would block forever: the operation then ends
 Stalled. ConnectTo text that is not a socket-address literal makes the send
 of the Ping panic: the operation ends Panicked. Both propagate to the caller,
 which in the program never regains control.
 */
module PeerLogic {
  import opened Optional
  import opened Net
  import opened Wire

  type Packet = Datagram<Message>

  datatype Config = Config(puncher: Addr, rng: nat -> u32)

  datatype Agent = Agent(peers: seq<Addr>, outbox: seq<Packet>, inbox: seq<Packet>, draws: nat)

  datatype Outcome<+T> = Returned(value: T) | Stalled | Panicked {
    /** The same non-returning outcome at another result type. */
    function Propagate<U>(): Outcome<U>
      requires !Returned?
    {
      if Stalled? then Stalled else Panicked
    }
  }

  datatype Step<+T> = Step(agent: Agent, outcome: Outcome<T>)

  predicate IsSuffix<T(==)>(t: seq<T>, s: seq<T>) {
    |t| <= |s| && t == s[|s| - |t|..]
  }

  /** b is a's state later on: peers and outbox only grew at the end, the inbox was only consumed from the front. */
  predicate Later(a: Agent, b: Agent) {
    && a.peers <= b.peers
    && a.outbox <= b.outbox
    && IsSuffix(b.inbox, a.inbox)
    && a.draws <= b.draws
  }

  lemma LaterTransitive(a: Agent, b: Agent, c: Agent)
    requires Later(a, b) && Later(b, c)
    ensures Later(a, c)
  {
    assert c.inbox == b.inbox[|b.inbox| - |c.inbox|..];
  }

  function Send(a: Agent, m: Message, dest: Addr): Agent {
    a.(outbox := a.outbox + [Datagram(m, dest)])
  }

  function Consume(a: Agent): Agent
    requires a.inbox != []
  {
    a.(inbox := a.inbox[1..])
  }

  /** The dispatch table for a received message. */
  function HandleMsg(c: Config, a: Agent, m: Message, src: Addr): (r: Step<()>)
    ensures |r.agent.inbox| <= |a.inbox|
    decreases |a.inbox|, 2
  {
    match m
    case Ping(x) => Step(Send(a, Pong(x), src), Returned(()))
    case ConnectTo(text) =>
      if src == c.puncher then Connect(c, a, Resolve(text)) else Step(a, Returned(()))
    case _ => Step(a, Returned(()))
  }

  /**
   Draw a nonce, Ping the address the ConnectTo text resolved to, and wait for the matching Pong.
   The text is resolved by the send; when it names no address (dest is None) the send panics.
   */
  function Connect(c: Config, a: Agent, dest: Option<Addr>): (r: Step<()>)
    ensures |r.agent.inbox| <= |a.inbox|
    decreases |a.inbox|, 1
  {
    var nonce := c.rng(a.draws);
    var a1 := a.(draws := a.draws + 1);
    match dest
    case None => Step(a1, Panicked)
    case Some(d) => AwaitPong(c, Send(a1, Ping(nonce), d), nonce)
  }

  /** Receive until Pong(nonce) arrives, adding its source to the peers; everything else is dispatched. */
  function AwaitPong(c: Config, a: Agent, nonce: u32): (r: Step<()>)
    ensures |r.agent.inbox| <= |a.inbox|
    decreases |a.inbox|, 0
  {
    if a.inbox == [] then Step(a, Stalled)
    else
      var d := a.inbox[0];
      var a1 := Consume(a);
      if d.msg == Pong(nonce) then Step(a1.(peers := a1.peers + [d.addr]), Returned(()))
      else
        var h := HandleMsg(c, a1, d.msg, d.addr);
        if h.outcome.Returned? then AwaitPong(c, h.agent, nonce) else h
  }

  /** Receive until a RegisterReply arrives and return its id; everything else is dispatched. */
  function AwaitRegisterReply(c: Config, a: Agent): (r: Step<u64>)
    ensures |r.agent.inbox| <= |a.inbox|
    decreases |a.inbox|
  {
    if a.inbox == [] then Step(a, Stalled)
    else
      var d := a.inbox[0];
      var a1 := Consume(a);
      if d.msg.RegisterReply? then Step(a1, Returned(d.msg.id))
      else
        var h := HandleMsg(c, a1, d.msg, d.addr);
        if h.outcome.Returned? then AwaitRegisterReply(c, h.agent) else Step(h.agent, h.outcome.Propagate())
  }

  /** Ask the puncher for an id, servicing other traffic until it answers. */
  function RegisterHost(c: Config, a: Agent): Step<u64> {
    AwaitRegisterReply(c, Send(a, Register, c.puncher))
  }

  /** Query the puncher for a host and handle exactly one reply; false when it is a NotFound. */
  function ConnectToHost(c: Config, a: Agent, id: u64): Step<bool> {
    var a1 := Send(a, Query(id), c.puncher);
    if a1.inbox == [] then Step(a1, Stalled)
    else
      var d := a1.inbox[0];
      var a2 := Consume(a1);
      if d.msg.NotFound? then Step(a2, Returned(false))
      else
        var h := HandleMsg(c, a2, d.msg, d.addr);
        if h.outcome.Returned? then Step(h.agent, Returned(true)) else Step(h.agent, h.outcome.Propagate())
  }

  /** The host's receive loop, which never returns: it ends only by stalling or panicking. */
  function Wait(c: Config, a: Agent): (r: Step<()>)
    ensures !r.outcome.Returned?
    ensures |r.agent.inbox| <= |a.inbox|
    decreases |a.inbox|
  {
    if a.inbox == [] then Step(a, Stalled)
    else
      var d := a.inbox[0];
      var a1 := Consume(a);
      var h := HandleMsg(c, a1, d.msg, d.addr);
      if h.outcome.Returned? then Wait(c, h.agent) else h
  }

  /** Data(payload) addressed to each of peers, in order. */
  function DataTo(payload: string, peers: seq<Addr>): seq<Packet> {
    if peers == [] then [] else [Datagram(Data(payload), peers[0])] + DataTo(payload, peers[1..])
  }

  function BroadcastData(a: Agent, payload: string): Agent {
    a.(outbox := a.outbox + DataTo(payload, a.peers))
  }

  // ---------------------------------------------------------------------
  // Every operation only moves forward

  lemma {:induction false} HandleMsgLater(c: Config, a: Agent, m: Message, src: Addr)
    ensures Later(a, HandleMsg(c, a, m, src).agent)
    decreases |a.inbox|, 2
  {
    if m.ConnectTo? && src == c.puncher {
      ConnectLater(c, a, Resolve(m.addr));
    }
  }

  lemma {:induction false} ConnectLater(c: Config, a: Agent, dest: Option<Addr>)
    ensures Later(a, Connect(c, a, dest).agent)
    decreases |a.inbox|, 1
  {
    if dest.Some? {
      var a1 := Send(a.(draws := a.draws + 1), Ping(c.rng(a.draws)), dest.value);
      AwaitPongLater(c, a1, c.rng(a.draws));
      LaterTransitive(a, a1, AwaitPong(c, a1, c.rng(a.draws)).agent);
    }
  }

  lemma {:induction false} AwaitPongLater(c: Config, a: Agent, nonce: u32)
    ensures Later(a, AwaitPong(c, a, nonce).agent)
    decreases |a.inbox|, 0
  {
    if a.inbox != [] && a.inbox[0].msg != Pong(nonce) {
      var a1 := Consume(a);
      var h := HandleMsg(c, a1, a.inbox[0].msg, a.inbox[0].addr);
      HandleMsgLater(c, a1, a.inbox[0].msg, a.inbox[0].addr);
      LaterTransitive(a, a1, h.agent);
      if h.outcome.Returned? {
        AwaitPongLater(c, h.agent, nonce);
        LaterTransitive(a, h.agent, AwaitPong(c, h.agent, nonce).agent);
      }
    }
  }

  lemma {:induction false} AwaitRegisterReplyLater(c: Config, a: Agent)
    ensures Later(a, AwaitRegisterReply(c, a).agent)
    decreases |a.inbox|
  {
    if a.inbox != [] && !a.inbox[0].msg.RegisterReply? {
      var a1 := Consume(a);
      var h := HandleMsg(c, a1, a.inbox[0].msg, a.inbox[0].addr);
      HandleMsgLater(c, a1, a.inbox[0].msg, a.inbox[0].addr);
      LaterTransitive(a, a1, h.agent);
      if h.outcome.Returned? {
        AwaitRegisterReplyLater(c, h.agent);
        LaterTransitive(a, h.agent, AwaitRegisterReply(c, h.agent).agent);
      }
    }
  }

  lemma {:induction false} WaitLater(c: Config, a: Agent)
    ensures Later(a, Wait(c, a).agent)
    decreases |a.inbox|
  {
    if a.inbox != [] {
      var a1 := Consume(a);
      var h := HandleMsg(c, a1, a.inbox[0].msg, a.inbox[0].addr);
      HandleMsgLater(c, a1, a.inbox[0].msg, a.inbox[0].addr);
      LaterTransitive(a, a1, h.agent);
      if h.outcome.Returned? {
        WaitLater(c, h.agent);
        LaterTransitive(a, h.agent, Wait(c, h.agent).agent);
      }
    }
  }

  /** An index into a suffix, as an index into the whole sequence. */
  lemma SuffixIndex<T>(t: seq<T>, s: seq<T>, i: nat)
    requires IsSuffix(t, s) && i < |t|
    ensures t[i] == s[|s| - |t| + i]
  {
  }

  /**
   b is what waiting for Pong(nonce) from a leaves behind once it returns: the last datagram
   consumed was Pong(nonce), and its source is the newest peer.
   */
  predicate Ponged(a: Agent, b: Agent, nonce: u32) {
    var k := |a.inbox| - |b.inbox| - 1;
    && 0 <= k < |a.inbox|
    && a.inbox[k].msg == Pong(nonce)
    && |b.peers| > |a.peers|
    && b.peers[|b.peers| - 1] == a.inbox[k].addr
  }

  lemma PongedEarlier(a: Agent, h: Agent, b: Agent, nonce: u32)
    requires Later(a, h) && Ponged(h, b, nonce) && |b.peers| >= |h.peers|
    ensures Ponged(a, b, nonce)
  {
    SuffixIndex(h.inbox, a.inbox, |h.inbox| - |b.inbox| - 1);
  }

  /** When the handshake's wait returns, the last datagram it consumed was Pong(nonce), and its source is the newest peer. */
  lemma {:induction false} AwaitPongReturned(c: Config, a: Agent, nonce: u32)
    ensures var r := AwaitPong(c, a, nonce);
      r.outcome.Returned? ==> Ponged(a, r.agent, nonce)
    decreases |a.inbox|
  {
    if a.inbox != [] && a.inbox[0].msg != Pong(nonce) {
      var a1 := Consume(a);
      var h := HandleMsg(c, a1, a.inbox[0].msg, a.inbox[0].addr);
      if h.outcome.Returned? {
        HandleMsgLater(c, a1, a.inbox[0].msg, a.inbox[0].addr);
        LaterTransitive(a, a1, h.agent);
        AwaitPongReturned(c, h.agent, nonce);
        AwaitPongLater(c, h.agent, nonce);
        var r := AwaitPong(c, h.agent, nonce);
        if r.outcome.Returned? {
          PongedEarlier(a, h.agent, r.agent, nonce);
        }
      }
    }
  }

  /** b is what registration from a leaves behind when it returns id: the last datagram consumed was RegisterReply(id). */
  predicate Registered(a: Agent, b: Agent, id: u64) {
    var k := |a.inbox| - |b.inbox| - 1;
    0 <= k < |a.inbox| && a.inbox[k].msg == RegisterReply(id)
  }

  lemma RegisteredEarlier(a: Agent, h: Agent, b: Agent, id: u64)
    requires Later(a, h) && Registered(h, b, id)
    ensures Registered(a, b, id)
  {
    SuffixIndex(h.inbox, a.inbox, |h.inbox| - |b.inbox| - 1);
  }

  /** When registration returns an id, the last datagram it consumed was RegisterReply with that id. */
  lemma {:induction false} AwaitRegisterReplyReturned(c: Config, a: Agent)
    ensures var r := AwaitRegisterReply(c, a);
      r.outcome.Returned? ==> Registered(a, r.agent, r.outcome.value)
    decreases |a.inbox|
  {
    if a.inbox != [] && !a.inbox[0].msg.RegisterReply? {
      var a1 := Consume(a);
      var h := HandleMsg(c, a1, a.inbox[0].msg, a.inbox[0].addr);
      if h.outcome.Returned? {
        HandleMsgLater(c, a1, a.inbox[0].msg, a.inbox[0].addr);
        LaterTransitive(a, a1, h.agent);
        AwaitRegisterReplyReturned(c, h.agent);
        var r := AwaitRegisterReply(c, h.agent);
        if r.outcome.Returned? {
          RegisteredEarlier(a, h.agent, r.agent, r.outcome.value);
        }
      }
    }
  }

  // ---------------------------------------------------------------------
  // The dispatch table

  /** Ping(x) from any source: exactly Pong(x) back to it; peers unchanged. */
  lemma HandlePing(c: Config, a: Agent, x: u32, src: Addr)
    ensures HandleMsg(c, a, Ping(x), src) == Step(Send(a, Pong(x), src), Returned(()))
  {
  }

  /** ConnectTo from anyone but the puncher is ignored: nothing sent, nothing changed. */
  lemma HandleConnectToFromStranger(c: Config, a: Agent, text: string, src: Addr)
    requires src != c.puncher
    ensures HandleMsg(c, a, ConnectTo(text), src) == Step(a, Returned(()))
  {
  }

  /** Every other message is ignored. */
  lemma HandleOther(c: Config, a: Agent, m: Message, src: Addr)
    requires !m.Ping? && !m.ConnectTo?
    ensures HandleMsg(c, a, m, src) == Step(a, Returned(()))
  {
  }

  /**
   ConnectTo(text) from the puncher first draws nonce n and sends Ping(n) to the address the
   text names, and to nothing else before that; unresolvable text panics with nothing sent.
   */
  lemma HandleConnectToFromPuncher(c: Config, a: Agent, text: string)
    ensures var r := HandleMsg(c, a, ConnectTo(text), c.puncher);
      match Resolve(text)
      case None => r == Step(a.(draws := a.draws + 1), Panicked)
      case Some(dest) => a.outbox + [Datagram(Ping(c.rng(a.draws)), dest)] <= r.agent.outbox
  {
    var nonce := c.rng(a.draws);
    HandleConnectToFromPuncherCalls(c, a, text);
    match Resolve(text)
    case None =>
    case Some(dest) =>
      var a1 := Send(a.(draws := a.draws + 1), Ping(nonce), dest);
      ConnectResolved(c, a, dest, a1, nonce);
      AwaitPongLater(c, a1, nonce);
  }

  /** The puncher sends the text of an address; the Ping then goes to exactly that address. */
  lemma ConnectToText(c: Config, a: Agent, b: Addr)
    ensures a.outbox + [Datagram(Ping(c.rng(a.draws)), b)] <= HandleMsg(c, a, ConnectTo(Text(b)), c.puncher).agent.outbox
  {
    ResolveText(b);
    HandleConnectToFromPuncher(c, a, Text(b));
  }

  /** A ConnectTo from the puncher naming "[::1]:11122" pings port 11122 of the IPv6 loopback address. */
  lemma ConnectToLoopbackHost(c: Config, a: Agent)
    ensures a.outbox + [Datagram(Ping(c.rng(a.draws)), V6([0, 0, 0, 0, 0, 0, 0, 1], 11122))]
            <= HandleMsg(c, a, ConnectTo("[::1]:11122"), c.puncher).agent.outbox
  {
    ResolveLoopbackHost();
    HandleConnectToFromPuncher(c, a, "[::1]:11122");
  }

  // ---------------------------------------------------------------------
  // Waiting for a Pong

  lemma Assoc<T>(x: seq<T>, y: seq<T>, z: seq<T>)
    ensures (x + y) + z == x + (y + z)
  {
  }

  /** No datagram in ds is a ConnectTo from the puncher, so dispatching them starts no nested handshake. */
  predicate NoPunch(c: Config, ds: seq<Packet>) {
    forall j :: 0 <= j < |ds| ==> !(ds[j].msg.ConnectTo? && ds[j].addr == c.puncher)
  }

  lemma NoPunchSplit(c: Config, ds: seq<Packet>)
    requires ds != [] && NoPunch(c, ds)
    ensures NoPunch(c, [ds[0]]) && NoPunch(c, ds[1..])
  {
    assert [ds[0]][0] == ds[0];
  }

  /** The Pongs that answer the Pings among ds, in order. */
  function Replies(ds: seq<Packet>): seq<Packet> {
    if ds == [] then []
    else (if ds[0].msg.Ping? then [Datagram(Pong(ds[0].msg.nonce), ds[0].addr)] else []) + Replies(ds[1..])
  }

  lemma RepliesCons(ds: seq<Packet>)
    requires ds != []
    ensures Replies(ds) == Replies([ds[0]]) + Replies(ds[1..])
  {
    assert [ds[0]][1..] == [];
  }

  /** The state after receiving the next datagram and answering it if it is a Ping. */
  function Skip(a: Agent): Agent
    requires a.inbox != []
  {
    a.(outbox := a.outbox + Replies([a.inbox[0]]), inbox := a.inbox[1..])
  }

  /** Skipping k datagrams in one go, and then the next one. */
  lemma SkipMore(a: Agent, k: nat)
    requires k < |a.inbox|
    ensures Skip(a).outbox + Replies(Skip(a).inbox[..k]) == a.outbox + Replies(a.inbox[..k + 1])
    ensures Skip(a).inbox[k..] == a.inbox[k + 1..]
  {
    var ds := a.inbox[..k + 1];
    assert ds[0] == a.inbox[0] && ds[1..] == Skip(a).inbox[..k];
    RepliesCons(ds);
    Assoc(a.outbox, Replies([a.inbox[0]]), Replies(Skip(a).inbox[..k]));
  }

  /** A datagram that starts no handshake is answered (Ping) or ignored (everything else). */
  lemma HandleQuiet(c: Config, a: Agent, d: Packet)
    requires NoPunch(c, [d])
    ensures HandleMsg(c, a, d.msg, d.addr) == Step(a.(outbox := a.outbox + Replies([d])), Returned(()))
  {
    assert [d][0] == d;
    assert [d][1..] == [];
  }

  lemma AwaitPongSkip(c: Config, a: Agent, nonce: u32)
    requires a.inbox != [] && a.inbox[0].msg != Pong(nonce) && NoPunch(c, [a.inbox[0]])
    ensures AwaitPong(c, a, nonce) == AwaitPong(c, Skip(a), nonce)
  {
    HandleQuiet(c, Consume(a), a.inbox[0]);
  }

  /**
   Without nested handshakes, AwaitPong returns exactly when a Pong(nonce) arrives: the peers gain
   the source of the first one and nothing else; the Pings before it are answered; Pongs with
   another nonce and all other messages before it are dropped.
   */
  lemma {:induction false} AwaitPongFirstMatch(c: Config, a: Agent, nonce: u32, k: nat)
    requires k < |a.inbox| && NoPunch(c, a.inbox[..k])
    requires a.inbox[k].msg == Pong(nonce)
    requires forall j :: 0 <= j < k ==> a.inbox[j].msg != Pong(nonce)
    ensures AwaitPong(c, a, nonce) ==
      Step(Agent(a.peers + [a.inbox[k].addr], a.outbox + Replies(a.inbox[..k]), a.inbox[k + 1..], a.draws),
           Returned(()))
    decreases k
  {
    if k == 0 {
      assert a.inbox[..0] == [];
    } else {
      var b := Skip(a);
      NoPunchSplit(c, a.inbox[..k]);
      assert a.inbox[..k][1..] == b.inbox[..k - 1];
      AwaitPongSkip(c, a, nonce);
      AwaitPongFirstMatch(c, b, nonce, k - 1);
      SkipMore(a, k - 1);
    }
  }

  /** Without nested handshakes and without a Pong(nonce), AwaitPong answers every Ping and stalls; peers unchanged. */
  lemma {:induction false} AwaitPongNoMatch(c: Config, a: Agent, nonce: u32)
    requires NoPunch(c, a.inbox)
    requires forall j :: 0 <= j < |a.inbox| ==> a.inbox[j].msg != Pong(nonce)
    ensures AwaitPong(c, a, nonce) == Step(Agent(a.peers, a.outbox + Replies(a.inbox), [], a.draws), Stalled)
    decreases |a.inbox|
  {
    if a.inbox != [] {
      var b := Skip(a);
      NoPunchSplit(c, a.inbox);
      AwaitPongSkip(c, a, nonce);
      assert forall j :: 0 <= j < |b.inbox| ==> b.inbox[j] == a.inbox[j + 1];
      AwaitPongNoMatch(c, b, nonce);
      RepliesCons(a.inbox);
      Assoc(a.outbox, Replies([a.inbox[0]]), Replies(b.inbox));
    }
  }

  /**
   A ConnectTo from the puncher that arrives during a handshake starts a nested one, which
   drops the outer handshake's Pong like any other non-matching Pong: the outer handshake
   then waits on, although its Pong did arrive, and only the nested peer is added.
   */
  lemma NestedHandshakeSwallowsPong(c: Config, a: Agent, nonce: u32, b: Addr, p: Addr, q: Addr)
    requires c.rng(a.draws) != nonce
    requires a.inbox == [Datagram(ConnectTo(Text(b)), c.puncher), Datagram(Pong(nonce), p),
                         Datagram(Pong(c.rng(a.draws)), q)]
    ensures var r := AwaitPong(c, a, nonce);
      r.outcome == Stalled && r.agent.peers == a.peers + [q] && r.agent.inbox == []
  {
    var inner := c.rng(a.draws);
    var a1 := Consume(a);
    var a2 := Send(a1.(draws := a1.draws + 1), Ping(inner), b);
    var h := HandleMsg(c, a1, ConnectTo(Text(b)), c.puncher);
    assert h == AwaitPong(c, a2, inner) by {
      ResolveText(b);
      HandleConnectToFromPuncherCalls(c, a1, Text(b));
      ConnectResolved(c, a1, b, a2, inner);
    }
    assert h.agent.inbox == [] && h.outcome.Returned? && h.agent.peers == a.peers + [q] by {
      assert a2.inbox[..1] == [Datagram(Pong(nonce), p)];
      AwaitPongFirstMatch(c, a2, inner, 1);
    }
    assert AwaitPong(c, a, nonce) == AwaitPong(c, h.agent, nonce) by {
      AwaitPongDispatch(c, a, nonce);
    }
  }

  /** A ConnectTo from the puncher is exactly a call of connect_to. */
  lemma HandleConnectToFromPuncherCalls(c: Config, a: Agent, text: string)
    ensures HandleMsg(c, a, ConnectTo(text), c.puncher) == Connect(c, a, Resolve(text))
  {
  }

  /** With the text resolved to dest, connect_to draws the nonce, pings dest and waits for the Pong. */
  lemma ConnectResolved(c: Config, a: Agent, dest: Addr, a1: Agent, n: u32)
    requires n == c.rng(a.draws) && a1 == Send(a.(draws := a.draws + 1), Ping(n), dest)
    ensures Connect(c, a, Some(dest)) == AwaitPong(c, a1, n)
  {
  }

  /** A datagram other than the awaited Pong is dispatched, and the wait goes on if the handler returns. */
  lemma AwaitPongDispatch(c: Config, a: Agent, nonce: u32)
    requires a.inbox != [] && a.inbox[0].msg != Pong(nonce)
    ensures var h := HandleMsg(c, Consume(a), a.inbox[0].msg, a.inbox[0].addr);
      AwaitPong(c, a, nonce) == if h.outcome.Returned? then AwaitPong(c, h.agent, nonce) else h
  {
  }

  // ---------------------------------------------------------------------
  // Peers come only from Pongs

  /** The sources of the Pongs in ds. */
  function PongSources(ds: seq<Packet>): set<Addr> {
    set d | d in ds && d.msg.Pong? :: d.addr
  }

  /** The datagrams a has received by the time it has become b. */
  function Received(a: Agent, b: Agent): seq<Packet>
    requires |b.inbox| <= |a.inbox|
  {
    a.inbox[..|a.inbox| - |b.inbox|]
  }

  /** Every peer b has that a had not is the source of a Pong received on the way from a to b. */
  predicate PeersFromPongs(a: Agent, b: Agent) {
    && |b.inbox| <= |a.inbox|
    && forall i :: |a.peers| <= i < |b.peers| ==> b.peers[i] in PongSources(Received(a, b))
  }

  lemma PongSourcesSub(ds: seq<Packet>, lo: nat, hi: nat)
    requires lo <= hi <= |ds|
    ensures PongSources(ds[lo..hi]) <= PongSources(ds)
  {
    forall p | p in PongSources(ds[lo..hi]) ensures p in PongSources(ds) {
      var d :| d in ds[lo..hi] && d.msg.Pong? && d.addr == p;
      assert d in ds;
    }
  }

  /** What a received before b, followed by what b received before c, is what a received before c. */
  lemma ReceivedTrans(a: Agent, b: Agent, c: Agent)
    requires Later(a, b) && Later(b, c)
    ensures Received(a, b) <= Received(a, c)
    ensures Received(b, c) == Received(a, c)[|a.inbox| - |b.inbox|..]
  {
    assert b.inbox == a.inbox[|a.inbox| - |b.inbox|..];
  }

  lemma PeersFromPongsTransitive(a: Agent, b: Agent, c: Agent)
    requires Later(a, b) && Later(b, c)
    requires PeersFromPongs(a, b) && PeersFromPongs(b, c)
    ensures Later(a, c) && PeersFromPongs(a, c)
  {
    LaterTransitive(a, b, c);
    ReceivedTrans(a, b, c);
    var r := Received(a, c);
    PongSourcesSub(r, 0, |a.inbox| - |b.inbox|);
    PongSourcesSub(r, |a.inbox| - |b.inbox|, |r|);
    assert r[0..|a.inbox| - |b.inbox|] == Received(a, b);
    assert r[|a.inbox| - |b.inbox|..|r|] == Received(b, c);
    forall i | |a.peers| <= i < |c.peers| ensures c.peers[i] in PongSources(r) {
      if i < |b.peers| {
        assert c.peers[i] == b.peers[i];
      }
    }
  }

  lemma {:induction false} HandleMsgPeersFromPongs(c: Config, a: Agent, m: Message, src: Addr)
    ensures PeersFromPongs(a, HandleMsg(c, a, m, src).agent)
    decreases |a.inbox|, 2
  {
    if m.ConnectTo? && src == c.puncher {
      ConnectPeersFromPongs(c, a, Resolve(m.addr));
    }
  }

  lemma {:induction false} ConnectPeersFromPongs(c: Config, a: Agent, dest: Option<Addr>)
    ensures PeersFromPongs(a, Connect(c, a, dest).agent)
    decreases |a.inbox|, 1
  {
    var nonce := c.rng(a.draws);
    var a1 := a.(draws := a.draws + 1);
    match dest
    case None =>
    case Some(d) =>
      AwaitPongPeersFromPongs(c, Send(a1, Ping(nonce), d), nonce);
  }

  lemma {:induction false} AwaitPongPeersFromPongs(c: Config, a: Agent, nonce: u32)
    ensures PeersFromPongs(a, AwaitPong(c, a, nonce).agent)
    decreases |a.inbox|, 0
  {
    if a.inbox != [] {
      var d := a.inbox[0];
      var a1 := Consume(a);
      if d.msg == Pong(nonce) {
        var b := AwaitPong(c, a, nonce).agent;
        assert Received(a, b) == [d];
      } else {
        HandleMsgPeersFromPongs(c, a1, d.msg, d.addr);
        HandleMsgLater(c, a1, d.msg, d.addr);
        var h := HandleMsg(c, a1, d.msg, d.addr);
        assert Received(a, a1) == [d];
        assert PeersFromPongs(a, a1);
        PeersFromPongsTransitive(a, a1, h.agent);
        if h.outcome.Returned? {
          AwaitPongPeersFromPongs(c, h.agent, nonce);
          AwaitPongLater(c, h.agent, nonce);
          PeersFromPongsTransitive(a, h.agent, AwaitPong(c, h.agent, nonce).agent);
        }
      }
    }
  }

  // ---------------------------------------------------------------------
  // Registering, querying, waiting, broadcasting

  lemma AwaitRegisterReplySkip(c: Config, a: Agent)
    requires a.inbox != [] && !a.inbox[0].msg.RegisterReply? && NoPunch(c, [a.inbox[0]])
    ensures AwaitRegisterReply(c, a) == AwaitRegisterReply(c, Skip(a))
  {
    HandleQuiet(c, Consume(a), a.inbox[0]);
  }

  /**
   Without nested handshakes, registration returns the id of the first RegisterReply,
   having answered the Pings before it; peers unchanged.
   */
  lemma {:induction false} AwaitRegisterReplyFirst(c: Config, a: Agent, k: nat)
    requires k < |a.inbox| && NoPunch(c, a.inbox[..k])
    requires a.inbox[k].msg.RegisterReply?
    requires forall j :: 0 <= j < k ==> !a.inbox[j].msg.RegisterReply?
    ensures AwaitRegisterReply(c, a) ==
      Step(a.(outbox := a.outbox + Replies(a.inbox[..k]), inbox := a.inbox[k + 1..]), Returned(a.inbox[k].msg.id))
    decreases k
  {
    if k == 0 {
      assert a.inbox[..0] == [];
    } else {
      var b := Skip(a);
      NoPunchSplit(c, a.inbox[..k]);
      assert a.inbox[..k][1..] == b.inbox[..k - 1];
      AwaitRegisterReplySkip(c, a);
      AwaitRegisterReplyFirst(c, b, k - 1);
      SkipMore(a, k - 1);
    }
  }

  lemma RegisterHostSends(c: Config, a: Agent)
    ensures a.outbox + [Datagram(Register, c.puncher)] <= RegisterHost(c, a).agent.outbox
  {
    AwaitRegisterReplyLater(c, Send(a, Register, c.puncher));
  }

  /**
   connect_to_host sends Query(id) to the puncher first; with a reply to receive, it returns
   false exactly when that reply is a NotFound (whatever id it carries), and true when
   handling any other reply returns.
   */
  lemma ConnectToHostResult(c: Config, a: Agent, id: u64)
    ensures var r := ConnectToHost(c, a, id);
      && a.outbox + [Datagram(Query(id), c.puncher)] <= r.agent.outbox
      && (a.inbox == [] <==> r.outcome == Stalled && r.agent == Send(a, Query(id), c.puncher))
      && (r.outcome == Returned(false) <==> a.inbox != [] && a.inbox[0].msg.NotFound?)
      && (r.outcome == Returned(true) <==>
           a.inbox != [] && !a.inbox[0].msg.NotFound? &&
           HandleMsg(c, Consume(Send(a, Query(id), c.puncher)), a.inbox[0].msg, a.inbox[0].addr).outcome.Returned?)
  {
    var a1 := Send(a, Query(id), c.puncher);
    if a1.inbox != [] {
      var d := a1.inbox[0];
      if !d.msg.NotFound? {
        HandleMsgLater(c, Consume(a1), d.msg, d.addr);
      }
    }
  }

  lemma WaitSkip(c: Config, a: Agent)
    requires a.inbox != [] && NoPunch(c, [a.inbox[0]])
    ensures Wait(c, a) == Wait(c, Skip(a))
  {
    HandleQuiet(c, Consume(a), a.inbox[0]);
  }

  /** Without handshakes, the host's receive loop answers every Ping and changes nothing else. */
  lemma {:induction false} WaitQuiet(c: Config, a: Agent)
    requires NoPunch(c, a.inbox)
    ensures Wait(c, a) == Step(a.(outbox := a.outbox + Replies(a.inbox), inbox := []), Stalled)
    decreases |a.inbox|
  {
    if a.inbox != [] {
      var b := Skip(a);
      NoPunchSplit(c, a.inbox);
      WaitSkip(c, a);
      WaitQuiet(c, b);
      RepliesCons(a.inbox);
      Assoc(a.outbox, Replies([a.inbox[0]]), Replies(b.inbox));
    }
  }

  /** DataTo sends Data(payload) to each peer once, in list order, and to no one else. */
  lemma {:induction false} DataToEach(payload: string, peers: seq<Addr>)
    ensures |DataTo(payload, peers)| == |peers|
    ensures forall i :: 0 <= i < |peers| ==> DataTo(payload, peers)[i] == Datagram(Data(payload), peers[i])
    decreases |peers|
  {
    if peers != [] {
      DataToEach(payload, peers[1..]);
    }
  }

  lemma {:induction false} DataToAppend(payload: string, peers: seq<Addr>, p: Addr)
    ensures DataTo(payload, peers + [p]) == DataTo(payload, peers) + [Datagram(Data(payload), p)]
    decreases |peers|
  {
    if peers == [] {
      assert peers + [p] == [p];
    } else {
      DataToAppend(payload, peers[1..], p);
      assert (peers + [p])[1..] == peers[1..] + [p];
    }
  }

  /** broadcast_data leaves peers and inbox alone and appends one Data datagram per peer. */
  lemma BroadcastDataSends(a: Agent, payload: string)
    ensures var r := BroadcastData(a, payload);
      && r.peers == a.peers && r.inbox == a.inbox && r.draws == a.draws
      && |r.outbox| == |a.outbox| + |a.peers|
      && a.outbox <= r.outbox
      && forall i :: 0 <= i < |a.peers| ==> r.outbox[|a.outbox| + i] == Datagram(Data(payload), a.peers[i])
  {
    DataToEach(payload, a.peers);
  }
}
