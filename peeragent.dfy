/**
 The peer ("client") as an object: the peer list is a sequence field that
 connecting appends to, the socket an inbox the receive loops consume and an
 outbox every send appends to, and the nonce draws a counter into the supplied
 draw sequence. The receive loops run while a datagram is left to receive; a
 receive that would block ends the operation Stalled. Each method is proved
 against its counterpart in module PeerLogic, where the properties are stated
 and proved.
 */
module PeerAgent {
  import opened Optional
  import opened Net
  import opened Wire
  import L = PeerLogic

  class Client {
    const puncherAddr: Addr
    const rng: nat -> u32
    var peers: seq<Addr>
    var outbox: seq<L.Packet>
    var inbox: seq<L.Packet>
    var draws: nat

    /** What never changes: where the puncher is, and where the nonces come from. */
    function Cfg(): L.Config {
      L.Config(puncherAddr, rng)
    }

    /** The abstract state the methods are specified against. */
    function State(): L.Agent
      reads this
    {
      L.Agent(peers, outbox, inbox, draws)
    }

    /**
     A client of the puncher whose address is written puncherText, with no peers yet,
     about to receive the datagrams of inbox, in order.
     */
    constructor (puncherText: string, rng: nat -> u32, inbox: seq<L.Packet>)
      requires Resolve(puncherText).Some?
      ensures puncherAddr == Resolve(puncherText).value && this.rng == rng
      ensures State() == L.Agent([], [], inbox, 0)
    {
      puncherAddr := Resolve(puncherText).value;
      this.rng := rng;
      peers := [];
      outbox := [];
      this.inbox := inbox;
      draws := 0;
    }

    /** Takes the next datagram off the socket; the caller checks that one is there. */
    method RecvMsg() returns (d: L.Packet)
      requires inbox != []
      modifies this
      ensures d == old(inbox[0])
      ensures State() == L.Consume(old(State()))
    {
      d := inbox[0];
      inbox := inbox[1..];
    }

    method SendMsg(m: Message, dest: Addr)
      modifies this
      ensures State() == L.Send(old(State()), m, dest)
    {
      outbox := outbox + [Datagram(m, dest)];
    }

    method SendPuncherMsg(m: Message)
      modifies this
      ensures State() == L.Send(old(State()), m, puncherAddr)
    {
      SendMsg(m, puncherAddr);
    }

    /** Answer a Ping, obey a ConnectTo from the puncher, ignore the rest. */
    method HandleMsg(m: Message, src: Addr) returns (o: L.Outcome<()>)
      modifies this
      ensures L.Step(State(), o) == L.HandleMsg(Cfg(), old(State()), m, src)
      decreases |inbox|, 2
    {
      match m {
        case Ping(x) =>
          SendMsg(Pong(x), src);
          o := L.Returned(());
        case ConnectTo(text) =>
          if src == puncherAddr {
            o := ConnectTo(text);
          } else {
            o := L.Returned(());
          }
        case _ =>
          o := L.Returned(());
      }
    }

    /** Ping the address the text names with a fresh nonce, and receive until the matching Pong. */
    method ConnectTo(text: string) returns (o: L.Outcome<()>)
      modifies this
      ensures L.Step(State(), o) == L.Connect(Cfg(), old(State()), Resolve(text))
      decreases |inbox|, 1
    {
      ghost var goal := L.Connect(Cfg(), State(), Resolve(text));
      var nonce := rng(draws);
      draws := draws + 1;
      var dest := Resolve(text);
      if dest.None? {
        return L.Panicked;
      }
      SendMsg(Ping(nonce), dest.value);
      while inbox != []
        invariant |inbox| <= old(|inbox|)
        invariant L.AwaitPong(Cfg(), State(), nonce) == goal
        decreases |inbox|
      {
        var d := RecvMsg();
        if d.msg == Pong(nonce) {
          peers := peers + [d.addr];
          return L.Returned(());
        }
        o := HandleMsg(d.msg, d.addr);
        if !o.Returned? {
          return;
        }
      }
      return L.Stalled;
    }

    /** Send Register to the puncher and receive until it answers with an id. */
    method RegisterHost() returns (o: L.Outcome<u64>)
      modifies this
      ensures L.Step(State(), o) == L.RegisterHost(Cfg(), old(State()))
    {
      SendPuncherMsg(Register);
      ghost var goal := L.AwaitRegisterReply(Cfg(), State());
      while inbox != []
        invariant L.AwaitRegisterReply(Cfg(), State()) == goal
        decreases |inbox|
      {
        var d := RecvMsg();
        if d.msg.RegisterReply? {
          return L.Returned(d.msg.id);
        }
        var h := HandleMsg(d.msg, d.addr);
        if !h.Returned? {
          return h.Propagate();
        }
      }
      return L.Stalled;
    }

    /** The host's receive loop: handle every datagram until none is left or a handler does not return. */
    method Wait() returns (o: L.Outcome<()>)
      modifies this
      ensures L.Step(State(), o) == L.Wait(Cfg(), old(State()))
    {
      ghost var goal := L.Wait(Cfg(), State());
      while inbox != []
        invariant L.Wait(Cfg(), State()) == goal
        decreases |inbox|
      {
        var d := RecvMsg();
        o := HandleMsg(d.msg, d.addr);
        if !o.Returned? {
          return;
        }
      }
      return L.Stalled;
    }

    /** Send Query(id) to the puncher and handle its one reply; false for a NotFound. */
    method ConnectToHost(id: u64) returns (o: L.Outcome<bool>)
      modifies this
      ensures L.Step(State(), o) == L.ConnectToHost(Cfg(), old(State()), id)
    {
      SendPuncherMsg(Query(id));
      if inbox == [] {
        return L.Stalled;
      }
      var d := RecvMsg();
      if d.msg.NotFound? {
        return L.Returned(false);
      }
      var h := HandleMsg(d.msg, d.addr);
      if h.Returned? {
        o := L.Returned(true);
      } else {
        o := h.Propagate();
      }
    }

    /** Send Data(payload) to every peer, in list order. */
    method BroadcastData(payload: string)
      modifies this
      ensures State() == L.BroadcastData(old(State()), payload)
    {
      var targets := peers;
      for i := 0 to |targets|
        invariant State() == old(State()).(outbox := old(outbox) + L.DataTo(payload, targets[..i]))
      {
        L.DataToAppend(payload, targets[..i], targets[i]);
        assert targets[..i + 1] == targets[..i] + [targets[i]];
        SendMsg(Data(payload), targets[i]);
      }
      assert targets[..|targets|] == targets;
    }
  }
}
