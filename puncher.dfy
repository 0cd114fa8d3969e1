/**
 The rendezvous service as an object: the registry is a map field updated in
 place, the socket is an inbox the receive loop consumes and an outbox every
 send appends to. Each method is proved against its counterpart in module
 Rendezvous, where the protocol's properties are stated and proved.
 */
module RendezvousServer {
  import opened Optional
  import opened Net
  import opened Wire
  import R = Rendezvous

  class Puncher {
    const rng: nat -> u64
    var addrs: map<u64, Addr>
    var outbox: seq<R.Packet>
    var inbox: seq<R.Packet>
    var draws: nat

    /** The abstract state the methods are specified against. */
    function State(): R.Service
      reads this
    {
      R.Service(addrs, outbox, inbox, draws)
    }

    /** A service with an empty registry, about to receive the datagrams of inbox, in order. */
    constructor (rng: nat -> u64, inbox: seq<R.Packet>)
      ensures this.rng == rng
      ensures State() == R.Service(map[], [], inbox, 0)
    {
      this.rng := rng;
      addrs := map[];
      outbox := [];
      this.inbox := inbox;
      draws := 0;
    }

    method SendTo(m: Message, dest: Addr)
      modifies this
      ensures State() == R.Send(old(State()), m, dest)
    {
      outbox := outbox + [Datagram(m, dest)];
    }

    /** Takes the next datagram off the socket; the caller checks that one is there. */
    method RecvFrom() returns (d: R.Packet)
      requires inbox != []
      modifies this
      ensures d == old(inbox[0])
      ensures State() == old(State()).(inbox := old(inbox[1..]))
    {
      d := inbox[0];
      inbox := inbox[1..];
    }

    method Register(src: Addr) returns (id: u64)
      modifies this
      ensures R.Handled(State(), id) == R.RegisterSender(rng, old(State()), src)
    {
      id := rng(draws);
      draws := draws + 1;
      addrs := addrs[id := src];
    }

    method Query(id: u64, src: Addr) returns (addr: Option<string>)
      modifies this
      ensures R.Handled(State(), addr) == R.QueryHost(old(State()), id, src)
    {
      if id in addrs {
        var host := addrs[id];
        SendTo(ConnectTo(Text(src)), host);
        addr := Some(Text(host));
      } else {
        addr := None;
      }
    }

    method HandleMsg(m: Message, src: Addr) returns (reply: Option<Message>)
      modifies this
      ensures R.Handled(State(), reply) == R.HandleMsg(rng, old(State()), m, src)
    {
      match m {
        case Ping(x) =>
          reply := Some(Pong(x));
        case Register =>
          var id := Register(src);
          reply := Some(RegisterReply(id));
        case Query(id) =>
          var addr := Query(id, src);
          if addr.Some? {
            reply := Some(ConnectTo(addr.value));
          } else {
            reply := Some(NotFound(id));
          }
        case _ =>
          reply := None;
      }
    }

    /** One iteration of the receive loop: receive, dispatch, reply to the sender. */
    method RunStep()
      requires inbox != []
      modifies this
      ensures Some(State()) == R.Step(rng, old(State()))
    {
      var d := RecvFrom();
      var reply := HandleMsg(d.msg, d.addr);
      if reply.Some? {
        SendTo(reply.value, d.addr);
      }
    }

    /** The receive loop, until no datagram is left to receive. */
    method Run()
      modifies this
      ensures State() == R.Run(rng, old(State()))
    {
      while inbox != []
        invariant R.Run(rng, State()) == R.Run(rng, old(State()))
        decreases |inbox|
      {
        RunStep();
      }
    }
  }
}
