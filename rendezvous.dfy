/**
 The rendezvous service ("puncher") as a function of its state: a registry
 from host ids to the address each host registered from, and its socket,
 seen as the datagrams still to be received (inbox, consumed from the front)
 and the datagrams sent so far (outbox, appended in order). Random ids come
 from the supplied draw sequence rng: the k-th id drawn is rng(k).
 */
module Rendezvous {
  import opened Optional
  import opened Net
  import opened Wire

  type Packet = Datagram<Message>

  datatype Service = Service(addrs: map<u64, Addr>, outbox: seq<Packet>, inbox: seq<Packet>, draws: nat)

  /** What a handler leaves behind: the new state, and a value (the reply, the id, the host's address). */
  datatype Handled<T> = Handled(service: Service, value: T)

  function Send(s: Service, m: Message, dest: Addr): Service {
    s.(outbox := s.outbox + [Datagram(m, dest)])
  }

  /** Register the sender under a freshly drawn id, replacing whatever held that id. */
  function RegisterSender(rng: nat -> u64, s: Service, src: Addr): Handled<u64> {
    var id := rng(s.draws);
    Handled(s.(addrs := s.addrs[id := src], draws := s.draws + 1), id)
  }

  /** Look up a host; on a hit, tell the host the querier's address and return the host's address as text. */
  function QueryHost(s: Service, id: u64, src: Addr): Handled<Option<string>> {
    if id in s.addrs then
      var host := s.addrs[id];
      Handled(Send(s, ConnectTo(Text(src)), host), Some(Text(host)))
    else
      Handled(s, None)
  }

  /** The dispatch table: the reply to send back to the sender, if any. */
  function HandleMsg(rng: nat -> u64, s: Service, m: Message, src: Addr): Handled<Option<Message>> {
    match m
    case Ping(x) => Handled(s, Some(Pong(x)))
    case Register =>
      var r := RegisterSender(rng, s, src);
      Handled(r.service, Some(RegisterReply(r.value)))
    case Query(id) =>
      var q := QueryHost(s, id, src);
      Handled(q.service, if q.value.Some? then Some(ConnectTo(q.value.value)) else Some(NotFound(id)))
    case _ => Handled(s, None)
  }

  /** One iteration of the receive loop; None when no datagram is left (the receive would block). */
  function Step(rng: nat -> u64, s: Service): (r: Option<Service>)
    ensures r.Some? <==> s.inbox != []
    ensures r.Some? ==> r.value.inbox == s.inbox[1..]
  {
    if s.inbox == [] then None
    else
      var d := s.inbox[0];
      var h := HandleMsg(rng, s.(inbox := s.inbox[1..]), d.msg, d.addr);
      Some(if h.value.Some? then Send(h.service, h.value.value, d.addr) else h.service)
  }

  /** The receive loop run until the inbox is exhausted. */
  function Run(rng: nat -> u64, s: Service): (r: Service)
    ensures r.inbox == []
    decreases |s.inbox|
  {
    match Step(rng, s)
    case None => s
    case Some(s') => Run(rng, s')
  }

  // ---------------------------------------------------------------------
  // One datagram at a time

  /** Ping(x) from any sender: exactly one send, Pong(x) back to it; nothing else changes. */
  lemma StepPing(rng: nat -> u64, s: Service, x: u32, src: Addr)
    requires s.inbox != [] && s.inbox[0] == Datagram(Ping(x), src)
    ensures Step(rng, s) == Some(s.(inbox := s.inbox[1..], outbox := s.outbox + [Datagram(Pong(x), src)]))
  {
  }

  /** Register from src: the drawn id now maps to src, and RegisterReply(id) goes back to src. */
  lemma StepRegister(rng: nat -> u64, s: Service, src: Addr)
    requires s.inbox != [] && s.inbox[0] == Datagram(Register, src)
    ensures var id := rng(s.draws);
      Step(rng, s) == Some(Service(s.addrs[id := src], s.outbox + [Datagram(RegisterReply(id), src)],
                                   s.inbox[1..], s.draws + 1))
  {
  }

  /** Registration never checks for a collision, and leaves every other id as it was. */
  lemma StepRegisterOverwrites(rng: nat -> u64, s: Service, src: Addr)
    requires s.inbox != [] && s.inbox[0] == Datagram(Register, src)
    ensures var r := Step(rng, s).value;
      && r.addrs[rng(s.draws)] == src
      && r.addrs.Keys == s.addrs.Keys + {rng(s.draws)}
      && forall id :: id in s.addrs && id != rng(s.draws) ==> r.addrs[id] == s.addrs[id]
  {
  }

  /** Query(id) from src for a registered host: two sends, in this order, each carrying the other party's address. */
  lemma StepQueryFound(rng: nat -> u64, s: Service, id: u64, src: Addr)
    requires s.inbox != [] && s.inbox[0] == Datagram(Query(id), src)
    requires id in s.addrs
    ensures var host := s.addrs[id];
      Step(rng, s) == Some(s.(inbox := s.inbox[1..],
                              outbox := s.outbox + [Datagram(ConnectTo(Text(src)), host),
                                                    Datagram(ConnectTo(Text(host)), src)]))
  {
    var host := s.addrs[id];
    var sent := [Datagram(ConnectTo(Text(src)), host), Datagram(ConnectTo(Text(host)), src)];
    assert s.outbox + [sent[0]] + [sent[1]] == s.outbox + sent;
  }

  /** Query(id) for an unregistered id: only NotFound(id) back to the querier. */
  lemma StepQueryMissing(rng: nat -> u64, s: Service, id: u64, src: Addr)
    requires s.inbox != [] && s.inbox[0] == Datagram(Query(id), src)
    requires id !in s.addrs
    ensures Step(rng, s) == Some(s.(inbox := s.inbox[1..], outbox := s.outbox + [Datagram(NotFound(id), src)]))
  {
  }

  /** Every other message is consumed and has no effect. */
  lemma StepIgnored(rng: nat -> u64, s: Service)
    requires s.inbox != []
    requires !(s.inbox[0].msg.Ping? || s.inbox[0].msg.Register? || s.inbox[0].msg.Query?)
    ensures Step(rng, s) == Some(s.(inbox := s.inbox[1..]))
  {
  }

  /** Only Register changes the registry; only Register draws an id. */
  lemma StepRegistryUnlessRegister(rng: nat -> u64, s: Service)
    requires s.inbox != [] && !s.inbox[0].msg.Register?
    ensures Step(rng, s).value.addrs == s.addrs
    ensures Step(rng, s).value.draws == s.draws
  {
  }

  // ---------------------------------------------------------------------
  // Whole runs

  /** The addresses a datagram sequence came from. */
  function Senders(ds: seq<Packet>): set<Addr> {
    set d | d in ds :: d.addr
  }

  /** The addresses of the datagrams in ds that sent Register. */
  function Registrants(ds: seq<Packet>): set<Addr> {
    set d | d in ds && d.msg.Register? :: d.addr
  }

  /** The run only appends to the outbox, and the registry only gains keys (nothing is ever removed). */
  lemma {:induction false} RunGrows(rng: nat -> u64, s: Service)
    ensures s.outbox <= Run(rng, s).outbox
    ensures s.addrs.Keys <= Run(rng, s).addrs.Keys
    ensures s.draws <= Run(rng, s).draws
    decreases |s.inbox|
  {
    if s.inbox != [] {
      var s' := Step(rng, s).value;
      RunGrows(rng, s');
    }
  }

  /** Every registered address was in the registry before, or sent a Register during the run. */
  lemma {:induction false} RunRegistersOnlyRegistrants(rng: nat -> u64, s: Service)
    ensures Run(rng, s).addrs.Values <= s.addrs.Values + Registrants(s.inbox)
    decreases |s.inbox|
  {
    if s.inbox != [] {
      var s' := Step(rng, s).value;
      RunRegistersOnlyRegistrants(rng, s');
      assert s.inbox == [s.inbox[0]] + s'.inbox;
      assert Registrants(s'.inbox) <= Registrants(s.inbox);
      var d := s.inbox[0];
      if d.msg.Register? {
        assert d.addr in Registrants(s.inbox);
        assert s'.addrs == s.addrs[rng(s.draws) := d.addr];
        assert s'.addrs.Values <= s.addrs.Values + {d.addr};
      }
    }
  }

  /** One iteration sends only to the datagram's sender or to a registered host, and registers at most the sender. */
  lemma StepRepliesOnly(rng: nat -> u64, s: Service)
    requires s.inbox != []
    ensures var s' := Step(rng, s).value;
      && s.outbox <= s'.outbox
      && (forall k :: |s.outbox| <= k < |s'.outbox| ==> s'.outbox[k].addr in s.addrs.Values + {s.inbox[0].addr})
      && s'.addrs.Values <= s.addrs.Values + {s.inbox[0].addr}
  {
    var d := s.inbox[0];
    if d.msg.Register? {
      assert Step(rng, s).value.addrs == s.addrs[rng(s.draws) := d.addr];
    }
  }

  /**
   The service never initiates traffic: every datagram it sends goes to an address it
   received a datagram from during the run, or to a host that was already registered.
   */
  lemma {:induction false} RunRepliesOnly(rng: nat -> u64, s: Service)
    ensures var r := Run(rng, s);
      s.outbox <= r.outbox &&
      forall k :: |s.outbox| <= k < |r.outbox| ==> r.outbox[k].addr in s.addrs.Values + Senders(s.inbox)
    decreases |s.inbox|
  {
    if s.inbox != [] {
      var s' := Step(rng, s).value;
      var d := s.inbox[0];
      var allowed := s.addrs.Values + Senders(s.inbox);
      RunRepliesOnly(rng, s');
      StepRepliesOnly(rng, s);
      assert s'.addrs.Values + Senders(s'.inbox) <= allowed by {
        assert s.inbox == [d] + s'.inbox;
        assert Senders(s'.inbox) <= Senders(s.inbox);
        assert d.addr in Senders(s.inbox);
      }
    }
  }

  /** A service that starts with an empty registry only ever sends to addresses that sent it something. */
  lemma FreshServiceRepliesToSenders(rng: nat -> u64, inbox: seq<Packet>)
    ensures var r := Run(rng, Service(map[], [], inbox, 0));
      forall k :: 0 <= k < |r.outbox| ==> r.outbox[k].addr in Senders(inbox)
  {
    RunRepliesOnly(rng, Service(map[], [], inbox, 0));
  }

  /**
   Host a registers and client b then queries the id it was given: a learns its id,
   then a is told b's address and b is told a's, and each text resolves to exactly that address.
   */
  lemma RegisterThenQuery(rng: nat -> u64, s: Service, a: Addr, b: Addr)
    requires |s.inbox| >= 2
    requires s.inbox[0] == Datagram(Register, a)
    requires s.inbox[1] == Datagram(Query(rng(s.draws)), b)
    ensures var r := Step(rng, Step(rng, s).value).value;
      && r.outbox == s.outbox + [Datagram(RegisterReply(rng(s.draws)), a),
                                 Datagram(ConnectTo(Text(b)), a),
                                 Datagram(ConnectTo(Text(a)), b)]
      && r.addrs == s.addrs[rng(s.draws) := a]
      && Resolve(Text(a)) == Some(a) && Resolve(Text(b)) == Some(b)
  {
    var s1 := Step(rng, s).value;
    StepRegister(rng, s, a);
    StepQueryFound(rng, s1, rng(s.draws), b);
    ResolveText(a);
    ResolveText(b);
  }
}
