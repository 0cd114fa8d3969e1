# sixpunch, modelled in Dafny

sixpunch is a small UDP hole-punching protocol with three parts:

- **The wire messages.** `Message` has eight variants: Ping, Pong, Data, Register, RegisterReply, Query, ConnectTo and NotFound.
- **The rendezvous service (the "puncher").** It keeps a registry from random 64-bit ids to the addresses hosts registered from.
  - It answers Ping with Pong.
  - It registers the sender of Register under a fresh id.
  - It answers Query either by introducing the querier and the host to each other with a ConnectTo each, or with NotFound.
- **The peer agent (the "client").** It keeps an append-only list of confirmed peers.
  - It answers Ping and obeys ConnectTo only when the puncher sent it.
  - Its handshake (`connect_to`) sends `Ping(nonce)` and then receives datagrams until the matching Pong arrives. Everything else that arrives meanwhile goes through the same dispatch routine, which is why `handle_msg` and `connect_to` are mutually recursive.

The model's modules:

- `Wire`: the message datatype. Its `u32` and `u64` fields are bounded `nat` subtypes.
- `Net` and `Textual`: socket addresses (IPv4 or IPv6 plus a port).
  - `Net.Text` renders an address as the text a ConnectTo carries.
  - `Net.Resolve` reads a socket-address literal, as the standard parser does, including IPv6 written with `::`.
  - `Net.ResolveText` proves that Resolve undoes Text: `Resolve(Text(a)) == Some(a)`.
- `Rendezvous`: the puncher as functions of its state. The state is the registry, plus a socket seen as an inbox of datagrams still to be received (consumed from the front) and an outbox of datagrams sent (appended in order). The k-th id drawn is `rng(k)`.
- `RendezvousServer`: the puncher as a class.
  - The registry is a `map` field, updated in place.
  - Each method is proved equal to its counterpart in `Rendezvous`.
  - The receive loop `Run` runs until the inbox is empty.
- `PeerLogic`: the client as mutually recursive functions of its state (peers, outbox, inbox, nonce draws), together with the lemmas about them.
  - A receive on an empty inbox would block forever, so the operation ends `Stalled`.
  - A ConnectTo whose text names no address makes the Ping's send panic, so the operation ends `Panicked`.
- `PeerAgent`: the client as a class.
  - `peers` is a `seq` field that the handshake appends to.
  - The handshake, registration and wait loops are `while` loops.
  - The broadcast is a `for` loop.
  - `HandleMsg` and `ConnectTo` are mutually recursive methods.
  - Each method is proved equal to its counterpart in `PeerLogic`.

The `Client` struct appears twice in the repository, in `src/udp/client.rs` and again, with the same struct and method bodies, in `src/bin/client.rs`. It is modelled once, and the table below cites both copies.

## Model

| member | source | states |
|---|---|---|
| Wire.Tag | src/lib.rs:5-23 | every message is one of exactly eight variants |
| Wire.TagAndFieldDetermine | src/lib.rs:5-23 | a message is determined by its variant and its one field, and Register carries none; the field types bound Ping/Pong values below 2^32 and ids below 2^64 |
| Net.Text | src/udp/puncher.rs:46-49 | an address as the text the puncher puts in a ConnectTo; what it promises is stated by Net.ResolveText and Net.TextInjective (IPv6 uncompressed, see Left out) |
| Net.Resolve | src/udp/client.rs:43-46 | reading the destination text of a send: IPv4 or IPv6 literal with port, one `::` expanding to one or more zero groups; None for anything else; stated by Net.ResolveText, Net.ResolveLoopback and Net.ResolveDefaultPuncher |
| Net.ResolveText | src/udp/puncher.rs:43-53 | reading back the text the puncher writes for an address gives that same address; the ConnectTo text a client receives resolves to exactly the address it was made from (src/udp/client.rs:66-70) |
| Net.TextInjective | src/udp/puncher.rs:46-49 | distinct addresses are written as distinct texts |
| Net.ResolveLoopback | src/udp/client.rs:19 | "[::1]:" followed by any port numeral resolves to the IPv6 loopback address at that port |
| Net.ResolveDefaultPuncher | src/bin/client.rs:144-152 | the puncher text both call sites pass, "[::1]:11121", resolves to the IPv6 loopback address at port 11121, so the client can be constructed with it |
| Net.ResolveLoopbackHost | src/udp/puncher.rs:46-49 | the compressed text the standard display writes for a host at port 11122 of the IPv6 loopback address, "[::1]:11122", resolves to that address |
| Rendezvous.Step | src/udp/puncher.rs:59-71 | one iteration happens exactly when a datagram is waiting, and it consumes exactly that datagram |
| Rendezvous.Run | src/udp/puncher.rs:57-72 | the receive loop consumes every waiting datagram |
| Rendezvous.HandleMsg | src/udp/puncher.rs:22-34 | the dispatch table; each row is stated by Rendezvous.StepPing, StepRegister, StepQueryFound, StepQueryMissing and StepIgnored |
| Rendezvous.RegisterSender | src/udp/puncher.rs:36-41 | registration under the drawn id; stated by Rendezvous.StepRegister and StepRegisterOverwrites |
| Rendezvous.QueryHost | src/udp/puncher.rs:43-53 | lookup with the introduction to the host; stated by Rendezvous.StepQueryFound and StepQueryMissing |
| Rendezvous.StepPing | src/udp/puncher.rs:24 | Ping(x) from any sender causes exactly one send, Pong(x) back to that sender; the registry and all else are unchanged |
| Rendezvous.StepRegister | src/udp/puncher.rs:36-41 | Register from A with drawn id i makes the registry old[i := A] and sends exactly RegisterReply(i) to A |
| Rendezvous.StepRegisterOverwrites | src/udp/puncher.rs:39 | registration overwrites an entry already under the drawn id without checking, and every other id keeps its address |
| Rendezvous.StepQueryFound | src/udp/puncher.rs:43-53 | Query(id) from B for host H causes exactly two sends, in order: ConnectTo(text of B) to H, then ConnectTo(text of H) to B; the registry is unchanged |
| Rendezvous.StepQueryMissing | src/udp/puncher.rs:29-31 | Query for an unregistered id causes only NotFound(id) to the querier |
| Rendezvous.StepIgnored | src/udp/puncher.rs:32 | Pong, Data, RegisterReply, ConnectTo and NotFound cause no send and no change |
| Rendezvous.StepRegistryUnlessRegister | src/udp/puncher.rs:22-34 | only Register changes the registry or draws an id |
| Rendezvous.RunGrows | src/udp/puncher.rs:57-72 | over a run the outbox only grows at the end, and the registry never loses a key |
| Rendezvous.RunRegistersOnlyRegistrants | src/udp/puncher.rs:36-41 | every registered address was already registered or sent a Register during the run |
| Rendezvous.StepRepliesOnly | src/udp/puncher.rs:66-69 | one iteration sends only to the datagram's sender or to an already registered host, and registers at most that sender |
| Rendezvous.RunRepliesOnly | src/udp/puncher.rs:57-72 | every datagram sent during a run goes to an address that sent something during the run, or to a host already registered |
| Rendezvous.FreshServiceRepliesToSenders | src/udp/puncher.rs:14-20 | a service that starts with an empty registry sends only to addresses it has heard from |
| Rendezvous.RegisterThenQuery | src/udp/puncher.rs:22-53 | host A registers, then B queries the returned id: A gets its id, then A is sent B's address and B is sent A's, and each text resolves to that address |
| RendezvousServer.Puncher.constructor | src/udp/puncher.rs:14-20 | the registry starts empty and nothing has been sent |
| RendezvousServer.Puncher.SendTo | src/udp/puncher.rs:66-69 | exactly one datagram is appended to the outbox |
| RendezvousServer.Puncher.RecvFrom | src/udp/puncher.rs:60-63 | the first waiting datagram is returned and consumed |
| RendezvousServer.Puncher.Register | src/udp/puncher.rs:36-41 | the registry is updated in place, and the result equals Rendezvous.RegisterSender |
| RendezvousServer.Puncher.Query | src/udp/puncher.rs:43-53 | the introduction to the host is sent, and the result and state equal Rendezvous.QueryHost |
| RendezvousServer.Puncher.HandleMsg | src/udp/puncher.rs:22-34 | the reply and the new state equal the dispatch table Rendezvous.HandleMsg |
| RendezvousServer.Puncher.RunStep | src/udp/puncher.rs:59-71 | one receive, dispatch and reply equals Rendezvous.Step |
| RendezvousServer.Puncher.Run | src/udp/puncher.rs:57-72 | the loop's final state equals Rendezvous.Run, whose properties are proved above |
| PeerLogic.HandleMsg | src/udp/client.rs:48-64 | dispatching never adds to the inbox; what it does is stated by the lemmas below |
| PeerLogic.Connect | src/udp/client.rs:66-82 | the handshake never adds to the inbox, which is the measure of the mutual recursion with HandleMsg |
| PeerLogic.AwaitPong | src/udp/client.rs:71-81 | the handshake's receive loop never adds to the inbox |
| PeerLogic.AwaitRegisterReply | src/udp/client.rs:90-96 | the registration loop never adds to the inbox |
| PeerLogic.Wait | src/udp/client.rs:99-104 | the host's receive loop never returns; it ends only by stalling or panicking |
| PeerLogic.RegisterHost | src/udp/client.rs:87-97 | Register to the puncher, then the registration loop; stated by PeerLogic.RegisterHostSends, AwaitRegisterReplyFirst and AwaitRegisterReplyReturned |
| PeerLogic.ConnectToHost | src/udp/client.rs:106-115 | Query to the puncher and one reply handled; stated by PeerLogic.ConnectToHostResult |
| PeerLogic.DataTo | src/udp/client.rs:119-121 | the datagrams of the broadcast loop; stated by PeerLogic.DataToEach and DataToAppend |
| PeerLogic.BroadcastData | src/udp/client.rs:117-122 | the broadcast as a state change; stated by PeerLogic.BroadcastDataSends |
| PeerLogic.HandleMsgLater | src/udp/client.rs:48-64 | dispatching only appends to peers and the outbox, only consumes the inbox from the front, and never un-draws a nonce |
| PeerLogic.ConnectLater | src/udp/client.rs:66-82 | the same for the handshake; in particular peers is append-only |
| PeerLogic.AwaitPongLater | src/udp/client.rs:71-81 | the same for the handshake's receive loop |
| PeerLogic.AwaitRegisterReplyLater | src/udp/client.rs:87-97 | the same for registration |
| PeerLogic.WaitLater | src/udp/client.rs:99-104 | the same for the host's receive loop |
| PeerLogic.AwaitPongReturned | src/udp/client.rs:73-77 | when the handshake's wait returns, the last datagram it consumed was Pong(nonce), and that datagram's source is the newest peer |
| PeerLogic.AwaitRegisterReplyReturned | src/udp/client.rs:90-96 | when registration returns an id, the last datagram consumed was RegisterReply carrying that id |
| PeerLogic.HandlePing | src/udp/client.rs:48-64 | Ping(x) from S appends exactly Pong(x) to S; peers unchanged (the copy in the binary: src/bin/client.rs:91-107) |
| PeerLogic.HandleConnectToFromStranger | src/udp/client.rs:51-57 | a ConnectTo from anyone but the puncher changes nothing and sends nothing (the copy in the binary: src/bin/client.rs:94-100) |
| PeerLogic.HandleOther | src/udp/client.rs:57 | Pong, Data, Register, RegisterReply, Query and NotFound are ignored |
| PeerLogic.HandleQuiet | src/udp/client.rs:48-64 | a datagram that is not a ConnectTo from the puncher is answered if it is a Ping and otherwise ignored |
| PeerLogic.HandleConnectToFromPuncherCalls | src/udp/client.rs:51-54 | unfolding helper: a ConnectTo from the puncher is exactly a handshake with the address its text names |
| PeerLogic.ConnectResolved | src/udp/client.rs:66-70 | unfolding helper: the handshake draws one nonce, sends Ping(nonce) to the destination, and then waits for the Pong |
| PeerLogic.HandleConnectToFromPuncher | src/udp/client.rs:51-70 | a ConnectTo from the puncher first sends Ping(n) to the named address, with n the freshly drawn nonce, before anything else; unresolvable text panics and nothing is sent (the copy in the binary: src/bin/client.rs:94-113) |
| PeerLogic.ConnectToText | src/udp/client.rs:51-70 | when the ConnectTo carries the text of address b, the Ping goes to exactly b |
| PeerLogic.ConnectToLoopbackHost | src/udp/client.rs:51-70 | a ConnectTo from the puncher carrying "[::1]:11122" sends Ping(n) to port 11122 of the IPv6 loopback address, with n the freshly drawn nonce |
| PeerLogic.AwaitPongDispatch | src/udp/client.rs:79 | unfolding helper: a datagram other than the awaited Pong is dispatched; the wait continues only if the handler returned |
| PeerLogic.AwaitPongFirstMatch | src/udp/client.rs:71-81 | with no nested handshake, the wait returns at the first Pong(nonce). Peers gain exactly its source, which is not compared with the Ping's target. Earlier Pings are answered. Other Pongs and all other messages are dropped (the copy in the binary: src/bin/client.rs:114-124) |
| PeerLogic.AwaitPongNoMatch | src/udp/client.rs:71-81 | with no nested handshake and no Pong(nonce), the wait answers every Ping, adds no peer and stalls |
| PeerLogic.NestedHandshakeSwallowsPong | src/udp/client.rs:71-81 | a ConnectTo from the puncher during a handshake starts a nested one, which drops the outer handshake's Pong: only the nested peer is added, and the outer handshake waits on |
| PeerLogic.HandleMsgPeersFromPongs | src/udp/client.rs:76 | every peer that dispatching adds is the source of a Pong among the datagrams it consumed |
| PeerLogic.ConnectPeersFromPongs | src/udp/client.rs:76 | every peer a handshake adds is the source of a Pong among the datagrams it consumed |
| PeerLogic.AwaitPongPeersFromPongs | src/udp/client.rs:71-81 | every peer the handshake's wait adds is the source of a Pong among the datagrams it consumed |
| PeerLogic.AwaitRegisterReplyFirst | src/udp/client.rs:87-97 | with no nested handshake, registration returns the id of the first RegisterReply. It answers the Pings before it and leaves peers unchanged (the copy in the binary: src/bin/client.rs:31-41) |
| PeerLogic.RegisterHostSends | src/udp/client.rs:88-89 | registration first sends Register to the puncher |
| PeerLogic.ConnectToHostResult | src/udp/client.rs:106-115 | Query(id) goes to the puncher first. With no reply, the call stalls. It returns false exactly when the first reply is any NotFound, whatever its id. It returns true exactly when handling any other first reply returns (the copy in the binary: src/bin/client.rs:43-52) |
| PeerLogic.WaitQuiet | src/udp/client.rs:99-104 | with no handshakes, the host's loop answers every Ping and changes nothing else |
| PeerLogic.DataToEach | src/udp/client.rs:119-121 | one Data(payload) per peer, in list order, to no one else |
| PeerLogic.DataToAppend | src/udp/client.rs:119-121 | one more peer adds one more Data datagram at the end |
| PeerLogic.BroadcastDataSends | src/udp/client.rs:117-122 | broadcasting appends Data(payload) to each peer in order and to no other address; peers, inbox and draws are unchanged (the copy in the binary: src/bin/client.rs:54-59) |
| PeerAgent.Client.constructor | src/udp/client.rs:15-23 | the puncher address is the resolved text; no peers and nothing sent (the copy in the binary: src/bin/client.rs:21-29) |
| PeerAgent.Client.RecvMsg | src/udp/client.rs:25-35 | the first waiting datagram is returned and consumed (the copy in the binary: src/bin/client.rs:68-78) |
| PeerAgent.Client.SendMsg | src/udp/client.rs:43-46 | exactly one datagram is appended to the outbox (the copy in the binary: src/bin/client.rs:86-89) |
| PeerAgent.Client.SendPuncherMsg | src/udp/client.rs:37-41 | exactly one datagram is appended, addressed to the puncher (the copy in the binary: src/bin/client.rs:80-84) |
| PeerAgent.Client.HandleMsg | src/udp/client.rs:48-64 | the new state and outcome equal PeerLogic.HandleMsg (the copy in the binary: src/bin/client.rs:91-107) |
| PeerAgent.Client.ConnectTo | src/udp/client.rs:66-82 | the loop's final state and outcome equal PeerLogic.Connect on the resolved text (the copy in the binary: src/bin/client.rs:109-125) |
| PeerAgent.Client.RegisterHost | src/udp/client.rs:87-97 | the state and the returned id equal PeerLogic.RegisterHost (the copy in the binary: src/bin/client.rs:31-41) |
| PeerAgent.Client.Wait | src/udp/client.rs:99-104 | the state and outcome equal PeerLogic.Wait, which never returns (the copy in the binary: src/bin/client.rs:61-66) |
| PeerAgent.Client.ConnectToHost | src/udp/client.rs:106-115 | the state and the returned flag equal PeerLogic.ConnectToHost (the copy in the binary: src/bin/client.rs:43-52) |
| PeerAgent.Client.BroadcastData | src/udp/client.rs:117-122 | the final state equals PeerLogic.BroadcastData (the copy in the binary: src/bin/client.rs:54-59) |

## Left out

- Sockets: binding, receiving and sending are the inbox and outbox. Send and receive failures (the `.expect` panics after `send_to` and `recv_from`) are not modelled: every send succeeds and every receive returns the next datagram.
- The binary encoding: messages travel as values. The serialization library's byte format, its 500-byte size limit, decode failures, and `recv_msg` ignoring the received byte count are not modelled, because the format is a foreign library's.
- Random numbers: ids and nonces come from a supplied draw function `rng` and a counter of draws made so far.
- Name resolution: `Net.Resolve` reads only IPv4 and IPv6 socket-address literals. The source hands any other text to the system resolver; the model resolves host names to None.
- Net.Text: IPv6 is written with all eight groups in lower-case hex and no `::` compression, whereas the standard library's display compresses zero runs. It also never writes the dotted IPv4 tail the standard display uses for an IPv4-mapped address, or the `%scope` suffix it writes when a scope id is set; scope ids and flow info are not modelled. Only the round trip matters to the protocol, and it is proved.
- Net.Resolve: it rejects two forms that the standard parser accepts: an IPv6 literal ending in an embedded dotted IPv4 address (`[::ffff:1.2.3.4]:80`), and a scope id (`[fe80::1%2]:80`). Text writes neither form, but the standard display does: it writes an IPv4-mapped IPv6 address as `[::ffff:a.b.c.d]:port`, and a dual-stack puncher sees every IPv4 peer that way. A ConnectTo carrying such text makes the model's client panic where the program would ping.
- Logging (`println!`) is not modelled; it has no effect on the protocol state.
- The unbounded loops (`run`, `wait`, and the loops in `connect_to` and `register_host`) run over a finite inbox. When the inbox is exhausted the operation ends `Stalled`, standing for a receive that blocks forever.
- PeerAgent.Client.constructor: it requires that the puncher text resolves, whereas the source panics (`expect`/`unwrap`) when it does not. The listen address and `bind` are left out as I/O.
- `main` in `src/bin/client.rs`, with its command-line parsing and stdin loop, is not part of this model.
- The handshake accepts a matching Pong from whatever address sent it. The source never compares that address with the Ping's target, so a Pong from a third party completes the handshake; the model does the same (see PeerLogic.AwaitPongFirstMatch).
