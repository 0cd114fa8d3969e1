/**
 The wire protocol: the closed set of messages exchanged between peers and the
 rendezvous service ("puncher"). Fixed-width unsigned fields are nat ranges.
 */
module Wire {

  type u32 = x: nat | x < 0x1_0000_0000
  type u64 = x: nat | x < 0x1_0000_0000_0000_0000

  datatype Message =
    | Ping(nonce: u32)         // request a Pong carrying the same nonce
    | Pong(nonce: u32)         // the reply to a Ping
    | Data(payload: string)    // application payload between peers
    | Register                 // host -> puncher: ask for an id
    | RegisterReply(id: u64)   // puncher -> host: the id assigned
    | Query(id: u64)           // client -> puncher: ask for the host with this id
    | ConnectTo(addr: string)  // puncher -> host or client: a socket address as text
    | NotFound(id: u64)        // puncher -> client: no host has this id

  /** The position of a message's variant in the declaration. */
  function Tag(m: Message): (t: nat)
    ensures t < 8
  {
    match m
    case Ping(_) => 0
    case Pong(_) => 1
    case Data(_) => 2
    case Register => 3
    case RegisterReply(_) => 4
    case Query(_) => 5
    case ConnectTo(_) => 6
    case NotFound(_) => 7
  }

  /** A message is determined by its variant and that variant's one field (Register has none). */
  lemma TagAndFieldDetermine(m: Message, n: Message)
    requires Tag(m) == Tag(n)
    ensures m.Register? ==> m == n
    ensures (m.Ping? || m.Pong?) && m.nonce == n.nonce ==> m == n
    ensures (m.RegisterReply? || m.Query? || m.NotFound?) && m.id == n.id ==> m == n
    ensures m.Data? && m.payload == n.payload ==> m == n
    ensures m.ConnectTo? && m.addr == n.addr ==> m == n
  {
  }
}
