/** Onion circuits: a client builds setup and data packets from the last layer to the first, the
    servers peel them from the first to the last. Encryption is ideal: what was sealed opens with
    the matching key and with no other. */
module Network {
  import opened PrimeField
  import opened Group
  import opened Results
  import opened Encoding
  import opened Selection
  import opened Signatures
  import opened Disclosure
  import opened PokTicket
  import Codecs

  datatype Verification = Verify | NoVerification | OnlyVerifyEdgeCases

  datatype Connection = Connection(connId: nat, key: nat, layer: nat, curServer: nat, destServer: nat)

  datatype SetupHeader = SetupHeader(ticket: seq<Byte>, proof: seq<Byte>, conn: Connection)

  datatype SetupPacket = SetupPacket(header: SetupHeader, data: Wire)

  datatype DataHeader = DataHeader(connId: nat, nonce: nat)

  /** What travels: plain bytes, a setup packet sealed for a key pair, or a data packet whose body
      is boxed under a nonce and a symmetric key. */
  datatype Wire =
    | Plain(bytes: seq<Byte>)
    | Sealed(recipient: nat, packet: SetupPacket)
    | Boxed(header: DataHeader, nonce: nat, key: nat, body: Wire)

  /** `servers` holds each server's key pair. */
  datatype Network = Network(idKey: PublicKey, sysRand: int, roundId: nat, size: nat, layers: nat,
                             mode: Verification, compressed: bool, servers: seq<nat>)
  {
    ghost predicate Valid() {
      size > 0 && layers > 0 && |servers| == size
    }

    function LastLayer(): nat
      requires layers > 0
    {
      layers - 1
    }
  }

  /** `Network::new`: one server is generated and cloned. */
  function NewNetwork(idKey: PublicKey, size: nat, layers: nat, mode: Verification, compressed: bool, keyPair: nat): Network {
    Network(idKey, 0, 0, size, layers, mode, compressed, seq(size, _ => keyPair))
  }

  // ---------- Tickets ----------

  /** `h_0` of the serialized layer, round and randomness: an arbitrary function. */
  const TICKET_HASH: (nat, nat, int) -> G1

  /** The 64-bit hash of a point: an arbitrary function. */
  const SERVER_HASH: G1 -> nat

  /** The hash of the one message every client's signature is for. */
  const TESTING: Fr

  const NO_SERVER: nat := 0xFFFF_FFFF_FFFF_FFFF

  function TicketBase(net: Network, layer: nat): G1 {
    TICKET_HASH(layer, net.roundId, net.sysRand)
  }

  function NextServer(t: G1, size: nat): (x: nat)
    requires size > 0
    ensures x < size
  {
    SERVER_HASH(t) % size
  }

  /** A client's signature that the network's identity provider would accept. */
  ghost predicate Honest(net: Network, sig: Signature) {
    VerifySig(sig, [TESTING], net.idKey) == Ok(true)
  }

  /** The random choices for one layer. */
  datatype LayerCoins = LayerCoins(connId: nat, key: nat, ticket: TicketCoins)

  ghost predicate UsableLayers(coins: seq<LayerCoins>) {
    forall i :: 0 <= i < |coins| ==> UsableTicket(coins[i].ticket, 1)
  }

  /** `get_ticket_proof`, encoded; its errors are unwrapped. */
  function TicketProof(net: Network, sig: Signature, t: G1, b: G1, coins: TicketCoins): Result<seq<Byte>>
    requires UsableTicket(coins, 1)
  {
    match Start(sig, net.idKey, [Revealed(TESTING)], t, b, coins)
    case Ok(pok) =>
      var challenge := HASH_TO_FR(StartBytes(pok));
      (match ProveAll(pok, challenge)
       case Ok(proof) => Ok(Codecs.EncodeTicket(proof, net.compressed))
       case _ => Panic)
    case _ => Panic
  }

  /** What the two kinds of packets do to a layer: nothing, or a ticket of the sender's choice in
      every layer but the first. */
  datatype Modification = Keep | Replace(badTickets: seq<G1>)

  function Modify(m: Modification, net: Network, header: SetupHeader, server: nat, layer: nat): Result<(SetupHeader, nat)>
    requires net.Valid()
  {
    if m.Keep? || layer == 0 then Ok((header, server))
    else if layer - 1 >= |m.badTickets| then Panic
    else
      var t := m.badTickets[layer - 1];
      var next := NextServer(t, net.size);
      Ok((header.(ticket := SerG1(t, net.compressed), conn := header.conn.(destServer := next)), next))
  }

  /** The header of one layer and the server its ticket names. The guard on the match covers both of
      its patterns, so a proof is made in every mode, except at the last layer. */
  function LayerHeader(net: Network, sig: Signature, layer: nat, coins: LayerCoins): Result<(SetupHeader, nat)>
    requires net.Valid() && UsableTicket(coins.ticket, 1)
  {
    var b := TicketBase(net, layer);
    var t := Mul(b, sig.e);
    var server := NextServer(t, net.size);
    var proof :- if layer == net.LastLayer() then Ok([]) else TicketProof(net, sig, t, b, coins.ticket);
    Ok((SetupHeader(SerG1(t, net.compressed), proof, Connection(coins.connId, coins.key, layer, 0, server)), server))
  }

  type Header = (SetupHeader, nat)

  /** The modified headers of the layers from `i` on. */
  function Headers(net: Network, sig: Signature, m: Modification, coins: seq<LayerCoins>, i: nat): (r: Result<seq<Header>>)
    requires net.Valid() && UsableLayers(coins) && |coins| == net.layers && i <= net.layers
    ensures r.Ok? ==> |r.value| == net.layers - i
    decreases net.layers - i
  {
    if i == net.layers then Ok([]) else
      var rest :- Headers(net, sig, m, coins, i + 1);
      var (header, server) :- LayerHeader(net, sig, i, coins[i]);
      var modified :- Modify(m, net, header, server, i);
      Ok([modified] + rest)
  }

  ghost predicate InNetwork(net: Network, hs: seq<Header>) {
    forall j :: 0 <= j < |hs| ==> hs[j].1 < net.size && hs[j].0.conn.destServer == hs[j].1
  }

  /** The packet around the headers of the layers from `i` on: each is sealed for the server its own
      ticket names, the first layer for the first server. */
  function Wrap(net: Network, hs: seq<Header>, i: nat, first: nat): Wire
    requires net.Valid() && InNetwork(net, hs) && first < net.size
  {
    if hs == [] then Plain([])
    else Sealed(net.servers[if i == 0 then first else hs[0].1], SetupPacket(hs[0].0, Wrap(net, hs[1..], i + 1, first)))
  }

  // ---------- The client ----------

  type Hop = (nat, Connection)

  function Entries(hs: seq<Header>): (c: seq<Hop>)
    ensures |c| == |hs|
  {
    seq(|hs|, i requires 0 <= i < |hs| => (hs[i].0.conn.connId, hs[i].0.conn))
  }

  function Reversed<T>(s: seq<T>): (r: seq<T>)
    ensures |r| == |s|
  {
    seq(|s|, i requires 0 <= i < |s| => s[|s| - 1 - i])
  }

  function Moved(hop: Hop, server: nat): Hop {
    (hop.0, hop.1.(curServer := server))
  }

  /** Each hop's server is where the hop before it leads. */
  function Relink(first: nat, c: seq<Hop>): (r: seq<Hop>)
    ensures |r| == |c|
  {
    seq(|c|, i requires 0 <= i < |c| => Relinked(first, c, i))
  }

  function Relinked(first: nat, c: seq<Hop>, i: nat): Hop
    requires i < |c|
  {
    Moved(c[i], if i == 0 then first else c[i - 1].1.destServer)
  }

  class Client {
    const signature: Signature
    var circuit: seq<Hop>

    constructor (signature: Signature)
      ensures this.signature == signature && circuit == []
    {
      this.signature := signature;
      circuit := [];
    }

    /** Builds the packet and the circuit; the new circuit comes before what the client already had. */
    method GenerateSetupPacket(net: Network, m: Modification, coins: seq<LayerCoins>, first: nat)
      returns (result: Result<(Wire, nat)>)
      requires net.Valid() && UsableLayers(coins) && |coins| == net.layers && first < net.size
      modifies this`circuit
      ensures Headers(net, signature, m, coins, 0).Ok? ==>
        var hs := Headers(net, signature, m, coins, 0).value;
        && InNetwork(net, hs)
        && result == Ok((Wrap(net, hs, 0, first), first))
        && circuit == Relink(first, Entries(hs) + Reversed(old(circuit)))
      ensures !Headers(net, signature, m, coins, 0).Ok? ==> result == Panic
    {
      var data := Plain([]);
      hide Headers, Wrap, LayerHeader, Modify, Relink, InNetwork;
      var curServer: nat := 0;
      var i := net.layers;
      NoHeaders(net, signature, m, coins, first);
      ghost var hs: seq<Header> := [];
      while i > 0
        invariant 0 <= i <= net.layers
        invariant Headers(net, signature, m, coins, i) == Ok(hs)
        invariant InNetwork(net, hs) && data == Wrap(net, hs, i, first)
        invariant circuit == old(circuit) + Reversed(Entries(hs))
        invariant i == 0 ==> curServer == first
      {
        i := i - 1;
        HeadersFail(net, signature, m, coins, i);
        HeadersStep(net, signature, m, coins, i, hs, first);
        var layer := LayerHeader(net, signature, i, coins[i]);
        if !layer.Ok? {
          return Panic;
        }
        var modified := Modify(m, net, layer.value.0, layer.value.1, i);
        if !modified.Ok? {
          return Panic;
        }
        var setupHeader := modified.value.0;
        curServer := modified.value.1;
        circuit := circuit + [(setupHeader.conn.connId, setupHeader.conn)];
        ghost var before := hs;
        hs := [modified.value] + hs;
        ReversedEntries(modified.value, before);
        assert circuit == old(circuit) + Reversed(Entries(hs));
        if i == 0 {
          curServer := first;
        }
        data := Sealed(net.servers[curServer], SetupPacket(setupHeader, data));
      }
      ReverseBack(old(circuit), Entries(hs));
      circuit := Reversed(circuit);
      FixCircuit(curServer);
      return Ok((data, curServer));
    }

    /** Sets the server of every hop. */
    method FixCircuit(first: nat)
      requires circuit != []
      modifies this`circuit
      ensures circuit == Relink(first, old(circuit))
    {
      hide Fixed, Relink;
      ghost var c := circuit;
      FixedStart(first, c);
      circuit := circuit[0 := Moved(circuit[0], first)];
      for i := 1 to |circuit|
        invariant |circuit| == |c| && Fixed(first, c, circuit, i)
      {
        FixedStep(first, c, circuit, i);
        circuit := circuit[i := Moved(circuit[i], circuit[i - 1].1.destServer)];
      }
      FixedEnd(first, c, circuit);
    }

    /** Boxes the payload under the circuit's keys, last layer first. */
    method GenerateDataPacket(net: Network, payload: Wire, nonces: seq<nat>) returns (data: Wire)
      requires net.layers <= |circuit| && |nonces| == net.layers
      ensures data == BuildData(payload, circuit[..net.layers], nonces, 0)
    {
      data := payload;
      var i := net.layers;
      while i > 0
        invariant 0 <= i <= net.layers && data == BuildData(payload, circuit[..net.layers], nonces, i)
      {
        i := i - 1;
        data := Boxed(DataHeader(circuit[i].0, nonces[i]), nonces[i], circuit[i].1.key, data);
      }
    }
  }

  /** The first `i` hops of `d` are relinked, the others are those of `c`. */
  ghost predicate Fixed(first: nat, c: seq<Hop>, d: seq<Hop>, i: nat) {
    && |d| == |c|
    && (forall j :: 0 <= j < |c| && j < i ==> d[j] == Relinked(first, c, j))
    && (forall j :: 0 <= j < |c| && i <= j ==> d[j] == c[j])
  }

  lemma FixedStart(first: nat, c: seq<Hop>)
    requires c != []
    ensures Fixed(first, c, c[0 := Moved(c[0], first)], 1)
  {
  }

  lemma FixedStep(first: nat, c: seq<Hop>, d: seq<Hop>, i: nat)
    requires Fixed(first, c, d, i) && 0 < i < |c|
    ensures |d| == |c| && Fixed(first, c, d[i := Moved(d[i], d[i - 1].1.destServer)], i + 1)
  {
    assert d[i - 1] == Relinked(first, c, i - 1);
    assert Moved(d[i], d[i - 1].1.destServer) == Relinked(first, c, i);
    FixedUpdate(first, c, d, i, Relinked(first, c, i));
  }

  lemma FixedUpdate(first: nat, c: seq<Hop>, d: seq<Hop>, i: nat, h: Hop)
    requires Fixed(first, c, d, i) && i < |c| && h == Relinked(first, c, i)
    ensures Fixed(first, c, d[i := h], i + 1)
  {
    hide Relinked;
  }

  lemma FixedEnd(first: nat, c: seq<Hop>, d: seq<Hop>)
    requires Fixed(first, c, d, |c|)
    ensures d == Relink(first, c)
  {
  }

  lemma {:induction false} NoHeaders(net: Network, sig: Signature, m: Modification, coins: seq<LayerCoins>, first: nat)
    requires net.Valid() && UsableLayers(coins) && |coins| == net.layers && first < net.size
    ensures Headers(net, sig, m, coins, net.layers) == Ok([]) && InNetwork(net, [])
    ensures Wrap(net, [], net.layers, first) == Plain([])
  {
  }

  lemma LayerServer(net: Network, sig: Signature, i: nat, coins: LayerCoins)
    requires net.Valid() && UsableTicket(coins.ticket, 1)
    ensures var r := LayerHeader(net, sig, i, coins); r.Ok? ==> r.value.1 < net.size && r.value.0.conn.destServer == r.value.1
  {
    hide TicketProof, TicketBase, Mul;
  }

  /** One turn of the loop that builds a setup packet. */
  lemma {:induction false} HeadersStep(net: Network, sig: Signature, m: Modification, coins: seq<LayerCoins>, i: nat, hs: seq<Header>, first: nat)
    requires net.Valid() && UsableLayers(coins) && |coins| == net.layers && i < net.layers && first < net.size
    requires Headers(net, sig, m, coins, i + 1) == Ok(hs) && InNetwork(net, hs)
    ensures
      var layer := LayerHeader(net, sig, i, coins[i]);
      if !layer.Ok? then !Headers(net, sig, m, coins, i).Ok?
      else
        var modified := Modify(m, net, layer.value.0, layer.value.1, i);
        if !modified.Ok? then !Headers(net, sig, m, coins, i).Ok?
        else
          var h := modified.value;
          && h.1 < net.size
          && Headers(net, sig, m, coins, i) == Ok([h] + hs) && InNetwork(net, [h] + hs)
          && Wrap(net, [h] + hs, i, first)
             == Sealed(net.servers[if i == 0 then first else h.1], SetupPacket(h.0, Wrap(net, hs, i + 1, first)))
  {
    hide LayerHeader;
    LayerServer(net, sig, i, coins[i]);
    var layer := LayerHeader(net, sig, i, coins[i]);
    if layer.Ok? {
      var modified := Modify(m, net, layer.value.0, layer.value.1, i);
      if modified.Ok? {
        assert ([modified.value] + hs)[1..] == hs;
      }
    }
  }

  lemma {:induction false} HeadersFail(net: Network, sig: Signature, m: Modification, coins: seq<LayerCoins>, i: nat)
    requires net.Valid() && UsableLayers(coins) && |coins| == net.layers && i < net.layers
    ensures !Headers(net, sig, m, coins, i).Ok? ==> !Headers(net, sig, m, coins, 0).Ok?
    decreases i
  {
    hide LayerHeader, Modify;
    if i > 0 {
      HeadersFail(net, sig, m, coins, i - 1);
    }
  }

  lemma ReversedEntries(h: Header, hs: seq<Header>)
    ensures Reversed(Entries([h] + hs)) == Reversed(Entries(hs)) + [(h.0.conn.connId, h.0.conn)]
  {
    assert Entries([h] + hs) == [(h.0.conn.connId, h.0.conn)] + Entries(hs);
  }

  lemma ReverseBack<T>(a: seq<T>, b: seq<T>)
    ensures Reversed(a + Reversed(b)) == b + Reversed(a)
  {
  }

  function BuildData(payload: Wire, circuit: seq<Hop>, nonces: seq<nat>, i: nat): Wire
    requires |nonces| == |circuit| && i <= |circuit|
    decreases |circuit| - i
  {
    if i == |circuit| then payload
    else Boxed(DataHeader(circuit[i].0, nonces[i]), nonces[i], circuit[i].1.key, BuildData(payload, circuit, nonces, i + 1))
  }

  // ---------- The servers ----------

  type Tables = seq<map<nat, Connection>>

  function Put(table: map<nat, Connection>, connId: nat, conn: Connection): map<nat, Connection> {
    table[connId := conn]
  }

  function InsertInto(tables: Tables, server: nat, conn: Connection): Tables
    requires server < |tables|
  {
    tables[server := Put(tables[server], conn.connId, conn)]
  }

  class Connections {
    var conns: Tables

    constructor (size: nat)
      ensures conns == seq(size, _ => map[])
    {
      conns := seq(size, _ => map[]);
    }

    method Insert(server: nat, connId: nat, conn: Connection)
      requires server < |conns|
      modifies this
      ensures conns == old(conns)[server := Put(old(conns)[server], connId, conn)]
    {
      conns := conns[server := Put(conns[server], connId, conn)];
    }
  }

  function DefaultMessages(): Messages {
    OrderedMap([0], map[0 := TESTING])
  }

  function ReadTicket(header: SetupHeader, net: Network): Option<G1> {
    match Codecs.ReadG1(header.ticket, 0, net.compressed)
    case Ok(t) => Some(t)
    case _ => None
  }

  /** `verify_setup_packet`: the next server and whether the proof is valid for the layer. */
  function VerifyHeader(header: SetupHeader, net: Network, layer: nat): (r: Result<(nat, bool)>)
    requires net.Valid()
    ensures r.Ok? && r.value.1 ==> r.value.0 < net.size
  {
    match ReadTicket(header, net)
    case None => Ok((NO_SERVER, false))
    case Some(t) =>
      var b := TicketBase(net, layer);
      match Codecs.DecodeTicket(header.proof, net.compressed)
      case Err(_) => Ok((NO_SERVER, false))
      case Panic => Panic
      case Ok(proof) =>
        var challenge := HASH_TO_FR(ProofBytes(proof, {0}, net.idKey, b, t));
        match VerifyTicketProof(proof, net.idKey, DefaultMessages(), challenge, b, t)
        case Ok(status) => Ok((NextServer(t, net.size), status == Success))
        case Err(_) => Ok((NO_SERVER, false))
        case Panic => Panic
  }

  function ServerFromTicket(header: SetupHeader, net: Network): (r: Result<nat>)
    requires net.Valid()
    ensures r.Ok? ==> r.value < net.size
  {
    match ReadTicket(header, net)
    case None => Panic
    case Some(t) => Ok(NextServer(t, net.size))
  }

  /** `decrypt_setup_layer`: none for a packet whose proof is refused. */
  function DecryptSetupLayer(wire: Wire, curServer: nat, net: Network, layer: nat): (r: Result<Option<(SetupPacket, nat, Connection)>>)
    requires net.Valid() && curServer < net.size
    ensures r.Ok? && r.value.Some? ==> r.value.value.1 < net.size
  {
    if !wire.Sealed? || wire.recipient != net.servers[curServer] then Panic
    else
      var packet := wire.packet;
      if net.mode == Verify && layer != net.LastLayer() then
        var (next, valid) :- VerifyHeader(packet.header, net, layer);
        Ok(if valid then Some((packet, next, packet.header.conn)) else None)
      else
        var next :- ServerFromTicket(packet.header, net);
        Ok(Some((packet, next, packet.header.conn)))
  }

  type Visit = (nat, Connection)

  /** Peeling a setup packet from layer `i` on: what is left at the end, and which server stored which connection. */
  function WalkSetup(net: Network, wire: Wire, curServer: nat, i: nat): Result<(Wire, seq<Visit>)>
    requires net.Valid() && curServer < net.size && i <= net.layers
    decreases net.layers - i
  {
    if i == net.layers then Ok((wire, [])) else
      var peeled :- DecryptSetupLayer(wire, curServer, net, i);
      match peeled
      case None => Panic
      case Some((packet, next, conn)) =>
        var rest :- WalkSetup(net, packet.data, next, i + 1);
        Ok((rest.0, [(curServer, conn)] + rest.1))
  }

  function InsertAll(tables: Tables, visits: seq<Visit>): (r: Tables)
    requires forall j :: 0 <= j < |visits| ==> visits[j].0 < |tables|
    ensures |r| == |tables|
  {
    if visits == [] then tables
    else
      var n := |visits| - 1;
      InsertInto(InsertAll(tables, visits[..n]), visits[n].0, visits[n].1)
  }

  method DecryptSetupPacket(encPacket: Wire, firstServer: nat, net: Network, conns: Connections) returns (result: Result<Wire>)
    requires net.Valid() && firstServer < net.size && |conns.conns| == net.size
    modifies conns
    ensures match WalkSetup(net, encPacket, firstServer, 0)
      case Ok((data, visits)) =>
        && result == Ok(data)
        && (forall j :: 0 <= j < |visits| ==> visits[j].0 < net.size)
        && conns.conns == InsertAll(old(conns.conns), visits)
      case _ => result == Panic
  {
    hide DecryptSetupLayer;
    var data, curServer: nat := encPacket, firstServer;
    ghost var visits: seq<Visit> := [];
    for i := 0 to net.layers
      invariant curServer < net.size
      invariant forall j :: 0 <= j < |visits| ==> visits[j].0 < net.size
      invariant |conns.conns| == net.size && conns.conns == InsertAll(old(conns.conns), visits)
      invariant After([], WalkSetup(net, encPacket, firstServer, 0)) == After(visits, WalkSetup(net, data, curServer, i))
    {
      var decrypted := DecryptSetupLayer(data, curServer, net, i);
      if !decrypted.Ok? || decrypted.value.None? {
        return Panic;
      }
      var (packet, next, conn) := decrypted.value.value;
      conns.Insert(curServer, conn.connId, conn);
      ghost var before := visits;
      visits := visits + [(curServer, conn)];
      assert visits[..|visits| - 1] == before;
      AfterStep(before, (curServer, conn), WalkSetup(net, packet.data, next, i + 1));
      data := packet.data;
      curServer := next;
    }
    NothingBefore(WalkSetup(net, encPacket, firstServer, 0));
    assert visits + [] == visits;
    return Ok(data);
  }

  lemma NothingBefore(r: Result<(Wire, seq<Visit>)>)
    ensures r.Ok? ==> After([], r) == r
  {
    if r.Ok? {
      assert [] + r.value.1 == r.value.1;
    }
  }

  ghost function After(visits: seq<Visit>, r: Result<(Wire, seq<Visit>)>): Result<(Wire, seq<Visit>)> {
    if r.Ok? then Ok((r.value.0, visits + r.value.1)) else Panic
  }

  lemma AfterStep(visits: seq<Visit>, v: Visit, r: Result<(Wire, seq<Visit>)>)
    ensures r.Ok? ==> After(visits, Ok((r.value.0, [v] + r.value.1))) == After(visits + [v], r)
  {
    if r.Ok? {
      assert visits + ([v] + r.value.1) == visits + [v] + r.value.1;
    }
  }

  /** `decrypt_data_packet_layer` */
  function DecryptDataLayer(wire: Wire, curServer: nat, tables: Tables, layer: nat): Option<(Wire, nat)>
    requires curServer < |tables|
  {
    if !wire.Boxed? || wire.header.connId !in tables[curServer] then None
    else
      var conn := tables[curServer][wire.header.connId];
      if conn.layer != layer && conn.curServer != curServer then None
      else if wire.nonce != wire.header.nonce || wire.key != conn.key then None
      else Some((wire.body, conn.destServer))
  }

  /** Peeling a data packet from layer `i` to layer `n`: what is left and the servers visited. */
  function WalkData(wire: Wire, curServer: nat, tables: Tables, i: nat, n: nat): Option<(Wire, seq<nat>)>
    requires i <= n
    decreases n - i
  {
    if i == n then Some((wire, []))
    else if curServer >= |tables| then None
    else match DecryptDataLayer(wire, curServer, tables, i)
      case None => None
      case Some((body, next)) =>
        match WalkData(body, next, tables, i + 1, n)
        case None => None
        case Some((rest, servers)) => Some((rest, [curServer] + servers))
  }
}
