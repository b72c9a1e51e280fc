/** What a server makes of any packet, whoever built it: which headers count as proven, which setup layers
    are passed on, refused or fatal, and what a layer that follows the code looks like. */
module PacketChecks {
  import opened PrimeField
  import opened Group
  import opened Results
  import opened Encoding
  import opened Signatures
  import opened Disclosure
  import opened PokTicket
  import opened Network
  import Codecs

  // ---------- The check of a header ----------

  /** A header's bytes stand for a ticket and a proof. */
  ghost predicate Reads(header: SetupHeader, net: Network, t: G1, p: PoKOfTicketProof) {
    Codecs.ReadG1(header.ticket, 0, net.compressed) == Ok(t) && Codecs.DecodeTicket(header.proof, net.compressed) == Ok(p)
  }

  /** The proof is about the ticket, for the base of the layer, under the challenge that covers both. */
  ghost predicate Proves(net: Network, layer: nat, t: G1, p: PoKOfTicketProof) {
    var key, b := net.idKey, TICKET_HASH(layer, net.roundId, net.sysRand);
    var challenge := HASH_TO_FR(ProofBytes(p, {0}, key, b, t));
    && key.Validate().Ok? && InRange(DefaultMessages(), key)
    && Accepted(p.credential, key, DefaultMessages(), challenge) && TicketHolds(p, challenge, b, t)
  }

  /** A header that is proven for a layer and leads to server `x`. */
  ghost predicate Proven(header: SetupHeader, net: Network, layer: nat, x: nat)
    requires net.Valid()
  {
    exists t, p :: Reads(header, net, t, p) && Proves(net, layer, t, p) && x == SERVER_HASH(t) % net.size
  }

  /** A header counts as valid for a layer exactly if its bytes are a ticket and a proof of it for that
      layer, and it then leads to the server that the ticket names. */
  lemma HeaderMeans(header: SetupHeader, net: Network, layer: nat, x: nat)
    requires net.Valid()
    ensures VerifyHeader(header, net, layer) == Ok((x, true)) <==> Proven(header, net, layer, x)
  {
    hide ProofBytes, VerifyTicketProof, Codecs.ReadG1, Codecs.DecodeTicket, Accepted, TicketHolds;
    var ticket, proof := Codecs.ReadG1(header.ticket, 0, net.compressed), Codecs.DecodeTicket(header.proof, net.compressed);
    if ticket.Ok? && proof.Ok? {
      var t, p, key, b := ticket.value, proof.value, net.idKey, TICKET_HASH(layer, net.roundId, net.sysRand);
      SuccessMeans(p, key, DefaultMessages(), HASH_TO_FR(ProofBytes(p, {0}, key, b, t)), b, t);
      assert Reads(header, net, t, p);
    }
  }

  /** The check panics exactly if decoding the proof does, or on a proof that trips the assertion. */
  lemma HeaderPanics(header: SetupHeader, net: Network, layer: nat)
    requires net.Valid()
    ensures var ticket, proof := Codecs.ReadG1(header.ticket, 0, net.compressed), Codecs.DecodeTicket(header.proof, net.compressed);
      VerifyHeader(header, net, layer) == Panic <==>
        && ticket.Ok?
        && (proof.Panic?
            || (proof.Ok?
                && var t, p, key, b := ticket.value, proof.value, net.idKey, TICKET_HASH(layer, net.roundId, net.sysRand);
                   var challenge := HASH_TO_FR(ProofBytes(p, {0}, key, b, t));
                && key.Validate().Ok? && InRange(DefaultMessages(), key) && p.credential.aPrime != 0
                && AllHold(Relations(p, key, DefaultMessages(), challenge, b, t))
                && First(p.credential.vc1.responses) != First(p.ticket.vc4.responses)))
  {
    hide ProofBytes, VerifyTicketProof, Codecs.ReadG1, Codecs.DecodeTicket, Relations;
    var ticket, proof := Codecs.ReadG1(header.ticket, 0, net.compressed), Codecs.DecodeTicket(header.proof, net.compressed);
    ReadsOrNot(header.ticket, net.compressed);
    if ticket.Ok? && proof.Ok? {
      var t, p, key, b := ticket.value, proof.value, net.idKey, TICKET_HASH(layer, net.roundId, net.sysRand);
      PanicMeans(p, key, DefaultMessages(), HASH_TO_FR(ProofBytes(p, {0}, key, b, t)), b, t);
    }
  }

  lemma ReadsOrNot(data: seq<Byte>, z: bool)
    ensures Codecs.ReadG1(data, 0, z) != Panic
  {
  }

  /** Every other answer is a refusal: the server is the ticket's if the proof was checked to the end, and
      none if something could not be read or counted. */
  lemma RefusedHeader(header: SetupHeader, net: Network, layer: nat)
    requires net.Valid() && VerifyHeader(header, net, layer).Ok? && !VerifyHeader(header, net, layer).value.1
    ensures var ticket, proof := Codecs.ReadG1(header.ticket, 0, net.compressed), Codecs.DecodeTicket(header.proof, net.compressed);
      VerifyHeader(header, net, layer).value.0 ==
        if ticket.Ok? && proof.Ok?
           && (var t, p, key, b := ticket.value, proof.value, net.idKey, TICKET_HASH(layer, net.roundId, net.sysRand);
               VerifyTicketProof(p, key, DefaultMessages(), HASH_TO_FR(ProofBytes(p, {0}, key, b, t)), b, t).Ok?)
        then SERVER_HASH(ticket.value) % net.size else NO_SERVER
  {
    hide ProofBytes, VerifyTicketProof, Codecs.ReadG1, Codecs.DecodeTicket;
  }

  /** The check never ends with an error. */
  lemma NoHeaderError(header: SetupHeader, net: Network, layer: nat)
    requires net.Valid()
    ensures VerifyHeader(header, net, layer).Ok? || VerifyHeader(header, net, layer) == Panic
  {
    hide ProofBytes, VerifyTicketProof, Codecs.ReadG1, Codecs.DecodeTicket;
  }

  // ---------- Peeling a setup layer ----------

  /** Where a header leads from a layer: with verification on arrival only if it is proven, otherwise by its
      ticket alone. */
  ghost predicate Leads(header: SetupHeader, net: Network, layer: nat, next: nat)
    requires net.Valid()
  {
    if net.mode == Verify && layer != net.layers - 1 then Proven(header, net, layer, next)
    else exists t :: Codecs.ReadG1(header.ticket, 0, net.compressed) == Ok(t) && next == SERVER_HASH(t) % net.size
  }

  /** A packet is passed on exactly if it is sealed for the server's key pair and its header leads on. It is
      dropped exactly if the check on arrival refuses it. Everything else is a panic. */
  lemma SetupLayerMeans(wire: Wire, curServer: nat, net: Network, layer: nat, packet: SetupPacket, next: nat, conn: Connection)
    requires net.Valid() && curServer < net.size
    ensures DecryptSetupLayer(wire, curServer, net, layer) == Ok(Some((packet, next, conn)))
       <==> wire == Sealed(net.servers[curServer], packet) && conn == packet.header.conn && Leads(packet.header, net, layer, next)
    ensures DecryptSetupLayer(wire, curServer, net, layer) == Ok(None)
       <==> wire.Sealed? && wire.recipient == net.servers[curServer] && net.mode == Verify && layer != net.layers - 1
            && VerifyHeader(wire.packet.header, net, layer) != Panic
            && !exists x: nat :: Proven(wire.packet.header, net, layer, x)
    ensures !DecryptSetupLayer(wire, curServer, net, layer).Err?
  {
    hide VerifyHeader, Proven, Codecs.ReadG1;
    if wire.Sealed? {
      var r := VerifyHeader(wire.packet.header, net, layer);
      NoHeaderError(wire.packet.header, net, layer);
      forall x: nat ensures Proven(wire.packet.header, net, layer, x) <==> r == Ok((x, true)) {
        HeaderMeans(wire.packet.header, net, layer, x);
      }
    }
  }

  /** A setup packet comes apart from a layer on exactly if each layer opens at the server the one before
      leads to and leads on itself; every server stores the connection of its layer. */
  lemma {:induction false} WalkMeans(net: Network, wire: Wire, curServer: nat, i: nat, left: Wire, visits: seq<Visit>)
    requires net.Valid() && curServer < net.size && i < net.layers
    ensures WalkSetup(net, wire, curServer, i) == Ok((left, visits))
       <==> wire.Sealed? && wire.recipient == net.servers[curServer]
            && visits != [] && visits[0] == (curServer, wire.packet.header.conn)
            && exists next: nat :: next < net.size && Leads(wire.packet.header, net, i, next)
                 && WalkSetup(net, wire.packet.data, next, i + 1) == Ok((left, visits[1..]))
  {
    hide DecryptSetupLayer, Leads;
    var r := DecryptSetupLayer(wire, curServer, net, i);
    if r.Ok? && r.value.Some? {
      var (packet, next, conn) := r.value.value;
      SetupLayerMeans(wire, curServer, net, i, packet, next, conn);
      var rest := WalkSetup(net, packet.data, next, i + 1);
      if visits != [] {
        assert visits == [visits[0]] + visits[1..];
      }
      if rest.Ok? {
        assert ([(curServer, conn)] + rest.value.1)[1..] == rest.value.1;
      }
    }
    forall next: nat | next < net.size && wire.Sealed? && wire.recipient == net.servers[curServer] && Leads(wire.packet.header, net, i, next)
      ensures r == Ok(Some((wire.packet, next, wire.packet.header.conn)))
    {
      SetupLayerMeans(wire, curServer, net, i, wire.packet, next, wire.packet.header.conn);
    }
  }

  // ---------- Layers that follow the code ----------

  /** The header of a layer: a ticket for the layer's base under the client's exponent, the server that the
      ticket names, and a connection without a server. It carries a proof exactly if the layer is not the last,
      in every mode. It can be built exactly if no proof is needed or the client's signature verifies. */
  lemma HeaderShape(net: Network, sig: Signature, layer: nat, coins: LayerCoins)
    requires net.Valid() && UsableTicket(coins.ticket, 1)
    ensures var r := LayerHeader(net, sig, layer, coins);
      var t := Mul(TICKET_HASH(layer, net.roundId, net.sysRand), sig.e);
      && (r.Ok? <==> layer == net.layers - 1 || Honest(net, sig))
      && (!r.Ok? ==> r == Panic)
      && (r.Ok? ==>
            var (header, server) := r.value;
            && server == SERVER_HASH(t) % net.size
            && header.ticket == SerG1(t, net.compressed)
            && header.conn == Connection(coins.connId, coins.key, layer, 0, server)
            && (header.proof == [] <==> layer == net.layers - 1))
  {
    hide Mul, Codecs.EncodeTicket, Honest;
    var b := TICKET_HASH(layer, net.roundId, net.sysRand);
    ProofExists(net, sig, Mul(b, sig.e), b, coins.ticket);
  }

  /** A ticket proof can be made exactly if the client's signature verifies, and takes some bytes. */
  lemma ProofExists(net: Network, sig: Signature, t: G1, b: G1, coins: TicketCoins)
    requires UsableTicket(coins, 1)
    ensures TicketProof(net, sig, t, b, coins).Ok? <==> Honest(net, sig)
    ensures TicketProof(net, sig, t, b, coins).Ok? ==> TicketProof(net, sig, t, b, coins).value != []
    ensures !TicketProof(net, sig, t, b, coins).Ok? ==> TicketProof(net, sig, t, b, coins) == Panic
  {
    hide Mul, VerifySig, Randomize, CommitmentsFor, StartBytes, ProveAll, Codecs.TicketHead, VerifyTicketProof;
    var messages := [Revealed(TESTING)];
    assert AllMessages(messages) == [TESTING];
    if Honest(net, sig) {
      SignedKey(sig, [TESTING], net.idKey);
      var pok := PoKOfTicket(Randomize(sig, net.idKey, messages, coins.core), CommitmentsFor(sig.e, t, b, coins));
      HonestVerdict(sig, net.idKey, messages, t, b, coins, HASH_TO_FR(StartBytes(pok)));
    }
  }

  /** The ticket a packet carries at a layer: the client's own, or one of the sender's choice. */
  ghost function TicketAt(net: Network, sig: Signature, m: Modification, j: nat): G1
    requires m.Replace? && j > 0 ==> j <= |m.badTickets|
  {
    if m.Replace? && j > 0 then m.badTickets[j - 1] else Mul(TICKET_HASH(j, net.roundId, net.sysRand), sig.e)
  }

  /** Each layer of a packet carries its ticket, leads to the server that this ticket names, and keeps what
      was drawn for it; the proof is the one for the client's own ticket. */
  lemma {:induction false} RouteOf(net: Network, sig: Signature, m: Modification, coins: seq<LayerCoins>, i: nat, j: nat)
    requires net.Valid() && UsableLayers(coins) && |coins| == net.layers && i <= j < net.layers
    requires Headers(net, sig, m, coins, i).Ok?
    ensures m.Replace? && j > 0 ==> j <= |m.badTickets|
    ensures var (header, server) := Headers(net, sig, m, coins, i).value[j - i];
      var t := TicketAt(net, sig, m, j);
      && server == SERVER_HASH(t) % net.size
      && header.ticket == SerG1(t, net.compressed)
      && header.conn == Connection(coins[j].connId, coins[j].key, j, 0, server)
      && LayerHeader(net, sig, j, coins[j]).Ok? && header.proof == LayerHeader(net, sig, j, coins[j]).value.0.proof
    decreases j - i
  {
    hide LayerHeader, Mul, Modify, TICKET_HASH, SERVER_HASH;
    HeaderShape(net, sig, i, coins[i]);
    if i < j {
      RouteOf(net, sig, m, coins, i + 1, j);
    } else {
      var (header, server) := LayerHeader(net, sig, i, coins[i]).value;
      ModifiedLayer(m, net, header, server, i);
    }
  }

  /** A packet with tickets of the sender's choice differs in the ticket and in where it leads, at every layer
      but the first; it panics where no ticket was given. */
  lemma ModifiedLayer(m: Modification, net: Network, header: SetupHeader, server: nat, layer: nat)
    requires net.Valid()
    ensures Modify(m, net, header, server, layer) ==
      if m.Keep? || layer == 0 then Ok((header, server))
      else if layer > |m.badTickets| then Panic
      else
        var t := m.badTickets[layer - 1];
        var next := SERVER_HASH(t) % net.size;
        Ok((SetupHeader(SerG1(t, net.compressed), header.proof, header.conn.(destServer := next)), next))
  {
  }

  /** A packet can be built from layer `i` on exactly if the client's signature verifies, where a proof is
      needed, and there is a ticket for every layer that gets a chosen one. */
  lemma {:induction false} PacketBuilt(net: Network, sig: Signature, m: Modification, coins: seq<LayerCoins>, i: nat)
    requires net.Valid() && UsableLayers(coins) && |coins| == net.layers && i <= net.layers
    ensures Headers(net, sig, m, coins, i).Ok?
       <==> (i < net.layers - 1 ==> Honest(net, sig)) && (m.Replace? && i < net.layers ==> net.layers - 1 <= |m.badTickets|)
    decreases net.layers - i
  {
    hide LayerHeader, Modify, Honest, Mul, SERVER_HASH, TICKET_HASH;
    if i < net.layers {
      PacketBuilt(net, sig, m, coins, i + 1);
      HeaderShape(net, sig, i, coins[i]);
      var r := LayerHeader(net, sig, i, coins[i]);
      if r.Ok? {
        ModifiedLayer(m, net, r.value.0, r.value.1, i);
      }
    }
  }

  // ---------- Data packets ----------

  /** What is left of a packet without its first `j` boxes. */
  ghost function Unboxed(wire: Wire, j: nat): Wire {
    if j == 0 || !wire.Boxed? then wire else Unboxed(wire.body, j - 1)
  }

  /** A data packet has a box for each hop of the circuit, with the hop's id in the clear and under its key, each
      under a nonce of its own, and the payload inside. */
  lemma {:induction false} DataOnion(payload: Wire, circuit: seq<Hop>, nonces: seq<nat>, i: nat, j: nat)
    requires |nonces| == |circuit| && i + j <= |circuit|
    ensures var inside := Unboxed(BuildData(payload, circuit, nonces, i), j);
      if i + j == |circuit| then inside == payload
      else
        && inside.Boxed? && inside.header == DataHeader(circuit[i + j].0, nonces[i + j])
        && inside.nonce == nonces[i + j] && inside.key == circuit[i + j].1.key
    decreases j
  {
    if j > 0 {
      DataOnion(payload, circuit, nonces, i + 1, j - 1);
    }
  }

  /** A data packet is peeled exactly if its id is stored at the server, under the key and nonce it was boxed
      with, for the layer or for the server itself; it leads where the connection leads. */
  lemma DataLayerMeans(wire: Wire, server: nat, tables: Tables, layer: nat, body: Wire, next: nat)
    requires server < |tables|
    ensures DecryptDataLayer(wire, server, tables, layer) == Some((body, next)) <==>
      exists id: nat, nonce: nat, conn: Connection ::
        && wire == Boxed(DataHeader(id, nonce), nonce, conn.key, body)
        && id in tables[server] && tables[server][id] == conn
        && (conn.layer == layer || conn.curServer == server) && conn.destServer == next
  {
    if DecryptDataLayer(wire, server, tables, layer) == Some((body, next)) {
      var conn := tables[server][wire.header.connId];
      assert wire == Boxed(DataHeader(wire.header.connId, wire.nonce), wire.nonce, conn.key, body);
    }
  }
}
