/** What holds of onion circuits: setup and data packets come apart along the circuit they were
    built for, and the client's circuit agrees with the servers' tables. */
module Circuits {
  import opened PrimeField
  import opened Group
  import opened Results
  import opened Encoding
  import opened Selection
  import opened Signatures
  import opened Disclosure
  import opened PokTicket
  import opened Network
  import Codecs
  import PokVc

  // ---------- Honest layers ----------

  /** A new client's signature is accepted unless its randomness is degenerate. */
  lemma NewClientHonest(net: Network, sk: SecretKey, e: Fr, s: Fr)
    requires KeyPair(sk, net.idKey) && net.idKey.Validate().Ok? && |net.idKey.h| == 1
    requires e != 0 && s != 0 && Add(sk, e) != 0 && B(s, [TESTING], net.idKey) != 0
    ensures Sign([TESTING], sk, net.idKey, e, s).Ok?
    ensures Honest(net, Sign([TESTING], sk, net.idKey, e, s).value)
  {
    SignThenVerify([TESTING], sk, net.idKey, e, s);
  }

  lemma TestingMessage()
    ensures AllMessages([Revealed(TESTING)]) == [TESTING]
    ensures RevealedIndices([Revealed(TESTING)]) == {0}
    ensures HiddenIndices([Revealed(TESTING)]) == []
    ensures RevealedMessages([Revealed(TESTING)]) == DefaultMessages()
  {
    var messages := [Revealed(TESTING)];
    assert RevealedIndices(messages) == {0};
    assert Outside(1, {0}) == Outside(0, {0}) == [];
    assert Inside(1, {0}) == Inside(0, {0}) + [0] == [0];
    assert AllMessages(messages) == [TESTING];
    TestingRevealed(RevealedMessages(messages));
  }

  lemma TestingRevealed(m: Messages)
    requires m.keys == [0] && m.entries.Keys == {0} && Values(m) == Pick([TESTING], [0])
    ensures m == DefaultMessages()
  {
    assert Values(m)[0] == Pick([TESTING], [0])[0] == TESTING;
    assert m.entries == map[0 := TESTING];
  }

  /** The lengths of an honest proof fit its encoding. */
  lemma HonestFits(net: Network, sig: Signature, t: G1, b: G1, coins: TicketCoins, challenge: Fr)
    requires |net.idKey.h| == 1 && UsableTicket(coins, 1)
    requires Start(sig, net.idKey, [Revealed(TESTING)], t, b, coins).Ok?
    requires ProveAll(Start(sig, net.idKey, [Revealed(TESTING)], t, b, coins).value, challenge).Ok?
    ensures Codecs.TicketFits(ProveAll(Start(sig, net.idKey, [Revealed(TESTING)], t, b, coins).value, challenge).value, net.compressed)
  {
    hide Msm, Mul, Add, Neg, Red, B, CheckSigned, SerG1, U32, Codecs.SerScalars, PokVc.Responses, VerifySig;
    TestingMessage();
    var proof := ProveAll(Start(sig, net.idKey, [Revealed(TESTING)], t, b, coins).value, challenge).value;
    assert |proof.credential.vc1.responses| == 2 && |proof.credential.vc2.responses| == 2;
    assert |proof.ticket.vc3.responses| == 2 && |proof.ticket.vc4.responses| == 3 && |proof.ticket.vc5.responses| == 2;
  }

  lemma ReadWritten(t: G1, z: bool)
    ensures Codecs.ReadG1(SerG1(t, z), 0, z) == Ok(t)
  {
    Codecs.HoldsAll(SerG1(t, z));
    Codecs.G1At(SerG1(t, z), 0, t, z);
  }

  /** The proof bytes an honest client sends are accepted for the layer its ticket was made for. */
  lemma HonestProof(net: Network, sig: Signature, layer: nat, coins: TicketCoins)
    requires net.Valid() && Honest(net, sig) && UsableTicket(coins, 1)
    ensures var b := TicketBase(net, layer); var t := Mul(b, sig.e);
      && TicketProof(net, sig, t, b, coins).Ok?
      && forall header: SetupHeader ::
           header.ticket == SerG1(t, net.compressed) && header.proof == TicketProof(net, sig, t, b, coins).value
           ==> VerifyHeader(header, net, layer) == Ok((NextServer(t, net.size), true))
  {
    hide Msm, Mul, Red, B, VerifySig, Start, StartBytes, ProveAll, ProofBytes, VerifyTicketProof, NextServer, TicketBase,
      Codecs.DecodeTicket, Codecs.EncodeTicket, Codecs.TicketFits, Codecs.ReadG1;
    TestingMessage();
    SignedKey(sig, [TESTING], net.idKey);
    var b := TicketBase(net, layer);
    var t := Mul(b, sig.e);
    Completeness(sig, net.idKey, [Revealed(TESTING)], b, coins);
    var pok := Start(sig, net.idKey, [Revealed(TESTING)], t, b, coins).value;
    var challenge := HASH_TO_FR(StartBytes(pok));
    HonestFits(net, sig, t, b, coins, challenge);
    Codecs.TicketRoundTrip(ProveAll(pok, challenge).value, net.compressed);
    ReadWritten(t, net.compressed);
  }

  /** The two ways a server finds the next one agree on an honest layer. */
  lemma HonestLayer(net: Network, sig: Signature, layer: nat, coins: LayerCoins)
    requires net.Valid() && Honest(net, sig) && UsableTicket(coins.ticket, 1)
    ensures LayerHeader(net, sig, layer, coins).Ok?
    ensures var h := LayerHeader(net, sig, layer, coins).value;
      && h.1 < net.size && h.0.conn.destServer == h.1 && h.0.conn.layer == layer && h.0.conn.curServer == 0
      && h.0.conn.connId == coins.connId && h.0.conn.key == coins.key
      && ServerFromTicket(h.0, net) == Ok(h.1)
      && (layer != net.LastLayer() ==> VerifyHeader(h.0, net, layer) == Ok((h.1, true)))
  {
    hide Mul, NextServer, TicketBase, VerifyHeader, TicketProof, Codecs.ReadG1;
    HonestProof(net, sig, layer, coins.ticket);
    ReadWritten(Mul(TicketBase(net, layer), sig.e), net.compressed);
  }

  // ---------- The setup onion ----------

  /** A server peeling this layer accepts it and passes the rest to the server the header names. */
  ghost predicate Passes(net: Network, h: Header, layer: nat)
    requires net.Valid()
  {
    if net.mode == Verify && layer != net.LastLayer() then VerifyHeader(h.0, net, layer) == Ok((h.1, true))
    else ServerFromTicket(h.0, net) == Ok(h.1)
  }

  /** Sealed for one server and opened by another: their key pairs must agree from layer 1 on. */
  ghost predicate KeysAgree(net: Network, hs: seq<Header>)
    requires net.Valid() && InNetwork(net, hs)
  {
    forall j :: 0 < j < |hs| ==> net.servers[hs[j].1] == net.servers[hs[j - 1].1]
  }

  /** The server that opens each layer and the connection it stores. */
  ghost function Visits(hs: seq<Header>, first: nat): (v: seq<Visit>)
    ensures |v| == |hs|
  {
    seq(|hs|, i requires 0 <= i < |hs| => (if i == 0 then first else hs[i - 1].1, hs[i].0.conn))
  }

  lemma {:induction false} Unwrap(net: Network, hs: seq<Header>, i: nat, first: nat, curServer: nat)
    requires net.Valid() && InNetwork(net, hs) && first < net.size && curServer < net.size && |hs| == net.layers - i
    requires forall j :: 0 <= j < |hs| ==> Passes(net, hs[j], i + j)
    requires i == 0 ==> curServer == first
    ensures WalkSetup(net, Wrap(net, hs, i, first), curServer, i)
         == if (0 < i < net.layers ==> net.servers[hs[0].1] == net.servers[curServer]) && KeysAgree(net, hs)
            then Ok((Plain([]), Visits(hs, curServer))) else Panic
    decreases |hs|
  {
    hide VerifyHeader, ServerFromTicket, KeysAgree, Visits;
    if hs != [] {
      var rest := hs[1..];
      forall j | 0 <= j < |rest| ensures Passes(net, rest[j], i + 1 + j) {
        assert Passes(net, hs[j + 1], i + (j + 1));
      }
      assert Passes(net, hs[0], i + 0);
      Unwrap(net, rest, i + 1, first, hs[0].1);
      KeysAgreeStep(net, hs);
      VisitsStep(hs, curServer);
    } else {
      NoVisits(net, curServer);
    }
  }

  lemma VisitsStep(hs: seq<Header>, curServer: nat)
    requires hs != []
    ensures Visits(hs, curServer) == [(curServer, hs[0].0.conn)] + Visits(hs[1..], hs[0].1)
  {
  }

  lemma NoVisits(net: Network, curServer: nat)
    requires net.Valid()
    ensures KeysAgree(net, []) && Visits([], curServer) == []
  {
  }

  lemma KeysAgreeStep(net: Network, hs: seq<Header>)
    requires net.Valid() && InNetwork(net, hs) && hs != []
    ensures KeysAgree(net, hs)
       <==> (|hs| > 1 ==> net.servers[hs[1].1] == net.servers[hs[0].1]) && KeysAgree(net, hs[1..])
  {
    var rest := hs[1..];
    if (|hs| > 1 ==> net.servers[hs[1].1] == net.servers[hs[0].1]) && KeysAgree(net, rest) {
      forall j | 0 < j < |hs| ensures net.servers[hs[j].1] == net.servers[hs[j - 1].1] {
        if j > 1 {
          assert rest[j - 1] == hs[j] && rest[j - 2] == hs[j - 1];
        }
      }
    }
    if KeysAgree(net, hs) {
      forall j | 0 < j < |rest| ensures net.servers[rest[j].1] == net.servers[rest[j - 1].1] {
        assert rest[j] == hs[j + 1] && rest[j - 1] == hs[j];
      }
    }
  }

  /** Both kinds of packets can be built, and every layer passes: bad ones only where servers do not
      verify on arrival. */
  lemma {:induction false} PacketLayers(net: Network, sig: Signature, m: Modification, coins: seq<LayerCoins>, i: nat)
    requires net.Valid() && Honest(net, sig) && UsableLayers(coins) && |coins| == net.layers && i <= net.layers
    requires m.Keep? || (|m.badTickets| >= net.layers - 1 && net.mode != Verify)
    ensures Headers(net, sig, m, coins, i).Ok?
    ensures var hs := Headers(net, sig, m, coins, i).value;
      && InNetwork(net, hs)
      && (forall j :: 0 <= j < |hs| ==> Passes(net, hs[j], i + j))
      && (forall j :: 0 <= j < |hs| ==> Made(hs[j].0.conn, coins, i + j))
    decreases net.layers - i
  {
    hide LayerHeader, Modify, Passes, Made, Honest;
    if i < net.layers {
      hide InNetwork;
      PacketLayers(net, sig, m, coins, i + 1);
      OneLayer(net, sig, m, coins, i);
      var rest := Headers(net, sig, m, coins, i + 1).value;
      var hs := Headers(net, sig, m, coins, i).value;
      LayersFrom(net, coins, hs[0], rest, i);
      assert hs == [hs[0]] + rest;
    }
  }

  lemma LayersFrom(net: Network, coins: seq<LayerCoins>, h: Header, rest: seq<Header>, i: nat)
    requires net.Valid() && h.1 < net.size && h.0.conn.destServer == h.1 && Passes(net, h, i) && Made(h.0.conn, coins, i)
    requires InNetwork(net, rest)
    requires forall j :: 0 <= j < |rest| ==> Passes(net, rest[j], i + 1 + j) && Made(rest[j].0.conn, coins, i + 1 + j)
    ensures var hs := [h] + rest;
      && InNetwork(net, hs)
      && (forall j :: 0 <= j < |hs| ==> Passes(net, hs[j], i + j))
      && (forall j :: 0 <= j < |hs| ==> Made(hs[j].0.conn, coins, i + j))
  {
    hide Passes, Made;
    var hs := [h] + rest;
    forall j | 0 <= j < |hs| ensures Passes(net, hs[j], i + j) && Made(hs[j].0.conn, coins, i + j) {
      if j > 0 {
        assert hs[j] == rest[j - 1] && i + j == i + 1 + (j - 1);
      }
    }
  }

  /** A layer's connection carries the drawn id and key, and its layer; its server is left at 0. */
  ghost predicate Made(conn: Connection, coins: seq<LayerCoins>, layer: nat) {
    && layer < |coins| && conn.connId == coins[layer].connId && conn.key == coins[layer].key
    && conn.layer == layer && conn.curServer == 0
  }

  lemma OneLayer(net: Network, sig: Signature, m: Modification, coins: seq<LayerCoins>, i: nat)
    requires net.Valid() && Honest(net, sig) && UsableLayers(coins) && |coins| == net.layers && i < net.layers
    requires m.Keep? || (|m.badTickets| >= net.layers - 1 && net.mode != Verify)
    ensures var r := LayerHeader(net, sig, i, coins[i]);
      && r.Ok?
      && var h := Modify(m, net, r.value.0, r.value.1, i);
      && h.Ok? && h.value.1 < net.size && h.value.0.conn.destServer == h.value.1
      && Made(h.value.0.conn, coins, i) && Passes(net, h.value, i)
  {
    hide LayerHeader, VerifyHeader, NextServer, Codecs.ReadG1;
    HonestLayer(net, sig, i, coins[i]);
    if m.Replace? && i > 0 {
      ReadWritten(m.badTickets[i - 1], net.compressed);
    }
  }

  /** What the client ends up with for the packet it builds. */
  ghost function CircuitOf(hs: seq<Header>, first: nat): (c: seq<Hop>)
    ensures |c| == |hs|
  {
    Relink(first, Entries(hs))
  }

  /** The setup round trip, for any number of layers: an honest packet, or with verification off a
      packet with chosen tickets, peels from its first server to empty data exactly when every layer's
      key pair agrees with its predecessor's. The servers visited are those of the client's circuit,
      and each stores the connection of its hop, without the server. */
  lemma {:induction false} SetupRoundTrip(net: Network, sig: Signature, m: Modification, coins: seq<LayerCoins>, first: nat)
    requires net.Valid() && Honest(net, sig) && UsableLayers(coins) && |coins| == net.layers && first < net.size
    requires m.Keep? || (|m.badTickets| >= net.layers - 1 && net.mode != Verify)
    ensures Headers(net, sig, m, coins, 0).Ok? && InNetwork(net, Headers(net, sig, m, coins, 0).value)
    ensures
      var hs := Headers(net, sig, m, coins, 0).value;
      var circuit, visits := CircuitOf(hs, first), Visits(hs, first);
      && WalkSetup(net, Wrap(net, hs, 0, first), first, 0) == (if KeysAgree(net, hs) then Ok((Plain([]), visits)) else Panic)
      && |visits| == |circuit| == net.layers
      && forall i :: 0 <= i < net.layers ==> HopAgrees(hs, first, i) && Made(visits[i].1, coins, i)
  {
    hide Headers, Wrap, Passes, WalkSetup, KeysAgree, Made;
    PacketLayers(net, sig, m, coins, 0);
    var hs := Headers(net, sig, m, coins, 0).value;
    forall j | 0 <= j < |hs| ensures Passes(net, hs[j], 0 + j) && Made(hs[j].0.conn, coins, j) {
      assert Passes(net, hs[j], 0 + j) && Made(hs[j].0.conn, coins, 0 + j);
    }
    Unwrap(net, hs, 0, first, first);
    forall i | 0 <= i < net.layers ensures HopAgrees(hs, first, i) && Made(Visits(hs, first)[i].1, coins, i) {
      HopFacts(net, hs, first, i);
    }
  }

  /** The client's hop `i` and the server's visit `i` are the same but for the server filled in. */
  ghost predicate HopAgrees(hs: seq<Header>, first: nat, i: nat)
    requires i < |hs|
  {
    var circuit, visits := CircuitOf(hs, first), Visits(hs, first);
    && visits[i].0 == circuit[i].1.curServer
    && circuit[i] == (visits[i].1.connId, visits[i].1.(curServer := visits[i].0))
    && (i + 1 < |hs| ==> visits[i].1.destServer == visits[i + 1].0)
  }

  lemma HopFacts(net: Network, hs: seq<Header>, first: nat, i: nat)
    requires InNetwork(net, hs) && i < |hs|
    ensures HopAgrees(hs, first, i)
  {
    hide CircuitOf, Visits, Relink;
    CircuitAt(hs, first, i);
    VisitAt(hs, first, i);
    if i + 1 < |hs| {
      VisitAt(hs, first, i + 1);
    }
    if i > 0 {
      assert hs[i - 1].0.conn.destServer == hs[i - 1].1;
    }
  }

  lemma CircuitAt(hs: seq<Header>, first: nat, i: nat)
    requires i < |hs|
    ensures CircuitOf(hs, first)[i]
         == (hs[i].0.conn.connId, hs[i].0.conn.(curServer := if i == 0 then first else hs[i - 1].0.conn.destServer))
  {
    var entries := Entries(hs);
    assert entries[i] == (hs[i].0.conn.connId, hs[i].0.conn);
    if i > 0 {
      assert entries[i - 1] == (hs[i - 1].0.conn.connId, hs[i - 1].0.conn);
    }
    assert Relink(first, entries)[i] == Relinked(first, entries, i) == Moved(entries[i], if i == 0 then first else entries[i - 1].1.destServer);
  }

  lemma VisitAt(hs: seq<Header>, first: nat, i: nat)
    requires i < |hs|
    ensures Visits(hs, first)[i] == (if i == 0 then first else hs[i - 1].1, hs[i].0.conn)
  {
  }

  /** In a network made by `Network::new` all servers are clones of one, so the keys agree. */
  lemma ClonedServersAgree(idKey: PublicKey, size: nat, layers: nat, mode: Verification, compressed: bool, keyPair: nat, hs: seq<Header>)
    requires size > 0 && layers > 0
    requires InNetwork(NewNetwork(idKey, size, layers, mode, compressed, keyPair), hs)
    ensures NewNetwork(idKey, size, layers, mode, compressed, keyPair).Valid()
    ensures KeysAgree(NewNetwork(idKey, size, layers, mode, compressed, keyPair), hs)
  {
  }

  // ---------- Modes ----------

  /** Peeling an honest layer gives the same in every verification mode: the proof that is checked
      is there, and it was made for the layer that checks it. */
  lemma ModeIndependence(net: Network, mode: Verification, sig: Signature, layer: nat, coins: LayerCoins, data: Wire, curServer: nat, recipient: nat)
    requires net.Valid() && Honest(net, sig) && UsableTicket(coins.ticket, 1) && curServer < net.size
    ensures LayerHeader(net.(mode := mode), sig, layer, coins) == LayerHeader(net, sig, layer, coins)
    ensures LayerHeader(net, sig, layer, coins).Ok?
    ensures var packet := SetupPacket(LayerHeader(net, sig, layer, coins).value.0, data);
      DecryptSetupLayer(Sealed(recipient, packet), curServer, net.(mode := mode), layer)
      == DecryptSetupLayer(Sealed(recipient, packet), curServer, net, layer)
  {
    hide Mul, Red, NextServer, VerifyHeader, TicketProof, ServerFromTicket, VerifySig;
    var other := net.(mode := mode);
    SameTickets(net, mode, layer);
    SameHeader(net, mode, sig, layer, coins);
    HonestLayer(net, sig, layer, coins);
    HonestLayer(other, sig, layer, coins);
  }

  lemma SameTickets(net: Network, mode: Verification, layer: nat)
    ensures TicketBase(net.(mode := mode), layer) == TicketBase(net, layer)
  {
  }

  lemma SameHeader(net: Network, mode: Verification, sig: Signature, layer: nat, coins: LayerCoins)
    requires net.Valid() && UsableTicket(coins.ticket, 1)
    ensures LayerHeader(net.(mode := mode), sig, layer, coins) == LayerHeader(net, sig, layer, coins)
  {
    hide Mul, NextServer, Start, ProveAll, StartBytes, Codecs.EncodeTicket;
  }

  // ---------- The data onion ----------

  /** Each visited server's table has the connection of the visit. */
  ghost predicate Stored(tables: Tables, visits: seq<Visit>) {
    forall i :: 0 <= i < |visits| ==>
      visits[i].0 < |tables| && visits[i].1.connId in tables[visits[i].0] && tables[visits[i].0][visits[i].1.connId] == visits[i].1
  }

  /** No two visits have the same server and connection id. */
  ghost predicate Distinct(visits: seq<Visit>) {
    forall i, j :: 0 <= i < j < |visits| ==> visits[i].0 != visits[j].0 || visits[i].1.connId != visits[j].1.connId
  }

  /** Inserting a connection replaces what the server had under its id, and nothing else anywhere. */
  lemma InsertMeans(tables: Tables, server: nat, conn: Connection, d: nat, id: nat)
    requires server < |tables| && d < |tables|
    ensures var after, here := InsertInto(tables, server, conn), d == server && id == conn.connId;
      && |after| == |tables|
      && (id in after[d] <==> here || id in tables[d])
      && (id in after[d] ==> after[d][id] == if here then conn else tables[d][id])
  {
  }

  lemma {:induction false} InsertAllStores(tables: Tables, visits: seq<Visit>)
    requires Distinct(visits) && forall j :: 0 <= j < |visits| ==> visits[j].0 < |tables|
    ensures Stored(InsertAll(tables, visits), visits)
  {
    if visits != [] {
      InsertAllStores(tables, visits[..|visits| - 1]);
    }
  }

  /** A circuit's hops, as the servers stored them. */
  ghost predicate Follows(circuit: seq<Hop>, visits: seq<Visit>) {
    && |circuit| == |visits|
    && forall i :: 0 <= i < |visits| ==>
         && circuit[i].0 == visits[i].1.connId && circuit[i].1.key == visits[i].1.key
         && visits[i].1.layer == i
         && (i + 1 < |visits| ==> visits[i].1.destServer == visits[i + 1].0)
  }

  ghost function Servers(visits: seq<Visit>, i: nat): (s: seq<nat>)
    requires i <= |visits|
  {
    seq(|visits| - i, j requires 0 <= j < |visits| - i => visits[i + j].0)
  }

  lemma CircuitFollows(hs: seq<Header>, coins: seq<LayerCoins>, first: nat)
    requires forall i :: 0 <= i < |hs| ==> HopAgrees(hs, first, i) && Made(Visits(hs, first)[i].1, coins, i)
    ensures Follows(CircuitOf(hs, first), Visits(hs, first))
  {
    hide CircuitOf;
    forall i | 0 <= i < |hs|
      ensures var circuit, visits := CircuitOf(hs, first), Visits(hs, first);
        && circuit[i].0 == visits[i].1.connId && circuit[i].1.key == visits[i].1.key && visits[i].1.layer == i
        && (i + 1 < |visits| ==> visits[i].1.destServer == visits[i + 1].0)
    {
      assert HopAgrees(hs, first, i) && Made(Visits(hs, first)[i].1, coins, i);
    }
  }

  lemma {:induction false} UnboxFrom(payload: Wire, circuit: seq<Hop>, visits: seq<Visit>, nonces: seq<nat>, tables: Tables, i: nat, curServer: nat)
    requires Follows(circuit, visits) && Stored(tables, visits) && |nonces| == |circuit| && i <= |circuit|
    requires i < |visits| ==> curServer == visits[i].0
    ensures WalkData(BuildData(payload, circuit, nonces, i), curServer, tables, i, |circuit|) == Some((payload, Servers(visits, i)))
    decreases |circuit| - i
  {
    hide DecryptDataLayer, BuildData, Stored;
    if i < |circuit| {
      UnboxLayer(payload, circuit, visits, nonces, tables, i);
      UnboxFrom(payload, circuit, visits, nonces, tables, i + 1, visits[i].1.destServer);
      assert Servers(visits, i) == [visits[i].0] + Servers(visits, i + 1);
    } else {
      assert Servers(visits, i) == [];
      assert BuildData(payload, circuit, nonces, i) == payload by {
        BuildNone(payload, circuit, nonces);
      }
    }
  }

  lemma UnboxLayer(payload: Wire, circuit: seq<Hop>, visits: seq<Visit>, nonces: seq<nat>, tables: Tables, i: nat)
    requires Follows(circuit, visits) && Stored(tables, visits) && |nonces| == |circuit| && i < |circuit|
    ensures visits[i].0 < |tables|
    ensures DecryptDataLayer(BuildData(payload, circuit, nonces, i), visits[i].0, tables, i)
         == Some((BuildData(payload, circuit, nonces, i + 1), visits[i].1.destServer))
  {
  }

  // ---------- The check of a data packet's layer ----------

  /** A boxed packet whose id is stored at the server, with its key and nonce. */
  predicate Fits(wire: Wire, conn: Connection) {
    wire.Boxed? && wire.header.connId == conn.connId && wire.nonce == wire.header.nonce && wire.key == conn.key
  }

  /** A packet that fits a stored connection is accepted for a layer exactly if the connection is for that
      layer or names the server; then it leads on along the connection. */
  lemma AcceptedForLayer(wire: Wire, server: nat, tables: Tables, layer: nat)
    requires server < |tables| && wire.Boxed? && wire.header.connId in tables[server]
    requires tables[server][wire.header.connId].connId == wire.header.connId && Fits(wire, tables[server][wire.header.connId])
    ensures var conn := tables[server][wire.header.connId];
      DecryptDataLayer(wire, server, tables, layer)
      == if conn.curServer == server || conn.layer == layer then Some((wire.body, conn.destServer)) else None
  {
  }

  /** Every connection a client's setup packet leaves names server 0. So a packet that fits hop `i` of a
      stored circuit is accepted for a layer exactly if that is layer `i`, or if the hop's server is server
      0, which accepts it for every layer. */
  lemma {:induction false} LayerCheck(net: Network, sig: Signature, m: Modification, coins: seq<LayerCoins>, first: nat,
                                      tables: Tables, i: nat, wire: Wire, layer: nat)
    requires net.Valid() && Honest(net, sig) && UsableLayers(coins) && |coins| == net.layers && first < net.size
    requires m.Keep? || (|m.badTickets| >= net.layers - 1 && net.mode != Verify)
    requires Headers(net, sig, m, coins, 0).Ok? && Stored(tables, Visits(Headers(net, sig, m, coins, 0).value, first))
    requires i < net.layers && Fits(wire, Visits(Headers(net, sig, m, coins, 0).value, first)[i].1)
    ensures var (server, conn) := Visits(Headers(net, sig, m, coins, 0).value, first)[i];
      && server < |tables| && conn.curServer == 0
      && DecryptDataLayer(wire, server, tables, layer)
         == if server == 0 || layer == i then Some((wire.body, conn.destServer)) else None
  {
    hide Headers, KeysAgree, Wrap, WalkSetup, Honest, UsableLayers, DecryptDataLayer;
    SetupRoundTrip(net, sig, m, coins, first);
    var visits := Visits(Headers(net, sig, m, coins, 0).value, first);
    assert Made(visits[i].1, coins, i);
    AcceptedForLayer(wire, visits[i].0, tables, layer);
  }

  /** A packet for layer 0, at server 0, asked for at layer 1: it is accepted. */
  lemma WrongLayerAccepted(key: nat, nonce: nat, body: Wire)
    ensures var conn := Connection(7, key, 0, 0, 1);
      DecryptDataLayer(Boxed(DataHeader(7, nonce), nonce, key, body), 0, [map[7 := conn]], 1) == Some((body, 1)) && conn.layer != 1
  {
    var conn := Connection(7, key, 0, 0, 1);
    AcceptedForLayer(Boxed(DataHeader(7, nonce), nonce, key, body), 0, [map[7 := conn]], 1);
  }

  lemma {:induction false} BuildNone(payload: Wire, circuit: seq<Hop>, nonces: seq<nat>)
    requires |nonces| == |circuit|
    ensures BuildData(payload, circuit, nonces, |circuit|) == payload
  {
  }

  /** Setup and data follow one path: after any network state `tables` has taken in a client's setup
      packet, a data packet built from the client's circuit peels, layer by layer along the servers
      that return each other, to its payload, and it visits the servers the setup packet visited. */
  lemma {:induction false} DataRoundTrip(net: Network, sig: Signature, m: Modification, coins: seq<LayerCoins>, first: nat,
                      tables: Tables, payload: Wire, nonces: seq<nat>)
    requires net.Valid() && Honest(net, sig) && UsableLayers(coins) && |coins| == net.layers && first < net.size
    requires m.Keep? || (|m.badTickets| >= net.layers - 1 && net.mode != Verify)
    requires |tables| == net.size && |nonces| == net.layers
    ensures Headers(net, sig, m, coins, 0).Ok? && InNetwork(net, Headers(net, sig, m, coins, 0).value)
    ensures
      var hs := Headers(net, sig, m, coins, 0).value;
      var visits := Visits(hs, first);
      KeysAgree(net, hs) && Distinct(visits) ==>
      && WalkSetup(net, Wrap(net, hs, 0, first), first, 0) == Ok((Plain([]), visits))
      && (forall j :: 0 <= j < |visits| ==> visits[j].0 < |tables|)
      && WalkData(BuildData(payload, CircuitOf(hs, first), nonces, 0), first, InsertAll(tables, visits), 0, net.layers)
         == Some((payload, Servers(visits, 0)))
  {
    hide Headers, Wrap, WalkSetup, BuildData, WalkData, InsertAll, KeysAgree, Stored, CircuitOf;
    SetupRoundTrip(net, sig, m, coins, first);
    var hs := Headers(net, sig, m, coins, 0).value;
    var visits, circuit := Visits(hs, first), CircuitOf(hs, first);
    forall j | 0 <= j < |visits| ensures visits[j].0 < |tables| {
      assert HopAgrees(hs, first, j);
    }
    CircuitFollows(hs, coins, first);
    if KeysAgree(net, hs) && Distinct(visits) {
      InsertAllStores(tables, visits);
      UnboxFrom(payload, circuit, visits, nonces, InsertAll(tables, visits), 0, first);
    }
  }

  // ---------- A client and the servers together ----------

  /** What the client had before does not reach its new circuit. */
  lemma NewCircuitFirst(hs: seq<Header>, first: nat, earlier: seq<Hop>)
    ensures Relink(first, Entries(hs) + earlier)[..|hs|] == CircuitOf(hs, first)
  {
    var all, c := Relink(first, Entries(hs) + earlier), CircuitOf(hs, first);
    forall i | 0 <= i < |hs| ensures all[i] == c[i] {
      assert (Entries(hs) + earlier)[i] == Entries(hs)[i];
      if i > 0 {
        assert (Entries(hs) + earlier)[i - 1] == Entries(hs)[i - 1];
      }
      assert all[i] == Relinked(first, Entries(hs) + earlier, i) == Relinked(first, Entries(hs), i) == c[i];
    }
  }

  /** The circuit this client would set up: the key pairs along it agree, and no server gets one
      connection id twice. */
  ghost predicate GoodCircuit(net: Network, sig: Signature, coins: seq<LayerCoins>, first: nat)
    requires net.Valid() && UsableLayers(coins) && |coins| == net.layers
  {
    var r := Headers(net, sig, Keep, coins, 0);
    r.Ok? && InNetwork(net, r.value) ==> KeysAgree(net, r.value) && Distinct(Visits(r.value, first))
  }

  /** A client sends its setup packet and then a data packet: the servers peel the first to nothing and
      the second to the payload. */
  method SetupThenSend(net: Network, sig: Signature, coins: seq<LayerCoins>, first: nat, payload: Wire, nonces: seq<nat>)
    returns (left: Wire, delivered: Wire)
    requires net.Valid() && Honest(net, sig) && UsableLayers(coins) && |coins| == net.layers && first < net.size
    requires GoodCircuit(net, sig, coins, first) && |nonces| == net.layers
    ensures left == Plain([]) && delivered == payload
  {
    hide Headers, Wrap, WalkSetup, BuildData, KeysAgree, Distinct, CircuitOf, Relink, Visits, InsertAll, Honest, UsableLayers,
      DecryptDataLayer;
    var client := new Client(sig);
    var conns := new Connections(net.size);
    DataRoundTrip(net, sig, Keep, coins, first, conns.conns, payload, nonces);
    var setup := client.GenerateSetupPacket(net, Keep, coins, first);
    ghost var hs := Headers(net, sig, Keep, coins, 0).value;
    NewCircuitFirst(hs, first, Reversed([]));
    var peeled := DecryptSetupPacket(setup.value.0, setup.value.1, net, conns);
    left := peeled.value;
    delivered := client.GenerateDataPacket(net, payload, nonces);
    var curServer := first;
    var tables := conns.conns;
    for i := 0 to net.layers
      invariant WalkData(delivered, curServer, tables, i, net.layers).Some?
      invariant WalkData(delivered, curServer, tables, i, net.layers).value.0 == payload
    {
      var layer := DecryptDataLayer(delivered, curServer, tables, i);
      delivered := layer.value.0;
      curServer := layer.value.1;
    }
  }
}
