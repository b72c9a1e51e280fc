/** A setup round leaves the tables that peeling the packets one after another leaves, and a data round
    over those tables delivers every payload. */
module MixCircuits {
  import opened Results
  import opened Network
  import opened Circuits
  import opened MixServer
  import opened MixRound
  import opened MixSafety
  import opened MixLockstep
  import opened MixPanics
  import opened MixProgress
  import opened MixRefinement
  import opened MixTraffic

  // ---------- The tables of a round ----------

  /** All connections that the mixes stored, with their mix. */
  function StoredVisits(mixes: seq<Mix>): seq<Visit> {
    if mixes == [] then []
    else StoredVisits(mixes[..|mixes| - 1]) + VisitsAt(|mixes| - 1, mixes[|mixes| - 1].stored)
  }

  function VisitsAt(d: nat, conns: seq<Connection>): (v: seq<Visit>)
    ensures |v| == |conns|
  {
    seq(|conns|, i requires 0 <= i < |conns| => (d, conns[i]))
  }

  lemma {:induction false} StoredInRange(mixes: seq<Mix>)
    ensures forall j :: 0 <= j < |StoredVisits(mixes)| ==> StoredVisits(mixes)[j].0 < |mixes|
  {
    if mixes != [] {
      StoredInRange(mixes[..|mixes| - 1]);
    }
  }

  /** Each mix's own table, which started as its row of `tables`. */
  function RoundTables(mixes: seq<Mix>, tables: Tables): (r: Tables)
    requires |mixes| == |tables|
    ensures |r| == |tables|
  {
    seq(|tables|, d requires 0 <= d < |tables| => StoreAll(tables, d, mixes[d].stored)[d])
  }

  lemma {:induction false} InsertAllConcat(tables: Tables, a: seq<Visit>, b: seq<Visit>)
    requires forall j :: 0 <= j < |a| ==> a[j].0 < |tables|
    requires forall j :: 0 <= j < |b| ==> b[j].0 < |tables|
    ensures InsertAll(tables, a + b) == InsertAll(InsertAll(tables, a), b)
  {
    if b == [] {
      assert a + b == a;
    } else {
      assert (a + b)[..|a + b| - 1] == a + b[..|b| - 1];
      InsertAllConcat(tables, a, b[..|b| - 1]);
    }
  }

  /** Storing at one mix, as visits; only its row changes, and in the same way whatever the others are. */
  lemma {:induction false} StoreIsInsert(tables: Tables, tables': Tables, d: nat, conns: seq<Connection>)
    requires d < |tables| == |tables'| && tables[d] == tables'[d]
    ensures InsertAll(tables', VisitsAt(d, conns)) == tables'[d := StoreAll(tables, d, conns)[d]]
  {
    if conns == [] {
      assert tables'[d := tables[d]] == tables';
    } else {
      var n := |conns| - 1;
      StoreIsInsert(tables, tables', d, conns[..n]);
      assert VisitsAt(d, conns)[..n] == VisitsAt(d, conns[..n]);
    }
  }

  lemma {:induction false} RowsInserted(mixes: seq<Mix>, tables: Tables, n: nat)
    requires |mixes| == |tables| && n <= |mixes|
    ensures forall j :: 0 <= j < |StoredVisits(mixes[..n])| ==> StoredVisits(mixes[..n])[j].0 < n
    ensures var r := InsertAll(tables, StoredVisits(mixes[..n]));
      forall d :: 0 <= d < |tables| ==> r[d] == if d < n then RoundTables(mixes, tables)[d] else tables[d]
  {
    StoredInRange(mixes[..n]);
    if n > 0 {
      RowsInserted(mixes, tables, n - 1);
      assert mixes[..n][..n - 1] == mixes[..n - 1];
      var before, conns := StoredVisits(mixes[..n - 1]), mixes[n - 1].stored;
      InsertAllConcat(tables, before, VisitsAt(n - 1, conns));
      StoreIsInsert(tables, InsertAll(tables, before), n - 1, conns);
    }
  }

  lemma {:induction false} RoundTablesInserted(mixes: seq<Mix>, tables: Tables)
    requires |mixes| == |tables|
    ensures forall j :: 0 <= j < |StoredVisits(mixes)| ==> StoredVisits(mixes)[j].0 < |tables|
    ensures RoundTables(mixes, tables) == InsertAll(tables, StoredVisits(mixes))
  {
    RowsInserted(mixes, tables, |mixes|);
    assert mixes[..|mixes|] == mixes;
  }

  // ---------- Tables do not depend on the order ----------

  function Lookup(tables: Tables, server: nat, id: nat): Option<Connection>
    requires server < |tables|
  {
    if id in tables[server] then Some(tables[server][id]) else None
  }

  predicate At(v: Visit, server: nat, id: nat) {
    v.0 == server && v.1.connId == id
  }

  /** Connections of one server with one id are the same connection. */
  ghost predicate UniqueIds(visits: seq<Visit>) {
    forall i, j :: 0 <= i < |visits| && 0 <= j < |visits| && visits[i].0 == visits[j].0 && visits[i].1.connId == visits[j].1.connId
      ==> visits[i] == visits[j]
  }

  lemma {:induction false} LookupInserted(tables: Tables, visits: seq<Visit>, server: nat, id: nat)
    requires UniqueIds(visits) && server < |tables| && forall j :: 0 <= j < |visits| ==> visits[j].0 < |tables|
    ensures forall i :: 0 <= i < |visits| && At(visits[i], server, id) ==> Lookup(InsertAll(tables, visits), server, id) == Some(visits[i].1)
    ensures (forall i :: 0 <= i < |visits| ==> !At(visits[i], server, id)) ==>
      Lookup(InsertAll(tables, visits), server, id) == Lookup(tables, server, id)
  {
    if visits != [] {
      LookupInserted(tables, visits[..|visits| - 1], server, id);
    }
  }

  lemma Occurs(a: seq<Visit>, b: seq<Visit>, i: nat)
    requires multiset(a) == multiset(b) && i < |a|
    ensures exists j :: 0 <= j < |b| && b[j] == a[i]
  {
    assert a[i] in multiset(b);
  }

  lemma UniqueIdsPermuted(a: seq<Visit>, b: seq<Visit>)
    requires multiset(a) == multiset(b) && UniqueIds(a)
    ensures UniqueIds(b)
  {
    forall i, j | 0 <= i < |b| && 0 <= j < |b| && b[i].0 == b[j].0 && b[i].1.connId == b[j].1.connId ensures b[i] == b[j] {
      Occurs(b, a, i);
      Occurs(b, a, j);
    }
  }

  lemma {:induction false} LookupPermuted(tables: Tables, a: seq<Visit>, b: seq<Visit>, server: nat, id: nat)
    requires multiset(a) == multiset(b) && UniqueIds(a) && UniqueIds(b) && server < |tables|
    requires forall j :: 0 <= j < |a| ==> a[j].0 < |tables|
    requires forall j :: 0 <= j < |b| ==> b[j].0 < |tables|
    ensures Lookup(InsertAll(tables, a), server, id) == Lookup(InsertAll(tables, b), server, id)
  {
    hide InsertAll, UniqueIds, Lookup;
    LookupInserted(tables, a, server, id);
    LookupInserted(tables, b, server, id);
    if i :| 0 <= i < |a| && At(a[i], server, id) {
      Occurs(a, b, i);
    } else if j :| 0 <= j < |b| && At(b[j], server, id) {
      Occurs(b, a, j);
    }
  }

  /** Inserting the same connections in another order gives the same tables. */
  lemma {:induction false} InsertAllPermuted(tables: Tables, a: seq<Visit>, b: seq<Visit>)
    requires multiset(a) == multiset(b) && UniqueIds(a)
    requires forall j :: 0 <= j < |a| ==> a[j].0 < |tables|
    requires forall j :: 0 <= j < |b| ==> b[j].0 < |tables|
    ensures InsertAll(tables, a) == InsertAll(tables, b)
  {
    hide InsertAll, UniqueIds;
    UniqueIdsPermuted(a, b);
    var x, y := InsertAll(tables, a), InsertAll(tables, b);
    forall d | 0 <= d < |tables| ensures x[d] == y[d] {
      forall id: nat ensures Lookup(x, d, id) == Lookup(y, d, id) {
        LookupPermuted(tables, a, b, d, id);
      }
      SameRow(x, y, d);
    }
  }

  lemma SameRow(x: Tables, y: Tables, d: nat)
    requires d < |x| && d < |y| && forall id: nat :: Lookup(x, d, id) == Lookup(y, d, id)
    ensures x[d] == y[d]
  {
    forall id: nat ensures id in x[d] <==> id in y[d] {
      assert Lookup(x, d, id) == Lookup(y, d, id);
    }
    forall id: nat | id in x[d] ensures x[d][id] == y[d][id] {
      assert Lookup(x, d, id) == Lookup(y, d, id);
    }
  }

  // ---------- A setup round is the sequential walk ----------

  /** The connections among the outcomes. */
  lemma {:induction false} CountVisits(visits: seq<Visit>, o: Outcome)
    ensures VisitSum(visits)[o] == match o
      case Stored(d, c) => multiset(visits)[(d, c)]
      case Delivered(_, _) => 0
  {
    if visits != [] {
      var n := |visits| - 1;
      assert visits == visits[..n] + [visits[n]];
      CountVisits(visits[..n], o);
    }
  }

  lemma {:induction false} CountStored(d: nat, conns: seq<Connection>, o: Outcome)
    requires o.Stored?
    ensures StoredSum(d, conns)[o] == multiset(VisitsAt(d, conns))[(o.mix, o.conn)]
  {
    if conns != [] {
      var n := |conns| - 1;
      assert VisitsAt(d, conns) == VisitsAt(d, conns[..n]) + [(d, conns[n])];
      CountStored(d, conns[..n], o);
    }
  }

  lemma {:induction false} CountOut(d: nat, ws: seq<Wire>, o: Outcome)
    requires o.Stored?
    ensures OutSum(d, ws)[o] == 0
  {
    if ws != [] {
      CountOut(d, ws[..|ws| - 1], o);
    }
  }

  lemma {:induction false} CountOutcomes(mixes: seq<Mix>, o: Outcome)
    requires o.Stored?
    ensures Outcomes(mixes)[o] == multiset(StoredVisits(mixes))[(o.mix, o.conn)]
  {
    hide StoredSum, OutSum, VisitsAt;
    if mixes != [] {
      var n := |mixes| - 1;
      CountOutcomes(mixes[..n], o);
      CountStored(n, mixes[n].stored, o);
      if mixes[n].out.Some? {
        CountOut(n, mixes[n].out.value, o);
      }
    }
  }

  /** The routes of the senders, one after another. */
  ghost function Routes(net: Network, senders: seq<Sender>): seq<Visit>
    requires AllReady(net, senders)
  {
    if senders == [] then [] else Routes(net, senders[..|senders| - 1]) + senders[|senders| - 1].Route(net)
  }

  lemma {:induction false} CountFates(net: Network, senders: seq<Sender>, o: Outcome)
    requires AllReady(net, senders) && o.Stored?
    ensures Fates(net, senders)[o] == multiset(Routes(net, senders))[(o.mix, o.conn)]
  {
    hide KeysAgree, VisitSum, Headers, Visits, Honest, UsableLayers;
    if senders != [] {
      var n := |senders| - 1;
      var before, last := senders[..n], senders[n];
      CountFates(net, before, o);
      CountVisits(last.Route(net), o);
      assert Fates(net, senders) == Fates(net, before) + Fate(net, last);
      assert Routes(net, senders) == Routes(net, before) + last.Route(net);
      hide Fates, Routes;
      assert multiset(Routes(net, senders))[(o.mix, o.conn)]
          == multiset(Routes(net, before))[(o.mix, o.conn)] + multiset(last.Route(net))[(o.mix, o.conn)];
    }
  }

  lemma RouteInRange(net: Network, c: Sender)
    requires c.Ready(net)
    ensures forall j :: 0 <= j < |c.Route(net)| ==> c.Route(net)[j].0 < net.size
  {
    hide Headers;
    forall j | 0 <= j < |c.Route(net)| ensures c.Route(net)[j].0 < net.size {
      VisitAt(c.Layers(net), c.first, j);
    }
  }

  lemma {:induction false} RoutesInRange(net: Network, senders: seq<Sender>)
    requires AllReady(net, senders)
    ensures forall j :: 0 <= j < |Routes(net, senders)| ==> Routes(net, senders)[j].0 < net.size
  {
    hide KeysAgree;
    if senders != [] {
      RoutesInRange(net, senders[..|senders| - 1]);
      RouteInRange(net, senders[|senders| - 1]);
    }
  }

  lemma {:induction false} WalkInRange(net: Network, wire: Wire, curServer: nat, i: nat)
    requires net.Valid() && curServer < net.size && i <= net.layers
    ensures var r := WalkSetup(net, wire, curServer, i);
      r.Ok? ==> forall j :: 0 <= j < |r.value.1| ==> r.value.1[j].0 < net.size
    decreases net.layers - i
  {
    hide DecryptSetupLayer;
    if i < net.layers {
      var peeled := DecryptSetupLayer(wire, curServer, net, i);
      if peeled.Ok? && peeled.value.Some? {
        WalkInRange(net, peeled.value.value.0.data, peeled.value.value.1, i + 1);
      }
    }
  }

  /** The tables after `decrypt_setup_packet` has peeled the senders' packets one after another. */
  ghost function SequentialTables(net: Network, senders: seq<Sender>, tables: Tables): (r: Result<Tables>)
    requires net.Valid() && AllReady(net, senders) && |tables| == net.size
    ensures r.Ok? ==> |r.value| == net.size
  {
    if senders == [] then Ok(tables) else
      var c := senders[|senders| - 1];
      var before :- SequentialTables(net, senders[..|senders| - 1], tables);
      WalkInRange(net, c.Setup(net), c.first, 0);
      var (_, visits) :- WalkSetup(net, c.Setup(net), c.first, 0);
      Ok(InsertAll(before, visits))
  }

  /** What one of these calls does: it peels the sender's packet to empty data and stores its route. */
  lemma {:induction false} SequentialStep(net: Network, c: Sender)
    requires c.Ready(net) && KeysAgree(net, c.Layers(net))
    ensures WalkSetup(net, c.Setup(net), c.first, 0) == Ok((Plain([]), c.Route(net)))
  {
    hide Headers, KeysAgree, WalkSetup, Wrap, Visits, CircuitOf;
    SetupRoundTrip(net, c.sig, Keep, c.coins, c.first);
  }

  lemma {:induction false} SequentialInserted(net: Network, senders: seq<Sender>, tables: Tables)
    requires net.Valid() && AllReady(net, senders) && |tables| == net.size
    ensures forall j :: 0 <= j < |Routes(net, senders)| ==> Routes(net, senders)[j].0 < net.size
    ensures SequentialTables(net, senders, tables) == Ok(InsertAll(tables, Routes(net, senders)))
  {
    hide KeysAgree, InsertAll, WalkSetup, Wrap, Headers, Visits, Honest, UsableLayers;
    RoutesInRange(net, senders);
    if senders != [] {
      var n := |senders| - 1;
      SequentialInserted(net, senders[..n], tables);
      RouteInRange(net, senders[n]);
      SequentialStep(net, senders[n]);
      InsertAllConcat(tables, Routes(net, senders[..n]), senders[n].Route(net));
    } else {
      assert InsertAll(tables, []) == tables by {
        InsertNone(tables);
      }
    }
  }

  lemma {:induction false} InsertNone(tables: Tables)
    ensures InsertAll(tables, []) == tables
  {
  }

  /** A setup round of honest clients leaves exactly the connection tables that peeling their packets
      one after another leaves, provided that no server is given one id for two connections. */
  lemma {:induction false} SetupTables(net: Network, edge: real, senders: seq<Sender>, inits: seq<seq<Wire>>, states: seq<State>, tables: Tables)
    requires net.Valid() && net.layers >= 2 && edge >= 0.0 && AllReady(net, senders)
    requires |inits| == net.size && Injects(SetupItems(net, senders), inits)
    requires Run(SetupConfig(net, edge), inits, states) && Complete(SetupConfig(net, edge), states[|states| - 1])
    requires |tables| == net.size && UniqueIds(Routes(net, senders))
    ensures |states[|states| - 1].mixes| == net.size
    ensures SequentialTables(net, senders, tables) == Ok(RoundTables(states[|states| - 1].mixes, tables))
  {
    hide AllReady, Injects, Step, Init, Shape, UniqueIds, InsertAll, StoredVisits, Routes, Outcomes, Fates;
    var mixes := states[|states| - 1].mixes;
    HonestSetupRound(net, edge, senders, inits, states);
    forall v: Visit ensures multiset(StoredVisits(mixes))[v] == multiset(Routes(net, senders))[v] {
      CountOutcomes(mixes, Stored(v.0, v.1));
      CountFates(net, senders, Stored(v.0, v.1));
    }
    assert multiset(StoredVisits(mixes)) == multiset(Routes(net, senders));
    RoundTablesInserted(mixes, tables);
    SequentialInserted(net, senders, tables);
    InsertAllPermuted(tables, Routes(net, senders), StoredVisits(mixes));
  }

  // ---------- Data packets ----------

  /** Peeling a data packet; the next mix is what the connection says, whether it exists or not. */
  function PeelData(tables: Tables, d: nat, w: Wire, j: nat): Result<Option<Peeled>> {
    if d >= |tables| then Panic
    else match DecryptDataLayer(w, d, tables, j)
      case Some((body, next)) => Ok(Some(Peeled(DataPacket(body), next, None)))
      case None => Ok(None)
  }

  function DataTraffic(tables: Tables): Traffic {
    Traffic((d: nat, w: Wire, j: nat) => PeelData(tables, d, w, j), false, (h: Held, layer: nat) => Ok(true))
  }

  /** What a mix makes of a data packet: it passes it on exactly as `decrypt_data_packet_layer` lets it, drops
      every other, and panics on none. */
  lemma DataPeels(tables: Tables, layers: nat, edge: real, d: nat, w: Wire, j: nat, p: Peeled)
    requires |tables| >= 1 && layers >= 1 && edge >= 0.0 && d < |tables|
    ensures var r := DataConfig(tables, layers, edge).traffic.peel(d, w, j);
      && (r == Ok(Some(p)) <==>
            p.held.DataPacket? && p.conn.None? && DecryptDataLayer(w, d, tables, j) == Some((p.held.data, p.next)))
      && (r == Ok(None) <==> DecryptDataLayer(w, d, tables, j) == None)
  {
    hide DecryptDataLayer;
    assert DataConfig(tables, layers, edge).traffic.peel(d, w, j) == PeelData(tables, d, w, j);
  }

  ghost function DataConfig(tables: Tables, layers: nat, edge: real): (cfg: Config)
    requires |tables| >= 1 && layers >= 1 && edge >= 0.0
    ensures cfg.Valid() && cfg.n == |tables| && cfg.layers == layers && !cfg.traffic.checked
  {
    Config(|tables|, layers, edge, DataTraffic(tables))
  }

  /** The servers of the visits, and where the last one leads, exist. */
  ghost predicate Known(visits: seq<Visit>, n: nat) {
    forall i :: 0 <= i < |visits| ==> visits[i].0 < n && visits[i].1.destServer < n
  }

  lemma PeelsLayer(tables: Tables, layers: nat, edge: real, circuit: seq<Hop>, visits: seq<Visit>, nonces: seq<nat>, payload: Wire, i: nat)
    requires |tables| >= 1 && layers >= 1 && edge >= 0.0 && |nonces| == |circuit| && i < |circuit|
    requires Follows(circuit, visits) && Circuits.Stored(tables, visits) && Known(visits, |tables|)
    ensures DataConfig(tables, layers, edge).traffic.peel(visits[i].0, BuildData(payload, circuit, nonces, i), i)
         == Ok(Some(Peeled(DataPacket(BuildData(payload, circuit, nonces, i + 1)), visits[i].1.destServer, None)))
  {
    hide DecryptDataLayer, BuildData;
    UnboxLayer(payload, circuit, visits, nonces, tables, i);
  }

  lemma {:induction false} DataPath(tables: Tables, layers: nat, edge: real, strict: bool, circuit: seq<Hop>, visits: seq<Visit>, nonces: seq<nat>, payload: Wire, i: nat)
    requires |tables| >= 1 && layers >= 2 && edge >= 0.0 && |nonces| == |circuit| == layers && i < layers
    requires Follows(circuit, visits) && Circuits.Stored(tables, visits) && Known(visits, |tables|)
    ensures Path(DataConfig(tables, layers, edge), strict, visits[i].0, BuildData(payload, circuit, nonces, i), i)
         == multiset{Delivered(visits[layers - 1].0, payload)}
    decreases layers - i
  {
    hide DataConfig, DataTraffic, Circuits.Stored;
    PeelsLayer(tables, layers, edge, circuit, visits, nonces, payload, i);
    if i + 1 < layers {
      DataPath(tables, layers, edge, strict, circuit, visits, nonces, payload, i + 1);
    }
  }

  /** What a sender sends in a data round. */
  datatype Message = Message(sender: Sender, payload: Wire, nonces: seq<nat>) {

    ghost predicate Ready(net: Network) {
      sender.Ready(net) && |nonces| == net.layers
    }

    ghost function Data(net: Network): Wire
      requires Ready(net)
    {
      BuildData(payload, CircuitOf(sender.Layers(net), sender.first), nonces, 0)
    }

    ghost function Arrival(net: Network): Outcome
      requires Ready(net)
    {
      Delivered(sender.Route(net)[net.layers - 1].0, payload)
    }
  }

  ghost predicate AllMessagesReady(net: Network, messages: seq<Message>) {
    forall i :: 0 <= i < |messages| ==> messages[i].Ready(net)
  }

  ghost function DataItems(net: Network, messages: seq<Message>): (items: seq<Item>)
    requires AllMessagesReady(net, messages)
    ensures |items| == |messages|
  {
    seq(|messages|, i requires 0 <= i < |messages| => Item(messages[i].sender.first, messages[i].Data(net)))
  }

  ghost function Arrivals(net: Network, messages: seq<Message>): multiset<Outcome>
    requires AllMessagesReady(net, messages)
  {
    if messages == [] then multiset{}
    else Arrivals(net, messages[..|messages| - 1]) + multiset{messages[|messages| - 1].Arrival(net)}
  }

  lemma RouteKnown(net: Network, c: Sender)
    requires c.Ready(net)
    ensures Known(c.Route(net), net.size) && Follows(CircuitOf(c.Layers(net), c.first), c.Route(net))
  {
    hide Headers, CircuitOf, Made, HopAgrees, Honest, UsableLayers, Visits, Follows;
    SenderMade(net, c);
    var hs := c.Layers(net);
    forall i | 0 <= i < |hs|
      ensures HopAgrees(hs, c.first, i) && Made(Visits(hs, c.first)[i].1, c.coins, i)
        && Visits(hs, c.first)[i].0 < net.size && Visits(hs, c.first)[i].1.destServer < net.size
    {
      HopFacts(net, hs, c.first, i);
      VisitAt(hs, c.first, i);
    }
    CircuitFollows(hs, c.coins, c.first);
  }

  lemma SenderMade(net: Network, c: Sender)
    requires c.Ready(net)
    ensures forall i :: 0 <= i < net.layers ==> Made(c.Layers(net)[i].0.conn, c.coins, i)
  {
    hide Headers, Made;
    PacketLayers(net, c.sig, Keep, c.coins, 0);
    forall i | 0 <= i < net.layers ensures Made(c.Layers(net)[i].0.conn, c.coins, i) {
      assert Made(c.Layers(net)[i].0.conn, c.coins, 0 + i);
    }
  }

  lemma {:induction false} MessagePath(net: Network, tables: Tables, edge: real, m: Message, strict: bool)
    requires m.Ready(net) && net.layers >= 2 && edge >= 0.0 && |tables| == net.size && Circuits.Stored(tables, m.sender.Route(net))
    ensures Path(DataConfig(tables, net.layers, edge), strict, m.sender.first, m.Data(net), 0) == multiset{m.Arrival(net)}
  {
    hide Headers, Visits, CircuitOf, DataConfig, BuildData, Known, Follows;
    var hs := m.sender.Layers(net);
    RouteKnown(net, m.sender);
    VisitAt(hs, m.sender.first, 0);
    DataPath(tables, net.layers, edge, strict, CircuitOf(hs, m.sender.first), m.sender.Route(net), m.nonces, m.payload, 0);
  }

  ghost predicate AllStored(net: Network, tables: Tables, messages: seq<Message>)
    requires AllMessagesReady(net, messages)
  {
    forall i :: 0 <= i < |messages| ==> Circuits.Stored(tables, messages[i].sender.Route(net))
  }

  lemma {:induction false} DataItemSum(net: Network, tables: Tables, edge: real, messages: seq<Message>)
    requires net.Valid() && AllMessagesReady(net, messages) && AllStored(net, tables, messages)
    requires net.layers >= 2 && edge >= 0.0 && |tables| == net.size
    ensures ItemSum(DataConfig(tables, net.layers, edge), DataItems(net, messages)) == Arrivals(net, messages)
  {
    hide Path, DataConfig, Circuits.Stored, Headers, Visits, CircuitOf, BuildData, Honest, UsableLayers;
    if messages != [] {
      var n := |messages| - 1;
      LastItem(net, messages);
      DataItemSum(net, tables, edge, messages[..n]);
      MessagePath(net, tables, edge, messages[n], false);
    }
  }

  lemma LastItem(net: Network, messages: seq<Message>)
    requires AllMessagesReady(net, messages) && messages != []
    ensures var n := |messages| - 1;
      && AllMessagesReady(net, messages[..n])
      && DataItems(net, messages)[..n] == DataItems(net, messages[..n])
      && DataItems(net, messages)[n] == Item(messages[n].sender.first, messages[n].Data(net))
  {
    hide Headers, Visits, CircuitOf, BuildData, Honest, UsableLayers;
  }

  /** A data round over tables that have the senders' circuits delivers, in every interleaving, exactly
      their payloads, each at the end of its circuit. */
  lemma {:induction false} DataRound(net: Network, tables: Tables, edge: real, messages: seq<Message>, inits: seq<seq<Wire>>, states: seq<State>)
    requires net.Valid() && net.layers >= 2 && edge >= 0.0 && |tables| == net.size
    requires AllMessagesReady(net, messages) && AllStored(net, tables, messages)
    requires |inits| == net.size && Injects(DataItems(net, messages), inits)
    requires Run(DataConfig(tables, net.layers, edge), inits, states)
    requires Complete(DataConfig(tables, net.layers, edge), states[|states| - 1])
    ensures Outcomes(states[|states| - 1].mixes) == Arrivals(net, messages)
  {
    hide Path, DataConfig, Circuits.Stored, Run, Complete, Outcomes, Injects, ItemSum, Arrivals;
    var cfg, items := DataConfig(tables, net.layers, edge), DataItems(net, messages);
    forall k | 0 <= k < |items|
      ensures Path(cfg, true, items[k].first, items[k].wire, 0) == Path(cfg, false, items[k].first, items[k].wire, 0)
    {
      MessagePath(net, tables, edge, messages[k], true);
      MessagePath(net, tables, edge, messages[k], false);
    }
    RoundOfItems(cfg, items, inits, states);
    DataItemSum(net, tables, edge, messages);
  }

  lemma {:induction false} DataSafe(tables: Tables, layers: nat, edge: real, circuit: seq<Hop>, visits: seq<Visit>, nonces: seq<nat>, payload: Wire, i: nat)
    requires |tables| >= 1 && edge >= 0.0 && |nonces| == |circuit| == layers && i < layers
    requires Follows(circuit, visits) && Circuits.Stored(tables, visits) && Known(visits, |tables|)
    ensures Safe(DataConfig(tables, layers, edge), visits[i].0, BuildData(payload, circuit, nonces, i), i)
    decreases layers - i
  {
    hide DataConfig, DataTraffic, Circuits.Stored, Safe, BuildData;
    PeelsLayer(tables, layers, edge, circuit, visits, nonces, payload, i);
    if i + 1 < layers {
      DataSafe(tables, layers, edge, circuit, visits, nonces, payload, i + 1);
    }
    SafeLayer(DataConfig(tables, layers, edge), visits[i].0, BuildData(payload, circuit, nonces, i), i,
              Peeled(DataPacket(BuildData(payload, circuit, nonces, i + 1)), visits[i].1.destServer, None));
  }

  lemma {:induction false} MessageSafe(net: Network, tables: Tables, edge: real, m: Message)
    requires m.Ready(net) && edge >= 0.0 && |tables| == net.size && Circuits.Stored(tables, m.sender.Route(net))
    ensures Safe(DataConfig(tables, net.layers, edge), m.sender.first, m.Data(net), 0)
  {
    hide Headers, Visits, CircuitOf, DataConfig, BuildData, Known, Follows, Safe;
    var hs := m.sender.Layers(net);
    RouteKnown(net, m.sender);
    VisitAt(hs, m.sender.first, 0);
    DataSafe(tables, net.layers, edge, CircuitOf(hs, m.sender.first), m.sender.Route(net), m.nonces, m.payload, 0);
  }

  /** Such a data round can be completed from any point of any run. */
  lemma {:induction false} DataRoundCompletes(net: Network, tables: Tables, edge: real, messages: seq<Message>, inits: seq<seq<Wire>>, states: seq<State>)
    returns (whole: seq<State>)
    requires net.Valid() && net.layers >= 2 && edge >= 0.0 && |tables| == net.size
    requires AllMessagesReady(net, messages) && AllStored(net, tables, messages)
    requires |inits| == net.size && Injects(DataItems(net, messages), inits)
    requires Run(DataConfig(tables, net.layers, edge), inits, states)
    ensures Run(DataConfig(tables, net.layers, edge), inits, whole) && states <= whole
    ensures Complete(DataConfig(tables, net.layers, edge), whole[|whole| - 1])
    ensures Outcomes(whole[|whole| - 1].mixes) == Arrivals(net, messages)
  {
    hide Safe, DataConfig, Circuits.Stored, Run, Complete, Outcomes, Injects, Clean, Arrivals;
    var cfg, items := DataConfig(tables, net.layers, edge), DataItems(net, messages);
    forall k | 0 <= k < |items| ensures Safe(cfg, items[k].first, items[k].wire, 0) {
      MessageSafe(net, tables, edge, messages[k]);
    }
    CleanItems(cfg, items, inits);
    whole := CanComplete(cfg, inits, states);
    DataRound(net, tables, edge, messages, inits, whole);
  }

  /** Whatever other packets are injected, if the round is completed then every payload arrives. */
  lemma {:induction false} DataAmongOthers(net: Network, tables: Tables, edge: real, messages: seq<Message>, inits: seq<seq<Wire>>, states: seq<State>)
    requires net.Valid() && net.layers >= 2 && edge >= 0.0 && |tables| == net.size
    requires AllMessagesReady(net, messages) && AllStored(net, tables, messages)
    requires |inits| == net.size && Includes(DataItems(net, messages), inits)
    requires Run(DataConfig(tables, net.layers, edge), inits, states)
    requires Complete(DataConfig(tables, net.layers, edge), states[|states| - 1])
    ensures Arrivals(net, messages) <= Outcomes(states[|states| - 1].mixes)
  {
    hide Path, DataConfig, Circuits.Stored, Run, Complete, Outcomes, Includes, ItemSum, Arrivals;
    var cfg, items := DataConfig(tables, net.layers, edge), DataItems(net, messages);
    forall k | 0 <= k < |items|
      ensures Path(cfg, true, items[k].first, items[k].wire, 0) == Path(cfg, false, items[k].first, items[k].wire, 0)
    {
      MessagePath(net, tables, edge, messages[k], true);
      MessagePath(net, tables, edge, messages[k], false);
    }
    RoundAmongOthers(cfg, items, inits, states);
    DataItemSum(net, tables, edge, messages);
  }

  // ---------- Setup, then data ----------

  lemma {:induction false} RouteAmongRoutes(net: Network, senders: seq<Sender>, i: nat, j: nat)
    requires AllReady(net, senders) && i < |senders| && j < |senders[i].Route(net)|
    ensures exists k :: 0 <= k < |Routes(net, senders)| && Routes(net, senders)[k] == senders[i].Route(net)[j]
  {
    hide KeysAgree, Headers, Visits, Honest, UsableLayers;
    var n := |senders| - 1;
    var before, last, visit := Routes(net, senders[..n]), senders[n].Route(net), senders[i].Route(net)[j];
    var all := Routes(net, senders);
    assert all == before + last;
    if i < n {
      assert senders[..n][i] == senders[i];
      RouteAmongRoutes(net, senders[..n], i, j);
      var k :| 0 <= k < |before| && before[k] == visit;
      assert all[k] == visit;
    } else {
      assert all[|before| + j] == visit;
    }
  }

  lemma {:induction false} RouteStored(net: Network, senders: seq<Sender>, tables: Tables, i: nat)
    requires net.Valid() && AllReady(net, senders) && |tables| == net.size && i < |senders| && UniqueIds(Routes(net, senders))
    ensures SequentialTables(net, senders, tables).Ok?
    ensures Circuits.Stored(SequentialTables(net, senders, tables).value, senders[i].Route(net))
  {
    hide KeysAgree, Routes, InsertAll, UniqueIds, SequentialTables;
    var route := senders[i].Route(net);
    SequentialInserted(net, senders, tables);
    RouteInRange(net, senders[i]);
    forall j | 0 <= j < |route|
      ensures var t := SequentialTables(net, senders, tables).value;
        route[j].0 < |t| && route[j].1.connId in t[route[j].0] && t[route[j].0][route[j].1.connId] == route[j].1
    {
      RouteAmongRoutes(net, senders, i, j);
      var k :| 0 <= k < |Routes(net, senders)| && Routes(net, senders)[k] == route[j];
      LookupInserted(tables, Routes(net, senders), route[j].0, route[j].1.connId);
      assert At(Routes(net, senders)[k], route[j].0, route[j].1.connId);
    }
  }

  /** Every connection in the tables after a setup round names server 0 too: a packet that fits hop `j` of
      a sender's circuit is accepted for a layer exactly if that is layer `j` or the hop is at server 0. */
  lemma {:induction false} RoundLayerCheck(net: Network, edge: real, senders: seq<Sender>, inits: seq<seq<Wire>>, states: seq<State>, tables: Tables,
                                           i: nat, j: nat, wire: Wire, layer: nat)
    requires net.Valid() && net.layers >= 2 && edge >= 0.0 && AllReady(net, senders)
    requires |inits| == |tables| == net.size && Injects(SetupItems(net, senders), inits)
    requires Run(SetupConfig(net, edge), inits, states) && Complete(SetupConfig(net, edge), states[|states| - 1])
    requires UniqueIds(Routes(net, senders)) && i < |senders| && j < net.layers && Fits(wire, senders[i].Route(net)[j].1)
    ensures |states[|states| - 1].mixes| == net.size
    ensures var left, (server, conn) := RoundTables(states[|states| - 1].mixes, tables), senders[i].Route(net)[j];
      && server < net.size && conn.curServer == 0
      && DecryptDataLayer(wire, server, left, layer)
         == if server == 0 || layer == j then Some((wire.body, conn.destServer)) else None
  {
    hide KeysAgree, Routes, UniqueIds, SequentialTables, Circuits.Stored, SetupConfig, Injects, Fits, DecryptDataLayer, Passes, Made,
      SetupItems, RoundTables, Complete, Step, Init, Shape, Headers, Visits, Honest, UsableLayers;
    SetupTables(net, edge, senders, inits, states, tables);
    RouteStored(net, senders, tables, i);
    var c := senders[i];
    PacketLayers(net, c.sig, Keep, c.coins, 0);
    LayerCheck(net, c.sig, Keep, c.coins, c.first, RoundTables(states[|states| - 1].mixes, tables), j, wire, layer);
  }

  /** The two rounds together: after any interleaving of the setup round of honest clients, any
      interleaving of a data round over the tables it left delivers every client's payload at the
      server where its setup packet ended, and nothing else. */
  lemma {:induction false} SetupThenData(net: Network, edge: real, senders: seq<Sender>, messages: seq<Message>, tables: Tables,
                      inits: seq<seq<Wire>>, states: seq<State>, inits': seq<seq<Wire>>, states': seq<State>)
    requires net.Valid() && net.layers >= 2 && edge >= 0.0 && AllReady(net, senders)
    requires |inits| == |inits'| == |tables| == net.size && UniqueIds(Routes(net, senders))
    requires Injects(SetupItems(net, senders), inits)
    requires Run(SetupConfig(net, edge), inits, states) && Complete(SetupConfig(net, edge), states[|states| - 1])
    requires AllMessagesReady(net, messages) && Injects(DataItems(net, messages), inits')
    requires forall i :: 0 <= i < |messages| ==> messages[i].sender in senders
    requires Run(DataConfig(RoundTables(states[|states| - 1].mixes, tables), net.layers, edge), inits', states')
    requires Complete(DataConfig(RoundTables(states[|states| - 1].mixes, tables), net.layers, edge), states'[|states'| - 1])
    ensures Outcomes(states'[|states'| - 1].mixes) == Arrivals(net, messages)
  {
    hide KeysAgree, Routes, UniqueIds, SequentialTables, Circuits.Stored, DataConfig, SetupConfig, Injects, Outcomes, Arrivals,
      SetupItems, DataItems, RoundTables, Complete, Step, Init, Shape, Headers, Visits, Honest, UsableLayers;
    SetupTables(net, edge, senders, inits, states, tables);
    var left := RoundTables(states[|states| - 1].mixes, tables);
    forall i | 0 <= i < |messages| ensures Circuits.Stored(left, messages[i].sender.Route(net)) {
      var k :| 0 <= k < |senders| && senders[k] == messages[i].sender;
      RouteStored(net, senders, tables, k);
    }
    DataRound(net, left, edge, messages, inits', states');
  }
}
