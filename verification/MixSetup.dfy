/** What the mixes hold, send and store in a setup round, whatever is injected: the check of large batches
    in terms of the headers alone, and the headers behind every packet that gets on. */
module MixSetup {
  import opened Lists
  import opened Results
  import opened Network
  import opened PacketChecks
  import opened MixServer
  import opened MixRound
  import opened MixSafety
  import opened EdgeCases
  import opened MixLockstep
  import opened MixPanics
  import opened MixInStep
  import opened MixRefinement
  import opened MixTraffic

  // ---------- The check of large batches ----------

  /** The batches that are checked: only in one of the modes, those with more than their share of all packets
      times the edge factor. */
  ghost predicate Large(net: Network, edge: real, size: nat, total: nat) {
    net.mode == OnlyVerifyEdgeCases && (size as real) * (net.size as real) > edge * (total as real)
  }

  /** A setup packet whose header verifies for the layer. */
  ghost predicate Passed(net: Network, h: Held, layer: nat)
    requires net.Valid()
  {
    h.HeldSetup? && exists x: nat :: VerifyHeader(h.packet.header, net, layer) == Ok((x, true))
  }

  /** What remains of a batch of layer `key`: of a large one the packets that verify for the layer before, as
      often as they were there, of any other the whole. */
  ghost predicate Remains(net: Network, edge: real, batch: seq<Held>, key: nat, total: nat, kept: seq<Held>)
    requires net.Valid() && key >= 1
  {
    if Large(net, edge, |batch|, total)
    then forall h :: multiset(kept)[h] == if Passed(net, h, key - 1) then multiset(batch)[h] else 0
    else kept == batch
  }

  lemma SetupKept(net: Network, edge: real, batch: seq<Held>, key: nat, total: nat)
    requires net.Valid() && edge >= 0.0 && key >= 1
    ensures Remains(net, edge, batch, key, total, Kept(SetupConfig(net, edge), batch, key, total))
  {
    hide VerifyHeader;
    var cfg := SetupConfig(net, edge);
    LimitExact(cfg, |batch|, total);
    if Large(net, edge, |batch|, total) {
      forall h ensures multiset(Kept(cfg, batch, key, total))[h] == if Passed(net, h, key - 1) then multiset(batch)[h] else 0 {
        FilterCounts(cfg, batch, key - 1, h);
        assert cfg.traffic.valid(h, key - 1) == ValidSetup(net, h, key - 1);
        PassedMeans(net, h, key - 1);
      }
    }
  }

  lemma PassedMeans(net: Network, h: Held, layer: nat)
    requires net.Valid()
    ensures ValidSetup(net, h, layer) == Ok(true) <==> Passed(net, h, layer)
  {
    hide VerifyHeader;
    if h.HeldSetup? {
      var r := VerifyHeader(h.packet.header, net, layer);
      assert r.Ok? ==> r == Ok((r.value.0, r.value.1));
    }
  }

  /** Checking a batch panics exactly if it is large and some header in it makes the check panic. */
  lemma SetupCheckable(net: Network, edge: real, batch: seq<Held>, key: nat, total: nat)
    requires net.Valid() && edge >= 0.0 && key >= 1
    ensures Checkable(SetupConfig(net, edge), batch, key, total)
       <==> !(Large(net, edge, |batch|, total)
              && exists i :: 0 <= i < |batch| && batch[i].HeldSetup? && VerifyHeader(batch[i].packet.header, net, key - 1) == Panic)
  {
    hide VerifyHeader;
    var cfg := SetupConfig(net, edge);
    LimitExact(cfg, |batch|, total);
    forall i | 0 <= i < |batch|
      ensures cfg.traffic.valid(batch[i], key - 1).Ok?
         <==> !(batch[i].HeldSetup? && VerifyHeader(batch[i].packet.header, net, key - 1) == Panic)
    {
      assert cfg.traffic.valid(batch[i], key - 1) == ValidSetup(net, batch[i], key - 1);
      if batch[i].HeldSetup? {
        NoHeaderError(batch[i].packet.header, net, key - 1);
      }
    }
  }

  /** The total that the limit is a share of: all packets of the layer. */
  lemma {:induction false} TotalIsAll(batches: seq<seq<Held>>)
    ensures TotalOutgoing(batches) == |FlatMap(Whole(), batches)|
  {
    if batches != [] {
      TotalIsAll(batches[..|batches| - 1]);
    }
  }

  /** When a mix sends a layer in a setup round, each mix gets one request, with what remains of its batch in
      some order. */
  lemma SetupSent(net: Network, edge: real, s: State, s': State, i: nat, sent: seq<seq<Wire>>, d: nat)
    requires net.Valid() && edge >= 0.0 && Shape(SetupConfig(net, edge), s)
    requires FireStep(SetupConfig(net, edge), s, s', i, sent) && d < |sent|
    ensures var src := s.tasks[i].dst;
      var key := MinKey(s.mixes[src].buffer.Keys);
      var batches := s.mixes[src].buffer[key].batches;
      && |batches| == |sent| == net.size && key >= 1
      && |s'.tasks| == |s.tasks| + net.size && s'.tasks[|s.tasks| + d] == Task(src, d, key, sent[d], InFlight)
      && exists kept: seq<Held> ::
           && Remains(net, edge, batches[d], key, |FlatMap(Whole(), batches)|, kept)
           && multiset(sent[d]) == multiset(Wires(kept))
  {
    hide SetupConfig, Kept, Remains, TotalOutgoing, Wires, FlatMap, Checkable;
    var cfg, m := SetupConfig(net, edge), s.mixes[s.tasks[i].dst];
    assert TaskShape(cfg, s, i) && WellFormed(cfg, m.buffer);
    var key := MinKey(m.buffer.Keys);
    var batches := m.buffer[key].batches;
    TotalIsAll(batches);
    SetupKept(net, edge, batches[d], key, TotalOutgoing(batches));
    assert Shuffled(Kept(cfg, batches[d], key, TotalOutgoing(batches)), sent[d]);
  }

  // ---------- Peeling ----------

  /** What a mix makes of a packet: it keeps it for the mix its header leads to and stores its connection; it
      drops it, and nothing else happens, exactly if the check on arrival refuses it; anything else is a panic. */
  lemma SetupPeels(net: Network, edge: real, d: nat, w: Wire, j: nat, p: Peeled)
    requires net.Valid() && edge >= 0.0
    ensures var r := SetupConfig(net, edge).traffic.peel(d, w, j);
      && (r == Ok(Some(p)) <==>
            && d < net.size && p.held.HeldSetup? && w == Sealed(net.servers[d], p.held.packet)
            && p.conn == Some(p.held.packet.header.conn) && Leads(p.held.packet.header, net, j, p.next))
      && (r == Ok(None) <==>
            && d < net.size && w.Sealed? && w.recipient == net.servers[d] && net.mode == Verify && j != net.layers - 1
            && VerifyHeader(w.packet.header, net, j) != Panic && !exists x: nat :: Proven(w.packet.header, net, j, x))
      && !r.Err?
  {
    hide DecryptSetupLayer, Leads, Proven, VerifyHeader;
    assert SetupConfig(net, edge).traffic.peel(d, w, j) == PeelSetup(net, d, w, j);
    if d < net.size {
      var r := DecryptSetupLayer(w, d, net, j);
      var any := SetupPacket(SetupHeader([], [], Connection(0, 0, 0, 0, 0)), Plain([]));
      SetupLayerMeans(w, d, net, j, if p.held.HeldSetup? then p.held.packet else any, p.next, if p.conn.Some? then p.conn.value else any.header.conn);
      if r.Ok? && r.value.Some? {
        var (packet, next, conn) := r.value.value;
        SetupLayerMeans(w, d, net, j, packet, next, conn);
      }
    }
  }

  /** A packet that is refused on arrival gives nothing, and stops nothing else. */
  lemma {:induction false} RefusedIsDropped(net: Network, edge: real, strict: bool, d: nat, packet: SetupPacket, j: nat, x: nat)
    requires net.Valid() && net.layers >= 2 && edge >= 0.0 && net.mode == Verify && j < net.layers - 1 && d < net.size
    requires VerifyHeader(packet.header, net, j) == Ok((x, false))
    ensures Peels(SetupConfig(net, edge), d, Sealed(net.servers[d], packet), j)
    ensures Path(SetupConfig(net, edge), strict, d, Sealed(net.servers[d], packet), j) == multiset{}
  {
    hide VerifyHeader;
    var w := Sealed(net.servers[d], packet);
    assert SetupConfig(net, edge).traffic.peel(d, w, j) == PeelSetup(net, d, w, j);
    assert DecryptSetupLayer(w, d, net, j) == Ok(None);
  }

  // ---------- The headers behind what gets on ----------

  /** Every packet a mix holds was peeled there from a packet of a request. */
  lemma HeldFrom(cfg: Config, inits: seq<seq<Wire>>, s: State, d: nat, j: nat, next: nat, h: Held)
    requires cfg.Valid() && |inits| == cfg.n == |s.mixes| && InStep(cfg, inits, s) && d < cfg.n && next < cfg.n
    requires j + 1 in s.mixes[d].buffer && next < |s.mixes[d].buffer[j + 1].batches| && h in s.mixes[d].buffer[j + 1].batches[next]
    ensures exists w :: PeelsTo(cfg, d, w, j, next, h)
  {
    hide Batches, ParsedAt, InStep, PeelsTo;
    BatchesRightAt(cfg, inits, s, d);
    var batches := s.mixes[d].buffer[j + 1].batches;
    assert Alike(batches, BatchesAt(cfg, s, d, j));
    assert h in multiset(batches[next]);
    assert multiset(batches[next]) == multiset(BatchesAt(cfg, s, d, j)[next]);
    BatchFrom(cfg, d, ParsedAt(s, d, j), j, next, h);
  }

  lemma PeeledLeads(net: Network, edge: real, d: nat, w: Wire, j: nat, next: nat, h: Held)
    requires net.Valid() && edge >= 0.0 && PeelsTo(SetupConfig(net, edge), d, w, j, next, h)
    ensures h.HeldSetup? && d < net.size && w == Sealed(net.servers[d], h.packet) && Leads(h.packet.header, net, j, next)
  {
    hide SetupConfig, Leads;
    SetupPeels(net, edge, d, w, j, SetupConfig(net, edge).traffic.peel(d, w, j).value.value);
  }

  /** In every state of every setup round, whatever was injected: a packet that a mix holds for layer `k` and
      mix `next` has a header that leads there from the layer before, so where mixes verify on arrival it is
      proven for that layer. */
  lemma {:induction false} HeldInSetup(net: Network, edge: real, inits: seq<seq<Wire>>, states: seq<State>, i: nat,
                                       d: nat, k: nat, next: nat, h: Held)
    requires net.Valid() && net.layers >= 2 && edge >= 0.0 && |inits| == net.size
    requires Run(SetupConfig(net, edge), inits, states) && i < |states| && d < |states[i].mixes|
    requires k in states[i].mixes[d].buffer && next < |states[i].mixes[d].buffer[k].batches|
    requires h in states[i].mixes[d].buffer[k].batches[next]
    ensures k >= 1 && h.HeldSetup? && Leads(h.packet.header, net, k - 1, next)
    ensures net.mode == Verify && k != net.layers ==> Proven(h.packet.header, net, k - 1, next)
  {
    hide Run, Inv, InStep, SetupConfig, Proven;
    var cfg, s := SetupConfig(net, edge), states[i];
    RunInv(cfg, inits, states, i);
    RunInStep(cfg, inits, states, i);
    InvShape(cfg, s);
    assert WellFormed(cfg, s.mixes[d].buffer);
    HeldFrom(cfg, inits, s, d, k - 1, next, h);
    var w :| PeelsTo(cfg, d, w, k - 1, next, h);
    PeeledLeads(net, edge, d, w, k - 1, next, h);
  }

  /** What is sent to mix `next` is the content of a packet of the batch whose header leads there. Where mixes
      verify on arrival, and in a large batch where they check those, it is proven for the layer before. */
  ghost predicate Accounted(net: Network, edge: real, batch: seq<Held>, key: nat, total: nat, next: nat, w: Wire)
    requires net.Valid() && key >= 1
  {
    exists packet: SetupPacket ::
      && packet.data == w && HeldSetup(packet) in batch && Leads(packet.header, net, key - 1, next)
      && (net.mode == Verify || Large(net, edge, |batch|, total) ==> Proven(packet.header, net, key - 1, next))
  }

  /** So it is in every step that sends a layer, whatever was injected. */
  lemma {:induction false} SentInSetup(net: Network, edge: real, inits: seq<seq<Wire>>, states: seq<State>, i: nat,
                                       t: nat, sent: seq<seq<Wire>>, next: nat, w: Wire)
    requires net.Valid() && net.layers >= 2 && edge >= 0.0 && |inits| == net.size
    requires Run(SetupConfig(net, edge), inits, states) && i + 1 < |states|
    requires Shape(SetupConfig(net, edge), states[i]) && FireStep(SetupConfig(net, edge), states[i], states[i + 1], t, sent)
    requires next < |sent| && w in sent[next]
    ensures var buffer := states[i].mixes[states[i].tasks[t].dst].buffer;
      var key := MinKey(buffer.Keys);
      var batches := buffer[key].batches;
      key >= 1 && next < |batches| && Accounted(net, edge, batches[next], key, |FlatMap(Whole(), batches)|, next, w)
  {
    hide Run, Inv, InStep, SetupConfig, Proven, Leads, Remains, FlatMap, Wires, Accounted, Sends;
    var cfg, s := SetupConfig(net, edge), states[i];
    var d := s.tasks[t].dst;
    RunInv(cfg, inits, states, i);
    SendsMiddle(cfg, s, states[i + 1], t, sent);
    SetupSent(net, edge, s, states[i + 1], t, sent, next);
    var key := MinKey(s.mixes[d].buffer.Keys);
    var batches := s.mixes[d].buffer[key].batches;
    var total := |FlatMap(Whole(), batches)|;
    var kept: seq<Held> :| Remains(net, edge, batches[next], key, total, kept) && multiset(sent[next]) == multiset(Wires(kept));
    assert w in multiset(Wires(kept));
    forall h: Held | h in batches[next]
      ensures h.HeldSetup? && Leads(h.packet.header, net, key - 1, next) && (net.mode == Verify ==> Proven(h.packet.header, net, key - 1, next))
    {
      HeldInSetup(net, edge, inits, states, i, d, key, next, h);
    }
    KeptAccounted(net, edge, batches[next], key, total, next, kept, w);
  }

  lemma KeptAccounted(net: Network, edge: real, batch: seq<Held>, key: nat, total: nat, next: nat, kept: seq<Held>, w: Wire)
    requires net.Valid() && key >= 1 && Remains(net, edge, batch, key, total, kept) && w in Wires(kept)
    requires forall h :: h in batch ==>
      h.HeldSetup? && Leads(h.packet.header, net, key - 1, next) && (net.mode == Verify ==> Proven(h.packet.header, net, key - 1, next))
    ensures Accounted(net, edge, batch, key, total, next, w)
  {
    hide Proven, Leads, Remains, Large, VerifyHeader;
    var m :| 0 <= m < |kept| && Wires(kept)[m] == w;
    RemainsFrom(net, edge, batch, key, total, kept, kept[m]);
    if Large(net, edge, |batch|, total) {
      PassedLeads(net, kept[m].packet.header, key - 1, next);
    }
    assert HeldSetup(kept[m].packet) == kept[m];
  }

  lemma SendsMiddle(cfg: Config, s: State, s': State, t: nat, sent: seq<seq<Wire>>)
    requires Inv(cfg, s) && Shape(cfg, s) && FireStep(cfg, s, s', t, sent)
    ensures 1 <= MinKey(s.mixes[s.tasks[t].dst].buffer.Keys) < cfg.layers
  {
    hide Count, Sent, Behind, Buffered, Permits, Awake, SentFrom, Sends, Core;
    InvCore(cfg, s);
    ReadyMeans(cfg, s, s.tasks[t].dst);
  }

  lemma RemainsFrom(net: Network, edge: real, batch: seq<Held>, key: nat, total: nat, kept: seq<Held>, h: Held)
    requires net.Valid() && key >= 1 && Remains(net, edge, batch, key, total, kept) && h in kept
    ensures h in batch
    ensures Large(net, edge, |batch|, total) ==> Passed(net, h, key - 1)
  {
    hide Passed;
    if Large(net, edge, |batch|, total) {
      assert multiset(kept)[h] > 0;
    }
  }

  lemma PassedLeads(net: Network, header: SetupHeader, layer: nat, next: nat)
    requires net.Valid() && Leads(header, net, layer, next)
    requires exists x: nat :: VerifyHeader(header, net, layer) == Ok((x, true))
    ensures Proven(header, net, layer, next)
  {
    hide VerifyHeader, Proves;
    var x: nat :| VerifyHeader(header, net, layer) == Ok((x, true));
    HeaderMeans(header, net, layer, x);
  }

  /** In every state of every setup round: a stored connection belongs to a packet that was sealed for the
      mix's key pair and whose header leads on. */
  lemma {:induction false} StoredInSetup(net: Network, edge: real, inits: seq<seq<Wire>>, states: seq<State>, i: nat,
                                         d: nat, conn: Connection)
    requires net.Valid() && net.layers >= 2 && edge >= 0.0 && |inits| == net.size
    requires Run(SetupConfig(net, edge), inits, states) && i < |states| && d < |states[i].mixes| && conn in states[i].mixes[d].stored
    ensures exists j: nat, packet: SetupPacket, next: nat :: j < net.layers && packet.header.conn == conn && Leads(packet.header, net, j, next)
  {
    hide Run, Inv, InStep, SetupConfig, Leads, StoredIn;
    var cfg, s := SetupConfig(net, edge), states[i];
    RunInv(cfg, inits, states, i);
    RunInStep(cfg, inits, states, i);
    InvShape(cfg, s);
    BatchesRightAt(cfg, inits, s, d);
    assert conn in multiset(s.mixes[d].stored);
    assert conn in StoredIn(cfg, s, d, cfg.layers);
    StoredFrom(cfg, s, d, cfg.layers, conn);
    var j: nat, w: Wire, p: Peeled :| j < cfg.layers && cfg.traffic.peel(d, w, j) == Ok(Some(p)) && p.conn == Some(conn);
    SetupPeels(net, edge, d, w, j, p);
  }

  lemma {:induction false} StoredFrom(cfg: Config, s: State, d: nat, m: nat, conn: Connection)
    requires conn in StoredIn(cfg, s, d, m)
    ensures exists j: nat, w: Wire, p: Peeled :: j < m && cfg.traffic.peel(d, w, j) == Ok(Some(p)) && p.conn == Some(conn)
  {
    hide ParsedAt, FlatMap, DecryptIncoming, Conns;
    var j := m - 1;
    if conn in StoredIn(cfg, s, d, j) {
      StoredFrom(cfg, s, d, j, conn);
    } else {
      var ws := ParsedAt(s, d, j);
      var peeled := DecryptIncoming(cfg, d, ws, j);
      ConnsIsFlat(peeled);
      FlatMapFrom(ConnOf(), peeled, conn);
      var k :| 0 <= k < |peeled| && conn in ConnOf()(peeled[k]);
      DecryptIsFlat(cfg, d, ws, j);
      FlatMapFrom(PeelOf(cfg, d, j), ws, peeled[k]);
      var i :| 0 <= i < |ws| && peeled[k] in PeelOf(cfg, d, j)(ws[i]);
      assert cfg.traffic.peel(d, ws[i], j) == Ok(Some(peeled[k])) && peeled[k].conn == Some(conn);
    }
  }
}
