/** One mix server: its output buffer with a counter for each layer, its permits, its connections. */
module MixServer {
  import PrimeField
  import opened Lists
  import opened Results
  import opened Network

  /** What a mix keeps of a peeled packet. */
  datatype Held = DataPacket(data: Wire) | HeldSetup(packet: SetupPacket)

  /** What it passes on. */
  function WireOf(h: Held): Wire {
    match h
    case DataPacket(data) => data
    case HeldSetup(packet) => packet.data
  }

  function Wires(s: seq<Held>): (w: seq<Wire>)
    ensures |w| == |s|
  {
    seq(|s|, i requires 0 <= i < |s| => WireOf(s[i]))
  }

  /** A layer's output: a batch for each next mix, and how many requests have gone into it. */
  datatype Slot = Slot(batches: seq<seq<Held>>, counter: nat)

  type Buffer = map<nat, Slot>

  datatype Peeled = Peeled(held: Held, next: nat, conn: Option<Connection>)

  /** Setup or data: how a mix peels a packet at a layer (none if it drops the packet), whether large
      outgoing batches are verified, and whether a packet passes that verification for a layer. Peeling
      and verifying may panic. */
  datatype Traffic = Traffic(peel: (nat, Wire, nat) -> Result<Option<Peeled>>, checked: bool, valid: (Held, nat) -> Result<bool>)

  datatype Config = Config(n: nat, layers: nat, edge: real, traffic: Traffic) {

    predicate Valid() {
      n >= 1 && layers >= 1 && edge >= 0.0
    }
  }

  // ---------- Parsing a request ----------

  /** The packets of a request that peel, in order. */
  function DecryptIncoming(cfg: Config, id: nat, packets: seq<Wire>, layer: nat): seq<Peeled> {
    if packets == [] then [] else
      var rest := DecryptIncoming(cfg, id, packets[..|packets| - 1], layer);
      match cfg.traffic.peel(id, packets[|packets| - 1], layer)
      case Ok(Some(p)) => rest + [p]
      case _ => rest
  }

  /** No packet of the request makes the handler panic while peeling. */
  ghost predicate Opens(cfg: Config, id: nat, packets: seq<Wire>, layer: nat) {
    forall i :: 0 <= i < |packets| ==> cfg.traffic.peel(id, packets[i], layer).Ok?
  }

  /** Every packet goes to a mix that exists. */
  ghost predicate InRange(n: nat, peeled: seq<Peeled>) {
    forall i :: 0 <= i < |peeled| ==> peeled[i].next < n
  }

  /** The packets before the first one that goes to no mix. */
  function Pushable(n: nat, peeled: seq<Peeled>): (r: seq<Peeled>)
    ensures InRange(n, r)
  {
    if peeled == [] || peeled[0].next >= n then [] else [peeled[0]] + Pushable(n, peeled[1..])
  }

  /** A request is parsed to its end: no packet panics, and each has a next mix. */
  ghost predicate Parses(cfg: Config, id: nat, packets: seq<Wire>, layer: nat) {
    Opens(cfg, id, packets, layer) && InRange(cfg.n, DecryptIncoming(cfg, id, packets, layer))
  }

  function Push(batches: seq<seq<Held>>, p: Peeled): (r: seq<seq<Held>>)
    ensures |r| == |batches|
  {
    if p.next < |batches| then batches[p.next := batches[p.next] + [p.held]] else batches
  }

  function PushAll(batches: seq<seq<Held>>, peeled: seq<Peeled>): (r: seq<seq<Held>>)
    ensures |r| == |batches|
  {
    if peeled == [] then batches
    else Push(PushAll(batches, peeled[..|peeled| - 1]), peeled[|peeled| - 1])
  }

  lemma {:induction false} PushableUpTo(n: nat, peeled: seq<Peeled>, i: nat)
    requires i <= |peeled| && InRange(n, peeled[..i]) && (i < |peeled| ==> peeled[i].next >= n)
    ensures Pushable(n, peeled) == peeled[..i]
  {
    if i > 0 {
      assert peeled[..i][0] == peeled[0];
      assert peeled[1..][..i - 1] == peeled[..i][1..];
      PushableUpTo(n, peeled[1..], i - 1);
    }
  }

  function Opened(cfg: Config, buffer: Buffer, key: nat): Slot {
    if key in buffer then buffer[key] else Slot(seq(cfg.n, _ => []), 0)
  }

  ghost predicate WellFormed(cfg: Config, buffer: Buffer) {
    0 !in buffer && forall k :: k in buffer ==> |buffer[k].batches| == cfg.n
  }

  function PutSlot(buffer: Buffer, key: nat, slot: Slot): Buffer {
    buffer[key := slot]
  }

  function Without(buffer: Buffer, key: nat): (r: Buffer)
    ensures forall k: nat :: k in r <==> k in buffer && k != key
    ensures forall k :: k in r ==> r[k] == buffer[k]
  {
    buffer - {key}
  }

  /** The buffer after a request from `layer`. */
  function ParseInto(cfg: Config, buffer: Buffer, layer: nat, peeled: seq<Peeled>): (r: Buffer)
    requires WellFormed(cfg, buffer)
    ensures WellFormed(cfg, r) && r.Keys == buffer.Keys + {layer + 1}
  {
    var slot := Opened(cfg, buffer, layer + 1);
    PutSlot(buffer, layer + 1, Slot(PushAll(slot.batches, peeled), slot.counter + 1))
  }

  /** The connections that peeling gave. */
  function Conns(peeled: seq<Peeled>): seq<Connection> {
    if peeled == [] then [] else
      var rest := Conns(peeled[..|peeled| - 1]);
      match peeled[|peeled| - 1].conn
      case None => rest
      case Some(c) => rest + [c]
  }

  function StoreAll(tables: Tables, id: nat, conns: seq<Connection>): (r: Tables)
    requires id < |tables|
    ensures |r| == |tables|
  {
    if conns == [] then tables
    else InsertInto(StoreAll(tables, id, conns[..|conns| - 1]), id, conns[|conns| - 1])
  }

  // ---------- Sending a layer ----------

  predicate IsLeast(keys: set<nat>, k: nat) {
    k in keys && forall j :: j in keys ==> k <= j
  }

  predicate IsGreatest(keys: set<nat>, k: nat) {
    k in keys && forall j :: j in keys ==> j <= k
  }

  lemma {:induction false} MinExists(keys: set<nat>)
    requires keys != {}
    ensures exists m :: IsLeast(keys, m)
    decreases |keys|
  {
    var m :| m in keys;
    var rest := keys - {m};
    assert forall j :: j in keys ==> j == m || j in rest;
    if rest == {} {
      assert IsLeast(keys, m);
    } else {
      MinExists(rest);
      var k :| IsLeast(rest, k);
      assert IsLeast(keys, if k < m then k else m);
    }
  }

  function MinKey(keys: set<nat>): (k: nat)
    requires keys != {}
    ensures k in keys && forall j :: j in keys ==> k <= j
  {
    MinExists(keys);
    var k :| IsLeast(keys, k);
    k
  }

  lemma {:induction false} MaxExists(keys: set<nat>)
    requires keys != {}
    ensures exists m :: IsGreatest(keys, m)
    decreases |keys|
  {
    var m :| m in keys;
    var rest := keys - {m};
    assert forall j :: j in keys ==> j == m || j in rest;
    if rest == {} {
      assert IsGreatest(keys, m);
    } else {
      MaxExists(rest);
      var k :| IsGreatest(rest, k);
      assert IsGreatest(keys, if m < k then k else m);
    }
  }

  function MaxKey(keys: set<nat>): (k: nat)
    requires keys != {}
    ensures k in keys && forall j :: j in keys ==> j <= k
  {
    MaxExists(keys);
    var k :| IsGreatest(keys, k);
    k
  }

  /** Whether the least buffered layer looks complete and is not the last. */
  predicate IsMiddleLayer(cfg: Config, buffer: Buffer)
    requires cfg.n >= 1
  {
    if buffer == map[] then false
    else
      var layer := MinKey(buffer.Keys);
      var counter := buffer[layer].counter;
      (layer == 1 && counter == 1) || (counter % cfg.n == 0 && layer != cfg.layers)
  }

  /** The rule on any buffer, also one that mixes rounds: the least layer must have whole rounds of requests
      and not be the last, or be the first layer with its one request. */
  lemma MiddleLayerMeans(cfg: Config, buffer: Buffer, k: nat)
    requires cfg.n >= 1 && IsLeast(buffer.Keys, k)
    ensures IsMiddleLayer(cfg, buffer)
       <==> (exists m: nat :: buffer[k].counter == m * cfg.n && k != cfg.layers) || (k == 1 && buffer[k].counter == 1)
  {
    assert MinKey(buffer.Keys) == k;
    var c := buffer[k].counter;
    if c % cfg.n == 0 {
      assert c == (c / cfg.n) * cfg.n;
    }
    if m: nat :| c == m * cfg.n {
      PrimeField.MultipleDivides(cfg.n, m);
    }
  }

  /** The edge factor's share of a layer's packets. */
  function Share(cfg: Config, total: nat): (x: real)
    requires cfg.n >= 1
    ensures x * (cfg.n as real) == cfg.edge * (total as real)
  {
    cfg.edge * (total as real) / (cfg.n as real)
  }

  function EdgeLimit(cfg: Config, total: nat): int
    requires cfg.n >= 1
  {
    Share(cfg, total).Floor
  }

  /** More packets for one mix than the edge limit allows. */
  predicate OverLimit(cfg: Config, i: nat, total: nat)
    requires cfg.n >= 1
  {
    i > EdgeLimit(cfg, total)
  }

  function TotalOutgoing(batches: seq<seq<Held>>): nat {
    if batches == [] then 0 else TotalOutgoing(batches[..|batches| - 1]) + |batches[|batches| - 1]|
  }

  /** `verify_outgoing_setup_packets` */
  function FilterValid(cfg: Config, batch: seq<Held>, layer: nat): seq<Held> {
    if batch == [] then [] else
      var rest := FilterValid(cfg, batch[..|batch| - 1], layer);
      if cfg.traffic.valid(batch[|batch| - 1], layer) == Ok(true) then rest + [batch[|batch| - 1]] else rest
  }

  /** Verifying none of the packets panics. */
  ghost predicate AllDecided(cfg: Config, batch: seq<Held>, layer: nat) {
    forall i :: 0 <= i < |batch| ==> cfg.traffic.valid(batch[i], layer).Ok?
  }

  /** What is left of a batch of layer `key` after the check for edge cases. */
  function Kept(cfg: Config, batch: seq<Held>, key: nat, total: nat): seq<Held>
    requires cfg.n >= 1 && key >= 1
  {
    if cfg.traffic.checked && OverLimit(cfg, |batch|, total) then FilterValid(cfg, batch, key - 1) else batch
  }

  /** The check of a batch does not panic. */
  ghost predicate Checkable(cfg: Config, batch: seq<Held>, key: nat, total: nat)
    requires cfg.n >= 1 && key >= 1
  {
    cfg.traffic.checked && OverLimit(cfg, |batch|, total) ==> AllDecided(cfg, batch, key - 1)
  }

  /** A layer can be sent: the check of no batch panics. */
  ghost predicate Sendable(cfg: Config, batches: seq<seq<Held>>, key: nat)
    requires cfg.n >= 1 && key >= 1
  {
    forall i :: 0 <= i < |batches| ==> Checkable(cfg, batches[i], key, TotalOutgoing(batches))
  }

  /** The wires of a batch in some order. */
  ghost predicate Shuffled(batch: seq<Held>, ws: seq<Wire>) {
    multiset(ws) == multiset(Wires(batch))
  }

  /** What is sent of a slot: to each mix its batch, checked and shuffled. */
  ghost predicate Sends(cfg: Config, slot: Slot, key: nat, sent: seq<seq<Wire>>)
    requires cfg.n >= 1 && key >= 1
  {
    && Sendable(cfg, slot.batches, key)
    && |sent| == |slot.batches|
    && forall i :: 0 <= i < |sent| ==> Shuffled(Kept(cfg, slot.batches[i], key, TotalOutgoing(slot.batches)), sent[i])
  }

  function Flatten(batches: seq<seq<Held>>): seq<Held> {
    if batches == [] then [] else Flatten(batches[..|batches| - 1]) + batches[|batches| - 1]
  }

  /** How many permits `get` waits for: one for each request a mix is sent in a round. */
  function Quota(cfg: Config): nat
    requires cfg.layers >= 1
  {
    cfg.n * (cfg.layers - 1) + 1
  }

  // ---------- Permutations ----------

  /** Swaps each element with an earlier one; `choices` are the random draws. */
  method Shuffle<T>(s: seq<T>, choices: seq<nat>) returns (r: seq<T>)
    ensures multiset(r) == multiset(s)
  {
    r := s;
    for i := 0 to |s|
      invariant |r| == |s| && multiset(r) == multiset(s)
    {
      if i < |choices| {
        var j := choices[i] % (i + 1);
        r := r[i := r[j]][j := r[i]];
      }
    }
  }

  lemma WiresWithout(t: seq<Held>, k: nat)
    requires k < |t|
    ensures multiset(Wires(t)) == multiset(Wires(t[..k] + t[k + 1..])) + multiset{WireOf(t[k])}
  {
    assert Wires(t[..k] + t[k + 1..]) == Wires(t)[..k] + Wires(t)[k + 1..];
    RemoveAt(Wires(t), k);
    assert Wires(t)[k] in multiset(Wires(t));
  }

  lemma {:induction false} WiresPermuted(s: seq<Held>, t: seq<Held>)
    requires multiset(s) == multiset(t)
    ensures multiset(Wires(s)) == multiset(Wires(t))
    decreases |s|
  {
    hide Wires, WireOf;
    if |s| == 0 {
      assert |multiset(t)| == 0;
    } else {
      var k := Position(s[0], s, t);
      RemoveAt(s, 0);
      RemoveAt(t, k);
      WiresPermuted(s[..0] + s[1..], t[..k] + t[k + 1..]);
      WiresWithout(s, 0);
      WiresWithout(t, k);
    }
  }

  /** Pops packets until none is left. */
  method Drain(batch: seq<Held>) returns (data: seq<Wire>)
    ensures multiset(data) == multiset(Wires(batch))
  {
    var packets := batch;
    data := [];
    while packets != []
      invariant multiset(data) + multiset(Wires(packets)) == multiset(Wires(batch))
      decreases |packets|
    {
      var n := |packets| - 1;
      assert Wires(packets) == Wires(packets[..n]) + [WireOf(packets[n])];
      data := data + [WireOf(packets[n])];
      packets := packets[..n];
    }
  }

  // ---------- The server ----------

  class MyServer {
    const id: nat
    const cfg: Config
    var outputBuffer: Buffer
    var connections: Tables
    var permits: nat

    ghost predicate Valid()
      reads this
    {
      cfg.Valid() && WellFormed(cfg, outputBuffer) && id < cfg.n == |connections|
    }

    constructor (id: nat, cfg: Config)
      requires cfg.Valid() && id < cfg.n
      ensures Valid() && this.id == id && this.cfg == cfg
      ensures outputBuffer == map[] && permits == 0 && connections == seq(cfg.n, _ => map[])
    {
      this.id := id;
      this.cfg := cfg;
      outputBuffer := map[];
      permits := 0;
      connections := seq(cfg.n, _ => map[]);
    }

    /** Peels the packets of a request, stores their connections, counts the request and puts each
        packet into the batch of its next mix. A panic while peeling changes nothing; a next mix that
        does not exist panics when the connections are stored, the request is counted and the packets
        before this one are in place. */
    method ParseInput(packets: seq<Wire>, layer: nat) returns (result: Result<()>)
      requires Valid()
      modifies this`outputBuffer, this`connections
      ensures Valid()
      ensures result == if Parses(cfg, id, packets, layer) then Ok(()) else Panic
      ensures !Opens(cfg, id, packets, layer) ==> outputBuffer == old(outputBuffer) && connections == old(connections)
      ensures Opens(cfg, id, packets, layer) ==>
        var peeled := DecryptIncoming(cfg, id, packets, layer);
        && connections == StoreAll(old(connections), id, Conns(peeled))
        && outputBuffer == ParseInto(cfg, old(outputBuffer), layer, Pushable(cfg.n, peeled))
      ensures result.Ok? ==> outputBuffer == ParseInto(cfg, old(outputBuffer), layer, DecryptIncoming(cfg, id, packets, layer))
    {
      var decrypted := DecryptPackets(packets, layer);
      if !decrypted.Ok? {
        return Panic;
      }
      var decPackets := decrypted.value;
      StoreConnections(decPackets);
      var slot := Opened(cfg, outputBuffer, layer + 1);
      var batches, all := PushBatches(slot.batches, decPackets);
      outputBuffer := PutSlot(outputBuffer, layer + 1, Slot(batches, slot.counter + 1));
      return if all then Ok(()) else Panic;
    }

    method DecryptPackets(packets: seq<Wire>, layer: nat) returns (result: Result<seq<Peeled>>)
      ensures result == if Opens(cfg, id, packets, layer) then Ok(DecryptIncoming(cfg, id, packets, layer)) else Panic
    {
      var decPackets: seq<Peeled> := [];
      for i := 0 to |packets|
        invariant decPackets == DecryptIncoming(cfg, id, packets[..i], layer)
        invariant forall k :: 0 <= k < i ==> cfg.traffic.peel(id, packets[k], layer).Ok?
      {
        assert packets[..i + 1][..i] == packets[..i];
        var p := cfg.traffic.peel(id, packets[i], layer);
        if !p.Ok? {
          return Panic;
        }
        if p.value.Some? {
          decPackets := decPackets + [p.value.value];
        }
      }
      assert packets[..|packets|] == packets;
      return Ok(decPackets);
    }

    /** Pushes the packets in order, up to the first that goes to no mix. */
    method PushBatches(start: seq<seq<Held>>, decPackets: seq<Peeled>) returns (batches: seq<seq<Held>>, all: bool)
      ensures batches == PushAll(start, Pushable(|start|, decPackets))
      ensures all <==> InRange(|start|, decPackets)
      ensures all ==> Pushable(|start|, decPackets) == decPackets
    {
      batches := start;
      for i := 0 to |decPackets|
        invariant batches == PushAll(start, decPackets[..i])
        invariant InRange(|start|, decPackets[..i])
      {
        assert decPackets[..i + 1][..i] == decPackets[..i];
        if decPackets[i].next >= |batches| {
          PushableUpTo(|start|, decPackets, i);
          return batches, false;
        }
        batches := Push(batches, decPackets[i]);
      }
      assert decPackets[..|decPackets|] == decPackets;
      PushableUpTo(|start|, decPackets, |decPackets|);
      return batches, true;
    }

    method StoreConnections(decPackets: seq<Peeled>)
      requires Valid()
      modifies this`connections
      ensures Valid() && connections == StoreAll(old(connections), id, Conns(decPackets))
    {
      for i := 0 to |decPackets|
        invariant Valid() && connections == StoreAll(old(connections), id, Conns(decPackets[..i]))
      {
        assert decPackets[..i + 1][..i] == decPackets[..i];
        ghost var conns := Conns(decPackets[..i]);
        match decPackets[i].conn {
          case None =>
          case Some(conn) =>
            assert (conns + [conn])[..|conns|] == conns;
            connections := InsertInto(connections, id, conn);
        }
      }
      assert decPackets[..|decPackets|] == decPackets;
    }

    /** If the least layer looks complete, takes it out and prepares a request for every mix; a panic
        of the check comes after that and loses the layer. */
    method HandleMiddleLayer(choices: seq<nat>) returns (sent: Result<Option<(nat, seq<seq<Wire>>)>>)
      requires Valid()
      modifies this`outputBuffer
      ensures Valid()
      ensures !IsMiddleLayer(cfg, old(outputBuffer)) ==> sent == Ok(None) && outputBuffer == old(outputBuffer)
      ensures IsMiddleLayer(cfg, old(outputBuffer)) ==>
        var key := MinKey(old(outputBuffer).Keys);
        && key >= 1
        && outputBuffer == Without(old(outputBuffer), key)
        && if Sendable(cfg, old(outputBuffer)[key].batches, key)
           then sent.Ok? && sent.value.Some? && sent.value.value.0 == key
                && Sends(cfg, old(outputBuffer)[key], key, sent.value.value.1)
           else sent == Panic
    {
      if !IsMiddleLayer(cfg, outputBuffer) {
        return Ok(None);
      }
      var sendingLayer := MinKey(outputBuffer.Keys);
      var slot := outputBuffer[sendingLayer];
      outputBuffer := Without(outputBuffer, sendingLayer);
      var totalOutgoing := SumLengths(slot.batches);
      var tasks := PrepareTasks(slot, sendingLayer, totalOutgoing, choices);
      return if tasks.Ok? then Ok(Some((sendingLayer, tasks.value))) else Panic;
    }

    /** The requests of a layer, from the last mix to the first. */
    method PrepareTasks(slot: Slot, sendingLayer: nat, totalOutgoing: nat, choices: seq<nat>) returns (result: Result<seq<seq<Wire>>>)
      requires cfg.n >= 1 && sendingLayer >= 1 && totalOutgoing == TotalOutgoing(slot.batches)
      ensures if Sendable(cfg, slot.batches, sendingLayer) then result.Ok? && Sends(cfg, slot, sendingLayer, result.value)
              else result == Panic
    {
      hide Kept, TotalOutgoing, Wires, Checkable;
      var tasks: seq<seq<Wire>> := [];
      var i := |slot.batches|;
      while i > 0
        invariant 0 <= i <= |slot.batches| && |tasks| == |slot.batches| - i
        invariant forall j :: 0 <= j < |tasks| ==>
          Shuffled(Kept(cfg, slot.batches[i + j], sendingLayer, totalOutgoing), tasks[j])
        invariant forall j :: i <= j < |slot.batches| ==> Checkable(cfg, slot.batches[j], sendingLayer, totalOutgoing)
      {
        i := i - 1;
        var packets := VerifyOnOutput(slot.batches[i], sendingLayer, totalOutgoing);
        if !packets.Ok? {
          return Panic;
        }
        var shuffled := Shuffle(packets.value, choices);
        WiresPermuted(shuffled, packets.value);
        var packetsData := Drain(shuffled);
        tasks := [packetsData] + tasks;
      }
      return Ok(tasks);
    }

    method SumLengths(batches: seq<seq<Held>>) returns (total: nat)
      ensures total == TotalOutgoing(batches)
    {
      total := 0;
      for i := 0 to |batches|
        invariant total == TotalOutgoing(batches[..i])
      {
        assert batches[..i + 1][..i] == batches[..i];
        total := total + |batches[i]|;
      }
      assert batches[..|batches|] == batches;
    }

    /** `handle_verify_on_output` */
    method VerifyOnOutput(batch: seq<Held>, key: nat, total: nat) returns (result: Result<seq<Held>>)
      requires cfg.n >= 1 && key >= 1
      ensures result == if Checkable(cfg, batch, key, total) then Ok(Kept(cfg, batch, key, total)) else Panic
    {
      if !cfg.traffic.checked || !OverLimit(cfg, |batch|, total) {
        return Ok(batch);
      }
      var packets: seq<Held> := [];
      for i := 0 to |batch|
        invariant packets == FilterValid(cfg, batch[..i], key - 1)
        invariant forall k :: 0 <= k < i ==> cfg.traffic.valid(batch[k], key - 1).Ok?
      {
        assert batch[..i + 1][..i] == batch[..i];
        var valid := cfg.traffic.valid(batch[i], key - 1);
        if !valid.Ok? {
          return Panic;
        }
        if valid.value {
          packets := packets + [batch[i]];
        }
      }
      assert batch[..|batch|] == batch;
      return Ok(packets);
    }

    method AddPermit()
      modifies this`permits
      ensures permits == old(permits) + 1
    {
      permits := permits + 1;
    }

    /** Takes the permits of a round and outputs the greatest buffered layer. */
    method OutputLastLayer(choices: seq<nat>) returns (messages: seq<Wire>)
      requires Valid() && outputBuffer != map[] && permits >= Quota(cfg)
      modifies this`outputBuffer, this`permits
      ensures Valid() && permits == old(permits) - Quota(cfg)
      ensures var key := MaxKey(old(outputBuffer).Keys);
        && outputBuffer == Without(old(outputBuffer), key)
        && Shuffled(Flatten(old(outputBuffer)[key].batches), messages)
    {
      permits := permits - Quota(cfg);
      var sendLayer := MaxKey(outputBuffer.Keys);
      var slot := outputBuffer[sendLayer];
      outputBuffer := Without(outputBuffer, sendLayer);
      var packets: seq<Held> := [];
      for i := 0 to |slot.batches|
        invariant packets == Flatten(slot.batches[..i])
      {
        assert slot.batches[..i + 1][..i] == slot.batches[..i];
        packets := packets + slot.batches[i];
      }
      assert slot.batches[..|slot.batches|] == slot.batches;
      messages := Drain(packets);
      messages := Shuffle(messages, choices);
    }
  }
}
