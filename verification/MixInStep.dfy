/** Every run of the protocol, whatever its interleaving, follows the round in lock step: what has been sent
    of a layer is what lock step sends of it, so a completed round has stored and output exactly what lock
    step stores and outputs. */
module MixInStep {
  import opened Lists
  import opened Network
  import opened MixServer
  import opened MixRound
  import opened MixSafety
  import opened MixLockstep

  // ---------- What a state has gathered ----------

  function PacketsOf(q: Query): Task -> seq<Wire> {
    (t: Task) => if Matches(q, t) then t.packets else []
  }

  /** The packets of the requests that match. */
  function Gathered(tasks: seq<Task>, q: Query): seq<Wire> {
    FlatMap(PacketsOf(q), tasks)
  }

  function ParsedAt(s: State, d: nat, j: nat): seq<Wire> {
    Gathered(s.tasks, ParsedTo(d, j))
  }

  function SentAt(s: State, d: nat, j: nat): seq<Wire> {
    Gathered(s.tasks, To(d, j))
  }

  function BatchesAt(cfg: Config, s: State, d: nat, j: nat): (r: seq<seq<Held>>)
    ensures |r| == cfg.n
  {
    Batches(cfg, d, ParsedAt(s, d, j), j)
  }

  /** What mix `a` sent to mix `d` of layer `k`, if it has sent that layer. */
  function FedBy(cfg: Config, s: State, k: nat, a: nat, d: nat): seq<Wire>
    requires cfg.n >= 1 && k >= 1 && d < cfg.n && a < |s.mixes|
  {
    if |s.mixes[a].fired| >= k then Forwarded(cfg, a, ParsedAt(s, a, k - 1), k, d) else []
  }

  /** What the first `m` mixes sent to mix `d` of layer `k`. */
  function Fed(cfg: Config, s: State, k: nat, m: nat, d: nat): seq<Wire>
    requires cfg.n >= 1 && k >= 1 && d < cfg.n && m <= |s.mixes|
  {
    if m == 0 then [] else Fed(cfg, s, k, m - 1, d) + FedBy(cfg, s, k, m - 1, d)
  }

  /** The connections that the requests parsed for a layer gave. */
  function StoredFor(cfg: Config, s: State, d: nat, j: nat): seq<Connection> {
    Conns(DecryptIncoming(cfg, d, ParsedAt(s, d, j), j))
  }

  function StoredIn(cfg: Config, s: State, d: nat, m: nat): seq<Connection> {
    if m == 0 then [] else StoredIn(cfg, s, d, m - 1) + StoredFor(cfg, s, d, m - 1)
  }

  // ---------- The invariant ----------

  ghost predicate AllParse(cfg: Config, s: State) {
    forall i :: 0 <= i < |s.tasks| && !s.tasks[i].phase.InFlight? ==>
      Parses(cfg, s.tasks[i].dst, s.tasks[i].packets, s.tasks[i].layer)
  }

  /** Every buffered layer has the batches of the requests parsed for it. */
  ghost predicate BatchesRight(cfg: Config, s: State, d: nat)
    requires d < |s.mixes|
  {
    forall j: nat :: j + 1 in s.mixes[d].buffer ==> Alike(s.mixes[d].buffer[j + 1].batches, BatchesAt(cfg, s, d, j))
  }

  /** The requests sent to a mix have what the others forwarded, or what it was given at first. */
  ghost predicate FedRight(cfg: Config, inits: seq<seq<Wire>>, s: State, d: nat)
    requires cfg.n >= 1 && |inits| == cfg.n == |s.mixes| && d < cfg.n
  {
    forall k: nat ::
      multiset(SentAt(s, d, k)) == if k == 0 then multiset(inits[d]) else multiset(Fed(cfg, s, k, cfg.n, d))
  }

  ghost predicate SendableAt(cfg: Config, s: State, d: nat, j: nat)
    requires cfg.n >= 1
  {
    Sendable(cfg, BatchesAt(cfg, s, d, j), j + 1)
  }

  /** The check of a layer that was sent did not panic. */
  ghost predicate SentRight(cfg: Config, s: State, d: nat)
    requires cfg.n >= 1 && d < |s.mixes|
  {
    forall j: nat :: j < |s.mixes[d].fired| ==> SendableAt(cfg, s, d, j)
  }

  ghost predicate StoredRight(cfg: Config, s: State, d: nat)
    requires d < |s.mixes|
  {
    multiset(s.mixes[d].stored) == multiset(StoredIn(cfg, s, d, cfg.layers))
  }

  ghost predicate OutRight(cfg: Config, s: State, d: nat)
    requires cfg.layers >= 1 && d < |s.mixes|
  {
    s.mixes[d].out.Some? ==>
      multiset(s.mixes[d].out.value) == multiset(Wires(Flatten(BatchesAt(cfg, s, d, cfg.layers - 1))))
  }

  ghost predicate MixRight(cfg: Config, inits: seq<seq<Wire>>, s: State, d: nat)
    requires cfg.Valid() && |inits| == cfg.n == |s.mixes| && d < cfg.n
  {
    BatchesRight(cfg, s, d) && FedRight(cfg, inits, s, d) && SentRight(cfg, s, d) && StoredRight(cfg, s, d) && OutRight(cfg, s, d)
  }

  ghost predicate InStep(cfg: Config, inits: seq<seq<Wire>>, s: State)
    requires cfg.Valid() && |inits| == cfg.n == |s.mixes|
  {
    AllParse(cfg, s) && forall d: nat :: d < cfg.n ==> MixRight(cfg, inits, s, d)
  }

  // ---------- The initial state ----------

  lemma {:induction false} InitGathered(inits: seq<seq<Wire>>, n: nat, q: Query)
    requires n <= |inits|
    ensures q.ParsedTo? ==> Gathered(InitTasks(inits, n), q) == []
    ensures q.To? && q.d < n && q.j == 0 ==> Gathered(InitTasks(inits, n), q) == inits[q.d]
    ensures q.To? && (q.d >= n || q.j > 0) ==> Gathered(InitTasks(inits, n), q) == []
  {
    if n > 0 {
      assert InitTasks(inits, n)[..n - 1] == InitTasks(inits, n - 1);
      InitGathered(inits, n - 1, q);
    }
  }

  lemma {:induction false} NothingFed(cfg: Config, s: State, k: nat, m: nat, d: nat)
    requires cfg.n >= 1 && k >= 1 && d < cfg.n && m <= |s.mixes| && forall a :: 0 <= a < m ==> s.mixes[a].fired == []
    ensures Fed(cfg, s, k, m, d) == []
  {
    hide Forwarded;
    if m > 0 {
      NothingFed(cfg, s, k, m - 1, d);
      assert FedBy(cfg, s, k, m - 1, d) == [];
      hide FedBy;
      assert Fed(cfg, s, k, m, d) == Fed(cfg, s, k, m - 1, d) + FedBy(cfg, s, k, m - 1, d);
    }
  }

  lemma {:induction false} NothingStored(cfg: Config, s: State, d: nat, m: nat)
    requires forall j: nat :: ParsedAt(s, d, j) == []
    ensures StoredIn(cfg, s, d, m) == []
  {
    hide ParsedAt;
    if m > 0 {
      NothingStored(cfg, s, d, m - 1);
      assert ParsedAt(s, d, m - 1) == [];
    }
  }

  lemma InitInStep(cfg: Config, inits: seq<seq<Wire>>)
    requires cfg.Valid() && |inits| == cfg.n
    ensures |Init(cfg, inits).mixes| == cfg.n && InStep(cfg, inits, Init(cfg, inits))
  {
    hide Gathered, Fed, StoredIn, Batches;
    var s := Init(cfg, inits);
    assert s.tasks == InitTasks(inits, cfg.n);
    forall d: nat | d < cfg.n ensures MixRight(cfg, inits, s, d) {
      forall k: nat ensures multiset(SentAt(s, d, k)) == if k == 0 then multiset(inits[d]) else multiset(Fed(cfg, s, k, cfg.n, d)) {
        InitGathered(inits, cfg.n, To(d, k));
        if k > 0 {
          NothingFed(cfg, s, k, cfg.n, d);
        }
      }
      forall j: nat ensures ParsedAt(s, d, j) == [] {
        InitGathered(inits, cfg.n, ParsedTo(d, j));
      }
      NothingStored(cfg, s, d, cfg.layers);
    }
  }

  // ---------- Steps that only move a parsed request on ----------

  /** The same requests gathered, the same layers sent, and the same kept by a mix. */
  ghost predicate SameView(cfg: Config, s: State, s': State) {
    && |s'.mixes| == |s.mixes|
    && (forall d: nat, j: nat :: ParsedAt(s', d, j) == ParsedAt(s, d, j))
    && (forall d: nat, j: nat :: SentAt(s', d, j) == SentAt(s, d, j))
    && (forall d: nat :: d < |s.mixes| ==> s'.mixes[d].fired == s.mixes[d].fired)
  }

  lemma {:induction false} SameFed(cfg: Config, s: State, s': State, k: nat, m: nat, d: nat)
    requires cfg.n >= 1 && k >= 1 && d < cfg.n && m <= |s.mixes| == |s'.mixes|
    requires forall a: nat :: a < m ==>
      (|s'.mixes[a].fired| >= k <==> |s.mixes[a].fired| >= k) && (|s.mixes[a].fired| >= k ==> ParsedAt(s', a, k - 1) == ParsedAt(s, a, k - 1))
    ensures Fed(cfg, s', k, m, d) == Fed(cfg, s, k, m, d)
  {
    hide Forwarded, ParsedAt;
    if m > 0 {
      SameFed(cfg, s, s', k, m - 1, d);
    }
  }

  lemma {:induction false} SameStored(cfg: Config, s: State, s': State, d: nat, m: nat)
    requires forall j: nat :: j < m ==> ParsedAt(s', d, j) == ParsedAt(s, d, j)
    ensures StoredIn(cfg, s', d, m) == StoredIn(cfg, s, d, m)
  {
    hide ParsedAt, Conns, DecryptIncoming;
    if m > 0 {
      SameStored(cfg, s, s', d, m - 1);
      assert ParsedAt(s', d, m - 1) == ParsedAt(s, d, m - 1);
    }
  }

  lemma SameViewFed(cfg: Config, inits: seq<seq<Wire>>, s: State, s': State, d: nat)
    requires cfg.n >= 1 && |inits| == cfg.n == |s.mixes| && d < cfg.n && SameView(cfg, s, s') && FedRight(cfg, inits, s, d)
    ensures FedRight(cfg, inits, s', d)
  {
    hide ParsedAt, SentAt, Fed;
    forall k: nat ensures multiset(SentAt(s', d, k)) == if k == 0 then multiset(inits[d]) else multiset(Fed(cfg, s', k, cfg.n, d)) {
      assert multiset(SentAt(s, d, k)) == if k == 0 then multiset(inits[d]) else multiset(Fed(cfg, s, k, cfg.n, d));
      if k > 0 {
        SameFed(cfg, s, s', k, cfg.n, d);
      }
    }
  }

  lemma {:induction false} GatheredMove(s: State, s': State, i: nat, phase: Phase)
    requires i < |s.tasks| && s'.tasks == s.tasks[i := s.tasks[i].(phase := phase)]
    ensures forall d: nat, j: nat :: SentAt(s', d, j) == SentAt(s, d, j)
    ensures (!s.tasks[i].phase.InFlight? && !phase.InFlight?) ==> forall d: nat, j: nat :: ParsedAt(s', d, j) == ParsedAt(s, d, j)
    ensures forall d: nat, j: nat :: (d != s.tasks[i].dst || j != s.tasks[i].layer) ==> ParsedAt(s', d, j) == ParsedAt(s, d, j)
  {
    hide FlatMap;
    var t := s.tasks[i].(phase := phase);
    forall d: nat, j: nat
      ensures SentAt(s', d, j) == SentAt(s, d, j)
      ensures (!s.tasks[i].phase.InFlight? && !phase.InFlight?) || d != s.tasks[i].dst || j != s.tasks[i].layer
              ==> ParsedAt(s', d, j) == ParsedAt(s, d, j)
    {
      FlatMapUpdate(PacketsOf(To(d, j)), s.tasks, i, t);
      FlatMapUpdate(PacketsOf(ParsedTo(d, j)), s.tasks, i, t);
    }
  }

  /** Idle and reply steps. */
  lemma MoveInStep(cfg: Config, inits: seq<seq<Wire>>, s: State, s': State, i: nat, phase: Phase)
    requires cfg.Valid() && |inits| == cfg.n == |s.mixes| && InStep(cfg, inits, s) && Moves(cfg, s, s', i, phase)
    requires !s.tasks[i].phase.InFlight? && !phase.InFlight?
    requires forall d: nat :: d < cfg.n ==> s'.mixes[d].buffer == s.mixes[d].buffer && s'.mixes[d].stored == s.mixes[d].stored
    ensures InStep(cfg, inits, s')
  {
    hide ParsedAt, SentAt, Fed, StoredIn, Batches, FedRight, Parses, Alike, Sendable;
    GatheredMove(s, s', i, phase);
    forall d: nat | d < cfg.n ensures MixRight(cfg, inits, s', d) {
      assert MixRight(cfg, inits, s, d);
      SameViewFed(cfg, inits, s, s', d);
      SameStored(cfg, s, s', d, cfg.layers);
      forall j: nat ensures BatchesAt(cfg, s', d, j) == BatchesAt(cfg, s, d, j) && SendableAt(cfg, s', d, j) == SendableAt(cfg, s, d, j) {
        assert ParsedAt(s', d, j) == ParsedAt(s, d, j);
      }
    }
  }

  // ---------- Parse ----------

  lemma {:induction false} NoneGathered(tasks: seq<Task>, q: Query)
    requires Count(tasks, q) == 0
    ensures Gathered(tasks, q) == []
  {
    if tasks != [] {
      NoneGathered(tasks[..|tasks| - 1], q);
    }
  }

  lemma AlikeTrans(a: seq<seq<Held>>, b: seq<seq<Held>>, c: seq<seq<Held>>)
    requires Alike(a, b) && Alike(b, c)
    ensures Alike(a, c)
  {
  }

  /** The request that is parsed joins those of its layer. */
  lemma {:induction false} ParsedGrows(cfg: Config, s: State, s': State, i: nat)
    requires cfg.Valid() && Shape(cfg, s) && ParseStep(cfg, s, s', i)
    ensures var t := s.tasks[i]; multiset(ParsedAt(s', t.dst, t.layer)) == multiset(ParsedAt(s, t.dst, t.layer) + t.packets)
  {
    hide FlatMap, Parses, ParseInto, Conns, DecryptIncoming;
    var t := s.tasks[i];
    FlatMapUpdate(PacketsOf(ParsedTo(t.dst, t.layer)), s.tasks, i, t.(phase := Phase.Parsed));
  }

  lemma ParseBatches(cfg: Config, s: State, s': State, i: nat)
    requires Core(cfg, s) && ParseStep(cfg, s, s', i) && BatchesRight(cfg, s, s.tasks[i].dst)
    ensures s.tasks[i].dst < |s'.mixes| && BatchesRight(cfg, s', s.tasks[i].dst)
  {
    hide ParsedAt, SentAt, Alike, Conns, DecryptIncoming, PushAll, Count, Parses, Sent, Behind, AllInOrder, WellFormed, Batches, ParseInto;
    var t := s.tasks[i];
    var d, buffer := t.dst, s.mixes[t.dst].buffer;
    ParseMoves(cfg, s, s', i);
    GatheredMove(s, s', i, Phase.Parsed);
    var peeled := DecryptIncoming(cfg, d, t.packets, t.layer);
    assert WellFormed(cfg, buffer) && TaskShape(cfg, s, i);
    forall j: nat | j + 1 in s'.mixes[d].buffer ensures Alike(s'.mixes[d].buffer[j + 1].batches, BatchesAt(cfg, s', d, j)) {
      ParsedSlot(cfg, buffer, t.layer, peeled, j);
      if j == t.layer {
        OpenedAlike(cfg, s, i);
        ParsedBatches(cfg, buffer, t.layer, peeled);
        BatchesGrow(cfg, d, Opened(cfg, buffer, j + 1).batches, ParsedAt(s, d, j), t.packets, j);
        ParsedGrows(cfg, s, s', i);
        BatchesAlike(cfg, d, ParsedAt(s, d, j) + t.packets, ParsedAt(s', d, j), j);
        AlikeTrans(PushAll(Opened(cfg, buffer, j + 1).batches, peeled), Batches(cfg, d, ParsedAt(s, d, j) + t.packets, j), BatchesAt(cfg, s', d, j));
      } else {
        assert Alike(buffer[j + 1].batches, BatchesAt(cfg, s, d, j)) && ParsedAt(s', d, j) == ParsedAt(s, d, j);
      }
    }
  }

  lemma {:induction false} ParsedBatches(cfg: Config, buffer: Buffer, layer: nat, peeled: seq<Peeled>)
    requires WellFormed(cfg, buffer)
    ensures ParseInto(cfg, buffer, layer, peeled)[layer + 1].batches == PushAll(Opened(cfg, buffer, layer + 1).batches, peeled)
  {
  }

  /** The slot a request is parsed into, new or not, is right before. */
  lemma OpenedAlike(cfg: Config, s: State, i: nat)
    requires Core(cfg, s) && i < |s.tasks| && s.tasks[i].phase.InFlight? && s.tasks[i].dst < cfg.n && BatchesRight(cfg, s, s.tasks[i].dst)
    ensures var t := s.tasks[i];
      Alike(Opened(cfg, s.mixes[t.dst].buffer, t.layer + 1).batches, BatchesAt(cfg, s, t.dst, t.layer))
  {
    hide Count, Sent, Behind, AllInOrder, WellFormed, FlatMap;
    var t := s.tasks[i];
    InFlightAhead(cfg, s, i);
    assert TaskShape(cfg, s, i) && BufferedAt(cfg, s, t.dst);
    assert SlotAt(cfg, s, t.dst, t.layer);
    if t.layer + 1 !in s.mixes[t.dst].buffer {
      NoneGathered(s.tasks, ParsedTo(t.dst, t.layer));
      assert DecryptIncoming(cfg, t.dst, [], t.layer) == [];
      assert Batches(cfg, t.dst, [], t.layer) == seq(cfg.n, _ => []);
    }
  }

  /** One layer's connections grow by `more`. */
  lemma {:induction false} StoredGrows(cfg: Config, s: State, s': State, d: nat, j: nat, more: seq<Connection>, m: nat)
    requires multiset(StoredFor(cfg, s', d, j)) == multiset(StoredFor(cfg, s, d, j)) + multiset(more)
    requires forall i: nat :: i != j ==> StoredFor(cfg, s', d, i) == StoredFor(cfg, s, d, i)
    ensures m <= j ==> StoredIn(cfg, s', d, m) == StoredIn(cfg, s, d, m)
    ensures m > j ==> multiset(StoredIn(cfg, s', d, m)) == multiset(StoredIn(cfg, s, d, m)) + multiset(more)
  {
    hide StoredFor;
    if m > 0 {
      StoredGrows(cfg, s, s', d, j, more, m - 1);
      var before, before' := StoredIn(cfg, s, d, m - 1), StoredIn(cfg, s', d, m - 1);
      if m - 1 == j {
        GrownLast(before, StoredFor(cfg, s, d, j), StoredFor(cfg, s', d, j), more);
      } else if m - 1 > j {
        GrownFirst(before, before', more, StoredFor(cfg, s, d, m - 1));
      }
    }
  }

  lemma {:induction false} ConnsGrow(cfg: Config, d: nat, all: seq<Wire>, a: seq<Wire>, b: seq<Wire>, j: nat)
    requires multiset(all) == multiset(a + b)
    ensures multiset(Conns(DecryptIncoming(cfg, d, all, j)))
         == multiset(Conns(DecryptIncoming(cfg, d, a, j))) + multiset(Conns(DecryptIncoming(cfg, d, b, j)))
  {
    hide Conns, DecryptIncoming, FlatMap;
    ConnsPermuted(cfg, d, all, a + b, j);
    DecryptConcat(cfg, d, a, b, j);
    var x, y := DecryptIncoming(cfg, d, a, j), DecryptIncoming(cfg, d, b, j);
    ConnsIsFlat(x);
    ConnsIsFlat(y);
    ConnsIsFlat(x + y);
    FlatMapConcat(ConnOf(), x, y);
  }

  /** Where a request is parsed, its layer is not yet sent nor output. */
  lemma ParseAhead(cfg: Config, s: State, i: nat)
    requires Core(cfg, s) && i < |s.tasks| && s.tasks[i].phase.InFlight?
    ensures var t := s.tasks[i]; t.dst < cfg.n && |s.mixes[t.dst].fired| <= t.layer < cfg.layers && s.mixes[t.dst].out.None?
  {
    hide Count, Sent, Behind, Buffered;
    InFlightAhead(cfg, s, i);
    assert TaskShape(cfg, s, i) && InOrder(cfg, s.mixes[s.tasks[i].dst]);
  }

  lemma ParseFed(cfg: Config, inits: seq<seq<Wire>>, s: State, s': State, i: nat, d: nat)
    requires Core(cfg, s) && ParseStep(cfg, s, s', i) && |inits| == cfg.n && d < cfg.n && FedRight(cfg, inits, s, d)
    ensures |s'.mixes| == cfg.n && FedRight(cfg, inits, s', d)
  {
    hide ParsedAt, SentAt, Fed, Core, Parses, ParseInto, Conns, DecryptIncoming;
    CoreShape(cfg, s);
    var t := s.tasks[i];
    GatheredMove(s, s', i, Phase.Parsed);
    ParseAhead(cfg, s, i);
    forall k: nat ensures multiset(SentAt(s', d, k)) == if k == 0 then multiset(inits[d]) else multiset(Fed(cfg, s', k, cfg.n, d)) {
      assert multiset(SentAt(s, d, k)) == if k == 0 then multiset(inits[d]) else multiset(Fed(cfg, s, k, cfg.n, d));
      if k > 0 {
        SameFed(cfg, s, s', k, cfg.n, d);
      }
    }
  }

  lemma CoreShape(cfg: Config, s: State)
    requires Core(cfg, s)
    ensures ValidRound(cfg) && Shape(cfg, s)
  {
  }

  lemma ParseRight(cfg: Config, inits: seq<seq<Wire>>, s: State, s': State, i: nat, d: nat)
    requires Core(cfg, s) && ParseStep(cfg, s, s', i) && |inits| == cfg.n && d < cfg.n && MixRight(cfg, inits, s, d)
    ensures |s'.mixes| == cfg.n && MixRight(cfg, inits, s', d)
  {
    hide ParsedAt, SentAt, StoredIn, Core, Parses, ParseInto, Conns, DecryptIncoming, FedRight, Batches, Sendable;
    CoreShape(cfg, s);
    var t := s.tasks[i];
    GatheredMove(s, s', i, Phase.Parsed);
    ParseAhead(cfg, s, i);
    ParseFed(cfg, inits, s, s', i, d);
    forall j: nat | j < |s.mixes[d].fired| ensures SendableAt(cfg, s', d, j) {
      assert SendableAt(cfg, s, d, j) && ParsedAt(s', d, j) == ParsedAt(s, d, j);
    }
    if d == t.dst {
      ParseBatches(cfg, s, s', i);
      ParsedGrows(cfg, s, s', i);
      ConnsGrow(cfg, d, ParsedAt(s', d, t.layer), ParsedAt(s, d, t.layer), t.packets, t.layer);
      StoredGrows(cfg, s, s', d, t.layer, Conns(DecryptIncoming(cfg, d, t.packets, t.layer)), cfg.layers);
    } else {
      SameStored(cfg, s, s', d, cfg.layers);
      assert ParsedAt(s', d, cfg.layers - 1) == ParsedAt(s, d, cfg.layers - 1);
      forall j: nat ensures BatchesAt(cfg, s', d, j) == BatchesAt(cfg, s, d, j) {
        assert ParsedAt(s', d, j) == ParsedAt(s, d, j);
      }
    }
  }

  lemma ParseInStep(cfg: Config, inits: seq<seq<Wire>>, s: State, s': State, i: nat)
    requires Core(cfg, s) && ParseStep(cfg, s, s', i) && |inits| == cfg.n && InStep(cfg, inits, s)
    ensures |s'.mixes| == cfg.n && InStep(cfg, inits, s')
  {
    hide Core, Parses, ParseInto, Conns, DecryptIncoming, MixRight;
    CoreShape(cfg, s);
    forall d: nat | d < cfg.n ensures MixRight(cfg, inits, s', d) {
      ParseRight(cfg, inits, s, s', i, d);
    }
  }

  // ---------- Fire ----------

  lemma {:induction false} GatheredNew(src: nat, layer: nat, sent: seq<seq<Wire>>, q: Query)
    requires q.To? || q.ParsedTo?
    ensures Gathered(NewTasks(src, layer, sent), q) == if q.To? && q.d < |sent| && q.j == layer then sent[q.d] else []
  {
    if sent != [] {
      var n := |sent| - 1;
      assert NewTasks(src, layer, sent)[..n] == NewTasks(src, layer, sent[..n]);
      GatheredNew(src, layer, sent[..n], q);
    }
  }

  lemma {:induction false} FireGathered(cfg: Config, s: State, s': State, i: nat, sent: seq<seq<Wire>>)
    requires Core(cfg, s) && FireStep(cfg, s, s', i, sent)
    ensures |sent| == cfg.n && s.mixes[s.tasks[i].dst].buffer != map[]
    ensures forall d: nat, j: nat :: ParsedAt(s', d, j) == ParsedAt(s, d, j)
    ensures forall d: nat, j: nat :: d < cfg.n ==>
      SentAt(s', d, j) == SentAt(s, d, j) + if j == MinKey(s.mixes[s.tasks[i].dst].buffer.Keys) then sent[d] else []
  {
    hide FlatMap, Core, Sends, IsMiddleLayer, NewTasks;
    CoreShape(cfg, s);
    var t := s.tasks[i];
    FireCounts(cfg, s, s', i, sent, AnyTo(0));
    var key := MinKey(s.mixes[t.dst].buffer.Keys);
    var moved := s.tasks[i := t.(phase := Waiting(|s.tasks|, |s.tasks| + cfg.n))];
    GatheredMove(s, State(s.mixes, moved), i, Waiting(|s.tasks|, |s.tasks| + cfg.n));
    forall d: nat, j: nat
      ensures ParsedAt(s', d, j) == ParsedAt(s, d, j)
      ensures d < cfg.n ==> SentAt(s', d, j) == SentAt(s, d, j) + if j == key then sent[d] else []
    {
      assert ParsedAt(State(s.mixes, moved), d, j) == ParsedAt(s, d, j) && SentAt(State(s.mixes, moved), d, j) == SentAt(s, d, j);
      FlatMapConcat(PacketsOf(ParsedTo(d, j)), moved, NewTasks(t.dst, key, sent));
      FlatMapConcat(PacketsOf(To(d, j)), moved, NewTasks(t.dst, key, sent));
      GatheredNew(t.dst, key, sent, ParsedTo(d, j));
      GatheredNew(t.dst, key, sent, To(d, j));
    }
  }

  lemma FedByGrows(cfg: Config, s: State, s': State, k: nat, m: nat, d: nat, a: nat)
    requires cfg.n >= 1 && k >= 1 && d < cfg.n && m < |s.mixes| == |s'.mixes| && a < |s.mixes|
    requires ParsedAt(s', m, k - 1) == ParsedAt(s, m, k - 1) && (m != a ==> s'.mixes[m].fired == s.mixes[m].fired)
    requires |s.mixes[a].fired| < k <= |s'.mixes[a].fired|
    ensures m != a ==> FedBy(cfg, s', k, m, d) == FedBy(cfg, s, k, m, d)
    ensures m == a ==> FedBy(cfg, s, k, m, d) == [] && FedBy(cfg, s', k, m, d) == Forwarded(cfg, a, ParsedAt(s, a, k - 1), k, d)
  {
    hide Forwarded, ParsedAt;
  }

  /** One more mix has sent the layer. */
  lemma {:induction false} FedGrows(cfg: Config, s: State, s': State, k: nat, m: nat, d: nat, a: nat)
    requires cfg.n >= 1 && k >= 1 && d < cfg.n && m <= |s.mixes| == |s'.mixes| && a < |s.mixes|
    requires forall b: nat, j: nat :: ParsedAt(s', b, j) == ParsedAt(s, b, j)
    requires forall b: nat :: b < |s.mixes| && b != a ==> s'.mixes[b].fired == s.mixes[b].fired
    requires |s.mixes[a].fired| < k <= |s'.mixes[a].fired|
    ensures m <= a ==> Fed(cfg, s', k, m, d) == Fed(cfg, s, k, m, d)
    ensures m > a ==> multiset(Fed(cfg, s', k, m, d)) == multiset(Fed(cfg, s, k, m, d)) + multiset(Forwarded(cfg, a, ParsedAt(s, a, k - 1), k, d))
  {
    hide Forwarded, ParsedAt, FedBy;
    if m > 0 {
      FedGrows(cfg, s, s', k, m - 1, d, a);
      FedByGrows(cfg, s, s', k, m - 1, d, a);
      if m - 1 > a {
        GrownFirst(Fed(cfg, s, k, m - 1, d), Fed(cfg, s', k, m - 1, d), Forwarded(cfg, a, ParsedAt(s, a, k - 1), k, d), FedBy(cfg, s, k, m - 1, d));
      }
    }
  }

  /** What is sent of a layer is what lock step forwards of the requests parsed for it. */
  lemma {:induction false} SentForwarded(cfg: Config, a: nat, slot: Slot, ws: seq<Wire>, k: nat, sent: seq<seq<Wire>>, d: nat)
    requires cfg.n >= 1 && k >= 1 && Sends(cfg, slot, k, sent) && Alike(slot.batches, Batches(cfg, a, ws, k - 1)) && d < cfg.n
    ensures |sent| == cfg.n && multiset(sent[d]) == multiset(Forwarded(cfg, a, ws, k, d))
  {
    hide Kept, TotalOutgoing, Wires, Batches, Sendable;
    var batches := Batches(cfg, a, ws, k - 1);
    var total := TotalOutgoing(batches);
    AlikeTotals(slot.batches, batches);
    assert Shuffled(Kept(cfg, slot.batches[d], k, total), sent[d]);
    KeptAlike(cfg, slot.batches[d], batches[d], k, total);
    WiresPermuted(Kept(cfg, slot.batches[d], k, total), Kept(cfg, batches[d], k, total));
  }

  lemma FireFed(cfg: Config, inits: seq<seq<Wire>>, s: State, s': State, i: nat, sent: seq<seq<Wire>>, d: nat)
    requires Core(cfg, s) && FireStep(cfg, s, s', i, sent) && |inits| == cfg.n && d < cfg.n && FedRight(cfg, inits, s, d)
    requires s.tasks[i].dst < cfg.n && BatchesRight(cfg, s, s.tasks[i].dst)
    ensures |s'.mixes| == cfg.n && FedRight(cfg, inits, s', d)
  {
    hide ParsedAt, SentAt, Fed, Core, Sends, IsMiddleLayer, NewTasks, Forwarded, Batches, Alike;
    CoreShape(cfg, s);
    FiresNext(cfg, s, s', i, sent);
    FireGathered(cfg, s, s', i, sent);
    var a := s.tasks[i].dst;
    var key := |s.mixes[a].fired| + 1;
    forall k: nat ensures multiset(SentAt(s', d, k)) == if k == 0 then multiset(inits[d]) else multiset(Fed(cfg, s', k, cfg.n, d)) {
      assert multiset(SentAt(s, d, k)) == if k == 0 then multiset(inits[d]) else multiset(Fed(cfg, s, k, cfg.n, d));
      if k == key {
        FedGrows(cfg, s, s', k, cfg.n, d, a);
        assert Alike(s.mixes[a].buffer[(k - 1) + 1].batches, BatchesAt(cfg, s, a, k - 1));
        SentForwarded(cfg, a, s.mixes[a].buffer[k], ParsedAt(s, a, k - 1), k, sent, d);
      } else if k > 0 {
        SameFed(cfg, s, s', k, cfg.n, d);
      }
    }
  }

  lemma FireRight(cfg: Config, inits: seq<seq<Wire>>, s: State, s': State, i: nat, sent: seq<seq<Wire>>, d: nat)
    requires Core(cfg, s) && FireStep(cfg, s, s', i, sent) && |inits| == cfg.n && d < cfg.n
    requires s.tasks[i].dst < cfg.n && BatchesRight(cfg, s, s.tasks[i].dst) && MixRight(cfg, inits, s, d)
    ensures |s'.mixes| == cfg.n && MixRight(cfg, inits, s', d)
  {
    hide ParsedAt, SentAt, StoredIn, Core, IsMiddleLayer, NewTasks, FedRight, Batches, Alike, Sendable;
    CoreShape(cfg, s);
    FiresNext(cfg, s, s', i, sent);
    FireGathered(cfg, s, s', i, sent);
    FireFed(cfg, inits, s, s', i, sent, d);
    SameStored(cfg, s, s', d, cfg.layers);
    forall j: nat ensures BatchesAt(cfg, s', d, j) == BatchesAt(cfg, s, d, j) {
      assert ParsedAt(s', d, j) == ParsedAt(s, d, j);
    }
    var a := s.tasks[i].dst;
    forall j: nat | j < |s'.mixes[d].fired| ensures SendableAt(cfg, s', d, j) {
      if j < |s.mixes[d].fired| {
        assert SendableAt(cfg, s, d, j);
      } else {
        assert d == a && Alike(s.mixes[a].buffer[j + 1].batches, BatchesAt(cfg, s, a, j));
        SendableAlike(cfg, s.mixes[a].buffer[j + 1].batches, BatchesAt(cfg, s, a, j), j + 1);
      }
    }
  }

  lemma FireInStep(cfg: Config, inits: seq<seq<Wire>>, s: State, s': State, i: nat, sent: seq<seq<Wire>>)
    requires Core(cfg, s) && FireStep(cfg, s, s', i, sent) && |inits| == cfg.n && InStep(cfg, inits, s)
    ensures |s'.mixes| == cfg.n && InStep(cfg, inits, s')
  {
    hide Core, Parses, Sends, IsMiddleLayer, BatchesRight, FedRight, StoredRight, SentRight, OutRight;
    CoreShape(cfg, s);
    assert TaskShape(cfg, s, i) && MixRight(cfg, inits, s, s.tasks[i].dst);
    forall d: nat | d < cfg.n ensures |s'.mixes| == cfg.n && MixRight(cfg, inits, s', d) {
      FireRight(cfg, inits, s, s', i, sent, d);
    }
  }

  // ---------- Output ----------

  lemma OutputRight(cfg: Config, s: State, s': State, d: nat, messages: seq<Wire>)
    requires Inv(cfg, s) && OutputStep(cfg, s, s', d, messages) && BatchesRight(cfg, s, d)
    ensures |s'.mixes| == cfg.n && OutRight(cfg, s', d)
  {
    hide Inv, Batches, Flatten, Wires, Alike, FlatMap;
    InvShape(cfg, s);
    PermitsMeanComplete(cfg, s, d);
    var buffer := s.mixes[d].buffer;
    assert MaxKey(buffer.Keys) in {cfg.layers};
    var x, y := buffer[cfg.layers].batches, BatchesAt(cfg, s, d, cfg.layers - 1);
    assert Alike(buffer[(cfg.layers - 1) + 1].batches, BatchesAt(cfg, s, d, cfg.layers - 1));
    FlattenAlike(x, y);
    WiresPermuted(Flatten(x), Flatten(y));
  }

  lemma OutputInStep(cfg: Config, inits: seq<seq<Wire>>, s: State, s': State, d: nat, messages: seq<Wire>)
    requires Inv(cfg, s) && OutputStep(cfg, s, s', d, messages) && |inits| == cfg.n && InStep(cfg, inits, s)
    ensures |s'.mixes| == cfg.n && InStep(cfg, inits, s')
  {
    hide Inv, Shuffled, Flatten, Batches, Fed, StoredIn, FedRight, Parses, Alike, FlatMap, Sendable;
    InvShape(cfg, s);
    assert MixRight(cfg, inits, s, d);
    OutputRight(cfg, s, s', d, messages);
    forall m: nat | m < cfg.n ensures MixRight(cfg, inits, s', m) {
      assert MixRight(cfg, inits, s, m);
      SameViewFed(cfg, inits, s, s', m);
      SameStored(cfg, s, s', m, cfg.layers);
      forall j: nat ensures BatchesAt(cfg, s', m, j) == BatchesAt(cfg, s, m, j) && SendableAt(cfg, s', m, j) == SendableAt(cfg, s, m, j) {
        assert ParsedAt(s', m, j) == ParsedAt(s, m, j);
      }
      assert BatchesRight(cfg, s', m);
      assert SentRight(cfg, s', m);
      assert StoredRight(cfg, s', m);
      assert OutRight(cfg, s', m);
    }
  }

  // ---------- Every run ----------

  lemma StepInStep(cfg: Config, inits: seq<seq<Wire>>, s: State, s': State)
    requires Inv(cfg, s) && Step(cfg, s, s') && |inits| == cfg.n && InStep(cfg, inits, s)
    ensures |s'.mixes| == cfg.n && InStep(cfg, inits, s')
  {
    hide InStep, Parses, Conns, DecryptIncoming, ParseInto, Sends, IsMiddleLayer, Shuffled, Sent, Behind, Buffered, SentFrom, Permits, Awake;
    if i :| ParseStep(cfg, s, s', i) {
      ParseInStep(cfg, inits, s, s', i);
    } else if i :| IdleStep(cfg, s, s', i) {
      MoveInStep(cfg, inits, s, s', i, Waiting(|s.tasks|, |s.tasks|));
    } else if i, sent :| FireStep(cfg, s, s', i, sent) {
      FireInStep(cfg, inits, s, s', i, sent);
    } else if i :| ReplyStep(cfg, s, s', i) {
      MoveInStep(cfg, inits, s, s', i, Replied);
    } else if d, messages :| OutputStep(cfg, s, s', d, messages) {
      OutputInStep(cfg, inits, s, s', d, messages);
    }
  }

  lemma {:induction false} RunInStep(cfg: Config, inits: seq<seq<Wire>>, states: seq<State>, i: nat)
    requires ValidRound(cfg) && |inits| == cfg.n && Run(cfg, inits, states) && i < |states|
    ensures |states[i].mixes| == cfg.n && InStep(cfg, inits, states[i])
  {
    hide Inv, InStep, Step, Shape, Init;
    if i == 0 {
      InitInStep(cfg, inits);
    } else {
      RunInStep(cfg, inits, states, i - 1);
      RunInv(cfg, inits, states, i - 1);
      assert StepAt(cfg, states, i - 1);
      StepInStep(cfg, inits, states[i - 1], states[i]);
    }
  }

  // ---------- Layer by layer ----------

  lemma {:induction false} SentIsParsed(tasks: seq<Task>, d: nat, j: nat)
    requires Count(tasks, ParsedTo(d, j)) == Count(tasks, To(d, j))
    ensures Gathered(tasks, ParsedTo(d, j)) == Gathered(tasks, To(d, j))
  {
    if tasks != [] {
      ParsedAmongSent(tasks[..|tasks| - 1], d, j);
      SentIsParsed(tasks[..|tasks| - 1], d, j);
    }
  }

  /** The requests parsed for a layer have the packets `ws`, in any order. */
  ghost predicate HasReceived(s: State, d: nat, j: nat, ws: seq<Wire>) {
    multiset(ParsedAt(s, d, j)) == multiset(ws)
  }

  lemma FedByForwards(cfg: Config, s: State, received: seq<seq<Wire>>, k: nat, a: nat, d: nat)
    requires cfg.n >= 1 && k >= 1 && d < cfg.n && a < |s.mixes| == |received|
    requires |s.mixes[a].fired| >= k ==> HasReceived(s, a, k - 1, received[a])
    ensures multiset(FedBy(cfg, s, k, a, d)) <= multiset(Forwarded(cfg, a, received[a], k, d))
    ensures |s.mixes[a].fired| >= k ==> multiset(FedBy(cfg, s, k, a, d)) == multiset(Forwarded(cfg, a, received[a], k, d))
  {
    hide Forwarded, ParsedAt;
    if |s.mixes[a].fired| >= k {
      ForwardedPermuted(cfg, a, ParsedAt(s, a, k - 1), received[a], k, d);
    }
  }

  /** Mixes that have sent a layer had what lock step gives them, so they feed what lock step collects. */
  lemma {:induction false} FedCollected(cfg: Config, s: State, received: seq<seq<Wire>>, k: nat, m: nat, d: nat)
    requires cfg.n >= 1 && k >= 1 && d < cfg.n && m <= |s.mixes| == |received|
    requires forall a: nat :: a < m && |s.mixes[a].fired| >= k ==> HasReceived(s, a, k - 1, received[a])
    ensures multiset(Fed(cfg, s, k, m, d)) <= multiset(Collected(cfg, received, k, m, d))
    ensures (forall a :: 0 <= a < m ==> |s.mixes[a].fired| >= k) ==>
      multiset(Fed(cfg, s, k, m, d)) == multiset(Collected(cfg, received, k, m, d))
  {
    hide Forwarded, HasReceived, FedBy;
    if m > 0 {
      FedCollected(cfg, s, received, k, m - 1, d);
      FedByForwards(cfg, s, received, k, m - 1, d);
      Joined(Fed(cfg, s, k, m - 1, d), FedBy(cfg, s, k, m - 1, d),
             Collected(cfg, received, k, m - 1, d), Forwarded(cfg, m - 1, received[m - 1], k, d));
    }
  }

  /** What has been sent of a layer is part of what lock step sends, and all of it once every mix has sent. */
  lemma {:induction false} SentInLockstep(cfg: Config, inits: seq<seq<Wire>>, s: State, d: nat, j: nat)
    requires Core(cfg, s) && |inits| == cfg.n && InStep(cfg, inits, s) && d < cfg.n && j < cfg.layers
    ensures multiset(SentAt(s, d, j)) <= multiset(Received(cfg, inits, j)[d])
    ensures Reach(s, j) == Full(cfg, j) ==> multiset(SentAt(s, d, j)) == multiset(Received(cfg, inits, j)[d])
    decreases j, 1
  {
    hide Count, Sent, Buffered, AllParse, SentAt, ParsedAt, Fed, Collected, BatchesRight, SentRight, StoredRight, OutRight;
    assert MixRight(cfg, inits, s, d);
    assert multiset(SentAt(s, d, j)) == if j == 0 then multiset(inits[d]) else multiset(Fed(cfg, s, j, cfg.n, d));
    if j > 0 {
      var before := Received(cfg, inits, j - 1);
      forall a: nat | a < cfg.n && |s.mixes[a].fired| >= j ensures HasReceived(s, a, j - 1, before[a]) {
        assert Count(s.tasks, ParsedTo(a, j - 1)) == Full(cfg, j - 1);
        ParsedInLockstep(cfg, inits, s, a, j - 1);
      }
      FedCollected(cfg, s, before, j, cfg.n, d);
      ReachBound(cfg, s, j);
    }
  }

  /** With all its requests parsed, a mix has exactly what lock step gives it. */
  lemma {:induction false} ParsedInLockstep(cfg: Config, inits: seq<seq<Wire>>, s: State, d: nat, j: nat)
    requires Core(cfg, s) && |inits| == cfg.n && InStep(cfg, inits, s) && d < cfg.n && j < cfg.layers
    requires Count(s.tasks, ParsedTo(d, j)) == Full(cfg, j)
    ensures multiset(ParsedAt(s, d, j)) == multiset(Received(cfg, inits, j)[d])
    decreases j, 2
  {
    hide Behind, Buffered, InStep, FlatMap, Received, Count;
    assert SentTo(cfg, s, d);
    ParsedAmongSent(s.tasks, d, j);
    ReachBound(cfg, s, j);
    SentIsParsed(s.tasks, d, j);
    SentInLockstep(cfg, inits, s, d, j);
  }

  // ---------- Panics ----------

  lemma {:induction false} GatheredHas(tasks: seq<Task>, q: Query, i: nat, w: Wire)
    requires i < |tasks| && Matches(q, tasks[i]) && w in tasks[i].packets
    ensures w in Gathered(tasks, q)
  {
    if i < |tasks| - 1 {
      GatheredHas(tasks[..|tasks| - 1], q, i, w);
    }
  }

  lemma {:induction false} GatheredFrom(tasks: seq<Task>, q: Query, w: Wire)
    requires w in Gathered(tasks, q)
    ensures exists i :: 0 <= i < |tasks| && Matches(q, tasks[i]) && w in tasks[i].packets
  {
    var n := |tasks| - 1;
    if !(Matches(q, tasks[n]) && w in tasks[n].packets) {
      GatheredFrom(tasks[..n], q, w);
      var i :| 0 <= i < n && Matches(q, tasks[..n][i]) && w in tasks[..n][i].packets;
      assert Matches(q, tasks[i]) && w in tasks[i].packets;
    }
  }

  lemma AmongBoth<T>(a: seq<T>, b: seq<T>, x: T)
    requires multiset(a) <= multiset(b) && x in a
    ensures x in b
  {
    assert x in multiset(a);
  }

  /** Where lock step is clean, no request on its way makes a handler panic. */
  lemma CleanParses(cfg: Config, inits: seq<seq<Wire>>, s: State, i: nat)
    requires Core(cfg, s) && |inits| == cfg.n && InStep(cfg, inits, s) && Clean(cfg, inits)
    requires i < |s.tasks|
    ensures Parses(cfg, s.tasks[i].dst, s.tasks[i].packets, s.tasks[i].layer)
  {
    hide Count, InStep, Received, Parses, Gathered, Sent, Behind, Buffered, AllInOrder;
    assert TaskShape(cfg, s, i);
    var t := s.tasks[i];
    var all := Received(cfg, inits, t.layer)[t.dst];
    assert CleanAt(cfg, inits, t.dst, t.layer);
    SentInLockstep(cfg, inits, s, t.dst, t.layer);
    forall w | w in t.packets ensures w in all {
      GatheredHas(s.tasks, To(t.dst, t.layer), i, w);
      AmongBoth(SentAt(s, t.dst, t.layer), all, w);
    }
    ParsesAmong(cfg, t.dst, t.packets, all, t.layer);
  }

  /** Nor does the check of a complete layer. */
  lemma CleanSends(cfg: Config, inits: seq<seq<Wire>>, s: State, d: nat)
    requires Core(cfg, s) && |inits| == cfg.n && InStep(cfg, inits, s) && Clean(cfg, inits)
    requires d < cfg.n && NextComplete(cfg, s, d)
    ensures var f := |s.mixes[d].fired|;
      f + 1 in s.mixes[d].buffer && Sendable(cfg, s.mixes[d].buffer[f + 1].batches, f + 1)
  {
    hide Count, InStep, Received, Parses, Sent, Behind, Buffered, AllInOrder, Batches, ParsedAt, Sendable;
    var f := |s.mixes[d].fired|;
    CompleteIsReady(cfg, s, d);
    BatchesRightAt(cfg, inits, s, d);
    assert CleanAt(cfg, inits, d, f);
    ParsedInLockstep(cfg, inits, s, d, f);
    var all := Received(cfg, inits, f)[d];
    BatchesAlike(cfg, d, all, ParsedAt(s, d, f), f);
    assert Alike(s.mixes[d].buffer[f + 1].batches, BatchesAt(cfg, s, d, f));
    SendableAlike(cfg, Batches(cfg, d, all, f), s.mixes[d].buffer[f + 1].batches, f + 1);
  }

  lemma BatchesRightAt(cfg: Config, inits: seq<seq<Wire>>, s: State, d: nat)
    requires cfg.Valid() && |inits| == cfg.n == |s.mixes| && InStep(cfg, inits, s) && d < cfg.n
    ensures BatchesRight(cfg, s, d) && SentRight(cfg, s, d) && StoredRight(cfg, s, d) && OutRight(cfg, s, d)
  {
    assert MixRight(cfg, inits, s, d);
  }

  // ---------- Completed rounds ----------

  lemma {:induction false} CompletedGathered(cfg: Config, inits: seq<seq<Wire>>, s: State, d: nat, j: nat)
    requires Core(cfg, s) && |inits| == cfg.n && InStep(cfg, inits, s) && Complete(cfg, s) && d < cfg.n && j < cfg.layers
    ensures multiset(ParsedAt(s, d, j)) == multiset(Received(cfg, inits, j)[d])
  {
    hide Count, InStep, Received, Sent, Buffered, ParsedAt;
    assert j < Consumed(s.mixes[d]);
    ParsedInLockstep(cfg, inits, s, d, j);
  }

  lemma {:induction false} CompletedParses(cfg: Config, inits: seq<seq<Wire>>, s: State, d: nat, j: nat)
    requires Core(cfg, s) && |inits| == cfg.n && InStep(cfg, inits, s) && Complete(cfg, s) && d < cfg.n && j < cfg.layers
    ensures Parses(cfg, d, Received(cfg, inits, j)[d], j)
  {
    hide Core, MixRight, Received, Parses, Peels, Gathered, Complete;
    CoreShape(cfg, s);
    CompletedGathered(cfg, inits, s, d, j);
    var all := Received(cfg, inits, j)[d];
    forall i | 0 <= i < |all| ensures Peels(cfg, d, all[i], j) {
      AmongBoth(all, ParsedAt(s, d, j), all[i]);
      GatheredFrom(s.tasks, ParsedTo(d, j), all[i]);
      var k :| 0 <= k < |s.tasks| && Matches(ParsedTo(d, j), s.tasks[k]) && all[i] in s.tasks[k].packets;
      ParsesEach(cfg, d, s.tasks[k].packets, j);
    }
    ParsesEach(cfg, d, all, j);
  }

  /** A round is completed only if lock step is clean. */
  lemma CompletedClean(cfg: Config, inits: seq<seq<Wire>>, s: State)
    requires Core(cfg, s) && |inits| == cfg.n && InStep(cfg, inits, s) && Complete(cfg, s)
    ensures Clean(cfg, inits)
  {
    hide Core, InStep, Received, Parses, ParsedAt, Batches, Sendable, Alike;
    CoreShape(cfg, s);
    forall d: nat, j: nat | d < cfg.n && j < cfg.layers ensures CleanAt(cfg, inits, d, j) {
      CompletedParses(cfg, inits, s, d, j);
      if j + 1 < cfg.layers {
        CompletedGathered(cfg, inits, s, d, j);
        BatchesRightAt(cfg, inits, s, d);
        assert SendableAt(cfg, s, d, j);
        BatchesAlike(cfg, d, ParsedAt(s, d, j), Received(cfg, inits, j)[d], j);
        SendableAlike(cfg, BatchesAt(cfg, s, d, j), Batches(cfg, d, Received(cfg, inits, j)[d], j), j + 1);
      }
    }
  }

  lemma {:induction false} CompletedStored(cfg: Config, inits: seq<seq<Wire>>, s: State, d: nat, m: nat)
    requires Core(cfg, s) && |inits| == cfg.n && InStep(cfg, inits, s) && Complete(cfg, s) && d < cfg.n && m <= cfg.layers
    ensures multiset(StoredIn(cfg, s, d, m)) == multiset(LockstepStored(cfg, inits, d, m))
  {
    hide Core, InStep, Received, ParsedAt, Conns, DecryptIncoming, Complete;
    CoreShape(cfg, s);
    if m > 0 {
      CompletedStored(cfg, inits, s, d, m - 1);
      CompletedGathered(cfg, inits, s, d, m - 1);
      var all := Received(cfg, inits, m - 1)[d];
      ConnsPermuted(cfg, d, ParsedAt(s, d, m - 1), all, m - 1);
      Joined(StoredIn(cfg, s, d, m - 1), StoredFor(cfg, s, d, m - 1),
             LockstepStored(cfg, inits, d, m - 1), Conns(DecryptIncoming(cfg, d, all, m - 1)));
    }
  }

  /** Whatever its interleaving and its shuffles, a completed round has stored at each mix, and output
      there, what lock step stores and outputs; and in lock step no handler panics. */
  lemma {:induction false} RoundIsLockstep(cfg: Config, inits: seq<seq<Wire>>, states: seq<State>, d: nat)
    requires ValidRound(cfg) && |inits| == cfg.n && Run(cfg, inits, states) && Complete(cfg, states[|states| - 1]) && d < cfg.n
    ensures Clean(cfg, inits)
    ensures |states[|states| - 1].mixes| == cfg.n
    ensures var m := states[|states| - 1].mixes[d];
      && multiset(m.stored) == multiset(LockstepStored(cfg, inits, d, cfg.layers))
      && m.out.Some? && multiset(m.out.value) == multiset(LockstepOutput(cfg, inits, d))
  {
    hide Step, Init, Shape, StepAt, Sent, Behind, Buffered, SentFrom, Permits, Awake, InStep, Clean, ParsedAt, Received, StoredIn, LockstepStored, Batches, Flatten, Wires, Alike;
    var s := states[|states| - 1];
    RunInv(cfg, inits, states, |states| - 1);
    RunInStep(cfg, inits, states, |states| - 1);
    CompletedClean(cfg, inits, s);
    CompletedStored(cfg, inits, s, d, cfg.layers);
    BatchesRightAt(cfg, inits, s, d);
    var j := cfg.layers - 1;
    CompletedGathered(cfg, inits, s, d, j);
    var all := Received(cfg, inits, j)[d];
    BatchesAlike(cfg, d, ParsedAt(s, d, j), all, j);
    FlattenAlike(BatchesAt(cfg, s, d, j), Batches(cfg, d, all, j));
    WiresPermuted(Flatten(BatchesAt(cfg, s, d, j)), Flatten(Batches(cfg, d, all, j)));
  }

  /** Two completed rounds of the same packets agree at every mix, valid packets or not, checked or not. */
  lemma {:induction false} RoundsAgree(cfg: Config, inits: seq<seq<Wire>>, states: seq<State>, inits': seq<seq<Wire>>, states': seq<State>, d: nat)
    requires ValidRound(cfg) && |inits| == cfg.n && SameInits(inits, inits') && d < cfg.n
    requires Run(cfg, inits, states) && Complete(cfg, states[|states| - 1])
    requires Run(cfg, inits', states') && Complete(cfg, states'[|states'| - 1])
    ensures |states[|states| - 1].mixes| == |states'[|states'| - 1].mixes| == cfg.n
    ensures var m, m' := states[|states| - 1].mixes[d], states'[|states'| - 1].mixes[d];
      && multiset(m.stored) == multiset(m'.stored)
      && m.out.Some? && m'.out.Some? && multiset(m.out.value) == multiset(m'.out.value)
  {
    hide Run, Complete, Received, LockstepStored, Batches, Flatten, Wires, Clean, Alike;
    RoundIsLockstep(cfg, inits, states, d);
    RoundIsLockstep(cfg, inits', states', d);
    StoredPermuted(cfg, inits, inits', d, cfg.layers);
    var j := cfg.layers - 1;
    ReceivedAt(cfg, inits, inits', j, d);
    var x, y := Received(cfg, inits, j)[d], Received(cfg, inits', j)[d];
    BatchesAlike(cfg, d, x, y, j);
    FlattenAlike(Batches(cfg, d, x, j), Batches(cfg, d, y, j));
    WiresPermuted(Flatten(Batches(cfg, d, x, j)), Flatten(Batches(cfg, d, y, j)));
  }
}
