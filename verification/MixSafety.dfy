/** The invariant of a round holds initially and is kept by every step, so in every run. */
module MixSafety {
  import opened Network
  import opened MixServer
  import opened MixRound

  // ---------- The initial state ----------

  function InitTasks(inits: seq<seq<Wire>>, n: nat): (r: seq<Task>)
    requires n <= |inits|
    ensures |r| == n
  {
    seq(n, d requires 0 <= d < n => Task(d, d, 0, inits[d], InFlight))
  }

  lemma {:induction false} CountInit(inits: seq<seq<Wire>>, n: nat, q: Query)
    requires n <= |inits|
    ensures Count(InitTasks(inits, n), q) ==
      match q
      case To(d, j) => One(d < n && j == 0)
      case ParsedTo(_, _) => 0
      case AnyTo(d) => One(d < n)
      case RepliedTo(_) => 0
      case UncheckedAt(_) => 0
      case From(a, d, j) => One(a == d && d < n && j == 0)
  {
    if n > 0 {
      assert InitTasks(inits, n)[..n - 1] == InitTasks(inits, n - 1);
      CountInit(inits, n - 1, q);
    }
  }

  lemma {:induction false} NothingFired(mixes: seq<Mix>, j: nat)
    requires forall m :: 0 <= m < |mixes| ==> mixes[m].fired == []
    ensures TotalFired(mixes) == 0 && (j > 0 ==> Past(mixes, j) == 0)
  {
    if mixes != [] {
      NothingFired(mixes[..|mixes| - 1], j);
    }
  }

  lemma InitInv(cfg: Config, inits: seq<seq<Wire>>)
    requires ValidRound(cfg) && |inits| == cfg.n
    ensures Inv(cfg, Init(cfg, inits))
  {
    hide Count, Past, TotalFired;
    var s := Init(cfg, inits);
    assert s.tasks == InitTasks(inits, cfg.n);
    forall d: nat | d < cfg.n ensures SentTo(cfg, s, d) {
      forall j: nat | j < cfg.layers ensures Count(s.tasks, To(d, j)) == Reach(s, j) {
        CountInit(inits, cfg.n, To(d, j));
        NothingFired(s.mixes, j);
      }
      CountInit(inits, cfg.n, AnyTo(d));
      NothingFired(s.mixes, 0);
    }
    forall a: nat, d: nat, j: nat | a < cfg.n && d < cfg.n
      ensures Count(s.tasks, From(a, d, j)) == if j == 0 then One(a == d) else One(j <= |s.mixes[a].fired|)
    {
      CountInit(inits, cfg.n, From(a, d, j));
    }
    forall d: nat, j: nat | d < cfg.n ensures SlotAt(cfg, s, d, j) {
      CountInit(inits, cfg.n, ParsedTo(d, j));
    }
    forall d: nat | d < cfg.n ensures Count(s.tasks, RepliedTo(d)) == 0 {
      CountInit(inits, cfg.n, RepliedTo(d));
    }
  }

  // ---------- Steps that change one request ----------

  /** Requests keep their source, destination and layer, and the histories of layers stay, when one
      request only moves on. */
  ghost predicate Moves(cfg: Config, s: State, s': State, i: nat, phase: Phase)
    requires |s.mixes| == cfg.n
  {
    && i < |s.tasks|
    && s'.tasks == s.tasks[i := s.tasks[i].(phase := phase)]
    && |s'.mixes| == cfg.n
    && (phase.Waiting? ==> i < phase.lo <= phase.hi <= |s.tasks|)
    && forall d :: 0 <= d < cfg.n ==>
         s'.mixes[d].fired == s.mixes[d].fired && s'.mixes[d].out == s.mixes[d].out && WellFormed(cfg, s'.mixes[d].buffer)
  }

  lemma MovesShape(cfg: Config, s: State, s': State, i: nat, phase: Phase)
    requires Core(cfg, s) && Moves(cfg, s, s', i, phase)
    ensures Shape(cfg, s') && AllInOrder(cfg, s')
  {
    hide Sent, Behind, Buffered, WellFormed;
    forall k | 0 <= k < |s'.tasks| ensures TaskShape(cfg, s', k) {
      assert TaskShape(cfg, s, k);
    }
    forall d | 0 <= d < cfg.n ensures InOrder(cfg, s'.mixes[d]) {
      assert InOrder(cfg, s.mixes[d]);
    }
  }

  lemma {:induction false} SameFired(mixes: seq<Mix>, mixes': seq<Mix>, j: nat)
    requires |mixes| == |mixes'|
    requires forall d :: 0 <= d < |mixes| ==> mixes'[d].fired == mixes[d].fired
    ensures Past(mixes', j) == Past(mixes, j) && TotalFired(mixes') == TotalFired(mixes)
  {
    if mixes != [] {
      SameFired(mixes[..|mixes| - 1], mixes'[..|mixes| - 1], j);
    }
  }

  lemma MovesSent(cfg: Config, s: State, s': State, i: nat, phase: Phase)
    requires Core(cfg, s) && SentFrom(cfg, s) && Moves(cfg, s, s', i, phase)
    ensures Sent(cfg, s') && SentFrom(cfg, s')
  {
    hide Count, Past, TotalFired, Behind, Buffered, TaskShape, WellFormed;
    var t := s.tasks[i].(phase := phase);
    forall d: nat | d < cfg.n ensures SentTo(cfg, s', d) {
      assert SentTo(cfg, s, d);
      forall j: nat | j < cfg.layers ensures Count(s'.tasks, To(d, j)) == Reach(s', j) {
        CountUpdate(s.tasks, i, t, To(d, j));
        SameFired(s.mixes, s'.mixes, j);
      }
      CountUpdate(s.tasks, i, t, AnyTo(d));
      SameFired(s.mixes, s'.mixes, 0);
    }
    forall a: nat, d: nat, j: nat | a < cfg.n && d < cfg.n
      ensures Count(s'.tasks, From(a, d, j)) == if j == 0 then One(a == d) else One(j <= |s'.mixes[a].fired|)
    {
      CountUpdate(s.tasks, i, t, From(a, d, j));
    }
  }

  /** A request that had been parsed moves on: the counts of parsed requests stay. */
  lemma MovesParsed(cfg: Config, s: State, s': State, i: nat, phase: Phase, d: nat, j: nat)
    requires |s.mixes| == cfg.n && Moves(cfg, s, s', i, phase) && !s.tasks[i].phase.InFlight? && !phase.InFlight?
    ensures Count(s'.tasks, ParsedTo(d, j)) == Count(s.tasks, ParsedTo(d, j))
  {
    CountUpdate(s.tasks, i, s.tasks[i].(phase := phase), ParsedTo(d, j));
  }

  /** Steps of parsed requests that leave the buffers alone keep the core invariant. */
  lemma MovesCore(cfg: Config, s: State, s': State, i: nat, phase: Phase)
    requires Core(cfg, s) && SentFrom(cfg, s) && Moves(cfg, s, s', i, phase) && !s.tasks[i].phase.InFlight? && !phase.InFlight?
    requires forall d :: 0 <= d < cfg.n ==> s'.mixes[d].buffer == s.mixes[d].buffer
    ensures Core(cfg, s') && SentFrom(cfg, s')
  {
    hide Count, TaskShape, Sent, SentFrom, WellFormed, AllInOrder;
    MovesShape(cfg, s, s', i, phase);
    MovesSent(cfg, s, s', i, phase);
    forall d: nat, j: nat | d < cfg.n && j < Consumed(s'.mixes[d]) ensures Count(s'.tasks, ParsedTo(d, j)) == Full(cfg, j) {
      MovesParsed(cfg, s, s', i, phase, d, j);
    }
    forall d: nat, j: nat | d < cfg.n ensures SlotAt(cfg, s', d, j) {
      assert BufferedAt(cfg, s, d);
      assert SlotAt(cfg, s, d, j);
      MovesParsed(cfg, s, s', i, phase, d, j);
    }
  }

  // ---------- Parse ----------

  lemma ParseMoves(cfg: Config, s: State, s': State, i: nat)
    requires Core(cfg, s) && ParseStep(cfg, s, s', i)
    ensures Moves(cfg, s, s', i, Parsed)
  {
    hide Sent, Behind, Buffered, AllInOrder, DecryptIncoming, Conns;
  }

  /** The layer of a request still on its way has not been taken out at its destination. */
  lemma InFlightAhead(cfg: Config, s: State, i: nat)
    requires Core(cfg, s) && i < |s.tasks| && s.tasks[i].phase.InFlight?
    ensures s.tasks[i].dst < cfg.n && Consumed(s.mixes[s.tasks[i].dst]) <= s.tasks[i].layer
  {
    hide Count, Buffered, AllInOrder;
    var d, j := s.tasks[i].dst, s.tasks[i].layer;
    assert TaskShape(cfg, s, i);
    ParsedAmongSent(s.tasks, d, j);
    assert Matches(To(d, j), s.tasks[i]);
    assert SentTo(cfg, s, d);
    ReachBound(cfg, s, j);
  }

  lemma ParsedSlot(cfg: Config, buffer: Buffer, layer: nat, peeled: seq<Peeled>, j: nat)
    requires WellFormed(cfg, buffer)
    ensures var r := ParseInto(cfg, buffer, layer, peeled);
      && (j + 1 in r <==> j + 1 in buffer || j == layer)
      && (j == layer ==> r[j + 1].counter == 1 + (if j + 1 in buffer then buffer[j + 1].counter else 0))
      && (j != layer && j + 1 in buffer ==> r[j + 1] == buffer[j + 1])
  {
    hide PushAll;
  }

  lemma ParseBuffered(cfg: Config, s: State, s': State, i: nat)
    requires Core(cfg, s) && ParseStep(cfg, s, s', i)
    ensures |s'.mixes| == cfg.n && Behind(cfg, s') && Buffered(cfg, s')
  {
    hide Count, Sent, AllInOrder, DecryptIncoming, Conns, ParseInto, WellFormed;
    var t := s.tasks[i];
    InFlightAhead(cfg, s, i);
    forall d: nat, j: nat | d < cfg.n
      ensures Count(s'.tasks, ParsedTo(d, j)) == Count(s.tasks, ParsedTo(d, j)) + One(d == t.dst && j == t.layer)
    {
      CountUpdate(s.tasks, i, t.(phase := Parsed), ParsedTo(d, j));
    }
    forall d: nat, j: nat | d < cfg.n ensures SlotAt(cfg, s', d, j) {
      assert BufferedAt(cfg, s, d);
      assert SlotAt(cfg, s, d, j);
      assert TaskShape(cfg, s, i) && WellFormed(cfg, s.mixes[t.dst].buffer);
      ParsedSlot(cfg, s.mixes[t.dst].buffer, t.layer, DecryptIncoming(cfg, t.dst, t.packets, t.layer), j);
    }
  }

  lemma ParsePreserves(cfg: Config, s: State, s': State, i: nat)
    requires Inv(cfg, s) && ParseStep(cfg, s, s', i)
    ensures Inv(cfg, s')
  {
    hide Count, Sent, AllInOrder, TaskShape, Behind, Buffered, SentFrom, DecryptIncoming, Conns, ParseInto, IsMiddleLayer, WellFormed;
    ParseMoves(cfg, s, s', i);
    MovesShape(cfg, s, s', i, Parsed);
    MovesSent(cfg, s, s', i, Parsed);
    ParseBuffered(cfg, s, s', i);
    var t := s.tasks[i].(phase := Parsed);
    forall d: nat | d < cfg.n
      ensures Count(s'.tasks, RepliedTo(d)) == Count(s.tasks, RepliedTo(d))
      ensures Count(s'.tasks, UncheckedAt(d)) == Count(s.tasks, UncheckedAt(d)) + One(d == t.dst)
    {
      CountUpdate(s.tasks, i, t, RepliedTo(d));
      CountUpdate(s.tasks, i, t, UncheckedAt(d));
    }
  }

  // ---------- Idle and Reply ----------

  lemma IdlePreserves(cfg: Config, s: State, s': State, i: nat)
    requires Inv(cfg, s) && IdleStep(cfg, s, s', i)
    ensures Inv(cfg, s')
  {
    hide Count, Sent, AllInOrder, Behind, Buffered, SentFrom, IsMiddleLayer, WellFormed;
    var phase := Waiting(|s.tasks|, |s.tasks|);
    MovesCore(cfg, s, s', i, phase);
    var t := s.tasks[i].(phase := phase);
    forall d: nat | d < cfg.n
      ensures Count(s'.tasks, RepliedTo(d)) == Count(s.tasks, RepliedTo(d))
      ensures Count(s'.tasks, UncheckedAt(d)) == Count(s.tasks, UncheckedAt(d)) - One(d == t.dst)
    {
      CountUpdate(s.tasks, i, t, RepliedTo(d));
      CountUpdate(s.tasks, i, t, UncheckedAt(d));
    }
  }

  lemma ReplyPreserves(cfg: Config, s: State, s': State, i: nat)
    requires Inv(cfg, s) && ReplyStep(cfg, s, s', i)
    ensures Inv(cfg, s')
  {
    hide Count, Sent, AllInOrder, Behind, Buffered, SentFrom, IsMiddleLayer, WellFormed;
    MovesCore(cfg, s, s', i, Replied);
    var t := s.tasks[i].(phase := Replied);
    forall d: nat | d < cfg.n
      ensures Count(s'.tasks, RepliedTo(d)) == Count(s.tasks, RepliedTo(d)) + One(d == t.dst)
      ensures Count(s'.tasks, UncheckedAt(d)) == Count(s.tasks, UncheckedAt(d))
    {
      CountUpdate(s.tasks, i, t, RepliedTo(d));
      CountUpdate(s.tasks, i, t, UncheckedAt(d));
    }
  }

  // ---------- Fire ----------

  /** What sending changes in the counts. */
  lemma {:induction false} FireCounts(cfg: Config, s: State, s': State, i: nat, sent: seq<seq<Wire>>, q: Query)
    requires Core(cfg, s) && FireStep(cfg, s, s', i, sent)
    ensures |sent| == cfg.n && s.mixes[s.tasks[i].dst].buffer != map[]
    ensures Count(s'.tasks, q) == Count(s.tasks, q)
      + Added(s.tasks[i].dst, MinKey(s.mixes[s.tasks[i].dst].buffer.Keys), cfg.n, q)
      - (if q.UncheckedAt? then One(q.d == s.tasks[i].dst) else 0)
  {
    hide Count, Sent, AllInOrder, Behind, Buffered, Kept, TotalOutgoing, Shuffled;
    var t := s.tasks[i];
    var key := MinKey(s.mixes[t.dst].buffer.Keys);
    var moved := t.(phase := Waiting(|s.tasks|, |s.tasks| + cfg.n));
    assert key in s.mixes[t.dst].buffer;
    CountUpdate(s.tasks, i, moved, q);
    CountConcat(s.tasks[i := moved], NewTasks(t.dst, key, sent), q);
    CountNew(t.dst, key, sent, q);
  }

  /** The layer sent is the next one, and it was complete. */
  lemma FiresNext(cfg: Config, s: State, s': State, i: nat, sent: seq<seq<Wire>>)
    requires Core(cfg, s) && FireStep(cfg, s, s', i, sent)
    ensures var d := s.tasks[i].dst;
      && NextComplete(cfg, s, d)
      && s.mixes[d].buffer != map[]
      && MinKey(s.mixes[d].buffer.Keys) == |s.mixes[d].fired| + 1
      && s.mixes[d].out.None?
  {
    hide Count, Sent, Behind, Buffered, Sends;
    ReadyMeans(cfg, s, s.tasks[i].dst);
    assert InOrder(cfg, s.mixes[s.tasks[i].dst]);
  }

  lemma FireShape(cfg: Config, s: State, s': State, i: nat, sent: seq<seq<Wire>>)
    requires Core(cfg, s) && FireStep(cfg, s, s', i, sent)
    ensures Shape(cfg, s') && AllInOrder(cfg, s')
  {
    hide Count, Sent, Behind, Buffered, Kept, TotalOutgoing, Shuffled, IsMiddleLayer;
    FiresNext(cfg, s, s', i, sent);
    FireCounts(cfg, s, s', i, sent, AnyTo(0));
    var d := s.tasks[i].dst;
    forall k | 0 <= k < |s'.tasks| ensures TaskShape(cfg, s', k) {
      if k < |s.tasks| {
        assert TaskShape(cfg, s, k);
      }
    }
    forall m | 0 <= m < cfg.n ensures InOrder(cfg, s'.mixes[m]) && WellFormed(cfg, s'.mixes[m].buffer) {
      assert InOrder(cfg, s.mixes[m]) && WellFormed(cfg, s.mixes[m].buffer);
    }
  }

  lemma FireSent(cfg: Config, s: State, s': State, i: nat, sent: seq<seq<Wire>>)
    requires Core(cfg, s) && SentFrom(cfg, s) && FireStep(cfg, s, s', i, sent)
    ensures Sent(cfg, s') && |s'.mixes| == cfg.n && SentFrom(cfg, s')
  {
    hide Count, Past, TotalFired, Behind, Buffered, Sends, IsMiddleLayer, WellFormed, NewTasks;
    FiresNext(cfg, s, s', i, sent);
    var src := s.tasks[i].dst;
    var m' := s'.mixes[src];
    forall d: nat | d < cfg.n ensures SentTo(cfg, s', d) {
      assert SentTo(cfg, s, d);
      forall j: nat | j < cfg.layers ensures Count(s'.tasks, To(d, j)) == Reach(s', j) {
        FireCounts(cfg, s, s', i, sent, To(d, j));
        PastUpdate(s.mixes, src, m', j);
      }
      FireCounts(cfg, s, s', i, sent, AnyTo(d));
      PastUpdate(s.mixes, src, m', 0);
    }
    forall a: nat, d: nat, j: nat | a < cfg.n && d < cfg.n
      ensures Count(s'.tasks, From(a, d, j)) == if j == 0 then One(a == d) else One(j <= |s'.mixes[a].fired|)
    {
      FireCounts(cfg, s, s', i, sent, From(a, d, j));
    }
  }

  lemma FireBuffered(cfg: Config, s: State, s': State, i: nat, sent: seq<seq<Wire>>)
    requires Core(cfg, s) && FireStep(cfg, s, s', i, sent)
    ensures |s'.mixes| == cfg.n && Behind(cfg, s') && Buffered(cfg, s')
  {
    hide Count, Past, TotalFired, Sent, AllInOrder, Sends, IsMiddleLayer, WellFormed, NewTasks;
    FiresNext(cfg, s, s', i, sent);
    forall d: nat, j: nat | d < cfg.n ensures Count(s'.tasks, ParsedTo(d, j)) == Count(s.tasks, ParsedTo(d, j)) {
      FireCounts(cfg, s, s', i, sent, ParsedTo(d, j));
    }
    forall d: nat, j: nat | d < cfg.n ensures SlotAt(cfg, s', d, j) {
      assert BufferedAt(cfg, s, d);
      assert SlotAt(cfg, s, d, j);
    }
  }

  /** After sending, the mix cannot send again at once: its own request for the layer is on its way. */
  lemma FireSleeps(cfg: Config, s: State, s': State, i: nat, sent: seq<seq<Wire>>)
    requires Core(cfg, s) && FireStep(cfg, s, s', i, sent) && Core(cfg, s')
    ensures !IsMiddleLayer(cfg, s'.mixes[s.tasks[i].dst].buffer)
  {
    hide Count, Past, TotalFired, AllInOrder, Behind, Buffered, Kept, TotalOutgoing, Shuffled, WellFormed;
    FiresNext(cfg, s, s', i, sent);
    FireCounts(cfg, s, s', i, sent, AnyTo(0));
    var d := s.tasks[i].dst;
    var key := MinKey(s.mixes[d].buffer.Keys);
    ReadyMeans(cfg, s', d);
    if NextComplete(cfg, s', d) {
      var own := |s.tasks| + d;
      assert s'.tasks[own] == NewTasks(d, key, sent)[d] == Task(d, d, key, sent[d], InFlight);
      ParsedAmongSent(s'.tasks, d, key);
      assert Matches(To(d, key), s'.tasks[own]);
      assert SentTo(cfg, s', d);
      ReachBound(cfg, s', key);
    }
  }

  lemma FirePreserves(cfg: Config, s: State, s': State, i: nat, sent: seq<seq<Wire>>)
    requires Inv(cfg, s) && FireStep(cfg, s, s', i, sent)
    ensures Inv(cfg, s')
  {
    hide Count, Sent, SentFrom, AllInOrder, Behind, Buffered, Sends, IsMiddleLayer, WellFormed, NewTasks, TaskShape;
    FireShape(cfg, s, s', i, sent);
    FireSent(cfg, s, s', i, sent);
    FireBuffered(cfg, s, s', i, sent);
    FireSleeps(cfg, s, s', i, sent);
    forall d: nat | d < cfg.n
      ensures Count(s'.tasks, RepliedTo(d)) == Count(s.tasks, RepliedTo(d))
      ensures d != s.tasks[i].dst ==> Count(s'.tasks, UncheckedAt(d)) == Count(s.tasks, UncheckedAt(d))
    {
      FireCounts(cfg, s, s', i, sent, RepliedTo(d));
      FireCounts(cfg, s, s', i, sent, UncheckedAt(d));
    }
  }

  // ---------- Output ----------

  lemma OutputPreserves(cfg: Config, s: State, s': State, d: nat, messages: seq<Wire>)
    requires Inv(cfg, s) && OutputStep(cfg, s, s', d, messages)
    ensures Inv(cfg, s')
  {
    hide Count, Past, TotalFired, WellFormed, IsMiddleLayer, TaskShape, Flatten, Shuffled;
    PermitsMeanComplete(cfg, s, d);
    assert MaxKey(s.mixes[d].buffer.Keys) in {cfg.layers};
    assert s'.mixes[d].buffer == map[];
    assert WellFormed(cfg, s'.mixes[d].buffer) by {
      EmptyWellFormed(cfg);
    }
    forall k | 0 <= k < |s'.tasks| ensures TaskShape(cfg, s', k) {
      assert TaskShape(cfg, s, k);
      SameTaskShape(cfg, s, s', k);
    }
    OutputCounts(cfg, s, s', d);
    EmptyIsIdle(cfg);
  }

  lemma EmptyWellFormed(cfg: Config)
    ensures WellFormed(cfg, map[])
  {
  }

  lemma EmptyIsIdle(cfg: Config)
    requires cfg.n >= 1
    ensures !IsMiddleLayer(cfg, map[])
  {
  }

  lemma SameTaskShape(cfg: Config, s: State, s': State, k: nat)
    requires s'.tasks == s.tasks && k < |s.tasks| && TaskShape(cfg, s, k)
    ensures TaskShape(cfg, s', k)
  {
  }

  lemma OutputCounts(cfg: Config, s: State, s': State, d: nat)
    requires Inv(cfg, s) && d < cfg.n && s'.tasks == s.tasks && s.mixes[d].out.None?
    requires exists m :: s'.mixes == s.mixes[d := m] && m.fired == s.mixes[d].fired && m.out.Some? && m.buffer == map[]
    requires |s.mixes[d].fired| == cfg.layers - 1 && Count(s.tasks, ParsedTo(d, cfg.layers - 1)) == cfg.n
    ensures |s'.mixes| == cfg.n && AllInOrder(cfg, s') && Sent(cfg, s') && SentFrom(cfg, s') && Behind(cfg, s') && Buffered(cfg, s')
  {
    hide Count, Past, TotalFired, WellFormed, IsMiddleLayer, TaskShape, Awake, Permits;
    forall m | 0 <= m < cfg.n ensures InOrder(cfg, s'.mixes[m]) && s'.mixes[m].fired == s.mixes[m].fired {
      assert InOrder(cfg, s.mixes[m]);
    }
    forall b: nat | b < cfg.n ensures SentTo(cfg, s', b) {
      assert SentTo(cfg, s, b);
      forall j: nat | j < cfg.layers ensures Reach(s', j) == Reach(s, j) {
        SameFired(s.mixes, s'.mixes, j);
      }
      SameFired(s.mixes, s'.mixes, 0);
    }
    forall b: nat, j: nat | b < cfg.n ensures SlotAt(cfg, s', b, j) {
      assert BufferedAt(cfg, s, b);
      assert SlotAt(cfg, s, b, j);
    }
  }

  // ---------- Every run ----------

  lemma StepPreserves(cfg: Config, s: State, s': State)
    requires Inv(cfg, s) && Step(cfg, s, s')
    ensures Inv(cfg, s')
  {
    hide Inv, ParseStep, IdleStep, FireStep, ReplyStep, OutputStep;
    InvShape(cfg, s);
    if i :| ParseStep(cfg, s, s', i) {
      ParsePreserves(cfg, s, s', i);
    } else if i :| IdleStep(cfg, s, s', i) {
      IdlePreserves(cfg, s, s', i);
    } else if i, sent :| FireStep(cfg, s, s', i, sent) {
      FirePreserves(cfg, s, s', i, sent);
    } else if i :| ReplyStep(cfg, s, s', i) {
      ReplyPreserves(cfg, s, s', i);
    } else if d, messages :| OutputStep(cfg, s, s', d, messages) {
      OutputPreserves(cfg, s, s', d, messages);
    }
  }

  lemma InvShape(cfg: Config, s: State)
    requires Inv(cfg, s)
    ensures ValidRound(cfg) && Shape(cfg, s)
  {
  }

  lemma InvCore(cfg: Config, s: State)
    requires Inv(cfg, s)
    ensures Core(cfg, s)
  {
  }

  /** A run of a round: from the initial state, each state by a step from the one before. */
  ghost predicate Run(cfg: Config, inits: seq<seq<Wire>>, states: seq<State>)
    requires cfg.Valid() && |inits| == cfg.n
  {
    && |states| > 0 && states[0] == Init(cfg, inits)
    && forall i :: 0 <= i < |states| - 1 ==> StepAt(cfg, states, i)
  }

  ghost predicate StepAt(cfg: Config, states: seq<State>, i: nat)
    requires cfg.Valid() && i < |states| - 1
  {
    Shape(cfg, states[i]) && Step(cfg, states[i], states[i + 1])
  }

  /** The round is over: every request answered, every layer sent, everything output. The buffers are
      empty and no permits are left, as in the initial state of the next round. */
  ghost predicate Complete(cfg: Config, s: State) {
    && |s.mixes| == cfg.n
    && (forall i :: 0 <= i < |s.tasks| ==> s.tasks[i].phase.Replied?)
    && (forall d :: 0 <= d < cfg.n ==>
          |s.mixes[d].fired| == cfg.layers - 1 && s.mixes[d].out.Some? && s.mixes[d].buffer == map[] && s.mixes[d].permits == 0)
  }

  lemma {:induction false} RunInv(cfg: Config, inits: seq<seq<Wire>>, states: seq<State>, i: nat)
    requires ValidRound(cfg) && |inits| == cfg.n && Run(cfg, inits, states) && i < |states|
    ensures Inv(cfg, states[i])
  {
    hide Inv, Step, Shape, Init;
    if i == 0 {
      InitInv(cfg, inits);
    } else {
      RunInv(cfg, inits, states, i - 1);
      assert StepAt(cfg, states, i - 1);
      StepPreserves(cfg, states[i - 1], states[i]);
    }
  }
}
