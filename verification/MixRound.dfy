/** One round of the mix protocol, for every interleaving of its handlers, from a quiescent network:
    requests in flight, handlers that have parsed but not yet checked, and handlers that wait for the
    mixes they sent to. */
module MixRound {
  import opened Results
  import opened Network
  import opened MixServer

  /** Where a request is: on its way, counted in the buffer, waiting for the requests `lo..hi` that its
      handler sent (possibly none), or answered. */
  datatype Phase = InFlight | Parsed | Waiting(lo: nat, hi: nat) | Replied

  datatype Task = Task(src: nat, dst: nat, layer: nat, packets: seq<Wire>, phase: Phase)

  /** A mix, with the history of the layers it sent, the connections it stored and its output. */
  datatype Mix = Mix(buffer: Buffer, permits: nat, fired: seq<nat>, stored: seq<Connection>, out: Option<seq<Wire>>)

  datatype State = State(mixes: seq<Mix>, tasks: seq<Task>)

  /** The invariant below is for two layers or more; `MixOneLayer` is about one. */
  ghost predicate ValidRound(cfg: Config) {
    cfg.Valid() && cfg.layers >= 2
  }

  ghost predicate Shape(cfg: Config, s: State) {
    && |s.mixes| == cfg.n
    && (forall d :: 0 <= d < cfg.n ==> WellFormed(cfg, s.mixes[d].buffer))
    && (forall i :: 0 <= i < |s.tasks| ==> TaskShape(cfg, s, i))
  }

  ghost predicate TaskShape(cfg: Config, s: State, i: nat)
    requires i < |s.tasks|
  {
    var t := s.tasks[i];
    t.src < cfg.n && t.dst < cfg.n && (t.layer < cfg.layers || cfg.layers == 1)
    && (t.phase.Waiting? ==> i < t.phase.lo <= t.phase.hi <= |s.tasks|)
  }

  // ---------- Steps ----------

  /** Every mix has its initial request on the way, and nothing else is going on. */
  function Init(cfg: Config, inits: seq<seq<Wire>>): State
    requires |inits| == cfg.n
  {
    State(seq(cfg.n, _ => Mix(map[], 0, [], [], None)),
          seq(cfg.n, d requires 0 <= d < cfg.n => Task(d, d, 0, inits[d], InFlight)))
  }

  /** A handler decrypts its request and adds it to the buffer; it has no such step if it panics. */
  ghost predicate ParseStep(cfg: Config, s: State, s': State, i: nat)
    requires cfg.Valid() && Shape(cfg, s)
  {
    && i < |s.tasks| && s.tasks[i].phase.InFlight?
    && TaskShape(cfg, s, i)
    && var t := s.tasks[i];
    && Parses(cfg, t.dst, t.packets, t.layer)
    && var m, peeled := s.mixes[t.dst], DecryptIncoming(cfg, t.dst, t.packets, t.layer);
       s' == State(s.mixes[t.dst := m.(buffer := ParseInto(cfg, m.buffer, t.layer, peeled), stored := m.stored + Conns(peeled))],
                   s.tasks[i := t.(phase := Parsed)])
  }

  /** A handler finds the least layer incomplete. */
  ghost predicate IdleStep(cfg: Config, s: State, s': State, i: nat)
    requires cfg.Valid() && Shape(cfg, s)
  {
    && i < |s.tasks| && s.tasks[i].phase.Parsed?
    && TaskShape(cfg, s, i)
    && !IsMiddleLayer(cfg, s.mixes[s.tasks[i].dst].buffer)
    && s' == s.(tasks := s.tasks[i := s.tasks[i].(phase := Waiting(|s.tasks|, |s.tasks|))])
  }

  /** The requests a mix sends for a layer, one for each mix. */
  function NewTasks(src: nat, layer: nat, sent: seq<seq<Wire>>): (r: seq<Task>)
    ensures |r| == |sent|
  {
    seq(|sent|, d requires 0 <= d < |sent| => Task(src, d, layer, sent[d], InFlight))
  }

  /** A handler takes the least layer out of the buffer and sends it; it has no such step if the check of
      a batch panics. */
  ghost predicate FireStep(cfg: Config, s: State, s': State, i: nat, sent: seq<seq<Wire>>)
    requires cfg.Valid() && Shape(cfg, s)
  {
    && i < |s.tasks| && s.tasks[i].phase.Parsed?
    && TaskShape(cfg, s, i)
    && var t := s.tasks[i];
       var m := s.mixes[t.dst];
    && IsMiddleLayer(cfg, m.buffer)
    && var key := MinKey(m.buffer.Keys);
    && Sends(cfg, m.buffer[key], key, sent)
    && s' == State(s.mixes[t.dst := m.(buffer := Without(m.buffer, key), fired := m.fired + [key])],
                   s.tasks[i := t.(phase := Waiting(|s.tasks|, |s.tasks| + cfg.n))] + NewTasks(t.dst, key, sent))
  }

  /** A handler whose requests were all answered adds a permit and answers. */
  ghost predicate ReplyStep(cfg: Config, s: State, s': State, i: nat)
    requires cfg.Valid() && Shape(cfg, s)
  {
    && i < |s.tasks| && s.tasks[i].phase.Waiting?
    && TaskShape(cfg, s, i)
    && var t := s.tasks[i];
       var m := s.mixes[t.dst];
    && (forall c :: t.phase.lo <= c < t.phase.hi ==> s.tasks[c].phase.Replied?)
    && s' == State(s.mixes[t.dst := m.(permits := m.permits + 1)], s.tasks[i := t.(phase := Replied)])
  }

  /** `get` acquires the permits of the round and outputs the greatest layer. */
  ghost predicate OutputStep(cfg: Config, s: State, s': State, d: nat, messages: seq<Wire>)
    requires cfg.Valid() && Shape(cfg, s)
  {
    && d < cfg.n
    && var m := s.mixes[d];
    && m.out.None? && m.permits >= Quota(cfg) && m.buffer != map[]
    && var key := MaxKey(m.buffer.Keys);
    && Shuffled(Flatten(m.buffer[key].batches), messages)
    && s' == s.(mixes := s.mixes[d := m.(buffer := Without(m.buffer, key), permits := m.permits - Quota(cfg), out := Some(messages))])
  }

  ghost predicate Step(cfg: Config, s: State, s': State)
    requires cfg.Valid() && Shape(cfg, s)
  {
    || (exists i :: ParseStep(cfg, s, s', i))
    || (exists i :: IdleStep(cfg, s, s', i))
    || (exists i, sent :: FireStep(cfg, s, s', i, sent))
    || (exists i :: ReplyStep(cfg, s, s', i))
    || (exists d, messages :: OutputStep(cfg, s, s', d, messages))
  }

  // ---------- Counting requests ----------

  datatype Query =
    | To(d: nat, j: nat)
    | ParsedTo(d: nat, j: nat)
    | AnyTo(d: nat)
    | RepliedTo(d: nat)
    | UncheckedAt(d: nat)
    | From(s: nat, d: nat, j: nat)

  predicate Matches(q: Query, t: Task) {
    match q
    case To(d, j) => t.dst == d && t.layer == j
    case ParsedTo(d, j) => t.dst == d && t.layer == j && !t.phase.InFlight?
    case AnyTo(d) => t.dst == d
    case RepliedTo(d) => t.dst == d && t.phase.Replied?
    case UncheckedAt(d) => t.dst == d && t.phase.Parsed?
    case From(s, d, j) => t.src == s && t.dst == d && t.layer == j
  }

  function One(b: bool): nat { if b then 1 else 0 }

  function Count(tasks: seq<Task>, q: Query): nat {
    if tasks == [] then 0 else Count(tasks[..|tasks| - 1], q) + One(Matches(q, tasks[|tasks| - 1]))
  }

  lemma {:induction false} CountUpdate(tasks: seq<Task>, i: nat, t: Task, q: Query)
    requires i < |tasks|
    ensures Count(tasks[i := t], q) == Count(tasks, q) - One(Matches(q, tasks[i])) + One(Matches(q, t))
  {
    var n := |tasks| - 1;
    if i < n {
      assert tasks[i := t][..n] == tasks[..n][i := t];
      CountUpdate(tasks[..n], i, t, q);
    } else {
      assert tasks[i := t][..n] == tasks[..n];
    }
  }

  lemma {:induction false} CountConcat(a: seq<Task>, b: seq<Task>, q: Query)
    ensures Count(a + b, q) == Count(a, q) + Count(b, q)
  {
    if b == [] {
      assert a + b == a;
    } else {
      assert (a + b)[..|a + b| - 1] == a + b[..|b| - 1];
      CountConcat(a, b[..|b| - 1], q);
    }
  }

  /** A request still on its way is sent and not parsed. */
  lemma {:induction false} ParsedAmongSent(tasks: seq<Task>, d: nat, j: nat)
    ensures Count(tasks, ParsedTo(d, j)) <= Count(tasks, To(d, j))
    ensures forall i :: 0 <= i < |tasks| && Matches(To(d, j), tasks[i]) && tasks[i].phase.InFlight? ==>
      Count(tasks, ParsedTo(d, j)) < Count(tasks, To(d, j))
  {
    if tasks != [] {
      ParsedAmongSent(tasks[..|tasks| - 1], d, j);
    }
  }

  /** If all requests sent were parsed, each was. */
  lemma {:induction false} AllParsed(tasks: seq<Task>, d: nat, j: nat, i: nat)
    requires Count(tasks, ParsedTo(d, j)) == Count(tasks, To(d, j))
    requires i < |tasks| && Matches(To(d, j), tasks[i])
    ensures !tasks[i].phase.InFlight?
  {
    ParsedAmongSent(tasks, d, j);
  }

  lemma {:induction false} UnparsedUnreplied(tasks: seq<Task>, d: nat, j: nat)
    ensures Count(tasks, To(d, j)) - Count(tasks, ParsedTo(d, j)) <= Count(tasks, AnyTo(d)) - Count(tasks, RepliedTo(d))
  {
    if tasks != [] {
      UnparsedUnreplied(tasks[..|tasks| - 1], d, j);
    }
  }

  lemma {:induction false} CountWitness(tasks: seq<Task>, q: Query)
    requires Count(tasks, q) > 0
    ensures exists i :: 0 <= i < |tasks| && Matches(q, tasks[i])
  {
    var n := |tasks| - 1;
    if !Matches(q, tasks[n]) {
      CountWitness(tasks[..n], q);
      var i :| 0 <= i < n && Matches(q, tasks[..n][i]);
      assert Matches(q, tasks[i]);
    }
  }

  lemma {:induction false} CountPositive(tasks: seq<Task>, q: Query, i: nat)
    requires i < |tasks| && Matches(q, tasks[i])
    ensures Count(tasks, q) > 0
  {
    if i < |tasks| - 1 {
      CountPositive(tasks[..|tasks| - 1], q, i);
    }
  }

  /** What a batch of new requests adds to each count. */
  function Added(src: nat, layer: nat, n: nat, q: Query): nat {
    match q
    case To(d, j) => One(d < n && j == layer)
    case ParsedTo(_, _) => 0
    case AnyTo(d) => One(d < n)
    case RepliedTo(_) => 0
    case UncheckedAt(_) => 0
    case From(s, d, j) => One(s == src && d < n && j == layer)
  }

  lemma {:induction false} CountNew(src: nat, layer: nat, sent: seq<seq<Wire>>, q: Query)
    ensures Count(NewTasks(src, layer, sent), q) == Added(src, layer, |sent|, q)
  {
    if sent != [] {
      var n := |sent| - 1;
      assert NewTasks(src, layer, sent)[..n] == NewTasks(src, layer, sent[..n]);
      CountNew(src, layer, sent[..n], q);
    }
  }

  // ---------- Counting layers ----------

  /** How many mixes have sent layer `j`. */
  function Past(mixes: seq<Mix>, j: nat): nat {
    if mixes == [] then 0 else Past(mixes[..|mixes| - 1], j) + One(|mixes[|mixes| - 1].fired| >= j)
  }

  function TotalFired(mixes: seq<Mix>): nat {
    if mixes == [] then 0 else TotalFired(mixes[..|mixes| - 1]) + |mixes[|mixes| - 1].fired|
  }

  lemma {:induction false} PastUpdate(mixes: seq<Mix>, d: nat, m: Mix, j: nat)
    requires d < |mixes|
    ensures Past(mixes[d := m], j) == Past(mixes, j) - One(|mixes[d].fired| >= j) + One(|m.fired| >= j)
    ensures TotalFired(mixes[d := m]) == TotalFired(mixes) - |mixes[d].fired| + |m.fired|
  {
    var n := |mixes| - 1;
    if d < n {
      assert mixes[d := m][..n] == mixes[..n][d := m];
      PastUpdate(mixes[..n], d, m, j);
    } else {
      assert mixes[d := m][..n] == mixes[..n];
    }
  }

  lemma {:induction false} PastBound(mixes: seq<Mix>, j: nat)
    ensures Past(mixes, j) <= |mixes|
    ensures Past(mixes, j) == |mixes| <==> forall m :: 0 <= m < |mixes| ==> |mixes[m].fired| >= j
    ensures forall m :: 0 <= m < |mixes| && |mixes[m].fired| >= j ==> Past(mixes, j) > 0
  {
    if mixes != [] {
      PastBound(mixes[..|mixes| - 1], j);
    }
  }

  lemma {:induction false} PastWitness(mixes: seq<Mix>, j: nat)
    requires Past(mixes, j) > 0
    ensures exists m :: 0 <= m < |mixes| && |mixes[m].fired| >= j
  {
    var n := |mixes| - 1;
    if |mixes[n].fired| < j {
      PastWitness(mixes[..n], j);
      var m :| 0 <= m < n && |mixes[..n][m].fired| >= j;
      assert |mixes[m].fired| >= j;
    }
  }

  lemma {:induction false} TotalBound(mixes: seq<Mix>, k: nat)
    requires forall m :: 0 <= m < |mixes| ==> |mixes[m].fired| <= k
    ensures TotalFired(mixes) <= |mixes| * k
    ensures TotalFired(mixes) == |mixes| * k <==> forall m :: 0 <= m < |mixes| ==> |mixes[m].fired| == k
  {
    if mixes != [] {
      var n := |mixes| - 1;
      TotalBound(mixes[..n], k);
      assert |mixes| * k == n * k + k;
    }
  }

  // ---------- The invariant ----------

  /** How many requests from layer `j` a mix gets in the whole round. */
  function Full(cfg: Config, j: nat): nat {
    if j == 0 then 1 else cfg.n
  }

  /** How many requests from layer `j` have been sent to each mix. */
  function Reach(s: State, j: nat): nat {
    if j == 0 then 1 else Past(s.mixes, j)
  }

  /** How many layers a mix has taken out of its buffer. */
  function Consumed(m: Mix): nat {
    |m.fired| + One(m.out.Some?)
  }

  /** A mix sends the layers 1, 2, ... in order, up to the last but one, and outputs after them. */
  ghost predicate InOrder(cfg: Config, m: Mix) {
    && |m.fired| < cfg.layers
    && (forall i :: 0 <= i < |m.fired| ==> m.fired[i] == i + 1)
    && (m.out.Some? ==> |m.fired| == cfg.layers - 1)
  }

  ghost predicate AllInOrder(cfg: Config, s: State)
    requires |s.mixes| == cfg.n
  {
    forall d :: 0 <= d < cfg.n ==> InOrder(cfg, s.mixes[d])
  }

  ghost predicate SentTo(cfg: Config, s: State, d: nat)
  {
    && (forall j: nat :: j < cfg.layers ==> Count(s.tasks, To(d, j)) == Reach(s, j))
    && Count(s.tasks, AnyTo(d)) == 1 + TotalFired(s.mixes)
  }

  ghost predicate Sent(cfg: Config, s: State) {
    forall d: nat :: d < cfg.n ==> SentTo(cfg, s, d)
  }

  /** One request from a mix to a mix for each layer the first has sent. */
  ghost predicate SentFrom(cfg: Config, s: State)
    requires |s.mixes| == cfg.n
  {
    forall a: nat, d: nat, j: nat :: a < cfg.n && d < cfg.n ==>
      Count(s.tasks, From(a, d, j)) == if j == 0 then One(a == d) else One(j <= |s.mixes[a].fired|)
  }

  /** Layers a mix has taken out were complete: all requests that feed them have been parsed. */
  ghost predicate Behind(cfg: Config, s: State)
    requires |s.mixes| == cfg.n
  {
    forall d: nat, j: nat :: d < cfg.n && j < Consumed(s.mixes[d]) ==> Count(s.tasks, ParsedTo(d, j)) == Full(cfg, j)
  }

  /** The buffer has the layers not yet taken out for which a request was parsed, with their number. */
  ghost predicate SlotAt(cfg: Config, s: State, d: nat, j: nat)
    requires d < |s.mixes|
  {
    var m, count := s.mixes[d], Count(s.tasks, ParsedTo(d, j));
    && (j + 1 in m.buffer <==> Consumed(m) <= j < cfg.layers && count > 0)
    && (j + 1 in m.buffer ==> m.buffer[j + 1].counter == count)
  }

  ghost predicate BufferedAt(cfg: Config, s: State, d: nat)
    requires d < |s.mixes|
  {
    forall j: nat :: SlotAt(cfg, s, d, j)
  }

  ghost predicate Buffered(cfg: Config, s: State)
    requires |s.mixes| == cfg.n
  {
    forall d: nat :: d < cfg.n ==> BufferedAt(cfg, s, d)
  }

  /** A permit for each answered request, until they are spent. */
  ghost predicate Permits(cfg: Config, s: State)
    requires |s.mixes| == cfg.n && cfg.layers >= 1
  {
    forall d: nat :: d < cfg.n ==>
      s.mixes[d].permits + (if s.mixes[d].out.Some? then Quota(cfg) else 0) == Count(s.tasks, RepliedTo(d))
  }

  /** Where a layer can be sent, some handler has yet to check. */
  ghost predicate Awake(cfg: Config, s: State)
    requires |s.mixes| == cfg.n && cfg.n >= 1
  {
    forall d: nat :: d < cfg.n && IsMiddleLayer(cfg, s.mixes[d].buffer) ==> Count(s.tasks, UncheckedAt(d)) > 0
  }

  /** What the safety of the buffers rests on. */
  ghost predicate Core(cfg: Config, s: State) {
    ValidRound(cfg) && Shape(cfg, s) && AllInOrder(cfg, s) && Sent(cfg, s) && Behind(cfg, s) && Buffered(cfg, s)
  }

  ghost predicate Inv(cfg: Config, s: State) {
    Core(cfg, s) && SentFrom(cfg, s) && Permits(cfg, s) && Awake(cfg, s)
  }

  // ---------- What the invariant says of a mix ----------

  lemma ReachBound(cfg: Config, s: State, j: nat)
    requires |s.mixes| == cfg.n
    ensures Reach(s, j) <= Full(cfg, j)
    ensures j > 0 && Reach(s, j) == Full(cfg, j) ==> forall m :: 0 <= m < cfg.n ==> |s.mixes[m].fired| >= j
  {
    PastBound(s.mixes, j);
  }

  /** A mix that has taken out layer j + 1 had everything of layer j, so every mix has sent layer j. */
  lemma OthersAreClose(cfg: Config, s: State, d: nat, m: nat)
    requires Core(cfg, s) && d < cfg.n && m < cfg.n
    ensures |s.mixes[d].fired| <= |s.mixes[m].fired| + 1
    ensures s.mixes[d].out.Some? ==> |s.mixes[m].fired| == cfg.layers - 1
  {
    var c := Consumed(s.mixes[d]);
    assert InOrder(cfg, s.mixes[m]) && InOrder(cfg, s.mixes[d]);
    if c >= 2 {
      var j := c - 1;
      assert SentTo(cfg, s, d);
      ParsedAmongSent(s.tasks, d, j);
      ReachBound(cfg, s, j);
      assert Count(s.tasks, ParsedTo(d, j)) == Full(cfg, j);
      assert Count(s.tasks, To(d, j)) == Reach(s, j);
    }
  }

  /** The least buffered layer looks complete exactly when the next unsent layer is complete; then it
      is that layer. */
  lemma ReadyMeans(cfg: Config, s: State, d: nat)
    requires Core(cfg, s) && d < cfg.n
    ensures IsMiddleLayer(cfg, s.mixes[d].buffer) <==> NextComplete(cfg, s, d)
    ensures NextComplete(cfg, s, d) ==> s.mixes[d].buffer != map[] && MinKey(s.mixes[d].buffer.Keys) == |s.mixes[d].fired| + 1
  {
    hide TaskShape, AllInOrder, Behind, Sent, SentTo, Count, Past, WellFormed, InOrder, Consumed;
    if NextComplete(cfg, s, d) {
      CompleteIsReady(cfg, s, d);
    }
    if IsMiddleLayer(cfg, s.mixes[d].buffer) {
      ReadyIsComplete(cfg, s, d);
    }
  }

  ghost predicate NextComplete(cfg: Config, s: State, d: nat)
    requires d < |s.mixes| && cfg.layers >= 2
  {
    var f := |s.mixes[d].fired|;
    f < cfg.layers - 1 && Count(s.tasks, ParsedTo(d, f)) == Full(cfg, f)
  }

  lemma CompleteIsReady(cfg: Config, s: State, d: nat)
    requires Core(cfg, s) && d < cfg.n && NextComplete(cfg, s, d)
    ensures IsMiddleLayer(cfg, s.mixes[d].buffer)
    ensures s.mixes[d].buffer != map[] && MinKey(s.mixes[d].buffer.Keys) == |s.mixes[d].fired| + 1
  {
    hide Count, Past, Behind, Sent, TaskShape;
    var f, buffer := |s.mixes[d].fired|, s.mixes[d].buffer;
    assert BufferedAt(cfg, s, d) && InOrder(cfg, s.mixes[d]);
    assert SlotAt(cfg, s, d, f);
    KeysAbove(cfg, s, d);
    assert MinKey(buffer.Keys) == f + 1;
    assert buffer[f + 1].counter == Full(cfg, f);
    assert cfg.n % cfg.n == 0;
  }

  lemma KeysAbove(cfg: Config, s: State, d: nat)
    requires Core(cfg, s) && d < cfg.n
    ensures forall k :: k in s.mixes[d].buffer ==> Consumed(s.mixes[d]) < k <= cfg.layers
  {
    hide Count, Past, Behind, Sent;
    var buffer := s.mixes[d].buffer;
    assert WellFormed(cfg, buffer) && BufferedAt(cfg, s, d);
    forall k | k in buffer ensures Consumed(s.mixes[d]) < k <= cfg.layers {
      assert k != 0;
      assert SlotAt(cfg, s, d, k - 1);
    }
  }

  lemma ReadyIsComplete(cfg: Config, s: State, d: nat)
    requires Core(cfg, s) && d < cfg.n && IsMiddleLayer(cfg, s.mixes[d].buffer)
    ensures NextComplete(cfg, s, d)
  {
    hide Count, Past, Behind, TaskShape;
    var buffer := s.mixes[d].buffer;
    var k := MinKey(buffer.Keys);
    KeysAbove(cfg, s, d);
    assert BufferedAt(cfg, s, d) && InOrder(cfg, s.mixes[d]) && SentTo(cfg, s, d);
    var j := k - 1;
    assert SlotAt(cfg, s, d, j);
    var c := buffer[k].counter;
    assert c == Count(s.tasks, ParsedTo(d, j)) > 0;
    ParsedAmongSent(s.tasks, d, j);
    ReachBound(cfg, s, j);
    assert c <= Full(cfg, j);
    if j > 0 {
      WholeMultiple(c, cfg.n);
      assert |s.mixes[d].fired| >= j;
    }
  }

  lemma WholeMultiple(c: nat, n: nat)
    requires 0 < c <= n && c % n == 0
    ensures c == n
  {
  }

  /** Two mixes differ by at most one sent layer. */
  lemma BoundedSkew(cfg: Config, s: State, d: nat, m: nat)
    requires Inv(cfg, s) && d < cfg.n && m < cfg.n
    ensures |s.mixes[m].fired| - 1 <= |s.mixes[d].fired| <= |s.mixes[m].fired| + 1
  {
    OthersAreClose(cfg, s, d, m);
    OthersAreClose(cfg, s, m, d);
  }

  /** A mix buffers at most its next unsent layer and the one after it. */
  lemma BufferedLayers(cfg: Config, s: State, d: nat, k: nat)
    requires Inv(cfg, s) && d < cfg.n && k in s.mixes[d].buffer
    ensures |s.mixes[d].fired| + 1 <= k <= |s.mixes[d].fired| + 2
  {
    hide Count, Behind;
    KeysAbove(cfg, s, d);
    assert BufferedAt(cfg, s, d) && SentTo(cfg, s, d);
    var j := k - 1;
    assert SlotAt(cfg, s, d, j);
    ParsedAmongSent(s.tasks, d, j);
    if j > 0 {
      assert Past(s.mixes, j) > 0;
      PastWitness(s.mixes, j);
      var m :| 0 <= m < |s.mixes| && |s.mixes[m].fired| >= j;
      BoundedSkew(cfg, s, d, m);
    }
  }

  /** Once `get` can acquire its permits, every mix has sent every layer, and the buffer has only the
      last layer, complete. */
  lemma PermitsMeanComplete(cfg: Config, s: State, d: nat)
    requires Inv(cfg, s) && d < cfg.n && s.mixes[d].permits >= Quota(cfg)
    ensures s.mixes[d].out.None? && s.mixes[d].permits == Quota(cfg)
    ensures forall m :: 0 <= m < cfg.n ==> |s.mixes[m].fired| == cfg.layers - 1
    ensures Count(s.tasks, ParsedTo(d, cfg.layers - 1)) == cfg.n
    ensures s.mixes[d].buffer.Keys == {cfg.layers} && s.mixes[d].buffer[cfg.layers].counter == cfg.n
  {
    hide Count, Behind, TaskShape, Awake, SentFrom;
    var l := cfg.layers - 1;
    assert SentTo(cfg, s, d) && BufferedAt(cfg, s, d) && InOrder(cfg, s.mixes[d]);
    forall m | 0 <= m < cfg.n ensures |s.mixes[m].fired| <= l {
      assert InOrder(cfg, s.mixes[m]);
    }
    TotalBound(s.mixes, l);
    UnparsedUnreplied(s.tasks, d, l);
    ParsedAmongSent(s.tasks, d, l);
    assert Count(s.tasks, RepliedTo(d)) <= Count(s.tasks, AnyTo(d));
    assert TotalFired(s.mixes) == cfg.n * l;
    PastBound(s.mixes, l);
    assert Count(s.tasks, To(d, l)) == Reach(s, l) == cfg.n;
    KeysAbove(cfg, s, d);
    assert SlotAt(cfg, s, d, l);
    assert s.mixes[d].buffer.Keys == {cfg.layers};
  }

  /** The barrier: a mix has sent layer k > 1 only if a request for layer k - 1 from every mix was
      parsed there, exactly one from each. */
  lemma LayerBarrier(cfg: Config, s: State, d: nat, k: nat, m: nat)
    requires Inv(cfg, s) && d < cfg.n && m < cfg.n && 1 < k <= |s.mixes[d].fired|
    ensures Count(s.tasks, From(m, d, k - 1)) == 1
    ensures exists i :: 0 <= i < |s.tasks| && Matches(From(m, d, k - 1), s.tasks[i])
    ensures forall i :: 0 <= i < |s.tasks| && Matches(From(m, d, k - 1), s.tasks[i]) ==> !s.tasks[i].phase.InFlight?
  {
    hide Count, TaskShape, Awake, Buffered, Permits;
    var j := k - 1;
    assert InOrder(cfg, s.mixes[d]) && SentTo(cfg, s, d);
    assert Count(s.tasks, ParsedTo(d, j)) == Full(cfg, j);
    ParsedAmongSent(s.tasks, d, j);
    ReachBound(cfg, s, j);
    CountWitness(s.tasks, From(m, d, j));
    forall i | 0 <= i < |s.tasks| && Matches(From(m, d, j), s.tasks[i]) ensures !s.tasks[i].phase.InFlight? {
      AllParsed(s.tasks, d, j, i);
    }
  }
}
