/** What a round does to the packets, whatever the interleaving and the shuffles: it delivers what
    peeling each injected packet alone would deliver, and stores the same connections. */
module MixRefinement {
  import opened Lists
  import opened Results
  import opened Network
  import opened MixServer
  import opened MixRound
  import opened MixSafety
  import opened MixLockstep

  /** A connection in a mix's table, or a packet output by a mix. */
  datatype Outcome = Stored(mix: nat, conn: Connection) | Delivered(mix: nat, wire: Wire)

  // ---------- A packet alone ----------

  /** What becomes of a packet that reaches mix `d` in a request from layer `j`, peeled alone from there
      on. With `strict`, packets a check of a large batch would drop are dropped. */
  function Path(cfg: Config, strict: bool, d: nat, w: Wire, j: nat): multiset<Outcome>
    requires ValidRound(cfg) && j < cfg.layers
    decreases cfg.layers - j, 0
  {
    match cfg.traffic.peel(d, w, j)
    case Ok(Some(p)) => Storing(d, p) + PathHeld(cfg, strict, d, p.held, p.next, j + 1)
    case _ => multiset{}
  }

  function Storing(d: nat, p: Peeled): multiset<Outcome> {
    match p.conn
    case None => multiset{}
    case Some(conn) => multiset{Stored(d, conn)}
  }

  /** The same for a packet that mix `d` holds under layer `k` for mix `next`. */
  function PathHeld(cfg: Config, strict: bool, d: nat, held: Held, next: nat, k: nat): multiset<Outcome>
    requires ValidRound(cfg) && 0 < k <= cfg.layers
    decreases cfg.layers - k, 1
  {
    if k == cfg.layers then multiset{Delivered(d, WireOf(held))}
    else if strict && cfg.traffic.checked && cfg.traffic.valid(held, k - 1) != Ok(true) then multiset{}
    else Path(cfg, strict, next, WireOf(held), k)
  }

  // ---------- Everything a state still holds ----------

  function PacketSum(cfg: Config, strict: bool, d: nat, ws: seq<Wire>, j: nat): multiset<Outcome>
    requires ValidRound(cfg) && j < cfg.layers
  {
    if ws == [] then multiset{}
    else PacketSum(cfg, strict, d, ws[..|ws| - 1], j) + Path(cfg, strict, d, ws[|ws| - 1], j)
  }

  function BatchSum(cfg: Config, strict: bool, d: nat, batch: seq<Held>, next: nat, k: nat): multiset<Outcome>
    requires ValidRound(cfg) && 0 < k <= cfg.layers
  {
    if batch == [] then multiset{}
    else BatchSum(cfg, strict, d, batch[..|batch| - 1], next, k) + PathHeld(cfg, strict, d, batch[|batch| - 1], next, k)
  }

  function SlotSum(cfg: Config, strict: bool, d: nat, batches: seq<seq<Held>>, k: nat): multiset<Outcome>
    requires ValidRound(cfg) && 0 < k <= cfg.layers
  {
    if batches == [] then multiset{}
    else
      var n := |batches| - 1;
      SlotSum(cfg, strict, d, batches[..n], k) + BatchSum(cfg, strict, d, batches[n], n, k)
  }

  function KeySum(cfg: Config, strict: bool, d: nat, buffer: Buffer, k: nat): multiset<Outcome>
    requires ValidRound(cfg) && 0 < k <= cfg.layers
  {
    if k in buffer then SlotSum(cfg, strict, d, buffer[k].batches, k) else multiset{}
  }

  /** The layers up to `k` of a buffer. */
  function BufferSum(cfg: Config, strict: bool, d: nat, buffer: Buffer, k: nat): multiset<Outcome>
    requires ValidRound(cfg) && k <= cfg.layers
  {
    if k == 0 then multiset{} else BufferSum(cfg, strict, d, buffer, k - 1) + KeySum(cfg, strict, d, buffer, k)
  }

  function StoredSum(d: nat, conns: seq<Connection>): multiset<Outcome> {
    if conns == [] then multiset{} else StoredSum(d, conns[..|conns| - 1]) + multiset{Stored(d, conns[|conns| - 1])}
  }

  function OutSum(d: nat, ws: seq<Wire>): multiset<Outcome> {
    if ws == [] then multiset{} else OutSum(d, ws[..|ws| - 1]) + multiset{Delivered(d, ws[|ws| - 1])}
  }

  /** What a mix has stored and output. */
  function MixDone(d: nat, m: Mix): multiset<Outcome> {
    StoredSum(d, m.stored) + if m.out.Some? then OutSum(d, m.out.value) else multiset{}
  }

  function MixSum(cfg: Config, strict: bool, d: nat, m: Mix): multiset<Outcome>
    requires ValidRound(cfg)
  {
    MixDone(d, m) + BufferSum(cfg, strict, d, m.buffer, cfg.layers)
  }

  function MixesSum(cfg: Config, strict: bool, mixes: seq<Mix>): multiset<Outcome>
    requires ValidRound(cfg)
  {
    if mixes == [] then multiset{}
    else
      var n := |mixes| - 1;
      MixesSum(cfg, strict, mixes[..n]) + MixSum(cfg, strict, n, mixes[n])
  }

  function TaskSum(cfg: Config, strict: bool, t: Task): multiset<Outcome>
    requires ValidRound(cfg)
  {
    if t.phase.InFlight? && t.layer < cfg.layers then PacketSum(cfg, strict, t.dst, t.packets, t.layer) else multiset{}
  }

  function TasksSum(cfg: Config, strict: bool, tasks: seq<Task>): multiset<Outcome>
    requires ValidRound(cfg)
  {
    if tasks == [] then multiset{}
    else TasksSum(cfg, strict, tasks[..|tasks| - 1]) + TaskSum(cfg, strict, tasks[|tasks| - 1])
  }

  /** All that the packets of a state have become and will become. */
  function Potential(cfg: Config, strict: bool, s: State): multiset<Outcome>
    requires ValidRound(cfg)
  {
    MixesSum(cfg, strict, s.mixes) + TasksSum(cfg, strict, s.tasks)
  }

  // ---------- Sums ----------

  /** A common part of two sums can be set aside. */
  lemma Aside<T>(r': multiset<T>, l: multiset<T>, x: multiset<T>, r: multiset<T>, y: multiset<T>)
    requires r' + x == r + y
    ensures r' + l + x == r + l + y
  {
    assert r' + l + x == r' + x + l;
    assert r + l + y == r + y + l;
  }

  lemma {:induction false} TasksUpdate(cfg: Config, strict: bool, tasks: seq<Task>, i: nat, t: Task)
    requires ValidRound(cfg) && i < |tasks|
    ensures TasksSum(cfg, strict, tasks[i := t]) + TaskSum(cfg, strict, tasks[i])
         == TasksSum(cfg, strict, tasks) + TaskSum(cfg, strict, t)
  {
    hide TaskSum;
    var n := |tasks| - 1;
    if i < n {
      assert tasks[i := t][..n] == tasks[..n][i := t];
      TasksUpdate(cfg, strict, tasks[..n], i, t);
      Aside(TasksSum(cfg, strict, tasks[..n][i := t]), TaskSum(cfg, strict, tasks[n]), TaskSum(cfg, strict, tasks[i]),
            TasksSum(cfg, strict, tasks[..n]), TaskSum(cfg, strict, t));
    } else {
      assert tasks[i := t][..n] == tasks[..n];
    }
  }

  lemma {:induction false} TasksConcat(cfg: Config, strict: bool, a: seq<Task>, b: seq<Task>)
    requires ValidRound(cfg)
    ensures TasksSum(cfg, strict, a + b) == TasksSum(cfg, strict, a) + TasksSum(cfg, strict, b)
  {
    hide TaskSum;
    if b == [] {
      assert a + b == a;
    } else {
      assert (a + b)[..|a + b| - 1] == a + b[..|b| - 1];
      TasksConcat(cfg, strict, a, b[..|b| - 1]);
    }
  }

  lemma {:induction false} MixesUpdate(cfg: Config, strict: bool, mixes: seq<Mix>, d: nat, m: Mix)
    requires ValidRound(cfg) && d < |mixes|
    ensures MixesSum(cfg, strict, mixes[d := m]) + MixSum(cfg, strict, d, mixes[d])
         == MixesSum(cfg, strict, mixes) + MixSum(cfg, strict, d, m)
  {
    hide MixSum;
    var n := |mixes| - 1;
    if d < n {
      assert mixes[d := m][..n] == mixes[..n][d := m];
      MixesUpdate(cfg, strict, mixes[..n], d, m);
      Aside(MixesSum(cfg, strict, mixes[..n][d := m]), MixSum(cfg, strict, n, mixes[n]), MixSum(cfg, strict, d, mixes[d]),
            MixesSum(cfg, strict, mixes[..n]), MixSum(cfg, strict, d, m));
    } else {
      assert mixes[d := m][..n] == mixes[..n];
    }
  }

  lemma {:induction false} SlotPush(cfg: Config, strict: bool, d: nat, batches: seq<seq<Held>>, p: Peeled, k: nat)
    requires ValidRound(cfg) && 0 < k <= cfg.layers && p.next < |batches|
    ensures SlotSum(cfg, strict, d, Push(batches, p), k)
         == SlotSum(cfg, strict, d, batches, k) + PathHeld(cfg, strict, d, p.held, p.next, k)
  {
    hide PathHeld;
    var n := |batches| - 1;
    if p.next < n {
      assert Push(batches, p)[..n] == Push(batches[..n], p);
      SlotPush(cfg, strict, d, batches[..n], p, k);
    } else {
      assert Push(batches, p)[..n] == batches[..n];
      assert (batches[n] + [p.held])[..|batches[n]|] == batches[n];
    }
  }

  /** Requests that were peeled but not yet buffered or stored. */
  lemma {:induction false} ParseSum(cfg: Config, strict: bool, d: nat, ws: seq<Wire>, j: nat, batches: seq<seq<Held>>)
    requires ValidRound(cfg) && j < cfg.layers && |batches| == cfg.n && Parses(cfg, d, ws, j)
    ensures var peeled := DecryptIncoming(cfg, d, ws, j);
      SlotSum(cfg, strict, d, PushAll(batches, peeled), j + 1) + StoredSum(d, Conns(peeled))
      == SlotSum(cfg, strict, d, batches, j + 1) + PacketSum(cfg, strict, d, ws, j)
  {
    hide Path, PathHeld, SlotSum, PushAll, Conns, StoredSum, Storing, DecryptIncoming, PacketSum, Parses;
    if ws == [] {
      NothingParsed(cfg, strict, d, j, batches);
    } else {
      var n := |ws| - 1;
      ParsesSnoc(cfg, d, ws, j);
      ParseSum(cfg, strict, d, ws[..n], j, batches);
      var rest := DecryptIncoming(cfg, d, ws[..n], j);
      OneMore(cfg, strict, d, ws, j);
      if cfg.traffic.peel(d, ws[n], j).value.Some? {
        var p := cfg.traffic.peel(d, ws[n], j).value.value;
        PushOne(cfg, strict, d, batches, rest, p, j + 1);
        ConnsSnoc(d, rest, p);
        Regroup(SlotSum(cfg, strict, d, PushAll(batches, rest), j + 1), StoredSum(d, Conns(rest)),
                SlotSum(cfg, strict, d, batches, j + 1), PacketSum(cfg, strict, d, ws[..n], j),
                Storing(d, p), PathHeld(cfg, strict, d, p.held, p.next, j + 1));
      }
    }
  }

  lemma {:induction false} NothingParsed(cfg: Config, strict: bool, d: nat, j: nat, batches: seq<seq<Held>>)
    requires ValidRound(cfg) && j < cfg.layers
    ensures DecryptIncoming(cfg, d, [], j) == [] && PushAll(batches, []) == batches && Conns([]) == []
    ensures StoredSum(d, []) == multiset{} && PacketSum(cfg, strict, d, [], j) == multiset{}
  {
  }

  lemma {:induction false} OneMore(cfg: Config, strict: bool, d: nat, ws: seq<Wire>, j: nat)
    requires ValidRound(cfg) && j < cfg.layers && ws != []
    ensures var n := |ws| - 1;
      match cfg.traffic.peel(d, ws[n], j)
      case Ok(Some(p)) =>
        && DecryptIncoming(cfg, d, ws, j) == DecryptIncoming(cfg, d, ws[..n], j) + [p]
        && PacketSum(cfg, strict, d, ws, j)
           == PacketSum(cfg, strict, d, ws[..n], j) + (Storing(d, p) + PathHeld(cfg, strict, d, p.held, p.next, j + 1))
      case _ =>
        && DecryptIncoming(cfg, d, ws, j) == DecryptIncoming(cfg, d, ws[..n], j)
        && PacketSum(cfg, strict, d, ws, j) == PacketSum(cfg, strict, d, ws[..n], j)
  {
    hide PathHeld, Storing;
  }

  lemma {:induction false} PushOne(cfg: Config, strict: bool, d: nat, batches: seq<seq<Held>>, rest: seq<Peeled>, p: Peeled, k: nat)
    requires ValidRound(cfg) && 0 < k <= cfg.layers && p.next < |batches|
    ensures SlotSum(cfg, strict, d, PushAll(batches, rest + [p]), k)
         == SlotSum(cfg, strict, d, PushAll(batches, rest), k) + PathHeld(cfg, strict, d, p.held, p.next, k)
  {
    hide PathHeld, SlotSum, Push;
    assert (rest + [p])[..|rest|] == rest;
    SlotPush(cfg, strict, d, PushAll(batches, rest), p, k);
  }

  lemma Regroup<T>(slots: multiset<T>, stored: multiset<T>, before: multiset<T>, sum: multiset<T>, x: multiset<T>, y: multiset<T>)
    requires slots + stored == before + sum
    ensures (slots + y) + (stored + x) == before + (sum + (x + y))
  {
    assert (slots + y) + (stored + x) == (slots + stored) + (x + y);
    assert before + (sum + (x + y)) == (before + sum) + (x + y);
  }

  lemma {:induction false} ConnsSnoc(d: nat, rest: seq<Peeled>, p: Peeled)
    ensures StoredSum(d, Conns(rest + [p])) == StoredSum(d, Conns(rest)) + Storing(d, p)
  {
    assert (rest + [p])[..|rest|] == rest;
    if p.conn.Some? {
      assert (Conns(rest) + [p.conn.value])[..|Conns(rest)|] == Conns(rest);
    }
  }

  lemma {:induction false} StoredConcat(d: nat, a: seq<Connection>, b: seq<Connection>)
    ensures StoredSum(d, a + b) == StoredSum(d, a) + StoredSum(d, b)
  {
    if b == [] {
      assert a + b == a;
    } else {
      assert (a + b)[..|a + b| - 1] == a + b[..|b| - 1];
      StoredConcat(d, a, b[..|b| - 1]);
    }
  }

  /** Only one layer of a buffer changes. */
  lemma {:induction false} BufferUpdate(cfg: Config, strict: bool, d: nat, a: Buffer, b: Buffer, key: nat, k: nat)
    requires ValidRound(cfg) && k <= cfg.layers && 0 < key
    requires forall i: nat :: i != key ==> (i in a <==> i in b) && (i in a ==> a[i] == b[i])
    ensures key > k ==> BufferSum(cfg, strict, d, b, k) == BufferSum(cfg, strict, d, a, k)
    ensures key <= k ==>
      BufferSum(cfg, strict, d, b, k) + KeySum(cfg, strict, d, a, key) == BufferSum(cfg, strict, d, a, k) + KeySum(cfg, strict, d, b, key)
  {
    if k > 0 {
      BufferUpdate(cfg, strict, d, a, b, key, k - 1);
      if key != k {
        assert KeySum(cfg, strict, d, a, k) == KeySum(cfg, strict, d, b, k);
        if key < k {
          hide KeySum, BufferSum;
          Aside(BufferSum(cfg, strict, d, b, k - 1), KeySum(cfg, strict, d, a, k), KeySum(cfg, strict, d, a, key),
                BufferSum(cfg, strict, d, a, k - 1), KeySum(cfg, strict, d, b, key));
        }
      }
    }
  }

  lemma {:induction false} EmptySlot(cfg: Config, strict: bool, d: nat, batches: seq<seq<Held>>, k: nat)
    requires ValidRound(cfg) && 0 < k <= cfg.layers && forall i :: 0 <= i < |batches| ==> batches[i] == []
    ensures SlotSum(cfg, strict, d, batches, k) == multiset{}
  {
    if batches != [] {
      EmptySlot(cfg, strict, d, batches[..|batches| - 1], k);
    }
  }

  // ---------- Permutations ----------

  lemma {:induction false} PacketSumAt(cfg: Config, strict: bool, d: nat, ws: seq<Wire>, j: nat, i: nat)
    requires ValidRound(cfg) && j < cfg.layers && i < |ws|
    ensures PacketSum(cfg, strict, d, ws, j) == PacketSum(cfg, strict, d, ws[..i] + ws[i + 1..], j) + Path(cfg, strict, d, ws[i], j)
  {
    hide Path, PacketSum;
    var n := |ws| - 1;
    PacketSumLast(cfg, strict, d, ws, j);
    if i < n {
      PacketSumAt(cfg, strict, d, ws[..n], j, i);
      var rest := ws[..i] + ws[i + 1..];
      WithoutOne(ws, i);
      PacketSumLast(cfg, strict, d, rest, j);
      Swap(PacketSum(cfg, strict, d, rest[..n - 1], j), Path(cfg, strict, d, ws[i], j), Path(cfg, strict, d, ws[n], j));
    } else {
      assert ws[..i] + ws[i + 1..] == ws[..n];
    }
  }

  lemma {:induction false} PacketSumLast(cfg: Config, strict: bool, d: nat, ws: seq<Wire>, j: nat)
    requires ValidRound(cfg) && j < cfg.layers && ws != []
    ensures PacketSum(cfg, strict, d, ws, j) == PacketSum(cfg, strict, d, ws[..|ws| - 1], j) + Path(cfg, strict, d, ws[|ws| - 1], j)
  {
    hide Path;
  }

  /** An element but the last taken out of a sequence. */
  lemma WithoutOne<T>(s: seq<T>, i: nat)
    requires i < |s| - 1
    ensures var n, rest := |s| - 1, s[..i] + s[i + 1..];
      |rest| == n && rest[n - 1] == s[n] && s[..n][i] == s[i] && rest[..n - 1] == s[..n][..i] + s[..n][i + 1..]
  {
  }

  lemma Swap<T>(a: multiset<T>, x: multiset<T>, y: multiset<T>)
    ensures a + x + y == a + y + x
  {
  }

  lemma {:induction false} PacketSumPermuted(cfg: Config, strict: bool, d: nat, a: seq<Wire>, b: seq<Wire>, j: nat)
    requires ValidRound(cfg) && j < cfg.layers && multiset(a) == multiset(b)
    ensures PacketSum(cfg, strict, d, a, j) == PacketSum(cfg, strict, d, b, j)
    decreases |a|
  {
    hide Path;
    if a == [] {
      assert |multiset(b)| == 0;
    } else {
      var n := |a| - 1;
      assert a[n] in multiset(b);
      var i :| 0 <= i < |b| && b[i] == a[n];
      RemoveAt(a, n);
      RemoveAt(b, i);
      assert a[..n] + a[n + 1..] == a[..n];
      PacketSumPermuted(cfg, strict, d, a[..n], b[..i] + b[i + 1..], j);
      PacketSumAt(cfg, strict, d, b, j, i);
    }
  }

  /** Some of the packets give some of the outcomes. */
  lemma {:induction false} PacketSumPart(cfg: Config, strict: bool, d: nat, a: seq<Wire>, b: seq<Wire>, j: nat)
    requires ValidRound(cfg) && j < cfg.layers && multiset(a) <= multiset(b)
    ensures PacketSum(cfg, strict, d, a, j) <= PacketSum(cfg, strict, d, b, j)
    decreases |a|
  {
    hide Path;
    if a != [] {
      var n := |a| - 1;
      var i := WithoutLast(a, b);
      PacketSumPart(cfg, strict, d, a[..n], b[..i] + b[i + 1..], j);
      PacketSumAt(cfg, strict, d, b, j, i);
    }
  }

  lemma {:induction false} OutSumAt(d: nat, ws: seq<Wire>, i: nat)
    requires i < |ws|
    ensures OutSum(d, ws) == OutSum(d, ws[..i] + ws[i + 1..]) + multiset{Delivered(d, ws[i])}
  {
    var n := |ws| - 1;
    if i < n {
      OutSumAt(d, ws[..n], i);
      var rest := ws[..i] + ws[i + 1..];
      assert rest[..|rest| - 1] == ws[..n][..i] + ws[..n][i + 1..];
    } else {
      assert ws[..i] + ws[i + 1..] == ws[..n];
    }
  }

  lemma {:induction false} OutSumPermuted(d: nat, a: seq<Wire>, b: seq<Wire>)
    requires multiset(a) == multiset(b)
    ensures OutSum(d, a) == OutSum(d, b)
    decreases |a|
  {
    if a == [] {
      assert |multiset(b)| == 0;
    } else {
      var n := |a| - 1;
      assert a[n] in multiset(b);
      var i :| 0 <= i < |b| && b[i] == a[n];
      RemoveAt(a, n);
      RemoveAt(b, i);
      assert a[..n] + a[n + 1..] == a[..n];
      OutSumPermuted(d, a[..n], b[..i] + b[i + 1..]);
      OutSumAt(d, b, i);
    }
  }

  // ---------- Steps ----------

  lemma Cancel<T>(a: multiset<T>, b: multiset<T>, c: multiset<T>)
    requires a + c == b + c
    ensures a == b
  {
    forall x ensures a[x] == b[x] {
      assert (a + c)[x] == (b + c)[x];
    }
  }

  /** Parsing turns a request into what it stores and what it buffers. */
  lemma {:induction false} ParseMix(cfg: Config, strict: bool, d: nat, m: Mix, ws: seq<Wire>, j: nat)
    requires ValidRound(cfg) && WellFormed(cfg, m.buffer) && j < cfg.layers && Parses(cfg, d, ws, j)
    ensures var peeled := DecryptIncoming(cfg, d, ws, j);
      MixSum(cfg, strict, d, m.(buffer := ParseInto(cfg, m.buffer, j, peeled), stored := m.stored + Conns(peeled)))
      == MixSum(cfg, strict, d, m) + PacketSum(cfg, strict, d, ws, j)
  {
    hide PacketSum, BufferSum, StoredSum, SlotSum, OutSum, Conns, PushAll, DecryptIncoming, Parses;
    var peeled := DecryptIncoming(cfg, d, ws, j);
    var b, b', key := m.buffer, ParseInto(cfg, m.buffer, j, peeled), j + 1;
    var slot := Opened(cfg, b, key);
    BufferUpdate(cfg, strict, d, b, b', key, cfg.layers);
    ParseSum(cfg, strict, d, ws, j, slot.batches);
    if key !in b {
      EmptySlot(cfg, strict, d, slot.batches, key);
    }
    StoredConcat(d, m.stored, Conns(peeled));
    ParseAlgebra(BufferSum(cfg, strict, d, b', cfg.layers), KeySum(cfg, strict, d, b, key), BufferSum(cfg, strict, d, b, cfg.layers),
                 KeySum(cfg, strict, d, b', key), StoredSum(d, Conns(peeled)), PacketSum(cfg, strict, d, ws, j));
    var out := if m.out.Some? then OutSum(d, m.out.value) else multiset{};
    ParseRegroup(StoredSum(d, m.stored), StoredSum(d, Conns(peeled)), out, BufferSum(cfg, strict, d, b', cfg.layers),
                 BufferSum(cfg, strict, d, b, cfg.layers), PacketSum(cfg, strict, d, ws, j));
  }

  lemma ParseAlgebra<T>(after: multiset<T>, slot: multiset<T>, before: multiset<T>, slot': multiset<T>, stored: multiset<T>, x: multiset<T>)
    requires after + slot == before + slot' && slot' + stored == slot + x
    ensures after + stored == before + x
  {
    assert (after + stored) + slot == (after + slot) + stored;
    assert (before + slot') + stored == before + (slot' + stored);
    assert before + (slot + x) == (before + x) + slot;
    Cancel(after + stored, before + x, slot);
  }

  lemma ParseRegroup<T>(s: multiset<T>, c: multiset<T>, out: multiset<T>, after: multiset<T>, before: multiset<T>, x: multiset<T>)
    requires after + c == before + x
    ensures (s + c + out) + after == (s + out) + before + x
  {
    assert (s + c + out) + after == (s + out) + (after + c);
    assert (s + out) + before + x == (s + out) + (before + x);
  }

  /** How a changed mix and a changed request change the potential. */
  lemma PotentialUpdate(cfg: Config, strict: bool, s: State, s': State, d: nat, m: Mix, i: nat, t: Task)
    requires ValidRound(cfg) && d < |s.mixes| && i < |s.tasks|
    requires s' == State(s.mixes[d := m], s.tasks[i := t])
    requires MixSum(cfg, strict, d, m) + TaskSum(cfg, strict, t) == MixSum(cfg, strict, d, s.mixes[d]) + TaskSum(cfg, strict, s.tasks[i])
    ensures Potential(cfg, strict, s') == Potential(cfg, strict, s)
  {
    hide MixSum, TaskSum;
    MixesUpdate(cfg, strict, s.mixes, d, m);
    TasksUpdate(cfg, strict, s.tasks, i, t);
    PotentialAlgebra(MixesSum(cfg, strict, s'.mixes), MixSum(cfg, strict, d, s.mixes[d]), MixesSum(cfg, strict, s.mixes), MixSum(cfg, strict, d, m),
                     TasksSum(cfg, strict, s'.tasks), TaskSum(cfg, strict, s.tasks[i]), TasksSum(cfg, strict, s.tasks), TaskSum(cfg, strict, t));
  }

  lemma PotentialAlgebra<T>(ms': multiset<T>, x: multiset<T>, ms: multiset<T>, x': multiset<T>,
                            ts': multiset<T>, y: multiset<T>, ts: multiset<T>, y': multiset<T>)
    requires ms' + x == ms + x' && ts' + y == ts + y' && x' + y' == x + y
    ensures ms' + ts' == ms + ts
  {
    assert (ms' + ts') + (x + y) == (ms' + x) + (ts' + y);
    assert (ms + ts) + (x' + y') == (ms + x') + (ts + y');
    Cancel(ms' + ts', ms + ts, x + y);
  }

  lemma ParsePotential(cfg: Config, strict: bool, s: State, s': State, i: nat)
    requires Inv(cfg, s) && ParseStep(cfg, s, s', i)
    ensures Potential(cfg, strict, s') == Potential(cfg, strict, s)
  {
    hide Inv, MixSum, Potential, PacketSum, ParseInto, DecryptIncoming, Conns, WellFormed, Parses;
    InvShape(cfg, s);
    var t := s.tasks[i];
    ParseMix(cfg, strict, t.dst, s.mixes[t.dst], t.packets, t.layer);
    PotentialUpdate(cfg, strict, s, s', t.dst, s'.mixes[t.dst], i, t.(phase := Parsed));
  }

  lemma IdlePotential(cfg: Config, strict: bool, s: State, s': State, i: nat)
    requires Inv(cfg, s) && IdleStep(cfg, s, s', i)
    ensures Potential(cfg, strict, s') == Potential(cfg, strict, s)
  {
    hide Inv, MixSum, Potential, PacketSum, IsMiddleLayer;
    InvShape(cfg, s);
    var t := s.tasks[i];
    assert s.mixes == s.mixes[t.dst := s.mixes[t.dst]];
    PotentialUpdate(cfg, strict, s, s', t.dst, s.mixes[t.dst], i, t.(phase := Waiting(|s.tasks|, |s.tasks|)));
  }

  lemma ReplyPotential(cfg: Config, strict: bool, s: State, s': State, i: nat)
    requires Inv(cfg, s) && ReplyStep(cfg, s, s', i)
    ensures Potential(cfg, strict, s') == Potential(cfg, strict, s)
  {
    hide Inv, BufferSum, MixDone, Potential, PacketSum;
    InvShape(cfg, s);
    var t := s.tasks[i];
    PermitsDoNotCount(t.dst, s.mixes[t.dst], s.mixes[t.dst].permits + 1);
    PotentialUpdate(cfg, strict, s, s', t.dst, s'.mixes[t.dst], i, t.(phase := Replied));
  }

  lemma PermitsDoNotCount(d: nat, m: Mix, permits: nat)
    ensures MixDone(d, m.(permits := permits)) == MixDone(d, m)
  {
  }

  // What is sent of a layer, against what was held of it.

  /** All of a batch is sent: strictly, some of it may count for more than it was held for. */
  lemma {:induction false} WholeBatch(cfg: Config, strict: bool, d: nat, batch: seq<Held>, next: nat, k: nat)
    requires ValidRound(cfg) && 0 < k < cfg.layers
    ensures BatchSum(cfg, strict, d, batch, next, k) <= PacketSum(cfg, strict, next, Wires(batch), k)
    ensures !strict ==> BatchSum(cfg, strict, d, batch, next, k) == PacketSum(cfg, strict, next, Wires(batch), k)
  {
    hide Path, WireOf;
    if batch != [] {
      var n := |batch| - 1;
      WholeBatch(cfg, strict, d, batch[..n], next, k);
      assert Wires(batch)[..n] == Wires(batch[..n]);
    }
  }

  /** The valid part of a batch is sent: loosely, that may be less than it was held for. */
  lemma {:induction false} ValidBatch(cfg: Config, strict: bool, d: nat, batch: seq<Held>, next: nat, k: nat)
    requires ValidRound(cfg) && 0 < k < cfg.layers && cfg.traffic.checked
    ensures PacketSum(cfg, strict, next, Wires(FilterValid(cfg, batch, k - 1)), k) <= BatchSum(cfg, strict, d, batch, next, k)
    ensures strict ==> PacketSum(cfg, strict, next, Wires(FilterValid(cfg, batch, k - 1)), k) == BatchSum(cfg, strict, d, batch, next, k)
  {
    hide Path, WireOf;
    if batch != [] {
      var n := |batch| - 1;
      ValidBatch(cfg, strict, d, batch[..n], next, k);
      var rest := FilterValid(cfg, batch[..n], k - 1);
      WiresSnoc(rest, batch[n]);
      var ws := Wires(rest) + [WireOf(batch[n])];
      assert ws[..|ws| - 1] == Wires(rest);
    }
  }

  lemma WiresSnoc(rest: seq<Held>, h: Held)
    ensures Wires(rest + [h]) == Wires(rest) + [WireOf(h)]
  {
  }

  lemma {:induction false} SentBatch(cfg: Config, strict: bool, d: nat, batch: seq<Held>, next: nat, k: nat, total: nat, ws: seq<Wire>)
    requires ValidRound(cfg) && 0 < k < cfg.layers && Shuffled(Kept(cfg, batch, k, total), ws)
    ensures strict ==> BatchSum(cfg, strict, d, batch, next, k) <= PacketSum(cfg, strict, next, ws, k)
    ensures !strict ==> PacketSum(cfg, strict, next, ws, k) <= BatchSum(cfg, strict, d, batch, next, k)
  {
    hide Path, PacketSum, BatchSum, OverLimit, FilterValid, Wires;
    PacketSumPermuted(cfg, strict, next, ws, Wires(Kept(cfg, batch, k, total)), k);
    if cfg.traffic.checked && OverLimit(cfg, |batch|, total) {
      ValidBatch(cfg, strict, d, batch, next, k);
    } else {
      WholeBatch(cfg, strict, d, batch, next, k);
    }
  }

  lemma {:induction false} SentSlot(cfg: Config, strict: bool, d: nat, batches: seq<seq<Held>>, k: nat, total: nat, sent: seq<seq<Wire>>)
    requires ValidRound(cfg) && 0 < k < cfg.layers && |sent| == |batches|
    requires forall i :: 0 <= i < |sent| ==> Shuffled(Kept(cfg, batches[i], k, total), sent[i])
    ensures strict ==> SlotSum(cfg, strict, d, batches, k) <= TasksSum(cfg, strict, NewTasks(d, k, sent))
    ensures !strict ==> TasksSum(cfg, strict, NewTasks(d, k, sent)) <= SlotSum(cfg, strict, d, batches, k)
  {
    hide PacketSum, BatchSum, Kept, Shuffled;
    if batches != [] {
      var n := |batches| - 1;
      SentSlot(cfg, strict, d, batches[..n], k, total, sent[..n]);
      assert NewTasks(d, k, sent)[..n] == NewTasks(d, k, sent[..n]);
      SentBatch(cfg, strict, d, batches[n], n, k, total, sent[n]);
    }
  }

  /** Taking a layer out of a buffer. */
  lemma {:induction false} TakeOut(cfg: Config, strict: bool, d: nat, m: Mix, m': Mix, key: nat)
    requires ValidRound(cfg) && 0 < key <= cfg.layers && key in m.buffer && m'.buffer == Without(m.buffer, key)
    requires m'.stored == m.stored && m'.out == m.out
    ensures MixSum(cfg, strict, d, m') + SlotSum(cfg, strict, d, m.buffer[key].batches, key) == MixSum(cfg, strict, d, m)
  {
    hide SlotSum, BufferSum, StoredSum, OutSum;
    BufferUpdate(cfg, strict, d, m.buffer, m'.buffer, key, cfg.layers);
    var b, b', slot := BufferSum(cfg, strict, d, m.buffer, cfg.layers), BufferSum(cfg, strict, d, m'.buffer, cfg.layers),
                       SlotSum(cfg, strict, d, m.buffer[key].batches, key);
    assert b' + slot == b;
    assert (MixDone(d, m) + b') + slot == MixDone(d, m) + (b' + slot);
  }

  lemma {:induction false} SentTasks(cfg: Config, strict: bool, tasks: seq<Task>, i: nat, moved: Task, more: seq<Task>)
    requires ValidRound(cfg) && i < |tasks| && !tasks[i].phase.InFlight? && !moved.phase.InFlight?
    ensures TasksSum(cfg, strict, tasks[i := moved] + more) == TasksSum(cfg, strict, tasks) + TasksSum(cfg, strict, more)
  {
    hide PacketSum, TasksSum;
    TasksUpdate(cfg, strict, tasks, i, moved);
    TasksConcat(cfg, strict, tasks[i := moved], more);
    assert TaskSum(cfg, strict, moved) == TaskSum(cfg, strict, tasks[i]) == multiset{};
    Cancel(TasksSum(cfg, strict, tasks[i := moved]), TasksSum(cfg, strict, tasks), TaskSum(cfg, strict, moved));
  }

  /** Sending exchanges what was held of a layer for what is sent of it. */
  lemma {:induction false} FireExchange(cfg: Config, strict: bool, s: State, s': State, i: nat, sent: seq<seq<Wire>>)
    requires Inv(cfg, s) && FireStep(cfg, s, s', i, sent)
    ensures var d := s.tasks[i].dst; var buffer := s.mixes[d].buffer;
      && buffer != map[]
      && var key := MinKey(buffer.Keys);
      && 0 < key < cfg.layers
      && Sends(cfg, buffer[key], key, sent)
      && Potential(cfg, strict, s') + SlotSum(cfg, strict, d, buffer[key].batches, key)
         == Potential(cfg, strict, s) + TasksSum(cfg, strict, NewTasks(d, key, sent))
  {
    hide Inv, Sends, IsMiddleLayer, SlotSum, NewTasks, MixSum, MixesSum, TasksSum;
    InvShape(cfg, s);
    InvCore(cfg, s);
    FiresNext(cfg, s, s', i, sent);
    var t := s.tasks[i];
    var m, m' := s.mixes[t.dst], s'.mixes[t.dst];
    var key := MinKey(m.buffer.Keys);
    TakeOut(cfg, strict, t.dst, m, m', key);
    MixesUpdate(cfg, strict, s.mixes, t.dst, m');
    SentTasks(cfg, strict, s.tasks, i, t.(phase := Waiting(|s.tasks|, |s.tasks| + cfg.n)), NewTasks(t.dst, key, sent));
    FireAlgebra(MixesSum(cfg, strict, s'.mixes), MixesSum(cfg, strict, s.mixes), MixSum(cfg, strict, t.dst, m), MixSum(cfg, strict, t.dst, m'),
                SlotSum(cfg, strict, t.dst, m.buffer[key].batches, key), TasksSum(cfg, strict, s.tasks),
                TasksSum(cfg, strict, NewTasks(t.dst, key, sent)));
  }

  lemma FireAlgebra<T>(ms': multiset<T>, ms: multiset<T>, x: multiset<T>, x': multiset<T>, slot: multiset<T>, ts: multiset<T>, more: multiset<T>)
    requires ms' + x == ms + x' && x' + slot == x
    ensures (ms' + (ts + more)) + slot == (ms + ts) + more
  {
    assert (ms' + slot) + x' == ms' + (x' + slot);
    Cancel(ms' + slot, ms, x');
    assert (ms' + (ts + more)) + slot == (ms' + slot) + ts + more;
  }

  lemma Bounded<T>(p': multiset<T>, p: multiset<T>, held: multiset<T>, sent: multiset<T>)
    requires p' + held == p + sent
    ensures held <= sent ==> p <= p'
    ensures sent <= held ==> p' <= p
  {
    forall x ensures p'[x] + held[x] == p[x] + sent[x] {
      assert (p' + held)[x] == (p + sent)[x];
    }
  }

  lemma FirePotential(cfg: Config, strict: bool, s: State, s': State, i: nat, sent: seq<seq<Wire>>)
    requires Inv(cfg, s) && FireStep(cfg, s, s', i, sent)
    ensures strict ==> Potential(cfg, strict, s) <= Potential(cfg, strict, s')
    ensures !strict ==> Potential(cfg, strict, s') <= Potential(cfg, strict, s)
  {
    hide Inv, Potential, SlotSum, TasksSum, NewTasks, Kept, Shuffled, IsMiddleLayer;
    InvShape(cfg, s);
    FireExchange(cfg, strict, s, s', i, sent);
    var d := s.tasks[i].dst;
    var buffer := s.mixes[d].buffer;
    var key := MinKey(buffer.Keys);
    SentSlot(cfg, strict, d, buffer[key].batches, key, TotalOutgoing(buffer[key].batches), sent);
    Bounded(Potential(cfg, strict, s'), Potential(cfg, strict, s), SlotSum(cfg, strict, d, buffer[key].batches, key),
            TasksSum(cfg, strict, NewTasks(d, key, sent)));
  }

  // What is output of the last layer.

  lemma {:induction false} OutConcat(d: nat, a: seq<Wire>, b: seq<Wire>)
    ensures OutSum(d, a + b) == OutSum(d, a) + OutSum(d, b)
  {
    if b == [] {
      assert a + b == a;
    } else {
      assert (a + b)[..|a + b| - 1] == a + b[..|b| - 1];
      OutConcat(d, a, b[..|b| - 1]);
    }
  }

  lemma {:induction false} LastBatch(cfg: Config, strict: bool, d: nat, batch: seq<Held>, next: nat)
    requires ValidRound(cfg)
    ensures BatchSum(cfg, strict, d, batch, next, cfg.layers) == OutSum(d, Wires(batch))
  {
    if batch != [] {
      var n := |batch| - 1;
      LastBatch(cfg, strict, d, batch[..n], next);
      assert Wires(batch)[..n] == Wires(batch[..n]);
    }
  }

  lemma {:induction false} LastSlot(cfg: Config, strict: bool, d: nat, batches: seq<seq<Held>>)
    requires ValidRound(cfg)
    ensures SlotSum(cfg, strict, d, batches, cfg.layers) == OutSum(d, Wires(Flatten(batches)))
  {
    hide BatchSum, OutSum;
    if batches != [] {
      var n := |batches| - 1;
      LastSlot(cfg, strict, d, batches[..n]);
      LastBatch(cfg, strict, d, batches[n], n);
      assert Wires(Flatten(batches[..n]) + batches[n]) == Wires(Flatten(batches[..n])) + Wires(batches[n]);
      OutConcat(d, Wires(Flatten(batches[..n])), Wires(batches[n]));
    } else {
      NothingOut(d);
    }
  }

  lemma {:induction false} NothingOut(d: nat)
    ensures OutSum(d, Wires([])) == multiset{}
  {
  }

  lemma OutputPotential(cfg: Config, strict: bool, s: State, s': State, d: nat, messages: seq<Wire>)
    requires Inv(cfg, s) && OutputStep(cfg, s, s', d, messages)
    ensures Potential(cfg, strict, s') == Potential(cfg, strict, s)
  {
    hide Inv, SlotSum, BufferSum, StoredSum, OutSum, Flatten, TasksSum, Wires;
    InvShape(cfg, s);
    PermitsMeanComplete(cfg, s, d);
    var m, m' := s.mixes[d], s'.mixes[d];
    var key := MaxKey(m.buffer.Keys);
    assert key in {cfg.layers};
    BufferUpdate(cfg, strict, d, m.buffer, m'.buffer, key, cfg.layers);
    LastSlot(cfg, strict, d, m.buffer[key].batches);
    OutSumPermuted(d, messages, Wires(Flatten(m.buffer[key].batches)));
    MixesUpdate(cfg, strict, s.mixes, d, m');
    OutputAlgebra(MixesSum(cfg, strict, s'.mixes), MixesSum(cfg, strict, s.mixes), StoredSum(d, m.stored),
                  BufferSum(cfg, strict, d, m.buffer, cfg.layers), BufferSum(cfg, strict, d, m'.buffer, cfg.layers), OutSum(d, messages));
  }

  lemma OutputAlgebra<T>(ms': multiset<T>, ms: multiset<T>, stored: multiset<T>, b: multiset<T>, b': multiset<T>, out: multiset<T>)
    requires ms' + ((stored + multiset{}) + b) == ms + ((stored + out) + b') && b' + out == b
    ensures ms' == ms
  {
    assert (stored + out) + b' == (stored + multiset{}) + b;
    Cancel(ms', ms, (stored + multiset{}) + b);
  }

  // ---------- Runs ----------

  lemma StepPotential(cfg: Config, strict: bool, s: State, s': State)
    requires Inv(cfg, s) && Step(cfg, s, s')
    ensures strict ==> Potential(cfg, strict, s) <= Potential(cfg, strict, s')
    ensures !strict ==> Potential(cfg, strict, s') <= Potential(cfg, strict, s)
  {
    hide Inv, Potential, ParseStep, IdleStep, FireStep, ReplyStep, OutputStep;
    InvShape(cfg, s);
    if i :| ParseStep(cfg, s, s', i) {
      ParsePotential(cfg, strict, s, s', i);
    } else if i :| IdleStep(cfg, s, s', i) {
      IdlePotential(cfg, strict, s, s', i);
    } else if i, sent :| FireStep(cfg, s, s', i, sent) {
      FirePotential(cfg, strict, s, s', i, sent);
    } else if i :| ReplyStep(cfg, s, s', i) {
      ReplyPotential(cfg, strict, s, s', i);
    } else if d, messages :| OutputStep(cfg, s, s', d, messages) {
      OutputPotential(cfg, strict, s, s', d, messages);
    }
  }

  lemma {:induction false} RunPotential(cfg: Config, strict: bool, inits: seq<seq<Wire>>, states: seq<State>, i: nat)
    requires ValidRound(cfg) && |inits| == cfg.n && Run(cfg, inits, states) && i < |states|
    ensures strict ==> Potential(cfg, strict, states[0]) <= Potential(cfg, strict, states[i])
    ensures !strict ==> Potential(cfg, strict, states[i]) <= Potential(cfg, strict, states[0])
  {
    hide Inv, Step, Shape, Init, Potential;
    if i > 0 {
      RunPotential(cfg, strict, inits, states, i - 1);
      RunInv(cfg, inits, states, i - 1);
      assert StepAt(cfg, states, i - 1);
      StepPotential(cfg, strict, states[i - 1], states[i]);
    }
  }

  /** What peeling each injected packet alone gives. */
  function Injected(cfg: Config, strict: bool, inits: seq<seq<Wire>>, n: nat): multiset<Outcome>
    requires ValidRound(cfg) && n <= |inits|
  {
    if n == 0 then multiset{} else Injected(cfg, strict, inits, n - 1) + PacketSum(cfg, strict, n - 1, inits[n - 1], 0)
  }

  lemma {:induction false} InitTasksSum(cfg: Config, strict: bool, inits: seq<seq<Wire>>, n: nat)
    requires ValidRound(cfg) && n <= |inits|
    ensures TasksSum(cfg, strict, InitTasks(inits, n)) == Injected(cfg, strict, inits, n)
  {
    hide PacketSum;
    if n > 0 {
      assert InitTasks(inits, n)[..n - 1] == InitTasks(inits, n - 1);
      InitTasksSum(cfg, strict, inits, n - 1);
    }
  }

  lemma {:induction false} EmptyBuffer(cfg: Config, strict: bool, d: nat, k: nat)
    requires ValidRound(cfg) && k <= cfg.layers
    ensures BufferSum(cfg, strict, d, map[], k) == multiset{}
  {
    if k > 0 {
      EmptyBuffer(cfg, strict, d, k - 1);
    }
  }

  /** What the mixes have stored and output. */
  function Outcomes(mixes: seq<Mix>): multiset<Outcome> {
    if mixes == [] then multiset{} else Outcomes(mixes[..|mixes| - 1]) + MixDone(|mixes| - 1, mixes[|mixes| - 1])
  }

  lemma {:induction false} QuietMixes(cfg: Config, strict: bool, mixes: seq<Mix>)
    requires ValidRound(cfg) && forall d :: 0 <= d < |mixes| ==> mixes[d].buffer == map[]
    ensures MixesSum(cfg, strict, mixes) == Outcomes(mixes)
  {
    hide MixDone, BufferSum;
    if mixes != [] {
      var n := |mixes| - 1;
      QuietMixes(cfg, strict, mixes[..n]);
      EmptyBuffer(cfg, strict, n, cfg.layers);
    }
  }

  lemma {:induction false} FreshMixes(mixes: seq<Mix>)
    requires forall d :: 0 <= d < |mixes| ==> mixes[d].stored == [] && mixes[d].out.None?
    ensures Outcomes(mixes) == multiset{}
  {
    if mixes != [] {
      FreshMixes(mixes[..|mixes| - 1]);
    }
  }

  lemma {:induction false} NoneInFlight(cfg: Config, strict: bool, tasks: seq<Task>)
    requires ValidRound(cfg) && forall i :: 0 <= i < |tasks| ==> !tasks[i].phase.InFlight?
    ensures TasksSum(cfg, strict, tasks) == multiset{}
  {
    if tasks != [] {
      NoneInFlight(cfg, strict, tasks[..|tasks| - 1]);
    }
  }

  lemma {:induction false} InitPotential(cfg: Config, strict: bool, inits: seq<seq<Wire>>)
    requires ValidRound(cfg) && |inits| == cfg.n
    ensures Potential(cfg, strict, Init(cfg, inits)) == Injected(cfg, strict, inits, cfg.n)
  {
    hide MixesSum, TasksSum, Outcomes;
    var s := Init(cfg, inits);
    assert s.tasks == InitTasks(inits, cfg.n);
    InitTasksSum(cfg, strict, inits, cfg.n);
    QuietMixes(cfg, strict, s.mixes);
    FreshMixes(s.mixes);
  }

  lemma CompletePotential(cfg: Config, strict: bool, s: State)
    requires ValidRound(cfg) && Complete(cfg, s)
    ensures Potential(cfg, strict, s) == Outcomes(s.mixes)
  {
    hide MixesSum, TasksSum, Outcomes;
    QuietMixes(cfg, strict, s.mixes);
    NoneInFlight(cfg, strict, s.tasks);
  }

  /** The refinement: in every interleaving, a completed round has stored and output at least what the
      injected packets that pass every check give when each is peeled alone, and at most what all of
      them give. */
  lemma {:induction false} RoundRefinement(cfg: Config, inits: seq<seq<Wire>>, states: seq<State>)
    requires ValidRound(cfg) && |inits| == cfg.n && Run(cfg, inits, states) && Complete(cfg, states[|states| - 1])
    ensures Injected(cfg, true, inits, cfg.n) <= Outcomes(states[|states| - 1].mixes) <= Injected(cfg, false, inits, cfg.n)
  {
    hide Step, Shape, Init, Potential, Complete, Outcomes, Injected;
    var i := |states| - 1;
    RunPotential(cfg, true, inits, states, i);
    RunPotential(cfg, false, inits, states, i);
    InitPotential(cfg, true, inits);
    InitPotential(cfg, false, inits);
    CompletePotential(cfg, true, states[i]);
    CompletePotential(cfg, false, states[i]);
  }

  lemma {:induction false} UncheckedPath(cfg: Config, d: nat, w: Wire, j: nat)
    requires ValidRound(cfg) && j < cfg.layers && !cfg.traffic.checked
    ensures Path(cfg, true, d, w, j) == Path(cfg, false, d, w, j)
    decreases cfg.layers - j
  {
    match cfg.traffic.peel(d, w, j)
    case Ok(Some(p)) =>
      if j + 1 < cfg.layers {
        UncheckedPath(cfg, p.next, WireOf(p.held), j + 1);
      }
    case _ =>
  }

  lemma {:induction false} SamePackets(cfg: Config, d: nat, ws: seq<Wire>, j: nat)
    requires ValidRound(cfg) && j < cfg.layers
    requires forall i :: 0 <= i < |ws| ==> Path(cfg, true, d, ws[i], j) == Path(cfg, false, d, ws[i], j)
    ensures PacketSum(cfg, true, d, ws, j) == PacketSum(cfg, false, d, ws, j)
  {
    hide Path;
    if ws != [] {
      SamePackets(cfg, d, ws[..|ws| - 1], j);
    }
  }

  /** No packet is ever dropped by a check of a large batch. */
  ghost predicate AllPass(cfg: Config, inits: seq<seq<Wire>>)
    requires ValidRound(cfg)
  {
    forall d, i :: 0 <= d < |inits| && 0 <= i < |inits[d]| ==> Path(cfg, true, d, inits[d][i], 0) == Path(cfg, false, d, inits[d][i], 0)
  }

  lemma {:induction false} SameInjected(cfg: Config, inits: seq<seq<Wire>>, n: nat)
    requires ValidRound(cfg) && n <= |inits| && AllPass(cfg, inits)
    ensures Injected(cfg, true, inits, n) == Injected(cfg, false, inits, n)
  {
    hide Path, PacketSum;
    if n > 0 {
      SameInjected(cfg, inits, n - 1);
      SamePackets(cfg, n - 1, inits[n - 1], 0);
    }
  }

  /** Where large batches are not checked, or every packet passes the checks, every interleaving gives
      exactly what peeling each packet alone gives. */
  lemma {:induction false} RoundExact(cfg: Config, inits: seq<seq<Wire>>, states: seq<State>)
    requires ValidRound(cfg) && |inits| == cfg.n && Run(cfg, inits, states) && Complete(cfg, states[|states| - 1])
    requires !cfg.traffic.checked || AllPass(cfg, inits)
    ensures Outcomes(states[|states| - 1].mixes) == Injected(cfg, false, inits, cfg.n)
  {
    hide Run, Complete, Outcomes, Path, Injected;
    RoundRefinement(cfg, inits, states);
    if !cfg.traffic.checked {
      forall d, i | 0 <= d < |inits| && 0 <= i < |inits[d]|
        ensures Path(cfg, true, d, inits[d][i], 0) == Path(cfg, false, d, inits[d][i], 0)
      {
        UncheckedPath(cfg, d, inits[d][i], 0);
      }
    }
    SameInjected(cfg, inits, cfg.n);
  }
}
