/** A round can be completed, from any point of any run, exactly if no handler panics in lock step; then
    no run gets stuck, and every run ends after one and the same number of steps. */
module MixProgress {
  import opened Results
  import opened Network
  import opened MixServer
  import opened MixRound
  import opened MixSafety
  import opened MixLockstep
  import opened MixInStep

  // ---------- What reachable states are like ----------

  /** In every state of every run: each mix has sent the layers 1, 2, ... in order and once each, no
      two mixes are more than a layer apart, and a layer beyond the first was sent only after a
      request from every mix for the layer before it had been parsed. */
  lemma RoundSafety(cfg: Config, inits: seq<seq<Wire>>, states: seq<State>, i: nat, d: nat, m: nat)
    requires ValidRound(cfg) && |inits| == cfg.n && Run(cfg, inits, states) && i < |states| && d < cfg.n && m < cfg.n
    ensures |states[i].mixes| == cfg.n
    ensures var mine, other := states[i].mixes[d].fired, states[i].mixes[m].fired;
      && |mine| < cfg.layers && (forall k :: 0 <= k < |mine| ==> mine[k] == k + 1)
      && |other| - 1 <= |mine| <= |other| + 1
      && forall k :: k in mine && k > 1 ==>
           exists t :: 0 <= t < |states[i].tasks| && Matches(From(m, d, k - 1), states[i].tasks[t])
                       && !states[i].tasks[t].phase.InFlight?
  {
    hide Run, Step, Awake, Permits, Buffered, Behind, SentFrom, Sent;
    RunInv(cfg, inits, states, i);
    var s := states[i];
    assert InOrder(cfg, s.mixes[d]);
    BoundedSkew(cfg, s, d, m);
    forall k | k in s.mixes[d].fired && k > 1
      ensures exists t :: 0 <= t < |s.tasks| && Matches(From(m, d, k - 1), s.tasks[t]) && !s.tasks[t].phase.InFlight?
    {
      LayerBarrier(cfg, s, d, k, m);
    }
  }

  // ---------- No stuck state ----------

  ghost predicate CanStep(cfg: Config, s: State)
    requires ValidRound(cfg) && Shape(cfg, s)
  {
    exists s' :: Step(cfg, s, s')
  }

  lemma CanParse(cfg: Config, s: State, i: nat)
    requires Inv(cfg, s) && i < |s.tasks| && s.tasks[i].phase.InFlight?
    requires Parses(cfg, s.tasks[i].dst, s.tasks[i].packets, s.tasks[i].layer)
    ensures CanStep(cfg, s)
  {
    hide Parses, Awake, Permits, Buffered, Behind, SentFrom, Sent, AllInOrder;
    assert TaskShape(cfg, s, i);
    var t := s.tasks[i];
    assert WellFormed(cfg, s.mixes[t.dst].buffer);
    var m, peeled := s.mixes[t.dst], DecryptIncoming(cfg, t.dst, t.packets, t.layer);
    var s' := State(s.mixes[t.dst := m.(buffer := ParseInto(cfg, m.buffer, t.layer, peeled), stored := m.stored + Conns(peeled))],
                    s.tasks[i := t.(phase := Parsed)]);
    assert ParseStep(cfg, s, s', i);
    assert Step(cfg, s, s');
  }

  lemma CanSend(cfg: Config, slot: Slot, key: nat)
    requires cfg.n >= 1 && key >= 1 && Sendable(cfg, slot.batches, key)
    ensures exists sent :: Sends(cfg, slot, key, sent)
  {
    hide Kept, TotalOutgoing, Sendable;
    var sent := seq(|slot.batches|, i requires 0 <= i < |slot.batches| =>
      Wires(Kept(cfg, slot.batches[i], key, TotalOutgoing(slot.batches))));
    assert Sends(cfg, slot, key, sent);
  }

  lemma CanCheck(cfg: Config, s: State, i: nat)
    requires Inv(cfg, s) && i < |s.tasks| && s.tasks[i].phase.Parsed? && s.tasks[i].dst < cfg.n
    requires NextComplete(cfg, s, s.tasks[i].dst) ==>
      var m := s.mixes[s.tasks[i].dst];
      |m.fired| + 1 in m.buffer && Sendable(cfg, m.buffer[|m.fired| + 1].batches, |m.fired| + 1)
    ensures CanStep(cfg, s)
  {
    hide Awake, Permits, Buffered, Behind, SentFrom, Sent, AllInOrder, Sends, IsMiddleLayer, NextComplete, Sendable;
    assert TaskShape(cfg, s, i);
    var t := s.tasks[i];
    var m := s.mixes[t.dst];
    ReadyMeans(cfg, s, t.dst);
    if IsMiddleLayer(cfg, m.buffer) {
      NotEmpty(cfg, m.buffer);
      assert WellFormed(cfg, m.buffer);
      var key := MinKey(m.buffer.Keys);
      CanSend(cfg, m.buffer[key], key);
      var sent :| Sends(cfg, m.buffer[key], key, sent);
      var s' := State(s.mixes[t.dst := m.(buffer := Without(m.buffer, key), fired := m.fired + [key])],
                      s.tasks[i := t.(phase := Waiting(|s.tasks|, |s.tasks| + cfg.n))] + NewTasks(t.dst, key, sent));
      assert FireStep(cfg, s, s', i, sent);
      assert Step(cfg, s, s');
    } else {
      var s' := s.(tasks := s.tasks[i := t.(phase := Waiting(|s.tasks|, |s.tasks|))]);
      assert IdleStep(cfg, s, s', i);
      assert Step(cfg, s, s');
    }
  }

  lemma NotEmpty(cfg: Config, buffer: Buffer)
    requires cfg.n >= 1 && IsMiddleLayer(cfg, buffer)
    ensures buffer != map[]
  {
  }

  /** Handlers wait only for requests sent after their own, so among those that wait the one with the
      latest request has all its answers. */
  lemma CanReply(cfg: Config, s: State, i: nat)
    requires Inv(cfg, s) && i < |s.tasks| && s.tasks[i].phase.Waiting?
    requires forall k :: 0 <= k < |s.tasks| ==> !s.tasks[k].phase.InFlight? && !s.tasks[k].phase.Parsed?
    ensures CanStep(cfg, s)
    decreases |s.tasks| - i
  {
    hide Awake, Permits, Buffered, Behind, SentFrom, Sent, AllInOrder;
    assert TaskShape(cfg, s, i);
    var t := s.tasks[i];
    if c :| t.phase.lo <= c < t.phase.hi && !s.tasks[c].phase.Replied? {
      CanReply(cfg, s, c);
    } else {
      var m := s.mixes[t.dst];
      var s' := State(s.mixes[t.dst := m.(permits := m.permits + 1)], s.tasks[i := t.(phase := Replied)]);
      assert ReplyStep(cfg, s, s', i);
      assert Step(cfg, s, s');
    }
  }

  lemma CanOutput(cfg: Config, s: State, d: nat)
    requires Inv(cfg, s) && d < cfg.n && s.mixes[d].out.None? && s.mixes[d].permits >= Quota(cfg)
    ensures CanStep(cfg, s)
  {
    hide Awake, Permits, Buffered, Behind, SentFrom, Sent, AllInOrder, Flatten;
    PermitsMeanComplete(cfg, s, d);
    var m := s.mixes[d];
    var key := MaxKey(m.buffer.Keys);
    var messages := Wires(Flatten(m.buffer[key].batches));
    var s' := s.(mixes := s.mixes[d := m.(buffer := Without(m.buffer, key), permits := m.permits - Quota(cfg), out := Some(messages))]);
    assert OutputStep(cfg, s, s', d, messages);
    assert Step(cfg, s, s');
  }

  lemma {:induction false} AllRepliedCounts(tasks: seq<Task>, d: nat, j: nat)
    requires forall i :: 0 <= i < |tasks| ==> tasks[i].phase.Replied?
    ensures Count(tasks, ParsedTo(d, j)) == Count(tasks, To(d, j))
    ensures Count(tasks, RepliedTo(d)) == Count(tasks, AnyTo(d))
    ensures Count(tasks, UncheckedAt(d)) == 0
  {
    if tasks != [] {
      AllRepliedCounts(tasks[..|tasks| - 1], d, j);
    }
  }

  /** The least number of layers any mix has sent. */
  lemma {:induction false} Slowest(mixes: seq<Mix>) returns (d: nat)
    requires mixes != []
    ensures d < |mixes| && forall m :: 0 <= m < |mixes| ==> |mixes[d].fired| <= |mixes[m].fired|
  {
    var n := |mixes| - 1;
    if n == 0 {
      d := 0;
    } else {
      d := Slowest(mixes[..n]);
      if |mixes[n].fired| < |mixes[d].fired| {
        d := n;
      }
    }
  }

  /** With every request answered, the slowest mix has everything for its next layer, and no handler
      is left that would have to notice: so there is no next layer. */
  lemma AllFired(cfg: Config, s: State)
    requires Inv(cfg, s) && forall i :: 0 <= i < |s.tasks| ==> s.tasks[i].phase.Replied?
    ensures forall d :: 0 <= d < cfg.n ==> |s.mixes[d].fired| == cfg.layers - 1
  {
    hide Count, Buffered, Behind, SentFrom, IsMiddleLayer, Past, TotalFired, WellFormed, TaskShape;
    var d := Slowest(s.mixes);
    var f := |s.mixes[d].fired|;
    assert InOrder(cfg, s.mixes[d]) && SentTo(cfg, s, d);
    AllRepliedCounts(s.tasks, d, f);
    PastBound(s.mixes, f);
    assert Count(s.tasks, ParsedTo(d, f)) == Full(cfg, f);
    ReadyMeans(cfg, s, d);
    assert f == cfg.layers - 1;
    forall m | 0 <= m < cfg.n ensures |s.mixes[m].fired| == cfg.layers - 1 {
      assert InOrder(cfg, s.mixes[m]);
    }
  }

  /** A mix has its permits once everything is answered, and nothing left once it has output. */
  lemma AllAnswered(cfg: Config, s: State, d: nat)
    requires Inv(cfg, s) && d < cfg.n && forall i :: 0 <= i < |s.tasks| ==> s.tasks[i].phase.Replied?
    ensures if s.mixes[d].out.Some? then s.mixes[d].permits == 0 && s.mixes[d].buffer == map[]
            else s.mixes[d].permits == Quota(cfg)
  {
    hide Count, Buffered, Behind, SentFrom, IsMiddleLayer, Past, Awake;
    AllFired(cfg, s);
    TotalBound(s.mixes, cfg.layers - 1);
    AllRepliedCounts(s.tasks, d, 0);
    assert SentTo(cfg, s, d);
    if s.mixes[d].out.Some? {
      KeysAbove(cfg, s, d);
      assert s.mixes[d].buffer.Keys == {};
    }
  }

  /** No stuck run: where no handler panics in lock step, a state of a round in which no step is possible
      is a completed round. */
  lemma NoStuckState(cfg: Config, inits: seq<seq<Wire>>, s: State)
    requires Inv(cfg, s) && |inits| == cfg.n && InStep(cfg, inits, s) && Clean(cfg, inits)
    ensures Shape(cfg, s)
    ensures CanStep(cfg, s) || Complete(cfg, s)
  {
    hide Inv, Shape, Step, CanStep, InStep, Clean, Parses, NextComplete, Sendable;
    InvShape(cfg, s);
    InvCore(cfg, s);
    if i :| 0 <= i < |s.tasks| && s.tasks[i].phase.InFlight? {
      CleanParses(cfg, inits, s, i);
      CanParse(cfg, s, i);
    } else if i :| 0 <= i < |s.tasks| && s.tasks[i].phase.Parsed? {
      TaskInRange(cfg, s, i);
      if NextComplete(cfg, s, s.tasks[i].dst) {
        CleanSends(cfg, inits, s, s.tasks[i].dst);
      }
      CanCheck(cfg, s, i);
    } else if i :| 0 <= i < |s.tasks| && s.tasks[i].phase.Waiting? {
      CanReply(cfg, s, i);
    } else {
      Finished(cfg, s);
    }
  }

  lemma TaskInRange(cfg: Config, s: State, i: nat)
    requires Shape(cfg, s) && i < |s.tasks|
    ensures s.tasks[i].dst < cfg.n
  {
    assert TaskShape(cfg, s, i);
  }

  lemma Finished(cfg: Config, s: State)
    requires Inv(cfg, s) && Shape(cfg, s) && forall i :: 0 <= i < |s.tasks| ==> s.tasks[i].phase.Replied?
    ensures CanStep(cfg, s) || Complete(cfg, s)
  {
    hide Inv, CanStep;
    InvShape(cfg, s);
    AllFired(cfg, s);
    if d :| 0 <= d < cfg.n && s.mixes[d].out.None? {
      AllAnswered(cfg, s, d);
      CanOutput(cfg, s, d);
    } else {
      forall d | 0 <= d < cfg.n ensures s.mixes[d].buffer == map[] && s.mixes[d].permits == 0 {
        AllAnswered(cfg, s, d);
      }
    }
  }

  // ---------- Every run ends ----------

  function Weight(t: Task): nat {
    match t.phase
    case InFlight => 3
    case Parsed => 2
    case Waiting(_, _) => 1
    case Replied => 0
  }

  function TaskWork(tasks: seq<Task>): nat {
    if tasks == [] then 0 else TaskWork(tasks[..|tasks| - 1]) + Weight(tasks[|tasks| - 1])
  }

  function ToOutput(mixes: seq<Mix>): nat {
    if mixes == [] then 0 else ToOutput(mixes[..|mixes| - 1]) + One(mixes[|mixes| - 1].out.None?)
  }

  /** The steps left: three for each request sent, three for each request yet to be sent, one for each
      output. */
  function Work(cfg: Config, s: State): int
    requires cfg.layers >= 1
  {
    TaskWork(s.tasks) + 3 * cfg.n * (cfg.n * (cfg.layers - 1) - TotalFired(s.mixes)) + ToOutput(s.mixes)
  }

  lemma {:induction false} TaskWorkUpdate(tasks: seq<Task>, i: nat, t: Task)
    requires i < |tasks|
    ensures TaskWork(tasks[i := t]) == TaskWork(tasks) - Weight(tasks[i]) + Weight(t)
  {
    var n := |tasks| - 1;
    if i < n {
      assert tasks[i := t][..n] == tasks[..n][i := t];
      TaskWorkUpdate(tasks[..n], i, t);
    } else {
      assert tasks[i := t][..n] == tasks[..n];
    }
  }

  lemma {:induction false} TaskWorkNew(tasks: seq<Task>, src: nat, layer: nat, sent: seq<seq<Wire>>)
    ensures TaskWork(tasks + NewTasks(src, layer, sent)) == TaskWork(tasks) + 3 * |sent|
  {
    if sent == [] {
      assert tasks + NewTasks(src, layer, sent) == tasks;
    } else {
      var n := |sent| - 1;
      var all := tasks + NewTasks(src, layer, sent);
      assert all[..|all| - 1] == tasks + NewTasks(src, layer, sent[..n]);
      TaskWorkNew(tasks, src, layer, sent[..n]);
    }
  }

  lemma {:induction false} MixUpdate(mixes: seq<Mix>, d: nat, m: Mix)
    requires d < |mixes|
    ensures ToOutput(mixes[d := m]) == ToOutput(mixes) - One(mixes[d].out.None?) + One(m.out.None?)
  {
    var n := |mixes| - 1;
    if d < n {
      assert mixes[d := m][..n] == mixes[..n][d := m];
      MixUpdate(mixes[..n], d, m);
    } else {
      assert mixes[d := m][..n] == mixes[..n];
    }
  }

  /** One mix and one request change: what that does to the work left. */
  lemma WorkUpdate(cfg: Config, s: State, s': State, d: nat, m: Mix, i: nat, t: Task)
    requires cfg.layers >= 1 && d < |s.mixes| && i < |s.tasks|
    requires s' == State(s.mixes[d := m], s.tasks[i := t])
    requires m.fired == s.mixes[d].fired && m.out == s.mixes[d].out
    ensures Work(cfg, s') == Work(cfg, s) - Weight(s.tasks[i]) + Weight(t)
  {
    TaskWorkUpdate(s.tasks, i, t);
    PastUpdate(s.mixes, d, m, 0);
    MixUpdate(s.mixes, d, m);
  }

  lemma ParseWork(cfg: Config, s: State, s': State, i: nat)
    requires Inv(cfg, s) && ParseStep(cfg, s, s', i)
    ensures Work(cfg, s') == Work(cfg, s) - 1
  {
    hide Inv, Work, ParseInto, DecryptIncoming, Conns;
    InvShape(cfg, s);
    var t := s.tasks[i];
    WorkUpdate(cfg, s, s', t.dst, s'.mixes[t.dst], i, t.(phase := Parsed));
  }

  lemma IdleWork(cfg: Config, s: State, s': State, i: nat)
    requires Inv(cfg, s) && IdleStep(cfg, s, s', i)
    ensures Work(cfg, s') == Work(cfg, s) - 1
  {
    hide Inv, Work, IsMiddleLayer;
    InvShape(cfg, s);
    var t := s.tasks[i];
    assert s.mixes == s.mixes[t.dst := s.mixes[t.dst]];
    WorkUpdate(cfg, s, s', t.dst, s.mixes[t.dst], i, t.(phase := Waiting(|s.tasks|, |s.tasks|)));
  }

  lemma ReplyWork(cfg: Config, s: State, s': State, i: nat)
    requires Inv(cfg, s) && ReplyStep(cfg, s, s', i)
    ensures Work(cfg, s') == Work(cfg, s) - 1
  {
    hide Inv, Work;
    InvShape(cfg, s);
    var t := s.tasks[i];
    WorkUpdate(cfg, s, s', t.dst, s'.mixes[t.dst], i, t.(phase := Replied));
  }

  lemma FireWork(cfg: Config, s: State, s': State, i: nat, sent: seq<seq<Wire>>)
    requires Inv(cfg, s) && FireStep(cfg, s, s', i, sent)
    ensures Work(cfg, s') == Work(cfg, s) - 1
  {
    hide Inv, Core, Shape, IsMiddleLayer, Sends, NewTasks, TotalFired, TaskWork, ToOutput, WellFormed;
    InvShape(cfg, s);
    var t := s.tasks[i];
    var m := s.mixes[t.dst];
    InvCore(cfg, s);
    FireCounts(cfg, s, s', i, sent, AnyTo(0));
    var key := MinKey(m.buffer.Keys);
    var moved := t.(phase := Waiting(|s.tasks|, |s.tasks| + cfg.n));
    TaskWorkUpdate(s.tasks, i, moved);
    TaskWorkNew(s.tasks[i := moved], t.dst, key, sent);
    var m' := m.(buffer := Without(m.buffer, key), fired := m.fired + [key]);
    PastUpdate(s.mixes, t.dst, m', 0);
    MixUpdate(s.mixes, t.dst, m');
    OneLayerLess(3 * cfg.n, cfg.n * (cfg.layers - 1), TotalFired(s.mixes));
  }

  lemma OneLayerLess(a: int, b: int, f: int)
    ensures a * (b - (f + 1)) == a * (b - f) - a
  {
  }

  lemma OutputWork(cfg: Config, s: State, s': State, d: nat, messages: seq<Wire>)
    requires Inv(cfg, s) && OutputStep(cfg, s, s', d, messages)
    ensures Work(cfg, s') == Work(cfg, s) - 1
  {
    hide Inv, Shuffled, Flatten;
    InvShape(cfg, s);
    PastUpdate(s.mixes, d, s'.mixes[d], 0);
    MixUpdate(s.mixes, d, s'.mixes[d]);
  }

  lemma StepWork(cfg: Config, s: State, s': State)
    requires Inv(cfg, s) && Step(cfg, s, s')
    ensures Work(cfg, s') == Work(cfg, s) - 1
  {
    hide Inv, Work, ParseStep, IdleStep, FireStep, ReplyStep, OutputStep;
    InvShape(cfg, s);
    if i :| ParseStep(cfg, s, s', i) {
      ParseWork(cfg, s, s', i);
    } else if i :| IdleStep(cfg, s, s', i) {
      IdleWork(cfg, s, s', i);
    } else if i, sent :| FireStep(cfg, s, s', i, sent) {
      FireWork(cfg, s, s', i, sent);
    } else if i :| ReplyStep(cfg, s, s', i) {
      ReplyWork(cfg, s, s', i);
    } else if d, messages :| OutputStep(cfg, s, s', d, messages) {
      OutputWork(cfg, s, s', d, messages);
    }
  }

  lemma WorkNotNegative(cfg: Config, s: State)
    requires Inv(cfg, s)
    ensures Work(cfg, s) >= 0
  {
    hide Inv, TotalFired, TaskWork, ToOutput;
    InvCore(cfg, s);
    FiredBound(cfg, s);
    var left := cfg.n * (cfg.layers - 1) - TotalFired(s.mixes);
    NotNegative(3 * cfg.n, left);
  }

  lemma FiredBound(cfg: Config, s: State)
    requires Core(cfg, s)
    ensures TotalFired(s.mixes) <= cfg.n * (cfg.layers - 1)
  {
    hide Count, Sent, Behind, Buffered, TaskShape, WellFormed;
    forall m | 0 <= m < cfg.n ensures |s.mixes[m].fired| <= cfg.layers - 1 {
      assert InOrder(cfg, s.mixes[m]);
    }
    TotalBound(s.mixes, cfg.layers - 1);
  }

  lemma NotNegative(a: int, b: int)
    requires a >= 0 && b >= 0
    ensures a * b >= 0
  {
  }

  lemma {:induction false} AllWorkDone(tasks: seq<Task>)
    ensures TaskWork(tasks) == 0 <==> forall i :: 0 <= i < |tasks| ==> tasks[i].phase.Replied?
  {
    if tasks != [] {
      AllWorkDone(tasks[..|tasks| - 1]);
    }
  }

  lemma {:induction false} AllOutput(mixes: seq<Mix>)
    requires forall d :: 0 <= d < |mixes| ==> mixes[d].out.Some?
    ensures ToOutput(mixes) == 0
  {
    if mixes != [] {
      AllOutput(mixes[..|mixes| - 1]);
    }
  }

  lemma CompleteWork(cfg: Config, s: State)
    requires Inv(cfg, s) && Complete(cfg, s)
    ensures Work(cfg, s) == 0
  {
    hide Inv, TotalFired, TaskWork, ToOutput;
    InvShape(cfg, s);
    AllWorkDone(s.tasks);
    AllOutput(s.mixes);
    TotalBound(s.mixes, cfg.layers - 1);
  }

  /** The number of steps of a round: three for each of its n + n * n * (layers - 1) requests, and one
      output for each mix. */
  function RoundLength(cfg: Config): nat
    requires cfg.layers >= 1
  {
    3 * cfg.n + 3 * cfg.n * (cfg.n * (cfg.layers - 1)) + cfg.n
  }

  lemma {:induction false} InitTaskWork(inits: seq<seq<Wire>>, n: nat)
    requires n <= |inits|
    ensures TaskWork(InitTasks(inits, n)) == 3 * n
  {
    if n > 0 {
      assert InitTasks(inits, n)[..n - 1] == InitTasks(inits, n - 1);
      InitTaskWork(inits, n - 1);
    }
  }

  lemma {:induction false} NoneOutput(mixes: seq<Mix>)
    requires forall d :: 0 <= d < |mixes| ==> mixes[d].out.None?
    ensures ToOutput(mixes) == |mixes|
  {
    if mixes != [] {
      NoneOutput(mixes[..|mixes| - 1]);
    }
  }

  lemma InitWork(cfg: Config, inits: seq<seq<Wire>>)
    requires ValidRound(cfg) && |inits| == cfg.n
    ensures Work(cfg, Init(cfg, inits)) == RoundLength(cfg)
  {
    hide TaskWork, ToOutput, TotalFired;
    var s := Init(cfg, inits);
    assert s.tasks == InitTasks(inits, cfg.n);
    InitTaskWork(inits, cfg.n);
    NoneOutput(s.mixes);
    NothingFired(s.mixes, 0);
  }

  lemma {:induction false} RunWork(cfg: Config, inits: seq<seq<Wire>>, states: seq<State>, i: nat)
    requires ValidRound(cfg) && |inits| == cfg.n && Run(cfg, inits, states) && i < |states|
    ensures Inv(cfg, states[i]) && Work(cfg, states[i]) == RoundLength(cfg) - i
  {
    hide Inv, Step, Shape, Init, Work, RoundLength;
    RunInv(cfg, inits, states, i);
    if i == 0 {
      InitWork(cfg, inits);
    } else {
      RunWork(cfg, inits, states, i - 1);
      assert StepAt(cfg, states, i - 1);
      StepWork(cfg, states[i - 1], states[i]);
    }
  }

  /** Every run ends: a run has at most `RoundLength` steps, and the round is complete exactly after that
      many. */
  lemma RunsEnd(cfg: Config, inits: seq<seq<Wire>>, states: seq<State>)
    requires ValidRound(cfg) && |inits| == cfg.n && Run(cfg, inits, states)
    ensures |states| - 1 <= RoundLength(cfg)
    ensures var last := states[|states| - 1];
      && Shape(cfg, last)
      && (CanStep(cfg, last) ==> |states| - 1 < RoundLength(cfg))
      && (Complete(cfg, last) ==> |states| - 1 == RoundLength(cfg))
  {
    hide Inv, Step, Shape, Init, Work, RoundLength, Complete;
    var last := states[|states| - 1];
    RunWork(cfg, inits, states, |states| - 1);
    InvShape(cfg, last);
    WorkNotNegative(cfg, last);
    if CanStep(cfg, last) {
      var s' :| Step(cfg, last, s');
      StepWork(cfg, last, s');
      StepPreserves(cfg, last, s');
      WorkNotNegative(cfg, s');
    }
    if Complete(cfg, last) {
      CompleteWork(cfg, last);
    }
  }

  /** None ends early where lock step is clean: a run can go on until it has made all its steps, and then
      the round is complete. */
  lemma RunsGoOn(cfg: Config, inits: seq<seq<Wire>>, states: seq<State>)
    requires ValidRound(cfg) && |inits| == cfg.n && Run(cfg, inits, states) && Clean(cfg, inits)
    ensures var last := states[|states| - 1];
      && Shape(cfg, last)
      && (CanStep(cfg, last) <==> |states| - 1 < RoundLength(cfg))
      && (Complete(cfg, last) <==> |states| - 1 == RoundLength(cfg))
  {
    hide Step, Shape, Init, StepAt, RoundLength, Complete, CanStep, Inv, InStep, Clean;
    RunsEnd(cfg, inits, states);
    RunInv(cfg, inits, states, |states| - 1);
    RunInStep(cfg, inits, states, |states| - 1);
    NoStuckState(cfg, inits, states[|states| - 1]);
  }

  /** Where lock step is clean, the round can be completed from any point of any run, whatever happened
      before. */
  lemma {:induction false} CanComplete(cfg: Config, inits: seq<seq<Wire>>, states: seq<State>) returns (whole: seq<State>)
    requires ValidRound(cfg) && |inits| == cfg.n && Run(cfg, inits, states) && Clean(cfg, inits)
    ensures Run(cfg, inits, whole) && states <= whole && |whole| == RoundLength(cfg) + 1
    ensures Complete(cfg, whole[|whole| - 1])
    decreases RoundLength(cfg) + 1 - |states|
  {
    hide Step, Shape, Init, RoundLength, Complete, StepAt, Clean;
    RunsEnd(cfg, inits, states);
    RunsGoOn(cfg, inits, states);
    whole := states;
    var last := states[|states| - 1];
    if |states| - 1 < RoundLength(cfg) {
      var s' :| Step(cfg, last, s');
      Extend(cfg, inits, states, s');
      whole := CanComplete(cfg, inits, states + [s']);
    }
  }

  lemma Extend(cfg: Config, inits: seq<seq<Wire>>, states: seq<State>, s': State)
    requires ValidRound(cfg) && |inits| == cfg.n && Run(cfg, inits, states)
    requires Shape(cfg, states[|states| - 1]) && Step(cfg, states[|states| - 1], s')
    ensures Run(cfg, inits, states + [s'])
  {
    hide Step, Shape, Init;
    var more := states + [s'];
    forall i | 0 <= i < |more| - 1 ensures StepAt(cfg, more, i) {
      if i < |states| - 1 {
        assert StepAt(cfg, states, i);
      }
    }
  }
}
