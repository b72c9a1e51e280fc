/** Rounds of any number of layers: which of them can be completed. With one layer none can: every mix
    sends that layer on as if it were a middle one. */
module MixOneLayer {
  import opened Network
  import opened MixServer
  import opened MixRound
  import opened MixSafety
  import opened MixLockstep
  import opened MixInStep
  import opened MixProgress

  /** With one layer: a mix that has sent nothing has not checked its initial request, whose packets, once
      parsed, are still in the buffer; another request it has parsed, if it has output nothing, is buffered
      above them. */
  ghost predicate Unsent(s: State, d: nat)
    requires d < |s.mixes|
  {
    var m := s.mixes[d];
    && d < |s.tasks| && s.tasks[d].dst == d && s.tasks[d].layer == 0
    && ((s.tasks[d].phase.InFlight? && 1 !in m.buffer) || (s.tasks[d].phase.Parsed? && 1 in m.buffer && m.buffer[1].counter == 1))
    && ((m.out.None? && (m.permits > 0 || OtherParsed(s, d))) ==> exists k :: k in m.buffer && k > 1)
  }

  ghost predicate OtherParsed(s: State, d: nat) {
    exists i :: 0 <= i < |s.tasks| && i != d && s.tasks[i].dst == d && !s.tasks[i].phase.InFlight?
  }

  ghost predicate OneLayer(cfg: Config, s: State) {
    && cfg.Valid() && cfg.layers == 1 && Shape(cfg, s)
    && (forall i :: 0 <= i < |s.tasks| && s.tasks[i].layer == 0 ==> i == s.tasks[i].dst)
    && (forall d: nat :: d < cfg.n && s.mixes[d].fired == [] ==> Unsent(s, d))
  }

  lemma InitOneLayer(cfg: Config, inits: seq<seq<Wire>>)
    requires cfg.Valid() && cfg.layers == 1 && |inits| == cfg.n
    ensures OneLayer(cfg, Init(cfg, inits))
  {
  }

  /** Layer 1 is sent at the first check, although it is the last. */
  lemma FirstLayerReady(cfg: Config, buffer: Buffer)
    requires cfg.n >= 1 && WellFormed(cfg, buffer) && 1 in buffer && buffer[1].counter == 1
    ensures IsMiddleLayer(cfg, buffer)
  {
    assert MinKey(buffer.Keys) == 1;
  }

  lemma ParseOneLayer(cfg: Config, s: State, s': State, i: nat)
    requires OneLayer(cfg, s) && ParseStep(cfg, s, s', i)
    ensures OneLayer(cfg, s')
  {
    hide DecryptIncoming, Conns, ParseInto, Parses, WellFormed, IsMiddleLayer;
    var t := s.tasks[i];
    assert TaskShape(cfg, s, i) && WellFormed(cfg, s.mixes[t.dst].buffer);
    forall k | 0 <= k < |s'.tasks| ensures TaskShape(cfg, s', k) {
      assert TaskShape(cfg, s, k);
    }
    forall d: nat | d < cfg.n && s'.mixes[d].fired == [] ensures Unsent(s', d) {
      assert Unsent(s, d);
      if d == t.dst {
        var peeled := DecryptIncoming(cfg, d, t.packets, t.layer);
        ParsedSlot(cfg, s.mixes[d].buffer, t.layer, peeled, 0);
        ParsedSlot(cfg, s.mixes[d].buffer, t.layer, peeled, t.layer);
        forall k: nat | k in s.mixes[d].buffer ensures k in s'.mixes[d].buffer {
          assert s'.mixes[d].buffer.Keys == s.mixes[d].buffer.Keys + {t.layer + 1};
        }
        if i == d && OtherParsed(s', d) {
          var k :| 0 <= k < |s'.tasks| && k != d && s'.tasks[k].dst == d && !s'.tasks[k].phase.InFlight?;
          assert s.tasks[k] == s'.tasks[k];
          assert OtherParsed(s, d);
        }
      } else {
        assert OtherParsed(s', d) ==> OtherParsed(s, d);
      }
    }
  }

  /** A handler that checked but did not send, or answers, is not one of an initial request. */
  lemma MoveOneLayer(cfg: Config, s: State, s': State, i: nat, phase: Phase)
    requires OneLayer(cfg, s) && Moves(cfg, s, s', i, phase) && !s.tasks[i].phase.InFlight? && !phase.InFlight?
    requires s.tasks[i].dst < cfg.n && (s.mixes[s.tasks[i].dst].fired == [] ==> i != s.tasks[i].dst)
    requires forall d: nat :: d < cfg.n ==> s'.mixes[d].buffer == s.mixes[d].buffer
    requires forall d: nat :: d < cfg.n && s'.mixes[d].permits != s.mixes[d].permits ==> d == s.tasks[i].dst
    ensures OneLayer(cfg, s')
  {
    hide WellFormed;
    forall k | 0 <= k < |s'.tasks| ensures TaskShape(cfg, s', k) {
      assert TaskShape(cfg, s, k);
    }
    forall d: nat | d < cfg.n && s'.mixes[d].fired == [] ensures Unsent(s', d) {
      assert Unsent(s, d);
      assert d == s.tasks[i].dst ==> OtherParsed(s, d);
      if OtherParsed(s', d) {
        var k :| 0 <= k < |s'.tasks| && k != d && s'.tasks[k].dst == d && !s'.tasks[k].phase.InFlight?;
        assert s.tasks[k].dst == d && !s.tasks[k].phase.InFlight?;
      }
    }
  }

  lemma IdleOneLayer(cfg: Config, s: State, s': State, i: nat)
    requires OneLayer(cfg, s) && IdleStep(cfg, s, s', i)
    ensures OneLayer(cfg, s')
  {
    hide WellFormed, IsMiddleLayer;
    var d := s.tasks[i].dst;
    assert TaskShape(cfg, s, i) && WellFormed(cfg, s.mixes[d].buffer);
    if s.mixes[d].fired == [] && i == d {
      assert Unsent(s, d);
      FirstLayerReady(cfg, s.mixes[d].buffer);
    }
    MoveOneLayer(cfg, s, s', i, Waiting(|s.tasks|, |s.tasks|));
  }

  lemma ReplyOneLayer(cfg: Config, s: State, s': State, i: nat)
    requires OneLayer(cfg, s) && ReplyStep(cfg, s, s', i)
    ensures OneLayer(cfg, s')
  {
    hide WellFormed;
    var d := s.tasks[i].dst;
    assert TaskShape(cfg, s, i);
    assert s.mixes[d].fired == [] ==> Unsent(s, d);
    MoveOneLayer(cfg, s, s', i, Replied);
  }

  lemma FireOneLayer(cfg: Config, s: State, s': State, i: nat, sent: seq<seq<Wire>>)
    requires OneLayer(cfg, s) && FireStep(cfg, s, s', i, sent)
    ensures OneLayer(cfg, s')
  {
    hide WellFormed, Kept, TotalOutgoing, Shuffled, Sendable;
    var t := s.tasks[i];
    assert TaskShape(cfg, s, i) && WellFormed(cfg, s.mixes[t.dst].buffer);
    var key := MinKey(s.mixes[t.dst].buffer.Keys);
    KeyInBuffer(cfg, s.mixes[t.dst].buffer, key);
    forall k | 0 <= k < |s'.tasks| ensures TaskShape(cfg, s', k) {
      if k < |s.tasks| {
        assert TaskShape(cfg, s, k);
      }
    }
    forall d: nat | d < cfg.n ensures WellFormed(cfg, s'.mixes[d].buffer) {
      WithoutWellFormed(cfg, s.mixes[d].buffer, key);
    }
    forall d: nat | d < cfg.n && s'.mixes[d].fired == [] ensures Unsent(s', d) {
      assert d != t.dst && Unsent(s, d);
      if OtherParsed(s', d) {
        var k :| 0 <= k < |s'.tasks| && k != d && s'.tasks[k].dst == d && !s'.tasks[k].phase.InFlight?;
        assert s.tasks[k] == s'.tasks[k];
      }
    }
  }

  lemma KeyInBuffer(cfg: Config, buffer: Buffer, key: nat)
    requires WellFormed(cfg, buffer) && key in buffer
    ensures key > 0 && |buffer[key].batches| == cfg.n
  {
  }

  lemma WithoutWellFormed(cfg: Config, buffer: Buffer, key: nat)
    requires WellFormed(cfg, buffer)
    ensures WellFormed(cfg, Without(buffer, key))
  {
  }

  lemma OutputOneLayer(cfg: Config, s: State, s': State, d: nat, messages: seq<Wire>)
    requires OneLayer(cfg, s) && OutputStep(cfg, s, s', d, messages)
    ensures OneLayer(cfg, s')
  {
    hide WellFormed, Flatten, Shuffled;
    var key := MaxKey(s.mixes[d].buffer.Keys);
    assert WellFormed(cfg, s.mixes[d].buffer);
    WithoutWellFormed(cfg, s.mixes[d].buffer, key);
    forall k | 0 <= k < |s'.tasks| ensures TaskShape(cfg, s', k) {
      assert TaskShape(cfg, s, k);
    }
    forall m: nat | m < cfg.n && s'.mixes[m].fired == [] ensures Unsent(s', m) {
      assert Unsent(s, m);
      assert OtherParsed(s', m) ==> OtherParsed(s, m);
      if m == d {
        var k :| k in s.mixes[d].buffer && k > 1;
        assert key > 1;
      }
    }
  }

  lemma StepOneLayer(cfg: Config, s: State, s': State)
    requires OneLayer(cfg, s) && Step(cfg, s, s')
    ensures OneLayer(cfg, s')
  {
    hide ParseStep, IdleStep, FireStep, ReplyStep, OutputStep, OneLayer;
    OneLayerShape(cfg, s);
    if i :| ParseStep(cfg, s, s', i) {
      ParseOneLayer(cfg, s, s', i);
    } else if i :| IdleStep(cfg, s, s', i) {
      IdleOneLayer(cfg, s, s', i);
    } else if i, sent :| FireStep(cfg, s, s', i, sent) {
      FireOneLayer(cfg, s, s', i, sent);
    } else if i :| ReplyStep(cfg, s, s', i) {
      ReplyOneLayer(cfg, s, s', i);
    } else if d, messages :| OutputStep(cfg, s, s', d, messages) {
      OutputOneLayer(cfg, s, s', d, messages);
    }
  }

  lemma OneLayerShape(cfg: Config, s: State)
    requires OneLayer(cfg, s)
    ensures cfg.Valid() && Shape(cfg, s)
  {
  }

  lemma {:induction false} RunOneLayer(cfg: Config, inits: seq<seq<Wire>>, states: seq<State>, i: nat)
    requires cfg.Valid() && cfg.layers == 1 && |inits| == cfg.n && Run(cfg, inits, states) && i < |states|
    ensures OneLayer(cfg, states[i])
  {
    hide Step, Shape, Init, OneLayer;
    if i == 0 {
      InitOneLayer(cfg, inits);
    } else {
      RunOneLayer(cfg, inits, states, i - 1);
      assert StepAt(cfg, states, i - 1);
      StepOneLayer(cfg, states[i - 1], states[i]);
    }
  }

  /** In every run with one layer: when a mix's initial request has been answered, the mix has sent its
      only layer on, so the round is not completed. */
  lemma NeverComplete(cfg: Config, inits: seq<seq<Wire>>, states: seq<State>, i: nat)
    requires cfg.Valid() && cfg.layers == 1 && |inits| == cfg.n && Run(cfg, inits, states) && i < |states|
    ensures |states[i].mixes| == cfg.n <= |states[i].tasks|
    ensures forall d: nat :: d < cfg.n && (states[i].tasks[d].phase.Waiting? || states[i].tasks[d].phase.Replied?) ==>
      states[i].mixes[d].fired != []
    ensures !Complete(cfg, states[i])
  {
    hide Step, Init, TaskShape, WellFormed, StepAt;
    RunOneLayer(cfg, inits, states, i);
    RunTasks(cfg, inits, states, i);
    forall d: nat | d < cfg.n && states[i].mixes[d].fired == []
      ensures states[i].tasks[d].phase.InFlight? || states[i].tasks[d].phase.Parsed?
    {
      assert Unsent(states[i], d);
    }
    var s := states[i];
    assert s.tasks[0].phase.Replied? ==> |s.mixes[0].fired| > 0;
  }

  lemma {:induction false} RunTasks(cfg: Config, inits: seq<seq<Wire>>, states: seq<State>, i: nat)
    requires cfg.Valid() && |inits| == cfg.n && Run(cfg, inits, states) && i < |states|
    ensures |states[i].tasks| >= cfg.n
  {
    hide Shape, Sends, IsMiddleLayer, ParseInto, DecryptIncoming, Conns, Parses, Shuffled, Flatten, NewTasks;
    if i > 0 {
      RunTasks(cfg, inits, states, i - 1);
      assert StepAt(cfg, states, i - 1);
    }
  }

  /** The run takes the round to its end. */
  ghost predicate Completes(cfg: Config, inits: seq<seq<Wire>>, states: seq<State>)
    requires cfg.Valid() && |inits| == cfg.n
  {
    Run(cfg, inits, states) && Complete(cfg, states[|states| - 1])
  }

  /** A round can be completed exactly if it has two layers or more and no handler panics in lock step. */
  lemma CompletableExactly(cfg: Config, inits: seq<seq<Wire>>)
    requires cfg.Valid() && |inits| == cfg.n
    ensures (exists states :: Completes(cfg, inits, states)) <==> cfg.layers >= 2 && Clean(cfg, inits)
  {
    hide Run, Complete, Clean, RoundLength, Init;
    if states :| Completes(cfg, inits, states) {
      if cfg.layers == 1 {
        RunNotEmpty(cfg, inits, states);
        NeverComplete(cfg, inits, states, |states| - 1);
      } else {
        RoundIsLockstep(cfg, inits, states, 0);
      }
    }
    if cfg.layers >= 2 && Clean(cfg, inits) {
      var start := [Init(cfg, inits)];
      assert Run(cfg, inits, start) by {
        OnlyInit(cfg, inits);
      }
      var whole := CanComplete(cfg, inits, start);
      assert Completes(cfg, inits, whole);
    }
  }

  lemma RunNotEmpty(cfg: Config, inits: seq<seq<Wire>>, states: seq<State>)
    requires cfg.Valid() && |inits| == cfg.n && Run(cfg, inits, states)
    ensures |states| > 0
  {
  }

  lemma OnlyInit(cfg: Config, inits: seq<seq<Wire>>)
    requires cfg.Valid() && |inits| == cfg.n
    ensures Run(cfg, inits, [Init(cfg, inits)])
  {
  }
}
