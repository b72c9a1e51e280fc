/** Answers: a handler answers once the requests it sent are answered, so a mix outputs only after every
    request it ever sent in the round was. */
module MixReplies {
  import opened Network
  import opened MixServer
  import opened MixRound
  import opened MixSafety

  /** Handler `i` runs at the mix that sent request `c` and waits for it. */
  ghost predicate Awaits(s: State, i: nat, c: nat) {
    && i < |s.tasks| && c < |s.tasks| && s.tasks[i].phase.Waiting?
    && s.tasks[i].phase.lo <= c < s.tasks[i].phase.hi && s.tasks[i].dst == s.tasks[c].src
  }

  /** A request from one mix to another is answered, or its sender still has a handler that waits for it. */
  ghost predicate Minded(s: State, c: nat)
    requires c < |s.tasks|
  {
    s.tasks[c].layer == 0 || s.tasks[c].phase.Replied? || exists i :: Awaits(s, i, c)
  }

  ghost predicate AllMinded(s: State) {
    forall c :: 0 <= c < |s.tasks| ==> Minded(s, c)
  }

  /** A request changes its phase, and only a handler that waits for nothing stops waiting. */
  lemma MoveMinded(s: State, s': State, k: nat, phase: Phase)
    requires AllMinded(s) && k < |s.tasks| && s'.tasks == s.tasks[k := s.tasks[k].(phase := phase)]
    requires s.tasks[k].phase.Waiting? ==>
      phase.Replied? && forall c :: s.tasks[k].phase.lo <= c < s.tasks[k].phase.hi && c < |s.tasks| ==> s.tasks[c].phase.Replied?
    requires !s.tasks[k].phase.Replied?
    ensures AllMinded(s')
  {
    forall c | 0 <= c < |s'.tasks| ensures Minded(s', c) {
      assert Minded(s, c);
      if s.tasks[c].layer != 0 && !s.tasks[c].phase.Replied? {
        var i :| Awaits(s, i, c);
        if i != k {
          assert Awaits(s', i, c);
        }
      }
    }
  }

  /** A handler that sends a layer waits for exactly the requests it sends. */
  lemma FireMinded(cfg: Config, s: State, s': State, k: nat, sent: seq<seq<Wire>>)
    requires cfg.Valid() && Shape(cfg, s) && AllMinded(s) && FireStep(cfg, s, s', k, sent)
    ensures AllMinded(s')
  {
    hide Sends, IsMiddleLayer;
    assert TaskShape(cfg, s, k);
    var d := s.tasks[k].dst;
    assert WellFormed(cfg, s.mixes[d].buffer);
    var key, n := MinKey(s.mixes[d].buffer.Keys), |s.tasks|;
    FireSends(cfg, s.mixes[d].buffer[key], key, sent);
    forall c | 0 <= c < |s'.tasks| ensures Minded(s', c) {
      if c < n {
        assert Minded(s, c);
        if s.tasks[c].layer != 0 && !s.tasks[c].phase.Replied? {
          var i :| Awaits(s, i, c);
          assert Awaits(s', i, c);
        }
      } else {
        assert s'.tasks[c] == NewTasks(d, key, sent)[c - n];
        assert Awaits(s', k, c);
      }
    }
  }

  lemma FireSends(cfg: Config, slot: Slot, key: nat, sent: seq<seq<Wire>>)
    requires cfg.n >= 1 && key >= 1 && |slot.batches| == cfg.n && Sends(cfg, slot, key, sent)
    ensures |sent| == cfg.n
  {
  }

  lemma StepMinded(cfg: Config, s: State, s': State)
    requires cfg.Valid() && Shape(cfg, s) && AllMinded(s) && Step(cfg, s, s')
    ensures AllMinded(s')
  {
    hide AllMinded, FireStep, Parses, IsMiddleLayer, Shape;
    if i :| ParseStep(cfg, s, s', i) {
      MoveMinded(s, s', i, Parsed);
    } else if i :| IdleStep(cfg, s, s', i) {
      MoveMinded(s, s', i, Waiting(|s.tasks|, |s.tasks|));
    } else if i, sent :| FireStep(cfg, s, s', i, sent) {
      FireMinded(cfg, s, s', i, sent);
    } else if i :| ReplyStep(cfg, s, s', i) {
      MoveMinded(s, s', i, Replied);
    } else if d, messages :| OutputStep(cfg, s, s', d, messages) {
      SameTasks(s, s');
    }
  }

  lemma SameTasks(s: State, s': State)
    requires AllMinded(s) && s'.tasks == s.tasks
    ensures AllMinded(s')
  {
    forall c | 0 <= c < |s'.tasks| ensures Minded(s', c) {
      assert Minded(s, c);
      if i :| Awaits(s, i, c) {
        assert Awaits(s', i, c);
      }
    }
  }

  /** In every state of every run: no request is left unanswered behind the back of its sender. */
  lemma {:induction false} RunMinded(cfg: Config, inits: seq<seq<Wire>>, states: seq<State>, k: nat)
    requires cfg.Valid() && |inits| == cfg.n && Run(cfg, inits, states) && k < |states|
    ensures AllMinded(states[k])
  {
    hide Step, Shape;
    if k > 0 {
      RunMinded(cfg, inits, states, k - 1);
      assert StepAt(cfg, states, k - 1);
      StepMinded(cfg, states[k - 1], states[k]);
    }
  }

  lemma {:induction false} RepliedIs(tasks: seq<Task>, d: nat, i: nat)
    requires i < |tasks| && tasks[i].dst == d && Count(tasks, RepliedTo(d)) >= Count(tasks, AnyTo(d))
    ensures tasks[i].phase.Replied?
  {
    var n := |tasks| - 1;
    RepliedAmongAll(tasks[..n], d);
    if i < n {
      RepliedIs(tasks[..n], d, i);
    }
  }

  lemma {:induction false} RepliedAmongAll(tasks: seq<Task>, d: nat)
    ensures Count(tasks, RepliedTo(d)) <= Count(tasks, AnyTo(d))
  {
    if tasks != [] {
      RepliedAmongAll(tasks[..|tasks| - 1], d);
    }
  }

  /** Once a mix can acquire the permits of the round, every request it was sent and every request it has
      sent is answered. */
  lemma OutputAfterAnswers(cfg: Config, inits: seq<seq<Wire>>, states: seq<State>, k: nat, d: nat, c: nat)
    requires ValidRound(cfg) && |inits| == cfg.n && Run(cfg, inits, states) && k < |states|
    requires d < |states[k].mixes| && states[k].mixes[d].permits >= Quota(cfg)
    requires c < |states[k].tasks| && (states[k].tasks[c].src == d || states[k].tasks[c].dst == d)
    ensures states[k].tasks[c].phase.Replied?
  {
    hide Run, Inv, Shape, Count, Behind, Buffered, Awake, TotalFired, IsMiddleLayer;
    var s := states[k];
    RunInv(cfg, inits, states, k);
    InvShape(cfg, s);
    InvCore(cfg, s);
    ShapeSize(cfg, s);
    PermitsMeanComplete(cfg, s, d);
    AllRepliedAt(cfg, s, d);
    if s.tasks[c].dst == d {
      RepliedIs(s.tasks, d, c);
    } else {
      RunMinded(cfg, inits, states, k);
      NotInitial(cfg, s, c);
      assert Minded(s, c);
      if !s.tasks[c].phase.Replied? {
        var i :| Awaits(s, i, c);
        RepliedIs(s.tasks, d, i);
        assert false;
      }
    }
  }

  lemma ShapeSize(cfg: Config, s: State)
    requires Shape(cfg, s)
    ensures |s.mixes| == cfg.n
  {
  }

  lemma AllRepliedAt(cfg: Config, s: State, d: nat)
    requires Inv(cfg, s) && d < cfg.n && s.mixes[d].permits >= Quota(cfg)
    ensures Count(s.tasks, RepliedTo(d)) >= Count(s.tasks, AnyTo(d))
  {
    hide Count, Behind, Buffered, Awake, SentFrom, TotalFired, IsMiddleLayer;
    PermitsMeanComplete(cfg, s, d);
    assert SentTo(cfg, s, d);
    TotalBound(s.mixes, cfg.layers - 1);
  }

  /** Only a mix itself sends it its initial packets. */
  lemma NotInitial(cfg: Config, s: State, c: nat)
    requires Inv(cfg, s) && c < |s.tasks| && s.tasks[c].src != s.tasks[c].dst
    ensures s.tasks[c].layer != 0
  {
    hide Count, Behind, Buffered, Awake, Sent, Permits, TotalFired, IsMiddleLayer;
    assert TaskShape(cfg, s, c);
    var t := s.tasks[c];
    CountPositive(s.tasks, From(t.src, t.dst, t.layer), c);
  }
}
