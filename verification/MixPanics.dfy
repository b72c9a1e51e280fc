/** Which packets make a handler of a round panic: those that panic somewhere on their own path. */
module MixPanics {
  import opened Lists
  import opened Network
  import opened MixServer
  import opened MixLockstep

  /** A packet that reaches mix `d` in a request from layer `j` makes no handler panic from there on, neither
      one that peels it nor one that checks it before sending. */
  ghost predicate Safe(cfg: Config, d: nat, w: Wire, j: nat)
    requires cfg.Valid() && j < cfg.layers
    decreases cfg.layers - j
  {
    && Peels(cfg, d, w, j)
    && match cfg.traffic.peel(d, w, j).value
       case None => true
       case Some(p) =>
         j + 1 < cfg.layers ==>
           (cfg.traffic.checked ==> cfg.traffic.valid(p.held, j).Ok?) && Safe(cfg, p.next, WireOf(p.held), j + 1)
  }

  ghost predicate AllSafe(cfg: Config, inits: seq<seq<Wire>>)
    requires cfg.Valid()
  {
    forall d: nat, w :: d < |inits| && w in inits[d] ==> Safe(cfg, d, w, 0)
  }

  // ---------- Where a packet comes from and goes to ----------

  ghost predicate PeelsTo(cfg: Config, a: nat, w: Wire, j: nat, next: nat, h: Held) {
    var r := cfg.traffic.peel(a, w, j);
    r.Ok? && r.value.Some? && r.value.value.held == h && r.value.value.next == next
  }

  /** Every packet of a batch was peeled from one that the mix was sent. */
  lemma {:induction false} BatchFrom(cfg: Config, a: nat, ws: seq<Wire>, j: nat, next: nat, h: Held)
    requires next < cfg.n && h in Batches(cfg, a, ws, j)[next]
    ensures exists i :: 0 <= i < |ws| && PeelsTo(cfg, a, ws[i], j, next, h)
  {
    hide FlatMap, PushAll, DecryptIncoming;
    var peeled := DecryptIncoming(cfg, a, ws, j);
    PushIsFlat(seq(cfg.n, _ => []), peeled, next);
    FlatMapFrom(HeldOf(next), peeled, h);
    var k :| 0 <= k < |peeled| && h in HeldOf(next)(peeled[k]);
    DecryptIsFlat(cfg, a, ws, j);
    assert peeled[k] in FlatMap(PeelOf(cfg, a, j), ws);
    FlatMapFrom(PeelOf(cfg, a, j), ws, peeled[k]);
    var i :| 0 <= i < |ws| && peeled[k] in PeelOf(cfg, a, j)(ws[i]);
    assert PeelsTo(cfg, a, ws[i], j, next, h);
  }

  lemma {:induction false} BatchHas(cfg: Config, a: nat, ws: seq<Wire>, j: nat, next: nat, h: Held, i: nat)
    requires next < cfg.n && i < |ws| && PeelsTo(cfg, a, ws[i], j, next, h)
    ensures h in Batches(cfg, a, ws, j)[next]
  {
    hide FlatMap, PushAll, DecryptIncoming;
    var peeled := DecryptIncoming(cfg, a, ws, j);
    PushIsFlat(seq(cfg.n, _ => []), peeled, next);
    var p := cfg.traffic.peel(a, ws[i], j).value.value;
    DecryptIsFlat(cfg, a, ws, j);
    FlatMapHas(PeelOf(cfg, a, j), ws, i, p);
    var k :| 0 <= k < |peeled| && peeled[k] == p;
    FlatMapHas(HeldOf(next), peeled, k, h);
  }

  lemma {:induction false} FilteredFrom(cfg: Config, batch: seq<Held>, layer: nat, h: Held)
    requires h in FilterValid(cfg, batch, layer)
    ensures h in batch
  {
    var n := |batch| - 1;
    if h in FilterValid(cfg, batch[..n], layer) {
      FilteredFrom(cfg, batch[..n], layer, h);
    }
  }

  /** What a mix forwards was peeled from what it was sent. */
  lemma {:induction false} ForwardedFrom(cfg: Config, a: nat, ws: seq<Wire>, k: nat, d: nat, w: Wire)
    requires cfg.n >= 1 && k >= 1 && d < cfg.n && w in Forwarded(cfg, a, ws, k, d)
    ensures exists i, h :: 0 <= i < |ws| && PeelsTo(cfg, a, ws[i], k - 1, d, h) && WireOf(h) == w
  {
    hide Batches, TotalOutgoing, FilterValid;
    var batches := Batches(cfg, a, ws, k - 1);
    var kept := Kept(cfg, batches[d], k, TotalOutgoing(batches));
    var m :| 0 <= m < |Wires(kept)| && Wires(kept)[m] == w;
    if kept != batches[d] {
      FilteredFrom(cfg, batches[d], k - 1, kept[m]);
    }
    BatchFrom(cfg, a, ws, k - 1, d, kept[m]);
    var i :| 0 <= i < |ws| && PeelsTo(cfg, a, ws[i], k - 1, d, kept[m]);
    assert WireOf(kept[m]) == w;
  }

  lemma {:induction false} CollectedFrom(cfg: Config, received: seq<seq<Wire>>, k: nat, m: nat, d: nat, w: Wire)
    requires cfg.n >= 1 && k >= 1 && d < cfg.n && m <= |received| && w in Collected(cfg, received, k, m, d)
    ensures exists a: nat :: a < m && w in Forwarded(cfg, a, received[a], k, d)
  {
    hide Forwarded;
    if w !in Forwarded(cfg, m - 1, received[m - 1], k, d) {
      CollectedFrom(cfg, received, k, m - 1, d, w);
    }
  }

  lemma {:induction false} CollectedHas(cfg: Config, received: seq<seq<Wire>>, k: nat, m: nat, d: nat, a: nat, w: Wire)
    requires cfg.n >= 1 && k >= 1 && d < cfg.n && a < m <= |received| && w in Forwarded(cfg, a, received[a], k, d)
    ensures w in Collected(cfg, received, k, m, d)
  {
    hide Forwarded;
    if a < m - 1 {
      CollectedHas(cfg, received, k, m - 1, d, a, w);
    }
  }

  // ---------- Safe packets ----------

  lemma {:induction false} SafeReceived(cfg: Config, inits: seq<seq<Wire>>, d: nat, j: nat, w: Wire)
    requires cfg.Valid() && |inits| == cfg.n && AllSafe(cfg, inits) && d < cfg.n && j < cfg.layers
    requires w in Received(cfg, inits, j)[d]
    ensures Safe(cfg, d, w, j)
    decreases j
  {
    hide Collected, Forwarded, Peels;
    if j > 0 {
      var before := Received(cfg, inits, j - 1);
      CollectedFrom(cfg, before, j, cfg.n, d, w);
      var a: nat :| a < cfg.n && w in Forwarded(cfg, a, before[a], j, d);
      ForwardedFrom(cfg, a, before[a], j, d, w);
      var i, h :| 0 <= i < |before[a]| && PeelsTo(cfg, a, before[a][i], j - 1, d, h) && WireOf(h) == w;
      SafeReceived(cfg, inits, a, j - 1, before[a][i]);
      SafeStep(cfg, a, before[a][i], j - 1, d, h);
    }
  }

  lemma {:induction false} SafeStep(cfg: Config, a: nat, w: Wire, j: nat, next: nat, h: Held)
    requires cfg.Valid() && j + 1 < cfg.layers && Safe(cfg, a, w, j) && PeelsTo(cfg, a, w, j, next, h)
    ensures Safe(cfg, next, WireOf(h), j + 1)
    ensures cfg.traffic.checked ==> cfg.traffic.valid(h, j).Ok?
  {
  }

  lemma {:induction false} SafePeels(cfg: Config, d: nat, w: Wire, j: nat)
    requires cfg.Valid() && j < cfg.layers && Safe(cfg, d, w, j)
    ensures Peels(cfg, d, w, j)
  {
  }

  /** If no injected packet panics on its own path, no handler panics in lock step. */
  lemma {:induction false} SafeIsClean(cfg: Config, inits: seq<seq<Wire>>)
    requires cfg.Valid() && |inits| == cfg.n && AllSafe(cfg, inits)
    ensures Clean(cfg, inits)
  {
    hide AllSafe, Safe, Peels, Received, Batches, TotalOutgoing, OverLimit, Parses;
    forall d: nat, j: nat | d < cfg.n && j < cfg.layers ensures CleanAt(cfg, inits, d, j) {
      var ws := Received(cfg, inits, j)[d];
      forall i | 0 <= i < |ws| ensures Peels(cfg, d, ws[i], j) {
        SafeReceived(cfg, inits, d, j, ws[i]);
        SafePeels(cfg, d, ws[i], j);
      }
      ParsesEach(cfg, d, ws, j);
      if j + 1 < cfg.layers && cfg.traffic.checked {
        forall next: nat, h | next < cfg.n && h in Batches(cfg, d, ws, j)[next] ensures cfg.traffic.valid(h, j).Ok? {
          BatchFrom(cfg, d, ws, j, next, h);
          var i :| 0 <= i < |ws| && PeelsTo(cfg, d, ws[i], j, next, h);
          SafeReceived(cfg, inits, d, j, ws[i]);
          SafeStep(cfg, d, ws[i], j, next, h);
        }
      }
    }
  }

  /** Without the check of large batches every packet goes its path to the end. */
  lemma {:induction false} CleanIsSafe(cfg: Config, inits: seq<seq<Wire>>, d: nat, j: nat, w: Wire)
    requires cfg.Valid() && |inits| == cfg.n && !cfg.traffic.checked && Clean(cfg, inits) && d < cfg.n && j < cfg.layers
    requires w in Received(cfg, inits, j)[d]
    ensures Safe(cfg, d, w, j)
    decreases cfg.layers - j
  {
    hide Received, Clean, Parses, Batches, TotalOutgoing;
    var ws := Received(cfg, inits, j)[d];
    CleanPeels(cfg, inits, d, j, w);
    var p := cfg.traffic.peel(d, w, j).value;
    if p.Some? && j + 1 < cfg.layers {
      var next, h := p.value.next, p.value.held;
      var i :| 0 <= i < |ws| && ws[i] == w;
      assert PeelsTo(cfg, d, ws[i], j, next, h);
      BatchHas(cfg, d, ws, j, next, h, i);
      ReceivedNext(cfg, inits, d, j, next, h);
      CleanIsSafe(cfg, inits, next, j + 1, WireOf(h));
    }
  }

  lemma {:induction false} CleanPeels(cfg: Config, inits: seq<seq<Wire>>, d: nat, j: nat, w: Wire)
    requires cfg.Valid() && |inits| == cfg.n && Clean(cfg, inits) && d < cfg.n && j < cfg.layers && w in Received(cfg, inits, j)[d]
    ensures Peels(cfg, d, w, j)
  {
    hide Received, Peels, Parses, Sendable;
    assert CleanAt(cfg, inits, d, j);
    ParsesEach(cfg, d, Received(cfg, inits, j)[d], j);
  }

  lemma {:induction false} ReceivedNext(cfg: Config, inits: seq<seq<Wire>>, d: nat, j: nat, next: nat, h: Held)
    requires cfg.Valid() && |inits| == cfg.n && !cfg.traffic.checked && d < cfg.n && next < cfg.n
    requires h in Batches(cfg, d, Received(cfg, inits, j)[d], j)[next]
    ensures WireOf(h) in Received(cfg, inits, j + 1)[next]
  {
    hide Collected, Batches, TotalOutgoing, WireOf;
    var before := Received(cfg, inits, j);
    var batch := Batches(cfg, d, before[d], j)[next];
    var i :| 0 <= i < |batch| && batch[i] == h;
    assert Wires(batch)[i] == WireOf(h);
    assert WireOf(h) in Forwarded(cfg, d, before[d], j + 1, next);
    CollectedHas(cfg, before, j + 1, cfg.n, next, d, WireOf(h));
  }

  /** Without the check of large batches, a handler panics in lock step exactly if some injected packet
      panics on its own path. */
  lemma {:induction false} CleanExactly(cfg: Config, inits: seq<seq<Wire>>)
    requires cfg.Valid() && |inits| == cfg.n && !cfg.traffic.checked
    ensures Clean(cfg, inits) <==> AllSafe(cfg, inits)
  {
    hide Safe, Clean;
    if Clean(cfg, inits) {
      forall d: nat, w | d < |inits| && w in inits[d] ensures Safe(cfg, d, w, 0) {
        CleanIsSafe(cfg, inits, d, 0, w);
      }
    }
    if AllSafe(cfg, inits) {
      SafeIsClean(cfg, inits);
    }
  }
}
