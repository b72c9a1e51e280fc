/** The round in lock step: all mixes peel what they were sent from a layer, then all send, then the next
    layer. What comes of it does not depend on the order of packets. */
module MixLockstep {
  import opened Lists
  import opened Network
  import opened MixServer
  import opened EdgeCases

  // What the functions of a mix concatenate.

  function PeelOf(cfg: Config, d: nat, j: nat): Wire -> seq<Peeled> {
    (w: Wire) => match cfg.traffic.peel(d, w, j)
                 case Ok(Some(p)) => [p]
                 case _ => []
  }

  lemma {:induction false} DecryptIsFlat(cfg: Config, d: nat, ws: seq<Wire>, j: nat)
    ensures DecryptIncoming(cfg, d, ws, j) == FlatMap(PeelOf(cfg, d, j), ws)
  {
    if ws != [] {
      DecryptIsFlat(cfg, d, ws[..|ws| - 1], j);
    }
  }

  function HeldOf(next: nat): Peeled -> seq<Held> {
    (p: Peeled) => if p.next == next then [p.held] else []
  }

  lemma {:induction false} PushIsFlat(batches: seq<seq<Held>>, peeled: seq<Peeled>, i: nat)
    requires i < |batches|
    ensures PushAll(batches, peeled)[i] == batches[i] + FlatMap(HeldOf(i), peeled)
  {
    if peeled != [] {
      PushIsFlat(batches, peeled[..|peeled| - 1], i);
    }
  }

  function ConnOf(): Peeled -> seq<Connection> {
    (p: Peeled) => match p.conn
                   case None => []
                   case Some(c) => [c]
  }

  lemma {:induction false} ConnsIsFlat(peeled: seq<Peeled>)
    ensures Conns(peeled) == FlatMap(ConnOf(), peeled)
  {
    if peeled != [] {
      ConnsIsFlat(peeled[..|peeled| - 1]);
    }
  }

  // ---------- Batches ----------

  /** The batches of a mix that was sent the packets `ws` from layer `j`. */
  function Batches(cfg: Config, d: nat, ws: seq<Wire>, j: nat): (r: seq<seq<Held>>)
    ensures |r| == cfg.n
  {
    PushAll(seq(cfg.n, _ => []), DecryptIncoming(cfg, d, ws, j))
  }

  /** The same packets in each batch, in any order. */
  ghost predicate Alike(a: seq<seq<Held>>, b: seq<seq<Held>>) {
    |a| == |b| && forall i :: 0 <= i < |a| ==> multiset(a[i]) == multiset(b[i])
  }

  lemma {:induction false} BatchesAlike(cfg: Config, d: nat, a: seq<Wire>, b: seq<Wire>, j: nat)
    requires multiset(a) == multiset(b)
    ensures Alike(Batches(cfg, d, a, j), Batches(cfg, d, b, j))
  {
    hide PushAll, DecryptIncoming;
    var x, y := DecryptIncoming(cfg, d, a, j), DecryptIncoming(cfg, d, b, j);
    DecryptPermuted(cfg, d, a, b, j);
    forall i | 0 <= i < cfg.n ensures multiset(Batches(cfg, d, a, j)[i]) == multiset(Batches(cfg, d, b, j)[i]) {
      PushIsFlat(seq(cfg.n, _ => []), x, i);
      PushIsFlat(seq(cfg.n, _ => []), y, i);
      FlatMapPermuted(HeldOf(i), x, y);
    }
  }

  lemma {:induction false} DecryptPermuted(cfg: Config, d: nat, a: seq<Wire>, b: seq<Wire>, j: nat)
    requires multiset(a) == multiset(b)
    ensures multiset(DecryptIncoming(cfg, d, a, j)) == multiset(DecryptIncoming(cfg, d, b, j))
  {
    DecryptIsFlat(cfg, d, a, j);
    DecryptIsFlat(cfg, d, b, j);
    FlatMapPermuted(PeelOf(cfg, d, j), a, b);
  }

  /** More packets for batches that already have those of `a`. */
  lemma {:induction false} BatchesGrow(cfg: Config, d: nat, batches: seq<seq<Held>>, a: seq<Wire>, b: seq<Wire>, j: nat)
    requires Alike(batches, Batches(cfg, d, a, j))
    ensures Alike(PushAll(batches, DecryptIncoming(cfg, d, b, j)), Batches(cfg, d, a + b, j))
  {
    hide PushAll, DecryptIncoming;
    var x, y := DecryptIncoming(cfg, d, a, j), DecryptIncoming(cfg, d, b, j);
    DecryptConcat(cfg, d, a, b, j);
    forall i | 0 <= i < cfg.n
      ensures multiset(PushAll(batches, y)[i]) == multiset(Batches(cfg, d, a + b, j)[i])
    {
      PushIsFlat(batches, y, i);
      PushIsFlat(seq(cfg.n, _ => []), x, i);
      PushIsFlat(seq(cfg.n, _ => []), x + y, i);
      FlatMapConcat(HeldOf(i), x, y);
      assert PushAll(batches, y)[i] == batches[i] + FlatMap(HeldOf(i), y);
      assert Batches(cfg, d, a, j)[i] == FlatMap(HeldOf(i), x);
      assert Batches(cfg, d, a + b, j)[i] == FlatMap(HeldOf(i), x) + FlatMap(HeldOf(i), y);
    }
  }

  lemma {:induction false} DecryptConcat(cfg: Config, d: nat, a: seq<Wire>, b: seq<Wire>, j: nat)
    ensures DecryptIncoming(cfg, d, a + b, j) == DecryptIncoming(cfg, d, a, j) + DecryptIncoming(cfg, d, b, j)
  {
    DecryptIsFlat(cfg, d, a, j);
    DecryptIsFlat(cfg, d, b, j);
    DecryptIsFlat(cfg, d, a + b, j);
    FlatMapConcat(PeelOf(cfg, d, j), a, b);
  }

  lemma {:induction false} AlikeTotals(a: seq<seq<Held>>, b: seq<seq<Held>>)
    requires Alike(a, b)
    ensures TotalOutgoing(a) == TotalOutgoing(b)
  {
    if a != [] {
      var n := |a| - 1;
      assert |multiset(a[n])| == |multiset(b[n])|;
      AlikeTotals(a[..n], b[..n]);
    }
  }

  lemma {:induction false} FlattenAlike(a: seq<seq<Held>>, b: seq<seq<Held>>)
    requires Alike(a, b)
    ensures multiset(Flatten(a)) == multiset(Flatten(b))
  {
    if a != [] {
      FlattenAlike(a[..|a| - 1], b[..|b| - 1]);
    }
  }

  /** The check treats batches with the same packets alike. */
  lemma {:induction false} KeptAlike(cfg: Config, a: seq<Held>, b: seq<Held>, key: nat, total: nat)
    requires cfg.n >= 1 && key >= 1 && multiset(a) == multiset(b)
    ensures multiset(Kept(cfg, a, key, total)) == multiset(Kept(cfg, b, key, total))
    ensures Checkable(cfg, a, key, total) ==> Checkable(cfg, b, key, total)
  {
    assert |multiset(a)| == |multiset(b)|;
    var x, y := multiset(FilterValid(cfg, a, key - 1)), multiset(FilterValid(cfg, b, key - 1));
    forall h: Held ensures x[h] == y[h] {
      FilterCounts(cfg, a, key - 1, h);
      FilterCounts(cfg, b, key - 1, h);
    }
    if AllDecided(cfg, a, key - 1) {
      forall i | 0 <= i < |b| ensures cfg.traffic.valid(b[i], key - 1).Ok? {
        assert b[i] in multiset(a);
        var k :| 0 <= k < |a| && a[k] == b[i];
      }
    }
  }

  lemma {:induction false} SendableAlike(cfg: Config, a: seq<seq<Held>>, b: seq<seq<Held>>, key: nat)
    requires cfg.n >= 1 && key >= 1 && Alike(a, b) && Sendable(cfg, a, key)
    ensures Sendable(cfg, b, key)
  {
    hide Checkable, TotalOutgoing;
    AlikeTotals(a, b);
    forall i | 0 <= i < |b| ensures Checkable(cfg, b[i], key, TotalOutgoing(b)) {
      assert Checkable(cfg, a[i], key, TotalOutgoing(a));
      KeptAlike(cfg, a[i], b[i], key, TotalOutgoing(a));
    }
  }

  lemma {:induction false} ConnsPermuted(cfg: Config, d: nat, a: seq<Wire>, b: seq<Wire>, j: nat)
    requires multiset(a) == multiset(b)
    ensures multiset(Conns(DecryptIncoming(cfg, d, a, j))) == multiset(Conns(DecryptIncoming(cfg, d, b, j)))
  {
    hide Conns, DecryptIncoming, FlatMap;
    DecryptPermuted(cfg, d, a, b, j);
    var x, y := DecryptIncoming(cfg, d, a, j), DecryptIncoming(cfg, d, b, j);
    ConnsIsFlat(x);
    ConnsIsFlat(y);
    FlatMapPermuted(ConnOf(), x, y);
  }

  // ---------- Lock step ----------

  /** What mix `a`, with the packets `ws` from layer `k - 1`, sends to mix `d` for layer `k`, before the
      shuffle. */
  function Forwarded(cfg: Config, a: nat, ws: seq<Wire>, k: nat, d: nat): seq<Wire>
    requires cfg.n >= 1 && k >= 1 && d < cfg.n
  {
    var batches := Batches(cfg, a, ws, k - 1);
    Wires(Kept(cfg, batches[d], k, TotalOutgoing(batches)))
  }

  /** What the first `m` mixes send to mix `d`. */
  function Collected(cfg: Config, received: seq<seq<Wire>>, k: nat, m: nat, d: nat): seq<Wire>
    requires cfg.n >= 1 && k >= 1 && d < cfg.n && m <= |received|
  {
    if m == 0 then [] else Collected(cfg, received, k, m - 1, d) + Forwarded(cfg, m - 1, received[m - 1], k, d)
  }

  /** What each mix receives from layer `j`. */
  function Received(cfg: Config, inits: seq<seq<Wire>>, j: nat): (r: seq<seq<Wire>>)
    requires cfg.n >= 1 && |inits| == cfg.n
    ensures |r| == cfg.n
  {
    if j == 0 then inits else
      var before := Received(cfg, inits, j - 1);
      seq(cfg.n, d requires 0 <= d < cfg.n => Collected(cfg, before, j, cfg.n, d))
  }

  /** In lock step no handler of a mix panics at a layer. */
  ghost predicate CleanAt(cfg: Config, inits: seq<seq<Wire>>, d: nat, j: nat)
    requires cfg.n >= 1 && |inits| == cfg.n && d < cfg.n
  {
    var ws := Received(cfg, inits, j)[d];
    Parses(cfg, d, ws, j) && (j + 1 < cfg.layers ==> Sendable(cfg, Batches(cfg, d, ws, j), j + 1))
  }

  ghost predicate Clean(cfg: Config, inits: seq<seq<Wire>>)
    requires cfg.n >= 1 && |inits| == cfg.n
  {
    forall d: nat, j: nat :: d < cfg.n && j < cfg.layers ==> CleanAt(cfg, inits, d, j)
  }

  /** The connections mix `d` stores for the first `m` layers. */
  function LockstepStored(cfg: Config, inits: seq<seq<Wire>>, d: nat, m: nat): seq<Connection>
    requires cfg.n >= 1 && |inits| == cfg.n && d < cfg.n
  {
    if m == 0 then []
    else LockstepStored(cfg, inits, d, m - 1) + Conns(DecryptIncoming(cfg, d, Received(cfg, inits, m - 1)[d], m - 1))
  }

  /** What mix `d` outputs. */
  function LockstepOutput(cfg: Config, inits: seq<seq<Wire>>, d: nat): seq<Wire>
    requires cfg.Valid() && |inits| == cfg.n && d < cfg.n
  {
    Wires(Flatten(Batches(cfg, d, Received(cfg, inits, cfg.layers - 1)[d], cfg.layers - 1)))
  }

  lemma {:induction false} ForwardedPermuted(cfg: Config, a: nat, ws: seq<Wire>, ws': seq<Wire>, k: nat, d: nat)
    requires cfg.n >= 1 && k >= 1 && d < cfg.n && multiset(ws) == multiset(ws')
    ensures multiset(Forwarded(cfg, a, ws, k, d)) == multiset(Forwarded(cfg, a, ws', k, d))
  {
    hide Batches, Kept, TotalOutgoing, Wires;
    var x, y := Batches(cfg, a, ws, k - 1), Batches(cfg, a, ws', k - 1);
    BatchesAlike(cfg, a, ws, ws', k - 1);
    AlikeTotals(x, y);
    KeptAlike(cfg, x[d], y[d], k, TotalOutgoing(x));
    WiresPermuted(Kept(cfg, x[d], k, TotalOutgoing(x)), Kept(cfg, y[d], k, TotalOutgoing(y)));
  }

  // ---------- Panics of a layer ----------

  /** Peeling the packet does not panic, and its next mix exists. */
  ghost predicate Peels(cfg: Config, d: nat, w: Wire, j: nat) {
    var r := cfg.traffic.peel(d, w, j);
    r.Ok? && (r.value.Some? ==> r.value.value.next < cfg.n)
  }

  lemma {:induction false} ParsesEach(cfg: Config, d: nat, ws: seq<Wire>, j: nat)
    ensures Parses(cfg, d, ws, j) <==> forall i :: 0 <= i < |ws| ==> Peels(cfg, d, ws[i], j)
  {
    if ws != [] {
      var n := |ws| - 1;
      ParsesEach(cfg, d, ws[..n], j);
      ParsesSnoc(cfg, d, ws, j);
    }
  }

  lemma {:induction false} ParsesSnoc(cfg: Config, d: nat, ws: seq<Wire>, j: nat)
    requires ws != []
    ensures Parses(cfg, d, ws, j) <==> Parses(cfg, d, ws[..|ws| - 1], j) && Peels(cfg, d, ws[|ws| - 1], j)
  {
    var n := |ws| - 1;
    var rest, all := DecryptIncoming(cfg, d, ws[..n], j), DecryptIncoming(cfg, d, ws, j);
    match cfg.traffic.peel(d, ws[n], j) {
      case Ok(Some(p)) =>
        assert all == rest + [p] && all[|rest|] == p;
        assert forall i :: 0 <= i < |rest| ==> all[i] == rest[i];
      case _ =>
    }
    assert Opens(cfg, d, ws, j) <==> Opens(cfg, d, ws[..n], j) && cfg.traffic.peel(d, ws[n], j).Ok? by {
      forall i | 0 <= i < n ensures ws[..n][i] == ws[i] {
      }
    }
  }

  lemma {:induction false} ParsesAmong(cfg: Config, d: nat, a: seq<Wire>, b: seq<Wire>, j: nat)
    requires Parses(cfg, d, b, j) && forall w :: w in a ==> w in b
    ensures Parses(cfg, d, a, j)
  {
    hide Parses, Peels;
    ParsesEach(cfg, d, a, j);
    ParsesEach(cfg, d, b, j);
    forall i | 0 <= i < |a| ensures Peels(cfg, d, a[i], j) {
      assert a[i] in b;
    }
  }

  // ---------- The order of the injected packets ----------

  /** The same packets given to each mix, in any order. */
  ghost predicate SameInits(a: seq<seq<Wire>>, b: seq<seq<Wire>>) {
    |a| == |b| && forall d :: 0 <= d < |a| ==> multiset(a[d]) == multiset(b[d])
  }

  lemma {:induction false} CollectedPermuted(cfg: Config, a: seq<seq<Wire>>, b: seq<seq<Wire>>, k: nat, m: nat, d: nat)
    requires cfg.n >= 1 && k >= 1 && d < cfg.n && m <= |a| && SameInits(a, b)
    ensures multiset(Collected(cfg, a, k, m, d)) == multiset(Collected(cfg, b, k, m, d))
  {
    hide Forwarded;
    if m > 0 {
      CollectedPermuted(cfg, a, b, k, m - 1, d);
      ForwardedPermuted(cfg, m - 1, a[m - 1], b[m - 1], k, d);
    }
  }

  lemma {:induction false} ReceivedPermuted(cfg: Config, a: seq<seq<Wire>>, b: seq<seq<Wire>>, j: nat)
    requires cfg.n >= 1 && |a| == cfg.n && SameInits(a, b)
    ensures SameInits(Received(cfg, a, j), Received(cfg, b, j))
  {
    hide Collected;
    if j > 0 {
      ReceivedPermuted(cfg, a, b, j - 1);
      forall d | 0 <= d < cfg.n ensures multiset(Received(cfg, a, j)[d]) == multiset(Received(cfg, b, j)[d]) {
        CollectedPermuted(cfg, Received(cfg, a, j - 1), Received(cfg, b, j - 1), j, cfg.n, d);
      }
    }
  }

  lemma {:induction false} ReceivedAt(cfg: Config, a: seq<seq<Wire>>, b: seq<seq<Wire>>, j: nat, d: nat)
    requires cfg.n >= 1 && |a| == cfg.n && SameInits(a, b) && d < cfg.n
    ensures |b| == cfg.n && multiset(Received(cfg, a, j)[d]) == multiset(Received(cfg, b, j)[d])
  {
    hide Received;
    ReceivedPermuted(cfg, a, b, j);
  }

  lemma {:induction false} StoredPermuted(cfg: Config, a: seq<seq<Wire>>, b: seq<seq<Wire>>, d: nat, m: nat)
    requires cfg.n >= 1 && |a| == |b| == cfg.n && SameInits(a, b) && d < cfg.n
    ensures multiset(LockstepStored(cfg, a, d, m)) == multiset(LockstepStored(cfg, b, d, m))
  {
    hide Received, Conns, DecryptIncoming, SameInits;
    if m > 0 {
      StoredPermuted(cfg, a, b, d, m - 1);
      ReceivedAt(cfg, a, b, m - 1, d);
      var x, y := Received(cfg, a, m - 1)[d], Received(cfg, b, m - 1)[d];
      ConnsPermuted(cfg, d, x, y, m - 1);
      Joined(LockstepStored(cfg, a, d, m - 1), Conns(DecryptIncoming(cfg, d, x, m - 1)),
             LockstepStored(cfg, b, d, m - 1), Conns(DecryptIncoming(cfg, d, y, m - 1)));
    }
  }
}
