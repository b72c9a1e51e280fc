/** The check of large outgoing batches, over exact rationals: few batches can be over the limit, and
    what is sent of those is exactly what verifies. */
module EdgeCases {
  import opened Results
  import opened MixServer

  /** The limit, without the rounding to a whole number. */
  lemma LimitExact(cfg: Config, i: nat, total: nat)
    requires cfg.n >= 1
    ensures OverLimit(cfg, i, total) <==> (i as real) * (cfg.n as real) > cfg.edge * (total as real)
  {
    hide Share;
    LimitLaw(i, Share(cfg, total), cfg.n as real, cfg.edge * (total as real));
  }

  lemma LimitLaw(i: nat, x: real, n: real, e: real)
    requires n > 0.0 && x * n == e
    ensures i > x.Floor <==> (i as real) * n > e
  {
    AboveFloor(i, x);
    Scale(i as real, x, n);
  }

  lemma AboveFloor(i: int, x: real)
    ensures i > x.Floor <==> (i as real) > x
  {
  }

  lemma Scale(a: real, b: real, c: real)
    requires c > 0.0
    ensures a * c > b * c <==> a > b
  {
    if a > b {
      assert (a - b) * c > 0.0;
    } else {
      assert (b - a) * c >= 0.0;
    }
  }

  /** How many of the batches are over the limit for a layer of `total` packets. */
  function OverCount(cfg: Config, batches: seq<seq<Held>>, total: nat): nat
    requires cfg.n >= 1
  {
    if batches == [] then 0
    else OverCount(cfg, batches[..|batches| - 1], total) + if OverLimit(cfg, |batches[|batches| - 1]|, total) then 1 else 0
  }

  /** Each batch over the limit has more than its share of the packets. */
  lemma {:induction false} OverTotal(cfg: Config, batches: seq<seq<Held>>, total: nat, share: real)
    requires cfg.n >= 1 && share >= 0.0 && share == cfg.edge * (total as real)
    ensures (TotalOutgoing(batches) as real) * (cfg.n as real) >= (OverCount(cfg, batches, total) as real) * share
    ensures OverCount(cfg, batches, total) > 0 ==>
      (TotalOutgoing(batches) as real) * (cfg.n as real) > (OverCount(cfg, batches, total) as real) * share
  {
    hide OverLimit;
    if batches != [] {
      var k := |batches| - 1;
      OverTotal(cfg, batches[..k], total, share);
      LimitExact(cfg, |batches[k]|, total);
      AddBatch(TotalOutgoing(batches[..k]) as real, |batches[k]| as real, cfg.n as real, OverCount(cfg, batches[..k], total) as real, share);
    }
  }

  lemma AddBatch(rest: real, last: real, n: real, c: real, share: real)
    requires last >= 0.0 && n >= 0.0
    ensures (rest + last) * n == rest * n + last * n && last * n >= 0.0
    ensures (c + 1.0) * share == c * share + share
  {
  }

  /** With edge factor E, fewer than n / E of the batches of a layer are over the limit. */
  lemma {:induction false} FewOverLimit(cfg: Config, batches: seq<seq<Held>>)
    requires cfg.n >= 1 && cfg.edge >= 0.0
    ensures (OverCount(cfg, batches, TotalOutgoing(batches)) as real) * cfg.edge < cfg.n as real
  {
    hide OverCount, TotalOutgoing;
    var total := TotalOutgoing(batches);
    var count, share := OverCount(cfg, batches, total), cfg.edge * (total as real);
    OverTotal(cfg, batches, total, share);
    if count > 0 {
      ShareOut(count as real, cfg.edge, total as real, cfg.n as real, share);
    }
  }

  lemma ShareOut(count: real, e: real, total: real, n: real, share: real)
    requires total >= 0.0 && share == e * total && total * n > count * share
    ensures count * e < n
  {
    Regroup(count, e, total);
    var x := count * e;
    assert total * n > x * total;
    if total > 0.0 {
      Scale(n, x, total);
    }
  }

  lemma Regroup(a: real, b: real, c: real)
    ensures a * (b * c) == (a * b) * c
  {
  }

  /** How often a packet occurs in a batch. */
  lemma {:induction false} FilterCounts(cfg: Config, batch: seq<Held>, layer: nat, h: Held)
    ensures multiset(FilterValid(cfg, batch, layer))[h] == if cfg.traffic.valid(h, layer) == Ok(true) then multiset(batch)[h] else 0
  {
    if batch != [] {
      var n := |batch| - 1;
      assert batch == batch[..n] + [batch[n]];
      FilterCounts(cfg, batch[..n], layer, h);
    }
  }

  /** What is sent of a batch of layer `key`: within the limit, or when no check applies, all of it;
      otherwise every packet that is valid for the layer it was peeled at, as often as it was there,
      and no other. */
  lemma SentOfBatch(cfg: Config, batch: seq<Held>, key: nat, total: nat, h: Held)
    requires cfg.n >= 1 && key >= 1
    ensures multiset(Kept(cfg, batch, key, total))[h] ==
      if cfg.traffic.checked && (|batch| as real) * (cfg.n as real) > cfg.edge * (total as real) && cfg.traffic.valid(h, key - 1) != Ok(true)
      then 0 else multiset(batch)[h]
  {
    LimitExact(cfg, |batch|, total);
    FilterCounts(cfg, batch, key - 1, h);
  }
}
