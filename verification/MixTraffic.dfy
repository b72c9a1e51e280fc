/** Rounds of real packets: honest setup packets, then data packets over the circuits they set up. */
module MixTraffic {
  import opened Results
  import opened Signatures
  import opened Network
  import opened Circuits
  import opened MixServer
  import opened MixRound
  import opened MixSafety
  import opened MixLockstep
  import opened MixPanics
  import opened MixProgress
  import opened MixRefinement

  // ---------- Rounds of given packets ----------

  /** A packet and the mix it is given to. */
  datatype Item = Item(first: nat, wire: Wire)

  /** The packets given to mix `m`. */
  function ItemsAt(items: seq<Item>, m: nat): seq<Wire> {
    if items == [] then []
    else
      var rest, last := ItemsAt(items[..|items| - 1], m), items[|items| - 1];
      if last.first == m then rest + [last.wire] else rest
  }

  /** Each mix starts the round with its packets, in any order. */
  ghost predicate Injects(items: seq<Item>, inits: seq<seq<Wire>>) {
    forall m :: 0 <= m < |inits| ==> multiset(inits[m]) == multiset(ItemsAt(items, m))
  }

  function ItemSum(cfg: Config, items: seq<Item>): multiset<Outcome>
    requires ValidRound(cfg)
  {
    if items == [] then multiset{}
    else ItemSum(cfg, items[..|items| - 1]) + Path(cfg, false, items[|items| - 1].first, items[|items| - 1].wire, 0)
  }

  /** The packets given to the first `n` mixes. */
  function ItemsUpTo(cfg: Config, items: seq<Item>, n: nat): multiset<Outcome>
    requires ValidRound(cfg)
  {
    if n == 0 then multiset{} else ItemsUpTo(cfg, items, n - 1) + PacketSum(cfg, false, n - 1, ItemsAt(items, n - 1), 0)
  }

  lemma {:induction false} InjectedItems(cfg: Config, items: seq<Item>, inits: seq<seq<Wire>>, n: nat)
    requires ValidRound(cfg) && Injects(items, inits) && n <= |inits|
    ensures Injected(cfg, false, inits, n) == ItemsUpTo(cfg, items, n)
  {
    hide PacketSum, ItemsAt;
    if n > 0 {
      InjectedItems(cfg, items, inits, n - 1);
      PacketSumPermuted(cfg, false, n - 1, inits[n - 1], ItemsAt(items, n - 1), 0);
    }
  }

  lemma {:induction false} NoItems(cfg: Config, n: nat)
    requires ValidRound(cfg)
    ensures ItemsUpTo(cfg, [], n) == multiset{}
  {
    if n > 0 {
      NoItems(cfg, n - 1);
    }
  }

  lemma {:induction false} OneMoreItem(cfg: Config, items: seq<Item>, n: nat)
    requires ValidRound(cfg) && items != []
    ensures var rest, last := items[..|items| - 1], items[|items| - 1];
      ItemsUpTo(cfg, items, n)
      == ItemsUpTo(cfg, rest, n) + if last.first < n then Path(cfg, false, last.first, last.wire, 0) else multiset{}
  {
    hide Path, PacketSum, ItemsAt;
    if n > 0 {
      var rest, last := items[..|items| - 1], items[|items| - 1];
      assert items == rest + [last];
      OneMoreItem(cfg, items, n - 1);
      ItemAt(cfg, rest, last, n - 1);
      AddApart(ItemsUpTo(cfg, rest, n - 1), if last.first < n - 1 then Path(cfg, false, last.first, last.wire, 0) else multiset{},
               PacketSum(cfg, false, n - 1, ItemsAt(rest, n - 1), 0),
               if last.first == n - 1 then Path(cfg, false, n - 1, last.wire, 0) else multiset{});
    }
  }

  lemma AddApart<T>(a: multiset<T>, x: multiset<T>, b: multiset<T>, y: multiset<T>)
    ensures (a + x) + (b + y) == (a + b) + (x + y)
    ensures x == multiset{} ==> x + y == y
    ensures y == multiset{} ==> x + y == x
  {
  }

  lemma {:induction false} ItemAt(cfg: Config, rest: seq<Item>, last: Item, m: nat)
    requires ValidRound(cfg)
    ensures PacketSum(cfg, false, m, ItemsAt(rest + [last], m), 0)
         == PacketSum(cfg, false, m, ItemsAt(rest, m), 0) + if last.first == m then Path(cfg, false, m, last.wire, 0) else multiset{}
  {
    hide Path;
    assert (rest + [last])[..|rest|] == rest;
    if last.first == m {
      var ws := ItemsAt(rest, m);
      assert (ws + [last.wire])[..|ws|] == ws;
    }
  }

  lemma {:induction false} AllItems(cfg: Config, items: seq<Item>)
    requires ValidRound(cfg) && forall i :: 0 <= i < |items| ==> items[i].first < cfg.n
    ensures ItemsUpTo(cfg, items, cfg.n) == ItemSum(cfg, items)
  {
    hide Path, ItemsUpTo;
    if items == [] {
      NoItems(cfg, cfg.n);
    } else {
      AllItems(cfg, items[..|items| - 1]);
      OneMoreItem(cfg, items, cfg.n);
    }
  }

  lemma {:induction false} ItemsFrom(items: seq<Item>, m: nat, i: nat)
    requires i < |ItemsAt(items, m)|
    ensures exists k :: 0 <= k < |items| && items[k] == Item(m, ItemsAt(items, m)[i])
  {
    var n := |items| - 1;
    var rest := ItemsAt(items[..n], m);
    if i < |rest| {
      ItemsFrom(items[..n], m, i);
      var k :| 0 <= k < n && items[..n][k] == Item(m, rest[i]);
      assert items[k] == Item(m, ItemsAt(items, m)[i]);
    } else {
      assert items[n] == Item(m, ItemsAt(items, m)[i]);
    }
  }

  lemma {:induction false} ItemsPass(cfg: Config, items: seq<Item>, inits: seq<seq<Wire>>)
    requires ValidRound(cfg) && Injects(items, inits)
    requires forall k :: 0 <= k < |items| ==>
      Path(cfg, true, items[k].first, items[k].wire, 0) == Path(cfg, false, items[k].first, items[k].wire, 0)
    ensures AllPass(cfg, inits)
  {
    hide Path;
    forall d, i | 0 <= d < |inits| && 0 <= i < |inits[d]|
      ensures Path(cfg, true, d, inits[d][i], 0) == Path(cfg, false, d, inits[d][i], 0)
    {
      assert inits[d][i] in multiset(inits[d]);
      assert inits[d][i] in ItemsAt(items, d);
      var j :| 0 <= j < |ItemsAt(items, d)| && ItemsAt(items, d)[j] == inits[d][i];
      ItemsFrom(items, d, j);
    }
  }

  /** A round that starts with given packets, none of which a check would drop, ends with what each of
      them gives alone. */
  lemma {:induction false} RoundOfItems(cfg: Config, items: seq<Item>, inits: seq<seq<Wire>>, states: seq<State>)
    requires ValidRound(cfg) && |inits| == cfg.n && Injects(items, inits)
    requires forall i :: 0 <= i < |items| ==> items[i].first < cfg.n
    requires forall k :: 0 <= k < |items| ==>
      Path(cfg, true, items[k].first, items[k].wire, 0) == Path(cfg, false, items[k].first, items[k].wire, 0)
    requires Run(cfg, inits, states) && Complete(cfg, states[|states| - 1])
    ensures Outcomes(states[|states| - 1].mixes) == ItemSum(cfg, items)
  {
    hide Run, Complete, Outcomes, Path, ItemsAt, ItemSum, ItemsUpTo, Injected, AllPass, Injects;
    ItemsPass(cfg, items, inits);
    RoundExact(cfg, inits, states);
    InjectedItems(cfg, items, inits, cfg.n);
    AllItems(cfg, items);
  }

  /** Each mix starts the round with its packets and any others. */
  ghost predicate Includes(items: seq<Item>, inits: seq<seq<Wire>>) {
    forall m :: 0 <= m < |inits| ==> multiset(ItemsAt(items, m)) <= multiset(inits[m])
  }

  lemma {:induction false} IncludedItems(cfg: Config, items: seq<Item>, inits: seq<seq<Wire>>, n: nat)
    requires ValidRound(cfg) && Includes(items, inits) && n <= |inits|
    requires forall k :: 0 <= k < |items| ==>
      Path(cfg, true, items[k].first, items[k].wire, 0) == Path(cfg, false, items[k].first, items[k].wire, 0)
    ensures ItemsUpTo(cfg, items, n) <= Injected(cfg, true, inits, n)
  {
    hide PacketSum, ItemsAt, Path;
    if n > 0 {
      IncludedItems(cfg, items, inits, n - 1);
      var ws := ItemsAt(items, n - 1);
      PacketSumPart(cfg, true, n - 1, ws, inits[n - 1], 0);
      forall i | 0 <= i < |ws| ensures Path(cfg, true, n - 1, ws[i], 0) == Path(cfg, false, n - 1, ws[i], 0) {
        ItemsFrom(items, n - 1, i);
      }
      SamePackets(cfg, n - 1, ws, 0);
    }
  }

  /** Whatever else is injected, packets that no check would drop all get where they get alone. */
  lemma {:induction false} RoundAmongOthers(cfg: Config, items: seq<Item>, inits: seq<seq<Wire>>, states: seq<State>)
    requires ValidRound(cfg) && |inits| == cfg.n && Includes(items, inits)
    requires forall i :: 0 <= i < |items| ==> items[i].first < cfg.n
    requires forall k :: 0 <= k < |items| ==>
      Path(cfg, true, items[k].first, items[k].wire, 0) == Path(cfg, false, items[k].first, items[k].wire, 0)
    requires Run(cfg, inits, states) && Complete(cfg, states[|states| - 1])
    ensures ItemSum(cfg, items) <= Outcomes(states[|states| - 1].mixes)
  {
    hide Run, Complete, Outcomes, Path, ItemsAt, ItemSum, ItemsUpTo, Injected, Includes;
    RoundRefinement(cfg, inits, states);
    IncludedItems(cfg, items, inits, cfg.n);
    AllItems(cfg, items);
  }

  /** If none of the given packets panics on its own path, no handler panics in lock step. */
  lemma {:induction false} CleanItems(cfg: Config, items: seq<Item>, inits: seq<seq<Wire>>)
    requires cfg.Valid() && |inits| == cfg.n && Injects(items, inits)
    requires forall k :: 0 <= k < |items| ==> Safe(cfg, items[k].first, items[k].wire, 0)
    ensures Clean(cfg, inits)
  {
    hide Safe, Clean, ItemsAt;
    forall d: nat, w | d < |inits| && w in inits[d] ensures Safe(cfg, d, w, 0) {
      assert w in multiset(inits[d]);
      var j :| 0 <= j < |ItemsAt(items, d)| && ItemsAt(items, d)[j] == w;
      ItemsFrom(items, d, j);
    }
    SafeIsClean(cfg, inits);
  }

  // ---------- Setup packets ----------

  ghost function PeelSetup(net: Network, d: nat, w: Wire, j: nat): Result<Option<Peeled>>
    requires net.Valid()
  {
    if d >= net.size then Panic
    else match DecryptSetupLayer(w, d, net, j)
      case Ok(Some((packet, next, conn))) => Ok(Some(Peeled(HeldSetup(packet), next, Some(conn))))
      case Ok(None) => Ok(None)
      case _ => Panic
  }

  ghost function ValidSetup(net: Network, h: Held, layer: nat): Result<bool>
    requires net.Valid()
  {
    match h
    case DataPacket(_) => Ok(false)
    case HeldSetup(packet) =>
      match VerifyHeader(packet.header, net, layer)
      case Ok((_, valid)) => Ok(valid)
      case _ => Panic
  }

  ghost function SetupTraffic(net: Network): Traffic
    requires net.Valid()
  {
    Traffic((d: nat, w: Wire, j: nat) => PeelSetup(net, d, w, j), net.mode == OnlyVerifyEdgeCases,
            (h: Held, layer: nat) => ValidSetup(net, h, layer))
  }

  ghost function SetupConfig(net: Network, edge: real): (cfg: Config)
    requires net.Valid() && edge >= 0.0
    ensures cfg.Valid() && cfg.n == net.size && cfg.layers == net.layers
  {
    Config(net.size, net.layers, edge, SetupTraffic(net))
  }

  function VisitSum(visits: seq<Visit>): multiset<Outcome> {
    if visits == [] then multiset{}
    else VisitSum(visits[..|visits| - 1]) + multiset{Stored(visits[|visits| - 1].0, visits[|visits| - 1].1)}
  }

  lemma {:induction false} VisitFirst(v: Visit, rest: seq<Visit>)
    ensures VisitSum([v] + rest) == multiset{Stored(v.0, v.1)} + VisitSum(rest)
  {
    if rest == [] {
      assert [v] + rest == [v];
      assert [v][..0] == [];
    } else {
      assert ([v] + rest)[..|rest|] == [v] + rest[..|rest| - 1];
      VisitFirst(v, rest[..|rest| - 1]);
    }
  }

  /** Every layer passes on arrival and, but for the last, verifies. */
  ghost predicate Verified(net: Network, hs: seq<Header>, i: nat)
    requires net.Valid()
  {
    && InNetwork(net, hs)
    && (forall j :: 0 <= j < |hs| ==> Passes(net, hs[j], i + j))
    && (forall j :: 0 <= j < |hs| && i + j != net.LastLayer() ==> VerifyHeader(hs[j].0, net, i + j) == Ok((hs[j].1, true)))
  }

  lemma VerifiedRest(net: Network, hs: seq<Header>, i: nat)
    requires net.Valid() && Verified(net, hs, i) && hs != []
    ensures InNetwork(net, hs) && Verified(net, hs[1..], i + 1) && InNetwork(net, hs[1..]) && Passes(net, hs[0], i)
    ensures i != net.LastLayer() ==> VerifyHeader(hs[0].0, net, i) == Ok((hs[0].1, true))
  {
    hide Passes, VerifyHeader;
    var rest := hs[1..];
    assert Passes(net, hs[0], i + 0);
    forall j | 0 <= j < |rest|
      ensures Passes(net, rest[j], i + 1 + j)
        && (i + 1 + j != net.LastLayer() ==> VerifyHeader(rest[j].0, net, i + 1 + j) == Ok((rest[j].1, true)))
    {
      assert Passes(net, hs[j + 1], i + (j + 1));
      assert i + (j + 1) != net.LastLayer() ==> VerifyHeader(hs[j + 1].0, net, i + (j + 1)) == Ok((hs[j + 1].1, true));
    }
  }

  lemma OpenLayer(net: Network, edge: real, h: Header, data: Wire, curServer: nat, i: nat)
    requires net.Valid() && edge >= 0.0 && curServer < net.size && Passes(net, h, i)
    ensures SetupConfig(net, edge).traffic.peel(curServer, Sealed(net.servers[curServer], SetupPacket(h.0, data)), i)
         == Ok(Some(Peeled(HeldSetup(SetupPacket(h.0, data)), h.1, Some(h.0.conn))))
  {
    hide VerifyHeader, ServerFromTicket;
    var w := Sealed(net.servers[curServer], SetupPacket(h.0, data));
    assert DecryptSetupLayer(w, curServer, net, i) == Ok(Some((SetupPacket(h.0, data), h.1, h.0.conn)));
  }

  lemma ValidLayer(net: Network, edge: real, h: Header, data: Wire, i: nat)
    requires net.Valid() && edge >= 0.0 && VerifyHeader(h.0, net, i) == Ok((h.1, true))
    ensures SetupConfig(net, edge).traffic.valid(HeldSetup(SetupPacket(h.0, data)), i) == Ok(true)
  {
    hide VerifyHeader;
  }

  /** A verified setup packet, alone: it stores a connection at each server of its circuit and ends as
      empty data at the last. */
  lemma {:induction false} SetupPath(net: Network, edge: real, strict: bool, hs: seq<Header>, i: nat, first: nat, curServer: nat)
    requires net.Valid() && net.layers >= 2 && edge >= 0.0 && first < net.size && curServer < net.size
    requires hs != [] && |hs| == net.layers - i && Verified(net, hs, i) && KeysAgree(net, hs)
    requires if i == 0 then curServer == first else net.servers[hs[0].1] == net.servers[curServer]
    ensures Path(SetupConfig(net, edge), strict, curServer, Wrap(net, hs, i, first), i)
         == VisitSum(Visits(hs, curServer)) + multiset{Delivered(Visits(hs, curServer)[|hs| - 1].0, Plain([]))}
    decreases |hs|
  {
    hide VerifyHeader, ServerFromTicket, Passes, Verified, KeysAgree, SetupConfig, VisitSum, Path, Visits;
    var cfg, rest := SetupConfig(net, edge), hs[1..];
    VerifiedRest(net, hs, i);
    var data := Wrap(net, rest, i + 1, first);
    KeysAgreeStep(net, hs);
    VisitsStep(hs, curServer);
    VisitFirst((curServer, hs[0].0.conn), Visits(rest, hs[0].1));
    OpenLayer(net, edge, hs[0], data, curServer, i);
    var held := HeldSetup(SetupPacket(hs[0].0, data));
    PathStep(cfg, strict, curServer, Wrap(net, hs, i, first), i, held, hs[0].1, hs[0].0.conn);
    if rest == [] {
      NoVisitSum(hs[0].1);
    } else {
      ValidLayer(net, edge, hs[0], data, i);
      SetupPath(net, edge, strict, rest, i + 1, first, hs[0].1);
    }
  }

  /** On that path nothing panics. */
  lemma {:induction false} SetupSafe(net: Network, edge: real, hs: seq<Header>, i: nat, first: nat, curServer: nat)
    requires net.Valid() && edge >= 0.0 && first < net.size && curServer < net.size
    requires hs != [] && |hs| == net.layers - i && Verified(net, hs, i) && KeysAgree(net, hs)
    requires if i == 0 then curServer == first else net.servers[hs[0].1] == net.servers[curServer]
    ensures Safe(SetupConfig(net, edge), curServer, Wrap(net, hs, i, first), i)
    decreases |hs|
  {
    hide VerifyHeader, ServerFromTicket, Passes, Verified, KeysAgree, SetupConfig, Safe;
    var cfg, rest := SetupConfig(net, edge), hs[1..];
    VerifiedRest(net, hs, i);
    var data := Wrap(net, rest, i + 1, first);
    KeysAgreeStep(net, hs);
    OpenLayer(net, edge, hs[0], data, curServer, i);
    if rest != [] {
      ValidLayer(net, edge, hs[0], data, i);
      SetupSafe(net, edge, rest, i + 1, first, hs[0].1);
    }
    SafeLayer(cfg, curServer, Wrap(net, hs, i, first), i, Peeled(HeldSetup(SetupPacket(hs[0].0, data)), hs[0].1, Some(hs[0].0.conn)));
  }

  lemma SafeLayer(cfg: Config, d: nat, w: Wire, j: nat, p: Peeled)
    requires cfg.Valid() && j < cfg.layers && cfg.traffic.peel(d, w, j) == Ok(Some(p)) && p.next < cfg.n
    requires j + 1 < cfg.layers ==>
      (cfg.traffic.checked ==> cfg.traffic.valid(p.held, j).Ok?) && Safe(cfg, p.next, WireOf(p.held), j + 1)
    ensures Safe(cfg, d, w, j)
  {
  }

  /** One layer of the path of a packet that stores a connection. */
  lemma PathStep(cfg: Config, strict: bool, d: nat, w: Wire, j: nat, held: Held, next: nat, conn: Connection)
    requires ValidRound(cfg) && j < cfg.layers && cfg.traffic.peel(d, w, j) == Ok(Some(Peeled(held, next, Some(conn))))
    ensures j + 1 == cfg.layers ==>
      Path(cfg, strict, d, w, j) == multiset{MixRefinement.Stored(d, conn)} + multiset{Delivered(d, WireOf(held))}
    ensures j + 1 < cfg.layers && cfg.traffic.valid(held, j) == Ok(true) ==>
      Path(cfg, strict, d, w, j) == multiset{MixRefinement.Stored(d, conn)} + Path(cfg, strict, next, WireOf(held), j + 1)
  {
  }

  lemma NoVisitSum(curServer: nat)
    ensures VisitSum(Visits([], curServer)) == multiset{}
  {
  }

  // ---------- Honest senders ----------

  /** A client with its signature, its random choices and its first server. */
  datatype Sender = Sender(sig: Signature, coins: seq<LayerCoins>, first: nat) {

    ghost predicate Ready(net: Network) {
      net.Valid() && Honest(net, sig) && UsableLayers(coins) && |coins| == net.layers && first < net.size
    }

    ghost function Layers(net: Network): (hs: seq<Header>)
      requires Ready(net)
      ensures |hs| == net.layers && InNetwork(net, hs)
    {
      PacketLayers(net, sig, Keep, coins, 0);
      Headers(net, sig, Keep, coins, 0).value
    }

    ghost function Route(net: Network): (visits: seq<Visit>)
      requires Ready(net)
      ensures |visits| == net.layers
    {
      Visits(Layers(net), first)
    }

    ghost function Setup(net: Network): Wire
      requires Ready(net)
    {
      Wrap(net, Layers(net), 0, first)
    }
  }

  ghost predicate AllReady(net: Network, senders: seq<Sender>) {
    forall i :: 0 <= i < |senders| ==> senders[i].Ready(net) && KeysAgree(net, senders[i].Layers(net))
  }

  lemma SenderVerified(net: Network, c: Sender)
    requires c.Ready(net)
    ensures Verified(net, c.Layers(net), 0)
  {
    hide VerifyHeader, ServerFromTicket, Passes;
    PacketLayers(net, c.sig, Keep, c.coins, 0);
    LayersVerify(net, c.sig, c.coins, 0);
  }

  lemma {:induction false} LayersVerify(net: Network, sig: Signature, coins: seq<LayerCoins>, i: nat)
    requires net.Valid() && Honest(net, sig) && UsableLayers(coins) && |coins| == net.layers && i <= net.layers
    ensures Headers(net, sig, Keep, coins, i).Ok?
    ensures var hs := Headers(net, sig, Keep, coins, i).value;
      forall j :: 0 <= j < |hs| && i + j != net.LastLayer() ==> VerifyHeader(hs[j].0, net, i + j) == Ok((hs[j].1, true))
    decreases net.layers - i
  {
    hide LayerHeader, VerifyHeader, Honest;
    if i < net.layers {
      LayersVerify(net, sig, coins, i + 1);
      HonestLayer(net, sig, i, coins[i]);
      var rest := Headers(net, sig, Keep, coins, i + 1).value;
      var hs := Headers(net, sig, Keep, coins, i).value;
      assert hs == [LayerHeader(net, sig, i, coins[i]).value] + rest;
      hide Headers;
      forall j | 0 <= j < |hs| && i + j != net.LastLayer() ensures VerifyHeader(hs[j].0, net, i + j) == Ok((hs[j].1, true)) {
        if j > 0 {
          assert hs[j] == rest[j - 1] && i + j == i + 1 + (j - 1);
        }
      }
    }
  }

  ghost function SetupItems(net: Network, senders: seq<Sender>): (items: seq<Item>)
    requires AllReady(net, senders)
    ensures |items| == |senders|
  {
    seq(|senders|, i requires 0 <= i < |senders| => Item(senders[i].first, senders[i].Setup(net)))
  }

  /** What an honest setup packet should give: its connections, and nothing at the end. */
  ghost function Fate(net: Network, c: Sender): multiset<Outcome>
    requires c.Ready(net)
  {
    VisitSum(c.Route(net)) + multiset{Delivered(c.Route(net)[net.layers - 1].0, Plain([]))}
  }

  ghost function Fates(net: Network, senders: seq<Sender>): multiset<Outcome>
    requires AllReady(net, senders)
  {
    if senders == [] then multiset{}
    else Fates(net, senders[..|senders| - 1]) + Fate(net, senders[|senders| - 1])
  }

  lemma {:induction false} SenderPath(net: Network, edge: real, strict: bool, c: Sender)
    requires c.Ready(net) && net.layers >= 2 && edge >= 0.0 && KeysAgree(net, c.Layers(net))
    ensures Path(SetupConfig(net, edge), strict, c.first, c.Setup(net), 0) == Fate(net, c)
  {
    hide Path, Wrap, KeysAgree, Verified, SetupConfig, Headers, Visits, VisitSum, Honest, UsableLayers;
    SenderVerified(net, c);
    SetupPath(net, edge, strict, c.Layers(net), 0, c.first, c.first);
  }

  lemma {:induction false} SenderSafe(net: Network, edge: real, c: Sender)
    requires c.Ready(net) && edge >= 0.0 && KeysAgree(net, c.Layers(net))
    ensures Safe(SetupConfig(net, edge), c.first, c.Setup(net), 0)
  {
    hide Safe, Wrap, KeysAgree, Verified, SetupConfig, Headers, Honest, UsableLayers;
    SenderVerified(net, c);
    SetupSafe(net, edge, c.Layers(net), 0, c.first, c.first);
  }

  lemma {:induction false} SetupItemSum(net: Network, edge: real, senders: seq<Sender>)
    requires net.Valid() && net.layers >= 2 && edge >= 0.0 && AllReady(net, senders)
    ensures ItemSum(SetupConfig(net, edge), SetupItems(net, senders)) == Fates(net, senders)
  {
    hide Path, Fate, SetupConfig, KeysAgree;
    if senders != [] {
      var n := |senders| - 1;
      assert SetupItems(net, senders)[..n] == SetupItems(net, senders[..n]);
      SetupItemSum(net, edge, senders[..n]);
      SenderPath(net, edge, false, senders[n]);
    }
  }

  /** A setup round of honest clients, in any interleaving and any verification mode: the mixes have
      stored exactly the connections of every client's circuit, each at its server, and every packet
      has arrived, empty, at the end of its circuit. */
  lemma {:induction false} HonestSetupRound(net: Network, edge: real, senders: seq<Sender>, inits: seq<seq<Wire>>, states: seq<State>)
    requires net.Valid() && net.layers >= 2 && edge >= 0.0 && AllReady(net, senders)
    requires |inits| == net.size && Injects(SetupItems(net, senders), inits)
    requires Run(SetupConfig(net, edge), inits, states) && Complete(SetupConfig(net, edge), states[|states| - 1])
    ensures Outcomes(states[|states| - 1].mixes) == Fates(net, senders)
  {
    hide Path, Fate, SetupConfig, KeysAgree, Run, Complete, Outcomes, Injects, ItemSum, Fates;
    var cfg, items := SetupConfig(net, edge), SetupItems(net, senders);
    forall k | 0 <= k < |items|
      ensures Path(cfg, true, items[k].first, items[k].wire, 0) == Path(cfg, false, items[k].first, items[k].wire, 0)
    {
      SenderPath(net, edge, true, senders[k]);
      SenderPath(net, edge, false, senders[k]);
    }
    RoundOfItems(cfg, items, inits, states);
    SetupItemSum(net, edge, senders);
  }

  /** A setup round of honest clients can be completed from any point of any run. */
  lemma {:induction false} HonestSetupCompletes(net: Network, edge: real, senders: seq<Sender>, inits: seq<seq<Wire>>, states: seq<State>)
    returns (whole: seq<State>)
    requires net.Valid() && net.layers >= 2 && edge >= 0.0 && AllReady(net, senders)
    requires |inits| == net.size && Injects(SetupItems(net, senders), inits)
    requires Run(SetupConfig(net, edge), inits, states)
    ensures Run(SetupConfig(net, edge), inits, whole) && states <= whole && Complete(SetupConfig(net, edge), whole[|whole| - 1])
    ensures Outcomes(whole[|whole| - 1].mixes) == Fates(net, senders)
  {
    hide Safe, SetupConfig, KeysAgree, Run, Complete, Injects, Clean, Outcomes, Fates;
    var cfg, items := SetupConfig(net, edge), SetupItems(net, senders);
    forall k | 0 <= k < |items| ensures Safe(cfg, items[k].first, items[k].wire, 0) {
      SenderSafe(net, edge, senders[k]);
    }
    CleanItems(cfg, items, inits);
    whole := CanComplete(cfg, inits, states);
    HonestSetupRound(net, edge, senders, inits, whole);
  }

  /** Whatever other packets are injected, if the round is completed then every honest client's
      connections are stored, and its packet arrives. */
  lemma {:induction false} HonestAmongOthers(net: Network, edge: real, senders: seq<Sender>, inits: seq<seq<Wire>>, states: seq<State>)
    requires net.Valid() && net.layers >= 2 && edge >= 0.0 && AllReady(net, senders)
    requires |inits| == net.size && Includes(SetupItems(net, senders), inits)
    requires Run(SetupConfig(net, edge), inits, states) && Complete(SetupConfig(net, edge), states[|states| - 1])
    ensures Fates(net, senders) <= Outcomes(states[|states| - 1].mixes)
  {
    hide Path, Fate, SetupConfig, KeysAgree, Run, Complete, Outcomes, Includes, ItemSum, Fates;
    var cfg, items := SetupConfig(net, edge), SetupItems(net, senders);
    forall k | 0 <= k < |items|
      ensures Path(cfg, true, items[k].first, items[k].wire, 0) == Path(cfg, false, items[k].first, items[k].wire, 0)
    {
      SenderPath(net, edge, true, senders[k]);
      SenderPath(net, edge, false, senders[k]);
    }
    RoundAmongOthers(cfg, items, inits, states);
    SetupItemSum(net, edge, senders);
  }

  // ---------- Modes ----------

  lemma {:induction false} SameHeaders(net: Network, mode: Verification, sig: Signature, coins: seq<LayerCoins>, i: nat)
    requires net.Valid() && UsableLayers(coins) && |coins| == net.layers && i <= net.layers
    ensures Headers(net.(mode := mode), sig, Keep, coins, i) == Headers(net, sig, Keep, coins, i)
    decreases net.layers - i
  {
    hide LayerHeader;
    if i < net.layers {
      SameHeaders(net, mode, sig, coins, i + 1);
      SameHeader(net, mode, sig, i, coins[i]);
    }
  }

  lemma SameSender(net: Network, mode: Verification, c: Sender)
    requires c.Ready(net)
    ensures c.Ready(net.(mode := mode)) && c.Layers(net.(mode := mode)) == c.Layers(net)
    ensures KeysAgree(net.(mode := mode), c.Layers(net)) <==> KeysAgree(net, c.Layers(net))
  {
    hide Headers;
    SameHeaders(net, mode, c.sig, c.coins, 0);
  }

  lemma {:induction false} SameFates(net: Network, mode: Verification, senders: seq<Sender>)
    requires AllReady(net, senders)
    ensures AllReady(net.(mode := mode), senders) && Fates(net.(mode := mode), senders) == Fates(net, senders)
  {
    hide KeysAgree, Fate, Headers, Honest;
    forall i | 0 <= i < |senders|
      ensures senders[i].Ready(net.(mode := mode)) && KeysAgree(net.(mode := mode), senders[i].Layers(net.(mode := mode)))
    {
      SameSender(net, mode, senders[i]);
    }
    if senders != [] {
      SameFates(net, mode, senders[..|senders| - 1]);
      SameFate(net, mode, senders[|senders| - 1]);
    }
  }

  lemma SameFate(net: Network, mode: Verification, c: Sender)
    requires c.Ready(net)
    ensures c.Ready(net.(mode := mode)) && Fate(net.(mode := mode), c) == Fate(net, c)
  {
    hide Headers, Visits, VisitSum, KeysAgree, Honest;
    SameSender(net, mode, c);
  }

  lemma {:induction false} SameWrap(net: Network, mode: Verification, hs: seq<Header>, i: nat, first: nat)
    requires net.Valid() && InNetwork(net, hs) && first < net.size
    ensures Wrap(net.(mode := mode), hs, i, first) == Wrap(net, hs, i, first)
    decreases |hs|
  {
    if hs != [] {
      SameWrap(net, mode, hs[1..], i + 1, first);
    }
  }

  lemma SameItems(net: Network, mode: Verification, senders: seq<Sender>)
    requires AllReady(net, senders) && AllReady(net.(mode := mode), senders)
    ensures SetupItems(net.(mode := mode), senders) == SetupItems(net, senders)
  {
    hide KeysAgree, Wrap;
    var a, b := SetupItems(net.(mode := mode), senders), SetupItems(net, senders);
    forall i | 0 <= i < |senders| ensures a[i] == b[i] {
      SameSender(net, mode, senders[i]);
      SameWrap(net, mode, senders[i].Layers(net), 0, senders[i].first);
    }
  }

  /** The verification mode makes no difference to honest clients: their packets are the same in every
      mode, and two rounds of them, in any two modes and any two interleavings, store and deliver the
      same. */
  lemma ModesAgree(net: Network, mode: Verification, edge: real, senders: seq<Sender>,
                   inits: seq<seq<Wire>>, states: seq<State>, inits': seq<seq<Wire>>, states': seq<State>)
    requires net.Valid() && net.layers >= 2 && edge >= 0.0 && AllReady(net, senders)
    requires |inits| == |inits'| == net.size
    requires Injects(SetupItems(net, senders), inits) && Injects(SetupItems(net, senders), inits')
    requires Run(SetupConfig(net, edge), inits, states) && Complete(SetupConfig(net, edge), states[|states| - 1])
    requires Run(SetupConfig(net.(mode := mode), edge), inits', states')
    requires Complete(SetupConfig(net.(mode := mode), edge), states'[|states'| - 1])
    ensures Outcomes(states[|states| - 1].mixes) == Outcomes(states'[|states'| - 1].mixes)
  {
    hide Fates, SetupConfig, AllReady, Run, Complete, Outcomes, Injects;
    SameFates(net, mode, senders);
    SameItems(net, mode, senders);
    HonestSetupRound(net, edge, senders, inits, states);
    HonestSetupRound(net.(mode := mode), edge, senders, inits', states');
  }
}
