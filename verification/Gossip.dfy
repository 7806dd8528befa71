/**
 Registries that push what they hold to one another (mesh/gossip.py). After a push that arrived,
 the sender also re-stamps its own record of the cluster it pushed to.
 */
module GossipNetwork {
  import opened PeerRegistries

  datatype Site = Site(name: string)

  /** Every site's registry, and (for the proof) the records that have reached it, directly or through others. */
  datatype Net = Net(tables: map<Site, Table>, heard: map<Site, iset<PeerRecord>>)

  datatype Step =
    | Seed(at: Site, own: GossipState)
    | Push(from: Site, to: Site, snap: GossipState, relayed: seq<ClusterId>)
    | Hint(at: Site, cluster: ClusterId, sampleMs: real)

  ghost predicate WellFormed(n: Net) {
    n.tables.Keys == n.heard.Keys
  }

  /** The sender's snapshot and the held records of `relayed`, as the receiver converts them. */
  ghost function Delivered(held: Table, snap: GossipState, relayed: seq<ClusterId>, now: real): seq<PeerRecord>
    requires forall c :: c in relayed ==> c in held
  {
    [ToPeer(snap, now)] + seq(|relayed|, i requires 0 <= i < |relayed| => ToPeer(ToGossip(held[relayed[i]]), now))
  }

  /** A step can be taken: sites exist, and only held records are relayed. */
  ghost predicate Enabled(n: Net, step: Step) {
    match step
    case Seed(p, _) => p in n.tables
    case Push(p, q, _, relayed) => p in n.tables && q in n.tables && forall c :: c in relayed ==> c in n.tables[p]
    case Hint(p, _, _) => p in n.tables
  }

  ghost function Take(n: Net, step: Step, now: real): Net
    requires WellFormed(n) && Enabled(n, step)
  {
    match step
    case Seed(p, own) =>
      Net(n.tables[p := Merge(n.tables[p], ToPeer(own, now))], n.heard[p := n.heard[p] + iset{ToPeer(own, now)}])
    case Push(p, q, snap, relayed) =>
      Net(n.tables[q := MergeAll(n.tables[q], Delivered(n.tables[p], snap, relayed, now))],
          n.heard[q := n.heard[q] + iset{ToPeer(snap, now)} + HeardOf(n.heard[p], relayed)])
    case Hint(p, c, sampleMs) =>
      if c !in n.tables[p] then n
      else
        var h := Hinted(n.tables[p][c], sampleMs, now);
        Net(n.tables[p := n.tables[p][c := h]], n.heard[p := n.heard[p] + iset{h}])
  }

  /** Everything that has been heard of the given clusters. */
  ghost function HeardOf(s: iset<PeerRecord>, clusters: seq<ClusterId>): iset<PeerRecord> {
    iset r | r in s && r.clusterId in clusters
  }

  /** The invariant: a site holds the greatest of all it has heard, and has heard only of `world`. */
  ghost predicate Inv(n: Net, world: iset<PeerRecord>) {
    WellFormed(n) && forall p {:trigger InvAt(n, world, p)} :: p in n.tables ==> InvAt(n, world, p)
  }

  ghost predicate InvAt(n: Net, world: iset<PeerRecord>, p: Site)
    requires p in n.tables && p in n.heard
  {
    HoldsGreatest(n.tables[p], n.heard[p]) && n.heard[p] <= world
  }

  ghost predicate Normal(world: iset<PeerRecord>) {
    Coherent(world) && forall r :: r in world ==> Normalised(r)
  }

  /** A record that is behind one already accounted for changes nothing. */
  lemma DominatedAddsNothing(t: Table, s: iset<PeerRecord>, s': iset<PeerRecord>)
    requires HoldsGreatest(t, s)
    requires forall r :: r in s' ==> r.clusterId in t && Behind(r, t[r.clusterId])
    ensures HoldsGreatest(t, s + s')
  {
  }

  /** What is delivered: the snapshot, and the held records of the relayed clusters as they were. */
  lemma DeliveredAre(held: Table, heard: iset<PeerRecord>, snap: GossipState, relayed: seq<ClusterId>, now: real)
    requires HoldsGreatest(held, heard) && now != 0.0 && forall r :: r in heard ==> Normalised(r)
    requires forall c :: c in relayed ==> c in held
    ensures var rs := Delivered(held, snap, relayed, now);
      && ToPeer(snap, now) in rs && (forall c :: c in relayed ==> held[c] in rs)
      && (forall r :: r in rs ==> r == ToPeer(snap, now) || (r in heard && r.clusterId in relayed))
  {
    var rs := Delivered(held, snap, relayed, now);
    assert rs[0] == ToPeer(snap, now);
    forall i | 0 <= i < |relayed|
      ensures rs[i + 1] == held[relayed[i]]
    {
      RelayIsIdentityIff(held[relayed[i]], now);
    }
    forall c | c in relayed
      ensures held[c] in rs
    {
      var i :| 0 <= i < |relayed| && relayed[i] == c;
      assert rs[i + 1] in rs;
    }
  }

  /**
   Relaying only the greatest records has the effect of relaying everything that was heard of
   those clusters.
   */
  lemma RelayActsAsEverything(mine: Table, s: iset<PeerRecord>, theirs: Table, s': iset<PeerRecord>,
                              snap: GossipState, relayed: seq<ClusterId>, now: real, world: iset<PeerRecord>)
    requires Normal(world) && s <= world && s' <= world && ToPeer(snap, now) in world && now != 0.0
    requires HoldsGreatest(mine, s) && HoldsGreatest(theirs, s')
    requires forall c :: c in relayed ==> c in theirs
    ensures HoldsGreatest(MergeAll(mine, Delivered(theirs, snap, relayed, now)),
        s + iset{ToPeer(snap, now)} + HeardOf(s', relayed))
  {
    var rs := Delivered(theirs, snap, relayed, now);
    DeliveredAre(theirs, s', snap, relayed, now);
    WithinWorld(s, s', rs, ToPeer(snap, now), world);
    MergeAllHoldsGreatest(mine, s, rs);
    var t := MergeAll(mine, rs);
    forall r | r in HeardOf(s', relayed)
      ensures r.clusterId in t && Behind(r, t[r.clusterId])
    {
      assert theirs[r.clusterId] in s + Elements(rs);
    }
    DominatedAddsNothing(t, s + Elements(rs), HeardOf(s', relayed));
    HeardTogether(s, rs, ToPeer(snap, now), HeardOf(s', relayed));
  }

  lemma WithinWorld(s: iset<PeerRecord>, s': iset<PeerRecord>, rs: seq<PeerRecord>, own: PeerRecord,
      world: iset<PeerRecord>)
    requires s <= world && s' <= world && own in world && Coherent(world)
    requires forall r :: r in rs ==> r == own || r in s'
    ensures Coherent(s + Elements(rs))
  {
  }

  lemma HeardTogether(s: iset<PeerRecord>, rs: seq<PeerRecord>, own: PeerRecord, heard: iset<PeerRecord>)
    requires own in rs && forall r :: r in rs ==> r == own || r in heard
    ensures s + Elements(rs) + heard == s + iset{own} + heard
  {
  }

  ghost predicate HintFits(r: PeerRecord, sampleMs: real, now: real, world: iset<PeerRecord>) {
    r.lastSeen <= now && Hinted(r, sampleMs, now) in world
  }

  /** What a step brings in is among the records of `world`, and a hint does not set a record's time back. */
  ghost predicate FreshIn(n: Net, step: Step, now: real, world: iset<PeerRecord>)
    requires Enabled(n, step)
  {
    now != 0.0 && match step
                  case Seed(_, own) => ToPeer(own, now) in world
                  case Push(_, _, snap, _) => ToPeer(snap, now) in world
                  case Hint(p, c, sampleMs) =>
                    c !in n.tables[p] || HintFits(n.tables[p][c], sampleMs, now, world)
  }

  lemma StepKeepsInv(n: Net, step: Step, now: real, world: iset<PeerRecord>)
    requires Normal(world) && Inv(n, world) && Enabled(n, step) && FreshIn(n, step, now, world)
    ensures Inv(Take(n, step, now), world)
  {
    var n' := Take(n, step, now);
    forall s | s in n'.tables
      ensures InvAt(n', world, s)
    {
      assert InvAt(n, world, s);
      match step
      case Seed(p, own) =>
        MergeHoldsGreatest(n.tables[s], n.heard[s], ToPeer(own, now));
      case Push(p, q, snap, relayed) =>
        assert InvAt(n, world, p);
        RelayActsAsEverything(n.tables[s], n.heard[s], n.tables[p], n.heard[p], snap, relayed, now, world);
      case Hint(p, c, sampleMs) =>
        if c in n.tables[s] {
          HintHoldsGreatestIff(n.tables[s], n.heard[s], c, sampleMs, now);
        }
    }
  }

  /**
   What a push does: the receiver then holds, of its own records, the snapshot and the relayed records of
   the sender, always the greater, and has heard all that the sender had heard of the relayed
   clusters; no other site changes.
   */
  lemma PushSpreads(n: Net, p: Site, q: Site, snap: GossipState, relayed: seq<ClusterId>, now: real,
                    world: iset<PeerRecord>)
    requires var step := Push(p, q, snap, relayed);
      Normal(world) && Inv(n, world) && Enabled(n, step) && FreshIn(n, step, now, world)
    ensures var n' := Take(n, Push(p, q, snap, relayed), now);
      && Inv(n', world) && n'.tables == n.tables[q := n'.tables[q]] && n'.heard == n.heard[q := n'.heard[q]]
      && (forall c :: c in n.tables[q] ==> c in n'.tables[q] && Behind(n.tables[q][c], n'.tables[q][c]))
      && (forall c :: c in relayed ==> c in n'.tables[q] && Behind(n.tables[p][c], n'.tables[q][c]))
      && snap.clusterId in n'.tables[q] && Behind(ToPeer(snap, now), n'.tables[q][snap.clusterId])
      && (forall r :: r in n.heard[p] && r.clusterId in relayed ==> r in n'.heard[q])
  {
    StepKeepsInv(n, Push(p, q, snap, relayed), now, world);
    var n' := Take(n, Push(p, q, snap, relayed), now);
    assert InvAt(n, world, p) && InvAt(n, world, q) && InvAt(n', world, q);
    forall c | c in n.tables[q]
      ensures c in n'.tables[q] && Behind(n.tables[q][c], n'.tables[q][c])
    {
      assert n.tables[q][c] in n'.heard[q];
    }
    forall c | c in relayed
      ensures c in n'.tables[q] && Behind(n.tables[p][c], n'.tables[q][c])
    {
      assert n.tables[p][c] in n'.heard[q];
    }
    assert ToPeer(snap, now) in n'.heard[q];
  }

  /** A site that relays every cluster it holds passes on everything it has heard. */
  lemma FullPushTellsAll(n: Net, p: Site, q: Site, snap: GossipState, relayed: seq<ClusterId>, now: real,
                         world: iset<PeerRecord>)
    requires Inv(n, world) && p in n.tables && q in n.tables && forall c :: c in relayed <==> c in n.tables[p]
    ensures Take(n, Push(p, q, snap, relayed), now).heard[q] == n.heard[q] + iset{ToPeer(snap, now)} + n.heard[p]
  {
    assert InvAt(n, world, p);
    assert HeardOf(n.heard[p], relayed) == n.heard[p];
  }

  /**
   An exchange brings two sites together: if p pushes all it holds to q, and q pushes all it then holds
   back, p holds the table of q, up to the snapshot that q sent of itself.
   */
  lemma ExchangeAgrees(n: Net, p: Site, q: Site, ps: GossipState, pRelays: seq<ClusterId>, now: real,
                       qs: GossipState, qRelays: seq<ClusterId>, later: real, world: iset<PeerRecord>)
    requires Normal(world) && Inv(n, world) && p in n.tables && q in n.tables && p != q
    requires forall c :: c in pRelays <==> c in n.tables[p]
    requires FreshIn(n, Push(p, q, ps, pRelays), now, world)
    requires forall c :: c in qRelays <==> c in Take(n, Push(p, q, ps, pRelays), now).tables[q]
    requires ToPeer(qs, later) in world && later != 0.0
    ensures var one := Take(n, Push(p, q, ps, pRelays), now);
      && WellFormed(one) && Enabled(one, Push(q, p, qs, qRelays))
      && var two := Take(one, Push(q, p, qs, qRelays), later);
      && Inv(two, world) && two.tables[p] == Merge(two.tables[q], ToPeer(qs, later))
  {
    var one := Take(n, Push(p, q, ps, pRelays), now);
    StepKeepsInv(n, Push(p, q, ps, pRelays), now, world);
    var two := Take(one, Push(q, p, qs, qRelays), later);
    StepKeepsInv(one, Push(q, p, qs, qRelays), later, world);
    FullPushTellsAll(n, p, q, ps, pRelays, now, world);
    FullPushTellsAll(one, q, p, qs, qRelays, later, world);
    assert InvAt(two, world, p) && InvAt(two, world, q);
    var all, own := two.heard[q], ToPeer(qs, later);
    assert two.heard[p] == all + iset{own};
    MergeHoldsGreatest(two.tables[q], all, own);
    GreatestIsUnique(two.tables[p], Merge(two.tables[q], own), all + iset{own});
  }

  /** A run from empty registries; each step comes with the clock reading of the site that merges. */
  ghost predicate Run(sites: set<Site>, steps: seq<(Step, real)>, n: Net, world: iset<PeerRecord>)
    decreases |steps|
  {
    if steps == [] then
      n == Net(map p | p in sites :: map[], map p | p in sites :: iset{})
    else
      var (step, now) := steps[|steps| - 1];
      exists m :: && Run(sites, steps[..|steps| - 1], m, world) && WellFormed(m) && Enabled(m, step)
          && FreshIn(m, step, now, world)
                  && n == Take(m, step, now)
  }

  lemma {:induction false} RunKeepsInv(sites: set<Site>, steps: seq<(Step, real)>, n: Net, world: iset<PeerRecord>)
    requires Normal(world) && Run(sites, steps, n, world)
    ensures Inv(n, world)
    decreases |steps|
  {
    if steps != [] {
      var (step, now) := steps[|steps| - 1];
      var m :| Run(sites, steps[..|steps| - 1], m, world) && WellFormed(m) && Enabled(m, step)
          && FreshIn(m, step, now, world)
               && n == Take(m, step, now);
      RunKeepsInv(sites, steps[..|steps| - 1], m, world);
      StepKeepsInv(m, step, now, world);
    }
  }

  /**
   Convergence with relaying: in every run over coherent records, two sites that have heard the
   same records, along whatever routes, hold the same table.
   */
  lemma SitesConverge(sites: set<Site>, steps: seq<(Step, real)>, n: Net, world: iset<PeerRecord>, p: Site, q: Site)
    requires Normal(world) && Run(sites, steps, n, world)
    requires p in n.tables && q in n.tables && p in n.heard && q in n.heard && n.heard[p] == n.heard[q]
    ensures n.tables[p] == n.tables[q]
    ensures HoldsGreatest(n.tables[p], n.heard[p])
  {
    RunKeepsInv(sites, steps, n, world);
    assert InvAt(n, world, p) && InvAt(n, world, q);
    GreatestIsUnique(n.tables[p], n.tables[q], n.heard[p]);
  }
}

/** The gossip service around a registry (mesh/gossip.py): merging an envelope, and choosing what to relay. */
module GossipServices {
  import opened Collections
  import opened PeerRegistries
  import N = GossipNetwork

  ghost function Envelope(sender: GossipState, peers: seq<GossipState>): seq<Incoming> {
    [Gossip(sender)] + seq(|peers|, i requires 0 <= i < |peers| => Gossip(peers[i]))
  }

  /** The records relayed to a peer: the first ones listed, without the sender's own cluster. */
  ghost function Relayed(held: seq<PeerRecord>, own: ClusterId): seq<GossipState> {
    if held == [] then []
    else
      var last := held[|held| - 1];
      Relayed(held[..|held| - 1], own) + if last.clusterId == own then [] else [ToGossip(last)]
  }

  function Cap(fanout: nat): nat {
    if fanout * 4 < 8 then 8 else fanout * 4
  }

  /** The records considered for relaying. */
  function First(held: seq<PeerRecord>, fanout: nat): seq<PeerRecord> {
    if |held| < Cap(fanout) then held else held[..Cap(fanout)]
  }

  /** The registry's rows, listed by cluster. */
  function Listing(t: Table, order: seq<ClusterId>): seq<PeerRecord>
    requires forall c :: c in order ==> c in t
  {
    seq(|order|, i requires 0 <= i < |order| => t[order[i]])
  }

  /** The clusters among those listed whose records are relayed. */
  ghost function Others(order: seq<ClusterId>, own: ClusterId): seq<ClusterId> {
    if order == [] then []
    else Others(order[..|order| - 1], own) + if order[|order| - 1] == own then [] else [order[|order| - 1]]
  }

  /** What is relayed are held records, by cluster, as in a push of the network. */
  lemma {:induction false} RelayedByCluster(t: Table, order: seq<ClusterId>, own: ClusterId)
    requires ByCluster(t) && forall c :: c in order ==> c in t
    ensures forall c :: c in Others(order, own) <==> c in order && c != own
    ensures Relayed(Listing(t, order), own) ==
      seq(|Others(order, own)|, i requires 0 <= i < |Others(order, own)| => ToGossip(t[Others(order, own)[i]]))
  {
    if order != [] {
      var most, last := order[..|order| - 1], order[|order| - 1];
      assert order == most + [last];
      RelayedByCluster(t, most, own);
      assert Listing(t, order)[..|order| - 1] == Listing(t, most);
    }
  }

  /** Every relayed state is the image of a listed record of another cluster, and conversely. */
  lemma {:induction false} RelayedAre(held: seq<PeerRecord>, own: ClusterId, r: PeerRecord)
    ensures r in held && r.clusterId != own ==> ToGossip(r) in Relayed(held, own)
    ensures ToGossip(r) in Relayed(held, own) ==> r in held && r.clusterId != own
  {
    if held != [] {
      assert held == held[..|held| - 1] + [held[|held| - 1]];
      RelayedAre(held[..|held| - 1], own, r);
      assert ToGossip(r) == ToGossip(held[|held| - 1]) ==> r == held[|held| - 1];
    }
  }

  /**
   A site relays a record it holds exactly if that stands among the first ones of the site's own
   listing and is not of the site's own cluster.
   */
  lemma RelayedIff(t: Table, order: seq<ClusterId>, fanout: nat, own: ClusterId, i: nat)
    requires ByCluster(t) && Distinct(order) && i < |order| && forall c :: c in order ==> c in t
    ensures ToGossip(t[order[i]]) in Relayed(First(Listing(t, order), fanout), own) <==>
      (i < 8 || i < 4 * fanout) && order[i] != own
  {
    var held := Listing(t, order);
    var first := First(held, fanout);
    RelayedAre(first, own, held[i]);
    if held[i] in first {
      var j :| 0 <= j < |first| && first[j] == held[i];
      assert t[order[j]].clusterId == order[j] && t[order[i]].clusterId == order[i];
      assert j == i;
    }
    assert i < Cap(fanout) ==> first[i] == held[i];
  }

  class GossipService {
    const own: ClusterId
    const fanout: nat
    const registry: PeerRegistry
    var messagesIn: nat
    var successes: nat
    var failures: nat

    constructor (own: ClusterId, fanout: nat, registry: PeerRegistry)
      ensures this.own == own && this.fanout == fanout && this.registry == registry
      ensures messagesIn == 0 && successes == 0 && failures == 0
    {
      this.own, this.fanout, this.registry := own, fanout, registry;
      messagesIn, successes, failures := 0, 0, 0;
    }

    method HandleIncoming(sender: GossipState, peers: seq<GossipState>, clock: seq<real>) returns (merged: nat)
      requires registry.Valid() && |clock| == |peers| + 1
      modifies this`messagesIn, registry
      ensures registry.Valid() && registry.peers == MergeAll(old(registry.peers),
          AcceptedAll(Envelope(sender, peers), clock))
      ensures merged == Writes(old(registry.peers), AcceptedAll(Envelope(sender, peers), clock))
      ensures messagesIn == old(messagesIn) + 1
    {
      var states := [Gossip(sender)] + seq(|peers|, i requires 0 <= i < |peers| => Gossip(peers[i]));
      merged := registry.MergeState(states, clock);
      messagesIn := messagesIn + 1;
    }

    /** `order` is how the registry lists its clusters. */
    method PeersToRelay(order: seq<ClusterId>) returns (states: seq<GossipState>)
      requires registry.Valid() && Enumerates(order, registry.peers.Keys)
      ensures states == Relayed(First(Listing(registry.peers, order), fanout), own)
      ensures forall i :: 0 <= i < |order| ==>
        (ToGossip(registry.peers[order[i]]) in states <==> (i < 8 || i < 4 * fanout) && order[i] != own)
    {
      var held := Listing(registry.peers, order);
      states := [];
      var listed := First(held, fanout);
      for i := 0 to |listed|
        invariant states == Relayed(listed[..i], own)
      {
        assert listed[..i + 1][..i] == listed[..i];
        var p := listed[i];
        if p.clusterId == own {
          continue;
        }
        states := states + [ToGossip(p)];
      }
      assert listed[..|listed|] == listed;
      forall i | 0 <= i < |order|
        ensures ToGossip(registry.peers[order[i]]) in states <==> (i < 8 || i < 4 * fanout) && order[i] != own
      {
        RelayedIff(registry.peers, order, fanout, own, i);
      }
    }

    /** What follows a push: one that arrived re-stamps the record of the cluster it went to. */
    method PushDone(peer: ClusterId, arrived: bool, sampleMs: real, now: real)
      requires registry.Valid()
      modifies this`successes, this`failures, registry
      ensures registry.Valid()
      ensures registry.peers ==
        if arrived && peer in old(registry.peers)
        then old(registry.peers)[peer := Hinted(old(registry.peers)[peer], sampleMs, now)] else old(registry.peers)
      ensures successes == old(successes) + (if arrived then 1 else 0)
      ensures failures == old(failures) + (if arrived then 0 else 1)
    {
      if arrived {
        successes := successes + 1;
        registry.UpdateLatencyHint(peer, sampleMs, now);
      } else {
        failures := failures + 1;
      }
    }
  }

  /**
   Handling an envelope is the push step of the gossip network: whatever the clock says, a stamped
   snapshot and relayed normalised records arrive as they were sent.
   */
  lemma EnvelopeIsPush(held: Table, snap: GossipState, relayed: seq<ClusterId>, clock: seq<real>, now: real)
    requires snap.heartbeatTs != 0.0 && |clock| == |relayed| + 1
    requires forall c :: c in relayed ==> c in held && Normalised(held[c])
    ensures var peers := seq(|relayed|, i requires 0 <= i < |relayed| => ToGossip(held[relayed[i]]));
      AcceptedAll(Envelope(snap, peers), clock) == N.Delivered(held, snap, relayed, now)
  {
    var peers := seq(|relayed|, i requires 0 <= i < |relayed| => ToGossip(held[relayed[i]]));
    var a, b := AcceptedAll(Envelope(snap, peers), clock), N.Delivered(held, snap, relayed, now);
    forall i | 0 <= i < |a|
      ensures a[i] == b[i]
    {
      if i > 0 {
        assert relayed[i - 1] in relayed;
      }
    }
  }
}
