/**
 The gossip peer registry (mesh/peer_registry.py, mesh/gossip.py): every cluster keeps the
 newest record it has heard of every other cluster, and passes what it holds on to others.

 Records are compared by version, then by the time they were last seen, except that a record
 seen more than a second later replaces a record with a higher version. That exception is what
 decides whether registries agree in the end.
 */
module PeerRegistries {
  import opened Texts

  datatype ClusterId = ClusterId(name: string)

  datatype PeerRecord = PeerRecord(
    clusterId: ClusterId, publicUrl: string, region: string, gpuCapacity: int, load: real, health: string,
    latencyMs: real, lastSeen: real, queueDepth: int, version: int, reliability: real, hopDistance: int)

  datatype GossipState = GossipState(
    clusterId: ClusterId, publicUrl: string, region: string, gpuCapacity: int, load: real, health: string,
    queueDepth: int, latencyMs: real, heartbeatTs: real, version: int, reliability: real, hopDistance: int)

  /** `merge_state` accepts gossip states and ready-made records. */
  datatype Incoming = Gossip(state: GossipState) | Ready(record: PeerRecord)

  type Table = map<ClusterId, PeerRecord>

  // ----- Conversions -----------------------------------------------------------------------------

  /** `_to_peer_record` for a gossip state; `now` is the clock, read when the state carries no time. */
  function ToPeer(s: GossipState, now: real): PeerRecord {
    PeerRecord(s.clusterId, StripSlashes(s.publicUrl), s.region, s.gpuCapacity, s.load, s.health, s.latencyMs,
               if s.heartbeatTs != 0.0 then s.heartbeatTs else now, s.queueDepth, s.version, s.reliability,
               if s.hopDistance != 0 then s.hopDistance else 1)
  }

  /** The state under which a held record is relayed. */
  function ToGossip(r: PeerRecord): GossipState {
    GossipState(r.clusterId, r.publicUrl, r.region, r.gpuCapacity, r.load, r.health, r.queueDepth, r.latencyMs,
                r.lastSeen, r.version, r.reliability, r.hopDistance)
  }

  function Accepted(i: Incoming, now: real): PeerRecord {
    match i
    case Gossip(s) => ToPeer(s, now)
    case Ready(r) => r
  }

  ghost predicate Normalised(r: PeerRecord) {
    && (r.publicUrl == "" || r.publicUrl[|r.publicUrl| - 1] != '/')
    && r.lastSeen != 0.0
    && r.hopDistance != 0
  }

  /** What a registry stores for a gossip state is normalised, and says what the state says. */
  lemma AcceptedIsNormalised(s: GossipState, now: real)
    requires s.heartbeatTs != 0.0 || now != 0.0
    ensures Normalised(ToPeer(s, now))
    ensures var r := ToPeer(s, now);
      && r.clusterId == s.clusterId && r.region == s.region && r.gpuCapacity == s.gpuCapacity && r.load == s.load
      && r.health == s.health && r.latencyMs == s.latencyMs && r.queueDepth == s.queueDepth
      && r.version == s.version && r.reliability == s.reliability
      && (s.heartbeatTs != 0.0 ==> r.lastSeen == s.heartbeatTs) && (s.heartbeatTs == 0.0 ==> r.lastSeen == now)
      && r.publicUrl <= s.publicUrl && (forall c :: c in s.publicUrl[|r.publicUrl|..] ==> c == '/')
  {
    StrippedUrl(s.publicUrl);
    OnlySlashesGo(s.publicUrl);
  }

  /** Relaying a record leaves it as it is exactly when it is normalised. */
  lemma RelayIsIdentityIff(r: PeerRecord, now: real)
    requires now != 0.0
    ensures ToPeer(ToGossip(r), now) == r <==> Normalised(r)
  {
    StrippedUrl(r.publicUrl);
  }

  // ----- Merging ---------------------------------------------------------------------------------

  predicate ShouldReplace(cur: PeerRecord, nxt: PeerRecord) {
    nxt.version > cur.version
    || (nxt.version == cur.version && nxt.lastSeen >= cur.lastSeen)
    || nxt.lastSeen > cur.lastSeen + 1.0
  }

  predicate Takes(t: Table, r: PeerRecord) {
    r.clusterId !in t || ShouldReplace(t[r.clusterId], r)
  }

  ghost function Merge(t: Table, r: PeerRecord): Table {
    if Takes(t, r) then t[r.clusterId := r] else t
  }

  ghost function MergeAll(t: Table, rs: seq<PeerRecord>): Table {
    if rs == [] then t else Merge(MergeAll(t, rs[..|rs| - 1]), rs[|rs| - 1])
  }

  /** The rows written while merging. */
  ghost function Writes(t: Table, rs: seq<PeerRecord>): nat {
    if rs == [] then 0
    else Writes(t, rs[..|rs| - 1]) + if Takes(MergeAll(t, rs[..|rs| - 1]), rs[|rs| - 1]) then 1 else 0
  }

  ghost function AcceptedAll(states: seq<Incoming>, clock: seq<real>): seq<PeerRecord>
    requires |states| == |clock|
  {
    seq(|states|, i requires 0 <= i < |states| => Accepted(states[i], clock[i]))
  }

  ghost predicate ByCluster(t: Table) {
    forall c :: c in t ==> t[c].clusterId == c
  }

  lemma {:induction false} MergedByCluster(t: Table, rs: seq<PeerRecord>)
    requires ByCluster(t)
    ensures ByCluster(MergeAll(t, rs))
  {
    if rs != [] {
      MergedByCluster(t, rs[..|rs| - 1]);
    }
  }

  /** What a latency hint makes of a record. */
  ghost function Hinted(r: PeerRecord, sampleMs: real, now: real): PeerRecord {
    r.(latencyMs := 0.35 * sampleMs + 0.65 * r.latencyMs, lastSeen := now)
  }

  /** The new sample moves the estimate 35 hundredths of the way, so the estimate settles on repeated samples. */
  lemma HintMovesTowardsSample(r: PeerRecord, sampleMs: real, now: real)
    ensures var h := Hinted(r, sampleMs, now);
      && sampleMs - h.latencyMs == 0.65 * (sampleMs - r.latencyMs)
      && (r.latencyMs <= sampleMs ==> r.latencyMs <= h.latencyMs <= sampleMs)
      && (sampleMs <= r.latencyMs ==> sampleMs <= h.latencyMs <= r.latencyMs)
      && h.lastSeen == now && r == h.(latencyMs := r.latencyMs, lastSeen := r.lastSeen)
  {
  }

  class PeerRegistry {
    var peers: Table

    /** Every record stands under its own cluster. */
    ghost predicate Valid()
      reads this
    {
      ByCluster(peers)
    }

    constructor ()
      ensures Valid() && peers == map[]
    {
      peers := map[];
    }

    method MergeState(states: seq<Incoming>, clock: seq<real>) returns (changed: nat)
      requires Valid() && |states| == |clock|
      modifies this
      ensures Valid() && peers == MergeAll(old(peers), AcceptedAll(states, clock))
      ensures changed == Writes(old(peers), AcceptedAll(states, clock))
    {
      changed := 0;
      ghost var records := AcceptedAll(states, clock);
      for i := 0 to |states|
        invariant peers == MergeAll(old(peers), records[..i])
        invariant changed == Writes(old(peers), records[..i])
      {
        assert records[..i + 1][..i] == records[..i];
        var pr := Accepted(states[i], clock[i]);
        if pr.clusterId in peers {
          if ShouldReplace(peers[pr.clusterId], pr) {
            peers := peers[pr.clusterId := pr];
            changed := changed + 1;
          }
        } else {
          peers := peers[pr.clusterId := pr];
          changed := changed + 1;
        }
      }
      assert records[..|states|] == records;
      MergedByCluster(old(peers), records);
    }

    /** A pushed message that arrived re-stamps the peer, without a new version. */
    method UpdateLatencyHint(clusterId: ClusterId, sampleMs: real, now: real)
      requires Valid()
      modifies this
      ensures Valid()
      ensures peers == if clusterId in old(peers)
          then old(peers)[clusterId := Hinted(old(peers)[clusterId], sampleMs, now)] else old(peers)
      ensures clusterId in old(peers) ==>
        && clusterId in peers && peers[clusterId].lastSeen == now
        && sampleMs - peers[clusterId].latencyMs == 0.65 * (sampleMs - old(peers)[clusterId].latencyMs)
        && peers[clusterId].version == old(peers)[clusterId].version
    {
      if clusterId !in peers {
        return;
      }
      var peer := peers[clusterId];
      peers := peers[clusterId := peer.(latencyMs := 0.35 * sampleMs + 0.65 * peer.latencyMs, lastSeen := now)];
    }
  }

  // ----- Order -----------------------------------------------------------------------------------

  /** Comparison by version, then by time. */
  ghost predicate Behind(a: PeerRecord, b: PeerRecord) {
    a.version < b.version || (a.version == b.version && a.lastSeen <= b.lastSeen)
  }

  /** Two records of one cluster compare cleanly: no exception applies, and equal stamps mean equal records. */
  ghost predicate Agree(a: PeerRecord, b: PeerRecord) {
    && (a.version < b.version ==> a.lastSeen <= b.lastSeen + 1.0)
    && (a.version == b.version && a.lastSeen == b.lastSeen ==> a == b)
  }

  ghost predicate Coherent(s: iset<PeerRecord>) {
    forall a, b :: a in s && b in s && a.clusterId == b.clusterId ==> Agree(a, b)
  }

  /** Two different records replace each other for ever exactly when they do not agree in one direction or the other. */
  lemma MutualReplacementIff(a: PeerRecord, b: PeerRecord)
    requires a != b
    ensures ShouldReplace(a, b) && ShouldReplace(b, a) <==> !(Agree(a, b) && Agree(b, a))
    ensures ShouldReplace(a, b) || ShouldReplace(b, a)
  {
  }

  /** A latency hint can make an old record overtake a newer version: the two then replace each other. */
  lemma HintBreaksAgreement(a: PeerRecord, b: PeerRecord, sampleMs: real, now: real)
    requires a.clusterId == b.clusterId && a.version < b.version && now > b.lastSeen + 1.0
    ensures ShouldReplace(Hinted(a, sampleMs, now), b) && ShouldReplace(b, Hinted(a, sampleMs, now))
    ensures !Coherent(iset{Hinted(a, sampleMs, now), b})
  {
    var h := Hinted(a, sampleMs, now);
    assert h in iset{h, b} && b in iset{h, b} && !Agree(h, b);
  }

  /**
   Exactly when a latency hint leaves coherent records coherent: no newer version was seen more
   than a second earlier, no older one more than a second later, and no other record of the same
   version has the new stamp.
   */
  lemma HintCoherentIff(s: iset<PeerRecord>, a: PeerRecord, sampleMs: real, now: real)
    requires Coherent(s) && a in s
    ensures var h := Hinted(a, sampleMs, now);
      Coherent(s + iset{h}) <==> forall b :: b in s && b.clusterId == a.clusterId ==> Tolerates(b, h)
  {
    var h := Hinted(a, sampleMs, now);
    if Coherent(s + iset{h}) {
      forall b | b in s && b.clusterId == a.clusterId
        ensures Tolerates(b, h)
      {
        assert b in s + iset{h} && h in s + iset{h} && Agree(b, h) && Agree(h, b);
      }
    }
  }

  ghost predicate Tolerates(b: PeerRecord, h: PeerRecord) {
    && (h.version < b.version ==> h.lastSeen <= b.lastSeen + 1.0)
    && (b.version < h.version ==> b.lastSeen <= h.lastSeen + 1.0)
    && (b.version == h.version && b.lastSeen == h.lastSeen ==> b == h)
  }

  /**
   `_build_snapshot` reads the clock twice and truncates one reading. Two snapshots of a cluster
   agree exactly unless they carry the same stamps and differ otherwise.
   */
  lemma SnapshotsAgreeIff(a: PeerRecord, b: PeerRecord, t: real, t': real, u: real, u': real)
    requires t <= t' <= u <= u'
    requires a.lastSeen == t && a.version == t'.Floor
    requires b.lastSeen == u && b.version == u'.Floor
    ensures Agree(a, b) && Agree(b, a) <==> (a.lastSeen == b.lastSeen && a.version == b.version ==> a == b)
  {
  }

  /** Deliveries of `b` and `a` in turn. */
  ghost function Rounds(a: PeerRecord, b: PeerRecord, n: nat): seq<PeerRecord> {
    if n == 0 then [] else Rounds(a, b, n - 1) + [b] + [a]
  }

  /** Records that replace each other never settle: every single delivery is written, round after round. */
  lemma {:induction false} NeverSettles(a: PeerRecord, b: PeerRecord, n: nat)
    requires a.clusterId == b.clusterId && ShouldReplace(a, b) && ShouldReplace(b, a)
    ensures MergeAll(map[a.clusterId := a], Rounds(a, b, n)) == map[a.clusterId := a]
    ensures Writes(map[a.clusterId := a], Rounds(a, b, n)) == 2 * n && |Rounds(a, b, n)| == 2 * n
  {
    if n > 0 {
      NeverSettles(a, b, n - 1);
      var rs := Rounds(a, b, n - 1);
      OneMore(map[a.clusterId := a], rs, b);
      ReplacedAlone(a, b);
      OneMore(map[a.clusterId := a], rs + [b], a);
      ReplacedAlone(b, a);
    }
  }

  lemma ReplacedAlone(a: PeerRecord, b: PeerRecord)
    requires a.clusterId == b.clusterId && ShouldReplace(a, b)
    ensures Takes(map[a.clusterId := a], b) && Merge(map[a.clusterId := a], b) == map[b.clusterId := b]
  {
  }

  lemma OneMore(t: Table, rs: seq<PeerRecord>, r: PeerRecord)
    ensures MergeAll(t, rs + [r]) == Merge(MergeAll(t, rs), r)
    ensures Writes(t, rs + [r]) == Writes(t, rs) + if Takes(MergeAll(t, rs), r) then 1 else 0
  {
    assert (rs + [r])[..|rs|] == rs;
  }

  /** Version 5 seen at 100 and version 4 seen at 102 are such a pair. */
  lemma EndlessPair(a: PeerRecord, b: PeerRecord, n: nat)
    requires a.clusterId == b.clusterId
    requires a.version == 5 && a.lastSeen == 100.0 && b.version == 4 && b.lastSeen == 102.0
    ensures Writes(map[a.clusterId := a], Rounds(a, b, n)) == 2 * n && |Rounds(a, b, n)| == 2 * n
    ensures MergeAll(map[], [a, b]) == map[a.clusterId := b] && MergeAll(map[], [b, a]) == map[a.clusterId := a]
  {
    NeverSettles(a, b, n);
    LastOneWins(a, b);
    LastOneWins(b, a);
  }

  // ----- Convergence -----------------------------------------------------------------------------

  /** `t` holds, for every cluster mentioned in `s`, the greatest record of it. */
  ghost predicate HoldsGreatest(t: Table, s: iset<PeerRecord>) {
    && (forall r :: r in s ==> r.clusterId in t && Behind(r, t[r.clusterId]))
    && (forall c :: c in t ==> t[c] in s && t[c].clusterId == c)
  }

  lemma GreatestIsUnique(t: Table, t': Table, s: iset<PeerRecord>)
    requires Coherent(s) && HoldsGreatest(t, s) && HoldsGreatest(t', s)
    ensures t == t'
  {
    forall c | c in t
      ensures c in t' && t[c] == t'[c]
    {
      assert Agree(t[c], t'[c]);
    }
    forall c | c in t'
      ensures c in t
    {
      assert t'[c] in s;
    }
  }

  /** Under coherence, merging one record is taking the greater of two. */
  lemma MergeHoldsGreatest(t: Table, s: iset<PeerRecord>, r: PeerRecord)
    requires HoldsGreatest(t, s) && Coherent(s + iset{r})
    ensures HoldsGreatest(Merge(t, r), s + iset{r})
  {
    if r.clusterId in t {
      var cur := t[r.clusterId];
      assert cur in s + iset{r} && r in s + iset{r};
      assert Agree(cur, r) && Agree(r, cur);
    }
  }

  /**
   A hint keeps the table that of the greatest records, now with the hinted one, exactly if it does
   not set the time back.
   */
  lemma HintHoldsGreatestIff(t: Table, s: iset<PeerRecord>, c: ClusterId, sampleMs: real, now: real)
    requires HoldsGreatest(t, s) && c in t
    ensures var h := Hinted(t[c], sampleMs, now);
      HoldsGreatest(t[c := h], s + iset{h}) <==> t[c].lastSeen <= now
  {
    var h := Hinted(t[c], sampleMs, now);
    assert t[c] in s + iset{h};
  }

  ghost function Elements(rs: seq<PeerRecord>): iset<PeerRecord> {
    iset r | r in rs
  }

  lemma {:induction false} MergeAllHoldsGreatest(t: Table, s: iset<PeerRecord>, rs: seq<PeerRecord>)
    requires HoldsGreatest(t, s) && Coherent(s + Elements(rs))
    ensures HoldsGreatest(MergeAll(t, rs), s + Elements(rs))
  {
    if rs == [] {
      assert s + Elements(rs) == s;
    } else {
      var most, last := rs[..|rs| - 1], rs[|rs| - 1];
      assert rs == most + [last];
      assert s + Elements(rs) == s + Elements(most) + iset{last};
      MergeAllHoldsGreatest(t, s, most);
      MergeHoldsGreatest(MergeAll(t, most), s + Elements(most), last);
    }
  }

  /** Registries that start empty and receive the same records of `s`, in any order and number, end up equal. */
  ghost predicate Converges(s: iset<PeerRecord>) {
    forall xs, ys :: Elements(xs) == Elements(ys) <= s ==> MergeAll(map[], xs) == MergeAll(map[], ys)
  }

  /** Coherence is exactly what convergence needs. */
  lemma ConvergesIffCoherent(s: iset<PeerRecord>)
    ensures Converges(s) <==> Coherent(s)
  {
    if Coherent(s) {
      forall xs, ys | Elements(xs) == Elements(ys) <= s
        ensures MergeAll(map[], xs) == MergeAll(map[], ys)
      {
        MergeAllHoldsGreatest(map[], iset{}, xs);
        MergeAllHoldsGreatest(map[], iset{}, ys);
        assert iset{} + Elements(xs) == Elements(xs) && iset{} + Elements(ys) == Elements(ys);
        GreatestIsUnique(MergeAll(map[], xs), MergeAll(map[], ys), Elements(xs));
      }
    } else {
      var a, b :| a in s && b in s && a.clusterId == b.clusterId && !Agree(a, b);
      MutualReplacementIff(a, b);
      TwoOrders(a, b);
      assert Elements([a, b]) == Elements([b, a]) <= s;
    }
  }

  /** Two records that replace each other: the last one to arrive wins. */
  lemma TwoOrders(a: PeerRecord, b: PeerRecord)
    requires a.clusterId == b.clusterId && a != b && ShouldReplace(a, b) && ShouldReplace(b, a)
    ensures MergeAll(map[], [a, b]) != MergeAll(map[], [b, a])
  {
    LastOneWins(a, b);
    LastOneWins(b, a);
    assert MergeAll(map[], [a, b])[a.clusterId] == b && MergeAll(map[], [b, a])[a.clusterId] == a;
  }

  lemma LastOneWins(a: PeerRecord, b: PeerRecord)
    requires a.clusterId == b.clusterId && ShouldReplace(a, b)
    ensures MergeAll(map[], [a, b]) == map[b.clusterId := b]
  {
    assert [a, b][..1] == [a] && [a][..0] == [];
    assert MergeAll(map[], [a]) == Merge(MergeAll(map[], []), a);
  }
}
