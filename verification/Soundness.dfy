/** The driver's whole wiring is in order: a forest over the list of hubs. Each operation on the
    wiring keeps it so. */
module Soundness {
  import opened Jacks
  import opened SideTrees
  import opened Forest
  import opened Propagation
  import opened Rewiring
  import opened Growth

  /** No jack of hub h is allocated. */
  ghost predicate Idle(L: Links, h: VNetHub) {
    forall k :: k in L ==> L[k].owner != OfHub(h)
  }

  /** Allocated hub jacks belong to listed hubs, which are known by distinct ids. */
  ghost predicate KnownIn(hubs: seq<VNetHub>, L: Links) {
    && (forall k :: k in L && L[k].owner.OfHub? ==> L[k].owner.hub in hubs)
    && (forall a, b :: 0 <= a < b < |hubs| ==> hubs[a].id != hubs[b].id)
  }

  /** Listed hubs have their jacks to themselves. */
  ghost predicate HubsApart(hubs: seq<VNetHub>, L: Links) {
    && (forall h :: h in hubs ==> HubWhole(L, h))
    && (forall g, h, i :: g in hubs && h in hubs && g != h && 0 <= i < |g.jack| ==> g.jack[i] !in h.jack)
  }

  ghost predicate IdleOK(hubs: seq<VNetHub>, L: Links, tt: map<VNetHub, int>) {
    forall h :: h in hubs ==> h in tt && (Idle(L, h) ==> tt[h] == 0)
  }

  ghost predicate SoundFor(hubs: seq<VNetHub>, L: Links, st: Tallies) {
    var whole := KnownIn(hubs, L) && HubsApart(hubs, L) && IdleOK(hubs, L, st.tt) && IsForest(L, st);
    whole
  }

  // ----- Joining and cutting -----

  lemma JoinSound(hubs: seq<VNetHub>, L: Links, st: Tallies, a: VNetJack, b: VNetJack, t: Side, s: Side, su: Tallies)
    requires SoundFor(hubs, L, st) && a in L && b in L && a != b && Separate(L, a, b)
    requires L[a].owner != Free && L[b].owner != Free && L[a].peer == null && L[b].peer == null
    requires t == TreeOf(L, a) && s == TreeOf(L, b)
    requires Heard(Join(L, a, b), su, a, t) && Heard(Join(L, a, b), su, b, s)
    requires ChangedBoth(Join(L, a, b), st, su, t, s)
    ensures SoundFor(hubs, Join(L, a, b), su)
  {
    hide IsForest, Heard;
    JoinForest(L, st, a, b, t, s, su);
    var K := Join(L, a, b);
    IdleHubs(hubs, L, st, K, su, a, t, b, s);
    StillSound(hubs, L, st, K, su);
  }

  lemma CutSound(hubs: seq<VNetHub>, L: Links, st: Tallies, a: VNetJack, t: Side, s: Side, su: Tallies)
    requires SoundFor(hubs, L, st) && a in L && L[a].owner != Free && L[a].peer != null && L[a].peer in L
    requires HasTree(L, a) && HasTree(L, L[a].peer) && t == TreeOf(L, a) && s == TreeOf(L, L[a].peer)
    requires Heard(Cut(L, a), su, a, t) && Heard(Cut(L, a), su, L[a].peer, s)
    requires ChangedBoth(Cut(L, a), st, su, t, s)
    ensures SoundFor(hubs, Cut(L, a), su)
  {
    hide IsForest, Heard;
    CutForest(L, st, a, t, s, su);
    var K := Cut(L, a);
    IdleHubs(hubs, L, st, K, su, a, t, L[a].peer, s);
    StillSound(hubs, L, st, K, su);
  }

  /** A hub without allocated jacks is in neither tree. */
  lemma IdleHubs(hubs: seq<VNetHub>, L: Links, st: Tallies, K: Links, su: Tallies, a: VNetJack, t: Side, b: VNetJack,
                 s: Side)
    requires KnownIn(hubs, L) && Shape(L, a, t) && Shape(L, b, s)
    requires SameOwners(L, K) && ChangedBoth(K, st, su, t, s)
    ensures forall h :: h in hubs && h in st.tt && Idle(K, h) ==> Idle(L, h) && su.tt[h] == st.tt[h]
  {
    forall h | h in hubs && h in st.tt && Idle(K, h)
      ensures Idle(L, h) && su.tt[h] == st.tt[h]
    {
      forall k | k in L ensures L[k].owner != OfHub(h) { assert K[k].owner == L[k].owner; }
      if Has(t, HubMark(h.id)) {
        var k := HubEntry(L, a, t, h.id);
      } else if Has(s, HubMark(h.id)) {
        var k := HubEntry(L, b, s, h.id);
      }
    }
  }

  lemma StillSound(hubs: seq<VNetHub>, L: Links, st: Tallies, K: Links, su: Tallies)
    requires SoundFor(hubs, L, st) && SameOwners(L, K) && IsForest(K, su) && su.tt.Keys == st.tt.Keys
    requires forall h :: h in hubs && h in st.tt && Idle(K, h) ==> Idle(L, h) && su.tt[h] == st.tt[h]
    ensures SoundFor(hubs, K, su)
  {}

  // ----- New objects that nothing is plugged into -----

  /** K has L's jacks as they were, and others that are unplugged and not on a hub. */
  ghost predicate Extended(L: Links, K: Links) {
    && (forall k :: k in L ==> k in K && K[k] == L[k])
    && (forall k :: k in K && k !in L ==> K[k].peer == null && !K[k].owner.OfHub?)
  }

  lemma ExtendedWired(L: Links, K: Links)
    requires Wired(L) && Extended(L, K)
    requires forall k :: k in L && L[k].owner.OfHub? ==> HubWhole(L, L[k].owner.hub)
    ensures Wired(K)
  {
    forall k | k in K && K[k].owner.OfHub?
      ensures HubWhole(K, K[k].owner.hub) && k.index < NUM_JACKS_PER_HUB && K[k].owner.hub.jack[k.index] == k
    {
      assert k in L && HubWhole(L, L[k].owner.hub);
    }
  }

  lemma ExtendedForest(L: Links, st: Tallies, K: Links, su: Tallies)
    requires IsForest(L, st) && Extended(L, K) && su.c.Keys == K.Keys
    requires forall k :: k in L ==> SameAt(L, st, su, k)
    requires forall k :: k in K && k !in L && K[k].owner != Free ==> su.c[k] == 1 && k !in su.e
    ensures IsForest(K, su)
  {
    ExtendedWired(L, K);
    forall y | y in K && K[y].owner != Free ensures JackOK(K, su, y) {
      if y in L { KeepJack(L, st, K, su, y); } else { GrowPort(K, su, y); }
    }
  }

  /** A hub that is new, at the head of the list, or the same hubs as before. */
  lemma ExtendedHubs(before: seq<VNetHub>, hubs: seq<VNetHub>, L: Links, K: Links, st: Tallies, su: Tallies)
    requires KnownIn(before, L) && HubsApart(before, L) && IdleOK(before, L, st.tt) && Extended(L, K)
    requires
      || hubs == before
      || (|hubs| > 0 && hubs[1..] == before && NewHub(hubs[0], before, L, K) && hubs[0] in su.tt && su.tt[hubs[0]] == 0)
    requires forall h :: h in before ==> h in su.tt && su.tt[h] == st.tt[h]
    ensures KnownIn(hubs, K) && HubsApart(hubs, K) && IdleOK(hubs, K, su.tt)
  {
    forall h | h in hubs ensures h in before || (hubs != before && h == hubs[0]) {}
    forall h | h in hubs ensures HubWhole(K, h) {
      if h in before { assert HubWhole(L, h); }
    }
    forall g, h, i | g in hubs && h in hubs && g != h && 0 <= i < |g.jack| ensures g.jack[i] !in h.jack {
      if g in before { assert HubWhole(L, g); }
      if h in before { assert HubWhole(L, h); }
    }
    forall h | h in before && Idle(K, h) ensures Idle(L, h) {
      forall k | k in L ensures L[k].owner != OfHub(h) { assert K[k] == L[k]; }
    }
  }

  ghost predicate NewHub(hub: VNetHub, before: seq<VNetHub>, L: Links, K: Links) {
    && HubWhole(K, hub)
    && (forall i :: 0 <= i < |hub.jack| ==> hub.jack[i] !in L)
    && (forall h :: h in before ==> h != hub && h.id != hub.id)
  }

  lemma PortSound(hubs: seq<VNetHub>, L: Links, st: Tallies, K: Links, su: Tallies, x: VNetJack, o: Owner)
    requires SoundFor(hubs, L, st) && x !in L && IsPort(o) && K == L[x := Link(null, o)]
    requires su.c.Keys == K.Keys && su.tt == st.tt && su.c[x] == 1 && x !in su.e
    requires forall k :: k in L ==> SameAt(L, st, su, k)
    ensures SoundFor(hubs, K, su)
  {
    ExtendedForest(L, st, K, su);
    ExtendedHubs(hubs, hubs, L, K, st, su);
  }

  /** K and su are L and st with the jacks of one more hub, all free. */
  ghost predicate HubAdded(hub: VNetHub, L: Links, st: Tallies, K: Links, su: Tallies) {
    var whole :=
      && Extended(L, K) && HubWhole(K, hub) && (forall i :: 0 <= i < |hub.jack| ==> hub.jack[i] !in L)
      && (forall k :: k in K && k !in L ==> K[k].owner == Free)
      && su.c.Keys == K.Keys && (forall k :: k in L ==> k in st.c && su.c[k] == st.c[k])
      && hub !in st.tt && su.tt == st.tt[hub := 0] && su.e == st.e && su.wants == st.wants;
    whole
  }

  ghost function LinksFor(added: set<VNetJack>, o: Owner): Links {
    map k | k in added :: Link(null, o)
  }

  ghost function CountsFor(added: set<VNetJack>, n: int): map<VNetJack, int> {
    map k | k in added :: n
  }

  lemma HubJacksAdded(hub: VNetHub, L: Links, st: Tallies, K: Links, su: Tallies)
    requires K == L + LinksFor((set k | k in hub.jack), Free)
    requires su == st.(c := st.c + CountsFor((set k | k in hub.jack), 0), tt := st.tt[hub := 0])
    requires |hub.jack| == NUM_JACKS_PER_HUB && st.c.Keys == L.Keys && hub !in st.tt
    requires forall i :: 0 <= i < |hub.jack| ==> hub.jack[i] !in L && hub.jack[i].index == i
    ensures HubAdded(hub, L, st, K, su)
  {}

  lemma HubSound(hub: VNetHub, before: seq<VNetHub>, L: Links, st: Tallies, K: Links, su: Tallies)
    requires SoundFor(before, L, st) && HubAdded(hub, L, st, K, su) && forall h :: h in before ==> h.id != hub.id
    ensures SoundFor([hub] + before, K, su)
  {
    ExtendedForest(L, st, K, su);
    assert ([hub] + before)[1..] == before;
    ExtendedHubs(before, [hub] + before, L, K, st, su);
  }

  // ----- Allocating and freeing hub jacks -----

  /** Jack i of listed hub h, which was free, is now allocated and counts the hub's total. */
  lemma AllocSound(hubs: seq<VNetHub>, L: Links, st: Tallies, K: Links, su: Tallies, h: VNetHub, i: nat)
    requires SoundFor(hubs, L, st) && h in hubs && i < |h.jack| && h.jack[i] in L && L[h.jack[i]] == Link(null, Free)
    requires K == L[h.jack[i] := Link(null, OfHub(h))]
    requires h in st.tt && su == st.(c := st.c[h.jack[i] := st.tt[h]]) && h.jack[i] !in st.e
    ensures SoundFor(hubs, K, su)
  {
    var x := h.jack[i];
    assert HubWhole(L, h);
    AllocWired(hubs, L, K, h, i);
    forall y | y in K && K[y].owner != Free ensures JackOK(K, su, y) {
      if y != x {
        GrowOther(L, st, K, su, x, OfHub(h), y);
      } else if z :| z in L && L[z].owner == OfHub(h) {
        GrowSibling(L, st, K, su, x, h, z);
      } else {
        assert Idle(L, h);
        GrowFirst(K, su, x, h);
      }
    }
    forall g | g in hubs && Idle(K, g) ensures Idle(L, g) {
      forall k | k in L ensures L[k].owner != OfHub(g) {}
    }
  }

  lemma AllocWired(hubs: seq<VNetHub>, L: Links, K: Links, h: VNetHub, i: nat)
    requires KnownIn(hubs, L) && HubsApart(hubs, L) && Wired(L)
    requires h in hubs && i < |h.jack| && h.jack[i] in L && L[h.jack[i]] == Link(null, Free)
    requires K == L[h.jack[i] := Link(null, OfHub(h))]
    ensures Wired(K) && KnownIn(hubs, K) && HubsApart(hubs, K)
  {
    assert HubWhole(L, h);
    forall g | g in hubs ensures HubWhole(K, g) {
      assert HubWhole(L, g);
      forall e | 0 <= e < NUM_JACKS_PER_HUB ensures K[g.jack[e]].owner == Free || K[g.jack[e]].owner == OfHub(g) {
        if g.jack[e] == h.jack[i] { assert g == h; }
      }
    }
    forall a, b | a in K && b in K && K[a].owner.OfHub? && K[b].owner.OfHub? && K[a].owner.hub.id == K[b].owner.hub.id
      ensures K[a].owner == K[b].owner
    {
      SameId(hubs, K[a].owner.hub, K[b].owner.hub);
    }
  }

  lemma SameId(hubs: seq<VNetHub>, g: VNetHub, h: VNetHub)
    requires g in hubs && h in hubs && g.id == h.id
    requires forall a, b :: 0 <= a < b < |hubs| ==> hubs[a].id != hubs[b].id
    ensures g == h
  {}

  /** An unplugged hub jack is freed. */
  lemma FreeSound(hubs: seq<VNetHub>, L: Links, st: Tallies, K: Links, su: Tallies, x: VNetJack)
    requires SoundFor(hubs, L, st) && x in L && L[x].peer == null && L[x].owner.OfHub?
    requires K == L[x := Link(null, Free)] && su == st
    ensures KnownIn(hubs, K) && HubsApart(hubs, K) && IsForest(K, su)
    ensures forall h :: h in hubs && h != L[x].owner.hub ==> h in su.tt && (Idle(K, h) ==> su.tt[h] == 0)
    ensures L[x].owner.hub in hubs && !Idle(K, L[x].owner.hub) ==> IdleOK(hubs, K, su.tt)
  {
    forall g | g in hubs ensures HubWhole(K, g) { assert HubWhole(L, g); }
    ShrunkWired(L, K);
    forall y | y in K && K[y].owner != Free ensures JackOK(K, su, y) { ShrinkOther(L, st, K, su, y); }
    forall h | h in hubs && h != L[x].owner.hub && Idle(K, h) ensures Idle(L, h) {
      forall k | k in L ensures L[k].owner != OfHub(h) {}
    }
  }

  lemma ShrunkWired(L: Links, K: Links)
    requires Wired(L) && Shrunk(L, K)
    requires forall k :: k in K && K[k].owner.OfHub? ==> HubWhole(K, K[k].owner.hub)
    ensures Wired(K)
  {
    forall k | k in K && K[k].peer != null ensures K[k].peer in K && K[K[k].peer].peer == k {
      assert L[k] == K[k] && L[K[k].peer].peer == k;
    }
  }

  /** A port that nothing is plugged into is gone. */
  lemma PortGoneSound(hubs: seq<VNetHub>, L: Links, st: Tallies, K: Links, su: Tallies, x: VNetJack)
    requires SoundFor(hubs, L, st) && x in L && L[x].peer == null && IsPort(L[x].owner)
    requires K == L - {x} && su.c.Keys == K.Keys && su.tt == st.tt
    requires forall k :: k in K ==> SameAt(L, st, su, k)
    ensures SoundFor(hubs, K, su)
  {
    forall g | g in hubs ensures HubWhole(K, g) {
      assert HubWhole(L, g);
    }
    ShrunkWired(L, K);
    forall y | y in K && K[y].owner != Free ensures JackOK(K, su, y) { ShrinkOther(L, st, K, su, y); }
    forall h | h in hubs && Idle(K, h) ensures Idle(L, h) {
      forall k | k in L ensures L[k].owner != OfHub(h) { if k != x { assert K[k] == L[k]; } }
    }
  }

  /** A hub none of whose jacks is allocated leaves the list, with its jacks. */
  lemma HubGoneSound(hubs: seq<VNetHub>, after: seq<VNetHub>, L: Links, st: Tallies, K: Links, su: Tallies,
                     hub: VNetHub)
    requires KnownIn(hubs, L) && HubsApart(hubs, L) && IsForest(L, st) && hub in hubs && Idle(L, hub)
    requires forall h :: h in hubs && h != hub ==> h in st.tt && (Idle(L, h) ==> st.tt[h] == 0)
    requires forall h :: h in after <==> h in hubs && h != hub
    requires forall a, b :: 0 <= a < b < |after| ==> after[a].id != after[b].id
    requires K == L - set k | k in hub.jack
    requires su.c.Keys == K.Keys && (forall k :: k in K ==> SameAt(L, st, su, k))
    requires forall h :: h in after ==> h in su.tt && su.tt[h] == st.tt[h]
    ensures SoundFor(after, K, su)
  {
    assert HubWhole(L, hub);
    forall k | k in L && k !in K ensures L[k].peer == null && L[k].owner == Free {
      var i :| 0 <= i < |hub.jack| && hub.jack[i] == k;
    }
    forall g | g in after ensures HubWhole(K, g) {
      assert HubWhole(L, g);
    }
    forall k | k in K && K[k].owner.OfHub? ensures HubWhole(K, K[k].owner.hub) { assert K[k] == L[k]; }
    ShrunkWired(L, K);
    forall y | y in K && K[y].owner != Free ensures JackOK(K, su, y) { ShrinkOther(L, st, K, su, y); }
    forall h | h in after && Idle(K, h) ensures Idle(L, h) {
      forall k | k in L ensures L[k].owner != OfHub(h) { if k in K { assert K[k] == L[k]; } }
    }
  }

  /** hub's last allocated jack x has been freed. */
  lemma LastFreed(hubs: seq<VNetHub>, L: Links, st: Tallies, x: VNetJack, hub: VNetHub, K: Links)
    requires SoundFor(hubs, L, st) && x in L && L[x] == Link(null, OfHub(hub))
    requires K == L[x := Link(null, Free)] && Idle(K, hub)
    ensures hub in hubs && forall k :: k in hub.jack ==> k in K && K[k] == Link(null, Free)
    ensures forall k :: k in K && K[k].owner.OfHub? ==> K[k].owner.hub in hubs && K[k].owner.hub != hub
    ensures K - (set k | k in hub.jack) == L - set k | k in hub.jack
  {
    assert HubWhole(L, hub);
  }

  lemma LastFreedSound(hubs: seq<VNetHub>, after: seq<VNetHub>, L: Links, st: Tallies, x: VNetJack, hub: VNetHub,
                       K: Links, M: Links, su: Tallies)
    requires SoundFor(hubs, L, st) && x in L && L[x] == Link(null, OfHub(hub))
    requires K == L[x := Link(null, Free)] && Idle(K, hub)
    requires forall h :: h in after <==> h in hubs && h != hub
    requires forall a, b :: 0 <= a < b < |after| ==> after[a].id != after[b].id
    requires M == K - set k | k in hub.jack
    requires su.c.Keys == M.Keys && su.c == (st.c - set k | k in hub.jack) && su.e == st.e && su.wants == st.wants
    requires forall h :: h in after ==> h in su.tt && h in st.tt && su.tt[h] == st.tt[h]
    ensures SoundFor(after, M, su)
  {
    FreeSound(hubs, L, st, K, st, x);
    forall k | k in M ensures SameAt(K, st, su, k) {
      if K[k].owner.OfHub? { assert K[k].owner.hub in after; }
    }
    HubGoneSound(hubs, after, K, st, M, su, hub);
  }

  /** The bridge behind x binds or releases its device. */
  lemma RebindSound(hubs: seq<VNetHub>, L: Links, st: Tallies, su: Tallies, x: VNetJack)
    requires SoundFor(hubs, L, st) && x in L && L[x].owner.OfBridge?
    requires su == st.(e := su.e, wants := su.wants)
    requires forall k :: k in L && k != x ==> (k in su.e <==> k in st.e) && (k in su.wants <==> k in st.wants)
    requires x in su.e <==> x in su.wants && Beyond(L, st, x) != 0
    ensures SoundFor(hubs, L, su)
  {
    RebindForest(L, st, su, x);
  }
}
