/** The driver's structure operations: connecting, disconnecting and switching jacks, with the
    cycle check and the port-count propagation that they run. */
module Driver {
  import opened Jacks
  import opened SideTrees
  import opened Forest
  import opened Propagation
  import opened Rewiring
  import opened Growth
  import opened Soundness
  import opened Components

  const EDEADLK: int := 35
  const EINVAL: int := 22
  const EBADF: int := 9
  const ENXIO: int := 6
  const ENODEV: int := 19
  const ENOMEM: int := 12
  const ETH_HLEN: nat := 14

  /** An entry of the list that the cycle check builds for host interfaces. */
  datatype VNetInterface = VNetInterface(name: string, myGeneration: nat)

  class VNetDriver {
    var vnetHub: seq<VNetHub>
    var vnetInterfaces: seq<VNetInterface>
    var vnetGeneration: nat
    // Whether "numPorts mismatch" was ever logged.
    var mismatched: bool

    // The jacks, bridges and network devices in existence.
    ghost var jacks: set<VNetJack>
    ghost var bridges: set<VNetBridge>
    ghost var devices: set<NetDevice>
    // The part of each device's promiscuity that other users of the device account for.
    ghost var others: map<NetDevice, int>
    // Whether a memory allocation failed during the current connect.
    ghost var oom: bool

    /** The module as loaded: no hubs, no ports. */
    constructor ()
      ensures Valid() && jacks == {} && vnetHub == [] && !mismatched
      ensures bridges == {} && devices == {} && others == map[]
    {
      vnetHub, vnetInterfaces, vnetGeneration, mismatched := [], [], 0, false;
      jacks, bridges, devices, others, oom := {}, {}, {}, map[], false;
    }

    ghost function LinksNow(): Links
      reads `jacks, jacks`peer, jacks`owner
    {
      map j | j in jacks :: Link(j.peer, j.owner)
    }

    ghost function CountsNow(): map<VNetJack, int>
      reads `jacks, jacks`numPorts
    {
      map j | j in jacks :: j.numPorts
    }

    ghost function TotalsNow(): map<VNetHub, int>
      reads `vnetHub, vnetHub`totalPorts
    {
      map h | h in vnetHub :: h.totalPorts
    }

    /** The jacks in J whose bridge holds its device in promiscuous mode. */
    ghost function EnabledOf(J: set<VNetJack>): set<VNetJack>
      reads `bridges, J`owner, bridges`enabledPromisc
    {
      set k | k in J && k.owner.OfBridge? && k.owner.bridge in bridges && k.owner.bridge.enabledPromisc
    }

    /** The jacks in J whose bridge has a device that is not wireless. */
    ghost function WantsOf(J: set<VNetJack>): set<VNetJack>
      reads `bridges, J`owner, bridges`dev, bridges`wirelessAdapter
    {
      set k | k in J && k.owner.OfBridge? && k.owner.bridge in bridges &&
              k.owner.bridge.dev != null && !k.owner.bridge.wirelessAdapter
    }

    ghost function TalliesNow(): Tallies
      reads `jacks, `vnetHub, `bridges, jacks`owner, jacks`numPorts, vnetHub`totalPorts
      reads bridges`enabledPromisc, bridges`dev, bridges`wirelessAdapter
    {
      Tallies(CountsNow(), TotalsNow(), EnabledOf(jacks), WantsOf(jacks))
    }

    /** The bridges that jacks in J belong to are known, and have no other jack in J. */
    ghost predicate BridgesOf(J: set<VNetJack>)
      reads `bridges, J`owner
    {
      && (forall k :: k in J && k.owner.OfBridge? ==> k.owner.bridge in bridges)
      && (forall k, l :: k in J && l in J && k.owner.OfBridge? && l.owner == k.owner ==> l == k)
    }

    /** The objects that jacks lead to are known. */
    ghost predicate Known()
      reads `jacks, `vnetHub, `bridges, `devices, jacks`owner, bridges`dev
    {
      var whole :=
        && BridgesOf(jacks)
        && (forall k :: k in jacks && k.owner.OfHub? ==> k.owner.hub in vnetHub)
        && (forall b :: b in bridges && b.dev != null ==> b.dev in devices);
      whole
    }

    /** The bridges that hold device d in promiscuous mode. */
    ghost function Holders(d: NetDevice): set<VNetBridge>
      reads `bridges, bridges
    {
      set b | b in bridges && b.dev == d && b.enabledPromisc
    }

    /** Each device's promiscuity is what others contribute and one for each bridge holding it. */
    ghost predicate PromiscConserved()
      reads `bridges, `devices, `others, bridges, devices
    {
      var whole :=
        && others.Keys == devices
        && (forall b :: b in bridges && b.enabledPromisc ==> b.dev != null && !b.wirelessAdapter)
        && (forall d :: d in devices ==> d.promiscuity == others[d] + |Holders(d)|);
      whole
    }

    ghost predicate Sound(L: Links, st: Tallies)
      reads `vnetHub
    {
      SoundFor(vnetHub, L, st)
    }

    ghost predicate GenerationsOK()
      reads `vnetHub, `vnetInterfaces, `vnetGeneration, vnetHub`myGeneration
    {
      var whole := vnetInterfaces == [] && forall h :: h in vnetHub ==> h.myGeneration <= vnetGeneration;
      whole
    }

    ghost predicate Valid()
      reads this, jacks, vnetHub, bridges, devices
    {
      var whole := Known() && Sound(LinksNow(), TalliesNow()) && GenerationsOK() && PromiscConserved();
      whole
    }

    // ----- Marks of the cycle check -----

    ghost function Marked(generation: nat): set<Mark>
      reads `vnetHub, `vnetInterfaces, vnetHub`myGeneration
    {
      (set h | h in vnetHub && h.myGeneration == generation :: HubMark(h.id)) +
      (set i | 0 <= i < |vnetInterfaces| && vnetInterfaces[i].myGeneration == generation ::
         NameMark(vnetInterfaces[i].name))
    }

    ghost predicate HubsKnown(L: Links)
      reads `vnetHub
    {
      KnownIn(vnetHub, L)
    }

    ghost predicate NamesUnique()
      reads `vnetInterfaces
    {
      forall a, b :: 0 <= a < b < |vnetInterfaces| ==> vnetInterfaces[a].name != vnetInterfaces[b].name
    }

    method CycleDetectIf(name: string, generation: nat) returns (found: bool)
      requires !oom && NamesUnique()
      modifies this`vnetInterfaces, this`oom
      ensures !found <==> !oom && NameMark(name) !in old(Marked(generation))
      ensures !found ==> Marked(generation) == old(Marked(generation)) + {NameMark(name)}
      ensures NamesUnique()
    {
      var p := 0;
      while p < |vnetInterfaces|
        invariant p <= |vnetInterfaces|
        invariant forall k :: 0 <= k < p ==> vnetInterfaces[k].name != name
        invariant !oom && vnetInterfaces == old(vnetInterfaces)
      {
        if name == vnetInterfaces[p].name {
          if vnetInterfaces[p].myGeneration == generation {
            return true;
          } else {
            vnetInterfaces := vnetInterfaces[p := vnetInterfaces[p].(myGeneration := generation)];
            assert Marked(generation) == old(Marked(generation)) + {NameMark(name)} by {
              assert vnetInterfaces[p].myGeneration == generation;
              forall i | 0 <= i < |vnetInterfaces| && i != p
                ensures vnetInterfaces[i] == old(vnetInterfaces)[i] {}
            }
            return false;
          }
        }
        p := p + 1;
      }
      var granted: bool := *;
      if !granted {
        oom := true;
        return true;
      }
      vnetInterfaces := [VNetInterface(name, generation)] + vnetInterfaces;
      assert Marked(generation) == old(Marked(generation)) + {NameMark(name)} by {
        assert vnetInterfaces[0].myGeneration == generation;
        forall i | 0 <= i < |old(vnetInterfaces)|
          ensures vnetInterfaces[i + 1] == old(vnetInterfaces)[i] {}
        forall i | 0 < i < |vnetInterfaces|
          ensures vnetInterfaces[i] == old(vnetInterfaces)[i - 1] {}
      }
      return false;
    }

    method FreeInterfaceList()
      modifies this`vnetInterfaces
      ensures vnetInterfaces == []
      ensures LinksNow() == old(LinksNow()) && TalliesNow() == old(TalliesNow())
    {
      while vnetInterfaces != []
        invariant LinksNow() == old(LinksNow()) && TalliesNow() == old(TalliesNow())
        decreases |vnetInterfaces|
      {
        vnetInterfaces := vnetInterfaces[1..];
      }
    }

    /** The dispatcher: what hangs behind the jack is the ghost tree s. */
    method CycleDetect(jack: VNetJack?, generation: nat, ghost L: Links, ghost s: Slot) returns (found: bool)
      requires L == LinksNow() && Wired(L) && HubsKnown(L) && NamesUnique() && !oom
      requires if jack == null then s == Empty else s.Sub? && Shape(L, jack, s.side)
      modifies this`vnetInterfaces, this`oom, vnetHub`myGeneration
      ensures !found <==> !oom && Unseen(s, old(Marked(generation)))
      ensures !found ==> Extends(old(Marked(generation)), s, Marked(generation))
      ensures NamesUnique() && L == LinksNow() && TalliesNow() == old(TalliesNow())
      ensures forall h :: h in vnetHub ==> h.myGeneration == old(h.myGeneration) || h.myGeneration == generation
      decreases s, 1
    {
      if jack == null {
        return false;
      }
      assert jack in jacks;
      ghost var M := Marked(generation);
      match jack.owner {
        case OfHub(_) =>
          found := HubCycleDetect(jack, generation, L, s.side);
        case NetIf(devName) =>
          found := CycleDetectIf(devName, generation);
          LeafMarks(s, NameMark(devName), M);
        case OfBridge(bridge) =>
          found := CycleDetectIf(bridge.name, generation);
          LeafMarks(s, NameMark(bridge.name), M);
        case UserIf =>
          found := false;
          assert forall m :: SlotTally(Occurrences(m), s) == 0;
        case Free =>
          found := false;
      }
    }

    method HubCycleDetect(jack: VNetJack, generation: nat, ghost L: Links, ghost t: Side) returns (found: bool)
      requires L == LinksNow() && Wired(L) && HubsKnown(L) && NamesUnique() && !oom
      requires Shape(L, jack, t) && t.Node?
      modifies this`vnetInterfaces, this`oom, vnetHub`myGeneration
      ensures !found <==> !oom && Unseen(Sub(t), old(Marked(generation)))
      ensures !found ==> Extends(old(Marked(generation)), Sub(t), Marked(generation))
      ensures NamesUnique() && L == LinksNow() && TalliesNow() == old(TalliesNow())
      ensures forall h :: h in vnetHub ==> h.myGeneration == old(h.myGeneration) || h.myGeneration == generation
      decreases t, 0
    {
      hide Unseen, UnseenUpTo, SeenUpTo, Extends;
      var hub := jack.owner.hub;
      ghost var M := Marked(generation);
      if hub.myGeneration == generation {
        assert HubMark(hub.id) in M;
        HubAgain(t, M);
        return true;
      }
      hub.myGeneration := generation;
      HubFirst(generation, hub, t, M);
      var i := 0;
      while i < NUM_JACKS_PER_HUB
        invariant i <= NUM_JACKS_PER_HUB
        invariant NamesUnique() && !oom && L == LinksNow() && TalliesNow() == old(TalliesNow())
        invariant UnseenUpTo(t, M, i) && SeenUpTo(t, M, i, Marked(generation))
        invariant forall h :: h in vnetHub ==> h.myGeneration == old(h.myGeneration) || h.myGeneration == generation
      {
        var foundCycle := JackCycleDetect(jack, i, generation, L, t, M);
        if foundCycle {
          return true;
        }
        i := i + 1;
      }
      UnseenAll(t, M);
      SeenAll(t, M, Marked(generation));
      return false;
    }

    /** One round of the hub's loop, for its jack i. */
    method JackCycleDetect(jack: VNetJack, i: nat, generation: nat, ghost L: Links, ghost t: Side, ghost M: set<Mark>)
      returns (found: bool)
      requires L == LinksNow() && Wired(L) && HubsKnown(L) && NamesUnique() && !oom
      requires Shape(L, jack, t) && t.Node? && i < NUM_JACKS_PER_HUB
      requires UnseenUpTo(t, M, i) && SeenUpTo(t, M, i, Marked(generation))
      modifies this`vnetInterfaces, this`oom, vnetHub`myGeneration
      ensures !found ==> !oom && UnseenUpTo(t, M, i + 1) && SeenUpTo(t, M, i + 1, Marked(generation))
      ensures found ==> oom || !Unseen(Sub(t), M)
      ensures NamesUnique() && L == LinksNow() && TalliesNow() == old(TalliesNow())
      ensures forall h :: h in vnetHub ==> h.myGeneration == old(h.myGeneration) || h.myGeneration == generation
      decreases t.kids[i], 2
    {
      var hub := jack.owner.hub;
      found := false;
      KidShape(L, jack, t, i);
      UnseenStep(t, M, i, Marked(generation));
      if hub.jack[i].owner != Free && i != jack.index {
        found := CycleDetect(hub.jack[i].peer, generation, L, t.kids[i]);
      }
      if !found {
        SeenStep(t, M, i, old(Marked(generation)), Marked(generation));
      }
    }

    lemma LeafMarks(s: Slot, m: Mark, M: set<Mark>)
      requires s.Sub? && s.side.Leaf? && Marks(s.side.owner, m)
      ensures Unseen(s, M) <==> m !in M
      ensures forall x :: SlotHas(s, x) <==> x == m
    {
      forall x ensures SlotTally(Occurrences(x), s) == One(x == m) {
        var q := Occurrences(x);
        assert SlotTally(q, s) == Tally(q, s.side) == OwnerTally(q, s.side.owner);
      }
      if m in M {
        assert SlotTally(Occurrences(m), s) + One(m in M) > 1;
      }
    }

    lemma HubAgain(t: Side, M: set<Mark>)
      requires t.Node? && HubMark(t.hub.id) in M
      ensures !Unseen(Sub(t), M)
    {
      assert SlotTally(Occurrences(HubMark(t.hub.id)), Sub(t)) + One(HubMark(t.hub.id) in M) > 1;
    }

    lemma HubFirst(generation: nat, hub: VNetHub, t: Side, M: set<Mark>)
      requires t.Node? && t.hub == hub && hub in vnetHub && HubMark(hub.id) !in M
      requires forall m :: m in Marked(generation) <==> m in M || m == HubMark(hub.id)
      ensures UnseenUpTo(t, M, 0) && SeenUpTo(t, M, 0, Marked(generation))
    {}

    // ----- Port counts -----

    function AttachedPorts(jack: VNetJack): int
      reads jack`peer, if jack.peer == null then {} else {jack.peer}
    {
      if jack.peer != null then jack.peer.numPorts else 0
    }

    method StartPromisc(bridge: VNetBridge)
      requires bridge in bridges && bridge.dev != null && bridge.dev in devices && PromiscConserved()
      modifies bridge`enabledPromisc, devices`promiscuity
      ensures bridge.enabledPromisc == !bridge.wirelessAdapter
      ensures PromiscConserved()
    {
      if !bridge.enabledPromisc && !bridge.wirelessAdapter {
        ghost var before := Holders(bridge.dev);
        label L:
        bridge.dev.promiscuity := bridge.dev.promiscuity + 1;
        bridge.enabledPromisc := true;
        assert Holders(bridge.dev) == before + {bridge};
        forall d | d in devices && d != bridge.dev ensures Holders(d) == old@L(Holders(d)) {}
      }
    }

    method StopPromisc(bridge: VNetBridge)
      requires bridge in bridges && bridge.dev != null && bridge.dev in devices && PromiscConserved()
      modifies bridge`enabledPromisc, devices`promiscuity
      ensures !bridge.enabledPromisc
      ensures PromiscConserved()
    {
      if bridge.enabledPromisc && !bridge.wirelessAdapter {
        ghost var before := Holders(bridge.dev);
        label L:
        bridge.dev.promiscuity := bridge.dev.promiscuity - 1;
        bridge.enabledPromisc := false;
        assert Holders(bridge.dev) == before - {bridge};
        forall d | d in devices && d != bridge.dev ensures Holders(d) == old@L(Holders(d)) {}
      }
    }

    method BridgePortsChanged(jack: VNetJack, ghost L: Links, ghost t: Side, ghost st: Tallies)
      returns (ghost su: Tallies)
      requires Known() && PromiscConserved() && L == LinksNow() && st == TalliesNow()
      requires TreeAt(L, jack, t) && jack.owner.OfBridge?
      modifies bridges`enabledPromisc, devices`promiscuity
      ensures PromiscConserved() && Known() && L == LinksNow()
      ensures su == TalliesNow()
      ensures Changed(L, st, su, t) && Told(L, st, su, jack, t)
    {
      hide PromiscConserved, Told, Changed, Known, TreeAt;
      var bridge := jack.owner.bridge;
      BridgeAt(jack, L, t, st);
      BridgeReact(bridge, AttachedPorts(jack));
      su := TalliesNow();
      BridgeTold(L, st, su, jack, t, bridge);
    }

    /** The jack of a bridge's port, the bridge's only one. */
    lemma BridgeAt(jack: VNetJack, L: Links, t: Side, st: Tallies)
      requires Known() && L == LinksNow() && st == TalliesNow() && TreeAt(L, jack, t) && jack.owner.OfBridge?
      ensures jack in jacks && jack.owner.bridge in bridges
      ensures (jack.peer == null || jack.peer in jacks) && AttachedPorts(jack) == Beyond(L, st, jack)
      ensures forall k :: k in jacks && k != jack && k.owner.OfBridge? ==> k.owner.bridge != jack.owner.bridge
    {}

    method BridgeReact(bridge: VNetBridge, attached: int)
      requires Known() && PromiscConserved() && bridge in bridges
      modifies bridge`enabledPromisc, devices`promiscuity
      ensures PromiscConserved() && Known()
      ensures bridge.enabledPromisc <==> bridge.dev != null && !bridge.wirelessAdapter && attached != 0
    {
      if bridge.dev != null {
        if attached != 0 {
          StartPromisc(bridge);
        } else {
          StopPromisc(bridge);
        }
      }
    }

    lemma BridgeTold(L: Links, st: Tallies, su: Tallies, jack: VNetJack, t: Side, bridge: VNetBridge)
      requires TreeAt(L, jack, t) && L[jack].owner == OfBridge(bridge)
      requires su == st.(e := su.e) && forall k :: k in L && k != jack ==> (k in su.e <==> k in st.e)
      requires jack in su.e <==> jack in su.wants && Beyond(L, st, jack) != 0
      ensures Changed(L, st, su, t) && Told(L, st, su, jack, t)
    {}

    /** Tells jack, behind which s hangs, that the ports beyond it have changed. */
    method PortsChanged(jack: VNetJack?, ghost L: Links, ghost s: Slot, ghost st: Tallies) returns (ghost su: Tallies)
      requires Known() && PromiscConserved() && L == LinksNow() && st == TalliesNow()
      requires SlotAt(L, jack, s) && (s.Sub? ==> InOK(st, s.side))
      modifies this`mismatched, jacks`numPorts, vnetHub`totalPorts, bridges`enabledPromisc, devices`promiscuity
      ensures PromiscConserved() && Known() && L == LinksNow()
      ensures mismatched == old(mismatched)
      ensures su == TalliesNow()
      ensures SlotTold(L, st, su, jack, s)
      decreases s, 1
    {
      su := st;
      if jack == null {
        return;
      }
      match jack.owner {
        case OfHub(_) =>
          su := HubPortsChanged(jack, L, s.side, st);
        case OfBridge(_) =>
          su := BridgePortsChanged(jack, L, s.side, st);
        case UserIf =>
        case NetIf(_) =>
        case Free =>
      }
    }

    method HubPortsChanged(jack: VNetJack, ghost L: Links, ghost t: Side, ghost st: Tallies) returns (ghost su: Tallies)
      requires Known() && PromiscConserved() && L == LinksNow() && st == TalliesNow()
      requires TreeAt(L, jack, t) && t.Node? && InOK(st, t)
      modifies this`mismatched, jacks`numPorts, vnetHub`totalPorts, bridges`enabledPromisc, devices`promiscuity
      ensures PromiscConserved() && Known() && L == LinksNow()
      ensures mismatched == old(mismatched)
      ensures su == TalliesNow()
      ensures Changed(L, st, su, t) && Told(L, st, su, jack, t)
      decreases t, 0
    {
      hide InOK, PromiscConserved, Changed, Told;
      var hub := jack.owner.hub;
      assert hub in vnetHub && t.hub == hub;
      su := SumPorts(hub, jack, L, t, st);
      var i := 0;
      while i < NUM_JACKS_PER_HUB
        invariant i <= NUM_JACKS_PER_HUB
        invariant PromiscConserved() && Known() && L == LinksNow() && mismatched == old(mismatched)
        invariant su == TalliesNow() && Progress(L, st, su, jack, t, i)
      {
        su := JackPortsChanged(jack, i, L, t, st, su);
        i := i + 1;
      }
      ProgressDone(L, jack, t, st, su);
    }

    /** The hub's first loop: add up what is attached to each allocated jack. */
    method SumPorts(hub: VNetHub, jack: VNetJack, ghost L: Links, ghost t: Side, ghost st: Tallies)
      returns (ghost su: Tallies)
      requires L == LinksNow() && st == TalliesNow() && hub in vnetHub
      requires TreeAt(L, jack, t) && t.Node? && t.hub == hub && InOK(st, t)
      modifies hub`totalPorts
      ensures su == TalliesNow() && Progress(L, st, su, jack, t, 0)
    {
      hide InOK, Progress, EnabledOf, WantsOf;
      hub.totalPorts := 0;
      var i := 0;
      while i < NUM_JACKS_PER_HUB
        invariant i <= NUM_JACKS_PER_HUB
        invariant hub.totalPorts == TallyUpTo(AllPorts, t.kids, i) + if jack.index < i then Beyond(L, st, jack) else 0
      {
        SumStep(L, jack, t, i, st);
        if hub.jack[i].owner != Free {
          assert AttachedPorts(hub.jack[i]) == Beyond(L, st, hub.jack[i]);
          hub.totalPorts := hub.totalPorts + AttachedPorts(hub.jack[i]);
        }
        i := i + 1;
      }
      su := st.(tt := st.tt[hub := hub.totalPorts]);
      assert su.tt == TotalsNow();
      SumDone(L, jack, t, st, su);
    }

    method SetNumPorts(jack: VNetJack, n: int, ghost st: Tallies) returns (ghost su: Tallies)
      requires jack in jacks && st == TalliesNow()
      modifies jack`numPorts
      ensures jack.numPorts == n
      ensures su == TalliesNow() && su == st.(c := st.c[jack := n])
    {
      jack.numPorts := n;
      su := st.(c := st.c[jack := n]);
      assert su.c == CountsNow();
    }

    /** One round of the hub's second loop, for its jack i; st0 is how the loop began. */
    method JackPortsChanged(jack: VNetJack, i: nat, ghost L: Links, ghost t: Side, ghost st0: Tallies,
                            ghost st: Tallies)
      returns (ghost su: Tallies)
      requires Known() && PromiscConserved() && L == LinksNow() && st == TalliesNow()
      requires i < NUM_JACKS_PER_HUB && Progress(L, st0, st, jack, t, i)
      modifies this`mismatched, jacks`numPorts, vnetHub`totalPorts, bridges`enabledPromisc, devices`promiscuity
      ensures PromiscConserved() && Known() && L == LinksNow()
      ensures mismatched == old(mismatched)
      ensures su == TalliesNow() && Progress(L, st0, su, jack, t, i + 1)
      decreases t.kids[i], 3
    {
      hide InOK, Known, PromiscConserved, Progress, TreeAt;
      ProgressHere(L, jack, t, i, st0, st);
      var hub := jack.owner.hub;
      su := st;
      if hub.jack[i].owner == Free {
        QuietSlot(L, jack, t, i, st0, st);
        return;
      }
      var num := AttachedPorts(hub.jack[i]);
      var newCount := hub.totalPorts - num;
      assert num == Beyond(L, st, t.hub.jack[i]) && hub.totalPorts == st.tt[t.hub];
      if i == jack.index {
        NoMismatch(L, jack, t, i, st0, st);
        mismatched := mismatched || newCount != hub.jack[i].numPorts;
        QuietSlot(L, jack, t, i, st0, st);
      } else {
        NewCount(L, jack, t, i, st0, st);
        su := TellPeer(jack, i, newCount, L, t, st0, st);
      }
    }

    /** Gives jack i of the hub its new count and tells the jack's peer. */
    method TellPeer(jack: VNetJack, i: nat, newCount: int, ghost L: Links, ghost t: Side, ghost st0: Tallies,
                    ghost st: Tallies)
      returns (ghost su: Tallies)
      requires Known() && PromiscConserved() && L == LinksNow() && st == TalliesNow()
      requires i < NUM_JACKS_PER_HUB && Progress(L, st0, st, jack, t, i) && IsHere(L, t, t.hub.jack[i])
      requires newCount == Total(L, st0, jack, t) - SlotTally(AllPorts, t.kids[i])
      modifies this`mismatched, jacks`numPorts, vnetHub`totalPorts, bridges`enabledPromisc, devices`promiscuity
      ensures PromiscConserved() && Known() && L == LinksNow()
      ensures mismatched == old(mismatched)
      ensures su == TalliesNow() && Progress(L, st0, su, jack, t, i + 1)
      decreases t.kids[i], 2
    {
      hide InOK, SlotTold, Known, PromiscConserved, TalliesNow, Progress, TreeAt, IsHere;
      ProgressHere(L, jack, t, i, st0, st);
      var hub := jack.owner.hub;
      ghost var st1 := SetNumPorts(hub.jack[i], newCount, st);
      HereProgress(L, jack, t, i, newCount, st0, st, st1);
      TellReady(L, jack, t, i, st0, st1);
      su := PortsChanged(hub.jack[i].peer, L, t.kids[i], st1);
      BusySlot(L, jack, t, i, newCount, st0, st1, su);
    }

    // ----- Connecting and disconnecting -----

    /** j is one end that can be plugged in. */
    ghost predicate FreeEnd(j: VNetJack)
      reads `jacks, j`owner, j`peer
    {
      j in jacks && j.owner != Free && j.peer == null
    }

    method Connect(jack1: VNetJack, jack2: VNetJack) returns (errno: int)
      requires Valid() && FreeEnd(jack1) && FreeEnd(jack2) && jack1 != jack2
      modifies this`vnetInterfaces, this`vnetGeneration, this`oom, this`mismatched, jacks`peer, jacks`numPorts
      modifies vnetHub`myGeneration, vnetHub`totalPorts, bridges`enabledPromisc, devices`promiscuity
      ensures Valid()
      ensures errno == 0 || errno == -EDEADLK
      ensures errno == 0 <==> !oom && Separate(old(LinksNow()), jack1, jack2)
      ensures errno == 0 <==> !oom && NothingShared(old(LinksNow()), jack1, jack2)
      ensures errno == 0 ==> LinksNow() == Join(old(LinksNow()), jack1, jack2)
      ensures errno != 0 ==> LinksNow() == old(LinksNow()) && TalliesNow() == old(TalliesNow())
      ensures mismatched == old(mismatched)
    {
      hide SoundFor, Separate, NothingShared, Known, PromiscConserved, GenerationsOK;
      ghost var L, st := LinksNow(), TalliesNow();
      SoundSeparate(L, st, jack1, jack2);
      var foundCycle := WouldCycle(jack1, jack2, L, st);
      if foundCycle {
        return -EDEADLK;
      }
      ghost var su := PlugIn(jack1, jack2, L, st);
      return 0;
    }

    lemma SoundSeparate(L: Links, st: Tallies, a: VNetJack, b: VNetJack)
      requires Sound(L, st) && a in L && b in L
      requires L[a].owner != Free && L[b].owner != Free && L[a].peer == null && L[b].peer == null
      ensures Separate(L, a, b) <==> NothingShared(L, a, b)
    {
      SeparateIff(L, st, a, b);
    }

    /** The rest of a connect that found no cycle. */
    method PlugIn(jack1: VNetJack, jack2: VNetJack, ghost L: Links, ghost st: Tallies) returns (ghost su: Tallies)
      requires Known() && PromiscConserved() && L == LinksNow() && st == TalliesNow() && Sound(L, st)
      requires FreeEnd(jack1) && FreeEnd(jack2) && jack1 != jack2 && Separate(L, jack1, jack2)
      modifies this`mismatched, jacks`peer, jacks`numPorts
      modifies vnetHub`totalPorts, bridges`enabledPromisc, devices`promiscuity
      ensures PromiscConserved() && Known() && LinksNow() == Join(L, jack1, jack2)
      ensures su == TalliesNow() && Sound(LinksNow(), su)
      ensures mismatched == old(mismatched)
    {
      hide SoundFor, TwoSides, Had, Heard, ChangedBoth, Known, PromiscConserved, TalliesNow;
      ghost var t, s := JoinReady(L, st, jack1, jack2);
      ghost var K := Join(L, jack1, jack2);
      SetPeers(jack1, jack2, true, L, st);
      su := TellBoth(jack1, jack2, K, t, s, st, 0, 0);
      JoinSound(vnetHub, L, st, jack1, jack2, t, s, su);
    }

    /** Points two jacks at each other, or both at nothing. */
    method SetPeers(jack1: VNetJack, jack2: VNetJack, join: bool, ghost L: Links, ghost st: Tallies)
      requires L == LinksNow() && st == TalliesNow() && jack1 in jacks && jack2 in jacks && jack1 != jack2
      requires !join ==> jack1.peer == jack2
      modifies jack1`peer, jack2`peer
      ensures LinksNow() == if join then Join(L, jack1, jack2) else Cut(L, jack1)
      ensures TalliesNow() == st
    {
      jack1.peer := if join then jack2 else null;
      jack2.peer := if join then jack1 else null;
    }

    lemma JoinReady(L: Links, st: Tallies, a: VNetJack, b: VNetJack) returns (t: Side, s: Side)
      requires Sound(L, st) && a in L && b in L && a != b && Separate(L, a, b)
      requires L[a].owner != Free && L[b].owner != Free && L[a].peer == null && L[b].peer == null
      ensures t == TreeOf(L, a) && s == TreeOf(L, b)
      ensures TwoSides(Join(L, a, b), a, t, b, s)
      ensures Had(Join(L, a, b), st, t, 0) && Had(Join(L, a, b), st, s, 0)
    {
      t, s := TreeOf(L, a), TreeOf(L, b);
      assert JackOK(L, st, a) && JackOK(L, st, b);
      JoinSides(L, st, a, b);
    }

    /** The two cycle walks of a connect, with a fresh generation. */
    method WouldCycle(jack1: VNetJack, jack2: VNetJack, ghost L: Links, ghost st: Tallies) returns (found: bool)
      requires L == LinksNow() && st == TalliesNow() && Sound(L, st)
      requires GenerationsOK() && FreeEnd(jack1) && FreeEnd(jack2)
      modifies this`vnetInterfaces, this`vnetGeneration, this`oom, vnetHub`myGeneration
      ensures GenerationsOK() && L == LinksNow() && st == TalliesNow()
      ensures !found <==> !oom && Separate(L, jack1, jack2)
    {
      hide SoundFor, TalliesNow, Extends, Unseen;
      ghost var t, s := WalkReady(L, st, jack1, jack2);
      NextGeneration();
      found := CycleDetect(jack1, vnetGeneration, L, Sub(t));
      if found {
        FreeInterfaceList();
        return;
      }
      SecondWalk(t, s, Marked(vnetGeneration));
      found := CycleDetect(jack2, vnetGeneration, L, Sub(s));
      FreeInterfaceList();
    }

    method NextGeneration()
      requires GenerationsOK()
      modifies this`vnetGeneration, this`oom
      ensures GenerationsOK() && Marked(vnetGeneration) == {} && !oom
      ensures LinksNow() == old(LinksNow()) && TalliesNow() == old(TalliesNow())
    {
      oom := false;
      vnetGeneration := vnetGeneration + 1;
    }

    lemma WalkReady(L: Links, st: Tallies, a: VNetJack, b: VNetJack) returns (t: Side, s: Side)
      requires Sound(L, st) && a in L && b in L && L[a].owner != Free && L[b].owner != Free
      ensures Wired(L) && HubsKnown(L)
      ensures HasTree(L, a) && HasTree(L, b) && t == TreeOf(L, a) && s == TreeOf(L, b)
      ensures Distinct(s) && Unseen(Sub(t), {})
    {
      assert JackOK(L, st, a) && JackOK(L, st, b);
      t, s := TreeOf(L, a), TreeOf(L, b);
      forall m ensures Tally(Occurrences(m), t) <= 1 && Tally(Occurrences(m), s) <= 1 {
        assert Whole(Occurrences(m), t, UpOf(L, a)) <= 1 && Whole(Occurrences(m), s, UpOf(L, b)) <= 1;
      }
      forall m ensures SlotTally(Occurrences(m), Sub(t)) + One(m in {}) <= 1 { assert Tally(Occurrences(m), t) <= 1; }
    }

    /** Each side is told of the other, unless the other has no ports. */
    method TellBoth(jack1: VNetJack, jack2: VNetJack, ghost K: Links, ghost t: Side, ghost s: Side, ghost st: Tallies,
                    ghost x: int, ghost y: int)
      returns (ghost su: Tallies)
      requires Known() && PromiscConserved() && K == LinksNow() && st == TalliesNow()
      requires TwoSides(K, jack1, t, jack2, s) && Had(K, st, t, x) && Had(K, st, s, y)
      requires (x == 0 || x == Ports(s)) && (y == 0 || y == Ports(t))
      requires (jack1.peer == jack2 && jack2.peer == jack1) || (jack1.peer == null && jack2.peer == null)
      modifies this`mismatched, jacks`numPorts, vnetHub`totalPorts, bridges`enabledPromisc, devices`promiscuity
      ensures PromiscConserved() && Known()
      ensures mismatched == old(mismatched)
      ensures K == LinksNow() && su == TalliesNow()
      ensures Heard(K, su, jack1, t) && Heard(K, su, jack2, s)
      ensures ChangedBoth(K, st, su, t, s)
    {
      su := st;
      assert jack1.numPorts == Ports(t) && jack2.numPorts == Ports(s);
      if jack2.numPorts != 0 {
        su := PortsChanged(jack1, K, Sub(t), st);
        FirstTold(K, st, su, jack1, t, x, jack2, s, y);
      } else {
        SkipHeard(K, st, jack1, t, x, s);
        NotChanged(K, st, t);
      }
      ghost var sv := su;
      assert jack1.numPorts == Ports(t);
      if jack1.numPorts != 0 {
        su := PortsChanged(jack2, K, Sub(s), sv);
        SecondTold(K, sv, su, jack1, t, jack2, s, y);
      } else {
        SkipHeard(K, sv, jack2, s, y, t);
        NotChanged(K, sv, s);
      }
      BothChanged(K, st, sv, su, t, s);
    }

    method Disconnect(jack: VNetJack) returns (peer: VNetJack?)
      requires Valid() && jack in jacks
      modifies this`mismatched, jacks`peer, jacks`numPorts
      modifies vnetHub`totalPorts, bridges`enabledPromisc, devices`promiscuity
      ensures Valid()
      ensures peer == old(jack.peer)
      ensures LinksNow() == Cut(old(LinksNow()), jack)
      ensures peer == null ==> TalliesNow() == old(TalliesNow())
      ensures mismatched == old(mismatched)
    {
      hide SoundFor, Known, PromiscConserved, GenerationsOK, TalliesNow;
      ghost var L, st := LinksNow(), TalliesNow();
      peer := jack.peer;
      if peer == null {
        return null;
      }
      ghost var su := Unplug(jack, peer, L, st);
    }

    /** The rest of a disconnect of two connected jacks. */
    method Unplug(jack: VNetJack, peer: VNetJack, ghost L: Links, ghost st: Tallies) returns (ghost su: Tallies)
      requires Known() && PromiscConserved() && L == LinksNow() && st == TalliesNow() && Sound(L, st)
      requires jack in jacks && jack.peer == peer
      modifies this`mismatched, jacks`peer, jacks`numPorts
      modifies vnetHub`totalPorts, bridges`enabledPromisc, devices`promiscuity
      ensures PromiscConserved() && Known() && peer in L && LinksNow() == Cut(L, jack)
      ensures su == TalliesNow() && Sound(LinksNow(), su)
      ensures mismatched == old(mismatched)
    {
      hide SoundFor, TwoSides, Had, Heard, ChangedBoth, PromiscConserved, TalliesNow;
      FarEnd(L, st, jack);
      ghost var t, s := CutReady(L, st, jack);
      ghost var K := Cut(L, jack);
      SetPeers(jack, peer, false, L, st);
      su := TellBoth(jack, peer, K, t, s, st, Ports(s), Ports(t));
      CutSound(vnetHub, L, st, jack, t, s, su);
    }

    lemma FarEnd(L: Links, st: Tallies, a: VNetJack)
      requires Sound(L, st) && a in L && L[a].peer != null
      ensures L[a].owner != Free && L[a].peer in L && L[L[a].peer].peer == a && L[a].peer != a
    {}

    lemma CutReady(L: Links, st: Tallies, a: VNetJack) returns (t: Side, s: Side)
      requires Sound(L, st) && a in L && L[a].owner != Free && L[a].peer != null && L[a].peer in L
      ensures HasTree(L, a) && HasTree(L, L[a].peer) && t == TreeOf(L, a) && s == TreeOf(L, L[a].peer)
      ensures TwoSides(Cut(L, a), a, t, L[a].peer, s)
      ensures Had(Cut(L, a), st, t, Ports(s)) && Had(Cut(L, a), st, s, Ports(t))
    {
      CutSides(L, st, a);
      t, s := TreeOf(L, a), TreeOf(L, L[a].peer);
    }

    // ----- Switching peers -----

    lemma EnabledAreBridges(L: Links, st: Tallies)
      requires L == LinksNow() && st == TalliesNow()
      ensures forall k :: k in st.e ==> k in L && L[k].owner.OfBridge?
    {}

    /** Disconnects jack from its peer and connects newPeer in its place: to the old peer, or to
        jack itself. When the new connection is refused, the old one is restored. oom1 tells
        whether the first of the two connects ran out of memory. A jack may be without a peer, as
        -EBADF leaves it; oops tells that the source then writes through the null peer. */
    method SwitchToDifferentPeer(jack: VNetJack, newPeer: VNetJack?, connectNewToPeerOfJack: bool)
      returns (errno: int, ghost oom1: bool, oops: bool)
      requires Valid() && jack in jacks && jack.owner != Free
      requires newPeer != null ==> FreeEnd(newPeer) && newPeer != jack
      modifies this`vnetInterfaces, this`vnetGeneration, this`oom, this`mismatched, jacks`peer, jacks`numPorts
      modifies vnetHub`myGeneration, vnetHub`totalPorts, bridges`enabledPromisc, devices`promiscuity
      ensures Valid()
      ensures newPeer == null ==> errno == -EINVAL && LinksNow() == old(LinksNow())
      ensures newPeer != null && (connectNewToPeerOfJack ==> old(jack.peer) != null) ==>
        var cut := Cut(old(LinksNow()), jack);
        var end := if connectNewToPeerOfJack then old(jack.peer) else jack;
        && (errno == 0 <==> !oom1 && Separate(cut, end, newPeer))
        && (errno == 0 ==> LinksNow() == Join(cut, end, newPeer))
      ensures newPeer != null && connectNewToPeerOfJack && old(jack.peer) == null ==> errno != 0
      ensures newPeer != null && errno != 0 ==> errno == if oom then -EBADF else -EDEADLK
      ensures errno == -EDEADLK ==>
        LinksNow() == old(LinksNow()) && Restored(LinksNow(), old(TalliesNow()), TalliesNow())
      ensures errno == -EBADF ==> LinksNow() == Cut(old(LinksNow()), jack)
      ensures oops <==> errno == -EDEADLK && old(jack.peer) == null
      ensures mismatched == old(mismatched)
    {
      hide SoundFor, CanRejoin, Separate, Known, PromiscConserved, GenerationsOK;
      oom1, oops := false, false;
      if newPeer == null {
        return -EINVAL, oom1, false;
      }
      ghost var L, st := LinksNow(), TalliesNow();
      EnabledAreBridges(L, st);
      assert L[jack].peer == jack.peer && L[jack].owner == jack.owner && L[newPeer] == Link(null, newPeer.owner);
      if jack.peer != null { SwitchReady(L, st, jack, newPeer); }
      var oldPeer := Disconnect(jack);
      if oldPeer == null {
        FreeEndIn(L, jack);
        FreeEndIn(L, newPeer);
        errno, oom1, oops := SwitchUnplugged(jack, newPeer, connectNewToPeerOfJack);
      } else {
        errno, oom1 := Replace(jack, oldPeer, newPeer, if connectNewToPeerOfJack then oldPeer else jack, L, st);
      }
    }

    /** The rest of a switch of a jack that had no peer. */
    method SwitchUnplugged(jack: VNetJack, newPeer: VNetJack, connectNewToPeerOfJack: bool)
      returns (errno: int, ghost oom1: bool, oops: bool)
      requires Valid() && FreeEnd(jack) && FreeEnd(newPeer) && jack != newPeer
      modifies this`vnetInterfaces, this`vnetGeneration, this`oom, this`mismatched, jacks`peer, jacks`numPorts
      modifies vnetHub`myGeneration, vnetHub`totalPorts, bridges`enabledPromisc, devices`promiscuity
      ensures Valid() && mismatched == old(mismatched)
      ensures connectNewToPeerOfJack ==> errno != 0
      ensures !connectNewToPeerOfJack ==>
        && (errno == 0 <==> !oom1 && Separate(old(LinksNow()), jack, newPeer))
        && (errno == 0 ==> LinksNow() == Join(old(LinksNow()), jack, newPeer))
      ensures errno != 0 ==>
        && errno == (if oom then -EBADF else -EDEADLK)
        && LinksNow() == old(LinksNow()) && TalliesNow() == old(TalliesNow())
      ensures oops <==> errno == -EDEADLK
    {
      hide SoundFor, Separate, NothingShared, Known, PromiscConserved, GenerationsOK, TalliesNow;
      ghost var L, st := LinksNow(), TalliesNow();
      var found: bool;
      oom1 := false;
      assert L[jack] == Link(null, jack.owner);
      if connectNewToPeerOfJack {
        found := WalkAlone(newPeer, L, st);
        if !found {
          return -EDEADLK, oom1, true;
        }
      } else {
        errno := Connect(jack, newPeer);
        oom1 := oom;
        if errno == 0 {
          return errno, oom1, false;
        }
      }
      FreeEndIn(L, jack);
      found := WalkAlone(jack, L, st);
      return if found then -EBADF else -EDEADLK, oom1, !found;
    }

    /** The walks of a connect of jack to a null jack, which stop only for want of memory. */
    method WalkAlone(jack: VNetJack, ghost L: Links, ghost st: Tallies) returns (found: bool)
      requires L == LinksNow() && st == TalliesNow() && Sound(L, st) && GenerationsOK() && FreeEnd(jack)
      modifies this`vnetInterfaces, this`vnetGeneration, this`oom, vnetHub`myGeneration
      ensures GenerationsOK() && L == LinksNow() && st == TalliesNow() && (found <==> oom)
    {
      hide SoundFor, TalliesNow, Extends, Unseen;
      ghost var t, _ := WalkReady(L, st, jack, jack);
      NextGeneration();
      found := CycleDetect(jack, vnetGeneration, L, Sub(t));
      FreeInterfaceList();
    }

    lemma SwitchReady(L: Links, st: Tallies, a: VNetJack, n: VNetJack)
      requires L == LinksNow() && st == TalliesNow() && Sound(L, st) && a in L && L[a].peer != null && FreeEnd(n)
      ensures L[a].peer in L && CanRejoin(L, st, a, L[a].peer) && OtherEnd(L, a, n)
    {
      CutCanRejoin(L, st, a);
    }

    /** n is free, and neither a nor its peer. */
    static ghost predicate OtherEnd(L: Links, a: VNetJack, n: VNetJack) {
      var whole := a in L && n in L && L[n].owner != Free && L[n].peer == null && n != a && n != L[a].peer;
      whole
    }

    /** After the cut, a, its old peer b and n can all be plugged in. */
    lemma EndsFree(L: Links, st: Tallies, a: VNetJack, b: VNetJack, n: VNetJack)
      requires CanRejoin(L, st, a, b) && OtherEnd(L, a, n) && LinksNow() == Cut(L, a)
      ensures FreeEnd(a) && FreeEnd(b) && FreeEnd(n) && a != b && n != a && n != b
    {
      FreeEndIn(Cut(L, a), a);
      FreeEndIn(Cut(L, a), b);
      FreeEndIn(Cut(L, a), n);
    }

    /** What remains of a switch once jack and oldPeer are disconnected. */
    method Replace(jack: VNetJack, oldPeer: VNetJack, newPeer: VNetJack, end: VNetJack, ghost L: Links,
                   ghost st: Tallies)
      returns (errno: int, ghost oom1: bool)
      requires Valid() && CanRejoin(L, st, jack, oldPeer)
      requires OtherEnd(L, jack, newPeer) && (end == jack || end == oldPeer)
      requires jack in L && LinksNow() == Cut(L, jack) && st.wants == WantsOf(jacks)
      modifies this`vnetInterfaces, this`vnetGeneration, this`oom, this`mismatched, jacks`peer, jacks`numPorts
      modifies vnetHub`myGeneration, vnetHub`totalPorts, bridges`enabledPromisc, devices`promiscuity
      ensures Valid()
      ensures errno == 0 <==> !oom1 && Separate(Cut(L, jack), end, newPeer)
      ensures errno == 0 ==> LinksNow() == Join(Cut(L, jack), end, newPeer)
      ensures errno != 0 ==> errno == if oom then -EBADF else -EDEADLK
      ensures errno == -EDEADLK ==> LinksNow() == L && Restored(L, st, TalliesNow())
      ensures errno == -EBADF ==> LinksNow() == Cut(L, jack)
      ensures mismatched == old(mismatched)
    {
      hide SoundFor, CanRejoin, Separate, Known, PromiscConserved, GenerationsOK, TalliesNow;
      EndsFree(L, st, jack, oldPeer, newPeer);
      errno := Connect(end, newPeer);
      oom1 := oom;
      if errno != 0 {
        EndsFree(L, st, jack, oldPeer, newPeer);
        errno := Reconnect(jack, oldPeer, L, st);
      }
    }

    lemma FreeEndIn(K: Links, j: VNetJack)
      requires K == LinksNow() && j in K && K[j].owner != Free && K[j].peer == null
      ensures FreeEnd(j)
    {}

    /** Going back to the old peer after a refusal. */
    method Reconnect(jack: VNetJack, oldPeer: VNetJack, ghost L: Links, ghost st: Tallies) returns (errno: int)
      requires Valid() && FreeEnd(jack) && FreeEnd(oldPeer) && jack != oldPeer
      requires jack in L && LinksNow() == Cut(L, jack) && CanRejoin(L, st, jack, oldPeer) && st.wants == WantsOf(jacks)
      modifies this`vnetInterfaces, this`vnetGeneration, this`oom, this`mismatched, jacks`peer, jacks`numPorts
      modifies vnetHub`myGeneration, vnetHub`totalPorts, bridges`enabledPromisc, devices`promiscuity
      ensures Valid()
      ensures errno == if oom then -EBADF else -EDEADLK
      ensures !oom ==> LinksNow() == L && Restored(L, st, TalliesNow())
      ensures oom ==> LinksNow() == Cut(L, jack)
      ensures mismatched == old(mismatched)
    {
      hide SoundFor, Separate, Known, PromiscConserved, GenerationsOK, Restored, TalliesNow;
      var retval2 := Connect(jack, oldPeer);
      if retval2 != 0 {
        return -EBADF;
      }
      BackAgain(L, st, jack, oldPeer);
      return -EDEADLK;
    }

    lemma BackAgain(L: Links, st: Tallies, a: VNetJack, b: VNetJack)
      requires LinksNow() == L && Sound(L, TalliesNow()) && CanRejoin(L, st, a, b) && st.wants == WantsOf(jacks)
      ensures Restored(L, st, TalliesNow())
    {
      EnabledAreBridges(L, TalliesNow());
      TalliesRestored(L, st, TalliesNow());
    }

    // ----- Ports, jacks and hubs come and go -----

    /** A new port of any kind; a bridge starts without a device. */
    method CreatePort(o: Owner) returns (port: VNetJack)
      requires Valid() && IsPort(o)
      requires o.OfBridge? ==> o.bridge !in bridges && o.bridge.dev == null && !o.bridge.enabledPromisc
      modifies this`jacks, this`bridges
      ensures Valid() && fresh(port) && FreeEnd(port)
      ensures LinksNow() == old(LinksNow())[port := Link(null, o)]
      ensures bridges == old(bridges) + if o.OfBridge? then {o.bridge} else {}
    {
      ghost var L, st := LinksNow(), TalliesNow();
      port := new VNetJack.OfPort(o);
      Enroll(port, o, L, st);
    }

    /** Makes a new port known, and its bridge if it is a bridge's. */
    ghost method Enroll(port: VNetJack, o: Owner, L: Links, st: Tallies)
      requires L == LinksNow() && st == TalliesNow() && Known() && PromiscConserved() && Sound(L, st)
      requires port !in jacks && port.peer == null && port.owner == o && port.numPorts == 1 && IsPort(o)
      requires o.OfBridge? ==> o.bridge !in bridges && o.bridge.dev == null && !o.bridge.enabledPromisc
      modifies this`jacks, this`bridges
      ensures Known() && PromiscConserved() && Sound(LinksNow(), TalliesNow())
      ensures jacks == old(jacks) + {port} && LinksNow() == L[port := Link(null, o)]
      ensures bridges == old(bridges) + if o.OfBridge? then {o.bridge} else {}
    {
      hide SoundFor, Known, PromiscConserved, TalliesNow;
      if o.OfBridge? { EnrollBridge(o.bridge, L, st); }
      EnrollPort(port, o, L, st);
    }

    ghost method EnrollPort(port: VNetJack, o: Owner, L: Links, st: Tallies)
      requires L == LinksNow() && st == TalliesNow() && Known() && PromiscConserved() && Sound(L, st)
      requires port !in jacks && port.peer == null && port.owner == o && port.numPorts == 1 && IsPort(o)
      requires o.OfBridge? ==> OneBridgeJack({port}, o.bridge)
      modifies this`jacks
      ensures Known() && PromiscConserved() && Sound(LinksNow(), TalliesNow())
      ensures jacks == old(jacks) + {port} && LinksNow() == L[port := Link(null, o)]
    {
      hide SoundFor, Known, PromiscConserved, OneBridgeJack;
      ghost var su := EnrollJacks({port}, o, 1, L, st);
      assert L + LinksFor({port}, o) == L[port := Link(null, o)];
      PortSound(vnetHub, L, st, L[port := Link(null, o)], su, port, o);
    }

    ghost method EnrollBridge(b: VNetBridge, L: Links, st: Tallies)
      requires L == LinksNow() && st == TalliesNow() && Known() && PromiscConserved()
      requires b !in bridges && b.dev == null && !b.enabledPromisc
      modifies this`bridges
      ensures Known() && PromiscConserved() && L == LinksNow() && st == TalliesNow()
      ensures bridges == old(bridges) + {b}
      ensures forall k :: k in jacks ==> k.owner != OfBridge(b)
    {
      bridges := bridges + {b};
      forall d | d in devices ensures Holders(d) == old(Holders(d)) {}
      assert EnabledOf(jacks) == st.e && WantsOf(jacks) == st.wants;
    }

    /** Makes jacks known that nothing is plugged into. */
    ghost method EnrollJacks(added: set<VNetJack>, o: Owner, n: int, L: Links, st: Tallies) returns (su: Tallies)
      requires L == LinksNow() && st == TalliesNow() && Known() && PromiscConserved()
      requires forall k :: k in added ==> k !in jacks && k.peer == null && k.owner == o && k.numPorts == n
      requires !o.OfHub? && (o.OfBridge? ==> OneBridgeJack(added, o.bridge))
      modifies this`jacks
      ensures Known() && PromiscConserved() && jacks == old(jacks) + added
      ensures LinksNow() == L + LinksFor(added, o)
      ensures su == TalliesNow() && su == st.(c := st.c + CountsFor(added, n))
    {
      hide PromiscConserved;
      ghost var before := jacks;
      assert BridgesOf(before) && st.e == EnabledOf(before) && st.wants == WantsOf(before);
      jacks := jacks + added;
      su := TalliesNow();
      MoreLinks(before, added, o, n, L, st);
      MoreBridges(before, added, o);
    }

    lemma MoreLinks(before: set<VNetJack>, added: set<VNetJack>, o: Owner, n: int, L: Links, st: Tallies)
      requires jacks == before + added && L.Keys == before && st.c.Keys == before
      requires forall k :: k in before ==> L[k] == Link(k.peer, k.owner) && st.c[k] == k.numPorts
      requires forall k :: k in added ==> k.peer == null && k.owner == o && k.numPorts == n
      ensures LinksNow() == L + LinksFor(added, o)
      ensures CountsNow() == st.c + CountsFor(added, n)
    {}

    /** added is the one jack of the bridge b, which has no device. */
    ghost predicate OneBridgeJack(added: set<VNetJack>, b: VNetBridge)
      reads `jacks, `bridges, jacks`owner, b
    {
      && b in bridges && b.dev == null && !b.enabledPromisc
      && (forall k, l :: k in added && l in added ==> k == l)
      && (forall k :: k in jacks ==> k.owner != OfBridge(b))
    }

    lemma MoreBridges(before: set<VNetJack>, added: set<VNetJack>, o: Owner)
      requires jacks == before + added && BridgesOf(before)
      requires forall k :: k in added ==> k.owner == o
      requires o.OfBridge? ==>
        && o.bridge in bridges && (forall k, l :: k in added && l in added ==> k == l)
        && (forall k :: k in before ==> k.owner != o)
      requires o.OfBridge? ==> o.bridge.dev == null && !o.bridge.enabledPromisc
      ensures BridgesOf(jacks) && EnabledOf(jacks) == EnabledOf(before) && WantsOf(jacks) == WantsOf(before)
    {}

    method FindHub(id: HubId) returns (hub: VNetHub?)
      ensures hub == null ==> forall h :: h in vnetHub ==> h.id != id
      ensures hub != null ==> hub in vnetHub && hub.id == id
    {
      var curr := 0;
      while curr < |vnetHub|
        invariant curr <= |vnetHub|
        invariant forall k :: 0 <= k < curr ==> vnetHub[k].id != id
      {
        if vnetHub[curr].id == id {
          return vnetHub[curr];
        }
        curr := curr + 1;
      }
      return null;
    }

    /** A new hub at the head of the hub list. */
    method AddHub(id: HubId) returns (hub: VNetHub)
      requires Valid() && forall h :: h in vnetHub ==> h.id != id
      modifies this`jacks, this`vnetHub
      ensures Valid() && fresh(hub) && vnetHub == [hub] + old(vnetHub) && hub.id == id
      ensures |hub.jack| == NUM_JACKS_PER_HUB && hub.jack[0].owner == Free
      ensures Extended(old(LinksNow()), LinksNow())
      ensures forall k :: k in jacks ==> k in old(jacks) || fresh(k)
    {
      hide SoundFor, PromiscConserved;
      ghost var L, st := LinksNow(), TalliesNow();
      hub := new VNetHub(id);
      EnrollHub(hub, L, st);
    }

    /** Makes a fresh hub known. */
    method EnrollHub(hub: VNetHub, ghost L: Links, ghost st: Tallies)
      requires L == LinksNow() && st == TalliesNow() && Known() && PromiscConserved() && Sound(L, st)
      requires hub !in vnetHub && hub.totalPorts == 0 && forall h :: h in vnetHub ==> h.id != hub.id
      requires |hub.jack| == NUM_JACKS_PER_HUB && forall i :: 0 <= i < |hub.jack| ==> hub.jack[i].index == i
      requires forall k :: k in hub.jack ==> k !in jacks && k.peer == null && k.owner == Free && k.numPorts == 0
      modifies this`jacks, this`vnetHub
      ensures Known() && PromiscConserved() && Sound(LinksNow(), TalliesNow())
      ensures vnetHub == [hub] + old(vnetHub) && Extended(L, LinksNow())
      ensures jacks == old(jacks) + set k | k in hub.jack
    {
      hide SoundFor, Known, PromiscConserved;
      ghost var added := set k | k in hub.jack;
      ghost var su := EnrollJacks(added, Free, 0, L, st);
      su := ListHub(hub, LinksNow(), su);
      HubJacksAdded(hub, L, st, LinksNow(), su);
      HubSound(hub, old(vnetHub), L, st, LinksNow(), su);
    }

    method ListHub(hub: VNetHub, ghost L: Links, ghost st: Tallies) returns (ghost su: Tallies)
      requires L == LinksNow() && st == TalliesNow() && Known() && hub !in vnetHub && hub.totalPorts == 0
      modifies this`vnetHub
      ensures Known() && L == LinksNow() && vnetHub == [hub] + old(vnetHub)
      ensures su == TalliesNow() && su == st.(tt := st.tt[hub := 0])
    {
      vnetHub := [hub] + vnetHub;
      su := TalliesNow();
      assert su.tt == st.tt[hub := 0];
    }

    /** The hub known by id exists, and all its jacks are allocated. */
    ghost predicate HubFull(id: HubId)
      reads `vnetHub, set h, k | h in vnetHub && k in h.jack :: k
    {
      exists h :: h in vnetHub && h.id == id && forall k :: k in h.jack ==> k.owner != Free
    }

    /** Allocates a jack on the hub known by id, which is created if need be. Memory, and the
        jack's proc entry, may be refused. */
    method AllocJack(id: HubId, granted: bool, procOk: bool) returns (jack: VNetJack?)
      requires Valid()
      modifies this`jacks, this`vnetHub, jacks`owner, jacks`peer, jacks`numPorts
      ensures Valid()
      ensures jack == null <==>
        !procOk || old(HubFull(id)) || (!granted && forall h :: h in old(vnetHub) ==> h.id != id)
      ensures jack == null ==> Extended(old(LinksNow()), LinksNow())
      ensures jack != null ==>
        && FreeEnd(jack) && jack.owner.OfHub? && jack.owner.hub in vnetHub && jack.owner.hub.id == id
        && (jack in old(jacks) ==> old(jack.owner) == Free)
        && exists K :: Extended(old(LinksNow()), K) && LinksNow() == K[jack := Link(null, jack.owner)]
    {
      hide SoundFor, PromiscConserved, GenerationsOK, TalliesNow;
      ghost var L0 := LinksNow();
      DistinctIds(L0, TalliesNow());
      var hub := FindHub(id);
      if hub == null {
        if !granted {
          return null;
        }
        hub := AddHub(id);
      }
      ghost var K := LinksNow();
      ListedWhole(K, TalliesNow(), hub);
      var i := 0;
      while i < NUM_JACKS_PER_HUB && hub.jack[i].owner != Free
        invariant i <= NUM_JACKS_PER_HUB && forall e :: 0 <= e < i ==> hub.jack[e].owner != Free
      {
        i := i + 1;
      }
      if i == NUM_JACKS_PER_HUB || !procOk {
        return null;
      }
      jack := hub.jack[i];
      assert jack in K;
      AllocAt(hub, jack, i, K, TalliesNow());
      assert Extended(L0, K) && LinksNow() == K[jack := Link(null, jack.owner)];
    }

    lemma ListedWhole(L: Links, st: Tallies, hub: VNetHub)
      requires Sound(L, st) && hub in vnetHub
      ensures HubWhole(L, hub)
    {}

    /** Hands out the free jack i of a listed hub. */
    method AllocAt(hub: VNetHub, jack: VNetJack, i: nat, ghost L: Links, ghost st: Tallies)
      requires L == LinksNow() && st == TalliesNow() && Valid()
      requires hub in vnetHub && i < |hub.jack| && hub.jack[i] == jack && jack in jacks && jack.owner == Free
      modifies jack`owner, jack`peer, jack`numPorts
      ensures Valid() && jack.owner == OfHub(hub) && jack.peer == null
      ensures LinksNow() == L[jack := Link(null, OfHub(hub))]
    {
      hide SoundFor, PromiscConserved, GenerationsOK;
      FreeUnplugged(L, st, jack);
      ghost var su := GiveOut(hub, jack, L, st);
      AllocSound(vnetHub, L, st, LinksNow(), su, hub, i);
    }

    lemma FreeUnplugged(L: Links, st: Tallies, k: VNetJack)
      requires Sound(L, st) && k in L && L[k].owner == Free
      ensures L[k] == Link(null, Free)
    {}

    method GiveOut(hub: VNetHub, jack: VNetJack, ghost L: Links, ghost st: Tallies) returns (ghost su: Tallies)
      requires L == LinksNow() && st == TalliesNow() && Known()
      requires hub in vnetHub && jack in jacks && L[jack] == Link(null, Free)
      modifies jack`owner, jack`peer, jack`numPorts
      ensures Known() && jack.owner == OfHub(hub) && jack.peer == null
      ensures LinksNow() == L[jack := Link(null, OfHub(hub))]
      ensures hub in st.tt && su == TalliesNow() && su == st.(c := st.c[jack := st.tt[hub]])
    {
      hide Known;
      su := SetNumPorts(jack, hub.totalPorts, st);
      jack.peer := null;
      assert LinksNow() == L;
      SetOwner(jack, OfHub(hub), L, su);
    }

    /** Makes an unplugged jack of a hub free, or no longer free. */
    method SetOwner(jack: VNetJack, o: Owner, ghost L: Links, ghost st: Tallies)
      requires L == LinksNow() && st == TalliesNow() && Known()
      requires jack in jacks && (jack.owner == Free || jack.owner.OfHub?)
      requires o == Free || (o.OfHub? && o.hub in vnetHub)
      modifies jack`owner
      ensures Known() && jack.owner == o
      ensures LinksNow() == L[jack := Link(L[jack].peer, o)]
      ensures TalliesNow() == st
    {
      jack.owner := o;
      assert EnabledOf(jacks) == st.e && WantsOf(jacks) == st.wants && CountsNow() == st.c;
      assert LinksNow() == L[jack := Link(L[jack].peer, o)];
    }

    /** Frees an unplugged hub jack; with the last allocated jack of a hub the hub itself goes. */
    method FreeHubJack(jack: VNetJack) returns (hubGone: bool)
      requires Valid() && jack in jacks && jack.owner.OfHub? && jack.peer == null
      modifies this`jacks, this`vnetHub, jack`owner
      ensures Valid()
      ensures hubGone <==> Idle(old(LinksNow())[jack := Link(null, Free)], old(jack.owner.hub))
      ensures !hubGone ==> vnetHub == old(vnetHub) && LinksNow() == old(LinksNow())[jack := Link(null, Free)]
      ensures hubGone ==>
        && LinksNow() == old(LinksNow()) - set k | k in old(jack.owner.hub).jack
        && forall h :: h in vnetHub <==> h in old(vnetHub) && h != old(jack.owner.hub)
    {
      hide SoundFor, PromiscConserved, TalliesNow, Idle, Known, GenerationsOK;
      ghost var L, st, hubs := LinksNow(), TalliesNow(), vnetHub;
      GenerationsAll(hubs);
      var hub := jack.owner.hub;
      SetOwner(jack, Free, L, st);
      ghost var K := L[jack := Link(null, Free)];
      var used := HubInUse(hub, jack, L, st, K);
      if !used {
        DropHub(hub, jack, L, st, K);
      }
      hubGone := !used;
      GenerationsAll(hubs);
    }

    /** Generations are in order if they were with all of hubs listed. */
    lemma GenerationsAll(hubs: seq<VNetHub>)
      requires forall h :: h in vnetHub ==> h in hubs
      ensures GenerationsOK() && vnetHub == hubs ==> vnetInterfaces == [] && forall h :: h in hubs ==>
        h.myGeneration <= vnetGeneration
      ensures vnetInterfaces == [] && (forall h :: h in hubs ==> h.myGeneration <= vnetGeneration) ==> GenerationsOK()
    {}

    /** Scans the hub of the jack just freed. */
    method HubInUse(hub: VNetHub, ghost jack: VNetJack, ghost L: Links, ghost st: Tallies, ghost K: Links)
      returns (used: bool)
      requires Sound(L, st) && K == LinksNow() && st == TalliesNow()
      requires jack in L && L[jack] == Link(null, OfHub(hub)) && K == L[jack := Link(null, Free)]
      ensures used <==> !Idle(K, hub)
      ensures used ==> Sound(K, st)
    {
      FreeSound(vnetHub, L, st, K, st, jack);
      assert HubWhole(K, hub);
      used := false;
      var i := 0;
      while i < NUM_JACKS_PER_HUB
        invariant i <= NUM_JACKS_PER_HUB
        invariant forall e :: 0 <= e < i ==> K[hub.jack[e]].owner == Free
      {
        if hub.jack[i].owner != Free {
          assert K[hub.jack[i]].owner == OfHub(hub);
          return true;
        }
        i := i + 1;
      }
    }

    /** The hub of the jack just freed has no allocated jack left. */
    method DropHub(hub: VNetHub, ghost jack: VNetJack, ghost L: Links, ghost st: Tallies, ghost K: Links)
      requires Known() && PromiscConserved() && Sound(L, st) && K == LinksNow() && st == TalliesNow()
      requires jack in L && L[jack] == Link(null, OfHub(hub)) && K == L[jack := Link(null, Free)] && Idle(K, hub)
      modifies this`jacks, this`vnetHub
      ensures Known() && PromiscConserved() && Sound(LinksNow(), TalliesNow())
      ensures LinksNow() == L - set k | k in hub.jack
      ensures forall h :: h in vnetHub <==> h in old(vnetHub) && h != hub
    {
      hide SoundFor, PromiscConserved;
      DistinctIds(L, st);
      LastFreed(vnetHub, L, st, jack, hub, K);
      ghost var hubs := vnetHub;
      RemoveHubFromList(hub);
      ghost var su := ForgetHub(hub, K, st);
      LastFreedSound(hubs, vnetHub, L, st, jack, hub, K, LinksNow(), su);
    }

    lemma DistinctIds(L: Links, st: Tallies)
      requires Sound(L, st)
      ensures forall a, b :: 0 <= a < b < |vnetHub| ==> vnetHub[a].id != vnetHub[b].id
    {}

    method RemoveHubFromList(hub: VNetHub)
      requires forall a, b :: 0 <= a < b < |vnetHub| ==> vnetHub[a].id != vnetHub[b].id
      modifies this`vnetHub
      ensures forall h :: h in vnetHub <==> h in old(vnetHub) && h != hub
      ensures forall a, b :: 0 <= a < b < |vnetHub| ==> vnetHub[a].id != vnetHub[b].id
    {
      var h := 0;
      while h < |vnetHub|
        invariant h <= |vnetHub| && vnetHub == old(vnetHub)
        invariant forall e :: 0 <= e < h ==> vnetHub[e] != hub
      {
        if vnetHub[h] == hub {
          vnetHub := vnetHub[..h] + vnetHub[h + 1..];
          return;
        }
        h := h + 1;
      }
    }

    /** The jacks of a hub without allocated jacks go with it. */
    ghost method ForgetHub(hub: VNetHub, L: Links, st: Tallies) returns (su: Tallies)
      requires L == LinksNow() && st.c == CountsNow() && st.e == EnabledOf(jacks) && st.wants == WantsOf(jacks)
      requires PromiscConserved() && BridgesOf(jacks)
      requires forall k :: k in hub.jack ==> k in jacks && k.owner == Free
      requires forall k :: k in L && L[k].owner.OfHub? ==> L[k].owner.hub in vnetHub
      requires forall b :: b in bridges && b.dev != null ==> b.dev in devices
      modifies this`jacks
      ensures su == TalliesNow() && PromiscConserved() && Known()
      ensures LinksNow() == L - set k | k in hub.jack
      ensures su.c.Keys == LinksNow().Keys && su.c == st.c - set k | k in hub.jack
      ensures su.e == st.e && su.wants == st.wants
    {
      hide PromiscConserved;
      assert forall k :: k in jacks ==> L[k].owner == k.owner;
      jacks := jacks - set k | k in hub.jack;
      su := TalliesNow();
      assert LinksNow() == L - set k | k in hub.jack;
    }

    // ----- Bridges come up and go down -----

    /** A network device appears; all of its promiscuity so far is due to others. */
    ghost method NoticeDevice(dev: NetDevice)
      requires Valid() && dev !in devices
      modifies this`devices, this`others
      ensures Valid() && devices == old(devices) + {dev} && others == old(others)[dev := dev.promiscuity]
      ensures LinksNow() == old(LinksNow())
    {
      hide SoundFor;
      assert Holders(dev) == {};
      devices := devices + {dev};
      others := others[dev := dev.promiscuity];
    }

    /** jack is the jack of the bridge's port. */
    ghost predicate PortOf(bridge: VNetBridge, jack: VNetJack)
      reads `jacks, jack`owner
    {
      jack in jacks && jack.owner == OfBridge(bridge)
    }

    /** su differs from st at most in what the bridge behind jack holds and wants. */
    ghost predicate Rebound(st: Tallies, su: Tallies, jack: VNetJack)
      reads `jacks
    {
      && su == st.(e := su.e, wants := su.wants)
      && forall k :: k in jacks && k != jack ==> (k in su.e <==> k in st.e) && (k in su.wants <==> k in st.wants)
    }

    /** The last steps of bringing a bridge up, once its device has been accepted. */
    method BringUp(bridge: VNetBridge, jack: VNetJack, dev: NetDevice)
      requires Valid() && PortOf(bridge, jack) && bridge.dev == null && dev in devices
      modifies bridge`dev, bridge`enabledPromisc, bridge`wirelessAdapter, devices`promiscuity
      ensures Valid() && bridge.dev == dev && bridge.wirelessAdapter == (old(bridge.wirelessAdapter) || dev.wireless)
      ensures bridge.enabledPromisc <==> !bridge.wirelessAdapter && AttachedPorts(jack) != 0
      ensures LinksNow() == old(LinksNow())
    {
      hide SoundFor, Known, PromiscConserved, TalliesNow;
      ghost var L, st := LinksNow(), TalliesNow();
      if jack.peer != null { FarEnd(L, st, jack); }
      ghost var su := Bind(bridge, jack, dev, L, st);
      su := StartIfAttached(bridge, jack, L, st, su);
      RebindSound(vnetHub, L, st, su, jack);
    }

    method Bind(bridge: VNetBridge, ghost jack: VNetJack, dev: NetDevice, ghost L: Links, ghost st: Tallies)
      returns (ghost su: Tallies)
      requires L == LinksNow() && st == TalliesNow() && Known() && PromiscConserved()
      requires PortOf(bridge, jack) && bridge.dev == null && dev in devices
      modifies bridge`dev, bridge`enabledPromisc, bridge`wirelessAdapter
      ensures Known() && PromiscConserved() && L == LinksNow()
      ensures bridge.dev == dev && bridge.wirelessAdapter == (old(bridge.wirelessAdapter) || dev.wireless)
      ensures !bridge.enabledPromisc
      ensures su == TalliesNow() && Rebound(st, su, jack)
    {
      hide Known, PromiscConserved;
      OnlyPort(bridge, jack);
      SetDevice(bridge, dev);
      if dev.wireless {
        UseSmac(bridge);
      }
      su := TalliesNow();
    }

    /** A bridge that does not hold its device gets another, or none. */
    method SetDevice(bridge: VNetBridge, dev: NetDevice?)
      requires Known() && PromiscConserved() && bridge in bridges
      requires !bridge.enabledPromisc && (dev != null ==> dev in devices)
      modifies bridge`dev
      ensures Known() && PromiscConserved() && bridge.dev == dev
    {
      bridge.dev := dev;
      forall d | d in devices ensures Holders(d) == old(Holders(d)) {}
    }

    method UseSmac(bridge: VNetBridge)
      requires PromiscConserved() && !bridge.enabledPromisc
      modifies bridge`wirelessAdapter
      ensures PromiscConserved() && bridge.wirelessAdapter
    {
      bridge.wirelessAdapter := true;
      forall d | d in devices ensures Holders(d) == old(Holders(d)) {}
    }

    lemma OnlyPort(bridge: VNetBridge, jack: VNetJack)
      requires Known() && PromiscConserved() && PortOf(bridge, jack)
      ensures bridge in bridges && (bridge.dev != null ==> bridge.dev in devices)
      ensures (bridge.dev == null ==> !bridge.enabledPromisc)
      ensures forall k :: k in jacks && k != jack && k.owner.OfBridge? ==> k.owner.bridge != bridge
    {}

    method StartIfAttached(bridge: VNetBridge, jack: VNetJack, ghost L: Links, ghost st0: Tallies, ghost st: Tallies)
      returns (ghost su: Tallies)
      requires L == LinksNow() && st == TalliesNow() && Known() && PromiscConserved() && Rebound(st0, st, jack)
      requires PortOf(bridge, jack) && bridge.dev != null
      requires !bridge.enabledPromisc && (jack.peer != null ==> jack.peer in jacks)
      modifies bridge`enabledPromisc, devices`promiscuity
      ensures Known() && PromiscConserved() && L == LinksNow()
      ensures su == TalliesNow() && Rebound(st0, su, jack)
      ensures bridge.enabledPromisc <==> !bridge.wirelessAdapter && AttachedPorts(jack) != 0
      ensures jack in su.e <==> jack in su.wants && Beyond(L, su, jack) != 0
    {
      hide Known, PromiscConserved;
      OnlyPort(bridge, jack);
      if AttachedPorts(jack) != 0 {
        StartPromisc(bridge);
      }
      su := TalliesNow();
    }

    /** Brings a bridge up on the device its name stands for, if there is one and it is up. The
        socket and the link-state event may fail. */
    method BridgeUp(bridge: VNetBridge, jack: VNetJack, dev: NetDevice?, ifUp: bool, granted: bool, sendErr: int)
      returns (retval: int)
      requires Valid() && PortOf(bridge, jack) && (dev != null ==> dev in devices)
      modifies bridge`dev, bridge`enabledPromisc, bridge`wirelessAdapter, devices`promiscuity
      ensures old(bridge.dev) != null ==> retval == 0 && bridge.dev == old(bridge.dev)
      ensures old(bridge.dev) == null ==>
        retval == if dev == null || !ifUp then -ENODEV else if dev.hardHeaderLen != ETH_HLEN then -EINVAL
                  else if !granted then -ENOMEM else sendErr
      ensures old(bridge.dev) == null ==> bridge.dev == if retval == 0 then dev else null
      ensures LinksNow() == old(LinksNow())
      ensures Valid() <==>
        !Leaks(old(bridge.dev), dev, ifUp, granted, sendErr, old(bridge.wirelessAdapter), AttachedPorts(jack))
      ensures !Valid() ==>
        dev != null && dev in devices && dev in others && dev.promiscuity == others[dev] + |Holders(dev)| + 1
    {
      retval := 0;
      if bridge.dev != null {
        return;
      }
      if dev == null || !ifUp {
        return -ENODEV;
      }
      if dev.hardHeaderLen != ETH_HLEN {
        return -EINVAL;
      }
      if !granted {
        return -ENOMEM;
      }
      BringUp(bridge, jack, dev);
      retval := sendErr;
      if retval != 0 {
        GiveUp(bridge, jack);
      }
    }

    /** Creates a bridge for the device known by name, and brings it up if it can. Nothing is plugged
        in yet, so that a bring-up that fails leaks nothing. Memory, the proc entry and the event
        sender may be refused; a proc file system that is missing does not matter. */
    method VNetBridge_Create(name: string, unknownFlags: bool, granted: bool, procErr: int, senderErr: int,
                             dev: NetDevice?, ifUp: bool, skGranted: bool, sendErr: int)
      returns (retval: int, bridge: VNetBridge?, port: VNetJack?)
      requires Valid() && (dev != null ==> dev in devices)
      modifies this`jacks, this`bridges, devices`promiscuity
      ensures Valid()
      ensures retval ==
        if name == "" || unknownFlags then -EINVAL else if !granted then -ENOMEM
        else if procErr != 0 && procErr != -ENXIO then procErr else senderErr
      ensures retval != 0 ==> bridge == null && port == null && LinksNow() == old(LinksNow()) && bridges == old(bridges)
      ensures retval == 0 ==>
        && bridge != null && port != null && fresh(bridge) && fresh(port) && FreeEnd(port) && PortOf(bridge, port)
        && bridge.name == name && bridges == old(bridges) + {bridge}
        && LinksNow() == old(LinksNow())[port := Link(null, OfBridge(bridge))]
        && bridge.dev == if CanBind(dev, ifUp, skGranted, sendErr) then dev else null
    {
      hide Valid, TalliesNow;
      bridge, port := null, null;
      if name == "" || unknownFlags {
        return -EINVAL, null, null;
      }
      if !granted {
        return -ENOMEM, null, null;
      }
      if procErr != 0 && procErr != -ENXIO {
        return procErr, null, null;
      }
      if senderErr != 0 {
        return senderErr, null, null;
      }
      bridge := new VNetBridge(name);
      port := CreatePort(OfBridge(bridge));
      assert LinksNow()[port] == Link(port.peer, port.owner);
      var _ := BridgeUp(bridge, port, dev, ifUp, skGranted, sendErr);
      retval := 0;
    }

    static predicate CanBind(dev: NetDevice?, ifUp: bool, granted: bool, sendErr: int) {
      dev != null && ifUp && dev.hardHeaderLen == ETH_HLEN && granted && sendErr == 0
    }

    /** When the link-state event of a bridge that just entered promiscuous mode fails, the device
        is dropped without leaving the mode. */
    static predicate Leaks(before: NetDevice?, dev: NetDevice?, ifUp: bool, granted: bool, sendErr: int, wireless: bool,
                           attached: int) {
      && before == null && dev != null && ifUp && dev.hardHeaderLen == ETH_HLEN && granted && sendErr != 0
      && !wireless && !dev.wireless && attached != 0
    }

    /** The error exit after the link-state event failed. */
    method GiveUp(bridge: VNetBridge, jack: VNetJack)
      requires Valid() && PortOf(bridge, jack) && bridge.dev != null
      modifies bridge`dev
      ensures bridge.dev == null && LinksNow() == old(LinksNow())
      ensures Valid() <==> !bridge.enabledPromisc
      ensures var d := old(bridge.dev); bridge.enabledPromisc ==>
        d in devices && d in others && d.promiscuity == others[d] + |Holders(d)| + 1
    {
      hide SoundFor, Known, PromiscConserved;
      OnlyPort(bridge, jack);
      if !bridge.enabledPromisc {
        Release(bridge, jack, LinksNow(), TalliesNow());
      } else {
        DropHeld(bridge);
      }
    }

    method DropHeld(bridge: VNetBridge)
      requires PromiscConserved() && bridge in bridges && bridge.enabledPromisc && bridge.dev in devices
      modifies bridge`dev
      ensures bridge.dev == null && !PromiscConserved()
      ensures var d := old(bridge.dev); d in others && d.promiscuity == others[d] + |Holders(d)| + 1
    {
      ghost var dev, before := bridge.dev, Holders(bridge.dev);
      bridge.dev := null;
      assert Holders(dev) == before - {bridge};
    }

    /** A bridge that is not in promiscuous mode lets its device go. */
    method Release(bridge: VNetBridge, ghost jack: VNetJack, ghost L: Links, ghost st: Tallies)
      requires Known() && PromiscConserved() && L == LinksNow() && Sound(L, st) && Rebound(st, TalliesNow(), jack)
      requires PortOf(bridge, jack) && !bridge.enabledPromisc
      modifies bridge`dev
      ensures Known() && PromiscConserved() && L == LinksNow() && Sound(L, TalliesNow())
      ensures bridge.dev == null
    {
      hide SoundFor, Known, PromiscConserved;
      OnlyPort(bridge, jack);
      SetDevice(bridge, null);
      ghost var su := TalliesNow();
      assert Rebound(st, su, jack);
      RebindSound(vnetHub, L, st, su, jack);
    }

    method StopFor(bridge: VNetBridge, ghost jack: VNetJack, ghost L: Links, ghost st: Tallies)
      requires Known() && PromiscConserved() && L == LinksNow() && st == TalliesNow()
      requires PortOf(bridge, jack) && bridge.dev != null
      modifies bridge`enabledPromisc, devices`promiscuity
      ensures Known() && PromiscConserved() && L == LinksNow() && !bridge.enabledPromisc
      ensures Rebound(st, TalliesNow(), jack)
    {
      hide Known, PromiscConserved;
      OnlyPort(bridge, jack);
      StopPromisc(bridge);
    }

    method BridgeDown(bridge: VNetBridge, jack: VNetJack)
      requires Valid() && PortOf(bridge, jack)
      modifies bridge`dev, bridge`enabledPromisc, devices`promiscuity
      ensures Valid() && bridge.dev == null && !bridge.enabledPromisc
      ensures LinksNow() == old(LinksNow())
    {
      hide SoundFor, Known, PromiscConserved, TalliesNow;
      ghost var L, st := LinksNow(), TalliesNow();
      OnlyPort(bridge, jack);
      if bridge.dev == null {
        return;
      }
      StopFor(bridge, jack, L, st);
      Release(bridge, jack, L, st);
    }

    /** Frees an unplugged port; a bridge goes down first. */
    method FreePort(jack: VNetJack)
      requires Valid() && jack in jacks && IsPort(jack.owner) && jack.peer == null
      modifies this`jacks, bridges`dev, bridges`enabledPromisc, devices`promiscuity
      ensures Valid() && LinksNow() == old(LinksNow()) - {jack}
    {
      hide SoundFor, Known, PromiscConserved, GenerationsOK, TalliesNow;
      BridgeOfPort(jack);
      if jack.owner.OfBridge? && jack.owner.bridge.dev != null {
        BridgeDown(jack.owner.bridge, jack);
      }
      ForgetPort(jack, LinksNow(), TalliesNow());
    }

    lemma BridgeOfPort(jack: VNetJack)
      requires Known() && jack in jacks
      ensures jack.owner.OfBridge? ==> jack.owner.bridge in bridges && PortOf(jack.owner.bridge, jack)
    {}

    ghost method ForgetPort(jack: VNetJack, L: Links, st: Tallies)
      requires Known() && PromiscConserved() && L == LinksNow() && st == TalliesNow() && Sound(L, st)
      requires jack in jacks && IsPort(jack.owner) && jack.peer == null
      requires jack.owner.OfBridge? ==> jack.owner.bridge.dev == null
      modifies this`jacks
      ensures Known() && PromiscConserved() && LinksNow() == L - {jack} && Sound(LinksNow(), TalliesNow())
    {
      hide SoundFor, PromiscConserved;
      jacks := jacks - {jack};
      assert Known() && LinksNow() == L - {jack};
      ghost var su := TalliesNow();
      PortGoneSound(vnetHub, L, st, LinksNow(), su, jack);
    }
  }
}
