/** What every valid state of the driver looks like, in terms of the wiring alone. */
module Network {
  import opened Jacks
  import opened SideTrees
  import opened Forest
  import opened Propagation
  import opened Growth
  import opened Soundness
  import opened Components
  import opened Driver

  /** What is attached to the first n jacks of hub h, by the counts c. */
  ghost function AttachedUpTo(L: Links, st: Tallies, h: VNetHub, n: nat): int
    requires n <= |h.jack|
  {
    if n == 0 then 0
    else
      var k := h.jack[n - 1];
      AttachedUpTo(L, st, h, n - 1) + if k in L && L[k].owner != Free then Beyond(L, st, k) else 0
  }

  /** totalPorts is the sum, over the hub's allocated jacks, of what is attached to them. */
  lemma TotalIsSum(L: Links, st: Tallies, h: VNetHub, x: VNetJack)
    requires IsForest(L, st) && x in L && L[x].owner == OfHub(h)
    ensures |h.jack| == NUM_JACKS_PER_HUB && h in st.tt && st.tt[h] == AttachedUpTo(L, st, h, NUM_JACKS_PER_HUB)
  {
    assert JackOK(L, st, x);
    SumOfKids(L, st, h, x, NUM_JACKS_PER_HUB);
  }

  lemma {:induction false} SumOfKids(L: Links, st: Tallies, h: VNetHub, x: VNetJack, n: nat)
    requires IsForest(L, st) && x in L && L[x].owner == OfHub(h) && JackOK(L, st, x)
    requires n <= NUM_JACKS_PER_HUB
    ensures var t := TreeOf(L, x);
      t.Node? && |t.kids| == |h.jack| == NUM_JACKS_PER_HUB &&
      AttachedUpTo(L, st, h, n) ==
      TallyUpTo(AllPorts, t.kids, n) + if x.index < n then SlotTally(AllPorts, UpOf(L, x)) else 0
    decreases n
  {
    if n > 0 {
      SumOfKids(L, st, h, x, n - 1);
      var t, k := TreeOf(L, x), h.jack[n - 1];
      KidShape(L, x, t, n - 1);
      if L[k].owner != Free {
        assert JackOK(L, st, k);
        BeyondIsPorts(L, st, k);
        if k != x && L[k].peer != null {
          TreeIs(L, L[k].peer, t.kids[n - 1].side);
        }
      }
    }
  }

  /** Every allocated jack's numPorts is the number of port jacks that can be reached from it
      with its own link cut, and every hub's totalPorts is the sum over its jacks. */
  lemma CountsRight(d: VNetDriver, x: VNetJack)
    requires d.Valid() && x in d.jacks && x.owner != Free
    ensures x.peer != null ==> x.peer in d.jacks
    ensures x.numPorts == |PortsReached(Cut(d.LinksNow(), x), x)|
    ensures x.owner.OfHub? ==>
      && |x.owner.hub.jack| == NUM_JACKS_PER_HUB
      && x.owner.hub.totalPorts == AttachedUpTo(d.LinksNow(), d.TalliesNow(), x.owner.hub, NUM_JACKS_PER_HUB)
  {
    NumPortsIsReachable(d.LinksNow(), d.TalliesNow(), x);
    if x.owner.OfHub? { TotalIsSum(d.LinksNow(), d.TalliesNow(), x.owner.hub, x); }
  }

  /** A bridge holds its device in promiscuous mode exactly when the device is bound, not
      wireless, and there are ports beyond the bridge's jack; and each device's promiscuity is
      what others contribute plus one for each bridge that holds it. */
  lemma PromiscuityRight(d: VNetDriver, x: VNetJack)
    requires d.Valid() && x in d.jacks && x.owner.OfBridge?
    ensures var b := x.owner.bridge;
      && (x.peer != null ==> x.peer in d.jacks)
      && (b.enabledPromisc <==>
            b.dev != null && !b.wirelessAdapter && x.peer != null && PortsReached(Cut(d.LinksNow(), x), x.peer) != {})
      && (b.dev != null ==>
            b.dev in d.devices && b.dev in d.others && b.dev.promiscuity == d.others[b.dev] + |d.Holders(b.dev)|)
      && (b.dev != null ==> (b in d.Holders(b.dev) <==> b.enabledPromisc))
  {
    var L, st := d.LinksNow(), d.TalliesNow();
    assert JackOK(L, st, x);
    BeyondIsPorts(L, st, x);
    if x.peer != null {
      assert JackOK(L, st, x.peer);
      NumPortsIsReachable(L, st, x.peer);
      assert Cut(L, x) == Cut(L, x.peer);
    }
  }

  // ----- A bridge that leaks -----

  /** Nothing but a jack of a port itself can be reached from it while it is unplugged. */
  lemma PortsApart(L: Links, a: VNetJack, b: VNetJack)
    requires a in L && b in L && L[a].peer == null && L[b] == Link(null, UserIf) && IsPort(L[a].owner)
    ensures NothingShared(L, a, b)
  {
    forall x, y | x in L && y in L && Connected(L, a, x) && Connected(L, b, y) ensures !Clash(L[x].owner, L[y].owner) {
      var n: nat :| x in Steps(L, a, n);
      var m: nat :| y in Steps(L, b, m);
      StepsClosed(L, {a}, a, n);
      StepsClosed(L, {b}, b, m);
    }
  }

  /** A port that is plugged in counts for one. */
  lemma PortCounts(d: VNetDriver, x: VNetJack)
    requires d.Valid() && x in d.jacks && IsPort(x.owner)
    ensures x.numPorts != 0
  {
    CountsRight(d, x);
    assert x in Steps(Cut(d.LinksNow(), x), x, 0);
    assert x in PortsReached(Cut(d.LinksNow(), x), x);
  }

  /** A driver with a bridge's port and another, both unplugged. */
  method TwoPorts() returns (d: VNetDriver, bridge: VNetBridge, dev: NetDevice, port: VNetJack, user: VNetJack)
    ensures fresh(d) && fresh(dev) && fresh(bridge) && fresh(port) && fresh(user)
    ensures d.Valid() && d.jacks == {port, user} && d.bridges == {bridge} && d.devices == {dev} && d.vnetHub == []
    ensures d.LinksNow() == map[port := Link(null, OfBridge(bridge)), user := Link(null, UserIf)]
    ensures port != user && d.others == map[dev := 0]
    ensures bridge.dev == null && !bridge.wirelessAdapter && !dev.wireless && dev.hardHeaderLen == ETH_HLEN
  {
    hide VNetDriver.Valid, VNetDriver.TalliesNow;
    d := new VNetDriver();
    dev := new NetDevice(false, ETH_HLEN);
    d.NoticeDevice(dev);
    bridge := new VNetBridge("eth0");
    port := d.CreatePort(OfBridge(bridge));
    user := d.CreatePort(UserIf);
    assert d.jacks == d.LinksNow().Keys;
  }

  /** Plugs them into each other; only memory can be short. */
  method PlugTwo(d: VNetDriver, port: VNetJack, user: VNetJack) returns (errno: int)
    requires d.Valid() && port != user && IsPort(port.owner)
    requires d.LinksNow() == map[port := Link(null, port.owner), user := Link(null, UserIf)]
    modifies d`vnetInterfaces, d`vnetGeneration, d`oom, d`mismatched, d.jacks`peer, d.jacks`numPorts
    modifies d.vnetHub`myGeneration, d.vnetHub`totalPorts, d.bridges`enabledPromisc, d.devices`promiscuity
    ensures d.Valid() && (errno == 0 <==> !d.oom) && (errno == 0 ==> port.peer == user)
  {
    hide VNetDriver.Valid, VNetDriver.TalliesNow, NothingShared, Separate;
    ghost var L := d.LinksNow();
    assert port in L && user in L;
    assert L[port].peer == port.peer && L[user].peer == user.peer && L[user].owner == user.owner;
    PortsApart(L, port, user);
    errno := d.Connect(port, user);
    assert errno == 0 ==> d.LinksNow()[port].peer == user;
  }

  /** A bridge whose link-state event fails, with a port attached: its device is left in promiscuous
      mode with nobody holding it. Only memory may keep it from being connected. */
  method LeakingBridge(sendErr: int) returns (d: VNetDriver, bridge: VNetBridge, dev: NetDevice, connected: bool)
    requires sendErr != 0
    ensures connected <==> !d.oom
    ensures connected ==> !d.Valid() && bridge.dev == null && d.Holders(dev) == {}
    ensures connected ==> dev in d.others && d.others[dev] == 0 && dev.promiscuity == 1
  {
    hide VNetDriver.Valid, VNetDriver.TalliesNow;
    var port, user;
    d, bridge, dev, port, user := TwoPorts();
    assert d.LinksNow()[port].owner == port.owner && d.LinksNow()[user].owner == user.owner;
    var errno := PlugTwo(d, port, user);
    connected := errno == 0;
    if connected { FailToBringUp(d, bridge, dev, port, user, sendErr); }
  }

  method FailToBringUp(d: VNetDriver, bridge: VNetBridge, dev: NetDevice, port: VNetJack, user: VNetJack, sendErr: int)
    requires d.Valid() && d.PortOf(bridge, port) && port.peer == user && user in d.jacks && IsPort(user.owner)
    requires d.bridges == {bridge} && bridge.dev == null && !bridge.wirelessAdapter
    requires dev in d.devices && dev in d.others && !dev.wireless && dev.hardHeaderLen == ETH_HLEN && sendErr != 0
    modifies bridge`dev, bridge`enabledPromisc, bridge`wirelessAdapter, d.devices`promiscuity
    ensures !d.Valid() && bridge.dev == null && d.Holders(dev) == {} && dev.promiscuity == d.others[dev] + 1
  {
    hide VNetDriver.Valid, VNetDriver.TalliesNow;
    PortCounts(d, user);
    var _ := d.BridgeUp(bridge, port, dev, true, true, sendErr);
  }

  /** A port without a peer, for which another is to take the place of the missing peer: unless memory
      runs out twice, the source writes through a null jack. */
  method UnpluggedSwitch() returns (d: VNetDriver, port: VNetJack, oops: bool)
    ensures d.Valid() && port.peer == null && (oops <==> !d.oom)
  {
    hide VNetDriver.Valid, VNetDriver.TalliesNow, Restored, Separate;
    var bridge, dev, user;
    d, bridge, dev, port, user := TwoPorts();
    ghost var L := d.LinksNow();
    assert L[port] == Link(port.peer, port.owner) && L[user] == Link(user.peer, user.owner);
    var errno;
    ghost var oom1;
    errno, oom1, oops := d.SwitchToDifferentPeer(port, user, true);
    assert d.LinksNow()[port].peer == port.peer;
  }
}
