/** The objects that a virtual network is wired from: jacks, the hubs that hold them, and
    the bridges and network devices behind some ports. */
module Jacks {

  const NUM_JACKS_PER_HUB: nat := 68

  /** What a jack's private field designates. A hub jack that is not allocated is Free; the
      owner also decides which callbacks the jack dispatches to. */
  datatype Owner =
    | Free
    | OfHub(hub: VNetHub)
    | UserIf
    | NetIf(devName: string)
    | OfBridge(bridge: VNetBridge)

  predicate IsPort(o: Owner) {
    o.UserIf? || o.NetIf? || o.OfBridge?
  }

  class VNetJack {
    var peer: VNetJack?
    var numPorts: int
    var owner: Owner
    const index: nat

    /** A jack inside a freshly allocated hub. */
    constructor InHub(i: nat)
      ensures peer == null && numPorts == 0 && owner == Free && index == i
    {
      peer, numPorts, owner, index := null, 0, Free, i;
    }

    /** The jack of a port; every kind of port counts for one. */
    constructor OfPort(o: Owner)
      requires IsPort(o)
      ensures peer == null && numPorts == 1 && owner == o && index == 0
    {
      peer, numPorts, owner, index := null, 1, o, 0;
    }
  }

  /** Hubs are known by their vnet number or by their PVN id. */
  datatype HubId = Vnet(vnetNum: int) | Pvn(pvnID: seq<bv8>)

  class VNetHub {
    const id: HubId
    const jack: seq<VNetJack>
    var totalPorts: int
    var myGeneration: nat

    constructor (id: HubId)
      ensures this.id == id
      ensures |jack| == NUM_JACKS_PER_HUB && totalPorts == 0 && myGeneration == 0
      ensures forall i :: 0 <= i < |jack| ==>
        fresh(jack[i]) && jack[i].index == i && jack[i].peer == null && jack[i].numPorts == 0 && jack[i].owner == Free
    {
      var jacks: seq<VNetJack> := [];
      for i := 0 to NUM_JACKS_PER_HUB
        invariant |jacks| == i
        invariant forall k :: 0 <= k < i ==>
          fresh(jacks[k]) && jacks[k].index == k && jacks[k].peer == null &&
          jacks[k].numPorts == 0 && jacks[k].owner == Free
      {
        var j := new VNetJack.InHub(i);
        jacks := jacks + [j];
      }
      this.id := id;
      jack := jacks;
      totalPorts := 0;
      myGeneration := 0;
    }
  }

  /** A host network device; promiscuity is the kernel's use count of promiscuous mode. */
  class NetDevice {
    var promiscuity: int
    const wireless: bool
    const hardHeaderLen: nat

    constructor (wireless: bool, hardHeaderLen: nat)
      ensures this.wireless == wireless && this.hardHeaderLen == hardHeaderLen && promiscuity == 0
    {
      this.wireless, this.hardHeaderLen := wireless, hardHeaderLen;
      promiscuity := 0;
    }
  }

  class VNetBridge {
    const name: string
    var dev: NetDevice?
    var enabledPromisc: bool
    var wirelessAdapter: bool

    constructor (name: string)
      ensures this.name == name && dev == null && !enabledPromisc && !wirelessAdapter
    {
      this.name := name;
      dev, enabledPromisc, wirelessAdapter := null, false, false;
    }
  }
}
