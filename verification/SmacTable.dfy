/** The table that single-MAC translation learns guests' addresses in: a chained hash table with
    a one-entry cache for adds and least-recently-used trimming. */
module SmacTable {
  import opened Words

  const SMAC_HASH_TABLE_SIZE: nat := 256
  const MAX_ENTRIES: nat := 20
  const HIGH_BIT: nat := 0x8000_0000_0000_0000
  const ALL_ONES: nat := 0xFFFF_FFFF_FFFF_FFFF

  /** An address container; NoAddr is the zeroed container, whose version is neither 4 nor 6. */
  datatype IPAddr = NoAddr | V4(addr: uint32) | V6(addrHi: uint64, addrLo: uint64)

  function Octet(a: nat, i: nat): nat {
    match i
    case 0 => a % 0x100
    case 1 => a / 0x100 % 0x100
    case 2 => a / 0x1_0000 % 0x100
    case _ => a / 0x100_0000 % 0x100
  }

  function IPAddrHash(a: IPAddr): (hash: nat)
    ensures hash < SMAC_HASH_TABLE_SIZE
  {
    match a
    case V6(hi, lo) => (OctetSum(hi) + OctetSum(lo)) % SMAC_HASH_TABLE_SIZE
    case V4(addr) => OctetSum(addr) % SMAC_HASH_TABLE_SIZE
    case NoAddr => 0
  }

  /** The four low octets; the upper half of each part of an IPv6 address is not hashed. */
  function OctetSum(a: nat): nat {
    Octet(a, 3) + Octet(a, 2) + Octet(a, 1) + Octet(a, 0)
  }

  /** 0.0.0.0, 255.255.255.255 and ::, which are never stored. */
  predicate Refused(a: IPAddr) {
    a == V4(0) || a == V4(0xFFFF_FFFF) || a == V6(0, 0)
  }

  class Entry {
    var ipNext: Entry?
    const addr: IPAddr
    var mac: Mac
    var lastAccess: uint64
    // The add call that last used the entry, by the cache or by the table.
    ghost var lastUse: nat

    constructor (addr: IPAddr, mac: Mac, next: Entry?)
      ensures this.addr == addr && this.mac == mac && ipNext == next && lastAccess == 0 && lastUse == 0
    {
      this.addr, this.mac, ipNext := addr, mac, next;
      lastAccess, lastUse := 0, 0;
    }
  }

  /** Number k on a chain, or its end. */
  ghost function NodeAt(c: seq<Entry>, k: int): Entry? {
    if 0 <= k < |c| then c[k] else null
  }

  /** The chain c hangs off head. */
  ghost predicate Chained(head: Entry?, c: seq<Entry>)
    reads c`ipNext
  {
    && head == NodeAt(c, 0)
    && forall k :: 0 <= k < |c| ==> c[k].ipNext == NodeAt(c, k + 1)
  }

  ghost predicate UniqueIn(E: set<Entry>) {
    forall e, f :: e in E && f in E && e.addr == f.addr ==> e == f
  }

  /** The entries sit on the chain of their hash, once, and their addresses are unique. */
  ghost predicate PlacedIn(chains: seq<seq<Entry>>, entries: set<Entry>) {
    && |chains| == SMAC_HASH_TABLE_SIZE
    && (forall i, e :: 0 <= i < |chains| && e in chains[i] ==> e in entries && IPAddrHash(e.addr) == i)
    && (forall e :: e in entries ==> e in chains[IPAddrHash(e.addr)])
    && UniqueIn(entries)
    && (forall i, j, k :: 0 <= i < |chains| && 0 <= j < k < |chains[i]| ==> chains[i][j] != chains[i][k])
    && (forall e :: e in entries ==> e.addr != NoAddr && !Refused(e.addr))
  }

  lemma RemovePlaced(chains: seq<seq<Entry>>, entries: set<Entry>, e: Entry, k: nat)
    requires PlacedIn(chains, entries) && e in entries
    requires var c := chains[IPAddrHash(e.addr)]; k < |c| && c[k] == e
    ensures var h := IPAddrHash(e.addr); PlacedIn(chains[h := chains[h][..k] + chains[h][k + 1..]], entries - {e})
  {
    var h := IPAddrHash(e.addr);
    var c := chains[h];
    var after := chains[h := c[..k] + c[k + 1..]];
    forall f | f in entries && f != e ensures f in after[IPAddrHash(f.addr)] {
      if IPAddrHash(f.addr) == h {
        var j :| 0 <= j < |c| && c[j] == f;
        if j < k { assert after[h][j] == f; } else { assert after[h][j - 1] == f; }
      }
    }
  }

  lemma AddPlaced(chains: seq<seq<Entry>>, entries: set<Entry>, e: Entry)
    requires PlacedIn(chains, entries) && e !in entries && e.addr != NoAddr && !Refused(e.addr)
    requires forall f :: f in entries ==> f.addr != e.addr
    ensures var h := IPAddrHash(e.addr); PlacedIn(chains[h := [e] + chains[h]], entries + {e})
  {
    var h := IPAddrHash(e.addr);
    var after := chains[h := [e] + chains[h]];
    forall f | f in entries ensures f in after[IPAddrHash(f.addr)] {
      if IPAddrHash(f.addr) == h {
        var j :| 0 <= j < |chains[h]| && chains[h][j] == f;
        assert after[h][j + 1] == f;
      }
    }
  }

  lemma DropAt(c: seq<Entry>, k: nat, d: seq<Entry>)
    requires k < |c| && d == c[..k] + c[k + 1..]
    ensures forall m :: m < k ==> NodeAt(d, m) == NodeAt(c, m)
    ensures forall m :: m >= k ==> NodeAt(d, m) == NodeAt(c, m + 1)
  {}

  ghost function ContentsOf(E: set<Entry>): map<IPAddr, Mac>
    requires UniqueIn(E)
    reads E`mac
  {
    map e | e in E :: e.addr := e.mac
  }

  lemma WithEntry(E: set<Entry>, e: Entry)
    requires UniqueIn(E + {e}) && e !in E
    ensures ContentsOf(E + {e}) == ContentsOf(E)[e.addr := e.mac]
  {}

  lemma WithoutEntry(E: set<Entry>, e: Entry)
    requires UniqueIn(E) && e in E
    ensures ContentsOf(E - {e}) == ContentsOf(E) - {e.addr}
  {}

  lemma OtherAddresses(E: set<Entry>, e: Entry)
    requires UniqueIn(E) && e in E
    ensures E - {e} + {e} == E && e.addr !in ContentsOf(E - {e})
  {}

  lemma NoAddresses()
    ensures ContentsOf({}) == map[]
  {}

  /** The counter of entries is the number of addresses stored. */
  lemma {:induction false} AddressesCounted(E: set<Entry>)
    requires UniqueIn(E)
    ensures |ContentsOf(E)| == |E|
  {
    if E == {} {
      NoAddresses();
    } else {
      var e :| e in E;
      AddressesCounted(E - {e});
      hide ContentsOf, UniqueIn;
      OtherAddresses(E, e);
      WithEntry(E - {e}, e);
    }
  }

  class SMACState {
    var lastUptimeRead: uint64
    const IPlookupTable: array<Entry?>
    var numberOfIPandMACEntries: nat
    var lastIPadded: IPAddr
    var lastMACadded: Mac
    var lastEntryAdded: Entry?

    // The chain of each bucket, the entries on them, and the number of add calls so far.
    ghost var chains: seq<seq<Entry>>
    ghost var entries: set<Entry>
    ghost var now: nat

    constructor ()
      ensures Valid() && Contents() == map[] && fresh(IPlookupTable) && entries == {}
    {
      lastUptimeRead, numberOfIPandMACEntries := 0, 0;
      IPlookupTable := new Entry?[SMAC_HASH_TABLE_SIZE](_ => null);
      lastIPadded, lastMACadded, lastEntryAdded := NoAddr, [0, 0, 0, 0, 0, 0], null;
      chains, entries, now := seq(SMAC_HASH_TABLE_SIZE, _ => []), {}, 0;
    }

    ghost predicate Placed()
      reads `chains, `entries
    {
      PlacedIn(chains, entries)
    }

    ghost predicate Structure()
      reads `chains, `entries, IPlookupTable, entries`ipNext
    {
      && Placed()
      && IPlookupTable.Length == SMAC_HASH_TABLE_SIZE
      && (forall i :: 0 <= i < SMAC_HASH_TABLE_SIZE ==> Chained(IPlookupTable[i], chains[i]))
    }

    /** The cached address, MAC and pointer describe one entry of the table. */
    ghost predicate CacheOK()
      reads `lastEntryAdded, `lastIPadded, `lastMACadded, `entries, entries`mac
    {
      if lastEntryAdded == null then lastIPadded == NoAddr
      else lastEntryAdded in entries && lastIPadded == lastEntryAdded.addr && lastMACadded == lastEntryAdded.mac
    }

    /** Stamps never exceed the last clock reading, and apart from the cached entry, whose use
        goes on, they are in the order in which the entries were last used. */
    ghost predicate Stamped()
      reads `lastUptimeRead, `lastEntryAdded, `now, `entries, entries`lastAccess, entries`lastUse
    {
      StampedIn(entries)
    }

    ghost predicate StampedIn(E: set<Entry>)
      reads `lastUptimeRead, `lastEntryAdded, `now, E`lastAccess, E`lastUse
    {
      && (forall e :: e in E ==> e.lastAccess <= lastUptimeRead && e.lastUse <= now)
      && (forall e, f | e in E && f in E && e != lastEntryAdded && f != lastEntryAdded ::
            e.lastUse < f.lastUse ==> e.lastAccess <= f.lastAccess)
      && (forall e :: e in E && e != lastEntryAdded && lastEntryAdded in E ==> e.lastUse < lastEntryAdded.lastUse)
      && (lastEntryAdded in E ==> 0 < lastEntryAdded.lastUse)
    }

    lemma StampNew(E: set<Entry>, e: Entry)
      requires StampedIn(E) && entries == E + {e} && e.lastAccess == 0 && e.lastUse == 0
      requires lastEntryAdded != null ==> lastEntryAdded in E
      ensures Stamped()
    {}

    ghost predicate Valid()
      reads this, IPlookupTable, entries
    {
      var whole := Structure() && CacheOK() && Stamped() && numberOfIPandMACEntries == |entries|;
      whole
    }

    /** What the table says: each stored address with its MAC. */
    ghost function Contents(): map<IPAddr, Mac>
      requires Placed()
      reads `chains, `entries, entries`mac
    {
      ContentsOf(entries)
    }

    lemma PlacedFacts()
      requires Structure()
      ensures UniqueIn(entries) && forall e :: e in entries ==> e.addr != NoAddr && !Refused(e.addr)
    {}

    lemma StoredAt(e: Entry)
      requires Placed() && e in entries
      ensures e.addr in Contents() && Contents()[e.addr] == e.mac
    {}

    lemma NotStored(addr: IPAddr)
      requires Placed() && forall e :: e in chains[IPAddrHash(addr)] ==> e.addr != addr
      ensures addr !in Contents()
    {}

    lemma ChainOf(i: nat)
      requires Structure() && i < SMAC_HASH_TABLE_SIZE
      ensures |chains| == SMAC_HASH_TABLE_SIZE && IPlookupTable.Length == SMAC_HASH_TABLE_SIZE
      ensures Chained(IPlookupTable[i], chains[i])
      ensures forall e :: e in chains[i] ==> e in entries
    {}

    method LookupByIPNoAcquireLock(addr: IPAddr) returns (curr: Entry?)
      requires Structure()
      ensures curr == null ==> addr !in Contents()
      ensures curr != null ==>
        curr in entries && curr.addr == addr && addr in Contents() && Contents()[addr] == curr.mac
    {
      hide PlacedIn;
      var hash := IPAddrHash(addr);
      ChainOf(hash);
      curr := IPlookupTable[hash];
      ghost var c, k := chains[hash], 0;
      while curr != null
        invariant k <= |c| && curr == NodeAt(c, k)
        invariant forall j :: 0 <= j < k ==> c[j].addr != addr
        decreases |c| - k
      {
        if curr.addr == addr {
          StoredAt(curr);
          return;
        }
        curr := curr.ipNext;
        k := k + 1;
      }
      NotStored(addr);
    }

    method LookupByIP(addr: IPAddr) returns (found: bool, mac: Mac)
      requires Structure()
      ensures found <==> addr in Contents()
      ensures found ==> mac == Contents()[addr]
    {
      hide Structure;
      var entry := LookupByIPNoAcquireLock(addr);
      found := entry != null;
      mac := if found then entry.mac else [0, 0, 0, 0, 0, 0];
    }

    lemma PlaceOf(e: Entry) returns (p: nat)
      requires Placed() && e in entries
      ensures var c := chains[IPAddrHash(e.addr)]; p < |c| && c[p] == e && forall j :: 0 <= j < p ==> c[j] != e
    {
      var c := chains[IPAddrHash(e.addr)];
      p :| 0 <= p < |c| && c[p] == e;
    }

    /** Takes an entry off its chain. */
    method RemoveIPfromHashTableNoAcquireLock(entryToRemove: Entry) returns (removed: bool)
      requires Structure() && entryToRemove in entries
      modifies `chains, `entries, IPlookupTable, entries`ipNext
      ensures Structure() && removed && entries == old(entries) - {entryToRemove}
    {
      hide PlacedIn;
      var hash := IPAddrHash(entryToRemove.addr);
      ghost var p := PlaceOf(entryToRemove);
      ChainOf(hash);
      ghost var c, k := chains[hash], 0;
      var prev: Entry? := null;
      var entry := IPlookupTable[hash];
      while entry != null
        invariant k <= p && entry == c[k]
        invariant prev == NodeAt(c, k - 1)
        decreases |c| - k
      {
        if entry == entryToRemove {
          Unlink(hash, prev, entry, k);
          return true;
        }
        prev := entry;
        entry := entry.ipNext;
        k := k + 1;
      }
      return false;
    }

    /** The predecessor of number k on chain hash is nowhere else. */
    lemma Predecessor(hash: nat, prev: Entry?, k: nat)
      requires Placed() && hash < SMAC_HASH_TABLE_SIZE && k < |chains[hash]| && prev == NodeAt(chains[hash], k - 1)
      ensures prev != null ==> prev in entries
      ensures forall i, e :: 0 <= i < SMAC_HASH_TABLE_SIZE && e in chains[i] ==>
        e in entries && (i != hash ==> e != prev)
      ensures forall m :: 0 <= m < |chains[hash]| && chains[hash][m] == prev ==> m == k - 1
    {
      assert prev != null ==> prev in chains[hash] && IPAddrHash(prev.addr) == hash;
    }

    /** Links past entry, which is number k on chain hash, behind prev. */
    method Unlink(hash: nat, prev: Entry?, entry: Entry, ghost k: nat)
      requires Structure() && entry in entries && hash == IPAddrHash(entry.addr)
      requires k < |chains[hash]| && chains[hash][k] == entry && prev == NodeAt(chains[hash], k - 1)
      modifies `chains, `entries, IPlookupTable, entries`ipNext
      ensures Structure() && entries == old(entries) - {entry}
    {
      hide PlacedIn, Chained;
      ChainOf(hash);
      ghost var c, before := chains[hash], chains;
      Predecessor(hash, prev, k);
      RemovePlaced(chains, entries, entry, k);
      Splice(hash, prev, entry.ipNext, c, k);
      forall i | 0 <= i < SMAC_HASH_TABLE_SIZE && i != hash ensures Chained(IPlookupTable[i], before[i]) {
        assert old(Chained(IPlookupTable[i], before[i]));
        assert forall e: Entry :: e in before[i] ==> e.ipNext == old(e.ipNext);
      }
      chains := chains[hash := c[..k] + c[k + 1..]];
      entries := entries - {entry};
    }

    /** Takes number k out of the chain c of a bucket. */
    method Splice(hash: nat, prev: Entry?, next: Entry?, ghost c: seq<Entry>, ghost k: nat)
      requires hash < IPlookupTable.Length && Chained(IPlookupTable[hash], c)
      requires k < |c| && prev == NodeAt(c, k - 1) && next == NodeAt(c, k + 1)
      requires prev != null ==> prev in entries
      requires forall m :: 0 <= m < |c| && c[m] == prev ==> m == k - 1
      modifies IPlookupTable, entries`ipNext
      ensures Chained(IPlookupTable[hash], c[..k] + c[k + 1..])
      ensures forall i :: 0 <= i < IPlookupTable.Length && i != hash ==> IPlookupTable[i] == old(IPlookupTable[i])
      ensures forall e :: e in entries && e != prev ==> e.ipNext == old(e.ipNext)
    {
      DropAt(c, k, c[..k] + c[k + 1..]);
      if prev != null {
        prev.ipNext := next;
      } else {
        IPlookupTable[hash] := next;
      }
    }

    /** Halves every stamp. */
    method HalveStamps()
      requires Structure()
      modifies entries`lastAccess
      ensures forall e :: e in entries ==> e.lastAccess == old(e.lastAccess) / 2
    {
      hide PlacedIn, Structure;
      var i := 0;
      while i < SMAC_HASH_TABLE_SIZE
        invariant i <= SMAC_HASH_TABLE_SIZE && Structure()
        invariant forall e :: e in entries ==> e.lastAccess == Aged(old(e.lastAccess), IPAddrHash(e.addr) < i)
      {
        HalveChain(i);
        i := i + 1;
      }
    }

    /** Halves the stamps on one chain. */
    method HalveChain(i: nat)
      requires Structure() && i < SMAC_HASH_TABLE_SIZE
      modifies entries`lastAccess
      ensures Structure()
      ensures forall e :: e in entries ==> e.lastAccess == Aged(old(e.lastAccess), IPAddrHash(e.addr) == i)
    {
      hide PlacedIn;
      ChainOf(i);
      OnChain(i);
      ghost var c, k := chains[i], 0;
      var entry := IPlookupTable[i];
      while entry != null
        invariant k <= |c| && entry == NodeAt(c, k)
        invariant forall j :: 0 <= j < |c| ==> c[j].lastAccess == Aged(old(c[j].lastAccess), j < k)
        invariant forall e :: e in entries && e !in c ==> e.lastAccess == old(e.lastAccess)
        decreases |c| - k
      {
        entry.lastAccess := entry.lastAccess / 2;
        entry := entry.ipNext;
        k := k + 1;
      }
    }

    lemma OnChain(i: nat)
      requires Structure() && i < SMAC_HASH_TABLE_SIZE
      ensures |chains| == SMAC_HASH_TABLE_SIZE
      ensures forall e :: e in chains[i] <==> e in entries && IPAddrHash(e.addr) == i
      ensures forall j, k :: 0 <= j < k < |chains[i]| ==> chains[i][j] != chains[i][k]
    {}

    /** The clock reading, with the highest bit forced on; if the clock has wrapped, all stamps
        are halved first. */
    method GetSystemUptime(clock: uint64) returns (currentUptime: uint64)
      requires Structure() && Stamped()
      modifies `lastUptimeRead, entries`lastAccess
      ensures Structure() && Stamped()
      ensures currentUptime == lastUptimeRead == Forced(clock)
      ensures forall e :: e in entries ==> e.lastAccess == Aged(old(e.lastAccess), Forced(clock) < old(lastUptimeRead))
    {
      currentUptime := Forced(clock);
      if currentUptime < lastUptimeRead {
        HalveStamps();
      }
      lastUptimeRead := currentUptime;
    }

    /** Of the entries in S other than the cached one, candidate has the least stamp, which is
        update; no candidate if all those stamps are all ones. */
    ghost predicate LeastOf(S: set<Entry>, candidate: Entry?, update: uint64)
      reads `lastEntryAdded, S`lastAccess
    {
      && (if candidate == null then update == ALL_ONES
          else candidate in S && candidate != lastEntryAdded && update == candidate.lastAccess)
      && forall e :: e in S && e != lastEntryAdded ==> update <= e.lastAccess
    }

    /** The first entry found with the least stamp, other than the cached one; none if all other
        stamps are all ones. */
    method FindOldest() returns (oldestEntry: Entry?)
      requires Structure()
      ensures oldestEntry == null ==> forall e :: e in entries && e != lastEntryAdded ==> e.lastAccess == ALL_ONES
      ensures oldestEntry != null ==> oldestEntry in entries && oldestEntry != lastEntryAdded
      ensures oldestEntry != null ==> forall e :: e in entries && e != lastEntryAdded ==>
        oldestEntry.lastAccess <= e.lastAccess
    {
      hide PlacedIn, Structure;
      ghost var seen: set<Entry> := {};
      oldestEntry := null;
      var oldestUpdate: uint64 := ALL_ONES;
      var i := 0;
      while i < SMAC_HASH_TABLE_SIZE
        invariant i <= SMAC_HASH_TABLE_SIZE
        invariant forall e :: e in seen <==> e in entries && IPAddrHash(e.addr) < i
        invariant LeastOf(seen, oldestEntry, oldestUpdate)
      {
        OnChain(i);
        oldestEntry, oldestUpdate := OldestOnChain(i, oldestEntry, oldestUpdate, seen);
        seen := seen + set e | e in chains[i];
        i := i + 1;
      }
      assert seen == entries;
    }

    method OldestOnChain(i: nat, candidate: Entry?, update: uint64, ghost seen: set<Entry>)
      returns (oldestEntry: Entry?, oldestUpdate: uint64)
      requires Structure() && i < SMAC_HASH_TABLE_SIZE && LeastOf(seen, candidate, update)
      ensures i < |chains| && LeastOf(seen + (set e | e in chains[i]), oldestEntry, oldestUpdate)
    {
      hide PlacedIn;
      ChainOf(i);
      ghost var c, k := chains[i], 0;
      oldestEntry, oldestUpdate := candidate, update;
      var currentEntry := IPlookupTable[i];
      assert seen + (set e | e in c[..k]) == seen;
      while currentEntry != null
        invariant k <= |c| && currentEntry == NodeAt(c, k)
        invariant LeastOf(seen + (set e | e in c[..k]), oldestEntry, oldestUpdate)
        decreases |c| - k
      {
        if currentEntry.lastAccess < oldestUpdate {
          if currentEntry != lastEntryAdded {
            oldestEntry := currentEntry;
            oldestUpdate := currentEntry.lastAccess;
          }
        }
        assert c[..k + 1] == c[..k] + [currentEntry];
        currentEntry := currentEntry.ipNext;
        k := k + 1;
      }
      assert c[..k] == c;
    }

    /** Evicts one entry if there are more than twenty. */
    method TrimLookupTableIfNecessary(clock: uint64) returns (ghost victim: Entry?)
      requires Valid() && lastEntryAdded != null
      modifies `lastUptimeRead, `chains, `entries, `numberOfIPandMACEntries
      modifies IPlookupTable, entries`ipNext, entries`lastAccess
      ensures Valid()
      ensures victim == null ==> entries == old(entries)
      ensures victim == null && |entries| > MAX_ENTRIES ==>
        forall e :: e in entries && e != lastEntryAdded ==> e.lastAccess == ALL_ONES
      ensures victim != null ==>
        && |old(entries)| > MAX_ENTRIES && victim in old(entries) && victim != lastEntryAdded
        && entries == old(entries) - {victim}
        && forall e :: e in entries && e != lastEntryAdded ==>
             victim.lastAccess <= e.lastAccess && (e.lastUse < victim.lastUse ==> e.lastAccess == victim.lastAccess)
    {
      hide PlacedIn, Structure, StampedIn;
      victim := null;
      if numberOfIPandMACEntries <= MAX_ENTRIES {
        return;
      }
      var currentUptime := GetSystemUptime(clock);
      var oldestEntry := FindOldest();
      if oldestEntry != null {
        LeastRecent(oldestEntry);
        ghost var E := entries;
        var removed := RemoveIPfromHashTableNoAcquireLock(oldestEntry);
        if removed {
          numberOfIPandMACEntries := numberOfIPandMACEntries - 1;
          victim := oldestEntry;
          FewerStamps(E, oldestEntry);
        }
      }
    }

    lemma LeastRecent(v: Entry)
      requires Stamped() && v in entries && v != lastEntryAdded
      requires forall e :: e in entries && e != lastEntryAdded ==> v.lastAccess <= e.lastAccess
      ensures forall e :: e in entries && e != lastEntryAdded && e.lastUse < v.lastUse ==> e.lastAccess == v.lastAccess
    {}

    lemma FewerStamps(E: set<Entry>, v: Entry)
      requires StampedIn(E) && entries == E - {v} && v != lastEntryAdded
      ensures Stamped()
    {}

    /** Makes entry the cached one. The entry cached so far is stamped, now that its use ends. */
    method SetCacheEntry(entry: Entry, clock1: uint64, clock2: uint64)
      requires Structure() && Stamped() && entry in entries && (lastEntryAdded != null ==> lastEntryAdded in entries)
      modifies `lastUptimeRead, `lastIPadded, `lastMACadded, `lastEntryAdded, `now, entries`lastAccess, entries`lastUse
      ensures Structure() && Stamped() && CacheOK() && lastEntryAdded == entry && lastUptimeRead == Forced(clock2)
      ensures entry.lastAccess == Forced(clock2) && entry.lastUse == now == old(now) + 1
      ensures forall e :: e in entries && e != entry ==>
        e.lastUse == old(e.lastUse) &&
        e.lastAccess == StampedTwice(old(lastEntryAdded), e, old(e.lastAccess), old(lastUptimeRead), clock1, clock2)
    {
      hide PlacedIn, Structure;
      if lastEntryAdded != null {
        StampCached(clock1);
      }
      Recache(entry);
      hide CacheOK;
      StampCached(clock2);
    }

    method StampCached(clock: uint64)
      requires Structure() && Stamped() && lastEntryAdded != null && lastEntryAdded in entries
      modifies `lastUptimeRead, entries`lastAccess
      ensures Structure() && Stamped() && lastUptimeRead == Forced(clock)
      ensures lastEntryAdded.lastAccess == Forced(clock)
      ensures forall e :: e in entries && e != lastEntryAdded ==>
        e.lastAccess == Aged(old(e.lastAccess), Forced(clock) < old(lastUptimeRead))
    {
      hide PlacedIn, Structure;
      var uptime := GetSystemUptime(clock);
      lastEntryAdded.lastAccess := uptime;
    }

    method Recache(entry: Entry)
      requires Stamped() && entry in entries
      requires lastEntryAdded != null ==> lastEntryAdded in entries && lastEntryAdded.lastAccess == lastUptimeRead
      modifies `lastIPadded, `lastMACadded, `lastEntryAdded, `now, entry`lastUse
      ensures Stamped() && CacheOK() && lastEntryAdded == entry && now == old(now) + 1 && entry.lastUse == now
    {
      hide UniqueIn;
      lastIPadded := entry.addr;
      lastMACadded := entry.mac;
      lastEntryAdded := entry;
      now := now + 1;
      entry.lastUse := now;
    }

    /** Puts a new entry at the head of its chain. */
    method Insert(addr: IPAddr, mac: Mac) returns (entry: Entry)
      requires Structure() && addr != NoAddr && !Refused(addr) && addr !in Contents()
      modifies `chains, `entries, IPlookupTable
      ensures Structure() && fresh(entry) && entries == old(entries) + {entry}
      ensures entry.addr == addr && entry.mac == mac && entry.lastAccess == 0 && entry.lastUse == 0
    {
      hide PlacedIn;
      var ipHash := IPAddrHash(addr);
      ChainOf(ipHash);
      entry := new Entry(addr, mac, IPlookupTable[ipHash]);
      forall f | f in entries ensures f.addr != addr { StoredAt(f); }
      AddPlaced(chains, entries, entry);
      ghost var c := chains[ipHash];
      forall i | 0 <= i < SMAC_HASH_TABLE_SIZE ensures forall e :: e in chains[i] ==> e != entry { OnChain(i); }
      IPlookupTable[ipHash] := entry;
      chains := chains[ipHash := [entry] + c];
      entries := entries + {entry};
    }

    /** A hit in the add cache. */
    ghost method Touch()
      requires Valid() && lastEntryAdded != null
      modifies `now, lastEntryAdded`lastUse
      ensures Valid() && Contents() == old(Contents())
    {
      hide PlacedIn, Structure, ContentsOf, UniqueIn;
      now := now + 1;
      lastEntryAdded.lastUse := now;
    }

    /** A new address. */
    method AddNew(addr: IPAddr, mac: Mac, clock1: uint64, clock2: uint64, clock3: uint64) returns (ghost victim: Entry?)
      requires Valid() && addr != NoAddr && !Refused(addr) && addr !in Contents()
      modifies this, IPlookupTable, entries
      ensures Valid() && fresh(entries - old(entries))
      ensures Contents() == old(Contents())[addr := mac] - if victim == null then {} else {victim.addr}
      ensures victim == null ==> |entries| == |old(entries)| + 1
      ensures victim != null ==> |entries| == |old(entries)| > MAX_ENTRIES - 1 && victim.addr in old(Contents())
      ensures lastEntryAdded != null && lastIPadded == addr && Evicted(victim)
    {
      hide PlacedIn, ContentsOf, StampedIn, UniqueIn, Refused, Chained, Evicted;
      ghost var E := entries;
      PlacedFacts();
      ghost var entry := Put(addr, mac, clock1, clock2);
      assert |E + {entry}| == |E| + 1;
      victim := Trim(clock3);
      if victim != null { StoredBefore(E, entry, victim); }
    }

    /** What a trim does to the contents. */
    method Trim(clock: uint64) returns (ghost victim: Entry?)
      requires Valid() && lastEntryAdded != null
      modifies `lastUptimeRead, `chains, `entries, `numberOfIPandMACEntries
      modifies IPlookupTable, entries`ipNext, entries`lastAccess
      ensures Valid() && UniqueIn(old(entries)) && Evicted(victim)
      ensures Contents() == old(Contents()) - if victim == null then {} else {victim.addr}
      ensures entries == old(entries) - if victim == null then {} else {victim}
      ensures victim != null ==>
        victim in old(entries) && victim != lastEntryAdded && |entries| == |old(entries)| - 1 >= MAX_ENTRIES
    {
      hide PlacedIn, ContentsOf, StampedIn, UniqueIn, Chained;
      ghost var E := entries;
      PlacedFacts();
      victim := TrimLookupTableIfNecessary(clock);
      if victim != null { WithoutEntry(E, victim); }
    }

    static lemma StoredBefore(E: set<Entry>, e: Entry, f: Entry)
      requires UniqueIn(E) && f in E + {e} && f != e
      ensures f.addr in ContentsOf(E)
    {}

    /** A new address, before the table is trimmed. */
    method Put(addr: IPAddr, mac: Mac, clock1: uint64, clock2: uint64) returns (ghost entry: Entry)
      requires Valid() && addr != NoAddr && !Refused(addr) && addr !in Contents()
      modifies this, IPlookupTable, entries`lastAccess, entries`lastUse
      ensures Valid() && fresh(entry) && entries == old(entries) + {entry}
      ensures lastEntryAdded == entry && entry.addr == addr
      ensures Contents() == old(Contents())[addr := mac]
    {
      hide PlacedIn, Structure, ContentsOf, UniqueIn, Refused, StampedIn;
      ghost var E := entries;
      var e := Insert(addr, mac);
      PlacedFacts();
      WithEntry(E, e);
      StampNew(E, e);
      numberOfIPandMACEntries := numberOfIPandMACEntries + 1;
      SetCacheEntry(e, clock1, clock2);
      entry := e;
    }

    /** The victim of a trim is none, because there are few entries or all the others are stamped
        with all ones; or it has the least stamp of all but the cached entry, and any entry used
        before it has the same stamp. */
    ghost predicate Evicted(victim: Entry?)
      reads this, entries, victim
    {
      if victim == null then |entries| > MAX_ENTRIES ==> forall e :: e in entries && e != lastEntryAdded ==>
        e.lastAccess == ALL_ONES
      else
        && victim != lastEntryAdded && victim !in entries
        && forall e :: e in entries && e != lastEntryAdded ==>
             victim.lastAccess <= e.lastAccess && (e.lastUse < victim.lastUse ==> e.lastAccess == victim.lastAccess)
    }

    lemma SomeOtherStamp()
      requires Stamped() && Evicted(null) && |entries| > MAX_ENTRIES
      ensures lastUptimeRead == ALL_ONES
    {
      var E := entries - {lastEntryAdded};
      assert |E| >= |entries| - 1;
      var e :| e in E;
    }

    /** A known address, perhaps at a new MAC. */
    method Refresh(entryIP: Entry, mac: Mac, clock1: uint64, clock2: uint64)
      requires Valid() && entryIP in entries
      modifies `lastUptimeRead, `lastIPadded, `lastMACadded, `lastEntryAdded
      modifies `now, entries`lastAccess, entries`lastUse, entries`mac
      ensures Valid() && Contents() == old(Contents())[entryIP.addr := mac]
    {
      hide PlacedIn, Structure, StampedIn;
      PlacedFacts();
      if entryIP.mac != mac {
        entryIP.mac := mac;
      }
      SetCacheEntry(entryIP, clock1, clock2);
    }

    /** Learns that addr is at mac. */
    method AddIPandMACcombo(addr: IPAddr, mac: Mac, granted: bool, clock1: uint64, clock2: uint64, clock3: uint64)
      returns (result: bool, ghost victim: Entry?)
      requires Valid() && addr != NoAddr
      modifies this, IPlookupTable, entries
      ensures Valid() && fresh(entries - old(entries))
      ensures !result ==> !granted && addr !in old(Contents())
      ensures !result || Refused(addr) ==> Contents() == old(Contents()) && victim == null
      ensures result && !Refused(addr) ==>
        Contents() == old(Contents())[addr := mac] - if victim == null then {} else {victim.addr}
      ensures victim != null ==>
        addr !in old(Contents()) && victim.addr in old(Contents()) && |old(entries)| >= MAX_ENTRIES && Evicted(victim)
      ensures old(numberOfIPandMACEntries) <= MAX_ENTRIES && lastUptimeRead < ALL_ONES ==>
        numberOfIPandMACEntries <= MAX_ENTRIES
    {
      hide PlacedIn, ContentsOf, StampedIn, Refused, UniqueIn, Chained, Evicted;
      result, victim := true, null;
      PlacedFacts();
      if lastIPadded == addr && mac == lastMACadded {
        StoredAt(lastEntryAdded);
        Touch();
        return;
      }
      if Refused(addr) {
        return;
      }
      var entryIP := LookupByIPNoAcquireLock(addr);
      if entryIP != null {
        Refresh(entryIP, mac, clock1, clock2);
      } else if !granted {
        result := false;
      } else {
        victim := AddNew(addr, mac, clock1, clock2, clock3);
        if victim == null && |entries| > MAX_ENTRIES { SomeOtherStamp(); }
      }
    }
  }

  /** The stamp of e once the use of the entry cached so far has ended at a first clock reading, and
      that of another entry has begun at a second one. */
  function StampedTwice(cached: Entry?, e: Entry, stamp: uint64, lastUptime: uint64, clock1: uint64,
                        clock2: uint64): uint64 {
    if cached == null then Aged(stamp, Forced(clock2) < lastUptime)
    else
      var once := if e == cached then Forced(clock1) else Aged(stamp, Forced(clock1) < lastUptime);
      Aged(once, Forced(clock2) < Forced(clock1))
  }

  /** A stamp after a clock reading, which may show that the clock has wrapped. */
  function Aged(stamp: uint64, wrapped: bool): uint64 {
    if wrapped then stamp / 2 else stamp
  }

  function Forced(clock: uint64): uint64 {
    if clock < HIGH_BIT then clock + HIGH_BIT else clock
  }
}
