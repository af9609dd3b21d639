/** The tree of hubs and ports that hangs behind a jack on the jack's own side of its link.
    Everything here is about a snapshot of the links; the driver's methods are proved against it. */
module SideTrees {
  import opened Jacks

  datatype Link = Link(peer: VNetJack?, owner: Owner)
  type Links = map<VNetJack, Link>

  datatype Slot = Empty | Sub(side: Side)

  /** Leaf: the jack of a port. Node: a hub entered through jack; kids[i] is what is plugged
      into the hub's jack i, and the entry jack's own slot is Empty. */
  datatype Side =
    | Leaf(jack: VNetJack, owner: Owner)
    | Node(jack: VNetJack, hub: VNetHub, kids: seq<Slot>)

  // ----- Shape: the tree is exactly what the pointers say -----

  ghost predicate Shape(L: Links, j: VNetJack, t: Side)
    decreases t
  {
    var whole :=
      && t.jack == j
      && j in L
      && match t
         case Leaf(_, o) => L[j].owner == o && IsPort(o)
         case Node(_, h, kids) =>
           && L[j].owner == OfHub(h)
           && |kids| == |h.jack| == NUM_JACKS_PER_HUB
           && j.index < NUM_JACKS_PER_HUB && h.jack[j.index] == j
           && forall i :: 0 <= i < NUM_JACKS_PER_HUB ==> SlotShape(L, j, h, i, kids[i]);
    whole
  }

  ghost predicate SlotShape(L: Links, j: VNetJack, h: VNetHub, i: nat, s: Slot)
    requires i < |h.jack|
    decreases s
  {
    && h.jack[i] in L && h.jack[i].index == i
    && if i != j.index && Plugged(L, h, i) then s.Sub? && Shape(L, L[h.jack[i]].peer, s.side) else s == Empty
  }

  /** Jack i of hub h is allocated and has a peer. */
  ghost predicate Plugged(L: Links, h: VNetHub, i: nat)
    requires i < |h.jack|
  {
    h.jack[i] in L && L[h.jack[i]].owner == OfHub(h) && L[h.jack[i]].peer != null
  }

  /** u is what hangs on the far side of j's link. */
  ghost predicate UpShape(L: Links, j: VNetJack, u: Slot)
    requires j in L
  {
    if L[j].peer == null then u == Empty else u.Sub? && Shape(L, L[j].peer, u.side)
  }

  lemma {:induction false} ShapeUnique(L: Links, j: VNetJack, t: Side, s: Side)
    requires Shape(L, j, t) && Shape(L, j, s)
    ensures t == s
    decreases t
  {
    if t.Node? {
      forall i | 0 <= i < NUM_JACKS_PER_HUB
        ensures t.kids[i] == s.kids[i]
      {
        assert SlotShape(L, j, t.hub, i, t.kids[i]) && SlotShape(L, j, t.hub, i, s.kids[i]);
        if i != j.index && Plugged(L, t.hub, i) {
          ShapeUnique(L, L[t.hub.jack[i]].peer, t.kids[i].side, s.kids[i].side);
        }
      }
      assert t.kids == s.kids;
    }
  }

  // ----- Finiteness: a jack has a tree iff unfolding its side stops -----

  ghost predicate Stops(L: Links, j: VNetJack, n: nat)
    decreases n
  {
    && n > 0
    && j in L
    && match L[j].owner
       case Free => false
       case OfHub(h) =>
         && |h.jack| == NUM_JACKS_PER_HUB
         && j.index < NUM_JACKS_PER_HUB && h.jack[j.index] == j
         && forall i :: 0 <= i < NUM_JACKS_PER_HUB ==>
              h.jack[i] in L && h.jack[i].index == i &&
              (i != j.index && Plugged(L, h, i) ==> Stops(L, L[h.jack[i]].peer, n - 1))
       case _ => true
  }

  ghost predicate HasTree(L: Links, j: VNetJack) {
    exists n: nat :: Stops(L, j, n)
  }

  ghost function Build(L: Links, j: VNetJack, n: nat): (t: Side)
    requires Stops(L, j, n)
    ensures Shape(L, j, t)
    decreases n, 1
  {
    if L[j].owner.OfHub? then
      var h := L[j].owner.hub;
      Node(j, h, seq(NUM_JACKS_PER_HUB, i requires 0 <= i < NUM_JACKS_PER_HUB => BuildSlot(L, j, n, i)))
    else
      Leaf(j, L[j].owner)
  }

  ghost function BuildSlot(L: Links, j: VNetJack, n: nat, i: nat): (s: Slot)
    requires Stops(L, j, n) && L[j].owner.OfHub? && i < NUM_JACKS_PER_HUB
    ensures SlotShape(L, j, L[j].owner.hub, i, s)
    decreases n, 0
  {
    var h := L[j].owner.hub;
    if i != j.index && Plugged(L, h, i) then Sub(Build(L, L[h.jack[i]].peer, n - 1)) else Empty
  }

  ghost function TreeOf(L: Links, j: VNetJack): (t: Side)
    requires HasTree(L, j)
    ensures Shape(L, j, t)
  {
    var n: nat :| Stops(L, j, n);
    Build(L, j, n)
  }

  lemma {:induction false} StopsMono(L: Links, j: VNetJack, n: nat, m: nat)
    requires Stops(L, j, n) && n <= m
    ensures Stops(L, j, m)
    decreases n
  {
    if L[j].owner.OfHub? {
      var h := L[j].owner.hub;
      forall i | 0 <= i < NUM_JACKS_PER_HUB && i != j.index && Plugged(L, h, i)
        ensures Stops(L, L[h.jack[i]].peer, m - 1)
      {
        StopsMono(L, L[h.jack[i]].peer, n - 1, m - 1);
      }
    }
  }

  lemma KidShape(L: Links, j: VNetJack, t: Side, i: nat)
    requires Shape(L, j, t) && t.Node? && i < |t.kids|
    ensures i < |t.hub.jack| && SlotShape(L, j, t.hub, i, t.kids[i])
    ensures t.kids[i].Sub? ==>
      && i != j.index && Plugged(L, t.hub, i)
      && L[t.hub.jack[i]].peer == t.kids[i].side.jack
      && Shape(L, t.kids[i].side.jack, t.kids[i].side)
  {
    var s := t.kids[i];
    assert SlotShape(L, j, t.hub, i, s);
    if s.Sub? {
      assert Shape(L, L[t.hub.jack[i]].peer, s.side);
    }
  }

  ghost function Size(t: Side): nat
    decreases t
  {
    match t
    case Leaf(_, _) => 1
    case Node(_, _, kids) => 1 + SizeUpTo(kids, |kids|)
  }

  ghost function SlotSize(s: Slot): nat
    decreases s
  {
    match s case Empty => 0 case Sub(t) => Size(t)
  }

  ghost function SizeUpTo(kids: seq<Slot>, n: nat): nat
    requires n <= |kids|
    decreases kids, n
  {
    if n == 0 then 0 else SizeUpTo(kids, n - 1) + SlotSize(kids[n - 1])
  }

  lemma {:induction false} KidSize(kids: seq<Slot>, n: nat, i: nat)
    requires i < n <= |kids|
    ensures SlotSize(kids[i]) <= SizeUpTo(kids, n)
    decreases n
  {
    if i < n - 1 { KidSize(kids, n - 1, i); }
  }

  lemma {:induction false} ShapeStops(L: Links, j: VNetJack, t: Side)
    requires Shape(L, j, t)
    ensures Stops(L, j, Size(t))
    decreases t
  {
    if t.Node? {
      forall i | 0 <= i < NUM_JACKS_PER_HUB
        ensures t.hub.jack[i] in L && t.hub.jack[i].index == i
        ensures i != j.index && Plugged(L, t.hub, i) ==> Stops(L, L[t.hub.jack[i]].peer, Size(t) - 1)
      {
        KidShape(L, j, t, i);
        if t.kids[i].Sub? {
          var s := t.kids[i].side;
          ShapeStops(L, s.jack, s);
          KidSize(t.kids, |t.kids|, i);
          StopsMono(L, s.jack, Size(s), Size(t) - 1);
        }
      }
    }
  }

  /** Any tree of the right shape is the tree. */
  lemma TreeIs(L: Links, j: VNetJack, t: Side)
    requires Shape(L, j, t)
    ensures HasTree(L, j) && TreeOf(L, j) == t
  {
    ShapeStops(L, j, t);
    ShapeUnique(L, j, t, TreeOf(L, j));
  }

  // ----- What a tree contains -----

  /** What the cycle check marks when it visits an object: the hub itself, or the name of the
      host interface behind a bridge or netif port. Other ports are not marked. */
  datatype Mark = HubMark(id: HubId) | NameMark(name: string)

  /** What can be tallied over a tree: its ports, or the occurrences of one mark. */
  datatype Quantity = AllPorts | Occurrences(mark: Mark)

  predicate Marks(o: Owner, m: Mark) {
    match o
    case OfHub(h) => m == HubMark(h.id)
    case NetIf(n) => m == NameMark(n)
    case OfBridge(b) => m == NameMark(b.name)
    case _ => false
  }

  ghost function OwnerTally(q: Quantity, o: Owner): nat {
    match q
    case AllPorts => if IsPort(o) then 1 else 0
    case Occurrences(m) => if Marks(o, m) then 1 else 0
  }

  ghost function Tally(q: Quantity, t: Side): nat
    decreases t
  {
    match t
    case Leaf(_, o) => OwnerTally(q, o)
    case Node(_, h, kids) => OwnerTally(q, OfHub(h)) + TallyUpTo(q, kids, |kids|)
  }

  ghost function SlotTally(q: Quantity, s: Slot): nat
    decreases s
  {
    match s case Empty => 0 case Sub(t) => Tally(q, t)
  }

  ghost function TallyUpTo(q: Quantity, kids: seq<Slot>, n: nat): nat
    requires n <= |kids|
    decreases kids, n
  {
    if n == 0 then 0 else TallyUpTo(q, kids, n - 1) + SlotTally(q, kids[n - 1])
  }

  ghost function Ports(t: Side): nat {
    Tally(AllPorts, t)
  }

  ghost predicate Has(t: Side, m: Mark) {
    Tally(Occurrences(m), t) > 0
  }

  ghost predicate SlotHas(s: Slot, m: Mark) {
    SlotTally(Occurrences(m), s) > 0
  }

  /** No hub and no interface name occurs twice. */
  ghost predicate Distinct(t: Side) {
    forall m :: Tally(Occurrences(m), t) <= 1
  }

  lemma {:induction false} KidTally(q: Quantity, kids: seq<Slot>, n: nat, a: nat)
    requires a < n <= |kids|
    ensures SlotTally(q, kids[a]) <= TallyUpTo(q, kids, n)
    decreases n
  {
    if a < n - 1 { KidTally(q, kids, n - 1, a); }
  }

  lemma {:induction false} TwoKidTally(q: Quantity, kids: seq<Slot>, n: nat, a: nat, b: nat)
    requires a < b < n <= |kids|
    ensures SlotTally(q, kids[a]) + SlotTally(q, kids[b]) <= TallyUpTo(q, kids, n)
    decreases n
  {
    if b < n - 1 { TwoKidTally(q, kids, n - 1, a, b); } else { KidTally(q, kids, n - 1, a); }
  }

  /** What distinct marks of a node say of its kids. */
  lemma DistinctKid(t: Side, a: nat)
    requires t.Node? && Distinct(t) && a < |t.kids|
    ensures t.kids[a].Sub? ==> Distinct(t.kids[a].side) && !Has(t.kids[a].side, HubMark(t.hub.id))
    ensures t.kids[a].Sub? ==>
      forall b, m :: 0 <= b < |t.kids| && b != a && t.kids[b].Sub? && Has(t.kids[a].side, m) ==> !Has(t.kids[b].side, m)
    ensures !SlotHas(t.kids[a], HubMark(t.hub.id))
    ensures forall m :: SlotHas(t.kids[a], m) ==> Has(t, m)
    ensures forall b, m :: 0 <= b < |t.kids| && b != a && SlotHas(t.kids[a], m) ==> !SlotHas(t.kids[b], m)
  {
    forall m
      ensures SlotTally(Occurrences(m), t.kids[a]) <= TallyUpTo(Occurrences(m), t.kids, |t.kids|)
      ensures Tally(Occurrences(m), t) <= 1
    {
      KidTally(Occurrences(m), t.kids, |t.kids|, a);
    }
    forall b, m | 0 <= b < |t.kids| && b != a && SlotHas(t.kids[a], m)
      ensures !SlotHas(t.kids[b], m)
    {
      TwoKidTally(Occurrences(m), t.kids, |t.kids|, if a < b then a else b, if a < b then b else a);
    }
    if t.kids[a].Sub? {
      forall b, m | 0 <= b < |t.kids| && b != a && t.kids[b].Sub? && Has(t.kids[a].side, m)
        ensures !Has(t.kids[b].side, m)
      {
        assert SlotHas(t.kids[a], m) && !SlotHas(t.kids[b], m);
      }
    }
  }

  lemma KidHas(t: Side, a: nat, m: Mark)
    requires t.Node? && a < |t.kids| && SlotHas(t.kids[a], m)
    ensures Has(t, m)
  {
    KidTally(Occurrences(m), t.kids, |t.kids|, a);
  }

  /** k is the entry jack of some node, or the jack of some leaf. */
  ghost predicate IsRoot(t: Side, k: VNetJack)
    decreases t
  {
    k == t.jack || (t.Node? && exists i :: 0 <= i < |t.kids| && t.kids[i].Sub? && IsRoot(t.kids[i].side, k))
  }

  /** k is an allocated jack of t's own hub other than the entry jack. */
  ghost predicate IsHere(L: Links, t: Side, k: VNetJack) {
    t.Node? && k.index < |t.hub.jack| && t.hub.jack[k.index] == k && k != t.jack && k in L && L[k].owner == OfHub(t.hub)
  }

  /** k is an allocated jack of some node's hub other than that node's entry jack. */
  ghost predicate IsInner(L: Links, t: Side, k: VNetJack)
    decreases t
  {
    t.Node? &&
    (IsHere(L, t, k) || exists i :: 0 <= i < |t.kids| && t.kids[i].Sub? && IsInner(L, t.kids[i].side, k))
  }

  ghost predicate InTree(L: Links, t: Side, k: VNetJack) {
    IsRoot(t, k) || IsInner(L, t, k)
  }

  lemma {:induction false} InnerHub(L: Links, t: Side, k: VNetJack)
    requires IsInner(L, t, k)
    ensures k in L && L[k].owner.OfHub? && Has(t, HubMark(L[k].owner.hub.id))
    decreases t
  {
    if !IsHere(L, t, k) {
      var i :| 0 <= i < |t.kids| && t.kids[i].Sub? && IsInner(L, t.kids[i].side, k);
      InnerHub(L, t.kids[i].side, k);
      KidHas(t, i, HubMark(L[k].owner.hub.id));
    }
  }

  lemma {:induction false} RootOwner(L: Links, j: VNetJack, t: Side, k: VNetJack)
    requires Shape(L, j, t) && IsRoot(t, k)
    ensures k in L && L[k].owner != Free
    ensures forall m :: Marks(L[k].owner, m) ==> Has(t, m)
    decreases t
  {
    if k != t.jack {
      var i :| 0 <= i < |t.kids| && t.kids[i].Sub? && IsRoot(t.kids[i].side, k);
      KidShape(L, j, t, i);
      RootOwner(L, t.kids[i].side.jack, t.kids[i].side, k);
      forall m | Marks(L[k].owner, m)
        ensures Has(t, m)
      {
        KidHas(t, i, m);
      }
    }
  }

  /** With distinct marks, no jack is both an entry jack and an inner jack. */
  lemma {:induction false} RootNotInner(L: Links, j: VNetJack, t: Side, k: VNetJack)
    requires Shape(L, j, t) && Distinct(t) && IsRoot(t, k)
    ensures !IsInner(L, t, k)
    decreases t
  {
    if IsInner(L, t, k) {
      InnerHub(L, t, k);
      var m := HubMark(L[k].owner.hub.id);
      if k == t.jack {
        var b :| 0 <= b < |t.kids| && t.kids[b].Sub? && IsInner(L, t.kids[b].side, k);
        InnerHub(L, t.kids[b].side, k);
        DistinctKid(t, b);
      } else {
        var a :| 0 <= a < |t.kids| && t.kids[a].Sub? && IsRoot(t.kids[a].side, k);
        KidShape(L, j, t, a);
        DistinctKid(t, a);
        RootOwner(L, t.kids[a].side.jack, t.kids[a].side, k);
        if !IsHere(L, t, k) {
          var b :| 0 <= b < |t.kids| && t.kids[b].Sub? && IsInner(L, t.kids[b].side, k);
          InnerHub(L, t.kids[b].side, k);
          assert Marks(L[k].owner, m);
          assert a == b by { assert SlotHas(t.kids[a], m) && SlotHas(t.kids[b], m); }
          RootNotInner(L, t.kids[a].side.jack, t.kids[a].side, k);
        }
      }
    }
  }

  // ----- Frame: a tree survives link changes that it does not read -----

  ghost predicate SameOwners(L: Links, K: Links) {
    L.Keys == K.Keys && forall k :: k in L ==> K[k].owner == L[k].owner
  }

  lemma {:induction false} ShapeFrame(L: Links, K: Links, j: VNetJack, t: Side)
    requires Shape(L, j, t) && SameOwners(L, K)
    requires forall k :: k in L && IsInner(L, t, k) ==> K[k].peer == L[k].peer
    ensures Shape(K, j, t)
    decreases t
  {
    if t.Node? {
      forall i | 0 <= i < NUM_JACKS_PER_HUB
        ensures SlotShape(K, j, t.hub, i, t.kids[i])
      {
        KidShape(L, j, t, i);
        var k := t.hub.jack[i];
        if i != j.index && L[k].owner == OfHub(t.hub) {
          assert IsHere(L, t, k);
          assert IsInner(L, t, k);
        }
        if t.kids[i].Sub? {
          ShapeFrame(L, K, t.kids[i].side.jack, t.kids[i].side);
        }
      }
    }
  }
}
