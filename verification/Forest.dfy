/** What it means for the wiring to be a forest with right port counts, seen from any jack,
    and how that is carried from one jack's tree to every jack of the component. */
module Forest {
  import opened Jacks
  import opened SideTrees

  /** What the port-count propagation keeps up to date: numPorts of every jack, totalPorts of
      every hub, and which bridges hold their device in promiscuous mode. wants is the bridges
      whose device is bound and not wireless; propagation does not change it. */
  datatype Tallies = Tallies(c: map<VNetJack, int>, tt: map<VNetHub, int>, e: set<VNetJack>, wants: set<VNetJack>)

  // ----- Wiring -----

  ghost predicate Symmetric(L: Links) {
    forall k :: k in L && L[k].peer != null ==>
      && L[k].peer != k && L[k].peer in L && L[L[k].peer].peer == k
      && L[k].owner != Free
  }

  /** Every allocated hub jack is the one at its index in its hub, whose jacks are all known. */
  ghost predicate HubsWhole(L: Links) {
    forall k :: k in L && L[k].owner.OfHub? ==>
      HubWhole(L, L[k].owner.hub) && k.index < NUM_JACKS_PER_HUB && L[k].owner.hub.jack[k.index] == k
  }

  ghost predicate HubWhole(L: Links, h: VNetHub) {
    |h.jack| == NUM_JACKS_PER_HUB &&
    forall i :: 0 <= i < NUM_JACKS_PER_HUB ==>
      h.jack[i] in L && h.jack[i].index == i && (L[h.jack[i]].owner == Free || L[h.jack[i]].owner == OfHub(h))
  }

  /** No two hubs with allocated jacks are known by the same id. */
  ghost predicate UniqueIds(L: Links) {
    forall a, b :: a in L && b in L && L[a].owner.OfHub? && L[b].owner.OfHub? && L[a].owner.hub.id == L[b].owner.hub.id
      ==> L[a].owner == L[b].owner
  }

  ghost predicate Wired(L: Links) {
    var whole :=
      Symmetric(L) && HubsWhole(L) && UniqueIds(L);
    whole
  }

  /** One step through the network: across a link, or between allocated jacks of a hub. */
  ghost predicate Linked(L: Links, a: VNetJack, b: VNetJack) {
    && a in L && b in L
    && (L[a].peer == b || (L[a].owner.OfHub? && L[b].owner == L[a].owner))
  }

  ghost predicate Closed(L: Links, C: set<VNetJack>) {
    forall a, b :: a in C && b in L && Linked(L, a, b) ==> b in C
  }

  ghost function JacksOf(L: Links, t: Side): set<VNetJack> {
    set k | k in L && InTree(L, t, k)
  }

  // ----- Re-rooting -----

  /** The tree seen from jack i of t's hub, when u hangs beyond t's entry jack. */
  ghost function OutTree(t: Side, u: Slot, i: nat): Side
    requires t.Node? && |t.kids| == |t.hub.jack| && t.jack.index < |t.kids| && i < |t.kids|
  {
    Node(t.hub.jack[i], t.hub, t.kids[i := Empty][t.jack.index := u])
  }

  /** What t and u add up to. */
  ghost function Whole(q: Quantity, t: Side, u: Slot): nat {
    Tally(q, t) + SlotTally(q, u)
  }

  lemma {:induction false} TallySet(q: Quantity, kids: seq<Slot>, n: nat, a: nat, s: Slot)
    requires n <= |kids| && a < |kids|
    ensures a >= n ==> TallyUpTo(q, kids[a := s], n) == TallyUpTo(q, kids, n)
    ensures a < n ==> TallyUpTo(q, kids[a := s], n) + SlotTally(q, kids[a]) == TallyUpTo(q, kids, n) + SlotTally(q, s)
    decreases n
  {
    if n > 0 { TallySet(q, kids, n - 1, a, s); }
  }

  /** Re-rooting moves the boundary but conserves the whole. */
  lemma OutTreeWhole(q: Quantity, t: Side, u: Slot, i: nat)
    requires t.Node? && |t.kids| == |t.hub.jack| && t.jack.index < |t.kids| && i < |t.kids|
    requires i != t.jack.index && t.kids[t.jack.index] == Empty
    ensures Whole(q, OutTree(t, u, i), t.kids[i]) == Whole(q, t, u)
  {
    TallySet(q, t.kids, |t.kids|, i, Empty);
    TallySet(q, t.kids[i := Empty], |t.kids|, t.jack.index, u);
  }

  lemma OutTreeShape(L: Links, j: VNetJack, t: Side, u: Slot, i: nat)
    requires Wired(L) && Shape(L, j, t) && UpShape(L, j, u) && t.Node?
    requires i < NUM_JACKS_PER_HUB && i != j.index && L[t.hub.jack[i]].owner == OfHub(t.hub)
    ensures t.kids[j.index] == Empty
    ensures Shape(L, t.hub.jack[i], OutTree(t, u, i))
    ensures UpShape(L, t.hub.jack[i], t.kids[i])
    ensures t.kids[i].Sub? ==> UpShape(L, t.kids[i].side.jack, Sub(OutTree(t, u, i)))
  {
    KidShape(L, j, t, j.index);
    KidShape(L, j, t, i);
    var s := OutTree(t, u, i);
    forall e | 0 <= e < NUM_JACKS_PER_HUB
      ensures SlotShape(L, t.hub.jack[i], t.hub, e, s.kids[e])
    {
      KidShape(L, j, t, e);
    }
  }

  // ----- Tallies along a tree -----

  /** Every entry jack of t counts the ports behind it. */
  ghost predicate InOK(st: Tallies, t: Side)
    decreases t
  {
    var whole :=
      && t.jack in st.c && st.c[t.jack] == Ports(t)
      && (t.Node? ==> forall i :: 0 <= i < |t.kids| && t.kids[i].Sub? ==> InOK(st, t.kids[i].side));
    whole
  }

  /** The news from beyond t's entry jack has reached all of t: every inner jack counts all of
      the component's ports but those plugged into it, every hub has the component's total, and
      a bridge that wants to be promiscuous is so iff there are ports beyond it. */
  ghost predicate Settled(L: Links, st: Tallies, t: Side, total: int, up: int)
    decreases t
  {
    var whole :=
      match t
      case Leaf(k, o) => BridgeOK(st, k, o, up)
      case Node(_, h, kids) =>
        && |kids| == |h.jack|
        && h in st.tt && st.tt[h] == total
        && forall i :: 0 <= i < |kids| ==>
             && (IsHere(L, t, h.jack[i]) ==>
                   h.jack[i] in st.c && st.c[h.jack[i]] == total - SlotTally(AllPorts, kids[i]))
             && (kids[i].Sub? ==> Settled(L, st, kids[i].side, total, total - SlotTally(AllPorts, kids[i])));
    whole
  }

  ghost predicate BridgeOK(st: Tallies, k: VNetJack, o: Owner, up: int) {
    o.OfBridge? ==> (k in st.e <==> k in st.wants && up != 0)
  }

  lemma {:induction false} InFrame(st: Tallies, su: Tallies, t: Side)
    requires InOK(st, t) && st.c.Keys <= su.c.Keys
    requires forall k :: k in st.c && IsRoot(t, k) ==> su.c[k] == st.c[k]
    ensures InOK(su, t)
    decreases t
  {
    if t.Node? {
      forall i | 0 <= i < |t.kids| && t.kids[i].Sub?
        ensures InOK(su, t.kids[i].side)
      {
        InFrame(st, su, t.kids[i].side);
      }
    }
  }

  /** su agrees with st on everything that Settled reads of t. */
  ghost predicate AgreeOn(L: Links, st: Tallies, su: Tallies, t: Side) {
    var whole :=
      && st.c.Keys <= su.c.Keys && st.tt.Keys <= su.tt.Keys && st.wants == su.wants
      && (forall k :: k in st.c && IsInner(L, t, k) ==> su.c[k] == st.c[k])
      && (forall h :: h in st.tt && Has(t, HubMark(h.id)) ==> su.tt[h] == st.tt[h])
      && (forall k :: k in L && IsRoot(t, k) ==> (k in su.e <==> k in st.e));
    whole
  }

  lemma {:induction false} SettledFrame(L: Links, st: Tallies, su: Tallies, j: VNetJack, t: Side, total: int, up: int)
    requires Shape(L, j, t) && Settled(L, st, t, total, up) && AgreeOn(L, st, su, t)
    ensures Settled(L, su, t, total, up)
    decreases t
  {
    if t.Node? {
      assert Has(t, HubMark(t.hub.id));
      forall i | 0 <= i < |t.kids|
        ensures IsHere(L, t, t.hub.jack[i]) ==>
          t.hub.jack[i] in su.c && su.c[t.hub.jack[i]] == total - SlotTally(AllPorts, t.kids[i])
        ensures t.kids[i].Sub? ==> Settled(L, su, t.kids[i].side, total, total - SlotTally(AllPorts, t.kids[i]))
      {
        if t.kids[i].Sub? {
          KidShape(L, j, t, i);
          AgreeKid(L, st, su, t, i);
          SettledFrame(L, st, su, t.kids[i].side.jack, t.kids[i].side, total, total - SlotTally(AllPorts, t.kids[i]));
        }
      }
    }
  }

  lemma AgreeKid(L: Links, st: Tallies, su: Tallies, t: Side, i: nat)
    requires t.Node? && i < |t.kids| && t.kids[i].Sub? && AgreeOn(L, st, su, t)
    ensures AgreeOn(L, st, su, t.kids[i].side)
  {
    forall h | h in st.tt && Has(t.kids[i].side, HubMark(h.id))
      ensures Has(t, HubMark(h.id))
    {
      KidHas(t, i, HubMark(h.id));
    }
  }

  // ----- From one jack's tree to every jack of the component -----

  /** What is beyond x counts the whole but what is on x's side. */
  ghost predicate TalliesAt(L: Links, st: Tallies, x: VNetJack, s: Side, v: Slot)
    requires x in L
  {
    var whole :=
      && x in st.c && st.c[x] == Ports(s)
      && (L[x].owner.OfHub? ==> L[x].owner.hub in st.tt && st.tt[L[x].owner.hub] == Whole(AllPorts, s, v))
      && BridgeOK(st, x, L[x].owner, SlotTally(AllPorts, v));
    whole
  }

  /** Every jack of t has a tree, with something beyond it, that together make the same whole;
      and if the tallies along t are right, so are the jack's. */
  lemma {:induction false} Cover(L: Links, st: Tallies, j: VNetJack, t: Side, u: Slot, x: VNetJack)
    returns (s: Side, v: Slot)
    requires Wired(L) && Shape(L, j, t) && UpShape(L, j, u) && InTree(L, t, x)
    requires InOK(st, t) && Settled(L, st, t, Whole(AllPorts, t, u), SlotTally(AllPorts, u))
    ensures x in L && Shape(L, x, s) && UpShape(L, x, v)
    ensures forall q :: Whole(q, s, v) == Whole(q, t, u)
    ensures TalliesAt(L, st, x, s, v)
    decreases t
  {
    if x == j {
      s, v := t, u;
    } else if IsHere(L, t, x) {
      s, v := CoverHere(L, st, j, t, u, x);
    } else {
      var i :| 0 <= i < |t.kids| && t.kids[i].Sub? && InTree(L, t.kids[i].side, x);
      hide OutTree, Whole, InOK, Settled, UpShape, TalliesAt, Shape;
      var w := KidView(L, st, j, t, u, i);
      s, v := Cover(L, st, t.kids[i].side.jack, t.kids[i].side, w, x);
    }
  }

  /** Kid i of t, and what lies beyond it. */
  lemma KidView(L: Links, st: Tallies, j: VNetJack, t: Side, u: Slot, i: nat) returns (w: Slot)
    requires Wired(L) && Shape(L, j, t) && UpShape(L, j, u) && t.Node? && i < |t.kids| && t.kids[i].Sub?
    requires InOK(st, t) && Settled(L, st, t, Whole(AllPorts, t, u), SlotTally(AllPorts, u))
    ensures var s := t.kids[i].side;
      && Shape(L, s.jack, s) && UpShape(L, s.jack, w) && (forall q :: Whole(q, s, w) == Whole(q, t, u))
      && InOK(st, s) && Settled(L, st, s, Whole(AllPorts, s, w), SlotTally(AllPorts, w))
  {
    KidShape(L, j, t, i);
    OutTreeShape(L, j, t, u, i);
    w := Sub(OutTree(t, u, i));
    hide OutTree;
    forall q ensures Whole(q, t.kids[i].side, w) == Whole(q, t, u) { OutTreeWhole(q, t, u, i); }
  }

  /** The case of Cover for the jacks of t's own hub. */
  lemma CoverHere(L: Links, st: Tallies, j: VNetJack, t: Side, u: Slot, x: VNetJack) returns (s: Side, v: Slot)
    requires Wired(L) && Shape(L, j, t) && UpShape(L, j, u) && IsHere(L, t, x)
    requires InOK(st, t) && Settled(L, st, t, Whole(AllPorts, t, u), SlotTally(AllPorts, u))
    ensures x in L && Shape(L, x, s) && UpShape(L, x, v)
    ensures forall q :: Whole(q, s, v) == Whole(q, t, u)
    ensures TalliesAt(L, st, x, s, v)
  {
    OutTreeShape(L, j, t, u, x.index);
    s, v := OutTree(t, u, x.index), t.kids[x.index];
    hide OutTree;
    forall q ensures Whole(q, s, v) == Whole(q, t, u) { OutTreeWhole(q, t, u, x.index); }
  }

  /** The only step that leaves a tree is the entry jack's own link. */
  lemma {:induction false} TreeClosed(L: Links, j: VNetJack, t: Side, a: VNetJack, b: VNetJack)
    requires Wired(L) && Shape(L, j, t) && InTree(L, t, a) && Linked(L, a, b)
    ensures InTree(L, t, b) || (a == j && L[j].peer == b)
    decreases t
  {
    if a == j || IsHere(L, t, a) {
      if L[a].peer != b || a != j {
        if L[a].peer == b {
          KidShape(L, j, t, a.index);
          assert IsRoot(t.kids[a.index].side, b);
        } else {
          KidShape(L, j, t, b.index);
        }
      }
    } else {
      var i :| 0 <= i < |t.kids| && t.kids[i].Sub? && InTree(L, t.kids[i].side, a);
      KidShape(L, j, t, i);
      TreeClosed(L, t.kids[i].side.jack, t.kids[i].side, a, b);
      if InTree(L, t.kids[i].side, b) {
        assert InTree(L, t, b);
      } else {
        assert IsHere(L, t, b);
      }
    }
  }

  /** The tree of a jack outside a closed set stays outside it. */
  lemma {:induction false} Outside(L: Links, C: set<VNetJack>, x: VNetJack, t: Side, k: VNetJack)
    requires Wired(L) && Closed(L, C) && x !in C && Shape(L, x, t) && InTree(L, t, k)
    ensures k !in C
    decreases t
  {
    if k == x {
    } else if IsHere(L, t, k) {
      assert Linked(L, k, x);
    } else {
      var i :| 0 <= i < |t.kids| && t.kids[i].Sub? && InTree(L, t.kids[i].side, k);
      KidShape(L, x, t, i);
      var a, b := t.hub.jack[i], t.kids[i].side.jack;
      assert Linked(L, a, x) && Linked(L, b, a);
      Outside(L, C, b, t.kids[i].side, k);
    }
  }

  // ----- The invariant -----

  ghost function UpOf(L: Links, x: VNetJack): Slot
    requires x in L && (L[x].peer != null ==> HasTree(L, L[x].peer))
  {
    if L[x].peer == null then Empty else Sub(TreeOf(L, L[x].peer))
  }

  /** The jack's component is a finite tree of hubs, in which no hub and no interface name
      occurs twice, and the tallies at the jack are right. */
  ghost predicate JackOK(L: Links, st: Tallies, x: VNetJack)
    requires x in L
  {
    && HasTree(L, x)
    && (L[x].peer != null ==> HasTree(L, L[x].peer))
    && (forall m :: Whole(Occurrences(m), TreeOf(L, x), UpOf(L, x)) <= 1)
    && TalliesAt(L, st, x, TreeOf(L, x), UpOf(L, x))
  }

  ghost predicate IsForest(L: Links, st: Tallies) {
    && Wired(L)
    && st.c.Keys == L.Keys
    && forall x :: x in L && L[x].owner != Free ==> JackOK(L, st, x)
  }

  lemma PlacedOK(L: Links, st: Tallies, x: VNetJack, s: Side, v: Slot)
    requires Wired(L) && Shape(L, x, s) && UpShape(L, x, v)
    requires forall m :: Whole(Occurrences(m), s, v) <= 1
    requires TalliesAt(L, st, x, s, v)
    ensures JackOK(L, st, x)
  {
    TreeIs(L, x, s);
    if v.Sub? { TreeIs(L, L[x].peer, v.side); }
  }

  lemma JackOKAt(L: Links, st: Tallies, x: VNetJack, s: Side, v: Slot)
    requires IsForest(L, st) && Shape(L, x, s) && UpShape(L, x, v)
    ensures TalliesAt(L, st, x, s, v) && forall m :: Whole(Occurrences(m), s, v) <= 1
  {
    assert JackOK(L, st, x);
    TreeIs(L, x, s);
    if v.Sub? { TreeIs(L, L[x].peer, v.side); }
  }

  /** In a forest the tallies along any tree are right. */
  lemma {:induction false} ForestTallies(L: Links, st: Tallies, j: VNetJack, t: Side, u: Slot)
    requires IsForest(L, st) && Shape(L, j, t) && UpShape(L, j, u)
    ensures InOK(st, t) && Settled(L, st, t, Whole(AllPorts, t, u), SlotTally(AllPorts, u))
    decreases t
  {
    hide JackOK, OutTree;
    JackOKAt(L, st, j, t, u);
    if t.Node? {
      var total := Whole(AllPorts, t, u);
      forall i | 0 <= i < |t.kids|
        ensures IsHere(L, t, t.hub.jack[i]) ==>
          t.hub.jack[i] in st.c && st.c[t.hub.jack[i]] == total - SlotTally(AllPorts, t.kids[i])
        ensures t.kids[i].Sub? ==>
          InOK(st, t.kids[i].side) && Settled(L, st, t.kids[i].side, total, total - SlotTally(AllPorts, t.kids[i]))
      {
        KidShape(L, j, t, i);
        if i != j.index && L[t.hub.jack[i]].owner == OfHub(t.hub) {
          OutTreeShape(L, j, t, u, i);
          OutTreeWhole(AllPorts, t, u, i);
          JackOKAt(L, st, t.hub.jack[i], OutTree(t, u, i), t.kids[i]);
          if t.kids[i].Sub? {
            ForestTallies(L, st, t.kids[i].side.jack, t.kids[i].side, Sub(OutTree(t, u, i)));
          }
        }
      }
    }
  }

  /** A jack outside a closed set is not touched by a change inside the set. */
  lemma OutsideOK(L: Links, st: Tallies, K: Links, su: Tallies, C: set<VNetJack>, x: VNetJack)
    requires IsForest(L, st) && Closed(L, C) && x in L && x !in C && L[x].owner != Free
    requires SameOwners(L, K) && Wired(K) && forall k :: k in L && k !in C ==> K[k] == L[k]
    requires SameAt(L, st, su, x)
    ensures JackOK(K, su, x)
  {
    assert JackOK(L, st, x);
    var t, u := TreeOf(L, x), UpOf(L, x);
    forall k | k in L && IsInner(L, t, k) ensures K[k].peer == L[k].peer { Outside(L, C, x, t, k); }
    ShapeFrame(L, K, x, t);
    if u.Sub? {
      var p := L[x].peer;
      assert p !in C by { assert Linked(L, p, x); }
      forall k | k in L && IsInner(L, u.side, k) ensures K[k].peer == L[k].peer { Outside(L, C, p, u.side, k); }
      ShapeFrame(L, K, p, u.side);
    }
    PlacedOK(K, su, x, t, u);
  }

  ghost predicate SameAt(L: Links, st: Tallies, su: Tallies, x: VNetJack)
    requires x in L
  {
    && (x in st.c ==> x in su.c && su.c[x] == st.c[x])
    && (L[x].owner.OfHub? && L[x].owner.hub in st.tt ==>
          L[x].owner.hub in su.tt && su.tt[L[x].owner.hub] == st.tt[L[x].owner.hub])
    && (x in su.e <==> x in st.e) && (x in su.wants <==> x in st.wants)
  }

  /** Every jack of t is OK, once the tallies along t are. */
  lemma InsideOK(L: Links, st: Tallies, j: VNetJack, t: Side, u: Slot, x: VNetJack)
    requires Wired(L) && Shape(L, j, t) && UpShape(L, j, u) && InTree(L, t, x)
    requires InOK(st, t) && Settled(L, st, t, Whole(AllPorts, t, u), SlotTally(AllPorts, u))
    requires forall m :: Whole(Occurrences(m), t, u) <= 1
    ensures x in L && JackOK(L, st, x)
  {
    var s, v := Cover(L, st, j, t, u, x);
    PlacedOK(L, st, x, s, v);
  }

  // ----- Joining and cutting -----

  ghost function Join(L: Links, a: VNetJack, b: VNetJack): Links
    requires a in L && b in L
  {
    L[a := L[a].(peer := b)][b := L[b].(peer := a)]
  }

  ghost function Cut(L: Links, a: VNetJack): Links
    requires a in L
  {
    if L[a].peer == null || L[a].peer !in L then L
    else L[a := L[a].(peer := null)][L[a].peer := L[L[a].peer].(peer := null)]
  }

  /** Two trees have no hub and no interface name in common. */
  ghost predicate Apart(t: Side, s: Side) {
    forall m :: !(Has(t, m) && Has(s, m))
  }

  /** The components of a and b have no hub and no interface name in common. */
  ghost predicate Separate(L: Links, a: VNetJack, b: VNetJack) {
    HasTree(L, a) && HasTree(L, b) && Apart(TreeOf(L, a), TreeOf(L, b))
  }

  /** A distinct tree does not read its own entry jack, nor jacks of hubs it does not have. */
  lemma NotInner(L: Links, j: VNetJack, t: Side, a: VNetJack)
    requires Shape(L, j, t) && Distinct(t) && a in L
    requires a == j || (L[a].owner.OfHub? ==> !Has(t, HubMark(L[a].owner.hub.id)))
    ensures !IsInner(L, t, a)
  {
    if a == j {
      RootNotInner(L, j, t, a);
    } else if IsInner(L, t, a) {
      InnerHub(L, t, a);
    }
  }

  lemma EntryMarks(L: Links, j: VNetJack, t: Side)
    requires Shape(L, j, t)
    ensures forall m :: Marks(L[j].owner, m) ==> Has(t, m)
  {
    RootOwner(L, j, t, j);
  }

  /** A change to the links of a and b alone keeps a's tree t, when t is apart from b's. */
  lemma SideKept(L: Links, K: Links, a: VNetJack, t: Side, b: VNetJack, s: Side)
    requires Shape(L, a, t) && Shape(L, b, s) && Distinct(t) && Apart(t, s)
    requires SameOwners(L, K) && forall k :: k in L && k != a && k != b ==> K[k] == L[k]
    ensures Shape(K, a, t)
  {
    EntryMarks(L, b, s);
    if L[b].owner.OfHub? { assert Marks(L[b].owner, HubMark(L[b].owner.hub.id)); }
    NotInner(L, a, t, a);
    NotInner(L, a, t, b);
    ShapeFrame(L, K, a, t);
  }

  lemma JoinWired(L: Links, a: VNetJack, b: VNetJack)
    requires Wired(L) && a in L && b in L && a != b
    requires L[a].owner != Free && L[b].owner != Free && L[a].peer == null && L[b].peer == null
    ensures Wired(Join(L, a, b)) && SameOwners(L, Join(L, a, b))
  {
    OwnersWired(L, Join(L, a, b));
    hide HubsWhole, HubWhole, UniqueIds;
  }

  lemma CutWired(L: Links, a: VNetJack)
    requires Wired(L) && a in L && L[a].peer != null
    ensures Wired(Cut(L, a)) && SameOwners(L, Cut(L, a))
  {
    OwnersWired(L, Cut(L, a));
    hide HubsWhole, HubWhole, UniqueIds;
  }

  lemma OwnersWired(L: Links, K: Links)
    requires HubsWhole(L) && UniqueIds(L) && SameOwners(L, K)
    ensures HubsWhole(K) && UniqueIds(K)
  {}

  /** Joining two free jacks of trees that are apart keeps both trees as they were. */
  lemma JoinShapes(L: Links, st: Tallies, a: VNetJack, b: VNetJack)
    requires IsForest(L, st) && a in L && b in L && a != b
    requires L[a].owner != Free && L[b].owner != Free && L[a].peer == null && L[b].peer == null
    requires JackOK(L, st, a) && JackOK(L, st, b) && Apart(TreeOf(L, a), TreeOf(L, b))
    ensures Wired(Join(L, a, b)) && SameOwners(L, Join(L, a, b))
    ensures Shape(Join(L, a, b), a, TreeOf(L, a)) && Shape(Join(L, a, b), b, TreeOf(L, b))
    ensures forall m :: Whole(Occurrences(m), TreeOf(L, a), Sub(TreeOf(L, b))) <= 1
  {
    var K, t, s := Join(L, a, b), TreeOf(L, a), TreeOf(L, b);
    JoinWired(L, a, b);
    hide Wired;
    forall m
      ensures Whole(Occurrences(m), t, Sub(s)) <= 1
      ensures Tally(Occurrences(m), t) <= 1 && Tally(Occurrences(m), s) <= 1
    {
      assert Whole(Occurrences(m), t, UpOf(L, a)) <= 1 && Whole(Occurrences(m), s, UpOf(L, b)) <= 1;
      assert !(Has(t, m) && Has(s, m));
    }
    SideKept(L, K, a, t, b, s);
    SideKept(L, K, b, s, a, t);
  }

  /** Cutting a link keeps the tree on either side of it. */
  lemma CutShapes(L: Links, st: Tallies, a: VNetJack)
    requires IsForest(L, st) && a in L && L[a].owner != Free && L[a].peer != null
    ensures JackOK(L, st, a) && JackOK(L, st, L[a].peer)
    ensures Wired(Cut(L, a)) && SameOwners(L, Cut(L, a))
    ensures Shape(Cut(L, a), a, TreeOf(L, a)) && Shape(Cut(L, a), L[a].peer, TreeOf(L, L[a].peer))
    ensures Apart(TreeOf(L, a), TreeOf(L, L[a].peer))
    ensures Distinct(TreeOf(L, a)) && Distinct(TreeOf(L, L[a].peer))
  {
    var K, b := Cut(L, a), L[a].peer;
    assert JackOK(L, st, a) && JackOK(L, st, b);
    var t, s := TreeOf(L, a), TreeOf(L, b);
    CutWired(L, a);
    hide Wired;
    forall m
      ensures !(Has(t, m) && Has(s, m)) && Tally(Occurrences(m), t) <= 1 && Tally(Occurrences(m), s) <= 1
    {
      assert Whole(Occurrences(m), t, UpOf(L, a)) <= 1;
    }
    SideKept(L, K, a, t, b, s);
    SideKept(L, K, b, s, a, t);
  }

  /** Inner jacks of a tree that is apart from another are neither entry nor inner jacks there. */
  lemma ApartJacks(L: Links, j: VNetJack, t: Side, i: VNetJack, s: Side, k: VNetJack)
    requires Shape(L, j, t) && Shape(L, i, s) && Apart(t, s) && IsInner(L, t, k)
    ensures !InTree(L, s, k)
  {
    InnerHub(L, t, k);
    var m := HubMark(L[k].owner.hub.id);
    if IsInner(L, s, k) {
      InnerHub(L, s, k);
    } else if IsRoot(s, k) {
      RootOwner(L, i, s, k);
      assert Marks(L[k].owner, m);
    }
  }

  lemma JoinClosed(L: Links, st: Tallies, a: VNetJack)
    requires IsForest(L, st) && a in L && L[a].owner != Free && L[a].peer == null && JackOK(L, st, a)
    ensures Closed(L, JacksOf(L, TreeOf(L, a)))
  {
    var t := TreeOf(L, a);
    forall k, b | k in JacksOf(L, t) && b in L && Linked(L, k, b) ensures b in JacksOf(L, t) {
      TreeClosed(L, a, t, k, b);
    }
  }

  lemma CutClosed(L: Links, st: Tallies, a: VNetJack)
    requires IsForest(L, st) && a in L && L[a].owner != Free && L[a].peer != null
    requires JackOK(L, st, a) && JackOK(L, st, L[a].peer)
    ensures Closed(L, JacksOf(L, TreeOf(L, a)) + JacksOf(L, TreeOf(L, L[a].peer)))
  {
    var p := L[a].peer;
    var t, s := TreeOf(L, a), TreeOf(L, p);
    var C := JacksOf(L, t) + JacksOf(L, s);
    forall k, b | k in C && b in L && Linked(L, k, b) ensures b in C {
      if k in JacksOf(L, t) {
        TreeClosed(L, a, t, k, b);
      } else {
        TreeClosed(L, p, s, k, b);
      }
    }
  }
}
