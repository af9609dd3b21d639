/** Allocating and freeing unplugged jacks leaves every other jack's tree alone. */
module Growth {
  import opened Jacks
  import opened SideTrees
  import opened Forest
  import opened Propagation

  /** K is L with the unplugged jack x now belonging to o. */
  ghost predicate Grown(L: Links, K: Links, x: VNetJack, o: Owner) {
    && K == L[x := Link(null, o)] && o != Free
    && (x in L ==> L[x].owner == Free)
  }

  lemma {:induction false} GrowShape(L: Links, K: Links, x: VNetJack, o: Owner, y: VNetJack, t: Side)
    requires Grown(L, K, x, o) && Shape(L, y, t)
    ensures Shape(K, y, t)
    decreases t
  {
    if t.Node? {
      forall i | 0 <= i < NUM_JACKS_PER_HUB
        ensures SlotShape(K, y, t.hub, i, t.kids[i])
      {
        KidShape(L, y, t, i);
        if t.kids[i].Sub? { GrowShape(L, K, x, o, t.kids[i].side.jack, t.kids[i].side); }
      }
    }
  }

  lemma GrowOther(L: Links, st: Tallies, K: Links, su: Tallies, x: VNetJack, o: Owner, y: VNetJack)
    requires IsForest(L, st) && Grown(L, K, x, o) && Wired(K)
    requires y in L && L[y].owner != Free && y != x && SameAt(L, st, su, y)
    ensures JackOK(K, su, y)
  {
    assert JackOK(L, st, y);
    var t, u := TreeOf(L, y), UpOf(L, y);
    GrowShape(L, K, x, o, y, t);
    if u.Sub? { GrowShape(L, K, x, o, L[y].peer, u.side); }
    PlacedOK(K, su, y, t, u);
  }

  lemma GrowPort(K: Links, su: Tallies, x: VNetJack)
    requires Wired(K) && x in K && IsPort(K[x].owner) && K[x].peer == null
    requires x in su.c && su.c[x] == 1 && x !in su.e
    ensures JackOK(K, su, x)
  {
    PlacedOK(K, su, x, Leaf(x, K[x].owner), Empty);
  }

  /** A jack allocated on a hub that already has one counts the hub's total. */
  lemma GrowSibling(L: Links, st: Tallies, K: Links, su: Tallies, x: VNetJack, h: VNetHub, y: VNetJack)
    requires IsForest(L, st) && Grown(L, K, x, OfHub(h)) && Wired(K)
    requires y in L && L[y].owner == OfHub(h) && y != x && SameAt(L, st, su, y)
    requires x in su.c && h in su.tt && su.c[x] == su.tt[h]
    ensures JackOK(K, su, x)
  {
    assert JackOK(L, st, y);
    var t, u := TreeOf(L, y), UpOf(L, y);
    GrowShape(L, K, x, OfHub(h), y, t);
    if u.Sub? { GrowShape(L, K, x, OfHub(h), L[y].peer, u.side); }
    KidShape(K, y, t, x.index);
    OutTreeShape(K, y, t, u, x.index);
    forall q ensures Whole(q, OutTree(t, u, x.index), Empty) == Whole(q, t, u) { OutTreeWhole(q, t, u, x.index); }
    forall m
      ensures Whole(Occurrences(m), OutTree(t, u, x.index), Empty) <= 1
    {
      assert Whole(Occurrences(m), t, u) <= 1;
    }
    assert Whole(AllPorts, OutTree(t, u, x.index), Empty) == Whole(AllPorts, t, u);
    PlacedOK(K, su, x, OutTree(t, u, x.index), Empty);
  }

  lemma {:induction false} NoKids(q: Quantity, kids: seq<Slot>, n: nat)
    requires n <= |kids| && forall i :: 0 <= i < |kids| ==> kids[i] == Empty
    ensures TallyUpTo(q, kids, n) == 0
    decreases n
  {
    if n > 0 { NoKids(q, kids, n - 1); }
  }

  /** The first jack allocated on a hub has nothing behind it. */
  lemma GrowFirst(K: Links, su: Tallies, x: VNetJack, h: VNetHub)
    requires Wired(K) && x in K && K[x] == Link(null, OfHub(h))
    requires forall y :: y in K && y != x ==> K[y].owner != OfHub(h)
    requires x in su.c && h in su.tt && su.c[x] == su.tt[h] == 0
    ensures JackOK(K, su, x)
  {
    var kids := seq(NUM_JACKS_PER_HUB, _ => Empty);
    var t := Node(x, h, kids);
    forall q ensures Tally(q, t) == OwnerTally(q, OfHub(h)) { NoKids(q, kids, |kids|); }
    assert Tally(AllPorts, t) == 0;
    forall i | 0 <= i < NUM_JACKS_PER_HUB ensures SlotShape(K, x, h, i, kids[i]) {}
    assert Shape(K, x, t);
    forall m ensures Whole(Occurrences(m), t, Empty) <= 1 {}
    PlacedOK(K, su, x, t, Empty);
  }

  /** New jacks that nothing is plugged into leave the old ones alone. */
  lemma {:induction false} KeepShape(L: Links, K: Links, y: VNetJack, t: Side)
    requires Shape(L, y, t) && forall k :: k in L ==> k in K && K[k] == L[k]
    ensures Shape(K, y, t)
    decreases t
  {
    if t.Node? {
      forall i | 0 <= i < NUM_JACKS_PER_HUB
        ensures SlotShape(K, y, t.hub, i, t.kids[i])
      {
        KidShape(L, y, t, i);
        if t.kids[i].Sub? { KeepShape(L, K, t.kids[i].side.jack, t.kids[i].side); }
      }
    }
  }

  lemma KeepJack(L: Links, st: Tallies, K: Links, su: Tallies, y: VNetJack)
    requires IsForest(L, st) && Wired(K) && forall k :: k in L ==> k in K && K[k] == L[k]
    requires y in L && L[y].owner != Free && SameAt(L, st, su, y)
    ensures JackOK(K, su, y)
  {
    assert JackOK(L, st, y);
    var t, u := TreeOf(L, y), UpOf(L, y);
    KeepShape(L, K, y, t);
    if u.Sub? { KeepShape(L, K, L[y].peer, u.side); }
    PlacedOK(K, su, y, t, u);
  }

  // ----- Freeing -----

  /** K is L without some unplugged jacks, or with some of them marked free. */
  ghost predicate Shrunk(L: Links, K: Links) {
    && K.Keys <= L.Keys
    && (forall k :: k in K ==> K[k] == L[k] || (L[k].peer == null && K[k] == Link(null, Free)))
    && (forall k :: k in L && k !in K ==> L[k].peer == null)
  }

  lemma {:induction false} ShrinkShape(L: Links, K: Links, y: VNetJack, t: Side)
    requires Shrunk(L, K) && Wired(K) && Shape(L, y, t) && Wired(L)
    requires y in K && K[y] == L[y]
    ensures Shape(K, y, t)
    decreases t
  {
    if t.Node? {
      assert HubWhole(K, t.hub);
      forall i | 0 <= i < NUM_JACKS_PER_HUB
        ensures SlotShape(K, y, t.hub, i, t.kids[i])
      {
        KidShape(L, y, t, i);
        if t.kids[i].Sub? {
          assert L[t.kids[i].side.jack].peer != null;
          ShrinkShape(L, K, t.kids[i].side.jack, t.kids[i].side);
        }
      }
    }
  }

  lemma ShrinkOther(L: Links, st: Tallies, K: Links, su: Tallies, y: VNetJack)
    requires IsForest(L, st) && Shrunk(L, K) && Wired(K)
    requires y in K && K[y] == L[y] && L[y].owner != Free && SameAt(L, st, su, y)
    ensures JackOK(K, su, y)
  {
    assert JackOK(L, st, y);
    var t, u := TreeOf(L, y), UpOf(L, y);
    ShrinkShape(L, K, y, t);
    if u.Sub? { ShrinkShape(L, K, L[y].peer, u.side); }
    PlacedOK(K, su, y, t, u);
  }

  // ----- A bridge coming up or going down -----

  /** Only the bridge jack x is affected when its bridge binds or releases its device. */
  lemma RebindForest(L: Links, st: Tallies, su: Tallies, x: VNetJack)
    requires IsForest(L, st) && x in L && L[x].owner.OfBridge?
    requires su == st.(e := su.e, wants := su.wants)
    requires forall k :: k in L && k != x ==> (k in su.e <==> k in st.e) && (k in su.wants <==> k in st.wants)
    requires x in su.e <==> x in su.wants && Beyond(L, st, x) != 0
    ensures IsForest(L, su)
  {
    forall y | y in L && L[y].owner != Free ensures JackOK(L, su, y) {
      assert JackOK(L, st, y);
      if y == x && L[x].peer != null {
        assert JackOK(L, st, L[x].peer);
      }
    }
  }

  /** In a forest, what a jack hears from its peer is the number of ports beyond it. */
  lemma BeyondIsPorts(L: Links, st: Tallies, x: VNetJack)
    requires IsForest(L, st) && x in L && L[x].owner != Free && JackOK(L, st, x)
    ensures Beyond(L, st, x) == SlotTally(AllPorts, UpOf(L, x))
  {
    if L[x].peer != null { assert JackOK(L, st, L[x].peer); }
  }

  /** Every allocated jack's count, its hub's total and its bridge's mode are the same in su. */
  ghost predicate Restored(L: Links, st: Tallies, su: Tallies) {
    forall x :: x in L && L[x].owner != Free ==> SameAt(L, st, su, x)
  }

  lemma TalliesRestored(L: Links, st: Tallies, su: Tallies)
    requires IsForest(L, st) && IsForest(L, su) && su.wants == st.wants
    requires forall k :: k in st.e || k in su.e ==> k in L && L[k].owner.OfBridge?
    ensures Restored(L, st, su)
  {
    forall x | x in L && L[x].owner != Free ensures SameAt(L, st, su, x) { TalliesDetermined(L, st, su, x); }
  }

  /** The wiring and the wishes of the bridges determine every tally of an allocated jack. */
  lemma TalliesDetermined(L: Links, st: Tallies, su: Tallies, x: VNetJack)
    requires IsForest(L, st) && IsForest(L, su) && su.wants == st.wants
    requires x in L && L[x].owner != Free
    ensures su.c[x] == st.c[x]
    ensures L[x].owner.OfHub? ==>
      L[x].owner.hub in st.tt && L[x].owner.hub in su.tt && su.tt[L[x].owner.hub] == st.tt[L[x].owner.hub]
    ensures L[x].owner.OfBridge? ==> (x in su.e <==> x in st.e)
  {
    assert JackOK(L, st, x) && JackOK(L, su, x);
  }

  /** a and b were connected in L, with tallies st, and can be connected again after the cut. */
  ghost predicate CanRejoin(L: Links, st: Tallies, a: VNetJack, b: VNetJack) {
    var whole :=
      && IsForest(L, st) && a in L && b in L && a != b && L[a].peer == b && L[a].owner != Free && L[b].owner != Free
      && Separate(Cut(L, a), a, b) && Join(Cut(L, a), a, b) == L
      && (forall k :: k in st.e ==> k in L && L[k].owner.OfBridge?);
    whole
  }

  /** After a cut, the two ends can be joined again, and that restores the wiring. */
  lemma CutCanRejoin(L: Links, st: Tallies, a: VNetJack)
    requires IsForest(L, st) && a in L && L[a].owner != Free && L[a].peer != null
    ensures L[a].peer in L && Separate(Cut(L, a), a, L[a].peer)
    ensures Join(Cut(L, a), a, L[a].peer) == L
  {
    CutShapes(L, st, a);
    TreeIs(Cut(L, a), a, TreeOf(L, a));
    TreeIs(Cut(L, a), L[a].peer, TreeOf(L, L[a].peer));
  }
}
