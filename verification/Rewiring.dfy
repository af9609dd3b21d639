/** Why joining two free jacks, or cutting a link, and then telling both sides, leads from one
    forest to another. Both operations tell the two sides in the same way. */
module Rewiring {
  import opened Jacks
  import opened SideTrees
  import opened Forest
  import opened Propagation

  // ----- What depends on owners only -----

  lemma {:induction false} InnerOwners(L: Links, K: Links, t: Side, k: VNetJack)
    requires SameOwners(L, K) && IsInner(L, t, k)
    ensures IsInner(K, t, k)
    decreases t
  {
    if !IsHere(L, t, k) {
      var i :| 0 <= i < |t.kids| && t.kids[i].Sub? && IsInner(L, t.kids[i].side, k);
      InnerOwners(L, K, t.kids[i].side, k);
    }
  }

  lemma {:induction false} SettledOwners(L: Links, K: Links, st: Tallies, t: Side, total: int, up: int)
    requires SameOwners(L, K) && Settled(L, st, t, total, up)
    ensures Settled(K, st, t, total, up)
    decreases t
  {
    if t.Node? {
      forall i | 0 <= i < |t.kids|
        ensures IsHere(K, t, t.hub.jack[i]) ==>
          t.hub.jack[i] in st.c && st.c[t.hub.jack[i]] == total - SlotTally(AllPorts, t.kids[i])
        ensures t.kids[i].Sub? ==> Settled(K, st, t.kids[i].side, total, total - SlotTally(AllPorts, t.kids[i]))
      {
        assert IsHere(K, t, t.hub.jack[i]) ==> IsHere(L, t, t.hub.jack[i]);
        if t.kids[i].Sub? { SettledOwners(L, K, st, t.kids[i].side, total, total - SlotTally(AllPorts, t.kids[i])); }
      }
    }
  }

  /** A hub mark of a tree comes from one of the tree's entry jacks. */
  lemma {:induction false} HubEntry(L: Links, j: VNetJack, t: Side, id: HubId) returns (k: VNetJack)
    requires Shape(L, j, t) && Has(t, HubMark(id))
    ensures IsRoot(t, k) && k in L && L[k].owner.OfHub? && L[k].owner.hub.id == id
    decreases t
  {
    if t.Node? && t.hub.id == id {
      k := j;
    } else {
      var i := TallyKid(Occurrences(HubMark(id)), t.kids, |t.kids|);
      KidShape(L, j, t, i);
      k := HubEntry(L, t.kids[i].side.jack, t.kids[i].side, id);
    }
  }

  lemma {:induction false} TallyKid(q: Quantity, kids: seq<Slot>, n: nat) returns (i: nat)
    requires n <= |kids| && TallyUpTo(q, kids, n) > 0
    ensures i < n && SlotTally(q, kids[i]) > 0
    decreases n
  {
    if SlotTally(q, kids[n - 1]) > 0 { i := n - 1; } else { i := TallyKid(q, kids, n - 1); }
  }

  // ----- Two sides -----

  /** t behind a and s behind b have nothing in common. */
  ghost predicate TwoSides(K: Links, a: VNetJack, t: Side, b: VNetJack, s: Side) {
    var whole :=
      && TreeAt(K, a, t) && TreeAt(K, b, s) && Apart(t, s) && a != b
      && forall k :: k in K && IsRoot(t, k) ==> !IsRoot(s, k);
    whole
  }

  lemma RootsApart(L: Links, a: VNetJack, t: Side, b: VNetJack, s: Side, k: VNetJack)
    requires TreeAt(L, a, t) && TreeAt(L, b, s) && Apart(t, s) && a != b
    requires L[a].peer == null && L[b].peer == null
    requires IsRoot(t, k)
    ensures !IsRoot(s, k)
  {
    if IsRoot(s, k) {
      RootPeer(L, a, t, k);
      RootPeer(L, b, s, k);
    }
  }

  /** What telling both sides may have changed. */
  ghost predicate ChangedBoth(K: Links, st: Tallies, su: Tallies, t: Side, s: Side) {
    var whole :=
      && su.c.Keys == st.c.Keys && su.tt.Keys == st.tt.Keys && su.wants == st.wants
      && (forall k :: k in st.c && !IsInner(K, t, k) && !IsInner(K, s, k) ==> su.c[k] == st.c[k])
      && (forall h :: h in st.tt && !Has(t, HubMark(h.id)) && !Has(s, HubMark(h.id)) ==> su.tt[h] == st.tt[h])
      && (forall k :: k in K && !IsRoot(t, k) && !IsRoot(s, k) ==> (k in su.e <==> k in st.e));
    whole
  }

  /** All of t has heard what lies beyond j. */
  ghost predicate Heard(K: Links, st: Tallies, j: VNetJack, t: Side) {
    var whole := InOK(st, t) && Settled(K, st, t, Total(K, st, j, t), Beyond(K, st, j));
    whole
  }

  lemma ToldHeard(K: Links, st: Tallies, su: Tallies, j: VNetJack, t: Side)
    requires TreeAt(K, j, t) && InOK(st, t) && st.c.Keys == K.Keys
    requires Changed(K, st, su, t) && Told(K, st, su, j, t)
    ensures Heard(K, su, j, t)
  {
    ChangedIn(K, j, t, st, su);
    BeyondKept(K, j, t, st, su);
    assert Total(K, su, j, t) == Total(K, st, j, t);
  }

  /** t is as if x ports lay beyond it. */
  ghost predicate Had(K: Links, st: Tallies, t: Side, x: int) {
    var whole := InOK(st, t) && Settled(K, st, t, Ports(t) + x, x);
    whole
  }

  /** A side need not be told of a far side without ports. */
  lemma SkipHeard(K: Links, st: Tallies, a: VNetJack, t: Side, x: int, s: Side)
    requires TreeAt(K, a, t) && Had(K, st, t, x) && Ports(s) == 0
    requires x == 0 || x == Ports(s)
    requires Beyond(K, st, a) == 0 || Beyond(K, st, a) == Ports(s)
    ensures Heard(K, st, a, t)
  {
    assert Total(K, st, a, t) == Ports(t) + x && Beyond(K, st, a) == x;
  }

  lemma OtherRoot(K: Links, a: VNetJack, t: Side, b: VNetJack, s: Side, k: VNetJack)
    requires TwoSides(K, a, t, b, s) && IsRoot(t, k)
    ensures !IsInner(K, s, k)
  {
    RootOwner(K, a, t, k);
    if K[k].owner.OfHub? {
      assert Marks(K[k].owner, HubMark(K[k].owner.hub.id));
    }
    if IsInner(K, s, k) {
      InnerHub(K, s, k);
    }
  }

  /** Telling one side changes nothing that matters to the other. */
  lemma OtherSide(K: Links, a: VNetJack, t: Side, b: VNetJack, s: Side, st: Tallies, su: Tallies)
    requires TwoSides(K, a, t, b, s) && Changed(K, st, su, s) && st.c.Keys == K.Keys && InOK(st, t)
    ensures InOK(su, t) && AgreeOn(K, st, su, t)
  {
    hide Settled;
    forall k | k in st.c && IsRoot(t, k) ensures su.c[k] == st.c[k] {
      OtherRoot(K, a, t, b, s, k);
    }
    InFrame(st, su, t);
    forall k | k in st.c && IsInner(K, t, k) ensures su.c[k] == st.c[k] {
      ApartJacks(K, a, t, b, s, k);
    }
  }

  /** Telling one side does not undo what the other side has heard. */
  lemma HeardKept(K: Links, a: VNetJack, t: Side, b: VNetJack, s: Side, st: Tallies, su: Tallies, x: int)
    requires TwoSides(K, a, t, b, s) && Changed(K, st, su, s) && st.c.Keys == K.Keys
    requires K[a].peer == b || K[a].peer == null
    requires InOK(st, t)
    ensures InOK(su, t)
    ensures Heard(K, st, a, t) ==> Heard(K, su, a, t)
    ensures Had(K, st, t, x) ==> Had(K, su, t, x)
  {
    hide Settled, InOK, AgreeOn;
    OtherSide(K, a, t, b, s, st, su);
    if Had(K, st, t, x) { SettledFrame(K, st, su, a, t, Ports(t) + x, x); }
    if Heard(K, st, a, t) {
      if K[a].peer == b { RootNotInner(K, b, s, b); }
      assert Beyond(K, su, a) == Beyond(K, st, a) && Total(K, su, a, t) == Total(K, st, a, t);
      SettledFrame(K, st, su, a, t, Total(K, st, a, t), Beyond(K, st, a));
    }
  }

  lemma TwoSidesFlip(K: Links, a: VNetJack, t: Side, b: VNetJack, s: Side)
    requires TwoSides(K, a, t, b, s)
    ensures TwoSides(K, b, s, a, t)
  {}

  lemma FirstTold(K: Links, st: Tallies, su: Tallies, a: VNetJack, t: Side, x: int, b: VNetJack, s: Side, y: int)
    requires TwoSides(K, a, t, b, s) && Had(K, st, t, x) && Had(K, st, s, y) && st.c.Keys == K.Keys
    requires K[b].peer == a || K[b].peer == null
    requires SlotTold(K, st, su, a, Sub(t))
    ensures Heard(K, su, a, t) && Had(K, su, s, y) && Changed(K, st, su, t)
  {
    ToldHeard(K, st, su, a, t);
    TwoSidesFlip(K, a, t, b, s);
    HeardKept(K, b, s, a, t, st, su, y);
  }

  lemma SecondTold(K: Links, st: Tallies, su: Tallies, a: VNetJack, t: Side, b: VNetJack, s: Side, y: int)
    requires TwoSides(K, a, t, b, s) && Heard(K, st, a, t) && Had(K, st, s, y) && st.c.Keys == K.Keys
    requires K[a].peer == b || K[a].peer == null
    requires SlotTold(K, st, su, b, Sub(s))
    ensures Heard(K, su, a, t) && Heard(K, su, b, s) && Changed(K, st, su, s)
  {
    ToldHeard(K, st, su, b, s);
    HeardKept(K, a, t, b, s, st, su, y);
  }

  lemma BothChanged(K: Links, st: Tallies, su: Tallies, sv: Tallies, t: Side, s: Side)
    requires Changed(K, st, su, t) && Changed(K, su, sv, s)
    ensures ChangedBoth(K, st, sv, t, s)
  {}

  lemma NotChanged(K: Links, st: Tallies, t: Side)
    ensures Changed(K, st, st, t)
  {}

  // ----- Joining -----

  lemma JoinSides(L: Links, st: Tallies, a: VNetJack, b: VNetJack)
    requires IsForest(L, st) && a in L && b in L && a != b
    requires L[a].owner != Free && L[b].owner != Free && L[a].peer == null && L[b].peer == null
    requires JackOK(L, st, a) && JackOK(L, st, b) && Apart(TreeOf(L, a), TreeOf(L, b))
    ensures TwoSides(Join(L, a, b), a, TreeOf(L, a), b, TreeOf(L, b))
    ensures Had(Join(L, a, b), st, TreeOf(L, a), 0) && Had(Join(L, a, b), st, TreeOf(L, b), 0)
    ensures SameOwners(L, Join(L, a, b))
    ensures forall m :: Whole(Occurrences(m), TreeOf(L, a), Sub(TreeOf(L, b))) <= 1
  {
    hide Shape, Settled, InOK;
    var K, t, s := Join(L, a, b), TreeOf(L, a), TreeOf(L, b);
    JoinShapes(L, st, a, b);
    forall m ensures Tally(Occurrences(m), t) <= 1 && Tally(Occurrences(m), s) <= 1 {
      assert Whole(Occurrences(m), t, Sub(s)) <= 1;
    }
    forall k | k in K && IsRoot(t, k) ensures !IsRoot(s, k) { RootsApart(L, a, t, b, s, k); }
    ForestTallies(L, st, a, t, Empty);
    ForestTallies(L, st, b, s, Empty);
    SettledOwners(L, K, st, t, Ports(t), 0);
    SettledOwners(L, K, st, s, Ports(s), 0);
  }

  // ----- Cutting -----

  lemma CutSides(L: Links, st: Tallies, a: VNetJack)
    requires IsForest(L, st) && a in L && L[a].owner != Free && L[a].peer != null
    ensures L[a].peer in L && JackOK(L, st, a) && JackOK(L, st, L[a].peer)
    ensures TwoSides(Cut(L, a), a, TreeOf(L, a), L[a].peer, TreeOf(L, L[a].peer))
    ensures Had(Cut(L, a), st, TreeOf(L, a), Ports(TreeOf(L, L[a].peer)))
    ensures Had(Cut(L, a), st, TreeOf(L, L[a].peer), Ports(TreeOf(L, a)))
    ensures SameOwners(L, Cut(L, a))
  {
    hide Shape, Settled, InOK, UniqueIds, HubsWhole;
    CutShapes(L, st, a);
    var K, b := Cut(L, a), L[a].peer;
    var t, s := TreeOf(L, a), TreeOf(L, b);
    forall k | k in K && IsRoot(t, k) ensures !IsRoot(s, k) { RootsApart(K, a, t, b, s, k); }
    ForestTallies(L, st, a, t, Sub(s));
    ForestTallies(L, st, b, s, Sub(t));
    SettledOwners(L, K, st, t, Ports(t) + Ports(s), Ports(s));
    SettledOwners(L, K, st, s, Ports(s) + Ports(t), Ports(t));
  }

  // ----- The result is a forest -----

  /** Jacks outside both sides keep what they had. */
  lemma RestOK(L: Links, st: Tallies, K: Links, su: Tallies, a: VNetJack, t: Side, b: VNetJack, s: Side, x: VNetJack)
    requires IsForest(L, st) && Wired(K) && SameOwners(L, K) && TwoSides(K, a, t, b, s)
    requires Shape(L, a, t) && Shape(L, b, s)
    requires Closed(L, JacksOf(L, t) + JacksOf(L, s))
    requires forall k :: k in L && k != a && k != b ==> K[k] == L[k]
    requires ChangedBoth(K, st, su, t, s)
    requires x in L && L[x].owner != Free && x !in JacksOf(L, t) + JacksOf(L, s)
    ensures JackOK(K, su, x)
  {
    var C := JacksOf(L, t) + JacksOf(L, s);
    assert a in C && b in C;
    assert !IsInner(K, t, x) && !IsInner(K, s, x) by {
      if IsInner(K, t, x) { InnerOwners(K, L, t, x); }
      if IsInner(K, s, x) { InnerOwners(K, L, s, x); }
    }
    if L[x].owner.OfHub? {
      var id := L[x].owner.hub.id;
      if Has(t, HubMark(id)) {
        var k := HubEntry(L, a, t, id);
        assert Linked(L, k, x) && k in C;
      } else if Has(s, HubMark(id)) {
        var k := HubEntry(L, b, s, id);
        assert Linked(L, k, x) && k in C;
      }
    }
    OutsideOK(L, st, K, su, C, x);
  }

  /** What a jack's tree and what is beyond it must be like for all its jacks to be in order. */
  ghost predicate Ready(K: Links, su: Tallies, a: VNetJack, t: Side, u: Slot) {
    var whole :=
      && Shape(K, a, t) && UpShape(K, a, u)
      && InOK(su, t) && Settled(K, su, t, Whole(AllPorts, t, u), SlotTally(AllPorts, u))
      && forall m :: Whole(Occurrences(m), t, u) <= 1;
    whole
  }

  lemma JackAfter(L: Links, st: Tallies, K: Links, su: Tallies, a: VNetJack, t: Side, u: Slot, b: VNetJack, s: Side,
                  v: Slot, x: VNetJack)
    requires IsForest(L, st) && Wired(K) && SameOwners(L, K) && TwoSides(K, a, t, b, s)
    requires Shape(L, a, t) && Shape(L, b, s)
    requires Closed(L, JacksOf(L, t) + JacksOf(L, s))
    requires forall k :: k in L && k != a && k != b ==> K[k] == L[k]
    requires ChangedBoth(K, st, su, t, s) && Ready(K, su, a, t, u) && Ready(K, su, b, s, v)
    requires x in K && K[x].owner != Free
    ensures JackOK(K, su, x)
  {
    hide IsForest, Shape, Settled, InOK, Closed, Wired, JackOK, TwoSides, ChangedBoth;
    if InTree(K, t, x) {
      InsideOK(K, su, a, t, u, x);
    } else if InTree(K, s, x) {
      InsideOK(K, su, b, s, v, x);
    } else {
      if IsInner(L, t, x) { InnerOwners(L, K, t, x); }
      if IsInner(L, s, x) { InnerOwners(L, K, s, x); }
      RestOK(L, st, K, su, a, t, b, s, x);
    }
  }

  lemma HeardReady(K: Links, su: Tallies, a: VNetJack, t: Side, u: Slot)
    requires Heard(K, su, a, t) && Shape(K, a, t) && UpShape(K, a, u)
    requires forall m :: Whole(Occurrences(m), t, u) <= 1
    requires Beyond(K, su, a) == SlotTally(AllPorts, u)
    ensures Ready(K, su, a, t, u)
  {}

  lemma JoinForest(L: Links, st: Tallies, a: VNetJack, b: VNetJack, t: Side, s: Side, su: Tallies)
    requires IsForest(L, st) && a in L && b in L && a != b
    requires L[a].owner != Free && L[b].owner != Free && L[a].peer == null && L[b].peer == null
    requires HasTree(L, a) && HasTree(L, b) && t == TreeOf(L, a) && s == TreeOf(L, b) && Apart(t, s)
    requires Heard(Join(L, a, b), su, a, t) && Heard(Join(L, a, b), su, b, s)
    requires ChangedBoth(Join(L, a, b), st, su, t, s)
    ensures IsForest(Join(L, a, b), su)
  {
    hide Shape, Settled, Closed, JackOK;
    var K := Join(L, a, b);
    assert JackOK(L, st, a) && JackOK(L, st, b);
    JoinSides(L, st, a, b);
    JoinShapes(L, st, a, b);
    JoinClosed(L, st, a);
    JoinClosed(L, st, b);
    ClosedBoth(L, JacksOf(L, t), JacksOf(L, s));
    forall m ensures Whole(Occurrences(m), s, Sub(t)) <= 1 { assert Whole(Occurrences(m), t, Sub(s)) <= 1; }
    HeardReady(K, su, a, t, Sub(s));
    HeardReady(K, su, b, s, Sub(t));
    forall x | x in K && K[x].owner != Free ensures JackOK(K, su, x) {
      JackAfter(L, st, K, su, a, t, Sub(s), b, s, Sub(t), x);
    }
  }

  lemma ClosedBoth(L: Links, C: set<VNetJack>, D: set<VNetJack>)
    requires Closed(L, C) && Closed(L, D)
    ensures Closed(L, C + D)
  {}

  lemma CutForest(L: Links, st: Tallies, a: VNetJack, t: Side, s: Side, su: Tallies)
    requires IsForest(L, st) && a in L && L[a].owner != Free && L[a].peer != null && L[a].peer in L
    requires HasTree(L, a) && HasTree(L, L[a].peer) && t == TreeOf(L, a) && s == TreeOf(L, L[a].peer)
    requires Heard(Cut(L, a), su, a, t) && Heard(Cut(L, a), su, L[a].peer, s)
    requires ChangedBoth(Cut(L, a), st, su, t, s)
    ensures IsForest(Cut(L, a), su)
  {
    hide Shape, Settled, Closed, JackOK;
    var K, b := Cut(L, a), L[a].peer;
    CutSides(L, st, a);
    CutShapes(L, st, a);
    CutClosed(L, st, a);
    forall m ensures Whole(Occurrences(m), t, Empty) <= 1 && Whole(Occurrences(m), s, Empty) <= 1 {
      assert Tally(Occurrences(m), t) <= 1 && Tally(Occurrences(m), s) <= 1;
    }
    HeardReady(K, su, a, t, Empty);
    HeardReady(K, su, b, s, Empty);
    forall x | x in K && K[x].owner != Free ensures JackOK(K, su, x) {
      JackAfter(L, st, K, su, a, t, Empty, b, s, Empty, x);
    }
  }
}
