/** Bookkeeping for one hub's share of the two recursive walks: pushing port counts through a
    tree, and marking its hubs and interface names. */
module Propagation {
  import opened Jacks
  import opened SideTrees
  import opened Forest

  // ----- Pushing counts -----

  /** What pushing news into t may have changed. */
  ghost predicate Changed(L: Links, st: Tallies, su: Tallies, t: Side) {
    var whole :=
      && su.c.Keys == st.c.Keys && su.tt.Keys == st.tt.Keys && su.wants == st.wants
      && (forall k :: k in st.c && !IsInner(L, t, k) ==> su.c[k] == st.c[k])
      && (forall h :: h in st.tt && !Has(t, HubMark(h.id)) ==> su.tt[h] == st.tt[h])
      && (forall k :: k in L && !IsRoot(t, k) ==> (k in su.e <==> k in st.e));
    whole
  }

  // The predicates below are kept whole by their let, and name facts that the driver's methods
  // pass along without looking inside.

  /** t is the tree behind j. */
  ghost predicate TreeAt(L: Links, j: VNetJack, t: Side) {
    var whole := Wired(L) && Shape(L, j, t) && Distinct(t);
    whole
  }

  /** t is settled in su, given what j heard from its peer in st. */
  ghost predicate Told(L: Links, st: Tallies, su: Tallies, j: VNetJack, t: Side) {
    var whole := Settled(L, su, t, Total(L, st, j, t), Beyond(L, st, j));
    whole
  }

  /** What is plugged into a slot is a tree. */
  ghost predicate SlotAt(L: Links, j: VNetJack?, s: Slot) {
    var whole := if j == null then s == Empty else s.Sub? && TreeAt(L, j, s.side);
    whole
  }

  /** The effect of telling j, with s behind it, in st. */
  ghost predicate SlotTold(L: Links, st: Tallies, su: Tallies, j: VNetJack?, s: Slot) {
    var whole := if j == null then su == st else s.Sub? && Changed(L, st, su, s.side) && Told(L, st, su, j, s.side);
    whole
  }

  /** The hub of node t, told by its jack j, has dealt with its first n jacks: st is how it began,
      su how things are. */
  ghost predicate Progress(L: Links, st: Tallies, su: Tallies, j: VNetJack, t: Side, n: nat) {
    var whole :=
      && TreeAt(L, j, t) && t.Node? && |t.kids| == |t.hub.jack| == NUM_JACKS_PER_HUB && n <= NUM_JACKS_PER_HUB
      && st.c.Keys == L.Keys && InOK(st, t) && Changed(L, st, su, t)
      && SettledUpTo(L, su, t, Total(L, st, j, t), n);
    whole
  }

  /** The first n kids of node t are settled. */
  ghost predicate SettledUpTo(L: Links, st: Tallies, t: Side, total: int, n: nat)
    requires t.Node? && n <= |t.kids| == |t.hub.jack|
  {
    var whole :=
      && t.hub in st.tt && st.tt[t.hub] == total
      && forall i :: 0 <= i < n ==> SlotSettled(L, st, t, total, i);
    whole
  }

  ghost predicate SlotSettled(L: Links, st: Tallies, t: Side, total: int, i: nat)
    requires t.Node? && i < |t.kids| == |t.hub.jack|
  {
    && (IsHere(L, t, t.hub.jack[i]) ==>
          t.hub.jack[i] in st.c && st.c[t.hub.jack[i]] == total - SlotTally(AllPorts, t.kids[i]))
    && (t.kids[i].Sub? ==> Settled(L, st, t.kids[i].side, total, total - SlotTally(AllPorts, t.kids[i])))
  }

  lemma SettledAll(L: Links, st: Tallies, t: Side, total: int, up: int)
    requires t.Node? && |t.kids| == |t.hub.jack| && SettledUpTo(L, st, t, total, |t.kids|)
    ensures Settled(L, st, t, total, up)
  {
    forall i | 0 <= i < |t.kids|
      ensures IsHere(L, t, t.hub.jack[i]) ==>
        t.hub.jack[i] in st.c && st.c[t.hub.jack[i]] == total - SlotTally(AllPorts, t.kids[i])
      ensures t.kids[i].Sub? ==> Settled(L, st, t.kids[i].side, total, total - SlotTally(AllPorts, t.kids[i]))
    {
      assert SlotSettled(L, st, t, total, i);
    }
  }

  lemma ChangedIn(L: Links, j: VNetJack, t: Side, st: Tallies, su: Tallies)
    requires Shape(L, j, t) && Distinct(t) && InOK(st, t) && Changed(L, st, su, t) && L.Keys == st.c.Keys
    ensures InOK(su, t)
  {
    forall k | k in st.c && IsRoot(t, k) ensures su.c[k] == st.c[k] { RootNotInner(L, j, t, k); }
    InFrame(st, su, t);
  }

  lemma ChangedKid(L: Links, t: Side, a: nat, st: Tallies, su: Tallies)
    requires t.Node? && a < |t.kids| && t.kids[a].Sub? && Changed(L, st, su, t.kids[a].side)
    ensures Changed(L, st, su, t)
  {
    forall h | h in st.tt && !Has(t, HubMark(h.id)) ensures su.tt[h] == st.tt[h] {
      if Has(t.kids[a].side, HubMark(h.id)) { KidHas(t, a, HubMark(h.id)); }
    }
  }

  lemma ChangedThen(L: Links, t: Side, st: Tallies, su: Tallies, sv: Tallies)
    requires Changed(L, st, su, t) && Changed(L, su, sv, t)
    ensures Changed(L, st, sv, t)
  {}

  /** A change confined to kid a does not disturb another kid. */
  lemma OtherKidAgrees(L: Links, j: VNetJack, t: Side, a: nat, b: nat, st: Tallies, su: Tallies)
    requires Wired(L) && Shape(L, j, t) && Distinct(t) && t.Node? && a < |t.kids| && b < |t.kids| && a != b
    requires t.kids[a].Sub? && t.kids[b].Sub? && Changed(L, st, su, t.kids[a].side)
    ensures AgreeOn(L, st, su, t.kids[b].side)
  {
    DistinctKid(t, b);
    var ta, tb := t.kids[a].side, t.kids[b].side;
    forall k | k in st.c && IsInner(L, tb, k) ensures su.c[k] == st.c[k] {
      InnerOneKid(L, t, b, a, k);
    }
    forall h | h in st.tt && Has(tb, HubMark(h.id)) ensures su.tt[h] == st.tt[h] {}
    forall k | k in L && IsRoot(tb, k) ensures k in su.e <==> k in st.e {
      if IsRoot(ta, k) { RootOneKid(L, j, t, b, a, k); }
    }
  }

  lemma InnerOneKid(L: Links, t: Side, a: nat, b: nat, k: VNetJack)
    requires Distinct(t) && t.Node? && a < |t.kids| && b < |t.kids| && a != b
    requires t.kids[a].Sub? && t.kids[b].Sub? && IsInner(L, t.kids[a].side, k)
    ensures !IsInner(L, t.kids[b].side, k)
  {
    DistinctKid(t, a);
    InnerHub(L, t.kids[a].side, k);
    if IsInner(L, t.kids[b].side, k) { InnerHub(L, t.kids[b].side, k); }
  }

  /** No jack is an entry or leaf jack of two kids. */
  lemma RootOneKid(L: Links, j: VNetJack, t: Side, a: nat, b: nat, k: VNetJack)
    requires Wired(L) && Shape(L, j, t) && Distinct(t) && t.Node? && a < |t.kids| && b < |t.kids|
    requires t.kids[a].Sub? && t.kids[b].Sub? && IsRoot(t.kids[a].side, k) && IsRoot(t.kids[b].side, k)
    ensures a == b
  {
    KidShape(L, j, t, a);
    KidShape(L, j, t, b);
    DistinctKid(t, a);
    DistinctKid(t, b);
    RootPeer(L, t.kids[a].side.jack, t.kids[a].side, k);
    RootPeer(L, t.kids[b].side.jack, t.kids[b].side, k);
  }

  /** An entry or leaf jack below the top is plugged into a hub of the tree. */
  lemma {:induction false} RootPeer(L: Links, j: VNetJack, t: Side, k: VNetJack)
    requires Wired(L) && Shape(L, j, t) && IsRoot(t, k)
    ensures k in L && (k != j ==>
      && L[k].peer != null && L[k].peer in L && L[L[k].peer].owner.OfHub?
      && Has(t, HubMark(L[L[k].peer].owner.hub.id)))
    decreases t
  {
    if k != j {
      var i :| 0 <= i < |t.kids| && t.kids[i].Sub? && IsRoot(t.kids[i].side, k);
      KidShape(L, j, t, i);
      if k == t.kids[i].side.jack {
      } else {
        RootPeer(L, t.kids[i].side.jack, t.kids[i].side, k);
        KidHas(t, i, HubMark(L[L[k].peer].owner.hub.id));
      }
    }
  }

  /** The peer of an inner jack is an entry or leaf jack of a kid. */
  lemma {:induction false} InnerPeer(L: Links, j: VNetJack, t: Side, k: VNetJack) returns (a: nat)
    requires Shape(L, j, t) && IsInner(L, t, k) && k in L && L[k].peer != null
    ensures a < |t.kids| && t.kids[a].Sub? && IsRoot(t.kids[a].side, L[k].peer)
    decreases t
  {
    if IsHere(L, t, k) {
      a := k.index;
      KidShape(L, j, t, a);
    } else {
      a :| 0 <= a < |t.kids| && t.kids[a].Sub? && IsInner(L, t.kids[a].side, k);
      KidShape(L, j, t, a);
      var b := InnerPeer(L, t.kids[a].side.jack, t.kids[a].side, k);
      assert IsRoot(t.kids[a].side, L[k].peer);
    }
  }

  /** Pushing news into t does not change what t's entry jack hears from its peer. */
  lemma PeerNotInner(L: Links, j: VNetJack, t: Side)
    requires Wired(L) && j in L && L[j].peer != null && Shape(L, j, t) && Distinct(t)
    ensures !IsInner(L, t, L[j].peer)
  {
    if IsInner(L, t, L[j].peer) {
      var a := InnerPeer(L, j, t, L[j].peer);
      KidShape(L, j, t, a);
      DistinctKid(t, a);
      RootOwner(L, t.kids[a].side.jack, t.kids[a].side, j);
    }
  }

  /** Setting the count of jack a of t's own hub keeps the first n slots settled, for n <= a,
      and settles slot a's count. */
  lemma HereKept(L: Links, j: VNetJack, t: Side, total: int, a: nat, st: Tallies, su: Tallies)
    requires Wired(L) && Shape(L, j, t) && Distinct(t) && t.Node? && a < |t.kids| && IsHere(L, t, t.hub.jack[a])
    requires SettledUpTo(L, st, t, total, a) && t.hub.jack[a] in st.c
    requires su == st.(c := su.c) && su.c.Keys == st.c.Keys
    requires forall k :: k in st.c && k != t.hub.jack[a] ==> su.c[k] == st.c[k]
    ensures SettledUpTo(L, su, t, total, a)
    ensures Changed(L, st, su, t)
  {
    forall i | 0 <= i < a ensures SlotSettled(L, su, t, total, i) {
      assert SlotSettled(L, st, t, total, i);
      KidShape(L, j, t, i);
      KidShape(L, j, t, a);
      if t.kids[i].Sub? {
        DistinctKid(t, i);
        forall k | k in st.c && IsInner(L, t.kids[i].side, k) ensures su.c[k] == st.c[k] {
          InnerHub(L, t.kids[i].side, k);
        }
        SettledFrame(L, st, su, t.kids[i].side.jack, t.kids[i].side, total, total - SlotTally(AllPorts, t.kids[i]));
      }
    }
  }

  /** A change confined to kid a keeps the first a slots settled. */
  lemma KidKept(L: Links, j: VNetJack, t: Side, total: int, a: nat, st: Tallies, su: Tallies)
    requires Wired(L) && Shape(L, j, t) && Distinct(t) && t.Node? && a < |t.kids| && t.kids[a].Sub?
    requires SettledUpTo(L, st, t, total, a) && Changed(L, st, su, t.kids[a].side)
    ensures SettledUpTo(L, su, t, total, a)
    ensures forall i :: 0 <= i < |t.kids| && IsHere(L, t, t.hub.jack[i]) && t.hub.jack[i] in st.c ==>
      su.c[t.hub.jack[i]] == st.c[t.hub.jack[i]]
  {
    DistinctKid(t, a);
    forall i | 0 <= i < |t.kids| && IsHere(L, t, t.hub.jack[i])
      ensures !IsInner(L, t.kids[a].side, t.hub.jack[i])
    {
      if IsInner(L, t.kids[a].side, t.hub.jack[i]) { InnerHub(L, t.kids[a].side, t.hub.jack[i]); }
    }
    forall i | 0 <= i < a ensures SlotSettled(L, su, t, total, i) {
      assert SlotSettled(L, st, t, total, i);
      KidShape(L, j, t, i);
      if t.kids[i].Sub? {
        OtherKidAgrees(L, j, t, a, i, st, su);
        SettledFrame(L, st, su, t.kids[i].side.jack, t.kids[i].side, total, total - SlotTally(AllPorts, t.kids[i]));
      }
    }
  }

  /** The number of ports that j hears of from its peer. */
  ghost function Beyond(L: Links, st: Tallies, j: VNetJack?): int {
    if j in L && L[j].peer != null && L[j].peer in st.c then st.c[L[j].peer] else 0
  }

  /** Through another of the hub's jacks, j's hub hears of what is plugged in there. */
  lemma BeyondSlot(L: Links, j: VNetJack, t: Side, a: nat, st: Tallies)
    requires Wired(L) && Shape(L, j, t) && t.Node? && a < |t.kids| && InOK(st, t)
    requires a != j.index && L[t.hub.jack[a]].owner == OfHub(t.hub)
    ensures Beyond(L, st, t.hub.jack[a]) == SlotTally(AllPorts, t.kids[a])
  {
    KidShape(L, j, t, a);
    if t.kids[a].Sub? { assert InOK(st, t.kids[a].side); }
  }

  /** What the entry jack of kid a hears of is the count at jack a. */
  lemma BeyondKid(L: Links, j: VNetJack, t: Side, a: nat, st: Tallies)
    requires Wired(L) && Shape(L, j, t) && t.Node? && a < |t.kids| && t.kids[a].Sub? && t.hub.jack[a] in st.c
    ensures Beyond(L, st, t.kids[a].side.jack) == st.c[t.hub.jack[a]]
    ensures Ports(t.kids[a].side) == SlotTally(AllPorts, t.kids[a])
  {
    KidShape(L, j, t, a);
  }

  /** All the ports of a component that has t behind j. */
  ghost function Total(L: Links, st: Tallies, j: VNetJack, t: Side): int {
    Ports(t) + Beyond(L, st, j)
  }

  lemma BeyondKept(L: Links, j: VNetJack, t: Side, st: Tallies, su: Tallies)
    requires Wired(L) && Shape(L, j, t) && Distinct(t) && Changed(L, st, su, t)
    ensures Beyond(L, su, j) == Beyond(L, st, j)
  {
    if L[j].peer != null { PeerNotInner(L, j, t); }
  }

  lemma TotalChanged(L: Links, t: Side, st: Tallies, su: Tallies)
    requires t.Node? && t.hub in st.tt && su == st.(tt := su.tt) && su.tt.Keys == st.tt.Keys
    requires forall h :: h in st.tt && h != t.hub ==> su.tt[h] == st.tt[h]
    ensures Changed(L, st, su, t)
  {
    assert Has(t, HubMark(t.hub.id));
  }

  lemma HubHere(L: Links, j: VNetJack, t: Side, a: nat)
    requires TreeAt(L, j, t) && t.Node? && a < |t.kids|
    ensures j in L && L[j].owner == OfHub(t.hub) && a < |t.hub.jack| && t.hub.jack[a] in L
    ensures L[t.hub.jack[a]].owner == Free || L[t.hub.jack[a]].owner == OfHub(t.hub)
  {}

  /** One round of the hub's summing loop. */
  lemma SumStep(L: Links, j: VNetJack, t: Side, a: nat, st: Tallies)
    requires TreeAt(L, j, t) && t.Node? && a < NUM_JACKS_PER_HUB && InOK(st, t)
    ensures a < |t.kids| == NUM_JACKS_PER_HUB && a < |t.hub.jack| && t.hub.jack[a] in L
    ensures L[t.hub.jack[a]].peer != null ==> L[t.hub.jack[a]].peer in L
    ensures a == j.index ==> t.hub.jack[a] == j && SlotTally(AllPorts, t.kids[a]) == 0
    ensures L[t.hub.jack[a]].owner == Free ==> SlotTally(AllPorts, t.kids[a]) == 0
    ensures a != j.index && L[t.hub.jack[a]].owner != Free ==>
      Beyond(L, st, t.hub.jack[a]) == SlotTally(AllPorts, t.kids[a])
  {
    KidShape(L, j, t, a);
    if a != j.index && L[t.hub.jack[a]].owner != Free { BeyondSlot(L, j, t, a, st); }
  }

  lemma SumDone(L: Links, j: VNetJack, t: Side, st: Tallies, su: Tallies)
    requires TreeAt(L, j, t) && t.Node? && InOK(st, t) && st.c.Keys == L.Keys && t.hub in st.tt
    requires su == st.(tt := st.tt[t.hub := TallyUpTo(AllPorts, t.kids, |t.kids|) + Beyond(L, st, j)])
    ensures Progress(L, st, su, j, t, 0)
  {
    TotalChanged(L, t, st, su);
  }

  /** A slot with nothing in it, or the entry jack's own, needs no news. */
  lemma QuietSlot(L: Links, j: VNetJack, t: Side, a: nat, st: Tallies, su: Tallies)
    requires Progress(L, st, su, j, t, a) && a < NUM_JACKS_PER_HUB
    requires a == j.index || L[t.hub.jack[a]].owner == Free
    ensures Progress(L, st, su, j, t, a + 1)
  {
    hide InOK, Settled, IsInner;
    KidShape(L, j, t, a);
    assert SlotSettled(L, su, t, Total(L, st, j, t), a);
  }

  /** What the hub computes for its entry jack is the count that jack already has, so the
      mismatch that the code logs never happens. */
  lemma NoMismatch(L: Links, j: VNetJack, t: Side, a: nat, st: Tallies, su: Tallies)
    requires Progress(L, st, su, j, t, a)
    ensures su.c[j] == su.tt[t.hub] - Beyond(L, su, j)
  {
    BeyondKept(L, j, t, st, su);
    ChangedIn(L, j, t, st, su);
  }

  /** What the hub computes for another allocated jack. */
  lemma NewCount(L: Links, j: VNetJack, t: Side, a: nat, st: Tallies, su: Tallies)
    requires Progress(L, st, su, j, t, a) && a < NUM_JACKS_PER_HUB
    requires a != j.index && L[t.hub.jack[a]].owner == OfHub(t.hub)
    ensures su.tt[t.hub] - Beyond(L, su, t.hub.jack[a]) == Total(L, st, j, t) - SlotTally(AllPorts, t.kids[a])
    ensures IsHere(L, t, t.hub.jack[a])
  {
    ChangedIn(L, j, t, st, su);
    BeyondSlot(L, j, t, a, su);
    KidShape(L, j, t, a);
  }

  /** The hub that is dealing with its jack a. */
  lemma ProgressHere(L: Links, j: VNetJack, t: Side, a: nat, st: Tallies, su: Tallies)
    requires Progress(L, st, su, j, t, a) && a < NUM_JACKS_PER_HUB
    ensures t.Node? && a < |t.kids| && a < |t.hub.jack| && t.hub.jack[a] in L && t.hub in su.tt
    ensures j in L && L[j].owner == OfHub(t.hub)
    ensures L[t.hub.jack[a]].owner == Free || L[t.hub.jack[a]].owner == OfHub(t.hub)
    ensures L[t.hub.jack[a]].peer != null ==> L[t.hub.jack[a]].peer in L
    ensures a == j.index ==> t.hub.jack[a] == j
  {
    HubHere(L, j, t, a);
  }

  /** Setting the count of jack a itself. */
  lemma HereProgress(L: Links, j: VNetJack, t: Side, a: nat, n: int, st: Tallies, su: Tallies, su': Tallies)
    requires Progress(L, st, su, j, t, a) && a < NUM_JACKS_PER_HUB && IsHere(L, t, t.hub.jack[a])
    requires su' == su.(c := su.c[t.hub.jack[a] := n])
    ensures Progress(L, st, su', j, t, a)
  {
    HereKept(L, j, t, Total(L, st, j, t), a, su, su');
    ChangedThen(L, t, st, su, su');
  }

  /** What telling the peer of jack a needs. */
  lemma TellReady(L: Links, j: VNetJack, t: Side, a: nat, st: Tallies, su: Tallies)
    requires Progress(L, st, su, j, t, a) && a < NUM_JACKS_PER_HUB && IsHere(L, t, t.hub.jack[a])
    ensures SlotAt(L, L[t.hub.jack[a]].peer, t.kids[a])
    ensures t.kids[a].Sub? ==> InOK(su, t.kids[a].side)
  {
    KidShape(L, j, t, a);
    ChangedIn(L, j, t, st, su);
    if t.kids[a].Sub? { DistinctKid(t, a); }
  }

  /** One round of the hub's loop: in su the count of jack a is n, sv is after its peer has been
      told. */
  lemma BusySlot(L: Links, j: VNetJack, t: Side, a: nat, n: int, st: Tallies, su: Tallies, sv: Tallies)
    requires Progress(L, st, su, j, t, a) && a < NUM_JACKS_PER_HUB && IsHere(L, t, t.hub.jack[a])
    requires t.hub.jack[a] in su.c && su.c[t.hub.jack[a]] == n
    requires n == Total(L, st, j, t) - SlotTally(AllPorts, t.kids[a])
    requires SlotTold(L, su, sv, L[t.hub.jack[a]].peer, t.kids[a])
    ensures Progress(L, st, sv, j, t, a + 1)
  {
    hide InOK, Shape, Settled, IsInner;
    KidShape(L, j, t, a);
    if t.kids[a].Sub? {
      BusyKid(L, j, t, Total(L, st, j, t), a, n, su, sv);
      ChangedKid(L, t, a, su, sv);
      ChangedThen(L, t, st, su, sv);
    } else {
      assert SlotSettled(L, sv, t, Total(L, st, j, t), a);
    }
  }

  lemma BusyKid(L: Links, j: VNetJack, t: Side, total: int, a: nat, n: int, st1: Tallies, st2: Tallies)
    requires TreeAt(L, j, t) && t.Node? && a < |t.kids| && t.kids[a].Sub?
    requires IsHere(L, t, t.hub.jack[a]) && t.hub.jack[a] in st1.c && st1.c[t.hub.jack[a]] == n
    requires SettledUpTo(L, st1, t, total, a) && n == total - SlotTally(AllPorts, t.kids[a])
    requires Changed(L, st1, st2, t.kids[a].side) && Told(L, st1, st2, t.kids[a].side.jack, t.kids[a].side)
    ensures SettledUpTo(L, st2, t, total, a + 1)
  {
    BeyondKid(L, j, t, a, st1);
    KidKept(L, j, t, total, a, st1, st2);
    assert SlotSettled(L, st2, t, total, a);
  }

  /** When all jacks are dealt with, the tree is settled. */
  lemma ProgressDone(L: Links, j: VNetJack, t: Side, st: Tallies, su: Tallies)
    requires Progress(L, st, su, j, t, NUM_JACKS_PER_HUB)
    ensures Changed(L, st, su, t) && Told(L, st, su, j, t)
  {
    SettledAll(L, su, t, Total(L, st, j, t), Beyond(L, st, j));
  }

  // ----- Marking -----

  ghost function One(b: bool): nat { if b then 1 else 0 }

  /** Nothing in s occurs twice, or is in M already. */
  ghost predicate Unseen(s: Slot, M: set<Mark>) {
    forall m :: SlotTally(Occurrences(m), s) + One(m in M) <= 1
  }

  /** The same for a node's hub and its first n kids. */
  ghost predicate UnseenUpTo(t: Side, M: set<Mark>, n: nat)
    requires t.Node? && n <= |t.kids|
  {
    forall m :: OwnerTally(Occurrences(m), OfHub(t.hub)) + TallyUpTo(Occurrences(m), t.kids, n) + One(m in M) <= 1
  }

  /** N' is N and the marks of s. */
  ghost predicate Extends(N: set<Mark>, s: Slot, N': set<Mark>) {
    forall m :: m in N' <==> m in N || SlotHas(s, m)
  }

  ghost predicate SeenUpTo(t: Side, M: set<Mark>, n: nat, N: set<Mark>)
    requires t.Node? && n <= |t.kids|
  {
    forall m :: m in N <==> m in M || m == HubMark(t.hub.id) || TallyUpTo(Occurrences(m), t.kids, n) > 0
  }

  lemma {:induction false} PrefixTally(q: Quantity, kids: seq<Slot>, n: nat, k: nat)
    requires n <= k <= |kids|
    ensures TallyUpTo(q, kids, n) <= TallyUpTo(q, kids, k)
    decreases k
  {
    if n < k { PrefixTally(q, kids, n, k - 1); }
  }

  /** A kid repeats something marked so far iff the node as a whole does so by then. */
  lemma UnseenStep(t: Side, M: set<Mark>, n: nat, N: set<Mark>)
    requires t.Node? && n < |t.kids| && UnseenUpTo(t, M, n) && SeenUpTo(t, M, n, N)
    ensures Unseen(t.kids[n], N) ==> UnseenUpTo(t, M, n + 1)
    ensures !Unseen(t.kids[n], N) ==> !Unseen(Sub(t), M)
  {
    if Unseen(t.kids[n], N) {
      forall m
        ensures OwnerTally(Occurrences(m), OfHub(t.hub)) + TallyUpTo(Occurrences(m), t.kids, n + 1) + One(m in M) <= 1
      {
        assert SlotTally(Occurrences(m), t.kids[n]) + One(m in N) <= 1;
      }
    } else {
      var m :| SlotTally(Occurrences(m), t.kids[n]) + One(m in N) > 1;
      PrefixTally(Occurrences(m), t.kids, n + 1, |t.kids|);
      assert SlotTally(Occurrences(m), Sub(t)) + One(m in M) > 1;
    }
  }

  lemma UnseenAll(t: Side, M: set<Mark>)
    requires t.Node?
    ensures UnseenUpTo(t, M, |t.kids|) <==> Unseen(Sub(t), M)
  {
    if UnseenUpTo(t, M, |t.kids|) {
      forall m ensures SlotTally(Occurrences(m), Sub(t)) + One(m in M) <= 1 {
        var q := Occurrences(m);
        assert OwnerTally(q, OfHub(t.hub)) + TallyUpTo(q, t.kids, |t.kids|) + One(m in M) <= 1;
      }
    } else {
      var m :| OwnerTally(Occurrences(m), OfHub(t.hub)) + TallyUpTo(Occurrences(m), t.kids, |t.kids|) + One(m in M) > 1;
      assert SlotTally(Occurrences(m), Sub(t)) + One(m in M) > 1;
    }
  }

  lemma SeenStep(t: Side, M: set<Mark>, n: nat, N: set<Mark>, N': set<Mark>)
    requires t.Node? && n < |t.kids| && SeenUpTo(t, M, n, N)
    requires Extends(N, t.kids[n], N')
    ensures SeenUpTo(t, M, n + 1, N')
  {}

  lemma SeenAll(t: Side, M: set<Mark>, N: set<Mark>)
    requires t.Node? && SeenUpTo(t, M, |t.kids|, N)
    ensures Extends(M, Sub(t), N)
  {
    forall m
      ensures m in N <==> m in M || SlotHas(Sub(t), m)
    {
      assert m in N <==> m in M || m == HubMark(t.hub.id) || TallyUpTo(Occurrences(m), t.kids, |t.kids|) > 0;
      assert SlotTally(Occurrences(m), Sub(t)) == Tally(Occurrences(m), t);
      var q := Occurrences(m);
      assert Tally(q, t) == OwnerTally(q, OfHub(t.hub)) + TallyUpTo(q, t.kids, |t.kids|);
    }
  }

  /** A second walk, after a first one that marked t, finds nothing iff s is distinct and apart. */
  lemma SecondWalk(t: Side, s: Side, M: set<Mark>)
    requires Extends({}, Sub(t), M) && Distinct(s)
    ensures Unseen(Sub(s), M) <==> Apart(t, s)
  {
    if Unseen(Sub(s), M) {
      forall m ensures !(Has(t, m) && Has(s, m)) {
        assert SlotTally(Occurrences(m), Sub(s)) + One(m in M) <= 1;
        assert m in M <==> m in {} || SlotHas(Sub(t), m);
      }
    } else {
      var m :| SlotTally(Occurrences(m), Sub(s)) + One(m in M) > 1;
      assert Tally(Occurrences(m), s) <= 1;
      assert m in M <==> m in {} || SlotHas(Sub(t), m);
      assert Has(t, m) && Has(s, m);
    }
  }
}
