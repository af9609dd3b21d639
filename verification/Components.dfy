/** The forest invariant and the trees behind jacks, said again in terms of reachability alone:
    what a reader of the wiring can check without knowing about trees. */
module Components {
  import opened Jacks
  import opened SideTrees
  import opened Forest
  import opened Propagation
  import opened Rewiring

  /** What can be reached from a in at most n steps. */
  ghost function Steps(L: Links, a: VNetJack, n: nat): set<VNetJack>
    decreases n
  {
    if n == 0 then {a}
    else
      var near := Steps(L, a, n - 1);
      near + set x | x in L && exists y :: y in near && Linked(L, y, x)
  }

  ghost predicate Connected(L: Links, a: VNetJack, b: VNetJack) {
    exists n: nat :: b in Steps(L, a, n)
  }

  lemma ConnectedStep(L: Links, a: VNetJack, b: VNetJack, c: VNetJack)
    requires Connected(L, a, b) && Linked(L, b, c)
    ensures Connected(L, a, c)
  {
    var n: nat :| b in Steps(L, a, n);
    assert c in Steps(L, a, n + 1);
  }

  lemma {:induction false} StepsClosed(L: Links, C: set<VNetJack>, a: VNetJack, n: nat)
    requires Closed(L, C) && a in C
    ensures Steps(L, a, n) <= C
    decreases n
  {
    if n > 0 { StepsClosed(L, C, a, n - 1); }
  }

  lemma {:induction false} TreeReached(L: Links, a: VNetJack, j: VNetJack, t: Side, x: VNetJack)
    requires Wired(L) && Shape(L, j, t) && Connected(L, a, j) && InTree(L, t, x)
    ensures Connected(L, a, x)
    decreases t
  {
    if x == j {
    } else if IsHere(L, t, x) {
      ConnectedStep(L, a, j, x);
    } else {
      var i :| 0 <= i < |t.kids| && t.kids[i].Sub? && InTree(L, t.kids[i].side, x);
      KidShape(L, j, t, i);
      ConnectedStep(L, a, j, t.hub.jack[i]);
      ConnectedStep(L, a, t.hub.jack[i], t.kids[i].side.jack);
      TreeReached(L, a, t.kids[i].side.jack, t.kids[i].side, x);
    }
  }

  /** The tree behind an unplugged jack is its whole component. */
  lemma ComponentIsTree(L: Links, a: VNetJack, t: Side)
    requires Wired(L) && Shape(L, a, t) && L[a].peer == null
    ensures forall x :: x in L ==> (Connected(L, a, x) <==> InTree(L, t, x))
  {
    var C := JacksOf(L, t);
    forall k, b | k in C && b in L && Linked(L, k, b) ensures b in C {
      TreeClosed(L, a, t, k, b);
    }
    assert a in Steps(L, a, 0);
    forall x | x in L ensures Connected(L, a, x) <==> InTree(L, t, x) {
      if Connected(L, a, x) {
        var n: nat :| x in Steps(L, a, n);
        StepsClosed(L, C, a, n);
      }
      if InTree(L, t, x) { TreeReached(L, a, a, t, x); }
    }
  }

  // ----- When a connect succeeds -----

  /** x and y belong to the same hub, or stand for the same host interface. */
  ghost predicate Clash(o: Owner, p: Owner) {
    (o.OfHub? && p == o) || (exists n: string :: Marks(o, NameMark(n)) && Marks(p, NameMark(n)))
  }

  ghost predicate NothingShared(L: Links, a: VNetJack, b: VNetJack) {
    forall x, y :: x in L && y in L && Connected(L, a, x) && Connected(L, b, y) ==> !Clash(L[x].owner, L[y].owner)
  }

  /** A mark of a tree comes from one of the tree's entry or leaf jacks. */
  lemma {:induction false} MarkRoot(L: Links, j: VNetJack, t: Side, m: Mark) returns (k: VNetJack)
    requires Shape(L, j, t) && Has(t, m)
    ensures IsRoot(t, k) && k in L && Marks(L[k].owner, m)
    decreases t
  {
    if t.Leaf? || m == HubMark(t.hub.id) {
      k := j;
    } else {
      var i := TallyKid(Occurrences(m), t.kids, |t.kids|);
      KidShape(L, j, t, i);
      k := MarkRoot(L, t.kids[i].side.jack, t.kids[i].side, m);
    }
  }

  lemma InTreeMarks(L: Links, j: VNetJack, t: Side, k: VNetJack, m: Mark)
    requires Wired(L) && Shape(L, j, t) && InTree(L, t, k) && k in L && Marks(L[k].owner, m)
    ensures Has(t, m)
  {
    if IsRoot(t, k) { RootOwner(L, j, t, k); } else { InnerHub(L, t, k); }
  }

  /** The two walks of the cycle check pass iff the components of the two unplugged jacks share
      no hub and no interface name. */
  lemma SeparateIff(L: Links, st: Tallies, a: VNetJack, b: VNetJack)
    requires IsForest(L, st) && a in L && b in L
    requires L[a].owner != Free && L[b].owner != Free && L[a].peer == null && L[b].peer == null
    ensures Separate(L, a, b) <==> NothingShared(L, a, b)
  {
    assert JackOK(L, st, a) && JackOK(L, st, b);
    var t, s := TreeOf(L, a), TreeOf(L, b);
    ComponentIsTree(L, a, t);
    ComponentIsTree(L, b, s);
    if Separate(L, a, b) {
      forall x, y | x in L && y in L && Connected(L, a, x) && Connected(L, b, y)
        ensures !Clash(L[x].owner, L[y].owner)
      {
        if L[x].owner.OfHub? && L[y].owner == L[x].owner {
          InTreeMarks(L, a, t, x, HubMark(L[x].owner.hub.id));
          InTreeMarks(L, b, s, y, HubMark(L[x].owner.hub.id));
        } else if Clash(L[x].owner, L[y].owner) {
          var n :| Marks(L[x].owner, NameMark(n)) && Marks(L[y].owner, NameMark(n));
          InTreeMarks(L, a, t, x, NameMark(n));
          InTreeMarks(L, b, s, y, NameMark(n));
        }
      }
    } else {
      var m :| Has(t, m) && Has(s, m);
      var x := MarkRoot(L, a, t, m);
      var y := MarkRoot(L, b, s, m);
      if m.NameMark? { assert Marks(L[x].owner, NameMark(m.name)) && Marks(L[y].owner, NameMark(m.name)); }
      assert Clash(L[x].owner, L[y].owner);
    }
  }

  // ----- What the counts count -----

  ghost function PortsReached(L: Links, a: VNetJack): set<VNetJack> {
    set p | p in L && IsPort(L[p].owner) && Connected(L, a, p)
  }

  ghost function LeavesUpTo(L: Links, t: Side, n: nat): set<VNetJack>
    requires t.Node? && n <= |t.kids|
  {
    set p | p in L && IsPort(L[p].owner) && exists i :: 0 <= i < n && t.kids[i].Sub? && IsRoot(t.kids[i].side, p)
  }

  ghost function Leaves(L: Links, t: Side): set<VNetJack> {
    set p | p in L && IsPort(L[p].owner) && IsRoot(t, p)
  }

  lemma {:induction false} LeafCount(L: Links, j: VNetJack, t: Side)
    requires TreeAt(L, j, t)
    ensures |Leaves(L, t)| == Ports(t)
    decreases t, 0
  {
    match t {
      case Leaf(_, _) =>
        assert Leaves(L, t) == {j};
      case Node(_, _, kids) =>
        LeafCountUpTo(L, j, t, |kids|);
        assert Leaves(L, t) == LeavesUpTo(L, t, |kids|);
    }
  }

  lemma {:induction false} LeafCountUpTo(L: Links, j: VNetJack, t: Side, n: nat)
    requires TreeAt(L, j, t) && t.Node? && n <= |t.kids|
    ensures |LeavesUpTo(L, t, n)| == TallyUpTo(AllPorts, t.kids, n)
    decreases t.kids, n
  {
    if n == 0 {
      assert LeavesUpTo(L, t, n) == {};
    } else {
      LeafCountUpTo(L, j, t, n - 1);
      if t.kids[n - 1].Sub? {
        KidShape(L, j, t, n - 1);
        DistinctKid(t, n - 1);
        LeafCount(L, t.kids[n - 1].side.jack, t.kids[n - 1].side);
        LeavesSplit(L, j, t, n);
      } else {
        assert LeavesUpTo(L, t, n) == LeavesUpTo(L, t, n - 1);
      }
    }
  }

  lemma LeavesSplit(L: Links, j: VNetJack, t: Side, n: nat)
    requires TreeAt(L, j, t) && t.Node? && 0 < n <= |t.kids| && t.kids[n - 1].Sub?
    ensures |LeavesUpTo(L, t, n)| == |LeavesUpTo(L, t, n - 1)| + |Leaves(L, t.kids[n - 1].side)|
  {
    var kid := t.kids[n - 1].side;
    assert LeavesUpTo(L, t, n) == LeavesUpTo(L, t, n - 1) + Leaves(L, kid);
    forall p | p in Leaves(L, kid) ensures p !in LeavesUpTo(L, t, n - 1) {
      if p in LeavesUpTo(L, t, n - 1) {
        var i :| 0 <= i < n - 1 && t.kids[i].Sub? && IsRoot(t.kids[i].side, p);
        RootOneKid(L, j, t, i, n - 1, p);
      }
    }
  }

  /** A jack's numPorts is the number of ports that can be reached from it with its own link cut. */
  lemma NumPortsIsReachable(L: Links, st: Tallies, x: VNetJack)
    requires IsForest(L, st) && x in L && L[x].owner != Free
    ensures L[x].peer != null ==> L[x].peer in L
    ensures st.c[x] == |PortsReached(Cut(L, x), x)|
  {
    assert JackOK(L, st, x);
    var t, K := TreeOf(L, x), Cut(L, x);
    if L[x].peer != null { CutShapes(L, st, x); }
    forall m ensures Tally(Occurrences(m), t) <= 1 { assert Whole(Occurrences(m), t, UpOf(L, x)) <= 1; }
    ComponentIsTree(K, x, t);
    LeafCount(K, x, t);
    forall p | p in K && IsPort(K[p].owner) ensures p in PortsReached(K, x) <==> p in Leaves(K, t) {
      if IsInner(K, t, p) { InnerHub(K, t, p); }
    }
    assert PortsReached(K, x) == Leaves(K, t);
  }

  // ----- Trees of hubs with distinct names -----

  /** From the hub that a enters, another of its jacks leads to b. */
  ghost predicate Onward(L: Links, a: VNetJack, b: VNetJack) {
    && a in L && b in L && L[a].owner.OfHub?
    && L[b].peer != null && L[b].peer in L && L[b].peer != a && L[L[b].peer].owner == L[a].owner
  }

  /** A walk through the network that never turns back, as the jacks at which it enters. */
  ghost predicate Trail(L: Links, p: seq<VNetJack>) {
    forall i :: 0 <= i < |p| - 1 ==> Onward(L, p[i], p[i + 1])
  }

  lemma {:induction false} TrailStaysIn(L: Links, t: Side, p: seq<VNetJack>, k: nat)
    requires Wired(L) && k < |p| && Trail(L, p) && Shape(L, p[0], t)
    ensures IsRoot(t, p[k])
    decreases k
  {
    if k > 0 {
      assert Onward(L, p[0], p[0 + 1]);
      var i := L[p[1]].peer.index;
      KidShape(L, p[0], t, i);
      assert L[t.hub.jack[i]].peer == p[1];
      TrailRest(L, p);
      TrailStaysIn(L, t.kids[i].side, p[1..], k - 1);
      assert IsRoot(t.kids[i].side, p[k]);
    }
  }

  lemma TrailRest(L: Links, p: seq<VNetJack>)
    requires Trail(L, p) && |p| > 0
    ensures Trail(L, p[1..])
  {
    forall i | 0 <= i < |p[1..]| - 1 ensures Onward(L, p[1..][i], p[1..][i + 1]) {
      assert Onward(L, p[i + 1], p[i + 1 + 1]);
    }
  }

  /** No walk without turning back enters a hub twice: every component is a tree of hubs. */
  lemma {:induction false} NoCycle(L: Links, st: Tallies, p: seq<VNetJack>, i: nat, k: nat)
    requires IsForest(L, st) && Trail(L, p) && i < k < |p|
    requires p[i] in L && p[k] in L && L[p[i]].owner != Free && L[p[k]].owner.OfHub?
    ensures L[p[i]].owner != L[p[k]].owner
    decreases i
  {
    TrailRest(L, p);
    if i > 0 {
      NoCycle(L, st, p[1..], i - 1, k - 1);
    } else {
      assert Onward(L, p[0], p[0 + 1]);
      assert JackOK(L, st, p[0]);
      var t := TreeOf(L, p[0]);
      forall m ensures Tally(Occurrences(m), t) <= 1 { assert Whole(Occurrences(m), t, UpOf(L, p[0])) <= 1; }
      var a := L[p[1]].peer.index;
      KidShape(L, p[0], t, a);
      assert L[t.hub.jack[a]].peer == p[1];
      TrailStaysIn(L, t.kids[a].side, p[1..], k - 1);
      assert p[1..][k - 1] == p[k];
      RootOwner(L, p[1], t.kids[a].side, p[k]);
      DistinctKid(t, a);
      assert Marks(L[p[k]].owner, HubMark(L[p[k]].owner.hub.id));
    }
  }

  /** No two ports of a component stand for the same host interface. */
  lemma NamesDistinct(L: Links, st: Tallies, x: VNetJack, y: VNetJack, n: string)
    requires IsForest(L, st) && x in L && y in L && x != y && Connected(L, x, y)
    requires Marks(L[x].owner, NameMark(n))
    ensures !Marks(L[y].owner, NameMark(n))
  {
    assert JackOK(L, st, x);
    var t, u := TreeOf(L, x), UpOf(L, x);
    assert Whole(Occurrences(NameMark(n)), t, u) <= 1;
    var steps: nat :| y in Steps(L, x, steps);
    if L[x].peer == null {
      ComponentIsTree(L, x, t);
    } else {
      CutShapes(L, st, x);
      CutClosed(L, st, x);
      StepsClosed(L, JacksOf(L, t) + JacksOf(L, u.side), x, steps);
      if Marks(L[y].owner, NameMark(n)) {
        InTreeMarks(L, L[x].peer, u.side, y, NameMark(n));
      }
    }
  }
}
