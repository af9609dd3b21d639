/** Allocating and freeing hub jacks from several threads at once. The hub list is protected by a
    lock, but an allocation gives the lock up while it allocates memory and while it makes the
    jack's proc entry. Each step below is what happens between two such points. */
module HubAllocation {
  import opened Options
  import opened Jacks

  type HubRef = nat

  datatype Hub = Hub(id: HubId, used: seq<bool>)

  /** Where a request stands. A jack that has been handed out is held until it is freed. */
  datatype Request =
    | Idle
    | Missing(id: HubId)
    | Reserved(hub: HubRef, i: nat)
    | Holding(hub: HubRef, i: nat)
    | Freeing(hub: HubRef, i: nat)
    | Disposing(hub: HubRef)

  /** hubs is the list, heap the hubs that have not been deallocated. */
  datatype State = State(hubs: seq<HubRef>, heap: map<HubRef, Hub>, requests: map<nat, Request>)

  datatype Step =
    | Lookup(r: nat, id: HubId)
    | GiveUp(r: nat)
    | Insert(r: nat, newHub: HubRef)
    | ProcFailed(r: nat)
    | HandOut(r: nat)
    | BeginFree(r: nat)
    | EndFree(r: nat)
    | Deallocate(r: nat)

  // ----- The code between two lock-release points -----

  function FindHub(s: State, id: HubId, k: nat): (r: Option<HubRef>)
    requires forall h :: h in s.hubs ==> h in s.heap
    ensures r.Some? ==> r.value in s.hubs && s.heap[r.value].id == id
    ensures r.None? ==> forall j :: k <= j < |s.hubs| ==> s.heap[s.hubs[j]].id != id
    decreases |s.hubs| - k
  {
    if k >= |s.hubs| then None
    else if s.heap[s.hubs[k]].id == id then Some(s.hubs[k])
    else FindHub(s, id, k + 1)
  }

  /** The first jack from i on that is not used. */
  function FirstUnused(used: seq<bool>, i: nat): (r: nat)
    requires i <= |used|
    ensures i <= r <= |used| && (r < |used| ==> !used[r])
    ensures forall j :: i <= j < r ==> used[j]
    decreases |used| - i
  {
    if i == |used| || !used[i] then i else FirstUnused(used, i + 1)
  }

  predicate AnyUsed(used: seq<bool>) {
    exists i :: 0 <= i < |used| && used[i]
  }

  function SetUsed(s: State, h: HubRef, i: nat, u: bool): State
    requires h in s.heap && i < |s.heap[h].used|
  {
    s.(heap := s.heap[h := s.heap[h].(used := s.heap[h].used[i := u])])
  }

  /** The rest of an allocation under the lock: reserve a jack of h, or fail. */
  function Reserve(s: State, r: nat, h: HubRef): State
    requires h in s.heap
  {
    var i := FirstUnused(s.heap[h].used, 0);
    if i == |s.heap[h].used| then s.(requests := s.requests[r := Idle])
    else SetUsed(s, h, i, true).(requests := s.requests[r := Reserved(h, i)])
  }

  function Without(hubs: seq<HubRef>, h: HubRef): (r: seq<HubRef>)
    ensures forall x :: x in r <==> x in hubs && x != h
    ensures |r| <= |hubs|
  {
    if hubs == [] then [] else (if hubs[0] == h then [] else [hubs[0]]) + Without(hubs[1..], h)
  }

  function WithHub(s: State, newHub: HubRef, id: HubId): State {
    s.(hubs := [newHub] + s.hubs, heap := s.heap[newHub := Hub(id, seq(NUM_JACKS_PER_HUB, _ => false))])
  }

  /** What a step makes of a state that satisfies Inv; None if it cannot be taken. */
  function Do(s: State, step: Step): Option<State>
    requires Inv(s)
  {
    var req := if step.r in s.requests then s.requests[step.r] else Idle;
    match step
    case Lookup(r, id) =>
      if req != Idle then None
      else
        (match FindHub(s, id, 0)
         case Some(h) => Some(Reserve(s, r, h))
         case None => Some(s.(requests := s.requests[r := Missing(id)])))
    case GiveUp(r) =>
      if !req.Missing? then None else Some(s.(requests := s.requests[r := Idle]))
    case Insert(r, newHub) =>
      if !req.Missing? || newHub in s.heap then None
      else
        (match FindHub(s, req.id, 0)
         case Some(h) => Some(Reserve(s, r, h))
         case None => Some(Reserve(WithHub(s, newHub, req.id), r, newHub)))
    case ProcFailed(r) =>
      if !req.Reserved? then None
      else
        assert Has(s, r, req.hub, req.i);
        Some(SetUsed(s, req.hub, req.i, false).(requests := s.requests[r := Idle]))
    case HandOut(r) =>
      if !req.Reserved? then None else Some(s.(requests := s.requests[r := Holding(req.hub, req.i)]))
    case BeginFree(r) =>
      if !req.Holding? then None else Some(s.(requests := s.requests[r := Freeing(req.hub, req.i)]))
    case EndFree(r) =>
      if !req.Freeing? then None
      else
        assert Has(s, r, req.hub, req.i);
        var s' := SetUsed(s, req.hub, req.i, false);
        if AnyUsed(s'.heap[req.hub].used) then
          Some(s'.(requests := s.requests[r := Idle]))
        else
          Some(s'.(hubs := Without(s.hubs, req.hub), requests := s.requests[r := Disposing(req.hub)]))
    case Deallocate(r) =>
      if !req.Disposing? then None
      else Some(s.(heap := s.heap - {req.hub}, requests := s.requests[r := Idle]))
  }

  // ----- What every state satisfies -----

  /** Request r has jack i of hub h, or is about to get it or to give it up. */
  predicate Has(s: State, r: nat, h: HubRef, i: nat) {
    r in s.requests && s.requests[r] in {Reserved(h, i), Holding(h, i), Freeing(h, i)}
  }

  predicate Lists(s: State) {
    && AllDistinct(s.hubs)
    && (forall h :: h in s.hubs ==> h in s.heap)
    && (forall a, b :: a in s.hubs && b in s.hubs && s.heap[a].id == s.heap[b].id ==> a == b)
    && (forall h :: h in s.heap ==> |s.heap[h].used| == NUM_JACKS_PER_HUB)
  }

  /** A jack is marked used exactly if one request has it; its hub is then listed. */
  ghost predicate Owned(s: State)
    requires Lists(s)
  {
    && (forall r, h, i: nat :: Has(s, r, h, i) ==> h in s.hubs && i < NUM_JACKS_PER_HUB && s.heap[h].used[i])
    && (forall q, r, h, i: nat :: Has(s, q, h, i) && Has(s, r, h, i) ==> q == r)
    && (forall h, i: nat :: h in s.heap && i < NUM_JACKS_PER_HUB && s.heap[h].used[i] ==> exists r :: Has(s, r, h, i))
  }

  /** Hubs that are off the list are about to be deallocated by one request each. */
  ghost predicate Disposed(s: State) {
    && (forall r :: r in s.requests && s.requests[r].Disposing? ==>
          s.requests[r].hub in s.heap && s.requests[r].hub !in s.hubs)
    && (forall q, r :: q in s.requests && r in s.requests ==>
          s.requests[q].Disposing? && s.requests[r] == s.requests[q] ==> q == r)
    && (forall h :: h in s.heap && h !in s.hubs ==> exists r :: r in s.requests && s.requests[r] == Disposing(h))
  }

  ghost predicate Inv(s: State) {
    Lists(s) && Owned(s) && Disposed(s)
  }

  // ----- Each step keeps the invariant -----

  lemma ReserveKeeps(s: State, r: nat, h: HubRef)
    requires Inv(s) && h in s.hubs
    requires r in s.requests ==> s.requests[r].Idle? || s.requests[r].Missing?
    ensures Inv(Reserve(s, r, h))
  {
    var s', i := Reserve(s, r, h), FirstUnused(s.heap[h].used, 0);
    assert Lists(s');
    ReserveOwned(s, r, h);
    hide Owned;
    StillDisposed(s, s', r);
  }

  lemma ReserveOwned(s: State, r: nat, h: HubRef)
    requires Lists(s) && Owned(s) && h in s.hubs && Lists(Reserve(s, r, h))
    requires r in s.requests ==> s.requests[r].Idle? || s.requests[r].Missing?
    ensures Owned(Reserve(s, r, h))
  {
    var s', i := Reserve(s, r, h), FirstUnused(s.heap[h].used, 0);
    forall q, g, j: nat | Has(s', q, g, j) ensures Has(s, q, g, j) || (q == r && g == h && j == i) {}
    forall g, j: nat | g in s'.heap && j < NUM_JACKS_PER_HUB && s'.heap[g].used[j]
      ensures exists q :: Has(s', q, g, j)
    {
      if g == h && j == i {
        assert Has(s', r, h, i);
      } else {
        var q :| Has(s, q, g, j);
        assert Has(s', q, g, j);
      }
    }
  }

  /** A step that leaves the list, and which hubs there are, alone. */
  lemma StillDisposed(s: State, s': State, r: nat)
    requires Disposed(s) && s'.hubs == s.hubs && s'.heap.Keys == s.heap.Keys
    requires forall q :: q != r ==>
      (q in s'.requests <==> q in s.requests) && (q in s.requests ==> s'.requests[q] == s.requests[q])
    requires r in s.requests ==> !s.requests[r].Disposing?
    requires r in s'.requests ==> !s'.requests[r].Disposing?
    ensures Disposed(s')
  {
    forall h | h in s'.heap && h !in s'.hubs ensures exists q :: q in s'.requests && s'.requests[q] == Disposing(h) {
      var q :| q in s.requests && s.requests[q] == Disposing(h);
      assert q in s'.requests && s'.requests[q] == Disposing(h);
    }
  }

  lemma InsertKeeps(s: State, r: nat, newHub: HubRef, id: HubId)
    requires Inv(s) && newHub !in s.heap && forall h :: h in s.hubs ==> s.heap[h].id != id
    ensures Inv(WithHub(s, newHub, id))
  {
    var s' := WithHub(s, newHub, id);
    forall q, g, j: nat | Has(s', q, g, j) ensures Has(s, q, g, j) {}
    forall g, j: nat | g in s'.heap && j < NUM_JACKS_PER_HUB && s'.heap[g].used[j]
      ensures exists q :: Has(s', q, g, j)
    {
      var q :| Has(s, q, g, j);
      assert Has(s', q, g, j);
    }
    forall h | h in s'.heap && h !in s'.hubs ensures exists q :: q in s'.requests && s'.requests[q] == Disposing(h) {
      var q :| q in s.requests && s.requests[q] == Disposing(h);
    }
  }

  /** A request that gives its jack up, while the hub stays. */
  lemma ReleaseKeeps(s: State, r: nat, h: HubRef, i: nat)
    requires Inv(s) && Has(s, r, h, i)
    ensures Inv(SetUsed(s, h, i, false).(requests := s.requests[r := Idle]))
  {
    var s' := SetUsed(s, h, i, false).(requests := s.requests[r := Idle]);
    assert h in s.hubs;
    ReleaseOwned(s, r, h, i);
    hide Owned, Disposed;
    StillDisposed(s, s', r);
  }

  lemma ReleaseOwned(s: State, r: nat, h: HubRef, i: nat)
    requires Lists(s) && Owned(s) && Has(s, r, h, i)
    ensures var s' := SetUsed(s, h, i, false).(requests := s.requests[r := Idle]); Lists(s') && Owned(s')
  {
    var s' := SetUsed(s, h, i, false).(requests := s.requests[r := Idle]);
    forall q, g, j: nat | Has(s', q, g, j) ensures Has(s, q, g, j) && q != r {}
    forall g, j: nat | g in s'.heap && j < NUM_JACKS_PER_HUB && s'.heap[g].used[j]
      ensures exists q :: Has(s', q, g, j)
    {
      var q :| Has(s, q, g, j);
      assert q != r;
      assert Has(s', q, g, j);
    }
  }

  /** A request moves on with the jack that it has. */
  lemma MoveKeeps(s: State, r: nat, h: HubRef, i: nat, req: Request)
    requires Inv(s) && Has(s, r, h, i) && req in {Holding(h, i), Freeing(h, i)}
    ensures Inv(s.(requests := s.requests[r := req]))
  {
    var s' := s.(requests := s.requests[r := req]);
    forall q, g, j: nat ensures Has(s', q, g, j) <==> Has(s, q, g, j) {}
    forall g, j: nat | g in s'.heap && j < NUM_JACKS_PER_HUB && s'.heap[g].used[j]
      ensures exists q :: Has(s', q, g, j)
    {
      var q :| Has(s, q, g, j);
      assert Has(s', q, g, j);
    }
    StillDisposed(s, s', r);
  }

  /** A request that has no jack moves on without one. */
  lemma IdleKeeps(s: State, r: nat, req: Request)
    requires Inv(s) && (req.Idle? || req.Missing?)
    requires r in s.requests ==> s.requests[r].Idle? || s.requests[r].Missing?
    ensures Inv(s.(requests := s.requests[r := req]))
  {
    var s' := s.(requests := s.requests[r := req]);
    SameHas(s, s');
    StillDisposed(s, s', r);
  }

  lemma SameHas(s: State, s': State)
    requires Lists(s) && Owned(s) && Lists(s')
    requires forall q, g, j: nat :: Has(s', q, g, j) <==> Has(s, q, g, j)
    requires s'.hubs == s.hubs && s'.heap.Keys <= s.heap.Keys && forall g :: g in s'.heap ==> s'.heap[g] == s.heap[g]
    ensures Owned(s')
  {
    forall g, j: nat | g in s'.heap && j < NUM_JACKS_PER_HUB && s'.heap[g].used[j]
      ensures exists q :: Has(s', q, g, j)
    {
      var q :| Has(s, q, g, j);
      assert Has(s', q, g, j);
    }
  }

  predicate AllDistinct(hubs: seq<HubRef>) {
    forall a, b :: 0 <= a < b < |hubs| ==> hubs[a] != hubs[b]
  }

  lemma {:induction false} WithoutDistinct(hubs: seq<HubRef>, h: HubRef)
    requires AllDistinct(hubs)
    ensures AllDistinct(Without(hubs, h))
  {
    if hubs != [] {
      WithoutDistinct(hubs[1..], h);
      assert hubs[0] !in Without(hubs[1..], h);
    }
  }

  lemma UnlistOwned(s: State, s': State, r: nat, h: HubRef, i: nat)
    requires Inv(s) && Has(s, r, h, i) && Lists(s')
    requires forall j :: 0 <= j < NUM_JACKS_PER_HUB && j != i ==> !s.heap[h].used[j]
    requires forall x :: x in s'.hubs <==> x in s.hubs && x != h
    requires s'.heap == SetUsed(s, h, i, false).heap && s'.requests == s.requests[r := Disposing(h)]
    ensures Owned(s')
  {
    forall q, g, j: nat | Has(s', q, g, j) ensures Has(s, q, g, j) && q != r && g != h {
      assert q != r && Has(s, q, g, j) && s.heap[g].used[j];
    }
    forall g, j: nat | g in s'.heap && j < NUM_JACKS_PER_HUB && s'.heap[g].used[j]
      ensures exists q :: Has(s', q, g, j)
    {
      var q :| Has(s, q, g, j);
      assert q != r;
      assert Has(s', q, g, j);
    }
  }

  /** The last jack of a hub is given up, and the hub taken off the list. */
  lemma UnlistKeeps(s: State, r: nat, h: HubRef, i: nat)
    requires Inv(s) && Has(s, r, h, i)
    requires forall j :: 0 <= j < NUM_JACKS_PER_HUB && j != i ==> !s.heap[h].used[j]
    ensures Inv(SetUsed(s, h, i, false).(hubs := Without(s.hubs, h), requests := s.requests[r := Disposing(h)]))
  {
    var s' := SetUsed(s, h, i, false).(hubs := Without(s.hubs, h), requests := s.requests[r := Disposing(h)]);
    assert h in s.hubs;
    hide Owned, Disposed;
    WithoutDistinct(s.hubs, h);
    assert forall a :: a in s.heap ==> s'.heap[a].id == s.heap[a].id && |s'.heap[a].used| == |s.heap[a].used|;
    UnlistOwned(s, s', r, h, i);
    UnlistDisposed(s, s', r, h, i);
  }

  lemma UnlistDisposed(s: State, s': State, r: nat, h: HubRef, i: nat)
    requires Disposed(s) && h in s.hubs && h in s.heap && Has(s, r, h, i)
    requires forall x :: x in s'.hubs <==> x in s.hubs && x != h
    requires s'.heap.Keys == s.heap.Keys && s'.requests == s.requests[r := Disposing(h)]
    ensures Disposed(s')
  {
    forall g | g in s'.heap && g !in s'.hubs ensures exists q :: q in s'.requests && s'.requests[q] == Disposing(g) {
      if g == h {
        assert s'.requests[r] == Disposing(h);
      } else {
        var q :| q in s.requests && s.requests[q] == Disposing(g);
        assert q != r;
        assert s'.requests[q] == Disposing(g);
      }
    }
  }

  lemma DeallocateKeeps(s: State, r: nat)
    requires Inv(s) && r in s.requests && s.requests[r].Disposing?
    ensures Inv(s.(heap := s.heap - {s.requests[r].hub}, requests := s.requests[r := Idle]))
  {
    var h := s.requests[r].hub;
    var s' := s.(heap := s.heap - {h}, requests := s.requests[r := Idle]);
    SameHas(s, s');
    forall g | g in s'.heap && g !in s'.hubs ensures exists q :: q in s'.requests && s'.requests[q] == Disposing(g) {
      var q :| q in s.requests && s.requests[q] == Disposing(g);
      assert q != r;
      assert s'.requests[q] == Disposing(g);
    }
  }

  /** Every step keeps the invariant. */
  lemma StepKeeps(s: State, step: Step)
    requires Inv(s) && Do(s, step).Some?
    ensures Inv(Do(s, step).value)
  {
    hide Owned, Disposed, Reserve, SetUsed;
    match step {
      case Lookup(r, id) =>
        match FindHub(s, id, 0) {
          case Some(h) => ReserveKeeps(s, r, h);
          case None => IdleKeeps(s, r, Missing(id));
        }
      case GiveUp(r) => IdleKeeps(s, r, Idle);
      case Insert(r, newHub) =>
        match FindHub(s, s.requests[r].id, 0) {
          case Some(h) => ReserveKeeps(s, r, h);
          case None =>
            InsertKeeps(s, r, newHub, s.requests[r].id);
            ReserveKeeps(WithHub(s, newHub, s.requests[r].id), r, newHub);
        }
      case ProcFailed(r) =>
        assert Has(s, r, s.requests[r].hub, s.requests[r].i);
        ReleaseKeeps(s, r, s.requests[r].hub, s.requests[r].i);
      case HandOut(r) =>
        assert Has(s, r, s.requests[r].hub, s.requests[r].i);
        MoveKeeps(s, r, s.requests[r].hub, s.requests[r].i, Holding(s.requests[r].hub, s.requests[r].i));
      case BeginFree(r) =>
        assert Has(s, r, s.requests[r].hub, s.requests[r].i);
        MoveKeeps(s, r, s.requests[r].hub, s.requests[r].i, Freeing(s.requests[r].hub, s.requests[r].i));
      case EndFree(r) =>
        assert Has(s, r, s.requests[r].hub, s.requests[r].i);
        EndFreeKeeps(s, r, s.requests[r].hub, s.requests[r].i);
      case Deallocate(r) => DeallocateKeeps(s, r);
    }
  }

  lemma EndFreeKeeps(s: State, r: nat, h: HubRef, i: nat)
    requires Inv(s) && r in s.requests && s.requests[r] == Freeing(h, i) && Has(s, r, h, i)
    ensures Inv(Do(s, EndFree(r)).value)
  {
    var s' := SetUsed(s, h, i, false);
    if AnyUsed(s'.heap[h].used) {
      ReleaseKeeps(s, r, h, i);
    } else {
      forall j | 0 <= j < NUM_JACKS_PER_HUB && j != i ensures !s.heap[h].used[j] {
        assert !s'.heap[h].used[j];
      }
      UnlistKeeps(s, r, h, i);
    }
  }

  // ----- Whole runs -----

  const START := State([], map[], map[])

  /** The state after a run from the start; None if some step could not be taken. */
  ghost function Run(steps: seq<Step>): (s: Option<State>)
    ensures s.Some? ==> Inv(s.value)
  {
    if steps == [] then Some(START)
    else
      var before := Run(steps[..|steps| - 1]);
      if before.None? then None
      else
        var step := steps[|steps| - 1];
        if Do(before.value, step).Some? then StepKeeps(before.value, step); Do(before.value, step) else None
  }

  /** Whatever the interleaving, no two hubs of the list have the same id. */
  lemma IdsUnique(steps: seq<Step>, a: nat, b: nat)
    requires Run(steps).Some? && a < b < |Run(steps).value.hubs|
    ensures var s := Run(steps).value;
      s.hubs[a] in s.heap && s.hubs[b] in s.heap && s.heap[s.hubs[a]].id != s.heap[s.hubs[b]].id
  {}

  /** Whatever the interleaving, a jack is with at most one request until it is freed, and is then
      marked used on a hub that is still listed. */
  lemma HandedOutOnce(steps: seq<Step>, q: nat, r: nat, h: HubRef, i: nat)
    requires Run(steps).Some? && Has(Run(steps).value, q, h, i) && Has(Run(steps).value, r, h, i)
    ensures q == r
    ensures var s := Run(steps).value; h in s.hubs && h in s.heap && i < |s.heap[h].used| && s.heap[h].used[i]
  {}

  /** Whatever the interleaving, a hub is deallocated only when no request has a jack of it, or
      can still find it. */
  lemma DeallocatedUnused(steps: seq<Step>, r: nat, q: nat, i: nat)
    requires Run(steps).Some? && r in Run(steps).value.requests && Run(steps).value.requests[r].Disposing?
    ensures var s := Run(steps).value; var h := s.requests[r].hub;
      && h in s.heap && h !in s.hubs && !Has(s, q, h, i)
      && (q in s.requests && s.requests[q] == Disposing(h) ==> q == r)
  {}

  /** A hub that is taken off the list has no used jack left. */
  lemma UnlistedUnused(steps: seq<Step>, r: nat, i: nat)
    requires Run(steps).Some? && Do(Run(steps).value, EndFree(r)).Some? && i < NUM_JACKS_PER_HUB
    ensures var s := Run(steps).value; var s' := Do(s, EndFree(r)).value;
      var h := s.requests[r].hub;
      h in s'.heap && |s'.heap[h].used| == NUM_JACKS_PER_HUB && (h !in s'.hubs ==> !s'.heap[h].used[i])
  {
    EndFreeUnused(Run(steps).value, r, i);
  }

  lemma EndFreeUnused(s: State, r: nat, i: nat)
    requires Inv(s) && Do(s, EndFree(r)).Some? && i < NUM_JACKS_PER_HUB
    ensures var s' := Do(s, EndFree(r)).value; var h := s.requests[r].hub;
      h in s'.heap && |s'.heap[h].used| == NUM_JACKS_PER_HUB && (h !in s'.hubs ==> !s'.heap[h].used[i])
  {
    assert Has(s, r, s.requests[r].hub, s.requests[r].i);
  }
}
