/** The event mechanism of a hub: senders, listeners, and the references that keep it alive. */
module Events {
  import opened Options
  import opened EventLog

  const EBUSY: int := 16
  const EINVAL: int := 22
  const ENOMEM: int := 12

  type Task = nat

  lemma DistinctAt<T>(s: seq<T>)
    requires Distinct(s)
    ensures forall a, b :: 0 <= a < |s| && 0 <= b < |s| && a != b ==> s[a] != s[b]
  {}

  class Sender {
    const senderId: nat
    var events: seq<Event>

    constructor (id: nat)
      ensures senderId == id && events == []
    {
      senderId, events := id, [];
    }
  }

  /** received is what the listener's handler has been called with. */
  class Listener {
    const classMask: bv32
    var received: seq<Event>

    constructor (mask: bv32)
      ensures classMask == mask && received == []
    {
      classMask, received := mask, [];
    }
  }

  class Mechanism {
    var handlerTask: Option<Task>
    var refCount: nat
    var senderId: nat
    var senders: seq<Sender>
    var listeners: seq<Listener>

    // Whether the owner still has it; how many senders and listeners have left their list but
    // not yet dropped their reference; whether the memory has been freed.
    ghost var owned: bool
    ghost var leaving: nat
    ghost var freed: bool

    // The class sets of the keys that were sent.
    ghost var history: History

    ghost predicate Counted()
      reads `refCount, `senders, `listeners, `owned, `leaving, `freed
    {
      && refCount == |senders| + |listeners| + leaving + (if owned then 1 else 0)
      && (freed <==> refCount == 0)
    }

    ghost predicate ListsOK()
      reads `senders, `listeners, `senderId, senders`events
    {
      && Distinct(senders) && Distinct(listeners)
      && (forall s, t :: s in senders && t in senders && s.senderId == t.senderId ==> s == t)
      && (forall s :: s in senders ==> s.senderId < senderId && OnePerKey(s.events) && FromSender(s.events, s.senderId))
    }

    /** Nothing was sent by, and no handler has heard of, a sender that does not exist yet. */
    ghost predicate Heard()
      reads `listeners, `senderId, `history, listeners`received
    {
      && (forall l: Listener, e: Event :: l in listeners && e in l.received ==> e.senderId < senderId)
      && (forall k :: k in history.classes ==> k.senderId < senderId)
    }

    /** For each live sender and each of its keys, the last event that the listener got is the
        retained one, if that is of a class it listens to. */
    ghost predicate CaughtUp(l: Listener)
      reads `senders, senders`events, l
    {
      forall s: Sender, k: Key | s in senders && k.senderId == s.senderId ::
        Latest(l.received, k) == IfWanted(Kept(s.events, k), l.classMask)
    }

    /** Every listener has what is retained of the classes it listens to, at any time. */
    ghost predicate AllInformed()
      reads `senders, `listeners, `history, senders`events, listeners
    {
      && (forall l: Listener, s: Sender, k: Key | l in listeners && s in senders && k.senderId == s.senderId ::
            Informed(l.received, l.classMask, s.events, k, history))
      && (forall s: Sender, k: Key | s in senders && k.senderId == s.senderId :: KeptKnown(s.events, k, history))
    }

    ghost predicate Valid()
      reads `refCount, `senders, `listeners, `senderId, `owned, `leaving, `freed, `history, senders, listeners
    {
      var whole := Counted() && ListsOK() && Heard() && AllInformed();
      whole
    }

    constructor ()
      ensures Valid() && handlerTask == None && owned && leaving == 0 && !freed && senders == [] && listeners == []
      ensures history == History(map[], {}, {})
    {
      handlerTask, refCount, senderId, senders, listeners := None, 1, 0, [], [];
      owned, leaving, freed, history := true, 0, false, History(map[], {}, {});
    }

    /** The lock is free, or the calling task is in a handler that was called with the lock held. */
    ghost predicate MayEnter(task: Task)
      reads this, senders, listeners
    {
      handlerTask == Some(task) || (handlerTask == None && Valid() && !freed)
    }

    // ----- References -----

    /** The mechanism is there as long as anyone has it, and no longer. */
    lemma AliveWhileHeld()
      requires Valid()
      ensures !freed <==> owned || senders != [] || listeners != [] || leaving > 0
      ensures refCount == |senders| + |listeners| + leaving + if owned then 1 else 0
    {}

    /** Drops the owner's reference, or that of a sender or listener that has left. */
    method DestroyMechanism(task: Task, ghost byOwner: bool) returns (r: int, ghost freedNow: bool)
      requires MayEnter(task) && (handlerTask == None ==> if byOwner then owned else leaving > 0)
      modifies `refCount, `owned, `leaving, `freed
      ensures old(handlerTask) == Some(task) ==> r == -EBUSY && unchanged(this) && !freedNow
      ensures old(handlerTask) == None ==>
        && Valid() && r == 0 && refCount == old(refCount) - 1
        && owned == (old(owned) && !byOwner) && leaving == old(leaving) - (if byOwner then 0 else 1)
        && freedNow == freed
        && (freed <==> !owned && senders == [] && listeners == [] && leaving == 0)
    {
      freedNow := false;
      if handlerTask == Some(task) {
        return -EBUSY, freedNow;
      }
      refCount := refCount - 1;
      if byOwner { owned := false; } else { leaving := leaving - 1; }
      if refCount == 0 {
        freed, freedNow := true, true;
      }
      r := 0;
    }

    // ----- Senders -----

    method CreateSender(task: Task, granted: bool) returns (r: int, s: Sender?)
      requires MayEnter(task)
      modifies `refCount, `senderId, `senders
      ensures old(handlerTask) == None ==> Valid() && !freed
      ensures r == if old(handlerTask) == Some(task) then -EBUSY else if !granted then -ENOMEM else 0
      ensures r != 0 ==> unchanged(this)
      ensures r == 0 ==>
        && s != null && fresh(s) && senders == [s] + old(senders) && s.events == []
        && s.senderId == old(senderId) && refCount == old(refCount) + 1
    {
      if handlerTask == Some(task) {
        return -EBUSY, null;
      }
      if !granted {
        return -ENOMEM, null;
      }
      var t := new Sender(senderId);
      AddSender(t);
      return 0, t;
    }

    method AddSender(t: Sender)
      requires Valid() && !freed && t !in senders && t.events == [] && t.senderId == senderId
      modifies `refCount, `senderId, `senders
      ensures Valid() && senders == [t] + old(senders) && refCount == old(refCount) + 1 && senderId == old(senderId) + 1
    {
      NothingHeard(t);
      NothingKept(t.events);
      refCount := refCount + 1;
      senderId := senderId + 1;
      senders := [t] + senders;
    }

    static lemma NothingKept(events: seq<Event>)
      requires events == []
      ensures OnePerKey(events) && forall k :: Kept(events, k) == None
    {}

    /** Nobody has heard of a sender that was just created. */
    lemma NothingHeard(t: Sender)
      requires forall l: Listener, e: Event :: l in listeners && e in l.received ==> e.senderId < t.senderId
      ensures forall l: Listener, k: Key | l in listeners && k.senderId == t.senderId :: Latest(l.received, k) == None
    {
      forall l: Listener, k: Key | l in listeners && k.senderId == t.senderId ensures Latest(l.received, k) == None {
        NoneHeard(l.received, k);
      }
    }

    static lemma {:induction false} NoneHeard(received: seq<Event>, k: Key)
      requires forall e :: e in received ==> KeyOf(e) != k
      ensures Latest(received, k) == None
      decreases |received|
    {
      if received != [] { NoneHeard(received[..|received| - 1], k); }
    }

    /** First half of destroying a sender: it leaves the list. */
    method UnlinkSender(s: Sender, task: Task) returns (r: int)
      requires MayEnter(task)
      modifies `senders, `leaving
      ensures old(handlerTask) == None ==> Valid() && !freed
      ensures r == if old(handlerTask) == Some(task) then -EBUSY else if s !in old(senders) then -EINVAL else 0
      ensures r != 0 ==> unchanged(this)
      ensures r == 0 ==> s !in senders && leaving == old(leaving) + 1 && |senders| == |old(senders)| - 1
      ensures r == 0 ==> forall t :: t in senders <==> t in old(senders) && t != s
    {
      if handlerTask == Some(task) {
        return -EBUSY;
      }
      var q := 0;
      while q < |senders| && senders[q] != s
        invariant q <= |senders| && forall k :: 0 <= k < q ==> senders[k] != s
      {
        q := q + 1;
      }
      if q == |senders| {
        return -EINVAL;
      }
      RemoveAt(senders, q, senders[..q] + senders[q + 1..]);
      hide Distinct;
      senders := senders[..q] + senders[q + 1..];
      leaving := leaving + 1;
      return 0;
    }

    // ----- Listeners -----

    /** First half of destroying a listener: it leaves the list. */
    method UnlinkListener(l: Listener, task: Task) returns (r: int)
      requires MayEnter(task)
      modifies `listeners, `leaving
      ensures old(handlerTask) == None ==> Valid() && !freed
      ensures r == if old(handlerTask) == Some(task) then -EBUSY else if l !in old(listeners) then -EINVAL else 0
      ensures r != 0 ==> unchanged(this)
      ensures r == 0 ==> l !in listeners && leaving == old(leaving) + 1 && |listeners| == |old(listeners)| - 1
      ensures r == 0 ==> forall t :: t in listeners <==> t in old(listeners) && t != l
    {
      if handlerTask == Some(task) {
        return -EBUSY;
      }
      var q := 0;
      while q < |listeners| && listeners[q] != l
        invariant q <= |listeners| && forall k :: 0 <= k < q ==> listeners[k] != l
      {
        q := q + 1;
      }
      if q == |listeners| {
        return -EINVAL;
      }
      RemoveAt(listeners, q, listeners[..q] + listeners[q + 1..]);
      hide Distinct;
      listeners := listeners[..q] + listeners[q + 1..];
      leaving := leaving + 1;
      return 0;
    }

    /** A whole destroy, when nothing comes between its two halves. */
    method DestroySender(s: Sender, task: Task) returns (r: int, ghost freedNow: bool)
      requires MayEnter(task)
      modifies `senders, `leaving, `refCount, `owned, `freed
      ensures old(handlerTask) == None ==> Valid()
      ensures r == if old(handlerTask) == Some(task) then -EBUSY else if s !in old(senders) then -EINVAL else 0
      ensures r != 0 ==> unchanged(this) && !freedNow
      ensures r == 0 ==> |senders| == |old(senders)| - 1 && leaving == old(leaving) && refCount == old(refCount) - 1
      ensures r == 0 ==> owned == old(owned) && forall t :: t in senders <==> t in old(senders) && t != s
      ensures r == 0 ==> freedNow == freed
    {
      freedNow := false;
      r := UnlinkSender(s, task);
      if r == 0 {
        var r2;
        r2, freedNow := DestroyMechanism(task, false);
      }
    }

    method DestroyListener(l: Listener, task: Task) returns (r: int, ghost freedNow: bool)
      requires MayEnter(task)
      modifies `listeners, `leaving, `refCount, `owned, `freed
      ensures old(handlerTask) == None ==> Valid()
      ensures r == if old(handlerTask) == Some(task) then -EBUSY else if l !in old(listeners) then -EINVAL else 0
      ensures r != 0 ==> unchanged(this) && !freedNow
      ensures r == 0 ==> |listeners| == |old(listeners)| - 1 && leaving == old(leaving) && refCount == old(refCount) - 1
      ensures r == 0 ==> owned == old(owned) && forall t :: t in listeners <==> t in old(listeners) && t != l
      ensures r == 0 ==> freedNow == freed
    {
      freedNow := false;
      r := UnlinkListener(l, task);
      if r == 0 {
        var r2;
        r2, freedNow := DestroyMechanism(task, false);
      }
    }

    // ----- Sending -----

    /** Puts an event into the sender's list. */
    method Retain(s: Sender, e: Event, granted: bool) returns (ok: bool)
      modifies s`events
      ensures ok <==> granted || Reused(old(s.events), e)
      ensures s.events == if ok then After(old(s.events), e) else Dropped(old(s.events), KeyOf(e))
    {
      var q := 0;
      while q < |s.events| && KeyOf(s.events[q]) != KeyOf(e)
        invariant q <= |s.events| && forall k :: 0 <= k < q ==> KeyOf(s.events[k]) != KeyOf(e)
      {
        q := q + 1;
      }
      FirstIsPlace(s.events, KeyOf(e), q);
      if q < |s.events| && s.events[q].size == e.size {
        s.events := s.events[q := e];
        return true;
      }
      if q < |s.events| {
        s.events := s.events[..q] + s.events[q + 1..];
      }
      if granted {
        s.events := [e] + s.events;
      }
      return granted;
    }

    static lemma {:induction false} FirstIsPlace(events: seq<Event>, k: Key, q: nat)
      requires q <= |events| && (q < |events| ==> KeyOf(events[q]) == k)
      requires forall i :: 0 <= i < q ==> KeyOf(events[i]) != k
      ensures Place(events, k) == q
    {
      if q > 0 { FirstIsPlace(events[1..], k, q - 1); }
    }

    /** The retained event of e's key is overwritten, which takes no memory. */
    static predicate Reused(events: seq<Event>, e: Event) {
      var p := Place(events, KeyOf(e)); p < |events| && events[p].size == e.size
    }

    /** Nothing that a send or a replay changes has changed. */
    twostate predicate Untouched(s: Sender)
      reads this, senders`events, listeners`received, s`events
    {
      && unchanged(this) && s.events == old(s.events)
      && (forall t :: t in senders ==> t.events == old(t.events))
      && (forall t :: t in listeners ==> t.received == old(t.received))
    }

    /** Calls a listener's handler, which may try to enter the mechanism again. */
    method Handle(l: Listener, e: Event, s: Sender, task: Task)
      requires handlerTask == Some(task) && l in listeners
      modifies this, senders`events, listeners`received, s`events
      ensures unchanged(this) && s.events == old(s.events) && l.received == old(l.received) + [e]
      ensures forall t :: t in senders ==> t.events == old(t.events)
      ensures forall t :: t in listeners && t != l ==> t.received == old(t.received)
      decreases 2
    {
      Reenter(s, l, e, task);
      l.received := l.received + [e];
    }

    /** Whatever a handler tries, it is told that the mechanism is busy, and nothing happens. */
    method Reenter(s: Sender, l: Listener, e: Event, task: Task)
      requires handlerTask == Some(task)
      modifies this, senders`events, listeners`received, s`events
      ensures Untouched(s)
      decreases 1
    {
      var attempt: int, granted: bool, byOwner: bool := *, *, *;
      var r;
      if attempt == 0 {
        r := Send(s, e, task, granted);
      } else if attempt == 1 {
        var t;
        r, t := CreateSender(task, granted);
      } else if attempt == 2 {
        ghost var f;
        r, f := DestroySender(s, task);
      } else if attempt == 3 {
        var t;
        r, t := CreateListener(l.classMask, s, task, granted);
      } else if attempt == 4 {
        ghost var f;
        r, f := DestroyListener(l, task);
      } else {
        ghost var f;
        r, f := DestroyMechanism(task, byOwner);
      }
      assert r == -EBUSY;
    }

    /** Sends an event to all listeners, and retains it for those that come later. */
    method Send(s: Sender, e: Event, task: Task, granted: bool) returns (r: int)
      requires MayEnter(task) && (handlerTask == None ==> s in senders)
      modifies this, senders`events, listeners`received, s`events
      ensures old(handlerTask) == Some(task) ==> r == -EBUSY && Untouched(s)
      ensures old(handlerTask) == None ==>
        && Valid() && !freed && handlerTask == None && senders == old(senders) && listeners == old(listeners)
        && r == (if s.senderId != e.senderId then -EINVAL
                 else if granted || Reused(old(s.events), e) then 0 else -ENOMEM)
        && (forall t :: t in senders && t != s ==> t.events == old(t.events))
        && s.events == (if r == 0 then After(old(s.events), e)
                        else if r == -ENOMEM then Dropped(old(s.events), KeyOf(e)) else old(s.events))
        && (forall l :: l in listeners ==>
              l.received == old(l.received) + if r == 0 then Wants([e], l.classMask) else [])
        && history == (if r == 0 then Sent(old(history), e)
                       else if r == -ENOMEM then Lost(old(history), KeyOf(e)) else old(history))
      decreases if handlerTask == Some(task) then 0 else 6
    {
      hide After, Dropped, Sent, Lost, Wants, Reused;
      if handlerTask == Some(task) {
        return -EBUSY;
      }
      if s.senderId != e.senderId {
        return -EINVAL;
      }
      hide Valid;
      handlerTask := Some(task);
      ghost var R0 := map l | l in listeners :: l.received;
      var ok := SendLocked(s, e, task, granted, R0);
      handlerTask := None;
      return if ok then 0 else -ENOMEM;
    }

    /** What is done under the lock. */
    method SendLocked(s: Sender, e: Event, task: Task, granted: bool, ghost R0: map<Listener, seq<Event>>)
      returns (ok: bool)
      requires handlerTask == Some(task) && Valid() && s in senders && e.senderId == s.senderId
      requires forall l :: l in listeners ==> l in R0 && R0[l] == l.received
      modifies this, senders`events, listeners`received, s`events
      ensures Valid() && unchanged(`handlerTask, `refCount, `senderId, `senders, `listeners, `owned, `leaving, `freed)
      ensures ok <==> granted || Reused(old(s.events), e)
      ensures forall t :: t in senders && t != s ==> t.events == old(t.events)
      ensures s.events == if ok then After(old(s.events), e) else Dropped(old(s.events), KeyOf(e))
      ensures forall l :: l in listeners ==> l.received == R0[l] + if ok then Wants([e], l.classMask) else []
      ensures history == if ok then Sent(old(history), e) else Lost(old(history), KeyOf(e))
      decreases 5
    {
      Parts();
      hide Valid, Counted, ListsOK, Heard, AllInformed, InformedWith, Reused, After, Dropped, Wants, Sent, Lost;
      ListsFacts();
      ghost var E0, H0 := map t | t in senders :: t.events, history;
      SameAsBefore(E0, R0);
      HeardFacts(R0);
      ok := Store(s, e, granted);
      if ok {
        Broadcast(s, e, task);
        history := Sent(history, e);
        Told(s, E0, R0, H0, e);
        StillHeard(R0, H0, e);
      } else {
        history := Lost(history, KeyOf(e));
        NotTold(s, E0, R0, H0, e);
        StillHeard0(R0, H0, e);
      }
      Parts();
    }

    lemma Parts()
      ensures Valid() <==> Counted() && ListsOK() && Heard() && AllInformed()
    {}

    lemma HeardFacts(R0: map<Listener, seq<Event>>)
      requires Heard() && forall l :: l in listeners ==> l in R0 && R0[l] == l.received
      ensures forall l: Listener, x: Event :: l in listeners && l in R0 && x in R0[l] ==> x.senderId < senderId
      ensures forall k :: k in history.classes ==> k.senderId < senderId
    {}

    lemma ListsFacts()
      requires ListsOK()
      ensures Distinct(listeners)
      ensures forall s :: s in senders ==>
        s.senderId < senderId && OnePerKey(s.events) && FromSender(s.events, s.senderId)
      ensures forall t, u :: t in senders && u in senders && t.senderId == u.senderId ==> t == u
    {}

    /** The first part of a send: the event is retained, or there is no memory for it. */
    method Store(s: Sender, e: Event, granted: bool) returns (ok: bool)
      requires ListsOK() && s in senders && e.senderId == s.senderId
      modifies s`events
      ensures ListsOK() && (ok <==> granted || Reused(old(s.events), e))
      ensures s.events == if ok then After(old(s.events), e) else Dropped(old(s.events), KeyOf(e))
    {
      hide OnePerKey, FromSender, Distinct, Reused, After, Dropped;
      StillRetained(s, s.events, e);
      ok := Retain(s, e, granted);
    }

    /** What AllInformed says of senders S and listeners B, when E0 was retained, R0 had been received,
        and h sent. */
    static ghost predicate InformedWith(S: seq<Sender>, B: seq<Listener>,
                                        E0: map<Sender, seq<Event>>, R0: map<Listener, seq<Event>>, h: History)
    {
      && (forall t :: t in S ==> t in E0) && (forall l :: l in B ==> l in R0)
      && (forall l: Listener, t: Sender, k: Key | l in B && t in S && k.senderId == t.senderId ::
            Informed(R0[l], l.classMask, E0[t], k, h))
      && (forall t: Sender, k: Key | t in S && k.senderId == t.senderId :: KeptKnown(E0[t], k, h))
    }

    lemma SameAsBefore(E0: map<Sender, seq<Event>>, R0: map<Listener, seq<Event>>)
      requires forall l :: l in listeners ==> l in R0 && R0[l] == l.received
      requires forall t :: t in senders ==> t in E0 && E0[t] == t.events
      ensures InformedWith(senders, listeners, E0, R0, history) <==> AllInformed()
    {}

    lemma StillRetained(s: Sender, E0: seq<Event>, e: Event)
      requires OnePerKey(E0) && FromSender(E0, s.senderId) && e.senderId == s.senderId
      ensures OnePerKey(After(E0, e)) && FromSender(After(E0, e), s.senderId)
      ensures OnePerKey(Dropped(E0, KeyOf(e))) && FromSender(Dropped(E0, KeyOf(e)), s.senderId)
    {
      AfterKeeps(E0, e, KeyOf(e));
      DroppedKeeps(E0, KeyOf(e), KeyOf(e));
    }

    lemma Told(s: Sender, E0: map<Sender, seq<Event>>, R0: map<Listener, seq<Event>>, h: History, e: Event)
      requires InformedWith(senders, listeners, E0, R0, h) && s in senders
      requires OnePerKey(E0[s]) && e.senderId == s.senderId && history == Sent(h, e)
      requires forall t, u :: t in senders && u in senders && t.senderId == u.senderId ==> t == u
      requires s.events == After(E0[s], e) && forall t :: t in senders && t != s ==> t.events == E0[t]
      requires forall l :: l in listeners ==> l.received == R0[l] + Wants([e], l.classMask)
      ensures AllInformed()
    {
      hide Informed, KeptKnown, After, Sent, OnePerKey;
      forall t: Sender, k: Key | t in senders && k.senderId == t.senderId ensures KeptKnown(t.events, k, history) {
        if t == s { SendKnown(E0[s], e, k, h); } else { OtherKnown(t.events, e, k, h); }
      }
      forall l: Listener, t: Sender, k: Key | l in listeners && t in senders && k.senderId == t.senderId
        ensures Informed(l.received, l.classMask, t.events, k, history)
      {
        if t == s {
          assert KeptKnown(E0[s], k, h);
          SendInforms(R0[l], l.classMask, E0[s], e, k, h);
        } else {
          SendInformsOther(R0[l], l.classMask, t.events, e, k, h);
        }
      }
    }

    lemma NotTold(s: Sender, E0: map<Sender, seq<Event>>, R0: map<Listener, seq<Event>>, h: History, e: Event)
      requires InformedWith(senders, listeners, E0, R0, h) && s in senders && OnePerKey(E0[s])
      requires e.senderId == s.senderId && history == Lost(h, KeyOf(e))
      requires forall t, u :: t in senders && u in senders && t.senderId == u.senderId ==> t == u
      requires s.events == Dropped(E0[s], KeyOf(e)) && forall t :: t in senders && t != s ==> t.events == E0[t]
      requires forall l :: l in listeners ==> l.received == R0[l]
      ensures AllInformed()
    {
      hide KeptKnown, Dropped, OnePerKey, Latest, Kept;
      forall t: Sender, k: Key | t in senders && k.senderId == t.senderId ensures KeptKnown(t.events, k, history) {
        if t == s { LossKnown(E0[s], KeyOf(e), k, h); } else { OtherKnown(t.events, e, k, h); }
      }
      forall l: Listener, t: Sender, k: Key | l in listeners && t in senders && k.senderId == t.senderId
        ensures Informed(l.received, l.classMask, t.events, k, history)
      {
        assert Informed(R0[l], l.classMask, E0[t], k, h);
        if t == s { LossInforms(R0[l], l.classMask, E0[s], KeyOf(e), k, h); }
      }
    }

    lemma StillHeard(R0: map<Listener, seq<Event>>, h: History, e: Event)
      requires e.senderId < senderId && history == Sent(h, e)
      requires forall k :: k in h.classes ==> k.senderId < senderId
      requires forall l: Listener, x: Event :: l in listeners && l in R0 && x in R0[l] ==> x.senderId < senderId
      requires forall l :: l in listeners ==> l in R0 && l.received == R0[l] + Wants([e], l.classMask)
      ensures Heard()
    {
      forall l: Listener, x: Event | l in listeners && x in l.received ensures x.senderId < senderId {
        OneMore([], e, l.classMask, KeyOf(e));
      }
    }

    lemma StillHeard0(R0: map<Listener, seq<Event>>, h: History, e: Event)
      requires history == Lost(h, KeyOf(e)) && forall k :: k in h.classes ==> k.senderId < senderId
      requires forall l: Listener, x: Event :: l in listeners && l in R0 && x in R0[l] ==> x.senderId < senderId
      requires forall l :: l in listeners ==> l in R0 && l.received == R0[l]
      ensures Heard()
    {}

    method Broadcast(s: Sender, e: Event, task: Task)
      requires handlerTask == Some(task) && Distinct(listeners)
      modifies this, senders`events, listeners`received, s`events
      ensures unchanged(this) && s.events == old(s.events)
      ensures forall t :: t in senders ==> t.events == old(t.events)
      ensures forall l :: l in listeners ==> l.received == old(l.received) + Wants([e], l.classMask)
      decreases 4
    {
      hide Wants, Wanted, Distinct;
      DistinctAt(listeners);
      var i := 0;
      while i < |listeners|
        invariant i <= |listeners| && unchanged(this) && s.events == old(s.events)
        invariant forall t :: t in senders ==> t.events == old(t.events)
        invariant forall k :: 0 <= k < |listeners| ==>
          listeners[k].received == old(listeners[k].received) + if k < i then Wants([e], listeners[k].classMask) else []
      {
        var l := listeners[i];
        OneMore([], e, l.classMask, KeyOf(e));
        if Wanted(e, l.classMask) {
          Handle(l, e, s, task);
        }
        i := i + 1;
      }
    }

    // ----- Late listeners -----

    /** Creates a listener, and gives it all retained events of its classes. */
    method CreateListener(mask: bv32, s: Sender, task: Task, granted: bool) returns (r: int, l: Listener?)
      requires MayEnter(task)
      modifies this, senders`events, listeners`received, s`events
      ensures old(handlerTask) == Some(task) ==> r == -EBUSY && Untouched(s)
      ensures old(handlerTask) == None ==>
        && Valid() && !freed && handlerTask == None && r == (if granted then 0 else -ENOMEM)
        && senders == old(senders) && (forall t :: t in senders ==> t.events == old(t.events))
        && (forall t :: t in old(listeners) ==> t.received == old(t.received))
        && history == old(history) && (r != 0 ==> listeners == old(listeners) && refCount == old(refCount))
        && (r == 0 ==>
              && l != null && fresh(l) && listeners == [l] + old(listeners) && refCount == old(refCount) + 1
              && l.classMask == mask && CaughtUp(l))
      decreases if handlerTask == Some(task) then 0 else 6
    {
      if handlerTask == Some(task) {
        return -EBUSY, null;
      }
      if !granted {
        return -ENOMEM, null;
      }
      var t := new Listener(mask);
      handlerTask := Some(task);
      AddListener(t, task);
      handlerTask := None;
      return 0, t;
    }

    /** What is done under the lock. */
    method AddListener(t: Listener, task: Task)
      requires handlerTask == Some(task) && Valid() && !freed && t !in listeners && t.received == []
      modifies this, senders`events, listeners`received, t`received
      ensures Valid() && unchanged(`handlerTask, `senders, `freed, `history) && CaughtUp(t)
      ensures listeners == [t] + old(listeners) && refCount == old(refCount) + 1
      ensures forall s :: s in senders ==> s.events == old(s.events)
      ensures forall l :: l in old(listeners) ==> l.received == old(l.received)
      decreases 5
    {
      hide Latest, Kept, OnePerKey, FromSender, IfWanted, AllInformed, InformedWith, CaughtUp;
      ghost var E0, R0 := map s | s in senders :: s.events, map l | l in listeners :: l.received;
      SameAsBefore(E0, R0);
      ghost var before := listeners;
      refCount := refCount + 1;
      listeners := [t] + listeners;
      Replay(t, task);
      Joined(t, before, E0, R0);
    }

    /** A new listener that has been given everything retained is informed like the others. */
    lemma Joined(t: Listener, before: seq<Listener>, E0: map<Sender, seq<Event>>, R0: map<Listener, seq<Event>>)
      requires listeners == [t] + before && CaughtUp(t)
      requires forall s :: s in senders ==> s in E0 && s.events == E0[s]
      requires forall l :: l in before ==> l in R0 && l.received == R0[l]
      requires InformedWith(senders, before, E0, R0, history)
      ensures AllInformed()
    {
      hide Latest, Kept, InClass;
      forall l: Listener, s: Sender, k: Key | l in listeners && s in senders && k.senderId == s.senderId
        ensures Informed(l.received, l.classMask, s.events, k, history)
      {
        assert KeptKnown(E0[s], k, history);
        if l in before { assert Informed(R0[l], l.classMask, E0[s], k, history); }
      }
    }

    /** All senders' events are given to a new listener. */
    method Replay(t: Listener, task: Task)
      requires handlerTask == Some(task) && ListsOK() && t in listeners && t.received == []
      modifies this, senders`events, listeners`received
      ensures unchanged(this) && CaughtUp(t)
      ensures forall s :: s in senders ==> s.events == old(s.events)
      ensures forall l :: l in listeners && l != t ==> l.received == old(l.received)
      ensures forall e :: e in t.received ==> e.senderId < senderId
      decreases 4
    {
      var i := 0;
      while i < |senders|
        invariant i <= |senders| && unchanged(this)
        invariant forall s :: s in senders ==> s.events == old(s.events)
        invariant forall l :: l in listeners && l != t ==> l.received == old(l.received)
        invariant ReplayedUpTo(t, i)
      {
        ReplaySender(senders[i], t, task, i);
        i := i + 1;
      }
    }

    /** The events of the first n senders have been given to t, and no others. */
    ghost predicate ReplayedUpTo(t: Listener, n: nat)
      reads `senders, `senderId, senders`events, t
    {
      && (forall e :: e in t.received ==> e.senderId < senderId)
      && forall i: nat, k: Key | i < |senders| && k.senderId == senders[i].senderId ::
           Latest(t.received, k) == if i < n then IfWanted(Kept(senders[i].events, k), t.classMask) else None
    }

    method ReplaySender(s: Sender, t: Listener, task: Task, ghost n: nat)
      requires handlerTask == Some(task) && ListsOK() && t in listeners
      requires n < |senders| && senders[n] == s && ReplayedUpTo(t, n)
      modifies this, senders`events, listeners`received
      ensures unchanged(this) && ReplayedUpTo(t, n + 1)
      ensures forall s :: s in senders ==> s.events == old(s.events)
      ensures forall l :: l in listeners && l != t ==> l.received == old(l.received)
      decreases 3
    {
      ghost var R := t.received;
      var j := 0;
      while j < |s.events|
        invariant j <= |s.events| && unchanged(this)
        invariant forall s :: s in senders ==> s.events == old(s.events)
        invariant forall l :: l in listeners && l != t ==> l.received == old(l.received)
        invariant t.received == R + Wants(s.events[..j], t.classMask)
      {
        assert s.events[..j + 1][..j] == s.events[..j];
        if Wanted(s.events[j], t.classMask) {
          Handle(t, s.events[j], s, task);
        }
        j := j + 1;
      }
      assert s.events[..j] == s.events;
      OneMoreSender(s, t, n, R);
    }

    lemma OneMoreSender(s: Sender, t: Listener, n: nat, R: seq<Event>)
      requires ListsOK() && n < |senders| && senders[n] == s && t.received == R + Wants(s.events, t.classMask)
      requires forall e :: e in R ==> e.senderId < senderId
      requires forall i: nat, k: Key | i < |senders| && k.senderId == senders[i].senderId ::
        Latest(R, k) == if i < n then IfWanted(Kept(senders[i].events, k), t.classMask) else None
      ensures ReplayedUpTo(t, n + 1)
    {
      forall i: nat, k: Key | i < |senders| && k.senderId == senders[i].senderId
        ensures Latest(t.received, k) == if i < n + 1 then IfWanted(Kept(senders[i].events, k), t.classMask) else None
      {
        LatestOfConcat(R, Wants(s.events, t.classMask), k);
        if i == n { LatestOfWants(s.events, t.classMask, k); } else { NoneOfKey(s.events, t.classMask, k); }
      }
      WantedOf(s.events, t.classMask);
    }

    /** What a listener got last of a key is what is retained of it for its classes, exactly if
        something is, or the listener was never given an event of the key. */
    lemma InformedIff(l: Listener, s: Sender, k: Key)
      requires Valid() && l in listeners && s in senders && k.senderId == s.senderId
      ensures Latest(l.received, k) == IfWanted(Kept(s.events, k), l.classMask)
        <==> IfWanted(Kept(s.events, k), l.classMask).Some? || !Given(l.received, k)
    {
      hide Latest, Kept;
      assert Informed(l.received, l.classMask, s.events, k, history);
      GivenIff(l.received, k);
    }

    /** A listener just created agrees on a key with an earlier one of the same mask exactly if an
        event of the key is retained for them, or the earlier one was never given one. */
    lemma LateAsEarlyIff(early: Listener, late: Listener, s: Sender, k: Key)
      requires Valid() && CaughtUp(late)
      requires early in listeners && early.classMask == late.classMask
      requires s in senders && k.senderId == s.senderId
      ensures Latest(late.received, k) == Latest(early.received, k)
        <==> IfWanted(Kept(s.events, k), early.classMask).Some? || !Given(early.received, k)
    {
      InformedIff(early, s, k);
    }

    /** In particular they agree at any time, however late the one came, if the key has always been sent
        with the same class set, and memory was never refused for it, or not since it was sent last. */
    lemma LateAsEarly(early: Listener, late: Listener, s: Sender, k: Key)
      requires Valid()
      requires early in listeners && late in listeners && early.classMask == late.classMask
      requires s in senders && k.senderId == s.senderId
      requires k !in history.changed && k !in history.lost
      ensures Latest(late.received, k) == Latest(early.received, k) == IfWanted(Kept(s.events, k), early.classMask)
    {
      hide Latest, Kept;
      assert KeptKnown(s.events, k, history);
      assert Informed(early.received, early.classMask, s.events, k, history);
      assert Informed(late.received, late.classMask, s.events, k, history);
    }
  }

  /** A late listener that disagrees with an early one: memory for the second event of a key is
      refused, or the second event is of another class. */
  method LateDiffers(lose: bool) returns (m: Mechanism, s: Sender, early: Listener, late: Listener, ghost e: Event)
    ensures m.Valid() && s in m.senders && e.senderId == s.senderId
    ensures early in m.listeners && late in m.listeners && early.classMask == late.classMask
    ensures Latest(early.received, KeyOf(e)) == Some(e) && Latest(late.received, KeyOf(e)) == None
    ensures if lose then KeyOf(e) in m.history.lost && m.history.changed == {}
            else KeyOf(e) in m.history.changed && m.history.lost == {}
  {
    hide Mechanism.Valid, After, Dropped, Kept, Latest, Wants, OnePerKey;
    m := new Mechanism();
    var r, sender := m.CreateSender(0, true);
    s := sender;
    var l;
    r, l := m.CreateListener(1, s, 0, true);
    early := l;
    var first := Event(1, s.senderId, 0, 1, 0, [0]);
    var second := if lose then first.(size := 2) else first.(classSet := 2);
    e := first;
    OnceSent(first, second);
    OneMore(early.received, first, 1, KeyOf(e));
    r := m.Send(s, first, 0, true);
    OneMore(early.received, second, 1, KeyOf(e));
    assert early.received + [] == early.received;
    r := m.Send(s, second, 0, !lose);
    assert Latest(early.received, KeyOf(e)) == Some(e);
    r, l := m.CreateListener(1, s, 0, true);
    late := l;
  }

  /** What a sender of one key retains after a second event, with memory and without. */
  lemma OnceSent(first: Event, second: Event)
    requires KeyOf(second) == KeyOf(first) && first.classSet == 1
    ensures After([], first) == [first] && Wanted(first, 1) && (second.classSet == 2 ==> !Wanted(second, 1))
    ensures second.size != first.size ==> !Mechanism.Reused([first], second)
    ensures Kept(Dropped([first], KeyOf(first)), KeyOf(first)) == None
    ensures Kept(After([first], second), KeyOf(first)) == Some(second)
  {
    DroppedKeeps([first], KeyOf(first), KeyOf(first));
    AfterKeeps([first], second, KeyOf(first));
  }
}
