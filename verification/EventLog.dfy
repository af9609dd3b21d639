/** Events, the events that a sender retains, and what a handler has last been told. */
module EventLog {
  import opened Words
  import opened Options

  predicate Distinct<T(==)>(s: seq<T>) {
    forall a, b :: 0 <= a < b < |s| ==> s[a] != s[b]
  }

  lemma RemoveAt<T>(s: seq<T>, q: nat, r: seq<T>)
    requires q < |s| && Distinct(s) && r == s[..q] + s[q + 1..]
    ensures Distinct(r) && |r| == |s| - 1
    ensures forall x :: x in r <==> x in s && x != s[q]
  {
    assert forall k :: 0 <= k < |r| ==> r[k] == s[if k < q then k else k + 1];
    forall x | x in s && x != s[q] ensures x in r {
      var k :| 0 <= k < |s| && s[k] == x;
      assert r[if k < q then k else k - 1] == x;
    }
  }

  datatype Event = Event(size: nat, senderId: nat, eventId: nat, classSet: bv32, typ: nat, payload: seq<uint8>)

  datatype Key = Key(senderId: nat, eventId: nat, typ: nat)

  function KeyOf(e: Event): Key {
    Key(e.senderId, e.eventId, e.typ)
  }

  predicate InClass(classSet: bv32, classMask: bv32) {
    classSet & classMask != 0
  }

  predicate Wanted(e: Event, classMask: bv32) {
    InClass(e.classSet, classMask)
  }

  /** The last event with key k that a handler was given. */
  function Latest(received: seq<Event>, k: Key): Option<Event> {
    if received == [] then None
    else
      var e := received[|received| - 1];
      if KeyOf(e) == k then Some(e) else Latest(received[..|received| - 1], k)
  }

  lemma {:induction false} LatestOfConcat(a: seq<Event>, b: seq<Event>, k: Key)
    ensures Latest(a + b, k) == if Latest(b, k).Some? then Latest(b, k) else Latest(a, k)
  {
    if b == [] {
      assert a + b == a;
    } else {
      assert (a + b)[..|a + b| - 1] == a + b[..|b| - 1];
      LatestOfConcat(a, b[..|b| - 1], k);
    }
  }

  /** The retained event with key k. */
  function Kept(events: seq<Event>, k: Key): Option<Event> {
    if events == [] then None
    else if KeyOf(events[0]) == k then Some(events[0])
    else Kept(events[1..], k)
  }

  /** The position of the retained event with key k, or the end. */
  function Place(events: seq<Event>, k: Key): (p: nat)
    ensures p <= |events| && (p < |events| ==> KeyOf(events[p]) == k)
    ensures forall i :: 0 <= i < p ==> KeyOf(events[i]) != k
  {
    if events == [] || KeyOf(events[0]) == k then 0 else 1 + Place(events[1..], k)
  }

  predicate OnePerKey(events: seq<Event>) {
    forall i, j :: 0 <= i < j < |events| ==> KeyOf(events[i]) != KeyOf(events[j])
  }

  predicate FromSender(events: seq<Event>, senderId: nat) {
    forall i :: 0 <= i < |events| ==> events[i].senderId == senderId
  }

  lemma {:induction false} KeptAt(events: seq<Event>, k: Key)
    ensures Kept(events, k) == if Place(events, k) < |events| then Some(events[Place(events, k)]) else None
  {
    if events != [] && KeyOf(events[0]) != k { KeptAt(events[1..], k); }
  }

  /** What the handler with the mask is given of some events. */
  function Wants(events: seq<Event>, classMask: bv32): seq<Event> {
    if events == [] then []
    else Wants(events[..|events| - 1], classMask) +
         if Wanted(events[|events| - 1], classMask) then [events[|events| - 1]] else []
  }

  lemma {:induction false} WantedOf(events: seq<Event>, classMask: bv32)
    ensures forall e :: e in Wants(events, classMask) ==> e in events
    decreases |events|
  {
    if events != [] { WantedOf(events[..|events| - 1], classMask); }
  }

  function IfWanted(e: Option<Event>, classMask: bv32): Option<Event> {
    if e.Some? && Wanted(e.value, classMask) then e else None
  }

  lemma {:induction false} NoneOfKey(events: seq<Event>, classMask: bv32, k: Key)
    requires forall i :: 0 <= i < |events| ==> KeyOf(events[i]) != k
    ensures Latest(Wants(events, classMask), k) == None && Kept(events, k) == None
    decreases |events|
  {
    KeptAt(events, k);
    if events != [] {
      var init, e := events[..|events| - 1], events[|events| - 1];
      NoneOfKey(init, classMask, k);
      LatestOfConcat(Wants(init, classMask), if Wanted(e, classMask) then [e] else [], k);
      assert Latest([e], k) == None && Latest([], k) == None;
    }
  }

  /** What is retained is the last event, or among the others. */
  lemma {:induction false} KeptLast(events: seq<Event>, k: Key)
    requires OnePerKey(events) && events != []
    ensures var init, e := events[..|events| - 1], events[|events| - 1];
      Kept(events, k) == (if KeyOf(e) == k then Some(e) else Kept(init, k)) && (KeyOf(e) == k ==> Kept(init, k) == None)
    decreases |events|
  {
    var init, e := events[..|events| - 1], events[|events| - 1];
    if |events| > 1 {
      RestOnePerKey(events);
      hide OnePerKey, KeyOf;
      assert events[1..][..|events| - 2] == init[1..] && init[0] == events[0];
      if KeyOf(events[0]) != k { KeptLast(events[1..], k); }
    }
  }

  lemma RestOnePerKey(events: seq<Event>)
    requires OnePerKey(events) && |events| > 1
    ensures OnePerKey(events[1..]) && OnePerKey(events[..|events| - 1])
    ensures KeyOf(events[0]) != KeyOf(events[|events| - 1])
  {
    hide KeyOf;
  }

  /** Being given all retained events is being given, for each key, the retained one. */
  lemma {:induction false} LatestOfWants(events: seq<Event>, classMask: bv32, k: Key)
    requires OnePerKey(events)
    ensures Latest(Wants(events, classMask), k) == IfWanted(Kept(events, k), classMask)
    decreases |events|
  {
    if events != [] {
      var init, e := events[..|events| - 1], events[|events| - 1];
      KeptLast(events, k);
      if |events| > 1 { RestOnePerKey(events); }
      LatestOfWants(init, classMask, k);
      hide OnePerKey, Kept, Wanted;
      LatestOfConcat(Wants(init, classMask), if Wanted(e, classMask) then [e] else [], k);
      assert Latest([e], k) == (if KeyOf(e) == k then Some(e) else None) && Latest([], k) == None;
    }
  }

  // ----- Sending -----

  /** What a sender retains after sending e. An event of the same key and size is overwritten,
      any other event of the key removed and e put at the head. */
  function After(events: seq<Event>, e: Event): seq<Event> {
    var p := Place(events, KeyOf(e));
    if p < |events| && events[p].size == e.size then events[p := e] else [e] + Dropped(events, KeyOf(e))
  }

  function Dropped(events: seq<Event>, k: Key): seq<Event> {
    var p := Place(events, k);
    if p < |events| then events[..p] + events[p + 1..] else events
  }

  lemma KeptFound(events: seq<Event>, k: Key, i: nat)
    requires OnePerKey(events) && i < |events| && KeyOf(events[i]) == k
    ensures Kept(events, k) == Some(events[i])
  {
    KeptAt(events, k);
    assert Place(events, k) == i;
  }

  lemma KeptNone(events: seq<Event>, k: Key)
    requires forall i :: 0 <= i < |events| ==> KeyOf(events[i]) != k
    ensures Kept(events, k) == None
  {
    KeptAt(events, k);
  }

  /** Dropping closes the gap. */
  lemma DroppedAt(events: seq<Event>, d: Key)
    ensures var p, r := Place(events, d), Dropped(events, d);
      && |r| == (if p < |events| then |events| - 1 else |events|)
      && forall i :: 0 <= i < |r| ==> r[i] == events[Beside(p, i)]
  {
    hide KeyOf, Place;
  }

  /** Position i of a list from which position p was taken, in the list as it was. */
  function Beside(p: nat, i: int): int {
    if i < p then i else i + 1
  }

  lemma DroppedOne(events: seq<Event>, d: Key)
    requires OnePerKey(events)
    ensures OnePerKey(Dropped(events, d)) && forall i :: 0 <= i < |Dropped(events, d)| ==>
      KeyOf(Dropped(events, d)[i]) != d
  {
    hide Dropped;
    DroppedAt(events, d);
  }

  lemma DroppedKeeps(events: seq<Event>, d: Key, k: Key)
    requires OnePerKey(events)
    ensures OnePerKey(Dropped(events, d))
    ensures Kept(Dropped(events, d), k) == if k == d then None else Kept(events, k)
    ensures forall id :: FromSender(events, id) ==> FromSender(Dropped(events, d), id)
    ensures forall i :: 0 <= i < |Dropped(events, d)| ==> KeyOf(Dropped(events, d)[i]) != d
  {
    var p, q, r := Place(events, d), Place(events, k), Dropped(events, d);
    KeptAt(events, k);
    hide Dropped, Kept, KeyOf, OnePerKey;
    DroppedAt(events, d);
    DroppedOne(events, d);
    if q < |events| && k != d {
      assert r[if q < p then q else q - 1] == events[q];
      KeptFound(r, k, if q < p then q else q - 1);
    } else {
      KeptNone(r, k);
    }
  }

  /** Each sender retains at most one event of each key: after sending e, that is e, and the
      events of other keys are as before. */
  lemma AfterKeeps(events: seq<Event>, e: Event, k: Key)
    requires OnePerKey(events)
    ensures OnePerKey(After(events, e))
    ensures Kept(After(events, e), k) == if k == KeyOf(e) then Some(e) else Kept(events, k)
    ensures FromSender(events, e.senderId) ==> FromSender(After(events, e), e.senderId)
  {
    hide Dropped;
    DroppedKeeps(events, KeyOf(e), k);
    var p, q, r := Place(events, KeyOf(e)), Place(events, k), After(events, e);
    if p < |events| && events[p].size == e.size {
      assert r == events[p := e];
      KeptAt(events, k);
      if q < |events| { KeptFound(r, k, q); } else { KeptNone(r, k); }
    } else {
      var rest := Dropped(events, KeyOf(e));
      assert r == [e] + rest && r[1..] == rest;
    }
  }

  lemma OneMore(received: seq<Event>, e: Event, classMask: bv32, k: Key)
    ensures Wants([e], classMask) == if Wanted(e, classMask) then [e] else []
    ensures Latest(received + Wants([e], classMask), k) ==
      if KeyOf(e) == k && Wanted(e, classMask) then Some(e) else Latest(received, k)
  {
    assert [e][..0] == [];
    LatestOfConcat(received, Wants([e], classMask), k);
  }

  /** A handler was given an event of key k at some time. */
  predicate Given(received: seq<Event>, k: Key) {
    exists i :: 0 <= i < |received| && KeyOf(received[i]) == k
  }

  lemma {:induction false} GivenIff(received: seq<Event>, k: Key)
    ensures Latest(received, k).Some? <==> Given(received, k)
    decreases |received|
  {
    if received != [] {
      var init := received[..|received| - 1];
      GivenIff(init, k);
      if i :| 0 <= i < |received| && KeyOf(received[i]) == k && i < |received| - 1 { assert init[i] == received[i]; }
      if i :| 0 <= i < |init| && KeyOf(init[i]) == k { assert received[i] == init[i]; }
    }
  }

  // ----- What handlers know -----

  /** The class set with which each key was first sent, the keys that were sent with another one since,
      and the keys that were sent, but whose retained event was lost for want of memory and not
      replaced since. */
  datatype History = History(classes: map<Key, bv32>, changed: set<Key>, lost: set<Key>)

  function Sent(h: History, e: Event): History {
    var k, g := KeyOf(e), h.(lost := h.lost - {KeyOf(e)});
    if k !in h.classes then g.(classes := h.classes[k := e.classSet])
    else if h.classes[k] != e.classSet then g.(changed := h.changed + {k})
    else g
  }

  /** Memory was refused for an event of key k. */
  function Lost(h: History, k: Key): History {
    if k in h.classes then h.(lost := h.lost + {k}) else h
  }

  /** A handler with the mask has got the retained event of key k last, if it wants that. It has been
      given events of the key only if it wants them, as long as the key keeps its class set. */
  ghost predicate Informed(received: seq<Event>, classMask: bv32, events: seq<Event>, k: Key, h: History) {
    && (IfWanted(Kept(events, k), classMask).Some? ==> Latest(received, k) == Kept(events, k))
    && (Latest(received, k).Some? ==> k in h.classes && (k !in h.changed ==> InClass(h.classes[k], classMask)))
  }

  /** An event of key k is retained exactly if one was sent and not lost, and has the class set of its
      key as long as that does not change. */
  ghost predicate KeptKnown(events: seq<Event>, k: Key, h: History) {
    && (Kept(events, k).Some? <==> k in h.classes && k !in h.lost)
    && (Kept(events, k).Some? && k !in h.changed ==> Kept(events, k).value.classSet == h.classes[k])
  }

  /** Sending keeps every handler informed, whatever its class set or that of the key. */
  lemma SendInforms(received: seq<Event>, classMask: bv32, events: seq<Event>, e: Event, k: Key, h: History)
    requires OnePerKey(events) && Informed(received, classMask, events, k, h) && KeptKnown(events, k, h)
    ensures Informed(received + Wants([e], classMask), classMask, After(events, e), k, Sent(h, e))
  {
    hide InClass, After, Kept, Latest;
    AfterKeeps(events, e, k);
    OneMore(received, e, classMask, k);
  }

  /** So it does for keys of senders other than that of e. */
  lemma SendInformsOther(received: seq<Event>, classMask: bv32, events: seq<Event>, e: Event, k: Key, h: History)
    requires Informed(received, classMask, events, k, h) && KeyOf(e) != k
    ensures Informed(received + Wants([e], classMask), classMask, events, k, Sent(h, e))
  {
    hide InClass, Kept, Latest;
    OneMore(received, e, classMask, k);
  }

  lemma SendKnown(events: seq<Event>, e: Event, k: Key, h: History)
    requires OnePerKey(events) && KeptKnown(events, k, h)
    ensures KeptKnown(After(events, e), k, Sent(h, e))
  {
    hide After, Kept;
    AfterKeeps(events, e, k);
  }

  /** So are the retained events of senders other than that of e. */
  lemma OtherKnown(events: seq<Event>, e: Event, k: Key, h: History)
    requires KeptKnown(events, k, h) && KeyOf(e) != k
    ensures KeptKnown(events, k, Sent(h, e)) && KeptKnown(events, k, Lost(h, KeyOf(e)))
  {}

  /** Losing the retained event of a key for want of memory keeps every handler informed: nothing is
      retained that it has not got. */
  lemma LossInforms(received: seq<Event>, classMask: bv32, events: seq<Event>, d: Key, k: Key, h: History)
    requires OnePerKey(events) && Informed(received, classMask, events, k, h)
    ensures Informed(received, classMask, Dropped(events, d), k, Lost(h, d))
  {
    DroppedKeeps(events, d, k);
  }

  lemma LossKnown(events: seq<Event>, d: Key, k: Key, h: History)
    requires OnePerKey(events) && KeptKnown(events, k, h)
    ensures KeptKnown(Dropped(events, d), k, Lost(h, d))
  {
    DroppedKeeps(events, d, k);
  }
}
