/** Handing out a jack of a hub while the hub's port counts change. The last part of an allocation
    holds no lock: it copies the hub's total into the jack, and then sets the jack's private field,
    from which on the jack takes part in counting. A count pass runs under the structure mutex, which
    an allocation does not take. Each step below reads or writes one jack. */
module HandOut {
  import opened Options
  import opened Jacks

  /** Whether the private field of a jack is set, or its count has been copied but not that yet. */
  datatype Phase = Unused | Copied(count: int) | Published

  /** Where the hub's count pass stands: in its first loop, in its second, or not running. entry is the
      jack that told the hub. */
  datatype Pass = Quiet | Summing(entry: nat, k: nat) | Pushing(entry: nat, k: nat)

  /** attached is what each jack's peer counts. mismatch tells whether the mismatch was logged, raced
      whether a pass ever ran while a jack was copied and not yet published. */
  datatype Hub = Hub(phase: seq<Phase>, numPorts: seq<int>, attached: seq<nat>, total: int, pass: Pass, mismatch: bool,
                     raced: bool)

  datatype Step = Copy(i: nat) | Publish(i: nat) | Withdraw(i: nat) | Begin(entry: nat, n: nat) | Advance

  const N: nat := NUM_JACKS_PER_HUB

  predicate Whole(s: Hub) {
    |s.phase| == N && |s.numPorts| == N && |s.attached| == N
  }

  predicate AnyCopied(s: Hub) {
    exists i :: 0 <= i < |s.phase| && s.phase[i].Copied?
  }

  function SumUpTo(a: seq<nat>, n: nat): int
    requires n <= |a|
  {
    if n == 0 then 0 else SumUpTo(a, n - 1) + a[n - 1]
  }

  /** One round of the loop in which the pass is. */
  function Round(s: Hub): Hub
    requires Whole(s)
  {
    match s.pass
    case Quiet => s
    case Summing(e, k) =>
      if k >= N then s.(pass := Pushing(e, 0))
      else s.(total := s.total + if s.phase[k] == Published then s.attached[k] else 0, pass := Summing(e, k + 1))
    case Pushing(e, k) =>
      if k >= N then s.(pass := Quiet)
      else
        var t := s.(pass := Pushing(e, k + 1));
        var count := s.total - s.attached[k];
        if s.phase[k] != Published then t
        else if k == e then t.(mismatch := s.mismatch || count != s.numPorts[k])
        else t.(numPorts := s.numPorts[k := count])
  }

  /** What a step makes of a hub; None if it cannot be taken. A pass begins when what is attached to
      its entry jack has become n; a jack is withdrawn when it has been unplugged. */
  function Do(s: Hub, step: Step): Option<Hub>
    requires Whole(s)
    ensures Do(s, step).Some? ==> Whole(Do(s, step).value)
  {
    match step
    case Copy(i) =>
      if i >= N || s.phase[i] != Unused then None
      else
        Some(s.(phase := s.phase[i := Copied(s.total)], numPorts := s.numPorts[i := s.total],
                raced := s.raced || s.pass != Quiet))
    case Publish(i) =>
      if i >= N || !s.phase[i].Copied? then None else Some(s.(phase := s.phase[i := Published]))
    case Withdraw(i) =>
      if i >= N || s.phase[i] != Published || s.attached[i] != 0 || (s.pass != Quiet && s.pass.entry == i) then None
      else Some(s.(phase := s.phase[i := Unused]))
    case Begin(e, n) =>
      if e >= N || s.phase[e] != Published || s.pass != Quiet then None
      else Some(s.(attached := s.attached[e := n], total := 0, pass := Summing(e, 0), raced := s.raced || AnyCopied(s)))
    case Advance =>
      if s.pass == Quiet then None else Some(Round(s))
  }

  /** The jack counts what is attached to the others. */
  predicate Right(s: Hub, i: nat)
    requires Whole(s) && i < N
  {
    s.numPorts[i] == SumUpTo(s.attached, N) - s.attached[i]
  }

  // ----- What every state satisfies -----

  /** Whatever the interleaving: only published jacks have something attached, a copied jack keeps
      the count that was copied, and the total is what the pass has summed. */
  predicate Sums(s: Hub) {
    && Whole(s)
    && (forall i :: 0 <= i < N && s.phase[i] != Published ==> s.attached[i] == 0)
    && (forall i :: 0 <= i < N && s.phase[i].Copied? ==> s.numPorts[i] == s.phase[i].count)
    && match s.pass
       case Quiet => s.total == SumUpTo(s.attached, N)
       case Summing(e, k) => e < N && s.phase[e] == Published && k <= N && s.total == SumUpTo(s.attached, k)
       case Pushing(e, k) => e < N && s.phase[e] == Published && k <= N && s.total == SumUpTo(s.attached, N)
  }

  /** Without a race, jacks are right outside passes, and in a pass the entry jack and those that the
      pass has dealt with. */
  predicate Counts(s: Hub)
    requires Whole(s)
  {
    && !s.mismatch
    && (s.pass != Quiet ==> !AnyCopied(s) && (s.pass.entry < N ==> Right(s, s.pass.entry)))
    && forall i :: 0 <= i < N && s.phase[i] != Unused && (s.pass.Quiet? || (s.pass.Pushing? && i < s.pass.k)) ==>
      Right(s, i)
  }

  predicate Inv(s: Hub) {
    Sums(s) && (!s.raced ==> Counts(s))
  }

  lemma {:induction false} SumWith(a: seq<nat>, e: nat, n: nat, k: nat)
    requires e < |a| && k <= |a|
    ensures SumUpTo(a[e := n], k) == SumUpTo(a, k) + if e < k then n - a[e] else 0
  {
    if k > 0 { SumWith(a, e, n, k - 1); }
  }

  lemma StepKeeps(s: Hub, step: Step)
    requires Inv(s) && Do(s, step).Some?
    ensures Inv(Do(s, step).value)
  {
    hide SumUpTo;
    var t := Do(s, step).value;
    match step {
      case Copy(i) => if !t.raced { assert forall j :: 0 <= j < N && j != i ==> t.phase[j] == s.phase[j]; }
      case Publish(i) => if !t.raced { assert s.phase[i].Copied?; }
      case Withdraw(i) => if !t.raced && s.pass != Quiet { assert !AnyCopied(t); }
      case Begin(e, n) => BeginKeeps(s, e, n);
      case Advance => RoundKeeps(s);
    }
  }

  lemma BeginKeeps(s: Hub, e: nat, n: nat)
    requires Inv(s) && Do(s, Begin(e, n)).Some?
    ensures Inv(Do(s, Begin(e, n)).value)
  {
    var t := Do(s, Begin(e, n)).value;
    SumWith(s.attached, e, n, N);
    assert SumUpTo(t.attached, 0) == 0;
  }

  lemma RoundKeeps(s: Hub)
    requires Inv(s) && s.pass != Quiet
    ensures Inv(Round(s))
  {
    var t := Round(s);
    assert SumUpTo(s.attached, 0) == 0;
    if s.pass.Summing? && s.pass.k < N {
      assert SumUpTo(s.attached, s.pass.k + 1) == SumUpTo(s.attached, s.pass.k) + s.attached[s.pass.k];
    }
    hide SumUpTo;
    if !s.raced { assert !AnyCopied(t); }
  }

  // ----- Whole runs -----

  const START := Hub(seq(N, _ => Unused), seq(N, _ => 0), seq(N, _ => 0), 0, Quiet, false, false)

  lemma {:induction false} NoPorts(a: seq<nat>, n: nat)
    requires n <= |a| && forall i :: 0 <= i < |a| ==> a[i] == 0
    ensures SumUpTo(a, n) == 0
  {
    if n > 0 { NoPorts(a, n - 1); }
  }

  lemma StartOK()
    ensures Inv(START)
  {
    NoPorts(START.attached, N);
  }

  /** The state after a run from s; None if some step could not be taken. */
  function Run(s: Hub, steps: seq<Step>): (r: Option<Hub>)
    requires Whole(s)
    ensures r.Some? ==> Whole(r.value)
    decreases |steps|
  {
    if steps == [] then Some(s)
    else
      match Do(s, steps[0])
      case None => None
      case Some(t) => Run(t, steps[1..])
  }

  lemma {:induction false} RunKeeps(s: Hub, steps: seq<Step>)
    requires Inv(s) && Run(s, steps).Some?
    ensures Inv(Run(s, steps).value)
    decreases |steps|
  {
    hide Inv, Do;
    assert Whole(s) by { WholeOf(s); }
    if steps != [] {
      StepKeeps(s, steps[0]);
      RunKeeps(Do(s, steps[0]).value, steps[1..]);
    }
  }

  lemma WholeOf(s: Hub)
    requires Inv(s)
    ensures Whole(s)
  {}

  /** Over any run in which no pass runs while a jack is between copy and publication, the mismatch is
      never logged, and between passes every jack that was handed out counts what is attached to the
      others. */
  lemma CountsRightUnraced(steps: seq<Step>, i: nat)
    requires Run(START, steps).Some? && !Run(START, steps).value.raced && i < N
    ensures var s := Run(START, steps).value;
      !s.mismatch && (s.pass == Quiet && s.phase[i] == Published ==> Right(s, i))
  {
    StartOK();
    RunKeeps(START, steps);
  }

  /** The pass that is running has still to come by jack i. */
  predicate Due(s: Hub, i: nat) {
    s.pass.Summing? || (s.pass.Pushing? && i >= s.pass.k)
  }

  /** A published jack is right, or the running pass will set its count right. */
  predicate Settles(s: Hub, i: nat)
    requires Whole(s) && i < N
  {
    Due(s, i) || Right(s, i)
  }

  /** Jack i is published, and did not start the running pass. */
  predicate Waits(s: Hub, i: nat)
    requires Whole(s)
  {
    i < N && s.phase[i] == Published && (s.pass != Quiet ==> s.pass.entry != i)
  }

  /** What the other jacks do: jack i neither starts a pass nor is withdrawn. */
  predicate OfOthers(step: Step, i: nat) {
    !(step.Begin? && step.entry == i) && step != Withdraw(i)
  }

  /** A step of the others changes whether jack i settles only by starting a pass, after which it does. */
  lemma StepSettles(s: Hub, step: Step, i: nat)
    requires Sums(s) && Waits(s, i) && OfOthers(step, i) && Do(s, step).Some?
    ensures var t := Do(s, step).value;
      Waits(t, i) && (Settles(t, i) <==> Settles(s, i) || step.Begin?)
  {
    hide SumUpTo;
  }

  predicate AnyBegin(steps: seq<Step>) {
    exists k :: 0 <= k < |steps| && steps[k].Begin?
  }

  lemma {:induction false} RunSettles(s: Hub, steps: seq<Step>, i: nat)
    requires Inv(s) && Waits(s, i) && (forall k :: 0 <= k < |steps| ==> OfOthers(steps[k], i)) && Run(s, steps).Some?
    ensures var t := Run(s, steps).value; i < N && (Settles(t, i) <==> Settles(s, i) || AnyBegin(steps))
    decreases |steps|
  {
    WholeOf(s);
    hide Do, Settles, Counts, OfOthers;
    if steps != [] {
      var rest := steps[1..];
      StepKeeps(s, steps[0]);
      StepSettles(s, steps[0], i);
      assert forall k :: 0 <= k < |rest| ==> rest[k] == steps[k + 1];
      RunSettles(Do(s, steps[0]).value, rest, i);
      if AnyBegin(steps) && !steps[0].Begin? {
        var k :| 0 <= k < |steps| && steps[k].Begin?;
        assert rest[k - 1].Begin?;
      }
    }
  }

  /** Whatever the interleaving, and wherever a pass stands: at the end of any passes, a jack that was
      handed out, and has been left alone, has the right count exactly if the pass during which it was
      published had still to come by it, or the hub's total was what it was when it was copied, or
      another pass has run since. */
  lemma HandedOutRight(steps: seq<Step>, i: nat, later: seq<Step>)
    requires Run(START, steps).Some? && i < N && Run(START, steps).value.phase[i].Copied?
    requires forall k :: 0 <= k < |later| ==> OfOthers(later[k], i)
    requires var s := Do(Run(START, steps).value, Publish(i)).value;
      Run(s, later).Some? && Run(s, later).value.pass == Quiet
    ensures var s := Run(START, steps).value;
      Right(Run(Do(s, Publish(i)).value, later).value, i)
      <==> Due(s, i) || s.phase[i].count == s.total || AnyBegin(later)
  {
    StartOK();
    RunKeeps(START, steps);
    var s := Run(START, steps).value;
    PublishSettles(s, i);
    RunSettles(Do(s, Publish(i)).value, later, i);
  }

  lemma PublishSettles(s: Hub, i: nat)
    requires Inv(s) && i < N && s.phase[i].Copied?
    ensures var t := Do(s, Publish(i)).value;
      Inv(t) && Waits(t, i) && (Settles(t, i) <==> Due(s, i) || s.phase[i].count == s.total)
  {
    hide SumUpTo;
    StepKeeps(s, Publish(i));
  }

  /** Whatever the interleaving, a pass logs the mismatch exactly if the jack that told the hub has a
      wrong count. */
  lemma LoggedIfWrong(steps: seq<Step>)
    requires Run(START, steps).Some?
    requires var s := Run(START, steps).value; s.pass.Pushing? && s.pass.k == s.pass.entry && !s.mismatch
    ensures var s := Run(START, steps).value; s.pass.entry < N && (Round(s).mismatch <==> !Right(s, s.pass.entry))
  {
    StartOK();
    RunKeeps(START, steps);
  }

  // ----- A race -----

  lemma {:induction false} RunThen(s: Hub, a: seq<Step>, b: seq<Step>)
    requires Whole(s) && Run(s, a).Some?
    ensures Run(s, a + b) == Run(Run(s, a).value, b)
    decreases |a|
  {
    if a == [] {
      assert a + b == b;
    } else {
      assert (a + b)[1..] == a[1..] + b;
      RunThen(Do(s, a[0]).value, a[1..], b);
    }
  }

  /** The rest of a pass's first loop. */
  lemma {:induction false} FinishSum(s: Hub) returns (steps: seq<Step>, t: Hub)
    requires Inv(s) && s.pass.Summing?
    ensures Inv(t) && Run(s, steps) == Some(t)
    ensures t == s.(total := SumUpTo(s.attached, N), pass := Pushing(s.pass.entry, 0))
    decreases N - s.pass.k
  {
    RoundKeeps(s);
    if s.pass.k == N {
      steps, t := [Advance], Round(s);
    } else {
      var rest;
      rest, t := FinishSum(Round(s));
      steps := [Advance] + rest;
      assert steps[1..] == rest;
    }
  }

  /** The rest of its second loop, which leaves jacks alone that are not published. */
  lemma {:induction false} FinishPush(s: Hub) returns (steps: seq<Step>, t: Hub)
    requires Inv(s) && s.pass.Pushing?
    ensures Inv(t) && Run(s, steps) == Some(t)
    ensures t == s.(numPorts := t.numPorts, pass := Quiet, mismatch := t.mismatch)
    ensures forall i :: 0 <= i < N && s.phase[i] != Published ==> t.numPorts[i] == s.numPorts[i]
    decreases N - s.pass.k
  {
    RoundKeeps(s);
    if s.pass.k == N {
      steps, t := [Advance], Round(s);
    } else {
      var rest;
      rest, t := FinishPush(Round(s));
      steps := [Advance] + rest;
      assert steps[1..] == rest;
    }
  }

  /** A port is connected to jack 0 between the copy of the total into jack 1 and its publication: jack
      1 is handed out with count 0 although there is a port, and the pass of its own connect logs the
      mismatch. */
  lemma StaleCount() returns (before: seq<Step>, after: seq<Step>)
    ensures Run(START, before).Some? && Run(START, before + after).Some?
    ensures var s := Run(START, before).value;
      && s.phase[1] == Published && s.pass == Quiet && s.numPorts[1] == 0
      && SumUpTo(s.attached, N) == 1 && s.attached[1] == 0
    ensures Run(START, before + after).value.mismatch
  {
    var first := [Copy(0), Publish(0), Copy(1), Begin(0, 1)];
    var s := FirstSteps();
    var sum, t := FinishSum(s);
    var push, u := FinishPush(t);
    var v := Do(u, Publish(1)).value;
    before := first + sum + push + [Publish(1)];
    RunThen(START, first, sum);
    RunThen(START, first + sum, push);
    RunThen(START, first + sum + push, [Publish(1)]);
    assert Run(v, []) == Some(v);
    after := LaterSteps(v);
    RunThen(START, before, after);
  }

  lemma FirstSteps() returns (s: Hub)
    ensures Run(START, [Copy(0), Publish(0), Copy(1), Begin(0, 1)]) == Some(s)
    ensures Inv(s) && s.pass == Summing(0, 0) && s.phase[1].Copied? && s.numPorts[1] == 0 && s.attached[1] == 0
    ensures SumUpTo(s.attached, N) == 1
  {
    StartOK();
    var all := [Copy(0), Publish(0), Copy(1), Begin(0, 1)];
    var a := Do(START, Copy(0)).value;
    var b := Do(a, Publish(0)).value;
    var c := Do(b, Copy(1)).value;
    s := Do(c, Begin(0, 1)).value;
    assert all[1..][1..][1..] == [Begin(0, 1)] && all[1..][1..][1..][1..] == [];
    NoPorts(START.attached, N);
    SumWith(START.attached, 0, 1, N);
    assert Run(s, []) == Some(s);
    RunKeeps(START, all);
  }

  /** A connect of jack 1 to a port, until the pass has come by it. */
  lemma LaterSteps(v: Hub) returns (after: seq<Step>)
    requires Inv(v) && v.phase[1] == Published && v.pass == Quiet && v.numPorts[1] == 0
    requires SumUpTo(v.attached, N) == 1 && v.attached[1] == 0
    ensures Run(v, after).Some? && Run(v, after).value.mismatch
  {
    var s := Do(v, Begin(1, 1)).value;
    BeginKeeps(v, 1, 1);
    SumWith(v.attached, 1, 1, N);
    var sum, t := FinishSum(s);
    RoundKeeps(t);
    var two := Round(Round(t));
    after := [Begin(1, 1)] + sum + [Advance, Advance];
    assert after[1..] == sum + [Advance, Advance];
    RunThen(s, sum, [Advance, Advance]);
    assert [Advance, Advance][1..] == [Advance] && [Advance][1..] == [];
    assert Run(two, []) == Some(two);
  }
}
