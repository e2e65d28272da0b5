/**
  The compare-and-swap loop of the session gauge, with any number of callers in it at once: it behaves
  as if every call were a single clamped update.
 */
module GaugeRaces {
  import opened Options
  import opened Metrics

  /** `seen` is the value a caller last loaded, `at` how many updates had happened by then. */
  datatype Call = Call(delta: int, seen: Option<int>, at: nat, done: bool)

  /** `applied` lists the calls whose swap succeeded, in order. */
  datatype State = State(gauge: int, calls: seq<Call>, applied: seq<nat>)

  datatype Step = Begin(delta: int) | Load(i: nat) | Swap(i: nat)

  const START := State(0, [], [])

  predicate Enabled(s: State, a: Step) {
    match a
    case Begin(_) => true
    case Load(i) => i < |s.calls| && !s.calls[i].done && s.calls[i].seen.None?
    case Swap(i) => i < |s.calls| && !s.calls[i].done && s.calls[i].seen.Some?
  }

  function Next(s: State, a: Step): State
    requires Enabled(s, a)
  {
    match a
    case Begin(delta) => s.(calls := s.calls + [Call(delta, None, 0, false)])
    case Load(i) => s.(calls := s.calls[i := s.calls[i].(seen := Some(s.gauge), at := |s.applied|)])
    case Swap(i) =>
      var c := s.calls[i];
      if s.gauge != c.seen.value then s.(calls := s.calls[i := c.(seen := None)])
      else State(Clamped(c.seen.value, c.delta), s.calls[i := c.(done := true)], s.applied + [i])
  }

  function Run(run: seq<Step>): State
    decreases |run|
  {
    if run == [] then START
    else
      var before := Run(run[..|run| - 1]);
      var a := run[|run| - 1];
      if Enabled(before, a) then Next(before, a) else before
  }

  /** Single clamped updates, one after the other. */
  function Atomically(calls: seq<Call>, order: seq<nat>): int
    requires forall j :: 0 <= j < |order| ==> order[j] < |calls|
  {
    if order == [] then 0
    else Clamped(Atomically(calls, order[..|order| - 1]), calls[order[|order| - 1]].delta)
  }

  ghost predicate Inv(s: State) {
    && (forall j :: 0 <= j < |s.applied| ==> s.applied[j] < |s.calls|)
    && (forall i :: 0 <= i < |s.calls| ==> multiset(s.applied)[i] == if s.calls[i].done then 1 else 0)
    && s.gauge == Atomically(s.calls, s.applied)
    && (forall i :: 0 <= i < |s.calls| && s.calls[i].seen.Some? && !s.calls[i].done ==>
          s.calls[i].at <= |s.applied| && (s.calls[i].at == |s.applied| ==> s.calls[i].seen == Some(s.gauge)))
  }

  /** Only the deltas of the applied calls matter. */
  lemma {:induction false} SameDeltas(calls: seq<Call>, calls': seq<Call>, order: seq<nat>)
    requires forall j :: 0 <= j < |order| ==>
               order[j] < |calls| && order[j] < |calls'| && calls[order[j]].delta == calls'[order[j]].delta
    ensures Atomically(calls, order) == Atomically(calls', order)
  {
    if order != [] {
      SameDeltas(calls, calls', order[..|order| - 1]);
    }
  }

  lemma AppliedMore(calls: seq<Call>, order: seq<nat>, i: nat)
    requires i < |calls| && forall j :: 0 <= j < |order| ==> order[j] < |calls|
    ensures Atomically(calls, order + [i]) == Clamped(Atomically(calls, order), calls[i].delta)
  {
    assert (order + [i])[..|order|] == order;
  }

  lemma InvStep(s: State, a: Step)
    requires Inv(s) && Enabled(s, a)
    ensures Inv(Next(s, a))
  {
    var s' := Next(s, a);
    SameDeltas(s.calls, s'.calls, s.applied);
    match a
    case Begin(_) =>
      assert |s.calls| !in s.applied;
      hide Atomically;
    case Load(_) =>
      hide Atomically;
    case Swap(i) =>
      SwapStep(s, i);
  }

  lemma SwapStep(s: State, i: nat)
    requires Inv(s) && Enabled(s, Swap(i))
    ensures Inv(Next(s, Swap(i)))
  {
    var s' := Next(s, Swap(i));
    SameDeltas(s.calls, s'.calls, s.applied);
    if s.gauge == s.calls[i].seen.value {
      AppliedMore(s'.calls, s.applied, i);
      assert s'.applied == s.applied + [i];
    }
    hide Atomically;
  }

  lemma {:induction false} InvHolds(run: seq<Step>)
    ensures Inv(Run(run))
    decreases |run|
  {
    if run != [] {
      hide Inv, Next, Enabled;
      InvHolds(run[..|run| - 1]);
      if Enabled(Run(run[..|run| - 1]), run[|run| - 1]) {
        InvStep(Run(run[..|run| - 1]), run[|run| - 1]);
      }
    } else {
      assert Inv(START);
    }
  }

  /**
    However callers interleave, the gauge is what the finished calls make of it one at a time, in the
    order in which they finished and each exactly once; and it is never negative.
   */
  lemma LoopIsAtomic(run: seq<Step>)
    ensures var s := Run(run);
      && (forall j :: 0 <= j < |s.applied| ==> s.applied[j] < |s.calls|)
      && s.gauge == Atomically(s.calls, s.applied) >= 0
      && (forall i :: 0 <= i < |s.calls| ==> multiset(s.applied)[i] == if s.calls[i].done then 1 else 0)
  {
    InvHolds(run);
  }

  /** A caller goes around again only because another call has finished in between. */
  lemma RetryMeansProgress(run: seq<Step>, i: nat)
    requires Enabled(Run(run), Swap(i)) && !Next(Run(run), Swap(i)).calls[i].done
    ensures Run(run).calls[i].at < |Run(run).applied|
  {
    InvHolds(run);
  }
}
