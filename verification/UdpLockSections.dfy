/**
  The Edge hub once more, one step per critical section instead of one step per operation.

  Between two sections of one operation any other section may run: a negative answer or a timer
  decides that an association fails before `failAssoc` takes the lock, and the session gauge is
  adjusted after the lock is released. Associations are objects that outlive their map entries;
  each is named by its position in `assocs`, and its id is that position plus one.
 */
module UdpLockSections {
  import opened UdpFrames
  import opened Metrics

  /** `releases` counts how often the ready channel was closed. */
  datatype Assoc = Assoc(client: Client, releases: nat, failed: bool)

  datatype State = State(
    assocs: seq<Assoc>,
    byID: map<nat, nat>, byAddr: map<Client, nat>, closed: bool,
    failing: multiset<nat>,      // failAssoc calls that have not taken the lock yet
    due: seq<int>,               // AddSessions calls that have not run yet
    gauge: int, others: nat,
    leaked: nat, lost: nat)      // ready associations failed; amounts cut off by the clamp

  datatype Section =
    | Insert(client: Client)
    | Decide(ref: nat)           // the opener gives up: its timer fired, or its write failed
    | Refuse(id: nat)            // markReady(id, false) up to its unlock
    | Fail(ref: nat)             // failAssoc
    | Accept(id: nat)            // markReady(id, true)
    | Remove(id: nat)
    | Close
    | Adjust(i: nat)             // one pending AddSessions runs
    | Others(delta: int)

  const START := State([], map[], map[], false, multiset{}, [], 0, 0, 0, 0)

  function Id(ref: nat): nat {
    ref + 1
  }

  predicate Enabled(s: State, a: Section) {
    match a
    case Insert(client) => !s.closed && client !in s.byAddr
    case Decide(ref) => ref < |s.assocs|
    case Refuse(id) => id in s.byID
    case Fail(ref) => ref in s.failing && ref < |s.assocs|
    case Accept(id) => id in s.byID && s.byID[id] < |s.assocs|
    case Remove(id) => id in s.byID && s.byID[id] < |s.assocs|
    case Close => !s.closed
    case Adjust(i) => i < |s.due|
    case Others(delta) => delta == 1 || (delta == -1 && s.others > 0)
  }

  function Release(a: Assoc): Assoc {
    if a.releases > 0 then a else a.(releases := 1)
  }

  ghost predicate Live(s: State, ref: nat) {
    ref < |s.assocs| && Id(ref) in s.byID && s.byID[Id(ref)] == ref && s.assocs[ref].releases > 0
  }

  /** The ready associations of the hub. */
  ghost function LiveSet(s: State): set<nat> {
    set ref | 0 <= ref < |s.assocs| && Live(s, ref)
  }

  function InsertStep(s: State, client: Client): State {
    var ref := |s.assocs|;
    s.(assocs := s.assocs + [Assoc(client, 0, false)],
       byID := s.byID[Id(ref) := ref], byAddr := s.byAddr[client := ref])
  }

  ghost function FailStep(s: State, ref: nat): State
    requires ref in s.failing && ref < |s.assocs|
  {
    var x := s.assocs[ref];
    s.(assocs := s.assocs[ref := Release(x).(failed := true)],
       byID := s.byID - {Id(ref)}, byAddr := s.byAddr - {x.client},
       failing := s.failing - multiset{ref},
       leaked := s.leaked + if Live(s, ref) then 1 else 0)
  }

  function AcceptStep(s: State, id: nat): State
    requires id in s.byID && s.byID[id] < |s.assocs|
  {
    var ref := s.byID[id];
    if s.assocs[ref].releases > 0 then s
    else s.(assocs := s.assocs[ref := Release(s.assocs[ref])], due := s.due + [1])
  }

  function RemoveStep(s: State, id: nat): State
    requires id in s.byID && s.byID[id] < |s.assocs|
  {
    var ref := s.byID[id];
    var x := s.assocs[ref];
    var s1 := s.(byID := s.byID - {id}, byAddr := s.byAddr - {x.client});
    if x.releases > 0 then s1.(due := s.due + [-1])
    else s1.(assocs := s.assocs[ref := Release(x).(failed := true)])
  }

  ghost function CloseStep(s: State): State {
    s.(assocs := seq(|s.assocs|, r requires 0 <= r < |s.assocs| =>
                       if Id(r) in s.byID then Release(s.assocs[r]) else s.assocs[r]),
       byID := map[],
       byAddr := s.byAddr - (set id | id in s.byID && s.byID[id] < |s.assocs| :: s.assocs[s.byID[id]].client),
       closed := true, due := s.due + [-|LiveSet(s)|])
  }

  ghost function Next(s: State, a: Section): State
    requires Enabled(s, a)
  {
    match a
    case Insert(client) => InsertStep(s, client)
    case Decide(ref) => s.(failing := s.failing + multiset{ref})
    case Refuse(id) => s.(failing := s.failing + multiset{s.byID[id]})
    case Fail(ref) => FailStep(s, ref)
    case Accept(id) => AcceptStep(s, id)
    case Remove(id) => RemoveStep(s, id)
    case Close => CloseStep(s)
    case Adjust(i) =>
      s.(due := s.due[..i] + s.due[i + 1..], gauge := Clamped(s.gauge, s.due[i]),
         lost := s.lost + (Clamped(s.gauge, s.due[i]) - s.gauge - s.due[i]))
    case Others(delta) => s.(others := s.others + delta, due := s.due + [delta])
  }

  ghost function Run(run: seq<Section>): (end: State)
    decreases |run|
  {
    if run == [] then START
    else
      var before := Run(run[..|run| - 1]);
      var a := run[|run| - 1];
      if Enabled(before, a) then Next(before, a) else before
  }

  ghost function Total(due: seq<int>): int {
    if due == [] then 0 else due[0] + Total(due[1..])
  }

  /** Entries point at associations of that id; whatever byAddr knows, byID knows. */
  ghost predicate Linked(s: State) {
    && (forall id :: id in s.byID ==> s.byID[id] < |s.assocs| && id == Id(s.byID[id]))
    && (forall c :: c in s.byAddr ==>
          && s.byAddr[c] < |s.assocs| && s.assocs[s.byAddr[c]].client == c
          && Id(s.byAddr[c]) in s.byID && s.byID[Id(s.byAddr[c])] == s.byAddr[c])
    && (s.closed ==> s.byID == map[])
  }

  /** No ready channel is closed twice, and none is left open outside the hub. */
  ghost predicate ReleasedOnce(s: State) {
    && (forall r :: 0 <= r < |s.assocs| ==> s.assocs[r].releases <= 1)
    && (forall r :: 0 <= r < |s.assocs| && Id(r) !in s.byID ==> s.assocs[r].releases == 1)
  }

  ghost predicate Accounted(s: State) {
    s.gauge >= 0 && s.gauge + Total(s.due) == s.others + |LiveSet(s)| + s.leaked + s.lost
  }

  ghost predicate Inv(s: State) {
    Linked(s) && ReleasedOnce(s) && Accounted(s)
  }

  lemma {:induction false} TotalPush(due: seq<int>, d: int)
    ensures Total(due + [d]) == Total(due) + d
  {
    if due == [] {
      assert due + [d] == [d];
    } else {
      assert (due + [d])[1..] == due[1..] + [d];
      TotalPush(due[1..], d);
    }
  }

  lemma {:induction false} TotalTake(due: seq<int>, i: nat)
    requires i < |due|
    ensures Total(due[..i] + due[i + 1..]) == Total(due) - due[i]
  {
    if i == 0 {
      assert due[..0] + due[1..] == due[1..];
    } else {
      var rest := due[..i] + due[i + 1..];
      assert rest[1..] == due[1..][..i - 1] + due[1..][i..];
      TotalTake(due[1..], i - 1);
    }
  }

  lemma LinkedNext(s: State, a: Section)
    requires Linked(s) && Enabled(s, a)
    ensures Linked(Next(s, a))
  {
    match a
    case Insert(client) => LinkedInsert(s, client);
    case Fail(ref) => LinkedFail(s, ref);
    case Accept(id) => LinkedAccept(s, id);
    case Remove(id) => LinkedRemove(s, id);
    case Close => LinkedClose(s);
    case _ =>
    hide InsertStep, FailStep, AcceptStep, RemoveStep, CloseStep;
  }

  lemma LinkedInsert(s: State, client: Client)
    requires Linked(s) && !s.closed && client !in s.byAddr
    ensures Linked(InsertStep(s, client))
  {}

  lemma LinkedFail(s: State, ref: nat)
    requires Linked(s) && ref in s.failing && ref < |s.assocs|
    ensures Linked(FailStep(s, ref))
  {
    hide Live;
  }

  lemma LinkedAccept(s: State, id: nat)
    requires Linked(s) && id in s.byID && s.byID[id] < |s.assocs|
    ensures Linked(AcceptStep(s, id))
  {}

  lemma LinkedRemove(s: State, id: nat)
    requires Linked(s) && id in s.byID && s.byID[id] < |s.assocs|
    ensures Linked(RemoveStep(s, id))
  {}

  lemma LinkedClose(s: State)
    requires Linked(s)
    ensures Linked(CloseStep(s))
  {
    hide LiveSet;
    var clients := set id | id in s.byID && s.byID[id] < |s.assocs| :: s.assocs[s.byID[id]].client;
    forall c | c in s.byAddr ensures c in clients {
      assert Id(s.byAddr[c]) in s.byID;
    }
  }

  lemma ReleasedNext(s: State, a: Section)
    requires Linked(s) && ReleasedOnce(s) && Enabled(s, a)
    ensures ReleasedOnce(Next(s, a))
  {
    match a
    case Insert(client) => assert ReleasedOnce(InsertStep(s, client));
    case Fail(ref) => ReleasedFail(s, ref);
    case Accept(id) => assert ReleasedOnce(AcceptStep(s, id));
    case Remove(id) => ReleasedRemove(s, id);
    case Close => ReleasedClose(s);
    case _ =>
    hide InsertStep, FailStep, AcceptStep, RemoveStep, CloseStep;
  }

  lemma ReleasedFail(s: State, ref: nat)
    requires Linked(s) && ReleasedOnce(s) && ref in s.failing && ref < |s.assocs|
    ensures ReleasedOnce(FailStep(s, ref))
  {
    hide Live;
  }

  lemma ReleasedRemove(s: State, id: nat)
    requires Linked(s) && ReleasedOnce(s) && id in s.byID && s.byID[id] < |s.assocs|
    ensures ReleasedOnce(RemoveStep(s, id))
  {}

  lemma ReleasedClose(s: State)
    requires ReleasedOnce(s)
    ensures ReleasedOnce(CloseStep(s))
  {
    hide LiveSet;
  }

  lemma LiveNext(s: State, a: Section)
    requires Linked(s) && Enabled(s, a)
    ensures LiveSet(Next(s, a)) ==
            match a
            case Fail(ref) => LiveSet(s) - {ref}
            case Accept(id) => LiveSet(s) + {s.byID[id]}
            case Remove(id) => LiveSet(s) - {s.byID[id]}
            case Close => {}
            case _ => LiveSet(s)
  {
    match a
    case Insert(client) => assert LiveSet(InsertStep(s, client)) == LiveSet(s);
    case Fail(ref) => LiveFail(s, ref);
    case Accept(id) => LiveAccept(s, id);
    case Remove(id) => LiveRemove(s, id);
    case Close => assert LiveSet(CloseStep(s)) == {};
    case _ => LiveSame(s, Next(s, a));
    hide InsertStep, FailStep, AcceptStep, RemoveStep, CloseStep, LiveSet;
  }

  lemma LiveSame(s: State, t: State)
    requires t.assocs == s.assocs && t.byID == s.byID
    ensures LiveSet(t) == LiveSet(s)
  {}

  lemma LiveFail(s: State, ref: nat)
    requires Linked(s) && ref in s.failing && ref < |s.assocs|
    ensures LiveSet(FailStep(s, ref)) == LiveSet(s) - {ref}
  {}

  lemma LiveAccept(s: State, id: nat)
    requires Linked(s) && id in s.byID && s.byID[id] < |s.assocs|
    ensures LiveSet(AcceptStep(s, id)) == LiveSet(s) + {s.byID[id]}
  {}

  lemma LiveRemove(s: State, id: nat)
    requires Linked(s) && id in s.byID && s.byID[id] < |s.assocs|
    ensures LiveSet(RemoveStep(s, id)) == LiveSet(s) - {s.byID[id]}
  {}

  lemma LiveCounts(s: State, a: Section)
    requires Linked(s) && Enabled(s, a)
    ensures var n, n' := |LiveSet(s)|, |LiveSet(Next(s, a))|;
            match a
            case Fail(ref) => n' == n - if Live(s, ref) then 1 else 0
            case Accept(id) => n' == n + if Live(s, s.byID[id]) then 0 else 1
            case Remove(id) => n' == n - if Live(s, s.byID[id]) then 1 else 0
            case Close => n' == 0
            case _ => n' == n
  {
    LiveNext(s, a);
    hide Next;
    match a
    case Fail(ref) => LiveIs(s, ref);
    case Accept(id) => LiveIs(s, s.byID[id]);
    case Remove(id) => LiveIs(s, s.byID[id]);
    case _ =>
    hide LiveSet, Live, Linked;
  }

  lemma LiveIs(s: State, ref: nat)
    ensures ref in LiveSet(s) <==> Live(s, ref)
  {}

  lemma AccountedNext(s: State, a: Section)
    requires Linked(s) && Accounted(s) && Enabled(s, a)
    ensures Accounted(Next(s, a))
  {
    LiveCounts(s, a);
    hide LiveSet;
    match a
    case Accept(id) => TotalPush(s.due, 1);
    case Remove(id) => TotalPush(s.due, -1);
    case Close => TotalPush(s.due, -|LiveSet(s)|);
    case Adjust(i) => TotalTake(s.due, i);
    case Others(delta) => TotalPush(s.due, delta);
    case _ =>
  }

  lemma {:induction false} InvHolds(run: seq<Section>)
    ensures Inv(Run(run))
    decreases |run|
  {
    if run == [] {
      assert LiveSet(START) == {};
    } else {
      InvHolds(run[..|run| - 1]);
      var s, a := Run(run[..|run| - 1]), run[|run| - 1];
      if Enabled(s, a) {
        LinkedNext(s, a);
        ReleasedNext(s, a);
        AccountedNext(s, a);
      }
    }
  }

  /**
    In every interleaving, a ready channel is closed at most once, and it is closed by the time its
    association leaves the hub. A closed hub has empty maps and nobody left waiting.
   */
  lemma ReleaseExactlyOnce(run: seq<Section>)
    ensures var s := Run(run);
      && (forall r :: 0 <= r < |s.assocs| ==> s.assocs[r].releases <= 1)
      && (forall r :: 0 <= r < |s.assocs| && Id(r) !in s.byID ==> s.assocs[r].releases == 1)
      && (s.closed ==> s.byID == map[] && s.byAddr == map[] && forall r :: 0 <= r < |s.assocs| ==> s.assocs[r].releases == 1)
  {
    InvHolds(run);
    var s := Run(run);
    if s.closed {
      assert forall c :: c in s.byAddr ==> Id(s.byAddr[c]) in s.byID.Keys;
    }
  }

  /** The index by id knows nothing the index by address does not know. */
  ghost predicate FullyIndexed(s: State) {
    forall id :: id in s.byID && s.byID[id] < |s.assocs| ==>
      s.assocs[s.byID[id]].client in s.byAddr && s.byAddr[s.assocs[s.byID[id]].client] == s.byID[id]
  }

  /**
    Between sections only one half of the index coherence survives. A failAssoc that comes late
    takes away the address entry of the client's next association; it keeps the index exactly when
    the client's entry is its own or gone.
   */
  lemma FailKeepsIndexIff(run: seq<Section>, ref: nat)
    requires Enabled(Run(run), Fail(ref)) && FullyIndexed(Run(run))
    ensures var s := Run(run); var client := s.assocs[ref].client;
      FullyIndexed(Next(s, Fail(ref))) <==> (client in s.byAddr ==> s.byAddr[client] == ref)
  {
    InvHolds(run);
    hide Live, LiveSet, Run, Total;
    var s := Run(run);
    var client := s.assocs[ref].client;
    var s' := Next(s, Fail(ref));
    if client in s.byAddr && s.byAddr[client] != ref {
      var other := s.byAddr[client];
      assert Id(other) in s'.byID && s'.assocs[s'.byID[Id(other)]].client == client;
    }
  }

  /** Every other section keeps it. */
  lemma OthersKeepIndex(run: seq<Section>, a: Section)
    requires Enabled(Run(run), a) && FullyIndexed(Run(run)) && !a.Fail?
    ensures FullyIndexed(Next(Run(run), a))
  {
    InvHolds(run);
    hide Live, LiveSet, Run, Total;
  }

  /** Section `i` of the run was taken. */
  ghost predicate Taken(run: seq<Section>, i: nat) {
    i < |run| && Enabled(Run(run[..i]), run[i])
  }

  /** The address entry of the client is the failed association's own, or gone. */
  predicate FailsOwn(s: State, a: Section) {
    a.Fail? && a.ref < |s.assocs| && s.assocs[a.ref].client in s.byAddr ==> s.byAddr[s.assocs[a.ref].client] == a.ref
  }

  ghost predicate IndexedAt(run: seq<Section>, i: nat)
    requires i <= |run|
  {
    FullyIndexed(Run(run[..i]))
  }

  ghost predicate FailsOwnAt(run: seq<Section>, i: nat)
    requires i < |run|
  {
    Taken(run, i) ==> FailsOwn(Run(run[..i]), run[i])
  }

  lemma IndexStepIff(run: seq<Section>, i: nat)
    requires i < |run| && IndexedAt(run, i)
    ensures IndexedAt(run, i + 1) <==> FailsOwnAt(run, i)
  {
    var s, a := Run(run[..i]), run[i];
    assert run[..i + 1][..i] == run[..i];
    assert Run(run[..i + 1]) == if Enabled(s, a) then Next(s, a) else s;
    if Enabled(s, a) {
      if a.Fail? {
        FailKeepsIndexIff(run[..i], a.ref);
      } else {
        OthersKeepIndex(run[..i], a);
      }
    }
    hide Run, Next, Enabled, FullyIndexed;
  }

  /**
    For runs of any length: the index by address is complete at every moment if and only if no
    failAssoc ever found its client under a newer association.
   */
  lemma IndexKeptIff(run: seq<Section>)
    ensures (forall i :: 0 <= i <= |run| ==> IndexedAt(run, i)) <==> (forall i :: 0 <= i < |run| ==> FailsOwnAt(run, i))
  {
    assert IndexedAt(run, 0);
    hide IndexedAt, FailsOwnAt;
    if forall i :: 0 <= i < |run| ==> FailsOwnAt(run, i) {
      for i := 0 to |run|
        invariant forall j :: 0 <= j <= i ==> IndexedAt(run, j)
      {
        IndexStepIff(run, i);
      }
    }
    if forall i :: 0 <= i <= |run| ==> IndexedAt(run, i) {
      forall i | 0 <= i < |run| ensures FailsOwnAt(run, i) {
        assert IndexedAt(run, i + 1);
        IndexStepIff(run, i);
      }
    }
  }

  lemma RunStep(run: seq<Section>, a: Section, s: State)
    requires Run(run) == s && Enabled(s, a)
    ensures Run(run + [a]) == Next(s, a)
  {
    assert (run + [a])[..|run + [a]| - 1] == run;
  }

  /** One association, waiting for its answer. */
  const OPENED := START.(assocs := [Assoc("a", 0, false)], byID := map[1 := 0], byAddr := map["a" := 0])

  lemma OpenedRun()
    ensures Run([Insert("a")]) == OPENED
  {
    assert Next(START, Insert("a")) == OPENED && Run([]) == START;
    hide Run, Next;
    RunStep([], Insert("a"), START);
    assert [] + [Insert("a")] == [Insert("a")];
  }

  /** A refused association is evicted and its client comes back before failAssoc gets the lock. */
  const LATE_FAILURE: seq<Section> := [Insert("a")] + [Refuse(1)] + [Remove(1)] + [Insert("a")] + [Fail(0)]

  lemma LateFailureUnindexes()
    ensures !FullyIndexed(Run(LATE_FAILURE))
  {
    OpenedRun();
    hide Run, LiveSet, Live;
    var run := [Insert("a")];
    RunStep(run, Refuse(1), OPENED);
    var s2 := OPENED.(failing := multiset{0});
    assert Next(OPENED, Refuse(1)) == s2;
    RunStep(run + [Refuse(1)], Remove(1), s2);
    var s3 := s2.(assocs := [Assoc("a", 1, true)], byID := map[], byAddr := map[]);
    assert Next(s2, Remove(1)) == s3;
    RunStep(run + [Refuse(1)] + [Remove(1)], Insert("a"), s3);
    var s4 := s3.(assocs := [Assoc("a", 1, true), Assoc("a", 0, false)], byID := map[2 := 1], byAddr := map["a" := 1]);
    assert Next(s3, Insert("a")) == s4;
    RunStep(run + [Refuse(1)] + [Remove(1)] + [Insert("a")], Fail(0), s4);
    assert Next(s4, Fail(0)).byID[2] == 1;
  }

  /** An update of the gauge that would take it below zero. */
  predicate MeetsClamp(s: State, a: Section) {
    a.Adjust? && a.i < |s.due| && s.gauge + s.due[a.i] < 0
  }

  /** A failAssoc that comes after the association was accepted. */
  ghost predicate FailsReady(s: State, a: Section) {
    a.Fail? && Live(s, a.ref)
  }

  ghost predicate NeverClamped(run: seq<Section>) {
    forall i :: 0 <= i < |run| && Taken(run, i) ==> !MeetsClamp(Run(run[..i]), run[i])
  }

  ghost predicate NeverFailsReady(run: seq<Section>) {
    forall i :: 0 <= i < |run| && Taken(run, i) ==> !FailsReady(Run(run[..i]), run[i])
  }

  lemma {:induction false} LossesCounted(run: seq<Section>)
    ensures Run(run).lost == 0 <==> NeverClamped(run)
    ensures Run(run).leaked == 0 <==> NeverFailsReady(run)
    decreases |run|
  {
    if run != [] {
      var n := |run| - 1;
      LossesCounted(run[..n]);
      OneMoreTaken(run);
      LossStep(run);
      hide *;
    }
  }

  lemma LossStep(run: seq<Section>)
    requires run != []
    ensures var n := |run| - 1; var s, s' := Run(run[..n]), Run(run);
      && (s'.lost == 0 <==> s.lost == 0 && !(Taken(run, n) && MeetsClamp(s, run[n])))
      && (s'.leaked == 0 <==> s.leaked == 0 && !(Taken(run, n) && FailsReady(s, run[n])))
  {
    var n := |run| - 1;
    var s := Run(run[..n]);
    assert Run(run) == if Enabled(s, run[n]) then Next(s, run[n]) else s;
    hide Run, Next, Enabled, MeetsClamp, FailsReady;
    if Enabled(s, run[n]) {
      LossNext(s, run[n]);
    }
  }

  lemma LossNext(s: State, a: Section)
    requires Enabled(s, a)
    ensures Next(s, a).lost == 0 <==> s.lost == 0 && !MeetsClamp(s, a)
    ensures Next(s, a).leaked == 0 <==> s.leaked == 0 && !FailsReady(s, a)
  {
    if !a.Fail? && !a.Adjust? {
      NothingLost(s, a);
    }
    hide Live, LiveSet, InsertStep, AcceptStep, RemoveStep, CloseStep;
  }

  lemma NothingLost(s: State, a: Section)
    requires Enabled(s, a) && !a.Fail? && !a.Adjust?
    ensures Next(s, a).lost == s.lost && Next(s, a).leaked == s.leaked
  {
    hide Live, LiveSet;
  }

  lemma OneMoreTaken(run: seq<Section>)
    requires run != []
    ensures var n := |run| - 1;
      && (NeverClamped(run) <==> NeverClamped(run[..n]) && !(Taken(run, n) && MeetsClamp(Run(run[..n]), run[n])))
      && (NeverFailsReady(run) <==> NeverFailsReady(run[..n]) && !(Taken(run, n) && FailsReady(Run(run[..n]), run[n])))
  {
    hide Run, Enabled, MeetsClamp, FailsReady;
    var n := |run| - 1;
    forall i | 0 <= i < n ensures Taken(run, i) == Taken(run[..n], i) && run[..n][..i] == run[..i] && run[..n][i] == run[i] {
      assert run[..n][..i] == run[..i];
    }
    hide Taken;
  }

  /**
    Once no adjustment is pending, the gauge shows the live sessions plus what failAssoc dropped
    without counting and what the clamp cut off. So it is right exactly when no adjustment met the
    clamp and no failAssoc found its association accepted.
   */
  lemma GaugeDrift(run: seq<Section>)
    requires Run(run).due == []
    ensures var s := Run(run);
      && s.gauge == s.others + |LiveSet(s)| + s.leaked + s.lost
      && (s.gauge == s.others + |LiveSet(s)| <==> NeverClamped(run) && NeverFailsReady(run))
  {
    InvHolds(run);
    LossesCounted(run);
    hide Run, LiveSet, NeverClamped, NeverFailsReady, Linked, ReleasedOnce;
  }

  /** The gauge is adjusted down before it is adjusted up, and the clamp forgets the first. */
  const REORDERED: seq<Section> := [Insert("a")] + [Accept(1)] + [Remove(1)] + [Adjust(1)] + [Adjust(0)]

  lemma ReorderingLosesUpdate()
    ensures var s := Run(REORDERED); s.due == [] && s.lost == 1 && s.gauge == 1 && LiveSet(s) == {} && s.others == 0
  {
    OpenedRun();
    hide Run, LiveSet, Live;
    var run := [Insert("a")];
    RunStep(run, Accept(1), OPENED);
    var s2 := OPENED.(assocs := [Assoc("a", 1, false)], due := [1]);
    assert Next(OPENED, Accept(1)) == s2;
    RunStep(run + [Accept(1)], Remove(1), s2);
    var s3 := s2.(byID := map[], byAddr := map[], due := [1, -1]);
    assert Next(s2, Remove(1)) == s3;
    RunStep(run + [Accept(1)] + [Remove(1)], Adjust(1), s3);
    var s4 := s3.(due := [1], lost := 1);
    assert Next(s3, Adjust(1)) == s4;
    RunStep(run + [Accept(1)] + [Remove(1)] + [Adjust(1)], Adjust(0), s4);
    assert Next(s4, Adjust(0)) == s4.(due := [], gauge := 1);
    NoneLive(s4.(due := [], gauge := 1));
  }

  lemma NoneLive(s: State)
    requires s.byID == map[]
    ensures LiveSet(s) == {}
  {}

  /** The answer arrives between the timer and failAssoc. */
  const LATE_TIMEOUT: seq<Section> := [Insert("a")] + [Decide(0)] + [Accept(1)] + [Fail(0)] + [Adjust(0)]

  lemma LateTimeoutLeaks()
    ensures var s := Run(LATE_TIMEOUT); s.due == [] && s.leaked == 1 && s.gauge == 1 && LiveSet(s) == {} && s.others == 0
  {
    OpenedRun();
    hide Run, LiveSet;
    var run := [Insert("a")];
    RunStep(run, Decide(0), OPENED);
    var s2 := OPENED.(failing := multiset{0});
    assert Next(OPENED, Decide(0)) == s2;
    RunStep(run + [Decide(0)], Accept(1), s2);
    var s3 := s2.(assocs := [Assoc("a", 1, false)], due := [1]);
    assert Next(s2, Accept(1)) == s3;
    RunStep(run + [Decide(0)] + [Accept(1)], Fail(0), s3);
    var s4 := s3.(assocs := [Assoc("a", 1, true)], byID := map[], byAddr := map[], failing := multiset{}, leaked := 1);
    FailsLive(s3);
    RunStep(run + [Decide(0)] + [Accept(1)] + [Fail(0)], Adjust(0), s4);
    NoneLive(Next(s4, Adjust(0)));
  }

  lemma FailsLive(s: State)
    requires s == OPENED.(failing := multiset{0}, assocs := [Assoc("a", 1, false)], due := [1])
    ensures Next(s, Fail(0))
         == s.(assocs := [Assoc("a", 1, true)], byID := map[], byAddr := map[], failing := multiset{}, leaked := 1)
  {
    assert s.byID - {1} == map[] && s.byAddr - {"a"} == map[];
  }
}
