/**
  What holds in every world the UDP association protocol reaches: the results, stated over the
  hub, the mirror, the queues and the logs themselves.
 */
module UdpTheorems {
  import opened Options
  import opened UdpFrames
  import opened UdpHubModel
  import opened UdpProtocol
  import opened UdpInvariant
  import opened UdpReachable

  /** `w` is reached by `run`, and the 32-bit ids were not exhausted. */
  ghost predicate Reached(lim: Limits, run: seq<Step>, w: World) {
    After(lim, run) == Some(w) && w.hist.opens <= 4_294_967_296
  }

  ghost function AnswersInFlight(w: World, id: nat): nat {
    Count(w.a2e, Accepting, id) + Count(w.a2e, Refusing, id)
    + (if w.answer.Some? && w.answer.value.id == id then 1 else 0)
  }

  ghost function ClosesToAgent(w: World, id: nat): nat {
    Count(w.e2a, Closing, id) + (if id in w.edgeClosing then 1 else 0)
  }

  ghost function ClosesToEdge(w: World, id: nat): nat {
    Count(w.a2e, Closing, id) + (if id in w.agentClosing then 1 else 0)
  }

  /** OpenAssoc frames that the Agent has not seen, written or not. */
  ghost function OpensToAgent(w: World, id: nat): nat {
    Count(w.e2a, Opening, id) + (if id in w.edgeOpening then 1 else 0)
  }

  /**
    A pending id has exactly one OpenAssoc or answer in flight, a ready id has none and is open at
    the Agent or has its CloseAssoc on the way back, and an id that the Edge dropped but the Agent
    still holds, or will still open, has its CloseAssoc on the way to it, unless that CloseAssoc was
    written before its OpenAssoc.
   */
  lemma JointInvariant(lim: Limits, run: seq<Step>, w: World, id: nat)
    requires Reached(lim, run, w)
    ensures id in w.edge.byID && w.edge.byID[id].phase == Pending ==>
              OpensToAgent(w, id) + AnswersInFlight(w, id) == 1
    ensures id in ReadyIds(w.edge) ==>
              OpensToAgent(w, id) + AnswersInFlight(w, id) == 0
    ensures id in ReadyIds(w.edge) && !w.agent.closed ==>
              (id in w.agent.open <==> ClosesToEdge(w, id) == 0) && ClosesToEdge(w, id) <= 1
    ensures !w.edge.closed && id !in w.edge.byID && id !in w.hist.missed ==>
              (id in w.agent.open || OpensToAgent(w, id) > 0 ==> ClosesToAgent(w, id) == 1)
    ensures id in w.edge.byID ==> ClosesToAgent(w, id) == 0
  {
    InvHolds(lim, run);
    PendingAnswered(lim, w, id);
    ReadyOrGone(lim, w, id);
    hide *;
  }

  lemma PendingAnswered(lim: Limits, w: World, id: nat)
    requires Inv(lim, w)
    ensures id in w.edge.byID && w.edge.byID[id].phase == Pending ==>
              OpensToAgent(w, id) + AnswersInFlight(w, id) == 1
    ensures id in ReadyIds(w.edge) ==>
              OpensToAgent(w, id) + AnswersInFlight(w, id) == 0
    ensures id in w.edge.byID ==> ClosesToAgent(w, id) == 0
  {
    assert GoodId(w, id);
    hide Inv, Count, Ordered, Inward, Outward;
  }

  lemma ReadyOrGone(lim: Limits, w: World, id: nat)
    requires Inv(lim, w)
    ensures id in ReadyIds(w.edge) && !w.agent.closed ==>
              (id in w.agent.open <==> ClosesToEdge(w, id) == 0) && ClosesToEdge(w, id) <= 1
    ensures !w.edge.closed && id !in w.edge.byID && id !in w.hist.missed ==>
              (id in w.agent.open || OpensToAgent(w, id) > 0 ==> ClosesToAgent(w, id) == 1)
  {
    assert GoodId(w, id);
    hide Inv, Count, Ordered, Inward, Outward;
  }

  /**
    An id that the Agent holds, that the Edge dropped and whose CloseAssoc is no longer on its way
    is one whose CloseAssoc was written before its OpenAssoc or not at all, and conversely.
   */
  lemma StrandedIffMissed(lim: Limits, run: seq<Step>, w: World, id: nat)
    requires Reached(lim, run, w) && !w.edge.closed && id in w.agent.open
    ensures id !in w.edge.byID && ClosesToAgent(w, id) == 0 <==> id in w.hist.missed
  {
    JointInvariant(lim, run, w, id);
    InvHolds(lim, run);
    assert GoodId(w, id);
    hide Inv, Count, Ordered, Inward, Outward;
  }

  /** With nothing in flight and both ends alive, the two ends agree on the open ids, but for those. */
  lemma QuiescentAgreement(lim: Limits, run: seq<Step>, w: World)
    requires Reached(lim, run, w) && !w.edge.closed && !w.agent.closed
    requires w.e2a == [] && w.a2e == [] && w.answer == None
    requires w.edgeOpening == map[] && w.edgeClosing == {} && w.agentClosing == {}
    ensures ReadyIds(w.edge) == w.edge.byID.Keys == w.agent.open - w.hist.missed
    ensures w.agent.open == w.edge.byID.Keys <==> w.agent.open !! w.hist.missed
  {
    forall id ensures (id in w.edge.byID <==> id in w.agent.open && id !in w.hist.missed)
                      && (id in ReadyIds(w.edge) <==> id in w.edge.byID) {
      JointInvariant(lim, run, w, id);
      if id in w.agent.open {
        StrandedIffMissed(lim, run, w, id);
      }
    }
  }

  /** An association is evicted, and told to close, before the Agent is told to open it. */
  const OVERTAKING: seq<Step> := [OpenNew("a")] + [Step.EdgeRemove(1)] + [EdgeWriteClose(1, true)] + [WriteOpen(1, true)]
    + [AgentReceive(true, true)] + [AgentReceive(true, true)] + [AgentAnswer] + [EdgeReceive]

  /** It can happen: nothing is in flight any more, and the Agent holds an id that the Edge knows nothing of. */
  ghost function OvertakingWorlds(): (ws: seq<World>)
    ensures |ws| == 9
  {
    var gone := Hub(map[], map[], 2, false);
    var hist := START.hist.(opens := 1, owner := map[1 := "a"]);
    var w1 := START.(edge := Hub(map[1 := Assoc("a", Pending)], map["a" := 1], 2, false),
                     edgeOpening := map[1 := "a"], hist := hist);
    var w2 := w1.(edge := gone, edgeClosing := {1});
    var w3 := w2.(edgeClosing := {}, e2a := [CloseAssoc(1)], hist := hist.(missed := {1}));
    var w4 := w3.(edgeOpening := map[], e2a := [CloseAssoc(1), Frame.OpenAssoc(1, "a")]);
    var w5 := w4.(e2a := [Frame.OpenAssoc(1, "a")]);
    var w6 := w5.(e2a := [], agent := Mirror({1}, false), answer := Some(OpenAck(1, true)));
    var w7 := w6.(answer := None, a2e := [OpenAck(1, true)], readers := {1});
    [START, w1, w2, w3, w4, w5, w6, w7, w7.(a2e := [])]
  }

  ghost predicate Leads(lim: Limits, w: World, s: Step, w': World) {
    Enabled(lim, w, s) && Next(lim, w, s) == w'
  }

  lemma OvertakingOpens(lim: Limits)
    requires lim.edge >= 1
    ensures var ws := OvertakingWorlds();
      Enabled(lim, ws[0], OVERTAKING[0]) && OpenNewStep(ws[0], "a") == ws[1]
  {}

  lemma OvertakingEnds(lim: Limits)
    ensures var ws := OvertakingWorlds();
      Enabled(lim, ws[3], OVERTAKING[3]) && WriteOpenStep(ws[3], 1, true) == ws[4]
  {
    var ws := OvertakingWorlds();
    assert ws[3].edgeOpening - {1} == map[];
  }

  lemma OvertakingEvicts()
    ensures EdgeRemoveStep(OvertakingWorlds()[1], 1) == OvertakingWorlds()[2]
  {
    var w := OvertakingWorlds()[1];
    var (h, d) := Remove(w.edge, 1);
    assert w.edge.byID - {1} == map[] && w.edge.byAddr - {"a"} == map[];
    assert h == Hub(map[], map[], 2, false) && d == 0;
    hide Remove;
  }

  lemma OvertakingCloses(lim: Limits)
    ensures var ws := OvertakingWorlds(); Enabled(lim, ws[2], OVERTAKING[2]) && WriteCloseStep(ws[2], 1, true) == ws[3]
  {
    var ws := OvertakingWorlds();
    assert ws[2].edgeClosing - {1} == {};
    assert OVERTAKING[2] == EdgeWriteClose(1, true);
  }

  lemma OvertakingAtEdge(lim: Limits)
    requires lim.edge >= 1
    ensures var ws := OvertakingWorlds(); forall i :: 0 <= i < 4 ==> Leads(lim, ws[i], OVERTAKING[i], ws[i + 1])
  {
    hide OvertakingWorlds, OpenNewStep, WriteOpenStep, EdgeRemoveStep, WriteCloseStep;
    OvertakingOpens(lim);
    OvertakingEnds(lim);
    OvertakingEvicts();
    OvertakingCloses(lim);
    var ws := OvertakingWorlds();
    assert OVERTAKING[0] == OpenNew("a") && Leads(lim, ws[0], OpenNew("a"), ws[1]);
    assert OVERTAKING[1] == Step.EdgeRemove(1) && Leads(lim, ws[1], Step.EdgeRemove(1), ws[2]);
    assert OVERTAKING[2] == EdgeWriteClose(1, true) && Leads(lim, ws[2], EdgeWriteClose(1, true), ws[3]);
    assert OVERTAKING[3] == WriteOpen(1, true) && Leads(lim, ws[3], WriteOpen(1, true), ws[4]);
    hide Leads;
  }

  lemma OvertakingAtAgent(lim: Limits)
    requires lim.agent >= 1
    ensures var ws := OvertakingWorlds(); forall i :: 4 <= i < 8 ==> Leads(lim, ws[i], OVERTAKING[i], ws[i + 1])
  {
    OvertakingReads(lim);
    hide OvertakingWorlds, AgentReceiveStep, AgentAnswerStep, EdgeReceiveStep;
    var ws := OvertakingWorlds();
    assert OVERTAKING[4] == AgentReceive(true, true) && Leads(lim, ws[4], AgentReceive(true, true), ws[5]);
    assert OVERTAKING[5] == AgentReceive(true, true) && Leads(lim, ws[5], AgentReceive(true, true), ws[6]);
    assert OVERTAKING[6] == AgentAnswer && Leads(lim, ws[6], AgentAnswer, ws[7]);
    assert OVERTAKING[7] == EdgeReceive && Leads(lim, ws[7], EdgeReceive, ws[8]);
    hide Leads;
  }

  lemma OvertakingReads(lim: Limits)
    requires lim.agent >= 1
    ensures var ws := OvertakingWorlds();
      && Enabled(lim, ws[4], AgentReceive(true, true)) && AgentReceiveStep(lim, ws[4], true, true) == ws[5]
      && Enabled(lim, ws[5], AgentReceive(true, true)) && AgentReceiveStep(lim, ws[5], true, true) == ws[6]
      && Enabled(lim, ws[6], AgentAnswer) && AgentAnswerStep(ws[6]) == ws[7]
      && Enabled(lim, ws[7], EdgeReceive) && EdgeReceiveStep(ws[7]) == ws[8]
  {}

  /** It can happen: nothing is in flight any more, and the Agent holds an id that the Edge knows nothing of. */
  lemma OvertakingStrands(lim: Limits)
    requires lim.edge >= 1 && lim.agent >= 1
    ensures After(lim, OVERTAKING).Some?
    ensures var w := After(lim, OVERTAKING).value;
      && w.e2a == [] && w.a2e == [] && w.answer == None
      && w.edgeOpening == map[] && w.edgeClosing == {} && w.agentClosing == {}
      && !w.edge.closed && !w.agent.closed && w.edge.byID == map[] && w.agent.open == {1}
  {
    hide Leads;
    OvertakingAtEdge(lim);
    OvertakingAtAgent(lim);
    assert |OVERTAKING| == 8;
    Along(lim, OVERTAKING, OvertakingWorlds());
  }

  lemma {:induction false} Along(lim: Limits, run: seq<Step>, ws: seq<World>)
    requires |ws| == |run| + 1 && ws[0] == START
    requires forall i :: 0 <= i < |run| ==> Leads(lim, ws[i], run[i], ws[i + 1])
    ensures After(lim, run) == Some(ws[|run|])
    decreases |run|
  {
    if run != [] {
      var k := |run| - 1;
      hide Leads;
      Along(lim, run[..k], ws[..|run|]);
      assert run[..k] + [run[k]] == run;
      LeadsOn(lim, run[..k], run[k], ws[k], ws[k + 1]);
    }
  }

  lemma LeadsOn(lim: Limits, run: seq<Step>, s: Step, w: World, w': World)
    requires After(lim, run) == Some(w) && Leads(lim, w, s, w')
    ensures After(lim, run + [s]) == Some(w')
  {
    hide After, Next, Enabled;
    Take(lim, run, s, w, w');
  }

  lemma Take(lim: Limits, run: seq<Step>, s: Step, w: World, w': World)
    requires After(lim, run) == Some(w) && Enabled(lim, w, s) && Next(lim, w, s) == w'
    ensures After(lim, run + [s]) == Some(w')
  {
    assert (run + [s])[..|run + [s]| - 1] == run;
    hide Next, Enabled;
  }

  /** The gauge counts the live sessions, and no step of any run meets the clamp at zero. */
  lemma GaugeConserved(lim: Limits, run: seq<Step>, w: World)
    requires Reached(lim, run, w)
    ensures w.gauge == w.others + |ReadyIds(w.edge)|
    ensures forall s :: Enabled(lim, w, s) && Next(lim, w, s).hist.opens <= ID_SPACE ==>
              w.gauge + GaugeDelta(w, s) >= 0 && Next(lim, w, s).gauge == w.gauge + GaugeDelta(w, s)
  {
    InvHolds(lim, run);
    forall s | Enabled(lim, w, s) && Next(lim, w, s).hist.opens <= ID_SPACE
      ensures w.gauge + GaugeDelta(w, s) >= 0 && Next(lim, w, s).gauge == w.gauge + GaugeDelta(w, s)
    {
      InvStep(lim, w, s);
    }
  }

  /** Closing the hub subtracts exactly its ready associations. */
  lemma CloseSettlesGauge(lim: Limits, run: seq<Step>, w: World)
    requires Reached(lim, run, w)
    ensures var w' := Next(lim, w, Step.EdgeClose);
      && w'.gauge == w'.others == w.others
      && w'.edge.byID == map[] && w'.edge.byAddr == map[]
  {
    InvHolds(lim, run);
    CloseEmpties(w.edge);
    InvStep(lim, w, Step.EdgeClose);
  }

  /**
    Per id, the local socket was written a prefix of what the id's owning client forwarded, and
    what was addressed back is a prefix of what was read from the socket, all of it to that client.
   */
  lemma NoCrossDelivery(lim: Limits, run: seq<Step>, w: World, id: nat)
    requires Reached(lim, run, w)
    ensures LogOf(w.hist.written, id) <= Bodies(LogOf(w.hist.forwarded, id))
    ensures Bodies(LogOf(w.hist.returned, id)) <= LogOf(w.hist.received, id)
    ensures forall p :: p in LogOf(w.hist.forwarded, id) + LogOf(w.hist.returned, id) ==>
              id in w.hist.owner && w.hist.owner[id] == p.client
    ensures id in w.edge.byID ==> id in w.hist.owner && w.edge.byID[id].client == w.hist.owner[id]
  {
    hide Good, LaneOf, Shared, After;
    InvHolds(lim, run);
    assert GoodId(w, id);
    LogsOf(w, id);
    GoodLogs(LaneOf(w, id), w.edge.closed, w.agent.closed);
  }

  lemma LogsOf(w: World, id: nat)
    ensures var l := LaneOf(w, id);
      && l.entry == Lookup(w.edge.byID, id) && l.owner == Lookup(w.hist.owner, id)
      && l.forwarded == LogOf(w.hist.forwarded, id) && l.written == LogOf(w.hist.written, id)
      && l.received == LogOf(w.hist.received, id) && l.returned == LogOf(w.hist.returned, id)
  {
    hide Count, Payloads, Ordered;
  }

  lemma GoodLogs(l: Lane, ec: bool, ac: bool)
    requires Good(l, ec, ac)
    ensures l.written <= Bodies(l.forwarded) && Bodies(l.returned) <= l.received
    ensures forall p :: p in l.forwarded || p in l.returned ==> l.owner == Some(p.client)
    ensures l.entry.Some? ==> l.owner == Some(l.entry.value.client)
  {
    hide Single, Bodies;
  }

  lemma OwnerStep(lim: Limits, u: World, s: Step, id: nat)
    requires Inv(lim, u) && Enabled(lim, u, s) && Next(lim, u, s).hist.opens <= ID_SPACE && id in u.hist.owner
    ensures var w := Next(lim, u, s); id in w.hist.owner && w.hist.owner[id] == u.hist.owner[id]
  {
    hide Inv;
    if s.OpenNew? {
      OwnersGrow(lim, u, s);
      assert u.hist.opens < ID_SPACE;
      NextIdUnowned(lim, u);
    } else {
      OwnersKept(lim, u, s);
    }
    hide Next;
  }

  lemma OwnersGrow(lim: Limits, u: World, s: Step)
    requires Enabled(lim, u, s) && s.OpenNew?
    ensures Next(lim, u, s).hist.owner == u.hist.owner[u.edge.nextID := s.client]
  {}

  lemma NextIdUnowned(lim: Limits, w: World)
    requires Inv(lim, w) && w.hist.opens < ID_SPACE
    ensures w.edge.nextID !in w.hist.owner
  {
    hide GoodId;
    NextIdUnused(lim, w);
  }

  lemma OwnersKept(lim: Limits, u: World, s: Step)
    requires Enabled(lim, u, s) && !s.OpenNew?
    ensures Next(lim, u, s).hist.owner == u.hist.owner
  {}

  /** An owner, once recorded, is never replaced: an id belongs to one client for good. */
  lemma {:induction false} OwnerIsForever(lim: Limits, run: seq<Step>, more: seq<Step>, v: World, w: World, id: nat)
    requires Reached(lim, run, v) && Reached(lim, run + more, w) && id in v.hist.owner
    ensures id in w.hist.owner && w.hist.owner[id] == v.hist.owner[id]
    decreases |more|
  {
    if more == [] {
      assert run + more == run;
    } else {
      var most := more[..|more| - 1];
      assert (run + more)[..|run + more| - 1] == run + most;
      var s, u := more[|more| - 1], After(lim, run + most).value;
      NextOpens(lim, u, s);
      OwnerIsForever(lim, run, most, v, u, id);
      InvHolds(lim, run + most);
      OwnerStep(lim, u, s, id);
    }
  }

  /** The two indexes of the hub are inverse, ids are fresh, and both sides respect their limit. */
  lemma IndexCoherence(lim: Limits, run: seq<Step>, w: World)
    requires Reached(lim, run, w)
    ensures forall id :: id in w.edge.byID ==>
              w.edge.byID[id].client in w.edge.byAddr && w.edge.byAddr[w.edge.byID[id].client] == id
    ensures forall c :: c in w.edge.byAddr ==>
              w.edge.byAddr[c] in w.edge.byID && w.edge.byID[w.edge.byAddr[c]].client == c
    ensures forall i, j :: i in w.edge.byID && j in w.edge.byID && w.edge.byID[i].client == w.edge.byID[j].client ==> i == j
    ensures |w.edge.byID| <= lim.edge && |w.agent.open| <= lim.agent
    ensures w.hist.opens < ID_SPACE ==>
              w.edge.nextID !in w.edge.byID && w.edge.nextID !in w.agent.open && w.edge.nextID !in w.hist.owner
  {
    InvHolds(lim, run);
    if w.hist.opens < ID_SPACE {
      NextIdUnused(lim, w);
    }
  }

  /** The opening found its id free. */
  ghost predicate FreshId(w: World, s: Step) {
    s.OpenNew? ==> w.edge.nextID !in w.edge.byID
  }

  lemma CoherentStepIff(lim: Limits, w: World, s: Step)
    requires Coherent(w.edge) && Enabled(lim, w, s)
    ensures Coherent(Next(lim, w, s).edge) <==> FreshId(w, s)
  {
    hide Coherent;
    match s
    case OpenNew(client) => InsertCoherentIff(w.edge, client, lim.edge);
    case WriteOpen(id, sent) => if !w.edge.closed && !sent { DropLosesOne(w.edge, id); }
    case Timeout(id) => DropLosesOne(w.edge, id);
    case EdgeRemove(id) => if id in w.edge.byID { DropLosesOne(w.edge, id); }
    case EdgeReceive => ReceiveCoherent(w);
    case EdgeClose => CloseEmpties(w.edge);
    case _ =>
  }

  lemma ReceiveCoherent(w: World)
    requires Coherent(w.edge) && w.a2e != []
    ensures Coherent(EdgeReceiveStep(w).edge)
  {
    var f := w.a2e[0];
    if f.id in w.edge.byID {
      DropLosesOne(w.edge, f.id);
      if w.edge.byID[f.id].phase == Pending {
        ReadyAfterAccept(w.edge, f.id);
      }
    }
    hide Coherent;
  }

  /** The two indexes of the hub are inverse after `run` and all along. */
  ghost predicate AlwaysCoherent(lim: Limits, run: seq<Step>)
    requires After(lim, run).Some?
    decreases |run|
  {
    Coherent(After(lim, run).value.edge) && (run != [] ==> AlwaysCoherent(lim, run[..|run| - 1]))
  }

  /** Every opening in `run` found its id free. */
  ghost predicate AlwaysFresh(lim: Limits, run: seq<Step>)
    requires After(lim, run).Some?
    decreases |run|
  {
    run == [] || (FreshId(After(lim, run[..|run| - 1]).value, run[|run| - 1]) && AlwaysFresh(lim, run[..|run| - 1]))
  }

  /**
    In runs of any length: the two indexes of the hub are inverse all along exactly if every opening
    found its id free, and that is what the wrap-around of the ids can break.
   */
  lemma {:induction false} CoherentIffFresh(lim: Limits, run: seq<Step>)
    requires After(lim, run).Some?
    ensures AlwaysCoherent(lim, run) <==> AlwaysFresh(lim, run)
    decreases |run|
  {
    hide Coherent, Next, Enabled, FreshId;
    if run != [] {
      var w, s := After(lim, run[..|run| - 1]).value, run[|run| - 1];
      CoherentIffFresh(lim, run[..|run| - 1]);
      if Coherent(w.edge) {
        CoherentStepIff(lim, w, s);
      } else {
        IncoherentPrefix(lim, run[..|run| - 1]);
      }
    } else {
      StartCoherent();
    }
  }

  lemma IncoherentPrefix(lim: Limits, run: seq<Step>)
    requires After(lim, run).Some? && !Coherent(After(lim, run).value.edge)
    ensures !AlwaysCoherent(lim, run)
  {}

  lemma StartCoherent()
    ensures Coherent(START.edge)
  {}

  /** A client that opens an association and then `n` failed attempts of another one. */
  ghost function Churn(n: nat): seq<Step> {
    if n == 0 then [OpenNew("a")] + [WriteOpen(1, true)]
    else Churn(n - 1) + [OpenNew("b")] + [WriteOpen((1 + n) % ID_SPACE, false)]
  }

  /** One pending association, the first one. */
  function OneOpen(next: nat): Hub {
    Hub(map[1 := Assoc("a", Pending)], map["a" := 1], next, false)
  }

  lemma {:induction false} ChurnReaches(lim: Limits, n: nat) returns (w: World)
    requires lim.edge >= 2 && n < ID_SPACE
    ensures After(lim, Churn(n)) == Some(w)
    ensures w.edge == OneOpen((2 + n) % ID_SPACE) && w.hist.opens == n + 1
  {
    if n == 0 {
      w := ChurnStarts(lim);
    } else {
      var v := ChurnReaches(lim, n - 1);
      assert Churn(n) == Churn(n - 1) + [OpenNew("b")] + [WriteOpen((1 + n) % ID_SPACE, false)];
      hide Churn, After;
      w := FailedAttempt(lim, Churn(n - 1), v, n);
    }
  }

  lemma ChurnStarts(lim: Limits) returns (w: World)
    requires lim.edge >= 2
    ensures After(lim, Churn(0)) == Some(w) && w.edge == OneOpen(2) && w.hist.opens == 1
  {
    assert After(lim, []) == Some(START);
    var w1 := OpenNewStep(START, "a");
    assert w1.edge == OneOpen(2);
    w := WriteOpenStep(w1, 1, true);
    hide After;
    Take(lim, [], OpenNew("a"), START, w1);
    Take(lim, [] + [OpenNew("a")], WriteOpen(1, true), w1, w);
    assert [] + [OpenNew("a")] + [WriteOpen(1, true)] == Churn(0);
  }

  lemma FailedAttempt(lim: Limits, run: seq<Step>, v: World, n: nat) returns (w: World)
    requires lim.edge >= 2 && 0 < n < ID_SPACE && v.hist.opens == n
    requires After(lim, run) == Some(v) && v.edge == OneOpen((1 + n) % ID_SPACE)
    ensures After(lim, run + [OpenNew("b")] + [WriteOpen((1 + n) % ID_SPACE, false)]) == Some(w)
    ensures w.edge == OneOpen((2 + n) % ID_SPACE) && w.hist.opens == n + 1
  {
    var id := (1 + n) % ID_SPACE;
    var u := OpenNewStep(v, "b");
    assert OpensOwn(u, id);
    w := WriteOpenStep(u, id, false);
    FailedHub(v.edge, n);
    hide After;
    Take(lim, run, OpenNew("b"), v, u);
    Take(lim, run + [OpenNew("b")], WriteOpen(id, false), u, w);
  }

  lemma FailedHub(e: Hub, n: nat)
    requires 0 < n < ID_SPACE && e == OneOpen((1 + n) % ID_SPACE)
    ensures Drop(Insert(e, "b"), e.nextID) == OneOpen((2 + n) % ID_SPACE)
  {
    assert e.nextID != 1;
    var h := Drop(Insert(e, "b"), e.nextID);
    assert h.byID == e.byID;
    assert h.byAddr == e.byAddr;
  }

  /**
    Up to 2^32 openings the ids are always free; one more can meet an id that is still in use, and
    the association it belonged to is lost from the index by id.
   */
  lemma IdReuseBreaksCoherence(lim: Limits)
    requires lim.edge >= 2
    ensures exists run, w :: After(lim, run) == Some(w) && w.hist.opens == 4_294_967_297 && !Coherent(w.edge)
  {
    hide Churn, After, Coherent, Next, Enabled;
    var v := ChurnReaches(lim, ID_SPACE - 1);
    TakenOver(lim, v);
    Take(lim, Churn(ID_SPACE - 1), OpenNew("c"), v, OpenNewStep(v, "c"));
  }

  lemma TakenOver(lim: Limits, v: World)
    requires lim.edge >= 2 && v.edge == OneOpen(1)
    ensures var s := OpenNew("c");
      && Enabled(lim, v, s) && Next(lim, v, s) == OpenNewStep(v, "c")
      && !Coherent(OpenNewStep(v, "c").edge) && OpenNewStep(v, "c").hist.opens == v.hist.opens + 1
  {
    var e := OpenNewStep(v, "c").edge;
    assert "a" in e.byAddr && e.byAddr["a"] == 1 && e.byID[1].client == "c";
  }
}
