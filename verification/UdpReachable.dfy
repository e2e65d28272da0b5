/** The joint invariant holds in every reachable world. */
module UdpReachable {
  import opened Options
  import opened UdpFrames
  import opened UdpHubModel
  import opened Metrics
  import opened UdpProtocol
  import opened UdpInvariant
  import opened UdpLanes
  import opened UdpSafety

  lemma NextIdUnused(lim: Limits, w: World)
    requires Inv(lim, w) && w.hist.opens < ID_SPACE
    ensures LaneOf(w, w.edge.nextID) == UNUSED
  {
    assert GoodId(w, w.edge.nextID);
    assert w.edge.nextID !in w.hist.owner;
  }

  lemma ReadyAfterAccept(h: Hub, id: nat)
    requires id in h.byID && h.byID[id].phase == Pending && Coherent(h)
    ensures var h' := MarkReady(h, id, true).0;
      ReadyIds(h') == ReadyIds(h) + {id} && Coherent(h') && |h'.byID| == |h.byID|
  {
    var h' := MarkReady(h, id, true).0;
    assert h'.byID.Keys == h.byID.Keys;
    assert |h'.byID| == |h'.byID.Keys|;
  }

  lemma RemoveKeeps(lim: Limits, w: World, id: nat)
    requires Coherent(w.edge) && WithinLimits(lim, w) && Gauged(w)
    ensures var (h, d) := Remove(w.edge, id);
      Coherent(h) && |h.byID| <= lim.edge && w.gauge + d == w.others + |ReadyIds(h)|
  {
    if id in w.edge.byID {
      DropLosesOne(w.edge, id);
    }
  }

  lemma InsertCounts(h: Hub, client: Client)
    requires h.nextID !in h.byID
    ensures |Insert(h, client).byID| == |h.byID| + 1 && ReadyIds(Insert(h, client)) == ReadyIds(h)
  {
    InsertReady(h, client);
    hide ReadyIds;
    var h' := Insert(h, client);
    assert h'.byID.Keys == h.byID.Keys + {h.nextID};
    assert |h'.byID| == |h'.byID.Keys| && |h.byID| == |h.byID.Keys|;
  }

  lemma InsertReady(h: Hub, client: Client)
    requires h.nextID !in h.byID
    ensures ReadyIds(Insert(h, client)) == ReadyIds(h)
  {}

  lemma InsertKeeps(h: Hub, client: Client)
    requires Coherent(h) && !h.closed && h.nextID !in h.byID && client !in h.byAddr
    ensures Coherent(Insert(h, client)) && ReadyIds(Insert(h, client)) == ReadyIds(h)
    ensures |Insert(h, client).byID| == |h.byID| + 1
  {
    InsertCounts(h, client);
    hide ReadyIds;
    var h' := Insert(h, client);
    forall id | id in h'.byID
      ensures h'.byID[id].client in h'.byAddr && h'.byAddr[h'.byID[id].client] == id
    {
      assert id != h.nextID ==> h.byID[id].client in h.byAddr;
    }
  }

  /** Only opening an association touches the ids. */
  lemma NumberedSame(w: World, w': World)
    requires Numbered(w) && w'.edge.nextID == w.edge.nextID && w'.hist.opens == w.hist.opens
    requires w'.hist.owner == w.hist.owner
    ensures Numbered(w')
  {}

  lemma NumberedOpenNew(w: World, client: Client)
    requires w.hist.opens < ID_SPACE && Numbered(w)
    ensures Numbered(OpenNewStep(w, client))
  {}

  lemma SharedOpenNew(lim: Limits, w: World, client: Client)
    requires Inv(lim, w) && Admits(w.edge, client, lim.edge) && w.hist.opens < ID_SPACE
    ensures Shared(lim, OpenNewStep(w, client))
  {
    hide GoodId;
    NextIdUnused(lim, w);
    assert w.edge.nextID !in w.edge.byID;
    InsertKeeps(w.edge, client);
    NumberedOpenNew(w, client);
    hide LaneOf, Coherent, ReadyIds, Numbered;
  }

  /** An association whose OpenAssoc is not written yet is not counted. */
  lemma OpeningIsPending(w: World, id: nat)
    requires id in w.edgeOpening && GoodId(w, id)
    ensures id !in ReadyIds(w.edge)
  {
    hide LaneOf, Ordered, Count;
    EntryOf(w, id);
    RefusedLane(LaneOf(w, id), w.edge.closed, w.agent.closed);
  }

  lemma SharedWriteOpen(lim: Limits, w: World, id: nat, sent: bool)
    requires Shared(lim, w) && Enabled(lim, w, WriteOpen(id, sent)) && GoodId(w, id)
    ensures Shared(lim, WriteOpenStep(w, id, sent))
  {
    hide Coherent, ReadyIds, Numbered, GoodId;
    OpeningIsPending(w, id);
    if !w.edge.closed && !sent {
      DropPending(w.edge, id);
    }
    NumberedSame(w, WriteOpenStep(w, id, sent));
    hide Drop;
  }

  lemma DropPending(h: Hub, id: nat)
    requires id in h.byID && id !in ReadyIds(h)
    ensures ReadyIds(Drop(h, id)) == ReadyIds(h) && |Drop(h, id).byID| == |h.byID| - 1
    ensures Coherent(h) ==> Coherent(Drop(h, id))
    ensures Drop(h, id).nextID == h.nextID
  {
    DropLosesOne(h, id);
    assert ReadyIds(h) - {id} == ReadyIds(h);
    hide Coherent;
  }

  /** A refusal is never for an association the gauge counts. */
  lemma RefusedIsPending(w: World)
    requires w.a2e != [] && w.a2e[0].OpenAck? && !w.a2e[0].ok && GoodId(w, w.a2e[0].id)
    ensures w.a2e[0].id !in ReadyIds(w.edge)
  {
    var id := w.a2e[0].id;
    Pop(w.a2e, id);
    hide LaneOf, Ordered, Count;
    BackFields(w, id);
    RefusedLane(LaneOf(w, id), w.edge.closed, w.agent.closed);
  }

  lemma RefusedLane(l: Lane, ec: bool, ac: bool)
    requires Good(l, ec, ac) && Tokens(l) > 0
    ensures !InPhase(l, Ready)
  {}

  lemma MarkReadyKeeps(lim: Limits, w: World, id: nat, ok: bool)
    requires Coherent(w.edge) && WithinLimits(lim, w) && Gauged(w)
    requires !ok ==> id !in ReadyIds(w.edge)
    ensures var (h, d) := MarkReady(w.edge, id, ok);
      Coherent(h) && |h.byID| <= lim.edge && w.gauge + d == w.others + |ReadyIds(h)|
  {
    if id in w.edge.byID {
      if !ok {
        DropLosesOne(w.edge, id);
        assert ReadyIds(w.edge) - {id} == ReadyIds(w.edge);
      } else if w.edge.byID[id].phase == Pending {
        ReadyAfterAccept(w.edge, id);
        assert id !in ReadyIds(w.edge);
      }
    }
    hide ReadyIds;
  }

  lemma AckStep(w: World)
    requires w.a2e != [] && w.a2e[0].OpenAck?
    ensures var (h, d) := MarkReady(w.edge, w.a2e[0].id, w.a2e[0].ok);
      && EdgeReceiveStep(w) == w.(a2e := w.a2e[1..], edge := h, gauge := Clamped(w.gauge, d))
      && h.nextID == w.edge.nextID && d == GaugeDelta(w, Step.EdgeReceive)
  {}

  lemma SharedAck(lim: Limits, w: World)
    requires Inv(lim, w) && w.a2e != [] && w.a2e[0].OpenAck?
    ensures Shared(lim, EdgeReceiveStep(w))
    ensures EdgeReceiveStep(w).gauge == w.gauge + GaugeDelta(w, Step.EdgeReceive)
  {
    hide GoodId, LaneOf, Coherent, ReadyIds, Numbered, MarkReady, EdgeReceiveStep, GaugeDelta;
    AckStep(w);
    NumberedSame(w, EdgeReceiveStep(w));
    var f := w.a2e[0];
    if !f.ok { RefusedIsPending(w); }
    MarkReadyKeeps(lim, w, f.id, f.ok);
  }

  lemma SharedClosed(lim: Limits, w: World)
    requires Shared(lim, w) && w.a2e != [] && w.a2e[0].CloseAssoc?
    ensures Shared(lim, EdgeReceiveStep(w))
    ensures EdgeReceiveStep(w).gauge == w.gauge + GaugeDelta(w, Step.EdgeReceive)
  {
    hide Coherent, ReadyIds, Numbered, Remove, EdgeReceiveStep, GaugeDelta;
    ClosedStep(w);
    NumberedSame(w, EdgeReceiveStep(w));
    RemoveKeeps(lim, w, w.a2e[0].id);
  }

  lemma ClosedStep(w: World)
    requires w.a2e != [] && w.a2e[0].CloseAssoc?
    ensures var (h, d) := Remove(w.edge, w.a2e[0].id);
      && EdgeReceiveStep(w) == w.(a2e := w.a2e[1..], edge := h, gauge := Clamped(w.gauge, d))
      && h.nextID == w.edge.nextID && d == GaugeDelta(w, Step.EdgeReceive)
  {}

  /** Closing leaves both maps empty. */
  lemma CloseEmpties(h: Hub)
    requires Coherent(h)
    ensures var h' := CloseHub(h).0;
      h'.closed && h'.byID == map[] && h'.byAddr == map[] && Coherent(h') && ReadyIds(h') == {}
  {
    var clients := set id | id in h.byID :: h.byID[id].client;
    forall c | c in h.byAddr ensures c in clients {
      assert h.byAddr[c] in h.byID;
    }
    assert h.byAddr - clients == map[];
    assert h.closed ==> h.byAddr == map[];
  }

  lemma SharedEdgeClose(lim: Limits, w: World)
    requires Shared(lim, w)
    ensures Shared(lim, EdgeCloseStep(w))
    ensures EdgeCloseStep(w).gauge == w.gauge + GaugeDelta(w, Step.EdgeClose)
  {
    hide Coherent, ReadyIds, Numbered;
    CloseEmpties(w.edge);
    NumberedSame(w, EdgeCloseStep(w));
  }

  lemma SharedTimeout(lim: Limits, w: World, id: nat)
    requires Shared(lim, w) && Enabled(lim, w, Step.Timeout(id))
    ensures Shared(lim, Next(lim, w, Step.Timeout(id)))
  {
    assert id !in ReadyIds(w.edge);
    hide Coherent, ReadyIds, Numbered;
    DropPending(w.edge, id);
    NumberedSame(w, Next(lim, w, Step.Timeout(id)));
  }

  lemma SharedEdgeRemove(lim: Limits, w: World, id: nat)
    requires Shared(lim, w)
    ensures Shared(lim, EdgeRemoveStep(w, id))
    ensures EdgeRemoveStep(w, id).gauge == w.gauge + GaugeDelta(w, Step.EdgeRemove(id))
  {
    hide Coherent, ReadyIds, Numbered;
    RemoveKeeps(lim, w, id);
    NumberedSame(w, EdgeRemoveStep(w, id));
  }

  lemma SharedAgentReceive(lim: Limits, w: World, dials: bool, writes: bool)
    requires Shared(lim, w) && Enabled(lim, w, Step.AgentReceive(dials, writes))
    ensures Shared(lim, AgentReceiveStep(lim, w, dials, writes))
  {
    hide Coherent, ReadyIds, Numbered;
    var w' := AgentReceiveStep(lim, w, dials, writes);
    AgentReceiveKeeps(lim, w, dials, writes);
    hide AgentReceiveStep;
    NumberedSame(w, w');
  }

  lemma AgentReceiveKeeps(lim: Limits, w: World, dials: bool, writes: bool)
    requires Enabled(lim, w, Step.AgentReceive(dials, writes)) && |w.agent.open| <= lim.agent
    ensures var w' := AgentReceiveStep(lim, w, dials, writes);
      && w'.edge == w.edge && w'.gauge == w.gauge && w'.others == w.others
      && w'.hist.opens == w.hist.opens && w'.hist.owner == w.hist.owner
      && |w'.agent.open| <= lim.agent && !w'.agent.closed
      && (w'.answer.Some? ==> w'.answer.value.OpenAck?)
  {
    match w.e2a[0]
    case OpenAssoc(id, _) =>
      MirrorWithin(w.agent, id, lim.agent, dials);
      hide MirrorOpen;
    case _ =>
  }

  lemma MirrorWithin(a: Mirror, id: nat, limit: nat, dials: bool)
    requires |a.open| <= limit
    ensures var a' := MirrorOpen(a, id, limit, dials).0; |a'.open| <= limit && a'.closed == a.closed
  {}

  lemma SharedOther(lim: Limits, w: World, started: nat, ended: nat)
    requires Shared(lim, w) && ended <= w.others
    ensures var w' := Next(lim, w, OtherSessions(started, ended));
      Shared(lim, w') && w'.gauge == w.gauge + started - ended
  {
    NumberedSame(w, Next(lim, w, OtherSessions(started, ended)));
    hide Coherent, ReadyIds, Numbered;
  }

  /** The steps that leave the hub and the gauge alone. */
  lemma SharedRest(lim: Limits, w: World, s: Step)
    requires Shared(lim, w) && Enabled(lim, w, s)
    requires s.Acquire? || s.Forward? || s.EdgeWriteClose? || s.AgentAnswer? || s.AgentRemove? || s.AgentWriteClose?
          || s.AgentRead? || s.AgentClose? || (s.EdgeReceive? && !w.a2e[0].OpenAck? && !w.a2e[0].CloseAssoc?)
    ensures Shared(lim, Next(lim, w, s)) && Next(lim, w, s).gauge == w.gauge
  {
    hide Coherent, ReadyIds, Numbered;
    RestKeeps(lim, w, s);
    hide Next, Enabled;
    NumberedSame(w, Next(lim, w, s));
  }

  lemma RestKeeps(lim: Limits, w: World, s: Step)
    requires Enabled(lim, w, s) && AgentSound(w)
    requires s.Acquire? || s.Forward? || s.EdgeWriteClose? || s.AgentAnswer? || s.AgentRemove? || s.AgentWriteClose?
          || s.AgentRead? || s.AgentClose? || (s.EdgeReceive? && !w.a2e[0].OpenAck? && !w.a2e[0].CloseAssoc?)
    ensures AgentSide(w, Next(lim, w, s))
  {
    if s.Acquire? || s.Forward? || s.EdgeWriteClose? || s.EdgeReceive? {
      EdgeSideKeeps(lim, w, s);
    } else {
      AgentSideKeeps(lim, w, s);
    }
    hide Next, Enabled;
  }

  lemma EdgeSideKeeps(lim: Limits, w: World, s: Step)
    requires Enabled(lim, w, s) && (s.Acquire? || s.Forward? || s.EdgeWriteClose?
             || (s.EdgeReceive? && !w.a2e[0].OpenAck? && !w.a2e[0].CloseAssoc?))
    ensures var w' := Next(lim, w, s);
      && w'.edge == w.edge && w'.gauge == w.gauge && w'.others == w.others && w'.agent == w.agent
      && w'.hist.opens == w.hist.opens && w'.hist.owner == w.hist.owner && w'.answer == w.answer
  {
    hide MarkReady, Remove;
  }

  lemma AgentSideKeeps(lim: Limits, w: World, s: Step)
    requires Enabled(lim, w, s) && AgentSound(w)
    requires s.AgentAnswer? || s.AgentRemove? || s.AgentWriteClose? || s.AgentRead? || s.AgentClose?
    ensures AgentSide(w, Next(lim, w, s))
  {
    match s
    case AgentAnswer => AnswerKeeps(w);
    case AgentRemove(id) => AgentRemoveKeeps(w, id);
    case AgentWriteClose(id) => AgentWritesKeep(w, id, []);
    case AgentRead(id, payload) => AgentWritesKeep(w, id, payload);
    case _ =>
    hide AgentAnswerStep, AgentRemoveStep, AgentWriteCloseStep, AgentReadStep;
    hide OpenNewStep, WriteOpenStep, EdgeRemoveStep, EdgeReceiveStep, EdgeCloseStep, AgentReceiveStep;
  }

  /** The Edge and the gauge are as before, and the Agent holds no more ids. */
  ghost predicate AgentSide(w: World, w': World) {
    && w'.edge == w.edge && w'.gauge == w.gauge && w'.others == w.others
    && w'.hist.opens == w.hist.opens && w'.hist.owner == w.hist.owner
    && |w'.agent.open| <= |w.agent.open| && AgentSound(w')
  }

  lemma AnswerKeeps(w: World)
    requires AgentSound(w) && w.answer.Some?
    ensures AgentSide(w, AgentAnswerStep(w))
  {}

  lemma AgentRemoveKeeps(w: World, id: nat)
    requires AgentSound(w)
    ensures AgentSide(w, AgentRemoveStep(w, id))
  {}

  lemma AgentWritesKeep(w: World, id: nat, payload: Payload)
    requires AgentSound(w)
    ensures AgentSide(w, AgentWriteCloseStep(w, id)) && AgentSide(w, AgentReadStep(w, id, payload))
  {}

  lemma SharedReceive(lim: Limits, w: World)
    requires Inv(lim, w) && w.a2e != []
    ensures Shared(lim, EdgeReceiveStep(w))
    ensures EdgeReceiveStep(w).gauge == w.gauge + GaugeDelta(w, Step.EdgeReceive)
  {
    if w.a2e[0].OpenAck? {
      SharedAck(lim, w);
    } else if w.a2e[0].CloseAssoc? {
      SharedClosed(lim, w);
    } else {
      SharedRest(lim, w, Step.EdgeReceive);
    }
    hide Shared, GoodId, MarkReady, Remove, EdgeReceiveStep;
  }

  /** The steps that change the hub. */
  lemma SharedHubStep(lim: Limits, w: World, s: Step)
    requires Inv(lim, w) && Enabled(lim, w, s) && IdsLast(Next(lim, w, s))
    requires s.OpenNew? || s.WriteOpen? || s.Timeout? || s.EdgeRemove? || s.EdgeReceive? || s.EdgeClose?
    ensures Shared(lim, Next(lim, w, s))
    ensures Next(lim, w, s).gauge == w.gauge + GaugeDelta(w, s)
  {
    assert Shared(lim, w) && forall id :: GoodId(w, id);
    hide Shared, GoodId, CloseHub, MarkReady, Remove, ReadyIds;
    hide OpenNewStep, WriteOpenStep, EdgeRemoveStep, EdgeReceiveStep, EdgeCloseStep, AgentReceiveStep;
    hide ForwardStep, WriteCloseStep, AgentAnswerStep, AgentRemoveStep, AgentWriteCloseStep, AgentReadStep;
    match s
    case OpenNew(client) => SharedOpenNew(lim, w, client);
    case WriteOpen(id, sent) => SharedWriteOpen(lim, w, id, sent);
    case Timeout(id) => SharedTimeout(lim, w, id);
    case EdgeRemove(id) => SharedEdgeRemove(lim, w, id);
    case EdgeReceive => SharedReceive(lim, w);
    case EdgeClose => SharedEdgeClose(lim, w);
  }

  lemma SharedStep(lim: Limits, w: World, s: Step)
    requires Inv(lim, w) && Enabled(lim, w, s) && IdsLast(Next(lim, w, s))
    ensures Shared(lim, Next(lim, w, s))
    ensures Next(lim, w, s).gauge == w.gauge + GaugeDelta(w, s)
  {
    assert Shared(lim, w);
    hide Shared, GoodId, CloseHub, MarkReady, Remove, ReadyIds;
    hide OpenNewStep, WriteOpenStep, EdgeRemoveStep, EdgeReceiveStep, EdgeCloseStep, AgentReceiveStep;
    hide ForwardStep, WriteCloseStep, AgentAnswerStep, AgentRemoveStep, AgentWriteCloseStep, AgentReadStep;
    if s.OpenNew? || s.WriteOpen? || s.Timeout? || s.EdgeRemove? || s.EdgeReceive? || s.EdgeClose? {
      SharedHubStep(lim, w, s);
    } else if s.AgentReceive? {
      SharedAgentReceive(lim, w, s.dials, s.writes);
    } else if s.OtherSessions? {
      SharedOther(lim, w, s.started, s.ended);
    } else {
      SharedRest(lim, w, s);
    }
  }

  lemma GoodStep(lim: Limits, w: World, s: Step, id: nat)
    requires Inv(lim, w) && Enabled(lim, w, s) && IdsLast(Next(lim, w, s))
    ensures GoodId(Next(lim, w, s), id)
  {
    hide GoodId;
    match s
    case OpenNew(client) => NextIdUnused(lim, w); GoodOpenNew(w, client, id);
    case WriteOpen(n, sent) => GoodWriteOpen(lim, w, n, sent, id);
    case Timeout(n) => GoodEdgeDrop(w, Next(lim, w, s), n, id);
    case Acquire(client) => GoodAcquire(lim, w, client, id);
    case Forward(client, to, payload) => GoodForward(w, client, to, payload, id);
    case EdgeRemove(n) => if n in w.edge.byID { GoodEdgeDrop(w, Next(lim, w, s), n, id); }
    case EdgeWriteClose(n, sent) => GoodEdgeWriteClose(w, n, sent, id);
    case EdgeReceive => GoodEdgeReceive(w, id);
    case EdgeClose => GoodEdgeClose(w, id);
    case AgentReceive(dials, writes) => GoodAgentReceive(lim, w, dials, writes, id);
    case AgentAnswer => GoodAgentAnswer(w, id);
    case AgentRemove(n) => GoodAgentRemove(w, n, id);
    case AgentWriteClose(n) => GoodAgentWriteClose(w, n, id);
    case AgentRead(from, payload) => GoodAgentRead(w, from, payload, id);
    case AgentClose => GoodAgentClose(w, id);
    case OtherSessions(started, ended) => GoodOther(lim, w, started, ended, id);
  }

  lemma GoodOther(lim: Limits, w: World, started: nat, ended: nat, id: nat)
    requires ended <= w.others && GoodId(w, id)
    ensures GoodId(Next(lim, w, OtherSessions(started, ended)), id)
  {
    assert LaneOf(Next(lim, w, OtherSessions(started, ended)), id) == LaneOf(w, id) by {
      hide Good, Count, Ordered, Payloads;
    }
    hide LaneOf, Good;
  }

  lemma InvStep(lim: Limits, w: World, s: Step)
    requires Inv(lim, w) && Enabled(lim, w, s) && IdsLast(Next(lim, w, s))
    ensures Inv(lim, Next(lim, w, s))
    ensures Next(lim, w, s).gauge == w.gauge + GaugeDelta(w, s)
  {
    hide GoodId, Shared, Enabled, IdsLast, Next;
    SharedStep(lim, w, s);
    forall id ensures GoodId(Next(lim, w, s), id) {
      GoodStep(lim, w, s, id);
    }
  }

  lemma KeepUnused()
    ensures Good(UNUSED, false, false)
  {
    assert Single(UNUSED) && Placed(UNUSED, false, false);
    assert Bodies(UNUSED.forwarded) == [] && Bodies(UNUSED.returned) == [];
    hide Single, Placed, Bodies;
  }

  lemma StartGood(lim: Limits)
    ensures Inv(lim, START)
  {
    forall id ensures GoodId(START, id) {
      StartUnused(id);
      hide LaneOf, Good;
      KeepUnused();
    }
    StartShared(lim);
    hide GoodId, Shared;
  }

  lemma StartShared(lim: Limits)
    ensures Shared(lim, START)
  {
    assert ReadyIds(START.edge) == {};
    hide ReadyIds;
    assert Coherent(START.edge) && Numbered(START);
    hide Coherent, Numbered;
  }

  lemma StartUnused(id: nat)
    ensures LaneOf(START, id) == UNUSED
  {}

  lemma NextOpens(lim: Limits, w: World, s: Step)
    requires Enabled(lim, w, s)
    ensures w.hist.opens <= Next(lim, w, s).hist.opens
  {}

  lemma {:induction false} InvHolds(lim: Limits, run: seq<Step>)
    requires After(lim, run).Some? && IdsLast(After(lim, run).value)
    ensures Inv(lim, After(lim, run).value)
    decreases |run|
  {
    if run == [] {
      StartGood(lim);
    } else {
      hide Inv, Next;
      NextOpens(lim, After(lim, run[..|run| - 1]).value, run[|run| - 1]);
      InvHolds(lim, run[..|run| - 1]);
      InvStep(lim, After(lim, run[..|run| - 1]).value, run[|run| - 1]);
    }
  }
}
