/** Every step keeps the joint invariant, so it holds in every reachable world. */
module UdpSafety {
  import opened Options
  import opened UdpFrames
  import opened UdpHubModel
  import opened UdpProtocol
  import opened UdpInvariant
  import opened UdpLanes
  import opened UdpLaneSteps

  lemma GoodOpenNew(w: World, client: Client, id: nat)
    requires LaneOf(w, w.edge.nextID) == UNUSED && GoodId(w, id)
    ensures GoodId(OpenNewStep(w, client), id)
  {
    LaneOpenNew(w, client, id);
    KeepOpenNew(client, w.edge.closed, w.agent.closed);
    hide LaneOf, Good;
  }

  /** An OpenAssoc can be written only before it was seen, and its CloseAssoc is not queued unless it overtook it. */
  lemma OpeningLane(w: World, n: nat)
    requires n in w.edgeOpening && GoodId(w, n)
    ensures LaneOf(w, n).opening && Ordered(w, n)
    ensures n !in w.hist.missed ==> Count(w.e2a, Closing, n) == 0
  {
    hide Count, Ordered, Inward, Outward;
    assert LaneOf(w, n).opening;
  }

  lemma EntryOf(w: World, n: nat)
    ensures LaneOf(w, n).entry == Lookup(w.edge.byID, n) && LaneOf(w, n).opening == (n in w.edgeOpening)
    ensures GoodId(w, n) ==> Ordered(w, n)
  {
    hide Count, Ordered;
  }

  lemma WriteOpenFrame(w: World, n: nat, sent: bool)
    requires n in w.edgeOpening && (sent || w.edge.closed || OpensOwn(w, n))
    ensures var w' := WriteOpenStep(w, n, sent); w'.edge.closed == w.edge.closed && w'.agent == w.agent
  {}

  lemma GoodWriteOpen(lim: Limits, w: World, n: nat, sent: bool, id: nat)
    requires Enabled(lim, w, WriteOpen(n, sent)) && Coherent(w.edge) && GoodId(w, n) && GoodId(w, id)
    ensures GoodId(WriteOpenStep(w, n, sent), id)
  {
    hide LaneOf, Good, WriteOpenStep, Ordered, Count;
    assert w.edge.closed ==> w.edge.byID == map[];
    hide Coherent;
    WriteOpenFrame(w, n, sent);
    OpeningLane(w, n);
    EntryOf(w, id);
    EntryOf(w, n);
    KeepWriteOpen(LaneOf(w, n), w.edge.closed, w.agent.closed);
    if w.edge.closed || !sent {
      LaneOpenUnsent(w, n, sent, id);
    } else {
      LaneWriteOpen(w, n, id);
    }
  }

  lemma AcquireFrame(lim: Limits, w: World, client: Client)
    requires Enabled(lim, w, Step.Acquire(client))
    ensures var w' := Next(lim, w, Step.Acquire(client)); w'.edge == w.edge && w'.agent == w.agent
  {}

  lemma GoodAcquire(lim: Limits, w: World, client: Client, id: nat)
    requires Enabled(lim, w, Step.Acquire(client)) && Coherent(w.edge) && GoodId(w, id)
    ensures GoodId(Next(lim, w, Step.Acquire(client)), id)
  {
    assert w.edge.byID[w.edge.byAddr[client]] == Assoc(client, Ready);
    AcquireFrame(lim, w, client);
    hide LaneOf, Good, Coherent, Next, Enabled, Ordered, Count;
    LaneAcquire(lim, w, client, id);
    EntryOf(w, id);
    if id == w.edge.byAddr[client] {
      KeepAcquire(LaneOf(w, id), client, w.edge.closed, w.agent.closed);
    }
  }

  lemma GoodForward(w: World, client: Client, to: nat, payload: Payload, id: nat)
    requires (client, to) in w.holders && GoodId(w, id)
    ensures GoodId(ForwardStep(w, client, to, payload), id)
  {
    assert ForwardStep(w, client, to, payload).edge == w.edge && ForwardStep(w, client, to, payload).agent == w.agent;
    hide LaneOf, Good, ForwardStep, Ordered, Count;
    EntryOf(w, id);
    LaneForward(w, client, to, payload, id);
    if id == to && !w.edge.closed {
      HolderOf(w, client, id);
      KeepForward(LaneOf(w, id), client, payload, w.edge.closed, w.agent.closed);
    }
  }

  lemma HolderOf(w: World, client: Client, id: nat)
    requires (client, id) in w.holders
    ensures client in LaneOf(w, id).holders
  {
    hide Ordered, Count, Payloads;
    assert (client, id).1 == id && (client, id).0 == client;
  }

  lemma GoodEdgeDrop(w: World, w': World, gone: nat, id: nat)
    requires gone in w.edge.byID && GoodId(w, gone) && GoodId(w, id)
    requires w' == w.(edge := Drop(w.edge, gone), gauge := w'.gauge, edgeClosing := w.edgeClosing + {gone})
    ensures GoodId(w', id)
  {
    hide LaneOf, Good, Ordered, Count, Drop;
    EntryOf(w, gone);
    OutFields(w, gone);
    KeepDrop(LaneOf(w, gone), w.edge.closed, w.agent.closed);
    LaneEdgeDrop(w, w', gone, id);
    assert w'.edge.closed == w.edge.closed by { DropKeepsFlag(w.edge, gone); }
  }

  lemma DropKeepsFlag(h: Hub, id: nat)
    requires id in h.byID
    ensures Drop(h, id).closed == h.closed
  {}

  lemma ClosingLane(w: World, gone: nat)
    requires gone in w.edgeClosing && GoodId(w, gone)
    ensures LaneOf(w, gone).closesOut == LaneOf(w, gone).closesQueued + 1
    ensures gone !in w.hist.missed && (gone in w.edgeOpening ==> Count(w.e2a, Opening, gone) == 0)
    ensures Count(w.e2a, Closing, gone) == 0
  {
    hide Count, Ordered, Inward, Outward;
    KeepWriteClose(LaneOf(w, gone), w.edge.closed, w.agent.closed);
    hide Good;
  }

  lemma GoodEdgeWriteClose(w: World, gone: nat, sent: bool, id: nat)
    requires gone in w.edgeClosing && GoodId(w, gone) && GoodId(w, id)
    ensures GoodId(WriteCloseStep(w, gone, sent), id)
  {
    ClosingLane(w, gone);
    EntryOf(w, id);
    WriteKeepsEnds(w, gone, sent);
    hide LaneOf, Good, WriteCloseStep, Ordered, Count;
    KeepWriteClose(LaneOf(w, gone), w.edge.closed, w.agent.closed);
    if sent || w.edge.closed {
      LaneEdgeWriteClose(w, gone, id);
    } else {
      LaneCloseUnsent(w, gone, id);
    }
  }

  lemma WriteKeepsEnds(w: World, gone: nat, sent: bool)
    ensures WriteCloseStep(w, gone, sent).edge == w.edge && WriteCloseStep(w, gone, sent).agent == w.agent
    ensures w.edge.closed ==> WriteCloseStep(w, gone, sent) == WriteCloseStep(w, gone, true)
  {}

  lemma ReceiveKeepsFlags(w: World)
    requires w.a2e != []
    ensures EdgeReceiveStep(w).edge.closed == w.edge.closed && EdgeReceiveStep(w).agent == w.agent
  {}

  lemma GoodEdgeReceive(w: World, id: nat)
    requires w.a2e != [] && GoodId(w, id)
    ensures GoodId(EdgeReceiveStep(w), id)
  {
    hide LaneOf, Good, EdgeReceiveStep;
    ReceiveKeepsFlags(w);
    var l, ec, ac := LaneOf(w, id), w.edge.closed, w.agent.closed;
    match w.a2e[0]
    case OpenAck(n, ok) =>
      LaneEdgeAck(w, n, ok, id);
      if id == n && ok { KeepAccept(l, ec, ac); }
      if id == n && !ok { KeepRefuse(l, ec, ac); }
    case Datagram(n, payload) =>
      LaneEdgeDeliver(w, n, payload, id);
      if id == n { KeepDeliver(l, ec, ac); }
    case CloseAssoc(n) =>
      LaneEdgeClosed(w, n, id);
      if id == n { KeepEdgeClosed(l, ec, ac); }
    case OpenAssoc(n, client) =>
      LaneEdgeIgnores(w, n, client, id);
  }

  lemma GoodEdgeClose(w: World, id: nat)
    requires GoodId(w, id)
    ensures GoodId(EdgeCloseStep(w), id)
  {
    hide LaneOf, Good;
    LaneEdgeClose(w, id);
    KeepEdgeClose(LaneOf(w, id), w.edge.closed, w.agent.closed);
  }

  /** What the agent may rely on when it takes the first frame. */
  lemma AgentHead(lim: Limits, w: World, dials: bool, writes: bool, id: nat)
    requires w.e2a != [] && !w.agent.closed && GoodId(w, w.e2a[0].id) && GoodId(w, id)
    ensures var w' := AgentReceiveStep(lim, w, dials, writes); w'.edge == w.edge && !w'.agent.closed
    ensures w.e2a[0].OpenAssoc? ==> w.e2a[0].id !in w.agent.open
    ensures w.e2a[0].id in w.agent.open ==> w.e2a[0].id !in w.agentClosing
    ensures Ordered(w, id) && Good(LaneOf(w, id), w.edge.closed, false)
  {
    var f := w.e2a[0];
    AgentReceiveFrame(lim, w, dials, writes);
    AgentStaysOpen(lim, w, dials, writes);
    Pop(w.e2a, f.id);
    hide LaneOf, Ordered, Count, AgentReceiveStep;
    EntryOf(w, id);
    AllFields(w, f.id);
    OpenLane(LaneOf(w, f.id), w.edge.closed, w.agent.closed);
    hide Good;
  }

  lemma AgentStaysOpen(lim: Limits, w: World, dials: bool, writes: bool)
    requires w.e2a != [] && !w.agent.closed
    ensures !AgentReceiveStep(lim, w, dials, writes).agent.closed
  {}

  lemma OpenLane(l: Lane, ec: bool, ac: bool)
    requires Good(l, ec, ac)
    ensures l.open ==> l.opens == 0 && l.closesBack == 0
  {}

  lemma GoodAgentOpen(lim: Limits, w: World, dials: bool, writes: bool, id: nat)
    requires w.e2a != [] && w.answer == None && !w.agent.closed && GoodId(w, w.e2a[0].id) && GoodId(w, id)
    requires w.e2a[0].OpenAssoc?
    ensures GoodId(AgentReceiveStep(lim, w, dials, writes), id)
  {
    hide LaneOf, Good, AgentReceiveStep, Ordered;
    AgentHead(lim, w, dials, writes, id);
    var f, l := w.e2a[0], LaneOf(w, id);
    LaneAgentOpen(lim, w, dials, writes, f.id, f.client, id);
    if id == f.id { KeepAgentOpen(l, true, w.edge.closed); KeepAgentOpen(l, false, w.edge.closed); }
  }

  lemma GoodAgentDatagram(lim: Limits, w: World, dials: bool, writes: bool, id: nat)
    requires w.e2a != [] && w.answer == None && !w.agent.closed && GoodId(w, w.e2a[0].id) && GoodId(w, id)
    requires w.e2a[0].Datagram?
    ensures GoodId(AgentReceiveStep(lim, w, dials, writes), id)
  {
    hide LaneOf, Good, AgentReceiveStep, Ordered;
    AgentHead(lim, w, dials, writes, id);
    var f, l := w.e2a[0], LaneOf(w, id);
    LaneAgentDatagram(lim, w, dials, writes, f.id, f.payload, id);
    if id == f.id { KeepAgentDatagram(l, writes, w.edge.closed); }
  }

  lemma GoodAgentClosed(lim: Limits, w: World, dials: bool, writes: bool, id: nat)
    requires w.e2a != [] && w.answer == None && !w.agent.closed && GoodId(w, w.e2a[0].id) && GoodId(w, id)
    requires w.e2a[0].CloseAssoc?
    ensures GoodId(AgentReceiveStep(lim, w, dials, writes), id)
  {
    hide LaneOf, Good, AgentReceiveStep, Ordered;
    AgentHead(lim, w, dials, writes, id);
    var f, l := w.e2a[0], LaneOf(w, id);
    LaneAgentClosed(lim, w, dials, writes, f.id, id);
    if id == f.id { KeepAgentClosed(l, w.edge.closed); }
  }

  lemma GoodAgentReceive(lim: Limits, w: World, dials: bool, writes: bool, id: nat)
    requires w.e2a != [] && w.answer == None && !w.agent.closed && GoodId(w, w.e2a[0].id) && GoodId(w, id)
    ensures GoodId(AgentReceiveStep(lim, w, dials, writes), id)
  {
    hide LaneOf, Good, AgentReceiveStep, Ordered;
    match w.e2a[0]
    case OpenAssoc(_, _) => GoodAgentOpen(lim, w, dials, writes, id);
    case Datagram(_, _) => GoodAgentDatagram(lim, w, dials, writes, id);
    case CloseAssoc(_) => GoodAgentClosed(lim, w, dials, writes, id);
    case OpenAck(n, ok) =>
      AgentHead(lim, w, dials, writes, id);
      LaneAgentIgnores(lim, w, dials, writes, n, ok, id);
  }

  lemma GoodAgentAnswer(w: World, id: nat)
    requires w.answer.Some? && w.answer.value.OpenAck? && !w.agent.closed && GoodId(w, id)
    ensures GoodId(AgentAnswerStep(w), id)
  {
    var f := w.answer.value;
    assert AgentAnswerStep(w).edge == w.edge && AgentAnswerStep(w).agent == w.agent;
    hide LaneOf, Good, AgentAnswerStep, Ordered, Count;
    LaneAgentAnswer(w, id);
    if id == f.id && f.ok {
      AllFields(w, id);
      AnsweredHasOwner(LaneOf(w, id), w.edge.closed, w.agent.closed);
      KeepReading(LaneOf(w, id), w.edge.closed, w.agent.closed);
    }
  }

  lemma AnsweredHasOwner(l: Lane, ec: bool, ac: bool)
    requires Good(l, ec, ac) && l.accepts > 0
    ensures l.owner.Some?
  {}

  lemma AgentRemoveKeepsFlags(w: World, gone: nat)
    ensures AgentRemoveStep(w, gone).edge == w.edge && AgentRemoveStep(w, gone).agent.closed == w.agent.closed
    ensures gone !in w.agent.open ==> AgentRemoveStep(w, gone) == w
  {}

  lemma GoodAgentRemove(w: World, gone: nat, id: nat)
    requires GoodId(w, gone) && GoodId(w, id)
    ensures GoodId(AgentRemoveStep(w, gone), id)
  {
    hide LaneOf, Good, AgentRemoveStep, Ordered, Count;
    AgentRemoveKeepsFlags(w, gone);
    if gone in w.agent.open {
      AllFields(w, gone);
      KeepAgentRemove(LaneOf(w, gone), w.edge.closed, w.agent.closed);
      LaneAgentRemove(w, gone, id);
    }
  }

  lemma WriteCloseFrame(w: World, gone: nat)
    ensures AgentWriteCloseStep(w, gone).edge == w.edge && AgentWriteCloseStep(w, gone).agent == w.agent
  {}

  lemma GoodAgentWriteClose(w: World, gone: nat, id: nat)
    requires gone in w.agentClosing && GoodId(w, id) && (w.agent.closed ==> w.agent.open == {})
    ensures GoodId(AgentWriteCloseStep(w, gone), id)
  {
    hide LaneOf, Good, AgentWriteCloseStep, Ordered, Count;
    WriteCloseFrame(w, gone);
    LaneAgentWriteClose(w, gone, id);
    AllFields(w, id);
    if id == gone && w.agent.closed {
      KeepAgentWriteClose(LaneOf(w, id), w.edge.closed);
    }
  }

  lemma GoodAgentRead(w: World, from: nat, payload: Payload, id: nat)
    requires from in w.readers && GoodId(w, id)
    ensures GoodId(AgentReadStep(w, from, payload), id)
  {
    assert AgentReadStep(w, from, payload).edge == w.edge && AgentReadStep(w, from, payload).agent == w.agent;
    hide LaneOf, Good, AgentReadStep, Ordered, Count;
    ReaderOf(w, id);
    LaneAgentRead(w, from, payload, id);
    if id == from { KeepAgentRead(LaneOf(w, id), payload, w.edge.closed, w.agent.closed); }
  }

  lemma ReaderOf(w: World, id: nat)
    ensures LaneOf(w, id).reading == (id in w.readers)
  {
    hide Ordered, Count, Payloads;
  }

  lemma GoodAgentClose(w: World, id: nat)
    requires GoodId(w, id)
    ensures GoodId(w.(agent := Mirror({}, true)), id)
  {
    hide LaneOf, Good, Ordered, Count;
    KeepAgentClose(LaneOf(w, id), w.edge.closed, w.agent.closed);
    LaneAgentClose(w, id);
  }
}
