/**
  That payloads arrive: what is forwarded is written, in order and without loss, while the two ends hold
  the association; and that the two read loops do to a world what the methods say they do.
 */
module UdpDelivery {
  import opened Options
  import opened UdpFrames
  import opened UdpHubModel
  import opened Metrics
  import opened UdpProtocol
  import opened UdpInvariant
  import opened UdpReachable
  import opened UdpTheorems
  import EdgeUdp
  import AgentUdp

  /**
    While the Agent holds an id, what was forwarded on it is exactly what its socket was written, and
    then what is still on the way; while the Edge does, likewise on the way back.
   */
  lemma NothingLost(lim: Limits, run: seq<Step>, w: World, id: nat)
    requires Reached(lim, run, w)
    ensures id in w.agent.open ==>
              Bodies(LogOf(w.hist.forwarded, id)) == LogOf(w.hist.written, id) + Payloads(w.e2a, id)
    ensures id in w.edge.byID && !w.agent.closed ==>
              LogOf(w.hist.received, id) == Bodies(LogOf(w.hist.returned, id)) + Payloads(w.a2e, id)
  {
    hide Good, LaneOf, Shared, After;
    InvHolds(lim, run);
    assert GoodId(w, id);
    LogsOf(w, id);
    QueuesOf(w, id);
    Passing(LaneOf(w, id), w.edge.closed, w.agent.closed);
  }

  lemma QueuesOf(w: World, id: nat)
    ensures var l := LaneOf(w, id);
      && l.open == (id in w.agent.open) && l.outData == Payloads(w.e2a, id) && l.backData == Payloads(w.a2e, id)
  {
    hide Count, Payloads, Ordered, LogOf;
  }

  lemma Passing(l: Lane, ec: bool, ac: bool)
    requires Good(l, ec, ac)
    ensures l.open ==> Bodies(l.forwarded) == l.written + l.outData
    ensures l.entry.Some? && !ac ==> l.received == Bodies(l.returned) + l.backData
  {
    hide Bodies, Single, Placed;
  }

  /** Forwarding on an open hub adds the payload to the log and to the queue; later steps leave it there. */
  lemma ForwardLogs(w: World, client: Client, id: nat, payload: Payload)
    requires !w.edge.closed
    ensures var w' := ForwardStep(w, client, id, payload);
      && LogOf(w'.hist.forwarded, id) == LogOf(w.hist.forwarded, id) + [Packet(client, payload)]
      && Payloads(w'.e2a, id) == Payloads(w.e2a, id) + [payload]
  {
    PayloadsPush(w.e2a, Datagram(id, payload), id);
    hide Payloads;
  }

  lemma ForwardedGrows(lim: Limits, w: World, s: Step, id: nat)
    requires Enabled(lim, w, s)
    ensures LogOf(w.hist.forwarded, id) <= LogOf(Next(lim, w, s).hist.forwarded, id)
  {
    if !s.Forward? {
      ForwardedSame(lim, w, s);
    }
    hide OpenNewStep, WriteOpenStep, EdgeRemoveStep, WriteCloseStep, EdgeReceiveStep, EdgeCloseStep, AgentReceiveStep;
    hide AgentAnswerStep, AgentRemoveStep, AgentWriteCloseStep, AgentReadStep;
  }

  lemma ForwardedSame(lim: Limits, w: World, s: Step)
    requires Enabled(lim, w, s) && !s.Forward?
    ensures Next(lim, w, s).hist.forwarded == w.hist.forwarded
  {
    hide MarkReady, Remove, MirrorOpen, CloseHub, Insert, Drop;
  }

  lemma {:induction false} ForwardedStays(lim: Limits, run: seq<Step>, more: seq<Step>, id: nat)
    requires After(lim, run + more).Some?
    ensures After(lim, run).Some?
    ensures LogOf(After(lim, run).value.hist.forwarded, id) <= LogOf(After(lim, run + more).value.hist.forwarded, id)
    decreases |more|
  {
    hide Next, Enabled, LogOf;
    if more == [] {
      assert run + more == run;
    } else {
      var most := more[..|more| - 1];
      assert (run + more)[..|run + more| - 1] == run + most;
      ForwardedStays(lim, run, most, id);
      ForwardedGrows(lim, After(lim, run + most).value, more[|more| - 1], id);
    }
  }

  /**
    A datagram forwarded on an open hub has been written to the local socket of its id, behind all that
    was forwarded before it, as soon as the Agent holds the id and has read what was sent on it.
   */
  lemma ForwardArrives(lim: Limits, run: seq<Step>, client: Client, id: nat, payload: Payload, more: seq<Step>, v: World, w: World)
    requires After(lim, run) == Some(v) && !v.edge.closed && Enabled(lim, v, Forward(client, id, payload))
    requires Reached(lim, run + [Forward(client, id, payload)] + more, w)
    requires id in w.agent.open && Payloads(w.e2a, id) == []
    ensures var n := |LogOf(v.hist.forwarded, id)|;
      && n < |LogOf(w.hist.written, id)| && LogOf(w.hist.written, id)[n] == payload
      && LogOf(w.hist.written, id)[..n] == Bodies(LogOf(v.hist.forwarded, id))
  {
    var sent := run + [Forward(client, id, payload)];
    assert sent[..|sent| - 1] == run;
    assert After(lim, sent) == Some(ForwardStep(v, client, id, payload));
    ForwardLogs(v, client, id, payload);
    NothingLost(lim, sent + more, w, id);
    hide After, ForwardStep, Payloads, LogOf;
    ForwardedStays(lim, sent, more, id);
    var logged := LogOf(v.hist.forwarded, id) + [Packet(client, payload)];
    var all := LogOf(w.hist.forwarded, id);
    assert logged == all[..|logged|];
    assert Bodies(all) == LogOf(w.hist.written, id);
    BodiesOf(all, LogOf(v.hist.forwarded, id), Packet(client, payload));
  }

  lemma BodiesOf(all: seq<Packet>, before: seq<Packet>, p: Packet)
    requires before + [p] <= all
    ensures Bodies(all)[..|before|] == Bodies(before) && Bodies(all)[|before|] == p.payload
  {
    assert all[|before|] == (before + [p])[|before|] == p;
    forall i | 0 <= i < |before| ensures Bodies(all)[i] == Bodies(before)[i] {
      assert all[i] == (before + [p])[i] == before[i];
    }
  }

  /**
    One round of the Agent's read loop: the step of the protocol has the effect of the method, on the
    open ids, on each socket and on what is answered.
   */
  lemma AgentRoundRefines(lim: Limits, w: World, dials: bool, writes: bool, id: nat)
    requires Enabled(lim, w, AgentReceive(dials, writes)) && w.agentClosing !! w.agent.open
    ensures var f, w' := w.e2a[0], AgentReceiveStep(lim, w, dials, writes);
      && w'.e2a == w.e2a[1..] && w'.agent == AgentUdp.UdpStream.Received(w.agent, f, lim.agent, dials, writes, false)
      && LogOf(w'.hist.written, id)
         == LogOf(w.hist.written, id) + (if id in w.agent.open then AgentUdp.UdpStream.Wrote(f, id, writes) else [])
      && AgentUdp.UdpStream.Answered(w.agent, f, lim.agent, dials, writes)
         == (if w'.answer.Some? then [w'.answer.value] else if w'.agentClosing != w.agentClosing then [CloseAssoc(f.id)] else [])
      && w'.edge == w.edge && w'.a2e == w.a2e && w'.gauge == w.gauge
  {
    hide MirrorOpen;
  }

  /** One round of the Edge's: on the hub, on the gauge and on what is addressed to the clients. */
  lemma EdgeRoundRefines(w: World, id: nat)
    requires w.a2e != []
    ensures var f, w' := w.a2e[0], EdgeReceiveStep(w);
      && w'.a2e == w.a2e[1..] && w'.edge == EdgeUdp.UdpHub.Received(w.edge, f).0
      && w'.gauge == (if f.Datagram? || f.OpenAssoc? then w.gauge else Clamped(w.gauge, EdgeUdp.UdpHub.Received(w.edge, f).1))
      && LogOf(w'.hist.returned, id) == LogOf(w.hist.returned, id)
           + (if f.Datagram? && f.id == id && id in w.edge.byID then [Packet(w.edge.byID[id].client, f.payload)] else [])
      && w'.agent == w.agent && w'.e2a == w.e2a
  {
    hide MarkReady, Remove;
  }

  /** And so do forwarding, and reading from a local socket. */
  lemma SendsRefine(w: World, client: Client, id: nat, payload: Payload)
    requires 0 < |payload| <= 65532
    ensures ForwardStep(w, client, id, payload).e2a == w.e2a + if w.edge.closed then [] else [Datagram(id, payload)]
    ensures AgentReadStep(w, id, payload).a2e
         == w.a2e + AgentUdp.UdpStream.Relayed(id, AgentUdp.Arrived(payload), w.agent.closed)
    ensures ForwardStep(w, client, id, payload).edge == w.edge && AgentReadStep(w, id, payload).agent == w.agent
  {}
}
