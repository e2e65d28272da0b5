/** How each step changes the lanes: one lane changes, the others stay. */
module UdpLanes {
  import opened Options
  import opened UdpFrames
  import opened UdpHubModel
  import opened UdpProtocol
  import opened UdpInvariant

  lemma LaneOpenNew(w: World, client: Client, id: nat)
    requires LaneOf(w, w.edge.nextID) == UNUSED
    ensures LaneOf(OpenNewStep(w, client), id)
         == if id != w.edge.nextID then LaneOf(w, id)
            else UNUSED.(entry := Some(Assoc(client, Pending)), owner := Some(client), opening := true)
  {
    hide Count, Payloads, OpensFirst, ClosesFirst;
  }

  /** The write failed, and the association is given up. */
  lemma LaneOpenUnsent(w: World, n: nat, sent: bool, id: nat)
    requires n in w.edgeOpening && (w.edge.closed || (!sent && OpensOwn(w, n)))
    ensures var l := LaneOf(w, id);
            LaneOf(WriteOpenStep(w, n, sent), id)
              == if id != n then l
            else if w.edge.closed then l.(opening := false)
            else l.(opening := false, entry := None)
  {
    hide Count, Payloads, OpensFirst, ClosesFirst;
  }

  lemma LaneAcquire(lim: Limits, w: World, client: Client, id: nat)
    requires Enabled(lim, w, Step.Acquire(client))
    ensures var l := LaneOf(w, id);
            LaneOf(Next(lim, w, Step.Acquire(client)), id)
              == if id == w.edge.byAddr[client] then l.(holders := l.holders + {client}) else l
  {
    HolderAdded(w.holders, client, w.edge.byAddr[client], id);
    hide Count, Payloads, Ordered, LogOf;
  }

  lemma HolderAdded(holders: set<(Client, nat)>, client: Client, n: nat, id: nat)
    ensures (set h | h in holders + {(client, n)} && h.1 == id :: h.0)
         == (set h | h in holders && h.1 == id :: h.0) + (if id == n then {client} else {})
  {
    var more := holders + {(client, n)};
    assert (client, n) in more;
    if id == n {
      assert client in (set h | h in more && h.1 == id :: h.0);
    }
  }

  /** The association `gone` leaves the Edge and a CloseAssoc is decided. */
  lemma LaneEdgeDrop(w: World, w': World, gone: nat, id: nat)
    requires gone in w.edge.byID && gone !in w.edgeClosing
    requires w' == w.(edge := Drop(w.edge, gone), gauge := w'.gauge, edgeClosing := w.edgeClosing + {gone})
    ensures var l := LaneOf(w, id);
            LaneOf(w', id) == if id != gone then l else l.(entry := None, closesOut := l.closesOut + 1)
  {}

  /** What a lane holds of the way out. */
  lemma OutFields(w: World, id: nat)
    ensures var l := LaneOf(w, id);
      && l.opening == (id in w.edgeOpening) && l.missed == (id in w.hist.missed)
      && l.opens == Count(w.e2a, Opening, id) && l.closesQueued == Count(w.e2a, Closing, id)
      && l.closesOut == l.closesQueued + One(id in w.edgeClosing)
      && l.inOrder == Ordered(w, id) && l.outData == Payloads(w.e2a, id)
      && l.forwarded == LogOf(w.hist.forwarded, id)
  {
    hide Count, Payloads, Ordered;
  }

  /** Writing to the Agent changes nothing else. */
  lemma OutFrame(w: World, w': World, id: nat)
    requires w' == w.(e2a := w'.e2a, edgeOpening := w'.edgeOpening, edgeClosing := w'.edgeClosing,
                      hist := w.hist.(forwarded := w'.hist.forwarded, missed := w'.hist.missed))
    ensures var l, l' := LaneOf(w, id), LaneOf(w', id);
      l' == l.(opening := l'.opening, missed := l'.missed, opens := l'.opens, closesQueued := l'.closesQueued,
               closesOut := l'.closesOut, inOrder := l'.inOrder, outData := l'.outData, forwarded := l'.forwarded)
  {
    hide Count, Payloads, Ordered;
  }

  lemma OrderPushed(w: World, w': World, f: Frame, id: nat)
    requires Ordered(w, id) && w'.e2a == w.e2a + [f] && (id in w'.hist.missed <==> id in w.hist.missed)
    requires f.id == id && id !in w.hist.missed && KindOf(f) == Opening ==> Count(w.e2a, Closing, id) == 0
    requires f.id == id && id in w.hist.missed ==> KindOf(f) != Closing
    ensures Ordered(w', id)
  {
    PushOrder(w.e2a, f, id);
    hide Count, OpensFirst, ClosesFirst;
  }

  /** The first frame overtakes what is still to be written. */
  lemma OrderOvertaken(w: World, w': World, id: nat)
    requires Count(w.e2a, Opening, id) == 0 && w'.e2a == w.e2a + [CloseAssoc(id)] && id in w'.hist.missed
    ensures Ordered(w', id)
  {
    NothingOpens(w.e2a, id);
    PushOrder(w.e2a, CloseAssoc(id), id);
    hide Count, OpensFirst, ClosesFirst;
  }

  lemma LaneForward(w: World, client: Client, to: nat, payload: Payload, id: nat)
    requires (client, to) in w.holders && Ordered(w, id)
    ensures var l := LaneOf(w, id);
            LaneOf(ForwardStep(w, client, to, payload), id)
              == if id != to || w.edge.closed then l
            else l.(outData := l.outData + [payload], forwarded := l.forwarded + [Packet(client, payload)])
  {
    var w' := ForwardStep(w, client, to, payload);
    if !w.edge.closed {
      Push(w.e2a, Datagram(to, payload), id);
      OrderPushed(w, w', Datagram(to, payload), id);
      hide LaneOf, Count, Payloads, Ordered;
      OutFields(w, id);
      OutFields(w', id);
      OutFrame(w, w', id);
    }
  }

  lemma OpenWritten(w: World, n: nat)
    requires n in w.edgeOpening && !w.edge.closed
    ensures WriteOpenStep(w, n, true)
         == w.(edgeOpening := w.edgeOpening - {n}, e2a := w.e2a + [Frame.OpenAssoc(n, w.edgeOpening[n])])
  {}

  lemma LaneWriteOpen(w: World, n: nat, id: nat)
    requires n in w.edgeOpening && !w.edge.closed && Ordered(w, id)
    requires n !in w.hist.missed ==> Count(w.e2a, Closing, n) == 0
    ensures var l := LaneOf(w, id);
            LaneOf(WriteOpenStep(w, n, true), id) == if id != n then l else l.(opening := false, opens := l.opens + 1)
  {
    hide LaneOf, Count, Payloads, Ordered, LogOf, WriteOpenStep;
    var w', f := WriteOpenStep(w, n, true), Frame.OpenAssoc(n, w.edgeOpening[n]);
    OpenWritten(w, n);
    Push(w.e2a, f, id);
    OrderPushed(w, w', f, id);
    OutFields(w, id);
    OutFields(w', id);
    OutFrame(w, w', id);
  }

  lemma LaneCloseUnsent(w: World, gone: nat, id: nat)
    requires gone in w.edgeClosing && !w.edge.closed && Ordered(w, id) && Count(w.e2a, Closing, gone) == 0
    ensures var l := LaneOf(w, id);
            LaneOf(WriteCloseStep(w, gone, false), id) == if id != gone then l else l.(closesOut := 0, missed := true)
  {
    var w' := WriteCloseStep(w, gone, false);
    assert w'.e2a == w.e2a;
    hide LaneOf, Count, Payloads, Ordered, LogOf;
    if id == gone {
      OrderMissed(w, w', gone);
    } else {
      OrderKept(w, w', id);
    }
    OutFields(w, id);
    OutFields(w', id);
    OutFrame(w, w', id);
  }

  lemma OrderMissed(w: World, w': World, id: nat)
    requires Count(w.e2a, Closing, id) == 0 && w'.e2a == w.e2a && id in w'.hist.missed
    ensures Ordered(w', id)
  {
    NothingCloses(w.e2a, id);
    hide ClosesFirst;
  }

  lemma OrderKept(w: World, w': World, id: nat)
    requires w'.e2a == w.e2a && (id in w'.hist.missed <==> id in w.hist.missed)
    ensures Ordered(w', id) == Ordered(w, id)
  {
    hide OpensFirst, ClosesFirst;
  }

  lemma LaneEdgeWriteClose(w: World, gone: nat, id: nat)
    requires gone in w.edgeClosing && gone !in w.hist.missed && Ordered(w, id)
    requires gone in w.edgeOpening ==> Count(w.e2a, Opening, gone) == 0
    ensures var l := LaneOf(w, id);
            LaneOf(WriteCloseStep(w, gone, true), id)
              == if id != gone then l
            else if w.edge.closed then l.(closesOut := l.closesOut - 1)
            else l.(closesQueued := l.closesQueued + 1, missed := l.opening)
  {
    var w' := WriteCloseStep(w, gone, true);
    Push(w.e2a, CloseAssoc(gone), id);
    hide LaneOf, Count, Payloads, Ordered, LogOf;
    if !w.edge.closed {
      if id == gone && gone in w.edgeOpening {
        OrderOvertaken(w, w', gone);
      } else {
        OrderPushed(w, w', CloseAssoc(gone), id);
      }
    } else {
      OrderKept(w, w', id);
    }
    OutFields(w, id);
    OutFields(w', id);
    OutFrame(w, w', id);
  }

  /** What a lane holds of the way back. */
  lemma BackFields(w: World, id: nat)
    ensures var l := LaneOf(w, id);
      && l.entry == Lookup(w.edge.byID, id)
      && l.accepts == Count(w.a2e, Accepting, id) + One(w.answer == Some(OpenAck(id, true)))
      && l.refusals == Count(w.a2e, Refusing, id) + One(w.answer == Some(OpenAck(id, false)))
      && l.closesBack == Count(w.a2e, Closing, id) + One(id in w.agentClosing)
      && l.backData == Payloads(w.a2e, id) && l.returned == LogOf(w.hist.returned, id)
  {
    hide Count, Payloads, Ordered;
  }

  /** A frame from the Agent changes nothing else. */
  lemma BackFrame(w: World, w': World, id: nat)
    requires w' == w.(a2e := w'.a2e, edge := w'.edge, gauge := w'.gauge, hist := w.hist.(returned := w'.hist.returned))
    ensures var l, l' := LaneOf(w, id), LaneOf(w', id);
      l' == l.(entry := l'.entry, accepts := l'.accepts, refusals := l'.refusals, closesBack := l'.closesBack,
               backData := l'.backData, returned := l'.returned)
  {
    hide Count, Payloads, OpensFirst, ClosesFirst;
  }

  lemma EdgeReceiveFrame(w: World)
    requires w.a2e != []
    ensures var w' := EdgeReceiveStep(w);
      && w' == w.(a2e := w'.a2e, edge := w'.edge, gauge := w'.gauge, hist := w.hist.(returned := w'.hist.returned))
      && w'.a2e == w.a2e[1..]
      && (w.a2e[0].OpenAck? ==> w'.edge == MarkReady(w.edge, w.a2e[0].id, w.a2e[0].ok).0)
      && (w.a2e[0].CloseAssoc? ==> w'.edge == Remove(w.edge, w.a2e[0].id).0)
      && (w.a2e[0].OpenAssoc? || w.a2e[0].Datagram? ==> w'.edge == w.edge)
      && (!w.a2e[0].Datagram? ==> w'.hist.returned == w.hist.returned)
  {
    hide MarkReady, Remove;
  }

  lemma EntryAfterAck(h: Hub, n: nat, ok: bool, id: nat)
    ensures var e, e' := Lookup(h.byID, id), Lookup(MarkReady(h, n, ok).0.byID, id);
      e' == if id != n then e else if !ok || e.None? then None else Some(e.value.(phase := Ready))
  {}

  lemma EntryAfterRemove(h: Hub, n: nat, id: nat)
    ensures Lookup(Remove(h, n).0.byID, id) == if id != n then Lookup(h.byID, id) else None
  {}

  lemma LaneEdgeAck(w: World, n: nat, ok: bool, id: nat)
    requires w.a2e != [] && w.a2e[0] == OpenAck(n, ok)
    ensures id == n ==> (if ok then LaneOf(w, id).accepts > 0 else LaneOf(w, id).refusals > 0)
    ensures var l := LaneOf(w, id);
            LaneOf(EdgeReceiveStep(w), id)
              == if id != n then l
            else if ok then l.(accepts := l.accepts - 1,
                               entry := if l.entry.Some? then Some(l.entry.value.(phase := Ready)) else None)
            else l.(refusals := l.refusals - 1, entry := None)
  {
    var w' := EdgeReceiveStep(w);
    Pop(w.a2e, id);
    EdgeReceiveFrame(w);
    EntryAfterAck(w.edge, n, ok, id);
    hide EdgeReceiveStep, LaneOf, Count, Payloads, MarkReady, Lookup, LogOf;
    BackFields(w, id);
    BackFields(w', id);
    BackFrame(w, w', id);
  }

  lemma LaneEdgeDeliver(w: World, n: nat, payload: Payload, id: nat)
    requires w.a2e != [] && w.a2e[0] == Datagram(n, payload)
    ensures var l := LaneOf(w, id);
            && (id == n ==> l.backData != [] && l.backData[0] == payload)
            && LaneOf(EdgeReceiveStep(w), id)
              == if id != n then l
                 else if l.entry.None? then l.(backData := l.backData[1..])
                 else l.(backData := l.backData[1..],
                         returned := l.returned + [Packet(l.entry.value.client, payload)])
  {
    var w' := EdgeReceiveStep(w);
    Pop(w.a2e, id);
    EdgeReceiveFrame(w);
    LogAfterDeliver(w, n, payload, id);
    hide EdgeReceiveStep, LaneOf, Count, Payloads, LogOf;
    BackFields(w, id);
    BackFields(w', id);
    BackFrame(w, w', id);
  }

  lemma LogAfterDeliver(w: World, n: nat, payload: Payload, id: nat)
    requires w.a2e != [] && w.a2e[0] == Datagram(n, payload)
    ensures LogOf(EdgeReceiveStep(w).hist.returned, id)
         == if id == n && n in w.edge.byID then LogOf(w.hist.returned, n) + [Packet(w.edge.byID[n].client, payload)]
            else LogOf(w.hist.returned, id)
  {}

  lemma LaneEdgeClosed(w: World, n: nat, id: nat)
    requires w.a2e != [] && w.a2e[0] == CloseAssoc(n)
    ensures id == n ==> LaneOf(w, id).closesBack > 0
    ensures var l := LaneOf(w, id);
            LaneOf(EdgeReceiveStep(w), id) == if id != n then l else l.(closesBack := l.closesBack - 1, entry := None)
  {
    var w' := EdgeReceiveStep(w);
    Pop(w.a2e, id);
    EdgeReceiveFrame(w);
    EntryAfterRemove(w.edge, n, id);
    hide EdgeReceiveStep, LaneOf, Count, Payloads, Remove, Lookup, LogOf;
    BackFields(w, id);
    BackFields(w', id);
    BackFrame(w, w', id);
  }

  lemma LaneEdgeIgnores(w: World, n: nat, client: Client, id: nat)
    requires w.a2e != [] && w.a2e[0] == Frame.OpenAssoc(n, client)
    ensures LaneOf(EdgeReceiveStep(w), id) == LaneOf(w, id)
  {
    var w' := EdgeReceiveStep(w);
    Pop(w.a2e, id);
    EdgeReceiveFrame(w);
    hide EdgeReceiveStep, LaneOf, Count, Payloads, Lookup, LogOf;
    BackFields(w, id);
    BackFields(w', id);
    BackFrame(w, w', id);
  }

  lemma LaneEdgeClose(w: World, id: nat)
    ensures LaneOf(EdgeCloseStep(w), id) == if w.edge.closed then LaneOf(w, id) else LaneOf(w, id).(entry := None)
  {}

  /** What a lane holds of the Agent. */
  lemma AgentFields(w: World, id: nat)
    ensures var l := LaneOf(w, id);
      l.open == (id in w.agent.open) && l.written == LogOf(w.hist.written, id)
  {
    hide Count, Payloads, Ordered;
  }

  /** A frame from the Edge changes nothing else. */
  lemma AgentFrame(w: World, w': World, id: nat)
    requires w' == w.(e2a := w'.e2a, agent := w'.agent, answer := w'.answer, agentClosing := w'.agentClosing,
                      hist := w.hist.(written := w'.hist.written))
    ensures var l, l' := LaneOf(w, id), LaneOf(w', id);
      l' == l.(open := l'.open, opens := l'.opens, accepts := l'.accepts, refusals := l'.refusals,
               closesOut := l'.closesOut, closesQueued := l'.closesQueued, closesBack := l'.closesBack,
               inOrder := l'.inOrder, outData := l'.outData, written := l'.written)
  {
    hide Count, Payloads, Ordered;
  }

  lemma OrderPopped(w: World, w': World, id: nat)
    requires w.e2a != [] && Ordered(w, id) && w'.e2a == w.e2a[1..] && w'.hist.missed == w.hist.missed
    ensures Ordered(w', id)
    ensures w.e2a[0] == CloseAssoc(id) && id !in w.hist.missed ==> Count(w'.e2a, Opening, id) == 0
    ensures w.e2a[0].OpenAssoc? && w.e2a[0].id == id && id in w.hist.missed ==> Count(w'.e2a, Closing, id) == 0
  {
    PopOrder(w.e2a, id);
    hide Count, OpensFirst, ClosesFirst;
  }

  lemma AgentReceiveFrame(lim: Limits, w: World, dials: bool, writes: bool)
    requires w.e2a != []
    ensures var w' := AgentReceiveStep(lim, w, dials, writes);
      && w' == w.(e2a := w'.e2a, agent := w'.agent, answer := w'.answer, agentClosing := w'.agentClosing,
                  hist := w.hist.(written := w'.hist.written))
      && w'.e2a == w.e2a[1..]
  {
    hide MirrorOpen;
  }

  lemma AgentOpens(lim: Limits, w: World, dials: bool, writes: bool, n: nat, client: Client)
    requires w.e2a != [] && w.answer == None && !w.agent.closed
    requires w.e2a[0] == Frame.OpenAssoc(n, client) && n !in w.agent.open
    ensures var w', ok := AgentReceiveStep(lim, w, dials, writes), MirrorOpen(w.agent, n, lim.agent, dials).1;
      && w'.answer == Some(OpenAck(n, ok)) && w'.agentClosing == w.agentClosing && w'.hist == w.hist
      && w'.agent.open == w.agent.open + if ok then {n} else {}
  {}

  lemma LaneAgentOpen(lim: Limits, w: World, dials: bool, writes: bool, n: nat, client: Client, id: nat)
    requires w.e2a != [] && w.answer == None && !w.agent.closed
    requires w.e2a[0] == Frame.OpenAssoc(n, client) && n !in w.agent.open
    requires Ordered(w, id)
    ensures id == n ==> LaneOf(w, id).opens > 0 && (LaneOf(w, id).missed ==> LaneOf(w, id).closesQueued == 0)
    ensures var l, l' := LaneOf(w, id), LaneOf(AgentReceiveStep(lim, w, dials, writes), id);
            if id != n then l' == l
            else || l' == l.(opens := l.opens - 1, open := true, accepts := l.accepts + 1)
                 || l' == l.(opens := l.opens - 1, refusals := l.refusals + 1)
  {
    hide AgentReceiveStep, LaneOf, Count, Payloads, Ordered, MirrorOpen, LogOf;
    var w' := AgentReceiveStep(lim, w, dials, writes);
    AgentOpens(lim, w, dials, writes, n, client);
    Popped(lim, w, dials, writes, id);
    AllFields(w, id);
    AllFields(w', id);
    AgentFrame(w, w', id);
  }

  lemma Popped(lim: Limits, w: World, dials: bool, writes: bool, id: nat)
    requires w.e2a != [] && Ordered(w, id)
    ensures var w' := AgentReceiveStep(lim, w, dials, writes);
      && w' == w.(e2a := w'.e2a, agent := w'.agent, answer := w'.answer, agentClosing := w'.agentClosing,
                  hist := w.hist.(written := w'.hist.written))
      && w'.e2a == w.e2a[1..] && Ordered(w', id)
      && (w.e2a[0] == CloseAssoc(id) && id !in w.hist.missed ==> Count(w'.e2a, Opening, id) == 0)
      && (w.e2a[0].OpenAssoc? && w.e2a[0].id == id && id in w.hist.missed ==> Count(w'.e2a, Closing, id) == 0)
    ensures forall k :: Count(w.e2a, k, id)
              == Count(w.e2a[1..], k, id) + (if KindOf(w.e2a[0]) == k && w.e2a[0].id == id then 1 else 0)
    ensures if w.e2a[0].Datagram? && w.e2a[0].id == id
            then && Payloads(w.e2a, id) != [] && Payloads(w.e2a, id)[0] == w.e2a[0].payload
                 && Payloads(w.e2a[1..], id) == Payloads(w.e2a, id)[1..]
            else Payloads(w.e2a[1..], id) == Payloads(w.e2a, id)
  {
    AgentReceiveFrame(lim, w, dials, writes);
    Pop(w.e2a, id);
    hide AgentReceiveStep, Count, Payloads, Ordered;
    OrderPopped(w, AgentReceiveStep(lim, w, dials, writes), id);
  }

  lemma AllFields(w: World, id: nat)
    ensures var l := LaneOf(w, id);
      && l.missed == (id in w.hist.missed)
      && l.opens == Count(w.e2a, Opening, id) && l.closesQueued == Count(w.e2a, Closing, id)
      && l.closesOut == l.closesQueued + One(id in w.edgeClosing)
      && l.inOrder == Ordered(w, id) && l.outData == Payloads(w.e2a, id)
      && l.open == (id in w.agent.open) && l.written == LogOf(w.hist.written, id)
      && l.accepts == Count(w.a2e, Accepting, id) + One(w.answer == Some(OpenAck(id, true)))
      && l.refusals == Count(w.a2e, Refusing, id) + One(w.answer == Some(OpenAck(id, false)))
      && l.closesBack == Count(w.a2e, Closing, id) + One(id in w.agentClosing)
  {
    hide LaneOf, Count, Payloads, Ordered, LogOf;
    OutFields(w, id);
    AgentFields(w, id);
    BackFields(w, id);
  }

  lemma LaneAgentDatagram(lim: Limits, w: World, dials: bool, writes: bool, n: nat, payload: Payload, id: nat)
    requires w.e2a != [] && w.e2a[0] == Datagram(n, payload) && Ordered(w, id)
    requires n in w.agent.open ==> n !in w.agentClosing
    ensures var l, l' := LaneOf(w, id), LaneOf(AgentReceiveStep(lim, w, dials, writes), id);
            if id != n then l' == l
            else && l.outData != [] && l.outData[0] == payload
                 && var l1 := l.(outData := l.outData[1..]);
                    l' == if !l.open then l1
                          else if writes then l1.(written := l.written + [payload])
                          else l1.(open := false, closesBack := l.closesBack + 1)
  {
    var w' := AgentReceiveStep(lim, w, dials, writes);
    assert w'.answer == w.answer && (n !in w.agent.open || writes ==> w'.agent == w.agent && w'.agentClosing == w.agentClosing);
    assert n in w.agent.open && !writes ==>
             w'.agent.open == w.agent.open - {n} && w'.agentClosing == w.agentClosing + {n};
    assert w'.hist.written == if n in w.agent.open && writes then Log(w.hist.written, n, payload) else w.hist.written;
    Popped(lim, w, dials, writes, id);
    hide AgentReceiveStep, LaneOf, Count, Payloads, Ordered;
    AllFields(w, id);
    AllFields(w', id);
    AgentFrame(w, w', id);
  }

  lemma LaneAgentClosed(lim: Limits, w: World, dials: bool, writes: bool, n: nat, id: nat)
    requires w.e2a != [] && w.e2a[0] == CloseAssoc(n) && Ordered(w, id)
    ensures var l := LaneOf(w, id);
            && (id == n ==> l.closesQueued > 0 && (!l.missed ==> l.opens == 0))
            && LaneOf(AgentReceiveStep(lim, w, dials, writes), id)
            == if id != n then l
               else l.(closesOut := l.closesOut - 1, closesQueued := l.closesQueued - 1, open := false)
  {
    var w' := AgentReceiveStep(lim, w, dials, writes);
    assert w'.answer == w.answer && w'.hist == w.hist && w'.agentClosing == w.agentClosing;
    assert w'.agent.open == w.agent.open - {n};
    Popped(lim, w, dials, writes, id);
    hide AgentReceiveStep, LaneOf, Count, Payloads, Ordered, LogOf;
    AllFields(w, id);
    AllFields(w', id);
    AgentFrame(w, w', id);
  }

  lemma LaneAgentIgnores(lim: Limits, w: World, dials: bool, writes: bool, n: nat, ok: bool, id: nat)
    requires w.e2a != [] && w.e2a[0] == OpenAck(n, ok) && Ordered(w, id)
    ensures LaneOf(AgentReceiveStep(lim, w, dials, writes), id) == LaneOf(w, id)
  {
    var w' := AgentReceiveStep(lim, w, dials, writes);
    assert w' == w.(e2a := w.e2a[1..]);
    Popped(lim, w, dials, writes, id);
    hide AgentReceiveStep, LaneOf, Count, Payloads, Ordered, LogOf;
    AllFields(w, id);
    AllFields(w', id);
    AgentFrame(w, w', id);
  }

  lemma LaneAgentAnswer(w: World, id: nat)
    requires w.answer.Some? && w.answer.value.OpenAck? && !w.agent.closed
    ensures var l, f := LaneOf(w, id), w.answer.value;
            LaneOf(AgentAnswerStep(w), id) == if id == f.id && f.ok then l.(reading := true) else l
  {
    Push(w.a2e, w.answer.value, id);
    hide Count, Payloads, OpensFirst, ClosesFirst;
  }

  lemma LaneAgentRemove(w: World, gone: nat, id: nat)
    requires gone in w.agent.open && gone !in w.agentClosing
    ensures var l := LaneOf(w, id);
            LaneOf(AgentRemoveStep(w, gone), id)
              == if id != gone then l else l.(open := false, closesBack := l.closesBack + 1)
  {}

  lemma LaneAgentWriteClose(w: World, gone: nat, id: nat)
    requires gone in w.agentClosing
    ensures var l := LaneOf(w, id);
            LaneOf(AgentWriteCloseStep(w, gone), id)
              == if id == gone && w.agent.closed then l.(closesBack := l.closesBack - 1) else l
  {
    Push(w.a2e, CloseAssoc(gone), id);
    hide Count, Payloads, OpensFirst, ClosesFirst;
  }

  lemma LaneAgentRead(w: World, from: nat, payload: Payload, id: nat)
    requires from in w.readers
    ensures var l := LaneOf(w, id);
            LaneOf(AgentReadStep(w, from, payload), id)
              == if id != from then l
            else if w.agent.closed then l.(received := l.received + [payload])
            else l.(received := l.received + [payload], backData := l.backData + [payload])
  {
    Push(w.a2e, Datagram(from, payload), id);
    hide Count, Payloads, OpensFirst, ClosesFirst;
  }

  lemma LaneAgentClose(w: World, id: nat)
    ensures LaneOf(w.(agent := Mirror({}, true)), id) == LaneOf(w, id).(open := false)
  {}
}
