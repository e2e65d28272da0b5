/** Each change a step makes to a lane keeps the lane good. */
module UdpLaneSteps {
  import opened Options
  import opened UdpFrames
  import opened UdpHubModel
  import opened UdpProtocol
  import opened UdpInvariant

  lemma BodiesPush(ps: seq<Packet>, p: Packet)
    ensures Bodies(ps + [p]) == Bodies(ps) + [p.payload]
  {}

  lemma KeepOpenNew(client: Client, ec: bool, ac: bool)
    ensures Good(UNUSED.(entry := Some(Assoc(client, Pending)), owner := Some(client), opening := true), ec, ac)
  {}

  lemma KeepWriteOpen(l: Lane, ec: bool, ac: bool)
    requires Good(l, ec, ac) && l.opening
    ensures Good(l.(opening := false, opens := l.opens + 1), ec, ac)
    ensures ec && l.entry.None? ==> Good(l.(opening := false), ec, ac)
    ensures l.entry.Some? ==> Good(l.(opening := false, entry := None), ec, ac)
  {}

  lemma KeepWriteClose(l: Lane, ec: bool, ac: bool)
    requires Good(l, ec, ac) && l.closesOut == l.closesQueued + 1
    ensures !l.missed && (l.opening ==> l.opens == 0)
    ensures Good(if ec then l.(closesOut := l.closesOut - 1)
                 else l.(closesQueued := l.closesQueued + 1, missed := l.opening), ec, ac)
    ensures l.closesQueued == 0 && (!ec ==> Good(l.(closesOut := 0, missed := true), ec, ac))
  {}

  lemma KeepForward(l: Lane, client: Client, payload: Payload, ec: bool, ac: bool)
    requires Good(l, ec, ac) && client in l.holders
    ensures Good(l.(outData := l.outData + [payload], forwarded := l.forwarded + [Packet(client, payload)]), ec, ac)
  {
    BodiesPush(l.forwarded, Packet(client, payload));
  }

  lemma KeepAccept(l: Lane, ec: bool, ac: bool)
    requires Good(l, ec, ac) && l.accepts > 0
    ensures Good(l.(accepts := l.accepts - 1,
                    entry := if l.entry.Some? then Some(l.entry.value.(phase := Ready)) else None), ec, ac)
  {}

  lemma KeepRefuse(l: Lane, ec: bool, ac: bool)
    requires Good(l, ec, ac) && l.refusals > 0
    ensures Good(l.(refusals := l.refusals - 1, entry := None), ec, ac)
  {}

  lemma KeepDeliver(l: Lane, ec: bool, ac: bool)
    requires Good(l, ec, ac) && l.backData != []
    ensures Good(if l.entry.None? then l.(backData := l.backData[1..])
                 else l.(backData := l.backData[1..],
                         returned := l.returned + [Packet(l.entry.value.client, l.backData[0])]), ec, ac)
  {
    if l.entry.Some? {
      BodiesPush(l.returned, Packet(l.entry.value.client, l.backData[0]));
      OnePassed(Bodies(l.returned), l.backData);
      hide Bodies;
    }
  }

  lemma OnePassed(a: seq<Payload>, b: seq<Payload>)
    requires b != []
    ensures a + [b[0]] + b[1..] == a + b
  {}

  /** The association leaves the Edge and a CloseAssoc is decided. */
  lemma KeepDrop(l: Lane, ec: bool, ac: bool)
    requires Good(l, ec, ac) && l.entry.Some?
    ensures l.closesOut == 0
    ensures Good(l.(entry := None, closesOut := l.closesOut + 1), ec, ac)
  {}

  lemma KeepAgentRemove(l: Lane, ec: bool, ac: bool)
    requires Good(l, ec, ac) && l.open
    ensures l.closesBack == 0
    ensures Good(l.(open := false, closesBack := l.closesBack + 1), ec, ac)
  {}

  lemma KeepAgentWriteClose(l: Lane, ec: bool)
    requires Good(l, ec, true) && l.closesBack > 0 && !l.open
    ensures Good(l.(closesBack := l.closesBack - 1), ec, true)
  {}

  lemma KeepAgentClose(l: Lane, ec: bool, ac: bool)
    requires Good(l, ec, ac)
    ensures Good(l.(open := false), ec, true)
  {}

  lemma KeepReading(l: Lane, ec: bool, ac: bool)
    requires Good(l, ec, ac) && l.owner.Some?
    ensures Good(l.(reading := true), ec, ac)
  {}

  lemma KeepAcquire(l: Lane, client: Client, ec: bool, ac: bool)
    requires Good(l, ec, ac) && l.entry == Some(Assoc(client, Ready))
    ensures Good(l.(holders := l.holders + {client}), ec, ac)
  {}

  lemma KeepEdgeClosed(l: Lane, ec: bool, ac: bool)
    requires Good(l, ec, ac) && l.closesBack > 0
    ensures Good(l.(closesBack := l.closesBack - 1, entry := None), ec, ac)
  {}

  lemma KeepEdgeClose(l: Lane, ec: bool, ac: bool)
    requires Good(l, ec, ac)
    ensures Good(l.(entry := None), true, ac)
  {}

  lemma KeepAgentOpen(l: Lane, accepted: bool, ec: bool)
    requires Good(l, ec, false) && l.opens > 0 && (l.missed ==> l.closesQueued == 0)
    ensures Good(if accepted then l.(opens := l.opens - 1, open := true, accepts := l.accepts + 1)
                 else l.(opens := l.opens - 1, refusals := l.refusals + 1), ec, false)
  {}

  lemma KeepAgentDatagram(l: Lane, writes: bool, ec: bool)
    requires Good(l, ec, false) && l.outData != []
    ensures var l1 := l.(outData := l.outData[1..]);
      Good(if !l.open then l1
           else if writes then l1.(written := l.written + [l.outData[0]])
           else l1.(open := false, closesBack := l.closesBack + 1), ec, false)
  {
    assert l.outData == [l.outData[0]] + l.outData[1..];
    assert l.written + l.outData == l.written + [l.outData[0]] + l.outData[1..];
  }

  lemma KeepAgentClosed(l: Lane, ec: bool)
    requires Good(l, ec, false) && l.closesQueued > 0 && (!l.missed ==> l.opens == 0)
    ensures Good(l.(closesOut := l.closesOut - 1, closesQueued := l.closesQueued - 1, open := false), ec, false)
  {}

  lemma KeepAgentRead(l: Lane, payload: Payload, ec: bool, ac: bool)
    requires Good(l, ec, ac) && l.reading
    ensures Good(if ac then l.(received := l.received + [payload])
                 else l.(received := l.received + [payload], backData := l.backData + [payload]), ec, ac)
  {
    if l.entry.Some? && !ac {
      assert l.received + [payload] == Bodies(l.returned) + (l.backData + [payload]);
    }
  }
}
