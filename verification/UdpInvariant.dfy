/**
  The joint invariant of the UDP association protocol.

  Everything the world holds about one id is its `Lane`. The invariant of an id is a property of
  its lane alone; a step changes the lanes of at most one id, and each change keeps the property.
 */
module UdpInvariant {
  import opened Options
  import opened UdpFrames
  import opened UdpHubModel
  import opened UdpProtocol

  datatype Lane = Lane(
    entry: Option<Assoc>, open: bool,                        // at the Edge, at the Agent
    opening: bool, missed: bool,                             // its OpenAssoc unwritten; its CloseAssoc out of the Agent's reach
    opens: nat, accepts: nat, refusals: nat,                 // OpenAssoc and answers in flight
    closesOut: nat, closesQueued: nat, closesBack: nat,      // CloseAssoc in flight, each way
    inOrder: bool,
    outData: seq<Payload>, backData: seq<Payload>,           // payloads in flight
    owner: Option<Client>, holders: set<Client>, reading: bool,
    forwarded: seq<Packet>, written: seq<Payload>,
    received: seq<Payload>, returned: seq<Packet>)

  function Lookup<K, V>(m: map<K, V>, k: K): Option<V> {
    if k in m then Some(m[k]) else None
  }

  function One(b: bool): nat {
    if b then 1 else 0
  }

  /** A CloseAssoc comes after the OpenAssoc of its id, unless the Agent misses it; then it comes before. */
  ghost predicate Ordered(w: World, id: nat) {
    if id in w.hist.missed then ClosesFirst(w.e2a, id) else OpensFirst(w.e2a, id)
  }

  ghost function LaneOf(w: World, id: nat): Lane {
    Lane(Lookup(w.edge.byID, id), id in w.agent.open,
         id in w.edgeOpening, id in w.hist.missed,
         Count(w.e2a, Opening, id),
         Count(w.a2e, Accepting, id) + One(w.answer == Some(OpenAck(id, true))),
         Count(w.a2e, Refusing, id) + One(w.answer == Some(OpenAck(id, false))),
         Count(w.e2a, Closing, id) + One(id in w.edgeClosing), Count(w.e2a, Closing, id),
         Count(w.a2e, Closing, id) + One(id in w.agentClosing),
         Ordered(w, id),
         Payloads(w.e2a, id), Payloads(w.a2e, id),
         Lookup(w.hist.owner, id), (set h | h in w.holders && h.1 == id :: h.0), id in w.readers,
         LogOf(w.hist.forwarded, id), LogOf(w.hist.written, id),
         LogOf(w.hist.received, id), LogOf(w.hist.returned, id))
  }

  const UNUSED := Lane(None, false, false, false, 0, 0, 0, 0, 0, 0, true, [], [], None, {}, false, [], [], [], [])

  function Bodies(ps: seq<Packet>): seq<Payload> {
    seq(|ps|, i requires 0 <= i < |ps| => ps[i].payload)
  }

  ghost predicate InPhase(l: Lane, p: Phase) {
    l.entry.Some? && l.entry.value.phase == p
  }

  /** An OpenAssoc that the Agent has not seen, written or not. */
  ghost function Unseen(l: Lane): nat {
    l.opens + One(l.opening)
  }

  /** OpenAssoc and answers in flight. */
  ghost function Tokens(l: Lane): nat {
    Unseen(l) + l.accepts + l.refusals
  }

  /** One OpenAssoc or answer, and one CloseAssoc each way, at most. */
  ghost predicate Single(l: Lane) {
    && l.closesQueued <= l.closesOut <= 1 && l.closesBack <= 1 && l.inOrder
    && (if InPhase(l, Pending) then Tokens(l) == 1
        else if InPhase(l, Ready) then Tokens(l) == 0
        else Tokens(l) <= 1)
  }

  /** Where the two ends stand, given what is in flight. */
  ghost predicate Placed(l: Lane, edgeClosed: bool, agentClosed: bool) {
    && (l.entry.Some? ==> l.closesOut == 0 && !l.missed && l.owner == Some(l.entry.value.client))
    && (InPhase(l, Ready) && !agentClosed ==> l.open || l.closesBack == 1)
    && (InPhase(l, Pending) && l.accepts == 1 && !agentClosed ==> l.open || l.closesBack == 1)
    && (l.closesBack == 1 || l.refusals == 1 ==> !l.open && Unseen(l) == 0)
    && (l.open ==> Unseen(l) == 0)
    && (l.missed ==> l.closesOut == l.closesQueued && (l.open ==> l.closesOut == 0))
    && (!l.missed && l.opening ==> l.closesQueued == 0)
    && (!l.missed && l.entry.None? && !edgeClosed && (l.open || Unseen(l) == 1) ==> l.closesOut == 1)
  }

  /** From the client to the local socket. */
  ghost predicate Outward(l: Lane) {
    && (Tokens(l) == 1 ==> l.forwarded == [] && l.written == [] && l.outData == [])
    && (forall c :: c in l.holders ==> l.owner == Some(c) && Tokens(l) == 0)
    && (forall p :: p in l.forwarded ==> l.owner == Some(p.client))
    && (l.open ==> Bodies(l.forwarded) == l.written + l.outData)
    && l.written <= Bodies(l.forwarded)
  }

  /** From the local socket back to the client. */
  ghost predicate Inward(l: Lane, agentClosed: bool) {
    && (l.entry.Some? && !agentClosed ==> l.received == Bodies(l.returned) + l.backData)
    && (l.entry.Some? ==> Bodies(l.returned) + l.backData <= l.received)
    && Bodies(l.returned) <= l.received
    && (forall p :: p in l.returned ==> l.owner == Some(p.client))
  }

  ghost predicate Good(l: Lane, edgeClosed: bool, agentClosed: bool) {
    && Single(l)
    && Placed(l, edgeClosed, agentClosed)
    && (l.owner == None ==> l == UNUSED)
    && Outward(l)
    && Inward(l, agentClosed)
  }

  ghost predicate GoodId(w: World, id: nat) {
    Good(LaneOf(w, id), w.edge.closed, w.agent.closed)
  }

  ghost predicate WithinLimits(lim: Limits, w: World) {
    |w.edge.byID| <= lim.edge && |w.agent.open| <= lim.agent
  }

  /** The gauge is the number of live sessions. */
  ghost predicate Gauged(w: World) {
    w.gauge == w.others + |ReadyIds(w.edge)|
  }

  /** The ids given out so far are 1, 2, ..., `opens`, with 0 last. */
  ghost predicate Numbered(w: World) {
    && w.edge.nextID == (1 + w.hist.opens) % ID_SPACE
    && forall id :: id in w.hist.owner ==>
         if id == 0 then w.hist.opens == ID_SPACE else id <= w.hist.opens && id < ID_SPACE
  }

  ghost predicate AgentSound(w: World) {
    && (w.answer.Some? ==> w.answer.value.OpenAck?)
    && (w.agent.closed ==> w.agent.open == {} && w.answer == None)
  }

  /** The part of the invariant that is not about a single id. */
  ghost predicate Shared(lim: Limits, w: World) {
    Coherent(w.edge) && WithinLimits(lim, w) && Gauged(w) && Numbered(w) && AgentSound(w)
  }

  ghost predicate Inv(lim: Limits, w: World) {
    Shared(lim, w) && forall id :: GoodId(w, id)
  }

  /** Ids are 32-bit: no more than 2^32 associations were opened on this hub. */
  ghost predicate IdsLast(w: World) {
    w.hist.opens <= ID_SPACE
  }
}
