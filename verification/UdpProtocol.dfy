/**
  The UDP association protocol: Edge hub, Agent mirror, the two FIFO queues between them and the
  session gauge, as a step relation.

  An association is entered under the hub lock and its OpenAssoc written to the stream later, and so
  with the CloseAssoc of one that leaves. The ids with a decided but unwritten frame are part of the
  state (`edgeOpening`, `edgeClosing`, `agentClosing`), and the two writes for one id may happen in
  either order; so is the answer the Agent's read loop has decided but not yet written (`answer`). Forwarders that obtained
  a ready association keep using it after it left the hub (`holders`), and so do the Agent's socket
  readers (`readers`).
 */
module UdpProtocol {
  import opened Options
  import opened UdpFrames
  import opened UdpHubModel
  import opened Metrics

  datatype Limits = Limits(edge: nat, agent: nat)

  /** A payload together with the client it came from or is addressed to. */
  datatype Packet = Packet(client: Client, payload: Payload)

  /** What has happened so far, per association id. */
  datatype History = History(
    opens: nat,                          // associations opened
    owner: map<nat, Client>,             // the client each id was opened for
    forwarded: map<nat, seq<Packet>>,    // sent on the id by forwarders
    written: map<nat, seq<Payload>>,     // written to the id's local socket
    received: map<nat, seq<Payload>>,    // read from the id's local socket
    returned: map<nat, seq<Packet>>,     // addressed back to a client
    missed: set<nat>)                    // ids whose CloseAssoc was written before their OpenAssoc, or could not be

  datatype World = World(
    edge: Hub, agent: Mirror,
    e2a: seq<Frame>, a2e: seq<Frame>,
    edgeOpening: map<nat, Client>, edgeClosing: set<nat>, agentClosing: set<nat>,
    answer: Option<Frame>,
    holders: set<(Client, nat)>, readers: set<nat>,
    gauge: int, others: nat,
    hist: History)

  datatype Step =
    | OpenNew(client: Client)                    // ensureAssoc up to the unlock
    | WriteOpen(id: nat, sent: bool)             // its OpenAssoc write, and failAssoc if that fails
    | Timeout(id: nat)                           // ensureAssoc gives up on a pending id
    | Acquire(client: Client)                    // ensureAssoc returns a ready association
    | Forward(client: Client, id: nat, payload: Payload)
    | EdgeRemove(id: nat)                        // reapIdle or evictDisallowed, per id
    | EdgeWriteClose(id: nat, sent: bool)
    | EdgeReceive
    | EdgeClose
    | AgentReceive(dials: bool, writes: bool)
    | AgentAnswer
    | AgentRemove(id: nat)                       // reapIdle or a failed socket read
    | AgentWriteClose(id: nat)
    | AgentRead(id: nat, payload: Payload)
    | AgentClose
    | OtherSessions(started: nat, ended: nat)    // TCP, HTTP and other hubs

  function LogOf<T>(m: map<nat, seq<T>>, id: nat): seq<T> {
    if id in m then m[id] else []
  }

  function Log<T>(m: map<nat, seq<T>>, id: nat, x: T): map<nat, seq<T>> {
    m[id := LogOf(m, id) + [x]]
  }

  const START := World(NEW_HUB, NEW_MIRROR, [], [], map[], {}, {}, None, {}, {}, 0, 0,
                       History(0, map[], map[], map[], map[], map[], {}))

  /** The association whose OpenAssoc is to be written is still the one under its id. */
  predicate OpensOwn(w: World, id: nat) {
    id in w.edgeOpening && id in w.edge.byID && w.edge.byID[id].client == w.edgeOpening[id]
  }

  predicate Enabled(lim: Limits, w: World, s: Step) {
    match s
    case OpenNew(client) => Admits(w.edge, client, lim.edge)
    case WriteOpen(id, sent) => id in w.edgeOpening && (sent || w.edge.closed || OpensOwn(w, id))
    case Timeout(id) => id in w.edge.byID && w.edge.byID[id].phase == Pending && id !in w.edgeOpening
    case Acquire(client) =>
      !w.edge.closed && client in w.edge.byAddr && w.edge.byAddr[client] in w.edge.byID &&
      w.edge.byID[w.edge.byAddr[client]].phase == Ready
    case Forward(client, id, _) => (client, id) in w.holders
    case EdgeRemove(id) => true
    case EdgeWriteClose(id, _) => id in w.edgeClosing
    case EdgeReceive => w.a2e != []
    case EdgeClose => true
    case AgentReceive(_, _) => w.e2a != [] && w.answer == None && !w.agent.closed
    case AgentAnswer => w.answer.Some?
    case AgentRemove(id) => true
    case AgentWriteClose(id) => id in w.agentClosing
    case AgentRead(id, _) => id in w.readers
    case AgentClose => w.answer == None
    case OtherSessions(_, ended) => ended <= w.others
  }

  function ToEdge(w: World, f: Frame): World {
    if w.agent.closed then w else w.(a2e := w.a2e + [f])
  }

  function OpenNewStep(w: World, client: Client): World {
    var id := w.edge.nextID;
    w.(edge := Insert(w.edge, client), edgeOpening := w.edgeOpening[id := client],
       hist := w.hist.(opens := w.hist.opens + 1, owner := w.hist.owner[id := client]))
  }

  function WriteOpenStep(w: World, id: nat, sent: bool): World
    requires id in w.edgeOpening && (sent || w.edge.closed || OpensOwn(w, id))
  {
    var w1 := w.(edgeOpening := w.edgeOpening - {id});
    if w.edge.closed then w1
    else if sent then w1.(e2a := w.e2a + [Frame.OpenAssoc(id, w.edgeOpening[id])])
    else w1.(edge := Drop(w.edge, id))
  }

  /** A CloseAssoc written while the OpenAssoc is not overtakes it; nobody learns of one that cannot be written. */
  function WriteCloseStep(w: World, id: nat, sent: bool): World {
    var w1 := w.(edgeClosing := w.edgeClosing - {id});
    if w.edge.closed then w1
    else w1.(e2a := w.e2a + (if sent then [CloseAssoc(id)] else []),
             hist := if id in w.edgeOpening || !sent then w.hist.(missed := w.hist.missed + {id}) else w.hist)
  }

  /** removeAssoc with notify: the maps and the gauge now, the CloseAssoc later. */
  function EdgeRemoveStep(w: World, id: nat): World {
    if id !in w.edge.byID then w
    else
      var (h, d) := Remove(w.edge, id);
      w.(edge := h, gauge := Clamped(w.gauge, d), edgeClosing := w.edgeClosing + {id})
  }

  function EdgeReceiveStep(w: World): World
    requires w.a2e != []
  {
    var f := w.a2e[0];
    var w1 := w.(a2e := w.a2e[1..]);
    match f
    case OpenAck(id, ok) =>
      var (h, d) := MarkReady(w.edge, id, ok);
      w1.(edge := h, gauge := Clamped(w.gauge, d))
    case Datagram(id, payload) =>
      if id in w.edge.byID
      then w1.(hist := w.hist.(returned := Log(w.hist.returned, id, Packet(w.edge.byID[id].client, payload))))
      else w1
    case CloseAssoc(id) =>
      var (h, d) := Remove(w.edge, id);
      w1.(edge := h, gauge := Clamped(w.gauge, d))
    case OpenAssoc(_, _) => w1
  }

  ghost function EdgeCloseStep(w: World): World {
    var (h, d) := CloseHub(w.edge);
    w.(edge := h, gauge := Clamped(w.gauge, d))
  }

  function AgentReceiveStep(lim: Limits, w: World, dials: bool, writes: bool): World
    requires w.e2a != []
  {
    var f := w.e2a[0];
    var w1 := w.(e2a := w.e2a[1..]);
    match f
    case OpenAssoc(id, _) =>
      var (a, ok) := MirrorOpen(w.agent, id, lim.agent, dials);
      w1.(agent := a, answer := Some(OpenAck(id, ok)))
    case Datagram(id, payload) =>
      if id !in w.agent.open then w1
      else if writes then w1.(hist := w.hist.(written := Log(w.hist.written, id, payload)))
      else AgentRemoveStep(w1, id)
    case CloseAssoc(id) => w1.(agent := w.agent.(open := w.agent.open - {id}))
    case OpenAck(_, _) => w1
  }

  /** closeAssoc with notify. */
  function AgentRemoveStep(w: World, id: nat): World {
    if id !in w.agent.open then w
    else w.(agent := w.agent.(open := w.agent.open - {id}), agentClosing := w.agentClosing + {id})
  }

  function AgentAnswerStep(w: World): World
    requires w.answer.Some?
  {
    var f := w.answer.value;
    var w1 := ToEdge(w.(answer := None), f);
    if f.OpenAck? && f.ok && !w.agent.closed then w1.(readers := w.readers + {f.id}) else w1
  }

  function ForwardStep(w: World, client: Client, id: nat, payload: Payload): World {
    if w.edge.closed then w
    else w.(e2a := w.e2a + [Datagram(id, payload)],
            hist := w.hist.(forwarded := Log(w.hist.forwarded, id, Packet(client, payload))))
  }

  function AgentWriteCloseStep(w: World, id: nat): World {
    ToEdge(w.(agentClosing := w.agentClosing - {id}), CloseAssoc(id))
  }

  function AgentReadStep(w: World, id: nat, payload: Payload): World {
    ToEdge(w.(hist := w.hist.(received := Log(w.hist.received, id, payload))), Datagram(id, payload))
  }

  ghost function Next(lim: Limits, w: World, s: Step): World
    requires Enabled(lim, w, s)
  {
    match s
    case OpenNew(client) => OpenNewStep(w, client)
    case WriteOpen(id, sent) => WriteOpenStep(w, id, sent)
    case Timeout(id) => w.(edge := Drop(w.edge, id), edgeClosing := w.edgeClosing + {id})
    case Acquire(client) => w.(holders := w.holders + {(client, w.edge.byAddr[client])})
    case Forward(client, id, payload) => ForwardStep(w, client, id, payload)
    case EdgeRemove(id) => EdgeRemoveStep(w, id)
    case EdgeWriteClose(id, sent) => WriteCloseStep(w, id, sent)
    case EdgeReceive => EdgeReceiveStep(w)
    case EdgeClose => EdgeCloseStep(w)
    case AgentReceive(dials, writes) => AgentReceiveStep(lim, w, dials, writes)
    case AgentAnswer => AgentAnswerStep(w)
    case AgentRemove(id) => AgentRemoveStep(w, id)
    case AgentWriteClose(id) => AgentWriteCloseStep(w, id)
    case AgentRead(id, payload) => AgentReadStep(w, id, payload)
    case AgentClose => w.(agent := Mirror({}, true))
    case OtherSessions(started, ended) =>
      w.(others := w.others - ended + started, gauge := Clamped(w.gauge + started, 0 - ended))
  }

  /** What a step asks the registry to add. */
  ghost function GaugeDelta(w: World, s: Step): int {
    match s
    case EdgeRemove(id) => Remove(w.edge, id).1
    case EdgeReceive =>
      if w.a2e != [] && w.a2e[0].OpenAck? then MarkReady(w.edge, w.a2e[0].id, w.a2e[0].ok).1
      else if w.a2e != [] && w.a2e[0].CloseAssoc? then Remove(w.edge, w.a2e[0].id).1
      else 0
    case EdgeClose => CloseHub(w.edge).1
    case OtherSessions(started, ended) => started - ended
    case _ => 0
  }

  /** The world after `run`, unless some step of it was not enabled. */
  ghost function After(lim: Limits, run: seq<Step>): Option<World>
    decreases |run|
  {
    if run == [] then Some(START)
    else
      var before := After(lim, run[..|run| - 1]);
      var s := run[|run| - 1];
      if before.Some? && Enabled(lim, before.value, s) then Some(Next(lim, before.value, s)) else None
  }
}
