/** The state of the two ends of a UDP tunnel as values, and what each operation does to it. */
module UdpHubModel {
  import opened UdpFrames

  /** Association ids are 32-bit and wrap around. */
  const ID_SPACE: nat := 0x1_0000_0000

  /** Pending: the ready channel is open. Ready: it is closed and no error is recorded. */
  datatype Phase = Pending | Ready

  datatype Assoc = Assoc(client: Client, phase: Phase)

  datatype Hub = Hub(byID: map<nat, Assoc>, byAddr: map<Client, nat>, nextID: nat, closed: bool)

  const NEW_HUB := Hub(map[], map[], 1, false)

  /** The ids the session gauge counts. */
  ghost function ReadyIds(h: Hub): set<nat> {
    set id | id in h.byID && h.byID[id].phase == Ready
  }

  /** A new association may be opened for `client`. */
  predicate Admits(h: Hub, client: Client, limit: nat) {
    !h.closed && client !in h.byAddr && |h.byID| < limit
  }

  function Insert(h: Hub, client: Client): Hub {
    h.(byID := h.byID[h.nextID := Assoc(client, Pending)],
       byAddr := h.byAddr[client := h.nextID],
       nextID := (h.nextID + 1) % ID_SPACE)
  }

  function Drop(h: Hub, id: nat): Hub
    requires id in h.byID
  {
    h.(byID := h.byID - {id}, byAddr := h.byAddr - {h.byID[id].client})
  }

  /** failAssoc deletes what stands under the association's id and under its client. */
  function Forget(h: Hub, id: nat, client: Client): Hub {
    h.(byID := h.byID - {id}, byAddr := h.byAddr - {client})
  }

  /** What stands under `id` and under `client` is one association, or nothing. */
  predicate OwnEntries(h: Hub, id: nat, client: Client) {
    (id in h.byID ==> h.byID[id].client == client) && (client in h.byAddr ==> h.byAddr[client] == id)
  }

  /** An OpenAck for `id`: the new hub and the change of the session gauge. */
  function MarkReady(h: Hub, id: nat, ok: bool): (Hub, int) {
    if id !in h.byID then (h, 0)
    else if !ok then (Drop(h, id), 0)
    else if h.byID[id].phase == Ready then (h, 0)
    else (h.(byID := h.byID[id := h.byID[id].(phase := Ready)]), 1)
  }

  function Remove(h: Hub, id: nat): (Hub, int) {
    if id !in h.byID then (h, 0)
    else (Drop(h, id), if h.byID[id].phase == Ready then -1 else 0)
  }

  ghost function CloseHub(h: Hub): (Hub, int) {
    if h.closed then (h, 0)
    else (Hub(map[], h.byAddr - (set id | id in h.byID :: h.byID[id].client), h.nextID, true),
          -|ReadyIds(h)|)
  }

  /** The Agent mirrors only the set of open ids. */
  datatype Mirror = Mirror(open: set<nat>, closed: bool)

  const NEW_MIRROR := Mirror({}, false)

  /** An OpenAssoc for `id`: the new mirror and the answer that is sent. */
  function MirrorOpen(a: Mirror, id: nat, limit: nat, dials: bool): (Mirror, bool) {
    if a.closed then (a, false)
    else if id in a.open then (a, true)
    else if |a.open| >= limit || !dials then (a, false)
    else (a.(open := a.open + {id}), true)
  }

  /** `byID` and `byAddr` are inverse to each other; a closed hub holds nothing. */
  ghost predicate Coherent(h: Hub) {
    && (forall id :: id in h.byID ==> h.byID[id].client in h.byAddr && h.byAddr[h.byID[id].client] == id)
    && (forall c :: c in h.byAddr ==> h.byAddr[c] in h.byID && h.byID[h.byAddr[c]].client == c)
    && (h.closed ==> h.byID == map[])
  }

  lemma DropLosesOne(h: Hub, id: nat)
    requires id in h.byID
    ensures ReadyIds(Drop(h, id)) == ReadyIds(h) - {id}
    ensures |Drop(h, id).byID| == |h.byID| - 1
    ensures Coherent(h) ==> Coherent(Drop(h, id))
  {
    assert Drop(h, id).byID.Keys == h.byID.Keys - {id};
    assert |h.byID.Keys| == |h.byID|;
  }

  lemma ForgetCoherentIff(h: Hub, id: nat, client: Client)
    requires Coherent(h)
    ensures Coherent(Forget(h, id, client)) <==> OwnEntries(h, id, client)
  {
    var h' := Forget(h, id, client);
    if client in h.byAddr && h.byAddr[client] != id {
      assert h.byAddr[client] in h'.byID;
    } else if id in h.byID && h.byID[id].client != client {
      assert h.byID[id].client in h'.byAddr;
    }
  }

  /** Without the check that the source leaves out, the index survives an insertion exactly if the id is free. */
  lemma InsertCoherentIff(h: Hub, client: Client, limit: nat)
    requires Coherent(h) && Admits(h, client, limit)
    ensures Coherent(Insert(h, client)) <==> h.nextID !in h.byID
  {
    if h.nextID in h.byID {
      ReuseBreaks(h, client);
    }
  }

  /** An insertion that takes an id in use, and dropping it again. */
  lemma ReuseBreaks(h: Hub, client: Client)
    requires Coherent(h) && client !in h.byAddr && h.nextID in h.byID
    ensures !Coherent(Insert(h, client)) && !Coherent(Drop(Insert(h, client), h.nextID))
  {
    var other := h.byID[h.nextID].client;
    assert other != client;
    assert other in Insert(h, client).byAddr && other in Drop(Insert(h, client), h.nextID).byAddr;
  }

  lemma InsertedOwns(h: Hub, client: Client)
    ensures OwnEntries(Insert(h, client), h.nextID, client)
  {}

  lemma DropsInserted(h: Hub, client: Client)
    ensures Forget(Insert(h, client), h.nextID, client) == Drop(Insert(h, client), h.nextID)
  {}
}
