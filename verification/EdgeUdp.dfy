/**
  The Edge side of a UDP tunnel as the source writes it: a hub object whose methods update its two
  maps and the association objects in place. Each method is proved against the operation of
  UdpHubModel that the protocol proof uses.
 */
module EdgeUdp {
  import opened Options
  import opened UdpFrames
  import opened UdpHubModel
  import opened Metrics
  import Messages = TunnelMessages

  class UdpAssoc {
    const id: nat
    const client: Client
    var lastActive: int
    var ready: bool              // the ready channel is closed
    var err: Option<string>

    constructor (id: nat, client: Client, now: int)
      ensures this.id == id && this.client == client && lastActive == now && !ready && err == None
    {
      this.id, this.client, lastActive, ready, err := id, client, now, false, None;
    }

    ghost function Seen(): Waiter
      reads this`ready, this`err
    {
      Waiter(ready, err)
    }
  }

  /** What a waiter of an association sees: nothing yet, or that it may go on, or why not. */
  datatype Waiter = Waiter(ready: bool, err: Option<string>)

  /** A waiter that is not released yet is released with an error. */
  function Released(x: Waiter, msg: string): Waiter {
    if x.ready then x else Waiter(true, Some(msg))
  }

  datatype Ensured = Refused(error: string) | Existing(assoc: UdpAssoc) | Opened(assoc: UdpAssoc)

  class UdpHub {
    const reg: Registry
    const limit: nat
    var byID: map<nat, UdpAssoc>
    var byAddr: map<Client, UdpAssoc>
    var nextID: nat
    var closed: bool
    var sent: seq<Frame>                        // written to the stream
    var replies: seq<(Client, Payload)>         // written to the public socket

    ghost function Assocs(): set<UdpAssoc>
      reads this`byID
    {
      set id | id in byID :: byID[id]
    }

    ghost predicate Valid()
      reads this, reg, Assocs()
    {
      reg.Valid() && Indexed()
    }

    /** The two maps are inverse and hold no failed association; a closed hub holds nothing. */
    ghost predicate Indexed()
      reads this, Assocs()
    {
      && (forall id :: id in byID ==>
            && byID[id].id == id
            && byID[id].client in byAddr && byAddr[byID[id].client] == byID[id]
            && (byID[id].ready ==> byID[id].err == None))
      && (forall c :: c in byAddr ==>
            byAddr[c].client == c && byAddr[c].id in byID && byID[byAddr[c].id] == byAddr[c])
      && nextID < ID_SPACE
      && (closed ==> byID == map[])
    }

    /** Each association is filed under its own id: all that is left once the index is broken. */
    ghost predicate Keyed()
      reads this, Assocs()
    {
      forall id :: id in byID ==> byID[id].id == id
    }

    /** The value the protocol proof speaks about. */
    ghost function Model(): Hub
      reads this, Assocs()
    {
      Hub(map id | id in byID :: Assoc(byID[id].client, if byID[id].ready then Ready else Pending),
          map c | c in byAddr :: byAddr[c].id,
          nextID, closed)
    }

    constructor (reg: Registry, limit: nat)
      requires reg.Valid()
      ensures Valid() && Model() == NEW_HUB && sent == [] && replies == []
      ensures this.reg == reg && this.limit == limit
    {
      this.reg, this.limit := reg, limit;
      byID, byAddr, nextID, closed, sent, replies := map[], map[], 1, false, [], [];
    }

    lemma ModelCoherent()
      requires Indexed()
      ensures Coherent(Model())
    {}

    /** A write fails once the hub is closed, or when the stream fails. */
    method WriteFrame(f: Frame, streamFails: bool) returns (ok: bool)
      modifies this`sent
      ensures ok == (!closed && !streamFails)
      ensures sent == if ok then old(sent) + [f] else old(sent)
      ensures Model() == old(Model()) && Keyed() == old(Keyed()) && Indexed() == old(Indexed())
    {
      if closed || streamFails {
        return false;
      }
      sent := sent + [f];
      return true;
    }

    /** ensureAssoc up to and including the OpenAssoc write. */
    method BeginAssoc(client: Client, now: int, streamFails: bool) returns (r: Ensured)
      requires Valid()
      modifies this
      ensures reg.Valid() && Keyed() && replies == old(replies)
      ensures Valid() <==> (r.Opened? ==> old(nextID) !in old(byID))
      ensures r.Opened? == Admits(old(Model()), client, limit)
      ensures r.Existing? == (!closed && client in old(byAddr))
      ensures r.Refused? ==> Model() == old(Model()) && sent == old(sent)
      ensures r.Existing? ==> Model() == old(Model()) && sent == old(sent) && r.assoc == old(byAddr[client])
      ensures r.Opened? ==> fresh(r.assoc) && OpenedAs(r.assoc, client, old(nextID), now, streamFails)
      ensures r.Opened? ==> Model() == OpenResult(old(Model()), client, streamFails)
      ensures r.Opened? ==> sent == old(sent) + if streamFails then [] else [OpenAssoc(r.assoc.id, client)]
    {
      AdmitsHere(client);
      if closed {
        return Refused("hub closed");
      }
      if client in byAddr {
        return Existing(byAddr[client]);
      }
      if |byID| >= limit {
        return Refused("max udp associations reached");
      }
      hide Model, OpenResult, Admits, Indexed;
      var a := OpenAndSend(client, now, streamFails);
      r := Opened(a);
    }

    static ghost function OpenResult(h: Hub, client: Client, streamFails: bool): Hub {
      if streamFails then Drop(Insert(h, client), h.nextID) else Insert(h, client)
    }

    /** Waiters of an association that could not be announced are released with an error. */
    static ghost predicate OpenedAs(a: UdpAssoc, client: Client, id: nat, now: int, streamFails: bool)
      reads a
    {
      a.id == id && a.client == client && a.lastActive == now && a.ready == streamFails && a.err.Some? == streamFails
    }

    method OpenAndSend(client: Client, now: int, streamFails: bool) returns (a: UdpAssoc)
      requires Valid() && !closed && client !in byAddr
      modifies this`byID, this`byAddr, this`nextID, this`sent
      ensures reg.Valid() && Keyed() && (Valid() <==> old(nextID) !in old(byID))
      ensures fresh(a) && OpenedAs(a, client, old(nextID), now, streamFails)
      ensures Model() == OpenResult(old(Model()), client, streamFails)
      ensures sent == old(sent) + if streamFails then [] else [OpenAssoc(a.id, client)]
    {
      ghost var was := Model();
      ModelCoherent();
      assert nextID in byID <==> was.nextID in was.byID;
      assert client !in was.byAddr;
      a := Enter(client, now);
      hide Model, Indexed, Keyed, Insert, Drop, Coherent;
      Announce(was, a, streamFails);
      if was.nextID in was.byID {
        ReuseBreaks(was, client);
        if Valid() {
          ModelCoherent();
        }
      }
    }

    /** The OpenAssoc write; if it fails, the association that was just entered leaves again. */
    method Announce(ghost was: Hub, a: UdpAssoc, streamFails: bool)
      requires Keyed() && !closed && !a.ready && a.err == None
      requires Model() == Insert(was, a.client) && a.id == was.nextID
      modifies this`byID, this`byAddr, this`sent, a`ready, a`err
      ensures Keyed() && Model() == OpenResult(was, a.client, streamFails)
      ensures a.ready == streamFails && a.err.Some? == streamFails
      ensures sent == old(sent) + if streamFails then [] else [OpenAssoc(a.id, a.client)]
      ensures old(Indexed()) ==> Indexed()
    {
      hide Model, Indexed, Keyed, Insert, Drop, Coherent;
      var ok := WriteFrame(Frame.OpenAssoc(a.id, a.client), streamFails);
      if !ok {
        InsertedOwns(was, a.client);
        FailAssoc(a, "write open assoc");
        DropsInserted(was, a.client);
      }
    }

    /** A new association under its id and its client. */
    method Enter(client: Client, now: int) returns (a: UdpAssoc)
      requires Valid() && !closed && client !in byAddr
      modifies this`byID, this`byAddr, this`nextID
      ensures fresh(a) && a.id == old(nextID) && a.client == client && a.lastActive == now && !a.ready && a.err == None
      ensures Keyed() && Model() == Insert(old(Model()), client)
      ensures old(nextID) !in old(byID) ==> Indexed()
    {
      a := new UdpAssoc(nextID, client, now);
      nextID := (nextID + 1) % ID_SPACE;
      byID := byID[a.id := a];
      byAddr := byAddr[client := a];
      Entered(a);
      EnteredIndex(a);
    }

    twostate lemma Entered(new a: UdpAssoc)
      requires old(Indexed()) && unchanged(old(Assocs())) && !a.ready && a.id == old(nextID)
      requires byID == old(byID)[a.id := a] && byAddr == old(byAddr)[a.client := a]
      requires nextID == (old(nextID) + 1) % ID_SPACE && closed == old(closed)
      ensures Keyed() && Model() == Insert(old(Model()), a.client)
    {
      EnteredById(a);
      hide Assocs;
      assert Model().byAddr == Insert(old(Model()), a.client).byAddr;
    }

    twostate lemma EnteredById(new a: UdpAssoc)
      requires old(Indexed()) && unchanged(old(Assocs())) && !a.ready && a.id == old(nextID)
      requires byID == old(byID)[a.id := a]
      ensures Keyed() && Model().byID == Insert(old(Model()), a.client).byID
    {
      forall i | i in byID && i != a.id ensures byID[i] in old(Assocs()) {}
    }

    twostate lemma EnteredIndex(new a: UdpAssoc)
      requires old(Indexed()) && unchanged(old(Assocs())) && !a.ready && a.id == old(nextID)
      requires byID == old(byID)[a.id := a] && byAddr == old(byAddr)[a.client := a]
      requires nextID == (old(nextID) + 1) % ID_SPACE && !closed && a.client !in old(byAddr)
      ensures old(nextID) !in old(byID) ==> Indexed()
    {
      forall i | i in byID && i != a.id ensures byID[i] in old(Assocs()) {}
    }

    lemma AdmitsHere(client: Client)
      requires Valid()
      ensures Admits(Model(), client, limit) == (!closed && client !in byAddr && |byID| < limit)
    {
      assert Model().byID.Keys == byID.Keys;
      assert |Model().byID| == |Model().byID.Keys| && |byID| == |byID.Keys|;
    }

    /** After an association has left both maps and only associations outside them were written to. */
    twostate lemma Forgotten(new id: nat, new client: Client)
      requires old(Keyed()) && byID == old(byID) - {id} && byAddr == old(byAddr) - {client}
      requires nextID == old(nextID) && closed == old(closed)
      requires forall i :: i in byID ==> byID[i].ready == old(byID[i].ready) && byID[i].err == old(byID[i].err)
      ensures Keyed() && Model() == Forget(old(Model()), id, client) && Assocs() <= old(Assocs())
    {
      forall a | a in Assocs() ensures a in old(Assocs()) {
        var i :| i in byID && byID[i] == a;
        assert i in old(byID);
      }
      assert Model().byID == Forget(old(Model()), id, client).byID;
      assert Model().byAddr == Forget(old(Model()), id, client).byAddr;
    }

    twostate lemma ForgottenIndex(new id: nat, new client: Client)
      requires old(Indexed()) && byID == old(byID) - {id} && byAddr == old(byAddr) - {client}
      requires nextID == old(nextID) && closed == old(closed)
      requires forall i :: i in byID ==> byID[i].ready == old(byID[i].ready) && byID[i].err == old(byID[i].err)
      requires OwnEntries(old(Model()), id, client)
      ensures Indexed()
    {}

    /** failAssoc, in whatever state the maps are by then. */
    method FailAssoc(a: UdpAssoc, err: string)
      requires Keyed()
      modifies this`byID, this`byAddr, a`ready, a`err
      ensures Keyed() && Model() == Forget(old(Model()), a.id, a.client)
      ensures a.ready && a.err == Some(err)
      ensures old(Indexed()) && OwnEntries(old(Model()), a.id, a.client) ==> Indexed()
      ensures old(Indexed()) && Indexed() ==> OwnEntries(old(Model()), a.id, a.client)
    {
      a.err := Some(err);
      if !a.ready {
        a.ready := true;
      }
      byID := byID - {a.id};
      byAddr := byAddr - {a.client};
      hide Indexed, Model;
      Forgotten(a.id, a.client);
      Failed(a.id, a.client);
    }

    twostate lemma Failed(new id: nat, new client: Client)
      requires byID == old(byID) - {id} && byAddr == old(byAddr) - {client}
      requires nextID == old(nextID) && closed == old(closed)
      requires forall i :: i in byID ==> byID[i].ready == old(byID[i].ready) && byID[i].err == old(byID[i].err)
      requires Model() == Forget(old(Model()), id, client)
      ensures old(Indexed()) && OwnEntries(old(Model()), id, client) ==> Indexed()
      ensures old(Indexed()) && Indexed() ==> OwnEntries(old(Model()), id, client)
    {
      hide Indexed, Model;
      if old(Indexed()) {
        if OwnEntries(old(Model()), id, client) {
          ForgottenIndex(id, client);
        } else {
          ForgottenBreaks(id, client);
        }
      }
    }

    twostate lemma ForgottenBreaks(new id: nat, new client: Client)
      requires old(Indexed()) && Model() == Forget(old(Model()), id, client)
      requires !OwnEntries(old(Model()), id, client)
      ensures !Indexed()
    {
      WasCoherent();
      hide Model;
      ForgetCoherentIff(old(Model()), id, client);
      if Indexed() {
        ModelCoherent();
      }
    }

    twostate lemma WasCoherent()
      requires old(Indexed())
      ensures old(Coherent(Model()))
    {}

    /** The timer branch of ensureAssoc: success wins if the answer raced the timer. */
    method GiveUp(a: UdpAssoc, streamFails: bool)
      requires Keyed()
      modifies this`byID, this`byAddr, this`sent, a`ready, a`err
      ensures Keyed()
      ensures old(a.ready) ==> byID == old(byID) && byAddr == old(byAddr) && sent == old(sent) && a.err == old(a.err)
      ensures !old(a.ready) ==> Model() == Forget(old(Model()), a.id, a.client) && a.err.Some?
      ensures !old(a.ready) ==> sent == old(sent) + if closed || streamFails then [] else [CloseAssoc(a.id)]
      ensures old(Indexed()) ==> (Indexed() <==> old(a.ready) || OwnEntries(old(Model()), a.id, a.client))
      ensures a.ready
    {
      if a.ready {
        return;
      }
      hide Indexed, Keyed, Model, Forget, OwnEntries;
      FailAssoc(a, "open assoc timeout");
      var _ := WriteFrame(CloseAssoc(a.id), streamFails);
    }

    /** forward, once ensureAssoc has returned the association: it may have left the hub by now. */
    method Forward(a: UdpAssoc, payload: Payload, now: int, streamFails: bool) returns (ok: bool)
      requires Valid()
      modifies this`sent, a`lastActive
      ensures Valid() && Model() == old(Model()) && a.lastActive == now
      ensures ok == (|payload| <= 65532 && !closed && !streamFails)
      ensures sent == old(sent) + if ok then [Datagram(a.id, payload)] else []
    {
      a.lastActive := now;
      if |payload| > Messages.MAX_DATAGRAM_PAYLOAD {
        ok := false;
      } else {
        ok := WriteFrame(Datagram(a.id, payload), streamFails);
      }
      assert Model().byID == old(Model()).byID;
    }

    method MarkReady(id: nat, ok: bool, msg: string)
      requires Valid()
      modifies this`byID, this`byAddr, Assocs()`ready, Assocs()`err, reg`activeSessions
      ensures Valid()
      ensures var (h, d) := UdpHubModel.MarkReady(old(Model()), id, ok);
                Model() == h && reg.activeSessions == Clamped(old(reg.activeSessions), d)
      ensures forall i :: i in old(byID) ==>
                old(byID)[i].Seen() ==
                  if i != id then old(byID[i].Seen())
                  else Waiter(true, if ok then None else Some(if msg == "" then "agent rejected assoc" else msg))
    {
      if id !in byID {
        return;
      }
      var a := byID[id];
      if !ok {
        FailAssoc(a, if msg == "" then "agent rejected assoc" else msg);
        return;
      }
      if a.ready {
        return;
      }
      hide Model;
      Accept(id);
      hide Indexed;
      reg.AddSessions(1);
    }

    /** The accepting part of markReady under the lock. */
    method Accept(id: nat)
      requires Indexed() && id in byID && !byID[id].ready
      modifies {byID[id]}`ready, {byID[id]}`err
      ensures Indexed() && byID[id].ready && byID[id].err == None
      ensures Model() == UdpHubModel.MarkReady(old(Model()), id, true).0
    {
      var a := byID[id];
      a.err := None;
      a.ready := true;
      assert Model().byID == UdpHubModel.MarkReady(old(Model()), id, true).0.byID;
    }

    /** A datagram from the Agent goes to the association's client, ready or not. */
    method Deliver(id: nat, payload: Payload, now: int)
      requires Valid()
      modifies this`replies, Assocs()`lastActive
      ensures Valid() && Model() == old(Model())
      ensures replies == if id in byID then old(replies) + [(byID[id].client, payload)] else old(replies)
      ensures forall i :: i in byID ==> byID[i].lastActive == if i == id then now else old(byID[i].lastActive)
    {
      if id in byID {
        var a := byID[id];
        a.lastActive := now;
        replies := replies + [(a.client, payload)];
      }
      assert Model().byID == old(Model()).byID;
    }

    method RemoveAssoc(id: nat, notify: bool, streamFails: bool)
      requires Valid()
      modifies this`byID, this`byAddr, this`sent, Assocs()`ready, Assocs()`err, reg`activeSessions
      ensures Valid() && byID == old(byID) - {id} && Assocs() <= old(Assocs())
      ensures var (h, d) := Remove(old(Model()), id);
                Model() == h && reg.activeSessions == Clamped(old(reg.activeSessions), d)
      ensures sent == if notify && !streamFails && id in old(byID) then old(sent) + [CloseAssoc(id)] else old(sent)
      ensures forall i :: i in old(byID) ==>
                old(byID)[i].Seen() == if i == id then Released(old(byID[i].Seen()), "assoc closed") else old(byID[i].Seen())
    {
      if id !in byID {
        return;
      }
      RemovedPhase(id);
      hide Indexed, Model, Drop, Remove, Released, UdpAssoc.Seen;
      var wasReady := Detach(id);
      Report(id, wasReady, notify, streamFails);
    }

    /** The part of removeAssoc after the unlock. */
    method Report(id: nat, wasReady: bool, notify: bool, streamFails: bool)
      requires Valid() && !closed
      modifies this`sent, reg`activeSessions
      ensures Valid() && Model() == old(Model())
      ensures reg.activeSessions == Clamped(old(reg.activeSessions), if wasReady then -1 else 0)
      ensures sent == if notify && !streamFails then old(sent) + [CloseAssoc(id)] else old(sent)
    {
      if wasReady {
        reg.AddSessions(-1);
      }
      if notify {
        var _ := WriteFrame(CloseAssoc(id), streamFails);
      }
    }

    /** The part of removeAssoc under the lock. */
    method Detach(id: nat) returns (wasReady: bool)
      requires Indexed() && id in byID
      modifies this`byID, this`byAddr, Assocs()`ready, Assocs()`err
      ensures Indexed() && !closed && byID == old(byID) - {id} && Assocs() <= old(Assocs())
      ensures Model() == Drop(old(Model()), id)
      ensures wasReady == old(byID[id].ready)
      ensures forall i :: i in old(byID) ==>
                old(byID)[i].Seen() == if i == id then Released(old(byID[i].Seen()), "assoc closed") else old(byID[i].Seen())
    {
      var a := byID[id];
      byID := byID - {id};
      byAddr := byAddr - {a.client};
      wasReady := Release(a, "assoc closed");
      Forgotten(id, a.client);
      ForgottenIndex(id, a.client);
    }

    /** One round of readLoop: what a frame from the Agent does to the hub, the gauge and the client. */
    method HandleFrame(f: Frame, msg: string, now: int)
      requires Valid()
      modifies this`byID, this`byAddr, this`replies, this`sent, Assocs(), reg`activeSessions
      ensures Valid() && sent == old(sent)
      ensures forall i :: i in old(byID) ==>
                && old(byID)[i].Seen() == SeenAfter(old(byID[i].Seen()), f, i, msg)
                && old(byID)[i].lastActive == (if f.Datagram? && f.id == i then now else old(byID[i].lastActive))
      ensures var (h, d) := Received(old(Model()), f);
                Model() == h && reg.activeSessions == Clamped(old(reg.activeSessions), d)
      ensures replies == if f.Datagram? && f.id in old(byID) then old(replies) + [(old(byID)[f.id].client, f.payload)]
                         else old(replies)
    {
      hide Model, Drop, Remove, UdpHubModel.MarkReady, Valid;
      assert reg.activeSessions >= 0 by { CountsNoDebt(); }
      match f
      case OpenAck(id, ok) => MarkReady(id, ok, msg);
      case Datagram(id, payload) => Deliver(id, payload, now);
      case CloseAssoc(id) => RemoveAssoc(id, false, false);
      case OpenAssoc(_, _) =>
    }

    lemma CountsNoDebt()
      requires Valid()
      ensures reg.activeSessions >= 0
    {}

    /** What a frame from the Agent tells the waiters of association `id`. */
    static function SeenAfter(x: Waiter, f: Frame, id: nat, msg: string): Waiter {
      if f.id != id then x
      else match f
        case OpenAck(_, ok) => Waiter(true, if ok then None else Some(if msg == "" then "agent rejected assoc" else msg))
        case CloseAssoc(_) => Released(x, "assoc closed")
        case _ => x
    }

    /** What a frame from the Agent does to the hub and asks of the gauge. */
    static function Received(h: Hub, f: Frame): (Hub, int) {
      match f
      case OpenAck(id, ok) => UdpHubModel.MarkReady(h, id, ok)
      case CloseAssoc(id) => Remove(h, id)
      case _ => (h, 0)
    }

    /** Wakes whoever waits for an association. */
    static method Release(a: UdpAssoc, msg: string) returns (wasReady: bool)
      modifies a`ready, a`err
      ensures wasReady == (old(a.ready) && old(a.err) == None)
      ensures a.Seen() == Released(old(a.Seen()), msg)
    {
      wasReady := false;
      if a.ready {
        wasReady := a.err == None;
      } else {
        a.err := Some(msg);
        a.ready := true;
      }
    }

    lemma RemovedPhase(id: nat)
      requires Valid() && id in byID
      ensures Remove(Model(), id) == (Drop(Model(), id), if byID[id].ready then -1 else 0)
    {}

    /** The removal loop shared by reapIdle and evictDisallowed; the notices in `unsent` fail. */
    method RemoveAll(ids: set<nat>, unsent: set<nat>)
      requires Valid() && ids <= byID.Keys
      modifies this`byID, this`byAddr, this`sent, Assocs()`ready, Assocs()`err, reg`activeSessions
      ensures Valid()
      ensures RemovedAll(old(Model()), old(reg.activeSessions), old(sent), ids, unsent)
      ensures byID == old(byID) - ids && Told(old(byID), old(Waiters(byID)), ids, "assoc closed")
    {
      ghost var all, seen := byID, Waiters(byID);
      ToldNone(all, "assoc closed");
      var todo := ids;
      ghost var was, gauge, log := Model(), reg.activeSessions, sent;
      ghost var gone: set<nat> := {};
      ghost var mine := Assocs();
      RemovedNone(unsent);
      ModelCoherent();
      hide *;
      SplitStart(ids);
      NoneGone(all);
      while todo != {}
        invariant Valid() && Splits(ids, gone, todo)
        invariant todo <= byID.Keys && Assocs() <= mine
        invariant RemovedAll(was, gauge, log, gone, unsent)
        invariant byID == all - gone && Told(all, seen, gone, "assoc closed")
        decreases todo
      {
        var id :| id in todo;
        SplitStep(ids, gone, todo, id);
        RemoveNext(was, gauge, log, all, seen, gone, id, unsent);
        todo, gone := todo - {id}, gone + {id};
      }
      SplitEnd(ids, gone);
    }

    method RemoveNext(ghost was: Hub, ghost gauge: int, ghost log: seq<Frame>, ghost all: map<nat, UdpAssoc>,
                      ghost seen: map<nat, Waiter>, ghost gone: set<nat>, id: nat, unsent: set<nat>)
      requires Valid() && RemovedAll(was, gauge, log, gone, unsent)
      requires byID == all - gone && Told(all, seen, gone, "assoc closed")
      requires Coherent(was) && id in byID && id !in gone
      modifies this`byID, this`byAddr, this`sent, Assocs()`ready, Assocs()`err, reg`activeSessions
      ensures Valid() && byID == old(byID) - {id} && Assocs() <= old(Assocs())
      ensures RemovedAll(was, gauge, log, gone + {id}, unsent)
      ensures byID == all - (gone + {id}) && Told(all, seen, gone + {id}, "assoc closed")
    {
      assert id in Model().byID;
      WithoutStep(was, gone, id);
      NotifiesNext(log, sent, gone, unsent, id);
      hide Indexed, Model, Without, Remove, NotifiesEach, ReadyIds, Told;
      RemoveTelling(all, seen, gone, id, id in unsent);
    }

    /** removeAssoc with notice, and what the waiters are told by it. */
    method RemoveTelling(ghost all: map<nat, UdpAssoc>, ghost seen: map<nat, Waiter>, ghost gone: set<nat>, id: nat, fails: bool)
      requires Valid() && id in byID && id !in gone && byID == all - gone && Told(all, seen, gone, "assoc closed")
      modifies this`byID, this`byAddr, this`sent, Assocs()`ready, Assocs()`err, reg`activeSessions
      ensures Valid() && byID == old(byID) - {id} && Assocs() <= old(Assocs())
      ensures var (h, d) := Remove(old(Model()), id);
                Model() == h && reg.activeSessions == Clamped(old(reg.activeSessions), d)
      ensures sent == if fails then old(sent) else old(sent) + [CloseAssoc(id)]
      ensures byID == all - (gone + {id}) && Told(all, seen, gone + {id}, "assoc closed")
    {
      OthersStay(all, seen, gone);
      hide *;
      assert all - gone - {id} == all - (gone + {id});
      label before:
      RemoveAssoc(id, true, fails);
      ToldNext@before(all, seen, gone, "assoc closed", id);
    }

    /** What has left is out of the reach of the next removal. */
    lemma OthersStay(all: map<nat, UdpAssoc>, seen: map<nat, Waiter>, gone: set<nat>)
      requires byID == all - gone && Told(all, seen, gone, "assoc closed")
      ensures forall i :: i in all && i in gone ==> all[i] !in Assocs()
      ensures forall i :: i in all && i !in gone ==> i in byID && byID[i] == all[i]
    {}

    static ghost function Waiters(all: map<nat, UdpAssoc>): map<nat, Waiter>
      reads all.Values
    {
      map id | id in all :: all[id].Seen()
    }

    /** Whoever waits for one of `gone` has been told, with an error unless the answer came before; nobody else has. */
    static ghost predicate Told(all: map<nat, UdpAssoc>, seen: map<nat, Waiter>, gone: set<nat>, msg: string)
      reads all.Values
    {
      && seen.Keys == all.Keys
      && forall id :: id in all ==>
           all[id].id == id && all[id].Seen() == if id in gone then Released(seen[id], msg) else seen[id]
    }

    lemma ToldNone(all: map<nat, UdpAssoc>, msg: string)
      requires forall id :: id in all ==> all[id].id == id
      ensures Told(all, Waiters(all), {}, msg)
    {}

    /** One more is told, and those that had left before are not told again. */
    twostate lemma ToldNext(new all: map<nat, UdpAssoc>, new seen: map<nat, Waiter>, new gone: set<nat>, new msg: string, id: nat)
      requires old(forall i :: i in all ==> allocated(all[i])) && old(Told(all, seen, gone, msg))
      requires id in all && id !in gone && all[id].Seen() == Released(old(all[id].Seen()), msg)
      requires forall i :: i in all && i != id ==> all[i].Seen() == old(all[i].Seen())
      ensures Told(all, seen, gone + {id}, msg)
    {}

    /** The hub, the gauge and the stream after `ids` were removed with notice. */
    ghost predicate RemovedAll(was: Hub, gauge: int, log: seq<Frame>, ids: set<nat>, unsent: set<nat>)
      reads this, reg, Assocs()
    {
      && Model() == Without(was, ids)
      && reg.activeSessions == Clamped(gauge, -|ReadyIds(was) * ids|)
      && NotifiesEach(log, sent, ids - unsent)
    }

    /** reapIdle removes the ready associations that were last used before `cutoff`. */
    method ReapIdle(cutoff: int, unsent: set<nat>)
      requires Valid()
      modifies this`byID, this`byAddr, this`sent, Assocs()`ready, Assocs()`err, reg`activeSessions
      ensures Valid()
      ensures RemovedAll(old(Model()), old(reg.activeSessions), old(sent), old(Stale(byID.Keys, cutoff)), unsent)
      ensures Told(old(byID), old(Waiters(byID)), old(Stale(byID.Keys, cutoff)), "assoc closed")
    {
      var stale, todo := {}, byID.Keys;
      ghost var seen: set<nat> := {};
      while todo != {}
        invariant seen + todo == byID.Keys
        invariant stale == Stale(seen, cutoff)
        decreases todo
      {
        var id :| id in todo;
        var a := byID[id];
        if a.ready && a.err == None && a.lastActive < cutoff {
          stale := stale + {id};
        }
        todo, seen := todo - {id}, seen + {id};
      }
      assert seen == byID.Keys;
      RemoveAll(stale, unsent);
    }

    ghost function Stale(ids: set<nat>, cutoff: int): set<nat>
      requires ids <= byID.Keys
      reads this, Assocs()
    {
      set id | id in ids && byID[id].ready && byID[id].err == None && byID[id].lastActive < cutoff
    }

    /** evictDisallowed removes every association, ready or not, of a client that is not allowed. */
    method EvictDisallowed(isAllowed: Client -> bool, unsent: set<nat>)
      requires Valid()
      modifies this`byID, this`byAddr, this`sent, Assocs()`ready, Assocs()`err, reg`activeSessions
      ensures Valid()
      ensures RemovedAll(old(Model()), old(reg.activeSessions), old(sent), old(Barred(byID.Keys, isAllowed)), unsent)
      ensures Told(old(byID), old(Waiters(byID)), old(Barred(byID.Keys, isAllowed)), "assoc closed")
      ensures forall c :: c in byAddr ==> isAllowed(c)
    {
      var toRemove, todo := {}, byID.Keys;
      ghost var seen: set<nat> := {};
      while todo != {}
        invariant seen + todo == byID.Keys
        invariant toRemove == Barred(seen, isAllowed)
        decreases todo
      {
        var id :| id in todo;
        if !isAllowed(byID[id].client) {
          toRemove := toRemove + {id};
        }
        todo, seen := todo - {id}, seen + {id};
      }
      assert seen == byID.Keys;
      ghost var was := Model();
      BarredGone(isAllowed);
      RemoveAll(toRemove, unsent);
      assert forall c :: c in byAddr ==> c in Model().byAddr;
    }

    ghost function Barred(ids: set<nat>, isAllowed: Client -> bool): set<nat>
      requires ids <= byID.Keys
      reads this, Assocs()
    {
      set id | id in ids && !isAllowed(byID[id].client)
    }

    lemma BarredGone(isAllowed: Client -> bool)
      requires Valid()
      ensures forall c :: c in Without(Model(), Barred(byID.Keys, isAllowed)).byAddr ==> isAllowed(c)
    {
      var barred := Barred(byID.Keys, isAllowed);
      forall c | c in Without(Model(), barred).byAddr
        ensures isAllowed(c)
      {
        var id := byAddr[c].id;
        assert id in Model().byID && Model().byID[id].client == c;
      }
    }

    method Close()
      requires Valid()
      modifies this`byID, this`byAddr, this`closed, Assocs()`ready, Assocs()`err, reg`activeSessions
      ensures Valid() && closed && byID == map[] && byAddr == map[]
      ensures Model() == CloseHub(old(Model())).0
      ensures reg.activeSessions == Clamped(old(reg.activeSessions), CloseHub(old(Model())).1)
      ensures Told(old(byID), old(Waiters(byID)), old(byID).Keys, "hub closed")
    {
      if closed {
        NoneLeft();
        return;
      }
      hide Model, CloseHub;
      hide Told, Waiters;
      var live := CloseAssocs();
      hide Indexed;
      if live > 0 {
        reg.AddSessions(-live);
      }
    }

    lemma NoneLeft()
      requires Valid() && closed
      ensures byAddr == map[] && Assocs() == {} && ReadyIds(Model()) == {}
    {}

    /** The part of close under the hub lock: how many live associations it released. */
    method CloseAssocs() returns (live: int)
      requires Indexed() && !closed
      modifies this`byID, this`byAddr, this`closed, Assocs()`ready, Assocs()`err
      ensures Indexed() && closed && byID == map[] && byAddr == map[]
      ensures Model() == CloseHub(old(Model())).0 && CloseHub(old(Model())).1 == -live && live >= 0
      ensures Told(old(byID), old(Waiters(byID)), old(byID).Keys, "hub closed")
    {
      hide *;
      ghost var was, all, seen := Model(), byID, Waiters(byID);
      ClosingStarts(was);
      closed := true;
      live := ReleaseAll(was, all, seen);
      ClosingEnds(was, live);
      assert all.Keys - {} == all.Keys;
    }

    /** The loop of close. */
    method ReleaseAll(ghost was: Hub, ghost all: map<nat, UdpAssoc>, ghost seen: map<nat, Waiter>) returns (live: int)
      requires Linked() && Counted(was, 0) && Leaving(all) && Told(all, seen, all.Keys - byID.Keys, "hub closed")
      modifies this`byID, this`byAddr, Assocs()`ready, Assocs()`err
      ensures Linked() && Counted(was, live) && byID.Keys == {}
      ensures Told(all, seen, all.Keys - byID.Keys, "hub closed")
    {
      hide *;
      live := 0;
      ghost var mine := Assocs();
      while byID.Keys != {}
        invariant Linked() && Counted(was, live) && Assocs() <= mine
        invariant Leaving(all) && Told(all, seen, all.Keys - byID.Keys, "hub closed")
        decreases byID.Keys
      {
        var id :| id in byID.Keys;
        live := CloseNext(was, all, seen, live, id);
      }
    }

    /** Whatever is found by address is found by id. */
    ghost predicate Linked()
      reads this`byID, this`byAddr, Assocs()
    {
      && (forall id :: id in byID ==> byID[id].id == id)
      && (forall c :: c in byAddr ==>
            byAddr[c].client == c && byAddr[c].id in byID && byID[byAddr[c].id] == byAddr[c])
    }

    /** Of the associations that have left, `live` had been ready. */
    ghost predicate Counted(was: Hub, live: int)
      reads this`byID, Assocs()
    {
      && byID.Keys <= was.byID.Keys && live == |ReadyIds(was) - byID.Keys|
      && forall id :: id in byID ==> (byID[id].ready && byID[id].err == None) == (was.byID[id].phase == Ready)
    }

    /** What is left is left as it was. */
    ghost predicate Leaving(all: map<nat, UdpAssoc>)
      reads this`byID
    {
      forall id :: id in byID ==> id in all && byID[id] == all[id]
    }

    lemma ClosingStarts(was: Hub)
      requires Indexed() && was == Model()
      ensures Linked() && Counted(was, 0)
      ensures Leaving(byID) && Told(byID, Waiters(byID), byID.Keys - byID.Keys, "hub closed")
      ensures Coherent(was) && was.nextID == nextID < ID_SPACE && was.closed == closed
    {
      ModelCoherent();
      ToldNone(byID, "hub closed");
      assert byID.Keys - byID.Keys == {};
      hide Told, Coherent;
      assert ReadyIds(was) - byID.Keys == {};
    }

    method CloseNext(ghost was: Hub, ghost all: map<nat, UdpAssoc>, ghost seen: map<nat, Waiter>, live: int, id: nat)
      returns (live': int)
      requires Linked() && Counted(was, live) && id in byID
      requires Leaving(all) && Told(all, seen, all.Keys - byID.Keys, "hub closed")
      modifies this`byID, this`byAddr, Assocs()`ready, Assocs()`err
      ensures Linked() && Counted(was, live') && byID == old(byID) - {id}
      ensures Leaving(all) && Told(all, seen, all.Keys - byID.Keys, "hub closed")
      ensures Assocs() <= old(Assocs())
    {
      assert Keyed() && id in all && byID[id] == all[id];
      hide *;
      var wasReady := DropTelling(all, seen, id);
      live' := if wasReady then live + 1 else live;
      LinkedNext(id);
      CountedNext(was, live, id, live');
      LeavingNext(all, id);
      FewerAssocs(id);
    }

    method DropTelling(ghost all: map<nat, UdpAssoc>, ghost seen: map<nat, Waiter>, id: nat) returns (wasReady: bool)
      requires Keyed() && id in byID && id in all && byID[id] == all[id]
      requires Told(all, seen, all.Keys - byID.Keys, "hub closed")
      modifies this`byID, this`byAddr, {byID[id]}`ready, {byID[id]}`err
      ensures byID == old(byID) - {id} && byAddr == old(byAddr) - {old(byID)[id].client}
      ensures wasReady == old(byID[id].ready && byID[id].err == None)
      ensures forall i :: i in byID ==> byID[i].ready == old(byID[i].ready) && byID[i].err == old(byID[i].err)
      ensures Told(all, seen, all.Keys - byID.Keys, "hub closed")
    {
      TellsOthersNothing(all, seen, id);
      hide Told, Released, UdpAssoc.Seen, Keyed;
      label before:
      wasReady := DropNext(id);
      assert forall i :: i in all && i != id ==> all[i].Seen() == old(all[i].Seen());
      ToldNext@before(all, seen, all.Keys - old(byID).Keys, "hub closed", id);
      assert all.Keys - byID.Keys == all.Keys - old(byID).Keys + {id};
    }

    lemma TellsOthersNothing(all: map<nat, UdpAssoc>, seen: map<nat, Waiter>, id: nat)
      requires id in all && Told(all, seen, all.Keys - byID.Keys, "hub closed")
      ensures forall i :: i in all && i != id ==> all[i] != all[id]
    {}

    twostate lemma LeavingNext(new all: map<nat, UdpAssoc>, id: nat)
      requires old(forall i :: i in all ==> allocated(all[i])) && old(Leaving(all)) && byID == old(byID) - {id}
      ensures Leaving(all)
    {}

    /** Releases one association and takes it out of both maps. */
    method DropNext(id: nat) returns (wasReady: bool)
      requires Keyed() && id in byID
      modifies this`byID, this`byAddr, {byID[id]}`ready, {byID[id]}`err
      ensures byID == old(byID) - {id} && byAddr == old(byAddr) - {old(byID)[id].client}
      ensures wasReady == old(byID[id].ready && byID[id].err == None)
      ensures old(byID)[id].Seen() == Released(old(byID[id].Seen()), "hub closed")
      ensures forall i :: i in byID ==> byID[i].ready == old(byID[i].ready) && byID[i].err == old(byID[i].err)
    {
      var a := byID[id];
      wasReady := Release(a, "hub closed");
      byID := byID - {id};
      byAddr := byAddr - {a.client};
    }

    twostate lemma FewerAssocs(id: nat)
      requires byID == old(byID) - {id}
      ensures Assocs() <= old(Assocs())
    {}

    twostate lemma LinkedNext(id: nat)
      requires old(Linked()) && id in old(byID)
      requires byID == old(byID) - {id} && byAddr == old(byAddr) - {old(byID)[id].client}
      ensures Linked()
    {}

    twostate lemma CountedNext(new was: Hub, new live: int, id: nat, new live': int)
      requires id in old(byID) && old(Counted(was, live)) && byID == old(byID) - {id}
      requires forall i :: i in byID ==> byID[i].ready == old(byID[i].ready) && byID[i].err == old(byID[i].err)
      requires live' == if old(byID[id].ready && byID[id].err == None) then live + 1 else live
      ensures Counted(was, live')
    {
      assert byID.Keys == old(byID).Keys - {id};
      assert id in ReadyIds(was) <==> was.byID[id].phase == Ready;
      hide ReadyIds;
      CountOneLess(ReadyIds(was), old(byID).Keys, id);
    }

    lemma ClosingEnds(was: Hub, live: int)
      requires Linked() && Counted(was, live) && byID.Keys == {}
      requires closed && nextID == was.nextID < ID_SPACE && !was.closed && Coherent(was)
      ensures Indexed() && byID == map[] && byAddr == map[]
      ensures Model() == CloseHub(was).0 && CloseHub(was).1 == -live && live >= 0
    {
      assert byID == map[] && byAddr == map[];
      assert ReadyIds(was) - {} == ReadyIds(was);
      CloseEmpty(was);
      hide ReadyIds, CloseHub, Coherent;
    }

    lemma RemovedNone(unsent: set<nat>)
      requires Valid()
      ensures RemovedAll(Model(), reg.activeSessions, sent, {}, unsent)
    {
      WithoutNone(Model());
      assert ReadyIds(Model()) * {} == {};
      assert {} - unsent == {};
    }
  }

  /** The hub after the associations `ids` were removed one by one. */
  ghost function Without(h: Hub, ids: set<nat>): Hub {
    h.(byID := h.byID - ids, byAddr := h.byAddr - (set id | id in ids && id in h.byID :: h.byID[id].client))
  }

  ghost predicate Splits(all: set<nat>, a: set<nat>, b: set<nat>) {
    a + b == all && a !! b
  }

  lemma SplitStart(all: set<nat>)
    ensures Splits(all, {}, all)
  {}

  lemma NoneGone(all: map<nat, UdpAssoc>)
    ensures all - {} == all
  {}

  lemma SplitStep(all: set<nat>, a: set<nat>, b: set<nat>, x: nat)
    requires Splits(all, a, b) && x in b
    ensures Splits(all, a + {x}, b - {x}) && x !in a
  {}

  lemma SplitEnd(all: set<nat>, a: set<nat>)
    requires Splits(all, a, {})
    ensures a == all
  {}

  lemma CountOneMore(ready: set<nat>, gone: set<nat>, id: nat)
    requires id !in gone
    ensures |ready * (gone + {id})| == |ready * gone| + if id in ready then 1 else 0
  {
    assert ready * (gone + {id}) == ready * gone + (if id in ready then {id} else {});
  }

  lemma CountOneLess(ready: set<nat>, keys: set<nat>, id: nat)
    requires id in keys
    ensures |ready - (keys - {id})| == |ready - keys| + if id in ready then 1 else 0
  {
    assert ready - (keys - {id}) == (ready - keys) + (if id in ready then {id} else {});
  }

  lemma CloseEmpty(h: Hub)
    requires Coherent(h) && !h.closed
    ensures CloseHub(h) == (Hub(map[], map[], h.nextID, true), -|ReadyIds(h)|)
  {
    var clients := set id | id in h.byID :: h.byID[id].client;
    assert forall c :: c in h.byAddr ==> h.byID[h.byAddr[c]].client in clients;
    assert h.byAddr - clients == map[];
  }

  lemma WithoutNone(h: Hub)
    ensures Without(h, {}) == h
  {}

  lemma WithoutStep(h: Hub, gone: set<nat>, id: nat)
    requires Coherent(h) && id in h.byID && id !in gone
    ensures Without(h, gone + {id}) == Remove(Without(h, gone), id).0
    ensures Remove(Without(h, gone), id).1 == -|ReadyIds(h) * (gone + {id})| + |ReadyIds(h) * gone|
  {
    CountOneMore(ReadyIds(h), gone, id);
    WithoutOneMore(h, gone, id);
  }

  lemma WithoutOneMore(h: Hub, gone: set<nat>, id: nat)
    requires id in h.byID && id !in gone
    ensures Without(h, gone + {id}) == Drop(Without(h, gone), id)
  {
    var a, b := set i | i in gone && i in h.byID :: h.byID[i].client,
                set i | i in gone + {id} && i in h.byID :: h.byID[i].client;
    assert b == a + {h.byID[id].client};
    assert h.byAddr - b == h.byAddr - a - {h.byID[id].client};
    assert h.byID - (gone + {id}) == h.byID - gone - {id};
  }
}
