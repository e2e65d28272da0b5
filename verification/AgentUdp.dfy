/**
  The Agent side of a UDP tunnel: a map of local sockets, mirrored by the set of open ids. Each
  method is proved against the mirror operation the protocol proof uses.
 */
module AgentUdp {
  import opened UdpFrames
  import opened UdpHubModel
  import Messages = TunnelMessages

  /** What reading from a local socket comes to. */
  datatype Local = Arrived(payload: Payload) | TimedOut | Failed

  class LocalAssoc {
    const id: nat
    var cancelled: bool               // the cancel channel is closed
    var last: int
    var written: seq<Payload>         // to the local socket

    constructor (id: nat, now: int)
      ensures this.id == id && !cancelled && last == now && written == []
    {
      this.id, cancelled, last, written := id, false, now, [];
    }
  }

  class UdpStream {
    const limit: nat
    var assocs: map<nat, LocalAssoc>
    var closed: bool
    var sent: seq<Frame>              // written to the stream

    ghost predicate Valid()
      reads this, assocs.Values
    {
      && (forall id :: id in assocs ==> assocs[id].id == id && !assocs[id].cancelled)
      && (closed ==> assocs == map[])
    }

    ghost function Model(): Mirror
      reads this
    {
      Mirror(assocs.Keys, closed)
    }

    constructor (limit: nat)
      ensures Valid() && Model() == NEW_MIRROR && sent == [] && this.limit == limit
    {
      this.limit := limit;
      assocs, closed, sent := map[], false, [];
    }

    /** A write fails once the stream object is closed, or when the stream fails. */
    method WriteFrame(f: Frame, streamFails: bool) returns (ok: bool)
      modifies this`sent
      ensures ok == (!closed && !streamFails)
      ensures sent == if ok then old(sent) + [f] else old(sent)
    {
      if closed || streamFails {
        return false;
      }
      sent := sent + [f];
      return true;
    }

    /** openAssoc: exactly one answer; an entry whose answer cannot be written is closed again. */
    method OpenAssoc(id: nat, dials: bool, now: int, streamFails: bool)
      requires Valid()
      modifies this`assocs, this`sent
      ensures Valid() && Model() == Opened(old(Model()), id, limit, dials, streamFails)
      ensures sent == old(sent) + if closed || streamFails then []
                                  else [OpenAck(id, id in old(assocs) || (|old(assocs)| < limit && dials))]
      ensures assocs.Keys == old(assocs).Keys + if !closed && !streamFails && |old(assocs)| < limit && dials then {id} else {}
      ensures forall i :: i in old(assocs) ==> i in assocs && assocs[i] == old(assocs)[i]
      ensures id in assocs && id !in old(assocs) ==>
                fresh(assocs[id]) && assocs[id].last == now && assocs[id].written == [] && !assocs[id].cancelled
    {
      assert |assocs.Keys| == |assocs|;
      if closed {
        var _ := WriteFrame(OpenAck(id, false), streamFails);
        return;
      }
      if id in assocs {
        var _ := WriteFrame(OpenAck(id, true), streamFails);
        return;
      }
      if |assocs| >= limit {
        var _ := WriteFrame(OpenAck(id, false), streamFails);
        return;
      }
      if !dials {
        var _ := WriteFrame(OpenAck(id, false), streamFails);
        return;
      }
      Install(id, now, streamFails);
    }

    /** A new entry, and its answer. */
    method Install(id: nat, now: int, streamFails: bool)
      requires Valid() && !closed && id !in assocs
      modifies this`assocs, this`sent
      ensures Valid() && Model().open == old(Model()).open + if streamFails then {} else {id}
      ensures sent == old(sent) + if streamFails then [] else [OpenAck(id, true)]
      ensures forall i :: i in old(assocs) ==> i in assocs && assocs[i] == old(assocs)[i]
      ensures id in assocs ==> fresh(assocs[id]) && assocs[id].last == now && assocs[id].written == []
    {
      var a := new LocalAssoc(id, now);
      assocs := assocs[id := a];
      var ok := WriteFrame(OpenAck(id, true), streamFails);
      if !ok {
        Close(id, false, streamFails);
        assert assocs == old(assocs);
      }
    }

    static function Opened(m: Mirror, id: nat, limit: nat, dials: bool, streamFails: bool): Mirror {
      if streamFails then m else MirrorOpen(m, id, limit, dials).0
    }

    /** writeLocal: a failed write closes the association and says so. */
    method WriteLocal(id: nat, payload: Payload, fails: bool, now: int, streamFails: bool)
      requires Valid()
      modifies this`assocs, this`sent, assocs.Values
      ensures Valid()
      ensures !fails ==> Model() == old(Model()) && sent == old(sent) && assocs == old(assocs)
      ensures fails ==> Model() == old(Model()).(open := old(Model()).open - {id})
      ensures fails ==> sent == old(sent) + if id in old(assocs) && !streamFails then [CloseAssoc(id)] else []
      ensures forall i :: i in assocs ==> i in old(assocs) && assocs[i] == old(assocs)[i]
      ensures forall i :: i in old(assocs) ==>
                && old(assocs)[i].written == old(assocs[i].written) + (if i == id && !fails then [payload] else [])
                && old(assocs)[i].last == (if i == id then now else old(assocs[i].last))
                && old(assocs)[i].cancelled == (i == id && fails)
    {
      if id !in assocs {
        return;
      }
      var a := assocs[id];
      a.last := now;
      if fails {
        Close(id, true, streamFails);
      } else {
        a.written := a.written + [payload];
      }
    }

    /** The reader of a local socket has been told to stop. */
    ghost predicate Stopped(a: LocalAssoc)
      reads this`closed, a`cancelled
    {
      a.cancelled || closed
    }

    /** What one round of a reader puts on the stream. */
    static function Relayed(id: nat, r: Local, streamFails: bool): seq<Frame> {
      if r.Arrived? && 0 < |r.payload| <= 65532 && !streamFails then [Datagram(id, r.payload)] else []
    }

    /** The reader gives its association up: the socket failed, or what was read could not be sent. */
    static predicate Abandons(r: Local, streamFails: bool) {
      r.Failed? || (r.Arrived? && 0 < |r.payload| <= 65532 && streamFails)
    }

    /** One round of readLocal; a timeout, an empty and an oversized datagram are passed over. */
    method ReadLocal(a: LocalAssoc, r: Local, now: int, streamFails: bool) returns (goesOn: bool)
      requires Valid()
      modifies this`assocs, this`sent, a`last, assocs.Values`cancelled
      ensures Valid()
      ensures goesOn == old(!Stopped(a) && !Abandons(r, streamFails))
      ensures assocs == if old(!Stopped(a)) && Abandons(r, streamFails) then old(assocs) - {a.id} else old(assocs)
      ensures a.last == if old(!Stopped(a)) && r.Arrived? && r.payload != [] then now else old(a.last)
      ensures sent == old(sent) +
                if old(Stopped(a)) then []
                else if r.Failed? && a.id in old(assocs) && !streamFails then [CloseAssoc(a.id)]
                else Relayed(a.id, r, streamFails)
      ensures forall i :: i in old(assocs) ==> old(assocs)[i].cancelled == (i !in assocs)
    {
      if a.cancelled || closed {
        return false;
      }
      if r.Failed? {
        Close(a.id, true, streamFails);
        return false;
      }
      if r.TimedOut? || |r.payload| == 0 {
        return true;
      }
      a.last := now;
      if |r.payload| > Messages.MAX_DATAGRAM_PAYLOAD {
        return true;
      }
      var ok := WriteFrame(Datagram(a.id, r.payload), streamFails);
      if !ok {
        Close(a.id, false, streamFails);
        return false;
      }
      return true;
    }

    /** closeAssoc: the cancel channel of an association is closed by whoever removes it. */
    method Close(id: nat, notify: bool, streamFails: bool)
      requires forall i :: i in assocs ==> assocs[i].id == i && !assocs[i].cancelled
      modifies this`assocs, this`sent, (if id in assocs then {assocs[id]} else {})`cancelled
      ensures assocs == old(assocs) - {id}
      ensures id in old(assocs) ==>
                old(assocs)[id].cancelled
      ensures sent == if notify && id in old(assocs) && !closed && !streamFails then old(sent) + [CloseAssoc(id)] else old(sent)
    {
      if id !in assocs {
        assert assocs == assocs - {id};
        return;
      }
      var a := assocs[id];
      assocs := assocs - {id};
      if !a.cancelled {
        a.cancelled := true;
      }
      if notify {
        var _ := WriteFrame(CloseAssoc(id), streamFails);
      }
    }

    /** One round of readLoop: what a frame from the Edge does to the open ids, and what is answered. */
    method HandleFrame(f: Frame, dials: bool, writes: bool, now: int, streamFails: bool)
      requires Valid()
      modifies this`assocs, this`sent, assocs.Values
      ensures Valid()
      ensures Model() == Received(old(Model()), f, limit, dials, writes, streamFails)
      ensures sent == old(sent) + if streamFails then [] else Answered(old(Model()), f, limit, dials, writes)
      ensures forall i :: i in assocs ==>
                if i in old(assocs) then assocs[i] == old(assocs)[i]
                else fresh(assocs[i]) && assocs[i].written == [] && assocs[i].last == now
      ensures forall i :: i in old(assocs) ==>
                && old(assocs)[i].written == old(assocs[i].written) + Wrote(f, i, writes)
                && old(assocs)[i].last == (if f.Datagram? && f.id == i then now else old(assocs[i].last))
                && old(assocs)[i].cancelled == (i !in assocs)
    {
      match f
      case OpenAssoc(id, _) => OpenAssoc(id, dials, now, streamFails);
      case Datagram(id, payload) => WriteLocal(id, payload, !writes, now, streamFails);
      case CloseAssoc(id) => Close(id, false, streamFails);
      case OpenAck(_, _) =>
    }

    /** What a frame puts on the socket of `id`, if it is open. */
    static function Wrote(f: Frame, id: nat, writes: bool): seq<Payload> {
      if f.Datagram? && f.id == id && writes then [f.payload] else []
    }

    static function Received(m: Mirror, f: Frame, limit: nat, dials: bool, writes: bool, streamFails: bool): Mirror {
      match f
      case OpenAssoc(id, _) => Opened(m, id, limit, dials, streamFails)
      case Datagram(id, _) => if writes then m else m.(open := m.open - {id})
      case CloseAssoc(id) => m.(open := m.open - {id})
      case OpenAck(_, _) => m
    }

    static function Answered(m: Mirror, f: Frame, limit: nat, dials: bool, writes: bool): seq<Frame> {
      match f
      case OpenAssoc(id, _) => if m.closed then [] else [OpenAck(id, MirrorOpen(m, id, limit, dials).1)]
      case Datagram(id, _) => if !writes && id in m.open then [CloseAssoc(id)] else []
      case _ => []
    }

    /** reapIdle removes the associations last used before `cutoff`; the notices in `unsent` fail. */
    method ReapIdle(cutoff: int, unsent: set<nat>)
      requires Valid()
      modifies this`assocs, this`sent, assocs.Values`cancelled
      ensures Valid()
      ensures Model() == old(Model()).(open := old(Model()).open - old(Stale(assocs.Keys, cutoff)))
      ensures NotifiesEach(old(sent), sent, old(Stale(assocs.Keys, cutoff)) - unsent)
      ensures forall id :: id in old(assocs) ==> old(assocs)[id].cancelled == (id in old(Stale(assocs.Keys, cutoff)))
      ensures forall id :: id in assocs ==> assocs[id] == old(assocs)[id]
    {
      var stale := CollectStale(cutoff);
      ReapingStarts(unsent);
      hide Reaped, NotifiesEach;
      ghost var log, all := sent, assocs;
      CloseStale(log, all, stale, unsent);
      ReapingEnds(log, all, stale, unsent);
    }

    method CloseStale(ghost log: seq<Frame>, ghost all: map<nat, LocalAssoc>, stale: set<nat>, unsent: set<nat>)
      requires Reaped(log, all, {}, unsent) && stale <= assocs.Keys
      modifies this`assocs, this`sent, assocs.Values`cancelled
      ensures Reaped(log, all, stale, unsent)
    {
      hide *;
      ghost var mine := assocs.Values;
      var todo := stale;
      assert stale - todo == {};
      while todo != {}
        invariant todo <= stale && todo <= assocs.Keys && assocs.Values <= mine
        invariant Reaped(log, all, stale - todo, unsent)
        decreases todo
      {
        var id :| id in todo;
        CloseNext(log, all, stale - todo, unsent, id);
        assert stale - (todo - {id}) == stale - todo + {id};
        todo := todo - {id};
      }
      assert stale - {} == stale;
    }

    /** Of the associations `all`, the ids `gone` are closed and announced. */
    ghost predicate Reaped(log: seq<Frame>, all: map<nat, LocalAssoc>, gone: set<nat>, unsent: set<nat>)
      reads this, all.Values
    {
      && assocs == all - gone && NotifiesEach(log, sent, gone - unsent) && (closed ==> all == map[])
      && (forall id :: id in all ==> all[id].id == id && all[id].cancelled == (id in gone))
    }

    lemma ReapingStarts(unsent: set<nat>)
      requires Valid()
      ensures Reaped(sent, assocs, {}, unsent)
    {
      assert {} - unsent == {} && assocs - {} == assocs;
    }

    lemma ReapingEnds(log: seq<Frame>, all: map<nat, LocalAssoc>, gone: set<nat>, unsent: set<nat>)
      requires Reaped(log, all, gone, unsent) && gone <= all.Keys
      ensures Valid() && Model() == Mirror(all.Keys - gone, closed) && NotifiesEach(log, sent, gone - unsent)
      ensures assocs == all - gone && forall id :: id in all ==> all[id].cancelled == (id in gone)
    {
      hide NotifiesEach;
      assert assocs.Keys == all.Keys - gone;
    }

    method CloseNext(ghost log: seq<Frame>, ghost all: map<nat, LocalAssoc>, ghost gone: set<nat>, unsent: set<nat>, id: nat)
      requires Reaped(log, all, gone, unsent) && id in assocs
      modifies this`assocs, this`sent, assocs.Values`cancelled
      ensures Reaped(log, all, gone + {id}, unsent)
      ensures assocs == old(assocs) - {id} && assocs.Values <= old(assocs.Values)
    {
      NotifiesNext(log, sent, gone, unsent, id);
      hide NotifiesEach;
      Close(id, true, id in unsent);
      assert assocs == all - (gone + {id});
    }

    method CollectStale(cutoff: int) returns (stale: set<nat>)
      ensures stale == Stale(assocs.Keys, cutoff)
    {
      stale := {};
      var todo := assocs.Keys;
      ghost var seen: set<nat> := {};
      while todo != {}
        invariant seen + todo == assocs.Keys && stale == Stale(seen, cutoff)
        decreases todo
      {
        var id :| id in todo;
        if assocs[id].last < cutoff {
          stale := stale + {id};
        }
        todo, seen := todo - {id}, seen + {id};
      }
      assert seen == assocs.Keys;
    }

    ghost function Stale(ids: set<nat>, cutoff: int): set<nat>
      requires ids <= assocs.Keys
      reads this, assocs.Values
    {
      set id | id in ids && assocs[id].last < cutoff
    }

    /** closeAll cancels every reader and sends nothing. */
    method CloseAll()
      requires Valid()
      modifies this`assocs, this`closed, this`sent, assocs.Values`cancelled
      ensures Valid() && Model() == Mirror({}, true) && sent == old(sent)
      ensures forall id :: id in old(assocs) ==> old(assocs)[id].cancelled
    {
      if closed {
        return;
      }
      closed := true;
      while assocs.Keys != {}
        invariant forall i :: i in assocs ==> i in old(assocs) && assocs[i] == old(assocs)[i]
        invariant forall i :: i in assocs ==> assocs[i].id == i && !assocs[i].cancelled
        invariant forall i :: i in old(assocs) && i !in assocs ==> old(assocs)[i].cancelled
        invariant sent == old(sent) && closed
        decreases assocs.Keys
      {
        var id :| id in assocs.Keys;
        Close(id, false, false);
        assert id !in assocs;
      }
      assert assocs == map[];
    }
  }
}
