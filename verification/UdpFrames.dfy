/** The frames exchanged on the data stream of one UDP tunnel, seen as queue contents. */
module UdpFrames {

  type Payload = seq<nat>

  /** The text key of a client's UDP address. */
  type Client = string

  datatype Frame =
    | OpenAssoc(id: nat, client: Client)
    | OpenAck(id: nat, ok: bool)
    | Datagram(id: nat, payload: Payload)
    | CloseAssoc(id: nat)

  datatype Kind = Opening | Accepting | Refusing | Carrying | Closing

  function KindOf(f: Frame): Kind {
    match f
    case OpenAssoc(_, _) => Opening
    case OpenAck(_, ok) => if ok then Accepting else Refusing
    case Datagram(_, _) => Carrying
    case CloseAssoc(_) => Closing
  }

  /** How many frames of kind `k` for association `id` are queued. */
  ghost function Count(q: seq<Frame>, k: Kind, id: nat): nat {
    if q == [] then 0
    else (if KindOf(q[0]) == k && q[0].id == id then 1 else 0) + Count(q[1..], k, id)
  }

  /** The payloads queued for `id`, oldest first. */
  ghost function Payloads(q: seq<Frame>, id: nat): seq<Payload> {
    if q == [] then []
    else if q[0].Datagram? && q[0].id == id then [q[0].payload] + Payloads(q[1..], id)
    else Payloads(q[1..], id)
  }

  /** No CloseAssoc for `id` is queued in front of an OpenAssoc for `id`. */
  ghost predicate OpensFirst(q: seq<Frame>, id: nat) {
    q == [] ||
    (&& (q[0] == CloseAssoc(id) ==> Count(q[1..], Opening, id) == 0)
     && OpensFirst(q[1..], id))
  }

  /** No OpenAssoc for `id` is queued in front of a CloseAssoc for `id`. */
  ghost predicate ClosesFirst(q: seq<Frame>, id: nat) {
    q == [] ||
    (&& (KindOf(q[0]) == Opening && q[0].id == id ==> Count(q[1..], Closing, id) == 0)
     && ClosesFirst(q[1..], id))
  }

  lemma {:induction false} CountPush(q: seq<Frame>, f: Frame, k: Kind, id: nat)
    ensures Count(q + [f], k, id) == Count(q, k, id) + (if KindOf(f) == k && f.id == id then 1 else 0)
  {
    if q == [] {
      assert q + [f] == [f];
    } else {
      assert (q + [f])[1..] == q[1..] + [f];
      CountPush(q[1..], f, k, id);
    }
  }

  lemma {:induction false} PayloadsPush(q: seq<Frame>, f: Frame, id: nat)
    ensures Payloads(q + [f], id)
         == Payloads(q, id) + (if f.Datagram? && f.id == id then [f.payload] else [])
  {
    if q == [] {
      assert q + [f] == [f];
    } else {
      assert (q + [f])[1..] == q[1..] + [f];
      PayloadsPush(q[1..], f, id);
    }
  }

  lemma {:induction false} OpensFirstPush(q: seq<Frame>, f: Frame, id: nat)
    requires OpensFirst(q, id)
    requires KindOf(f) == Opening && f.id == id ==> Count(q, Closing, id) == 0
    ensures OpensFirst(q + [f], id)
  {
    if q == [] {
      assert q + [f] == [f];
    } else {
      assert (q + [f])[1..] == q[1..] + [f];
      CountPush(q[1..], f, Opening, id);
      OpensFirstPush(q[1..], f, id);
    }
  }

  lemma {:induction false} ClosesFirstPush(q: seq<Frame>, f: Frame, id: nat)
    requires ClosesFirst(q, id)
    requires KindOf(f) == Closing && f.id == id ==> Count(q, Opening, id) == 0
    ensures ClosesFirst(q + [f], id)
  {
    if q == [] {
      assert q + [f] == [f];
    } else {
      assert (q + [f])[1..] == q[1..] + [f];
      CountPush(q[1..], f, Closing, id);
      ClosesFirstPush(q[1..], f, id);
    }
  }

  lemma {:induction false} NothingCloses(q: seq<Frame>, id: nat)
    requires Count(q, Closing, id) == 0
    ensures ClosesFirst(q, id)
  {
    if q != [] {
      NothingCloses(q[1..], id);
    }
  }

  lemma {:induction false} NothingOpens(q: seq<Frame>, id: nat)
    requires Count(q, Opening, id) == 0
    ensures ClosesFirst(q, id)
  {
    if q != [] {
      NothingOpens(q[1..], id);
    }
  }

  /** Appending one frame, as seen by one id. */
  lemma Push(q: seq<Frame>, f: Frame, id: nat)
    ensures forall k :: Count(q + [f], k, id) == Count(q, k, id) + (if KindOf(f) == k && f.id == id then 1 else 0)
    ensures Payloads(q + [f], id) == Payloads(q, id) + (if f.Datagram? && f.id == id then [f.payload] else [])
  {
    forall k ensures Count(q + [f], k, id) == Count(q, k, id) + (if KindOf(f) == k && f.id == id then 1 else 0) {
      CountPush(q, f, k, id);
    }
    PayloadsPush(q, f, id);
  }

  lemma PushOrder(q: seq<Frame>, f: Frame, id: nat)
    ensures OpensFirst(q, id) && (KindOf(f) == Opening && f.id == id ==> Count(q, Closing, id) == 0)
        ==> OpensFirst(q + [f], id)
    ensures ClosesFirst(q, id) && (KindOf(f) == Closing && f.id == id ==> Count(q, Opening, id) == 0)
        ==> ClosesFirst(q + [f], id)
  {
    if OpensFirst(q, id) && (KindOf(f) == Opening && f.id == id ==> Count(q, Closing, id) == 0) {
      OpensFirstPush(q, f, id);
    }
    if ClosesFirst(q, id) && (KindOf(f) == Closing && f.id == id ==> Count(q, Opening, id) == 0) {
      ClosesFirstPush(q, f, id);
    }
  }

  /** Removing the first frame, as seen by one id. */
  lemma Pop(q: seq<Frame>, id: nat)
    requires q != []
    ensures forall k :: Count(q, k, id) == Count(q[1..], k, id) + (if KindOf(q[0]) == k && q[0].id == id then 1 else 0)
    ensures if q[0].Datagram? && q[0].id == id
            then Payloads(q, id) != [] && Payloads(q, id)[0] == q[0].payload && Payloads(q[1..], id) == Payloads(q, id)[1..]
            else Payloads(q[1..], id) == Payloads(q, id)
  {}

  lemma PopOrder(q: seq<Frame>, id: nat)
    requires q != []
    ensures OpensFirst(q, id) ==> OpensFirst(q[1..], id)
    ensures OpensFirst(q, id) && q[0] == CloseAssoc(id) ==> Count(q[1..], Opening, id) == 0
    ensures ClosesFirst(q, id) ==> ClosesFirst(q[1..], id)
    ensures ClosesFirst(q, id) && KindOf(q[0]) == Opening && q[0].id == id ==> Count(q[1..], Closing, id) == 0
  {}

  /** `after` is `before` followed by one CloseAssoc per id, in some order. */
  ghost predicate NotifiesEach(before: seq<Frame>, after: seq<Frame>, ids: set<nat>) {
    && |after| == |before| + |ids| && before <= after
    && forall id :: id in ids ==> CloseAssoc(id) in after[|before|..]
  }

  /** One more id is closed; the notice is written unless `unsent` says so. */
  lemma NotifiesNext(before: seq<Frame>, after: seq<Frame>, ids: set<nat>, unsent: set<nat>, id: nat)
    requires NotifiesEach(before, after, ids - unsent) && id !in ids
    ensures NotifiesEach(before, if id in unsent then after else after + [CloseAssoc(id)], ids + {id} - unsent)
  {
    if id in unsent {
      assert ids + {id} - unsent == ids - unsent;
    } else {
      assert ids + {id} - unsent == ids - unsent + {id};
      assert (after + [CloseAssoc(id)])[|before|..] == after[|before|..] + [CloseAssoc(id)];
    }
  }
}
