/** The payloads of the tunnel's frames: Marshal and Parse undo each other. */
module TunnelMessages {
  import opened Options
  import opened Wire
  import opened TunnelFrames

  const ASSOC_ID_SIZE: nat := 4
  const MAX_DATAGRAM_PAYLOAD: nat := MAX_PAYLOAD_SIZE - ASSOC_ID_SIZE
  const MAX_ID: nat := 0x1_0000_0000

  datatype AuthRequest = AuthRequest(token: Bytes, agentID: Bytes)

  /** AuthResponse and OpenAck have the same form. */
  datatype Answer = Answer(ok: bool, message: Bytes)

  datatype OpenMeta = OpenMeta(name: Bytes, local: Bytes, clientAddr: Bytes, proto: byte)

  datatype OpenAssoc = OpenAssoc(id: nat, clientAddr: Bytes)

  datatype OpenAssocAck = OpenAssocAck(id: nat, answer: Answer)

  datatype Datagram = Datagram(id: nat, payload: Bytes)

  function Append(buf: Option<Bytes>, s: Bytes): Option<Bytes> {
    if buf.None? || PutString(s).None? then None else Some(buf.value + PutString(s).value)
  }

  /** The string that ends a payload. */
  function LastString(b: Bytes): Option<Bytes> {
    if GetString(b).None? || GetString(b).value.1 != [] then None else Some(GetString(b).value.0)
  }

  function MarshalAuthRequest(a: AuthRequest): Option<Bytes> {
    Append(PutString(a.token), a.agentID)
  }

  function ParseAuthRequest(p: Bytes): Option<AuthRequest> {
    var first := GetString(p);
    if first.None? then None
    else
      var last := LastString(first.value.1);
      if last.None? then None else Some(AuthRequest(first.value.0, last.value))
  }

  function MarshalAnswer(a: Answer): Option<Bytes> {
    Append(Some([if a.ok then 1 else 0]), a.message)
  }

  function ParseAnswer(p: Bytes): Option<Answer> {
    if |p| < 1 || LastString(p[1..]).None? then None
    else Some(Answer(p[0] == 1, LastString(p[1..]).value))
  }

  function MarshalOpenMeta(o: OpenMeta): Option<Bytes> {
    Append(Append(Append(Some([o.proto]), o.name), o.local), o.clientAddr)
  }

  function ParseOpenMeta(p: Bytes): Option<OpenMeta> {
    if |p| < 1 then None
    else
      var name := GetString(p[1..]);
      if name.None? then None
      else
        var local := GetString(name.value.1);
        if local.None? then None
        else
          var last := LastString(local.value.1);
          if last.None? then None else Some(OpenMeta(name.value.0, local.value.0, last.value, p[0]))
  }

  function MarshalOpenAssoc(o: OpenAssoc): Option<Bytes>
    requires o.id < MAX_ID
  {
    Append(Some(U32(o.id)), o.clientAddr)
  }

  function ParseOpenAssoc(p: Bytes): Option<OpenAssoc> {
    if |p| < 4 || LastString(p[4..]).None? then None
    else Some(OpenAssoc(GetU32(p), LastString(p[4..]).value))
  }

  function MarshalOpenAssocAck(a: OpenAssocAck): Option<Bytes>
    requires a.id < MAX_ID
  {
    Append(Some(U32(a.id) + [if a.answer.ok then 1 else 0]), a.answer.message)
  }

  function ParseOpenAssocAck(p: Bytes): Option<OpenAssocAck> {
    if |p| < 4 then None
    else
      var answer := ParseAnswer(p[4..]);
      if answer.None? then None else Some(OpenAssocAck(GetU32(p), answer.value))
  }

  function MarshalDatagram(d: Datagram): Option<Bytes>
    requires d.id < MAX_ID
  {
    if |d.payload| > MAX_DATAGRAM_PAYLOAD then None else Some(U32(d.id) + d.payload)
  }

  function ParseDatagram(p: Bytes): Option<Datagram> {
    if |p| < 4 then None else Some(Datagram(GetU32(p), p[4..]))
  }

  function MarshalCloseAssoc(id: nat): Bytes
    requires id < MAX_ID
  {
    U32(id)
  }

  function ParseCloseAssoc(p: Bytes): Option<nat> {
    if |p| != 4 then None else Some(GetU32(p))
  }

  /** A signed 64-bit number of nanoseconds, in two's complement. */
  predicate Nanoseconds(n: int) {
    -0x8000_0000_0000_0000 <= n < 0x8000_0000_0000_0000
  }

  function PingPayload(nsec: int): Bytes
    requires Nanoseconds(nsec)
  {
    var n := if nsec < 0 then nsec + 0x1_0000_0000_0000_0000 else nsec;
    U32(n / 0x1_0000_0000) + U32(n % 0x1_0000_0000)
  }

  function ParsePing(p: Bytes): Option<int> {
    if |p| != 8 then None
    else
      var n := GetU32(p) * 0x1_0000_0000 + GetU32(p[4..]);
      Some(if n >= 0x8000_0000_0000_0000 then n - 0x1_0000_0000_0000_0000 else n)
  }

  lemma LastOfPut(s: Bytes)
    requires PutString(s).Some?
    ensures LastString(PutString(s).value) == Some(s)
  {
    GetPut(s, []);
    assert PutString(s).value + [] == PutString(s).value;
  }

  lemma PutOfLast(b: Bytes)
    requires LastString(b).Some?
    ensures PutString(LastString(b).value) == Some(b)
  {
    PutGet(b);
    var w := PutString(LastString(b).value).value;
    assert w + [] == w;
  }

  lemma AuthRequestRoundTrip(a: AuthRequest)
    requires MarshalAuthRequest(a).Some?
    ensures ParseAuthRequest(MarshalAuthRequest(a).value) == Some(a)
  {
    GetPut(a.token, PutString(a.agentID).value);
    LastOfPut(a.agentID);
    hide PutString, GetString, LastString;
  }

  lemma AuthRequestUnique(p: Bytes)
    requires ParseAuthRequest(p).Some?
    ensures MarshalAuthRequest(ParseAuthRequest(p).value) == Some(p)
  {
    PutGet(p);
    PutOfLast(GetString(p).value.1);
    hide PutString, GetString, LastString;
  }

  lemma AnswerRoundTrip(a: Answer)
    requires MarshalAnswer(a).Some?
    ensures ParseAnswer(MarshalAnswer(a).value) == Some(a)
  {
    var p := MarshalAnswer(a).value;
    assert p[1..] == PutString(a.message).value;
    LastOfPut(a.message);
    hide PutString, GetString, LastString;
  }

  /** Any byte but 1 reads as a refusal, so only 0 and 1 are written back as they were. */
  lemma AnswerUnique(p: Bytes)
    requires ParseAnswer(p).Some?
    ensures MarshalAnswer(ParseAnswer(p).value).Some?
    ensures MarshalAnswer(ParseAnswer(p).value).value == p <==> p[0] in {0, 1}
  {
    PutOfLast(p[1..]);
    assert p == [p[0]] + p[1..];
    hide PutString, LastString;
  }

  lemma OpenMetaRoundTrip(o: OpenMeta)
    requires MarshalOpenMeta(o).Some?
    ensures ParseOpenMeta(MarshalOpenMeta(o).value) == Some(o)
  {
    var p := MarshalOpenMeta(o).value;
    var local := PutString(o.local).value + PutString(o.clientAddr).value;
    assert p[1..] == PutString(o.name).value + local;
    GetPut(o.name, local);
    GetPut(o.local, PutString(o.clientAddr).value);
    LastOfPut(o.clientAddr);
    hide PutString, GetString, LastString;
  }

  lemma OpenMetaUnique(p: Bytes)
    requires ParseOpenMeta(p).Some?
    ensures MarshalOpenMeta(ParseOpenMeta(p).value) == Some(p)
  {
    var name := GetString(p[1..]).value;
    var local := GetString(name.1).value;
    PutGet(p[1..]);
    PutGet(name.1);
    PutOfLast(local.1);
    assert p == [p[0]] + p[1..];
    hide PutString, GetString, LastString;
    Regroup([p[0]], PutString(name.0).value, PutString(local.0).value, local.1);
  }

  lemma Regroup(a: Bytes, b: Bytes, c: Bytes, d: Bytes)
    ensures a + b + c + d == a + (b + (c + d))
  {}

  lemma SplitId(id: nat, rest: Bytes)
    requires id < MAX_ID
    ensures |U32(id) + rest| >= 4 && GetU32(U32(id) + rest) == id && (U32(id) + rest)[4..] == rest
  {
    assert (U32(id) + rest)[..4] == U32(id);
    SameU32(U32(id) + rest, U32(id));
  }

  lemma JoinId(p: Bytes)
    requires |p| >= 4
    ensures GetU32(p) < MAX_ID && p == U32(GetU32(p)) + p[4..]
  {
    U32Of(p);
  }

  lemma OpenAssocRoundTrip(o: OpenAssoc)
    requires o.id < MAX_ID && MarshalOpenAssoc(o).Some?
    ensures ParseOpenAssoc(MarshalOpenAssoc(o).value) == Some(o)
  {
    SplitId(o.id, PutString(o.clientAddr).value);
    LastOfPut(o.clientAddr);
    hide PutString, LastString, U32, GetU32;
  }

  lemma OpenAssocUnique(p: Bytes)
    requires ParseOpenAssoc(p).Some?
    ensures ParseOpenAssoc(p).value.id < MAX_ID && MarshalOpenAssoc(ParseOpenAssoc(p).value) == Some(p)
  {
    JoinId(p);
    PutOfLast(p[4..]);
    hide PutString, LastString, U32, GetU32;
  }

  lemma OpenAssocAckRoundTrip(a: OpenAssocAck)
    requires a.id < MAX_ID && MarshalOpenAssocAck(a).Some?
    ensures ParseOpenAssocAck(MarshalOpenAssocAck(a).value) == Some(a)
  {
    var tail := [if a.answer.ok then 1 else 0] + PutString(a.answer.message).value;
    assert MarshalOpenAssocAck(a).value == U32(a.id) + tail;
    SplitId(a.id, tail);
    AnswerRoundTrip(a.answer);
    assert MarshalAnswer(a.answer) == Some(tail);
    hide PutString, ParseAnswer, U32, GetU32;
  }

  lemma OpenAssocAckUnique(p: Bytes)
    requires ParseOpenAssocAck(p).Some?
    ensures ParseOpenAssocAck(p).value.id < MAX_ID && MarshalOpenAssocAck(ParseOpenAssocAck(p).value).Some?
    ensures MarshalOpenAssocAck(ParseOpenAssocAck(p).value).value == p <==> p[4] in {0, 1}
  {
    JoinId(p);
    AnswerUnique(p[4..]);
    var a := ParseAnswer(p[4..]).value;
    var w := MarshalAnswer(a).value;
    assert w == [if a.ok then 1 else 0] + PutString(a.message).value;
    assert MarshalOpenAssocAck(OpenAssocAck(GetU32(p), a)) == Some(U32(GetU32(p)) + w) by {
      assert U32(GetU32(p)) + w == U32(GetU32(p)) + [if a.ok then 1 else 0] + PutString(a.message).value;
    }
    hide PutString, ParseAnswer, MarshalAnswer, U32, GetU32, MarshalOpenAssocAck;
    assert p[4] == p[4..][0];
    if U32(GetU32(p)) + w == p {
      assert w == (U32(GetU32(p)) + w)[4..];
    }
  }

  lemma DatagramRoundTrip(d: Datagram)
    requires d.id < MAX_ID && MarshalDatagram(d).Some?
    ensures ParseDatagram(MarshalDatagram(d).value) == Some(d)
  {
    SplitId(d.id, d.payload);
  }

  lemma DatagramUnique(p: Bytes)
    requires ParseDatagram(p).Some?
    ensures ParseDatagram(p).value.id < MAX_ID
    ensures if |p| <= MAX_PAYLOAD_SIZE then MarshalDatagram(ParseDatagram(p).value) == Some(p)
            else MarshalDatagram(ParseDatagram(p).value).None?
  {
    JoinId(p);
  }

  lemma CloseAssocRoundTrip(id: nat, p: Bytes)
    requires id < MAX_ID
    ensures ParseCloseAssoc(MarshalCloseAssoc(id)) == Some(id)
    ensures ParseCloseAssoc(p).Some? ==>
              ParseCloseAssoc(p).value < MAX_ID && MarshalCloseAssoc(ParseCloseAssoc(p).value) == p
  {
    if |p| == 4 {
      JoinId(p);
    }
  }

  lemma PingRoundTrip(nsec: int)
    requires Nanoseconds(nsec)
    ensures ParsePing(PingPayload(nsec)) == Some(nsec)
  {
    var n := if nsec < 0 then nsec + 0x1_0000_0000_0000_0000 else nsec;
    SplitId(n / 0x1_0000_0000, U32(n % 0x1_0000_0000));
    hide U32, GetU32;
  }

  lemma PingUnique(p: Bytes)
    requires ParsePing(p).Some?
    ensures Nanoseconds(ParsePing(p).value) && PingPayload(ParsePing(p).value) == p
  {
    JoinId(p);
    JoinId(p[4..]);
    HalvesOf(GetU32(p), GetU32(p[4..]));
    assert p[4..] == U32(GetU32(p[4..])) + p[4..][4..];
    hide U32, GetU32;
  }

  lemma HalvesOf(hi: nat, lo: nat)
    requires hi < MAX_ID && lo < MAX_ID
    ensures (hi * 0x1_0000_0000 + lo) / 0x1_0000_0000 == hi && (hi * 0x1_0000_0000 + lo) % 0x1_0000_0000 == lo
  {}

  /** Every datagram that can be marshalled fits in a frame, and so do both kinds of bare ids. */
  lemma DatagramsFit(d: Datagram)
    requires d.id < MAX_ID
    ensures MarshalDatagram(d).Some? <==> ASSOC_ID_SIZE + |d.payload| <= MAX_PAYLOAD_SIZE
    ensures MarshalDatagram(d).Some? ==> |MarshalDatagram(d).value| <= MAX_PAYLOAD_SIZE
  {}

  /** Messages of strings may be too large for a frame: these are the exact limits. */
  lemma StringsFit(a: AuthRequest, o: OpenMeta)
    ensures MarshalAuthRequest(a).Some? <==> |a.token| <= 65535 && |a.agentID| <= 65535
    ensures MarshalAuthRequest(a).Some? ==> |MarshalAuthRequest(a).value| == 4 + |a.token| + |a.agentID|
    ensures MarshalOpenMeta(o).Some? <==> |o.name| <= 65535 && |o.local| <= 65535 && |o.clientAddr| <= 65535
    ensures MarshalOpenMeta(o).Some? ==> |MarshalOpenMeta(o).value| == 7 + |o.name| + |o.local| + |o.clientAddr|
  {}

  /** The layout of each message, field by field, on the wire. */
  lemma TextLayouts(a: AuthRequest, b: Answer, o: OpenMeta)
    ensures |a.token| < 65536 && |a.agentID| < 65536 ==>
              MarshalAuthRequest(a) == Some(Prefixed(a.token) + Prefixed(a.agentID))
    ensures |b.message| < 65536 ==> MarshalAnswer(b) == Some([if b.ok then 1 else 0] + Prefixed(b.message))
    ensures |o.name| < 65536 && |o.local| < 65536 && |o.clientAddr| < 65536 ==>
              MarshalOpenMeta(o) == Some([o.proto] + Prefixed(o.name) + Prefixed(o.local) + Prefixed(o.clientAddr))
  {
    PutIsPrefixed(a.token);
    PutIsPrefixed(a.agentID);
    PutIsPrefixed(b.message);
    PutIsPrefixed(o.name);
    PutIsPrefixed(o.local);
    PutIsPrefixed(o.clientAddr);
    hide PutString, Prefixed;
  }

  lemma AssocLayouts(o: OpenAssoc, a: OpenAssocAck, d: Datagram, id: Bytes)
    requires BigEndian(id, o.id) && o.id == a.id == d.id < MAX_ID
    ensures |o.clientAddr| < 65536 ==> MarshalOpenAssoc(o) == Some(id + Prefixed(o.clientAddr))
    ensures |a.answer.message| < 65536 ==>
              MarshalOpenAssocAck(a) == Some(id + [if a.answer.ok then 1 else 0] + Prefixed(a.answer.message))
    ensures |d.payload| <= 65532 ==> MarshalDatagram(d) == Some(id + d.payload)
    ensures MarshalCloseAssoc(o.id) == id
  {
    hide PutString, Prefixed, U32, BigEndian;
    U32IsBigEndian(o.id);
    BigEndianUnique(U32(o.id), id, o.id);
    PutIsPrefixed(o.clientAddr);
    PutIsPrefixed(a.answer.message);
  }

  lemma PingLayout(nsec: int, b: Bytes, hi: nat, lo: nat)
    requires Nanoseconds(nsec) && |b| == 8 && BigEndian(b[..4], hi) && BigEndian(b[4..], lo)
    requires hi * 4294967296 + lo == if nsec < 0 then nsec + 18446744073709551616 else nsec
    ensures PingPayload(nsec) == b
  {
    BigEndianRange(b[..4], hi);
    BigEndianRange(b[4..], lo);
    hide U32, BigEndian;
    HalvesOf(hi, lo);
    U32IsBigEndian(hi);
    U32IsBigEndian(lo);
    BigEndianUnique(U32(hi), b[..4], hi);
    BigEndianUnique(U32(lo), b[4..], lo);
    assert b == b[..4] + b[4..];
  }

  lemma BigEndianRange(b: Bytes, n: nat)
    requires BigEndian(b, n)
    ensures n < MAX_ID
  {
  }
}
