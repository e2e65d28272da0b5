/** Authenticating an agent, and opening a data stream, as exchanges between two ends. */
module Handshake {
  import opened Options
  import opened Streams
  import opened Wire
  import opened TunnelFrames
  import opened TunnelMessages

  /** How an end can fail. The Edge bans for good whoever did not speak the tunnel protocol. */
  datatype Error = NotTunnelClient | Unauthorized | Rejected | Other

  datatype Result<+T> = Ok(value: T) | Err(error: Error)

  /** "unauthorized" and "ok" */
  const UNAUTHORIZED: Bytes := [117, 110, 97, 117, 116, 104, 111, 114, 105, 122, 101, 100]
  const OK_TEXT: Bytes := [111, 107]

  /** The tokens are compared by their SHA-256 digests. */
  type Digest = Bytes -> Bytes

  function ReadError(r: Read): Error
    requires !r.Got?
  {
    if r.NotTunnel? then NotTunnelClient else Other
  }

  /** What the Edge makes of what an agent sends: the agent's id or an error. */
  function Judge(s: Bytes, want: Bytes, digest: Digest): Result<Bytes> {
    var r := ReadFrom(s).0;
    if !r.Got? then Err(ReadError(r))
    else if r.frame.typ != AUTH_REQUEST then Err(NotTunnelClient)
    else
      var req := ParseAuthRequest(r.frame.payload);
      if req.None? then Err(Other)
      else if digest(req.value.token) != digest(want) then Err(Unauthorized)
      else Ok(req.value.agentID)
  }

  /** What the Edge answers: nothing if it could not read a frame. */
  function Verdict(s: Bytes, want: Bytes, digest: Digest): Bytes {
    if !ReadFrom(s).0.Got? then []
    else if Judge(s, want, digest).Ok? then AnswerFrame(AUTH_RESPONSE, Answer(true, OK_TEXT)).value
    else AnswerFrame(AUTH_RESPONSE, Answer(false, UNAUTHORIZED)).value
  }

  /** An answer on the stream, or None if its message is too long. */
  function AnswerFrame(typ: byte, a: Answer): Option<Bytes> {
    var m := MarshalAnswer(a);
    if m.None? || |m.value| > MAX_PAYLOAD_SIZE then None else Some(FrameBytes(typ, m.value))
  }

  /** The agent's credentials on the stream, or None if they are too long for a frame. */
  function Credentials(token: Bytes, agentID: Bytes): Option<Bytes> {
    var m := MarshalAuthRequest(AuthRequest(token, agentID));
    if m.None? || |m.value| > MAX_PAYLOAD_SIZE then None else Some(FrameBytes(AUTH_REQUEST, m.value))
  }

  /** What the agent makes of the Edge's answer. */
  function Accept(s: Bytes, typ: byte): Result<()> {
    var r := ReadFrom(s).0;
    if !r.Got? then Err(ReadError(r))
    else if r.frame.typ != typ then Err(Other)
    else
      var a := ParseAnswer(r.frame.payload);
      if a.None? then Err(Other) else if !a.value.ok then Err(Rejected) else Ok(())
  }

  lemma ShortAnswersFit()
    ensures AnswerFrame(AUTH_RESPONSE, Answer(true, OK_TEXT)).Some?
    ensures AnswerFrame(AUTH_RESPONSE, Answer(false, UNAUTHORIZED)).Some?
  {}

  method WriteAuth(conn: Stream, ok: bool, msg: Bytes) returns (done: bool)
    modifies conn`output
    ensures done == AnswerFrame(AUTH_RESPONSE, Answer(ok, msg)).Some?
    ensures conn.output == old(conn.output) + (if done then AnswerFrame(AUTH_RESPONSE, Answer(ok, msg)).value else [])
  {
    var payload := MarshalAnswer(Answer(ok, msg));
    if payload.None? {
      return false;
    }
    done := WriteFrame(conn, AUTH_RESPONSE, payload.value);
  }

  method ServerHandshake(conn: Stream, want: Bytes, digest: Digest) returns (r: Result<Bytes>)
    modifies conn
    ensures r == Judge(old(conn.input), want, digest)
    ensures conn.output == old(conn.output) + Verdict(old(conn.input), want, digest)
    ensures conn.input == ReadFrom(old(conn.input)).1
  {
    ShortAnswersFit();
    hide ReadFrom, ParseAuthRequest, AnswerFrame;
    var read := ReadFrame(conn);
    if !read.Got? {
      return Err(ReadError(read));
    }
    if read.frame.typ != AUTH_REQUEST {
      var _ := WriteAuth(conn, false, UNAUTHORIZED);
      return Err(NotTunnelClient);
    }
    var req := ParseAuthRequest(read.frame.payload);
    if req.None? {
      var _ := WriteAuth(conn, false, UNAUTHORIZED);
      return Err(Other);
    }
    if digest(req.value.token) != digest(want) {
      var _ := WriteAuth(conn, false, UNAUTHORIZED);
      return Err(Unauthorized);
    }
    var done := WriteAuth(conn, true, OK_TEXT);
    if !done {
      return Err(Other);
    }
    return Ok(req.value.agentID);
  }

  /** The agent's end: it sends its credentials and waits for the answer. */
  method ClientHandshake(conn: Stream, token: Bytes, agentID: Bytes) returns (r: Result<()>)
    modifies conn
    ensures var c := Credentials(token, agentID);
      if c.None? then r == Err(Other) && conn.output == old(conn.output) && conn.input == old(conn.input)
      else
        && conn.output == old(conn.output) + c.value
        && r == Accept(old(conn.input), AUTH_RESPONSE)
        && conn.input == ReadFrom(old(conn.input)).1
  {
    hide ReadFrom, ParseAnswer;
    var payload := MarshalAuthRequest(AuthRequest(token, agentID));
    if payload.None? {
      return Err(Other);
    }
    var sent := WriteFrame(conn, AUTH_REQUEST, payload.value);
    if !sent {
      return Err(Other);
    }
    var read := ReadFrame(conn);
    if !read.Got? {
      return Err(ReadError(read));
    }
    if read.frame.typ != AUTH_RESPONSE {
      return Err(Other);
    }
    var resp := ParseAnswer(read.frame.payload);
    if resp.None? {
      return Err(Other);
    }
    if !resp.value.ok {
      return Err(Rejected);
    }
    return Ok(());
  }

  lemma AnswerRead(typ: byte, a: Answer, rest: Bytes)
    requires AnswerFrame(typ, a).Some?
    ensures ReadFrom(AnswerFrame(typ, a).value + rest) == (Got(Frame(typ, 0, MarshalAnswer(a).value)), rest)
    ensures Accept(AnswerFrame(typ, a).value + rest, typ) == if a.ok then Ok(()) else Err(Rejected)
  {
    ReadWritten(typ, MarshalAnswer(a).value, rest);
    AnswerRoundTrip(a);
    hide ReadFrom, ParseAnswer, FrameBytes, MarshalAnswer;
  }

  /**
    An agent whose credentials fit a frame, and an Edge, connected by a lossless link: the agent
    succeeds, the Edge succeeds and the digests agree, all or none; the Edge then knows the exact agent
    id, and neither end consumes anything that was sent after the other's frame.
   */
  lemma HandshakeAgrees(token: Bytes, agentID: Bytes, want: Bytes, digest: Digest, later: Bytes, later2: Bytes)
    requires Credentials(token, agentID).Some?
    ensures var toEdge := Credentials(token, agentID).value + later;
      var edge, answer := Judge(toEdge, want, digest), Verdict(toEdge, want, digest);
      var agent := Accept(answer + later2, AUTH_RESPONSE);
        && (agent.Ok? <==> digest(token) == digest(want))
        && (edge.Ok? <==> digest(token) == digest(want))
        && (edge.Ok? ==> edge.value == agentID)
        && (edge.Err? ==> edge.error == Unauthorized && agent == Err(Rejected))
        && ReadFrom(toEdge).1 == later
        && ReadFrom(answer + later2).1 == later2
  {
    var a := AuthRequest(token, agentID);
    ReadWritten(AUTH_REQUEST, MarshalAuthRequest(a).value, later);
    AuthRequestRoundTrip(a);
    ShortAnswersFit();
    AnswerRead(AUTH_RESPONSE, Answer(true, OK_TEXT), later2);
    AnswerRead(AUTH_RESPONSE, Answer(false, UNAUTHORIZED), later2);
    hide ReadFrom, ParseAuthRequest, MarshalAuthRequest, FrameBytes, Accept, AnswerFrame;
  }

  /**
    Who is banned as a probe: exactly a peer that sends a header with another version or an oversized
    length, or a complete frame that is not an AuthRequest. Ending early or garbling the request is not
    enough.
   */
  lemma ProbeIff(s: Bytes, want: Bytes, digest: Digest, n: nat)
    requires |s| >= 8 ==> BigEndian(s[4..8], n)
    ensures Judge(s, want, digest) == Err(NotTunnelClient)
       <==> |s| >= 8 && (s[0] != 1 || n > 65536 || (s[1] != 1 && |s| >= 8 + n))
  {
    if |s| >= 8 {
      ReadOutcome(s, n);
      hide ReadFrom;
    }
    hide ParseAuthRequest, GetU32, BigEndian;
  }

  /** Opening a data stream: what the Edge writes for `meta`. */
  function OpenRequest(meta: OpenMeta): Option<Bytes> {
    var m := MarshalOpenMeta(meta);
    if m.None? || |m.value| > MAX_PAYLOAD_SIZE then None else Some(FrameBytes(OPEN_STREAM, m.value))
  }

  /** What the Agent reads from a new data stream. */
  function Requested(s: Bytes): Result<OpenMeta> {
    var r := ReadFrom(s).0;
    if !r.Got? then Err(ReadError(r))
    else if r.frame.typ != OPEN_STREAM then Err(Other)
    else
      var meta := ParseOpenMeta(r.frame.payload);
      if meta.None? then Err(Other) else Ok(meta.value)
  }

  /** The stream stays open exactly on success. */
  method OpenData(stream: Stream, meta: OpenMeta) returns (r: Result<()>, open: bool)
    modifies stream
    ensures open == r.Ok?
    ensures var q := OpenRequest(meta);
      if q.None? then r == Err(Other) && stream.output == old(stream.output) && stream.input == old(stream.input)
      else
        && stream.output == old(stream.output) + q.value
        && r == Accept(old(stream.input), OPEN_STREAM_ACK)
        && stream.input == ReadFrom(old(stream.input)).1
  {
    hide ReadFrom, ParseAnswer, MarshalOpenMeta;
    open := false;
    var payload := MarshalOpenMeta(meta);
    if payload.None? {
      return Err(Other), open;
    }
    var sent := WriteFrame(stream, OPEN_STREAM, payload.value);
    if !sent {
      return Err(Other), open;
    }
    var read := ReadFrame(stream);
    if !read.Got? {
      return Err(ReadError(read)), open;
    }
    if read.frame.typ != OPEN_STREAM_ACK {
      return Err(Other), open;
    }
    var ack := ParseAnswer(read.frame.payload);
    if ack.None? {
      return Err(Other), open;
    }
    if !ack.value.ok {
      return Err(Rejected), open;
    }
    open := true;
    return Ok(()), open;
  }

  method AcceptData(stream: Stream) returns (r: Result<OpenMeta>, open: bool)
    modifies stream`input
    ensures r == Requested(old(stream.input)) && open == r.Ok?
    ensures stream.input == ReadFrom(old(stream.input)).1
  {
    hide ReadFrom, ParseOpenMeta;
    var read := ReadFrame(stream);
    if !read.Got? {
      return Err(ReadError(read)), false;
    }
    if read.frame.typ != OPEN_STREAM {
      return Err(Other), false;
    }
    var meta := ParseOpenMeta(read.frame.payload);
    if meta.None? {
      return Err(Other), false;
    }
    return Ok(meta.value), true;
  }

  method AckData(stream: Stream, ok: bool, msg: Bytes) returns (done: bool)
    modifies stream`output
    ensures done == AnswerFrame(OPEN_STREAM_ACK, Answer(ok, msg)).Some?
    ensures stream.output == old(stream.output) + (if done then AnswerFrame(OPEN_STREAM_ACK, Answer(ok, msg)).value else [])
  {
    var payload := MarshalAnswer(Answer(ok, msg));
    if payload.None? {
      return false;
    }
    done := WriteFrame(stream, OPEN_STREAM_ACK, payload.value);
  }

  /** The Agent learns exactly what the Edge asked for, the Edge exactly whether it was accepted. */
  lemma OpenExchange(meta: OpenMeta, ok: bool, msg: Bytes, later: Bytes, later2: Bytes)
    requires OpenRequest(meta).Some? && AnswerFrame(OPEN_STREAM_ACK, Answer(ok, msg)).Some?
    ensures Requested(OpenRequest(meta).value + later) == Ok(meta)
    ensures ReadFrom(OpenRequest(meta).value + later).1 == later
    ensures Accept(AnswerFrame(OPEN_STREAM_ACK, Answer(ok, msg)).value + later2, OPEN_STREAM_ACK)
         == if ok then Ok(()) else Err(Rejected)
    ensures ReadFrom(AnswerFrame(OPEN_STREAM_ACK, Answer(ok, msg)).value + later2).1 == later2
  {
    ReadWritten(OPEN_STREAM, MarshalOpenMeta(meta).value, later);
    OpenMetaRoundTrip(meta);
    AnswerRead(OPEN_STREAM_ACK, Answer(ok, msg), later2);
    hide ReadFrom, ParseOpenMeta, MarshalOpenMeta, FrameBytes, AnswerFrame, Accept;
  }

  /** A stream that begins with a whole frame of type `typ`, and its payload. */
  predicate Begins(s: Bytes, typ: byte, payload: Bytes) {
    |s| >= 8 && s[0] == 1 && s[1] == typ && |payload| <= 65536 && BigEndian(s[4..8], |payload|)
    && |s| >= 8 + |payload| && s[8..8 + |payload|] == payload
  }

  lemma BeginsRead(s: Bytes, typ: byte, payload: Bytes)
    requires Begins(s, typ, payload)
    ensures ReadFrom(s) == (Got(Frame(typ, s[2], payload)), s[8 + |payload|..])
  {
    ReadOutcome(s, |payload|);
    hide ReadFrom;
  }

  lemma ReadBegins(s: Bytes)
    requires ReadFrom(s).0.Got?
    ensures Begins(s, ReadFrom(s).0.frame.typ, ReadFrom(s).0.frame.payload)
  {
    GetU32IsBigEndian(s[4..]);
    assert s[4..][..4] == s[4..8];
    ReadOutcome(s, GetU32(s[4..]));
    hide GetU32;
  }

  /** An end is content with the other's answer exactly if that is a frame of the right type that says so. */
  lemma AcceptIff(s: Bytes, typ: byte)
    ensures Accept(s, typ).Ok? <==>
            exists msg: Bytes :: |msg| < 65536 && Begins(s, typ, [1] + Prefixed(msg))
  {
    if Accept(s, typ).Ok? {
      var p := ReadFrom(s).0.frame.payload;
      ReadBegins(s);
      var a := ParseAnswer(p).value;
      AnswerUnique(p);
      TextLayouts(AuthRequest([], []), a, OpenMeta([], [], [], 0));
      assert |a.message| < 65536;
      assert p[0] == 1;
      assert MarshalAnswer(a).value == p;
      assert Begins(s, typ, [1] + Prefixed(a.message));
    }
    if msg: Bytes :| |msg| < 65536 && Begins(s, typ, [1] + Prefixed(msg)) {
      BeginsRead(s, typ, [1] + Prefixed(msg));
      var a := Answer(true, msg);
      TextLayouts(AuthRequest([], []), a, OpenMeta([], [], [], 0));
      AnswerRoundTrip(a);
    }
  }

  /** The two answers: an AuthResponse is of type 2, an OpenStreamAck of type 4. */
  lemma AcceptedIff(s: Bytes)
    ensures Accept(s, AUTH_RESPONSE).Ok? <==> exists msg: Bytes :: |msg| < 65536 && Begins(s, 2, [1] + Prefixed(msg))
    ensures Accept(s, OPEN_STREAM_ACK).Ok? <==> exists msg: Bytes :: |msg| < 65536 && Begins(s, 4, [1] + Prefixed(msg))
  {
    AcceptIff(s, AUTH_RESPONSE);
    AcceptIff(s, OPEN_STREAM_ACK);
    hide Accept, Begins, Prefixed;
  }

  /** The stream begins with an AuthRequest of this token and agent id. */
  predicate Presents(s: Bytes, token: Bytes, agentID: Bytes) {
    |token| < 65536 && |agentID| < 65536 && Begins(s, 1, Prefixed(token) + Prefixed(agentID))
  }

  /** The Edge lets in exactly the peers whose first frame is an AuthRequest with a token of the right digest. */
  lemma JudgeIff(s: Bytes, want: Bytes, digest: Digest, agentID: Bytes)
    ensures Judge(s, want, digest) == Ok(agentID) <==>
            exists token: Bytes :: Presents(s, token, agentID) && digest(token) == digest(want)
  {
    if Judge(s, want, digest) == Ok(agentID) {
      var p := ReadFrom(s).0.frame.payload;
      ReadBegins(s);
      var a := ParseAuthRequest(p).value;
      AuthRequestUnique(p);
      StringsFit(a, OpenMeta([], [], [], 0));
      TextLayouts(a, Answer(true, []), OpenMeta([], [], [], 0));
      assert Presents(s, a.token, agentID);
    }
    if token: Bytes :| Presents(s, token, agentID) && digest(token) == digest(want) {
      BeginsRead(s, 1, Prefixed(token) + Prefixed(agentID));
      var a := AuthRequest(token, agentID);
      TextLayouts(a, Answer(true, []), OpenMeta([], [], [], 0));
      AuthRequestRoundTrip(a);
    }
  }

  /** A wrong token is one that is there in full and has another digest; nothing else counts as one. */
  lemma UnauthorizedIff(s: Bytes, want: Bytes, digest: Digest)
    ensures Judge(s, want, digest) == Err(Unauthorized) <==>
            exists token: Bytes, agentID: Bytes :: Presents(s, token, agentID) && digest(token) != digest(want)
  {
    if Judge(s, want, digest) == Err(Unauthorized) {
      var p := ReadFrom(s).0.frame.payload;
      ReadBegins(s);
      var a := ParseAuthRequest(p).value;
      AuthRequestUnique(p);
      StringsFit(a, OpenMeta([], [], [], 0));
      TextLayouts(a, Answer(true, []), OpenMeta([], [], [], 0));
      assert Presents(s, a.token, a.agentID);
    }
    if token: Bytes, agentID: Bytes :| Presents(s, token, agentID) && digest(token) != digest(want) {
      BeginsRead(s, 1, Prefixed(token) + Prefixed(agentID));
      var a := AuthRequest(token, agentID);
      TextLayouts(a, Answer(true, []), OpenMeta([], [], [], 0));
      AuthRequestRoundTrip(a);
    }
  }

  /** What the Edge answers, byte for byte: nothing to a peer that sent no whole frame. */
  lemma Answers(s: Bytes, want: Bytes, digest: Digest)
    ensures Verdict(s, want, digest) ==
      if !ReadFrom(s).0.Got? then []
      else if Judge(s, want, digest).Ok? then [1, 2, 0, 0, 0, 0, 0, 5, 1, 0, 2] + Ascii("ok")
      else [1, 2, 0, 0, 0, 0, 0, 15, 0, 0, 12] + Ascii("unauthorized")
  {
    hide ReadFrom, Judge, AnswerFrame, Ascii;
    AnswerLayout(AUTH_RESPONSE, Answer(true, OK_TEXT));
    AnswerLayout(AUTH_RESPONSE, Answer(false, UNAUTHORIZED));
    Texts();
  }

  lemma Texts()
    ensures OK_TEXT == Ascii("ok") && UNAUTHORIZED == Ascii("unauthorized")
  {}

  lemma AnswerLayout(typ: byte, a: Answer)
    requires |a.message| < 250
    ensures AnswerFrame(typ, a)
         == Some([1, typ, 0, 0, 0, 0, 0, 3 + |a.message|, if a.ok then 1 else 0, 0, |a.message|] + a.message)
  {
    hide MarshalAnswer, FrameBytes;
    TextLayouts(AuthRequest([], []), a, OpenMeta([], [], [], 0));
    var p: Bytes := [if a.ok then 1 else 0, 0, |a.message|] + a.message;
    assert [if a.ok then 1 else 0] + Prefixed(a.message) == p;
    FrameLayout(typ, p);
    var n: Bytes := [0, 0, 0, |p|];
    BigEndianUnique(FrameBytes(typ, p)[4..8], n, |p|);
    var b := FrameBytes(typ, p);
    assert b == b[..4] + b[4..8] + b[8..];
    assert AnswerFrame(typ, a) == Some(b);
    hide BigEndian;
    assert b == [1, typ, 0, 0] + n + p;
    assert b == [1, typ, 0, 0, 0, 0, 0, 3 + |a.message|, if a.ok then 1 else 0, 0, |a.message|] + a.message;
  }

  /** The Agent takes a request exactly from an OpenStream frame that carries one. */
  lemma RequestedIff(s: Bytes, o: OpenMeta)
    ensures Requested(s) == Ok(o) <==>
            && |o.name| < 65536 && |o.local| < 65536 && |o.clientAddr| < 65536
            && Begins(s, 3, [o.proto] + Prefixed(o.name) + Prefixed(o.local) + Prefixed(o.clientAddr))
  {
    StringsFit(AuthRequest([], []), o);
    TextLayouts(AuthRequest([], []), Answer(true, []), o);
    if Requested(s) == Ok(o) {
      ReadBegins(s);
      OpenMetaUnique(ReadFrom(s).0.frame.payload);
    }
    if |o.name| < 65536 && |o.local| < 65536 && |o.clientAddr| < 65536
       && Begins(s, 3, [o.proto] + Prefixed(o.name) + Prefixed(o.local) + Prefixed(o.clientAddr)) {
      BeginsRead(s, 3, [o.proto] + Prefixed(o.name) + Prefixed(o.local) + Prefixed(o.clientAddr));
      OpenMetaRoundTrip(o);
    }
    hide ReadFrom, ParseOpenMeta, MarshalOpenMeta, Begins;
  }
}
