/** The frames of the tunnel protocol, and reading and writing them on a stream. */
module TunnelFrames {
  import opened Options
  import opened Streams
  import opened Wire

  const VERSION: byte := 1
  const HEADER_SIZE: nat := 8
  const MAX_PAYLOAD_SIZE: nat := 64 * 1024

  const AUTH_REQUEST: byte := 1
  const AUTH_RESPONSE: byte := 2
  const OPEN_STREAM: byte := 3
  const OPEN_STREAM_ACK: byte := 4

  datatype Frame = Frame(typ: byte, flags: byte, payload: Bytes)

  /** What reading a frame can come to; `Short` means that the stream ended. */
  datatype Read = Got(frame: Frame) | NotTunnel | Short

  /** What WriteFrame puts on the stream. */
  function FrameBytes(typ: byte, payload: Bytes): Bytes
    requires |payload| <= MAX_PAYLOAD_SIZE
  {
    [VERSION, typ, 0, 0] + U32(|payload|) + payload
  }

  /** What ReadFrame makes of a stream that holds `s` and then ends, and what it leaves. */
  function ReadFrom(s: Bytes): (Read, Bytes) {
    if |s| < HEADER_SIZE then (Short, [])
    else if s[0] != VERSION || GetU32(s[4..]) > MAX_PAYLOAD_SIZE then (NotTunnel, s[HEADER_SIZE..])
    else
      var end := HEADER_SIZE + GetU32(s[4..]);
      if |s| < end then (Short, []) else (Got(Frame(s[1], s[2], s[HEADER_SIZE..end])), s[end..])
  }

  /** A written frame is read back, and what follows it is left alone. */
  lemma ReadWritten(typ: byte, payload: Bytes, rest: Bytes)
    requires |payload| <= MAX_PAYLOAD_SIZE
    ensures ReadFrom(FrameBytes(typ, payload) + rest) == (Got(Frame(typ, 0, payload)), rest)
  {
    var s := FrameBytes(typ, payload) + rest;
    assert s[4..][..4] == U32(|payload|);
    assert GetU32(s[4..]) == |payload| by { SameU32(s[4..], U32(|payload|)); }
    assert s[HEADER_SIZE..HEADER_SIZE + |payload|] == payload;
    assert s[HEADER_SIZE + |payload|..] == rest;
  }

  lemma SameU32(a: Bytes, b: Bytes)
    requires |a| >= 4 && |b| == 4 && a[..4] == b
    ensures GetU32(a) == GetU32(b)
  {
    assert a[0] == a[..4][0] && a[1] == a[..4][1] && a[2] == a[..4][2] && a[3] == a[..4][3];
    assert a[2..][0] == b[2..][0] && a[2..][1] == b[2..][1];
  }

  /** An accepted frame is what WriteFrame would have written, exactly when its two spare bytes are zero. */
  lemma WrittenAsRead(s: Bytes)
    requires ReadFrom(s).0.Got?
    ensures |ReadFrom(s).0.frame.payload| <= MAX_PAYLOAD_SIZE
    ensures s == FrameBytes(ReadFrom(s).0.frame.typ, ReadFrom(s).0.frame.payload) + ReadFrom(s).1
       <==> s[2] == 0 && s[3] == 0
  {
    var (r, rest) := ReadFrom(s);
    var payload := r.frame.payload;
    U32Of(s[4..]);
    var w := FrameBytes(r.frame.typ, payload) + rest;
    assert s == s[..4] + s[4..8] + s[8..8 + |payload|] + s[8 + |payload|..];
    assert s[4..][..4] == s[4..8];
    assert w == [VERSION, r.frame.typ, 0, 0] + s[4..8] + payload + rest;
    assert s[..4] == [s[0], s[1], s[2], s[3]];
    assert w[2] == 0 && w[3] == 0;
  }

  /** Several frames, one after the other. */
  function Written(frames: seq<(byte, Bytes)>): Bytes
    requires forall f :: f in frames ==> |f.1| <= MAX_PAYLOAD_SIZE
  {
    if frames == [] then [] else FrameBytes(frames[0].0, frames[0].1) + Written(frames[1..])
  }

  /** The next `n` frames of a stream, or None if one of them cannot be read. */
  function ReadMany(s: Bytes, n: nat): Option<(seq<Frame>, Bytes)> {
    if n == 0 then Some(([], s))
    else
      var (r, rest) := ReadFrom(s);
      if !r.Got? then None
      else
        var more := ReadMany(rest, n - 1);
        if more.None? then None else Some(([r.frame] + more.value.0, more.value.1))
  }

  /** Any frames written in a row are read back in order, and exactly the rest is left. */
  lemma {:induction false} ReadManyWritten(frames: seq<(byte, Bytes)>, rest: Bytes)
    requires forall f :: f in frames ==> |f.1| <= MAX_PAYLOAD_SIZE
    ensures ReadMany(Written(frames) + rest, |frames|)
         == Some((AsRead(frames), rest))
  {
    if frames == [] {
      assert [] + rest == rest && AsRead(frames) == [];
    } else {
      WrittenHead(frames, rest);
      AsReadHead(frames);
      hide *;
      var tail := frames[1..];
      ReadWritten(frames[0].0, frames[0].1, Written(tail) + rest);
      ReadManyWritten(tail, rest);
      ReadManyNext(Written(frames) + rest, |frames|, Frame(frames[0].0, 0, frames[0].1), Written(tail) + rest);
    }
  }

  lemma WrittenHead(frames: seq<(byte, Bytes)>, rest: Bytes)
    requires frames != [] && forall f :: f in frames ==> |f.1| <= MAX_PAYLOAD_SIZE
    ensures |frames[0].1| <= MAX_PAYLOAD_SIZE && forall f :: f in frames[1..] ==> |f.1| <= MAX_PAYLOAD_SIZE
    ensures Written(frames) + rest == FrameBytes(frames[0].0, frames[0].1) + (Written(frames[1..]) + rest)
  {
    assert frames[0] in frames;
    hide FrameBytes;
  }

  lemma ReadManyNext(s: Bytes, n: nat, f: Frame, rest: Bytes)
    requires n > 0 && ReadFrom(s) == (Got(f), rest) && ReadMany(rest, n - 1).Some?
    ensures ReadMany(s, n) == Some(([f] + ReadMany(rest, n - 1).value.0, ReadMany(rest, n - 1).value.1))
  {
    hide ReadFrom;
  }

  /** The frames as a reader sees them, with no flags set. */
  function AsRead(frames: seq<(byte, Bytes)>): seq<Frame> {
    seq(|frames|, i requires 0 <= i < |frames| => Frame(frames[i].0, 0, frames[i].1))
  }

  lemma AsReadHead(frames: seq<(byte, Bytes)>)
    requires frames != []
    ensures AsRead(frames) == [Frame(frames[0].0, 0, frames[0].1)] + AsRead(frames[1..])
  {}

  /** No frame is the beginning of another: a reader never mistakes where a frame ends. */
  lemma FramesArePrefixFree(t: byte, p: Bytes, u: byte, q: Bytes)
    requires |p| <= MAX_PAYLOAD_SIZE && |q| <= MAX_PAYLOAD_SIZE && FrameBytes(t, p) <= FrameBytes(u, q)
    ensures t == u && p == q
  {
    var a, b := FrameBytes(t, p), FrameBytes(u, q);
    ReadWritten(t, p, b[|a|..]);
    ReadWritten(u, q, []);
    assert a + b[|a|..] == b && b + [] == b;
  }

  method WriteFrame(conn: Stream, typ: byte, payload: Bytes) returns (ok: bool)
    modifies conn`output
    ensures ok == (|payload| <= MAX_PAYLOAD_SIZE)
    ensures conn.output == old(conn.output) + (if ok then FrameBytes(typ, payload) else [])
  {
    if |payload| > MAX_PAYLOAD_SIZE {
      return false;
    }
    var hdr: Bytes := [VERSION, typ, 0, 0] + U32(|payload|);
    conn.Write(hdr);
    if |payload| == 0 {
      return true;
    }
    conn.Write(payload);
    return true;
  }

  method ReadFrame(conn: Stream) returns (r: Read)
    modifies conn`input
    ensures (r, conn.input) == ReadFrom(old(conn.input))
  {
    var ok, hdr := conn.ReadFull(HEADER_SIZE);
    if !ok {
      return Short;
    }
    ghost var s := old(conn.input);
    assert hdr[4..][..4] == s[4..][..4];
    assert GetU32(s[4..]) == GetU32(hdr[4..]) by { SameU32(s[4..], hdr[4..]); }
    if hdr[0] != VERSION {
      return NotTunnel;
    }
    var n := GetU32(hdr[4..]);
    if n > MAX_PAYLOAD_SIZE {
      return NotTunnel;
    }
    var end := HEADER_SIZE + n;
    assert conn.input == s[HEADER_SIZE..];
    if n == 0 {
      assert s[HEADER_SIZE..end] == [];
      return Got(Frame(hdr[1], hdr[2], []));
    }
    var payload;
    ok, payload := conn.ReadFull(n);
    if !ok {
      return Short;
    }
    assert payload == s[HEADER_SIZE..end] && conn.input == s[end..];
    return Got(Frame(hdr[1], hdr[2], payload));
  }

  /** A frame on the wire: version, type, two zero bytes, the length of the payload, the payload. */
  lemma FrameLayout(typ: byte, payload: Bytes)
    requires |payload| <= 65536
    ensures var b := FrameBytes(typ, payload);
      |b| == 8 + |payload| && b[..4] == [1, typ, 0, 0] && BigEndian(b[4..8], |payload|) && b[8..] == payload
  {
    U32IsBigEndian(|payload|);
    hide U32;
    var b := FrameBytes(typ, payload);
    assert b[4..8] == U32(|payload|);
  }

  /** What makes a header unacceptable, when a frame is there, and what is then read and left. */
  lemma ReadOutcome(s: Bytes, n: nat)
    requires |s| >= 8 && BigEndian(s[4..8], n)
    ensures var (r, rest) := ReadFrom(s);
      && (r == NotTunnel <==> s[0] != 1 || n > 65536)
      && (r == Short <==> s[0] == 1 && n <= 65536 && |s| < 8 + n)
      && (r.Got? ==> r.frame == Frame(s[1], s[2], s[8..8 + n]))
      && rest == if r.Got? then s[8 + n..] else if r == Short then [] else s[8..]
  {
    GetU32IsBigEndian(s[4..]);
    assert s[4..][..4] == s[4..8];
    hide GetU32;
  }
}
