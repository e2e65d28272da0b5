/** Finding the first header block of an HTTP/2 connection in what has arrived so far. */
module Http2Peek {
  import opened Options
  import opened Streams
  import opened Wire

  const FRAME_HEADER: nat := 9
  const PREFACE_LEN: nat := 24
  const CHUNK: nat := 2048

  /** "PRI * HTTP/2.0\r\n\r\nSM\r\n\r\n" */
  const PREFACE: Bytes := [0x50, 0x52, 0x49, 0x20, 0x2a, 0x20, 0x48, 0x54, 0x54, 0x50, 0x2f, 0x32,
                           0x2e, 0x30, 0x0d, 0x0a, 0x0d, 0x0a, 0x53, 0x4d, 0x0d, 0x0a, 0x0d, 0x0a]

  const HEADERS: byte := 0x1
  const CONTINUATION: byte := 0x9

  predicate Flag(flags: byte, bit: nat)
    requires bit > 0
  {
    flags / bit % 2 == 1
  }

  predicate EndHeaders(flags: byte) { Flag(flags, 0x4) }
  predicate Padded(flags: byte) { Flag(flags, 0x8) }
  predicate Priority(flags: byte) { Flag(flags, 0x20) }

  /** The length field of a frame (section 4.1 of RFC 9113). */
  function PayloadLen(b: Bytes): nat
    requires |b| >= FRAME_HEADER
  {
    b[0] * 0x1_0000 + GetU16(b[1..])
  }

  /** The first frame is there in full. */
  predicate Whole(b: Bytes) {
    |b| >= FRAME_HEADER && |b| >= FRAME_HEADER + PayloadLen(b)
  }

  /** The field block fragment of a HEADERS frame (section 6.2 of RFC 9113). */
  function HeadersFragment(payload: Bytes, flags: byte): Option<Bytes> {
    var unpadded :=
      if !Padded(flags) then Some(payload)
      else if |payload| < 1 then None
      else
        var pad: nat, rest := payload[0], payload[1..];
        if pad > |rest| then None else Some(rest[..|rest| - pad]);
    if unpadded.None? || !Priority(flags) then unpadded
    else if |unpadded.value| < 5 then None
    else Some(unpadded.value[5..])
  }

  /** `Block` carries the header block and how many bytes it takes to its last frame's end. */
  datatype Scanned = More | Malformed | Block(block: Bytes, used: nat)

  function Past(s: Scanned, n: nat): Scanned {
    if s.Block? then s.(used := s.used + n) else s
  }

  /** One frame: what it makes of the block collected so far, and whether the block has ended. */
  datatype Absorbed = Refused | Absorbed(block: Bytes, inHeaders: bool, ended: bool)

  function Absorb(typ: byte, flags: byte, payload: Bytes, block: Bytes, inHeaders: bool): Absorbed {
    if typ == HEADERS then
      if inHeaders then Refused
      else
        var frag := HeadersFragment(payload, flags);
        if frag.None? then Refused else Absorbed(block + frag.value, true, EndHeaders(flags))
    else if typ == CONTINUATION then
      if !inHeaders then Refused else Absorbed(block + payload, true, EndHeaders(flags))
    else if inHeaders then Refused
    else Absorbed(block, false, false)
  }

  /** The frames in `b`, after `block` has been collected. */
  function Scan(b: Bytes, block: Bytes, inHeaders: bool): Scanned
    decreases |b|
  {
    if !Whole(b) then More
    else
      var end := FRAME_HEADER + PayloadLen(b);
      var a := Absorb(b[3], b[4], b[FRAME_HEADER..end], block, inHeaders);
      if a.Refused? then Malformed
      else if a.ended then Block(a.block, end)
      else Past(Scan(b[end..], a.block, a.inHeaders), end)
  }

  datatype Outcome = Found(block: Bytes) | Bad | TooLarge | Incomplete

  /** Where scanning stands: everything before `off` has been absorbed. */
  ghost predicate Stands(all: Bytes, off: nat, block: Bytes, inHeaders: bool) {
    && PREFACE_LEN <= off <= |all|
    && Scan(all[PREFACE_LEN..], [], false) == Past(Scan(all[off..], block, inHeaders), off - PREFACE_LEN)
  }

  lemma WholeInMore(raw: Bytes, all: Bytes, off: nat)
    requires raw <= all && off <= |raw|
    ensures Whole(raw[off..]) ==>
              Whole(all[off..]) && PayloadLen(raw[off..]) == PayloadLen(all[off..])
    ensures Whole(all[off..]) && !Whole(raw[off..]) ==> off + FRAME_HEADER + PayloadLen(all[off..]) > |raw|
  {
    if |raw| - off >= FRAME_HEADER {
      forall i | 0 <= i < 3 ensures raw[off..][i] == all[off..][i] {}
      assert raw[off..][1..][0] == all[off..][1..][0] && raw[off..][1..][1] == all[off..][1..][1];
    }
  }

  lemma StandsFurther(all: Bytes, off: nat, block: Bytes, inHeaders: bool)
    requires Stands(all, off, block, inHeaders) && Whole(all[off..])
    ensures var b := all[off..];
      var end := off + FRAME_HEADER + PayloadLen(b);
      var a := Absorb(b[3], b[4], b[FRAME_HEADER..FRAME_HEADER + PayloadLen(b)], block, inHeaders);
      && end <= |all|
      && (a.Refused? ==> Scan(all[PREFACE_LEN..], [], false) == Malformed)
      && (a.Absorbed? && a.ended ==> Scan(all[PREFACE_LEN..], [], false) == Block(a.block, end - PREFACE_LEN))
      && (a.Absorbed? && !a.ended ==> Stands(all, end, a.block, a.inHeaders))
  {
    var b := all[off..];
    var n := FRAME_HEADER + PayloadLen(b);
    assert b[n..] == all[off + n..];
    hide Absorb, PayloadLen;
  }

  /** The frames that `raw` holds in full, from `off` on; `all` is the stream that `raw` begins. */
  method ScanFrames(raw: Bytes, from: nat, collected: Bytes, inside: bool, ghost all: Bytes)
    returns (r: Option<Outcome>, off: nat, block: Bytes, inHeaders: bool)
    requires raw <= all && from <= |raw| && Stands(all, from, collected, inside)
    ensures off <= |raw|
    ensures r.None? ==> Stands(all, off, block, inHeaders) && !Whole(raw[off..])
    ensures r.Some? ==>
      var s := Scan(all[PREFACE_LEN..], [], false);
      match r.value
      case Found(found) => s.Block? && s.block == found && PREFACE_LEN + s.used <= |raw|
      case Bad => s == Malformed
      case _ => false
  {
    off, block, inHeaders := from, collected, inside;
    while Whole(raw[off..])
      invariant off <= |raw| && Stands(all, off, block, inHeaders)
      decreases |raw| - off
    {
      var b := raw[off..];
      var n := PayloadLen(b);
      var end := off + FRAME_HEADER + n;
      WholeInMore(raw, all, off);
      StandsFurther(all, off, block, inHeaders);
      var typ, flags := raw[off + 3], raw[off + 4];
      var payload := raw[off + FRAME_HEADER..end];
      assert all[off..][3] == typ && all[off..][4] == flags;
      assert payload == all[off..][FRAME_HEADER..FRAME_HEADER + n];
      ghost var a := Absorb(typ, flags, payload, block, inHeaders);
      hide Stands, Scan, Whole, PayloadLen, HeadersFragment;
      off := end;
      if typ == HEADERS {
        if inHeaders {
          return Some(Bad), off, block, inHeaders;
        }
        var frag := HeadersFragment(payload, flags);
        if frag.None? {
          return Some(Bad), off, block, inHeaders;
        }
        block, inHeaders := block + frag.value, true;
        if EndHeaders(flags) {
          return Some(Found(block)), off, block, inHeaders;
        }
      } else if typ == CONTINUATION {
        if !inHeaders {
          return Some(Bad), off, block, inHeaders;
        }
        block := block + payload;
        if EndHeaders(flags) {
          return Some(Found(block)), off, block, inHeaders;
        }
      } else if inHeaders {
        return Some(Bad), off, block, inHeaders;
      }
    }
    r := None;
  }

  /** Nothing more can be found in what was read: the next frame is not there yet. */
  lemma NotYet(raw: Bytes, all: Bytes, off: nat, block: Bytes, inHeaders: bool)
    requires raw <= all && off <= |raw| && Stands(all, off, block, inHeaders) && !Whole(raw[off..])
    ensures var s := Scan(all[PREFACE_LEN..], [], false); s.Block? ==> PREFACE_LEN + s.used > |raw|
    ensures raw == all ==> Scan(all[PREFACE_LEN..], [], false) == More
  {
    WholeInMore(raw, all, off);
    ScanUses(all[off..], block, inHeaders);
    hide Whole;
  }

  lemma ScanUses(b: Bytes, block: Bytes, inHeaders: bool)
    ensures var s := Scan(b, block, inHeaders);
      s.Block? ==> Whole(b) && s.used >= FRAME_HEADER + PayloadLen(b)
    ensures !Whole(b) ==> Scan(b, block, inHeaders) == More
  {}

  /**
    Reads until the first header block is complete. However the bytes arrive: a block that is complete
    within the first 64 KiB is found, and nothing is consumed but what is in `raw`.
   */
  method FindBlock(r: Stream, buf: Bytes) returns (outcome: Outcome, raw: Bytes)
    requires |buf| >= PREFACE_LEN
    modifies r`input
    ensures raw + r.input == buf + old(r.input) && buf <= raw
    ensures |raw| <= |buf| || |raw| <= MAX_PEEK_BYTES + CHUNK
    ensures var s := Scan((buf + old(r.input))[PREFACE_LEN..], [], false);
      && (s.Block? && PREFACE_LEN + s.used <= MAX_PEEK_BYTES ==> outcome == Found(s.block))
      && match outcome
         case Found(block) => s.Block? && s.block == block && PREFACE_LEN + s.used <= |raw|
         case Bad => s == Malformed
         case TooLarge => |raw| > MAX_PEEK_BYTES
         case Incomplete => s == More && r.input == []
  {
    raw := buf;
    ghost var all := buf + r.input;
    var off: nat, block, inHeaders := PREFACE_LEN, [], false;
    while true
      invariant raw + r.input == all && buf <= raw && off <= |raw|
      invariant |raw| <= |buf| || |raw| <= MAX_PEEK_BYTES + CHUNK
      invariant Stands(all, off, block, inHeaders)
      decreases |r.input|
    {
      hide Stands, Scan, Whole;
      assert raw <= all;
      var found;
      found, off, block, inHeaders := ScanFrames(raw, off, block, inHeaders, all);
      if found.Some? {
        return found.value, raw;
      }
      NotYet(raw, all, off, block, inHeaders);
      if |raw| > MAX_PEEK_BYTES {
        return TooLarge, raw;
      }
      var chunk := r.Read(CHUNK);
      if chunk == [] {
        return Incomplete, raw;
      }
      raw := raw + chunk;
    }
  }
}
