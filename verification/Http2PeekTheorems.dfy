/** Any legal way of sending a header block over HTTP/2 is put back together to exactly that block. */
module Http2PeekTheorems {
  import opened Options
  import opened Wire
  import opened Http2Peek

  /** A frame as it goes over the wire; `stream` is its four-byte stream identifier. */
  datatype Frame = Frame(typ: byte, flags: byte, stream: Bytes, payload: Bytes)

  predicate Sendable(f: Frame) {
    |f.stream| == 4 && |f.payload| < 0x100_0000
  }

  function FrameBytes(f: Frame): Bytes
    requires Sendable(f)
  {
    [|f.payload| / 0x1_0000] + U16(|f.payload| % 0x1_0000) + [f.typ, f.flags] + f.stream + f.payload
  }

  function Sent(fs: seq<Frame>): Bytes
    requires forall f :: f in fs ==> Sendable(f)
  {
    if fs == [] then [] else FrameBytes(fs[0]) + Sent(fs[1..])
  }

  lemma FirstFrame(f: Frame, rest: Bytes)
    requires Sendable(f)
    ensures var b := FrameBytes(f) + rest;
      && Whole(b) && PayloadLen(b) == |f.payload| && b[3] == f.typ && b[4] == f.flags
      && b[FRAME_HEADER..FRAME_HEADER + |f.payload|] == f.payload
      && b[FRAME_HEADER + |f.payload|..] == rest
  {
    var n := |f.payload|;
    var b := FrameBytes(f) + rest;
    assert b[1..][0] == U16(n % 0x1_0000)[0] && b[1..][1] == U16(n % 0x1_0000)[1];
    assert GetU16(b[1..]) == n % 0x1_0000 && b[0] == n / 0x1_0000;
    hide U16, GetU16;
    assert FrameBytes(f) == FrameBytes(f)[..FRAME_HEADER] + f.payload;
    assert b[FRAME_HEADER..FRAME_HEADER + n] == f.payload;
    assert b[FRAME_HEADER + n..] == rest;
  }

  lemma ScanFirst(f: Frame, rest: Bytes, block: Bytes, inHeaders: bool)
    requires Sendable(f)
    ensures var a := Absorb(f.typ, f.flags, f.payload, block, inHeaders);
      Scan(FrameBytes(f) + rest, block, inHeaders) ==
        if a.Refused? then Malformed
        else if a.ended then Block(a.block, |FrameBytes(f)|)
        else Past(Scan(rest, a.block, a.inHeaders), |FrameBytes(f)|)
  {
    FirstFrame(f, rest);
    assert |FrameBytes(f)| == FRAME_HEADER + |f.payload|;
    hide FrameBytes, Absorb, PayloadLen, Whole;
  }

  /** The END_HEADERS, PADDED and PRIORITY bits of a HEADERS or CONTINUATION frame: the third, fourth and sixth. */
  predicate Ends(flags: byte) { flags % 8 >= 4 }
  predicate Pads(flags: byte) { flags % 16 >= 8 }
  predicate Prioritizes(flags: byte) { flags % 64 >= 32 }

  lemma FlagBits(flags: byte)
    ensures EndHeaders(flags) == Ends(flags) && Padded(flags) == Pads(flags) && Priority(flags) == Prioritizes(flags)
  {
    var n: nat := flags;
    ThirdBit(n);
    FourthBit(n);
    SixthBit(n);
  }

  lemma ThirdBit(n: nat)
    ensures n / 4 % 2 == 1 <==> n % 8 >= 4
  {}

  lemma FourthBit(n: nat)
    ensures n / 8 % 2 == 1 <==> n % 16 >= 8
  {}

  lemma SixthBit(n: nat)
    ensures n / 32 % 2 == 1 <==> n % 64 >= 32
  {}

  /** How a HEADERS frame may carry its fragment: padded or not, with priority fields or not. */
  datatype Wrapping = Wrapping(padding: Option<Bytes>, priority: Option<Bytes>)

  predicate Legal(w: Wrapping) {
    && (w.padding.Some? ==> |w.padding.value| < 0x100)
    && (w.priority.Some? ==> |w.priority.value| == 5)
  }

  function Wrapped(w: Wrapping, frag: Bytes): Bytes
    requires Legal(w)
  {
    (if w.padding.Some? then [|w.padding.value|] else [])
    + (if w.priority.Some? then w.priority.value else [])
    + frag
    + (if w.padding.Some? then w.padding.value else [])
  }

  /** Padding and priority fields are taken off exactly. */
  lemma Unwraps(w: Wrapping, frag: Bytes, flags: byte)
    requires Legal(w) && Pads(flags) == w.padding.Some? && Prioritizes(flags) == w.priority.Some?
    ensures HeadersFragment(Wrapped(w, frag), flags) == Some(frag)
  {
    FlagBits(flags);
    hide Padded, Priority, Pads, Prioritizes;
    var prio := if w.priority.Some? then w.priority.value else [];
    if w.padding.Some? {
      var pad := w.padding.value;
      var p := Wrapped(w, frag);
      assert p[1..] == prio + frag + pad;
      assert p[1..][..|p[1..]| - |pad|] == prio + frag;
    } else {
      assert Wrapped(w, frag) == prio + frag;
    }
    assert (prio + frag)[|prio|..] == frag;
  }

  /** Frames that carry no part of a header block. */
  predicate Unrelated(fs: seq<Frame>) {
    forall f :: f in fs ==> f.typ != 0x1 && f.typ != 0x9
  }

  lemma SentHead(fs: seq<Frame>, rest: Bytes)
    requires fs != [] && forall f :: f in fs ==> Sendable(f)
    ensures Sent(fs) + rest == FrameBytes(fs[0]) + (Sent(fs[1..]) + rest)
    ensures |Sent(fs)| == |FrameBytes(fs[0])| + |Sent(fs[1..])|
  {
    var a, b := FrameBytes(fs[0]), Sent(fs[1..]);
    assert Sent(fs) == a + b;
    hide *;
    assert a + b + rest == a + (b + rest);
  }

  lemma {:induction false} SkipUnrelated(fs: seq<Frame>, rest: Bytes)
    requires Unrelated(fs) && forall f :: f in fs ==> Sendable(f)
    ensures Scan(Sent(fs) + rest, [], false) == Past(Scan(rest, [], false), |Sent(fs)|)
  {
    if fs == [] {
      assert Sent(fs) + rest == rest;
    } else {
      var f, tail := fs[0], fs[1..];
      SentHead(fs, rest);
      ScanFirst(f, Sent(tail) + rest, [], false);
      SkipUnrelated(tail, rest);
      hide Scan, FrameBytes, Sent, Sendable;
    }
  }

  /** CONTINUATION frames of which the last, and only it, ends the block (section 6.10 of RFC 9113). */
  predicate Continues(fs: seq<Frame>) {
    && (forall f :: f in fs ==> Sendable(f) && f.typ == 0x9)
    && (forall i :: 0 <= i < |fs| ==> (Ends(fs[i].flags) <==> i == |fs| - 1))
  }

  function Payloads(fs: seq<Frame>): Bytes {
    if fs == [] then [] else fs[0].payload + Payloads(fs[1..])
  }

  lemma ContinuesTail(fs: seq<Frame>)
    requires Continues(fs) && fs != []
    ensures Sendable(fs[0]) && fs[0].typ == 0x9 && (Ends(fs[0].flags) <==> fs[1..] == [])
    ensures Continues(fs[1..]) && forall f :: f in fs ==> Sendable(f)
  {
    hide Ends;
    assert fs[0] in fs;
    forall i | 0 <= i < |fs| - 1 ensures Ends(fs[1..][i].flags) <==> i == |fs| - 2 {
      assert fs[1..][i] == fs[i + 1];
    }
  }

  lemma OneContinuation(f: Frame, rest: Bytes, block: Bytes)
    requires Sendable(f) && f.typ == 0x9
    ensures Scan(FrameBytes(f) + rest, block, true) ==
              if Ends(f.flags) then Block(block + f.payload, |FrameBytes(f)|)
              else Past(Scan(rest, block + f.payload, true), |FrameBytes(f)|)
  {
    ScanFirst(f, rest, block, true);
    FlagBits(f.flags);
    hide Scan, FrameBytes, EndHeaders, Ends;
  }

  lemma {:induction false} ScanContinuations(fs: seq<Frame>, rest: Bytes, block: Bytes)
    requires Continues(fs) && fs != []
    ensures Scan(Sent(fs) + rest, block, true) == Block(block + Payloads(fs), |Sent(fs)|)
  {
    hide *;
    ContinuesTail(fs);
    ScanOne(fs, rest, block);
    if fs[1..] != [] {
      ScanContinuations(fs[1..], rest, block + fs[0].payload);
      PastBlock(block + fs[0].payload + Payloads(fs[1..]), |Sent(fs[1..])|, |FrameBytes(fs[0])|);
    }
  }

  lemma ScanOne(fs: seq<Frame>, rest: Bytes, block: Bytes)
    requires Continues(fs) && fs != [] && Sendable(fs[0]) && Continues(fs[1..])
    requires (forall f :: f in fs ==> Sendable(f)) && forall f :: f in fs[1..] ==> Sendable(f)
    ensures |Sent(fs)| == |FrameBytes(fs[0])| + |Sent(fs[1..])|
    ensures block + Payloads(fs) == block + fs[0].payload + Payloads(fs[1..])
    ensures Scan(Sent(fs) + rest, block, true)
         == if fs[1..] == [] then Block(block + Payloads(fs), |Sent(fs)|)
            else Past(Scan(Sent(fs[1..]) + rest, block + fs[0].payload, true), |FrameBytes(fs[0])|)
  {
    hide *;
    ContinuesTail(fs);
    SentNone(fs[1..], block + fs[0].payload);
    SentHead(fs, rest);
    OneContinuation(fs[0], Sent(fs[1..]) + rest, block);
    PayloadsHead(block, fs);
  }

  lemma SentNone(fs: seq<Frame>, block: Bytes)
    requires Continues(fs)
    ensures (forall f :: f in fs ==> Sendable(f)) && (fs == [] ==> |Sent(fs)| == 0 && block + Payloads(fs) == block)
  {
    hide Ends;
  }

  lemma PastBlock(block: Bytes, used: nat, n: nat)
    ensures Past(Block(block, used), n) == Block(block, used + n)
  {}

  lemma PayloadsHead(block: Bytes, fs: seq<Frame>)
    requires fs != []
    ensures block + Payloads(fs) == block + fs[0].payload + Payloads(fs[1..])
  {
    var a, b := fs[0].payload, Payloads(fs[1..]);
    assert Payloads(fs) == a + b;
    hide *;
    assert block + (a + b) == block + a + b;
  }

  /**
    A legal way of sending a header block: frames of other kinds, a HEADERS frame whose payload wraps
    `frag`, and CONTINUATION frames, with END_HEADERS on the last frame of the block only.
   */
  predicate LegalRequest(before: seq<Frame>, head: Frame, w: Wrapping, frag: Bytes, conts: seq<Frame>) {
    && Unrelated(before) && (forall f :: f in before ==> Sendable(f))
    && Sendable(head) && head.typ == 0x1 && Legal(w) && head.payload == Wrapped(w, frag)
    && Pads(head.flags) == w.padding.Some? && Prioritizes(head.flags) == w.priority.Some?
    && Continues(conts) && (Ends(head.flags) <==> conts == [])
  }

  function RequestBytes(before: seq<Frame>, head: Frame, w: Wrapping, frag: Bytes, conts: seq<Frame>): Bytes
    requires LegalRequest(before, head, w, frag, conts)
  {
    Sent(before) + FrameBytes(head) + Sent(conts)
  }

  /** What comes out is the concatenated fragments, and they take up exactly those frames. */
  lemma BlockReassembled(before: seq<Frame>, head: Frame, w: Wrapping, frag: Bytes, conts: seq<Frame>, rest: Bytes)
    requires LegalRequest(before, head, w, frag, conts)
    ensures Scan(RequestBytes(before, head, w, frag, conts) + rest, [], false)
         == Block(frag + Payloads(conts), |RequestBytes(before, head, w, frag, conts)|)
  {
    LegalParts(before, head, w, frag, conts);
    hide *;
    Regroup(Sent(before), FrameBytes(head), Sent(conts), rest);
    SkipUnrelated(before, FrameBytes(head) + (Sent(conts) + rest));
    HeadThenContinuations(head, w, frag, conts, rest);
    PastBlock(frag + Payloads(conts), |FrameBytes(head)| + |Sent(conts)|, |Sent(before)|);
  }

  lemma LegalParts(before: seq<Frame>, head: Frame, w: Wrapping, frag: Bytes, conts: seq<Frame>)
    requires LegalRequest(before, head, w, frag, conts)
    ensures LegalRequest([], head, w, frag, conts) && Unrelated(before) && Sendable(head)
    ensures (forall f :: f in before ==> Sendable(f)) && (forall f :: f in conts ==> Sendable(f))
    ensures RequestBytes(before, head, w, frag, conts) == Sent(before) + FrameBytes(head) + Sent(conts)
  {
    hide FrameBytes, Sent, Wrapped, Ends, Pads, Prioritizes, Legal;
  }

  lemma Regroup(a: Bytes, b: Bytes, c: Bytes, d: Bytes)
    ensures a + b + c + d == a + (b + (c + d))
  {}

  lemma HeadThenContinuations(head: Frame, w: Wrapping, frag: Bytes, conts: seq<Frame>, rest: Bytes)
    requires LegalRequest([], head, w, frag, conts)
    ensures Scan(FrameBytes(head) + (Sent(conts) + rest), [], false)
         == Block(frag + Payloads(conts), |FrameBytes(head)| + |Sent(conts)|)
  {
    ScanFirst(head, Sent(conts) + rest, [], false);
    Unwraps(w, frag, head.flags);
    FlagBits(head.flags);
    hide Scan, FrameBytes, Wrapped, HeadersFragment, EndHeaders, Padded, Priority, Ends, Pads, Prioritizes;
    assert [] + frag == frag;
    if conts == [] {
      assert frag + Payloads(conts) == frag;
    } else {
      hide Sent, Payloads;
      ScanContinuations(conts, rest, frag);
    }
  }

  /** A frame that was read. */
  lemma ReadFrame(b: Bytes) returns (f: Frame)
    requires Whole(b)
    ensures Sendable(f) && b == FrameBytes(f) + b[FRAME_HEADER + PayloadLen(b)..]
    ensures |FrameBytes(f)| == FRAME_HEADER + PayloadLen(b) && f.typ == b[3] && f.flags == b[4]
    ensures f.payload == b[FRAME_HEADER..FRAME_HEADER + PayloadLen(b)]
  {
    var n := PayloadLen(b);
    f := Frame(b[3], b[4], b[5..9], b[9..9 + n]);
    U16Of(b[1..]);
    assert b[1..][..2] == b[1..3];
    assert n == b[0] * 0x1_0000 + GetU16(b[1..]);
    assert n / 0x1_0000 == b[0] && n % 0x1_0000 == GetU16(b[1..]);
    hide U16, GetU16, PayloadLen, Whole;
    assert b == [b[0]] + b[1..3] + [b[3], b[4]] + b[5..9] + b[9..9 + n] + b[9 + n..];
  }

  /** What was taken off a HEADERS payload were its padding and its priority fields. */
  lemma Unwrapped(payload: Bytes, flags: byte) returns (w: Wrapping, frag: Bytes)
    requires HeadersFragment(payload, flags).Some?
    ensures HeadersFragment(payload, flags) == Some(frag) && Legal(w) && payload == Wrapped(w, frag)
    ensures Pads(flags) == w.padding.Some? && Prioritizes(flags) == w.priority.Some?
  {
    FlagBits(flags);
    hide Padded, Priority, Pads, Prioritizes;
    var pad: nat := if Padded(flags) then payload[0] else 0;
    var inner := if Padded(flags) then payload[1..|payload| - pad] else payload;
    frag := if Priority(flags) then inner[5..] else inner;
    w := Wrapping(if Padded(flags) then Some(payload[|payload| - pad..]) else None,
                  if Priority(flags) then Some(inner[..5]) else None);
    assert Padded(flags) ==> payload[1..][..|payload[1..]| - pad] == inner && payload == [payload[0]] + inner + payload[|payload| - pad..];
    assert Priority(flags) ==> inner == inner[..5] + frag;
  }

  lemma {:induction false} ContinuationsSound(b: Bytes, block: Bytes) returns (conts: seq<Frame>, rest: Bytes)
    requires Scan(b, block, true).Block?
    ensures Continues(conts) && conts != [] && b == Sent(conts) + rest
    ensures Scan(b, block, true) == Block(block + Payloads(conts), |Sent(conts)|)
    decreases |b|
  {
    var f := ReadFrame(b);
    var tail := b[FRAME_HEADER + PayloadLen(b)..];
    FlagBits(f.flags);
    ScanFirst(f, tail, block, true);
    hide Scan, PayloadLen, FrameBytes, EndHeaders;
    if Ends(f.flags) {
      conts, rest := [f], tail;
      SentOne(f);
    } else {
      conts, rest := ContinuationsSound(tail, block + f.payload);
      ContinuesMore(f, conts);
      SentHead([f] + conts, rest);
      PayloadsHead(block, [f] + conts);
      assert ([f] + conts)[1..] == conts;
      conts := [f] + conts;
    }
  }

  lemma SentOne(f: Frame)
    requires Sendable(f)
    ensures Sent([f]) == FrameBytes(f) && Payloads([f]) == f.payload
  {
    assert Sent([f]) == FrameBytes(f) + Sent([]);
    assert Payloads([f]) == f.payload + Payloads([]);
  }

  lemma ContinuesMore(f: Frame, conts: seq<Frame>)
    requires Sendable(f) && f.typ == 0x9 && !Ends(f.flags) && Continues(conts) && conts != []
    ensures Continues([f] + conts)
  {
    hide Ends, Sendable;
  }

  /** And nothing else is found: a block that is found was sent in a legal way, at the beginning of the stream. */
  lemma {:induction false} BlockSound(b: Bytes)
    returns (before: seq<Frame>, head: Frame, w: Wrapping, frag: Bytes, conts: seq<Frame>, rest: Bytes)
    requires Scan(b, [], false).Block?
    ensures LegalRequest(before, head, w, frag, conts) && b == RequestBytes(before, head, w, frag, conts) + rest
    ensures Scan(b, [], false) == Block(frag + Payloads(conts), |RequestBytes(before, head, w, frag, conts)|)
    decreases |b|
  {
    var f := ReadFrame(b);
    var tail := b[FRAME_HEADER + PayloadLen(b)..];
    ScanFirst(f, tail, [], false);
    hide Scan, PayloadLen, FrameBytes, HeadersFragment, EndHeaders, LegalRequest;
    if f.typ == 0x1 {
      before, head := [], f;
      w, frag, conts, rest := HeadSound(f, tail);
    } else {
      before, head, w, frag, conts, rest := BlockSound(tail);
      OneMoreBefore(f, before, head, w, frag, conts, rest);
      before := [f] + before;
    }
  }

  lemma HeadSound(head: Frame, tail: Bytes) returns (w: Wrapping, frag: Bytes, conts: seq<Frame>, rest: Bytes)
    requires Sendable(head) && head.typ == 0x1 && Scan(FrameBytes(head) + tail, [], false).Block?
    ensures LegalRequest([], head, w, frag, conts) && FrameBytes(head) + tail == RequestBytes([], head, w, frag, conts) + rest
    ensures Scan(FrameBytes(head) + tail, [], false)
         == Block(frag + Payloads(conts), |RequestBytes([], head, w, frag, conts)|)
  {
    ScanFirst(head, tail, [], false);
    w, frag := Unwrapped(head.payload, head.flags);
    FlagBits(head.flags);
    assert [] + frag == frag;
    hide Scan, FrameBytes, HeadersFragment, EndHeaders, Wrapped, Ends;
    if Ends(head.flags) {
      conts, rest := [], tail;
      assert frag + Payloads(conts) == frag;
    } else {
      conts, rest := ContinuationsSound(tail, frag);
    }
    Heads(head, w, frag, conts, rest);
  }

  lemma Heads(head: Frame, w: Wrapping, frag: Bytes, conts: seq<Frame>, rest: Bytes)
    requires LegalRequest([], head, w, frag, conts)
    ensures RequestBytes([], head, w, frag, conts) == FrameBytes(head) + Sent(conts)
    ensures RequestBytes([], head, w, frag, conts) + rest == FrameBytes(head) + (Sent(conts) + rest)
    ensures conts == [] ==> Sent(conts) + rest == rest && |Sent(conts)| == 0
  {
    LegalParts([], head, w, frag, conts);
    var a, b := FrameBytes(head), Sent(conts);
    assert Sent([]) == [];
    assert [] + a + b == a + b;
    assert a + b + rest == a + (b + rest);
    hide LegalRequest, FrameBytes;
  }

  lemma OneMoreBefore(f: Frame, before: seq<Frame>, head: Frame, w: Wrapping, frag: Bytes, conts: seq<Frame>, rest: Bytes)
    requires LegalRequest(before, head, w, frag, conts) && Sendable(f) && f.typ != 0x1 && f.typ != 0x9
    ensures LegalRequest([f] + before, head, w, frag, conts)
    ensures RequestBytes([f] + before, head, w, frag, conts) + rest == FrameBytes(f) + (RequestBytes(before, head, w, frag, conts) + rest)
    ensures |RequestBytes([f] + before, head, w, frag, conts)| == |FrameBytes(f)| + |RequestBytes(before, head, w, frag, conts)|
  {
    LegalParts(before, head, w, frag, conts);
    hide FrameBytes, Wrapped, Legal, Ends, Pads, Prioritizes, Continues;
    assert ([f] + before)[1..] == before;
    var a, b, c, d := FrameBytes(f), Sent(before), FrameBytes(head), Sent(conts);
    assert Sent([f] + before) == a + b;
    AllBut(a, b, c, d, rest);
  }

  lemma AllBut(a: Bytes, b: Bytes, c: Bytes, d: Bytes, e: Bytes)
    ensures a + b + c + d + e == a + (b + c + d + e)
  {}
}
