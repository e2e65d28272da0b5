/** From a request as it is sent to the host and path that routing sees, in both HTTP versions. */
module HttpPeekTheorems {
  import opened Options
  import opened Wire
  import opened HttpHead
  import opened HttpPeek
  import H2 = Http2Peek
  import opened Http2PeekTheorems

  /** `v` is the last value of the field `name`, if it occurs. */
  ghost predicate Last(fields: seq<(Bytes, Bytes)>, name: Bytes, v: Option<Bytes>) {
    if v.None? then forall f :: f in fields ==> f.0 != name
    else exists k :: 0 <= k < |fields| && fields[k] == (name, v.value) && forall j :: k < j < |fields| ==> fields[j].0 != name
  }

  lemma {:induction false} LastIs(fields: seq<(Bytes, Bytes)>, name: Bytes, v: Option<Bytes>)
    requires Last(fields, name, v)
    ensures LastValue(fields, name) == v
  {
    if fields != [] {
      var n := |fields| - 1;
      assert fields[n] in fields && forall f :: f in fields[..n] ==> f in fields;
      if fields[n].0 != name {
        if v.Some? {
          var k :| 0 <= k < |fields| && fields[k] == (name, v.value) && forall j :: k < j < |fields| ==> fields[j].0 != name;
          assert fields[..n][k] == (name, v.value);
        }
        LastIs(fields[..n], name, v);
      }
    }
  }

  /** The fields of a request, and what routing sees of them. */
  ghost predicate Fields(fields: seq<(Bytes, Bytes)>, host: Bytes, path: Bytes) {
    && (Last(fields, Ascii(":authority"), Some(host)) || (Last(fields, Ascii(":authority"), None) && host == []))
    && ((exists t :: Last(fields, Ascii(":path"), Some(t)) && PathOf(t, path)) || (Last(fields, Ascii(":path"), None) && path == []))
  }

  lemma Texts()
    ensures AUTHORITY == Ascii(":authority") && PATH == Ascii(":path")
    ensures H2.PREFACE == Ascii("PRI * HTTP/2.0\r\n\r\nSM\r\n\r\n")
  {}

  lemma HeadOfFields(fields: seq<(Bytes, Bytes)>, host: Bytes, path: Bytes)
    requires Fields(fields, host, path)
    ensures HeadOf(fields) == Head(host, path, true)
  {
    Texts();
    hide Ascii, Last, PathOf, PathOnly, LastValue;
    if Last(fields, AUTHORITY, Some(host)) {
      LastIs(fields, AUTHORITY, Some(host));
    } else {
      LastIs(fields, AUTHORITY, None);
    }
    if t :| Last(fields, PATH, Some(t)) && PathOf(t, path) {
      LastIs(fields, PATH, Some(t));
      PathIs(t, path);
    } else {
      LastIs(fields, PATH, None);
    }
  }

  /**
    A request over HTTP/2, sent in any legal way: the decoder gets exactly its header block, its last
    :authority is the host and its last :path, without the query, the path, and the head ends with the
    frame that completes the block.
   */
  lemma RequestOverHTTP2(before: seq<Frame>, head: Frame, w: Wrapping, frag: Bytes, conts: seq<Frame>,
                         rest: Bytes, hpack: Hpack, fields: seq<(Bytes, Bytes)>, host: Bytes, path: Bytes)
    requires LegalRequest(before, head, w, frag, conts)
    requires hpack(frag + Payloads(conts)) == Some(fields) && Fields(fields, host, path)
    ensures FirstHead(Ascii("PRI * HTTP/2.0\r\n\r\nSM\r\n\r\n") + (RequestBytes(before, head, w, frag, conts) + rest), hpack)
         == Some((Head(host, path, true), 24 + |RequestBytes(before, head, w, frag, conts)|))
  {
    hide *;
    Texts();
    HeadOfFields(fields, host, path);
    BlockReassembled(before, head, w, frag, conts, rest);
    PrefacedHead(RequestBytes(before, head, w, frag, conts) + rest, frag + Payloads(conts),
                 |RequestBytes(before, head, w, frag, conts)|, hpack);
    assert |H2.PREFACE| == 24;
  }

  lemma PrefacedHead(frames: Bytes, block: Bytes, used: nat, hpack: Hpack)
    requires H2.Scan(frames, [], false) == H2.Block(block, used) && hpack(block).Some?
    ensures FirstHead(H2.PREFACE + frames, hpack) == Some((HeadOf(hpack(block).value), |H2.PREFACE| + used))
  {
    hide H2.Scan, HeadOf, Index, ParseHead;
    assert |H2.PREFACE| == H2.PREFACE_LEN;
    assert (H2.PREFACE + frames)[H2.PREFACE_LEN..] == frames;
  }

  lemma NoMark(b: Bytes, sep: Bytes, n: nat)
    requires sep != [] && n <= |b| && forall i :: 0 <= i < n ==> b[i] != sep[0]
    ensures NotIn(b, sep, n)
  {
    forall i | 0 <= i < n ensures !At(b, sep, i) {
      assert i + |sep| <= |b| ==> b[i..i + |sep|][0] == b[i];
    }
  }

  lemma PrefaceBytes(b: Bytes)
    requires H2.PREFACE <= b
    ensures |b| >= 18 && (forall i :: 0 <= i < 14 ==> b[i] != CR)
    ensures b[14] == CR && b[15] == LF && b[16] == CR && b[17] == LF
  {
    var p := H2.PREFACE;
    assert p[0] != CR && p[1] != CR && p[2] != CR && p[3] != CR && p[4] != CR && p[5] != CR && p[6] != CR;
    assert p[7] != CR && p[8] != CR && p[9] != CR && p[10] != CR && p[11] != CR && p[12] != CR && p[13] != CR;
    assert p[14] == CR && p[15] == LF && p[16] == CR && p[17] == LF;
    assert forall i :: 0 <= i < |p| ==> p[i] == b[i];
  }

  /** The preface has its first line end, and its first blank line, after 14 bytes. */
  lemma PrefaceLines(b: Bytes)
    requires H2.PREFACE <= b
    ensures Index(b, CRLF) == Some(14) && Index(b, BLANK) == Some(14)
  {
    PrefaceBytes(b);
    NoMark(b, CRLF, 14);
    NoMark(b, BLANK, 14);
    IndexAfter(b, CRLF, 14);
    IndexAfter(b, BLANK, 14);
    assert b[14..][..2] == CRLF && b[14..][..4] == BLANK;
  }

  /** A request of two lines or more is not taken for the HTTP/2 preface. */
  lemma NotThePreface(first: Bytes, lines: seq<Bytes>, body: Bytes)
    requires lines != [] && forall l :: l in [first] + lines ==> Line(l)
    ensures !(H2.PREFACE <= Join([first] + lines) + BLANK + body)
  {
    var all := Join([first] + lines) + BLANK + body;
    assert first in [first] + lines;
    assert ([first] + lines)[1..] == lines;
    assert all == first + CRLF + (Join(lines) + BLANK + body);
    LineEnds(first, Join(lines) + BLANK + body);
    BlankAfterJoin([first] + lines, body);
    assert |Join([first] + lines)| >= |first| + 2;
    hide Join, Line, NotIn, Index;
    if H2.PREFACE <= all {
      PrefaceLines(all);
      assert false;
    }
  }

  /** A request over HTTP/1: the value of its first Host header and its path without the query. */
  lemma RequestOverHTTP1(first: Bytes, target: Bytes, before: seq<Bytes>, name: Bytes, pad: Bytes, host: Bytes, pad': Bytes,
                         after: seq<Bytes>, body: Bytes, path: Bytes, hpack: Hpack)
    requires Request(first, target, before, name, pad + host + pad', after)
    requires Spaces(pad) && Visible(host) && Spaces(pad') && PathOf(target, path)
    ensures var hdr := Join(RequestLines(first, before, name, pad + host + pad', after));
      FirstHead(hdr + [0x0d, 0x0a, 0x0d, 0x0a] + body, hpack) == Some((Head(host, path, false), |hdr| + 4))
  {
    var value := pad + host + pad';
    var lines := before + ([name + [0x3a] + value] + after);
    var hdr := Join([first] + lines);
    assert RequestLines(first, before, name, value, after) == [first] + lines;
    hide *;
    RequestParts(first, target, before, name, value, after);
    HeadRoundTrip(first, target, before, name, pad, host, pad', after, body, path);
    NotThePreface(first, lines, body);
    PlainHead(hdr, body, host, path, hpack);
  }

  lemma PlainHead(hdr: Bytes, body: Bytes, host: Bytes, path: Bytes, hpack: Hpack)
    requires !(H2.PREFACE <= hdr + BLANK + body) && Index(hdr + BLANK + body, BLANK) == Some(|hdr|)
    requires ParseHead(hdr) == Some((host, path))
    ensures FirstHead(hdr + BLANK + body, hpack) == Some((Head(host, path, false), |hdr| + 4))
  {
    hide Index, ParseHead;
    assert (hdr + BLANK + body)[..|hdr|] == hdr;
  }
}
