/** Peeking at the first request of an HTTP connection, of either version. */
module HttpPeek {
  import opened Options
  import opened Streams
  import opened Wire
  import opened HttpHead
  import H2 = Http2Peek

  const FIRST_CHUNK: nat := 512
  const HTTP1_CHUNK: nat := 1024

  /** ":authority" and ":path" */
  const AUTHORITY: Bytes := [0x3a, 0x61, 0x75, 0x74, 0x68, 0x6f, 0x72, 0x69, 0x74, 0x79]
  const PATH: Bytes := [0x3a, 0x70, 0x61, 0x74, 0x68]

  /** HPACK decoding of a header block, or None where it fails. */
  type Hpack = Bytes -> Option<seq<(Bytes, Bytes)>>

  datatype Head = Head(host: Bytes, path: Bytes, http2: bool)

  /** The last value of a field; the source overwrites earlier ones. */
  function LastValue(fields: seq<(Bytes, Bytes)>, name: Bytes): Option<Bytes> {
    if fields == [] then None
    else
      var k := |fields| - 1;
      if fields[k].0 == name then Some(fields[k].1) else LastValue(fields[..k], name)
  }

  /** Host and path of a decoded HTTP/2 request. */
  function HeadOf(fields: seq<(Bytes, Bytes)>): Head {
    Head(if LastValue(fields, AUTHORITY).Some? then LastValue(fields, AUTHORITY).value else [],
         if LastValue(fields, PATH).Some? then PathOnly(LastValue(fields, PATH).value) else [],
         true)
  }

  method ReadFields(fields: seq<(Bytes, Bytes)>) returns (head: Head)
    ensures head == HeadOf(fields)
  {
    head := Head([], [], true);
    for i := 0 to |fields|
      invariant head == HeadOf(fields[..i])
    {
      hide PathOnly;
      assert fields[..i + 1][..i] == fields[..i];
      if fields[i].0 == AUTHORITY {
        head := head.(host := fields[i].1);
      } else if fields[i].0 == PATH {
        head := head.(path := PathOnly(fields[i].1));
      }
    }
    assert fields[..|fields|] == fields;
  }

  /** The head that the stream `all` begins with, and where it ends, if it is there. */
  function FirstHead(all: Bytes, hpack: Hpack): Option<(Head, nat)> {
    if H2.PREFACE <= all then
      var s := H2.Scan(all[H2.PREFACE_LEN..], [], false);
      if !s.Block? || hpack(s.block).None? then None
      else Some((HeadOf(hpack(s.block).value), H2.PREFACE_LEN + s.used))
    else
      var i := Index(all, BLANK);
      if i.None? then None
      else
        IndexFound(all, BLANK);
        var h := ParseHead(all[..i.value]);
        if h.None? then None else Some((Head(h.value.0, h.value.1, false), i.value + |BLANK|))
  }

  method PeekHTTP2(r: Stream, buf: Bytes, hpack: Hpack) returns (head: Option<Head>, raw: Bytes)
    requires H2.PREFACE <= buf && |buf| <= MAX_PEEK_BYTES
    modifies r`input
    ensures raw + r.input == buf + old(r.input) && |raw| <= MAX_PEEK_BYTES + H2.CHUNK
    ensures var first := FirstHead(buf + old(r.input), hpack);
      && (head.Some? ==> first.Some? && head.value == first.value.0 && first.value.1 <= |raw|)
      && (first.Some? && first.value.1 <= MAX_PEEK_BYTES ==> head.Some?)
  {
    hide H2.Scan, HeadOf;
    assert (buf + r.input)[..H2.PREFACE_LEN] == buf[..H2.PREFACE_LEN] == H2.PREFACE;
    var outcome;
    outcome, raw := H2.FindBlock(r, buf);
    if !outcome.Found? {
      return None, raw;
    }
    var fields := hpack(outcome.block);
    if fields.None? {
      return None, raw;
    }
    var found := ReadFields(fields.value);
    return Some(found), raw;
  }

  method PeekHTTP1(r: Stream, buf: Bytes, hpack: Hpack) returns (head: Option<Head>, raw: Bytes)
    requires !(H2.PREFACE <= buf + r.input) && |buf| <= MAX_PEEK_BYTES
    modifies r`input
    ensures raw + r.input == buf + old(r.input) && |raw| <= MAX_PEEK_BYTES + HTTP1_CHUNK
    ensures var first := FirstHead(buf + old(r.input), hpack);
      && (head.Some? ==> first.Some? && head.value == first.value.0 && first.value.1 <= |raw|)
      && (first.Some? && first.value.1 <= MAX_PEEK_BYTES ==> head.Some?)
  {
    raw := buf;
    ghost var all := buf + r.input;
    while true
      invariant raw + r.input == all && |raw| <= MAX_PEEK_BYTES + HTTP1_CHUNK
      decreases |r.input|
    {
      IndexStable(raw, r.input, BLANK);
      IndexFound(raw, BLANK);
      hide Index, ParseHead;
      var i := Index(raw, BLANK);
      if i.Some? {
        assert raw[..i.value] == all[..i.value];
        var ok, host, path := ParseHTTP1Head(raw[..i.value]);
        return if ok then Some(Head(host, path, false)) else None, raw;
      }
      if |raw| > MAX_PEEK_BYTES {
        return None, raw;
      }
      var chunk := r.Read(HTTP1_CHUNK);
      if chunk == [] {
        assert raw == all;
        return None, raw;
      }
      raw := raw + chunk;
    }
  }

  /**
    However the bytes arrive, a head that is complete within the first 64 KiB is found, whatever is
    found is the stream's own first head, and exactly the bytes in `raw` have been consumed.
   */
  method PeekHTTP(r: Stream, hpack: Hpack) returns (head: Option<Head>, raw: Bytes)
    modifies r`input
    ensures raw + r.input == old(r.input) && |raw| <= 65536 + 2048
    ensures var first := FirstHead(old(r.input), hpack);
      && (head.Some? ==> first.Some? && head.value == first.value.0 && first.value.1 <= |raw|)
      && (first.Some? && first.value.1 <= 65536 ==> head.Some?)
  {
    hide FirstHead;
    var buf: Bytes := [];
    ghost var all := r.input;
    while |buf| < H2.PREFACE_LEN
      invariant buf + r.input == all && |buf| < H2.PREFACE_LEN + FIRST_CHUNK
      decreases |r.input|
    {
      var chunk := r.Read(FIRST_CHUNK);
      if chunk == [] {
        if buf == [] {
          assert FirstHead(all, hpack).None? by { EmptyHasNoHead(hpack); }
          return None, buf;
        }
        break;
      }
      buf := buf + chunk;
    }
    assert |buf| >= H2.PREFACE_LEN || buf == all;
    if |buf| >= H2.PREFACE_LEN && buf[..H2.PREFACE_LEN] == H2.PREFACE {
      head, raw := PeekHTTP2(r, buf, hpack);
    } else {
      NoPreface(buf, r.input);
      head, raw := PeekHTTP1(r, buf, hpack);
    }
  }

  lemma EmptyHasNoHead(hpack: Hpack)
    ensures FirstHead([], hpack).None?
  {}

  lemma NoPreface(buf: Bytes, rest: Bytes)
    requires |buf| >= H2.PREFACE_LEN || rest == []
    requires !(|buf| >= H2.PREFACE_LEN && buf[..H2.PREFACE_LEN] == H2.PREFACE)
    ensures !(H2.PREFACE <= buf + rest)
  {
    assert |H2.PREFACE| == H2.PREFACE_LEN;
    if |buf| >= H2.PREFACE_LEN {
      assert (buf + rest)[..H2.PREFACE_LEN] == buf[..H2.PREFACE_LEN];
    } else {
      assert buf + rest == buf;
    }
  }
}
