/** Peeking at a TLS ClientHello: reassembly from records, and the server name in it. */
module TlsHello {
  import opened Options
  import opened Streams
  import opened Wire

  const RECORD_HEADER_LEN: nat := 5
  const MAX_RECORD: nat := 16384
  const HANDSHAKE: byte := 0x16
  const CLIENT_HELLO: byte := 0x01
  const SERVER_NAME: nat := 0

  function Zeros(n: nat): Bytes {
    seq(n, _ => 0)
  }

  /** readTLSRecord on a stream that holds `s`: success, what is returned, what is left. */
  function ReadRecord(s: Bytes): (bool, Bytes, Bytes) {
    if |s| < RECORD_HEADER_LEN then (false, [], [])
    else
      var n := GetU16(s[3..]);
      if n == 0 || n > MAX_RECORD then (false, s[..RECORD_HEADER_LEN], s[RECORD_HEADER_LEN..])
      else if |s| < RECORD_HEADER_LEN + n then (false, s + Zeros(RECORD_HEADER_LEN + n - |s|), [])
      else (true, s[..RECORD_HEADER_LEN + n], s[RECORD_HEADER_LEN + n..])
  }

  /** The length that a handshake message announces. */
  function MessageLen(h: Bytes): nat
    requires |h| >= 4
  {
    GetU16(h[1..]) * 0x100 + h[3]
  }

  /** The handshake bytes hold a whole message. */
  predicate Complete(h: Bytes) {
    |h| >= 4 && |h| >= 4 + MessageLen(h)
  }

  /** The outcome of the record loop: the message's body if there is one, the raw bytes, what is left. */
  function Gather(raw: Bytes, h: Bytes, s: Bytes): (Option<Bytes>, Bytes, Bytes)
    decreases |s|
  {
    var (ok, rec, rest) := ReadRecord(s);
    var raw' := raw + rec;
    if !ok || |raw'| > MAX_PEEK_BYTES || rec[0] != HANDSHAKE then (None, raw', rest)
    else
      var h' := h + rec[RECORD_HEADER_LEN..];
      if |h'| >= 4 && h'[0] != CLIENT_HELLO then (None, raw', rest)
      else if Complete(h') then (Some(h'[4..4 + MessageLen(h')]), raw', rest)
      else Gather(raw', h', rest)
  }

  /** The host name in the entries of a server name list; empty if there is none. */
  function Names(b: Bytes): Option<Bytes> {
    if |b| < 3 then Some([])
    else
      var n := GetU16(b[1..]);
      if |b| < 3 + n then None
      else if b[0] == 0 then Some(b[3..3 + n])
      else Names(b[3 + n..])
  }

  /** The host name in a server_name extension (section 3 of RFC 6066). */
  function ServerName(data: Bytes): Option<Bytes> {
    if |data| < 2 || |data| < 2 + GetU16(data) then None else Names(data[2..2 + GetU16(data)])
  }

  /** The host name in a list of extensions. */
  function Extensions(b: Bytes): Option<Bytes> {
    if |b| < 4 then Some([])
    else
      var n := GetU16(b[2..]);
      if |b| < 4 + n then None
      else if GetU16(b) != SERVER_NAME then Extensions(b[4 + n..])
      else ServerName(b[4..4 + n])
  }

  /** What follows a field with a one-byte length. */
  function Skip8(b: Bytes): Option<Bytes> {
    if |b| < 1 then None
    else
      var n: nat := b[0];
      if |b| < 1 + n then None else Some(b[1 + n..])
  }

  /** What follows a field with a two-byte length. */
  function Skip16(b: Bytes): Option<Bytes> {
    if |b| < 2 || |b| < 2 + GetU16(b) then None else Some(b[2 + GetU16(b)..])
  }

  /** The host name in the body of a ClientHello (section 4.1.2 of RFC 8446). */
  function Hello(body: Bytes): Option<Bytes> {
    if |body| < 34 || Skip8(body[34..]).None? then None else FromSuites(Skip8(body[34..]).value)
  }

  /** The same from the cipher suites on. */
  function FromSuites(b: Bytes): Option<Bytes> {
    if Skip16(b).None? || Skip8(Skip16(b).value).None? then None else FromExtensions(Skip8(Skip16(b).value).value)
  }

  function FromExtensions(b: Bytes): Option<Bytes> {
    if b == [] then Some([])
    else if Skip16(b).None? then None
    else Extensions(b[2..2 + GetU16(b)])
  }

  method ReadTLSRecord(r: Stream) returns (ok: bool, rec: Bytes)
    modifies r`input
    ensures (ok, rec, r.input) == ReadRecord(old(r.input))
  {
    ghost var s := old(r.input);
    var hdr, body;
    ok, hdr := r.ReadFull(RECORD_HEADER_LEN);
    if !ok {
      return false, [];
    }
    assert hdr[3] == s[3..][0] && hdr[4] == s[3..][1] && hdr[3..][0] == hdr[3] && hdr[3..][1] == hdr[4];
    var n := GetU16(hdr[3..]);
    assert n == GetU16(s[3..]);
    if n == 0 || n > MAX_RECORD {
      return false, hdr;
    }
    ok, body := r.ReadFull(n);
    if !ok {
      assert hdr + body == s;
      assert s + Zeros(RECORD_HEADER_LEN + n - |s|) == hdr + (body + Zeros(n - |body|));
      return false, hdr + (body + Zeros(n - |body|));
    }
    assert hdr + body == s[..RECORD_HEADER_LEN + n] && r.input == s[RECORD_HEADER_LEN + n..];
    return true, hdr + body;
  }

  method PeekClientHello(r: Stream) returns (sni: Option<Bytes>, raw: Bytes)
    modifies r`input
    ensures var (body, raw', rest) := Gather([], [], old(r.input));
      && raw == raw' && r.input == rest
      && sni == if body.None? then None else Hello(body.value)
  {
    raw := [];
    var handshake: Bytes := [];
    ghost var goal := Gather([], [], r.input);
    while true
      invariant Gather(raw, handshake, r.input) == goal
      decreases |r.input|
    {
      hide ReadRecord, Hello;
      ghost var before := r.input;
      ShorterRest(before);
      var ok, rec := ReadTLSRecord(r);
      raw := raw + rec;
      if !ok {
        return None, raw;
      }
      if |raw| > MAX_PEEK_BYTES {
        return None, raw;
      }
      if rec[0] != HANDSHAKE {
        return None, raw;
      }
      handshake := handshake + rec[RECORD_HEADER_LEN..];
      if |handshake| < 4 {
        continue;
      }
      if handshake[0] != CLIENT_HELLO {
        return None, raw;
      }
      var n := MessageLen(handshake);
      if |handshake| < 4 + n {
        continue;
      }
      sni := ParseHelloSNI(handshake[4..4 + n]);
      return sni, raw;
    }
  }

  lemma ShorterRest(s: Bytes)
    ensures var (ok, rec, rest) := ReadRecord(s);
      ok ==> s == rec + rest && |rec| > RECORD_HEADER_LEN && |rest| < |s|
  {}

  lemma Slice(s: Bytes, lo: nat, hi: nat, j: nat, k: nat)
    requires lo <= hi <= |s| && j <= k <= hi - lo
    ensures s[lo..hi][j..k] == s[lo + j..lo + k]
  {
    forall i | 0 <= i < k - j ensures s[lo..hi][j..k][i] == s[lo + j..lo + k][i] {}
  }

  lemma SliceU16(s: Bytes, lo: nat, hi: nat, j: nat)
    requires lo <= hi <= |s| && j + 2 <= hi - lo
    ensures GetU16(s[lo..hi][j..]) == GetU16(s[lo + j..lo + j + 2])
  {
    assert s[lo..hi][j..][0] == s[lo + j] && s[lo..hi][j..][1] == s[lo + j + 1];
  }

  lemma Skip8At(body: Bytes, off: nat)
    requires off <= |body|
    ensures off == |body| ==> Skip8(body[off..]).None?
    ensures off < |body| ==>
              var n: nat := body[off];
              Skip8(body[off..]) == if off + 1 + n > |body| then None else Some(body[off + 1 + n..])
  {}

  lemma Skip16At(body: Bytes, off: nat)
    requires off + 2 <= |body|
    ensures var n := GetU16(body[off..off + 2]);
      && n == GetU16(body[off..])
      && Skip16(body[off..]) == if off + 2 + n > |body| then None else Some(body[off + 2 + n..])
  {}

  method ParseHelloSNI(body: Bytes) returns (sni: Option<Bytes>)
    ensures sni == Hello(body)
  {
    hide FromSuites, Skip8;
    if |body| < 34 {
      return None;
    }
    var off := 34;
    Skip8At(body, off);
    if off >= |body| {
      return None;
    }
    var sidLen: nat := body[off];
    off := off + 1;
    off := off + sidLen;
    if off + 2 > |body| {
      if off <= |body| {
        TooShort16(body[off..]);
      }
      return None;
    }
    sni := ParseFromSuites(body, off);
  }

  method ParseFromSuites(body: Bytes, from: nat) returns (sni: Option<Bytes>)
    requires from + 2 <= |body|
    ensures sni == FromSuites(body[from..])
  {
    hide FromExtensions, Skip8, Skip16;
    var off := from;
    var csLen := GetU16(body[off..off + 2]);
    Skip16At(body, off);
    off := off + 2 + csLen;
    if off >= |body| {
      if off == |body| {
        Skip8At(body, off);
      }
      return None;
    }
    Skip8At(body, off);
    var compLen: nat := body[off];
    off := off + 1;
    off := off + compLen;
    if off > |body| {
      return None;
    }
    sni := ParseFromExtensions(body, off);
  }

  method ParseFromExtensions(body: Bytes, off: nat) returns (sni: Option<Bytes>)
    requires off <= |body|
    ensures sni == FromExtensions(body[off..])
  {
    hide Extensions;
    if off == |body| {
      return Some([]);
    }
    if off + 2 > |body| {
      TooShort16(body[off..]);
      return None;
    }
    sni := ParseExtensions(body, off);
  }

  lemma TooShort16(b: Bytes)
    requires |b| < 2
    ensures Skip16(b).None? && FromSuites(b).None?
  {}

  lemma ExtensionAt(body: Bytes, off: nat, end: nat)
    requires off + 4 <= end <= |body|
    ensures var typ, n := GetU16(body[off..off + 2]), GetU16(body[off + 2..off + 4]);
      Extensions(body[off..end]) ==
        if off + 4 + n > end then None
        else if typ != SERVER_NAME then Extensions(body[off + 4 + n..end])
        else ServerName(body[off + 4..off + 4 + n])
  {
    var b, n := body[off..end], GetU16(body[off + 2..off + 4]);
    SliceU16(body, off, end, 0);
    SliceU16(body, off, end, 2);
    assert b[0..] == b;
    hide ServerName, GetU16;
    if 4 + n <= |b| {
      Slice(body, off, end, 4 + n, |b|);
      Slice(body, off, end, 4, 4 + n);
    }
  }

  /** The extensions that start at `start` with their length. */
  method ParseExtensions(body: Bytes, start: nat) returns (sni: Option<Bytes>)
    requires start + 2 <= |body|
    ensures sni == if Skip16(body[start..]).None? then None
                   else Extensions(body[start..][2..2 + GetU16(body[start..])])
  {
    var off := start;
    var extLen := GetU16(body[off..off + 2]);
    Skip16At(body, off);
    off := off + 2;
    var end := off + extLen;
    if end > |body| {
      return None;
    }
    assert body[start..|body|] == body[start..];
    Slice(body, start, |body|, 2, 2 + extLen);
    hide Extensions, ServerName, Skip16, GetU16;
    sni := WalkExtensions(body, off, end);
  }

  /** The loop over the extensions between `start` and `end`. */
  method WalkExtensions(body: Bytes, start: nat, end: nat) returns (sni: Option<Bytes>)
    requires start <= end <= |body|
    ensures sni == Extensions(body[start..end])
  {
    var off := start;
    hide Extensions, ServerName, GetU16;
    while off + 4 <= end
      invariant off <= end
      invariant Extensions(body[off..end]) == Extensions(body[start..end])
    {
      ExtensionAt(body, off, end);
      var typ := GetU16(body[off..off + 2]);
      var n := GetU16(body[off + 2..off + 4]);
      off := off + 4;
      if off + n > end {
        return None;
      }
      var data := body[off..off + n];
      off := off + n;
      if typ != SERVER_NAME {
        continue;
      }
      sni := ParseSNIExtension(data);
      return;
    }
    NoExtension(body[off..end]);
    return Some([]);
  }

  lemma NoExtension(b: Bytes)
    ensures |b| < 4 ==> Extensions(b) == Some([])
    ensures |b| < 3 ==> Names(b) == Some([])
  {}

  lemma NameAt(data: Bytes, off: nat, end: nat)
    requires off + 3 <= end <= |data|
    ensures var n := GetU16(data[off + 1..off + 3]);
      Names(data[off..end]) ==
        if off + 3 + n > end then None
        else if data[off] == 0 then Some(data[off + 3..off + 3 + n])
        else Names(data[off + 3 + n..end])
  {
    var b, n := data[off..end], GetU16(data[off + 1..off + 3]);
    SliceU16(data, off, end, 1);
    hide GetU16;
    if 3 + n <= |b| {
      Slice(data, off, end, 3 + n, |b|);
      Slice(data, off, end, 3, 3 + n);
    }
  }

  method ParseSNIExtension(data: Bytes) returns (sni: Option<Bytes>)
    ensures sni == ServerName(data)
  {
    if |data| < 2 {
      return None;
    }
    var listLen := GetU16(data[..2]);
    var off := 2;
    assert listLen == GetU16(data);
    if 2 + listLen > |data| {
      return None;
    }
    hide Names, GetU16;
    while off + 3 <= 2 + listLen
      invariant off <= 2 + listLen
      invariant Names(data[off..2 + listLen]) == ServerName(data)
    {
      NameAt(data, off, 2 + listLen);
      var nameType := data[off];
      var n := GetU16(data[off + 1..off + 3]);
      off := off + 3;
      if off + n > 2 + listLen {
        return None;
      }
      var name := data[off..off + n];
      off := off + n;
      if nameType == 0 {
        return Some(name);
      }
    }
    NoExtension(data[off..2 + listLen]);
    return Some([]);
  }
}
