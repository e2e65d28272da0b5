/** What peeking at a ClientHello does not depend on, how far it reads, and whose name it finds. */
module TlsHelloTheorems {
  import opened Options
  import opened Streams
  import opened Wire
  import opened TlsHello

  /** On success what was read is exactly what is replayed; reading stops within one record of 64 KiB. */
  lemma {:induction false} GatherReads(raw: Bytes, h: Bytes, s: Bytes)
    requires |raw| <= MAX_PEEK_BYTES
    ensures Gather(raw, h, s).0.Some? ==> Gather(raw, h, s).1 + Gather(raw, h, s).2 == raw + s
    ensures Gather(raw, h, s).0.Some? ==> |Gather(raw, h, s).1| <= MAX_PEEK_BYTES
    ensures |Gather(raw, h, s).1| <= MAX_PEEK_BYTES + RECORD_HEADER_LEN + MAX_RECORD
    decreases |s|
  {
    var (ok, rec, rest) := ReadRecord(s);
    assert |rec| <= RECORD_HEADER_LEN + MAX_RECORD;
    ShorterRest(s);
    hide ReadRecord, Complete, MessageLen;
    if ok {
      assert raw + s == raw + rec + rest;
      if |raw + rec| <= MAX_PEEK_BYTES && rec[0] == HANDSHAKE {
        GatherReads(raw + rec, h + rec[RECORD_HEADER_LEN..], rest);
      }
    }
  }

  /** What PeekClientHello returns as raw bytes, followed by what it left, is the original stream. */
  lemma HelloIsReplayed(s: Bytes)
    ensures var (body, raw, rest) := Gather([], [], s);
      (body.Some? ==> raw + rest == s) && |raw| <= 65536 + 5 + 16384
  {
    GatherReads([], [], s);
    assert [] + s == s;
  }

  /** A piece of the handshake in a record of its own, with any protocol version. */
  datatype Fragment = Fragment(major: byte, minor: byte, data: Bytes)

  predicate Sized(f: Fragment) {
    1 <= |f.data| <= 16384
  }

  function RecordOf(f: Fragment): Bytes
    requires Sized(f)
  {
    [0x16, f.major, f.minor] + U16(|f.data|) + f.data
  }

  function Records(fs: seq<Fragment>): Bytes
    requires forall f :: f in fs ==> Sized(f)
  {
    if fs == [] then [] else RecordOf(fs[0]) + Records(fs[1..])
  }

  function Data(fs: seq<Fragment>): Bytes {
    if fs == [] then [] else fs[0].data + Data(fs[1..])
  }

  lemma ReadOneRecord(f: Fragment, rest: Bytes)
    requires Sized(f)
    ensures ReadRecord(RecordOf(f) + rest) == (true, RecordOf(f), rest)
    ensures RecordOf(f)[0] == HANDSHAKE && RecordOf(f)[RECORD_HEADER_LEN..] == f.data
  {
    var s := RecordOf(f) + rest;
    assert s[3..][0] == U16(|f.data|)[0] && s[3..][1] == U16(|f.data|)[1];
    assert GetU16(s[3..]) == |f.data|;
    assert s[..RECORD_HEADER_LEN + |f.data|] == RecordOf(f);
    assert s[RECORD_HEADER_LEN + |f.data|..] == rest;
  }

  /** The message is `m`: a ClientHello, whole, and no more than that. */
  predicate Message(m: Bytes) {
    |m| >= 4 && m[0] == CLIENT_HELLO && |m| == 4 + MessageLen(m)
  }

  /** Bytes that begin with `m` announce its length, and are complete once they hold it. */
  lemma SameLength(m: Bytes, h: Bytes)
    requires Message(m) && (h <= m || m <= h)
    ensures Complete(h) <==> m <= h
    ensures |h| >= 4 ==> h[0] == CLIENT_HELLO && MessageLen(h) == MessageLen(m)
  {
    if |h| >= 4 {
      assert h[0] == m[0] && h[3] == m[3];
      assert h[1..][0] == m[1..][0] && h[1..][1] == m[1..][1];
    }
  }

  /** One more record on a ClientHello that is still coming in. */
  lemma GatherStep(raw: Bytes, h: Bytes, f: Fragment, rest: Bytes)
    requires Sized(f) && |raw| + |RecordOf(f)| <= MAX_PEEK_BYTES
    requires |h + f.data| >= 4 ==> (h + f.data)[0] == CLIENT_HELLO
    ensures var h' := h + f.data;
      Gather(raw, h, RecordOf(f) + rest) ==
        if Complete(h') then (Some(h'[4..4 + MessageLen(h')]), raw + RecordOf(f), rest)
        else Gather(raw + RecordOf(f), h', rest)
  {
    ReadOneRecord(f, rest);
    hide ReadRecord, RecordOf, MessageLen;
  }

  lemma Assoc(a: Bytes, b: Bytes, c: Bytes)
    ensures a + (b + c) == a + b + c
  {}

  lemma DataHead(h: Bytes, fs: seq<Fragment>)
    requires fs != []
    ensures h + Data(fs) == h + fs[0].data + Data(fs[1..])
  {
    assert Data(fs) == fs[0].data + Data(fs[1..]);
    Assoc(h, fs[0].data, Data(fs[1..]));
  }

  lemma FragmentHead(h: Bytes, fs: seq<Fragment>)
    requires fs != []
    ensures h + Data(fs) == h + fs[0].data + Data(fs[1..])
    ensures |fs| > 1 ==> h + Data(fs[..|fs| - 1]) == h + fs[0].data + Data(fs[1..][..|fs| - 2])
  {
    hide Data;
    DataHead(h, fs);
    if |fs| > 1 {
      assert fs[..|fs| - 1][1..] == fs[1..][..|fs| - 2];
      DataHead(h, fs[..|fs| - 1]);
    }
  }

  lemma RecordsHead(raw: Bytes, fs: seq<Fragment>, rest: Bytes)
    requires fs != [] && forall f :: f in fs ==> Sized(f)
    ensures Records(fs) + rest == RecordOf(fs[0]) + (Records(fs[1..]) + rest)
    ensures raw + RecordOf(fs[0]) + Records(fs[1..]) == raw + Records(fs)
    ensures |Records(fs)| == |RecordOf(fs[0])| + |Records(fs[1..])|
  {
    assert Records(fs) == RecordOf(fs[0]) + Records(fs[1..]);
    hide *;
    Assoc(RecordOf(fs[0]), Records(fs[1..]), rest);
    Assoc(raw, RecordOf(fs[0]), Records(fs[1..]));
  }

  lemma LastFragment(raw: Bytes, h: Bytes, f: Fragment, m: Bytes, rest: Bytes)
    requires Sized(f) && Message(m) && m <= h + f.data && |raw| + |RecordOf(f)| <= MAX_PEEK_BYTES
    ensures Gather(raw, h, RecordOf(f) + rest) == (Some(m[4..]), raw + RecordOf(f), rest)
  {
    hide *;
    MessageBody(m, h + f.data);
    GatherStep(raw, h, f, rest);
  }

  lemma MessageBody(m: Bytes, h: Bytes)
    requires Message(m) && m <= h
    ensures |h| >= 4 && h[0] == CLIENT_HELLO && Complete(h) && 4 + MessageLen(h) <= |h|
    ensures h[4..4 + MessageLen(h)] == m[4..]
  {
    SameLength(m, h);
    hide MessageLen;
    assert h[..|m|] == m;
  }

  lemma EarlierFragment(raw: Bytes, h: Bytes, f: Fragment, m: Bytes, rest: Bytes)
    requires Sized(f) && Message(m) && h + f.data < m && |raw| + |RecordOf(f)| <= MAX_PEEK_BYTES
    ensures Gather(raw, h, RecordOf(f) + rest) == Gather(raw + RecordOf(f), h + f.data, rest)
  {
    SameLength(m, h + f.data);
    hide Gather, ReadRecord, RecordOf, MessageLen, Complete, Message;
    GatherStep(raw, h, f, rest);
  }

  /** `h` is what came before; the last fragment is the one that completes `m`. */
  lemma {:induction false} GatherFragments(raw: Bytes, h: Bytes, fs: seq<Fragment>, m: Bytes, rest: Bytes)
    requires (forall f :: f in fs ==> Sized(f)) && fs != []
    requires Message(m) && m <= h + Data(fs) && h + Data(fs[..|fs| - 1]) < m
    requires |raw| + |Records(fs)| <= MAX_PEEK_BYTES
    ensures Gather(raw, h, Records(fs) + rest) == (Some(m[4..]), raw + Records(fs), rest)
    decreases |fs|
  {
    var f, tail := fs[0], fs[1..];
    FragmentHead(h, fs);
    RecordsHead(raw, fs, rest);
    if tail == [] {
      assert Records(tail) + rest == rest && raw + RecordOf(f) + Records(tail) == raw + RecordOf(f);
      assert h + f.data + Data(tail) == h + f.data;
      hide *;
      LastFragment(raw, h, f, m, rest);
    } else {
      hide *;
      PrefixLess(h + f.data, Data(tail[..|tail| - 1]), m);
      EarlierFragment(raw, h, f, m, Records(tail) + rest);
      GatherFragments(raw + RecordOf(f), h + f.data, tail, m, rest);
    }
  }

  lemma PrefixLess(a: Bytes, b: Bytes, m: Bytes)
    requires a + b < m
    ensures a < m
  {
    assert (a + b)[..|a|] == a;
  }

  /** A ClientHello as a handshake message: its type, its length in three bytes, its body. */
  function HelloMessage(body: Bytes): Bytes
    requires |body| < 0x100_0000
  {
    [0x01, |body| / 0x1_0000, |body| / 0x100 % 0x100, |body| % 0x100] + body
  }

  lemma HelloIsMessage(body: Bytes)
    requires |body| < 0x100_0000
    ensures Message(HelloMessage(body)) && HelloMessage(body)[4..] == body
  {
    var m := HelloMessage(body);
    assert m[1..][0] == m[1] && m[1..][1] == m[2];
  }

  /** `fs` carries the ClientHello with this body: all of it, the end of it in the last one, within 64 KiB. */
  ghost predicate Carries(fs: seq<Fragment>, body: Bytes) {
    && |body| < 0x100_0000 && fs != [] && (forall f :: f in fs ==> Sized(f))
    && HelloMessage(body) <= Data(fs) && Data(fs[..|fs| - 1]) < HelloMessage(body)
    && |Records(fs)| <= 65536
  }

  /**
    However a ClientHello is cut into records, of whatever versions and with whatever behind it in the
    last one: within the size limit its body is what gets parsed, exactly its records are consumed, and
    the rest of the stream is untouched.
   */
  lemma SplitIndependence(fs: seq<Fragment>, body: Bytes, rest: Bytes)
    requires Carries(fs, body)
    ensures Gather([], [], Records(fs) + rest) == (Some(body), Records(fs), rest)
  {
    assert [] + Data(fs) == Data(fs) && [] + Data(fs[..|fs| - 1]) == Data(fs[..|fs| - 1]);
    assert [] + Records(fs) == Records(fs);
    HelloIsMessage(body);
    hide Gather, HelloMessage, Message, Data, Records;
    GatherFragments([], [], fs, HelloMessage(body), rest);
  }

  /** A record that was read. */
  lemma RecordRead(s: Bytes) returns (f: Fragment)
    requires ReadRecord(s).0 && ReadRecord(s).1[0] == 0x16
    ensures Sized(f) && RecordOf(f) == ReadRecord(s).1 && f.data == ReadRecord(s).1[RECORD_HEADER_LEN..]
    ensures s == RecordOf(f) + ReadRecord(s).2
  {
    var rec := ReadRecord(s).1;
    f := Fragment(s[1], s[2], rec[5..]);
    U16Of(s[3..]);
    assert s[3..][..2] == s[3..5];
    assert rec == rec[..3] + rec[3..5] + rec[5..];
    assert rec[..3] == [0x16, s[1], s[2]] && rec[3..5] == s[3..5];
    assert s == rec + ReadRecord(s).2;
  }

  lemma MessageBytes(h: Bytes)
    requires Complete(h) && h[0] == 0x01
    ensures var body := h[4..4 + MessageLen(h)]; |body| < 0x100_0000 && HelloMessage(body) <= h
  {
    var n := MessageLen(h);
    LengthBytes(h);
    Digits(h[1], h[2], h[3]);
    hide MessageLen;
    assert HelloMessage(h[4..4 + n]) == h[..4 + n];
  }

  lemma LengthBytes(h: Bytes)
    requires |h| >= 4
    ensures MessageLen(h) == 0x1_0000 * (h[1] as nat) + 0x100 * (h[2] as nat) + h[3]
  {
    assert h[1..][0] == h[1] && h[1..][1] == h[2];
  }

  lemma Digits(hi: byte, mid: byte, lo: byte)
    ensures var n := 0x1_0000 * (hi as nat) + 0x100 * (mid as nat) + lo;
      n < 0x100_0000 && n / 0x1_0000 == hi && n / 0x100 % 0x100 == mid && n % 0x100 == lo
  {}

  /** And only then: what is found is a ClientHello that the records at the beginning of the stream carry. */
  lemma {:induction false} GatherSound(raw: Bytes, h: Bytes, s: Bytes) returns (fs: seq<Fragment>)
    requires Gather(raw, h, s).0.Some? && !Complete(h)
    ensures fs != [] && forall f :: f in fs ==> Sized(f)
    ensures var (body, raw', rest) := Gather(raw, h, s);
      && raw' == raw + Records(fs) && s == Records(fs) + rest && |raw'| <= 65536
      && |body.value| < 0x100_0000 && HelloMessage(body.value) <= h + Data(fs)
      && !Complete(h + Data(fs[..|fs| - 1]))
    decreases |s|
  {
    var f := RecordRead(s);
    ShorterRest(s);
    var rest := ReadRecord(s).2;
    var h' := h + f.data;
    if Complete(h') {
      MessageBytes(h');
      fs := [f];
      OneRecord(f);
      assert h + [] == h && fs[..0] == [];
    } else {
      GatherOn(raw, h, s, f);
      hide Gather, ReadRecord, MessageLen, HelloMessage, RecordOf, Complete;
      var tail := GatherSound(raw + RecordOf(f), h', rest);
      fs := [f] + tail;
      assert fs[1..] == tail;
      RecordsHead(raw, fs, Gather(raw, h, s).2);
      FragmentHead(h, fs);
      assert tail == [] ==> false;
    }
  }

  lemma OneRecord(f: Fragment)
    requires Sized(f)
    ensures Records([f]) == RecordOf(f) && Data([f]) == f.data && Data([]) == []
  {
    assert Records([f]) == RecordOf(f) + Records([]);
    assert Data([f]) == f.data + Data([]);
  }

  lemma GatherOn(raw: Bytes, h: Bytes, s: Bytes, f: Fragment)
    requires Gather(raw, h, s).0.Some? && Sized(f) && ReadRecord(s).1 == RecordOf(f)
    requires f.data == RecordOf(f)[RECORD_HEADER_LEN..] && !Complete(h + f.data)
    ensures Gather(raw, h, s) == Gather(raw + RecordOf(f), h + f.data, ReadRecord(s).2)
    ensures ReadRecord(s).0
  {
    hide ReadRecord, RecordOf, Complete;
  }

  /** A ClientHello is found exactly in a stream that begins with records that carry one. */
  lemma FoundIff(s: Bytes, body: Bytes, raw: Bytes, rest: Bytes)
    ensures Gather([], [], s) == (Some(body), raw, rest)
       <==> exists fs :: Carries(fs, body) && raw == Records(fs) && s == Records(fs) + rest
  {
    if Gather([], [], s) == (Some(body), raw, rest) {
      var fs := GatherSound([], [], s);
      assert [] + Data(fs) == Data(fs) && [] + Data(fs[..|fs| - 1]) == Data(fs[..|fs| - 1]) && [] + raw == raw;
      assert [] + Records(fs) == Records(fs);
      DataInit(fs);
      HelloIsMessage(body);
      ShorterThan(HelloMessage(body), Data(fs), Data(fs[..|fs| - 1]));
      assert Carries(fs, body);
    }
    if fs :| Carries(fs, body) && raw == Records(fs) && s == Records(fs) + rest {
      SplitIndependence(fs, body, rest);
    }
  }

  lemma {:induction false} DataInit(fs: seq<Fragment>)
    requires fs != []
    ensures Data(fs[..|fs| - 1]) <= Data(fs)
  {
    if |fs| > 1 {
      DataInit(fs[1..]);
      assert fs[..|fs| - 1][1..] == fs[1..][..|fs| - 2];
    }
  }

  /** What is incomplete is shorter than the message. */
  lemma ShorterThan(m: Bytes, all: Bytes, part: Bytes)
    requires Message(m) && m <= all && part <= all && !Complete(part)
    ensures part < m
  {
    if m <= part {
      SameLength(m, part);
    }
    hide Complete, Message;
    Nested(m, part, all);
  }

  lemma Nested(a: Bytes, b: Bytes, all: Bytes)
    requires a <= all && b <= all
    ensures a <= b || b < a
  {
    if |a| <= |b| {
      assert b[..|a|] == all[..|a|] == a;
    } else {
      assert a[..|b|] == all[..|b|] == b;
    }
  }

  /** A stream that ends inside a record: what is kept is the stream and as many zeros as were missing. */
  lemma TruncatedIsPadded(s: Bytes, n: nat)
    requires |s| >= 5 && n == var hi: nat, lo: nat := s[3], s[4]; 256 * hi + lo
    requires 1 <= n <= 16384 && |s| < 5 + n
    ensures var (body, raw, rest) := Gather([], [], s);
      body == None && rest == [] && |raw| == 5 + n && s <= raw && forall i :: |s| <= i < 5 + n ==> raw[i] == 0
  {
    assert s[3..][0] == s[3] && s[3..][1] == s[4];
    var (ok, rec, rest) := ReadRecord(s);
    assert [] + rec == rec;
  }

  datatype Ext = Ext(typ: nat, data: Bytes)

  datatype Name = Name(kind: byte, text: Bytes)

  /** The parts of a ClientHello; `fixed` is its version and random. */
  datatype ClientHello = ClientHello(fixed: Bytes, session: Bytes, suites: Bytes, compression: Bytes, exts: seq<Ext>)

  predicate ExtsFit(es: seq<Ext>) {
    forall e :: e in es ==> e.typ < 0x1_0000 && |e.data| < 0x1_0000
  }

  function ExtBytes(es: seq<Ext>): Bytes
    requires ExtsFit(es)
  {
    if es == [] then [] else U16(es[0].typ) + U16(|es[0].data|) + es[0].data + ExtBytes(es[1..])
  }

  predicate Fits(ch: ClientHello) {
    && |ch.fixed| == 34 && |ch.session| < 0x100 && |ch.suites| < 0x1_0000 && |ch.compression| < 0x100
    && ExtsFit(ch.exts) && |ExtBytes(ch.exts)| < 0x1_0000
  }

  function Body(ch: ClientHello): Bytes
    requires Fits(ch)
  {
    ch.fixed + ([|ch.session|] + ch.session) + (U16(|ch.suites|) + ch.suites)
    + ([|ch.compression|] + ch.compression) + (U16(|ExtBytes(ch.exts)|) + ExtBytes(ch.exts))
  }

  predicate NamesFit(ns: seq<Name>) {
    forall n :: n in ns ==> |n.text| < 0x1_0000
  }

  function NameBytes(ns: seq<Name>): Bytes
    requires NamesFit(ns)
  {
    if ns == [] then [] else [ns[0].kind] + U16(|ns[0].text|) + ns[0].text + NameBytes(ns[1..])
  }

  /** The first host name of a list. */
  function FirstHost(ns: seq<Name>): Bytes {
    if ns == [] then [] else if ns[0].kind == 0 then ns[0].text else FirstHost(ns[1..])
  }

  /** The first server_name extension decides. */
  function HostOf(es: seq<Ext>): Option<Bytes> {
    if es == [] then Some([])
    else if es[0].typ == 0 then ServerName(es[0].data)
    else HostOf(es[1..])
  }

  lemma GetU16Front(n: nat, rest: Bytes)
    requires n < 0x1_0000
    ensures |U16(n) + rest| >= 2 && GetU16(U16(n) + rest) == n && (U16(n) + rest)[2..] == rest
  {
    var s := U16(n) + rest;
    assert s[0] == U16(n)[0] && s[1] == U16(n)[1];
  }

  lemma {:induction false} NamesParsed(ns: seq<Name>)
    requires NamesFit(ns)
    ensures Names(NameBytes(ns)) == Some(FirstHost(ns))
  {
    if ns != [] {
      var n, tail := ns[0], ns[1..];
      var b := NameBytes(ns);
      assert b[1..] == U16(|n.text|) + (n.text + NameBytes(tail));
      GetU16Front(|n.text|, n.text + NameBytes(tail));
      assert b[3..3 + |n.text|] == n.text && b[3 + |n.text|..] == NameBytes(tail);
      NamesParsed(tail);
      hide GetU16, U16;
    }
  }

  /** A list of names, whatever follows it in the extension. */
  lemma ServerNameParsed(ns: seq<Name>, junk: Bytes)
    requires NamesFit(ns) && |NameBytes(ns)| < 0x1_0000
    ensures ServerName(U16(|NameBytes(ns)|) + NameBytes(ns) + junk) == Some(FirstHost(ns))
  {
    var list := NameBytes(ns);
    var data := U16(|list|) + list + junk;
    assert data == U16(|list|) + (list + junk);
    GetU16Front(|list|, list + junk);
    assert data[2..2 + |list|] == list;
    NamesParsed(ns);
    hide GetU16, U16, Names;
  }

  lemma {:induction false} ExtensionsParsed(es: seq<Ext>)
    requires ExtsFit(es)
    ensures Extensions(ExtBytes(es)) == HostOf(es)
  {
    if es != [] {
      var e, tail := es[0], es[1..];
      var b := ExtBytes(es);
      assert b == U16(e.typ) + (U16(|e.data|) + (e.data + ExtBytes(tail)));
      GetU16Front(e.typ, U16(|e.data|) + (e.data + ExtBytes(tail)));
      GetU16Front(|e.data|, e.data + ExtBytes(tail));
      assert b[4..4 + |e.data|] == e.data && b[4 + |e.data|..] == ExtBytes(tail);
      ExtensionsParsed(tail);
      hide GetU16, U16, ServerName;
    }
  }

  lemma Skip8Front(x: Bytes, rest: Bytes)
    requires |x| < 0x100
    ensures Skip8([|x|] + x + rest) == Some(rest)
  {
    assert ([|x|] + x + rest)[1 + |x|..] == rest;
  }

  lemma Skip16Front(x: Bytes, rest: Bytes)
    requires |x| < 0x1_0000
    ensures Skip16(U16(|x|) + x + rest) == Some(rest)
    ensures GetU16(U16(|x|) + x + rest) == |x|
  {
    assert U16(|x|) + x + rest == U16(|x|) + (x + rest);
    GetU16Front(|x|, x + rest);
    assert (U16(|x|) + x + rest)[2 + |x|..] == rest;
  }

  /** Parsing a serialized ClientHello finds what its extensions say. */
  lemma HelloParsed(ch: ClientHello)
    requires Fits(ch)
    ensures Hello(Body(ch)) == HostOf(ch.exts)
  {
    var e := ExtBytes(ch.exts);
    var b4 := U16(|e|) + e;
    var b3 := [|ch.compression|] + ch.compression + b4;
    var b2 := U16(|ch.suites|) + ch.suites + b3;
    var b1 := [|ch.session|] + ch.session + b2;
    assert Body(ch) == ch.fixed + b1;
    assert Body(ch)[34..] == b1;
    Skip8Front(ch.session, b2);
    Skip16Front(ch.suites, b3);
    Skip8Front(ch.compression, b4);
    Skip16Front(e, []);
    assert U16(|e|) + e + [] == b4;
    assert b4[2..2 + |e|] == e;
    ExtensionsParsed(ch.exts);
    hide Skip8, Skip16, GetU16, U16, Extensions, Body, ExtBytes, HostOf, Hello, Fits;
    HelloSteps(Body(ch), b2, b3, b4);
  }

  lemma HelloSteps(body: Bytes, b2: Bytes, b3: Bytes, b4: Bytes)
    requires |body| >= 34 && b4 != []
    requires Skip8(body[34..]) == Some(b2) && Skip16(b2) == Some(b3) && Skip8(b3) == Some(b4) && Skip16(b4).Some?
    ensures Hello(body) == Extensions(b4[2..2 + GetU16(b4)])
  {
    hide Skip8, Extensions, GetU16;
  }

  /** What is accepted has the fields of a ClientHello; the extensions may be missing, and something may follow them. */
  lemma HelloSound(body: Bytes) returns (session: Bytes, suites: Bytes, compression: Bytes, tail: Bytes)
    requires Hello(body).Some?
    ensures |body| >= 34 && |session| < 0x100 && |suites| < 0x1_0000 && |compression| < 0x100
    ensures body == body[..34] + ([|session|] + session + (U16(|suites|) + suites + ([|compression|] + compression + tail)))
    ensures if tail == [] then Hello(body) == Some([])
            else exists exts, junk ::
              |exts| < 0x1_0000 && tail == U16(|exts|) + exts + junk && Hello(body) == Extensions(exts)
  {
    hide Skip8, Skip16, Extensions, GetU16, U16;
    var b1 := body[34..];
    var b2 := Skip8(b1).value;
    var b3 := Skip16(b2).value;
    tail := Skip8(b3).value;
    session := Skipped8(b1);
    suites := Skipped16(b2);
    compression := Skipped8(b3);
    assert body == body[..34] + b1;
    assert [|compression|] + compression + tail == b3;
    if tail != [] {
      var exts := Skipped16(tail);
      Sliced16(tail, exts);
      assert tail == U16(|exts|) + exts + Skip16(tail).value;
    }
  }

  lemma Sliced16(b: Bytes, x: Bytes)
    requires Skip16(b).Some? && |x| < 0x1_0000 && b == U16(|x|) + x + Skip16(b).value
    ensures x == b[2..2 + GetU16(b)]
  {
    GetU16Front(|x|, x + Skip16(b).value);
    assert U16(|x|) + x + Skip16(b).value == U16(|x|) + (x + Skip16(b).value);
    hide Skip16, GetU16, U16;
  }

  lemma Skipped8(b: Bytes) returns (x: Bytes)
    requires Skip8(b).Some?
    ensures |x| < 0x100 && b == [|x|] + x + Skip8(b).value
  {
    x := b[1..1 + b[0]];
  }

  lemma Skipped16(b: Bytes) returns (x: Bytes)
    requires Skip16(b).Some?
    ensures |x| < 0x1_0000 && b == U16(|x|) + x + Skip16(b).value
  {
    x := b[2..2 + GetU16(b)];
    U16Of(b);
    assert b == b[..2] + x + Skip16(b).value;
  }

  /** What is accepted as extensions is a list of them, up to the first server_name or to a rest too short for one. */
  lemma {:induction false} ExtensionsSound(b: Bytes) returns (es: seq<Ext>, rest: Bytes)
    requires Extensions(b).Some?
    ensures ExtsFit(es) && b == ExtBytes(es) + rest && Extensions(b) == HostOf(es)
    ensures |rest| < 4 || (es != [] && es[|es| - 1].typ == 0)
    ensures forall i :: 0 <= i < |es| - 1 ==> es[i].typ != 0
  {
    if |b| < 4 {
      es, rest := [], b;
      assert [] + b == b;
    } else {
      var e := FirstExt(b);
      if e.typ == 0 {
        es, rest := [e], b[4 + |e.data|..];
        OneExt(e);
      } else {
        es, rest := ExtensionsSound(b[4 + |e.data|..]);
        assert ([e] + es)[1..] == es;
        var front := U16(e.typ) + U16(|e.data|) + e.data;
        assert front + (ExtBytes(es) + rest) == front + ExtBytes(es) + rest;
        es := [e] + es;
      }
    }
  }

  /** And as a list of names, up to the first host name or to a rest too short for one. */
  lemma {:induction false} NamesSound(b: Bytes) returns (ns: seq<Name>, rest: Bytes)
    requires Names(b).Some?
    ensures NamesFit(ns) && b == NameBytes(ns) + rest && Names(b) == Some(FirstHost(ns))
    ensures |rest| < 3 || (ns != [] && ns[|ns| - 1].kind == 0)
  {
    if |b| < 3 {
      ns, rest := [], b;
      assert [] + b == b;
    } else {
      var n := FirstName(b);
      if n.kind == 0 {
        ns, rest := [n], b[3 + |n.text|..];
        assert NameBytes([n]) == [n.kind] + U16(|n.text|) + n.text + NameBytes([]);
      } else {
        ns, rest := NamesSound(b[3 + |n.text|..]);
        assert ([n] + ns)[1..] == ns;
        var front := [n.kind] + U16(|n.text|) + n.text;
        assert front + (NameBytes(ns) + rest) == front + NameBytes(ns) + rest;
        ns := [n] + ns;
      }
    }
  }

  lemma FirstName(b: Bytes) returns (n: Name)
    requires |b| >= 3 && Names(b).Some?
    ensures |n.text| < 0x1_0000 && 3 + |n.text| <= |b| && b == [n.kind] + U16(|n.text|) + n.text + b[3 + |n.text|..]
    ensures Names(b) == if n.kind == 0 then Some(n.text) else Names(b[3 + |n.text|..])
  {
    n := Name(b[0], b[3..3 + GetU16(b[1..])]);
    U16Of(b[1..]);
    assert b[1..][..2] == b[1..3];
    assert b == [b[0]] + b[1..3] + n.text + b[3 + |n.text|..];
    hide GetU16, U16;
  }

  lemma OneExt(e: Ext)
    requires e.typ < 0x1_0000 && |e.data| < 0x1_0000
    ensures ExtsFit([e]) && ExtBytes([e]) == U16(e.typ) + U16(|e.data|) + e.data
  {
    assert ExtBytes([e]) == U16(e.typ) + U16(|e.data|) + e.data + ExtBytes([]);
  }

  lemma FirstExt(b: Bytes) returns (e: Ext)
    requires |b| >= 4 && Extensions(b).Some?
    ensures e.typ < 0x1_0000 && |e.data| < 0x1_0000 && 4 + |e.data| <= |b|
    ensures b == U16(e.typ) + U16(|e.data|) + e.data + b[4 + |e.data|..]
    ensures Extensions(b) == if e.typ == 0 then ServerName(e.data) else Extensions(b[4 + |e.data|..])
  {
    e := Ext(GetU16(b), b[4..4 + GetU16(b[2..])]);
    U16Of(b);
    U16Of(b[2..]);
    assert b[2..][..2] == b[2..4];
    assert b == b[..2] + b[2..4] + e.data + b[4 + |e.data|..];
    hide ServerName, GetU16, U16;
  }

  lemma {:induction false} HostAfter(before: seq<Ext>, es: seq<Ext>)
    requires forall e :: e in before ==> e.typ != 0
    ensures HostOf(before + es) == HostOf(es)
  {
    if before == [] {
      assert before + es == es;
    } else {
      assert (before + es)[1..] == before[1..] + es;
      HostAfter(before[1..], es);
    }
  }

  /**
    The host name a client puts in its ClientHello is the one that is found, after any other
    extensions and names of other kinds and before any others.
   */
  lemma SniRoundTrip(ch: ClientHello, before: seq<Ext>, others: seq<Name>, host: Bytes, later: seq<Name>, after: seq<Ext>)
    requires Fits(ch) && (forall e :: e in before ==> e.typ != 0)
    requires NamesFit(others + [Name(0, host)] + later) && forall n :: n in others ==> n.kind != 0
    requires |NameBytes(others + [Name(0, host)] + later)| < 0x1_0000
    requires var list := NameBytes(others + [Name(0, host)] + later);
      ch.exts == before + ([Ext(0, U16(|list|) + list)] + after)
    ensures Hello(Body(ch)) == Some(host)
  {
    var ns := others + [Name(0, host)] + later;
    HelloParsed(ch);
    assert ns == others + ([Name(0, host)] + later);
    FirstAfter(others, [Name(0, host)] + later);
    hide U16, NameBytes, Hello, Body, Fits, ServerName;
    SniDecides(before, NameBytes(ns), after);
    ServerNameParsed(ns, []);
    assert U16(|NameBytes(ns)|) + NameBytes(ns) + [] == U16(|NameBytes(ns)|) + NameBytes(ns);
  }

  /** And that in any fragmentation: exactly the records are consumed, and the rest of the stream is left. */
  lemma SniInFragments(ch: ClientHello, before: seq<Ext>, others: seq<Name>, host: Bytes, later: seq<Name>, after: seq<Ext>,
                       fs: seq<Fragment>, rest: Bytes)
    requires Fits(ch) && (forall e :: e in before ==> e.typ != 0)
    requires NamesFit(others + [Name(0, host)] + later) && forall n :: n in others ==> n.kind != 0
    requires |NameBytes(others + [Name(0, host)] + later)| < 0x1_0000
    requires var list := NameBytes(others + [Name(0, host)] + later);
      ch.exts == before + ([Ext(0, U16(|list|) + list)] + after)
    requires Carries(fs, Body(ch))
    ensures var (body, raw, left) := Gather([], [], Records(fs) + rest);
      body.Some? && Hello(body.value) == Some(host) && raw == Records(fs) && left == rest
  {
    SplitIndependence(fs, Body(ch), rest);
    hide Gather, Hello, Body, Carries, Fits, NameBytes, U16;
    SniRoundTrip(ch, before, others, host, later, after);
  }

  lemma SniDecides(before: seq<Ext>, list: Bytes, after: seq<Ext>)
    requires |list| < 0x1_0000 && forall e :: e in before ==> e.typ != 0
    ensures HostOf(before + ([Ext(0, U16(|list|) + list)] + after)) == ServerName(U16(|list|) + list)
  {
    HostAfter(before, [Ext(0, U16(|list|) + list)] + after);
    hide U16, ServerName;
  }

  lemma {:induction false} FirstAfter(others: seq<Name>, ns: seq<Name>)
    requires forall n :: n in others ==> n.kind != 0
    ensures FirstHost(others + ns) == FirstHost(ns)
  {
    if others == [] {
      assert others + ns == ns;
    } else {
      assert (others + ns)[1..] == others[1..] + ns;
      FirstAfter(others[1..], ns);
    }
  }
}
