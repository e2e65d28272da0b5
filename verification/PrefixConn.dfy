/** A connection on which bytes that were peeked at are read again first. */
module PrefixConn {
  import opened Options
  import opened Streams
  import opened Wire
  import TlsHello
  import TlsHelloTheorems
  import HttpPeek

  class PrefixConn {
    const conn: Stream
    var prefix: Bytes

    constructor (conn: Stream, prefix: Bytes)
      ensures this.conn == conn && this.prefix == prefix
    {
      this.conn, this.prefix := conn, prefix;
    }

    /** Everything that is still to be read. */
    ghost function Remaining(): Bytes
      reads this, conn
    {
      prefix + conn.input
    }

    /** Into a buffer of `max` bytes: from the prefix while there is one, then from the connection. */
    method Read(max: nat) returns (chunk: Bytes)
      modifies this, conn`input
      ensures |chunk| <= max && old(Remaining()) == chunk + Remaining()
      ensures chunk == [] && max > 0 ==> Remaining() == []
      ensures old(prefix) != [] ==> chunk <= old(prefix) && conn.input == old(conn.input)
    {
      if |prefix| > 0 {
        var n := if max < |prefix| then max else |prefix|;
        chunk, prefix := prefix[..n], prefix[n..];
        return;
      }
      chunk := conn.Read(max);
    }

    /** Any sequence of buffer sizes reads the original stream, in order and without gaps. */
    method ReadMany(sizes: seq<nat>) returns (data: Bytes)
      modifies this, conn`input
      ensures old(Remaining()) == data + Remaining()
      ensures |data| < Proper(sizes) ==> Remaining() == []
    {
      data := [];
      assert sizes[..0] == [];
      for i := 0 to |sizes|
        invariant old(Remaining()) == data + Remaining()
        invariant |data| < Proper(sizes[..i]) ==> Remaining() == []
      {
        assert sizes[..i + 1][..i] == sizes[..i];
        var chunk := Read(sizes[i]);
        data := data + chunk;
      }
      assert sizes[..|sizes|] == sizes;
    }
  }

  /** How many of the buffers can hold anything. */
  ghost function Proper(sizes: seq<nat>): nat {
    if sizes == [] then 0
    else Proper(sizes[..|sizes| - 1]) + if sizes[|sizes| - 1] > 0 then 1 else 0
  }

  /** A peeked-at TLS connection, replayed, is the original one. */
  method ReplayHello(conn: Stream) returns (sni: Option<Bytes>, replay: PrefixConn)
    modifies conn`input
    ensures fresh(replay) && replay.conn == conn
    ensures sni.Some? ==> replay.Remaining() == old(conn.input)
  {
    ghost var s := conn.input;
    TlsHelloTheorems.HelloIsReplayed(s);
    var raw;
    sni, raw := TlsHello.PeekClientHello(conn);
    ghost var gathered := TlsHello.Gather([], [], s);
    assert raw == gathered.1 && conn.input == gathered.2 && (sni.Some? ==> gathered.0.Some?);
    replay := new PrefixConn(conn, raw);
  }

  /** A peeked-at HTTP connection, replayed, is the original one, found out or not. */
  method ReplayHTTP(conn: Stream, hpack: HttpPeek.Hpack) returns (head: Option<HttpPeek.Head>, replay: PrefixConn)
    modifies conn`input
    ensures fresh(replay) && replay.conn == conn && replay.Remaining() == old(conn.input)
  {
    var raw;
    head, raw := HttpPeek.PeekHTTP(conn, hpack);
    replay := new PrefixConn(conn, raw);
  }
}
