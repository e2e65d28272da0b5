/** Byte streams whose reader does not control how the bytes are cut up. */
module Streams {
  import opened Wire

  /** Peeking gives up on a head that is longer. */
  const MAX_PEEK_BYTES: nat := 64 * 1024

  /** A connection, as one end sees it: what is still to arrive before the end, and what was sent. */
  class Stream {
    var input: Bytes
    var output: Bytes

    constructor (input: Bytes)
      ensures this.input == input && output == []
    {
      this.input, output := input, [];
    }

    /** At most `max` of the bytes that have arrived; none at the end of the stream. */
    method Read(max: nat) returns (chunk: Bytes)
      modifies this`input
      ensures |chunk| <= max && old(input) == chunk + input
      ensures chunk == [] && max > 0 ==> input == []
    {
      if input == [] || max == 0 {
        return [];
      }
      var n: nat :| 1 <= n <= max && n <= |input|;
      chunk, input := input[..n], input[n..];
    }

    /** io.ReadFull: `n` bytes, however they arrive, or failure with nothing left. */
    method ReadFull(n: nat) returns (ok: bool, data: Bytes)
      modifies this`input
      ensures ok == (|old(input)| >= n)
      ensures if ok then data == old(input)[..n] && input == old(input)[n..] else data == old(input) && input == []
    {
      data := [];
      while |data| < n
        invariant |data| <= n && data + input == old(input)
      {
        var chunk := Read(n - |data|);
        if chunk == [] {
          return false, data;
        }
        data := data + chunk;
      }
      ok := true;
    }

    method Write(b: Bytes)
      modifies this`output
      ensures output == old(output) + b
    {
      output := output + b;
    }
  }
}
