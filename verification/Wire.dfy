/** Bytes, big-endian numbers and length-prefixed strings. */
module Wire {
  import opened Options

  type byte = x: int | 0 <= x < 256

  type Bytes = seq<byte>

  function U16(n: nat): (b: Bytes)
    requires n < 0x1_0000
    ensures |b| == 2 && GetU16(b) == n
  {
    [n / 0x100, n % 0x100]
  }

  function GetU16(b: Bytes): (n: nat)
    requires |b| >= 2
    ensures n < 0x1_0000
  {
    var hi: nat, lo: nat := b[0], b[1];
    hi * 0x100 + lo
  }

  function U32(n: nat): (b: Bytes)
    requires n < 0x1_0000_0000
    ensures |b| == 4 && GetU32(b) == n
  {
    U16(n / 0x1_0000) + U16(n % 0x1_0000)
  }

  function GetU32(b: Bytes): (n: nat)
    requires |b| >= 4
    ensures n < 0x1_0000_0000
  {
    GetU16(b) * 0x1_0000 + GetU16(b[2..])
  }

  lemma U16Of(b: Bytes)
    requires |b| >= 2
    ensures U16(GetU16(b)) == b[..2]
  {}

  lemma U32Of(b: Bytes)
    requires |b| >= 4
    ensures U32(GetU32(b)) == b[..4]
  {
    U16Of(b);
    U16Of(b[2..]);
    var hi, lo := GetU16(b), GetU16(b[2..]);
    assert (hi * 0x1_0000 + lo) / 0x1_0000 == hi && (hi * 0x1_0000 + lo) % 0x1_0000 == lo;
  }

  /** A string goes with a 16-bit length, and not at all if it is longer. */
  function PutString(s: Bytes): Option<Bytes> {
    if |s| > 65535 then None else Some(U16(|s|) + s)
  }

  function GetString(b: Bytes): Option<(Bytes, Bytes)> {
    if |b| < 2 then None
    else
      var n := GetU16(b);
      if |b| - 2 < n then None else Some((b[2..2 + n], b[2 + n..]))
  }

  lemma GetPut(s: Bytes, rest: Bytes)
    requires PutString(s).Some?
    ensures GetString(PutString(s).value + rest) == Some((s, rest))
  {
    var b := PutString(s).value + rest;
    assert b[..2] == U16(|s|);
    assert GetU16(b) == |s|;
    assert b[2..2 + |s|] == s && b[2 + |s|..] == rest;
  }

  lemma PutGet(b: Bytes)
    requires GetString(b).Some?
    ensures PutString(GetString(b).value.0).Some?
    ensures b == PutString(GetString(b).value.0).value + GetString(b).value.1
  {
    var n := GetU16(b);
    U16Of(b);
    assert b == b[..2] + b[2..2 + n] + b[2 + n..];
  }

  /** The four bytes of a number, the highest first. */
  predicate BigEndian(b: Bytes, n: nat) {
    |b| == 4 && var w: int, x: int, y: int, z: int := b[0], b[1], b[2], b[3]; n == 16777216 * w + 65536 * x + 256 * y + z
  }

  lemma BigEndianUnique(a: Bytes, b: Bytes, n: nat)
    requires BigEndian(a, n) && BigEndian(b, n)
    ensures a == b
  {
    assert GetU32(a) == n == GetU32(b) by {
      assert a[2..][0] == a[2] && a[2..][1] == a[3] && b[2..][0] == b[2] && b[2..][1] == b[3];
    }
    U32Of(a);
    U32Of(b);
    assert a[..4] == a && b[..4] == b;
    hide BigEndian, GetU32, U32;
  }

  lemma U32IsBigEndian(n: nat)
    requires n < 0x1_0000_0000
    ensures BigEndian(U32(n), n)
  {
    var hi, lo := n / 0x1_0000, n % 0x1_0000;
    assert U32(n) == [hi / 0x100, hi % 0x100, lo / 0x100, lo % 0x100];
  }

  lemma GetU32IsBigEndian(b: Bytes)
    requires |b| >= 4
    ensures BigEndian(b[..4], GetU32(b))
  {
    assert b[2..][0] == b[2] && b[2..][1] == b[3];
  }

  /** The bytes of a text that has only one-byte characters. */
  function Ascii(s: string): (b: Bytes)
    requires forall i :: 0 <= i < |s| ==> s[i] as int < 256
    ensures |b| == |s| && forall i :: 0 <= i < |s| ==> b[i] == s[i] as int
  {
    seq(|s|, i requires 0 <= i < |s| && s[i] as int < 256 => Code(s[i]))
  }

  function Code(c: char): byte
    requires c as int < 256
  {
    c as int
  }

  /** A string behind its length in two bytes, the higher first. */
  function Prefixed(s: Bytes): Bytes
    requires |s| < 65536
  {
    [|s| / 256, |s| % 256] + s
  }

  lemma PutIsPrefixed(s: Bytes)
    ensures PutString(s) == if |s| < 65536 then Some(Prefixed(s)) else None
  {}
}
