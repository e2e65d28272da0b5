/** IP addresses, masks and prefixes as Go's net package represents them. */
module Address {
  import opened Options

  /** net.IP: 4 or 16 bytes when valid; the empty sequence is the nil address. */
  type IP = seq<bv8>

  const V4_IN_V6: IP := [0, 0, 0, 0, 0, 0, 0, 0, 0, 0, 0xff, 0xff]
  const V4_ZERO: IP := [0, 0, 0, 0]
  const V6_ZERO: IP := V4_ZERO + V4_ZERO + V4_ZERO + V4_ZERO

  /** The 4-byte form of an IPv4 or IPv4-mapped address. */
  function To4(ip: IP): Option<IP> {
    if |ip| == 4 then Some(ip)
    else if |ip| == 16 && ip[..12] == V4_IN_V6 then Some(ip[12..])
    else None
  }

  function Normalize(ip: IP): IP {
    if To4(ip).Some? then To4(ip).value else ip
  }

  predicate IsUnspecified(ip: IP) {
    To4(ip) == Some(V4_ZERO) || ip == V6_ZERO
  }

  /** IP.Equal identifies an IPv4 address with its mapped form. */
  predicate Equal(a: IP, b: IP) {
    a == b || (|a| != |b| && To4(a).Some? && To4(a) == To4(b))
  }

  /** The key under which bans are recorded: one per address, none for nil and unspecified ones. */
  function Key(ip: IP): Option<IP> {
    if ip == [] || IsUnspecified(ip) then None else Some(Normalize(ip))
  }

  lemma KeyOfKey(ip: IP)
    requires Key(ip).Some?
    ensures Key(Key(ip).value) == Key(ip)
    ensures To4(Key(ip).value) == To4(ip)
  {
    if |ip| == 16 && ip[..12] == V4_IN_V6 {
      assert |ip[12..]| == 4;
    }
  }

  lemma EqualSameKey(a: IP, b: IP)
    requires Equal(a, b)
    ensures Key(a) == Key(b)
  {}

  lemma SameKeyEqual(a: IP, b: IP)
    requires Key(a).Some? && Key(a) == Key(b)
    ensures Equal(a, b)
  {
    if |a| == |b| == 16 {
      assert a == a[..12] + a[12..] && b == b[..12] + b[12..];
    }
  }

  lemma NormalizeEqual(a: IP, b: IP)
    requires |a| in {4, 16} && |b| in {4, 16}
    ensures Normalize(a) == Normalize(b) <==> Equal(a, b)
  {
    if |a| == |b| == 16 {
      assert a == a[..12] + a[12..] && b == b[..12] + b[12..];
    }
  }

  /** The `n` highest bits set. */
  function TopBits(n: nat): bv8
    requires n <= 8
  {
    [0x00, 0x80, 0xc0, 0xe0, 0xf0, 0xf8, 0xfc, 0xfe, 0xff][n]
  }

  /** How many leading bits are set, if no other bit is. */
  function LeadingOnes(v: bv8): Option<nat> {
    if v == 0x00 then Some(0) else if v == 0x80 then Some(1) else if v == 0xc0 then Some(2)
    else if v == 0xe0 then Some(3) else if v == 0xf0 then Some(4) else if v == 0xf8 then Some(5)
    else if v == 0xfc then Some(6) else if v == 0xfe then Some(7) else if v == 0xff then Some(8)
    else None
  }

  /** net.CIDRMask, for a mask of `bytes` bytes. */
  function CIDRMask(ones: nat, bytes: nat): (m: seq<bv8>)
    requires ones <= 8 * bytes
    ensures |m| == bytes
    decreases bytes
  {
    if bytes == 0 then []
    else if ones >= 8 then [0xff] + CIDRMask(ones - 8, bytes - 1)
    else [TopBits(ones)] + CIDRMask(0, bytes - 1)
  }

  /** The first loop of IPMask.Size: None for a mask whose set bits are not all leading. */
  function MaskOnes(m: seq<bv8>): Option<nat> {
    if m == [] then Some(0)
    else if m[0] == 0xff then
      var rest := MaskOnes(m[1..]);
      if rest.None? then None else Some(8 + rest.value)
    else if m[1..] == CIDRMask(0, |m| - 1) then LeadingOnes(m[0])
    else None
  }

  /** IPMask.Size: (ones, bits), and (0, 0) for an irregular mask. */
  function Size(m: seq<bv8>): (nat, nat) {
    var ones := MaskOnes(m);
    if ones.None? then (0, 0) else (ones.value, 8 * |m|)
  }

  lemma {:induction false} MaskRoundTrip(ones: nat, bytes: nat)
    requires ones <= 8 * bytes
    ensures MaskOnes(CIDRMask(ones, bytes)) == Some(ones)
    decreases bytes
  {
    if bytes > 0 {
      MaskRoundTrip(if ones >= 8 then ones - 8 else 0, bytes - 1);
      assert CIDRMask(ones, bytes)[1..] == CIDRMask(if ones >= 8 then ones - 8 else 0, bytes - 1);
    }
  }

  /** A regular mask is determined by its length and its number of ones. */
  lemma {:induction false} MaskUnique(m: seq<bv8>)
    requires MaskOnes(m).Some?
    ensures MaskOnes(m).value <= 8 * |m| && m == CIDRMask(MaskOnes(m).value, |m|)
  {
    if m != [] {
      assert m == [m[0]] + m[1..];
      if m[0] == 0xff {
        MaskUnique(m[1..]);
      }
    }
  }

  lemma {:induction false} MaskDrop(ones: nat, bytes: nat, k: nat)
    requires k <= bytes && 8 * k <= ones <= 8 * bytes
    ensures CIDRMask(ones, bytes)[k..] == CIDRMask(ones - 8 * k, bytes - k)
    decreases k
  {
    if k > 0 {
      MaskDrop(ones - 8, bytes - 1, k - 1);
      assert CIDRMask(ones, bytes)[k..] == CIDRMask(ones - 8, bytes - 1)[k - 1..];
    }
  }

  /** net.IPNet. */
  datatype IPNet = IPNet(ip: IP, mask: seq<bv8>)

  /** networkNumberAndMask: None where the source returns nil. */
  function NumberAndMask(n: IPNet): Option<(IP, seq<bv8>)> {
    var v4 := To4(n.ip);
    if v4.None? && |n.ip| != 16 then None
    else
      var ip := if v4.Some? then v4.value else n.ip;
      if |n.mask| == 4 then (if |ip| == 4 then Some((ip, n.mask)) else None)
      else if |n.mask| == 16 then Some((ip, if |ip| == 4 then n.mask[12..] else n.mask))
      else None
  }

  /** Equal in every bit the mask selects. */
  predicate Matches(nn: IP, m: seq<bv8>, ip: IP)
    requires |m| == |nn|
  {
    |ip| == |nn| && forall i :: 0 <= i < |nn| ==> Same(nn[i], ip[i], m[i])
  }

  predicate Same(x: bv8, y: bv8, m: bv8) {
    x & m == y & m
  }

  /** IPNet.Contains. The comparison loop of the source is `Matches`; a nil network has no bytes to compare. */
  predicate Contains(n: IPNet, ip: IP) {
    var nm := NumberAndMask(n);
    if nm.None? then ip == [] else Matches(nm.value.0, nm.value.1, Normalize(ip))
  }

  /** canonicalizeNet: an IPv4-mapped prefix becomes an IPv4 prefix. */
  function Canonicalize(n: IPNet): IPNet {
    var v4 := To4(n.ip);
    if v4.None? then n
    else if |n.mask| == 16 && Size(n.mask).0 >= 96
    then (MaskUnique(n.mask); IPNet(v4.value, CIDRMask(Size(n.mask).0 - 96, 4)))
    else IPNet(v4.value, n.mask)
  }

  lemma CanonicalizeKeepsNumber(n: IPNet)
    ensures NumberAndMask(Canonicalize(n)) == NumberAndMask(n)
  {
    var v4 := To4(n.ip);
    if v4.Some? {
      assert |v4.value| == 4 && To4(v4.value) == v4;
      if |n.mask| == 16 && Size(n.mask).0 >= 96 {
        MappedMask(n.mask);
        hide CIDRMask, Size, MaskOnes;
      }
    }
  }

  lemma MappedMask(m: seq<bv8>)
    requires |m| == 16 && Size(m).0 >= 96
    ensures Size(m).0 <= 128 && m[12..] == CIDRMask(Size(m).0 - 96, 4)
  {
    MaskUnique(m);
    MaskDrop(Size(m).0, 16, 12);
    hide CIDRMask, MaskOnes;
  }

  /** Rewriting a prefix never changes which addresses it contains. */
  lemma CanonicalizeKeepsMembers(n: IPNet, ip: IP)
    ensures Contains(Canonicalize(n), ip) == Contains(n, ip)
  {
    CanonicalizeKeepsNumber(n);
    hide Canonicalize, NumberAndMask;
  }

  /** What net.ParseCIDR and net.ParseIP can return: regular masks of the right length. */
  predicate Regular(n: IPNet) {
    && MaskOnes(n.mask).Some?
    && |n.ip| == |n.mask| && |n.ip| in {4, 16}
    && (To4(n.ip).Some? && |n.mask| == 16 ==> MaskOnes(n.mask).value >= 96)
  }

  /** The key of a prefix: its text is the address and the number of ones. */
  function NetKey(n: IPNet): (IP, nat) {
    (Normalize(n.ip), Size(n.mask).0)
  }

  /** Prefixes with the same key contain the same addresses. */
  lemma SameKeySameMembers(m: IPNet, n: IPNet, ip: IP)
    requires Regular(m) && Regular(n) && NetKey(Canonicalize(m)) == NetKey(Canonicalize(n))
    ensures Contains(m, ip) == Contains(n, ip)
  {
    CanonicalRegular(m);
    CanonicalRegular(n);
    CanonicalizeKeepsMembers(m, ip);
    CanonicalizeKeepsMembers(n, ip);
    MaskUnique(Canonicalize(m).mask);
    MaskUnique(Canonicalize(n).mask);
  }

  lemma CanonicalRegular(n: IPNet)
    requires Regular(n)
    ensures var c := Canonicalize(n);
      MaskOnes(c.mask).Some? && |c.mask| == |c.ip| && Normalize(c.ip) == c.ip
  {
    MaskUnique(n.mask);
    if To4(n.ip).Some? && |n.mask| == 16 {
      MaskRoundTrip(Size(n.mask).0 - 96, 4);
    }
  }
}
