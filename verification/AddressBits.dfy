/** Addresses and prefixes as numbers, without masks: what it means to lie in a prefix. */
module AddressBits {
  import opened Options
  import opened Address

  function Pow2(k: nat): (p: nat)
    ensures p > 0
  {
    if k == 0 then 1 else 2 * Pow2(k - 1)
  }

  /** The bytes as a number, the highest byte first. */
  function Value(b: seq<bv8>): nat {
    if b == [] then 0 else (b[0] as nat) * Pow2(8 * (|b| - 1)) + Value(b[1..])
  }

  /** A number whose part from `p` upwards is `x`. */
  function Join(x: nat, p: nat, s: nat): nat { x * p + s }

  /** The part of `n` from `p` upwards. */
  function High(n: nat, p: nat): nat
    requires p > 0
  {
    n / p
  }

  lemma Shift7(x: bv8)
    ensures (x >> 7) as nat == (x as nat) / 128
  {}

  lemma Shift6(x: bv8)
    ensures (x >> 6) as nat == (x as nat) / 64
  {}

  lemma Shift5(x: bv8)
    ensures (x >> 5) as nat == (x as nat) / 32
  {}

  lemma Shift4(x: bv8)
    ensures (x >> 4) as nat == (x as nat) / 16
  {}

  lemma Shift3(x: bv8)
    ensures (x >> 3) as nat == (x as nat) / 8
  {}

  lemma Shift2(x: bv8)
    ensures (x >> 2) as nat == (x as nat) / 4
  {}

  lemma Shift1(x: bv8)
    ensures (x >> 1) as nat == (x as nat) / 2
  {}

  lemma SameByte(x: bv8, y: bv8)
    ensures x == y <==> x as nat == y as nat
  {}

  lemma Selects(x: bv8, y: bv8)
    ensures x & 0x80 == y & 0x80 <==> x >> 7 == y >> 7
    ensures x & 0xc0 == y & 0xc0 <==> x >> 6 == y >> 6
    ensures x & 0xe0 == y & 0xe0 <==> x >> 5 == y >> 5
    ensures x & 0xf0 == y & 0xf0 <==> x >> 4 == y >> 4
    ensures x & 0xf8 == y & 0xf8 <==> x >> 3 == y >> 3
    ensures x & 0xfc == y & 0xfc <==> x >> 2 == y >> 2
    ensures x & 0xfe == y & 0xfe <==> x >> 1 == y >> 1
  {}

  lemma Top1(x: bv8, y: bv8)
    ensures Same(x, y, 0x80) <==> High(x as nat, 128) == High(y as nat, 128)
  {
    Shift7(x);
    Shift7(y);
    SameByte(x >> 7, y >> 7);
    Selects(x, y);
  }

  lemma Top2(x: bv8, y: bv8)
    ensures Same(x, y, 0xc0) <==> High(x as nat, 64) == High(y as nat, 64)
  {
    Shift6(x);
    Shift6(y);
    SameByte(x >> 6, y >> 6);
    Selects(x, y);
  }

  lemma Top3(x: bv8, y: bv8)
    ensures Same(x, y, 0xe0) <==> High(x as nat, 32) == High(y as nat, 32)
  {
    Shift5(x);
    Shift5(y);
    SameByte(x >> 5, y >> 5);
    Selects(x, y);
  }

  lemma Top4(x: bv8, y: bv8)
    ensures Same(x, y, 0xf0) <==> High(x as nat, 16) == High(y as nat, 16)
  {
    Shift4(x);
    Shift4(y);
    SameByte(x >> 4, y >> 4);
    Selects(x, y);
  }

  lemma Top5(x: bv8, y: bv8)
    ensures Same(x, y, 0xf8) <==> High(x as nat, 8) == High(y as nat, 8)
  {
    Shift3(x);
    Shift3(y);
    SameByte(x >> 3, y >> 3);
    Selects(x, y);
  }

  lemma Top6(x: bv8, y: bv8)
    ensures Same(x, y, 0xfc) <==> High(x as nat, 4) == High(y as nat, 4)
  {
    Shift2(x);
    Shift2(y);
    SameByte(x >> 2, y >> 2);
    Selects(x, y);
  }

  lemma Top7(x: bv8, y: bv8)
    ensures Same(x, y, 0xfe) <==> High(x as nat, 2) == High(y as nat, 2)
  {
    Shift1(x);
    Shift1(y);
    SameByte(x >> 1, y >> 1);
    Selects(x, y);
  }

  lemma TopByte(x: bv8, y: bv8, n: nat)
    requires n <= 8
    ensures Same(x, y, TopBits(n)) <==> High(x as nat, Pow2(8 - n)) == High(y as nat, Pow2(8 - n))
  {
    SmallPowers();
    TopBitsAre();
    hide *;
    if n == 0 {
      NoneSelected(x, y);
    } else if n == 1 {
      Top1(x, y);
    } else if n == 2 {
      Top2(x, y);
    } else if n == 3 {
      Top3(x, y);
    } else if n == 4 {
      Top4(x, y);
    } else if n == 5 {
      Top5(x, y);
    } else if n == 6 {
      Top6(x, y);
    } else if n == 7 {
      Top7(x, y);
    } else {
      AllSelected(x, y);
    }
  }

  lemma TopBitsAre()
    ensures TopBits(0) == 0x00 && TopBits(1) == 0x80 && TopBits(2) == 0xc0 && TopBits(3) == 0xe0 && TopBits(4) == 0xf0
    ensures TopBits(5) == 0xf8 && TopBits(6) == 0xfc && TopBits(7) == 0xfe && TopBits(8) == 0xff
  {}

  lemma NoneSelected(x: bv8, y: bv8)
    ensures Same(x, y, 0x00) && High(x as nat, 256) == High(y as nat, 256)
  {}

  lemma AllSelected(x: bv8, y: bv8)
    ensures Same(x, y, 0xff) <==> High(x as nat, 1) == High(y as nat, 1)
  {
    AllBits(x, y);
    SameByte(x, y);
    hide Same;
  }

  lemma AllBits(x: bv8, y: bv8)
    ensures Same(x, y, 0xff) <==> x == y
  {}

  lemma SmallPowers()
    ensures Pow2(0) == 1 && Pow2(1) == 2 && Pow2(2) == 4 && Pow2(3) == 8 && Pow2(4) == 16
    ensures Pow2(5) == 32 && Pow2(6) == 64 && Pow2(7) == 128 && Pow2(8) == 256
  {
    assert Pow2(1) == 2 && Pow2(2) == 4 && Pow2(3) == 8 && Pow2(4) == 16 && Pow2(5) == 32 && Pow2(6) == 64 && Pow2(7) == 128;
  }

  lemma {:induction false} PowersAdd(a: nat, b: nat)
    ensures Pow2(a + b) == Pow2(a) * Pow2(b)
  {
    if a > 0 {
      PowersAdd(a - 1, b);
    }
  }

  lemma {:induction false} ValueBound(b: seq<bv8>)
    ensures Value(b) < Pow2(8 * |b|)
  {
    if b != [] {
      ValueBound(b[1..]);
      PowersAdd(8, 8 * (|b| - 1));
      SmallPowers();
      var p := Pow2(8 * (|b| - 1));
      hide Pow2, Value;
      ByteBound(b[0] as nat, p, Value(b[1..]));
    }
  }

  lemma ByteBound(x: nat, p: nat, r: nat)
    requires x < 256 && r < p
    ensures x * p + r < 256 * p
  {
    Distribute(x, 255, p);
    Positive(255 - x, p);
  }

  /** Two numbers written with a high part in steps of `p` and a low part below it. */
  lemma DigitsAgree(x: nat, y: nat, s: nat, t: nat, p: nat, q: nat, r: nat)
    requires q > 0 && r > 0 && p == q * r && s < p && t < p
    ensures High(Join(x, p, s), r) == High(Join(y, p, t), r) <==> x == y && High(s, r) == High(t, r)
  {
    hide *;
    Quotient(x, s, p, q, r);
    Quotient(y, t, p, q, r);
    Agree(x, y, High(s, r), High(t, r), q);
  }

  lemma Agree(x: nat, y: nat, a: nat, b: nat, q: nat)
    requires a < q && b < q
    ensures Join(x, q, a) == Join(y, q, b) <==> x == y && a == b
  {
    if x * q + a == y * q + b {
      HighLow(x, y, a, b, q);
    }
  }

  lemma {:induction false} AtLeast(d: nat, r: nat)
    requires d >= 1
    ensures d * r >= r
  {
    if d > 1 {
      AtLeast(d - 1, r);
      assert d * r == (d - 1) * r + r;
    }
  }

  lemma Distribute(x: nat, y: nat, r: nat)
    requires x <= y
    ensures y * r == x * r + (y - x) * r
  {}

  lemma HighLow(x: nat, y: nat, a: nat, b: nat, q: nat)
    requires a < q && b < q && x * q + a == y * q + b
    ensures x == y && a == b
  {
    if x < y {
      Distribute(x, y, q);
      AtLeast(y - x, q);
      assert false;
    } else if x > y {
      Distribute(y, x, q);
      AtLeast(x - y, q);
      assert false;
    }
  }

  lemma DivUnique(n: nat, r: nat, k: nat, m: nat)
    requires r > 0 && n == k * r + m && m < r
    ensures n / r == k
  {
    DivMod(n, r);
    HighLow(n / r, k, n % r, m, r);
  }

  lemma DivMod(n: nat, r: nat)
    requires r > 0
    ensures n == n / r * r + n % r && 0 <= n % r < r
  {}

  lemma Quotient(x: nat, s: nat, p: nat, q: nat, r: nat)
    requires r > 0 && p == q * r && s < p
    ensures High(Join(x, p, s), r) == Join(x, q, High(s, r)) && High(s, r) < q
  {
    var k := s / r;
    DivMod(s, r);
    Below(s, q, r);
    Assoc(x, q, r);
    Distributes(x * q, k, r);
    DivUnique(x * p + s, r, x * q + k, s % r);
  }

  lemma Assoc(x: nat, y: nat, z: nat)
    ensures x * (y * z) == x * y * z
  {}

  lemma Distributes(x: nat, y: nat, z: nat)
    ensures (x + y) * z == x * z + y * z
  {}

  lemma Below(s: nat, q: nat, r: nat)
    requires r > 0 && s < q * r
    ensures s / r < q
  {
    DivMod(s, r);
    var k := s / r;
    if k >= q {
      Distribute(q, k, r);
      Positive(k - q, r);
      assert false;
    }
  }

  lemma Positive(x: nat, y: nat)
    ensures x * y >= 0
  {}

  /** Agreement in the first `ones` bits, whatever the mask looks like. */
  lemma {:induction false} MatchesIff(nn: IP, ip: IP, ones: nat)
    requires |ip| == |nn| && ones <= 8 * |nn|
    ensures var free := Pow2(8 * |nn| - ones);
      Matches(nn, CIDRMask(ones, |nn|), ip) <==> High(Value(nn), free) == High(Value(ip), free)
    decreases |nn|
  {
    hide *;
    if nn == [] {
      NoBytes(nn, ip);
    } else {
      var n := |nn| - 1;
      MatchesHead(nn, ip, ones);
      ValueHead(nn);
      ValueHead(ip);
      var x, y, s, t := nn[0] as nat, ip[0] as nat, Value(nn[1..]), Value(ip[1..]);
      if ones >= 8 {
        MatchesIff(nn[1..], ip[1..], ones - 8);
        TopByte(nn[0], ip[0], 8);
        WholeByte(x, y, s, t, n, ones - 8);
      } else {
        MatchesIff(nn[1..], ip[1..], 0);
        TopByte(nn[0], ip[0], ones);
        PartOfByte(x, y, s, t, n, ones);
      }
    }
  }

  lemma NoBytes(nn: IP, ip: IP)
    requires nn == ip == []
    ensures Matches(nn, CIDRMask(0, 0), ip)
  {}

  lemma ValueHead(b: seq<bv8>)
    requires b != []
    ensures Value(b) == Join(b[0] as nat, Pow2(8 * (|b| - 1)), Value(b[1..])) && Value(b[1..]) < Pow2(8 * (|b| - 1))
  {
    ValueBound(b[1..]);
  }

  /** The first byte counts in full. */
  lemma WholeByte(x: nat, y: nat, s: nat, t: nat, n: nat, ones: nat)
    requires ones <= 8 * n && s < Pow2(8 * n) && t < Pow2(8 * n)
    ensures Pow2(8 - 8) == 1
    ensures var free := Pow2(8 * (n + 1) - (ones + 8));
      && free == Pow2(8 * n - ones)
      && (High(Join(x, Pow2(8 * n), s), free) == High(Join(y, Pow2(8 * n), t), free) <==>
            High(x, 1) == High(y, 1) && High(s, free) == High(t, free))
  {
    SmallPowers();
    PowersAdd(ones, 8 * n - ones);
    assert 8 * (n + 1) - (ones + 8) == 8 * n - ones;
    Ones(x);
    Ones(y);
    hide *;
    DigitsAgree(x, y, s, t, Pow2(8 * n), Pow2(ones), Pow2(8 * n - ones));
  }

  lemma Ones(x: nat)
    ensures High(x, 1) == x
  {}

  /** The first byte counts in part, and nothing behind it does. */
  lemma PartOfByte(x: nat, y: nat, s: nat, t: nat, n: nat, ones: nat)
    requires ones < 8 && s < Pow2(8 * n) && t < Pow2(8 * n)
    ensures var free := Pow2(8 * (n + 1) - ones);
      High(Join(x, Pow2(8 * n), s), free) == High(Join(y, Pow2(8 * n), t), free) <==>
        High(x, Pow2(8 - ones)) == High(y, Pow2(8 - ones))
    ensures High(s, Pow2(8 * n - 0)) == High(t, Pow2(8 * n - 0))
  {
    PowersAdd(8 * n, 8 - ones);
    assert 8 * (n + 1) - ones == 8 * n + (8 - ones);
    hide *;
    TopQuotient(x, s, Pow2(8 * n), Pow2(8 - ones));
    TopQuotient(y, t, Pow2(8 * n), Pow2(8 - ones));
    LowAgree(s, t, Pow2(8 * n));
  }

  lemma LowAgree(s: nat, t: nat, p: nat)
    requires s < p && t < p
    ensures High(s, p) == High(t, p)
  {}

  lemma TopQuotient(x: nat, s: nat, p: nat, r: nat)
    requires p > 0 && r > 0 && s < p
    ensures p * r > 0 && High(Join(x, p, s), p * r) == High(x, r)
  {
    var k, m := x / r, x % r;
    DivMod(x, r);
    Distributes(k * r, m, p);
    Assoc(k, r, p);
    Commutes(r, p);
    Distribute(m + 1, r, p);
    Positive(r - m - 1, p);
    Distributes(m, 1, p);
    AtLeast(r, p);
    DivUnique(x * p + s, p * r, k, m * p + s);
  }

  lemma Commutes(x: nat, y: nat)
    ensures x * y == y * x
  {}

  lemma MatchesHead(nn: IP, ip: IP, ones: nat)
    requires |ip| == |nn| > 0 && ones <= 8 * |nn|
    ensures Matches(nn, CIDRMask(ones, |nn|), ip) <==>
            && Same(nn[0], ip[0], TopBits(if ones >= 8 then 8 else ones))
            && Matches(nn[1..], CIDRMask(if ones >= 8 then ones - 8 else 0, |nn| - 1), ip[1..])
  {
    var m := CIDRMask(ones, |nn|);
    var tail := CIDRMask(if ones >= 8 then ones - 8 else 0, |nn| - 1);
    assert m == [TopBits(if ones >= 8 then 8 else ones)] + tail;
    hide CIDRMask, TopBits, Same, Matches;
    MatchesCons(nn, ip, m, tail);
  }

  lemma MatchesCons(nn: IP, ip: IP, m: seq<bv8>, tail: seq<bv8>)
    requires |ip| == |nn| == |m| > 0 && m[1..] == tail
    ensures Matches(nn, m, ip) <==> Same(nn[0], ip[0], m[0]) && Matches(nn[1..], tail, ip[1..])
  {
    hide Same;
    if Same(nn[0], ip[0], m[0]) && Matches(nn[1..], tail, ip[1..]) {
      forall i | 0 <= i < |nn| ensures Same(nn[i], ip[i], m[i]) {
        if i > 0 {
          assert Same(nn[1..][i - 1], ip[1..][i - 1], tail[i - 1]);
        }
      }
    }
    if Matches(nn, m, ip) {
      forall i | 0 <= i < |tail| ensures Same(nn[1..][i], ip[1..][i], tail[i]) {
        assert Same(nn[i + 1], ip[i + 1], m[i + 1]);
      }
    }
  }

  /** The address agrees with the network in its first `ones` bits. */
  ghost predicate InPrefix(net: IP, ones: nat, ip: IP) {
    && |ip| == |net| && ones <= 8 * |net|
    && Value(net) / Pow2(8 * |net| - ones) == Value(ip) / Pow2(8 * |net| - ones)
  }

  lemma {:induction false} ValueInjective(a: seq<bv8>, b: seq<bv8>)
    requires |a| == |b| && Value(a) == Value(b)
    ensures a == b
  {
    if a != [] {
      ValueHead(a);
      ValueHead(b);
      var p := Pow2(8 * (|a| - 1));
      assert a == [a[0]] + a[1..] && b == [b[0]] + b[1..];
      hide *;
      HighLow(a[0] as nat, b[0] as nat, Value(a[1..]), Value(b[1..]), p);
      SameByte(a[0], b[0]);
      ValueInjective(a[1..], b[1..]);
    }
  }

  lemma TopValue(n: nat)
    requires n <= 8
    ensures (TopBits(n) as nat) == Pow2(8) - Pow2(8 - n)
  {
    SmallPowers();
    TopBitsAre();
    TopValues();
    hide *;
  }

  lemma TopValues()
    ensures (0x00 as bv8) as nat == 0 && (0x80 as bv8) as nat == 128 && (0xc0 as bv8) as nat == 192
    ensures (0xe0 as bv8) as nat == 224 && (0xf0 as bv8) as nat == 240 && (0xf8 as bv8) as nat == 248
    ensures (0xfc as bv8) as nat == 252 && (0xfe as bv8) as nat == 254 && (0xff as bv8) as nat == 255
  {}

  lemma {:induction false} MaskValue(ones: nat, bytes: nat)
    requires ones <= 8 * bytes
    ensures Value(CIDRMask(ones, bytes)) == Pow2(8 * bytes) - Pow2(8 * bytes - ones)
    decreases bytes
  {
    hide *;
    if bytes > 0 {
      MaskHead(ones, bytes);
      MaskSums(ones, bytes - 1);
      MaskValue(if ones >= 8 then ones - 8 else 0, bytes - 1);
    } else {
      NoMask();
    }
  }

  lemma NoMask()
    ensures Value(CIDRMask(0, 0)) == 0
  {}

  lemma MaskHead(ones: nat, bytes: nat)
    requires bytes > 0 && ones <= 8 * bytes
    ensures var top, rest := if ones >= 8 then 8 else ones, if ones >= 8 then ones - 8 else 0;
      && Pow2(8) >= Pow2(8 - top)
      && Value(CIDRMask(ones, bytes)) == Join(Pow2(8) - Pow2(8 - top), Pow2(8 * (bytes - 1)), Value(CIDRMask(rest, bytes - 1)))
  {
    var top, rest := if ones >= 8 then 8 else ones, if ones >= 8 then ones - 8 else 0;
    var m, tail := CIDRMask(ones, bytes), CIDRMask(rest, bytes - 1);
    assert m == [TopBits(top)] + tail && m[1..] == tail;
    hide *;
    ValueHead(m);
    TopValue(top);
  }

  lemma MaskSums(ones: nat, n: nat)
    requires ones <= 8 * (n + 1)
    ensures var top, rest := if ones >= 8 then 8 else ones, if ones >= 8 then ones - 8 else 0;
      && Pow2(8) >= Pow2(8 - top) && Pow2(8 * n) >= Pow2(8 * n - rest)
      && Join(Pow2(8) - Pow2(8 - top), Pow2(8 * n), Pow2(8 * n) - Pow2(8 * n - rest)) == Pow2(8 * (n + 1)) - Pow2(8 * (n + 1) - ones)
  {
    var top, rest := if ones >= 8 then 8 else ones, if ones >= 8 then ones - 8 else 0;
    PowersAdd(8, 8 * n);
    PowersAdd(8 - top, 8 * n);
    Grows(8 - top, 8);
    Grows(8 * n - rest, 8 * n);
    SmallPowers();
    assert 8 + 8 * n == 8 * (n + 1);
    if ones >= 8 {
      assert 8 * n - rest == 8 * (n + 1) - ones;
    } else {
      assert 8 - top + 8 * n == 8 * (n + 1) - ones;
    }
    hide *;
    JoinSums(Pow2(8), Pow2(8 - top), Pow2(8 * n), Pow2(8 * n - rest));
  }

  lemma {:induction false} Grows(a: nat, b: nat)
    requires a <= b
    ensures Pow2(a) <= Pow2(b)
  {
    if a < b {
      Grows(a, b - 1);
    }
  }

  lemma JoinSums(a: nat, b: nat, p: nat, q: nat)
    requires b <= a && q <= p
    ensures Join(a - b, p, p - q) == a * p - b * p + p - q
  {
    Distribute(b, a, p);
  }

  /** A regular mask, seen as a number, is what is missing from a power of two to a smaller one. */
  lemma MaskIs(m: seq<bv8>, ones: nat)
    ensures MaskOnes(m) == Some(ones) <==> ones <= 8 * |m| && Value(m) == Pow2(8 * |m|) - Pow2(8 * |m| - ones)
  {
    hide Value, Pow2, MaskOnes, CIDRMask;
    if MaskOnes(m) == Some(ones) {
      MaskUnique(m);
      MaskValue(ones, |m|);
    } else if ones <= 8 * |m| && Value(m) == Pow2(8 * |m|) - Pow2(8 * |m| - ones) {
      MaskValue(ones, |m|);
      ValueInjective(m, CIDRMask(ones, |m|));
      MaskRoundTrip(ones, |m|);
    }
  }

  /** The number of bits that count, once the prefix is in its IPv4 form if it has one. */
  function PrefixOnes(n: IPNet): nat
    requires Regular(n)
  {
    var ones := MaskOnes(n.mask).value;
    if |n.ip| == 16 && To4(n.ip).Some? then ones - 96 else ones
  }

  /** A prefix contains exactly the addresses that agree with it in that many bits. */
  lemma ContainsIff(n: IPNet, ip: IP)
    requires Regular(n)
    ensures Contains(n, ip) <==> InPrefix(Normalize(n.ip), PrefixOnes(n), Normalize(ip))
  {
    CanonicalizeKeepsMembers(n, ip);
    CanonicalRegular(n);
    CanonicalOnes(n);
    hide Contains, MaskOnes, Canonicalize, PrefixOnes, InPrefix, To4;
    CanonicalContains(Canonicalize(n), ip);
  }

  lemma CanonicalContains(c: IPNet, ip: IP)
    requires MaskOnes(c.mask).Some? && |c.mask| == |c.ip| && |c.ip| in {4, 16} && Normalize(c.ip) == c.ip
    ensures Contains(c, ip) <==> InPrefix(c.ip, MaskOnes(c.mask).value, Normalize(ip))
  {
    MaskUnique(c.mask);
    ContainsMatches(c, ip);
    hide Contains, MaskOnes, CIDRMask, Normalize, Same, Value, Pow2;
    if |Normalize(ip)| == |c.ip| {
      hide Matches;
      MatchesIff(c.ip, Normalize(ip), MaskOnes(c.mask).value);
    }
  }

  lemma ContainsMatches(c: IPNet, ip: IP)
    requires |c.mask| == |c.ip| && |c.ip| in {4, 16} && Normalize(c.ip) == c.ip
    ensures Contains(c, ip) <==> Matches(c.ip, c.mask, Normalize(ip))
  {
    hide Matches;
  }

  lemma CanonicalOnes(n: IPNet)
    requires Regular(n)
    ensures Canonicalize(n).ip == Normalize(n.ip) && MaskOnes(Canonicalize(n).mask) == Some(PrefixOnes(n))
  {
    MaskUnique(n.mask);
    if To4(n.ip).Some? && |n.mask| == 16 {
      MaskRoundTrip(Size(n.mask).0 - 96, 4);
    }
  }

  /** An IPv4-mapped address has the form ::ffff:a.b.c.d, and is taken for a.b.c.d; others stay as they are. */
  lemma NormalizeIs(ip: IP)
    requires |ip| in {4, 16}
    ensures var mapped := |ip| == 16 && (forall i :: 0 <= i < 10 ==> ip[i] == 0) && ip[10] == 0xff && ip[11] == 0xff;
      Normalize(ip) == if mapped then [ip[12], ip[13], ip[14], ip[15]] else ip
    ensures Key(ip) == if forall b :: b in Normalize(ip) ==> b == 0 then None else Some(Normalize(ip))
  {
    if |ip| == 16 {
      MappedIff(ip);
    }
    ZeroIff(ip);
  }

  lemma MappedIff(ip: IP)
    requires |ip| == 16
    ensures ip[..12] == V4_IN_V6 <==> (forall i :: 0 <= i < 10 ==> ip[i] == 0) && ip[10] == 0xff && ip[11] == 0xff
    ensures ip[12..] == [ip[12], ip[13], ip[14], ip[15]]
  {
    var p := ip[..12];
    assert forall i :: 0 <= i < 12 ==> p[i] == ip[i];
  }

  lemma ZeroIff(ip: IP)
    requires |ip| in {4, 16}
    ensures IsUnspecified(ip) <==> forall b :: b in Normalize(ip) ==> b == 0
  {
    var v := Normalize(ip);
    if forall b :: b in v ==> b == 0 {
      assert forall i :: 0 <= i < |v| ==> v[i] in v;
      assert |v| == 4 ==> v == V4_ZERO;
      assert |v| == 16 ==> v == V6_ZERO;
    }
    if IsUnspecified(ip) {
      assert forall i :: 0 <= i < |v| ==> v[i] == 0;
    }
  }

  /** A prefix of full length holds one address. */
  lemma WholeAddress(net: IP, ip: IP)
    ensures InPrefix(net, 8 * |net|, ip) <==> ip == net
  {
    SmallPowers();
    if |ip| == |net| && Value(net) == Value(ip) {
      ValueInjective(net, ip);
    }
    hide Value;
  }

  lemma SingleContains(own: IP, ip: IP)
    requires |own| in {4, 16} && Normalize(own) == own
    ensures Contains(IPNet(own, CIDRMask(8 * |own|, |own|)), ip) <==> Normalize(ip) == own
  {
    MaskRoundTrip(8 * |own|, |own|);
    hide Contains, MaskOnes, CIDRMask, InPrefix, Normalize;
    CanonicalContains(IPNet(own, CIDRMask(8 * |own|, |own|)), ip);
    WholeAddress(own, Normalize(ip));
  }
}
