/** The IP allowlist: parsing, membership and what Replace, Add and Remove do to the entries. */
module Allowlist {
  import opened Options
  import opened Address

  /** The text of a canonical prefix: its address and its length in bits. */
  type PrefixKey = (IP, nat)

  /** The text parsers of package net: net.ParseCIDR and net.ParseIP. */
  datatype Lexer = Lexer(cidr: string -> Option<IPNet>, ip: string -> Option<IP>) {
    /** What those parsers return is well formed. */
    ghost predicate Sound() {
      && (forall s :: cidr(s).Some? ==> Regular(cidr(s).value))
      && (forall s :: ip(s).Some? ==> |ip(s).value| == 16)
    }
  }

  /** White space in the sense of Unicode. */
  predicate IsSpace(c: char) {
    || c == ' ' || '\t' <= c <= '\r' || c == '\U{85}' || c == '\U{A0}' || c == '\U{1680}'
    || '\U{2000}' <= c <= '\U{200A}' || c == '\U{2028}' || c == '\U{2029}' || c == '\U{202F}' || c == '\U{205F}'
    || c == '\U{3000}'
  }

  function TrimLeft(s: string): string {
    if s != [] && IsSpace(s[0]) then TrimLeft(s[1..]) else s
  }

  function TrimRight(s: string): string {
    if s != [] && IsSpace(s[|s| - 1]) then TrimRight(s[..|s| - 1]) else s
  }

  function TrimSpace(s: string): string {
    TrimRight(TrimLeft(s))
  }

  /** A CIDR or a bare address. */
  function ParseCIDR(lx: Lexer, s: string): Option<IPNet> {
    var t := TrimSpace(s);
    if t == "" then None
    else if '/' in t then
      var n := lx.cidr(t);
      if n.None? then None else Some(Canonicalize(n.value))
    else
      var ip := lx.ip(t);
      if ip.None? then None
      else if To4(ip.value).Some? then Some(IPNet(To4(ip.value).value, CIDRMask(32, 4)))
      else Some(IPNet(ip.value, CIDRMask(128, 16)))
  }

  function NormalizeKey(lx: Lexer, s: string): Option<PrefixKey> {
    var n := ParseCIDR(lx, s);
    if n.None? || Size(n.value.mask).1 == 0 then None else Some(NetKey(n.value))
  }

  /** parseAll: blank entries are skipped, one bad entry fails the whole list. */
  function ParseAll(lx: Lexer, cidrs: seq<string>): Option<(seq<string>, seq<IPNet>)> {
    if cidrs == [] then Some(([], []))
    else
      var init := ParseAll(lx, cidrs[..|cidrs| - 1]);
      var s := TrimSpace(cidrs[|cidrs| - 1]);
      if init.None? then None
      else if s == "" then init
      else
        var n := ParseCIDR(lx, s);
        if n.None? then None else Some((init.value.0 + [s], init.value.1 + [n.value]))
  }

  predicate AllowedBy(nets: seq<IPNet>, ip: IP) {
    ip != [] && !IsUnspecified(ip) && exists n :: n in nets && Contains(n, ip)
  }

  /** Membership depends on the ban key only: an address and its mapped form are treated alike. */
  lemma AllowedByKey(nets: seq<IPNet>, ip: IP)
    ensures AllowedBy(nets, ip) <==> Key(ip).Some? && AllowedBy(nets, Key(ip).value)
  {
    if Key(ip).Some? {
      KeyOfKey(ip);
      forall n ensures Contains(n, ip) == Contains(n, Key(ip).value) {}
    }
  }

  lemma {:induction false} TrimLeftTwice(s: string)
    ensures TrimLeft(TrimLeft(s)) == TrimLeft(s)
  {
    if s != [] && IsSpace(s[0]) {
      TrimLeftTwice(s[1..]);
    }
  }

  lemma {:induction false} TrimRightTwice(s: string)
    ensures TrimRight(TrimRight(s)) == TrimRight(s)
    ensures TrimRight(s) == [] || (s != [] && TrimRight(s)[0] == s[0])
  {
    if s != [] && IsSpace(s[|s| - 1]) {
      TrimRightTwice(s[..|s| - 1]);
    }
  }

  lemma {:induction false} TrimLeftHead(s: string)
    ensures TrimLeft(s) == [] || !IsSpace(TrimLeft(s)[0])
  {
    if s != [] && IsSpace(s[0]) {
      TrimLeftHead(s[1..]);
    }
  }

  lemma TrimTwice(s: string)
    ensures TrimSpace(TrimSpace(s)) == TrimSpace(s)
  {
    TrimLeftHead(s);
    TrimRightTwice(TrimLeft(s));
    assert TrimLeft(TrimSpace(s)) == TrimSpace(s);
  }

  /** `nets` is what the entries stand for, one by one. */
  ghost predicate Denotes(lx: Lexer, entries: seq<string>, nets: seq<IPNet>) {
    && |nets| == |entries|
    && forall i :: 0 <= i < |entries| ==>
         entries[i] != "" && TrimSpace(entries[i]) == entries[i] && ParseCIDR(lx, entries[i]) == Some(nets[i])
  }

  lemma {:induction false} ParseAllDenotes(lx: Lexer, cidrs: seq<string>)
    requires ParseAll(lx, cidrs).Some?
    ensures Denotes(lx, ParseAll(lx, cidrs).value.0, ParseAll(lx, cidrs).value.1)
  {
    if cidrs != [] {
      ParseAllDenotes(lx, cidrs[..|cidrs| - 1]);
      TrimTwice(cidrs[|cidrs| - 1]);
    }
  }

  lemma ParseAllStep(lx: Lexer, cidrs: seq<string>)
    requires cidrs != []
    ensures var most, s := ParseAll(lx, cidrs[..|cidrs| - 1]), TrimSpace(cidrs[|cidrs| - 1]);
      && (most.None? ==> ParseAll(lx, cidrs).None?)
      && (most.Some? && s == "" ==> ParseAll(lx, cidrs) == most)
      && (most.Some? && s != "" && ParseCIDR(lx, s).None? ==> ParseAll(lx, cidrs).None?)
      && (most.Some? && s != "" && ParseCIDR(lx, s).Some? ==>
            ParseAll(lx, cidrs) == Some((most.value.0 + [s], most.value.1 + [ParseCIDR(lx, s).value])))
  {
    hide ParseCIDR, TrimSpace;
  }

  /** A list that was parsed before parses again, to itself. */
  lemma {:induction false} ParseAllAgain(lx: Lexer, entries: seq<string>, nets: seq<IPNet>)
    requires Denotes(lx, entries, nets)
    ensures ParseAll(lx, entries) == Some((entries, nets))
  {
    if entries != [] {
      var k := |entries| - 1;
      ParseAllStep(lx, entries);
      DenotesInit(lx, entries, nets);
      hide *;
      ParseAllAgain(lx, entries[..k], nets[..k]);
      InitAndLast(entries);
      InitAndLast(nets);
    } else {
      assert nets == [];
    }
  }

  lemma InitAndLast<T>(s: seq<T>)
    requires s != []
    ensures s[..|s| - 1] + [s[|s| - 1]] == s
  {}

  lemma DenotesInit(lx: Lexer, entries: seq<string>, nets: seq<IPNet>)
    requires Denotes(lx, entries, nets) && entries != []
    ensures |nets| == |entries|
    ensures var k := |entries| - 1;
      && Denotes(lx, entries[..k], nets[..k])
      && entries[k] != "" && TrimSpace(entries[k]) == entries[k] && ParseCIDR(lx, entries[k]) == Some(nets[k])
  {
    hide ParseCIDR, TrimSpace;
  }

  /** What every accepted entry's key looks like. */
  lemma ParsedRegular(lx: Lexer, s: string)
    requires lx.Sound() && ParseCIDR(lx, s).Some?
    ensures var n := ParseCIDR(lx, s).value;
      MaskOnes(n.mask).Some? && |n.mask| == |n.ip| && Normalize(n.ip) == n.ip && |n.ip| in {4, 16}
      && NormalizeKey(lx, s) == Some(NetKey(n))
  {
    var t := TrimSpace(s);
    if '/' in t {
      CanonicalRegular(lx.cidr(t).value);
    } else {
      AddressRegular(lx.ip(t).value);
    }
    hide TrimSpace, CIDRMask, MaskOnes, Canonicalize, Normalize;
  }

  /** The prefix of a single address. */
  lemma AddressRegular(ip: IP)
    requires |ip| == 16
    ensures var n := if To4(ip).Some? then IPNet(To4(ip).value, CIDRMask(32, 4)) else IPNet(ip, CIDRMask(128, 16));
      MaskOnes(n.mask).Some? && |n.mask| == |n.ip| && Normalize(n.ip) == n.ip && |n.ip| in {4, 16}
  {
    MaskRoundTrip(32, 4);
    MaskRoundTrip(128, 16);
    hide MaskOnes;
  }

  /** Entries with equal keys admit the same addresses. */
  lemma EqualKeysEqualSets(lx: Lexer, a: string, b: string, ip: IP)
    requires lx.Sound() && NormalizeKey(lx, a).Some? && NormalizeKey(lx, a) == NormalizeKey(lx, b)
    ensures Contains(ParseCIDR(lx, a).value, ip) == Contains(ParseCIDR(lx, b).value, ip)
  {
    ParsedRegular(lx, a);
    ParsedRegular(lx, b);
    MaskUnique(ParseCIDR(lx, a).value.mask);
    MaskUnique(ParseCIDR(lx, b).value.mask);
  }

  /** One more entry, blank or not, on a set of keys. */
  ghost function WithKey(lx: Lexer, keys: Option<set<PrefixKey>>, s: string): Option<set<PrefixKey>> {
    if keys.None? || s == "" then keys
    else if NormalizeKey(lx, s).None? then None
    else Some(keys.value + {NormalizeKey(lx, s).value})
  }

  /** The keys of a list of entries; None if one that is not blank does not parse. */
  ghost function KeySet(lx: Lexer, cidrs: seq<string>): Option<set<PrefixKey>> {
    if cidrs == [] then Some({})
    else WithKey(lx, KeySet(lx, cidrs[..|cidrs| - 1]), TrimSpace(cidrs[|cidrs| - 1]))
  }

  /** One more entry on the list that Add builds: a key that is present is skipped. */
  ghost function WithEntry(lx: Lexer, out: Option<seq<string>>, s: string): Option<seq<string>> {
    if out.None? || s == "" then out
    else if NormalizeKey(lx, s).None? || KeySet(lx, out.value).None? then None
    else if NormalizeKey(lx, s).value in KeySet(lx, out.value).value then out
    else Some(out.value + [s])
  }

  /** The list that Add makes of the entries `cur`; None if an entry does not parse. */
  ghost function Added(lx: Lexer, cur: seq<string>, cidrs: seq<string>): Option<seq<string>> {
    if cidrs == [] then (if KeySet(lx, cur).None? then None else Some(cur))
    else WithEntry(lx, Added(lx, cur, cidrs[..|cidrs| - 1]), TrimSpace(cidrs[|cidrs| - 1]))
  }

  /** One more entry on the list that Remove builds. */
  ghost function Sparing(lx: Lexer, out: Option<seq<string>>, e: string, drop: set<PrefixKey>): Option<seq<string>> {
    if out.None? || NormalizeKey(lx, e).None? then None
    else if NormalizeKey(lx, e).value in drop then out
    else Some(out.value + [e])
  }

  /** The entries whose key is not in `drop`, in order; None if a key is missing. */
  ghost function Kept(lx: Lexer, entries: seq<string>, drop: set<PrefixKey>): Option<seq<string>> {
    if entries == [] then Some([])
    else Sparing(lx, Kept(lx, entries[..|entries| - 1], drop), entries[|entries| - 1], drop)
  }

  predicate Padding(pad: string) {
    forall i :: 0 <= i < |pad| ==> pad[i] == ' ' || '\t' <= pad[i] <= '\r'
  }

  /** A text that begins and ends with a visible character. */
  predicate Visible(v: string) {
    v != "" && '!' <= v[0] <= '~' && '!' <= v[|v| - 1] <= '~'
  }

  /** White space around an entry is trimmed, and nothing else. */
  lemma {:induction false} TrimsPadding(pad: string, v: string, pad': string)
    requires Padding(pad) && Visible(v) && Padding(pad')
    ensures TrimSpace(pad + v + pad') == v
    decreases |pad|
  {
    if pad == "" {
      assert pad + v + pad' == v + pad';
      assert TrimLeft(v + pad') == v + pad';
      TrimsEnd(v, pad');
    } else {
      assert pad[0] == (pad + v + pad')[0] && (pad + v + pad')[1..] == pad[1..] + v + pad';
      TrimsPadding(pad[1..], v, pad');
      hide TrimRight, Visible;
    }
  }

  lemma {:induction false} TrimsEnd(v: string, pad: string)
    requires Visible(v) && Padding(pad)
    ensures TrimRight(v + pad) == v
    decreases |pad|
  {
    if pad == "" {
      assert v + pad == v;
    } else {
      var n := |pad| - 1;
      assert (v + pad)[..|v + pad| - 1] == v + pad[..n] && (v + pad)[|v + pad| - 1] == pad[n];
      TrimsEnd(v, pad[..n]);
    }
  }
}
