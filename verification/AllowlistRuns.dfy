/** What Replace, Add and Remove make of the allowlist over whole runs. */
module AllowlistRuns {
  import opened Options
  import opened Address
  import opened AddressBits
  import opened Allowlist

  datatype Op = Replace(cidrs: seq<string>) | Add(cidrs: seq<string>) | Remove(cidrs: seq<string>)

  /** The entries after an operation; one that fails to parse leaves them alone. */
  ghost function Apply(lx: Lexer, cur: seq<string>, op: Op): seq<string> {
    match op
    case Replace(cidrs) =>
      if ParseAll(lx, cidrs).None? then cur else ParseAll(lx, cidrs).value.0
    case Add(cidrs) =>
      if Added(lx, cur, cidrs).None? then cur else Added(lx, cur, cidrs).value
    case Remove(cidrs) =>
      if KeySet(lx, cidrs).None? || Kept(lx, cur, KeySet(lx, cidrs).value).None? then cur
      else Kept(lx, cur, KeySet(lx, cidrs).value).value
  }

  /** The same on a plain set of prefixes. */
  ghost function ApplySet(lx: Lexer, cur: set<PrefixKey>, op: Op): set<PrefixKey> {
    var keys := KeySet(lx, op.cidrs);
    if keys.None? then cur
    else match op
      case Replace(_) => keys.value
      case Add(_) => cur + keys.value
      case Remove(_) => cur - keys.value
  }

  ghost function Run(lx: Lexer, ops: seq<Op>): seq<string> {
    if ops == [] then [] else Apply(lx, Run(lx, ops[..|ops| - 1]), ops[|ops| - 1])
  }

  ghost function RunSet(lx: Lexer, ops: seq<Op>): set<PrefixKey> {
    if ops == [] then {} else ApplySet(lx, RunSet(lx, ops[..|ops| - 1]), ops[|ops| - 1])
  }

  /** The address lies in the prefix: its first bits are those of the prefix. */
  ghost predicate Covers(k: PrefixKey, ip: IP) {
    InPrefix(k.0, k.1, Normalize(ip))
  }

  /** The entries of a list that has gone through ParseAll. */
  ghost predicate Parsed(lx: Lexer, entries: seq<string>) {
    forall e :: e in entries ==> e != "" && TrimSpace(e) == e && ParseCIDR(lx, e).Some?
  }

  lemma {:induction false} DenotesParsed(lx: Lexer, entries: seq<string>)
    requires Parsed(lx, entries)
    ensures ParseAll(lx, entries).Some? && ParseAll(lx, entries).value.0 == entries
  {
    if entries != [] {
      ParsedInit(lx, entries);
      DenotesParsed(lx, entries[..|entries| - 1]);
      ParseAllStep(lx, entries);
      hide *;
      assert entries == entries[..|entries| - 1] + [entries[|entries| - 1]];
    }
  }

  lemma KeySetStep(lx: Lexer, cidrs: seq<string>)
    requires cidrs != []
    ensures KeySet(lx, cidrs) == WithKey(lx, KeySet(lx, cidrs[..|cidrs| - 1]), TrimSpace(cidrs[|cidrs| - 1]))
  {
    hide WithKey, TrimSpace;
  }

  lemma WithKeyCases(lx: Lexer, keys: Option<set<PrefixKey>>, s: string)
    ensures WithKey(lx, keys, s).Some? <==> keys.Some? && (s == "" || NormalizeKey(lx, s).Some?)
    ensures keys.Some? && s == "" ==> WithKey(lx, keys, s) == keys
    ensures keys.Some? && s != "" && NormalizeKey(lx, s).Some? ==>
              WithKey(lx, keys, s) == Some(keys.value + {NormalizeKey(lx, s).value})
  {
    hide NormalizeKey;
  }

  lemma ParseCIDRKey(lx: Lexer, s: string)
    requires lx.Sound()
    ensures NormalizeKey(lx, s).Some? <==> ParseCIDR(lx, s).Some?
  {
    if ParseCIDR(lx, s).Some? {
      ParsedRegular(lx, s);
    }
  }

  lemma ParsedInit(lx: Lexer, cur: seq<string>)
    requires Parsed(lx, cur) && cur != []
    ensures Parsed(lx, cur[..|cur| - 1])
    ensures var e := cur[|cur| - 1];
      e != "" && TrimSpace(e) == e && ParseCIDR(lx, e).Some?
  {
    hide ParseCIDR, TrimSpace;
    assert cur[|cur| - 1] in cur;
    forall e | e in cur[..|cur| - 1] ensures e != "" && TrimSpace(e) == e && ParseCIDR(lx, e).Some? {
      assert e in cur;
    }
  }

  /** Which keys an entry list has. */
  lemma {:induction false} KeysOf(lx: Lexer, entries: seq<string>)
    requires lx.Sound() && Parsed(lx, entries)
    ensures KeySet(lx, entries).Some?
    ensures forall k :: k in KeySet(lx, entries).value <==> exists e :: e in entries && NormalizeKey(lx, e) == Some(k)
  {
    if entries != [] {
      var most, e := entries[..|entries| - 1], entries[|entries| - 1];
      ParsedInit(lx, entries);
      KeysOf(lx, most);
      ParseCIDRKey(lx, e);
      KeySetStep(lx, entries);
      WithKeyCases(lx, KeySet(lx, most), e);
      hide *;
      assert e in entries;
      forall k ensures k in KeySet(lx, entries).value <==> exists x :: x in entries && NormalizeKey(lx, x) == Some(k) {
        if x :| x in entries && NormalizeKey(lx, x) == Some(k) {
          assert x in most || x == e;
        }
        if x :| x in most && NormalizeKey(lx, x) == Some(k) {
          assert x in entries;
        }
      }
    }
  }

  lemma KeySetPush(lx: Lexer, a: seq<string>, s: string)
    requires KeySet(lx, a).Some? && TrimSpace(s) == s != "" && NormalizeKey(lx, s).Some?
    ensures KeySet(lx, a + [s]) == Some(KeySet(lx, a).value + {NormalizeKey(lx, s).value})
  {
    hide TrimSpace, NormalizeKey;
    assert (a + [s])[..|a + [s]| - 1] == a;
  }

  /** Parsing keeps the keys, and fails exactly when some key is missing. */
  lemma {:induction false} ParseKeepsKeys(lx: Lexer, cidrs: seq<string>)
    requires lx.Sound()
    ensures ParseAll(lx, cidrs).Some? <==> KeySet(lx, cidrs).Some?
    ensures ParseAll(lx, cidrs).Some? ==>
              && Parsed(lx, ParseAll(lx, cidrs).value.0)
              && KeySet(lx, ParseAll(lx, cidrs).value.0) == KeySet(lx, cidrs)
  {
    if cidrs != [] {
      var most, s := cidrs[..|cidrs| - 1], TrimSpace(cidrs[|cidrs| - 1]);
      ParseKeepsKeys(lx, most);
      ParseAllStep(lx, cidrs);
      KeySetStep(lx, cidrs);
      TrimTwice(cidrs[|cidrs| - 1]);
      ParseCIDRKey(lx, s);
      hide *;
      WithKeyCases(lx, KeySet(lx, most), s);
      if ParseAll(lx, cidrs).Some? && s != "" {
        KeySetPush(lx, ParseAll(lx, most).value.0, s);
        ParsedPush(lx, ParseAll(lx, most).value.0, s);
      }
    }
  }

  lemma ParsedPush(lx: Lexer, a: seq<string>, s: string)
    requires Parsed(lx, a) && TrimSpace(s) == s != "" && ParseCIDR(lx, s).Some?
    ensures Parsed(lx, a + [s])
  {
    hide ParseCIDR, TrimSpace;
  }

  /** One entry more on both sides. */
  lemma WithEntryKeys(lx: Lexer, out: seq<string>, keys: set<PrefixKey>, s: string)
    requires lx.Sound() && Parsed(lx, out) && KeySet(lx, out) == Some(keys) && TrimSpace(s) == s
    ensures WithEntry(lx, Some(out), s).Some? <==> s == "" || NormalizeKey(lx, s).Some?
    ensures WithEntry(lx, Some(out), s).Some? ==>
              && Parsed(lx, WithEntry(lx, Some(out), s).value)
              && out <= WithEntry(lx, Some(out), s).value
              && KeySet(lx, WithEntry(lx, Some(out), s).value) == WithKey(lx, Some(keys), s)
              && (WithEntry(lx, Some(out), s).value == out <==> WithKey(lx, Some(keys), s).value == keys)
  {
    ParseCIDRKey(lx, s);
    hide ParseCIDR, TrimSpace, NormalizeKey, KeySet, Parsed;
    if s != "" && NormalizeKey(lx, s).Some? {
      KeySetPush(lx, out, s);
      ParsedPush(lx, out, s);
      if NormalizeKey(lx, s).value in keys {
        assert keys + {NormalizeKey(lx, s).value} == keys;
      }
    }
  }

  lemma WithKeyAdds(lx: Lexer, a: set<PrefixKey>, b: Option<set<PrefixKey>>, s: string)
    requires b.Some?
    ensures WithKey(lx, Some(a + b.value), s).Some? <==> WithKey(lx, b, s).Some?
    ensures WithKey(lx, b, s).Some? ==> WithKey(lx, Some(a + b.value), s).value == a + WithKey(lx, b, s).value
  {
    hide NormalizeKey;
  }

  /** Add keeps the old entries as they are, in front, and the keys become the union. */
  lemma {:induction false} AddedKeys(lx: Lexer, cur: seq<string>, cidrs: seq<string>)
    requires lx.Sound() && Parsed(lx, cur) && KeySet(lx, cur).Some?
    ensures Added(lx, cur, cidrs).Some? <==> KeySet(lx, cidrs).Some?
    ensures Added(lx, cur, cidrs).Some? ==>
              && Parsed(lx, Added(lx, cur, cidrs).value)
              && cur <= Added(lx, cur, cidrs).value
              && KeySet(lx, Added(lx, cur, cidrs).value) == Some(KeySet(lx, cur).value + KeySet(lx, cidrs).value)
  {
    if cidrs != [] {
      var most, s := cidrs[..|cidrs| - 1], TrimSpace(cidrs[|cidrs| - 1]);
      AddedKeys(lx, cur, most);
      AddedStep(lx, cur, cidrs);
      TrimTwice(cidrs[|cidrs| - 1]);
      hide *;
      if KeySet(lx, most).Some? {
        WithEntryKeys(lx, Added(lx, cur, most).value, KeySet(lx, cur).value + KeySet(lx, most).value, s);
        WithKeyAdds(lx, KeySet(lx, cur).value, KeySet(lx, most), s);
        WithKeyCases(lx, KeySet(lx, most), s);
      }
    } else {
      assert KeySet(lx, cur).value + {} == KeySet(lx, cur).value;
    }
  }

  /** One entry is appended for each key that is new, however often it is given. */
  lemma {:induction false} AddedCount(lx: Lexer, cur: seq<string>, cidrs: seq<string>)
    requires lx.Sound() && Parsed(lx, cur) && KeySet(lx, cur).Some? && KeySet(lx, cidrs).Some?
    ensures Added(lx, cur, cidrs).Some?
    ensures |Added(lx, cur, cidrs).value| == |cur| + |KeySet(lx, cidrs).value - KeySet(lx, cur).value|
  {
    if cidrs != [] {
      var most, s := cidrs[..|cidrs| - 1], TrimSpace(cidrs[|cidrs| - 1]);
      AddedStep(lx, cur, cidrs);
      AddedCount(lx, cur, most);
      AddedKeys(lx, cur, most);
      hide *;
      WithKeyCases(lx, KeySet(lx, most), s);
      WithEntryCount(lx, Added(lx, cur, most).value, KeySet(lx, cur).value, KeySet(lx, most).value, s);
    }
  }

  lemma WithEntryCount(lx: Lexer, out: seq<string>, had: set<PrefixKey>, keys: set<PrefixKey>, s: string)
    requires KeySet(lx, out) == Some(had + keys) && WithKey(lx, Some(keys), s).Some?
    ensures WithEntry(lx, Some(out), s).Some?
    ensures |WithEntry(lx, Some(out), s).value| - |out| == |WithKey(lx, Some(keys), s).value - had| - |keys - had|
  {
    hide NormalizeKey, KeySet;
    if s != "" {
      var k := NormalizeKey(lx, s).value;
      if k in had + keys {
        assert keys + {k} - had == keys - had;
      } else {
        assert keys + {k} - had == keys - had + {k};
      }
    }
  }

  lemma AddedStep(lx: Lexer, cur: seq<string>, cidrs: seq<string>)
    requires cidrs != []
    ensures var most, s := cidrs[..|cidrs| - 1], TrimSpace(cidrs[|cidrs| - 1]);
      && Added(lx, cur, cidrs) == WithEntry(lx, Added(lx, cur, most), s)
      && KeySet(lx, cidrs) == WithKey(lx, KeySet(lx, most), s)
      && (Added(lx, cur, most).None? ==> Added(lx, cur, cidrs).None?)
      && (KeySet(lx, most).None? ==> KeySet(lx, cidrs).None?)
  {
    hide NormalizeKey, TrimSpace;
  }

  /** Add of keys that are all present appends nothing, and only then. */
  lemma AddedNothing(lx: Lexer, cur: seq<string>, cidrs: seq<string>)
    requires lx.Sound() && Parsed(lx, cur) && KeySet(lx, cur).Some? && KeySet(lx, cidrs).Some?
    ensures Added(lx, cur, cidrs) == Some(cur) <==> KeySet(lx, cidrs).value <= KeySet(lx, cur).value
  {
    AddedKeys(lx, cur, cidrs);
    if KeySet(lx, cidrs).value <= KeySet(lx, cur).value {
      AddedNone(lx, cur, cidrs);
    }
  }

  lemma {:induction false} AddedNone(lx: Lexer, cur: seq<string>, cidrs: seq<string>)
    requires lx.Sound() && Parsed(lx, cur) && KeySet(lx, cur).Some? && KeySet(lx, cidrs).Some?
    requires KeySet(lx, cidrs).value <= KeySet(lx, cur).value
    ensures Added(lx, cur, cidrs) == Some(cur)
  {
    if cidrs != [] {
      var most, s := cidrs[..|cidrs| - 1], TrimSpace(cidrs[|cidrs| - 1]);
      hide ParseCIDR, TrimSpace, NormalizeKey;
      assert KeySet(lx, most).value <= KeySet(lx, cidrs).value;
      AddedNone(lx, cur, most);
    }
  }

  lemma SparingKeys(lx: Lexer, out: seq<string>, keys: set<PrefixKey>, e: string, drop: set<PrefixKey>)
    requires lx.Sound() && Parsed(lx, out) && KeySet(lx, out) == Some(keys - drop)
    requires TrimSpace(e) == e != "" && ParseCIDR(lx, e).Some?
    ensures NormalizeKey(lx, e).Some? && Sparing(lx, Some(out), e, drop).Some?
    ensures Parsed(lx, Sparing(lx, Some(out), e, drop).value)
    ensures KeySet(lx, Sparing(lx, Some(out), e, drop).value) == Some(keys + {NormalizeKey(lx, e).value} - drop)
  {
    ParseCIDRKey(lx, e);
    var k := NormalizeKey(lx, e).value;
    assert Sparing(lx, Some(out), e, drop) == Some(if k in drop then out else out + [e]);
    hide *;
    if k in drop {
      assert keys + {k} - drop == keys - drop;
    } else {
      KeySetPush(lx, out, e);
      ParsedPush(lx, out, e);
      assert keys + {k} - drop == keys - drop + {k};
    }
  }

  /** Remove drops exactly the keys of `drop`. */
  lemma {:induction false} KeptKeys(lx: Lexer, cur: seq<string>, drop: set<PrefixKey>)
    requires lx.Sound() && Parsed(lx, cur)
    ensures KeySet(lx, cur).Some?
    ensures Kept(lx, cur, drop).Some? && Parsed(lx, Kept(lx, cur, drop).value)
    ensures KeySet(lx, Kept(lx, cur, drop).value) == Some(KeySet(lx, cur).value - drop)
  {
    if cur != [] {
      var most, e := cur[..|cur| - 1], cur[|cur| - 1];
      hide ParseCIDR, TrimSpace, NormalizeKey, Sparing, WithKey, Parsed;
      ParsedInit(lx, cur);
      KeptKeys(lx, most, drop);
      assert Kept(lx, cur, drop) == Sparing(lx, Kept(lx, most, drop), e, drop);
      assert KeySet(lx, cur) == WithKey(lx, KeySet(lx, most), e);
      hide Kept, KeySet;
      SparingKeys(lx, Kept(lx, most, drop).value, KeySet(lx, most).value, e, drop);
      WithKeyCases(lx, KeySet(lx, most), e);
    } else {
      assert KeySet(lx, cur).value - drop == {};
    }
  }

  lemma {:induction false} KeptLength(lx: Lexer, cur: seq<string>, drop: set<PrefixKey>)
    requires Kept(lx, cur, drop).Some?
    ensures |Kept(lx, cur, drop).value| <= |cur|
    ensures |Kept(lx, cur, drop).value| == |cur| ==> Kept(lx, cur, drop).value == cur
  {
    hide NormalizeKey;
    if cur != [] {
      KeptLength(lx, cur[..|cur| - 1], drop);
      assert cur == cur[..|cur| - 1] + [cur[|cur| - 1]];
    }
  }

  lemma KeptStep(lx: Lexer, cur: seq<string>, drop: set<PrefixKey>)
    requires Kept(lx, cur, drop).Some? && cur != []
    ensures var most := Kept(lx, cur[..|cur| - 1], drop);
      most.Some? && Kept(lx, cur, drop).value in {most.value, most.value + [cur[|cur| - 1]]}
  {
    hide NormalizeKey;
  }

  /** `at` shows where each element of `part` stands in `whole`, in order. */
  ghost predicate Subsequence(part: seq<string>, whole: seq<string>, at: seq<nat>) {
    && |at| == |part|
    && (forall i, j :: 0 <= i < j < |at| ==> at[i] < at[j])
    && (forall i :: 0 <= i < |at| ==> at[i] < |whole| && part[i] == whole[at[i]])
  }

  lemma SubsequencePush(part: seq<string>, whole: seq<string>, at: seq<nat>)
    requires whole != [] && Subsequence(part, whole[..|whole| - 1], at)
    ensures Subsequence(part, whole, at)
    ensures Subsequence(part + [whole[|whole| - 1]], whole, at + [|whole| - 1])
  {}

  /** The kept entries stand in the order in which they stood. */
  lemma {:induction false} KeptInOrder(lx: Lexer, cur: seq<string>, drop: set<PrefixKey>) returns (at: seq<nat>)
    requires Kept(lx, cur, drop).Some?
    ensures Subsequence(Kept(lx, cur, drop).value, cur, at)
  {
    at := [];
    if cur != [] {
      KeptStep(lx, cur, drop);
      hide *;
      at := KeptInOrder(lx, cur[..|cur| - 1], drop);
      SubsequencePush(Kept(lx, cur[..|cur| - 1], drop).value, cur, at);
      if Kept(lx, cur, drop) != Kept(lx, cur[..|cur| - 1], drop) {
        at := at + [|cur| - 1];
      }
    }
  }

  /** The kept entries are those of the list whose key is not dropped, each as often as before. */
  lemma {:induction false} KeptEntries(lx: Lexer, cur: seq<string>, drop: set<PrefixKey>, e: string)
    requires Kept(lx, cur, drop).Some?
    ensures e in Kept(lx, cur, drop).value <==> e in cur && NormalizeKey(lx, e).Some? && NormalizeKey(lx, e).value !in drop
    ensures multiset(Kept(lx, cur, drop).value)[e] == (if e in Kept(lx, cur, drop).value then multiset(cur)[e] else 0)
  {
    if cur != [] {
      var most, x := cur[..|cur| - 1], cur[|cur| - 1];
      assert cur == most + [x];
      assert Kept(lx, cur, drop) == Sparing(lx, Kept(lx, most, drop), x, drop);
      hide ParseCIDR, TrimSpace, NormalizeKey, Kept;
      KeptEntries(lx, most, drop, e);
    }
  }

  /** Each operation does to the keys what it does to a plain set, and keeps the list parseable. */
  lemma ApplyRefines(lx: Lexer, cur: seq<string>, op: Op)
    requires lx.Sound() && Parsed(lx, cur)
    ensures KeySet(lx, cur).Some? && Parsed(lx, Apply(lx, cur, op))
    ensures KeySet(lx, Apply(lx, cur, op)) == Some(ApplySet(lx, KeySet(lx, cur).value, op))
  {
    KeysOf(lx, cur);
    hide KeySet, Parsed, ParseAll, Added, Kept;
    match op
    case Replace(cidrs) => ParseKeepsKeys(lx, cidrs);
    case Add(cidrs) => AddedKeys(lx, cur, cidrs);
    case Remove(cidrs) =>
      if KeySet(lx, cidrs).Some? {
        KeptKeys(lx, cur, KeySet(lx, cidrs).value);
      }
  }

  /** A parse error changes nothing. */
  lemma ErrorKeepsEntries(lx: Lexer, cur: seq<string>, op: Op)
    requires lx.Sound() && Parsed(lx, cur) && KeySet(lx, op.cidrs).None?
    ensures Apply(lx, cur, op) == cur
  {
    KeysOf(lx, cur);
    ParseKeepsKeys(lx, op.cidrs);
    AddedKeys(lx, cur, op.cidrs);
  }

  /** Adding keys that are present already, in whatever notation, changes nothing. */
  lemma AddIdempotent(lx: Lexer, cur: seq<string>, cidrs: seq<string>, again: seq<string>)
    requires lx.Sound() && Parsed(lx, cur)
    requires KeySet(lx, cidrs).Some? && KeySet(lx, again).Some? && KeySet(lx, again).value <= KeySet(lx, cidrs).value
    ensures cur <= Apply(lx, cur, Add(cidrs))
    ensures Apply(lx, Apply(lx, cur, Add(cidrs)), Add(again)) == Apply(lx, cur, Add(cidrs))
  {
    var added := Apply(lx, cur, Add(cidrs));
    ApplyRefines(lx, cur, Add(cidrs));
    hide KeySet, Parsed;
    AddedKeys(lx, cur, cidrs);
    AddedNothing(lx, added, again);
  }

  lemma {:induction false} RunRefines(lx: Lexer, ops: seq<Op>)
    requires lx.Sound()
    ensures Parsed(lx, Run(lx, ops)) && KeySet(lx, Run(lx, ops)) == Some(RunSet(lx, ops))
  {
    if ops != [] {
      hide KeySet, Parsed, Apply, ApplySet;
      RunRefines(lx, ops[..|ops| - 1]);
      ApplyRefines(lx, Run(lx, ops[..|ops| - 1]), ops[|ops| - 1]);
    }
  }

  lemma CoversContains(lx: Lexer, e: string, ip: IP)
    requires lx.Sound() && ParseCIDR(lx, e).Some?
    ensures NormalizeKey(lx, e).Some?
    ensures Contains(ParseCIDR(lx, e).value, ip) <==> Covers(NormalizeKey(lx, e).value, ip)
  {
    ParsedRegular(lx, e);
    hide ParseCIDR, MaskOnes, Contains, InPrefix, Normalize;
    CanonicalContains(ParseCIDR(lx, e).value, ip);
  }

  lemma DenotedEntry(lx: Lexer, entries: seq<string>, nets: seq<IPNet>, n: IPNet) returns (e: string)
    requires Denotes(lx, entries, nets) && n in nets
    ensures e in entries && ParseCIDR(lx, e) == Some(n)
  {
    hide ParseCIDR, TrimSpace;
    var i :| 0 <= i < |nets| && nets[i] == n;
    e := entries[i];
  }

  lemma DenotedNet(lx: Lexer, entries: seq<string>, nets: seq<IPNet>, e: string)
    requires Denotes(lx, entries, nets) && e in entries
    ensures ParseCIDR(lx, e).Some? && ParseCIDR(lx, e).value in nets
  {
    hide ParseCIDR, TrimSpace;
    var i :| 0 <= i < |entries| && entries[i] == e;
    assert nets[i] in nets;
  }

  lemma NetCovered(lx: Lexer, entries: seq<string>, nets: seq<IPNet>, n: IPNet, ip: IP) returns (k: PrefixKey)
    requires lx.Sound() && Parsed(lx, entries) && Denotes(lx, entries, nets) && n in nets && Contains(n, ip)
    ensures KeySet(lx, entries).Some? && k in KeySet(lx, entries).value && Covers(k, ip)
  {
    KeysOf(lx, entries);
    hide ParseCIDR, NormalizeKey, Covers, Contains, KeySet, TrimSpace, Parsed, Denotes, Lexer.Sound;
    var e := DenotedEntry(lx, entries, nets, n);
    CoversContains(lx, e, ip);
    k := NormalizeKey(lx, e).value;
  }

  lemma KeyContained(lx: Lexer, entries: seq<string>, nets: seq<IPNet>, k: PrefixKey, ip: IP) returns (n: IPNet)
    requires lx.Sound() && Parsed(lx, entries) && Denotes(lx, entries, nets)
    requires KeySet(lx, entries).Some? && k in KeySet(lx, entries).value && Covers(k, ip)
    ensures n in nets && Contains(n, ip)
  {
    KeysOf(lx, entries);
    hide ParseCIDR, NormalizeKey, Covers, Contains, KeySet, TrimSpace, Parsed, Denotes, Lexer.Sound;
    var e :| e in entries && NormalizeKey(lx, e) == Some(k);
    DenotedNet(lx, entries, nets, e);
    CoversContains(lx, e, ip);
    n := ParseCIDR(lx, e).value;
  }

  /** The list admits what some key in its key set covers. */
  lemma AllowedByKeys(lx: Lexer, entries: seq<string>, ip: IP)
    requires lx.Sound() && Parsed(lx, entries)
    ensures ParseAll(lx, entries).Some? && KeySet(lx, entries).Some?
    ensures AllowedBy(ParseAll(lx, entries).value.1, ip)
       <==> Key(ip).Some? && exists k :: k in KeySet(lx, entries).value && Covers(k, ip)
  {
    DenotesParsed(lx, entries);
    ParseAllDenotes(lx, entries);
    KeysOf(lx, entries);
    var nets, keys := ParseAll(lx, entries).value.1, KeySet(lx, entries).value;
    hide *;
    AllowedMeans(nets, ip);
    if n :| n in nets && Contains(n, ip) {
      var k := NetCovered(lx, entries, nets, n, ip);
    }
    if k :| k in keys && Covers(k, ip) {
      var n := KeyContained(lx, entries, nets, k, ip);
    }
  }

  lemma AllowedMeans(nets: seq<IPNet>, ip: IP)
    ensures AllowedBy(nets, ip) <==> Key(ip).Some? && exists n :: n in nets && Contains(n, ip)
  {
    hide Contains, IsUnspecified;
  }

  /**
    After any run of Replace, Add and Remove, an address is allowed exactly when it lies in one of
    the prefixes of the set that the same run makes of a plain set.
   */
  lemma AllowAfterRun(lx: Lexer, ops: seq<Op>, ip: IP)
    requires lx.Sound()
    ensures ParseAll(lx, Run(lx, ops)).Some?
    ensures AllowedBy(ParseAll(lx, Run(lx, ops)).value.1, ip)
       <==> Key(ip).Some? && exists k :: k in RunSet(lx, ops) && Covers(k, ip)
  {
    RunRefines(lx, ops);
    hide KeySet, Parsed, Run, RunSet, AllowedBy, Covers;
    AllowedByKeys(lx, Run(lx, ops), ip);
  }

  /** A bare address stands for itself alone, in either notation. */
  lemma BareAddress(lx: Lexer, e: string, ip: IP)
    requires lx.Sound() && '/' !in TrimSpace(e) && ParseCIDR(lx, e).Some? && |ip| in {4, 16}
    ensures lx.ip(TrimSpace(e)).Some?
    ensures Contains(ParseCIDR(lx, e).value, ip) <==> Equal(ip, lx.ip(TrimSpace(e)).value)
  {
    var own := lx.ip(TrimSpace(e)).value;
    var n := ParseCIDR(lx, e).value;
    assert n == IPNet(Normalize(own), CIDRMask(8 * |Normalize(own)|, |Normalize(own)|));
    hide ParseCIDR, TrimSpace, CIDRMask;
    NormalizeEqual(ip, own);
    FullMask(Normalize(own), Normalize(ip));
    hide Equal, Matches;
  }

  lemma FullMask(own: IP, ip: IP)
    ensures Matches(own, CIDRMask(8 * |own|, |own|), ip) <==> ip == own
  {
    AllOnes(|own|);
    hide CIDRMask;
    var m := CIDRMask(8 * |own|, |own|);
    if Matches(own, m, ip) {
      forall i | 0 <= i < |own| ensures own[i] == ip[i] {
        assert Same(own[i], ip[i], m[i]);
      }
    }
  }

  lemma {:induction false} AllOnes(bytes: nat)
    ensures forall i :: 0 <= i < bytes ==> CIDRMask(8 * bytes, bytes)[i] == 0xff
  {
    if bytes > 0 {
      AllOnes(bytes - 1);
      var rest := CIDRMask(8 * (bytes - 1), bytes - 1);
      assert CIDRMask(8 * bytes, bytes) == [0xff] + rest;
      forall i | 0 <= i < bytes ensures ([0xff] + rest)[i] == 0xff {
        assert i > 0 ==> ([0xff] + rest)[i] == rest[i - 1];
      }
    }
  }

  /** A CIDR stands for the addresses that agree with it in as many bits as its mask has ones. */
  lemma CidrEntry(lx: Lexer, e: string, ip: IP)
    requires lx.Sound() && '/' in TrimSpace(e)
    ensures ParseCIDR(lx, e).Some? <==> lx.cidr(TrimSpace(e)).Some?
    ensures ParseCIDR(lx, e).Some? ==>
              var n := lx.cidr(TrimSpace(e)).value;
              Contains(ParseCIDR(lx, e).value, ip) <==> InPrefix(Normalize(n.ip), PrefixOnes(n), Normalize(ip))
  {
    assert TrimSpace(e) != "";
    if lx.cidr(TrimSpace(e)).Some? {
      var n := lx.cidr(TrimSpace(e)).value;
      CanonicalizeKeepsMembers(n, ip);
      ContainsIff(n, ip);
    }
    hide TrimSpace, Contains, Canonicalize, InPrefix, Normalize, PrefixOnes;
  }

  /** The list admits an address exactly if it is specified and agrees with one of the prefixes in its leading bits. */
  lemma AllowedIff(nets: seq<IPNet>, ip: IP)
    requires forall n :: n in nets ==> Regular(n)
    ensures AllowedBy(nets, ip)
       <==> Key(ip).Some? && exists n :: n in nets && InPrefix(Normalize(n.ip), PrefixOnes(n), Normalize(ip))
  {
    AllowedMeans(nets, ip);
    hide AllowedBy, Contains, InPrefix, PrefixOnes, Regular, Normalize, Key;
    if n :| n in nets && Contains(n, ip) {
      ContainsIff(n, ip);
    }
    if n :| n in nets && InPrefix(Normalize(n.ip), PrefixOnes(n), Normalize(ip)) {
      ContainsIff(n, ip);
    }
  }
}
