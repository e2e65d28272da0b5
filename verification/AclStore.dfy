/** The live allowlist and the store that persists it and announces its changes. */
module AclStore {
  import opened Options
  import opened Address
  import opened Allowlist
  import opened AllowlistRuns

  class List {
    const lx: Lexer
    var entries: seq<string>
    var nets: seq<IPNet>

    ghost predicate Valid()
      reads this
    {
      lx.Sound() && Denotes(lx, entries, nets)
    }

    constructor (lx: Lexer)
      requires lx.Sound()
      ensures Valid() && this.lx == lx && entries == [] && nets == []
    {
      this.lx, entries, nets := lx, [], [];
    }

    method ParseEntries(cidrs: seq<string>) returns (ok: bool, parsed: seq<string>, prefixes: seq<IPNet>)
      ensures ok <==> ParseAll(lx, cidrs).Some?
      ensures ok ==> ParseAll(lx, cidrs) == Some((parsed, prefixes))
    {
      parsed, prefixes := [], [];
      for i := 0 to |cidrs|
        invariant ParseAll(lx, cidrs[..i]) == Some((parsed, prefixes))
      {
        hide ParseCIDR, TrimSpace;
        PrefixStep(lx, cidrs, i);
        var s := TrimSpace(cidrs[i]);
        if s != "" {
          var n := ParseCIDR(lx, s);
          if n.None? {
            PrefixFails(lx, cidrs, i + 1);
            return false, [], [];
          }
          parsed, prefixes := parsed + [s], prefixes + [n.value];
        }
      }
      assert cidrs[..|cidrs|] == cidrs;
      return true, parsed, prefixes;
    }

    /** On a parse error the previous entries are kept. */
    method Replace(cidrs: seq<string>) returns (ok: bool)
      requires Valid()
      modifies this
      ensures Valid()
      ensures ok <==> ParseAll(lx, cidrs).Some?
      ensures ok ==> ParseAll(lx, cidrs) == Some((entries, nets))
      ensures !ok ==> entries == old(entries) && nets == old(nets)
    {
      hide Lexer.Sound;
      var parsed, prefixes;
      ok, parsed, prefixes := ParseEntries(cidrs);
      if ok {
        ParseAllDenotes(lx, cidrs);
        entries, nets := parsed, prefixes;
      }
    }

    method Allow(ip: IP) returns (allowed: bool)
      requires Valid()
      ensures allowed == AllowedBy(nets, ip)
    {
      hide Lexer.Sound, Denotes, IsUnspecified, NumberAndMask, Matches;
      if ip == [] || IsUnspecified(ip) {
        return false;
      }
      var normal := Normalize(ip);
      assert forall n :: Contains(n, normal) == Contains(n, ip);
      hide Contains, Normalize;
      for i := 0 to |nets|
        invariant forall j :: 0 <= j < i ==> !Contains(nets[j], ip)
      {
        if Contains(nets[i], normal) {
          return true;
        }
      }
      return false;
    }
  }

  lemma PrefixStep(lx: Lexer, cidrs: seq<string>, i: nat)
    requires i < |cidrs|
    ensures cidrs[..i + 1][..i] == cidrs[..i] && cidrs[..i + 1][i] == cidrs[i]
  {}

  lemma {:induction false} PrefixFails(lx: Lexer, cidrs: seq<string>, i: nat)
    requires i <= |cidrs| && ParseAll(lx, cidrs[..i]).None?
    ensures ParseAll(lx, cidrs).None?
    decreases |cidrs|
  {
    hide ParseCIDR, TrimSpace;
    if i == |cidrs| {
      assert cidrs[..i] == cidrs;
    } else {
      assert cidrs[..|cidrs| - 1][..i] == cidrs[..i];
      PrefixFails(lx, cidrs[..|cidrs| - 1], i);
    }
  }

  class Store {
    const list: List
    /** Without a path the list lives in memory only. */
    const path: bool
    var file: seq<string>
    /** The hooks have been called this often. */
    var notified: nat

    ghost predicate Valid()
      reads this, list
    {
      list.Valid()
    }

    constructor (list: List, path: bool)
      requires list.Valid()
      ensures Valid() && this.list == list && this.path == path && notified == 0 && file == []
    {
      this.list, this.path, file, notified := list, path, [], 0;
    }

    method PersistLocked(saves: bool) returns (ok: bool)
      modifies this`file
      ensures ok == (!path || saves)
      ensures file == if path && saves then list.entries else old(file)
    {
      ok := !path || saves;
      if path && saves {
        file := list.entries;
      }
    }

    /** The outcome of a change that was accepted: kept in memory, and announced if it was saved. */
    twostate predicate Committed(ok: bool, saves: bool)
      reads this, list
    {
      && ok == (!path || saves)
      && notified == old(notified) + (if ok then 1 else 0)
      && file == if path && saves then list.entries else old(file)
    }

    twostate predicate Untouched()
      reads this, list
    {
      list.entries == old(list.entries) && list.nets == old(list.nets) && file == old(file) && notified == old(notified)
    }

    method Replace(cidrs: seq<string>, saves: bool) returns (ok: bool)
      requires Valid()
      modifies this, list
      ensures Valid() && list.entries == Apply(list.lx, old(list.entries), Op.Replace(cidrs))
      ensures KeySet(list.lx, cidrs).None? ==> !ok && Untouched()
      ensures KeySet(list.lx, cidrs).Some? ==> Committed(ok, saves)
    {
      ParseKeepsKeys(list.lx, cidrs);
      hide KeySet, ParseAll, Parsed, Denotes, Lexer.Sound;
      ok := list.Replace(cidrs);
      if ok {
        ok := PersistLocked(saves);
        if ok {
          notified := notified + 1;
        }
      }
    }

    /** The keys of the current entries. */
    method CurrentKeys() returns (ok: bool, seen: set<PrefixKey>)
      requires Valid()
      ensures ok <==> KeySet(list.lx, list.entries).Some?
      ensures ok ==> KeySet(list.lx, list.entries) == Some(seen)
    {
      ok, seen := true, {};
      var cur := list.entries;
      for i := 0 to |cur|
        invariant KeySet(list.lx, cur[..i]) == Some(seen)
      {
        hide ParseCIDR, TrimSpace, NormalizeKey, Lexer.Sound;
        PrefixStep(list.lx, cur, i);
        assert cur[i] != "" && TrimSpace(cur[i]) == cur[i];
        var key := NormalizeKey(list.lx, cur[i]);
        if key.None? {
          KeyPrefixFails(list.lx, cur, i + 1);
          return false, {};
        }
        seen := seen + {key.value};
      }
      assert cur[..|cur|] == cur;
    }

    /** The list that Add is going to install. */
    method AddList(cidrs: seq<string>) returns (ok: bool, out: seq<string>)
      requires Valid()
      ensures ok <==> Added(list.lx, list.entries, cidrs).Some?
      ensures ok ==> Added(list.lx, list.entries, cidrs) == Some(out)
    {
      var lx, cur := list.lx, list.entries;
      DenotedParsed(lx, cur, list.nets);
      hide Lexer.Sound, Denotes, Parsed;
      var found, seen := CurrentKeys();
      assert found;
      out := cur;
      for i := 0 to |cidrs|
        invariant Added(lx, cur, cidrs[..i]) == Some(out) && KeySet(lx, out) == Some(seen)
      {
        hide ParseCIDR, TrimSpace, NormalizeKey, KeySet;
        PrefixStep(lx, cidrs, i);
        TrimTwice(cidrs[i]);
        var raw := TrimSpace(cidrs[i]);
        if raw == "" {
          continue;
        }
        var key := NormalizeKey(lx, raw);
        if key.None? {
          AddPrefixFails(lx, cur, cidrs, i + 1);
          return false, [];
        }
        if key.value in seen {
          continue;
        }
        KeySetPush(lx, out, raw);
        seen := seen + {key.value};
        out := out + [raw];
      }
      assert cidrs[..|cidrs|] == cidrs;
      return true, out;
    }

    /** Installs a list made of parsed entries. */
    method Commit(out: seq<string>, saves: bool) returns (ok: bool)
      requires Valid() && Parsed(list.lx, out)
      modifies this, list
      ensures Valid() && list.entries == out && Committed(ok, saves)
    {
      DenotesParsed(list.lx, out);
      hide Lexer.Sound, Denotes, Parsed;
      ok := list.Replace(out);
      assert ok;
      ok := PersistLocked(saves);
      if ok {
        notified := notified + 1;
      }
    }

    method Add(cidrs: seq<string>, saves: bool) returns (ok: bool)
      requires Valid()
      modifies this, list
      ensures Valid() && list.entries == Apply(list.lx, old(list.entries), Op.Add(cidrs))
      ensures KeySet(list.lx, cidrs).None? ==> !ok && Untouched()
      ensures KeySet(list.lx, cidrs).Some? && list.entries == old(list.entries) ==> ok && Untouched()
      ensures list.entries != old(list.entries) ==> Committed(ok, saves)
    {
      DenotedParsed(list.lx, list.entries, list.nets);
      AddedKeys(list.lx, list.entries, cidrs);
      hide Lexer.Sound, Denotes, Parsed, Added, KeySet, Kept, ParseAll;
      var parsed, out := AddList(cidrs);
      if !parsed {
        return false;
      }
      if |out| == |list.entries| {
        return true;
      }
      ok := Commit(out, saves);
    }

    /** The keys that Remove is asked to drop. */
    method DropSet(cidrs: seq<string>) returns (ok: bool, drop: set<PrefixKey>)
      ensures ok <==> KeySet(list.lx, cidrs).Some?
      ensures ok ==> KeySet(list.lx, cidrs) == Some(drop)
    {
      drop := {};
      for i := 0 to |cidrs|
        invariant KeySet(list.lx, cidrs[..i]) == Some(drop)
      {
        hide ParseCIDR, TrimSpace, NormalizeKey;
        PrefixStep(list.lx, cidrs, i);
        var raw := TrimSpace(cidrs[i]);
        if raw == "" {
          continue;
        }
        var key := NormalizeKey(list.lx, raw);
        if key.None? {
          KeyPrefixFails(list.lx, cidrs, i + 1);
          return false, {};
        }
        drop := drop + {key.value};
      }
      assert cidrs[..|cidrs|] == cidrs;
      return true, drop;
    }

    /** The entries that Remove keeps. */
    method KeepList(drop: set<PrefixKey>) returns (ok: bool, out: seq<string>)
      ensures ok <==> Kept(list.lx, list.entries, drop).Some?
      ensures ok ==> Kept(list.lx, list.entries, drop) == Some(out)
    {
      var cur := list.entries;
      out := [];
      for i := 0 to |cur|
        invariant Kept(list.lx, cur[..i], drop) == Some(out)
      {
        hide ParseCIDR, NormalizeKey;
        PrefixStep(list.lx, cur, i);
        var key := NormalizeKey(list.lx, cur[i]);
        if key.None? {
          KeptPrefixFails(list.lx, cur, drop, i + 1);
          return false, [];
        }
        if key.value !in drop {
          out := out + [cur[i]];
        }
      }
      assert cur[..|cur|] == cur;
      return true, out;
    }

    method Remove(cidrs: seq<string>, saves: bool) returns (ok: bool)
      requires Valid()
      modifies this, list
      ensures Valid() && list.entries == Apply(list.lx, old(list.entries), Op.Remove(cidrs))
      ensures KeySet(list.lx, cidrs).None? ==> !ok && Untouched()
      ensures KeySet(list.lx, cidrs).Some? && list.entries == old(list.entries) ==> ok && Untouched()
      ensures list.entries != old(list.entries) ==> Committed(ok, saves)
    {
      DenotedParsed(list.lx, list.entries, list.nets);
      hide Lexer.Sound, Denotes, Parsed, Kept, KeySet, Added, ParseAll;
      var parsed, drop := DropSet(cidrs);
      if !parsed {
        return false;
      }
      KeptKeys(list.lx, list.entries, drop);
      if drop == {} {
        KeptAll(list.lx, list.entries);
        return true;
      }
      var out;
      ok, out := KeepList(drop);
      assert ok;
      KeptLength(list.lx, list.entries, drop);
      if |out| == |list.entries| {
        return true;
      }
      ok := Commit(out, saves);
    }
  }

  lemma DenotedParsed(lx: Lexer, entries: seq<string>, nets: seq<IPNet>)
    requires lx.Sound() && Denotes(lx, entries, nets)
    ensures Parsed(lx, entries) && KeySet(lx, entries).Some?
  {
    KeysOf(lx, entries);
  }

  lemma {:induction false} KeyPrefixFails(lx: Lexer, cidrs: seq<string>, i: nat)
    requires i <= |cidrs| && KeySet(lx, cidrs[..i]).None?
    ensures KeySet(lx, cidrs).None?
    decreases |cidrs|
  {
    hide NormalizeKey, TrimSpace;
    if i == |cidrs| {
      assert cidrs[..i] == cidrs;
    } else {
      assert cidrs[..|cidrs| - 1][..i] == cidrs[..i];
      KeyPrefixFails(lx, cidrs[..|cidrs| - 1], i);
    }
  }

  lemma {:induction false} AddPrefixFails(lx: Lexer, cur: seq<string>, cidrs: seq<string>, i: nat)
    requires i <= |cidrs| && Added(lx, cur, cidrs[..i]).None?
    ensures Added(lx, cur, cidrs).None?
    decreases |cidrs|
  {
    hide NormalizeKey, TrimSpace, KeySet;
    if i == |cidrs| {
      assert cidrs[..i] == cidrs;
    } else {
      assert cidrs[..|cidrs| - 1][..i] == cidrs[..i];
      AddPrefixFails(lx, cur, cidrs[..|cidrs| - 1], i);
    }
  }

  lemma {:induction false} KeptPrefixFails(lx: Lexer, cur: seq<string>, drop: set<PrefixKey>, i: nat)
    requires i <= |cur| && Kept(lx, cur[..i], drop).None?
    ensures Kept(lx, cur, drop).None?
    decreases |cur|
  {
    hide NormalizeKey, TrimSpace;
    if i == |cur| {
      assert cur[..i] == cur;
    } else {
      assert cur[..|cur| - 1][..i] == cur[..i];
      KeptPrefixFails(lx, cur[..|cur| - 1], drop, i);
    }
  }

  lemma {:induction false} KeptAll(lx: Lexer, cur: seq<string>)
    requires Kept(lx, cur, {}).Some?
    ensures Kept(lx, cur, {}).value == cur
  {
    hide NormalizeKey;
    if cur != [] {
      KeptAll(lx, cur[..|cur| - 1]);
    }
  }
}
