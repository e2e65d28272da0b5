/** The ban store: methods that update the records, the pardons and the disk copy in place. */
module BanStore {
  import opened Options
  import opened Address
  import opened Allowlist
  import opened BanRecord
  import Model = BanModel

  class Bans {
    const policy: Policy
    const lx: Lexer
    /** Without a path nothing is written. */
    const path: bool
    var byIP: map<IP, Record>
    var pardoned: set<IP>
    var file: Model.Disk
    /** How often the hooks were called. */
    var notified: nat

    ghost function Value(): Model.Store
      reads this
    {
      Model.Store(byIP, pardoned, file)
    }

    constructor (policy: Policy, lx: Lexer, path: bool)
      ensures this.policy == policy && this.lx == lx && this.path == path
      ensures Value() == Model.EMPTY && notified == 0
    {
      this.policy, this.lx, this.path := policy, lx, path;
      byIP, pardoned, file, notified := map[], {}, Model.Disk(map[], {}), 0;
    }

    predicate BlockedLocked(key: IP, now: int)
      reads this
    {
      key in byIP && (byIP[key].permanent || (byIP[key].until.Some? && now < byIP[key].until.value))
    }

    method Blocked(ip: IP, now: int) returns (b: bool)
      ensures b == Model.Blocked(Value(), ip, now)
    {
      var key := Key(ip);
      if key.None? {
        return false;
      }
      b := BlockedLocked(key.value, now);
    }

    method Pardoned(ip: IP) returns (b: bool)
      ensures b == Model.Pardoned(Value(), ip)
    {
      var key := Key(ip);
      b := key.Some? && key.value in pardoned;
    }

    method KindOf(ip: IP, now: int) returns (kind: string)
      ensures kind != "" <==> Model.Blocked(Value(), ip, now)
      ensures kind == "permanent" <==> Key(ip).Some? && Key(ip).value in byIP && byIP[Key(ip).value].permanent
      ensures kind in {"", "temporary", "permanent"}
    {
      var key := Key(ip);
      if key.None? || key.value !in byIP {
        return "";
      }
      var r := byIP[key.value];
      if r.permanent {
        kind := "permanent";
      } else if r.until.Some? && now < r.until.value {
        kind := "temporary";
      } else {
        kind := "";
      }
    }

    method PersistLocked(saves: bool) returns (ok: bool)
      modifies this`file
      ensures ok == (!path || saves)
      ensures Value() == Model.Persist(old(Value()), path && saves)
    {
      ok := !path || saves;
      if path && saves {
        var records: map<IP, Record> := map[];
        var left := byIP.Keys;
        while left != {}
          invariant left <= byIP.Keys
          invariant records == map k | k in byIP && k !in left && !Model.Blank(byIP[k]) :: byIP[k]
          decreases |left|
        {
          var k :| k in left;
          left := left - {k};
          if !Model.Blank(byIP[k]) {
            records := records[k := byIP[k]];
          }
        }
        file := Model.Disk(records, pardoned);
      }
    }

    method ObserveInvalid(ip: IP, reason: string, now: int, saves: bool)
      modifies this
      ensures Value() == Model.Apply(policy, lx, old(Value()), Model.ObserveInvalid(ip, reason, now), path && saves)
      ensures var notifies := Model.Notifies(policy, old(Value()), Model.ObserveInvalid(ip, reason, now));
        notified == old(notified) + (if notifies then 1 else 0)
    {
      var key := Key(ip);
      hide Key;
      if key.None? {
        return;
      }
      var k := key.value;
      if k in pardoned || BlockedLocked(k, now) {
        return;
      }
      var was := if k in byIP then byIP[k] else NEW_RECORD;
      var r := Struck(was, reason, now);
      hide Strike, Model.Written;
      byIP := byIP[k := r];
      if r.bans == was.bans {
        return;
      }
      var ok := PersistLocked(saves);
      notified := notified + 1;
    }

    /** What a strike does to the record of the address. */
    method Struck(was: Record, reason: string, now: int) returns (r: Record)
      requires !Banned(was, now)
      ensures r == Strike(policy, was, reason, now) && was.bans <= r.bans
    {
      r := was;
      if r.until.Some? && !(now < r.until.value) {
        r := r.(until := None, consecutive := 0, reason := "");
      }
      if r.reason != reason {
        r := r.(reason := reason, consecutive := 0);
      }
      r := r.(consecutive := r.consecutive + 1);
      if r.consecutive < policy.limit {
        return;
      }
      r := r.(consecutive := 0, bans := r.bans + 1);
      if r.bans >= 2 {
        r := r.(permanent := true, until := None);
      } else {
        r := r.(until := Some(now + policy.ttl));
      }
    }

    method BanPermanent(ip: IP, saves: bool)
      modifies this
      ensures Value() == Model.Apply(policy, lx, old(Value()), Model.BanPermanent(ip), path && saves)
      ensures notified == old(notified) + (if Model.Notifies(policy, old(Value()), Model.BanPermanent(ip)) then 1 else 0)
    {
      var key := Key(ip);
      if key.None? || key.value in pardoned || (key.value in byIP && byIP[key.value].permanent) {
        return;
      }
      var r := if key.value in byIP then byIP[key.value] else NEW_RECORD;
      r := r.(permanent := true, until := None, consecutive := 0, reason := "");
      if r.bans < 2 {
        r := r.(bans := 2);
      }
      byIP := byIP[key.value := r];
      var ok := PersistLocked(saves);
      notified := notified + 1;
    }

    method ObserveValid(ip: IP)
      modifies this`byIP
      ensures Value() == Model.Apply(policy, lx, old(Value()), Model.ObserveValid(ip), false)
    {
      var key := Key(ip);
      if key.None? || key.value !in byIP || byIP[key.value].consecutive == 0 {
        assert key.Some? && key.value in byIP ==> byIP[key.value := byIP[key.value].(consecutive := 0)] == byIP;
        return;
      }
      byIP := byIP[key.value := byIP[key.value].(consecutive := 0)];
    }

    /** Fails on an address without a key, and when the disk cannot be written. */
    method Unban(ip: IP, saves: bool) returns (ok: bool)
      modifies this`byIP, this`pardoned, this`file
      ensures Value() == Model.Apply(policy, lx, old(Value()), Model.Unban(ip), path && saves)
      ensures ok <==> Key(ip).Some? && (Key(ip).value !in old(byIP) || !path || saves)
    {
      var key := Key(ip);
      if key.None? {
        return false;
      }
      if key.value !in byIP {
        return true;
      }
      byIP, pardoned := byIP - {key.value}, pardoned + {key.value};
      ok := PersistLocked(saves);
    }

    method UnbanCIDRs(cidrs: seq<string>, saves: bool)
      modifies this`byIP, this`pardoned, this`file
      ensures Value() == Model.Apply(policy, lx, old(Value()), Model.UnbanCIDRs(cidrs), path && saves)
    {
      var nets := Nets(cidrs);
      if nets == [] {
        assert Model.Forgiven(lx, Value(), cidrs) == {};
        return;
      }
      var removed := ForgiveIn(nets);
      assert removed == Model.Forgiven(lx, old(Value()), cidrs) by {
        hide Model.Listed, InNets;
      }
      if removed == {} {
        ForgiveNone(old(Value()));
        return;
      }
      var ok := PersistLocked(saves);
    }

    /** Pardons the recorded addresses that lie in `nets`. */
    method ForgiveIn(nets: seq<IPNet>) returns (removed: set<IP>)
      modifies this`byIP, this`pardoned
      ensures removed == set k | k in old(byIP) && InNets(nets, k)
      ensures Value() == Model.Forgive(old(Value()), removed)
    {
      hide InNets, Model.Forgive;
      removed := {};
      var left := byIP.Keys;
      ForgiveNone(Value());
      while left != {}
        invariant left <= byIP.Keys && left <= old(byIP).Keys
        invariant removed == set k | k in old(byIP) && k !in left && InNets(nets, k)
        invariant Value() == Model.Forgive(old(Value()), removed)
        decreases |left|
      {
        var k :| k in left;
        left := left - {k};
        var hit := InAny(nets, k);
        if hit {
          ForgiveMore(old(Value()), Value(), removed, k);
          byIP, pardoned, removed := byIP - {k}, pardoned + {k}, removed + {k};
        }
      }
    }

    ghost predicate InNets(nets: seq<IPNet>, k: IP) {
      exists n :: n in nets && Contains(n, k)
    }

    method InAny(nets: seq<IPNet>, k: IP) returns (hit: bool)
      ensures hit == InNets(nets, k)
    {
      hide Contains;
      for i := 0 to |nets|
        invariant forall j :: 0 <= j < i ==> !Contains(nets[j], k)
      {
        if Contains(nets[i], k) {
          return true;
        }
      }
      return false;
    }

    method Nets(cidrs: seq<string>) returns (nets: seq<IPNet>)
      ensures forall k :: InNets(nets, k) == Model.Listed(lx, cidrs, k)
    {
      nets := [];
      for i := 0 to |cidrs|
        invariant forall n :: n in nets <==> exists j :: 0 <= j < i && Model.ToNet(lx, cidrs[j]) == Some(n)
      {
        hide Model.ToNet;
        var n := Model.ToNet(lx, cidrs[i]);
        if n.Some? {
          nets := nets + [n.value];
        }
      }
      hide Model.ToNet, Contains;
      forall k ensures InNets(nets, k) == Model.Listed(lx, cidrs, k) {
        if c :| c in cidrs && Model.ToNet(lx, c).Some? && Contains(Model.ToNet(lx, c).value, k) {
          assert Model.ToNet(lx, c).value in nets;
        }
      }
    }

    /** The numbers of addresses under a temporary and under a permanent ban. */
    method Counts(now: int) returns (temp: nat, permanent: nat)
      ensures permanent == |set k | k in byIP && byIP[k].permanent|
      ensures temp + permanent == |set k | k in byIP && Banned(byIP[k], now)|
    {
      temp, permanent := 0, 0;
      var left := byIP.Keys;
      ghost var perms: set<IP>, banned: set<IP> := {}, {};
      while left != {}
        invariant left <= byIP.Keys
        invariant perms == (set k | k in byIP && k !in left && byIP[k].permanent) && permanent == |perms|
        invariant banned == (set k | k in byIP && k !in left && Banned(byIP[k], now)) && temp + permanent == |banned|
        decreases |left|
      {
        var k :| k in left;
        left := left - {k};
        var r := byIP[k];
        if r.permanent {
          permanent := permanent + 1;
          perms, banned := perms + {k}, banned + {k};
        } else if r.until.Some? && now < r.until.value {
          temp := temp + 1;
          banned := banned + {k};
        }
      }
      assert perms == set k | k in byIP && byIP[k].permanent;
      assert banned == set k | k in byIP && Banned(byIP[k], now);
    }

    /** Start-up: the file's keys are put in canonical form and unusable ones are skipped. */
    method Load(data: Model.Disk)
      modifies this`byIP, this`pardoned
      ensures KeyedSet(pardoned, data.pardoned) && KeyedMap(byIP, data.records, data.records.Keys)
    {
      hide KeyedMap, KeyedSet;
      pardoned := LoadPardoned(data.pardoned);
      byIP := LoadRecords(data.records);
    }
  }

  method LoadPardoned(names: set<IP>) returns (out: set<IP>)
    ensures KeyedSet(out, names)
  {
    hide Key;
    out := {};
    var left := names;
    while left != {}
      invariant left <= names
      invariant forall x :: x in names && x !in left && Key(x).Some? ==> Key(x).value in out
      invariant forall k :: k in out ==> exists x :: x in names && Key(x) == Some(k)
      decreases |left|
    {
      var x :| x in left;
      left := left - {x};
      if Key(x).Some? {
        out := out + {Key(x).value};
      }
    }
  }

  method LoadRecords(records: map<IP, Record>) returns (out: map<IP, Record>)
    ensures KeyedMap(out, records, records.Keys)
  {
    hide Key, KeyedMap;
    out := map[];
    var left := records.Keys;
    ghost var done: set<IP> := {};
    KeyedNone(records);
    while left != {}
      invariant done !! left && done + left == records.Keys
      invariant KeyedMap(out, records, done)
      decreases |left|
    {
      var x :| x in left;
      KeyedMore(out, records, done, x);
      left, done := left - {x}, done + {x};
      if Key(x).Some? {
        out := out[Key(x).value := records[x]];
      }
    }
  }

  lemma KeyedNone(records: map<IP, Record>)
    ensures KeyedMap(map[], records, {})
  {}

  /** `out` holds the keys of the addresses `names`. */
  ghost predicate KeyedSet(out: set<IP>, names: set<IP>) {
    && (forall x :: x in names && Key(x).Some? ==> Key(x).value in out)
    && (forall k :: k in out ==> exists x :: x in names && Key(x) == Some(k))
  }

  /** `out` holds, under the keys of the addresses `names`, one of their records. */
  ghost predicate KeyedMap(out: map<IP, Record>, records: map<IP, Record>, names: set<IP>) {
    && names <= records.Keys
    && (forall x :: x in names && Key(x).Some? ==> Key(x).value in out)
    && (forall k :: k in out ==> exists x :: x in names && Key(x) == Some(k) && out[k] == records[x])
  }

  lemma KeyedMore(out: map<IP, Record>, records: map<IP, Record>, names: set<IP>, x: IP)
    requires KeyedMap(out, records, names) && x in records
    ensures KeyedMap(if Key(x).Some? then out[Key(x).value := records[x]] else out, records, names + {x})
  {
    hide Key;
    var more := if Key(x).Some? then out[Key(x).value := records[x]] else out;
    forall k | k in more ensures exists y :: y in names + {x} && Key(y) == Some(k) && more[k] == records[y] {
      if Key(x) != Some(k) {
        var y :| y in names && Key(y) == Some(k) && out[k] == records[y];
        assert y in names + {x};
      }
    }
  }

  /** A file that the store wrote itself is loaded as it is. */
  lemma LoadsOwnFile(byIP: map<IP, Record>, pardoned: set<IP>, data: Model.Disk)
    requires forall k :: k in data.records.Keys + data.pardoned ==> Key(k) == Some(k)
    requires KeyedSet(pardoned, data.pardoned) && KeyedMap(byIP, data.records, data.records.Keys)
    ensures byIP == data.records && pardoned == data.pardoned
  {
    hide Key, KeyedSet, KeyedMap;
    forall k | k in data.records.Keys ensures Key(k) == Some(k) {
      assert k in data.records.Keys + data.pardoned;
    }
    forall k | k in data.pardoned ensures Key(k) == Some(k) {
      assert k in data.records.Keys + data.pardoned;
    }
    LoadsOwnRecords(byIP, data.records);
    LoadsOwnPardons(pardoned, data.pardoned);
  }

  lemma LoadsOwnRecords(byIP: map<IP, Record>, records: map<IP, Record>)
    requires (forall k :: k in records.Keys ==> Key(k) == Some(k)) && KeyedMap(byIP, records, records.Keys)
    ensures byIP == records
  {
    hide Key;
    forall k | k in byIP ensures k in records && byIP[k] == records[k] {
      var x :| x in records && Key(x) == Some(k) && byIP[k] == records[x];
    }
  }

  lemma LoadsOwnPardons(pardoned: set<IP>, written: set<IP>)
    requires (forall k :: k in written ==> Key(k) == Some(k)) && KeyedSet(pardoned, written)
    ensures pardoned == written
  {
    hide Key;
  }

  lemma ForgiveNone(s: Model.Store)
    ensures Model.Forgive(s, {}) == s
  {
    assert s.byIP - {} == s.byIP && s.pardoned + {} == s.pardoned;
  }

  lemma ForgiveMore(s: Model.Store, now: Model.Store, removed: set<IP>, k: IP)
    requires now == Model.Forgive(s, removed)
    ensures now.(byIP := now.byIP - {k}, pardoned := now.pardoned + {k}) == Model.Forgive(s, removed + {k})
  {
    assert now.byIP - {k} == s.byIP - (removed + {k});
    assert now.pardoned + {k} == s.pardoned + (removed + {k});
  }
}
