/** What holds of the ban store over whole runs, reloads included. */
module BanRuns {
  import opened Options
  import opened Address
  import opened Allowlist
  import opened BanRecord
  import opened BanModel

  /** An operation, and whether its attempt to write the disk succeeds. */
  datatype Step = Step(op: Op, saved: bool)

  function After(p: Policy, lx: Lexer, run: seq<Step>): Store {
    if run == [] then EMPTY
    else Apply(p, lx, After(p, lx, run[..|run| - 1]), run[|run| - 1].op, run[|run| - 1].saved)
  }

  /** The clock never runs backwards and does not pass `t`. */
  predicate Timed(run: seq<Step>, t: int)
    decreases |run|
  {
    run == [] ||
    var op := run[|run| - 1].op;
    if op.ObserveInvalid? then op.now <= t && Timed(run[..|run| - 1], op.now)
    else Timed(run[..|run| - 1], t)
  }

  /** The store and its disk copy are in good shape. */
  ghost predicate GoodShape(p: Policy, s: Store) {
    && (forall k :: Shape(p, StatusOf(s, k)))
    && (forall k :: Shape(p, DiskStatus(s, k)))
    && (forall k :: k in s.byIP.Keys + s.pardoned + s.disk.records.Keys + s.disk.pardoned ==> Key(k) == Some(k))
  }

  lemma ShapeStep(p: Policy, lx: Lexer, s: Store, op: Op, saved: bool, k: IP)
    requires p.Valid() && Shape(p, StatusOf(s, k)) && Shape(p, DiskStatus(s, k))
    ensures Shape(p, StatusOf(Apply(p, lx, s, op, saved), k))
    ensures Shape(p, DiskStatus(Apply(p, lx, s, op, saved), k))
  {
    var s' := Apply(p, lx, s, op, saved);
    if !op.Reload? {
      StoreIsPerKey(p, lx, s, op, saved, k);
      if EventFor(lx, op, k).Some? {
        ShapeKept(p, StatusOf(s, k), EventFor(lx, op, k).value);
      }
      DiskIsOldOrWritten(p, lx, s, op, saved);
      hide Apply, EventFor, WellFormed;
    }
  }

  lemma DiskIsOldOrWritten(p: Policy, lx: Lexer, s: Store, op: Op, saved: bool)
    ensures var s' := Apply(p, lx, s, op, saved);
      s'.disk == s.disk || (saved && s'.disk == Written(s'.byIP, s'.pardoned))
  {
    hide Strike, Key, Listed;
  }

  lemma KeysStep(p: Policy, lx: Lexer, s: Store, op: Op, saved: bool, k: IP)
    requires forall j :: j in s.byIP.Keys + s.pardoned + s.disk.records.Keys + s.disk.pardoned ==> Key(j) == Some(j)
    requires var s' := Apply(p, lx, s, op, saved);
      k in s'.byIP.Keys + s'.pardoned + s'.disk.records.Keys + s'.disk.pardoned
    ensures Key(k) == Some(k)
  {
    if !op.Reload? && !op.UnbanCIDRs? && Key(op.ip).Some? {
      KeyOfKey(op.ip);
    }
    hide Strike, Key, Listed;
    DiskIsOldOrWritten(p, lx, s, op, saved);
  }

  lemma {:induction false} ShapeOverRuns(p: Policy, lx: Lexer, run: seq<Step>)
    requires p.Valid()
    ensures GoodShape(p, After(p, lx, run))
  {
    if run != [] {
      var s, last := After(p, lx, run[..|run| - 1]), run[|run| - 1];
      ShapeOverRuns(p, lx, run[..|run| - 1]);
      hide Shape, Apply;
      forall k ensures Shape(p, StatusOf(After(p, lx, run), k)) && Shape(p, DiskStatus(After(p, lx, run), k)) {
        ShapeStep(p, lx, s, last.op, last.saved, k);
      }
      var s' := After(p, lx, run);
      forall k | k in s'.byIP.Keys + s'.pardoned + s'.disk.records.Keys + s'.disk.pardoned ensures Key(k) == Some(k) {
        KeysStep(p, lx, s, last.op, last.saved, k);
      }
    }
  }

  /**
    In every reachable state, whatever was written and reloaded in between: a record is permanent
    exactly after two bans, a deadline belongs to the first one, streaks stay below the limit, no
    address is both recorded and pardoned, and a pardoned address is not blocked.
   */
  lemma StoreShape(p: Policy, lx: Lexer, run: seq<Step>, k: IP)
    requires p.Valid()
    ensures var s := After(p, lx, run);
      && (k in s.byIP ==>
            && (s.byIP[k].permanent <==> s.byIP[k].bans == 2) && s.byIP[k].bans <= 2
            && (s.byIP[k].until.Some? ==> s.byIP[k].bans == 1)
            && s.byIP[k].consecutive < p.limit
            && k !in s.pardoned)
      && (Pardoned(s, k) ==> forall now :: !Blocked(s, k, now))
  {
    ShapeOverRuns(p, lx, run);
    var s := After(p, lx, run);
    assert Shape(p, StatusOf(s, k));
    if Pardoned(s, k) {
      assert Shape(p, StatusOf(s, Key(k).value));
    }
  }

  ghost predicate DiskAgrees(s: Store, t: int) {
    forall k :: Agree(StatusOf(s, k), DiskStatus(s, k), t)
  }

  predicate AllSaved(run: seq<Step>) {
    forall x :: x in run ==> x.saved
  }

  lemma AgreeStep(p: Policy, lx: Lexer, s: Store, op: Op, t: int, k: IP)
    requires DiskAgrees(s, t) && (op.ObserveInvalid? ==> op.now == t)
    ensures var s' := Apply(p, lx, s, op, true); Agree(StatusOf(s', k), DiskStatus(s', k), t)
  {
    var s' := Apply(p, lx, s, op, true);
    assert Agree(StatusOf(s, k), DiskStatus(s, k), t);
    if !op.Reload? {
      SavedOrSame(p, lx, s, op, k, t);
      if s'.disk == Written(s'.byIP, s'.pardoned) {
        PersistAgrees(s', k, t);
      } else {
        hide Apply;
      }
    }
  }

  lemma LaterAgrees(s: Store, t: int, t': int)
    requires DiskAgrees(s, t) && t <= t'
    ensures DiskAgrees(s, t')
  {
    forall k ensures Agree(StatusOf(s, k), DiskStatus(s, k), t') {
      assert Agree(StatusOf(s, k), DiskStatus(s, k), t);
    }
  }

  lemma {:induction false} DiskAgreesOverRuns(p: Policy, lx: Lexer, run: seq<Step>, t: int)
    requires Timed(run, t) && AllSaved(run)
    ensures DiskAgrees(After(p, lx, run), t)
    decreases |run|
  {
    if run != [] {
      var most, last := run[..|run| - 1], run[|run| - 1];
      assert last.saved && forall x :: x in most ==> x in run;
      var at := if last.op.ObserveInvalid? then last.op.now else t;
      DiskAgreesOverRuns(p, lx, most, at);
      var s, s' := After(p, lx, most), After(p, lx, run);
      assert s' == Apply(p, lx, s, last.op, true);
      hide Apply, Agree;
      forall k ensures Agree(StatusOf(s', k), DiskStatus(s', k), at) {
        AgreeStep(p, lx, s, last.op, at, k);
      }
      LaterAgrees(s', at, t);
    }
  }

  /**
    A reload at any point of any run, between two operations, is not noticed: every address is
    blocked at the same later times, the same ones are pardoned, and the ban counts are the same.
   */
  lemma ReloadTransparent(p: Policy, lx: Lexer, run: seq<Step>, t: int, ip: IP, now: int)
    requires Timed(run, t) && AllSaved(run) && now >= t
    ensures var s := After(p, lx, run);
      var r := After(p, lx, run + [Step(Op.Reload, true)]);
      && Blocked(r, ip, now) == Blocked(s, ip, now)
      && r.pardoned == s.pardoned
      && RecordOf(StatusOf(r, ip)).bans == RecordOf(StatusOf(s, ip)).bans
  {
    var s := After(p, lx, run);
    var more := run + [Step(Op.Reload, true)];
    assert more[..|more| - 1] == run;
    var r := After(p, lx, more);
    DiskAgreesOverRuns(p, lx, run, t);
    hide After, Timed, AllSaved;
    forall k ensures StatusOf(r, k) == DiskStatus(s, k) && (k in s.pardoned <==> k in r.pardoned) {
      assert Agree(StatusOf(s, k), DiskStatus(s, k), t);
    }
    assert Agree(StatusOf(s, ip), DiskStatus(s, ip), t);
    if Key(ip).Some? {
      AgreeBlocked(StatusOf(s, Key(ip).value), DiskStatus(s, Key(ip).value), t, now);
    }
  }

  lemma AfterMore(p: Policy, lx: Lexer, run: seq<Step>, more: seq<Step>)
    requires more != []
    ensures var last := more[|more| - 1];
      After(p, lx, run + more) == Apply(p, lx, After(p, lx, run + more[..|more| - 1]), last.op, last.saved)
  {
    assert (run + more)[..|run + more| - 1] == run + more[..|more| - 1];
    hide Apply;
  }

  /** Nothing but a reload takes a pardon back, and what is on disk stays there. */
  lemma PardonsStep(p: Policy, lx: Lexer, s: Store, op: Op, saved: bool)
    ensures var s' := Apply(p, lx, s, op, saved);
      && (if op.Reload? then s'.pardoned == s.disk.pardoned else s.pardoned <= s'.pardoned)
      && (s'.disk.pardoned == s.disk.pardoned || (saved && s'.disk.pardoned == s'.pardoned))
      && (saved && !op.Reload? && s'.pardoned != s.pardoned ==> s'.disk.pardoned == s'.pardoned)
  {
    hide Strike, Key, Listed;
  }

  lemma {:induction false} PardonStays(p: Policy, lx: Lexer, run: seq<Step>, more: seq<Step>, k: IP)
    requires k in After(p, lx, run).pardoned
    requires k in After(p, lx, run).disk.pardoned || forall x :: x in more ==> !x.op.Reload?
    ensures k in After(p, lx, run + more).pardoned
    ensures k in After(p, lx, run).disk.pardoned ==> k in After(p, lx, run + more).disk.pardoned
    decreases |more|
  {
    hide After, Apply;
    if more == [] {
      assert run + more == run;
    } else {
      var most, last := more[..|more| - 1], more[|more| - 1];
      assert last in more && forall x :: x in most ==> x in more;
      PardonStays(p, lx, run, most, k);
      AfterMore(p, lx, run, more);
      PardonsStep(p, lx, After(p, lx, run + most), last.op, last.saved);
    }
  }

  lemma PardonedIsUnblocked(p: Policy, lx: Lexer, run: seq<Step>, ip: IP)
    requires p.Valid() && Pardoned(After(p, lx, run), ip)
    ensures forall now :: !Blocked(After(p, lx, run), ip, now)
  {
    StoreShape(p, lx, run, Key(ip).value);
    ShapeOverRuns(p, lx, run);
    assert Shape(p, StatusOf(After(p, lx, run), Key(ip).value));
    hide After, Key;
  }

  /** Until the store is loaded again a pardon is for good, whatever is written and whatever the clock says. */
  lemma PardonUntilReload(p: Policy, lx: Lexer, run: seq<Step>, more: seq<Step>, ip: IP)
    requires p.Valid() && Pardoned(After(p, lx, run), ip) && forall x :: x in more ==> !x.op.Reload?
    ensures Pardoned(After(p, lx, run + more), ip) && forall now :: !Blocked(After(p, lx, run + more), ip, now)
  {
    PardonStays(p, lx, run, more, Key(ip).value);
    PardonedIsUnblocked(p, lx, run + more, ip);
  }

  /** A pardon that is not on disk: the store is loaded again, and the address can be banned. */
  function Relapse(ip: IP): seq<Step> {
    [Step(Op.Reload, true), Step(BanPermanent(ip), true)]
  }

  lemma RelapseBlocks(p: Policy, lx: Lexer, run: seq<Step>, ip: IP, now: int)
    requires Key(ip).Some? && Key(ip).value !in After(p, lx, run).disk.pardoned
    ensures !Pardoned(After(p, lx, run + [Step(Op.Reload, true)]), ip)
    ensures Blocked(After(p, lx, run + Relapse(ip)), ip, now)
  {
    hide After, Key;
    var first := [Step(Op.Reload, true)];
    AfterMore(p, lx, run, first);
    assert run + first[..0] == run;
    AfterMore(p, lx, run, Relapse(ip));
    assert Relapse(ip)[..1] == first;
  }

  /**
    A pardon holds for good, and the address is never blocked again in any continuation, with any
    operations, failed writes, reloads and clock, if and only if it is on disk by now.
   */
  lemma PardonIsForever(p: Policy, lx: Lexer, run: seq<Step>, ip: IP)
    requires p.Valid() && Pardoned(After(p, lx, run), ip)
    ensures (forall more :: Pardoned(After(p, lx, run + more), ip)) <==> Key(ip).value in After(p, lx, run).disk.pardoned
    ensures (forall more, now :: !Blocked(After(p, lx, run + more), ip, now))
       <==> Key(ip).value in After(p, lx, run).disk.pardoned
  {
    hide After, Key, Blocked;
    if Key(ip).value in After(p, lx, run).disk.pardoned {
      forall more ensures Pardoned(After(p, lx, run + more), ip) && forall now :: !Blocked(After(p, lx, run + more), ip, now) {
        PardonStays(p, lx, run, more, Key(ip).value);
        PardonedIsUnblocked(p, lx, run + more, ip);
      }
    } else {
      RelapseBlocks(p, lx, run, ip, 0);
    }
  }

  lemma {:induction false} DiskPardonsAreOld(p: Policy, lx: Lexer, run: seq<Step>)
    ensures After(p, lx, run).disk.pardoned <= After(p, lx, run).pardoned
    ensures AllSaved(run) ==> After(p, lx, run).disk.pardoned == After(p, lx, run).pardoned
  {
    if run != [] {
      var most, last := run[..|run| - 1], run[|run| - 1];
      assert last in run && forall x :: x in most ==> x in run;
      hide Apply;
      DiskPardonsAreOld(p, lx, most);
      PardonsStep(p, lx, After(p, lx, most), last.op, last.saved);
    }
  }

  /** Unbanning a recorded address is for good if and only if the write succeeds. */
  lemma UnbanLastsIff(p: Policy, lx: Lexer, run: seq<Step>, ip: IP, saved: bool)
    requires p.Valid() && Key(ip).Some? && Key(ip).value in After(p, lx, run).byIP
    ensures var unbanned := run + [Step(Unban(ip), saved)];
      && Pardoned(After(p, lx, unbanned), ip)
      && ((forall more, now :: !Blocked(After(p, lx, unbanned + more), ip, now)) <==> saved)
  {
    var last := [Step(Unban(ip), saved)];
    StoreShape(p, lx, run, Key(ip).value);
    DiskPardonsAreOld(p, lx, run);
    AfterMore(p, lx, run, last);
    assert run + last[..0] == run;
    hide After, Blocked, Key;
    PardonIsForever(p, lx, run + last, ip);
  }

  /** As long as every write has succeeded, every pardon so far is for good. */
  lemma SavedPardonsLast(p: Policy, lx: Lexer, run: seq<Step>, more: seq<Step>, ip: IP)
    requires p.Valid() && AllSaved(run) && Pardoned(After(p, lx, run), ip)
    ensures Pardoned(After(p, lx, run + more), ip) && forall now :: !Blocked(After(p, lx, run + more), ip, now)
  {
    DiskPardonsAreOld(p, lx, run);
    hide After, Key, Blocked;
    PardonIsForever(p, lx, run, ip);
  }

  /** An address is banned; its pardon cannot be written; asking again finds nothing to do; the store is loaded. */
  function LostPardon(ip: IP): seq<Step> {
    [Step(BanPermanent(ip), true), Step(Unban(ip), false), Step(Unban(ip), true), Step(Op.Reload, true)]
  }

  lemma LostPardonBlocks(p: Policy, lx: Lexer, ip: IP, now: int)
    requires Key(ip).Some?
    ensures Pardoned(After(p, lx, LostPardon(ip)[..2]), ip)
    ensures After(p, lx, LostPardon(ip)[..3]) == After(p, lx, LostPardon(ip)[..2])
    ensures Blocked(After(p, lx, LostPardon(ip)), ip, now) && !Pardoned(After(p, lx, LostPardon(ip)), ip)
  {
    hide Key;
    var run, k := LostPardon(ip), Key(ip).value;
    PrefixStep(p, lx, run, 0);
    PrefixStep(p, lx, run, 1);
    PrefixStep(p, lx, run, 2);
    PrefixStep(p, lx, run, 3);
    assert run[..4] == run;
    assert After(p, lx, run[..0]) == EMPTY;
    hide After;
  }

  lemma PrefixStep(p: Policy, lx: Lexer, run: seq<Step>, i: nat)
    requires i < |run|
    ensures After(p, lx, run[..i + 1]) == Apply(p, lx, After(p, lx, run[..i]), run[i].op, run[i].saved)
  {
    assert run[..i + 1][..i] == run[..i];
    hide Apply;
  }

  /** Only an operation that calls the hooks can block an address that was not blocked. */
  lemma SilentNeverBlocks(p: Policy, lx: Lexer, s: Store, op: Op, saved: bool, ip: IP, t: int)
    requires !op.Reload? && !Notifies(p, s, op) && Blocked(Apply(p, lx, s, op, saved), ip, t)
    ensures Blocked(s, ip, t)
  {
    var k := Key(ip).value;
    StoreIsPerKey(p, lx, s, op, saved, k);
    hide Apply, Key;
    var e := EventFor(lx, op, k);
    if e.Some? && !BlockedAt(StatusOf(s, k), t) {
      NewlyBlocked(p, StatusOf(s, k), e.value, t);
      hide Next, EventFor;
    }
  }

  /** The events of `run` for one address. */
  function Events(lx: Lexer, run: seq<Step>, k: IP): seq<Event> {
    if run == [] then []
    else
      var e := EventFor(lx, run[|run| - 1].op, k);
      Events(lx, run[..|run| - 1], k) + (if e.Some? then [e.value] else [])
  }

  /** Without restarts, what is known about an address is what its own events make of it. */
  lemma {:induction false} StatusIsOwnHistory(p: Policy, lx: Lexer, run: seq<Step>, k: IP)
    requires forall x :: x in run ==> !x.op.Reload?
    ensures StatusOf(After(p, lx, run), k) == BanRecord.After(p, Events(lx, run, k))
  {
    if run != [] {
      var most, last := run[..|run| - 1], run[|run| - 1];
      assert last in run && forall x :: x in most ==> x in run;
      StatusIsOwnHistory(p, lx, most, k);
      StoreIsPerKey(p, lx, After(p, lx, most), last.op, last.saved, k);
      hide Apply, EventFor;
      var e := EventFor(lx, last.op, k);
      if e.Some? {
        assert Events(lx, run, k)[..|Events(lx, run, k)| - 1] == Events(lx, most, k);
      } else {
        assert Events(lx, run, k) == Events(lx, most, k);
      }
    }
  }
}
