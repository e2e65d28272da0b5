/** The other half of eviction: nobody is turned away or evicted who was allowed all along. */
module EvictionExact {
  import opened Options
  import opened Address
  import opened Allowlist
  import Bans = BanModel
  import opened Eviction
  import opened EvictionSafety

  /** The step closes the connection for a reason other than the list or the bans. */
  predicate Closes(w: World, s: Step, c: nat) {
    || (s.Close? && s.c == c)
    || (s.CloseAll? && c in w.conns && w.conns[c].reg == s.reg)
  }

  /** Nobody is about to close it. */
  predicate Unmarked(ch: Change, c: nat) {
    ch.scan.Some? ==> c !in ch.scan.value.closing
  }

  ghost predicate Served(w: World, c: nat)
    requires c in w.conns
  {
    w.conns[c].open && w.conns[c].pc != Turned && forall o :: o in w.changes ==> Unmarked(w.changes[o], c)
  }

  lemma ConnServed(u: Setup, w: World, s: Step, c: nat)
    requires Enabled(u, w, s) && !ChangeStep(s) && c in w.conns && Served(w, c) && Allowed(w, w.conns[c].ip) && !Closes(w, s, c)
    ensures c in Next(u, w, s).conns
    ensures var w' := Next(u, w, s); w'.conns[c].open && w'.conns[c].pc != Turned && w'.conns[c].ip == w.conns[c].ip
  {
    hide LockFree, AllowedBy, Bans.Blocked, Bans.Apply, Bans.Notifies, ChangeNext, Unmarked;
  }

  lemma ConnSparedByChange(u: Setup, w: World, s: Step, c: nat)
    requires Enabled(u, w, s) && ChangeStep(s) && c in w.conns && Served(w, c)
    ensures c in Next(u, w, s).conns && Next(u, w, s).conns[c] == w.conns[c]
  {
    hide LockFree, AllowedBy, Bans.Blocked, ConnNext, StoreNext;
    assert s.CloseOne? ==> Unmarked(w.changes[s.o], c);
  }

  lemma StaysUnmarked(u: Setup, w: World, s: Step, c: nat, o: nat)
    requires Enabled(u, w, s) && c in w.conns && Served(w, c) && Allowed(w, w.conns[c].ip) && o in Next(u, w, s).changes
    ensures Unmarked(Next(u, w, s).changes[o], c)
  {
    if ChangeStep(s) {
      hide LockFree, ConnNext, StoreNext, Bans.Blocked;
      ListedIsSomeone(w.nets, w.conns[c].ip);
      hide AllowedBy;
      assert o in w.changes ==> Unmarked(w.changes[o], c);
      assert s.o in w.changes ==> Unmarked(w.changes[s.o], c);
    } else {
      OtherScansKept(u, w, s, o);
      hide Next, Enabled, Allowed;
      assert o in w.changes ==> Unmarked(w.changes[o], c);
    }
  }

  lemma ListedIsSomeone(nets: seq<IPNet>, ip: IP)
    ensures AllowedBy(nets, ip) ==> ip != []
  {}

  lemma NewIsServed(u: Setup, w: World, s: Step, c: nat)
    requires Enabled(u, w, s) && Known(w) && c !in w.conns && c in Next(u, w, s).conns
    ensures Served(Next(u, w, s), c)
  {
    NewConns(u, w, s, c);
    assert forall o :: o in w.changes ==> KnownChange(w.conns.Keys, w.changes[o]);
    hide LockFree, AllowedBy, Bans.Blocked, ChangeNext, StoreNext;
  }

  /** Before each step of the run the address of the connection is allowed, and none closes it for another reason. */
  ghost predicate AllowedThroughout(u: Setup, run: seq<Step>, c: nat) {
    forall i :: 0 <= i < |run| ==> After(u, run[..i]).Some? && AllowedAt(After(u, run[..i]).value, run[i], c)
  }

  predicate AllowedAt(w: World, s: Step, c: nat) {
    c in w.conns ==> Allowed(w, w.conns[c].ip) && !Closes(w, s, c)
  }

  /**
    A connection or association whose address is allowed as long as it exists is never turned away and
    never evicted, whatever changes sweep its registry meanwhile.
   */
  lemma {:induction false} AllowedIsServed(u: Setup, run: seq<Step>, c: nat)
    requires After(u, run).Some? && AllowedThroughout(u, run, c)
    ensures c in After(u, run).value.conns ==> Served(After(u, run).value, c)
    decreases |run|
  {
    if run != [] {
      var n := |run| - 1;
      var w, s := After(u, run[..n]).value, run[n];
      assert AllowedAt(w, s, c);
      ThroughoutInit(u, run, c);
      hide After, Next, Enabled, Allowed, Served, Known, AllowedThroughout;
      AllowedIsServed(u, run[..n], c);
      AfterLast(u, run);
      if c in w.conns {
        ServedStep(u, w, s, c);
      } else if c in Next(u, w, s).conns {
        KnownHolds(u, run[..n]);
        NewIsServed(u, w, s, c);
      }
    }
  }

  lemma AfterLast(u: Setup, run: seq<Step>)
    requires After(u, run).Some? && run != []
    ensures var init := After(u, run[..|run| - 1]);
      init.Some? && Enabled(u, init.value, run[|run| - 1]) && After(u, run) == Some(Next(u, init.value, run[|run| - 1]))
  {
    hide Next, Enabled;
  }

  lemma ThroughoutInit(u: Setup, run: seq<Step>, c: nat)
    requires AllowedThroughout(u, run, c) && run != []
    ensures AllowedThroughout(u, run[..|run| - 1], c)
  {
    hide AllowedAt, After;
    var init := run[..|run| - 1];
    forall i | 0 <= i < |init| ensures After(u, init[..i]).Some? && AllowedAt(After(u, init[..i]).value, init[i], c) {
      assert init[..i] == run[..i];
    }
  }

  lemma ServedStep(u: Setup, w: World, s: Step, c: nat)
    requires Enabled(u, w, s) && c in w.conns && Served(w, c) && Allowed(w, w.conns[c].ip) && !Closes(w, s, c)
    ensures c in Next(u, w, s).conns && Served(Next(u, w, s), c)
  {
    forall o | o in Next(u, w, s).changes ensures Unmarked(Next(u, w, s).changes[o], c) {
      StaysUnmarked(u, w, s, c, o);
    }
    if ChangeStep(s) {
      ConnSparedByChange(u, w, s, c);
    } else {
      ConnServed(u, w, s, c);
    }
    hide Next, Enabled, Allowed, Unmarked;
  }
}
