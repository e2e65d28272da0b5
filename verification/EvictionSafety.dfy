/** No schedule of changes and handlers leaves a connection open that is no longer allowed. */
module EvictionSafety {
  import opened Options
  import opened Address
  import opened Allowlist
  import Bans = BanModel
  import BanRuns
  import opened Eviction

  predicate ConnStep(s: Step) {
    !ChangeStep(s) && !StoreStep(s) && !s.Insert?
  }

  lemma DueKept(w: World, w': World, c: nat)
    requires c in w.conns && c in w'.conns && w'.conns[c].reg == w.conns[c].reg && w'.changes == w.changes
    ensures BanDue(w', c) == BanDue(w, c) && ListDue(w', c) == ListDue(w, c)
  {}

  lemma ConnStepKeeps(u: Setup, w: World, s: Step, c: nat)
    requires Enabled(u, w, s) && ConnStep(s) && c in Next(u, w, s).conns
    requires c in w.conns ==> Watched(u, w, c)
    ensures Watched(u, Next(u, w, s), c)
  {
    hide LockFree, AllowedBy, Bans.Blocked, BanDue, ListDue, StoreNext, ChangeNext;
    if c in w.conns {
      DueKept(w, Next(u, w, s), c);
    }
  }

  /** A change that has just been announced will visit every registry. */
  lemma AnnouncedIsDue(u: Setup, w: World, o: nat, c: nat)
    requires c in w.conns && w.conns[c].reg in u.regs
    ensures BanDue(Announce(u, w, o), c) && ListDue(Announce(u, w, o), c)
  {
    assert BanAhead(Announce(u, w, o).changes[o], w.conns[c].reg, c);
  }

  lemma SwapKeeps(u: Setup, w: World, s: Step, c: nat)
    requires Enabled(u, w, s) && s.SwapList? && HarmlessTo(w, s, c) && c in w.conns && Watched(u, w, c)
    ensures Watched(u, Next(u, w, s), c)
  {
    if s.saved {
      AnnouncedIsDue(u, w.(nets := s.nets), s.o, c);
    } else {
      DueKept(w, Next(u, w, s), c);
    }
    hide AllowedBy, Bans.Blocked, BanDue, ListDue;
  }

  lemma BanOpKeeps(u: Setup, w: World, s: Step, c: nat)
    requires Enabled(u, w, s) && s.BanOp? && c in w.conns && Watched(u, w, c)
    ensures Watched(u, Next(u, w, s), c)
  {
    var w1 := w.(bans := Bans.Apply(u.policy, u.lx, w.bans, s.op, s.saved));
    if Bans.Notifies(u.policy, w.bans, s.op) {
      AnnouncedIsDue(u, w1, s.o, c);
    } else {
      DueKept(w, w1, c);
      if Bans.Blocked(w1.bans, w.conns[c].ip, w.clock) {
        BanRuns.SilentNeverBlocks(u.policy, u.lx, w.bans, s.op, s.saved, w.conns[c].ip, w.clock);
      }
    }
    hide AllowedBy, Bans.Blocked, BanDue, ListDue, Bans.Apply, Bans.Notifies;
  }

  /** Time only ends bans. */
  lemma TickKeeps(u: Setup, w: World, s: Step, c: nat)
    requires Enabled(u, w, s) && s.Tick? && c in w.conns && Watched(u, w, c)
    ensures Watched(u, Next(u, w, s), c)
  {
    var w' := Next(u, w, s);
    DueKept(w, w', c);
    assert Bans.Blocked(w.bans, w.conns[c].ip, s.now) ==> Bans.Blocked(w.bans, w.conns[c].ip, w.clock);
    hide AllowedBy, Bans.Blocked, BanDue, ListDue;
  }

  lemma Unchanged(u: Setup, w: World, s: Step, c: nat)
    requires Enabled(u, w, s) && ChangeStep(s) && c in w.conns
    ensures var w' := Next(u, w, s);
      && w'.nets == w.nets && w'.bans == w.bans && w'.clock == w.clock && c in w'.conns
      && (w'.conns[c] == w.conns[c] || (w'.conns[c] == w.conns[c].(open := false)))
      && (s.CloseOne? && s.c == c ==> !w'.conns[c].open)
  {
    hide LockFree, AllowedBy, Bans.Blocked, StoreNext, ConnNext;
  }

  /** A change goes on being about to read the bans for a connection, unless it has just found it unbanned. */
  lemma BanStillDue(u: Setup, w: World, s: Step, c: nat)
    requires Enabled(u, w, s) && ChangeStep(s) && c in w.conns && BanDue(w, c)
    requires w.conns[c].open && w.conns[c].tracked && Bans.Blocked(w.bans, w.conns[c].ip, w.clock)
    requires forall o :: o in w.changes ==> ScanDone(w.changes[o])
    ensures var w' := Next(u, w, s); c in w'.conns && (w'.conns[c].open ==> BanDue(w', c))
  {
    var w' := Next(u, w, s);
    hide LockFree, AllowedBy, Bans.Blocked, StoreNext, ConnNext;
    var o :| o in w.changes && BanAhead(w.changes[o], w.conns[c].reg, c);
    if w'.conns[c].open {
      assert o in w'.changes && BanAhead(w'.changes[o], w.conns[c].reg, c);
    }
  }

  lemma ListStillDue(u: Setup, w: World, s: Step, c: nat)
    requires Enabled(u, w, s) && ChangeStep(s) && c in w.conns && ListDue(w, c)
    requires w.conns[c].open && w.conns[c].tracked && !AllowedBy(w.nets, w.conns[c].ip)
    requires forall o :: o in w.changes ==> ScanDone(w.changes[o])
    ensures var w' := Next(u, w, s); c in w'.conns && (w'.conns[c].open ==> ListDue(w', c))
  {
    var w' := Next(u, w, s);
    hide LockFree, AllowedBy, Bans.Blocked, StoreNext, ConnNext;
    var o :| o in w.changes && ListAhead(w.changes[o], w.conns[c].reg, c);
    if w'.conns[c].open {
      assert o in w'.changes && ListAhead(w'.changes[o], w.conns[c].reg, c);
    }
  }

  lemma ChangeStepKeeps(u: Setup, w: World, s: Step, c: nat)
    requires Enabled(u, w, s) && ChangeStep(s) && c in w.conns && Watched(u, w, c)
    requires forall o :: o in w.changes ==> ScanDone(w.changes[o])
    ensures c in Next(u, w, s).conns && Watched(u, Next(u, w, s), c)
  {
    var conn := w.conns[c];
    Unchanged(u, w, s, c);
    hide LockFree, AllowedBy, Bans.Blocked, BanDue, ListDue, Next, Enabled, ScanDone;
    if conn.open && conn.pc in {Unbanned, Relaying} && Bans.Blocked(w.bans, conn.ip, w.clock) {
      BanStillDue(u, w, s, c);
    }
    if conn.open && conn.pc == Relaying && !AllowedBy(w.nets, conn.ip) {
      ListStillDue(u, w, s, c);
    }
  }

  lemma ScansKept(u: Setup, w: World, s: Step, o: nat)
    requires Enabled(u, w, s) && o in Next(u, w, s).changes
    requires forall p :: p in w.changes ==> ScanDone(w.changes[p])
    ensures ScanDone(Next(u, w, s).changes[o])
  {
    hide LockFree, AllowedBy, Bans.Blocked, Bans.Apply, Bans.Notifies;
    if ChangeStep(s) {
      hide StoreNext, ConnNext;
    } else {
      OtherScansKept(u, w, s, o);
      hide ScanDone, ChangeNext, StoreNext, ConnNext;
    }
  }

  lemma OtherScansKept(u: Setup, w: World, s: Step, o: nat)
    requires Enabled(u, w, s) && !ChangeStep(s) && o in Next(u, w, s).changes
    ensures Next(u, w, s).changes[o].scan.None? || (o in w.changes && Next(u, w, s).changes[o] == w.changes[o])
  {
    hide LockFree, AllowedBy, Bans.Blocked, Bans.Apply, Bans.Notifies, ChangeNext;
  }

  lemma NewConns(u: Setup, w: World, s: Step, c: nat)
    requires Enabled(u, w, s) && c in Next(u, w, s).conns && c !in w.conns
    ensures ConnStep(s) || (s.Insert? && s.c == c)
  {
    hide LockFree, AllowedBy, Bans.Blocked, Bans.Apply, Bans.Notifies;
  }

  /** What is already there does not notice an insertion. */
  lemma InsertKeeps(u: Setup, w: World, s: Step, c: nat)
    requires Enabled(u, w, s) && s.Insert? && c in w.conns && Watched(u, w, c)
    ensures Watched(u, Next(u, w, s), c)
  {
    DueKept(w, Next(u, w, s), c);
    hide LockFree, AllowedBy, Bans.Blocked, BanDue, ListDue;
  }

  lemma InsertedWatched(u: Setup, w: World, s: Step)
    requires Enabled(u, w, s) && s.Insert? && HarmlessTo(w, s, s.c)
    ensures Watched(u, Next(u, w, s), s.c)
  {
    var w' := Next(u, w, s);
    hide LockFree, AllowedBy, Bans.Blocked;
    if o :| o in w.changes && s.reg in w.changes[o].left {
      assert BanAhead(w'.changes[o], s.reg, s.c);
    }
  }

  /** A new association is noticed by the changes that have yet to visit its hub, and by no other. */
  lemma WatchedIsHarmless(u: Setup, w: World, s: Step)
    requires Enabled(u, w, s) && s.Insert? && Known(w) && Watched(u, Next(u, w, s), s.c)
    ensures HarmlessTo(w, s, s.c)
  {
    var w' := Next(u, w, s);
    hide LockFree, AllowedBy, Bans.Blocked;
    if BanDue(w', s.c) {
      var o :| o in w'.changes && BanAhead(w'.changes[o], s.reg, s.c);
      assert s.reg in w.changes[o].left;
    }
    if ListDue(w', s.c) {
      var o :| o in w'.changes && ListAhead(w'.changes[o], s.reg, s.c);
      assert s.reg in w.changes[o].left;
    }
  }

  /** One connection, whatever happens to the others. */
  lemma WatchedStep(u: Setup, w: World, s: Step, c: nat)
    requires Enabled(u, w, s) && Base(u, w) && HarmlessTo(w, s, c)
    requires (c in w.conns ==> Watched(u, w, c)) && c in Next(u, w, s).conns
    ensures Watched(u, Next(u, w, s), c)
  {
    hide Watched, ScanDone, Next, Enabled, HarmlessTo;
    if c !in w.conns {
      NewConns(u, w, s, c);
    }
    if ConnStep(s) {
      ConnStepKeeps(u, w, s, c);
    } else if s.Insert? {
      if c == s.c {
        InsertedWatched(u, w, s);
      } else {
        InsertKeeps(u, w, s, c);
      }
    } else if s.SwapList? {
      SwapKeeps(u, w, s, c);
    } else if s.BanOp? {
      BanOpKeeps(u, w, s, c);
    } else if s.Tick? {
      TickKeeps(u, w, s, c);
    } else {
      ChangeStepKeeps(u, w, s, c);
    }
  }

  lemma SwapIsHarmless(u: Setup, w: World, s: Step, c: nat)
    requires Enabled(u, w, s) && s.SwapList? && (c in w.conns ==> Watched(u, Next(u, w, s), c))
    ensures HarmlessTo(w, s, c)
  {
    hide LockFree, AllowedBy, Bans.Blocked, BanDue, ListDue;
    if c in w.conns && !s.saved {
      DueKept(w, Next(u, w, s), c);
    }
  }

  /** It goes on being watched exactly if the step is harmless to it. */
  lemma WatchedStepIff(u: Setup, w: World, s: Step, c: nat)
    requires Enabled(u, w, s) && Base(u, w) && (c in w.conns ==> Watched(u, w, c)) && (s.Insert? ==> Known(w))
    ensures (c in Next(u, w, s).conns ==> Watched(u, Next(u, w, s), c)) <==> HarmlessTo(w, s, c)
  {
    hide Watched, Base, Known;
    var w' := Next(u, w, s);
    ConnsGrow(u, w, s);
    if HarmlessTo(w, s, c) {
      if c in w'.conns {
        WatchedStep(u, w, s, c);
      }
    } else if c in w'.conns ==> Watched(u, w', c) {
      if s.SwapList? {
        assert c in w'.conns.Keys <== c in w.conns.Keys;
        SwapIsHarmless(u, w, s, c);
      } else {
        Entered(u, w, s);
        WatchedIsHarmless(u, w, s);
      }
    }
    hide Next, HarmlessTo;
  }

  lemma Entered(u: Setup, w: World, s: Step)
    requires Enabled(u, w, s) && s.Insert?
    ensures s.c in Next(u, w, s).conns
  {
    hide LockFree;
  }

  lemma InvStep(u: Setup, w: World, s: Step)
    requires Enabled(u, w, s) && Inv(u, w) && Harmless(w, s)
    ensures Inv(u, Next(u, w, s))
  {
    BaseStep(u, w, s);
    InvIsBase(u, w);
    InvIsBase(u, Next(u, w, s));
    hide Watched, Base, Next, Enabled, HarmlessTo, Inv;
    forall c | c in Next(u, w, s).conns ensures Watched(u, Next(u, w, s), c) {
      WatchedStep(u, w, s, c);
    }
  }

  lemma InvIsBase(u: Setup, w: World)
    ensures Inv(u, w) <==> Base(u, w) && forall c :: c in w.conns ==> Watched(u, w, c)
  {
    hide ScanDone, BanDue, ListDue, AllowedBy, Bans.Blocked;
  }

  lemma InvStepIff(u: Setup, w: World, s: Step)
    requires Enabled(u, w, s) && Inv(u, w) && (s.Insert? ==> Known(w))
    ensures Inv(u, Next(u, w, s)) <==> Harmless(w, s)
  {
    InvIsBase(u, w);
    InvIsBase(u, Next(u, w, s));
    BaseStep(u, w, s);
    hide Watched, Base, Next, Enabled, HarmlessTo, Inv, Known;
    forall c ensures (c in Next(u, w, s).conns ==> Watched(u, Next(u, w, s), c)) <==> HarmlessTo(w, s, c) {
      WatchedStepIff(u, w, s, c);
    }
  }

  lemma InsertSafeIff(u: Setup, w: World, s: Step)
    requires Enabled(u, w, s) && Inv(u, w) && Known(w) && s.Insert?
    ensures Inv(u, Next(u, w, s)) <==> Allowed(w, w.checks[s.k].ip) || ToVisit(w, s.reg)
  {
    hide Inv, Known, Next, AllowedBy, Bans.Blocked, ToVisit;
    InvStepIff(u, w, s);
    assert HarmlessTo(w, s, s.c) <==> Allowed(w, w.checks[s.k].ip) || ToVisit(w, s.reg);
  }

  /** A list change that is not saved evicts nobody: it is harmless exactly when somebody else will. */
  lemma UnsavedSwapSafeIff(u: Setup, w: World, s: Step)
    requires Enabled(u, w, s) && Inv(u, w) && s.SwapList? && !s.saved
    ensures Inv(u, Next(u, w, s)) <==>
            forall c :: c in w.conns && w.conns[c].open && w.conns[c].pc == Relaying ==>
              AllowedBy(s.nets, w.conns[c].ip) || ListDue(w, c)
  {
    hide Inv, Next, AllowedBy, Bans.Blocked, ListDue, ToVisit;
    InvStepIff(u, w, s);
    if Harmless(w, s) {
      forall c | c in w.conns && w.conns[c].open && w.conns[c].pc == Relaying
        ensures AllowedBy(s.nets, w.conns[c].ip) || ListDue(w, c)
      {
        assert HarmlessTo(w, s, c);
      }
    }
  }

  /** What holds whether or not the list changes were saved. */
  ghost predicate Base(u: Setup, w: World) {
    && (forall c :: c in w.conns ==> w.conns[c].reg in u.regs && (w.conns[c].open ==> w.conns[c].tracked))
    && (forall o :: o in w.changes ==> ScanDone(w.changes[o]))
  }

  lemma BaseConn(u: Setup, w: World, s: Step, c: nat)
    requires Enabled(u, w, s) && c in Next(u, w, s).conns
    requires c in w.conns ==> w.conns[c].reg in u.regs && (w.conns[c].open ==> w.conns[c].tracked)
    ensures var conn := Next(u, w, s).conns[c]; conn.reg in u.regs && (conn.open ==> conn.tracked)
  {
    hide LockFree, AllowedBy, Bans.Blocked, Bans.Apply, Bans.Notifies;
  }

  lemma BaseStep(u: Setup, w: World, s: Step)
    requires Enabled(u, w, s) && Base(u, w)
    ensures Base(u, Next(u, w, s))
  {
    var w' := Next(u, w, s);
    hide Next, Enabled, ScanDone;
    forall c | c in w'.conns ensures w'.conns[c].reg in u.regs && (w'.conns[c].open ==> w'.conns[c].tracked) {
      BaseConn(u, w, s, c);
    }
    forall o | o in w'.changes ensures ScanDone(w'.changes[o]) {
      ScansKept(u, w, s, o);
    }
  }

  /** A change that is announced makes up for earlier ones that were not. */
  lemma AnnouncedRestores(u: Setup, w: World, s: Step)
    requires Enabled(u, w, s) && Base(u, w)
    requires Announces(u, w, s)
    ensures Inv(u, Next(u, w, s))
  {
    var w' := Next(u, w, s);
    BaseStep(u, w, s);
    var w0 := if s.SwapList? then w.(nets := s.nets)
              else w.(bans := Bans.Apply(u.policy, u.lx, w.bans, s.op, s.saved));
    assert w' == Announce(u, w0, s.o);
    hide LockFree, AllowedBy, Bans.Blocked, Bans.Apply, Bans.Notifies, BanDue, ListDue, ScanDone, Announce, Next, Enabled;
    AnnounceKeepsConns(u, w0, s.o);
    forall c | c in w'.conns ensures Watched(u, w', c) {
      AnnouncedIsDue(u, w0, s.o, c);
    }
  }

  lemma AnnounceKeepsConns(u: Setup, w: World, o: nat)
    ensures Announce(u, w, o).conns == w.conns
  {}

  predicate Announces(u: Setup, w: World, s: Step) {
    (s.SwapList? && s.saved) || (s.BanOp? && Bans.Notifies(u.policy, w.bans, s.op))
  }

  /** Every step since the last change that was announced was harmless to connection `c`. */
  ghost predicate Announced(u: Setup, run: seq<Step>, c: nat)
    requires After(u, run).Some?
    decreases |run|
  {
    if run == [] then true
    else
      var w, s := After(u, run[..|run| - 1]).value, run[|run| - 1];
      Announces(u, w, s) || (HarmlessTo(w, s, c) && Announced(u, run[..|run| - 1], c))
  }

  lemma {:induction false} BaseHolds(u: Setup, run: seq<Step>)
    requires After(u, run).Some?
    ensures Base(u, After(u, run).value)
    decreases |run|
  {
    if run != [] {
      hide Base, Enabled, Next;
      BaseHolds(u, run[..|run| - 1]);
      BaseStep(u, After(u, run[..|run| - 1]).value, run[|run| - 1]);
    }
  }

  lemma {:induction false} WatchedHolds(u: Setup, run: seq<Step>, c: nat)
    requires After(u, run).Some? && Announced(u, run, c) && c in After(u, run).value.conns
    ensures Watched(u, After(u, run).value, c)
    decreases |run|
  {
    if run != [] {
      var w, s := After(u, run[..|run| - 1]).value, run[|run| - 1];
      hide Watched, Base, Enabled, Next, Announces, HarmlessTo;
      BaseHolds(u, run[..|run| - 1]);
      if Announces(u, w, s) {
        AnnouncedRestores(u, w, s);
      } else {
        if c in w.conns {
          WatchedHolds(u, run[..|run| - 1], c);
        }
        WatchedStep(u, w, s, c);
      }
    }
  }

  /**
    Whatever the schedule: once no change is being carried out, an open connection that has passed
    its check is allowed by the list and the bans as they are now. It takes only that no step since
    the last announced change let this connection slip by; what happened to others is of no account.
   */
  lemma EvictionSafe(u: Setup, run: seq<Step>, w: World, c: nat)
    requires After(u, run) == Some(w) && Announced(u, run, c) && w.changes == map[]
    requires c in w.conns && w.conns[c].open && w.conns[c].pc == Relaying
    ensures Allowed(w, w.conns[c].ip)
  {
    WatchedHolds(u, run, c);
    hide After, Announced, AllowedBy, Bans.Blocked;
  }

  /** Since the last change that was announced, no change that failed to be saved dropped `c` unnoticed. */
  ghost predicate NeverDropped(u: Setup, run: seq<Step>, c: nat)
    requires After(u, run).Some?
    decreases |run|
  {
    if run == [] then true
    else
      var w, s := After(u, run[..|run| - 1]).value, run[|run| - 1];
      Announces(u, w, s) || ((s.SwapList? ==> HarmlessTo(w, s, c)) && NeverDropped(u, run[..|run| - 1], c))
  }

  lemma {:induction false} TrackedFirst(u: Setup, run: seq<Step>, c: nat)
    requires After(u, run).Some? && NeverDropped(u, run, c) && forall s :: s in run && s.Insert? ==> s.c != c
    ensures Announced(u, run, c)
    decreases |run|
  {
    if run != [] {
      var w, s := After(u, run[..|run| - 1]).value, run[|run| - 1];
      hide Enabled, Next, Announces, ListDue, ToVisit, AllowedBy, Allowed;
      assert s in run && forall x :: x in run[..|run| - 1] ==> x in run;
      if !Announces(u, w, s) {
        TrackedFirst(u, run[..|run| - 1], c);
      }
    }
  }

  /**
    A TCP or HTTP connection is tracked before it is checked, so no datagram can affect it, however
    late its sender is entered, nor can an unsaved change that drops somebody else.
   */
  lemma TrackedFirstIsSafe(u: Setup, run: seq<Step>, w: World, c: nat)
    requires After(u, run) == Some(w) && w.changes == map[]
    requires NeverDropped(u, run, c) && forall s :: s in run && s.Insert? ==> s.c != c
    requires c in w.conns && w.conns[c].open && w.conns[c].pc == Relaying
    ensures Allowed(w, w.conns[c].ip)
  {
    TrackedFirst(u, run, c);
    EvictionSafe(u, run, w, c);
  }

  /** Before step `i`, the connection is allowed or some change will notice it. */
  ghost predicate WatchedAt(u: Setup, run: seq<Step>, c: nat, i: nat)
    requires i <= |run|
  {
    After(u, run[..i]).Some? && var w := After(u, run[..i]).value; c in w.conns ==> Watched(u, w, c)
  }

  ghost predicate HarmlessAt(u: Setup, run: seq<Step>, c: nat, i: nat)
    requires i < |run|
  {
    After(u, run[..i]).Some? && HarmlessTo(After(u, run[..i]).value, run[i], c)
  }

  lemma {:induction false} PrefixRuns(u: Setup, run: seq<Step>, i: nat)
    requires After(u, run).Some? && i <= |run|
    ensures After(u, run[..i]).Some?
    ensures i < |run| ==>
              && Enabled(u, After(u, run[..i]).value, run[i])
              && After(u, run[..i + 1]) == Some(Next(u, After(u, run[..i]).value, run[i]))
    decreases |run|
  {
    hide Enabled, Next;
    if i < |run| {
      var init := run[..|run| - 1];
      assert run[..i + 1][..i] == run[..i];
      if i < |run| - 1 {
        PrefixRuns(u, init, i + 1);
        assert init[..i + 1] == run[..i + 1];
      } else {
        assert run[..i + 1] == run && run[..i] == init;
      }
    } else {
      assert run[..i] == run;
    }
  }

  lemma WatchedAtIff(u: Setup, run: seq<Step>, c: nat, i: nat)
    requires After(u, run).Some? && i < |run| && WatchedAt(u, run, c, i)
    ensures WatchedAt(u, run, c, i + 1) <==> HarmlessAt(u, run, c, i)
  {
    PrefixRuns(u, run, i);
    KnownHolds(u, run[..i]);
    BaseHolds(u, run[..i]);
    hide Watched, HarmlessTo, Enabled, Next, After, Known, Base;
    WatchedStepIff(u, After(u, run[..i]).value, run[i], c);
  }

  lemma StartWatched(u: Setup, run: seq<Step>, c: nat)
    ensures WatchedAt(u, run, c, 0)
  {}

  /**
    For runs of any length and each connection: it is overlooked at no moment if and only if every
    step is harmless to it.
   */
  lemma WatchedIffHarmless(u: Setup, run: seq<Step>, c: nat)
    requires After(u, run).Some?
    ensures (forall i :: 0 <= i <= |run| ==> WatchedAt(u, run, c, i))
       <==> (forall i :: 0 <= i < |run| ==> HarmlessAt(u, run, c, i))
  {
    hide WatchedAt, HarmlessAt;
    StartWatched(u, run, c);
    if forall i :: 0 <= i < |run| ==> HarmlessAt(u, run, c, i) {
      for i := 0 to |run|
        invariant forall j :: 0 <= j <= i ==> WatchedAt(u, run, c, j)
      {
        WatchedAtIff(u, run, c, i);
      }
    }
    if forall i :: 0 <= i <= |run| ==> WatchedAt(u, run, c, i) {
      forall i | 0 <= i < |run| ensures HarmlessAt(u, run, c, i) {
        assert WatchedAt(u, run, c, i + 1);
        WatchedAtIff(u, run, c, i);
      }
    }
  }

  /** Every connection that a scan refers to is known. */
  ghost predicate Known(w: World) {
    forall o :: o in w.changes ==> KnownChange(w.conns.Keys, w.changes[o])
  }

  lemma ConnsGrow(u: Setup, w: World, s: Step)
    requires Enabled(u, w, s)
    ensures w.conns.Keys <= Next(u, w, s).conns.Keys
  {
    hide LockFree, AllowedBy, Bans.Blocked, Bans.Apply, Bans.Notifies;
  }

  ghost predicate KnownChange(keys: set<nat>, ch: Change) {
    ch.scan.Some? ==>
      var v := ch.scan.value;
      v.todo <= keys && v.closing <= keys && (v.reading.Some? ==> v.reading.value in keys)
  }

  lemma ChangeKnown(u: Setup, w: World, s: Step, o: nat)
    requires Enabled(u, w, s) && ChangeStep(s) && Known(w) && o in Next(u, w, s).changes
    ensures KnownChange(w.conns.Keys, Next(u, w, s).changes[o])
  {
    hide LockFree, AllowedBy, Bans.Blocked, StoreNext, ConnNext;
    assert o in w.changes && KnownChange(w.conns.Keys, w.changes[o]);
  }

  lemma OtherKnown(u: Setup, w: World, s: Step, o: nat)
    requires Enabled(u, w, s) && !ChangeStep(s) && Known(w) && o in Next(u, w, s).changes
    ensures KnownChange(w.conns.Keys, Next(u, w, s).changes[o])
  {
    hide LockFree, AllowedBy, Bans.Blocked, Bans.Apply, Bans.Notifies, ChangeNext;
    assert o in w.changes ==> KnownChange(w.conns.Keys, w.changes[o]);
  }

  lemma KnownStep(u: Setup, w: World, s: Step)
    requires Enabled(u, w, s) && Known(w)
    ensures Known(Next(u, w, s))
  {
    ConnsGrow(u, w, s);
    var w' := Next(u, w, s);
    hide Next, Enabled, KnownChange;
    forall o | o in w'.changes ensures KnownChange(w'.conns.Keys, w'.changes[o]) {
      if ChangeStep(s) {
        ChangeKnown(u, w, s, o);
      } else {
        OtherKnown(u, w, s, o);
      }
    }
  }

  lemma {:induction false} KnownHolds(u: Setup, run: seq<Step>)
    requires After(u, run).Some?
    ensures Known(After(u, run).value)
    decreases |run|
  {
    if run != [] {
      hide Known, Enabled, Next;
      KnownHolds(u, run[..|run| - 1]);
      KnownStep(u, After(u, run[..|run| - 1]).value, run[|run| - 1]);
    } else {
      assert Known(START);
    }
  }

  /** Changes never wait for each other in a circle: while one is being carried out, one can go on. */
  lemma ChangesProceed(u: Setup, run: seq<Step>, w: World) returns (s: Step)
    requires After(u, run) == Some(w) && w.changes != map[]
    ensures Enabled(u, w, s) && ChangeStep(s)
  {
    BaseHolds(u, run);
    KnownHolds(u, run);
    hide After, AllowedBy, Bans.Blocked, Watched, Known, Next, Enabled, ScanDone;
    if o :| o in w.changes && w.changes[o].scan.Some? {
      s := ScanProceeds(w, o);
    } else {
      s := ChangeProceeds(w);
    }
  }

  lemma ChangeProceeds(w: World) returns (s: Step)
    requires w.changes != map[] && forall o :: o in w.changes ==> w.changes[o].scan.None?
    ensures forall u :: Enabled(u, w, s)
    ensures ChangeStep(s)
  {
    var o :| o in w.changes;
    if w.changes[o].left == {} {
      s := Return(o);
    } else {
      var reg :| reg in w.changes[o].left;
      s := StartScan(o, reg);
    }
  }

  lemma ScanProceeds(w: World, o: nat) returns (s: Step)
    requires Known(w) && o in w.changes && w.changes[o].scan.Some? && ScanDone(w.changes[o])
    ensures forall u :: Enabled(u, w, s)
    ensures ChangeStep(s)
  {
    var v := w.changes[o].scan.value;
    if v.reading.Some? {
      s := ScanList(o);
    } else if v.todo != {} {
      var c :| c in v.todo;
      s := ScanBan(o, c);
    } else if v.locked {
      s := Unlock(o);
    } else if v.closing != {} {
      var c :| c in v.closing;
      s := CloseOne(o, c);
    } else {
      s := EndScan(o);
    }
  }

  const VISITOR: IP := [1, 1, 1, 1]
  const VISITORS := IPNet(VISITOR, [0xff, 0xff, 0xff, 0xff])

  /** A visitor is let in and then dropped from the list, but the list cannot be saved. */
  const UNSAVED: seq<Step> := [
    SwapList(0, [VISITORS], false), Accept(0, VISITOR, 0), ReadBan(0), ReadList(0), SwapList(0, [], false)]

  lemma AfterMore(u: Setup, run: seq<Step>, s: Step, w: World, w': World)
    requires After(u, run) == Some(w) && Enabled(u, w, s) && Next(u, w, s) == w'
    ensures After(u, run + [s]) == Some(w')
  {
    assert (run + [s])[..|run|] == run;
    hide Next, Enabled;
  }

  /** The visitor's connection, with the list `nets`. */
  function Visit(nets: seq<IPNet>, pc: ConnPc): World {
    START.(nets := nets, conns := map[0 := Conn(VISITOR, 0, pc, true, true)])
  }

  const UNSAVED_WORLDS := [
    START, START.(nets := [VISITORS]), Visit([VISITORS], Tracked), Visit([VISITORS], Unbanned),
    Visit([VISITORS], Relaying), Visit([], Relaying)]

  lemma VisitorListed()
    ensures AllowedBy([VISITORS], VISITOR) && !AllowedBy([], VISITOR)
  {
    assert VISITORS in [VISITORS] && Contains(VISITORS, VISITOR);
  }

  lemma SwapSteps(u: Setup)
    ensures Enabled(u, START, UNSAVED[0]) && Next(u, START, UNSAVED[0]) == UNSAVED_WORLDS[1]
    ensures Enabled(u, UNSAVED_WORLDS[4], UNSAVED[4]) && Next(u, UNSAVED_WORLDS[4], UNSAVED[4]) == UNSAVED_WORLDS[5]
  {
    hide ConnNext, ChangeNext;
  }

  lemma AcceptStep(u: Setup)
    requires 0 in u.regs
    ensures Enabled(u, UNSAVED_WORLDS[1], UNSAVED[1]) && Next(u, UNSAVED_WORLDS[1], UNSAVED[1]) == UNSAVED_WORLDS[2]
  {
    hide StoreNext, ChangeNext;
  }

  lemma ReadSteps(u: Setup)
    ensures Enabled(u, UNSAVED_WORLDS[2], UNSAVED[2]) && Next(u, UNSAVED_WORLDS[2], UNSAVED[2]) == UNSAVED_WORLDS[3]
    ensures Enabled(u, UNSAVED_WORLDS[3], UNSAVED[3]) && Next(u, UNSAVED_WORLDS[3], UNSAVED[3]) == UNSAVED_WORLDS[4]
  {
    VisitorListed();
    hide StoreNext, ChangeNext, AllowedBy, Key;
  }

  /** Consecutive worlds of a run. */
  ghost predicate Trace(u: Setup, ws: seq<World>, run: seq<Step>) {
    && |ws| == |run| + 1
    && forall i :: 0 <= i < |run| ==> Enabled(u, ws[i], run[i]) && Next(u, ws[i], run[i]) == ws[i + 1]
  }

  lemma {:induction false} TraceAfter(u: Setup, ws: seq<World>, run: seq<Step>)
    requires Trace(u, ws, run) && ws[0] == START
    ensures After(u, run) == Some(ws[|run|])
    decreases |run|
  {
    hide Enabled, Next;
    if run != [] {
      TraceAfter(u, ws[..|run|], run[..|run| - 1]);
    }
  }

  /** Without the saving, the property fails: the visitor stays connected with no change under way. */
  lemma UnsavedSwapLeaves(u: Setup)
    requires 0 in u.regs
    ensures After(u, UNSAVED).Some?
    ensures var w := After(u, UNSAVED).value;
      w.changes == map[] && 0 in w.conns && w.conns[0].open && w.conns[0].pc == Relaying && !Allowed(w, w.conns[0].ip)
  {
    SwapSteps(u);
    AcceptStep(u);
    ReadSteps(u);
    VisitorListed();
    hide After, Next, Enabled, AllowedBy;
    assert Trace(u, UNSAVED_WORLDS, UNSAVED);
    TraceAfter(u, UNSAVED_WORLDS, UNSAVED);
  }

  /** A sender passes its check, is dropped from the list, and is entered when the change is through. */
  const LATE: seq<Step> := [
    SwapList(0, [VISITORS], false), BeginCheck(0, VISITOR), CheckBan(0), CheckList(0),
    SwapList(0, [], true), StartScan(0, 0), Unlock(0), EndScan(0), Return(0), Insert(0, 0, 0)]

  function Sender(nets: seq<IPNet>, pc: ConnPc): World {
    START.(nets := nets, checks := map[0 := Check(VISITOR, pc)])
  }

  function Sweep(left: set<nat>, scan: Option<Scan>): World {
    Sender([], Relaying).(changes := map[0 := Change(left, scan)])
  }

  const LATE_WORLDS := [
    START, START.(nets := [VISITORS]), Sender([VISITORS], Tracked), Sender([VISITORS], Unbanned), Sender([VISITORS], Relaying),
    Sweep({0}, None), Sweep({}, Some(Scan(0, {}, None, {}, true))), Sweep({}, Some(Scan(0, {}, None, {}, false))),
    Sweep({}, None), Sender([], Relaying), Visit([], Relaying)]

  /** `s` leads from `w` to `w'`. */
  predicate Leads(u: Setup, w: World, s: Step, w': World) {
    Enabled(u, w, s) && Next(u, w, s) == w'
  }

  lemma ListStep(u: Setup)
    ensures Leads(u, START, SwapList(0, [VISITORS], false), START.(nets := [VISITORS]))
  {
    SwapSteps(u);
  }

  lemma BeginStep(u: Setup)
    ensures Leads(u, START.(nets := [VISITORS]), BeginCheck(0, VISITOR), Sender([VISITORS], Tracked))
  {
    hide StoreNext, ChangeNext;
  }

  lemma CheckBanStep(u: Setup)
    ensures Leads(u, Sender([VISITORS], Tracked), CheckBan(0), Sender([VISITORS], Unbanned))
  {
    hide StoreNext, ChangeNext, AllowedBy, Key;
  }

  lemma CheckListStep(u: Setup)
    ensures Leads(u, Sender([VISITORS], Unbanned), CheckList(0), Sender([VISITORS], Relaying))
  {
    VisitorListed();
    hide StoreNext, ChangeNext, AllowedBy, Key;
  }

  lemma DropStep(u: Setup)
    requires u.regs == {0}
    ensures Leads(u, Sender([VISITORS], Relaying), SwapList(0, [], true), Sweep({0}, None))
  {
    hide ConnNext, ChangeNext;
  }

  lemma ScanStep(u: Setup)
    ensures Leads(u, Sweep({0}, None), StartScan(0, 0), Sweep({}, Some(Scan(0, {}, None, {}, true))))
  {
    hide ConnNext, StoreNext;
    assert Registered(Sweep({0}, None), 0) == {};
    assert {0} - {0} == {};
  }

  lemma UnlockStep(u: Setup)
    ensures Leads(u, Sweep({}, Some(Scan(0, {}, None, {}, true))), Unlock(0), Sweep({}, Some(Scan(0, {}, None, {}, false))))
  {
    hide ConnNext, StoreNext;
  }

  lemma EndStep(u: Setup)
    ensures Leads(u, Sweep({}, Some(Scan(0, {}, None, {}, false))), EndScan(0), Sweep({}, None))
  {
    hide ConnNext, StoreNext;
  }

  lemma ReturnStep(u: Setup)
    ensures Leads(u, Sweep({}, None), Return(0), Sender([], Relaying))
  {
    hide ConnNext, StoreNext;
    assert Sweep({}, None).changes - {0} == map[];
  }

  lemma EnterStep(u: Setup)
    requires u.regs == {0}
    ensures Leads(u, Sender([], Relaying), Insert(0, 0, 0), Visit([], Relaying))
  {
    hide StoreNext, ChangeNext;
    assert Sender([], Relaying).checks - {0} == map[];
  }

  lemma LateStep(u: Setup, i: nat)
    requires u.regs == {0} && i < 10
    ensures Leads(u, LATE_WORLDS[i], LATE[i], LATE_WORLDS[i + 1])
  {
    hide Leads, Sender, Sweep, Visit, Next, Enabled;
    ListStep(u);
    BeginStep(u);
    CheckBanStep(u);
    CheckListStep(u);
    DropStep(u);
    ScanStep(u);
    UnlockStep(u);
    EndStep(u);
    ReturnStep(u);
    EnterStep(u);
  }

  /** Every change was saved and announced or dropped nobody, and still the association is not allowed. */
  lemma LateInsertStays(u: Setup)
    requires u.regs == {0}
    ensures After(u, LATE).Some?
    ensures var w := After(u, LATE).value;
      w.changes == map[] && 0 in w.conns && w.conns[0].open && w.conns[0].pc == Relaying && !Allowed(w, w.conns[0].ip)
  {
    VisitorListed();
    hide After, Next, Enabled, AllowedBy;
    forall i | 0 <= i < 10 ensures Enabled(u, LATE_WORLDS[i], LATE[i]) && Next(u, LATE_WORLDS[i], LATE[i]) == LATE_WORLDS[i + 1] {
      LateStep(u, i);
    }
    assert Trace(u, LATE_WORLDS, LATE);
    TraceAfter(u, LATE_WORLDS, LATE);
  }
}
