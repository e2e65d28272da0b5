/** The streaks and bans of one address as functions of what happened to it. */
module BanHistory {
  import opened Options
  import opened Address
  import opened BanRecord

  /** The event is an invalid one that reaches the streak: the address is neither pardoned nor blocked. */
  predicate Counted(p: Policy, h: seq<Event>, i: nat)
    requires i < |h|
  {
    h[i].Invalid? && !After(p, h[..i]).pardoned && !BlockedAt(After(p, h[..i]), h[i].now)
  }

  function BansAfter(p: Policy, h: seq<Event>): nat {
    RecordOf(After(p, h)).bans
  }

  /** The event issues a ban by strikes. */
  predicate Issues(p: Policy, h: seq<Event>, i: nat)
    requires i < |h|
  {
    Counted(p, h, i) && BansAfter(p, h[..i + 1]) > BansAfter(p, h[..i])
  }

  /** The event ends every streak. */
  predicate Breaks(p: Policy, h: seq<Event>, i: nat)
    requires i < |h|
  {
    !h[i].Invalid? || Issues(p, h, i)
  }

  /** The counted events with `reason` at the end of `h`, up to another reason or a break. */
  function Streak(p: Policy, h: seq<Event>, reason: string): nat {
    if h == [] then 0
    else
      var k := |h| - 1;
      if Breaks(p, h, k) then 0
      else if !Counted(p, h, k) then Streak(p, h[..k], reason)
      else if h[k].reason == reason then Streak(p, h[..k], reason) + 1
      else 0
  }

  /** The counter as far as `reason` is concerned. */
  function Toward(r: Record, reason: string): nat {
    if r.reason == reason then r.consecutive else 0
  }

  lemma StrikeToward(p: Policy, r: Record, now: int, struck: string, reason: string)
    requires WellFormed(p, r)
    ensures var r' := Strike(p, r, struck, now);
      Toward(r', reason) == if r'.bans > r.bans || struck != reason then 0 else Toward(r, reason) + 1
  {}

  lemma StreakStep(p: Policy, h: seq<Event>, reason: string)
    requires p.Valid() && h != []
    requires Streak(p, h[..|h| - 1], reason) == Toward(RecordOf(After(p, h[..|h| - 1])), reason)
    ensures Streak(p, h, reason) == Toward(RecordOf(After(p, h)), reason)
  {
    var k := |h| - 1;
    ShapeAfter(p, h[..k]);
    assert h[..k + 1] == h;
    if Counted(p, h, k) {
      StrikeToward(p, RecordOf(After(p, h[..k])), h[k].now, h[k].reason, reason);
      hide Strike, Toward, WellFormed;
    } else {
      hide Strike;
    }
  }

  /** The counter of an address is the length of the maximal run of its counted events. */
  lemma {:induction false} StreakIsHistory(p: Policy, h: seq<Event>, reason: string)
    requires p.Valid()
    ensures Streak(p, h, reason) == Toward(RecordOf(After(p, h)), reason)
  {
    if h != [] {
      StreakIsHistory(p, h[..|h| - 1], reason);
      StreakStep(p, h, reason);
    }
  }

  /** A ban is issued exactly when the streak reaches the limit. */
  lemma BanIffStreak(p: Policy, h: seq<Event>, i: nat)
    requires p.Valid() && i < |h| && Counted(p, h, i)
    ensures Issues(p, h, i) <==> Streak(p, h[..i], h[i].reason) + 1 >= p.limit
  {
    StreakIsHistory(p, h[..i], h[i].reason);
    ShapeAfter(p, h[..i]);
    assert h[..i + 1][..i] == h[..i] && h[..i + 1][i] == h[i];
  }

  /** The counted events with `reason` at the positions from `lo` up to `hi`. */
  function CountedIn(p: Policy, h: seq<Event>, lo: nat, hi: nat, reason: string): nat
    requires hi <= |h|
  {
    if hi <= lo then 0
    else CountedIn(p, h, lo, hi - 1, reason)
         + (if Counted(p, h, hi - 1) && h[hi - 1].reason == reason then 1 else 0)
  }

  lemma PrefixAgrees(p: Policy, h: seq<Event>, k: nat, i: nat)
    requires i < k <= |h|
    ensures Counted(p, h[..k], i) == Counted(p, h, i)
    ensures Issues(p, h[..k], i) == Issues(p, h, i)
  {
    assert h[..k][..i] == h[..i] && h[..k][..i + 1] == h[..i + 1];
  }

  /** A streak lies behind the last break. */
  lemma {:induction false} StreakWithin(p: Policy, h: seq<Event>, lo: nat, k: nat, reason: string)
    requires lo <= k <= |h| && (lo == 0 || Breaks(p, h, lo - 1))
    ensures Streak(p, h[..k], reason) <= CountedIn(p, h, lo, k, reason)
  {
    if k > 0 {
      PrefixAgrees(p, h, k, k - 1);
      assert h[..k][..k - 1] == h[..k - 1];
      hide Counted, Issues;
      if k > lo {
        StreakWithin(p, h, lo, k - 1, reason);
      }
    }
  }

  predicate Monotone(h: seq<Event>) {
    forall i, j :: 0 <= i < j < |h| && h[i].Invalid? && h[j].Invalid? ==> h[i].now <= h[j].now
  }

  /** What was counted after `i` came after the end of the ban that `i` issued. */
  ghost predicate ServedBefore(p: Policy, h: seq<Event>, i: nat)
    requires i < |h| && h[i].Invalid?
  {
    forall k :: i < k < |h| && Counted(p, h, k) ==> h[k].now >= h[i].now + p.ttl
  }

  /** The deadline that `i` set is in force, or something was counted since. */
  ghost predicate Deadline(p: Policy, h: seq<Event>, i: nat)
    requires i < |h| && h[i].Invalid?
  {
    var until := RecordOf(After(p, h)).until;
    if until.Some? then until.value == h[i].now + p.ttl
    else exists k :: i < k < |h| && Counted(p, h, k)
  }

  /** `i` issued the one ban so far. */
  ghost predicate FirstBan(p: Policy, h: seq<Event>, i: nat) {
    i < |h| && Issues(p, h, i) && ServedBefore(p, h, i) && Deadline(p, h, i)
  }

  lemma ServedExtends(p: Policy, h: seq<Event>, i: nat)
    requires 0 <= i < |h| - 1 && h[i].Invalid? && ServedBefore(p, h[..|h| - 1], i)
    requires Counted(p, h, |h| - 1) ==> h[|h| - 1].Invalid? && h[|h| - 1].now >= h[i].now + p.ttl
    ensures ServedBefore(p, h, i)
  {
    var n := |h| - 1;
    hide After, BlockedAt;
    forall k | i < k < |h| && Counted(p, h, k) ensures h[k].now >= h[i].now + p.ttl {
      if k < n {
        PrefixAgrees(p, h, n, k);
        assert h[..n][k] == h[k];
      }
    }
  }

  lemma DeadlineExtends(p: Policy, h: seq<Event>, i: nat)
    requires 0 <= i < |h| - 1 && h[i].Invalid? && Deadline(p, h[..|h| - 1], i)
    requires RecordOf(After(p, h)).until ==
             if Counted(p, h, |h| - 1) then None else RecordOf(After(p, h[..|h| - 1])).until
    ensures Deadline(p, h, i)
  {
    var n := |h| - 1;
    hide Counted, After, RecordOf;
    if !Counted(p, h, n) && RecordOf(After(p, h[..n])).until.None? {
      var k :| i < k < n && Counted(p, h[..n], k);
      PrefixAgrees(p, h, n, k);
    }
  }

  lemma FirstBanExtends(p: Policy, h: seq<Event>, i: nat)
    requires p.Valid() && Monotone(h) && h != [] && i < |h| - 1
    requires FirstBan(p, h[..|h| - 1], i)
    requires BansAfter(p, h[..|h| - 1]) == 1 == BansAfter(p, h)
    ensures FirstBan(p, h, i)
  {
    PrefixAgrees(p, h, |h| - 1, i);
    hide After, RecordOf, Monotone, Policy.Valid, ServedBefore, Deadline, BansAfter, BlockedAt;
    if Counted(p, h, |h| - 1) {
      CountedIsLater(p, h, i);
      UntilCleared(p, h);
    } else {
      UntilKept(p, h);
    }
    ServedExtends(p, h, i);
    DeadlineExtends(p, h, i);
  }

  lemma UntilKept(p: Policy, h: seq<Event>)
    requires p.Valid() && h != [] && !Counted(p, h, |h| - 1) && BansAfter(p, h[..|h| - 1]) == 1 == BansAfter(p, h)
    ensures RecordOf(After(p, h)).until == RecordOf(After(p, h[..|h| - 1])).until
  {}

  lemma UntilCleared(p: Policy, h: seq<Event>)
    requires p.Valid() && h != [] && Counted(p, h, |h| - 1) && BansAfter(p, h[..|h| - 1]) == 1 == BansAfter(p, h)
    ensures RecordOf(After(p, h)).until.None?
  {}

  lemma CountedIsLater(p: Policy, h: seq<Event>, i: nat)
    requires Monotone(h) && h != [] && i < |h| - 1 && Counted(p, h, |h| - 1)
    requires FirstBan(p, h[..|h| - 1], i) && BansAfter(p, h[..|h| - 1]) == 1
    ensures h[i].Invalid? && h[|h| - 1].Invalid? && h[|h| - 1].now >= h[i].now + p.ttl
  {
    var n := |h| - 1;
    var was := h[..n];
    assert was[i] == h[i];
    if RecordOf(After(p, was)).until.None? {
      hide After, RecordOf, Issues;
      var k :| i < k < n && Counted(p, was, k);
      assert was[k] == h[k] && h[k].now <= h[n].now;
    }
  }

  /** The address was banned once: by which event. */
  lemma {:induction false} BannedOnce(p: Policy, h: seq<Event>) returns (i: nat)
    requires p.Valid() && Monotone(h) && Forever !in h && BansAfter(p, h) == 1
    ensures FirstBan(p, h, i)
  {
    var n := |h| - 1;
    assert Monotone(h[..n]) && forall e :: e in h[..n] ==> e in h;
    ShapeAfter(p, h[..n]);
    if BansAfter(p, h[..n]) == 1 {
      i := BannedOnce(p, h[..n]);
      FirstBanExtends(p, h, i);
    } else {
      i := n;
      assert h[n] != Forever && h[..n + 1] == h;
    }
  }

  /** The event that made a ban permanent. */
  lemma {:induction false} TurnsPermanent(p: Policy, h: seq<Event>) returns (j: nat)
    requires p.Valid() && Forever !in h && RecordOf(After(p, h)).permanent
    ensures j < |h| && Counted(p, h, j) && Issues(p, h, j) && BansAfter(p, h[..j]) == 1
  {
    var n := |h| - 1;
    assert forall e :: e in h[..n] ==> e in h;
    ShapeAfter(p, h[..n]);
    if RecordOf(After(p, h[..n])).permanent {
      j := TurnsPermanent(p, h[..n]);
      PrefixAgrees(p, h, n, j);
      assert h[..n][..j] == h[..j];
    } else {
      j := n;
      ShapeAfter(p, h);
      assert h[n] != Forever && h[..n + 1] == h;
    }
  }

  lemma FullStreak(p: Policy, h: seq<Event>, lo: nat, j: nat)
    requires p.Valid() && lo <= j < |h| && (lo == 0 || Breaks(p, h, lo - 1)) && Issues(p, h, j)
    ensures CountedIn(p, h, lo, j + 1, h[j].reason) >= p.limit
  {
    BanIffStreak(p, h, j);
    StreakWithin(p, h, lo, j, h[j].reason);
    hide Streak, Issues;
  }

  /**
    Without a direct permanent ban, an address is banned for good only after two full streaks: at
    least `limit` counted events with one reason, the last of which issued the first ban, and then at
    least `limit` with one reason, all of them after that ban had run out.
   */
  lemma PermanentNeedsTwoStreaks(p: Policy, h: seq<Event>) returns (i: nat, j: nat)
    requires p.Valid() && Monotone(h) && Forever !in h && RecordOf(After(p, h)).permanent
    ensures i < j < |h| && Issues(p, h, i) && Issues(p, h, j)
    ensures CountedIn(p, h, 0, i + 1, h[i].reason) >= p.limit
    ensures CountedIn(p, h, i + 1, j + 1, h[j].reason) >= p.limit
    ensures forall k :: i < k <= j && Counted(p, h, k) ==> h[k].now >= h[i].now + p.ttl
  {
    j := TurnsPermanent(p, h);
    assert Monotone(h[..j + 1]) && Monotone(h[..j]);
    assert forall e :: e in h[..j] ==> e in h;
    i := BannedOnce(p, h[..j]);
    PrefixAgrees(p, h, j, i);
    hide After, RecordOf, Policy.Valid, BansAfter, BlockedAt, Monotone, Issues, Deadline;
    FullStreak(p, h, 0, i);
    FullStreak(p, h, i + 1, j);
    LastIsLater(p, h, i, j);
    forall k | i < k <= j && Counted(p, h, k) ensures h[k].now >= h[i].now + p.ttl {
      if k < j {
        PrefixAgrees(p, h, j, k);
        assert h[..j][k] == h[k] && h[..j][i] == h[i];
      }
    }
  }

  lemma LastIsLater(p: Policy, h: seq<Event>, i: nat, j: nat)
    requires i < j < |h| && Monotone(h[..j + 1]) && Counted(p, h, j)
    requires FirstBan(p, h[..j], i) && BansAfter(p, h[..j]) == 1
    ensures h[i].Invalid? && h[j].now >= h[i].now + p.ttl
  {
    PrefixAgrees(p, h, j + 1, j);
    assert h[..j + 1][..j] == h[..j];
    hide Counted, FirstBan, BansAfter, Monotone;
    CountedIsLater(p, h[..j + 1], i);
  }

  lemma AfterMore(p: Policy, h: seq<Event>, e: Event)
    ensures After(p, h + [e]) == Next(p, After(p, h), e)
  {
    assert (h + [e])[..|h + [e]| - 1] == h;
  }

  /** As shipped: five misses in a row block an address for six hours after the fifth, and not before it. */
  lemma FiveMisses(t1: int, t2: int, t3: int, t4: int, t5: int, now: int)
    ensures var h := [] + [Invalid("acl", t1)] + [Invalid("acl", t2)] + [Invalid("acl", t3)] + [Invalid("acl", t4)];
      && !BlockedAt(After(DEFAULT_POLICY, h), now)
      && (BlockedAt(After(DEFAULT_POLICY, h + [Invalid("acl", t5)]), now) <==> now < t5 + 21_600_000_000_000)
  {
    var p := DEFAULT_POLICY;
    var h1 := [] + [Invalid("acl", t1)];
    var h2 := h1 + [Invalid("acl", t2)];
    var h3 := h2 + [Invalid("acl", t3)];
    var h4 := h3 + [Invalid("acl", t4)];
    AfterMore(p, [], Invalid("acl", t1));
    AfterMore(p, h1, Invalid("acl", t2));
    AfterMore(p, h2, Invalid("acl", t3));
    AfterMore(p, h3, Invalid("acl", t4));
    AfterMore(p, h4, Invalid("acl", t5));
    assert After(p, []) == UNKNOWN;
    hide After;
  }
}
