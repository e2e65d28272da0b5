/**
  Trust on changing grounds: an address that is sometimes listed and sometimes the agent's. Whether
  handlers can get it banned is decided by the history of the list and the agent alone.
 */
module AdmissionGrounds {
  import opened Options
  import opened Address
  import opened Allowlist
  import opened BanRecord
  import opened BanModel
  import opened Admission

  /** Wherever it is unlisted, it is the agent's from then on. */
  ghost predicate Covered(ws: seq<World>, k: IP) {
    forall a, b :: 0 <= a <= b < |ws| ==> Trusted(ws[a], k, Listed) || Trusted(ws[b], k, Agent)
  }

  ghost predicate NeverBlocked(ws: seq<World>, k: IP) {
    forall j :: 0 <= j < |ws| ==> Unblocked(ws[j], k)
  }

  lemma ListedIsSaferThanAgent(w: World, k: IP)
    requires Safe(w, k, Listed)
    ensures Safe(w, k, Agent)
  {
    hide Key, StatusOf, BlockedAt;
  }

  /** Covered trust protects, although no single ground need hold throughout. */
  lemma {:induction false} CoveredIsSafe(p: Policy, lx: Lexer, ws: seq<World>, run: seq<Step>, k: IP, i: nat)
    requires Trace(p, lx, ws, run) && Spared(p, ws, run, k) && Safe(ws[0], k, Listed) && Covered(ws, k) && i <= |run|
    ensures (exists j :: 0 <= j < i && !Trusted(ws[j], k, Listed)) || Safe(ws[i], k, Listed)
    ensures Safe(ws[i], k, Agent)
  {
    hide Safe, Trusted, NextWorld, Enabled, Struck;
    if i == 0 {
      ListedIsSaferThanAgent(ws[0], k);
    } else {
      CoveredIsSafe(p, lx, ws, run, k, i - 1);
      if j :| 0 <= j < i && !Trusted(ws[j], k, Listed) {
        assert Trusted(ws[i - 1], k, Agent);
        SafeStep(p, lx, ws[i - 1], run[i - 1], k, Agent);
      } else {
        assert Trusted(ws[i - 1], k, Listed);
        SafeStep(p, lx, ws[i - 1], run[i - 1], k, Listed);
        ListedIsSaferThanAgent(ws[i], k);
      }
    }
  }

  lemma CoveredIsNeverBlocked(p: Policy, lx: Lexer, ws: seq<World>, run: seq<Step>, k: IP)
    requires Trace(p, lx, ws, run) && Spared(p, ws, run, k) && Safe(ws[0], k, Listed) && Covered(ws, k) && Key(k) == Some(k)
    ensures NeverBlocked(ws, k)
  {
    hide Safe, Trusted, NextWorld, Enabled, Key, Covered, Spared;
    forall j | 0 <= j < |ws| ensures Unblocked(ws[j], k) {
      CoveredIsSafe(p, lx, ws, run, k, j);
      SafeIsUnblocked(ws[j], k, Agent);
    }
  }

  /** The same grounds, in the same order; each may last for any number of worlds. */
  ghost predicate Follows(ws': seq<World>, ws: seq<World>, k: IP, at: seq<nat>) {
    && |at| == |ws'|
    && (forall j :: 0 <= j < |at| ==> at[j] < |ws| && SameGrounds(ws'[j], ws[at[j]], k))
    && (forall i, j :: 0 <= i <= j < |at| ==> at[i] <= at[j])
  }

  predicate SameGrounds(v: World, w: World, k: IP) {
    Trusted(v, k, Listed) == Trusted(w, k, Listed) && Trusted(v, k, Agent) == Trusted(w, k, Agent)
  }

  lemma CoveredFollows(ws': seq<World>, ws: seq<World>, k: IP, at: seq<nat>)
    requires Follows(ws', ws, k, at) && Covered(ws, k)
    ensures Covered(ws', k)
  {
    hide Trusted;
    forall a, b | 0 <= a <= b < |ws'| ensures Trusted(ws'[a], k, Listed) || Trusted(ws'[b], k, Agent) {
      assert SameGrounds(ws'[a], ws[at[a]], k) && SameGrounds(ws'[b], ws[at[b]], k);
    }
  }

  /** A run whose grounds are those of `ws`, and in which the Admin port spares the address. */
  ghost predicate Detour(p: Policy, lx: Lexer, ws: seq<World>, k: IP, ws': seq<World>, run': seq<Step>, at: seq<nat>) {
    Trace(p, lx, ws', run') && Spared(p, ws', run', k) && Follows(ws', ws, k, at)
  }

  lemma DetoursJoin(p: Policy, lx: Lexer, ws: seq<World>, k: IP,
                    ws1: seq<World>, run1: seq<Step>, at1: seq<nat>, ws2: seq<World>, run2: seq<Step>, at2: seq<nat>)
    requires Detour(p, lx, ws, k, ws1, run1, at1) && Detour(p, lx, ws, k, ws2, run2, at2)
    requires ws1[|run1|] == ws2[0] && at1[|run1|] == at2[0]
    ensures Detour(p, lx, ws, k, ws1 + ws2[1..], run1 + run2, at1 + at2[1..])
  {
    TracesJoin(p, lx, ws1, run1, ws2, run2);
    SparedJoin(p, k, ws1, run1, ws2, run2);
    FollowsJoin(ws, k, ws1, at1, ws2, at2);
    hide Trace, Follows, Spared;
  }

  lemma SparedJoin(p: Policy, k: IP, ws1: seq<World>, run1: seq<Step>, ws2: seq<World>, run2: seq<Step>)
    requires Spared(p, ws1, run1, k) && Spared(p, ws2, run2, k) && ws1[|run1|] == ws2[0]
    ensures Spared(p, ws1 + ws2[1..], run1 + run2, k)
  {
    hide Struck;
    var ws, run, n := ws1 + ws2[1..], run1 + run2, |run1|;
    forall i | 0 <= i < |run| ensures !Struck(p, ws[i], run[i], k) {
      if i >= n {
        assert ws[i] == ws2[i - n] && run[i] == run2[i - n];
      }
    }
  }

  lemma TracesJoin(p: Policy, lx: Lexer, ws1: seq<World>, run1: seq<Step>, ws2: seq<World>, run2: seq<Step>)
    requires Trace(p, lx, ws1, run1) && Trace(p, lx, ws2, run2) && ws1[|run1|] == ws2[0]
    ensures Trace(p, lx, ws1 + ws2[1..], run1 + run2)
  {
    hide Enabled, NextWorld;
    var ws, run, n := ws1 + ws2[1..], run1 + run2, |run1|;
    forall i | 0 <= i < |run| ensures Enabled(ws[i], run[i]) && ws[i + 1] == NextWorld(p, lx, ws[i], run[i]) {
      if i >= n {
        assert ws[i] == ws2[i - n] && ws[i + 1] == ws2[i - n + 1] && run[i] == run2[i - n];
      }
    }
  }

  lemma FollowsJoin(ws: seq<World>, k: IP, ws1: seq<World>, at1: seq<nat>, ws2: seq<World>, at2: seq<nat>)
    requires Follows(ws1, ws, k, at1) && Follows(ws2, ws, k, at2) && ws1 != [] && ws2 != []
    requires at1[|at1| - 1] == at2[0]
    ensures Follows(ws1 + ws2[1..], ws, k, at1 + at2[1..])
  {
    hide SameGrounds;
    var at, n := at1 + at2[1..], |at1|;
    forall i, j | 0 <= i <= j < |at| ensures at[i] <= at[j] {
      assert i < n ==> at[i] == at1[i] <= at1[n - 1];
      assert j >= n ==> at[j] == at2[j - n + 1] >= at2[0];
      assert i >= n ==> at[i] == at2[i - n + 1];
    }
    forall j | 0 <= j < |at| ensures at[j] < |ws| && SameGrounds((ws1 + ws2[1..])[j], ws[at[j]], k) {
      assert j >= n ==> at[j] == at2[j - n + 1] && (ws1 + ws2[1..])[j] == ws2[j - n + 1];
    }
  }

  /** One more handler. */
  function With(w: World, h: nat, ip: IP, pc: Pc): World {
    w.(handlers := w.handlers[h := Handler(ip, pc)])
  }

  lemma WithSamePc(w: World, h: nat, ip: IP, pc: Pc, x: Handler)
    ensures NextPc(With(w, h, ip, pc), x) == NextPc(w, x)
  {
    hide Onward, Blocked, Pardoned, AllowedBy, Equal;
  }

  lemma AdvanceUndisturbed(p: Policy, lx: Lexer, w: World, id: nat, saved: bool, h: nat, ip: IP, pc: Pc)
    requires id in w.handlers && h !in w.handlers
    ensures Advanced(p, lx, With(w, h, ip, pc), id, saved) == With(Advanced(p, lx, w, id, saved), h, ip, pc)
  {
    hide NextPc, Reported, Move;
    var x := w.handlers[id];
    WithSamePc(w, h, ip, pc, x);
    MoveUndisturbed(w, id, NextPc(w, x), h, ip, pc);
  }

  lemma MoveUndisturbed(w: World, id: nat, to: Pc, h: nat, ip: IP, pc: Pc)
    requires id in w.handlers && h != id
    ensures Move(With(w, h, ip, pc), id, to) == With(Move(w, id, to), h, ip, pc)
  {
    assert Move(With(w, h, ip, pc), id, to).handlers == With(Move(w, id, to), h, ip, pc).handlers;
  }

  /** Nobody notices a handler that waits. */
  lemma Undisturbed(p: Policy, lx: Lexer, w: World, s: Step, h: nat, ip: IP, pc: Pc)
    requires Enabled(w, s) && h !in w.handlers && h !in NextWorld(p, lx, w, s).handlers
    ensures Enabled(With(w, h, ip, pc), s)
    ensures NextWorld(p, lx, With(w, h, ip, pc), s) == With(NextWorld(p, lx, w, s), h, ip, pc)
  {
    hide Advanced, Apply, Move;
    var v := With(w, h, ip, pc);
    match s
    case Advance(id, saved) => AdvanceUndisturbed(p, lx, w, id, saved, h, ip, pc);
    case Arrive(_, _, _) => assert NextWorld(p, lx, v, s).handlers == With(NextWorld(p, lx, w, s), h, ip, pc).handlers;
    case ShakeHands(id, _, _) =>
      forall to ensures Move(v, id, to) == With(Move(w, id, to), h, ip, pc) {
        MoveUndisturbed(w, id, to, h, ip, pc);
      }
    case _ =>
  }

  /** The run up to `a`. */
  lemma Before(p: Policy, lx: Lexer, ws: seq<World>, run: seq<Step>, k: IP, a: nat) returns (at: seq<nat>)
    requires Trace(p, lx, ws, run) && Spared(p, ws, run, k) && a <= |run|
    ensures Detour(p, lx, ws, k, ws[..a + 1], run[..a], at) && |at| == a + 1 && at[a] == a
  {
    hide Enabled, NextWorld, Trusted, Struck;
    at := seq(a + 1, i => i);
  }

  function Waiting(ws: seq<World>, a: nat, b: nat, h: nat, ip: IP, pc: Pc): (ws': seq<World>)
    requires a <= b < |ws|
    ensures |ws'| == b - a + 1 && forall i :: 0 <= i < |ws'| ==> ws'[i] == With(ws[a + i], h, ip, pc)
  {
    seq(b - a + 1, i requires 0 <= i <= b - a => With(ws[a + i], h, ip, pc))
  }

  lemma WaitingTrace(p: Policy, lx: Lexer, ws: seq<World>, run: seq<Step>, a: nat, b: nat, h: nat, ip: IP, pc: Pc)
    requires Trace(p, lx, ws, run) && a <= b <= |run| && forall w :: w in ws ==> h !in w.handlers
    ensures Trace(p, lx, Waiting(ws, a, b, h, ip, pc), run[a..b])
  {
    hide Enabled, NextWorld, With;
    var ws' := Waiting(ws, a, b, h, ip, pc);
    forall i | 0 <= i < b - a
      ensures Enabled(ws'[i], run[a..b][i]) && ws'[i + 1] == NextWorld(p, lx, ws'[i], run[a..b][i])
    {
      TraceUndisturbed(p, lx, ws, run, a + i, h, ip, pc);
    }
  }

  /** The run from `a` to `b`, with a handler that waits. */
  lemma Meanwhile(p: Policy, lx: Lexer, ws: seq<World>, run: seq<Step>, k: IP, a: nat, b: nat, h: nat, pc: Pc)
    returns (ws': seq<World>, at: seq<nat>)
    requires Trace(p, lx, ws, run) && Spared(p, ws, run, k) && a <= b <= |run| && forall w :: w in ws ==> h !in w.handlers
    ensures Detour(p, lx, ws, k, ws', run[a..b], at) && |ws'| == b - a + 1 == |at|
    ensures ws'[0] == With(ws[a], h, k, pc) && ws'[b - a] == With(ws[b], h, k, pc) && at[0] == a && at[b - a] == b
  {
    ws', at := Waiting(ws, a, b, h, k, pc), CountUp(a, b);
    WaitingTrace(p, lx, ws, run, a, b, h, k, pc);
    WaitingFollows(ws, a, b, h, k, pc);
    WaitingSpared(p, ws, run, a, b, h, k, pc);
    hide Trace, Follows, With, Spared;
  }

  lemma WaitingSpared(p: Policy, ws: seq<World>, run: seq<Step>, a: nat, b: nat, h: nat, k: IP, pc: Pc)
    requires Spared(p, ws, run, k) && a <= b <= |run|
    ensures Spared(p, Waiting(ws, a, b, h, k, pc), run[a..b], k)
  {
    hide Struck, With;
    var ws' := Waiting(ws, a, b, h, k, pc);
    forall i | 0 <= i < b - a ensures !Struck(p, ws'[i], run[a..b][i], k) {
      StruckWith(p, ws[a + i], run[a + i], k, h, pc);
    }
  }

  lemma StruckWith(p: Policy, w: World, s: Step, k: IP, h: nat, pc: Pc)
    ensures Struck(p, With(w, h, k, pc), s, k) == Struck(p, w, s, k)
  {
    hide Notifies, Key;
  }

  lemma WaitingFollows(ws: seq<World>, a: nat, b: nat, h: nat, k: IP, pc: Pc)
    requires a <= b < |ws|
    ensures Follows(Waiting(ws, a, b, h, k, pc), ws, k, CountUp(a, b))
  {
    hide Trusted, With, SameGrounds;
    var ws', at := Waiting(ws, a, b, h, k, pc), CountUp(a, b);
    forall j | 0 <= j < |at| ensures SameGrounds(ws'[j], ws[at[j]], k) {
      WithKeepsGrounds(ws[a + j], h, k, pc);
    }
  }

  function CountUp(a: nat, b: nat): (at: seq<nat>)
    requires a <= b
    ensures |at| == b - a + 1 && forall i :: 0 <= i < |at| ==> at[i] == a + i
  {
    seq(b - a + 1, i requires 0 <= i => a + i)
  }

  lemma TraceUndisturbed(p: Policy, lx: Lexer, ws: seq<World>, run: seq<Step>, i: nat, h: nat, ip: IP, pc: Pc)
    requires Trace(p, lx, ws, run) && i < |run| && forall w :: w in ws ==> h !in w.handlers
    ensures Enabled(With(ws[i], h, ip, pc), run[i])
    ensures With(ws[i + 1], h, ip, pc) == NextWorld(p, lx, With(ws[i], h, ip, pc), run[i])
  {
    hide Enabled, NextWorld, With;
    assert ws[i] in ws && ws[i + 1] in ws;
    Undisturbed(p, lx, ws[i], run[i], h, ip, pc);
  }

  lemma WithKeepsGrounds(w: World, h: nat, k: IP, pc: Pc)
    ensures SameGrounds(With(w, h, k, pc), w, k)
  {}

  /** A probe from `k` arrives and is found unlisted. */
  const KNOCKING: seq<Pc> := [OnTunnel, Shaking, CheckPardon(Probe), CheckList(Probe), CheckAgent(Probe)]

  function Knock(h: nat, k: IP): seq<Step> {
    [Arrive(h, k, true), Advance(h, true), ShakeHands(h, Some(Probe), false), Advance(h, true), Advance(h, true)]
  }

  lemma Knocks(p: Policy, lx: Lexer, ws: seq<World>, k: IP, a: nat, h: nat) returns (ws': seq<World>, at: seq<nat>)
    requires a < |ws| && h !in ws[a].handlers && Key(k) == Some(k) && |k| in {4, 16}
    requires !Trusted(ws[a], k, Listed) && Unblocked(ws[a], k) && !Pardoned(ws[a].bans, k)
    ensures Detour(p, lx, ws, k, ws', Knock(h, k), at) && |ws'| == 6 == |at|
    ensures ws'[0] == ws[a] && ws'[5] == With(ws[a], h, k, CheckAgent(Probe)) && at[0] == a == at[5]
  {
    var w := ws[a];
    ws' := [w] + seq(5, i requires 0 <= i < 5 => With(w, h, k, KNOCKING[i]));
    at := seq(6, _ => a);
    assert !Blocked(w.bans, k, w.clock) && !AllowedBy(w.nets, k);
    forall i | 0 <= i < 5
      ensures Enabled(ws'[i], Knock(h, k)[i]) && ws'[i + 1] == NextWorld(p, lx, ws'[i], Knock(h, k)[i])
    {
      KnockStep(p, lx, w, k, h, i);
    }
    hide Enabled, NextWorld, Trusted, Key;
    forall j | 0 <= j < |at| ensures SameGrounds(ws'[j], ws[at[j]], k) {
      if j > 0 {
        WithKeepsGrounds(w, h, k, KNOCKING[j - 1]);
      }
    }
  }

  lemma KnockStep(p: Policy, lx: Lexer, w: World, k: IP, h: nat, i: nat)
    requires i < 5 && h !in w.handlers && |k| in {4, 16}
    requires !Blocked(w.bans, k, w.clock) && !AllowedBy(w.nets, k) && !Pardoned(w.bans, k)
    ensures var v := if i == 0 then w else With(w, h, k, KNOCKING[i - 1]);
      Enabled(v, Knock(h, k)[i]) && NextWorld(p, lx, v, Knock(h, k)[i]) == With(w, h, k, KNOCKING[i])
  {
    hide Blocked, AllowedBy, Pardoned, Equal, Reported, Apply;
    if i > 0 {
      var v := With(w, h, k, KNOCKING[i - 1]);
      assert v.handlers[h := Handler(k, KNOCKING[i])] == With(w, h, k, KNOCKING[i]).handlers;
    }
  }

  /** The probe is then found not to be the agent's, and banned. */
  lemma Convicted(p: Policy, lx: Lexer, ws: seq<World>, k: IP, b: nat, h: nat) returns (ws': seq<World>, at: seq<nat>)
    requires b < |ws| && Key(k) == Some(k)
    requires !Trusted(ws[b], k, Agent) && !Pardoned(ws[b].bans, k)
    ensures Detour(p, lx, ws, k, ws', [Advance(h, true), Advance(h, true)], at) && |ws'| == 3 == |at|
    ensures ws'[0] == With(ws[b], h, k, CheckAgent(Probe)) && at[0] == b
    ensures forall now :: Blocked(ws'[2].bans, k, now)
  {
    var v, u := With(ws[b], h, k, CheckAgent(Probe)), With(ws[b], h, k, Report(Bad(Probe)));
    NotTheAgent(ws[b], k);
    var s := Advance(h, true);
    assert Enabled(v, s) && NextWorld(p, lx, v, s) == u by {
      hide Blocked, AllowedBy, Pardoned, IsAgent, Reported, Apply;
      assert v.handlers[h := Handler(k, Report(Bad(Probe)))] == u.handlers;
    }
    ws' := [v, u, NextWorld(p, lx, u, s)];
    at := [b, b, b];
    forall now ensures Blocked(ws'[2].bans, k, now) {
      ProbeIsBanned(p, lx, u, h, true, now);
    }
    LastGrounds(p, lx, u, h);
    hide NextWorld, Trusted, Key;
    WithKeepsGrounds(ws[b], h, k, CheckAgent(Probe));
    WithKeepsGrounds(ws[b], h, k, Report(Bad(Probe)));
  }

  lemma NotTheAgent(w: World, k: IP)
    requires Key(k) == Some(k) && !Trusted(w, k, Agent)
    ensures !IsAgent(w, k)
  {
    if IsAgent(w, k) {
      EqualSameKey(w.agent.value, k);
    }
  }

  lemma LastGrounds(p: Policy, lx: Lexer, u: World, h: nat)
    requires Enabled(u, Advance(h, true)) && u.handlers[h].pc.Report?
    ensures var w := NextWorld(p, lx, u, Advance(h, true)); w.nets == u.nets && w.agent == u.agent
  {
    hide Reported, NextPc;
  }

  lemma Bounded(s: set<nat>) returns (b: nat)
    ensures forall x :: x in s ==> x < b
  {
    b := 0;
    var left := s;
    while left != {}
      invariant left <= s && forall x :: x in s && x !in left ==> x < b
      decreases left
    {
      var x :| x in left;
      left := left - {x};
      b := if x < b then b else x + 1;
    }
  }

  lemma FreshHandler(ws: seq<World>) returns (h: nat)
    ensures forall w :: w in ws ==> h !in w.handlers
  {
    h := 0;
    for i := 0 to |ws|
      invariant forall j, x :: 0 <= j < i && x in ws[j].handlers ==> x < h
    {
      var b := Bounded(ws[i].handlers.Keys);
      h := if h < b then b else h;
    }
  }

  /** Unlisted at `a` and not the agent's at a later `b`: a probe that reads the one and then the other is banned. */
  lemma UncoveredCanBeBanned(p: Policy, lx: Lexer, ws: seq<World>, run: seq<Step>, k: IP, a: nat, b: nat)
    returns (ws': seq<World>, run': seq<Step>, at: seq<nat>)
    requires Trace(p, lx, ws, run) && Spared(p, ws, run, k) && Key(k) == Some(k) && |k| in {4, 16} && a <= b <= |run|
    requires !Trusted(ws[a], k, Listed) && !Trusted(ws[b], k, Agent)
    requires Unblocked(ws[a], k) && !Pardoned(ws[a].bans, k) && !Pardoned(ws[b].bans, k)
    ensures Detour(p, lx, ws, k, ws', run', at) && ws'[0] == ws[0]
    ensures forall now :: Blocked(ws'[|run'|].bans, k, now)
  {
    hide Trusted, Unblocked, Pardoned, Blocked, Key, Detour, With;
    var h := FreshHandler(ws);
    assert ws[a] in ws && |ws| == |run| + 1;
    var at1 := Before(p, lx, ws, run, k, a);
    var ws2, at2 := Knocks(p, lx, ws, k, a, h);
    var ws3, at3 := Meanwhile(p, lx, ws, run, k, a, b, h, CheckAgent(Probe));
    var ws4, at4 := Convicted(p, lx, ws, k, b, h);
    ws', run', at := Joined(p, lx, ws, k, ws[..a + 1], run[..a], at1, ws2, Knock(h, k), at2);
    ws', run', at := Joined(p, lx, ws, k, ws', run', at, ws3, run[a..b], at3);
    ws', run', at := Joined(p, lx, ws, k, ws', run', at, ws4, [Advance(h, true), Advance(h, true)], at4);
  }

  lemma Joined(p: Policy, lx: Lexer, ws: seq<World>, k: IP,
               ws1: seq<World>, run1: seq<Step>, at1: seq<nat>, ws2: seq<World>, run2: seq<Step>, at2: seq<nat>)
    returns (ws': seq<World>, run': seq<Step>, at: seq<nat>)
    requires Detour(p, lx, ws, k, ws1, run1, at1) && Detour(p, lx, ws, k, ws2, run2, at2)
    requires |ws1| == |run1| + 1 == |at1| && |ws2| == |run2| + 1 == |at2|
    requires ws1[|run1|] == ws2[0] && at1[|run1|] == at2[0]
    ensures Detour(p, lx, ws, k, ws', run', at) && |ws'| == |run'| + 1 == |at|
    ensures ws'[0] == ws1[0] && ws'[|run'|] == ws2[|run2|] && at[|run'|] == at2[|run2|]
  {
    DetoursJoin(p, lx, ws, k, ws1, run1, at1, ws2, run2, at2);
    ws', run', at := ws1 + ws2[1..], run1 + run2, at1 + at2[1..];
    hide Detour;
    assert |run2| > 0 ==> ws'[|run'|] == ws2[1..][|run2| - 1] && at[|run'|] == at2[1..][|run2| - 1];
  }

  /**
    An address that starts safe, is never pardoned and has no streak of wrong Admin tokens: no run in
    which its grounds of trust come and go in the same order gets it banned, whatever the handlers do, if and only if it is covered.
   */
  lemma GroundsDecide(p: Policy, lx: Lexer, ws: seq<World>, run: seq<Step>, k: IP)
    requires Trace(p, lx, ws, run) && Spared(p, ws, run, k) && Safe(ws[0], k, Listed) && Key(k) == Some(k) && |k| in {4, 16}
    requires forall w :: w in ws ==> !Pardoned(w.bans, k)
    ensures Covered(ws, k) <==>
            forall ws', run', at :: Detour(p, lx, ws, k, ws', run', at) && ws'[0] == ws[0] ==> NeverBlocked(ws', k)
  {
    hide Safe, Key, Pardoned, SameGrounds, Trusted;
    if Covered(ws, k) {
      forall ws', run', at | Detour(p, lx, ws, k, ws', run', at) && ws'[0] == ws[0]
        ensures NeverBlocked(ws', k)
      {
        CoveredFollows(ws', ws, k, at);
        CoveredIsNeverBlocked(p, lx, ws', run', k);
      }
    } else {
      var ws', run', at := Counterexample(p, lx, ws, run, k);
    }
  }

  lemma Counterexample(p: Policy, lx: Lexer, ws: seq<World>, run: seq<Step>, k: IP)
    returns (ws': seq<World>, run': seq<Step>, at: seq<nat>)
    requires Trace(p, lx, ws, run) && Spared(p, ws, run, k) && Key(k) == Some(k) && |k| in {4, 16} && !Covered(ws, k)
    requires forall w :: w in ws ==> !Pardoned(w.bans, k)
    ensures Detour(p, lx, ws, k, ws', run', at) && ws'[0] == ws[0] && !NeverBlocked(ws', k)
  {
    hide Key, Pardoned, Trusted, Blocked;
    if NeverBlocked(ws, k) {
      var a, b :| 0 <= a <= b < |ws| && !Trusted(ws[a], k, Listed) && !Trusted(ws[b], k, Agent);
      assert ws[a] in ws && ws[b] in ws && Unblocked(ws[a], k);
      ws', run', at := UncoveredCanBeBanned(p, lx, ws, run, k, a, b);
      LastIsBlocked(ws', |run'|, k);
    } else {
      at := Before(p, lx, ws, run, k, |run|);
      assert ws[..|run| + 1] == ws && run[..|run|] == run;
      ws', run' := ws, run;
    }
  }

  lemma LastIsBlocked(ws: seq<World>, i: nat, k: IP)
    requires i < |ws| && forall now :: Blocked(ws[i].bans, k, now)
    ensures !NeverBlocked(ws, k)
  {
    hide Blocked;
    assert Blocked(ws[i].bans, k, ws[i].clock);
    assert !Unblocked(ws[i], k);
  }

  const HOME: IP := [1, 1, 1, 1]
  const AWAY: IP := [2, 2, 2, 2]
  const HOME_ONLY := IPNet(HOME, [0xff, 0xff, 0xff, 0xff])

  /** The Edge is about to ask whether a probe came from a trusted address: the agent's, so far. */
  function Asked(pc: Pc, nets: seq<IPNet>, agent: IP, other: Pc): World {
    World(EMPTY, nets, Some(agent), map[0 := Handler(HOME, pc), 1 := Handler(AWAY, other)], 0)
  }

  /** The address is listed and only then ceases to be the agent's, but between the two reads. */
  const HANDOVER: seq<Step> := [
    Advance(0, true), SwapList([HOME_ONLY]), Advance(1, true), Advance(0, true), Advance(0, true)]

  ghost function HandoverWorlds(p: Policy, lx: Lexer): seq<World> {
    var last := Asked(Report(Bad(Probe)), [HOME_ONLY], AWAY, Done(true));
    [Asked(CheckList(Probe), [], HOME, Remember), Asked(CheckAgent(Probe), [], HOME, Remember),
     Asked(CheckAgent(Probe), [HOME_ONLY], HOME, Remember), Asked(CheckAgent(Probe), [HOME_ONLY], AWAY, Done(true)),
     last, NextWorld(p, lx, last, Advance(0, true))]
  }

  lemma HomeListed()
    ensures AllowedBy([HOME_ONLY], HOME) && !AllowedBy([], HOME) && Key(HOME) == Some(HOME) && Key(AWAY) == Some(AWAY)
    ensures !Equal(AWAY, HOME) && Equal(HOME, HOME)
  {
    assert HOME_ONLY in [HOME_ONLY] && Contains(HOME_ONLY, HOME);
  }

  lemma HandoverSteps(p: Policy, lx: Lexer)
    ensures Trace(p, lx, HandoverWorlds(p, lx), HANDOVER)
  {
    var ws := HandoverWorlds(p, lx);
    FirstRead(p, lx);
    Renamed(p, lx);
    SecondRead(p, lx);
    hide Advanced;
    forall i | 0 <= i < 5 ensures Enabled(ws[i], HANDOVER[i]) && ws[i + 1] == NextWorld(p, lx, ws[i], HANDOVER[i]) {
      if i == 4 {
        assert Enabled(ws[4], HANDOVER[4]);
      }
    }
    hide NextWorld, Enabled;
  }

  lemma FirstRead(p: Policy, lx: Lexer)
    ensures Advanced(p, lx, Asked(CheckList(Probe), [], HOME, Remember), 0, true) == Asked(CheckAgent(Probe), [], HOME, Remember)
  {
    HomeListed();
    hide Key, Equal, AllowedBy, Reported, Blocked, Pardoned;
    var w := Asked(CheckList(Probe), [], HOME, Remember);
    assert NextPc(w, w.handlers[0]) == CheckAgent(Probe);
    hide NextPc;
    assert Move(w, 0, CheckAgent(Probe)).handlers == Asked(CheckAgent(Probe), [], HOME, Remember).handlers;
  }

  lemma Renamed(p: Policy, lx: Lexer)
    ensures Advanced(p, lx, Asked(CheckAgent(Probe), [HOME_ONLY], HOME, Remember), 1, true)
         == Asked(CheckAgent(Probe), [HOME_ONLY], AWAY, Done(true))
  {
    hide Key, Equal, AllowedBy, Reported, Blocked, Pardoned;
    var w := Asked(CheckAgent(Probe), [HOME_ONLY], HOME, Remember);
    assert NextPc(w, w.handlers[1]) == Done(true);
    hide NextPc;
    assert Move(w, 1, Done(true)).handlers == Asked(CheckAgent(Probe), [HOME_ONLY], AWAY, Done(true)).handlers;
  }

  lemma SecondRead(p: Policy, lx: Lexer)
    ensures Advanced(p, lx, Asked(CheckAgent(Probe), [HOME_ONLY], AWAY, Done(true)), 0, true)
         == Asked(Report(Bad(Probe)), [HOME_ONLY], AWAY, Done(true))
  {
    HomeListed();
    hide Key, Equal, AllowedBy, Reported, Blocked, Pardoned;
    var w := Asked(CheckAgent(Probe), [HOME_ONLY], AWAY, Done(true));
    assert NextPc(w, w.handlers[0]) == Report(Bad(Probe));
    hide NextPc;
    assert Move(w, 0, Report(Bad(Probe))).handlers == Asked(Report(Bad(Probe)), [HOME_ONLY], AWAY, Done(true)).handlers;
  }

  lemma EmptyIsSafe(w: World, k: IP, g: Ground)
    requires w.bans == EMPTY && forall id :: id in w.handlers ==> Harmless(w.handlers[id].pc, g)
    ensures Safe(w, k, g)
  {
    hide Key, Harmless;
  }

  /** It is not enough to be trusted at every moment. */
  lemma ChangingGroundsFail(p: Policy, lx: Lexer)
    ensures var ws := HandoverWorlds(p, lx);
      && Trace(p, lx, ws, HANDOVER) && Safe(ws[0], HOME, Listed) && Safe(ws[0], HOME, Agent)
      && (forall i :: 0 <= i < |ws| ==> Trusted(ws[i], HOME, Listed) || Trusted(ws[i], HOME, Agent))
      && (forall now :: Blocked(ws[5].bans, HOME, now))
  {
    HomeListed();
    HandoverSteps(p, lx);
    var ws := HandoverWorlds(p, lx);
    hide AllowedBy, Key, Equal, Trace, Safe, Blocked, Reported;
    EmptyIsSafe(ws[0], HOME, Listed);
    EmptyIsSafe(ws[0], HOME, Agent);
    forall now ensures Blocked(ws[5].bans, HOME, now) {
      ProbeIsBanned(p, lx, ws[4], 0, true, now);
    }
  }
}
