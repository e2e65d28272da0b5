/**
  How connection attempts feed the ban store: the public, the tunnel and the Admin port, one lock
  section at a time. A handler reads the bans, the allowlist and the last agent's address separately, and
  reports its verdict to the store later still; everything may change in between.
 */
module Admission {
  import opened Options
  import opened Address
  import opened Allowlist
  import opened BanRecord
  import opened BanModel
  import BanRuns

  /** What is held against an address: not listed, not speaking the protocol, a wrong token. */
  datatype Fault = Miss | Probe | BadToken

  datatype Verdict = Good | Welcome | Bad(fault: Fault)

  /** Where a handler is. The three checks before a bad verdict may each excuse the address. */
  datatype Pc =
    | OnPublic                 // publicAllowed: about to read the bans
    | OnList                   // not banned; about to read the allowlist
    | OnTunnel                 // handleAgent: about to read the bans
    | Shaking                  // not banned; the handshake is under way
    | CheckPardon(fault: Fault)
    | CheckList(fault: Fault)
    | CheckAgent(fault: Fault)
    | Report(verdict: Verdict)
    | Remember                 // about to record the address as the agent's
    | Done(admitted: bool)

  datatype Handler = Handler(ip: IP, pc: Pc)

  datatype World = World(bans: Store, nets: seq<IPNet>, agent: Option<IP>, handlers: map<nat, Handler>, clock: int)

  datatype Step =
    | Arrive(id: nat, ip: IP, tunnel: bool)
    | Advance(id: nat, saved: bool)
    | ShakeHands(id: nat, fault: Option<Fault>, other: bool)
    | SwapList(nets: seq<IPNet>)
    | Pardon(op: Op, saved: bool)
    | Tick(now: int)
    | AdminFailed(ip: IP, saved: bool)

  predicate Enabled(w: World, s: Step) {
    match s
    case Arrive(id, ip, _) => id !in w.handlers && |ip| in {0, 4, 16}
    case Advance(id, _) => id in w.handlers && !w.handlers[id].pc.Done? && !w.handlers[id].pc.Shaking?
    case ShakeHands(id, fault, _) =>
      id in w.handlers && w.handlers[id].pc.Shaking? && fault in {None, Some(Probe), Some(BadToken)}
    case SwapList(_) => true
    case Pardon(op, _) => op.Unban? || op.UnbanCIDRs?
    case Tick(now) => now >= w.clock
    case AdminFailed(ip, _) => |ip| in {0, 4, 16}
  }

  /** The agent's address is the last one that authenticated. */
  predicate IsAgent(w: World, ip: IP) {
    w.agent.Some? && Equal(w.agent.value, ip)
  }

  /** What a handler does next, from what it reads. */
  function Onward(pc: Pc, blocked: bool, pardoned: bool, listed: bool, agent: bool): Pc {
    match pc
    case OnPublic => if blocked then Done(false) else OnList
    case OnList => if listed then Report(Good) else CheckList(Miss)
    case OnTunnel => if blocked then Done(false) else Shaking
    case CheckPardon(fault) =>
      if pardoned then Done(false) else if fault.Probe? then CheckList(fault) else Report(Bad(fault))
    case CheckList(fault) => if listed then Done(false) else CheckAgent(fault)
    case CheckAgent(fault) =>
      if agent then Done(false) else if fault.BadToken? then CheckPardon(fault) else Report(Bad(fault))
    case Report(verdict) => if verdict.Welcome? then Remember else Done(verdict.Good?)
    case Remember => Done(true)
    case _ => pc
  }

  function NextPc(w: World, h: Handler): Pc {
    Onward(h.pc, Blocked(w.bans, h.ip, w.clock), Pardoned(w.bans, h.ip),
           AllowedBy(w.nets, h.ip), h.ip != [] && IsAgent(w, h.ip))
  }

  /** What reporting a verdict does to the bans. */
  function Reported(p: Policy, lx: Lexer, s: Store, ip: IP, v: Verdict, now: int, saved: bool): Store {
    match v
    case Bad(Miss) => Apply(p, lx, s, ObserveInvalid(ip, "acl", now), saved)
    case Bad(BadToken) => Apply(p, lx, s, ObserveInvalid(ip, "auth", now), saved)
    case Bad(Probe) => Apply(p, lx, s, BanPermanent(ip), saved)
    case _ => Apply(p, lx, s, ObserveValid(ip), saved)
  }

  function Move(w: World, id: nat, pc: Pc): World
    requires id in w.handlers
  {
    w.(handlers := w.handlers[id := w.handlers[id].(pc := pc)])
  }

  function Advanced(p: Policy, lx: Lexer, w: World, id: nat, saved: bool): World
    requires id in w.handlers
  {
    var h := w.handlers[id];
    var w1 := Move(w, id, NextPc(w, h));
    if h.pc.Report? then w1.(bans := Reported(p, lx, w.bans, h.ip, h.pc.verdict, w.clock, saved))
    else if h.pc.Remember? && h.ip != [] then w1.(agent := Some(h.ip))
    else w1
  }

  function NextWorld(p: Policy, lx: Lexer, w: World, s: Step): World
    requires Enabled(w, s)
  {
    match s
    case Arrive(id, ip, tunnel) => w.(handlers := w.handlers[id := Handler(ip, if tunnel then OnTunnel else OnPublic)])
    case Advance(id, saved) => Advanced(p, lx, w, id, saved)
    case ShakeHands(id, fault, other) =>
      var h := w.handlers[id];
      if fault == Some(Probe) then Move(w, id, CheckPardon(Probe))
      else if fault == Some(BadToken) then Move(w, id, CheckList(BadToken))
      else if other then Move(w, id, Done(false))
      else Move(w, id, Report(Welcome))
    case SwapList(nets) => w.(nets := nets)
    case Pardon(op, saved) => w.(bans := Apply(p, lx, w.bans, op, saved))
    case Tick(now) => w.(clock := now)
    case AdminFailed(ip, saved) => w.(bans := Apply(p, lx, w.bans, AdminOp(w, ip), saved))
  }

  /** A wrong token on the Admin port counts, whether or not the address is trusted; on one that is blocked it does nothing. */
  function AdminOp(w: World, ip: IP): Op {
    ObserveInvalid(ip, "admin", w.clock)
  }

  /** A wrong token on the Admin port that completes a streak of the address with key `k`. */
  predicate Struck(p: Policy, w: World, s: Step, k: IP) {
    s.AdminFailed? && Key(s.ip) == Some(k) && Notifies(p, w.bans, AdminOp(w, s.ip))
  }

  ghost predicate Spared(p: Policy, ws: seq<World>, run: seq<Step>, k: IP) {
    |ws| == |run| + 1 && forall i :: 0 <= i < |run| ==> !Struck(p, ws[i], run[i], k)
  }

  /** The worlds along a run, the first one included. */
  ghost predicate Trace(p: Policy, lx: Lexer, ws: seq<World>, run: seq<Step>) {
    && |ws| == |run| + 1
    && forall i :: 0 <= i < |run| ==> Enabled(ws[i], run[i]) && ws[i + 1] == NextWorld(p, lx, ws[i], run[i])
  }

  /** Why an address with key `k` is trusted: it is listed, or it is the agent's. */
  datatype Ground = Listed | Agent

  predicate Trusted(w: World, k: IP, g: Ground) {
    match g
    case Listed => AllowedBy(w.nets, k)
    case Agent => w.agent.Some? && Key(w.agent.value) == Some(k)
  }

  /** The handler of a trusted address is not on the way to a bad verdict. */
  predicate Harmless(pc: Pc, g: Ground) {
    && !(pc.Report? && pc.verdict.Bad?) && pc != CheckPardon(BadToken) && pc != CheckPardon(Miss)
    && (g == Listed ==> !pc.CheckAgent?)
  }

  /** No report under way can hurt the address with key `k`, and it is not blocked now or later. */
  ghost predicate Safe(w: World, k: IP, g: Ground) {
    && (forall id :: id in w.handlers && Key(w.handlers[id].ip) == Some(k) ==> Harmless(w.handlers[id].pc, g))
    && (forall now :: now >= w.clock ==> !BlockedAt(StatusOf(w.bans, k), now))
  }

  lemma TrustedIsHarmless(w: World, h: Handler, k: IP, g: Ground)
    requires Key(h.ip) == Some(k) && Trusted(w, k, g) && Harmless(h.pc, g)
    ensures Harmless(NextPc(w, h), g)
  {
    assert h.ip != [];
    TrustedExcuses(w, h.ip, k, g);
    hide *;
    HarmlessOnward(h.pc, g, Blocked(w.bans, h.ip, w.clock), Pardoned(w.bans, h.ip),
                   AllowedBy(w.nets, h.ip), h.ip != [] && IsAgent(w, h.ip));
    NextPcIs(w, h);
  }

  lemma NextPcIs(w: World, h: Handler)
    ensures NextPc(w, h) == Onward(h.pc, Blocked(w.bans, h.ip, w.clock), Pardoned(w.bans, h.ip),
                                   AllowedBy(w.nets, h.ip), h.ip != [] && IsAgent(w, h.ip))
  {}

  lemma HarmlessOnward(pc: Pc, g: Ground, blocked: bool, pardoned: bool, listed: bool, agent: bool)
    requires Harmless(pc, g) && (if g == Listed then listed else agent)
    ensures Harmless(Onward(pc, blocked, pardoned, listed, agent), g)
  {}

  lemma TrustedExcuses(w: World, ip: IP, k: IP, g: Ground)
    requires Key(ip) == Some(k) && Trusted(w, k, g)
    ensures if g == Listed then AllowedBy(w.nets, ip) else IsAgent(w, ip)
  {
    if g == Agent {
      SameKeyEqual(w.agent.value, ip);
    } else {
      AllowedByKey(w.nets, ip);
      hide Key;
    }
    hide AllowedBy, Equal;
  }

  lemma BansStaySafe(p: Policy, lx: Lexer, s: Store, op: Op, saved: bool, k: IP, now: int)
    requires !op.Reload? && (EventFor(lx, op, k).Some? ==> EventFor(lx, op, k).value in {Fine, Event.Pardon})
    requires !BlockedAt(StatusOf(s, k), now)
    ensures !BlockedAt(StatusOf(Apply(p, lx, s, op, saved), k), now)
  {
    StoreIsPerKey(p, lx, s, op, saved, k);
    hide Apply, EventFor;
  }

  lemma ReportedStaysSafe(p: Policy, lx: Lexer, s: Store, ip: IP, v: Verdict, now: int, saved: bool, k: IP, t: int)
    requires Key(ip) == Some(k) ==> !v.Bad?
    requires !BlockedAt(StatusOf(s, k), t)
    ensures !BlockedAt(StatusOf(Reported(p, lx, s, ip, v, now, saved), k), t)
  {
    var op := match v
      case Bad(Miss) => ObserveInvalid(ip, "acl", now)
      case Bad(BadToken) => ObserveInvalid(ip, "auth", now)
      case Bad(Probe) => BanPermanent(ip)
      case _ => ObserveValid(ip);
    hide Key;
    BansStaySafe(p, lx, s, op, saved, k, t);
    hide Apply;
  }

  lemma HandlersStayHarmless(p: Policy, lx: Lexer, w: World, s: Step, k: IP, g: Ground, id: nat)
    requires Enabled(w, s) && Safe(w, k, g) && Trusted(w, k, g)
    ensures var w' := NextWorld(p, lx, w, s);
      id in w'.handlers && Key(w'.handlers[id].ip) == Some(k) ==> Harmless(w'.handlers[id].pc, g)
  {
    hide Apply, AllowedBy, Key, Reported, Blocked, Pardoned, Trusted;
    if s.Advance? && s.id == id && Key(w.handlers[id].ip) == Some(k) {
      TrustedIsHarmless(w, w.handlers[id], k, g);
      hide NextPc;
    }
  }

  lemma BansStep(p: Policy, lx: Lexer, w: World, s: Step, k: IP, g: Ground, now: int)
    requires Enabled(w, s) && Safe(w, k, g) && now >= w.clock && !Struck(p, w, s, k)
    ensures !BlockedAt(StatusOf(NextWorld(p, lx, w, s).bans, k), now)
  {
    hide Key, Reported, NextPc, EventFor, Apply, BlockedAt, StatusOf, Notifies, AdminOp;
    match s
    case Advance(id, saved) =>
      var h := w.handlers[id];
      if h.pc.Report? {
        ReportedStaysSafe(p, lx, w.bans, h.ip, h.pc.verdict, w.clock, saved, k, now);
      }
    case Pardon(op, saved) =>
      PardonEvents(lx, op, k);
      BansStaySafe(p, lx, w.bans, op, saved, k, now);
    case AdminFailed(ip, saved) => AdminStaysSafe(p, lx, w, ip, saved, k, now);
    case _ =>
  }

  lemma AdminStaysSafe(p: Policy, lx: Lexer, w: World, ip: IP, saved: bool, k: IP, now: int)
    requires !Struck(p, w, AdminFailed(ip, saved), k) && !BlockedAt(StatusOf(w.bans, k), now)
    ensures !BlockedAt(StatusOf(Apply(p, lx, w.bans, AdminOp(w, ip), saved), k), now)
  {
    hide Apply, Notifies, Key;
    if Key(ip) == Some(k) {
      if Blocked(Apply(p, lx, w.bans, AdminOp(w, ip), saved), ip, now) {
        BanRuns.SilentNeverBlocks(p, lx, w.bans, AdminOp(w, ip), saved, ip, now);
      }
    } else {
      BansStaySafe(p, lx, w.bans, AdminOp(w, ip), saved, k, now);
    }
  }

  lemma SafeStep(p: Policy, lx: Lexer, w: World, s: Step, k: IP, g: Ground)
    requires Enabled(w, s) && Safe(w, k, g) && Trusted(w, k, g) && !Struck(p, w, s, k)
    ensures Safe(NextWorld(p, lx, w, s), k, g)
  {
    var w' := NextWorld(p, lx, w, s);
    forall id ensures id in w'.handlers && Key(w'.handlers[id].ip) == Some(k) ==> Harmless(w'.handlers[id].pc, g) {
      HandlersStayHarmless(p, lx, w, s, k, g, id);
    }
    assert w'.clock >= w.clock;
    forall now | now >= w'.clock ensures !BlockedAt(StatusOf(w'.bans, k), now) {
      BansStep(p, lx, w, s, k, g, now);
    }
    hide NextWorld, Harmless, Trusted;
  }

  /** The ban is there at once. */
  lemma StruckIsBlocked(p: Policy, lx: Lexer, w: World, s: Step, k: IP)
    requires Enabled(w, s) && Struck(p, w, s, k) && p.ttl > 0
    ensures BlockedAt(StatusOf(NextWorld(p, lx, w, s).bans, k), w.clock) && NextWorld(p, lx, w, s).clock == w.clock
  {
    StoreIsPerKey(p, lx, w.bans, AdminOp(w, s.ip), s.saved, k);
    hide Apply, Key;
  }

  /** The immunity is kept by every step but one: a wrong Admin token that completes a streak. */
  lemma SafeStepIff(p: Policy, lx: Lexer, w: World, s: Step, k: IP, g: Ground)
    requires Enabled(w, s) && Safe(w, k, g) && Trusted(w, k, g) && p.ttl > 0
    ensures Safe(NextWorld(p, lx, w, s), k, g) <==> !Struck(p, w, s, k)
  {
    if Struck(p, w, s, k) {
      StruckIsBlocked(p, lx, w, s, k);
    } else {
      SafeStep(p, lx, w, s, k, g);
    }
    hide NextWorld, Struck, BlockedAt, StatusOf, Harmless, Key;
  }

  lemma PardonEvents(lx: Lexer, op: Op, k: IP)
    requires op.Unban? || op.UnbanCIDRs?
    ensures EventFor(lx, op, k).Some? ==> EventFor(lx, op, k).value == Event.Pardon
  {}

  /**
    An address that stays listed, or stays the last agent's, and starts unblocked with nothing held
    against it is never blocked, in whichever notation it shows up and whatever the other
    connections, list changes, pardons and the clock do in between, as long as no wrong Admin token
    completes a streak of its own.
   */
  lemma {:induction false} Immunity(p: Policy, lx: Lexer, ws: seq<World>, run: seq<Step>, k: IP, g: Ground, i: nat)
    requires Trace(p, lx, ws, run) && Safe(ws[0], k, g) && i <= |run|
    requires forall j :: 0 <= j < i ==> Trusted(ws[j], k, g) && !Struck(p, ws[j], run[j], k)
    ensures Safe(ws[i], k, g)
    ensures forall ip, now :: Key(ip) == Some(k) && now >= ws[i].clock ==> !Blocked(ws[i].bans, ip, now)
  {
    hide Safe, Trusted, NextWorld, Enabled, Key, Struck;
    if i > 0 {
      Immunity(p, lx, ws, run, k, g, i - 1);
      SafeStep(p, lx, ws[i - 1], run[i - 1], k, g);
    }
    SafeIsUnblocked(ws[i], k, g);
  }

  ghost predicate Unblocked(w: World, k: IP) {
    forall now :: now >= w.clock ==> !Blocked(w.bans, k, now)
  }

  /** Throughout such a run the address is never blocked if and only if the Admin port spares it. */
  lemma ImmunityIff(p: Policy, lx: Lexer, ws: seq<World>, run: seq<Step>, k: IP, g: Ground)
    requires Trace(p, lx, ws, run) && Safe(ws[0], k, g) && Key(k) == Some(k) && p.ttl > 0
    requires forall j :: 0 <= j < |run| ==> Trusted(ws[j], k, g)
    ensures (forall i :: 0 <= i < |ws| ==> Unblocked(ws[i], k)) <==> Spared(p, ws, run, k)
  {
    hide Safe, Trusted, NextWorld, Enabled, Struck;
    if Spared(p, ws, run, k) {
      forall i | 0 <= i < |ws| ensures Unblocked(ws[i], k) {
        Immunity(p, lx, ws, run, k, g, i);
      }
    } else {
      var i :| 0 <= i < |run| && Struck(p, ws[i], run[i], k);
      StruckIsBlocked(p, lx, ws[i], run[i], k);
      assert ws[i + 1] == NextWorld(p, lx, ws[i], run[i]);
      assert Blocked(ws[i + 1].bans, k, ws[i].clock);
      assert !Unblocked(ws[i + 1], k);
    }
  }

  lemma SafeIsUnblocked(w: World, k: IP, g: Ground)
    requires Safe(w, k, g)
    ensures forall ip, now :: Key(ip) == Some(k) && now >= w.clock ==> !Blocked(w.bans, ip, now)
  {
    hide Key;
  }

  /** On the way to being admitted by publicAllowed. */
  predicate Welcomed(pc: Pc) {
    pc in {OnPublic, OnList, Report(Good), Done(true)}
  }

  lemma WelcomedStep(p: Policy, lx: Lexer, w: World, s: Step, k: IP, id: nat)
    requires Enabled(w, s) && Safe(w, k, Listed) && AllowedBy(w.nets, k)
    requires id in w.handlers && Key(w.handlers[id].ip) == Some(k) && Welcomed(w.handlers[id].pc)
    ensures var w' := NextWorld(p, lx, w, s);
      id in w'.handlers && w'.handlers[id].ip == w.handlers[id].ip && Welcomed(w'.handlers[id].pc)
  {
    hide Safe, Key, AllowedBy, Blocked;
    AllowedByKey(w.nets, w.handlers[id].ip);
    SafeIsUnblocked(w, k, Listed);
    var h := w.handlers[id];
    assert Welcomed(NextPc(w, h)) by { NextPcIs(w, h); }
    hide NextPc, Reported;
  }

  /** A connection from such an address to a public port is never turned away. */
  lemma {:induction false} ListedIsAdmitted(p: Policy, lx: Lexer, ws: seq<World>, run: seq<Step>,
                                            k: IP, id: nat, from: nat, i: nat)
    requires Trace(p, lx, ws, run) && Safe(ws[0], k, Listed) && from <= i <= |run|
    requires forall j :: 0 <= j < i ==> AllowedBy(ws[j].nets, k) && !Struck(p, ws[j], run[j], k)
    requires id in ws[from].handlers && Key(ws[from].handlers[id].ip) == Some(k) && ws[from].handlers[id].pc == OnPublic
    ensures id in ws[i].handlers && Welcomed(ws[i].handlers[id].pc) && ws[i].handlers[id].ip == ws[from].handlers[id].ip
    ensures ws[i].handlers[id].pc != Done(false)
    decreases i
  {
    hide Safe, AllowedBy, NextWorld, Enabled, Key, Struck;
    if i > from {
      ListedIsAdmitted(p, lx, ws, run, k, id, from, i - 1);
      Immunity(p, lx, ws, run, k, Listed, i - 1);
      WelcomedStep(p, lx, ws[i - 1], run[i - 1], k, id);
    }
  }

  /** A probe that nothing excused is banned for good, unless the address was pardoned meanwhile. */
  lemma ProbeIsBanned(p: Policy, lx: Lexer, w: World, id: nat, saved: bool, now: int)
    requires Enabled(w, Advance(id, saved)) && w.handlers[id].pc == Report(Bad(Probe))
    requires Key(w.handlers[id].ip).Some?
    ensures Blocked(NextWorld(p, lx, w, Advance(id, saved)).bans, w.handlers[id].ip, now)
         || Pardoned(w.bans, w.handlers[id].ip)
  {
    var ip := w.handlers[id].ip;
    StoreIsPerKey(p, lx, w.bans, BanPermanent(ip), saved, Key(ip).value);
    assert EventFor(lx, BanPermanent(ip), Key(ip).value) == Some(Forever);
    hide Key, Apply;
  }

  /** A listed address that fails at the Admin port, `n` times so far. */
  function Failed(ip: IP, nets: seq<IPNet>, t: int, n: nat): World {
    var r := if n < INVALID_LIMIT then Record(n, "admin", 0, None, false) else Record(0, "admin", 1, Some(t + TEMP_DURATION), false);
    World(if n == 0 || Key(ip).None? then EMPTY else EMPTY.(byIP := map[Key(ip).value := r]), nets, None, map[], t)
  }

  lemma FailedStep(lx: Lexer, ip: IP, nets: seq<IPNet>, t: int, n: nat)
    requires Key(ip).Some? && |ip| in {4, 16} && n < INVALID_LIMIT
    ensures NextWorld(DEFAULT_POLICY, lx, Failed(ip, nets, t, n), AdminFailed(ip, false)) == Failed(ip, nets, t, n + 1)
  {
    hide Key;
  }

  function FailedWorlds(ip: IP, nets: seq<IPNet>, t: int): (ws: seq<World>)
    ensures |ws| == 6 && forall n :: 0 <= n <= 5 ==> ws[n] == Failed(ip, nets, t, n)
  {
    seq(6, n requires 0 <= n => Failed(ip, nets, t, n))
  }

  lemma FailedTrace(lx: Lexer, ip: IP, nets: seq<IPNet>, t: int)
    requires Key(ip).Some? && |ip| in {4, 16}
    ensures Trace(DEFAULT_POLICY, lx, FailedWorlds(ip, nets, t), seq(5, _ => AdminFailed(ip, false)))
  {
    var ws, run := FailedWorlds(ip, nets, t), seq(5, _ => AdminFailed(ip, false));
    hide Key, Failed, NextWorld;
    forall i | 0 <= i < 5 ensures Enabled(ws[i], run[i]) && ws[i + 1] == NextWorld(DEFAULT_POLICY, lx, ws[i], run[i]) {
      FailedStep(lx, ip, nets, t, i);
    }
  }

  /** As shipped: five wrong Admin tokens in a row block any address for six hours, listed or not. */
  lemma AdminBansListed(lx: Lexer, ip: IP, nets: seq<IPNet>, t: int)
    requires Key(ip).Some? && |ip| in {4, 16} && AllowedBy(nets, Key(ip).value)
    ensures var ws, k := FailedWorlds(ip, nets, t), Key(ip).value;
      && |ws| == 6 && Trace(DEFAULT_POLICY, lx, ws, seq(5, _ => AdminFailed(ip, false))) && Safe(ws[0], k, Listed)
      && (forall i :: 0 <= i < |ws| ==> Trusted(ws[i], k, Listed))
      && (forall now :: Blocked(ws[5].bans, ip, now) <==> now < t + 21_600_000_000_000)
  {
    FailedTrace(lx, ip, nets, t);
    hide Key, AllowedBy, Trace;
  }
}
