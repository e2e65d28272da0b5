/** A handler that nobody disturbs does what the Edge's admission methods say, and reports what they report. */
module AdmissionGate {
  import opened Options
  import opened Address
  import opened Allowlist
  import opened BanRecord
  import opened BanModel
  import opened Admission
  import Gate = EdgeGate
  import Handshake
  import Wire

  /** A handler goes on by itself until it is done or waits for the peer. */
  function Settle(p: Policy, lx: Lexer, w: World, id: nat, saved: bool, n: nat): World
    requires id in w.handlers
    decreases n
  {
    if n == 0 || w.handlers[id].pc.Done? || w.handlers[id].pc.Shaking? then w
    else Settle(p, lx, NextWorld(p, lx, w, Advance(id, saved)), id, saved, n - 1)
  }

  predicate Quiet(pc: Pc) {
    !pc.Done? && !pc.Shaking? && !pc.Report? && !pc.Remember?
  }

  lemma QuietPcs()
    ensures Quiet(OnPublic) && Quiet(OnTunnel) && Quiet(OnList)
    ensures forall f :: Quiet(CheckList(f)) && Quiet(CheckAgent(f)) && Quiet(CheckPardon(f))
  {}

  /** What a handler of `ip` reads in `w`. */
  function Reads(w: World, ip: IP, pc: Pc): Pc {
    Onward(pc, Blocked(w.bans, ip, w.clock), Pardoned(w.bans, ip), AllowedBy(w.nets, ip), ip != [] && IsAgent(w, ip))
  }

  lemma QuietStep(p: Policy, lx: Lexer, w: World, id: nat, pc: Pc, saved: bool, n: nat)
    requires id in w.handlers && Quiet(pc) && n > 0
    ensures Settle(p, lx, Move(w, id, pc), id, saved, n)
         == Settle(p, lx, Move(w, id, Reads(w, w.handlers[id].ip, pc)), id, saved, n - 1)
  {
    var v := Move(w, id, pc);
    NextPcIs(v, v.handlers[id]);
    hide NextPc, Onward, Blocked, Pardoned, AllowedBy, Equal, Reported;
    assert Reads(v, v.handlers[id].ip, pc) == Reads(w, w.handlers[id].ip, pc);
    assert Move(v, id, Reads(w, w.handlers[id].ip, pc)).handlers == Move(w, id, Reads(w, w.handlers[id].ip, pc)).handlers;
  }

  lemma DoneStays(p: Policy, lx: Lexer, w: World, id: nat, ok: bool, saved: bool, n: nat)
    requires id in w.handlers
    ensures Settle(p, lx, Move(w, id, Done(ok)), id, saved, n) == Move(w, id, Done(ok))
  {}

  lemma ReportStep(p: Policy, lx: Lexer, w: World, id: nat, v: Verdict, saved: bool, n: nat)
    requires id in w.handlers && !v.Welcome? && n > 0
    ensures Settle(p, lx, Move(w, id, Report(v)), id, saved, n)
         == Ended(w, id, v.Good?, Reported(p, lx, w.bans, w.handlers[id].ip, v, w.clock, saved))
  {
    var u := Move(w, id, Report(v));
    NextPcIs(u, u.handlers[id]);
    hide Blocked, Pardoned, AllowedBy, Equal, Reported;
    assert Move(u, id, Done(v.Good?)).handlers == Move(w, id, Done(v.Good?)).handlers;
    hide NextPc;
  }

  lemma WelcomeStep(p: Policy, lx: Lexer, w: World, id: nat, saved: bool, n: nat)
    requires id in w.handlers && n > 1
    ensures var ip := w.handlers[id].ip;
      Settle(p, lx, Move(w, id, Report(Welcome)), id, saved, n)
        == Ended(w, id, true, Apply(p, lx, w.bans, ObserveValid(ip), saved)).(agent := if ip == [] then w.agent else Some(ip))
  {
    var u := Move(w, id, Report(Welcome));
    NextPcIs(u, u.handlers[id]);
    var t := NextWorld(p, lx, u, Advance(id, saved));
    hide Blocked, Pardoned, AllowedBy, Equal, Apply;
    assert t.handlers[id].pc == Remember && t.handlers == Move(w, id, Remember).handlers;
    NextPcIs(t, t.handlers[id]);
    assert Move(t, id, Done(true)).handlers == Move(w, id, Done(true)).handlers;
    var t' := NextWorld(p, lx, t, Advance(id, saved));
    assert t'.handlers[id].pc == Done(true) && Settle(p, lx, t', id, saved, n - 2) == t';
    assert Settle(p, lx, t, id, saved, n - 1) == t';
    hide NextPc;
  }

  lemma ReadsAre(w: World, ip: IP)
    ensures Reads(w, ip, OnPublic) == if Blocked(w.bans, ip, w.clock) then Done(false) else OnList
    ensures Reads(w, ip, OnTunnel) == if Blocked(w.bans, ip, w.clock) then Done(false) else Shaking
    ensures Reads(w, ip, OnList) == if AllowedBy(w.nets, ip) then Report(Good) else CheckList(Miss)
    ensures forall f :: Reads(w, ip, CheckList(f)) == if AllowedBy(w.nets, ip) then Done(false) else CheckAgent(f)
    ensures forall f :: Reads(w, ip, CheckAgent(f)) ==
              if ip != [] && IsAgent(w, ip) then Done(false) else if f == BadToken then CheckPardon(f) else Report(Bad(f))
    ensures forall f :: Reads(w, ip, CheckPardon(f)) ==
              if Pardoned(w.bans, ip) then Done(false) else if f == Probe then CheckList(f) else Report(Bad(f))
  {
    hide Blocked, AllowedBy, Pardoned, IsAgent;
  }

  /** The handler is done, and the bans are `s`. */
  function Ended(w: World, id: nat, ok: bool, s: Store): World
    requires id in w.handlers
  {
    Move(w, id, Done(ok)).(bans := s)
  }

  lemma EndedAsIs(w: World, id: nat, ok: bool)
    requires id in w.handlers
    ensures Ended(w, id, ok, w.bans) == Move(w, id, Done(ok))
  {}

  /** The bans after a report, or as they were. */
  function After(p: Policy, lx: Lexer, s: Store, op: Option<Op>, saved: bool): Store {
    if op.None? then s else Apply(p, lx, s, op.value, saved)
  }

  /** From `pc` on, undisturbed, the handler ends with `ok` and the bans with `s`. */
  predicate Leads(p: Policy, lx: Lexer, w: World, id: nat, saved: bool, n: nat, pc: Pc, ok: bool, s: Store)
    requires id in w.handlers
  {
    Settle(p, lx, Move(w, id, pc), id, saved, n) == Ended(w, id, ok, s)
  }

  lemma QuietLeads(p: Policy, lx: Lexer, w: World, id: nat, saved: bool, n: nat, pc: Pc, ok: bool, s: Store)
    requires id in w.handlers && Quiet(pc) && n > 0
    requires Leads(p, lx, w, id, saved, n - 1, Reads(w, w.handlers[id].ip, pc), ok, s)
    ensures Leads(p, lx, w, id, saved, n, pc, ok, s)
  {
    QuietStep(p, lx, w, id, pc, saved, n);
    hide Settle, Move, Ended, Reads;
  }

  lemma DoneLeads(p: Policy, lx: Lexer, w: World, id: nat, saved: bool, n: nat, ok: bool)
    requires id in w.handlers
    ensures Leads(p, lx, w, id, saved, n, Done(ok), ok, w.bans)
  {
    DoneStays(p, lx, w, id, ok, saved, n);
    EndedAsIs(w, id, ok);
    hide Settle, Move, Ended;
  }

  lemma ReportLeads(p: Policy, lx: Lexer, w: World, id: nat, saved: bool, n: nat, v: Verdict)
    requires id in w.handlers && !v.Welcome? && n > 0
    ensures Leads(p, lx, w, id, saved, n, Report(v), v.Good?, Reported(p, lx, w.bans, w.handlers[id].ip, v, w.clock, saved))
  {
    ReportStep(p, lx, w, id, v, saved, n);
    hide Settle, Move, Ended, Reported;
  }

  /** A connection to a public port. */
  lemma PublicIsGate(p: Policy, lx: Lexer, w: World, id: nat, saved: bool)
    requires id in w.handlers
    ensures var ip := w.handlers[id].ip;
      Settle(p, lx, Move(w, id, OnPublic), id, saved, 5)
        == Ended(w, id, !Blocked(w.bans, ip, w.clock) && AllowedBy(w.nets, ip),
                 After(p, lx, w.bans, Gate.PublicReport(w.bans, w.nets, w.agent, ip, w.clock, w.clock), saved))
  {
    var ip := w.handlers[id].ip;
    NilNotListed(w.nets);
    PublicCases(p, lx, w, ip, saved);
    hide Settle, Move, Ended, Blocked, AllowedBy, After, Gate.PublicReport;
    PublicLeads(p, lx, w, id, saved);
  }

  lemma PublicLeads(p: Policy, lx: Lexer, w: World, id: nat, saved: bool)
    requires id in w.handlers
    ensures var ip := w.handlers[id].ip;
      if Blocked(w.bans, ip, w.clock) then Leads(p, lx, w, id, saved, 5, OnPublic, false, w.bans)
      else if AllowedBy(w.nets, ip) then
        Leads(p, lx, w, id, saved, 5, OnPublic, true, Reported(p, lx, w.bans, ip, Good, w.clock, saved))
      else if ip != [] && IsAgent(w, ip) then Leads(p, lx, w, id, saved, 5, OnPublic, false, w.bans)
      else Leads(p, lx, w, id, saved, 5, OnPublic, false, Reported(p, lx, w.bans, ip, Bad(Miss), w.clock, saved))
  {
    var ip := w.handlers[id].ip;
    QuietPcs();
    ReadsAre(w, ip);
    hide *;
    var as_is, miss := w.bans, Reported(p, lx, w.bans, ip, Bad(Miss), w.clock, saved);
    if Blocked(w.bans, ip, w.clock) {
      DoneLeads(p, lx, w, id, saved, 4, false);
      QuietLeads(p, lx, w, id, saved, 5, OnPublic, false, as_is);
    } else if AllowedBy(w.nets, ip) {
      var good := Reported(p, lx, w.bans, ip, Good, w.clock, saved);
      ReportLeads(p, lx, w, id, saved, 3, Good);
      QuietLeads(p, lx, w, id, saved, 4, OnList, true, good);
      QuietLeads(p, lx, w, id, saved, 5, OnPublic, true, good);
    } else if ip != [] && IsAgent(w, ip) {
      DoneLeads(p, lx, w, id, saved, 1, false);
      MissLeads(p, lx, w, id, saved, as_is);
    } else {
      ReportLeads(p, lx, w, id, saved, 1, Bad(Miss));
      MissLeads(p, lx, w, id, saved, miss);
    }
  }

  lemma MissLeads(p: Policy, lx: Lexer, w: World, id: nat, saved: bool, s: Store)
    requires id in w.handlers && !Blocked(w.bans, w.handlers[id].ip, w.clock) && !AllowedBy(w.nets, w.handlers[id].ip)
    requires Leads(p, lx, w, id, saved, 1, Reads(w, w.handlers[id].ip, CheckAgent(Miss)), false, s)
    ensures Leads(p, lx, w, id, saved, 5, OnPublic, false, s)
  {
    QuietPcs();
    ReadsAre(w, w.handlers[id].ip);
    hide *;
    QuietLeads(p, lx, w, id, saved, 2, CheckAgent(Miss), false, s);
    QuietLeads(p, lx, w, id, saved, 3, CheckList(Miss), false, s);
    QuietLeads(p, lx, w, id, saved, 4, OnList, false, s);
    QuietLeads(p, lx, w, id, saved, 5, OnPublic, false, s);
  }

  lemma PublicCases(p: Policy, lx: Lexer, w: World, ip: IP, saved: bool)
    requires !AllowedBy(w.nets, [])
    ensures var s := After(p, lx, w.bans, Gate.PublicReport(w.bans, w.nets, w.agent, ip, w.clock, w.clock), saved);
      s == if Blocked(w.bans, ip, w.clock) then w.bans
           else if AllowedBy(w.nets, ip) then Reported(p, lx, w.bans, ip, Good, w.clock, saved)
           else if ip != [] && IsAgent(w, ip) then w.bans
           else Reported(p, lx, w.bans, ip, Bad(Miss), w.clock, saved)
  {
    hide Blocked, AllowedBy, Equal, Apply;
  }

  lemma FaultCases(p: Policy, lx: Lexer, w: World, ip: IP, saved: bool)
    requires !AllowedBy(w.nets, [])
    ensures var excused := Pardoned(w.bans, ip) || AllowedBy(w.nets, ip) || (ip != [] && IsAgent(w, ip));
      && After(p, lx, w.bans, Gate.FaultReport(w.bans, w.nets, w.agent, ip, w.clock, Handshake.NotTunnelClient), saved)
         == (if excused then w.bans else Reported(p, lx, w.bans, ip, Bad(Probe), w.clock, saved))
      && After(p, lx, w.bans, Gate.FaultReport(w.bans, w.nets, w.agent, ip, w.clock, Handshake.Unauthorized), saved)
         == (if excused then w.bans else Reported(p, lx, w.bans, ip, Bad(BadToken), w.clock, saved))
  {
    hide Pardoned, AllowedBy, Equal, Apply;
  }

  lemma NilNotListed(nets: seq<IPNet>)
    ensures !AllowedBy(nets, [])
  {}

  lemma EndedAgent(w: World, id: nat)
    requires id in w.handlers
    ensures forall ok, s :: Ended(w, id, ok, s).(agent := w.agent) == Ended(w, id, ok, s)
  {}

  /** What the peer of a tunnel connection turned out to be. */
  function Peer(r: Handshake.Result<Wire.Bytes>): (Option<Fault>, bool) {
    if r.Ok? then (None, false)
    else match r.error
      case NotTunnelClient => (Some(Probe), false)
      case Unauthorized => (Some(BadToken), false)
      case _ => (None, true)
  }

  /** A tunnel connection: up to the handshake, and from its outcome on. */
  lemma TunnelIsGate(p: Policy, lx: Lexer, w: World, id: nat, saved: bool, r: Handshake.Result<Wire.Bytes>)
    requires id in w.handlers
    ensures var ip := w.handlers[id].ip;
      var waiting := Settle(p, lx, Move(w, id, OnTunnel), id, saved, 1);
      if Blocked(w.bans, ip, w.clock) then waiting == Move(w, id, Done(false))
      else
        && waiting == Move(w, id, Shaking)
        && Enabled(waiting, ShakeHands(id, Peer(r).0, Peer(r).1))
        && Settle(p, lx, NextWorld(p, lx, waiting, ShakeHands(id, Peer(r).0, Peer(r).1)), id, saved, 4)
           == Ended(w, id, r.Ok?, After(p, lx, w.bans, Gate.TunnelReport(w.bans, w.nets, w.agent, ip, w.clock, w.clock, r), saved))
                .(agent := if r.Ok? && ip != [] then Some(ip) else w.agent)
  {
    var ip := w.handlers[id].ip;
    hide Blocked, Pardoned, AllowedBy, Equal, Apply;
    QuietStep(p, lx, w, id, OnTunnel, saved, 1);
    ShookHands(p, lx, w, id, r);
    hide Settle, Move, NextWorld, Enabled;
    EndedAsIs(w, id, false);
    EndedAgent(w, id);
    if !Blocked(w.bans, ip, w.clock) {
      if r.Ok? {
        WelcomeStep(p, lx, w, id, saved, 4);
      } else {
        NilNotListed(w.nets);
        match r.error
        case NotTunnelClient => ProbeSettles(p, lx, w, id, saved);
        case Unauthorized => TokenSettles(p, lx, w, id, saved);
        case _ => DoneStays(p, lx, w, id, false, saved, 4);
      }
    }
  }

  lemma ShookHands(p: Policy, lx: Lexer, w: World, id: nat, r: Handshake.Result<Wire.Bytes>)
    requires id in w.handlers
    ensures forall saved :: Settle(p, lx, Move(w, id, Shaking), id, saved, 0) == Move(w, id, Shaking)
    ensures forall saved :: Settle(p, lx, Move(w, id, Done(false)), id, saved, 0) == Move(w, id, Done(false))
    ensures var s := ShakeHands(id, Peer(r).0, Peer(r).1);
      && Enabled(Move(w, id, Shaking), s)
      && NextWorld(p, lx, Move(w, id, Shaking), s) == Move(w, id,
           if r.Ok? then Report(Welcome)
           else match r.error
             case NotTunnelClient => CheckPardon(Probe)
             case Unauthorized => CheckList(BadToken)
             case _ => Done(false))
  {
    forall a, b ensures Move(Move(w, id, a), id, b) == Move(w, id, b) {
      assert Move(Move(w, id, a), id, b).handlers == Move(w, id, b).handlers;
    }
  }

  lemma ProbeSettles(p: Policy, lx: Lexer, w: World, id: nat, saved: bool)
    requires id in w.handlers && !AllowedBy(w.nets, [])
    ensures var ip := w.handlers[id].ip;
      Settle(p, lx, Move(w, id, CheckPardon(Probe)), id, saved, 4)
        == Ended(w, id, false, After(p, lx, w.bans,
             Gate.FaultReport(w.bans, w.nets, w.agent, ip, w.clock, Handshake.NotTunnelClient), saved))
  {
    var ip := w.handlers[id].ip;
    FaultCases(p, lx, w, ip, saved);
    hide Settle, Move, Ended, Pardoned, AllowedBy, IsAgent, After, Gate.FaultReport, Reported;
    ProbeLeads(p, lx, w, id, saved);
  }

  predicate Excused(w: World, ip: IP) {
    Pardoned(w.bans, ip) || AllowedBy(w.nets, ip) || (ip != [] && IsAgent(w, ip))
  }

  lemma ProbeLeads(p: Policy, lx: Lexer, w: World, id: nat, saved: bool)
    requires id in w.handlers
    ensures var ip := w.handlers[id].ip;
      Leads(p, lx, w, id, saved, 4, CheckPardon(Probe), false,
            if Excused(w, ip) then w.bans else Reported(p, lx, w.bans, ip, Bad(Probe), w.clock, saved))
  {
    var ip := w.handlers[id].ip;
    QuietPcs();
    ReadsAre(w, ip);
    var s := if Excused(w, ip) then w.bans else Reported(p, lx, w.bans, ip, Bad(Probe), w.clock, saved);
    assert Excused(w, ip) <==> Pardoned(w.bans, ip) || AllowedBy(w.nets, ip) || (ip != [] && IsAgent(w, ip));
    hide *;
    if Pardoned(w.bans, ip) {
      DoneLeads(p, lx, w, id, saved, 3, false);
    } else {
      if AllowedBy(w.nets, ip) {
        DoneLeads(p, lx, w, id, saved, 2, false);
      } else {
        if ip != [] && IsAgent(w, ip) {
          DoneLeads(p, lx, w, id, saved, 1, false);
        } else {
          ReportLeads(p, lx, w, id, saved, 1, Bad(Probe));
        }
        QuietLeads(p, lx, w, id, saved, 2, CheckAgent(Probe), false, s);
      }
      QuietLeads(p, lx, w, id, saved, 3, CheckList(Probe), false, s);
    }
    QuietLeads(p, lx, w, id, saved, 4, CheckPardon(Probe), false, s);
  }

  lemma TokenSettles(p: Policy, lx: Lexer, w: World, id: nat, saved: bool)
    requires id in w.handlers && !AllowedBy(w.nets, [])
    ensures var ip := w.handlers[id].ip;
      Settle(p, lx, Move(w, id, CheckList(BadToken)), id, saved, 4)
        == Ended(w, id, false, After(p, lx, w.bans,
             Gate.FaultReport(w.bans, w.nets, w.agent, ip, w.clock, Handshake.Unauthorized), saved))
  {
    var ip := w.handlers[id].ip;
    FaultCases(p, lx, w, ip, saved);
    hide Settle, Move, Ended, Pardoned, AllowedBy, IsAgent, After, Gate.FaultReport, Reported;
    TokenLeads(p, lx, w, id, saved);
  }

  lemma TokenLeads(p: Policy, lx: Lexer, w: World, id: nat, saved: bool)
    requires id in w.handlers
    ensures var ip := w.handlers[id].ip;
      Leads(p, lx, w, id, saved, 4, CheckList(BadToken), false,
            if Excused(w, ip) then w.bans else Reported(p, lx, w.bans, ip, Bad(BadToken), w.clock, saved))
  {
    var ip := w.handlers[id].ip;
    QuietPcs();
    ReadsAre(w, ip);
    var s := if Excused(w, ip) then w.bans else Reported(p, lx, w.bans, ip, Bad(BadToken), w.clock, saved);
    assert Excused(w, ip) <==> Pardoned(w.bans, ip) || AllowedBy(w.nets, ip) || (ip != [] && IsAgent(w, ip));
    hide *;
    if AllowedBy(w.nets, ip) {
      DoneLeads(p, lx, w, id, saved, 3, false);
    } else {
      if ip != [] && IsAgent(w, ip) {
        DoneLeads(p, lx, w, id, saved, 2, false);
      } else {
        if Pardoned(w.bans, ip) {
          DoneLeads(p, lx, w, id, saved, 1, false);
        } else {
          ReportLeads(p, lx, w, id, saved, 1, Bad(BadToken));
        }
        QuietLeads(p, lx, w, id, saved, 2, CheckPardon(BadToken), false, s);
      }
      QuietLeads(p, lx, w, id, saved, 3, CheckAgent(BadToken), false, s);
    }
    QuietLeads(p, lx, w, id, saved, 4, CheckList(BadToken), false, s);
  }
}
