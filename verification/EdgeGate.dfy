/**
  The Edge's own admission methods: one connection at a time, against the live list and ban store. The
  clock is read when the bans are checked (`now`) and again when an invalid event is reported (`later`).
 */
module EdgeGate {
  import opened Options
  import opened Address
  import opened Allowlist
  import opened BanRecord
  import opened Handshake
  import opened Streams
  import Wire
  import TunnelFrames
  import Model = BanModel
  import AclStore
  import BanStore
  import Metrics

  class Gate {
    const list: AclStore.List
    const bans: BanStore.Bans
    const reg: Metrics.Registry
    var agentIP: Option<IP>

    ghost predicate Valid()
      reads this, list
    {
      list.Valid()
    }

    constructor (list: AclStore.List, bans: BanStore.Bans, reg: Metrics.Registry)
      requires list.Valid()
      ensures Valid() && this.list == list && this.bans == bans && this.reg == reg && agentIP == None
    {
      this.list, this.bans, this.reg, agentIP := list, bans, reg, None;
    }

    /** Listed and not banned. */
    ghost predicate Allows(ip: IP, now: int)
      reads list, bans
    {
      !Model.Blocked(bans.Value(), ip, now) && AllowedBy(list.nets, ip)
    }

    ghost predicate Trusts(ip: IP)
      reads this, list
    {
      TrustedBy(list.nets, agentIP, ip)
    }

    method IsAllowed(ip: IP, now: int) returns (ok: bool)
      requires Valid()
      ensures ok == Allows(ip, now)
    {
      hide AllowedBy, AclStore.List.Valid;
      if ip == [] {
        assert !AllowedBy(list.nets, ip) by { NilIsNotAllowed(list.nets); }
        return false;
      }
      var blocked := bans.Blocked(ip, now);
      if blocked {
        return false;
      }
      ok := list.Allow(ip);
    }

    method TrustedTunnelIP(ip: IP) returns (ok: bool)
      requires Valid()
      ensures ok == Trusts(ip)
    {
      hide AllowedBy, AclStore.List.Valid;
      if ip == [] {
        return false;
      }
      var listed := list.Allow(ip);
      ok := listed || (agentIP.Some? && Equal(agentIP.value, ip));
    }

    method RememberAgent(ip: IP)
      modifies this`agentIP
      ensures agentIP == if ip == [] then old(agentIP) else Some(ip)
    {
      if ip != [] {
        agentIP := Some(ip);
      }
    }

    /** What publicAllowed reports to the ban store. */
    ghost function PublicOp(ip: IP, now: int, later: int): Option<Model.Op>
      reads this, list, bans
    {
      PublicReport(bans.Value(), list.nets, agentIP, ip, now, later)
    }

    /** What a failed tunnel handshake reports: a probe is banned, a bad token is counted. */
    ghost function FaultOp(ip: IP, later: int, err: Error): Option<Model.Op>
      reads this, list, bans
    {
      FaultReport(bans.Value(), list.nets, agentIP, ip, later, err)
    }

    /** What a tunnel connection reports: nothing if the address is blocked. */
    ghost function TunnelOp(ip: IP, now: int, later: int, r: Result<Wire.Bytes>): Option<Model.Op>
      reads this, list, bans
    {
      TunnelReport(bans.Value(), list.nets, agentIP, ip, now, later, r)
    }

    ghost function Reported(op: Option<Model.Op>, saves: bool): Model.Store
      reads bans
    {
      if op.None? then bans.Value() else Model.Apply(bans.policy, bans.lx, bans.Value(), op.value, bans.path && saves)
    }

    method PublicAllowed(ip: IP, now: int, later: int, saves: bool) returns (ok: bool)
      requires Valid()
      modifies bans, reg`denies
      ensures Valid()
      ensures ok == old(Allows(ip, now))
      ensures reg.denies == old(reg.denies) + (if ok then 0 else 1)
      ensures bans.Value() == old(Reported(PublicOp(ip, now, later), saves))
    {
      hide AllowedBy, AclStore.List.Valid, Model.Apply, Model.Blocked, Model.Notifies, Equal;
      var blocked := bans.Blocked(ip, now);
      if blocked {
        reg.IncDeny();
        return false;
      }
      var listed := list.Allow(ip);
      if listed {
        ObserveValidSaves(bans.policy, bans.lx, bans.Value(), ip, bans.path && saves);
        bans.ObserveValid(ip);
        return true;
      }
      reg.IncDeny();
      var trusted := TrustedTunnelIP(ip);
      if !trusted {
        bans.ObserveInvalid(ip, "acl", later, saves);
      }
      return false;
    }

    method NoteTunnelInvalid(ip: IP, later: int, err: Error, saves: bool)
      requires Valid()
      modifies bans, reg`denies
      ensures Valid() && reg.denies == old(reg.denies) + 1
      ensures bans.Value() == old(Reported(FaultOp(ip, later, err), saves))
    {
      hide AllowedBy, AclStore.List.Valid, Model.Apply, Model.Blocked, Model.Notifies, Equal;
      reg.IncDeny();
      if err == NotTunnelClient {
        var pardoned := bans.Pardoned(ip);
        if pardoned {
          return;
        }
        var trusted := TrustedTunnelIP(ip);
        if trusted {
          return;
        }
        bans.BanPermanent(ip, saves);
        return;
      }
      if err == Unauthorized {
        var trusted := TrustedTunnelIP(ip);
        if trusted {
          return;
        }
        var pardoned := bans.Pardoned(ip);
        if pardoned {
          return;
        }
        bans.ObserveInvalid(ip, "auth", later, saves);
      }
    }

    /** What the peer of a tunnel connection amounts to: a TLS failure, or what its first frame says. */
    static function Judged(tls: Option<string>, s: Wire.Bytes, token: Wire.Bytes, digest: Digest): Result<Wire.Bytes> {
      if tls.Some? then Err(ClassifyTLS(tls.value)) else Judge(s, token, digest)
    }

    /** A tunnel connection up to the point where its session starts. */
    method HandleAgent(conn: Stream, ip: IP, tls: Option<string>, token: Wire.Bytes, digest: Digest,
                       now: int, later: int, saves: bool)
      returns (agentID: Option<Wire.Bytes>)
      requires Valid()
      modifies this`agentIP, conn, bans, reg`denies
      ensures Valid()
      ensures var r := Judged(tls, old(conn.input), token, digest);
        && agentID == (if old(Model.Blocked(bans.Value(), ip, now)) || r.Err? then None else Some(r.value))
        && agentIP == (if agentID.Some? && ip != [] then Some(ip) else old(agentIP))
        && bans.Value() == old(Reported(TunnelOp(ip, now, later, r), saves))
        && reg.denies == old(reg.denies) + (if old(Model.Blocked(bans.Value(), ip, now)) || r.Ok? then 0 else 1)
      ensures var deaf := old(Model.Blocked(bans.Value(), ip, now)) || tls.Some?;
        && conn.output == old(conn.output) + (if deaf then [] else Verdict(old(conn.input), token, digest))
        && conn.input == if deaf then old(conn.input) else TunnelFrames.ReadFrom(old(conn.input)).1
    {
      hide AllowedBy, AclStore.List.Valid, Model.Apply, Model.Blocked, Model.Notifies, Equal, Judge, Verdict, TunnelFrames.ReadFrom;
      var blocked := bans.Blocked(ip, now);
      if blocked {
        return None;
      }
      if tls.Some? {
        NoteTunnelInvalid(ip, later, ClassifyTLS(tls.value), saves);
        return None;
      }
      var r := ServerHandshake(conn, token, digest);
      if r.Err? {
        NoteTunnelInvalid(ip, later, r.error, saves);
        return None;
      }
      ObserveValidSaves(bans.policy, bans.lx, bans.Value(), ip, bans.path && saves);
      bans.ObserveValid(ip);
      RememberAgent(ip);
      return Some(r.value);
    }
  }

  predicate TrustedBy(nets: seq<IPNet>, agent: Option<IP>, ip: IP) {
    ip != [] && (AllowedBy(nets, ip) || (agent.Some? && Equal(agent.value, ip)))
  }

  function PublicReport(bans: Model.Store, nets: seq<IPNet>, agent: Option<IP>, ip: IP, now: int, later: int): Option<Model.Op> {
    if Model.Blocked(bans, ip, now) then None
    else if AllowedBy(nets, ip) then Some(Model.ObserveValid(ip))
    else if TrustedBy(nets, agent, ip) then None
    else Some(Model.ObserveInvalid(ip, "acl", later))
  }

  function FaultReport(bans: Model.Store, nets: seq<IPNet>, agent: Option<IP>, ip: IP, later: int, err: Error): Option<Model.Op> {
    if Model.Pardoned(bans, ip) || TrustedBy(nets, agent, ip) then None
    else match err
      case NotTunnelClient => Some(Model.BanPermanent(ip))
      case Unauthorized => Some(Model.ObserveInvalid(ip, "auth", later))
      case _ => None
  }

  function TunnelReport(bans: Model.Store, nets: seq<IPNet>, agent: Option<IP>, ip: IP, now: int, later: int,
                        r: Result<Wire.Bytes>): Option<Model.Op> {
    if Model.Blocked(bans, ip, now) then None
    else if r.Ok? then Some(Model.ObserveValid(ip))
    else FaultReport(bans, nets, agent, ip, later, r.error)
  }

  predicate Mentions(msg: string, words: string) {
    |msg| >= |words| && (msg[..|words|] == words || (msg != "" && Mentions(msg[1..], words)))
  }

  /** `words` stand in `msg` behind its first `i` characters. */
  predicate StandsAt(msg: string, words: string, i: nat) {
    i + |words| <= |msg| && msg[i..i + |words|] == words
  }

  lemma {:induction false} MentionsIff(msg: string, words: string)
    ensures Mentions(msg, words) <==> exists i: nat :: StandsAt(msg, words, i)
  {
    if |msg| >= |words| {
      assert msg[0..0 + |words|] == msg[..|words|];
      if msg[..|words|] == words {
        assert StandsAt(msg, words, 0);
      } else if msg != "" {
        MentionsIff(msg[1..], words);
        if i: nat :| StandsAt(msg[1..], words, i) {
          assert msg[i + 1..i + 1 + |words|] == msg[1..][i..i + |words|];
          assert StandsAt(msg, words, i + 1);
        }
        if i: nat :| StandsAt(msg, words, i) {
          assert i > 0 && msg[1..][i - 1..i - 1 + |words|] == msg[i..i + |words|];
          assert StandsAt(msg[1..], words, i - 1);
        }
      }
    }
  }

  /** A failed TLS handshake is a probe if its message says that the peer did not speak TLS. */
  function ClassifyTLS(msg: string): (e: Error)
    ensures e != Unauthorized
  {
    if Mentions(msg, "does not look like a TLS handshake") || Mentions(msg, "unsupported SSLv2") then NotTunnelClient
    else Other
  }

  lemma ClassifyIff(msg: string)
    ensures ClassifyTLS(msg) ==
      if (exists i: nat :: StandsAt(msg, "does not look like a TLS handshake", i)) || (exists i: nat :: StandsAt(msg, "unsupported SSLv2", i))
      then NotTunnelClient else Other
  {
    MentionsIff(msg, "does not look like a TLS handshake");
    MentionsIff(msg, "unsupported SSLv2");
    hide Mentions, StandsAt;
  }

  lemma NilIsNotAllowed(nets: seq<IPNet>)
    ensures !AllowedBy(nets, [])
  {}

  lemma ObserveValidSaves(p: Policy, lx: Lexer, s: Model.Store, ip: IP, saved: bool)
    ensures Model.Apply(p, lx, s, Model.ObserveValid(ip), saved) == Model.Apply(p, lx, s, Model.ObserveValid(ip), false)
  {}
}
