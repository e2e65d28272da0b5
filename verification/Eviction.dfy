/**
  Accepting connections while the allowlist and the bans change: every interleaving of connection
  handlers (track, read the bans, read the list, relay) with changes (swap or ban, then for each
  registry snapshot, re-check each connection, close). The bans and the list are read separately.

  A UDP association is such a connection, and its hub a registry, but it is registered the other way
  round: the sender of a datagram is checked first, and entered only when it has passed.
 */
module Eviction {
  import opened Options
  import opened Address
  import opened Allowlist
  import BanRecord
  import Bans = BanModel

  /** Tracked in its registry, found not banned, found listed and relaying, or turned away. */
  datatype ConnPc = Tracked | Unbanned | Relaying | Turned

  /** The check of a datagram's sender. */
  datatype Check = Check(ip: IP, pc: ConnPc)

  datatype Conn = Conn(ip: IP, reg: nat, pc: ConnPc, tracked: bool, open: bool)

  /** One registry being re-checked: what is left to check, what was found unbanned and is looked up next. */
  datatype Scan = Scan(reg: nat, todo: set<nat>, reading: Option<nat>, closing: set<nat>, locked: bool)

  /** A change that has been made and now evicts: the registries it has not visited, the one it is in. */
  datatype Change = Change(left: set<nat>, scan: Option<Scan>)

  datatype World = World(
    nets: seq<IPNet>, bans: Bans.Store, clock: int,
    conns: map<nat, Conn>, checks: map<nat, Check>, changes: map<nat, Change>)

  datatype Setup = Setup(regs: set<nat>, policy: BanRecord.Policy, lx: Lexer)

  datatype Step =
    | Accept(c: nat, ip: IP, reg: nat)
    | ReadBan(c: nat)
    | ReadList(c: nat)
    | Close(c: nat)
    | Untrack(c: nat)
    | BeginCheck(k: nat, ip: IP)
    | CheckBan(k: nat)
    | CheckList(k: nat)
    | Insert(k: nat, c: nat, reg: nat)
    | CloseAll(reg: nat)
    | SwapList(o: nat, nets: seq<IPNet>, saved: bool)
    | BanOp(o: nat, op: Bans.Op, saved: bool)
    | Tick(now: int)
    | StartScan(o: nat, reg: nat)
    | ScanBan(o: nat, c: nat)
    | ScanList(o: nat)
    | Unlock(o: nat)
    | CloseOne(o: nat, c: nat)
    | EndScan(o: nat)
    | Return(o: nat)

  predicate LockFree(w: World, reg: nat) {
    forall o :: o in w.changes && w.changes[o].scan.Some? && w.changes[o].scan.value.locked ==>
      w.changes[o].scan.value.reg != reg
  }

  predicate Scanning(w: World, o: nat) {
    o in w.changes && w.changes[o].scan.Some?
  }

  predicate Enabled(u: Setup, w: World, s: Step) {
    match s
    case Accept(c, ip, reg) => c !in w.conns && reg in u.regs && LockFree(w, reg)
    case ReadBan(c) => c in w.conns && w.conns[c].pc == Tracked
    case ReadList(c) => c in w.conns && w.conns[c].pc == Unbanned
    case Close(c) => c in w.conns
    case Untrack(c) => c in w.conns && !w.conns[c].open && LockFree(w, w.conns[c].reg)
    case BeginCheck(k, _) => k !in w.checks
    case CheckBan(k) => k in w.checks && w.checks[k].pc == Tracked
    case CheckList(k) => k in w.checks && w.checks[k].pc == Unbanned
    case Insert(k, c, reg) =>
      k in w.checks && w.checks[k].pc == Relaying && c !in w.conns && reg in u.regs && LockFree(w, reg)
    case CloseAll(reg) => LockFree(w, reg)
    case SwapList(o, _, _) => o !in w.changes
    case BanOp(o, op, _) => o !in w.changes && !op.Reload? && (op.ObserveInvalid? ==> op.now == w.clock)
    case Tick(now) => now >= w.clock
    case StartScan(o, reg) => o in w.changes && w.changes[o].scan.None? && reg in w.changes[o].left && LockFree(w, reg)
    case ScanBan(o, c) =>
      Scanning(w, o) && w.changes[o].scan.value.locked && w.changes[o].scan.value.reading.None? &&
      c in w.changes[o].scan.value.todo && c in w.conns
    case ScanList(o) =>
      Scanning(w, o) && w.changes[o].scan.value.reading.Some? && w.changes[o].scan.value.reading.value in w.conns
    case Unlock(o) =>
      Scanning(w, o) && w.changes[o].scan.value.locked && w.changes[o].scan.value.todo == {} &&
      w.changes[o].scan.value.reading.None?
    case CloseOne(o, c) =>
      Scanning(w, o) && !w.changes[o].scan.value.locked && c in w.changes[o].scan.value.closing && c in w.conns
    case EndScan(o) => Scanning(w, o) && !w.changes[o].scan.value.locked && w.changes[o].scan.value.closing == {}
    case Return(o) => o in w.changes && w.changes[o].left == {} && w.changes[o].scan.None?
  }

  /** isAllowed, if both of its reads happened now. */
  predicate Allowed(w: World, ip: IP) {
    !Bans.Blocked(w.bans, ip, w.clock) && AllowedBy(w.nets, ip)
  }

  function AfterBan(w: World, ip: IP): ConnPc {
    if Bans.Blocked(w.bans, ip, w.clock) then Turned else Unbanned
  }

  function AfterList(w: World, ip: IP): ConnPc {
    if AllowedBy(w.nets, ip) then Relaying else Turned
  }

  function SetConn(w: World, c: nat, conn: Conn): World {
    w.(conns := w.conns[c := conn])
  }

  function SetScan(w: World, o: nat, scan: Option<Scan>): World
    requires o in w.changes
  {
    w.(changes := w.changes[o := w.changes[o].(scan := scan)])
  }

  function Announce(u: Setup, w: World, o: nat): World {
    w.(changes := w.changes[o := Change(u.regs, None)])
  }

  function Registered(w: World, reg: nat): set<nat> {
    set c | c in w.conns && w.conns[c].tracked && w.conns[c].reg == reg
  }

  predicate StoreStep(s: Step) {
    s.SwapList? || s.BanOp? || s.Tick?
  }

  predicate ChangeStep(s: Step) {
    s.StartScan? || s.ScanBan? || s.ScanList? || s.Unlock? || s.CloseOne? || s.EndScan? || s.Return?
  }

  /** The other steps, those of connections and of senders of datagrams. */
  function ConnNext(u: Setup, w: World, s: Step): World
    requires Enabled(u, w, s)
  {
    match s
    case Accept(c, ip, reg) => SetConn(w, c, Conn(ip, reg, Tracked, true, true))
    case ReadBan(c) => SetConn(w, c, w.conns[c].(pc := AfterBan(w, w.conns[c].ip)))
    case ReadList(c) => SetConn(w, c, w.conns[c].(pc := AfterList(w, w.conns[c].ip)))
    case Close(c) => SetConn(w, c, w.conns[c].(open := false))
    case Untrack(c) => SetConn(w, c, w.conns[c].(tracked := false))
    case BeginCheck(k, ip) => w.(checks := w.checks[k := Check(ip, Tracked)])
    case CheckBan(k) => w.(checks := w.checks[k := w.checks[k].(pc := AfterBan(w, w.checks[k].ip))])
    case CheckList(k) => w.(checks := w.checks[k := w.checks[k].(pc := AfterList(w, w.checks[k].ip))])
    case Insert(k, c, reg) => SetConn(w.(checks := w.checks - {k}), c, Conn(w.checks[k].ip, reg, Relaying, true, true))
    case CloseAll(reg) =>
      w.(conns := map c | c in w.conns ::
           if c in Registered(w, reg) then w.conns[c].(open := false, tracked := false) else w.conns[c])
    case _ => w
  }

  function StoreNext(u: Setup, w: World, s: Step): World
    requires Enabled(u, w, s)
  {
    match s
    case SwapList(o, nets, saved) => if saved then Announce(u, w.(nets := nets), o) else w.(nets := nets)
    case BanOp(o, op, saved) =>
      var w1 := w.(bans := Bans.Apply(u.policy, u.lx, w.bans, op, saved));
      if Bans.Notifies(u.policy, w.bans, op) then Announce(u, w1, o) else w1
    case Tick(now) => w.(clock := now)
    case _ => w
  }

  function ChangeNext(u: Setup, w: World, s: Step): World
    requires Enabled(u, w, s)
  {
    match s
    case StartScan(o, reg) =>
      w.(changes := w.changes[o := Change(w.changes[o].left - {reg}, Some(Scan(reg, Registered(w, reg), None, {}, true)))])
    case ScanBan(o, c) =>
      var v := w.changes[o].scan.value;
      SetScan(w, o, Some(
        if w.conns[c].ip == [] || Bans.Blocked(w.bans, w.conns[c].ip, w.clock)
        then v.(todo := v.todo - {c}, closing := v.closing + {c})
        else v.(todo := v.todo - {c}, reading := Some(c))))
    case ScanList(o) =>
      var v := w.changes[o].scan.value;
      var c := v.reading.value;
      SetScan(w, o, Some(
        if AllowedBy(w.nets, w.conns[c].ip) then v.(reading := None)
        else v.(reading := None, closing := v.closing + {c})))
    case Unlock(o) => SetScan(w, o, Some(w.changes[o].scan.value.(locked := false)))
    case CloseOne(o, c) =>
      var v := w.changes[o].scan.value;
      SetConn(SetScan(w, o, Some(v.(closing := v.closing - {c}))), c, w.conns[c].(open := false))
    case EndScan(o) => SetScan(w, o, None)
    case Return(o) => w.(changes := w.changes - {o})
    case _ => w
  }

  function Next(u: Setup, w: World, s: Step): World
    requires Enabled(u, w, s)
  {
    if ChangeStep(s) then ChangeNext(u, w, s)
    else if StoreStep(s) then StoreNext(u, w, s)
    else ConnNext(u, w, s)
  }

  const START := World([], Bans.EMPTY, 0, map[], map[], map[])

  ghost function After(u: Setup, run: seq<Step>): Option<World>
    decreases |run|
  {
    if run == [] then Some(START)
    else
      var before := After(u, run[..|run| - 1]);
      var s := run[|run| - 1];
      if before.Some? && Enabled(u, before.value, s) then Some(Next(u, before.value, s)) else None
  }

  /** The change will still read the bans for the connection, or is going to close it. */
  predicate BanAhead(ch: Change, reg: nat, c: nat) {
    reg in ch.left || (ch.scan.Some? && (c in ch.scan.value.todo || c in ch.scan.value.closing))
  }

  /** The change will still read the list for the connection, or is going to close it. */
  predicate ListAhead(ch: Change, reg: nat, c: nat) {
    BanAhead(ch, reg, c) || (ch.scan.Some? && ch.scan.value.reading == Some(c))
  }

  ghost predicate BanDue(w: World, c: nat)
    requires c in w.conns
  {
    exists o :: o in w.changes && BanAhead(w.changes[o], w.conns[c].reg, c)
  }

  ghost predicate ListDue(w: World, c: nat)
    requires c in w.conns
  {
    exists o :: o in w.changes && ListAhead(w.changes[o], w.conns[c].reg, c)
  }

  /** Some change has yet to visit the registry. */
  ghost predicate ToVisit(w: World, reg: nat) {
    exists o :: o in w.changes && reg in w.changes[o].left
  }

  /**
    The two steps that may let connection `c` slip by: it is an association that is entered although
    its client is no longer allowed, or a change that is not announced drops it from the list. Both
    are harmless if a change under way will notice.
   */
  ghost predicate HarmlessTo(w: World, s: Step, c: nat) {
    match s
    case Insert(k, a, reg) => a == c && k in w.checks ==> Allowed(w, w.checks[k].ip) || ToVisit(w, reg)
    case SwapList(_, nets, saved) =>
      !saved && c in w.conns && w.conns[c].open && w.conns[c].pc == Relaying && !AllowedBy(nets, w.conns[c].ip) ==> ListDue(w, c)
    case _ => true
  }

  ghost predicate Harmless(w: World, s: Step) {
    forall c :: HarmlessTo(w, s, c)
  }

  /** What holds of one connection: what it was once found to be, it still is, or some change will notice. */
  ghost predicate Watched(u: Setup, w: World, c: nat)
    requires c in w.conns
  {
    var conn := w.conns[c];
    && conn.reg in u.regs
    && (conn.open ==> conn.tracked)
    && (conn.open && conn.pc in {Unbanned, Relaying} && Bans.Blocked(w.bans, conn.ip, w.clock) ==> BanDue(w, c))
    && (conn.open && conn.pc == Relaying && !AllowedBy(w.nets, conn.ip) ==> ListDue(w, c))
  }

  /** A scan that has let go of its lock has nothing left to check. */
  predicate ScanDone(ch: Change) {
    ch.scan.Some? && !ch.scan.value.locked ==> ch.scan.value.todo == {} && ch.scan.value.reading.None?
  }

  ghost predicate Inv(u: Setup, w: World) {
    && (forall c :: c in w.conns ==> Watched(u, w, c))
    && (forall o :: o in w.changes ==> ScanDone(w.changes[o]))
  }
}
