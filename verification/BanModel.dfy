/** The ban store as a value: records and pardons by address key, and the copy on disk. */
module BanModel {
  import opened Options
  import opened Address
  import opened AddressBits
  import opened Allowlist
  import opened BanRecord

  datatype Disk = Disk(records: map<IP, Record>, pardoned: set<IP>)

  datatype Store = Store(byIP: map<IP, Record>, pardoned: set<IP>, disk: Disk)

  const EMPTY := Store(map[], {}, Disk(map[], {}))

  function StatusOf(s: Store, k: IP): Status {
    Status(if k in s.byIP then Some(s.byIP[k]) else None, k in s.pardoned)
  }

  /** What a reload would find out about `k`. */
  function DiskStatus(s: Store, k: IP): Status {
    Status(if k in s.disk.records then Some(s.disk.records[k]) else None, k in s.disk.pardoned)
  }

  predicate Blocked(s: Store, ip: IP, now: int) {
    Key(ip).Some? && BlockedAt(StatusOf(s, Key(ip).value), now)
  }

  predicate Pardoned(s: Store, ip: IP) {
    Key(ip).Some? && Key(ip).value in s.pardoned
  }

  /** A record that says nothing is not written. */
  predicate Blank(r: Record) {
    r.bans == 0 && r.consecutive == 0 && r.until.None? && !r.permanent
  }

  function Written(byIP: map<IP, Record>, pardoned: set<IP>): Disk {
    Disk(map k | k in byIP && !Blank(byIP[k]) :: byIP[k], pardoned)
  }

  /** persistLocked; `saved` is false without a path and when writing fails. */
  function Persist(s: Store, saved: bool): Store {
    if saved then s.(disk := Written(s.byIP, s.pardoned)) else s
  }

  /** One entry of UnbanCIDRs, which skips what it cannot parse. */
  function ToNet(lx: Lexer, c: string): Option<IPNet> {
    if lx.cidr(c).Some? then lx.cidr(c)
    else if lx.ip(c).None? then None
    else if To4(lx.ip(c).value).Some? then Some(IPNet(To4(lx.ip(c).value).value, CIDRMask(32, 4)))
    else Some(IPNet(lx.ip(c).value, CIDRMask(128, 16)))
  }

  predicate Listed(lx: Lexer, cidrs: seq<string>, k: IP) {
    exists c :: c in cidrs && ToNet(lx, c).Some? && Contains(ToNet(lx, c).value, k)
  }

  datatype Op =
    | ObserveInvalid(ip: IP, reason: string, now: int)
    | BanPermanent(ip: IP)
    | ObserveValid(ip: IP)
    | Unban(ip: IP)
    | UnbanCIDRs(cidrs: seq<string>)
    | Reload

  /** The event that an operation is for the address with key `k`, if it is one. */
  function EventFor(lx: Lexer, op: Op, k: IP): Option<Event> {
    match op
    case ObserveInvalid(ip, reason, now) => if Key(ip) == Some(k) then Some(Event.Invalid(reason, now)) else None
    case BanPermanent(ip) => if Key(ip) == Some(k) then Some(Forever) else None
    case ObserveValid(ip) => if Key(ip) == Some(k) then Some(Fine) else None
    case Unban(ip) => if Key(ip) == Some(k) then Some(Pardon) else None
    case UnbanCIDRs(cidrs) => if Listed(lx, cidrs, k) then Some(Pardon) else None
    case Reload => None
  }

  function Put(s: Store, k: IP, r: Record): Store {
    s.(byIP := s.byIP[k := r])
  }

  function Forgive(s: Store, keys: set<IP>): Store {
    s.(byIP := s.byIP - keys, pardoned := s.pardoned + keys)
  }

  function Invalid(p: Policy, s: Store, k: IP, reason: string, now: int, saved: bool): Store {
    var st := StatusOf(s, k);
    if st.pardoned || BlockedAt(st, now) then s
    else
      var r := Strike(p, RecordOf(st), reason, now);
      Persist(Put(s, k, r), saved && r.bans > RecordOf(st).bans)
  }

  function Permanent(s: Store, k: IP, saved: bool): Store {
    var st := StatusOf(s, k);
    if st.pardoned || RecordOf(st).permanent then s
    else Persist(Put(s, k, Record(0, "", if RecordOf(st).bans < 2 then 2 else RecordOf(st).bans, None, true)), saved)
  }

  function Valid(s: Store, k: IP): Store {
    if k in s.byIP then Put(s, k, s.byIP[k].(consecutive := 0)) else s
  }

  function Forgiven(lx: Lexer, s: Store, cidrs: seq<string>): set<IP> {
    set k | k in s.byIP && Listed(lx, cidrs, k)
  }

  function Apply(p: Policy, lx: Lexer, s: Store, op: Op, saved: bool): Store {
    match op
    case ObserveInvalid(ip, reason, now) => if Key(ip).None? then s else Invalid(p, s, Key(ip).value, reason, now, saved)
    case BanPermanent(ip) => if Key(ip).None? then s else Permanent(s, Key(ip).value, saved)
    case ObserveValid(ip) => if Key(ip).None? then s else Valid(s, Key(ip).value)
    case Unban(ip) =>
      if Key(ip).None? || Key(ip).value !in s.byIP then s else Persist(Forgive(s, {Key(ip).value}), saved)
    case UnbanCIDRs(cidrs) =>
      if Forgiven(lx, s, cidrs) == {} then s else Persist(Forgive(s, Forgiven(lx, s, cidrs)), saved)
    case Reload => Store(s.disk.records, s.disk.pardoned, s.disk)
  }

  /** The hooks are called: the blocked set may have grown. */
  predicate Notifies(p: Policy, s: Store, op: Op) {
    match op
    case ObserveInvalid(ip, reason, now) =>
      && Key(ip).Some?
      && var st := StatusOf(s, Key(ip).value);
         !st.pardoned && !BlockedAt(st, now) && Strike(p, RecordOf(st), reason, now).bans > RecordOf(st).bans
    case BanPermanent(ip) =>
      Key(ip).Some? && var st := StatusOf(s, Key(ip).value); !st.pardoned && !RecordOf(st).permanent
    case _ => false
  }

  /** Each address lives through its own events, whatever happens to the others. */
  lemma StoreIsPerKey(p: Policy, lx: Lexer, s: Store, op: Op, saved: bool, k: IP)
    requires !op.Reload?
    ensures StatusOf(Apply(p, lx, s, op, saved), k)
         == if EventFor(lx, op, k).None? then StatusOf(s, k)
            else Next(p, StatusOf(s, k), EventFor(lx, op, k).value)
  {
    hide Strike, Listed, Key;
  }

  /** Two copies of what is known about an address answer alike from `t` on. */
  predicate Agree(m: Status, d: Status, t: int) {
    && m.pardoned == d.pardoned
    && RecordOf(m).bans == RecordOf(d).bans
    && RecordOf(m).permanent == RecordOf(d).permanent
    && (RecordOf(m).until == RecordOf(d).until
        || (RecordOf(m).until.None? && RecordOf(d).until.Some? && RecordOf(d).until.value <= t))
  }

  lemma AgreeBlocked(m: Status, d: Status, t: int, now: int)
    requires Agree(m, d, t) && now >= t
    ensures BlockedAt(m, now) == BlockedAt(d, now)
  {}

  lemma PersistAgrees(s: Store, k: IP, t: int)
    ensures Agree(StatusOf(Persist(s, true), k), DiskStatus(Persist(s, true), k), t)
    ensures StatusOf(Persist(s, true), k) == StatusOf(s, k)
  {}

  /** The operation wrote the disk, or changed neither the pardons nor the bans nor a live deadline. */
  lemma SavedOrSame(p: Policy, lx: Lexer, s: Store, op: Op, k: IP, t: int)
    requires !op.Reload? && (op.ObserveInvalid? ==> op.now <= t)
    ensures var s' := Apply(p, lx, s, op, true);
      || s'.disk == Written(s'.byIP, s'.pardoned)
      || (s'.disk == s.disk && Agree(StatusOf(s', k), StatusOf(s, k), t)
          && (RecordOf(StatusOf(s, k)).until == RecordOf(StatusOf(s', k)).until || RecordOf(StatusOf(s', k)).until.None?))
  {
  }

  /** Unbanning by a bare address is about exactly the addresses equal to it, in either notation. */
  lemma BareListed(lx: Lexer, c: string, own: IP, k: IP)
    requires lx.cidr(c) == None && lx.ip(c) == Some(own) && |own| == 16 && |k| in {4, 16}
    ensures Listed(lx, [c], k) <==> Equal(k, own)
  {
    assert ToNet(lx, c) == Some(IPNet(Normalize(own), CIDRMask(8 * |Normalize(own)|, |Normalize(own)|)));
    SingleContains(Normalize(own), k);
    NormalizeEqual(k, own);
    ListedOne(lx, c, k);
    hide Listed, Contains, CIDRMask, Normalize, Equal, ToNet;
  }

  /** By a CIDR, exactly those that agree with it in as many bits as its mask has ones. */
  lemma CidrListed(lx: Lexer, c: string, n: IPNet, k: IP)
    requires lx.cidr(c) == Some(n) && Regular(n)
    ensures Listed(lx, [c], k) <==> InPrefix(Normalize(n.ip), PrefixOnes(n), Normalize(k))
  {
    ContainsIff(n, k);
    ListedOne(lx, c, k);
    hide Listed, Contains, InPrefix, Normalize, PrefixOnes;
  }

  /** And by anything else, about nobody. */
  lemma NothingListed(lx: Lexer, c: string, k: IP)
    requires lx.cidr(c) == None && lx.ip(c) == None
    ensures !Listed(lx, [c], k)
  {
    ListedOne(lx, c, k);
    hide Listed;
  }

  lemma ListedOne(lx: Lexer, c: string, k: IP)
    ensures Listed(lx, [c], k) <==> ToNet(lx, c).Some? && Contains(ToNet(lx, c).value, k)
  {
    assert c in [c];
    hide ToNet, Contains;
  }

  lemma ListedSome(lx: Lexer, cidrs: seq<string>, k: IP)
    ensures Listed(lx, cidrs, k) <==> exists c :: c in cidrs && Listed(lx, [c], k)
  {
    hide ToNet, Contains;
    if c :| c in cidrs && Listed(lx, [c], k) {
      ListedOne(lx, c, k);
    }
    if Listed(lx, cidrs, k) {
      var c :| c in cidrs && ToNet(lx, c).Some? && Contains(ToNet(lx, c).value, k);
      ListedOne(lx, c, k);
    }
  }

  /** A list of them is about whomever one of them is about; the recorded ones lose their record and are pardoned. */
  lemma UnbannedAre(p: Policy, lx: Lexer, s: Store, cidrs: seq<string>, saved: bool, k: IP)
    ensures var s' := Apply(p, lx, s, UnbanCIDRs(cidrs), saved);
      && (k in s'.byIP <==> k in s.byIP && !exists c :: c in cidrs && Listed(lx, [c], k))
      && (k in s'.pardoned <==> k in s.pardoned || (k in s.byIP && exists c :: c in cidrs && Listed(lx, [c], k)))
      && (k in s'.byIP ==> s'.byIP[k] == s.byIP[k])
  {
    ListedSome(lx, cidrs, k);
    assert k in Forgiven(lx, s, cidrs) <==> k in s.byIP && Listed(lx, cidrs, k);
    hide Listed, Forgiven;
  }
}
