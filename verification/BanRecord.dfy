/** The ban record of one address: a timed automaton of strikes, bans and pardons. */
module BanRecord {
  import opened Options
  import opened Address

  /** `limit` consecutive invalid events issue a ban; a first ban lasts `ttl`. */
  datatype Policy = Policy(limit: nat, ttl: nat) {
    predicate Valid() { limit >= 1 }
  }

  const INVALID_LIMIT: nat := 5
  const TEMP_DURATION: nat := 6 * 3600 * 1_000_000_000
  const DEFAULT_POLICY := Policy(INVALID_LIMIT, TEMP_DURATION)

  datatype Record = Record(consecutive: nat, reason: string, bans: nat, until: Option<int>, permanent: bool)

  const NEW_RECORD := Record(0, "", 0, None, false)

  /** All that the store knows about one address. */
  datatype Status = Status(record: Option<Record>, pardoned: bool)

  const UNKNOWN := Status(None, false)

  predicate Banned(r: Record, now: int) {
    r.permanent || (r.until.Some? && now < r.until.value)
  }

  predicate BlockedAt(s: Status, now: int) {
    s.record.Some? && Banned(s.record.value, now)
  }

  /** An invalid event on a record that is not banned. */
  function Strike(p: Policy, was: Record, reason: string, now: int): Record {
    var r0 := if was.until.Some? then was.(until := None, consecutive := 0, reason := "") else was;
    var r1 := if r0.reason != reason then r0.(reason := reason, consecutive := 0) else r0;
    var r := r1.(consecutive := r1.consecutive + 1);
    if r.consecutive < p.limit then r
    else if r.bans + 1 >= 2 then r.(consecutive := 0, bans := r.bans + 1, permanent := true, until := None)
    else r.(consecutive := 0, bans := r.bans + 1, until := Some(now + p.ttl))
  }

  function RecordOf(s: Status): Record {
    if s.record.Some? then s.record.value else NEW_RECORD
  }

  datatype Event =
    | Invalid(reason: string, now: int)
    | Forever
    | Fine
    | Pardon

  function Next(p: Policy, s: Status, e: Event): Status {
    match e
    case Invalid(reason, now) =>
      if s.pardoned || BlockedAt(s, now) then s
      else s.(record := Some(Strike(p, RecordOf(s), reason, now)))
    case Forever =>
      if s.pardoned || (s.record.Some? && s.record.value.permanent) then s
      else
        var r := RecordOf(s);
        s.(record := Some(Record(0, "", if r.bans < 2 then 2 else r.bans, None, true)))
    case Fine =>
      if s.record.None? then s else s.(record := Some(s.record.value.(consecutive := 0)))
    case Pardon =>
      if s.record.None? then s else Status(None, true)
  }

  function After(p: Policy, h: seq<Event>): Status {
    if h == [] then UNKNOWN else Next(p, After(p, h[..|h| - 1]), h[|h| - 1])
  }

  predicate WellFormed(p: Policy, r: Record) {
    && (r.permanent <==> r.bans == 2)
    && r.bans <= 2
    && (r.until.Some? ==> r.bans == 1)
    && r.consecutive < p.limit
    && (r.until.Some? || r.permanent ==> r.consecutive == 0)
  }

  predicate Shape(p: Policy, s: Status) {
    && (s.record.Some? ==> WellFormed(p, s.record.value))
    && (s.pardoned ==> s.record.None?)
  }

  /** Whatever happens to an address of good shape leaves it in good shape. */
  lemma ShapeKept(p: Policy, s: Status, e: Event)
    requires p.Valid() && Shape(p, s)
    ensures Shape(p, Next(p, s, e))
    ensures s.pardoned ==> Next(p, s, e) == s
  {
    if e.Invalid? && !s.pardoned && !BlockedAt(s, e.now) {
      assert WellFormed(p, Strike(p, RecordOf(s), e.reason, e.now));
    }
  }

  /** Only a strike that completes a streak and a permanent ban can block an address anew. */
  lemma NewlyBlocked(p: Policy, s: Status, e: Event, t: int)
    requires !BlockedAt(s, t) && BlockedAt(Next(p, s, e), t)
    ensures e.Forever? || (e.Invalid? && RecordOf(Next(p, s, e)).bans == RecordOf(s).bans + 1)
    ensures !s.pardoned
  {}

  lemma {:induction false} ShapeAfter(p: Policy, h: seq<Event>)
    requires p.Valid()
    ensures Shape(p, After(p, h))
  {
    if h != [] {
      ShapeAfter(p, h[..|h| - 1]);
      ShapeKept(p, After(p, h[..|h| - 1]), h[|h| - 1]);
    }
  }
}
