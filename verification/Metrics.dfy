/** The registry of Edge counters: the session gauge and the deny counter. */
module Metrics {
  /** The gauge never shows a negative number. */
  function Clamped(gauge: int, delta: int): int {
    if gauge + delta < 0 then 0 else gauge + delta
  }

  class Registry {
    var activeSessions: int
    var denies: nat

    ghost predicate Valid()
      reads this
    {
      activeSessions >= 0
    }

    constructor ()
      ensures Valid() && activeSessions == 0 && denies == 0
    {
      activeSessions, denies := 0, 0;
    }

    method AddSessions(delta: int)
      modifies this`activeSessions
      ensures Valid() && activeSessions == Clamped(old(activeSessions), delta)
    {
      var next := activeSessions + delta;
      if next < 0 {
        next := 0;
      }
      activeSessions := next;
    }

    method IncDeny()
      modifies this`denies
      ensures denies == old(denies) + 1
    {
      denies := denies + 1;
    }
  }
}
