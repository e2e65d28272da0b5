/** The registry of live connections of one listener, and the sweep that evicts from it. */
module Registries {
  import opened Address
  import opened EdgeGate

  class Conn {
    const ip: IP
    var open: bool

    constructor (ip: IP)
      ensures this.ip == ip && open
    {
      this.ip, open := ip, true;
    }

    method CloseReset()
      modifies this
      ensures !open
    {
      open := false;
    }
  }

  class Registry {
    var conns: set<Conn>

    constructor ()
      ensures conns == {}
    {
      conns := {};
    }

    method Track(c: Conn, add: bool)
      modifies this
      ensures conns == if add then old(conns) + {c} else old(conns) - {c}
    {
      conns := if add then conns + {c} else conns - {c};
    }

    /** Closes exactly the tracked connections whose address is not allowed; none is untracked. */
    method EvictDisallowed(gate: Gate, now: int)
      requires gate.Valid()
      modifies conns
      ensures forall c :: c in conns ==> c.open == old(c.open && gate.Allows(c.ip, now))
    {
      hide Gate.Valid, Gate.Allows;
      var toClose: set<Conn> := {};
      var left := conns;
      while left != {}
        invariant left <= conns
        invariant toClose == set c | c in conns && c !in left && !gate.Allows(c.ip, now)
        modifies {}
        decreases |left|
      {
        var c :| c in left;
        left := left - {c};
        var ok := gate.IsAllowed(c.ip, now);
        if !ok {
          toClose := toClose + {c};
        }
      }
      CloseThem(toClose);
    }

    method CloseThem(toClose: set<Conn>)
      modifies toClose
      ensures forall c :: c in toClose ==> !c.open
    {
      var left := toClose;
      while left != {}
        invariant left <= toClose
        invariant forall c :: c in toClose && c !in left ==> !c.open
        decreases |left|
      {
        var c :| c in left;
        left := left - {c};
        c.CloseReset();
      }
    }

    /** Shutdown: everything is closed and forgotten. */
    method CloseAll()
      modifies this, conns
      ensures conns == {} && forall c :: c in old(conns) ==> !c.open
    {
      CloseThem(conns);
      conns := {};
    }
  }
}
