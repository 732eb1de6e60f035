/** The objects the daemon keeps for its WANs and for the connections it has on them. */
module Backends {
  import opened Rotation

  /** A 64-bit counter after n increments. */
  function Counted(n: nat): nat {
    n % 0x1_0000_0000_0000_0000
  }

  /** It shows the true number below 2^64, and starts again there. */
  lemma CountedWraps(n: nat)
    ensures n < 0x1_0000_0000_0000_0000 ==> Counted(n) == n
    ensures Counted(n + 0x1_0000_0000_0000_0000) == Counted(n)
  {
  }

  lemma CountedNext(n: nat)
    ensures Counted(Counted(n) + 1) == Counted(n + 1)
  {
  }

  lemma CountedZero()
    ensures Counted(0) == 0
  {
  }

  /** One WAN backend. */
  class Backend {
    const ip: string
    var name: string
    var iface: string
    var ratio: nat
    var metric: int
    var credit: nat
    var up: bool
    var checksOk: nat
    var checksFailed: nat
    var totalConns: nat
    var activeConns: int

    constructor (ip: string, name: string, iface: string, ratio: nat, metric: int)
      ensures this.ip == ip && this.name == name && this.iface == iface
      ensures this.ratio == ratio && this.metric == metric
      ensures credit == 0 && up && checksOk == checksFailed == 0 && totalConns == 0 && activeConns == 0
    {
      this.ip, this.name, this.iface, this.ratio, this.metric := ip, name, iface, ratio, metric;
      credit, up, checksOk, checksFailed, totalConns, activeConns := 0, true, 0, 0, 0, 0;
    }

    /** A reload gives a surviving backend its new settings and takes its credit. */
    method Reconfigure(name: string, iface: string, ratio: nat, metric: int)
      modifies this`name, this`iface, this`ratio, this`metric, this`credit
      ensures this.name == name && this.iface == iface && this.ratio == ratio && this.metric == metric
      ensures credit == 0
    {
      this.name, this.iface, this.ratio, this.metric := name, iface, ratio, metric;
      credit := 0;
    }

    method DefaultName()
      modifies this`name
      ensures name == if old(name) == "" then ip else old(name)
    {
      if name == "" {
        name := ip;
      }
    }

    method CountStarted()
      modifies this`totalConns, this`activeConns
      ensures totalConns == Counted(old(totalConns) + 1) && activeConns == old(activeConns) + 1
    {
      totalConns := Counted(totalConns + 1);
      activeConns := activeConns + 1;
    }

    method CountFinished()
      modifies this`activeConns
      ensures activeConns == old(activeConns) - 1
    {
      activeConns := activeConns - 1;
    }

    function View(): Wan
      reads this
    {
      Wan(name, up, metric, ratio)
    }
  }

  /** A proxied TCP connection or UDP flow, holding on to the backend it was started on. */
  class Conn {
    const lb: Backend
    var open: bool

    constructor (lb: Backend)
      ensures this.lb == lb && open
    {
      this.lb, open := lb, true;
    }
  }

  /** The connections of a set that are open on a backend. */
  ghost function OpenIn(conns: set<Conn>, b: Backend): set<Conn>
    reads conns
  {
    set c | c in conns && c.open && c.lb == b
  }

  ghost function DoneIn(conns: set<Conn>, b: Backend): set<Conn>
    reads conns
  {
    set c | c in conns && !c.open && c.lb == b
  }

  /** A backend counts these connections: the open ones are active, open and finished ones make the total. */
  ghost predicate CountsOf(b: Backend, conns: set<Conn>)
    reads b`activeConns, b`totalConns, conns
  {
    b.activeConns == |OpenIn(conns, b)| && b.totalConns == Counted(|OpenIn(conns, b)| + |DoneIn(conns, b)|)
  }

  lemma JoinOpen(conns: set<Conn>, c: Conn, b: Backend)
    requires c !in conns && c.open
    ensures |OpenIn(conns + {c}, b)| == |OpenIn(conns, b)| + if c.lb == b then 1 else 0
    ensures DoneIn(conns + {c}, b) == DoneIn(conns, b)
  {
    assert OpenIn(conns + {c}, b) == OpenIn(conns, b) + if c.lb == b then {c} else {};
  }

  lemma JoinDone(conns: set<Conn>, c: Conn, b: Backend)
    requires c !in conns && !c.open
    ensures OpenIn(conns + {c}, b) == OpenIn(conns, b)
    ensures |DoneIn(conns + {c}, b)| == |DoneIn(conns, b)| + if c.lb == b then 1 else 0
  {
    assert DoneIn(conns + {c}, b) == DoneIn(conns, b) + if c.lb == b then {c} else {};
  }
}
