/**
 The flow table of the transparent UDP relay. A flow holds one counted connection of the
 selector for as long as it is in the table; idleness is the only thing that ends it.
 */
module Udp {
  import opened Options
  import opened Policy
  import opened Rotation
  import opened Selection
  import opened Backends
  import opened Traces
  import opened SelectorState

  class Flow {
    const conn: Conn
    var lastSeen: int

    constructor (conn: Conn, now: int)
      ensures this.conn == conn && lastSeen == now
    {
      this.conn, lastSeen := conn, now;
    }
  }

  /** What the table says of one key. */
  datatype Slot = Slot(flow: Flow, lastSeen: int)

  type Table = map<string, Slot>

  /** What happens to the table; a packet that needs a new flow brings what create() returned. */
  datatype Event =
    | Packet(key: string, now: int, created: Option<Flow>)
    | Touched(key: string, now: int)
    | Reaped(now: int)

  function Step(m: Table, timeout: int, e: Event): Table {
    match e
    case Packet(key, now, created) =>
      if key in m then m[key := m[key].(lastSeen := now)]
      else if created == None then m
      else m[key := Slot(created.value, now)]
    case Touched(key, now) => if key in m then m[key := m[key].(lastSeen := now)] else m
    case Reaped(now) => map k | k in m && now - m[k].lastSeen <= timeout :: m[k]
  }

  lemma PacketStep(m: Table, timeout: int, key: string, now: int, created: Option<Flow>)
    ensures Step(m, timeout, Packet(key, now, created)) ==
      if key in m then m[key := Slot(m[key].flow, now)]
      else if created == None then m else m[key := Slot(created.value, now)]
  {
  }

  ghost function Slots(flows: map<string, Flow>): Table
    reads flows.Values
  {
    map k | k in flows :: Slot(flows[k], flows[k].lastSeen)
  }

  class UdpTable {
    const sel: Selector
    const timeout: int
    var flows: map<string, Flow>
    ghost var made: set<Flow>  // every flow that was ever created

    ghost function View(): Table
      reads this`flows, flows.Values
    {
      Slots(flows)
    }

    /**
     A flow is in the table, under one key, exactly as long as its connection is open, and
     no two flows share a connection.
     */
    ghost predicate Valid()
      reads this, made, sel`conns, set f | f in made :: f.conn
    {
      && (forall k :: k in flows ==> flows[k] in made && flows[k].conn.open)
      && (forall j, k :: j in flows && k in flows && j != k ==> flows[j] != flows[k])
      && (forall f :: f in made ==> f.conn in sel.conns)
      && (forall f :: f in made && f.conn.open ==> exists k :: k in flows && flows[k] == f)
      && (forall f, g :: f in made && g in made && f != g ==> f.conn != g.conn)
    }

    constructor (sel: Selector, timeout: int)
      ensures this.sel == sel && this.timeout == timeout && flows == map[] && made == {}
      ensures Valid()
    {
      this.sel, this.timeout, flows, made := sel, timeout, map[], {};
    }

    /** The flow's connection is counted on the chosen backend of this list. */
    static ghost predicate StartedOn(f: Flow, list: seq<Backend>, choice: Option<nat>) {
      choice.Some? && choice.value < |list| && f.conn.lb == list[choice.value]
    }

    /** create_udp_flow: a backend is picked and, when its sockets open, a connection counted on it. */
    method Create(q: Request, socketsOpen: bool) returns (f: Option<Flow>)
      requires sel.Valid() && sel.Balanced()
      modifies sel`lbIndex, sel`stickyMap, sel`conns, sel.known
      ensures sel.Valid() && sel.Balanced() && Sound(old(sel.Abs()))
      ensures f == None <==> !socketsOpen || Pick(old(sel.Abs()), q, {}).choice == None
      ensures Fit(old(sel.Now())) && sel.Now() == Picked(old(sel.Now()), q, {})
      ensures f == None ==> sel.conns == old(sel.conns)
      ensures f.Some? ==> StartedOn(f.value, old(sel.list), Pick(old(sel.Abs()), q, {}).choice)
      ensures f.Some? ==> fresh(f.value) && fresh(f.value.conn) && f.value.conn.open
      ensures f.Some? ==> sel.conns == old(sel.conns) + {f.value.conn}
    {
      hide Selector.Valid, Selector.Balanced, Selector.Wans, Pick, Sound, Eligible, Picked, Fit;
      sel.ValidIsSound();
      PickUsable(sel.Abs(), q, {});
      var i := sel.PickOnly(q, {});
      if i == None || !socketsOpen {
        return None;
      }
      sel.ValidIsSound();
      var c := sel.ConnStarted(sel.list[i.value]);
      var flow := new Flow(c, 0);
      return Some(flow);
    }

    lemma ViewHas(key: string)
      ensures key in View() <==> key in flows
      ensures key in flows ==> View()[key].flow == flows[key]
    {
    }

    /** The flow under a key has been seen. */
    method Refresh(key: string, f: Flow, now: int)
      requires Valid() && key in flows && flows[key] == f
      modifies f`lastSeen
      ensures Valid()
      ensures View() == old(View())[key := Slot(f, now)]
    {
      f.lastSeen := now;
    }

    method Insert(key: string, f: Flow, now: int)
      requires Valid() && key !in flows && f !in made
      requires f.conn in sel.conns && f.conn.open && forall g :: g in made ==> g.conn != f.conn
      modifies this`flows, this`made, f`lastSeen
      ensures Valid()
      ensures View() == old(View())[key := Slot(f, now)]
      ensures flows == old(flows)[key := f] && made == old(made) + {f}
    {
      assert forall k :: k in flows ==> flows[k] != f;
      f.lastSeen := now;
      flows := flows[key := f];
      made := made + {f};
      assert Valid() by {
        forall g | g in made && g.conn.open ensures exists k :: k in flows && flows[k] == g {
          if g == f {
            assert key in flows && flows[key] == f;
          } else {
            var k :| k in old(flows) && old(flows)[k] == g;
            assert k in flows && flows[k] == g;
          }
        }
      }
      hide Valid;
    }

    method GetOrCreate(key: string, q: Request, socketsOpen: bool, now: int) returns (f: Option<Flow>, created: bool)
      requires Valid() && sel.Valid() && sel.Balanced()
      modifies this`flows, this`made, made`lastSeen
      modifies sel`lbIndex, sel`stickyMap, sel`conns, sel.known
      ensures Valid() && sel.Valid() && sel.Balanced() && Sound(old(sel.Abs()))
      // a packet of a known flow is no news to the selector; any other makes it pick once
      ensures Fit(old(sel.Now()))
      ensures sel.Now() == if key in old(flows) then old(sel.Now()) else Picked(old(sel.Now()), q, {})
      ensures key in old(flows) ==> forall b :: b in sel.known ==> unchanged(b)
      ensures View() == Step(old(View()), timeout, Packet(key, now, f))
      ensures created <==> key !in old(flows) && f.Some?
      ensures if created then fresh(f.value) && made == old(made) + {f.value} else made == old(made)
      ensures sel.conns == old(sel.conns) + if created then {f.value.conn} else {}
      ensures created ==> StartedOn(f.value, old(sel.list), Pick(old(sel.Abs()), q, {}).choice)
      ensures f.Some? ==> key in flows && flows[key] == f.value
    {
      hide Selector.Valid, Selector.Balanced, Selector.Wans, Selector.Cursor;
      hide Pick, Sound, StartedOn, Slots, Step, Picked, Fit;
      sel.ValidIsSound();
      ViewHas(key);
      ghost var view := View();
      if key in flows {
        Refresh(key, flows[key], now);
        PacketStep(view, timeout, key, now, Some(flows[key]));
        return Some(flows[key]), false;
      }
      f := Create(q, socketsOpen);
      PacketStep(view, timeout, key, now, f);
      if f == None {
        return f, false;
      }
      Insert(key, f.value, now);
      return f, true;
    }

    method Touch(key: string, now: int)
      requires Valid()
      modifies made`lastSeen
      ensures Valid()
      ensures View() == Step(old(View()), timeout, Touched(key, now))
    {
      if key in flows {
        Refresh(key, flows[key], now);
      }
    }

    predicate Idle(f: Flow, now: int)
      reads f
    {
      now - f.lastSeen > timeout
    }

    lemma IdleSlots(before: map<string, Flow>, now: int)
      requires flows == map k | k in before && !Idle(before[k], now) :: before[k]
      ensures View() == Step(Slots(before), timeout, Reaped(now))
    {
    }

    /** Takes the idle flows out of the table. */
    method TakeIdle(now: int) returns (dead: seq<Flow>)
      requires forall j, k :: j in flows && k in flows && j != k ==> flows[j] != flows[k]
      modifies this`flows
      ensures flows == map k | k in old(flows) && !Idle(old(flows)[k], now) :: old(flows)[k]
      ensures forall i, j :: 0 <= i < j < |dead| ==> dead[i] != dead[j]
      ensures forall f :: f in dead <==> exists k :: k in old(flows) && k !in flows && old(flows)[k] == f
    {
      var all, keys := flows, flows.Keys;
      dead := [];
      while keys != {}
        invariant keys <= all.Keys
        invariant flows == map k | k in all && (k in keys || !Idle(all[k], now)) :: all[k]
        invariant forall i, j :: 0 <= i < j < |dead| ==> dead[i] != dead[j]
        invariant forall f :: f in dead ==> exists k :: k in all && k !in flows && all[k] == f
        invariant forall k :: k in all && k !in flows ==> all[k] in dead
        decreases |keys|
      {
        var k :| k in keys;
        keys := keys - {k};
        if Idle(flows[k], now) {
          assert flows[k] == all[k] && all[k] !in dead;
          dead := dead + [flows[k]];
          flows := flows - {k};
        }
      }
    }

    /** As Valid, but for flows that have left the table and are still to be closed. */
    ghost predicate Retired(dead: seq<Flow>)
      reads this, made, sel`conns, set f | f in made :: f.conn
    {
      && (forall k :: k in flows ==> flows[k] in made && flows[k].conn.open && flows[k] !in dead)
      && (forall j, k :: j in flows && k in flows && j != k ==> flows[j] != flows[k])
      && (forall f :: f in made ==> f.conn in sel.conns)
      && (forall f :: f in made && f.conn.open && f !in dead ==> exists k :: k in flows && flows[k] == f)
      && (forall f, g :: f in made && g in made && f != g ==> f.conn != g.conn)
      && (forall f :: f in dead ==> f in made && f.conn.open)
    }

    /** Closes one flow that left the table. */
    method CloseOne(f: Flow, ghost rest: seq<Flow>)
      requires Retired([f] + rest) && f !in rest
      requires sel.Valid() && sel.Balanced()
      modifies f.conn`open, f.conn.lb`activeConns
      ensures Retired(rest) && sel.Valid() && sel.Balanced() && sel.Now() == old(sel.Now())
    {
      hide Selector.Valid, Selector.Balanced;
      assert f in [f] + rest;
      sel.ConnOf(f.conn);
      sel.ConnFinished(f.conn);
    }

    method Retire(now: int) returns (dead: seq<Flow>)
      requires Valid()
      modifies this`flows
      ensures Retired(dead)
      ensures forall i, j :: 0 <= i < j < |dead| ==> dead[i] != dead[j]
      ensures View() == Step(old(View()), timeout, Reaped(now))
    {
      hide Slots, Step, Idle;
      ghost var before := flows;
      dead := TakeIdle(now);
      IdleSlots(before, now);
    }

    /** Closes and removes the flows idle longer than the timeout. */
    method Reap(now: int)
      requires Valid() && sel.Valid() && sel.Balanced()
      modifies this`flows, (set f | f in made :: f.conn)`open, sel.known`activeConns
      ensures Valid() && sel.Valid() && sel.Balanced() && sel.Now() == old(sel.Now())
      ensures View() == Step(old(View()), timeout, Reaped(now))
    {
      hide Selector.Valid, Selector.Balanced, Slots, Step, Retired, Valid;
      sel.ValidIsSound();
      ghost var seen := sel.Now();
      var dead := Retire(now);
      ghost var view := View();
      for i := 0 to |dead|
        invariant sel.Valid() && sel.Balanced() && View() == view
        invariant (sel.list != [] ==> sel.lbIndex < |sel.list|) && sel.Now() == seen
        invariant Retired(dead[i..])
      {
        assert dead[i..] == [dead[i]] + dead[i + 1..];
        Pending(dead, i);
        CloseOne(dead[i], dead[i + 1..]);
        sel.ValidIsSound();
      }
      assert dead[|dead|..] == [];
      NonePending();
    }

    lemma Pending(dead: seq<Flow>, i: nat)
      requires i < |dead| && Retired(dead[i..]) && sel.Balanced()
      requires forall j, k :: 0 <= j < k < |dead| ==> dead[j] != dead[k]
      ensures dead[i] !in dead[i + 1..]
      ensures dead[i] in made && dead[i].conn.lb in sel.known
    {
      hide Selector.Balanced;
      assert dead[i..][0] == dead[i];
      assert dead[i] in dead[i..];
      sel.ConnOf(dead[i].conn);
    }

    lemma NonePending()
      requires Retired([])
      ensures Valid()
    {
    }
  }
}
