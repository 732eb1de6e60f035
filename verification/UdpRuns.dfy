/** Whole runs of the UDP flow table: who keeps a flow, and for how long an idle one stays. */
module UdpRuns {
  import opened Options
  import opened Policy
  import opened Selection
  import opened Udp
  import Runs

  function Time(e: Event): int {
    e.now
  }

  predicate Touches(e: Event, key: string) {
    !e.Reaped? && e.key == key
  }

  function After(m: Table, timeout: int, evs: seq<Event>): Table
    decreases |evs|
  {
    if evs == [] then m else After(Step(m, timeout, evs[0]), timeout, evs[1..])
  }

  /** Nothing happens later than `timeout` after the key was last touched. */
  predicate Lively(evs: seq<Event>, key: string, last: int, timeout: int)
    decreases |evs|
  {
    evs != [] ==>
      && Time(evs[0]) <= last + timeout
      && Lively(evs[1..], key, if Touches(evs[0], key) then Time(evs[0]) else last, timeout)
  }

  /** At every point of the run the key resolves to this flow. */
  predicate AlwaysResolves(m: Table, timeout: int, evs: seq<Event>, key: string, flow: Flow)
    decreases |evs|
  {
    && key in m && m[key].flow == flow
    && (evs != [] ==> AlwaysResolves(Step(m, timeout, evs[0]), timeout, evs[1..], key, flow))
  }

  /**
   A key touched at gaps of at most the timeout keeps its flow, and with it its backend,
   through any interleaving of other flows' packets and of reaps.
   */
  lemma {:induction false} Affinity(m: Table, timeout: int, evs: seq<Event>, key: string, flow: Flow, last: int)
    requires key in m && m[key] == Slot(flow, last) && Lively(evs, key, last, timeout)
    ensures AlwaysResolves(m, timeout, evs, key, flow)
    decreases |evs|
  {
    if evs != [] {
      var e := evs[0];
      Affinity(Step(m, timeout, e), timeout, evs[1..], key, flow, if Touches(e, key) then Time(e) else last);
    }
  }

  /** The clock does not go back, and a reap comes at most `timeout` after the last. */
  predicate Punctual(evs: seq<Event>, now: int, lastReap: int, timeout: int)
    decreases |evs|
  {
    evs != [] ==>
      && now <= Time(evs[0]) <= lastReap + timeout
      && Punctual(evs[1..], Time(evs[0]), if evs[0].Reaped? then Time(evs[0]) else lastReap, timeout)
  }

  function Now(evs: seq<Event>, start: int): int {
    if evs == [] then start else Time(evs[|evs| - 1])
  }

  lemma NowNext(evs: seq<Event>, start: int)
    requires evs != []
    ensures Now(evs, start) == Now(evs[1..], Time(evs[0]))
  {
  }

  lemma {:induction false} IdleBoundFrom(m: Table, timeout: nat, evs: seq<Event>, now: int, lastReap: int)
    requires Punctual(evs, now, lastReap, timeout) && lastReap <= now <= lastReap + timeout
    requires forall k :: k in m ==> lastReap - timeout <= m[k].lastSeen
    ensures var m' := After(m, timeout, evs);
      forall k :: k in m' ==> Now(evs, now) - m'[k].lastSeen <= 2 * timeout
    decreases |evs|
  {
    if evs != [] {
      var e, rest := evs[0], evs[1..];
      var m1 := Step(m, timeout, e);
      NowNext(evs, now);
      IdleBoundFrom(m1, timeout, rest, Time(e), if e.Reaped? then Time(e) else lastReap);
      assert After(m, timeout, evs) == After(m1, timeout, rest);
    } else {
      assert After(m, timeout, evs) == m && Now(evs, now) == now;
    }
  }

  /** With a reap every timeout, no flow stays in the table idle for more than twice the timeout. */
  lemma {:induction false} IdleBound(timeout: nat, evs: seq<Event>, start: int)
    requires Punctual(evs, start, start, timeout)
    ensures var m := After(map[], timeout, evs);
      forall k :: k in m ==> Now(evs, start) - m[k].lastSeen <= 2 * timeout
  {
    IdleBoundFrom(map[], timeout, evs, start, start);
  }

  /** The bound is met: a flow idle for exactly the timeout survives a reap. */
  lemma IdleBoundMet(timeout: nat, flow: Flow)
    ensures var evs := [Packet("a", 0, Some(flow)), Reaped(timeout), Touched("b", 2 * timeout)];
      var m := After(map[], timeout, evs);
      Punctual(evs, 0, 0, timeout) && "a" in m && Now(evs, 0) - m["a"].lastSeen == 2 * timeout
  {
    var e0, e1, e2 := Packet("a", 0, Some(flow)), Reaped(timeout), Touched("b", 2 * timeout);
    var m: Table := map["a" := Slot(flow, 0)];
    assert [e0, e1, e2][1..] == [e1, e2] && [e1, e2][1..] == [e2] && [e2][1..] == [];
    assert Step(map[], timeout, e0) == m && Step(m, timeout, e1) == m && Step(m, timeout, e2) == m;
    assert After(m, timeout, [e2]) == After(m, timeout, []) == m;
    assert After(m, timeout, [e1, e2]) == m;
    assert Punctual([e2], timeout, timeout, timeout) && Punctual([e1, e2], 0, 0, timeout);
  }

  // ---- one key ------------------------------------------------------------------

  function SlotOf(m: Table, key: string): Option<Slot> {
    if key in m then Some(m[key]) else None
  }

  /**
   What an event leaves of any key: its own packets and touches renew its time, a first packet
   may bring its flow, a reap takes it if it was idle for longer than the timeout, and what
   happens to other keys leaves it alone.
   */
  lemma {:induction false} StepOnKey(m: Table, timeout: int, e: Event, key: string)
    ensures var before := SlotOf(m, key);
      SlotOf(Step(m, timeout, e), key) ==
        if e.Reaped? then (if before.Some? && e.now - before.value.lastSeen > timeout then None else before)
        else if e.key != key then before
        else if before.Some? then Some(Slot(before.value.flow, e.now))
        else if e.Packet? && e.created.Some? then Some(Slot(e.created.value, e.now))
        else None
  {
  }

  /** When the key was last touched. */
  function LastTouch(evs: seq<Event>, key: string, last: int): int
    decreases |evs|
  {
    if evs == [] then last
    else LastTouch(evs[1..], key, if Touches(evs[0], key) then Time(evs[0]) else last)
  }

  /** The table shows for a live flow when it was last touched itself. */
  lemma {:induction false} SeenWhenTouched(m: Table, timeout: int, evs: seq<Event>, key: string, flow: Flow, last: int)
    requires key in m && m[key] == Slot(flow, last) && Lively(evs, key, last, timeout)
    ensures SlotOf(After(m, timeout, evs), key) == Some(Slot(flow, LastTouch(evs, key, last)))
    decreases |evs|
  {
    hide Step;
    if evs != [] {
      var e := evs[0];
      StepOnKey(m, timeout, e, key);
      SeenWhenTouched(Step(m, timeout, e), timeout, evs[1..], key, flow, if Touches(e, key) then Time(e) else last);
    }
  }

  // ---- what the selector notices --------------------------------------------------

  /** Something happens to the table, a packet with the request its flow would be created for, or to the selector. */
  datatype Traffic = Flows(e: Event, q: Request) | Other(r: Runs.Event)

  function TableAfter(m: Table, timeout: int, t: Traffic): Table {
    if t.Flows? then Step(m, timeout, t.e) else m
  }

  /** What the selector is told: only a packet of an unknown key makes it pick. */
  function Heard(m: Table, timeout: int, ts: seq<Traffic>): seq<Runs.Event>
    decreases |ts|
  {
    if ts == [] then []
    else
      (match ts[0]
       case Other(r) => [r]
       case Flows(e, q) => if e.Packet? && e.key !in m then [Runs.Ask(q, {})] else [])
      + Heard(TableAfter(m, timeout, ts[0]), timeout, ts[1..])
  }

  /** The same traffic with the packets of one key taken as mere signs of life. */
  function Muted(t: Traffic, key: string): Traffic {
    if t.Flows? && t.e.Packet? && t.e.key == key then Flows(Touched(key, t.e.now), t.q) else t
  }

  function AllMuted(ts: seq<Traffic>, key: string): seq<Traffic>
    decreases |ts|
  {
    if ts == [] then [] else [Muted(ts[0], key)] + AllMuted(ts[1..], key)
  }

  function TableEvents(ts: seq<Traffic>): seq<Event>
    decreases |ts|
  {
    if ts == [] then [] else (if ts[0].Flows? then [ts[0].e] else []) + TableEvents(ts[1..])
  }

  /**
   Packets of a live flow are invisible to the selector, however they mix with other traffic:
   it hears the same whether they come or not, and so picks the same for everybody else.
   */
  lemma {:induction false} LiveFlowIsInvisible(m: Table, timeout: int, ts: seq<Traffic>, key: string, flow: Flow,
                                               last: int)
    requires key in m && m[key] == Slot(flow, last) && Lively(TableEvents(ts), key, last, timeout)
    ensures Heard(m, timeout, ts) == Heard(m, timeout, AllMuted(ts, key))
    decreases |ts|
  {
    hide Step;
    if ts != [] {
      var t, rest := ts[0], ts[1..];
      var m1 := TableAfter(m, timeout, t);
      MutedStep(m, timeout, t, key);
      assert AllMuted(ts, key)[1..] == AllMuted(rest, key);
      if t.Flows? {
        StepOnKey(m, timeout, t.e, key);
        assert TableEvents(ts)[1..] == TableEvents(rest);
        LiveFlowIsInvisible(m1, timeout, rest, key, flow, if Touches(t.e, key) then Time(t.e) else last);
      } else {
        assert TableEvents(ts) == TableEvents(rest);
        LiveFlowIsInvisible(m1, timeout, rest, key, flow, last);
      }
    }
  }

  lemma MutedStep(m: Table, timeout: int, t: Traffic, key: string)
    requires key in m
    ensures TableAfter(m, timeout, Muted(t, key)) == TableAfter(m, timeout, t)
  {
  }
}
