/**
 The end of a proxied TCP connection: two goroutines copy one direction each, a third waits
 for both and then reports the connection finished.
 */
module Pipes {
  import opened Backends
  import opened SelectorState

  datatype Goroutine = ToRemote | ToLocal | Waiter

  class Pipe {
    const sel: Selector
    const conn: Conn
    var waiting: nat           // the wait group
    var running: set<Goroutine>

    /** Every goroutine runs until it has ended; the connection is open as long as the waiter runs. */
    ghost predicate Valid()
      reads this, conn`open, sel`conns
    {
      && conn in sel.conns
      && running <= {ToRemote, ToLocal, Waiter}
      && waiting == (if ToRemote in running then 1 else 0) + (if ToLocal in running then 1 else 0)
      && (conn.open <==> Waiter in running)
      && (Waiter !in running ==> waiting == 0)
    }

    lemma OpenWhileWaiting()
      requires Valid()
      ensures conn.open <==> Waiter in running
    {
    }

    /** Since then, the backend has one connection less if this one ended, and one end is final. */
    predicate Reported(open: bool, active: int)
      reads conn, conn.lb
    {
      && (conn.open ==> open)
      && conn.lb.activeConns == active - if open && !conn.open then 1 else 0
    }

    constructor (sel: Selector, conn: Conn)
      requires conn in sel.conns && conn.open
      ensures this.sel == sel && this.conn == conn && running == {ToRemote, ToLocal, Waiter}
      ensures Valid()
    {
      this.sel, this.conn, waiting, running := sel, conn, 2, {ToRemote, ToLocal, Waiter};
    }

    /** The scheduler lets a goroutine go on as far as it gets; one that has ended does nothing. */
    method Go(g: Goroutine)
      requires Valid() && sel.Valid() && sel.Balanced()
      modifies this, conn`open, conn.lb`activeConns
      ensures Valid() && sel.Valid() && sel.Balanced()
      ensures running == After(old(running), g)
      ensures Reported(old(conn.open), old(conn.lb.activeConns))
    {
      hide Selector.Valid, Selector.Balanced;
      if g !in running {
        return;
      }
      if g == Waiter {
        if waiting == 0 {
          sel.ConnFinished(conn);
          running := running - {g};
        }
      } else {
        waiting := waiting - 1;
        running := running - {g};
      }
    }

    /** Any schedule of the three. */
    method Run(schedule: seq<Goroutine>)
      requires Valid() && sel.Valid() && sel.Balanced()
      modifies this, conn`open, conn.lb`activeConns
      ensures Valid() && sel.Valid() && sel.Balanced()
      ensures running == Scheduled(old(running), schedule)
      ensures Reported(old(conn.open), old(conn.lb.activeConns))
      ensures old(running) == {ToRemote, ToLocal, Waiter} ==>
        (conn.open <==> !exists k :: 0 <= k < |schedule| && ReportsAt(schedule, k))
    {
      hide Selector.Valid, Selector.Balanced, Valid;
      ReportedIff(schedule);
      OpenWhileWaiting();
      for k := 0 to |schedule|
        invariant Valid() && sel.Valid() && sel.Balanced()
        invariant Scheduled(running, schedule[k..]) == Scheduled(old(running), schedule)
        invariant Reported(old(conn.open), old(conn.lb.activeConns))
      {
        Go(schedule[k]);
      }
      OpenWhileWaiting();
    }
  }

  /** What one goroutine's turn leaves running: the waiter ends only after both directions. */
  function After(running: set<Goroutine>, g: Goroutine): set<Goroutine> {
    if g == Waiter && (ToRemote in running || ToLocal in running) then running else running - {g}
  }

  function Scheduled(running: set<Goroutine>, schedule: seq<Goroutine>): set<Goroutine>
    decreases |schedule|
  {
    if schedule == [] then running else Scheduled(After(running, schedule[0]), schedule[1..])
  }

  /** The waiter has a turn at k, and before it both directions had theirs. */
  predicate ReportsAt(schedule: seq<Goroutine>, k: nat) {
    k < |schedule| && schedule[k] == Waiter && ToRemote in schedule[..k] && ToLocal in schedule[..k]
  }

  /** A direction is over once it had a turn. */
  lemma {:induction false} DirectionOver(running: set<Goroutine>, schedule: seq<Goroutine>, g: Goroutine)
    requires g != Waiter
    ensures g in Scheduled(running, schedule) <==> g in running && g !in schedule
    decreases |schedule|
  {
    if schedule != [] {
      DirectionOver(After(running, schedule[0]), schedule[1..], g);
      assert schedule == [schedule[0]] + schedule[1..];
    }
  }

  lemma {:induction false} ScheduledPrefix(running: set<Goroutine>, schedule: seq<Goroutine>, k: nat)
    requires k < |schedule|
    ensures Scheduled(running, schedule[..k + 1]) == After(Scheduled(running, schedule[..k]), schedule[k])
    decreases k
  {
    var rest := schedule[1..];
    assert schedule[..k + 1][1..] == rest[..k];
    if k > 0 {
      ScheduledPrefix(After(running, schedule[0]), rest, k - 1);
      assert schedule[..k][1..] == rest[..k - 1];
    } else {
      assert schedule[..k] == [] && rest[..k] == [];
    }
  }

  lemma {:induction false} ReportedBy(schedule: seq<Goroutine>, k: nat)
    requires k <= |schedule|
    ensures Waiter !in Scheduled({ToRemote, ToLocal, Waiter}, schedule[..k]) <==>
      exists j :: 0 <= j < k && ReportsAt(schedule, j)
    decreases k
  {
    var all := {ToRemote, ToLocal, Waiter};
    if k > 0 {
      ReportedBy(schedule, k - 1);
      ScheduledPrefix(all, schedule, k - 1);
      var was := schedule[..k - 1];
      DirectionOver(all, was, ToRemote);
      DirectionOver(all, was, ToLocal);
      assert Scheduled(all, schedule[..k]) == After(Scheduled(all, was), schedule[k - 1]);
      assert Waiter !in Scheduled(all, schedule[..k]) <==> Waiter !in Scheduled(all, was) || ReportsAt(schedule, k - 1);
    } else {
      assert schedule[..k] == [];
    }
  }

  /**
   However the three goroutines interleave, the connection is reported finished exactly when
   the waiter gets a turn after both directions had theirs.
   */
  lemma {:induction false} ReportedIff(schedule: seq<Goroutine>)
    ensures Waiter !in Scheduled({ToRemote, ToLocal, Waiter}, schedule) <==>
      exists k :: 0 <= k < |schedule| && ReportsAt(schedule, k)
  {
    ReportedBy(schedule, |schedule|);
    assert schedule[..|schedule|] == schedule;
  }
}
