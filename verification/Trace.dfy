/**
 A dispatch as a run: what it and the other goroutines do to the selector, event by event, as
 a run of module Runs.
 */
module Traces {
  import opened Options
  import opened Policy
  import opened Rotation
  import opened Selection
  import opened Backends
  import opened Reload
  import opened Dialling
  import Fairness
  import Runs

  /** The selector as a value: what selection sees, the addresses, and which positions are one object. */
  datatype Look = Look(st: State, ips: seq<string>, same: set<(nat, nat)>)

  ghost predicate Fit(l: Look) {
    Sound(l.st) && |l.ips| == |l.st.wans|
  }

  /** What selection is told of an event: connections that start or end are no news to it. */
  ghost function Told(l: Look, e: Event): Option<Runs.Event>
    requires Fit(l)
  {
    match e
    case OtherPick(q, tried) => Some(Runs.Ask(q, tried))
    case OtherStarts(_) => None
    case OtherEnds(_) => None
    case Flip(i, up) => Some(Runs.Flip(Flipped(l, i, up)))
    case NewList(cfg, host) =>
      if Usable(cfg, host) == [] then None else Some(Runs.Reload(ReloadedWans(l.ips, l.st.wans, cfg, host)))
    case NewRules(rules) => Some(Runs.Policies(rules))
    case NewSticky(enabled, ttl) => Some(Runs.Configure(enabled, ttl))
  }

  /** A verdict reaches every position of the object it is about. */
  ghost function Flipped(l: Look, i: nat, up: bool): (ups: seq<bool>)
    ensures |ups| == |l.st.wans|
  {
    seq(|l.st.wans|, j requires 0 <= j < |l.st.wans| => if (i, j) in l.same then up else l.st.wans[j].up)
  }

  lemma ToldIsUsable(l: Look, e: Event)
    requires Fit(l)
    ensures Told(l, e).Some? ==> Runs.Usable(Told(l, e).value)
  {
    if e.NewList? { NoAddressIsEmpty(e.cfg, e.host); }
  }

  lemma {:induction false} NoAddressIsEmpty(cfg: seq<BackendJson>, host: Host)
    ensures forall u :: u in Usable(cfg, host) ==> u.bj.ip != ""
  {
    if cfg != [] { NoAddressIsEmpty(cfg[..|cfg| - 1], host); }
  }

  /** The selector after an event. */
  ghost function After(l: Look, e: Event): (l': Look)
    requires Fit(l)
    ensures Fit(l')
  {
    ToldIsUsable(l, e);
    var st := match Told(l, e) case None => l.st case Some(r) => Runs.Step(l.st, r);
    if e.NewList? && Usable(e.cfg, e.host) != []
    then Look(st, ReloadedIps(l.ips, e.cfg, e.host), ReloadedTwins(l.ips, e.cfg, e.host))
    else l.(st := st)
  }

  lemma AfterMeans(l: Look, e: Event)
    requires Fit(l)
    ensures match e
      case OtherPick(q, tried) => After(l, e) == Picked(l, q, tried)
      case OtherStarts(_) => After(l, e) == l
      case OtherEnds(_) => After(l, e) == l
      case Flip(i, up) => After(l, e) == l.(st := l.st.(wans := Runs.SetUp(l.st.wans, Flipped(l, i, up))))
      case NewList(cfg, host) =>
        After(l, e) ==
          if Usable(cfg, host) == [] then l
          else Look(l.st.(wans := ReloadedWans(l.ips, l.st.wans, cfg, host), rotor := Rotor(0, 0)),
                    ReloadedIps(l.ips, cfg, host), ReloadedTwins(l.ips, cfg, host))
      case NewRules(rules) => After(l, e) == l.(st := l.st.(rules := rules))
      case NewSticky(enabled, ttl) =>
        After(l, e) == l.(st := l.st.(sticky := Sticky(enabled, ttl, if enabled then l.st.sticky.entries else map[])))
  {
    hide Pick, Sound, Runs.SetUp, ReloadedWans, ReloadedIps, ReloadedTwins, Usable;
    ToldIsUsable(l, e);
  }

  lemma AfterAllNext(l: Look, evs: seq<Event>, k: nat)
    requires Fit(l) && k < |evs|
    ensures AfterAll(l, evs[k..]) == AfterAll(After(l, evs[k]), evs[k + 1..])
  {
    hide After;
    assert evs[k..][1..] == evs[k + 1..];
  }

  lemma AfterListed(l: Look, e: Event)
    requires Fit(l)
    ensures After(l, e).ips == IpsAfter(l.ips, e)
    ensures !e.NewList? && !e.Flip? ==> After(l, e).st.wans == l.st.wans
  {
    hide Pick;
  }

  ghost function AfterAll(l: Look, evs: seq<Event>): (l': Look)
    requires Fit(l)
    ensures Fit(l')
    decreases |evs|
  {
    if evs == [] then l else AfterAll(After(l, evs[0]), evs[1..])
  }

  /** The selector after a pick of the connection that has tried these. */
  ghost function Picked(l: Look, q: Request, tried: set<nat>): (l': Look)
    requires Fit(l)
    ensures Fit(l')
  {
    l.(st := Pick(l.st, q, tried).st)
  }

  /** The selector a dispatch leaves after the picks and dials of this log. */
  ghost function Course(l: Look, q: Request, env: seq<seq<Event>>, log: seq<nat>): (l': Look)
    requires Fit(l)
    ensures Fit(l')
    decreases |log|
  {
    if log == [] then l
    else
      var front := log[..|log| - 1];
      AfterAll(Picked(Course(l, q, env, front), q, Elements(front)), Meanwhile(env, |front|))
  }

  /** Every dial is of the position picked for what the selector is by then. */
  ghost predicate Chosen(l: Look, q: Request, env: seq<seq<Event>>, log: seq<nat>)
    requires Fit(l)
    decreases |log|
  {
    log != [] ==>
      var front := log[..|log| - 1];
      && Chosen(l, q, env, front)
      && Pick(Course(l, q, env, front).st, q, Elements(front)).choice == Some(log[|log| - 1])
  }

  lemma CourseNext(l: Look, q: Request, env: seq<seq<Event>>, log: seq<nat>, i: nat)
    requires Fit(l)
    ensures Course(l, q, env, log + [i]) ==
      AfterAll(Picked(Course(l, q, env, log), q, Elements(log)), Meanwhile(env, |log|))
    ensures Chosen(l, q, env, log) && Pick(Course(l, q, env, log).st, q, Elements(log)).choice == Some(i) ==>
      Chosen(l, q, env, log + [i])
  {
    hide Pick, Meanwhile, Elements;
    assert (log + [i])[..|log|] == log;
  }

  lemma AfterNone(l: Look)
    requires Fit(l)
    ensures AfterAll(l, []) == l
  {
  }

  // ---- the same as a run of selection --------------------------------------------

  ghost function ToldAll(l: Look, evs: seq<Event>): seq<Runs.Event>
    requires Fit(l)
    decreases |evs|
  {
    if evs == [] then []
    else (match Told(l, evs[0]) case None => [] case Some(r) => [r]) + ToldAll(After(l, evs[0]), evs[1..])
  }

  /** The picks of a dispatch and what selection is told in between. */
  ghost function Trace(l: Look, q: Request, env: seq<seq<Event>>, log: seq<nat>): seq<Runs.Event>
    requires Fit(l)
    decreases |log|
  {
    if log == [] then []
    else
      var front := log[..|log| - 1];
      Trace(l, q, env, front) + [Runs.Ask(q, Elements(front))] +
      ToldAll(Picked(Course(l, q, env, front), q, Elements(front)), Meanwhile(env, |front|))
  }

  ghost predicate AllUsable(rs: seq<Runs.Event>) {
    forall r :: r in rs ==> Runs.Usable(r)
  }

  lemma {:induction false} FinalAppend(st: State, a: seq<Runs.Event>, b: seq<Runs.Event>)
    requires Sound(st) && AllUsable(a) && AllUsable(b)
    ensures AllUsable(a + b)
    ensures Runs.Final(st, a + b) == Runs.Final(Runs.Final(st, a), b)
    decreases |a|
  {
    hide Runs.Step, Sound, Runs.Usable;
    if a == [] {
      assert a + b == b;
    } else {
      FinalAppend(Runs.Step(st, a[0]), a[1..], b);
      assert (a + b)[1..] == a[1..] + b;
    }
  }

  lemma {:induction false} ToldAllIsRun(l: Look, evs: seq<Event>)
    requires Fit(l)
    ensures AllUsable(ToldAll(l, evs))
    ensures Runs.Final(l.st, ToldAll(l, evs)) == AfterAll(l, evs).st
    decreases |evs|
  {
    hide Runs.Step, Sound, Runs.Usable, Told;
    if evs != [] {
      var l1 := After(l, evs[0]);
      ToldIsUsable(l, evs[0]);
      ToldAllIsRun(l1, evs[1..]);
      var one := match Told(l, evs[0]) case None => [] case Some(r) => [r];
      FinalAppend(l.st, one, ToldAll(l1, evs[1..]));
    }
  }

  /** The selection state after a dispatch is that of its trace, as a run of module Runs. */
  lemma {:induction false} TraceIsRun(l: Look, q: Request, env: seq<seq<Event>>, log: seq<nat>)
    requires Fit(l)
    ensures AllUsable(Trace(l, q, env, log))
    ensures Runs.Final(l.st, Trace(l, q, env, log)) == Course(l, q, env, log).st
    decreases |log|
  {
    hide Sound, Pick, Elements, Meanwhile, ToldAll, AfterAll;
    if log != [] {
      var front := log[..|log| - 1];
      TraceIsRun(l, q, env, front);
      var c := Course(l, q, env, front);
      var ask := Runs.Ask(q, Elements(front));
      FinalAppend(l.st, Trace(l, q, env, front), [ask]);
      assert Runs.Final(c.st, [ask]) == Picked(c, q, Elements(front)).st by { OneEvent(c.st, ask); }
      ToldAllIsRun(Picked(c, q, Elements(front)), Meanwhile(env, |front|));
      FinalAppend(l.st, Trace(l, q, env, front) + [ask],
                  ToldAll(Picked(c, q, Elements(front)), Meanwhile(env, |front|)));
    }
  }

  lemma OneEvent(st: State, r: Runs.Event)
    requires Sound(st) && Runs.Usable(r)
    ensures Runs.Final(st, [r]) == Runs.Step(st, r)
  {
    assert [r][1..] == [];
  }

  /** All of a dispatch: when it gives up, the pick that finds nobody too. */
  ghost function Whole(l: Look, q: Request, env: seq<seq<Event>>, log: seq<nat>, gaveUp: bool): seq<Runs.Event>
    requires Fit(l)
  {
    Trace(l, q, env, log) + if gaveUp then [Runs.Ask(q, Elements(log))] else []
  }

  /** These events lead from one selection state to the other. */
  ghost predicate IsRun(st: State, rs: seq<Runs.Event>, st': State) {
    Sound(st) && AllUsable(rs) && Runs.Final(st, rs) == st'
  }

  lemma {:induction false} WholeIsRun(l: Look, q: Request, env: seq<seq<Event>>, log: seq<nat>, gaveUp: bool)
    requires Fit(l)
    ensures var c := Course(l, q, env, log);
      IsRun(l.st, Whole(l, q, env, log, gaveUp), if gaveUp then Picked(c, q, Elements(log)).st else c.st)
  {
    hide Sound, Pick, Elements, Trace, Course, Runs.Final, Runs.Step;
    TraceIsRun(l, q, env, log);
    var c, t := Course(l, q, env, log), Trace(l, q, env, log);
    if gaveUp {
      var ask := Runs.Ask(q, Elements(log));
      FinalAppend(l.st, t, [ask]);
      OneEvent(c.st, ask);
      AskIsPick(c, q, Elements(log));
    } else {
      assert t + [] == t;
    }
  }

  lemma AskIsPick(c: Look, q: Request, tried: set<nat>)
    requires Fit(c)
    ensures Runs.Step(c.st, Runs.Ask(q, tried)) == Picked(c, q, tried).st
  {
  }

  // ---- connections served one after another --------------------------------------

  ghost function Asks(qs: seq<Request>): (rs: seq<Runs.Event>)
    ensures |rs| == |qs| && forall k :: 0 <= k < |qs| ==> rs[k] == Runs.Ask(qs[k], {})
  {
    seq(|qs|, k requires 0 <= k < |qs| => Runs.Ask(qs[k], {}))
  }

  /** Whom pick_backend chooses for first attempts made one after another. */
  ghost function Choices(st: State, qs: seq<Request>): (cs: seq<Option<nat>>)
    requires Sound(st)
    ensures |cs| == |qs|
    decreases |qs|
  {
    if qs == [] then [] else [Pick(st, qs[0], {}).choice] + Choices(Pick(st, qs[0], {}).st, qs[1..])
  }

  /** The selection state after the first k of them. */
  ghost function ServedState(st: State, qs: seq<Request>, k: nat): (st': State)
    requires Sound(st) && k <= |qs|
    ensures Sound(st')
  {
    Runs.Final(st, Asks(qs[..k]))
  }

  lemma ServedNone(st: State, qs: seq<Request>)
    requires Sound(st)
    ensures ServedState(st, qs, 0) == st
  {
    assert Asks(qs[..0]) == [];
  }

  lemma {:induction false} ServedNext(st: State, qs: seq<Request>, k: nat)
    requires Sound(st) && k < |qs|
    ensures Choices(st, qs)[k] == Pick(ServedState(st, qs, k), qs[k], {}).choice
    ensures ServedState(st, qs, k + 1) == Pick(ServedState(st, qs, k), qs[k], {}).st
    decreases k
  {
    hide Pick, Sound;
    var ask, st1 := Runs.Ask(qs[0], {}), Pick(st, qs[0], {}).st;
    assert Runs.Step(st, ask) == st1;
    assert Asks(qs[..k + 1])[0] == ask && Asks(qs[..k + 1])[1..] == Asks(qs[1..][..k]);
    if k == 0 {
      assert Asks(qs[..0]) == [] && Asks(qs[1..][..0]) == [];
      assert Runs.Final(st1, []) == st1;
    } else {
      ServedNext(st1, qs[1..], k - 1);
      assert Asks(qs[..k])[0] == ask && Asks(qs[..k])[1..] == Asks(qs[1..][..k - 1]);
    }
  }

  /** With nothing else going on and every dial answering, a dispatch is one pick. */
  lemma AnsweredAtOnce(l: Look, q: Request, log: seq<nat>, gaveUp: bool)
    requires Fit(l) && |log| == if gaveUp then 0 else 1
    ensures Whole(l, q, [], log, gaveUp) == [Runs.Ask(q, {})]
  {
    hide Pick, Told, After;
    assert Elements([]) == {} && Trace(l, q, [], []) == [];
    if gaveUp {
      assert log == [];
    } else {
      assert log[..0] == [];
      assert Trace(l, q, [], log) == [Runs.Ask(q, {})];
    }
  }

  /** Where no rule and no sticky entry claims anybody, these are the picks of the rotation. */
  lemma {:induction false} ChoicesAreServed(st: State, qs: seq<Request>)
    requires Sound(st) && st.rules == [] && !st.sticky.enabled
    ensures Choices(st, qs) == Runs.Served(st, Asks(qs))
    decreases |qs|
  {
    hide Spin, Weights, Runs.SetUp, Sound, FindUp;
    if qs != [] {
      var st1 := Pick(st, qs[0], {}).st;
      assert PolicyWan(st.rules, qs[0]) == "";
      ChoicesAreServed(st1, qs[1..]);
      assert Asks(qs)[1..] == Asks(qs[1..]);
    }
  }

  /** As many unclaimed connections as the ratios of the active tier sum up to are shared out exactly by ratio. */
  lemma {:induction false} ConnectionsAreShared(st: State, qs: seq<Request>, i: nat)
    requires Sound(st) && st.rules == [] && !st.sticky.enabled && i < |st.wans|
    requires |qs| == Fairness.Total(Weights(st.wans, {})) > 0
    ensures Fairness.Count(Choices(st, qs), i) == if Eligible(st.wans, {}, i) then st.wans[i].ratio else 0
  {
    hide Sound, Weights, Eligible;
    ChoicesAreServed(st, qs);
    Runs.SharesUnderPinnedTraffic(st, Asks(qs), i);
  }
}
