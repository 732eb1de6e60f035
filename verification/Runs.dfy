/**
 Whole runs of selections by many connections, mixed with health flips, reloads of backends
 and policies, and changes of the sticky settings.
 */
module Runs {
  import opened Options
  import opened Policy
  import opened Rotation
  import opened Selection
  import opened Fairness

  /** One thing that happens to the selector, in the order it takes the lock. */
  datatype Event =
    | Ask(q: Request, tried: set<nat>)
    | Flip(up: seq<bool>)
    | Reload(wans: seq<Wan>)
    | Policies(rules: seq<Rule>)
    | Configure(enabled: bool, ttl: int)

  function SetUp(ws: seq<Wan>, up: seq<bool>): (ws': seq<Wan>)
    ensures |ws'| == |ws|
    ensures forall i :: 0 <= i < |ws| ==> ws'[i] == ws[i].(up := if i < |up| then up[i] else ws[i].up)
  {
    seq(|ws|, i requires 0 <= i < |ws| => ws[i].(up := if i < |up| then up[i] else ws[i].up))
  }

  /** A reload leaves every backend with a name and a ratio of at least 1. */
  predicate Usable(e: Event) {
    e.Reload? ==> e.wans != [] && Named(e.wans) && forall i :: 0 <= i < |e.wans| ==> e.wans[i].ratio >= 1
  }

  predicate Named(ws: seq<Wan>) {
    forall i :: 0 <= i < |ws| ==> ws[i].name != ""
  }

  function Step(st: State, e: Event): (st': State)
    requires Sound(st) && Usable(e)
    ensures Sound(st') && (Named(st.wans) ==> Named(st'.wans))
  {
    match e
    case Ask(q, tried) => Pick(st, q, tried).st
    case Flip(up) => st.(wans := SetUp(st.wans, up))
    case Reload(wans) => st.(wans := wans, rotor := Rotor(0, 0))
    case Policies(rules) => st.(rules := rules)
    case Configure(enabled, ttl) => st.(sticky := Sticky(enabled, ttl, if enabled then st.sticky.entries else map[]))
  }

  // ---- pinned traffic does not disturb the rotation ------------------------

  /** The picks of a run that the rotation served. */
  function Served(st: State, evs: seq<Event>): (s: seq<Option<nat>>)
    requires Sound(st) && forall e :: e in evs ==> Usable(e)
    decreases |evs|
  {
    if evs == [] then [] else
      var e := evs[0];
      var rest := Served(Step(st, e), evs[1..]);
      if e.Ask? && Pick(st, e.q, e.tried).via == ByRotation
      then [Pick(st, e.q, e.tried).choice] + rest else rest
  }

  function Final(st: State, evs: seq<Event>): (st': State)
    requires Sound(st) && forall e :: e in evs ==> Usable(e)
    ensures Sound(st')
    decreases |evs|
  {
    if evs == [] then st else Final(Step(st, evs[0]), evs[1..])
  }

  /** What a rotation with nothing layered on top is asked to do. */
  datatype Plain = Turned(w: seq<nat>) | Restarted

  /** The same run seen by the rotation alone: pinned connections are gone. */
  function Unpinned(st: State, evs: seq<Event>): (ps: seq<Plain>)
    requires Sound(st) && forall e :: e in evs ==> Usable(e)
    decreases |evs|
  {
    if evs == [] then [] else
      var e := evs[0];
      var rest := Unpinned(Step(st, e), evs[1..]);
      if e.Reload? then [Restarted] + rest
      else if e.Ask? && Pick(st, e.q, e.tried).via == ByRotation
      then [Turned(Weights(st.wans, e.tried))] + rest else rest
  }

  /** Fits: every turn is asked of a cursor that is inside its list. */
  predicate Fits(r: Rotor, ps: seq<Plain>)
    decreases |ps|
  {
    ps == [] ||
    match ps[0]
    case Restarted => Fits(Rotor(0, 0), ps[1..])
    case Turned(w) => (r.idx < |w| || w == []) && Fits(Spin(w, r).rotor, ps[1..])
  }

  /** The plain weighted round-robin, run alone. */
  function Alone(r: Rotor, ps: seq<Plain>): (out: (seq<Option<nat>>, Rotor))
    requires Fits(r, ps)
    decreases |ps|
  {
    if ps == [] then ([], r) else
      match ps[0]
      case Restarted => Alone(Rotor(0, 0), ps[1..])
      case Turned(w) =>
        var t := Spin(w, r);
        var rest := Alone(t.rotor, ps[1..]);
        ([t.pick] + rest.0, rest.1)
  }

  /**
   In any run mixing policy picks, sticky picks, fallback picks, health flips and reloads,
   the picks served by the rotation, and where it ends, are those of the plain weighted
   round-robin run alone on the same health and exclusions.
   */
  lemma {:induction false} PinnedTrafficIsInvisible(st: State, evs: seq<Event>)
    requires Sound(st) && forall e :: e in evs ==> Usable(e)
    ensures Fits(st.rotor, Unpinned(st, evs))
    ensures Alone(st.rotor, Unpinned(st, evs)) == (Served(st, evs), Final(st, evs).rotor)
    decreases |evs|
  {
    if evs != [] {
      var e, rest := evs[0], evs[1..];
      var st1 := Step(st, e);
      PinnedTrafficIsInvisible(st1, rest);
      var ps := Unpinned(st1, rest);
      if e.Reload? {
        assert ([Restarted] + ps)[1..] == ps;
      } else if e.Ask? {
        PickUsable(st, e.q, e.tried);
        AskMovesRotor(st, e.q, e.tried);
        var w := Weights(st.wans, e.tried);
        assert ([Turned(w)] + ps)[1..] == ps;
      }
    }
  }

  lemma AskMovesRotor(st: State, q: Request, tried: set<nat>)
    requires Sound(st)
    ensures var o := Pick(st, q, tried);
      if o.via == ByRotation
      then Turn(o.choice, o.st.rotor) == Spin(Weights(st.wans, tried), st.rotor)
      else o.st.rotor == st.rotor
  {
  }

  /** First attempts only, with no flip and no reload between them. */
  predicate Calm(evs: seq<Event>) {
    forall e :: e in evs ==> e.Ask? && e.tried == {}
  }

  lemma SoundOk(st: State, tried: set<nat>)
    requires Sound(st) && st.wans != []
    ensures Ok(Weights(st.wans, tried), st.rotor)
  {
  }

  lemma {:induction false} CalmRunIsPicks(st: State, evs: seq<Event>)
    requires Sound(st) && st.wans != [] && Calm(evs)
    ensures Ok(Weights(st.wans, {}), st.rotor)
    ensures Served(st, evs) == Picks(Weights(st.wans, {}), st.rotor, |Served(st, evs)|)
    decreases |evs|
  {
    hide Sound, Pick, Weights, Ok;
    SoundOk(st, {});
    if evs != [] {
      var e, rest := evs[0], evs[1..];
      assert e in evs;
      var st1 := Step(st, e);
      AskMovesRotor(st, e.q, e.tried);
      CalmRunIsPicks(st1, rest);
    }
  }

  /**
   While health and the list stay as they are, the first attempts that no policy rule and
   no sticky entry claims are shared out exactly by ratio among the active tier, however
   many pinned connections come in between: any W of them give backend i its ratio.
   */
  lemma {:induction false} SharesUnderPinnedTraffic(st: State, evs: seq<Event>, i: nat)
    requires Sound(st) && Calm(evs) && i < |st.wans|
    requires |Served(st, evs)| == Total(Weights(st.wans, {})) > 0
    ensures Count(Served(st, evs), i) == if Eligible(st.wans, {}, i) then st.wans[i].ratio else 0
  {
    CalmRunIsPicks(st, evs);
    ExactShares(Weights(st.wans, {}), st.rotor, i);
  }

  // ---- sticky stability ----------------------------------------------------

  /** The named backend stays listed and UP after every event of the run. */
  predicate StaysUp(st: State, evs: seq<Event>, name: string)
    requires Sound(st) && forall e :: e in evs ==> Usable(e)
    decreases |evs|
  {
    UpListed(st.wans, name) && (evs == [] || StaysUp(Step(st, evs[0]), evs[1..], name))
  }

  predicate FirstAttempt(e: Event, client: string) {
    e.Ask? && e.tried == {} && e.q.client == client
  }

  predicate SwitchesOff(e: Event) {
    e.Configure? && !e.enabled
  }

  /**
   The client's first attempts come by the deadline its last one set, no policy rule of the
   time pins them to an UP backend, and sticky stays on.
   */
  predicate Returning(st: State, evs: seq<Event>, client: string, deadline: int)
    requires Sound(st) && forall e :: e in evs ==> Usable(e)
    decreases |evs|
  {
    evs != [] ==>
      var e, st' := evs[0], Step(st, evs[0]);
      if FirstAttempt(e, client)
      then e.q.now <= deadline && PolicyChoice(st.wans, st.rules, e.q) == None &&
           Returning(st', evs[1..], client, e.q.now + st.sticky.ttl)
      else !SwitchesOff(e) && Returning(st', evs[1..], client, deadline)
  }

  /** Every first attempt of the client is answered, from its sticky entry, with the named backend. */
  predicate AlwaysAnswered(st: State, evs: seq<Event>, client: string, name: string)
    requires Sound(st) && forall e :: e in evs ==> Usable(e)
    decreases |evs|
  {
    evs != [] ==>
      && (FirstAttempt(evs[0], client) ==> AnsweredWith(st, evs[0].q, name))
      && AlwaysAnswered(Step(st, evs[0]), evs[1..], client, name)
  }

  predicate AnsweredWith(st: State, q: Request, name: string)
    requires Sound(st)
  {
    var o := Pick(st, q, {});
    o.via == BySticky && o.choice.Some? && o.choice.value < |st.wans| &&
    st.wans[o.choice.value].name == name && st.wans[o.choice.value].up
  }

  predicate PinnedTo(s: Sticky, client: string, name: string, deadline: int) {
    s.enabled && client in s.entries && s.entries[client] == Entry(name, deadline)
  }

  /** What others do, and the client's own fallback picks, leaves the client's entry alone. */
  lemma {:induction false} OthersKeepEntry(st: State, e: Event, client: string, name: string, deadline: int)
    requires Sound(st) && Usable(e) && client != "" && PinnedTo(st.sticky, client, name, deadline)
    requires !FirstAttempt(e, client) && !SwitchesOff(e)
    ensures PinnedTo(Step(st, e).sticky, client, name, deadline)
  {
    hide Rotate, PolicyChoice, StickyChoice, SetUp;
  }

  lemma {:induction false} ReturnRenewsEntry(st: State, q: Request, name: string, deadline: int)
    requires Sound(st) && q.client != "" && PinnedTo(st.sticky, q.client, name, deadline)
    requires UpListed(st.wans, name) && q.now <= deadline
    requires PolicyChoice(st.wans, st.rules, q) == None
    ensures AnsweredWith(st, q, name)
    ensures PinnedTo(Pick(st, q, {}).st.sticky, q.client, name, q.now + st.sticky.ttl)
  {
    hide PolicyChoice;
  }

  /**
   A pinned client that comes back in time keeps getting the backend of that name, through
   any interleaving of other clients' picks, fallback picks, health flips of other backends,
   changes of policies and of the ttl, and reloads that keep the name listed (possibly at
   another position).
   */
  lemma {:induction false} StickyStability(st: State, evs: seq<Event>, client: string, name: string, deadline: int)
    requires Sound(st) && forall e :: e in evs ==> Usable(e)
    requires client != "" && PinnedTo(st.sticky, client, name, deadline)
    requires StaysUp(st, evs, name)
    requires Returning(st, evs, client, deadline)
    ensures AlwaysAnswered(st, evs, client, name)
    decreases |evs|
  {
    hide Sound, Pick, UpListed, PolicyChoice;
    if evs != [] {
      var e := evs[0];
      if FirstAttempt(e, client) {
        ReturnRenewsEntry(st, e.q, name, deadline);
        StickyStability(Step(st, e), evs[1..], client, name, e.q.now + st.sticky.ttl);
      } else {
        OthersKeepEntry(st, e, client, name, deadline);
        StickyStability(Step(st, e), evs[1..], client, name, deadline);
      }
    }
  }

  /** A first attempt the rotation serves is what pins the client. */
  lemma {:induction false} RotationPins(st: State, q: Request)
    requires Sound(st) && st.sticky.enabled && q.client != ""
    requires Pick(st, q, {}).via == ByRotation && Pick(st, q, {}).choice.Some?
    requires Named(st.wans)
    ensures var o := Pick(st, q, {});
      o.choice.value < |st.wans| &&
      PinnedTo(o.st.sticky, q.client, st.wans[o.choice.value].name, q.now + st.sticky.ttl)
  {
    PickUsable(st, q, {});
  }

  // ---- what changes the name a client is pinned to -----------------------------

  /** The name a client's entry holds, expired or not. */
  function EntryName(s: Sticky, client: string): Option<string> {
    if client in s.entries then Some(s.entries[client].name) else None
  }

  datatype Decision = Kept | Dropped | Repinned(name: string)

  /**
   What one event does to the name of a client's entry. Only switching sticky off, and the
   client's own first attempts that the rotation serves, ever decide anything.
   */
  function Decide(st: State, e: Event, client: string): Decision
    requires Sound(st) && Usable(e)
  {
    if SwitchesOff(e) then Dropped
    else if !FirstAttempt(e, client) || client == "" || !st.sticky.enabled then Kept
    else
      PickUsable(st, e.q, {});
      var o := Pick(st, e.q, {});
      if o.via != ByRotation then Kept
      else if o.choice.Some? && st.wans[o.choice.value].name != "" then Repinned(st.wans[o.choice.value].name)
      else if client in st.sticky.entries && e.q.now > st.sticky.entries[client].expires then Dropped
      else Kept
  }

  function Decided(d: Decision, before: Option<string>): Option<string> {
    match d
    case Kept => before
    case Dropped => None
    case Repinned(name) => Some(name)
  }

  /** The last event of a run that decided anything. */
  function LastDecision(st: State, evs: seq<Event>, client: string): Decision
    requires Sound(st) && forall e :: e in evs ==> Usable(e)
    decreases |evs|
  {
    if evs == [] then Kept
    else
      var later := LastDecision(Step(st, evs[0]), evs[1..], client);
      if later != Kept then later else Decide(st, evs[0], client)
  }

  lemma {:induction false} StepDecides(st: State, e: Event, client: string)
    requires Sound(st) && Usable(e)
    ensures EntryName(Step(st, e).sticky, client) == Decided(Decide(st, e, client), EntryName(st.sticky, client))
  {
    hide PolicyChoice, SetUp, Spin, Weights;
  }

  /** After any run a client's entry names what the last decision of the run says. */
  lemma {:induction false} EntryAfterRun(st: State, evs: seq<Event>, client: string)
    requires Sound(st) && forall e :: e in evs ==> Usable(e)
    ensures EntryName(Final(st, evs).sticky, client) ==
      Decided(LastDecision(st, evs, client), EntryName(st.sticky, client))
    decreases |evs|
  {
    hide Decide, Step, Sound;
    if evs != [] {
      StepDecides(st, evs[0], client);
      EntryAfterRun(Step(st, evs[0]), evs[1..], client);
    }
  }

  /** Before every event of the run the named backend is DOWN or gone, and some other one is UP. */
  predicate DownAmongUp(st: State, evs: seq<Event>, name: string)
    requires Sound(st) && forall e :: e in evs ==> Usable(e)
    decreases |evs|
  {
    evs != [] ==>
      && !UpListed(st.wans, name) && !AllDown(st.wans)
      && DownAmongUp(Step(st, evs[0]), evs[1..], name)
  }

  /** The client makes a first attempt that no policy rule pins to an UP backend. */
  predicate Unruled(st: State, e: Event, client: string) {
    FirstAttempt(e, client) && st.sticky.enabled && PolicyChoice(st.wans, st.rules, e.q) == None
  }

  /** Sticky stays on and the client makes no first attempt of its own choosing. */
  predicate Undisturbed(st: State, evs: seq<Event>, client: string)
    requires Sound(st) && forall e :: e in evs ==> Usable(e)
    decreases |evs|
  {
    evs != [] ==>
      && !SwitchesOff(evs[0]) && !Unruled(st, evs[0], client)
      && Undisturbed(Step(st, evs[0]), evs[1..], client)
  }

  /** While its backend is DOWN and another is UP, a pinned client's own attempt repins it elsewhere. */
  lemma {:induction false} DownDecides(st: State, e: Event, client: string, name: string)
    requires Sound(st) && Usable(e) && client != "" && Named(st.wans)
    requires !UpListed(st.wans, name) && !AllDown(st.wans)
    ensures EntryName(st.sticky, client) == Some(name) ==>
      (Decide(st, e, client) == Kept <==> !SwitchesOff(e) && !Unruled(st, e, client))
    ensures Decide(st, e, client) != Repinned(name)
  {
    hide PolicyWan, Spin, Weights, AfterLookup;
    if Unruled(st, e, client) {
      PickUsable(st, e.q, {});
      SomebodyUp(st.wans);
    }
  }

  lemma SomebodyUp(ws: seq<Wan>)
    requires !AllDown(ws)
    ensures exists i :: 0 <= i < |ws| && Eligible(ws, {}, i)
  {
    var j := LowestUp(ws, |ws|);
    assert InActiveTier(ws, j) && Eligible(ws, {}, j);
  }

  lemma {:induction false} LowestUp(ws: seq<Wan>, n: nat) returns (j: nat)
    requires n <= |ws| && exists i :: 0 <= i < n && ws[i].up
    ensures j < n && ws[j].up && forall k :: 0 <= k < n && ws[k].up ==> ws[j].metric <= ws[k].metric
    decreases n
  {
    if exists i :: 0 <= i < n - 1 && ws[i].up {
      j := LowestUp(ws, n - 1);
      if ws[n - 1].up && ws[n - 1].metric < ws[j].metric {
        j := n - 1;
      }
    } else {
      j := n - 1;
    }
  }

  /**
   What becomes of a pinned client while its backend is DOWN and another is UP: its entry
   outlives the outage exactly when sticky stays on and the client makes no first attempt
   that policy leaves to sticky and the rotation. The outage itself invalidates nothing.
   */
  lemma {:induction false} EntryOutlivesOutage(st: State, evs: seq<Event>, client: string, name: string)
    requires Sound(st) && forall e :: e in evs ==> Usable(e)
    requires client != "" && Named(st.wans) && EntryName(st.sticky, client) == Some(name)
    requires DownAmongUp(st, evs, name)
    ensures EntryName(Final(st, evs).sticky, client) == Some(name) <==> Undisturbed(st, evs, client)
  {
    EntryAfterRun(st, evs, client);
    OutageDecisions(st, evs, client, name);
  }

  /** In an outage no decision brings the name back. */
  lemma {:induction false} OutageDecisions(st: State, evs: seq<Event>, client: string, name: string)
    requires Sound(st) && forall e :: e in evs ==> Usable(e)
    requires client != "" && Named(st.wans)
    requires DownAmongUp(st, evs, name)
    ensures LastDecision(st, evs, client) != Repinned(name)
    ensures EntryName(st.sticky, client) == Some(name) ==>
      (LastDecision(st, evs, client) == Kept <==> Undisturbed(st, evs, client))
    decreases |evs|
  {
    hide Decide, Step, Sound, Unruled, UpListed;
    if evs != [] {
      DownDecides(st, evs[0], client, name);
      StepDecides(st, evs[0], client);
      OutageDecisions(Step(st, evs[0]), evs[1..], client, name);
    }
  }

  /** Events none of which is the client's own first attempt or switches sticky off. */
  predicate LeavesAlone(evs: seq<Event>, client: string) {
    forall e :: e in evs ==> !FirstAttempt(e, client) && !SwitchesOff(e)
  }

  /**
   Nothing of what happens while a client is away is remembered against its backend: not that
   it went DOWN, nor how often, nor what was reloaded. If it is listed and UP when the client
   returns by its deadline, it answers, unless a policy rule of the time pins the client.
   */
  lemma {:induction false} OutageForgotten(st: State, evs: seq<Event>, q: Request, name: string, deadline: int)
    requires Sound(st) && forall e :: e in evs ==> Usable(e)
    requires q.client != "" && PinnedTo(st.sticky, q.client, name, deadline)
    requires LeavesAlone(evs, q.client)
    requires var back := Final(st, evs);
      q.now <= deadline && UpListed(back.wans, name) && PolicyChoice(back.wans, back.rules, q) == None
    ensures AnsweredWith(Final(st, evs), q, name)
  {
    hide *;
    AwayKeepsEntry(st, evs, q.client, name, deadline);
    ReturnRenewsEntry(Final(st, evs), q, name, deadline);
  }

  lemma {:induction false} AwayKeepsEntry(st: State, evs: seq<Event>, client: string, name: string, deadline: int)
    requires Sound(st) && forall e :: e in evs ==> Usable(e)
    requires client != "" && PinnedTo(st.sticky, client, name, deadline)
    requires LeavesAlone(evs, client)
    ensures PinnedTo(Final(st, evs).sticky, client, name, deadline)
    decreases |evs|
  {
    hide Sound, Pick;
    if evs != [] {
      assert evs[0] in evs;
      OthersKeepEntry(st, evs[0], client, name, deadline);
      AwayKeepsEntry(Step(st, evs[0]), evs[1..], client, name, deadline);
    }
  }

  /** A returning client is answered from its entry exactly when it is in time, the name UP, and no rule claims it. */
  lemma {:induction false} ReturnAnsweredIff(st: State, evs: seq<Event>, q: Request, name: string, deadline: int)
    requires Sound(st) && forall e :: e in evs ==> Usable(e)
    requires q.client != "" && PinnedTo(st.sticky, q.client, name, deadline)
    requires LeavesAlone(evs, q.client)
    ensures var back := Final(st, evs);
      Pick(back, q, {}).via == BySticky <==>
      q.now <= deadline && UpListed(back.wans, name) && PolicyChoice(back.wans, back.rules, q) == None
  {
    hide Sound, Pick, UpListed, FindUp, Final;
    var back := Final(st, evs);
    AwayKeepsEntry(st, evs, q.client, name, deadline);
    RoutingOrder(back, q, {});
    FindUpFinds(back.wans, PolicyWan(back.rules, q));
  }

  /**
   A client that first returns after its deadline has no claim: the rotation serves it, unless
   a policy rule does, and pins it to its new choice, or to nothing if there is none.
   */
  lemma {:induction false} LateReturnStartsAnew(st: State, evs: seq<Event>, q: Request, name: string, deadline: int)
    requires Sound(st) && forall e :: e in evs ==> Usable(e)
    requires q.client != "" && PinnedTo(st.sticky, q.client, name, deadline)
    requires LeavesAlone(evs, q.client) && q.now > deadline
    requires PolicyChoice(Final(st, evs).wans, Final(st, evs).rules, q) == None
    ensures var back := Final(st, evs);
      var o := Pick(back, q, {});
      && o.via == ByRotation
      && Turn(o.choice, o.st.rotor) == Spin(Weights(back.wans, {}), back.rotor)
      && Held(o.st.sticky, q.client) ==
         if o.choice.Some? && o.choice.value < |back.wans| && back.wans[o.choice.value].name != ""
         then Some(Entry(back.wans[o.choice.value].name, q.now + back.sticky.ttl)) else None
  {
    hide Sound, Pick, UpListed, FindUp, Final, Spin, Weights;
    var back := Final(st, evs);
    AwayKeepsEntry(st, evs, q.client, name, deadline);
    RoutingOrder(back, q, {});
    FindUpFinds(back.wans, PolicyWan(back.rules, q));
    AskMovesRotor(back, q, {});
    PickEntries(back, q, {}, q.client);
  }

  const TWO_WANS := [Wan("a", true, 0, 1), Wan("b", true, 0, 1)]

  /** A client pinned to "a" until 300 is answered with "a" at 200, after "a" went DOWN and came back. */
  lemma {:induction false} OutageForgottenOnce(q: Request)
    requires q.client == "c" && q.now == 200
    ensures var st := State(TWO_WANS, Rotor(0, 0), [], Sticky(true, 300, map["c" := Entry("a", 300)]));
      && Sound(st) && !UpListed(Step(st, Flip([false])).wans, "a")
      && AnsweredWith(Final(st, [Flip([false]), Flip([true])]), q, "a")
  {
    hide Pick;
    var st := State(TWO_WANS, Rotor(0, 0), [], Sticky(true, 300, map["c" := Entry("a", 300)]));
    var st1 := Step(st, Flip([false]));
    var st2 := Step(st1, Flip([true]));
    assert [Flip([false]), Flip([true])][1..] == [Flip([true])] && [Flip([true])][1..] == [];
    assert Final(st1, [Flip([true])]) == Final(st2, []) == st2;
    assert st2.wans[0].name == "a" && st2.wans[0].up;
    OutageForgotten(st, [Flip([false]), Flip([true])], q, "a", 300);
  }
}
