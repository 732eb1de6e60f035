/** What one connection dials before it succeeds or gives up. */
module Dialling {
  import opened Options
  import opened Policy
  import opened Rotation
  import opened Selection
  import opened Backends
  import opened Reload

  /**
   What other goroutines do while a connection is being dispatched: pick for another
   connection, start or end one, flip a verdict, reload the list, or change the policies or
   the sticky settings.
   */
  datatype Event =
    | OtherPick(q: Request, tried: set<nat>)
    | OtherStarts(i: nat)
    | OtherEnds(c: Conn)
    | Flip(i: nat, up: bool)
    | NewList(cfg: seq<BackendJson>, host: Host)
    | NewRules(rules: seq<Rule>)
    | NewSticky(enabled: bool, ttl: int)

  ghost predicate Admissible(e: Event, limit: nat, conns: set<Conn>) {
    && (e.NewList? ==> |e.cfg| <= limit)
    && (e.OtherEnds? ==> e.c in conns)
  }

  ghost predicate AdmissibleEach(evs: seq<Event>, limit: nat, conns: set<Conn>) {
    forall k :: 0 <= k < |evs| ==> Admissible(evs[k], limit, conns)
  }

  ghost predicate AdmissibleRun(env: seq<seq<Event>>, limit: nat, conns: set<Conn>) {
    forall k :: 0 <= k < |env| ==> AdmissibleEach(env[k], limit, conns)
  }

  /** The list stays as it is. */
  predicate NoReload(evs: seq<Event>) {
    forall k :: 0 <= k < |evs| ==> !evs[k].NewList?
  }

  /** Health and list stay as they are; the cursor may move, and connections come and go. */
  predicate Quiet(evs: seq<Event>) {
    forall k :: 0 <= k < |evs| ==> !evs[k].NewList? && !evs[k].Flip?
  }

  predicate NoStart(evs: seq<Event>) {
    forall k :: 0 <= k < |evs| ==> !evs[k].OtherStarts?
  }

  predicate NoReloads(env: seq<seq<Event>>) {
    forall k :: 0 <= k < |env| ==> NoReload(env[k])
  }

  predicate QuietRun(env: seq<seq<Event>>) {
    forall k :: 0 <= k < |env| ==> Quiet(env[k])
  }

  predicate NoStarts(env: seq<seq<Event>>) {
    forall k :: 0 <= k < |env| ==> NoStart(env[k])
  }

  lemma LimitHolds(e: Event, limit: nat, conns: set<Conn>)
    requires Admissible(e, limit, conns)
    ensures (e.NewList? ==> |e.cfg| <= limit) && (e.OtherEnds? ==> e.c in conns)
  {
  }

  lemma OneOfEach(evs: seq<Event>, k: nat, limit: nat, conns: set<Conn>, now: set<Conn>)
    requires k < |evs| && AdmissibleEach(evs, limit, conns) && conns <= now
    ensures Admissible(evs[k], limit, now)
    ensures (NoReload(evs) ==> !evs[k].NewList?) && (Quiet(evs) ==> !evs[k].NewList? && !evs[k].Flip?)
    ensures NoStart(evs) ==> !evs[k].OtherStarts?
  {
  }

  lemma IpsAfterNext(ips: seq<string>, evs: seq<Event>, k: nat)
    requires k < |evs|
    ensures IpsAfterAll(ips, evs[k..]) == IpsAfterAll(IpsAfter(ips, evs[k]), evs[k + 1..])
  {
    assert evs[k..][1..] == evs[k + 1..];
  }

  lemma IpsAfterNone(ips: seq<string>)
    ensures IpsAfterAll(ips, []) == ips
  {
  }

  /** What happens between the k-th pick and its dial. */
  function Meanwhile(env: seq<seq<Event>>, k: nat): (evs: seq<Event>)
    ensures NoReloads(env) ==> NoReload(evs)
    ensures QuietRun(env) ==> Quiet(evs)
    ensures NoStarts(env) ==> NoStart(evs)
  {
    if k < |env| then env[k] else []
  }

  /** The addresses listed after an event. */
  function IpsAfter(ips: seq<string>, e: Event): seq<string> {
    if e.NewList? then ReloadedIps(ips, e.cfg, e.host) else ips
  }

  function IpsAfterAll(ips: seq<string>, evs: seq<Event>): seq<string>
    decreases |evs|
  {
    if evs == [] then ips else IpsAfterAll(IpsAfter(ips, evs[0]), evs[1..])
  }

  /** The addresses listed at the k-th pick of a dispatch that found the list `ips`. */
  function IpsAt(ips: seq<string>, env: seq<seq<Event>>, k: nat): seq<string> {
    if k == 0 then ips else IpsAfterAll(IpsAt(ips, env, k - 1), Meanwhile(env, k - 1))
  }

  lemma IpsNext(ips: seq<string>, env: seq<seq<Event>>, k: nat)
    ensures IpsAt(ips, env, k + 1) == IpsAfterAll(IpsAt(ips, env, k), Meanwhile(env, k))
    ensures IpsAt(ips, env, 0) == ips
  {
  }

  /** The lists of addresses up to the n-th pick. */
  function Lists(ips: seq<string>, env: seq<seq<Event>>, n: nat): (ls: seq<seq<string>>)
    ensures |ls| == n + 1 && forall k :: 0 <= k <= n ==> ls[k] == IpsAt(ips, env, k)
  {
    seq(n + 1, k requires 0 <= k <= n => IpsAt(ips, env, k))
  }

  /** Every object picked has the address that was listed at the dialled position at its pick. */
  ghost predicate PickedAt(ips: seq<string>, env: seq<seq<Event>>, log: seq<nat>, picked: seq<Backend>) {
    |picked| == |log| && forall k :: 0 <= k < |log| ==>
      log[k] < |IpsAt(ips, env, k)| && picked[k].ip == IpsAt(ips, env, k)[log[k]]
  }

  /** Some list has another address at this position. */
  predicate OtherStood(lists: seq<seq<string>>, j: nat, ip: string) {
    exists v :: 0 <= v < |lists| && j < |lists[v]| && lists[v][j] != ip
  }

  /** At every eligible position some list has an address other than this one. */
  predicate MayMiss(lists: seq<seq<string>>, ws: seq<Wan>, ip: string) {
    forall j :: 0 <= j < |ws| && Eligible(ws, {}, j) ==> OtherStood(lists, j, ip)
  }

  /** With every eligible position dialled, an address nobody picked was not the one dialled at any of them. */
  lemma {:induction false} Missed(ips: seq<string>, env: seq<seq<Event>>, log: seq<nat>, picked: seq<Backend>,
                                  ws: seq<Wan>, ip: string)
    requires PickedAt(ips, env, log, picked)
    requires forall j :: 0 <= j < |ws| && Eligible(ws, {}, j) ==> j in log
    ensures ip in Ips(picked) || MayMiss(Lists(ips, env, |log|), ws, ip)
  {
    hide Eligible, IpsAt;
    var lists := Lists(ips, env, |log|);
    if ip !in Ips(picked) {
      forall j | 0 <= j < |ws| && Eligible(ws, {}, j) ensures OtherStood(lists, j, ip) {
        var k :| 0 <= k < |log| && log[k] == j;
        assert Ips(picked)[k] != ip;
        assert lists[k] == IpsAt(ips, env, k) && lists[k][j] != ip;
      }
    }
  }

  /** The objects picked, where the list never changes. */
  ghost predicate PickedFrom(list: seq<Backend>, log: seq<nat>, picked: seq<Backend>) {
    |picked| == |log| && forall k :: 0 <= k < |log| ==> log[k] < |list| && picked[k] == list[log[k]]
  }

  function Elements(log: seq<nat>): set<nat> {
    set i | i in log
  }

  predicate Distinct(log: seq<nat>) {
    forall j, k :: 0 <= j < k < |log| ==> log[j] != log[k]
  }

  /**
   Whom a connection is to be tried on: everybody eligible, and first of all the backend a
   policy rule or a sticky entry pins it to, whatever its tier.
   */
  ghost function Targets(st: State, q: Request): set<nat>
    requires Sound(st)
  {
    var o := Pick(st, q, {});
    (set i | 0 <= i < |st.wans| && Eligible(st.wans, {}, i)) +
    (if o.via == ByRotation || o.choice == None then {} else {o.choice.value})
  }

  /** Nobody is chosen only when everybody eligible was tried. */
  lemma {:induction false} GivingUp(s: State, q: Request, log: seq<nat>)
    requires Sound(s) && Pick(s, q, Elements(log)).choice == None
    ensures forall i :: 0 <= i < |s.wans| && Eligible(s.wans, {}, i) ==> i in log
  {
    PickUsable(s, q, Elements(log));
    forall i | 0 <= i < |s.wans| && Eligible(s.wans, {}, i) ensures i in log {
      assert !Eligible(s.wans, Elements(log), i);
    }
  }

  lemma {:induction false} AllTargetsTried(st: State, s: State, q: Request, log: seq<nat>)
    requires Sound(st) && Sound(s) && s.wans == st.wans
    requires Pick(s, q, Elements(log)).choice == None
    requires if log == [] then s == st else Pick(st, q, {}).choice == Some(log[0])
    ensures Targets(st, q) <= Elements(log)
  {
    hide Pick, Eligible;
    GivingUp(s, q, log);
    if log == [] {
      assert Elements(log) == {};
    } else {
      assert log[0] in Elements(log);
    }
  }

  lemma {:induction false} PickIsTarget(st: State, s: State, q: Request, tried: set<nat>, i: nat)
    requires Sound(st) && Sound(s) && s.wans == st.wans
    requires tried == {} ==> s == st
    requires Pick(s, q, tried).choice == Some(i)
    ensures i in Targets(st, q)
  {
    PickUsable(s, q, tried);
    if tried != {} { LaterPicksRotate(s, q, tried); }
  }

  lemma LaterPicksRotate(s: State, q: Request, tried: set<nat>)
    requires Sound(s) && tried != {}
    ensures Pick(s, q, tried).via == ByRotation
  {
  }

  lemma {:induction false} DistinctCount(log: seq<nat>)
    requires Distinct(log)
    ensures |Elements(log)| == |log|
    decreases |log|
  {
    if log != [] {
      var front, last := log[..|log| - 1], log[|log| - 1];
      DistinctCount(front);
      assert Elements(log) == Elements(front) + {last};
    } else {
      assert Elements(log) == {};
    }
  }

  lemma {:induction false} BelowCount(s: set<nat>, limit: nat)
    requires forall i :: i in s ==> i < limit
    ensures |s| <= limit
    decreases limit
  {
    if limit == 0 {
      assert s == {};
    } else {
      BelowCount(s - {limit - 1}, limit - 1);
    }
  }

  /** A log of dials that all failed. */
  ghost predicate AllFailed(log: seq<nat>, dial: (nat, nat) -> bool, limit: nat) {
    Distinct(log) && |log| <= limit && forall k :: 0 <= k < |log| ==> log[k] < limit && !dial(k, log[k])
  }

  /** The log after one more dial, whose outcome is still open for its last entry. */
  ghost predicate AllButLastFailed(log: seq<nat>, dial: (nat, nat) -> bool, limit: nat) {
    Distinct(log) && |log| <= limit && forall k :: 0 <= k < |log| - 1 ==> !dial(k, log[k])
  }

  lemma DistinctNext(log: seq<nat>, i: nat)
    requires Distinct(log) && i !in Elements(log)
    ensures Distinct(log + [i]) && Elements(log + [i]) == Elements(log) + {i}
  {
  }

  lemma LogNext(log: seq<nat>, i: nat, dial: (nat, nat) -> bool, limit: nat)
    requires AllFailed(log, dial, limit) && i !in Elements(log) && i < limit
    ensures AllButLastFailed(log + [i], dial, limit) && |log| < limit
    ensures !dial(|log|, i) ==> AllFailed(log + [i], dial, limit)
    ensures Elements(log + [i]) == Elements(log) + {i}
    ensures (log + [i])[0] == if log == [] then i else log[0]
    ensures Answered(log + [i], dial) == dial(|log|, i)
  {
    DistinctNext(log, i);
    DistinctCount(log + [i]);
    BelowCount(Elements(log + [i]), limit);
  }

  lemma AllFailedLast(log: seq<nat>, dial: (nat, nat) -> bool, limit: nat)
    requires AllFailed(log, dial, limit)
    ensures AllButLastFailed(log, dial, limit)
    ensures !Answered(log, dial)
  {
  }

  /** One known object was picked for every dial of the log, the first out of this list. */
  ghost predicate PickedEach(list: seq<Backend>, log: seq<nat>, picked: seq<Backend>, known: set<Backend>) {
    && |picked| == |log| && (forall b :: b in picked ==> b in known)
    && (log != [] ==> log[0] < |list| && picked[0] == list[log[0]])
  }

  lemma AllPicked(list: seq<Backend>, log: seq<nat>, picked: seq<Backend>)
    requires PickedFrom(list, log, picked)
    ensures forall i :: 0 <= i < |list| && i in log ==> list[i] in picked
  {
    forall i | 0 <= i < |list| && i in log ensures list[i] in picked {
      var k :| 0 <= k < |log| && log[k] == i;
      assert picked[k] == list[i];
    }
  }

  lemma StillAdmissible(env: seq<seq<Event>>, k: nat, limit: nat, before: set<Conn>, now: set<Conn>)
    requires AdmissibleRun(env, limit, before) && before <= now
    ensures AdmissibleEach(Meanwhile(env, k), limit, now)
  {
  }

  /** Whether a position answers does not depend on when it is dialled. */
  ghost predicate Steady(dial: (nat, nat) -> bool) {
    forall k, i :: dial(k, i) == dial(0, i)
  }

  predicate Answered(log: seq<nat>, dial: (nat, nat) -> bool) {
    log != [] && dial(|log| - 1, log[|log| - 1])
  }

  lemma {:induction false} AnsweredIffReachable(log: seq<nat>, dial: (nat, nat) -> bool, limit: nat, targets: set<nat>)
    requires AllButLastFailed(log, dial, limit) && Steady(dial)
    requires if Answered(log, dial) then Elements(log) <= targets else Elements(log) == targets
    ensures Answered(log, dial) <==> exists i :: i in targets && dial(0, i)
  {
    if Answered(log, dial) {
      var last := log[|log| - 1];
      assert last in Elements(log) && dial(0, last);
    } else {
      forall i | i in targets ensures !dial(0, i) {
        var k :| 0 <= k < |log| && log[k] == i;
        assert dial(k, i) == dial(0, i);
      }
    }
  }

  /**
   What a dispatch that no flip and no reload disturbs has done by its end: it dialled inside
   the targets, all of them if none answered; with steady dials it succeeded iff some target
   answers.
   */
  ghost predicate TargetsServed(st: State, q: Request, log: seq<nat>, dial: (nat, nat) -> bool)
    requires Sound(st)
  {
    && Elements(log) <= Targets(st, q)
    && (!Answered(log, dial) ==> Elements(log) == Targets(st, q))
    && (Steady(dial) ==> (Answered(log, dial) <==> exists i :: i in Targets(st, q) && dial(0, i)))
  }

  lemma ServedByAnswer(st: State, q: Request, log: seq<nat>, dial: (nat, nat) -> bool, limit: nat)
    requires Sound(st) && AllButLastFailed(log, dial, limit) && Answered(log, dial)
    requires Elements(log) <= Targets(st, q)
    ensures TargetsServed(st, q, log, dial)
  {
    hide Targets, Sound;
    if Steady(dial) { AnsweredIffReachable(log, dial, limit, Targets(st, q)); }
  }

  lemma ServedByGivingUp(st: State, s: State, q: Request, log: seq<nat>, dial: (nat, nat) -> bool, limit: nat)
    requires Sound(st) && Sound(s) && s.wans == st.wans
    requires Pick(s, q, Elements(log)).choice == None
    requires if log == [] then s == st else Pick(st, q, {}).choice == Some(log[0])
    requires AllFailed(log, dial, limit) && Elements(log) <= Targets(st, q)
    ensures TargetsServed(st, q, log, dial)
  {
    hide Targets, Sound, Pick;
    AllTargetsTried(st, s, q, log);
    AllFailedLast(log, dial, limit);
    if Steady(dial) { AnsweredIffReachable(log, dial, limit, Targets(st, q)); }
  }

  /**
   What a dispatch that found the addresses `ips` leaves when it gives up on this list: every
   eligible position was dialled, though after a reload another backend may stand there. So an
   eligible address was not dialled only if at every eligible position, its own included,
   another address was listed at some time; module Leftovers has the converse. Without a reload
   every eligible backend was dialled, whatever happened to health.
   */
  ghost predicate GaveUp(ips: seq<string>, env: seq<seq<Event>>, list: seq<Backend>, ws: seq<Wan>,
                         log: seq<nat>, picked: seq<Backend>)
    requires |list| == |ws|
  {
    && (forall i :: 0 <= i < |ws| && Eligible(ws, {}, i) ==> i in log)
    && (forall i :: 0 <= i < |ws| && Eligible(ws, {}, i) ==>
          list[i].ip in Ips(picked) || MayMiss(Lists(ips, env, |log|), ws, list[i].ip))
    && (NoReloads(env) ==> forall i :: 0 <= i < |ws| && Eligible(ws, {}, i) ==> list[i] in picked)
  }

  /** These addresses are those of a fixed plan, as far as they go. */
  predicate Places(ips: seq<string>, a: nat -> string) {
    forall i :: 0 <= i < |ips| ==> ips[i] == a(i)
  }

  /** No reload puts an address at another place than the plan does. */
  predicate KeepsPlaces(evs: seq<Event>, a: nat -> string) {
    forall k :: 0 <= k < |evs| && evs[k].NewList? ==> Places(ReloadedIps([], evs[k].cfg, evs[k].host), a)
  }

  lemma {:induction false} PlacesAfterAll(ips: seq<string>, evs: seq<Event>, a: nat -> string)
    requires Places(ips, a) && KeepsPlaces(evs, a)
    ensures Places(IpsAfterAll(ips, evs), a)
    decreases |evs|
  {
    if evs != [] {
      PlacesAfterAll(IpsAfter(ips, evs[0]), evs[1..], a);
    }
  }

  lemma KeepsMeanwhile(env: seq<seq<Event>>, k: nat, a: nat -> string)
    requires forall m :: 0 <= m < |env| ==> KeepsPlaces(env[m], a)
    ensures KeepsPlaces(Meanwhile(env, k), a)
  {
    hide NoReload, NoReloads, Quiet, QuietRun, NoStart, NoStarts;
  }

  lemma {:induction false} PlacesAt(ips: seq<string>, env: seq<seq<Event>>, k: nat, a: nat -> string)
    requires Places(ips, a) && forall m :: 0 <= m < |env| ==> KeepsPlaces(env[m], a)
    ensures Places(IpsAt(ips, env, k), a)
  {
    hide IpsAfterAll, IpsAt, Places, KeepsPlaces, Meanwhile;
    hide NoReload, NoReloads, Quiet, QuietRun, NoStart, NoStarts;
    if k == 0 {
      IpsNext(ips, env, 0);
    } else {
      PlacesAt(ips, env, k - 1, a);
      KeepsMeanwhile(env, k - 1, a);
      IpsNext(ips, env, k - 1);
      PlacesAfterAll(IpsAt(ips, env, k - 1), Meanwhile(env, k - 1), a);
    }
  }

  /**
   A dispatch whose reloads change settings, append or cut off, but put no address at another
   place, gives up only with every eligible address dialled.
   */
  lemma {:induction false} KeptPlacesAreServed(ips: seq<string>, env: seq<seq<Event>>, list: seq<Backend>, ws: seq<Wan>,
                                               log: seq<nat>, picked: seq<Backend>, a: nat -> string)
    requires |list| == |ws| && GaveUp(ips, env, list, ws, log, picked) && Ips(list) == IpsAt(ips, env, |log|)
    requires Places(ips, a) && forall m :: 0 <= m < |env| ==> KeepsPlaces(env[m], a)
    ensures forall i :: 0 <= i < |list| && Eligible(ws, {}, i) ==> list[i].ip in Ips(picked)
  {
    hide Eligible, KeepsPlaces, IpsAt;
    forall i | 0 <= i < |list| && Eligible(ws, {}, i) ensures !OtherStood(Lists(ips, env, |log|), i, list[i].ip) {
      PlacesAt(ips, env, |log|, a);
      assert Ips(list)[i] == a(i);
      forall v | 0 <= v <= |log| ensures Places(Lists(ips, env, |log|)[v], a) {
        PlacesAt(ips, env, v, a);
      }
    }
  }

  /** What is settled of log and picked at the end of a dispatch that found state st and this list. */
  ghost predicate Settled(st: State, list: seq<Backend>, q: Request, dial: (nat, nat) -> bool, env: seq<seq<Event>>,
                          limit: nat, log: seq<nat>, picked: seq<Backend>, known: set<Backend>)
    requires Sound(st)
  {
    && (match Pick(st, q, {}).choice case Some(i) => log != [] && log[0] == i case None => log == [])
    && AllButLastFailed(log, dial, limit)
    && PickedEach(list, log, picked, known) && PickedAt(Ips(list), env, log, picked)
    && (NoReloads(env) ==> PickedFrom(list, log, picked))
    && (QuietRun(env) ==> TargetsServed(st, q, log, dial))
  }

  /** What holds of log and picked between two attempts of a dispatch that found state st and this list. */
  ghost predicate Progress(st: State, list: seq<Backend>, q: Request, dial: (nat, nat) -> bool, env: seq<seq<Event>>,
                           limit: nat, log: seq<nat>, picked: seq<Backend>, known: set<Backend>)
    requires Sound(st)
  {
    && AllFailed(log, dial, limit) && PickedEach(list, log, picked, known)
    && PickedAt(Ips(list), env, log, picked)
    && (NoReloads(env) ==> PickedFrom(list, log, picked))
    && (log != [] ==> Pick(st, q, {}).choice == Some(log[0]) && Elements(log) != {})
    && (QuietRun(env) ==> Elements(log) <= Targets(st, q))
  }

  lemma DiallingStarts(st: State, list: seq<Backend>, q: Request, dial: (nat, nat) -> bool, env: seq<seq<Event>>,
                       limit: nat, known: set<Backend>)
    requires Sound(st)
    ensures Progress(st, list, q, dial, env, limit, [], [], known) && Elements([]) == {}
  {
    hide Pick, Targets, Sound;
  }

  /** Everything one more dial settles, whether it answers or not. */
  lemma DiallingNext(st: State, s: State, list: seq<Backend>, now: seq<Backend>, q: Request, dial: (nat, nat) -> bool,
                     env: seq<seq<Event>>, limit: nat, log: seq<nat>, picked: seq<Backend>,
                     known: set<Backend>, known': set<Backend>, i: nat, lb: Backend)
    requires Sound(st) && Sound(s) && Progress(st, list, q, dial, env, limit, log, picked, known)
    requires log == [] ==> s == st && now == list
    requires Pick(s, q, Elements(log)).choice == Some(i) && i !in Elements(log) && i < limit
    requires i < |now| && lb == now[i] && lb in known' && known <= known'
    requires Ips(now) == IpsAt(Ips(list), env, |log|)
    requires (NoReloads(env) ==> now == list) && (QuietRun(env) ==> s.wans == st.wans)
    ensures var log', picked' := log + [i], picked + [lb];
      && |log| < limit && Elements(log') == Elements(log) + {i}
      && (Answered(log', dial) <==> dial(|log|, i))
      && |picked'| == |log'| && picked'[|log'| - 1] == lb
      && (if dial(|log|, i) then Settled(st, list, q, dial, env, limit, log', picked', known')
          else Progress(st, list, q, dial, env, limit, log', picked', known'))
  {
    hide Targets, Pick, Sound, AllFailed, AllButLastFailed, Answered, TargetsServed, Distinct, IpsAt;
    LogNext(log, i, dial, limit);
    if log == [] { assert Elements(log) == {}; }
    if QuietRun(env) {
      PickIsTarget(st, s, q, Elements(log), i);
      if dial(|log|, i) { ServedByAnswer(st, q, log + [i], dial, limit); }
    }
  }

  /** Everything that is settled when nobody is left to pick. */
  lemma DiallingEnds(st: State, s: State, list: seq<Backend>, now: seq<Backend>, q: Request, dial: (nat, nat) -> bool,
                     env: seq<seq<Event>>, limit: nat, log: seq<nat>, picked: seq<Backend>, known: set<Backend>)
    requires Sound(st) && Sound(s) && Progress(st, list, q, dial, env, limit, log, picked, known)
    requires log == [] ==> s == st
    requires Pick(s, q, Elements(log)).choice == None && |now| == |s.wans|
    requires Ips(now) == IpsAt(Ips(list), env, |log|)
    requires (NoReloads(env) ==> now == list) && (QuietRun(env) ==> s.wans == st.wans)
    ensures Settled(st, list, q, dial, env, limit, log, picked, known) && !Answered(log, dial)
    ensures GaveUp(Ips(list), env, now, s.wans, log, picked)
  {
    hide Targets, Pick, Sound, TargetsServed, Eligible, MayMiss, Lists, IpsAt, PickedAt, Ips;
    GivingUp(s, q, log);
    AllFailedLast(log, dial, limit);
    if log == [] { assert Elements(log) == {}; }
    if NoReloads(env) { AllPicked(list, log, picked); }
    forall i | 0 <= i < |s.wans| && Eligible(s.wans, {}, i)
      ensures now[i].ip in Ips(picked) || MayMiss(Lists(Ips(list), env, |log|), s.wans, now[i].ip)
    {
      Missed(Ips(list), env, log, picked, s.wans, now[i].ip);
    }
    if QuietRun(env) { ServedByGivingUp(st, s, q, log, dial, limit); }
  }

  /** The UP backend a connection is pinned to before anything was tried, as RoutingOrder says. */
  function PinnedName(st: State, q: Request): Option<string> {
    var wan, pin := PolicyWan(st.rules, q), Pinned(st.sticky, q.client, q.now);
    if wan != "" && UpListed(st.wans, wan) then Some(wan)
    else if pin.Some? && UpListed(st.wans, pin.value) then pin
    else None
  }

  /** Everybody but position p is UP, with a metric no larger than any listed. */
  predicate OthersInTier(ws: seq<Wan>, p: nat) {
    forall i, j :: 0 <= i < |ws| && i != p && 0 <= j < |ws| ==> ws[i].up && ws[i].metric <= ws[j].metric
  }

  predicate OneTier(ws: seq<Wan>) {
    forall i, j :: 0 <= i < |ws| && 0 <= j < |ws| ==> ws[i].up && ws[i].metric == ws[j].metric
  }

  /**
   When a connection is tried on the whole list. With no pin: when every backend is down, or
   every one is UP with one metric. Pinned to position p: when everybody else is UP with a
   metric no larger than any listed. Otherwise giving up leaves backends undialled.
   */
  lemma {:induction false} FullPassIff(st: State, q: Request)
    requires Sound(st)
    ensures (forall i :: 0 <= i < |st.wans| ==> i in Targets(st, q)) <==>
      match PinnedName(st, q)
      case None => AllDown(st.wans) || OneTier(st.wans)
      case Some(name) =>
        var p := FindUp(st.wans, name, 0);
        p.Some? && OthersInTier(st.wans, p.value)
  {
    hide Pick, Targets, Pinned, PolicyWan, Eligible;
    PinTargets(st, q);
    match PinnedName(st, q)
    case None => EverybodyEligible(st.wans);
    case Some(name) => EverybodyElseEligible(st.wans, FindUp(st.wans, name, 0).value);
  }

  /** A pin adds one position to the eligible ones; no pin adds none. */
  lemma {:induction false} PinTargets(st: State, q: Request)
    requires Sound(st)
    ensures match PinnedName(st, q)
      case None => forall i :: 0 <= i < |st.wans| ==> (i in Targets(st, q) <==> Eligible(st.wans, {}, i))
      case Some(name) =>
        var p := FindUp(st.wans, name, 0);
        p.Some? && forall i :: 0 <= i < |st.wans| ==>
          (i in Targets(st, q) <==> i == p.value || Eligible(st.wans, {}, i))
  {
    hide Rotate, AfterLookup, Remember, PolicyWan, Eligible, FindUp;
    FindUpFinds(st.wans, PolicyWan(st.rules, q));
    var pin := Pinned(st.sticky, q.client, q.now);
    if pin.Some? { FindUpFinds(st.wans, pin.value); }
    RoutingOrder(st, q, {});
  }

  lemma {:induction false} EverybodyEligible(ws: seq<Wan>)
    ensures (forall i :: 0 <= i < |ws| ==> Eligible(ws, {}, i)) <==> AllDown(ws) || OneTier(ws)
  {
    if !AllDown(ws) && OneTier(ws) {
      forall i | 0 <= i < |ws| ensures InActiveTier(ws, i) {}
    }
    if !AllDown(ws) && forall i :: 0 <= i < |ws| ==> Eligible(ws, {}, i) {
      forall i, j | 0 <= i < |ws| && 0 <= j < |ws| ensures ws[i].up && ws[i].metric == ws[j].metric {
        assert Eligible(ws, {}, i) && Eligible(ws, {}, j);
      }
    }
  }

  lemma {:induction false} EverybodyElseEligible(ws: seq<Wan>, p: nat)
    requires p < |ws| && ws[p].up
    ensures (forall i :: 0 <= i < |ws| ==> i == p || Eligible(ws, {}, i)) <==> OthersInTier(ws, p)
  {
    if OthersInTier(ws, p) {
      forall i | 0 <= i < |ws| && i != p ensures InActiveTier(ws, i) {}
    }
    if forall i :: 0 <= i < |ws| ==> i == p || Eligible(ws, {}, i) {
      forall i, j | 0 <= i < |ws| && i != p && 0 <= j < |ws| ensures ws[i].up && ws[i].metric <= ws[j].metric {
        assert Eligible(ws, {}, i) && (j == p || Eligible(ws, {}, j));
      }
    }
  }

  const TWO_TIERS := [Wan("a", true, 0, 1), Wan("b", true, 10, 1)]

  /**
   Two UP backends of different metric: when the dial of the first fails, the next pick is
   nobody, and the second has not been dialled.
   */
  lemma {:induction false} BackupNotDialled(q: Request)
    ensures var st := State(TWO_TIERS, Rotor(0, 0), [], Sticky(false, 0, map[]));
      var o := Pick(st, q, {});
      && Sound(st) && o.choice == Some(0)
      && Pick(o.st, q, {0}).choice == None && o.st.wans[1].up
  {
    hide Spin, Weights, Pick;
    var st := State(TWO_TIERS, Rotor(0, 0), [], Sticky(false, 0, map[]));
    var o := Pick(st, q, {});
    assert TWO_TIERS[0].up && TWO_TIERS[1].up && TWO_TIERS[1].metric > TWO_TIERS[0].metric;
    assert Eligible(TWO_TIERS, {}, 0) && !Eligible(TWO_TIERS, {}, 1);
    RoutingOrder(st, q, {});
    RoutingOrder(o.st, q, {0});
    PickUsable(st, q, {});
    PickUsable(o.st, q, {0});
  }

  /**
   Tried backends are remembered by position, so a reload can hide one: after position 0
   failed and a reload put another backend there, UP and never dialled, nobody is picked.
   */
  lemma {:induction false} PositionsGoStale(q: Request, c: Wan)
    requires c.up && c.ratio >= 1
    ensures var st := State([c], Rotor(0, 0), [], Sticky(false, 0, map[]));
      Sound(st) && Eligible(st.wans, {}, 0) && Pick(st, q, {0}).choice == None
  {
    hide Spin, Weights;
    var st := State([c], Rotor(0, 0), [], Sticky(false, 0, map[]));
    assert [c][0].up;
    PickUsable(st, q, {0});
  }
}
