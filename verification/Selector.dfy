/**
 The running selector: the backend list, the cursor, the rules and the sticky map, as the
 fields the daemon updates. Every method but the dial loop is one critical section of the
 daemon; it is proved against the value-level selection of modules Rotation and Selection.
 */
module SelectorState {
  import opened Options
  import opened Policy
  import opened Rotation
  import opened Selection
  import opened Backends
  import opened Reload
  import opened Dialling
  import opened Traces
  import Runs

  class Selector {
    var list: seq<Backend>
    var lbIndex: nat
    var rules: seq<Rule>
    var stickyEnabled: bool
    var stickyTtl: int
    var stickyMap: map<string, Entry>

    ghost var known: set<Backend>  // every backend that was ever listed
    ghost var conns: set<Conn>     // every connection that was ever started

    // ---- abstraction ---------------------------------------------------------

    ghost function Wans(): (ws: seq<Wan>)
      reads this`list, list
      ensures |ws| == |list|
      ensures forall i :: 0 <= i < |list| ==> ws[i] == list[i].View()
    {
      var bs := list;
      seq(|bs|, i requires 0 <= i < |bs| reads bs => bs[i].View())
    }

    ghost function Cursor(): Rotor
      requires list != [] ==> lbIndex < |list|
      reads this`list, this`lbIndex, list
    {
      Rotor(lbIndex, if list == [] then 0 else list[lbIndex].credit)
    }

    ghost function Stickies(): Sticky
      reads this`stickyEnabled, this`stickyTtl, this`stickyMap
    {
      Sticky(stickyEnabled, stickyTtl, stickyMap)
    }

    ghost function Abs(): State
      requires list != [] ==> lbIndex < |list|
      reads this, list
    {
      State(Wans(), Cursor(), rules, Stickies())
    }

    /** All that decides what is picked, now and later. */
    ghost function Now(): (l: Look)
      requires list != [] ==> lbIndex < |list|
      reads this, list
      ensures |l.ips| == |l.st.wans|
    {
      Look(Abs(), Ips(list), Twins(list))
    }

    /**
     Every backend that is listed carries a ratio of at least 1, the cursor is inside the
     list, and only the backend under the cursor holds any credit, less than its ratio.
     */
    ghost predicate Valid()
      reads this`list, this`lbIndex, this`known, list
    {
      && (forall b :: b in list ==> b in known && b.ratio >= 1)
      && (if list == [] then lbIndex == 0 else
            && lbIndex < |list|
            && list[lbIndex].credit < list[lbIndex].ratio
            && forall b :: b in list && b != list[lbIndex] ==> b.credit == 0)
    }

    /** The daemon before its first list of backends is applied. */
    constructor ()
      ensures Valid() && Balanced()
      ensures Abs() == State([], Rotor(0, 0), [], Sticky(false, 0, map[])) && conns == {}
    {
      list, lbIndex, rules := [], 0, [];
      stickyEnabled, stickyTtl, stickyMap := false, 0, map[];
      known, conns := {}, {};
    }

    lemma ValidIsSound()
      requires Valid()
      ensures Sound(Abs()) && Abs().wans == Wans() && |Wans()| == |list|
      ensures Fit(Now()) && Now().st == Abs()
      ensures list != [] ==> lbIndex < |list|
      ensures forall b :: b in list ==> b in known
    {
    }

    // ---- rotation ------------------------------------------------------------

    /** Caller must hold mutex. */
    method AdvanceIndex()
      requires lbIndex < |list|
      modifies this`lbIndex
      ensures lbIndex == if old(lbIndex) + 1 == |list| then 0 else old(lbIndex) + 1
    {
      lbIndex := lbIndex + 1;
      if lbIndex == |list| {
        lbIndex := 0;
      }
    }

    /** The lowest metric among the UP backends, if any is UP. */
    method ActiveTier() returns (allDown: bool, activeMetric: int)
      ensures allDown == AllDown(Wans())
      ensures forall i :: 0 <= i < |list| ==>
        (InActiveTier(Wans(), i) <==> list[i].up && list[i].metric == activeMetric)
    {
      allDown, activeMetric := true, 0;
      for k := 0 to |list|
        invariant allDown <==> forall j :: 0 <= j < k ==> !list[j].up
        invariant !allDown ==> exists j :: 0 <= j < k && list[j].up && list[j].metric == activeMetric
        invariant forall j :: 0 <= j < k && list[j].up ==> activeMetric <= list[j].metric
      {
        if list[k].up {
          if allDown || list[k].metric < activeMetric {
            activeMetric := list[k].metric;
          }
          allDown := false;
        }
      }
    }

    /** Position `start` moved on `t` times round a list of n. */
    static function Round(start: nat, t: nat, n: nat): (i: nat)
      requires start < n && t <= n
      ensures i < n
    {
      if start + t < n then start + t else start + t - n
    }

    static ghost predicate NobodyYet(w: seq<nat>, start: nat, tries: nat)
      requires tries <= |w| && (w != [] ==> start < |w|)
    {
      forall t :: 0 <= t < tries ==> w[Round(start, t, |w|)] == 0
    }

    static lemma NobodyAtFirst(w: seq<nat>, start: nat)
      requires w != [] ==> start < |w|
      ensures NobodyYet(w, start, 0)
    {
    }

    static lemma ServesHere(ws: seq<Wan>, tried: set<nat>, at: Rotor, tries: nat)
      requires at.idx < |ws| && tries < |ws| && NobodyYet(Weights(ws, tried), at.idx, tries)
      requires var i := Round(at.idx, tries, |ws|); Eligible(ws, tried, i) && ws[i].ratio >= 1
      ensures var i := Round(at.idx, tries, |ws|);
        Spin(Weights(ws, tried), at) ==
          Turn(Some(i), Charge(if tries == 0 then at else Rotor(i, 0), ws[i].ratio, |ws|))
    {
      hide First, Charge;
      var w, start, n := Weights(ws, tried), at.idx, |ws|;
      var i := Round(start, tries, n);
      assert w[i] == ws[i].ratio;
      if start + tries < n {
        forall k | start <= k < i ensures w[k] == 0 { assert Round(start, k - start, n) == k; }
        FirstIs(w, start, i);
      } else {
        forall k | start <= k < n ensures w[k] == 0 { assert Round(start, k - start, n) == k; }
        forall k | 0 <= k < i ensures w[k] == 0 { assert Round(start, k + n - start, n) == k; }
        FirstIs(w, start, n);
        FirstIs(w, 0, i);
      }
      assert First(w, 0) <= i;
    }

    static lemma NobodyServes(w: seq<nat>, at: Rotor)
      requires w != [] ==> at.idx < |w|
      requires NobodyYet(w, at.idx, |w|)
      ensures Spin(w, at) == Turn(None, Rotor(at.idx, 0))
    {
      hide First;
      var start, n := at.idx, |w|;
      forall k | 0 <= k < n ensures w[k] == 0 {
        assert Round(start, if start <= k then k - start else k + n - start, n) == k;
      }
      FirstIs(w, 0, n);
    }

    static lemma NobodyMore(ws: seq<Wan>, tried: set<nat>, start: nat, tries: nat)
      requires start < |ws| && tries < |ws| && NobodyYet(Weights(ws, tried), start, tries)
      requires !Eligible(ws, tried, Round(start, tries, |ws|))
      ensures NobodyYet(Weights(ws, tried), start, tries + 1)
    {
    }

    twostate lemma CreditOnly()
      requires list == old(list)
      requires forall b :: b in list ==>
        b.name == old(b.name) && b.up == old(b.up) && b.metric == old(b.metric) && b.ratio == old(b.ratio)
      ensures Wans() == old(Wans())
    {
    }

    /** The backend under the cursor is not eligible: it loses its credit and the cursor moves on. */
    method Skip(lb: Backend)
      requires Valid() && list != [] && lb == list[lbIndex]
      modifies this`lbIndex, lb`credit
      ensures Valid() && Wans() == old(Wans())
      ensures Cursor() == Rotor(Succ(old(lbIndex), |list|), 0)
    {
      lb.credit := 0;
      AdvanceIndex();
      CreditOnly();
    }

    /** The backend under the cursor serves one connection. */
    method Serve(lb: Backend)
      requires Valid() && list != [] && lb == list[lbIndex]
      modifies this`lbIndex, lb`credit
      ensures Valid() && Wans() == old(Wans())
      ensures Cursor() == Charge(old(Cursor()), lb.ratio, |list|)
    {
      lb.credit := lb.credit + 1;
      if lb.credit >= lb.ratio {
        lb.credit := 0;
        AdvanceIndex();
      }
      CreditOnly();
    }

    method GetLoadBalancer(tried: set<nat>) returns (r: Option<nat>)
      requires Valid()
      modifies this`lbIndex, known`credit
      ensures Valid() && Wans() == old(Wans())
      ensures Turn(r, Cursor()) == Spin(Weights(old(Wans()), tried), old(Cursor()))
    {
      hide Charge, Spin, Weights, Eligible, First, NobodyYet, AllDown, InActiveTier, Valid, Wans;
      ValidIsSound();
      var allDown, activeMetric := ActiveTier();
      ghost var ws, at := Wans(), Cursor();
      ghost var w := Weights(ws, tried);
      ghost var start := lbIndex;
      NobodyAtFirst(w, start);
      for tries := 0 to |list|
        invariant Valid() && Wans() == ws
        invariant list != [] ==> lbIndex == Round(start, tries, |list|)
        invariant Cursor() == if tries == 0 then at else Rotor(lbIndex, 0)
        invariant NobodyYet(w, start, tries)
      {
        var lb, i := list[lbIndex], lbIndex;
        var eligible := i !in tried && (allDown || (lb.up && lb.metric == activeMetric));
        assert eligible == Eligible(ws, tried, i) by { EligibleHere(ws, tried, i); }
        if !eligible {
          NobodyMore(ws, tried, start, tries);
          Skip(lb);
          continue;
        }
        ServesHere(ws, tried, at, tries);
        Serve(lb);
        return Some(i);
      }
      NobodyServes(w, at);
      return None;
    }

    // ---- policy and sticky ---------------------------------------------------

    /** The first UP backend with this name. */
    method FindUpBackend(name: string) returns (r: Option<nat>)
      ensures r == FindUp(Wans(), name, 0)
    {
      for i := 0 to |list|
        invariant FindUp(Wans(), name, 0) == FindUp(Wans(), name, i)
      {
        if list[i].name == name && list[i].up {
          return Some(i);
        }
      }
      return None;
    }

    method PolicyBackend(q: Request) returns (r: Option<nat>)
      ensures r == PolicyChoice(Wans(), rules, q)
    {
      var wan := "";
      for i := 0 to |rules|
        invariant wan == "" && PolicyWan(rules, q) == PolicyWan(rules[i..], q)
      {
        if Matches(rules[i], q) {
          wan := rules[i].wan;
          break;
        }
      }
      if wan == "" {
        return None;
      }
      r := FindUpBackend(wan);
    }

    method StickyLookup(client: string, now: int) returns (r: Option<nat>)
      modifies this`stickyMap
      ensures r == StickyChoice(old(Stickies()), Wans(), client, now)
      ensures Stickies() == AfterLookup(old(Stickies()), Wans(), client, now)
    {
      if client == "" || !stickyEnabled || client !in stickyMap {
        return None;
      }
      var e := stickyMap[client];
      if now > e.expires {
        stickyMap := stickyMap - {client};
        return None;
      }
      r := FindUpBackend(e.name);
      if r.Some? {
        stickyMap := stickyMap[client := Entry(e.name, now + stickyTtl)];
      }
    }

    method StickyRemember(client: string, i: nat, now: int)
      modifies this`stickyMap
      ensures Stickies() == Remember(old(Stickies()), Wans(), client, i, now)
    {
      if client == "" || !stickyEnabled {
        return;
      }
      var name := if i < |list| then list[i].name else "";
      if name != "" {
        stickyMap := stickyMap[client := Entry(name, now + stickyTtl)];
      }
    }

    method ConfigureSticky(enabled: bool, ttl: int)
      modifies this`stickyEnabled, this`stickyTtl, this`stickyMap
      ensures Stickies() == Sticky(enabled, ttl, if enabled then old(stickyMap) else map[])
    {
      stickyEnabled, stickyTtl := enabled, ttl;
      if !enabled {
        stickyMap := map[];
      }
    }

    method SetPolicies(rules: seq<Rule>)
      modifies this`rules
      ensures this.rules == rules
    {
      this.rules := rules;
    }

    /** get_load_balancer on the whole abstract state. */
    method Rotated(tried: set<nat>) returns (r: Option<nat>)
      requires Valid()
      modifies this`lbIndex, known`credit
      ensures Valid() && Wans() == old(Wans()) && Sound(old(Abs()))
      ensures Outcome(r, ByRotation, Abs()) == Rotate(old(Abs()), tried)
    {
      hide Valid, Spin, Weights;
      ValidIsSound();
      r := GetLoadBalancer(tried);
    }

    /** pick_backend is the value-level selection of module Selection. */
    method PickBackend(q: Request, tried: set<nat>) returns (r: Option<nat>, ghost via: Via)
      requires Valid()
      modifies this`lbIndex, this`stickyMap, known`credit
      ensures Valid() && Sound(old(Abs()))
      ensures Outcome(r, via, Abs()) == Pick(old(Abs()), q, tried)
      ensures Wans() == old(Wans())
    {
      hide Valid, Sound, Wans, Cursor, Rotate, StickyChoice, AfterLookup, PolicyChoice, Remember;
      ValidIsSound();
      if tried != {} {
        r := Rotated(tried);
        return r, ByRotation;
      }
      r := PolicyBackend(q);
      if r.Some? {
        return r, ByPolicy;
      }
      r := StickyLookup(q.client, q.now);
      if r.Some? {
        return r, BySticky;
      }
      r := Rotated(tried);
      if r.Some? {
        StickyRemember(q.client, r.value, q.now);
      }
      return r, ByRotation;
    }

    // ---- connection accounting -------------------------------------------------

    /**
     Every backend object, listed or dropped, counts exactly the connections that were
     started on it: the open ones are active, open and finished ones make the total.
     */
    ghost predicate Balanced()
      reads this`known, this`conns, known, conns
    {
      && (forall c :: c in conns ==> c.lb in known)
      && (forall b :: b in known ==> CountsOf(b, conns))
    }

    method CountConn(lb: Backend) returns (c: Conn)
      requires Balanced() && lb in known
      modifies this`conns, lb`totalConns, lb`activeConns
      ensures Balanced()
      ensures fresh(c) && c.open && c.lb == lb && conns == old(conns) + {c}
      ensures lb.activeConns == old(lb.activeConns) + 1 && lb.totalConns == Counted(old(lb.totalConns) + 1)
    {
      hide Counted, OpenIn, DoneIn;
      c := new Conn(lb);
      forall b | b in known {
        JoinOpen(conns, c, b);
      }
      conns := conns + {c};
      CountedNext(|OpenIn(conns, lb)| - 1 + |DoneIn(conns, lb)|);
      lb.CountStarted();
    }

    method UncountConn(c: Conn)
      requires Balanced() && c in conns && c.open
      modifies c`open, c.lb`activeConns
      ensures Balanced() && !c.open && c.lb.activeConns == old(c.lb.activeConns) - 1
    {
      hide Counted, OpenIn, DoneIn;
      ghost var rest := conns - {c};
      assert conns == rest + {c};
      forall b | b in known {
        JoinOpen(rest, c, b);
      }
      c.lb.CountFinished();
      c.open := false;
      forall b | b in known {
        JoinDone(rest, c, b);
      }
    }

    method ConnStarted(lb: Backend) returns (c: Conn)
      requires Balanced() && lb in known
      modifies this`conns, lb`totalConns, lb`activeConns
      ensures Balanced() && (old(Valid()) ==> Valid() && Now() == old(Now())) && Wans() == old(Wans())
      ensures fresh(c) && c.open && c.lb == lb && conns == old(conns) + {c}
      ensures lb.activeConns == old(lb.activeConns) + 1 && lb.totalConns == Counted(old(lb.totalConns) + 1)
    {
      hide Balanced, Wans;
      c := CountConn(lb);
      CreditOnly();
    }

    /** A connection ends once: both copy directions have finished, or its flow was reaped. */
    method ConnFinished(c: Conn)
      requires Balanced() && c in conns && c.open
      modifies c`open, c.lb`activeConns
      ensures Balanced() && !c.open && (old(Valid()) ==> Valid() && Now() == old(Now())) && Wans() == old(Wans())
      ensures c.lb.activeConns == old(c.lb.activeConns) - 1
    {
      hide Balanced, Wans;
      UncountConn(c);
      CreditOnly();
    }

    lemma ConnOf(c: Conn)
      requires Balanced() && c in conns
      ensures c.lb in known
    {
    }

    // ---- reload ----------------------------------------------------------------

    method Candidates(cfg: seq<BackendJson>, host: Host) returns (cands: seq<Candidate>)
      ensures cands == Usable(cfg, host)
    {
      cands := [];
      for i := 0 to |cfg|
        invariant cands == Usable(cfg[..i], host)
      {
        var b := cfg[i];
        UsableNext(cfg, host, i);
        if !host.isIPv4(b.ip) {
          continue;
        }
        var iface := host.ifaceOf(b.ip);
        if iface == "" {
          continue;
        }
        cands := cands + [Candidate(b, iface)];
      }
      assert cfg[..|cfg|] == cfg;
    }

    /** The current list by address; of two with one address the later. */
    method ByAddress() returns (m: map<string, Backend>)
      ensures forall ip :: ip in m <==> Survivor(list, |list|, ip).Some?
      ensures forall ip :: ip in m ==> Survivor(list, |list|, ip) == Some(m[ip])
    {
      m := map[];
      for k := 0 to |list|
        invariant forall ip :: ip in m <==> Survivor(list, k, ip).Some?
        invariant forall ip :: ip in m ==> Survivor(list, k, ip) == Some(m[ip])
      {
        m := m[list[k].ip := list[k]];
      }
    }

    /** The backend of one candidate: the survivor with its address, reconfigured, or a new one. */
    method Adopt(c: Candidate, survivors: map<string, Backend>) returns (lb: Backend)
      requires forall ip :: ip in survivors ==> survivors[ip] in known && survivors[ip].ip == ip
      requires Balanced()
      modifies known`name, known`iface, known`ratio, known`metric, known`credit
      ensures Balanced() && Ready(lb)
      ensures lb.ip == c.bj.ip && Configured(lb, c)
      ensures if c.bj.ip in survivors then lb == survivors[c.bj.ip] else fresh(lb) && Pristine(lb)
      ensures forall b :: b in known && b != lb ==> unchanged(b)
    {
      hide OpenIn, DoneIn;
      if c.bj.ip in survivors {
        lb := survivors[c.bj.ip];
        lb.Reconfigure(c.bj.name, c.iface, c.bj.ratio, c.bj.metric);
      } else {
        lb := new Backend(c.bj.ip, c.bj.name, c.iface, c.bj.ratio, c.bj.metric);
      }
      assert Balanced();
      lb.DefaultName();
    }

    method Rebuild(cands: seq<Candidate>, survivors: map<string, Backend>) returns (newlist: seq<Backend>)
      requires forall ip :: ip in survivors ==> survivors[ip] in known && survivors[ip].ip == ip
      requires Balanced()
      modifies known`name, known`iface, known`ratio, known`metric, known`credit
      ensures Balanced()
      ensures |newlist| == |cands|
      ensures forall i :: 0 <= i < |cands| ==> newlist[i].ip == cands[i].bj.ip && Ready(newlist[i])
      ensures forall i :: 0 <= i < |cands| ==>
        if cands[i].bj.ip in survivors then newlist[i] == survivors[cands[i].bj.ip]
        else fresh(newlist[i]) && Pristine(newlist[i])
      ensures forall i :: 0 <= i < |cands| ==>
        Configured(newlist[i], SettingsOf(cands, i, cands[i].bj.ip in survivors))
      ensures forall i, j :: 0 <= i < j < |cands| && newlist[i] == newlist[j] ==> cands[i].bj.ip in survivors
    {
      hide Balanced, Configured, Pristine, Ready, LastOf;
      newlist := [];
      for k := 0 to |cands|
        invariant Balanced()
        invariant |newlist| == k
        invariant forall i :: 0 <= i < k ==> newlist[i].ip == cands[i].bj.ip && Ready(newlist[i])
        invariant forall i :: 0 <= i < k ==>
          if cands[i].bj.ip in survivors then newlist[i] == survivors[cands[i].bj.ip]
          else fresh(newlist[i]) && Pristine(newlist[i])
        invariant forall i :: 0 <= i < k && (LastOf(cands, i, k) || cands[i].bj.ip !in survivors) ==>
          Configured(newlist[i], cands[i])
        invariant forall i, j :: 0 <= i < j < k && newlist[i] == newlist[j] ==> cands[i].bj.ip in survivors
      {
        LastOfNext(cands, k);
        var lb := Adopt(cands[k], survivors);
        newlist := newlist + [lb];
      }
    }

    method SwapList(newlist: seq<Backend>)
      requires Balanced() && newlist != []
      requires forall b :: b in newlist ==>
        Ready(b) && (b in known || (Pristine(b) && forall c :: c in conns ==> c.lb != b))
      modifies this`list, this`lbIndex, this`known
      ensures Valid() && Balanced()
      ensures list == newlist && Cursor() == Rotor(0, 0) && known == old(known) + set b | b in newlist
    {
      hide Counted;
      assert newlist[0] in newlist;
      assert Counted(0) == 0 by { CountedZero(); }
      list, lbIndex := newlist, 0;
      known := known + set b | b in newlist;
    }

    /**
     Swaps the list for the usable entries of the file, in their order. An address that is
     still listed keeps its backend object, with its health and connection counters; every
     other address gets a new one. A file with nothing usable changes nothing.
     */
    method ApplyBackends(cfg: seq<BackendJson>, host: Host) returns (n: nat)
      requires Valid() && Balanced()
      modifies this`list, this`lbIndex, this`known
      modifies known`name, known`iface, known`ratio, known`metric, known`credit
      ensures Valid() && Balanced()
      // the list becomes the usable lines of the file, every one of them, in order
      ensures n == |Usable(cfg, host)| && (n == 0 ==> IpsOfUsable(cfg, host, []))
      ensures n > 0 ==> IpsOfUsable(cfg, host, Ips(list))
      ensures old(known) <= known && fresh(known - old(known))
      ensures n == 0 ==> list == old(list) && lbIndex == old(lbIndex) && known == old(known)
      ensures n == 0 ==> forall b :: b in old(known) ==> unchanged(b)
      ensures n > 0 ==> |list| == n && Cursor() == Rotor(0, 0)
      ensures n > 0 ==> forall i :: 0 <= i < n ==>
        list[i].ip == Usable(cfg, host)[i].bj.ip &&
        match Survivor(old(list), |old(list)|, list[i].ip)
        case Some(b) => list[i] == b
        case None => fresh(list[i]) && Pristine(list[i])
      ensures n > 0 ==> forall i :: 0 <= i < n ==>
        Configured(list[i], SettingsOf(Usable(cfg, host), i, Survivor(old(list), |old(list)|, list[i].ip).Some?))
      // two positions share an object only where a surviving address is listed twice
      ensures n > 0 ==> forall i, j :: 0 <= i < j < n && list[i] == list[j] ==>
        Survivor(old(list), |old(list)|, list[i].ip).Some?
    {
      hide Balanced, Configured, Pristine, Ready, Survivor, SettingsOf, IpsOfUsable;
      var cands := Candidates(cfg, host);
      if cands == [] {
        ListsUsable(cfg, host, []);
        return 0;
      }
      var survivors := ByAddress();
      var newlist := Rebuild(cands, survivors);
      SwapList(newlist);
      ListsUsable(cfg, host, Ips(list));
      return |cands|;
    }

    /** Reloading a file that lists the current addresses, all distinct, in their order. */
    method ReapplyBackends(cfg: seq<BackendJson>, host: Host) returns (n: nat)
      requires Valid() && Balanced()
      requires |Usable(cfg, host)| == |list|
      requires forall i :: 0 <= i < |list| ==> Usable(cfg, host)[i].bj.ip == list[i].ip
      requires forall i, j :: 0 <= i < j < |list| ==> list[i].ip != list[j].ip
      modifies this`list, this`lbIndex, this`known
      modifies known`name, known`iface, known`ratio, known`metric, known`credit
      ensures Valid() && Balanced()
      ensures list == old(list)
      ensures forall i :: 0 <= i < |list| ==> Configured(list[i], Usable(cfg, host)[i])
    {
      hide Valid, Balanced, Configured, Survivor, SettingsOf;
      ghost var before := list;
      n := ApplyBackends(cfg, host);
      if n > 0 {
        ReapplyIsIdentity(before, list);
        OwnSettings(Usable(cfg, host));
      }
    }

    // ---- dispatch --------------------------------------------------------------

    /** Picking a backend counts no connection, and does to the rest what pick_backend does once. */
    method PickOnly(q: Request, tried: set<nat>) returns (r: Option<nat>)
      requires Valid() && Balanced()
      modifies this`lbIndex, this`stickyMap, known`credit
      ensures Valid() && Balanced() && Sound(old(Abs()))
      ensures Pick(old(Abs()), q, tried).choice == r
      ensures Now() == Picked(old(Now()), q, tried)
      ensures Wans() == old(Wans())
    {
      hide Valid, Pick, Wans, Cursor, Counted, OpenIn, DoneIn, Sound;
      ValidIsSound();
      ghost var via;
      r, via := PickBackend(q, tried);
    }

    /** A health verdict reaches the backend at this position. */
    method Verdict(i: nat, up: bool)
      requires Valid() && Balanced()
      modifies known`up
      ensures Valid() && Balanced()
      ensures forall b :: b in known ==> b.up == if i < |list| && b == list[i] then up else old(b.up)
    {
      hide OpenIn, DoneIn;
      if i < |list| {
        list[i].up := up;
      }
    }

    lemma VerdictTwins(i: nat)
      ensures forall j: nat :: (i, j) in Twins(list) <==> i < |list| && j < |list| && list[i] == list[j]
    {
    }

    method VerdictSeen(i: nat, up: bool)
      requires Valid() && Balanced()
      modifies known`up
      ensures Valid() && Balanced() && Fit(old(Now()))
      ensures Now() == After(old(Now()), Event.Flip(i, up))
    {
      hide Balanced, Traces.After, Ips, Twins;
      ValidIsSound();
      ghost var l := Now();
      AfterMeans(l, Event.Flip(i, up));
      VerdictTwins(i);
      Verdict(i, up);
      assert Wans() == Runs.SetUp(l.st.wans, Flipped(l, i, up));
    }

    method ReloadAs(cfg: seq<BackendJson>, host: Host) returns (n: nat)
      requires Valid() && Balanced()
      modifies this`list, this`lbIndex, this`known
      modifies known`name, known`iface, known`ratio, known`metric, known`credit
      ensures Valid() && Balanced()
      ensures old(known) <= known && fresh(known - old(known))
      ensures n == |Usable(cfg, host)|
      ensures if n == 0 then list == old(list) && Abs() == old(Abs())
              else Reborn(old(list), list, Usable(cfg, host)) && Cursor() == Rotor(0, 0)
    {
      hide Balanced, Configured, Pristine, Survivor, SettingsOf, Valid, Wans, IpsOfUsable, Usable, Ips, Twins;
      ValidIsSound();
      n := ApplyBackends(cfg, host);
      if n == 0 { CreditOnly(); }
    }

    method ReloadSeen(cfg: seq<BackendJson>, host: Host)
      requires Valid() && Balanced()
      modifies this`list, this`lbIndex, this`known
      modifies known`name, known`iface, known`ratio, known`metric, known`credit
      ensures Valid() && Balanced() && Fit(old(Now()))
      ensures old(known) <= known && fresh(known - old(known))
      ensures |list| <= |cfg| || list == old(list)
      ensures Now() == After(old(Now()), Event.NewList(cfg, host))
    {
      hide Balanced, Configured, Pristine, Survivor, SettingsOf, Valid, IpsOfUsable, Reborn, ReloadedWans, Twins, Ips;
      hide Traces.After, Usable;
      ValidIsSound();
      ghost var l, before := Now(), list;
      AfterMeans(l, Event.NewList(cfg, host));
      var n := ReloadAs(cfg, host);
      if n == 0 {
        return;
      }
      RebornIps(before, list, Usable(cfg, host));
      ReloadSetsIps(before, list, cfg, host);
      ReloadedViews(before, list, l.st.wans, cfg, host);
      ReloadedAsTwins(before, list, cfg, host);
      assert Wans() == ReloadedWans(l.ips, l.st.wans, cfg, host);
    }

    /**
     Something that happens on another goroutine. Dispatch is proved from this contract
     alone, so what it is proved to do holds for any interference that stays within it: an
     event ends a connection that was there when the dispatch began, the contract lets any end.
     */
    method Elsewhere(e: Event, limit: nat)
      requires Valid() && Balanced() && |list| <= limit && Admissible(e, limit, conns)
      modifies this, known, conns`open
      ensures Valid() && Balanced() && |list| <= limit
      ensures old(known) <= known && fresh(known - old(known))
      ensures old(conns) <= conns && fresh(conns - old(conns))
      ensures Fit(old(Now())) && Now() == After(old(Now()), e)
      ensures Ips(list) == IpsAfter(Ips(old(list)), e)
      ensures !e.NewList? ==> list == old(list)
      ensures !e.NewList? && !e.Flip? ==> Wans() == old(Wans())
      ensures (!e.OtherStarts? ==> conns == old(conns)) && (e.OtherEnds? ==> !e.c.open)
    {
      hide Valid, Balanced, Pick, Wans, Runs.Step, Traces.After, Ips, Twins, IpsAfter, Fit, Admissible;
      ValidIsSound();
      AfterListed(Now(), e);
      LimitHolds(e, limit, conns);
      match e
      case Flip(i, up) => VerdictSeen(i, up);
      case NewList(cfg, host) => ReloadSeen(cfg, host);
      case _ => ListStays(e);
    }

    /** Of those, what leaves list and health alone. */
    method ListStays(e: Event)
      requires Valid() && Balanced() && !e.NewList? && !e.Flip? && (e.OtherEnds? ==> e.c in conns)
      modifies this`lbIndex, this`rules, this`stickyEnabled, this`stickyTtl, this`stickyMap, this`conns
      modifies known`credit, known`activeConns, known`totalConns, conns`open
      ensures Valid() && Balanced() && Fit(old(Now())) && Now() == After(old(Now()), e) && Wans() == old(Wans())
      ensures old(conns) <= conns && fresh(conns - old(conns)) && (!e.OtherStarts? ==> conns == old(conns))
      ensures e.OtherEnds? ==> !e.c.open
    {
      hide Valid, Balanced, Pick, Wans, Runs.Step, Traces.After, Picked, Ips, Twins, Fit;
      ValidIsSound();
      AfterMeans(Now(), e);
      match e
      case OtherPick(q, tried) => var _ := PickOnly(q, tried);
      case OtherStarts(i) => if i < |list| { var _ := ConnStarted(list[i]); }
      case OtherEnds(c) => ConnOf(c); EndOpen(c);
      case NewRules(rules) => SetPolicies(rules); CreditOnly();
      case NewSticky(enabled, ttl) => ConfigureSticky(enabled, ttl); CreditOnly();
    }

    method EndOpen(c: Conn)
      requires Valid() && Balanced() && c in conns
      modifies c`open, c.lb`activeConns
      ensures Valid() && Balanced() && !c.open && Now() == old(Now()) && Wans() == old(Wans())
    {
      hide Valid, Balanced, Wans;
      if c.open {
        ConnFinished(c);
      }
    }

    method Interfere(evs: seq<Event>, limit: nat)
      requires Valid() && Balanced() && |list| <= limit
      requires AdmissibleEach(evs, limit, conns)
      modifies this, known, conns`open
      ensures Valid() && Balanced() && |list| <= limit
      ensures old(known) <= known && fresh(known - old(known))
      ensures old(conns) <= conns && fresh(conns - old(conns))
      ensures Fit(old(Now())) && Now() == AfterAll(old(Now()), evs)
      ensures Ips(list) == IpsAfterAll(Ips(old(list)), evs)
      ensures NoReload(evs) ==> list == old(list)
      ensures Quiet(evs) ==> Wans() == old(Wans())
      ensures NoStart(evs) ==> conns == old(conns)
    {
      hide Valid, Balanced, Wans, Traces.After, Fit, AfterAll, IpsAfterAll, IpsAfter;
      hide NoReload, Quiet, NoStart, Admissible, AdmissibleEach, Ips, Twins;
      ValidIsSound();
      for k := 0 to |evs|
        invariant Valid() && Balanced() && |list| <= limit
        invariant list != [] ==> lbIndex < |list|
        invariant Fit(Now()) && AfterAll(Now(), evs[k..]) == AfterAll(old(Now()), evs)
        invariant old(known) <= known && fresh(known - old(known))
        invariant old(conns) <= conns && fresh(conns - old(conns))
        invariant IpsAfterAll(Ips(list), evs[k..]) == IpsAfterAll(Ips(old(list)), evs)
        invariant NoReload(evs) ==> list == old(list)
        invariant Quiet(evs) ==> Wans() == old(Wans())
        invariant NoStart(evs) ==> conns == old(conns)
      {
        OneOfEach(evs, k, limit, old(conns), conns);
        AfterAllNext(Now(), evs, k);
        IpsAfterNext(Ips(list), evs, k);
        Elsewhere(evs[k], limit);
        ValidIsSound();
      }
      assert evs[|evs|..] == [];
      AfterNone(Now());
      IpsAfterNone(Ips(list));
    }

    /**
     One pick of a connection, and what other goroutines do before its dial: the backend
     stays the one that was picked, even if a reload drops it.
     */
    method Attempt(q: Request, tried: set<nat>, evs: seq<Event>, limit: nat) returns (r: Option<nat>, lb: Backend?)
      requires Valid() && Balanced() && |list| <= limit
      requires AdmissibleEach(evs, limit, conns)
      modifies this, known, conns`open
      ensures Valid() && Balanced() && |list| <= limit
      ensures old(known) <= known && fresh(known - old(known))
      ensures old(conns) <= conns && fresh(conns - old(conns))
      ensures Sound(old(Abs())) && Fit(old(Now())) && r == Pick(old(Abs()), q, tried).choice
      ensures r.Some? ==> r.value < |old(list)| && r.value !in tried && lb == old(list[r.value]) && lb in known
      ensures var l := Picked(old(Now()), q, tried); Now() == if r == None then l else AfterAll(l, evs)
      ensures Ips(list) == if r == None then Ips(old(list)) else IpsAfterAll(Ips(old(list)), evs)
      ensures r == None || NoReload(evs) ==> list == old(list)
      ensures r == None || Quiet(evs) ==> Wans() == old(Wans())
      ensures r == None || NoStart(evs) ==> conns == old(conns)
      ensures r == None ==> known == old(known)
    {
      hide Valid, Balanced, Pick, Wans, Sound, Eligible, AdmissibleEach;
      lb := null;
      ValidIsSound();
      PickUsable(Abs(), q, tried);
      r := PickOnly(q, tried);
      if r.Some? {
        ValidIsSound();
        lb := list[r.value];
        Interfere(evs, limit);
      }
    }

    /**
     Between two attempts of a dispatch that found the selector at l, with list `here`: what is
     known of the log, and of the list and health where nothing changed them.
     */
    ghost predicate Midway(q: Request, dial: (nat, nat) -> bool, env: seq<seq<Event>>, limit: nat,
                           log: seq<nat>, picked: seq<Backend>, l: Look, here: seq<Backend>)
      requires Fit(l)
      reads this, list
    {
      && Progress(l.st, here, q, dial, env, limit, log, picked, known)
      && Unmoved(env, l.st, here) && Ips(list) == IpsAt(Ips(here), env, |log|)
      && OnCourse(l, q, env, log)
      && (log == [] ==> list == here && (list != [] ==> lbIndex < |list|) && Abs() == l.st)
    }

    /** What holds when nobody is left to pick. */
    ghost predicate Ended(q: Request, dial: (nat, nat) -> bool, env: seq<seq<Event>>, limit: nat,
                          log: seq<nat>, picked: seq<Backend>, l: Look, here: seq<Backend>)
      requires Fit(l)
      reads this, list
    {
      && Settled(l.st, here, q, dial, env, limit, log, picked, known) && !Answered(log, dial)
      && Unmoved(env, l.st, here) && Ips(list) == IpsAt(Ips(here), env, |log|)
      && GaveUp(Ips(here), env, list, Wans(), log, picked) && GivesUpOnCourse(l, q, env, log)
    }

    /** What holds when the last dial of the log answered. */
    ghost predicate Reached(q: Request, dial: (nat, nat) -> bool, env: seq<seq<Event>>, limit: nat,
                            log: seq<nat>, picked: seq<Backend>, l: Look, here: seq<Backend>)
      requires Fit(l)
      reads this, list
    {
      && Settled(l.st, here, q, dial, env, limit, log, picked, known) && Answered(log, dial)
      && Unmoved(env, l.st, here) && Ips(list) == IpsAt(Ips(here), env, |log|)
      && OnCourse(l, q, env, log)
    }

    /** The selector is where the picks and dials of this log, and the events in between, take it. */
    ghost predicate OnCourse(l: Look, q: Request, env: seq<seq<Event>>, log: seq<nat>)
      requires Fit(l)
      reads this, list
    {
      && (list != [] ==> lbIndex < |list|)
      && Now() == Course(l, q, env, log) && Chosen(l, q, env, log)
    }

    /** Without a reload the list is as it was; without a flip too, so is health. */
    ghost predicate Unmoved(env: seq<seq<Event>>, st: State, here: seq<Backend>)
      reads this`list, list
    {
      (NoReloads(env) ==> list == here) && (QuietRun(env) ==> Wans() == st.wans)
    }

    /** Nobody is picked, and that is the last the dispatch does to the selector. */
    ghost predicate GivesUpOnCourse(l: Look, q: Request, env: seq<seq<Event>>, log: seq<nat>)
      requires Fit(l)
      reads this, list
    {
      && (list != [] ==> lbIndex < |list|)
      && Now() == Picked(Course(l, q, env, log), q, Elements(log)) && Chosen(l, q, env, log)
      && Pick(Course(l, q, env, log).st, q, Elements(log)).choice == None
    }

    lemma CourseIsRun(l: Look, q: Request, env: seq<seq<Event>>, log: seq<nat>, gaveUp: bool)
      requires Fit(l) && Valid()
      requires if gaveUp then GivesUpOnCourse(l, q, env, log) else OnCourse(l, q, env, log)
      ensures IsRun(l.st, Whole(l, q, env, log, gaveUp), Abs())
    {
      hide Valid, IsRun, Whole, Course, Chosen, Pick, Elements, Wans;
      ValidIsSound();
      WholeIsRun(l, q, env, log, gaveUp);
    }

    lemma DispatchStarts(q: Request, dial: (nat, nat) -> bool, env: seq<seq<Event>>, limit: nat)
      requires Valid()
      ensures Sound(Abs()) && Fit(Now()) && Elements([]) == {}
      ensures Midway(q, dial, env, limit, [], [], Now(), list)
    {
      hide Progress, Sound, Wans, Ips, IpsAt;
      ValidIsSound();
      DiallingStarts(Abs(), list, q, dial, env, limit, known);
      IpsNext(Ips(list), env, 0);
    }

    /** What the next pick makes of the course. */
    lemma OnCourseNext(l: Look, q: Request, env: seq<seq<Event>>, log: seq<nat>)
      requires Valid() && Fit(l) && OnCourse(l, q, env, log)
      ensures Fit(Now()) && Sound(Abs()) && Chosen(l, q, env, log) && Now() == Course(l, q, env, log)
      ensures forall i: nat :: Pick(Abs(), q, Elements(log)).choice == Some(i) ==>
        && Chosen(l, q, env, log + [i])
        && Course(l, q, env, log + [i]) == AfterAll(Picked(Now(), q, Elements(log)), Meanwhile(env, |log|))
    {
      hide Valid, Pick, Chosen, Course, Elements, Meanwhile, Wans, AfterAll, Picked;
      ValidIsSound();
      forall i: nat {
        CourseNext(l, q, env, log, i);
      }
    }

    /** The attempt of a dispatch that has dialled this log, as the next step of its course. */
    method AttemptOnCourse(q: Request, tried: set<nat>, env: seq<seq<Event>>, limit: nat, log: seq<nat>, ghost l: Look)
      returns (r: Option<nat>, lb: Backend?)
      requires Valid() && Balanced() && |list| <= limit && Fit(l)
      requires AdmissibleEach(Meanwhile(env, |log|), limit, conns)
      requires tried == Elements(log) && OnCourse(l, q, env, log)
      modifies this, known, conns`open
      ensures Valid() && Balanced() && |list| <= limit
      ensures old(known) <= known && fresh(known - old(known))
      ensures old(conns) <= conns && fresh(conns - old(conns))
      ensures Sound(old(Abs())) && r == Pick(old(Abs()), q, tried).choice
      ensures if r == None then GivesUpOnCourse(l, q, env, log) else OnCourse(l, q, env, log + [r.value])
      ensures r.Some? ==> r.value < |old(list)| && r.value !in tried && lb == old(list[r.value]) && lb in known
      ensures Ips(list) == if r == None then Ips(old(list)) else IpsAfterAll(Ips(old(list)), Meanwhile(env, |log|))
      ensures r == None || NoReload(Meanwhile(env, |log|)) ==> list == old(list)
      ensures r == None || Quiet(Meanwhile(env, |log|)) ==> Wans() == old(Wans())
      ensures r == None || NoStart(Meanwhile(env, |log|)) ==> conns == old(conns)
      ensures r == None ==> known == old(known)
    {
      hide Valid, Balanced, Pick, Wans, Sound, Eligible, AdmissibleEach, Meanwhile, Elements, Fit;
      hide Course, Chosen, Picked, AfterAll, Ips, IpsAfterAll, NoReload, Quiet, NoStart, Twins;
      ValidIsSound();
      OnCourseNext(l, q, env, log);
      r, lb := Attempt(q, tried, Meanwhile(env, |log|), limit);
      ValidIsSound();
    }

    /** One more attempt, and all it settles. */
    method DialNext(q: Request, dial: (nat, nat) -> bool, env: seq<seq<Event>>, limit: nat, tried: set<nat>,
                    log: seq<nat>, ghost picked: seq<Backend>, ghost l: Look, ghost here: seq<Backend>,
                    ghost before: set<Conn>)
      returns (r: Option<nat>, lb: Backend?)
      requires Valid() && Balanced() && |list| <= limit && Fit(l)
      requires AdmissibleRun(env, limit, before) && before <= conns
      requires tried == Elements(log) && Midway(q, dial, env, limit, log, picked, l, here)
      modifies this, known, conns`open
      ensures Valid() && Balanced() && |list| <= limit
      ensures old(known) <= known && fresh(known - old(known))
      ensures old(conns) <= conns && fresh(conns - old(conns)) && (NoStarts(env) ==> conns == old(conns))
      ensures r == None ==> Ended(q, dial, env, limit, log, picked, l, here)
      ensures r.Some? ==> lb in known && |log| < limit && |picked| == |log|
      ensures r.Some? ==> Elements(log + [r.value]) == tried + {r.value}
      ensures r.Some? ==>
        if dial(|log|, r.value) then Reached(q, dial, env, limit, log + [r.value], picked + [lb], l, here)
        else Midway(q, dial, env, limit, log + [r.value], picked + [lb], l, here)
    {
      hide Valid, Balanced, Pick, Wans, Sound, Eligible, Targets, AdmissibleEach, AdmissibleRun;
      hide Abs, Cursor, Stickies, Meanwhile, Progress, Settled, GaveUp, Elements, Answered;
      hide NoReloads, QuietRun, NoStarts, Ips, IpsAfterAll, IpsAt, OnCourse, GivesUpOnCourse;
      ValidIsSound();
      IpsNext(Ips(here), env, |log|);
      ghost var now, standing, seen := Abs(), list, known;
      StillAdmissible(env, |log|, limit, before, conns);
      r, lb := AttemptOnCourse(q, tried, env, limit, log, l);
      match r
      case None => DiallingEnds(l.st, now, here, list, q, dial, env, limit, log, picked, known);
      case Some(i) => DiallingNext(l.st, now, here, standing, q, dial, env, limit, log, picked, seen, known, i, lb);
    }

    /**
     dispatch: dials backends for one connection until one answers or nobody is left.
     `dial(k, i)` is the outcome of the k-th dial, made through position i; env[k] is what
     other goroutines do between the k-th pick and its dial; `limit` bounds every list the
     selector has meanwhile. The log is the positions dialled, in order, and `picked` the
     backend objects that stood there when they were picked.
     */
    method Dispatch(q: Request, dial: (nat, nat) -> bool, env: seq<seq<Event>>, limit: nat)
      returns (conn: Option<Conn>, log: seq<nat>, ghost picked: seq<Backend>)
      requires Valid() && Balanced() && |list| <= limit
      requires AdmissibleRun(env, limit, conns)
      modifies this, known, conns`open
      ensures Valid() && Balanced() && Sound(old(Abs()))
      // every dial is pick_backend's choice, and the selector is left as these picks and the events
      // in between leave it
      ensures Fit(old(Now()))
      ensures if conn == None then GivesUpOnCourse(old(Now()), q, env, log) else OnCourse(old(Now()), q, env, log)
      // as a run of module Runs, which its laws are about
      ensures IsRun(old(Abs()), Whole(old(Now()), q, env, log, conn == None), Abs())
      // the first dial is pick_backend's choice for the state the connection found
      ensures match Pick(old(Abs()), q, {}).choice case Some(i) => log != [] && log[0] == i case None => log == []
      // it ends, no position is dialled twice, and only the last dial may have answered
      ensures AllButLastFailed(log, dial, limit)
      ensures conn.Some? <==> Answered(log, dial)
      // an answered connection is counted, on the very object that was picked
      ensures PickedEach(old(list), log, picked, known)
      ensures conn.Some? ==> fresh(conn.value) && conn.value.open && conn.value in conns
      ensures conn.Some? ==> conn.value.lb == picked[|log| - 1]
      ensures old(known) <= known && fresh(known - old(known))
      // connections only join, and without others starting any, only this one does
      ensures old(conns) <= conns && fresh(conns - old(conns))
      ensures NoStarts(env) ==> conns == old(conns) + if conn.Some? then {conn.value} else {}
      // what was picked has the address then listed at the position, whatever was reloaded
      ensures Ips(list) == IpsAt(Ips(old(list)), env, |log|) && PickedAt(Ips(old(list)), env, log, picked)
      // giving up leaves no eligible position untried, and no eligible backend undialled unless a reload hid it
      ensures conn == None ==> GaveUp(Ips(old(list)), env, list, Wans(), log, picked)
      // without a reload the objects picked are those at the dialled positions
      ensures NoReloads(env) ==> list == old(list) && PickedFrom(list, log, picked)
      // with health and list unchanged, the dialled set is known beforehand
      ensures QuietRun(env) ==> TargetsServed(old(Abs()), q, log, dial)
    {
      hide Valid, Balanced, Pick, Wans, Sound, Targets, AdmissibleRun;
      hide Abs, Now, Fit, Midway, Course, Chosen, GivesUpOnCourse, IsRun, Whole;
      hide AllButLastFailed, Elements, Answered, TargetsServed;
      hide PickedFrom, PickedEach, PickedAt, NoReloads, QuietRun, NoStarts, Ips, IpsAt, GaveUp;
      ValidIsSound();
      ghost var here, l := list, Now();
      var tried: set<nat> := {};
      log, picked := [], [];
      DispatchStarts(q, dial, env, limit);
      while true
        invariant Valid() && Balanced() && |list| <= limit
        invariant old(known) <= known && fresh(known - old(known))
        invariant old(conns) <= conns && fresh(conns - old(conns)) && (NoStarts(env) ==> conns == old(conns))
        invariant tried == Elements(log) && Midway(q, dial, env, limit, log, picked, l, here)
        decreases limit - |log|
      {
        var r, lb := DialNext(q, dial, env, limit, tried, log, picked, l, here, old(conns));
        if r == None {
          CourseIsRun(l, q, env, log, true);
          return None, log, picked;
        }
        var i := r.value;
        var answered := dial(|log|, i);
        log, picked := log + [i], picked + [lb];
        if answered {
          var c := ConnStarted(lb);
          CourseIsRun(l, q, env, log, false);
          return Some(c), log, picked;
        }
        tried := tried + {i};
      }
    }

    /** A dispatch that nothing else disturbs and whose dial answers is one pick. */
    method ServeOne(q: Request) returns (served: Option<Conn>)
      requires Valid() && Balanced()
      modifies this, known, conns`open
      ensures Valid() && Balanced() && Sound(old(Abs())) && list == old(list)
      ensures old(known) <= known && fresh(known - old(known))
      ensures old(conns) <= conns && fresh(conns - old(conns))
      ensures Abs() == Pick(old(Abs()), q, {}).st
      ensures ServedBy(served, list, Pick(old(Abs()), q, {}).choice)
    {
      hide Valid, Balanced, Pick, Wans, Sound, Fit, Now, GivesUpOnCourse, OnCourse, Settled, TargetsServed, Whole;
      ValidIsSound();
      ghost var st, l, here := Abs(), Now(), list;
      var log;
      ghost var picked;
      served, log, picked := Dispatch(q, (k, i) => true, [], |list|);
      AnsweredAtOnce(l, q, log, served == None);
      ghost var ask := Runs.Ask(q, {});
      OneEvent(st, ask);
    }

    static ghost predicate ServedBy(c: Option<Conn>, list: seq<Backend>, choice: Option<nat>) {
      match choice
      case None => c == None
      case Some(i) => i < |list| && c.Some? && c.value.lb == list[i]
    }

    /**
     Connections served one after another while nothing else happens and every dial answers:
     each is counted on the backend the next pick chooses, or on nobody if nobody is eligible.
     */
    method ServeEach(qs: seq<Request>) returns (served: seq<Option<Conn>>)
      requires Valid() && Balanced()
      modifies this, known, conns`open
      ensures Valid() && Balanced() && Sound(old(Abs())) && list == old(list)
      ensures Abs() == ServedState(old(Abs()), qs, |qs|)
      ensures |served| == |qs|
      ensures forall k :: 0 <= k < |qs| ==> ServedBy(served[k], list, Choices(old(Abs()), qs)[k])
    {
      hide Valid, Balanced, Pick, Sound, ServedState, Choices, ServedBy, Wans;
      ValidIsSound();
      ghost var st := Abs();
      ServedNone(st, qs);
      served := [];
      for k := 0 to |qs|
        invariant Valid() && Balanced() && list == old(list)
        invariant old(known) <= known && fresh(known - old(known))
        invariant old(conns) <= conns && fresh(conns - old(conns))
        invariant list != [] ==> lbIndex < |list|
        invariant Abs() == ServedState(st, qs, k)
        invariant |served| == k && forall j :: 0 <= j < k ==> ServedBy(served[j], list, Choices(st, qs)[j])
      {
        ServedNext(st, qs, k);
        var c := ServeOne(qs[k]);
        ValidIsSound();
        served := served + [c];
      }
    }
  }
}
