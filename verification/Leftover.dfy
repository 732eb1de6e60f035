/**
 Which reloads let a dispatch give up with an eligible backend undialled. "Tried" remembers
 list positions, and a reload puts other backends at them.
 */
module Leftovers {
  import opened Options
  import opened Policy
  import opened Rotation
  import opened Selection
  import Runs
  import opened Dialling

  /** One line of a list: an address and the backend there. */
  datatype Line = Line(ip: string, wan: Wan)

  function Wans(l: seq<Line>): (ws: seq<Wan>)
    ensures |ws| == |l| && forall i :: 0 <= i < |l| ==> ws[i] == l[i].wan
  {
    seq(|l|, i requires 0 <= i < |l| => l[i].wan)
  }

  function Addresses(l: seq<Line>): (ips: seq<string>)
    ensures |ips| == |l| && forall i :: 0 <= i < |l| ==> ips[i] == l[i].ip
  {
    seq(|l|, i requires 0 <= i < |l| => l[i].ip)
  }

  /**
   What happens during a dispatch: the connection picks and its dial fails, a reload installs
   a list, or something else happens to the selector.
   */
  datatype Move = Try | Install(list: seq<Line>) | World(e: Runs.Event)

  /** The selector and its addresses, and the positions and addresses the connection dialled. */
  datatype Course = Course(st: State, ips: seq<string>, tried: set<nat>, dialled: set<string>)

  predicate Fit(c: Course) {
    Sound(c.st) && |c.ips| == |c.st.wans|
  }

  predicate Reloadable(l: seq<Line>) {
    Runs.Usable(Runs.Reload(Wans(l)))
  }

  /** A try needs somebody to pick. */
  predicate Allowed(c: Course, q: Request, m: Move)
    requires Fit(c)
  {
    match m
    case Try => Pick(c.st, q, c.tried).choice.Some?
    case Install(l) => Reloadable(l)
    case World(e) => !e.Reload?
  }

  function Do(c: Course, q: Request, m: Move): (c': Course)
    requires Fit(c) && Allowed(c, q, m)
    ensures Fit(c')
  {
    match m
    case Try =>
      PickUsable(c.st, q, c.tried);
      var o := Pick(c.st, q, c.tried);
      Course(o.st, c.ips, c.tried + {o.choice.value}, c.dialled + {c.ips[o.choice.value]})
    case Install(l) => c.(st := Runs.Step(c.st, Runs.Reload(Wans(l))), ips := Addresses(l))
    case World(e) => c.(st := Runs.Step(c.st, e))
  }

  predicate Possible(c: Course, q: Request, ms: seq<Move>)
    requires Fit(c)
    decreases |ms|
  {
    ms != [] ==> Allowed(c, q, ms[0]) && Possible(Do(c, q, ms[0]), q, ms[1..])
  }

  function Done(c: Course, q: Request, ms: seq<Move>): (c': Course)
    requires Fit(c) && Possible(c, q, ms)
    ensures Fit(c')
    decreases |ms|
  {
    if ms == [] then c else Done(Do(c, q, ms[0]), q, ms[1..])
  }

  /** The lists a course installs, in order. */
  function Installed(ms: seq<Move>): seq<seq<Line>>
    decreases |ms|
  {
    if ms == [] then []
    else (if ms[0].Install? then [ms[0].list] else []) + Installed(ms[1..])
  }

  /** The lists of addresses of a course, from the one it finds. */
  function Listed(ips: seq<string>, news: seq<seq<Line>>): (ls: seq<seq<string>>)
    ensures |ls| == |news| + 1 && ls[0] == ips
    ensures forall k :: 0 <= k < |news| ==> ls[k + 1] == Addresses(news[k])
  {
    [ips] + seq(|news|, k requires 0 <= k < |news| => Addresses(news[k]))
  }

  function LastWans(ws: seq<Wan>, news: seq<seq<Line>>): seq<Wan> {
    if news == [] then ws else Wans(news[|news| - 1])
  }

  /** Every try comes under one of the first n lists. */
  predicate Within(ms: seq<Move>, n: nat)
    decreases |ms|
  {
    ms != [] ==>
      && (ms[0].Try? ==> n > 0)
      && Within(ms[1..], Less(ms[0], n))
  }

  function Less(m: Move, n: nat): nat {
    if m.Install? && n > 0 then n - 1 else n
  }

  /** In this course the connection then finds nobody, with somebody eligible undialled. */
  ghost predicate LeavesOut(c: Course, q: Request, ms: seq<Move>, news: seq<seq<Line>>, ws: seq<Wan>, n: nat)
    requires Fit(c)
  {
    && Possible(c, q, ms) && Installed(ms) == news && Within(ms, n)
    && var d := Done(c, q, ms);
      && d.st.wans == ws && Pick(d.st, q, d.tried).choice == None
      && exists i :: 0 <= i < |ws| && Eligible(ws, {}, i) && d.ips[i] !in d.dialled
  }

  // ---- what a course can have dialled ----------------------------------------

  lemma ListedNext(ips: seq<string>, l: seq<Line>, news: seq<seq<Line>>)
    ensures Listed(ips, [l] + news)[1..] == Listed(Addresses(l), news)
  {
  }

  lemma {:induction false} OtherStoodLater(lists: seq<seq<string>>, n: nat, j: nat, ip: string)
    requires 1 <= n <= |lists| && OtherStood(lists[1..][..n - 1], j, ip)
    ensures OtherStood(lists[..n], j, ip)
  {
    var v :| 0 <= v < n - 1 && j < |lists[1..][..n - 1][v]| && lists[1..][..n - 1][v][j] != ip;
    assert lists[..n][v + 1] == lists[1..][..n - 1][v];
  }

  /** A position tried without dialling `ip` had another address when it was tried. */
  lemma {:induction false} TriedOther(c: Course, q: Request, ms: seq<Move>, n: nat, ip: string)
    requires Fit(c) && Possible(c, q, ms) && Within(ms, n) && n <= |Installed(ms)| + 1
    ensures var d := Done(c, q, ms);
      && c.dialled <= d.dialled
      && d.ips == Listed(c.ips, Installed(ms))[|Installed(ms)|]
      && (ip !in d.dialled ==> forall j :: j in d.tried && j !in c.tried ==>
            OtherStood(Listed(c.ips, Installed(ms))[..n], j, ip))
    decreases |ms|
  {
    hide Pick, Runs.Step, OtherStood, Fit;
    if ms != [] {
      var m, rest := ms[0], ms[1..];
      var c1 := Do(c, q, m);
      TriedOther(c1, q, rest, Less(m, n), ip);
      var lists, d := Listed(c.ips, Installed(ms)), Done(c1, q, rest);
      assert m.Install? || Installed(ms) == Installed(rest);
      match m
      case Try =>
        if ip !in d.dialled { TriesHere(c, q, lists[..n], ip); }
      case Install(l) =>
        ListedNext(c.ips, l, Installed(rest));
        if ip !in d.dialled && n > 0 {
          forall j | j in d.tried && j !in c.tried ensures OtherStood(lists[..n], j, ip) {
            OtherStoodLater(lists, n, j, ip);
          }
        }
      case World(e) =>
    }
  }

  lemma TriesHere(c: Course, q: Request, lists: seq<seq<string>>, ip: string)
    requires Fit(c) && Allowed(c, q, Try) && lists != [] && lists[0] == c.ips
    requires ip !in Do(c, q, Try).dialled
    ensures forall j :: j in Do(c, q, Try).tried && j !in c.tried ==> OtherStood(lists, j, ip)
  {
    PickUsable(c.st, q, c.tried);
  }

  // ---- a course that dials everywhere but at one address ------------------------

  function Only(j: nat, n: nat): seq<bool> {
    seq(n, i => i == j)
  }

  /** With one backend UP and untried, it is picked. */
  lemma {:induction false} OnlyUpIsPicked(st: State, q: Request, tried: set<nat>, j: nat)
    requires Sound(st) && j < |st.wans| && j !in tried
    requires forall i :: 0 <= i < |st.wans| ==> (st.wans[i].up <==> i == j)
    ensures Pick(st, q, tried).choice == Some(j)
  {
    hide Pick;
    PickUsable(st, q, tried);
    assert InActiveTier(st.wans, j) && Eligible(st.wans, tried, j);
  }

  lemma {:induction false} TryOne(c: Course, q: Request, j: nat)
    requires Fit(c) && j < |c.ips| && j !in c.tried
    ensures var e := World(Runs.Flip(Only(j, |c.ips|)));
      && Allowed(c, q, e) && Allowed(Do(c, q, e), q, Try)
      && var d := Do(Do(c, q, e), q, Try);
        && d.ips == c.ips && d.tried == c.tried + {j} && d.dialled == c.dialled + {c.ips[j]}
        && d.st.wans == Runs.SetUp(c.st.wans, Only(j, |c.ips|))
  {
    hide Pick;
    var c1 := Do(c, q, World(Runs.Flip(Only(j, |c.ips|))));
    OnlyUpIsPicked(c1.st, q, c.tried, j);
  }

  lemma InstallOrFlip(c: Course, q: Request, l: seq<Line>, up: seq<bool>)
    requires Fit(c)
    ensures Reloadable(l) ==>
      var c' := Do(c, q, Install(l));
      c'.st.wans == Wans(l) && c'.ips == Addresses(l) && c'.tried == c.tried && c'.dialled == c.dialled
    ensures Do(c, q, World(Runs.Flip(up))).st.wans == Runs.SetUp(c.st.wans, up)
  {
  }

  lemma SetUpTwice(ws: seq<Wan>, a: seq<bool>, b: seq<bool>)
    requires |b| == |ws|
    ensures Runs.SetUp(Runs.SetUp(ws, a), b) == Runs.SetUp(ws, b)
  {
  }

  lemma Prefixed(c: Course, q: Request, m: Move, rest: seq<Move>)
    requires Fit(c) && Allowed(c, q, m) && Possible(Do(c, q, m), q, rest)
    ensures var ms := [m] + rest;
      && Possible(c, q, ms) && Done(c, q, ms) == Done(Do(c, q, m), q, rest)
      && Installed(ms) == (if m.Install? then [m.list] else []) + Installed(rest)
      && forall n: nat :: Within(ms, n) <==> (m.Try? ==> n > 0) && Within(rest, Less(m, n))
  {
    assert ([m] + rest)[1..] == rest;
  }

  lemma OtherStoodSplit(lists: seq<seq<string>>, n: nat, j: nat, ip: string)
    requires 1 <= n <= |lists| && OtherStood(lists[..n], j, ip)
    ensures (j < |lists[0]| && lists[0][j] != ip) || (n > 1 && OtherStood(lists[1..n], j, ip))
  {
    var v :| 0 <= v < n && j < |lists[..n][v]| && lists[..n][v][j] != ip;
    if v > 0 { assert lists[1..n][v - 1] == lists[v]; }
  }

  lemma OtherStoodTail(ips: seq<string>, news: seq<seq<Line>>, n: nat, j: nat, ip: string)
    requires news != [] && 2 <= n <= |news| + 1 && OtherStood(Listed(ips, news)[1..n], j, ip)
    ensures var l, later := news[0], news[1..];
      || (j < |l| && Addresses(l)[j] != ip)
      || (n > 2 && OtherStood(Listed(Addresses(l), later)[1..n - 1], j, ip))
  {
    hide OtherStood;
    var l, later := news[0], news[1..];
    assert Listed(ips, news)[1..n] == Listed(Addresses(l), later)[..n - 1];
    OtherStoodSplit(Listed(Addresses(l), later), n - 1, j, ip);
  }

  /**
   Under each of the first n lists (of the one it finds, at the first `todo` positions), the
   connection tries every position but those of address `ip`, and health ends as `up` says.
   */
  ghost predicate TriesAllBut(c: Course, q: Request, news: seq<seq<Line>>, up: seq<bool>, n: nat, ip: string, todo: nat,
                              ms: seq<Move>)
    requires Fit(c) && todo <= |c.ips| && n <= |news| + 1
  {
    && Possible(c, q, ms) && Installed(ms) == news && Within(ms, n)
    && var d := Done(c, q, ms);
      && ip !in d.dialled && c.tried <= d.tried
      && d.st.wans == Runs.SetUp(LastWans(c.st.wans, news), up)
      && (forall j :: 0 <= j < todo && c.ips[j] != ip ==> j in d.tried)
      && (n > 1 ==> forall j :: OtherStood(Listed(c.ips, news)[1..n], j, ip) ==> j in d.tried)
  }

  lemma TriesAllEnd(c: Course, q: Request, up: seq<bool>, n: nat, ip: string)
    requires Fit(c) && ip !in c.dialled && n <= 1
    ensures TriesAllBut(c, q, [], up, n, ip, 0, [World(Runs.Flip(up))])
  {
    hide Pick, Runs.Step, Runs.SetUp, OtherStood, Fit;
    InstallOrFlip(c, q, [], up);
    Prefixed(c, q, World(Runs.Flip(up)), []);
    assert [World(Runs.Flip(up))] + [] == [World(Runs.Flip(up))];
  }

  lemma TriesOneMore(c: Course, q: Request, news: seq<seq<Line>>, up: seq<bool>, n: nat, ip: string, j: nat,
                     rest: seq<Move>) returns (ms: seq<Move>)
    requires Fit(c) && 1 <= n <= |news| + 1 && |up| == |LastWans(c.st.wans, news)|
    requires j < |c.ips| && j !in c.tried && c.ips[j] != ip
    requires Allowed(c, q, World(Runs.Flip(Only(j, |c.ips|))))
    requires var c1 := Do(c, q, World(Runs.Flip(Only(j, |c.ips|))));
      && Allowed(c1, q, Try) && Do(c1, q, Try).ips == c.ips
      && TriesAllBut(Do(c1, q, Try), q, news, up, n, ip, j, rest)
    ensures TriesAllBut(c, q, news, up, n, ip, j + 1, ms)
  {
    hide Pick, Runs.Step, Runs.SetUp, OtherStood, Fit;
    var flip := World(Runs.Flip(Only(j, |c.ips|)));
    TryOne(c, q, j);
    var c1 := Do(c, q, flip);
    Prefixed(c1, q, Try, rest);
    Prefixed(c, q, flip, [Try] + rest);
    ms := [flip] + ([Try] + rest);
    if news == [] { SetUpTwice(c.st.wans, Only(j, |c.ips|), up); }
  }

  lemma TriesAfterReload(c: Course, q: Request, news: seq<seq<Line>>, up: seq<bool>, n: nat, ip: string,
                         rest: seq<Move>)
    requires Fit(c) && n <= |news| + 1 && news != [] && Reloadable(news[0])
    requires TriesAllBut(Do(c, q, Install(news[0])), q, news[1..], up, if n > 0 then n - 1 else 0, ip,
                         if n > 1 then |news[0]| else 0, rest)
    ensures TriesAllBut(c, q, news, up, n, ip, 0, [Install(news[0])] + rest)
  {
    hide Pick, Runs.Step, Runs.SetUp, OtherStood, Fit, Listed, Reloadable, Do, Done, Possible, Within, Installed;
    var l, later := news[0], news[1..];
    InstallOrFlip(c, q, l, up);
    assert news == [l] + later;
    Prefixed(c, q, Install(l), rest);
    forall j | n > 1 && OtherStood(Listed(c.ips, news)[1..n], j, ip)
      ensures j in Done(c, q, [Install(l)] + rest).tried
    {
      OtherStoodTail(c.ips, news, n, j, ip);
    }
  }

  lemma {:induction false} TryAllBut(c: Course, q: Request, news: seq<seq<Line>>, up: seq<bool>, n: nat, ip: string,
                                     todo: nat)
    returns (ms: seq<Move>)
    requires Fit(c) && ip !in c.dialled && |up| == |LastWans(c.st.wans, news)|
    requires forall l :: l in news ==> Reloadable(l)
    requires n <= |news| + 1 && todo <= |c.ips| && (n == 0 ==> todo == 0)
    ensures TriesAllBut(c, q, news, up, n, ip, todo, ms)
    decreases |news|, todo
  {
    hide Pick, Runs.Step, Runs.SetUp, OtherStood, Fit, Reloadable;
    if todo > 0 {
      var j := todo - 1;
      if j in c.tried || c.ips[j] == ip {
        ms := TryAllBut(c, q, news, up, n, ip, j);
      } else {
        TryOne(c, q, j);
        var c1 := Do(c, q, World(Runs.Flip(Only(j, |c.ips|))));
        var rest := TryAllBut(Do(c1, q, Try), q, news, up, n, ip, j);
        ms := TriesOneMore(c, q, news, up, n, ip, j, rest);
      }
    } else if news != [] {
      var c1 := Do(c, q, Install(news[0]));
      InstallOrFlip(c, q, news[0], up);
      var rest := TryAllBut(c1, q, news[1..], up, if n > 0 then n - 1 else 0, ip, if n > 1 then |news[0]| else 0);
      TriesAfterReload(c, q, news, up, n, ip, rest);
      ms := [Install(news[0])] + rest;
    } else {
      TriesAllEnd(c, q, up, n, ip);
      ms := [World(Runs.Flip(up))];
    }
  }

  // ---- exactly which reloads -----------------------------------------------------

  /** Nobody is picked once every eligible position, of which there is one, was tried. */
  lemma NobodyLeft(st: State, q: Request, tried: set<nat>, i: nat)
    requires Sound(st) && i < |st.wans| && Eligible(st.wans, {}, i)
    requires forall j :: 0 <= j < |st.wans| && Eligible(st.wans, {}, j) ==> j in tried
    ensures Pick(st, q, tried).choice == None
  {
    hide Pick;
    PickUsable(st, q, tried);
  }

  /**
   A connection finds the selector at c; the lists `news` are installed one after another, and
   health ends as `up`. It can give up with an eligible backend undialled, making its tries
   under the first n lists, exactly when some eligible address of the last list is such that
   at every eligible position one of these n lists had another address.
   */
  lemma {:induction false} LeftoverIff(c: Course, q: Request, news: seq<seq<Line>>, up: seq<bool>, n: nat)
    requires Fit(c) && c.tried == {} && c.dialled == {}
    requires forall l :: l in news ==> Reloadable(l)
    requires |up| == |LastWans(c.st.wans, news)| && 1 <= n <= |news| + 1
    ensures var lists, ws := Listed(c.ips, news), Runs.SetUp(LastWans(c.st.wans, news), up);
      (exists ms :: LeavesOut(c, q, ms, news, ws, n)) <==>
      exists i :: 0 <= i < |ws| && Eligible(ws, {}, i) && MayMiss(lists[..n], ws, lists[|news|][i])
  {
    var lists, ws := Listed(c.ips, news), Runs.SetUp(LastWans(c.st.wans, news), up);
    if ms :| LeavesOut(c, q, ms, news, ws, n) {
      OnlyThen(c, q, ms, news, ws, n);
    }
    if i :| 0 <= i < |ws| && Eligible(ws, {}, i) && MayMiss(lists[..n], ws, lists[|news|][i]) {
      var ms := ThenIndeed(c, q, news, up, n, i);
    }
  }

  lemma {:induction false} OnlyThen(c: Course, q: Request, ms: seq<Move>, news: seq<seq<Line>>, ws: seq<Wan>, n: nat)
    requires Fit(c) && c.tried == {} && c.dialled == {} && 1 <= n <= |news| + 1
    requires LeavesOut(c, q, ms, news, ws, n)
    ensures var lists := Listed(c.ips, news);
      |ws| == |lists[|news|]| &&
      exists i :: 0 <= i < |ws| && Eligible(ws, {}, i) && MayMiss(lists[..n], ws, lists[|news|][i])
  {
    hide Pick, Eligible, OtherStood;
    var d := Done(c, q, ms);
    var i :| 0 <= i < |ws| && Eligible(ws, {}, i) && d.ips[i] !in d.dialled;
    TriedOther(c, q, ms, n, d.ips[i]);
    PickUsable(d.st, q, d.tried);
    forall j | 0 <= j < |ws| && Eligible(ws, {}, j) ensures j in d.tried {
      StillEligible(ws, d.tried, j);
    }
    assert MayMiss(Listed(c.ips, news)[..n], ws, d.ips[i]);
  }

  lemma StillEligible(ws: seq<Wan>, tried: set<nat>, j: nat)
    requires j < |ws| && Eligible(ws, {}, j) && !Eligible(ws, tried, j)
    ensures j in tried
  {
  }

  lemma {:induction false} ThenIndeed(c: Course, q: Request, news: seq<seq<Line>>, up: seq<bool>, n: nat, i: nat)
    returns (ms: seq<Move>)
    requires Fit(c) && c.tried == {} && c.dialled == {}
    requires forall l :: l in news ==> Reloadable(l)
    requires |up| == |LastWans(c.st.wans, news)| && 1 <= n <= |news| + 1
    requires var lists, ws := Listed(c.ips, news), Runs.SetUp(LastWans(c.st.wans, news), up);
      i < |ws| && Eligible(ws, {}, i) && MayMiss(lists[..n], ws, lists[|news|][i])
    ensures LeavesOut(c, q, ms, news, Runs.SetUp(LastWans(c.st.wans, news), up), n)
  {
    hide Pick, Eligible, OtherStood;
    var lists, ws := Listed(c.ips, news), Runs.SetUp(LastWans(c.st.wans, news), up);
    var ip := lists[|news|][i];
    ms := TryAllBut(c, q, news, up, n, ip, |c.ips|);
    var d := Done(c, q, ms);
    forall j | 0 <= j < |ws| && Eligible(ws, {}, j) ensures j in d.tried {
      OtherStoodSplit(lists, n, j, ip);
    }
    TriedOther(c, q, ms, n, ip);
    NobodyLeft(d.st, q, d.tried, i);
  }

  predicate NoneTwice(ips: seq<string>) {
    forall i, j :: 0 <= i < j < |ips| ==> ips[i] != ips[j]
  }

  /** The same where the last list has no address twice: some list had another address at an eligible place of it. */
  lemma {:induction false} DistinctLeftoverIff(c: Course, q: Request, news: seq<seq<Line>>, up: seq<bool>)
    requires Fit(c) && c.tried == {} && c.dialled == {}
    requires forall l :: l in news ==> Reloadable(l)
    requires |up| == |LastWans(c.st.wans, news)|
    requires NoneTwice(Listed(c.ips, news)[|news|])
    ensures var lists, ws, n := Listed(c.ips, news), Runs.SetUp(LastWans(c.st.wans, news), up), |news| + 1;
      (exists ms :: LeavesOut(c, q, ms, news, ws, n)) <==>
      exists i :: 0 <= i < |ws| && Eligible(ws, {}, i) && OtherStood(lists, i, lists[|news|][i])
  {
    hide Eligible, OtherStood, LeavesOut, NoneTwice;
    var lists, ws, m := Listed(c.ips, news), Runs.SetUp(LastWans(c.st.wans, news), up), |news|;
    LeftoverIff(c, q, news, up, m + 1);
    assert lists[..m + 1] == lists;
    if i :| 0 <= i < |ws| && Eligible(ws, {}, i) && OtherStood(lists, i, lists[m][i]) {
      forall j | 0 <= j < |ws| && Eligible(ws, {}, j) ensures OtherStood(lists, j, lists[m][i]) {
        if j != i { OthersStandThere(lists, j, i); }
      }
      assert MayMiss(lists, ws, lists[m][i]);
    }
  }

  lemma OthersStandThere(lists: seq<seq<string>>, j: nat, i: nat)
    requires lists != [] && NoneTwice(lists[|lists| - 1]) && j != i
    requires j < |lists[|lists| - 1]| && i < |lists[|lists| - 1]|
    ensures OtherStood(lists, j, lists[|lists| - 1][i])
  {
    assert lists[|lists| - 1][j] != lists[|lists| - 1][i];
  }

  /**
   The same for one reload, after which the connection's next pick finds nobody: the old list
   has all eligible positions of the new one, and at none of them some eligible new address.
   */
  lemma {:induction false} OneReloadIff(c: Course, q: Request, after: seq<Line>, up: seq<bool>)
    requires Fit(c) && c.tried == {} && c.dialled == {}
    requires Reloadable(after) && |up| == |after|
    ensures var ws := Runs.SetUp(Wans(after), up);
      (exists ms :: LeavesOut(c, q, ms, [after], ws, 1)) <==>
      exists i :: 0 <= i < |ws| && Eligible(ws, {}, i) &&
        forall j :: 0 <= j < |ws| && Eligible(ws, {}, j) ==> j < |c.ips| && c.ips[j] != after[i].ip
  {
    hide Eligible, OtherStood, LeavesOut;
    var ws, before := Runs.SetUp(Wans(after), up), Listed(c.ips, [after])[..1];
    LeftoverIff(c, q, [after], up, 1);
    assert before == [c.ips];
    forall i | 0 <= i < |ws| ensures MayMiss(before, ws, after[i].ip) <==>
      forall j :: 0 <= j < |ws| && Eligible(ws, {}, j) ==> j < |c.ips| && c.ips[j] != after[i].ip
    {
      OtherThan(c.ips, after[i].ip);
    }
  }

  lemma OtherThan(ips: seq<string>, ip: string)
    ensures forall j: nat :: OtherStood([ips], j, ip) <==> j < |ips| && ips[j] != ip
  {
    forall j: nat | j < |ips| && ips[j] != ip ensures OtherStood([ips], j, ip) {
      assert [ips][0] == ips;
    }
  }
}
