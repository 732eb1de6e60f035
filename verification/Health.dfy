/**
 The fail/rise hysteresis of the health checks: the state machine, what its verdict says
 about the whole history of observations, and how seldom it can flip.
 */
module Health {
  import opened Backends

  datatype Streaks = Streaks(up: bool, fails: nat, oks: nat)

  /** One observation under the thresholds `fail` and `rise`. */
  function Next(fail: nat, rise: nat, s: Streaks, ok: bool): Streaks {
    if ok then Streaks(s.up || s.oks + 1 >= rise, 0, s.oks + 1)
    else Streaks(s.up && s.fails + 1 < fail, s.fails + 1, 0)
  }

  class HealthState {
    const failThreshold: nat
    const riseThreshold: nat
    var up: bool
    var consecFail: nat
    var consecOk: nat

    constructor (fail: int, rise: int)
      ensures failThreshold == (if fail < 1 then 1 else fail)
      ensures riseThreshold == (if rise < 1 then 1 else rise)
      ensures View() == Streaks(true, 0, 0)
    {
      failThreshold := if fail < 1 then 1 else fail;
      riseThreshold := if rise < 1 then 1 else rise;
      up, consecFail, consecOk := true, 0, 0;
    }

    function View(): Streaks
      reads this
    {
      Streaks(up, consecFail, consecOk)
    }

    method Observe(ok: bool) returns (flipped: bool)
      modifies this
      ensures View() == Next(failThreshold, riseThreshold, old(View()), ok)
      ensures flipped <==> up != old(up)
    {
      if ok {
        consecFail := 0;
        consecOk := consecOk + 1;
        if !up && consecOk >= riseThreshold {
          up := true;
          return true;
        }
        return false;
      }
      consecOk := 0;
      consecFail := consecFail + 1;
      if up && consecFail >= failThreshold {
        up := false;
        return true;
      }
      return false;
    }
  }

  /** The checker of one backend; a reload stops it and starts another. */
  class HealthChecker {
    const lb: Backend
    const state: HealthState
    var stopped: bool

    /** The verdict of a running checker is the one selection sees. */
    ghost predicate InStep()
      reads this, lb, state
    {
      !stopped ==> lb.up == state.up
    }

    /** A new checker takes over the backend's current verdict; its streaks start at zero. */
    constructor (lb: Backend, fail: int, rise: int)
      ensures this.lb == lb && fresh(state) && !stopped && InStep()
      ensures state.View() == Streaks(lb.up, 0, 0)
      ensures state.failThreshold == (if fail < 1 then 1 else fail)
      ensures state.riseThreshold == (if rise < 1 then 1 else rise)
    {
      this.lb := lb;
      state := new HealthState(fail, rise);
      stopped := false;
      new;
      state.up := lb.up;
    }

    method Stop()
      modifies this
      ensures stopped
    {
      stopped := true;
    }

    /** A result is counted and its flip published, unless the checker was stopped. */
    method Observe(ok: bool)
      requires InStep()
      modifies state, lb`up, lb`checksOk, lb`checksFailed
      ensures InStep()
      ensures stopped ==>
        && state.View() == old(state.View()) && lb.up == old(lb.up)
        && lb.checksOk == old(lb.checksOk) && lb.checksFailed == old(lb.checksFailed)
      ensures !stopped ==>
        && state.View() == Next(state.failThreshold, state.riseThreshold, old(state.View()), ok)
        && lb.checksOk == (if ok then Counted(old(lb.checksOk) + 1) else old(lb.checksOk))
        && lb.checksFailed == (if ok then old(lb.checksFailed) else Counted(old(lb.checksFailed) + 1))
    {
      if stopped {
        return;
      }
      var flipped := state.Observe(ok);
      if ok {
        lb.checksOk := Counted(lb.checksOk + 1);
      } else {
        lb.checksFailed := Counted(lb.checksFailed + 1);
      }
      if flipped {
        lb.up := state.up;
      }
    }
  }

  // ---- the verdict is the last qualifying streak -----------------------------

  function Watch(fail: nat, rise: nat, seed: bool, h: seq<bool>): Streaks {
    if h == [] then Streaks(seed, 0, 0)
    else Next(fail, rise, Watch(fail, rise, seed, h[..|h| - 1]), h[|h| - 1])
  }

  /** The n observations that end at position k all came out v. */
  ghost predicate Streak(h: seq<bool>, k: nat, v: bool, n: nat) {
    n <= k <= |h| && forall j :: k - n <= j < k ==> h[j] == v
  }

  /**
   The most recent position where a streak reached its threshold was a streak of successes,
   or no streak ever did and the checker was seeded UP.
   */
  ghost predicate LastStreakIsUp(fail: nat, rise: nat, seed: bool, h: seq<bool>) {
    || (exists k :: Streak(h, k, true, rise) && NoFailAfter(fail, h, k))
    || (seed && NoFailAfter(fail, h, 0))
  }

  ghost predicate NoFailAfter(fail: nat, h: seq<bool>, k: nat) {
    forall k' :: k < k' <= |h| ==> !Streak(h, k', false, fail)
  }

  lemma StreakPrefix(h: seq<bool>, k: nat, v: bool, n: nat)
    requires h != [] && k < |h|
    ensures Streak(h, k, v, n) <==> Streak(h[..|h| - 1], k, v, n)
  {
    var f := h[..|h| - 1];
    assert forall j :: 0 <= j < k ==> f[j] == h[j];
  }

  lemma {:induction false} StreaksCount(fail: nat, rise: nat, seed: bool, h: seq<bool>, n: nat)
    ensures var s := Watch(fail, rise, seed, h);
      && (Streak(h, |h|, true, n) <==> n <= s.oks)
      && (Streak(h, |h|, false, n) <==> n <= s.fails)
    decreases |h|
  {
    if h != [] && n > 0 {
      var m, f := |h| - 1, h[..|h| - 1];
      StreaksCount(fail, rise, seed, f, n - 1);
      StreakExtend(h, true, n);
      StreakExtend(h, false, n);
    }
  }

  lemma StreakExtend(h: seq<bool>, v: bool, n: nat)
    requires h != [] && n > 0
    ensures Streak(h, |h|, v, n) <==> h[|h| - 1] == v && Streak(h[..|h| - 1], |h| - 1, v, n - 1)
  {
    var m, f := |h| - 1, h[..|h| - 1];
    assert forall j :: 0 <= j < m ==> f[j] == h[j];
    if Streak(h, |h|, v, n) {
      assert h[m] == v;
    }
    if h[m] == v && Streak(f, m, v, n - 1) {
      forall j | |h| - n <= j < |h| ensures h[j] == v {
        if j < m { assert f[j] == v; }
      }
    }
  }

  lemma LastStreakPrefix(fail: nat, rise: nat, seed: bool, h: seq<bool>)
    requires fail >= 1 && rise >= 1 && h != []
    ensures Streak(h, |h|, true, rise) ==> LastStreakIsUp(fail, rise, seed, h)
    ensures Streak(h, |h|, false, fail) ==> !LastStreakIsUp(fail, rise, seed, h)
    ensures !Streak(h, |h|, true, rise) && !Streak(h, |h|, false, fail) ==>
      (LastStreakIsUp(fail, rise, seed, h) <==> LastStreakIsUp(fail, rise, seed, h[..|h| - 1]))
  {
    var f := h[..|h| - 1];
    forall k | 0 <= k < |h|
      ensures Streak(h, k, true, rise) <==> Streak(f, k, true, rise)
      ensures Streak(h, k, false, fail) <==> Streak(f, k, false, fail)
    {
      StreakPrefix(h, k, true, rise);
      StreakPrefix(h, k, false, fail);
    }
    StreakExtend(h, true, rise);
    StreakExtend(h, false, fail);
    if !Streak(h, |h|, false, fail) {
      forall k | 0 <= k < |h| ensures NoFailAfter(fail, h, k) <==> NoFailAfter(fail, f, k) {}
    }
  }

  /** After any history, the verdict is that of the last streak that reached its threshold. */
  lemma {:induction false} VerdictIsLastStreak(fail: nat, rise: nat, seed: bool, h: seq<bool>)
    requires fail >= 1 && rise >= 1
    ensures Watch(fail, rise, seed, h).up <==> LastStreakIsUp(fail, rise, seed, h)
    decreases |h|
  {
    if h != [] {
      VerdictIsLastStreak(fail, rise, seed, h[..|h| - 1]);
      LastStreakPrefix(fail, rise, seed, h);
      StreaksCount(fail, rise, seed, h, rise);
      StreaksCount(fail, rise, seed, h, fail);
    }
  }

  // ---- how seldom it flips -----------------------------------------------------

  /** What happens to the verdict of one backend over its life. */
  datatype Event = Observed(ok: bool) | Restarted(fail: nat, rise: nat)

  datatype Life = Life(fail: nat, rise: nat, streaks: Streaks, flips: nat, observed: nat)

  function Live(l: Life, e: Event): Life {
    match e
    case Restarted(fail, rise) => l.(fail := fail, rise := rise, streaks := Streaks(l.streaks.up, 0, 0))
    case Observed(ok) =>
      var s := Next(l.fail, l.rise, l.streaks, ok);
      l.(streaks := s, flips := if s.up != l.streaks.up then l.flips + 1 else l.flips, observed := l.observed + 1)
  }

  function Lived(l: Life, es: seq<Event>): Life
    decreases |es|
  {
    if es == [] then l else Live(Lived(l, es[..|es| - 1]), es[|es| - 1])
  }

  /** What k flips from UP cost: failures for the odd ones, successes for the even ones. */
  function FlipCost(fail: nat, rise: nat, k: nat): nat {
    (k + 1) / 2 * fail + k / 2 * rise
  }

  lemma FlipCostStep(fail: nat, rise: nat, k: nat)
    ensures FlipCost(fail, rise, k + 1) == FlipCost(fail, rise, k) + if k % 2 == 0 then fail else rise
  {
    if k % 2 == 0 {
      assert (k + 2) / 2 == (k + 1) / 2 + 1 && (k + 1) / 2 == k / 2;
      assert ((k + 1) / 2 + 1) * fail == (k + 1) / 2 * fail + fail;
    } else {
      assert (k + 2) / 2 == (k + 1) / 2 && (k + 1) / 2 == k / 2 + 1;
      assert (k / 2 + 1) * rise == k / 2 * rise + rise;
    }
  }

  /**
   Hysteresis: k flips of a backend that starts UP take at least ceil(k/2) times the fail
   threshold plus floor(k/2) times the rise threshold of observations, also across checker
   restarts that zero the streaks and set other thresholds, none below `fail` and `rise`.
   */
  lemma {:induction false} FlipsAreSeldom(fail: nat, rise: nat, l: Life, es: seq<Event>)
    requires l.fail >= fail >= 1 && l.rise >= rise >= 1
    requires l == Life(l.fail, l.rise, Streaks(true, 0, 0), 0, 0)
    requires forall e :: e in es && e.Restarted? ==> e.fail >= fail && e.rise >= rise
    ensures var l' := Lived(l, es);
      && l'.fail >= fail && l'.rise >= rise
      && l'.streaks.up == (l'.flips % 2 == 0)
      && l'.observed >= FlipCost(fail, rise, l'.flips) + (if l'.streaks.up then l'.streaks.fails else l'.streaks.oks)
    decreases |es|
  {
    hide FlipCost;
    if es == [] {
      assert FlipCost(fail, rise, 0) == 0 by { FlipCostZero(fail, rise); }
    } else {
      var front := es[..|es| - 1];
      FlipsAreSeldom(fail, rise, l, front);
      assert es[|es| - 1] in es;
      FlipCostStep(fail, rise, Lived(l, front).flips);
    }
  }

  lemma FlipCostZero(fail: nat, rise: nat)
    ensures FlipCost(fail, rise, 0) == 0
  {
  }

  /** A backend whose checks fail and succeed just long enough to flip, k times. */
  function Flapping(fail: nat, rise: nat, k: nat): seq<Event> {
    if k == 0 then []
    else Flapping(fail, rise, k - 1) + (if k % 2 == 1 then Same(fail, false) else Same(rise, true))
  }

  function Same(n: nat, ok: bool): seq<Event> {
    seq(n, _ => Observed(ok))
  }

  /** m checks that contradict the verdict: the last one needed for its threshold flips it. */
  lemma {:induction false} Contradicted(l: Life, es: seq<Event>, ok: bool, n: nat, m: nat)
    requires n == (if ok then l.rise else l.fail) && 1 <= n && m <= n
    requires var a := Lived(l, es);
      && a.fail == l.fail && a.rise == l.rise && a.streaks.up == !ok
      && (if ok then a.streaks.oks else a.streaks.fails) == 0
    ensures var a, b := Lived(l, es), Lived(l, es + Same(m, ok));
      && b.fail == l.fail && b.rise == l.rise && b.observed == a.observed + m
      && b.streaks.up == (if m < n then !ok else ok) && b.flips == a.flips + (if m < n then 0 else 1)
      && (if ok then b.streaks.oks else b.streaks.fails) == m
      && (m > 0 ==> (if ok then b.streaks.fails else b.streaks.oks) == 0)
    decreases m
  {
    var es' := es + Same(m, ok);
    if m == 0 {
      assert es' == es;
    } else {
      Contradicted(l, es, ok, n, m - 1);
      assert es'[..|es'| - 1] == es + Same(m - 1, ok) && es'[|es'| - 1] == Observed(ok);
    }
  }

  /** From UP and no streak, the backend flips k times at the least cost. */
  ghost predicate FlipsMet(fail: nat, rise: nat, k: nat) {
    var l := Lived(Fresh(fail, rise), Flapping(fail, rise, k));
    && l.fail == fail && l.rise == rise && l.streaks.up == (k % 2 == 0)
    && (if l.streaks.up then l.streaks.fails else l.streaks.oks) == 0
    && l.flips == k && l.observed == FlipCost(fail, rise, k)
  }

  function Fresh(fail: nat, rise: nat): Life {
    Life(fail, rise, Streaks(true, 0, 0), 0, 0)
  }

  /** The bound of FlipsAreSeldom is met, for every k and all thresholds. */
  lemma {:induction false} FlipsBoundMet(fail: nat, rise: nat, k: nat)
    requires fail >= 1 && rise >= 1
    ensures FlipsMet(fail, rise, k)
    decreases k
  {
    hide FlipsMet;
    if k == 0 {
      NoFlips(fail, rise);
    } else {
      FlipsBoundMet(fail, rise, k - 1);
      FlipsOnceMore(fail, rise, k - 1);
    }
  }

  lemma NoFlips(fail: nat, rise: nat)
    ensures FlipsMet(fail, rise, 0)
  {
    hide FlipCost;
    FlipCostZero(fail, rise);
  }

  lemma FlipsOnceMore(fail: nat, rise: nat, k: nat)
    requires fail >= 1 && rise >= 1 && FlipsMet(fail, rise, k)
    ensures FlipsMet(fail, rise, k + 1)
  {
    hide FlipCost, Lived, Same;
    var ok := k % 2 == 1;
    var n := if ok then rise else fail;
    FlipCostStep(fail, rise, k);
    Contradicted(Fresh(fail, rise), Flapping(fail, rise, k), ok, n, n);
    assert Flapping(fail, rise, k + 1) == Flapping(fail, rise, k) + Same(n, ok);
  }
}
