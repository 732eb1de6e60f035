/**
 What a whole run of picks does while the set of eligible backends and their ratios
 stay as they are: it walks, round and round, through one fixed schedule in which every
 eligible backend holds exactly its ratio of consecutive places.
 */
module Fairness {
  import opened Options
  import opened Rotation

  /** The weights of the first k backends together. */
  function Before(w: seq<nat>, k: nat): nat
    requires k <= |w|
  {
    if k == 0 then 0 else Before(w, k - 1) + w[k - 1]
  }

  function Total(w: seq<nat>): nat {
    Before(w, |w|)
  }

  function Repeat(j: nat, k: nat): (s: seq<Option<nat>>)
    ensures |s| == k
    ensures forall x :: 0 <= x < k ==> s[x] == Some(j)
  {
    if k == 0 then [] else Repeat(j, k - 1) + [Some(j)]
  }

  /** The schedule: the first k backends in list order, each repeated by its weight. */
  function Lap(w: seq<nat>, k: nat): (s: seq<Option<nat>>)
    requires k <= |w|
    ensures |s| == Before(w, k)
  {
    if k == 0 then [] else Lap(w, k - 1) + Repeat(k - 1, w[k - 1])
  }

  function Picks(w: seq<nat>, r: Rotor, k: nat): (s: seq<Option<nat>>)
    requires Ok(w, r)
    ensures |s| == k
    decreases k
  {
    if k == 0 then [] else [Spin(w, r).pick] + Picks(w, Spin(w, r).rotor, k - 1)
  }

  function After(w: seq<nat>, r: Rotor, k: nat): (r': Rotor)
    requires Ok(w, r)
    ensures Ok(w, r')
    decreases k
  {
    if k == 0 then r else After(w, Spin(w, r).rotor, k - 1)
  }

  /** How many of the picks went to backend i. */
  function Count(s: seq<Option<nat>>, i: nat): (c: nat)
    ensures c <= |s|
    ensures c > 0 <==> Some(i) in s
  {
    if s == [] then 0 else (if s[0] == Some(i) then 1 else 0) + Count(s[1..], i)
  }

  lemma {:induction false} CountConcat(s: seq<Option<nat>>, t: seq<Option<nat>>, i: nat)
    ensures Count(s + t, i) == Count(s, i) + Count(t, i)
    decreases |s|
  {
    if s == [] {
      assert s + t == t;
    } else {
      CountConcat(s[1..], t, i);
      assert (s + t)[1..] == s[1..] + t;
    }
  }

  /** How far into the lap the rotation stands. */
  function Place(w: seq<nat>, r: Rotor): nat
    requires Ok(w, r)
  {
    var p := Before(w, r.idx) + (if w[r.idx] > 0 then r.credit else 0);
    if p == Total(w) then 0 else p
  }

  // ---- the lap -------------------------------------------------------------

  lemma {:induction false} BeforeMonotone(w: seq<nat>, a: nat, b: nat)
    requires a <= b <= |w|
    ensures Before(w, a) <= Before(w, b)
    ensures (forall k :: a <= k < b ==> w[k] == 0) ==> Before(w, a) == Before(w, b)
    decreases b
  {
    if a < b {
      BeforeMonotone(w, a, b - 1);
    }
  }

  lemma {:induction false} LapAt(w: seq<nat>, n: nat, j: nat, c: nat)
    requires j < n <= |w| && c < w[j]
    ensures Before(w, j) + c < Before(w, n)
    ensures Lap(w, n)[Before(w, j) + c] == Some(j)
    decreases n
  {
    if j < n - 1 {
      LapAt(w, n - 1, j, c);
    }
  }

  lemma {:induction false} RepeatCount(j: nat, k: nat, i: nat)
    ensures Count(Repeat(j, k), i) == if i == j then k else 0
    decreases k
  {
    if k > 0 {
      RepeatCount(j, k - 1, i);
      CountConcat(Repeat(j, k - 1), [Some(j)], i);
    }
  }

  lemma {:induction false} LapCount(w: seq<nat>, n: nat, i: nat)
    requires n <= |w|
    ensures Count(Lap(w, n), i) == if i < n then w[i] else 0
    decreases n
  {
    if n > 0 {
      LapCount(w, n - 1, i);
      RepeatCount(n - 1, w[n - 1], i);
      CountConcat(Lap(w, n - 1), Repeat(n - 1, w[n - 1]), i);
    }
  }

  lemma SomebodyEligible(w: seq<nat>)
    requires Total(w) > 0
    ensures First(w, 0) < |w|
  {
    BeforeMonotone(w, 0, |w|);
  }

  // ---- picks walk the lap --------------------------------------------------

  /** Nobody between the cursor and the backend it serves takes a place in the lap. */
  lemma ServedPlace(w: seq<nat>, r: Rotor, j: nat)
    requires Ok(w, r) && Total(w) > 0
    requires Spin(w, r).pick == Some(j)
    ensures j < |w| && w[j] > 0
    ensures var c := if j == r.idx then r.credit else 0; c < w[j] && Place(w, r) == Before(w, j) + c
    ensures Before(w, j) + w[j] <= Total(w)
  {
    hide Before, Lap;
    var a := First(w, r.idx);
    BeforeMonotone(w, r.idx, a);
    BeforeMonotone(w, 0, First(w, 0));
    BeforeStep(w, j);
    BeforeMonotone(w, j + 1, |w|);
    BeforeNone(w);
  }

  lemma BeforeNone(w: seq<nat>)
    ensures Before(w, 0) == 0
  {
  }

  lemma BeforeStep(w: seq<nat>, j: nat)
    requires j < |w|
    ensures Before(w, j + 1) == Before(w, j) + w[j]
  {
  }

  lemma PlaceNext(w: seq<nat>, j: nat, c: nat)
    requires j < |w| && c < w[j]
    requires Before(w, j) + w[j] <= Total(w)
    ensures var r := Charge(Rotor(j, c), w[j], |w|);
      var p := Before(w, j) + c + 1;
      Ok(w, r) && Place(w, r) == if p == Total(w) then 0 else p
  {
    hide Before, Lap;
    BeforeStep(w, j);
    BeforeNone(w);
  }

  /** One pick serves the place the rotation stands at and moves one place on. */
  lemma {:induction false} SpinFollowsLap(w: seq<nat>, r: Rotor)
    requires Ok(w, r) && Total(w) > 0
    ensures Place(w, r) < Total(w)
    ensures Ok(w, Spin(w, r).rotor)
    ensures Spin(w, r).pick == Lap(w, |w|)[Place(w, r)]
    ensures Place(w, Spin(w, r).rotor) == if Place(w, r) + 1 == Total(w) then 0 else Place(w, r) + 1
  {
    hide Before, Lap, Place;
    SomebodyEligible(w);
    var j := Spin(w, r).pick.value;
    ServedPlace(w, r, j);
    var c := if j == r.idx then r.credit else 0;
    LapAt(w, |w|, j, c);
    PlaceNext(w, j, c);
  }

  lemma SliceHead(s: seq<Option<nat>>, a: nat, b: nat)
    requires a < b <= |s|
    ensures s[a..b] == [s[a]] + s[a + 1..b]
  {
  }

  lemma {:induction false} PicksFollowLap(w: seq<nat>, r: Rotor, k: nat)
    requires Ok(w, r) && Total(w) > 0
    requires Place(w, r) + k <= Total(w)
    ensures Picks(w, r, k) == Lap(w, |w|)[Place(w, r)..Place(w, r) + k]
    ensures k > 0 ==> Place(w, After(w, r, k)) == if Place(w, r) + k == Total(w) then 0 else Place(w, r) + k
    decreases k
  {
    hide Spin, First, Lap, Place, Before;
    if k > 0 {
      SpinFollowsLap(w, r);
      var r', p, lap := Spin(w, r).rotor, Place(w, r), Lap(w, |w|);
      SliceHead(lap, p, p + k);
      assert lap[p] == Spin(w, r).pick;
      if k > 1 {
        PicksFollowLap(w, r', k - 1);
        assert lap[p + 1..p + k] == Picks(w, r', k - 1);
      } else {
        assert lap[p + 1..p + 1] == Picks(w, r', 0);
        assert After(w, r', 0) == r';
      }
      assert Picks(w, r, k) == [Spin(w, r).pick] + Picks(w, r', k - 1);
      assert After(w, r, k) == After(w, r', k - 1);
    }
  }

  lemma {:induction false} PicksAppend(w: seq<nat>, r: Rotor, a: nat, b: nat)
    requires Ok(w, r)
    ensures Picks(w, r, a + b) == Picks(w, r, a) + Picks(w, After(w, r, a), b)
    ensures After(w, r, a + b) == After(w, After(w, r, a), b)
    decreases a
  {
    hide Spin;
    if a > 0 {
      PicksAppend(w, Spin(w, r).rotor, a - 1, b);
    }
  }

  lemma CountAppend(w: seq<nat>, r: Rotor, a: nat, b: nat, i: nat)
    requires Ok(w, r)
    ensures Count(Picks(w, r, a + b), i) == Count(Picks(w, r, a), i) + Count(Picks(w, After(w, r, a), b), i)
  {
    PicksAppend(w, r, a, b);
    CountConcat(Picks(w, r, a), Picks(w, After(w, r, a), b), i);
  }

  // ---- shares --------------------------------------------------------------

  /**
   Exact weighted fairness: from any standing of the rotation, any Total(w) consecutive
   picks return each backend exactly its weight, and bring the rotation back to its place.
   */
  lemma {:induction false} ExactShares(w: seq<nat>, r: Rotor, i: nat)
    requires Ok(w, r) && Total(w) > 0
    ensures Count(Picks(w, r, Total(w)), i) == if i < |w| then w[i] else 0
    ensures Place(w, After(w, r, Total(w))) == Place(w, r)
  {
    hide Spin, Lap, Place, Before, Picks, After, Count;
    SpinFollowsLap(w, r);
    var p, n, lap := Place(w, r), Total(w), Lap(w, |w|);
    PicksFollowLap(w, r, n - p);
    var r' := After(w, r, n - p);
    PicksFollowLap(w, r', p);
    PicksAppend(w, r, n - p, p);
    assert lap[p..p + (n - p)] == lap[p..] && lap[0..p] == lap[..p];
    CountConcat(lap[p..], lap[..p], i);
    CountConcat(lap[..p], lap[p..], i);
    assert lap == lap[..p] + lap[p..];
    LapCount(w, |w|, i);
  }

  /** A pick always happens, and whoever is not eligible is never picked. */
  lemma {:induction false} OnlyEligible(w: seq<nat>, r: Rotor, k: nat, t: nat)
    requires Ok(w, r) && Total(w) > 0 && t < k
    ensures match Picks(w, r, k)[t] case Some(j) => j < |w| && w[j] > 0 case None => false
    decreases k
  {
    SomebodyEligible(w);
    if t > 0 {
      OnlyEligible(w, Spin(w, r).rotor, k - 1, t - 1);
    }
  }

  lemma {:induction false} WholeTurns(w: seq<nat>, r: Rotor, q: nat, k: nat, i: nat)
    requires Ok(w, r) && Total(w) > 0 && i < |w| && k == q * Total(w)
    ensures Count(Picks(w, r, k), i) == q * w[i]
    decreases q
  {
    hide Spin, Lap, Place, Before, Total, After, Picks;
    var n := Total(w);
    if q > 0 {
      Distribute(q, n);
      Distribute(q, w[i]);
      ExactShares(w, r, i);
      WholeTurns(w, After(w, r, n), q - 1, k - n, i);
      CountAppend(w, r, n, k - n, i);
    } else {
      assert |Picks(w, r, 0)| == 0;
    }
  }

  lemma Distribute(q: nat, n: nat)
    requires q > 0
    ensures q * n == n + (q - 1) * n
    ensures q * n >= n
  {
  }

  lemma {:induction false} Between(w: seq<nat>, r: Rotor, q: nat, k: nat, i: nat)
    requires Ok(w, r) && Total(w) > 0 && i < |w|
    requires q * Total(w) <= k < (q + 1) * Total(w)
    ensures q * w[i] <= Count(Picks(w, r, k), i) <= (if k == q * Total(w) then q else q + 1) * w[i]
  {
    hide *;
    var lo, hi := q * Total(w), (q + 1) * Total(w);
    WholeTurns(w, r, q, lo, i);
    WholeTurns(w, r, q + 1, hi, i);
    CountAppend(w, r, lo, k - lo, i);
    CountAppend(w, r, k, hi - k, i);
  }

  /** Bounded deviation: k picks give backend i between floor and ceiling of k/W turns. */
  lemma {:induction false} BoundedDeviation(w: seq<nat>, r: Rotor, k: nat, i: nat)
    requires Ok(w, r) && Total(w) > 0 && i < |w|
    ensures k / Total(w) * w[i] <= Count(Picks(w, r, k), i)
    ensures Count(Picks(w, r, k), i) <= (k + Total(w) - 1) / Total(w) * w[i]
  {
    hide *;
    var n := Total(w);
    var q, c := k / n, (k + n - 1) / n;
    FloorAndCeiling(k, n, q, c);
    Between(w, r, q, k, i);
  }

  lemma FloorAndCeiling(k: nat, n: nat, q: nat, c: nat)
    requires n > 0 && q == k / n && c == (k + n - 1) / n
    ensures q * n <= k < (q + 1) * n
    ensures c == if k == q * n then q else q + 1
  {
    DivBounds(k, n);
    if k == q * n {
      DivUnique(q, n, k + n - 1);
    } else {
      Distribute(q + 2, n);
      DivUnique(q + 1, n, k + n - 1);
    }
  }

  lemma DivBounds(k: nat, n: nat)
    requires n > 0
    ensures k / n * n <= k < (k / n + 1) * n
  {
  }

  lemma DivUnique(q: nat, n: nat, k: nat)
    requires n > 0 && q * n <= k < (q + 1) * n
    ensures k / n == q
  {
    var d := k / n;
    DivBounds(k, n);
    if d < q { ProductMonotone(d + 1, q, n); }
    if q < d { ProductMonotone(q + 1, d, n); }
  }

  lemma ProductMonotone(a: nat, b: nat, n: nat)
    requires a <= b
    ensures a * n <= b * n
  {
  }

  lemma TotalCovers(w: seq<nat>, i: nat)
    requires i < |w|
    ensures Total(w) >= w[i]
  {
    BeforeStep(w, i);
    BeforeMonotone(w, i + 1, |w|);
  }

  /** No starvation: an eligible backend is picked within W - r_i + 1 picks. */
  lemma {:induction false} NoStarvation(w: seq<nat>, r: Rotor, i: nat)
    requires Ok(w, r) && i < |w| && w[i] > 0
    ensures Total(w) >= w[i]
    ensures Some(i) in Picks(w, r, Total(w) - w[i] + 1)
  {
    hide Spin, Lap, Place, Before, Picks, After;
    TotalCovers(w, i);
    var k := Total(w) - w[i] + 1;
    ExactShares(w, r, i);
    CountAppend(w, r, k, w[i] - 1, i);
  }

  /**
   The bound of NoStarvation cannot be improved: from the place right after a backend's
   last turn, W - r_i picks pass without it.
   */
  lemma {:induction false} StarvationBoundTight(w: seq<nat>, i: nat)
    requires i < |w| && w[i] > 0
    ensures Total(w) >= w[i] && Ok(w, Rotor(Succ(i, |w|), 0))
    ensures Some(i) !in Picks(w, Rotor(Succ(i, |w|), 0), Total(w) - w[i])
  {
    hide Spin, Lap, Place, Before, Picks, After;
    var start := Rotor(i, 0);
    TotalCovers(w, i);
    ServesItsTurn(w, i, w[i]);
    CountAppend(w, start, w[i], Total(w) - w[i], i);
    ExactShares(w, start, i);
  }

  lemma {:induction false} ServesItsTurn(w: seq<nat>, i: nat, k: nat)
    requires i < |w| && 0 < k <= w[i]
    ensures After(w, Rotor(i, 0), k) == if k < w[i] then Rotor(i, k) else Rotor(Succ(i, |w|), 0)
    ensures Count(Picks(w, Rotor(i, 0), k), i) == k
    decreases k
  {
    FirstIs(w, i, i);
    assert First(w, 0) <= i;
    var r := Rotor(i, k - 1);
    assert Picks(w, r, 1) == [Some(i)] && Count([Some(i)], i) == 1;
    if k > 1 {
      ServesItsTurn(w, i, k - 1);
      PicksAppend(w, Rotor(i, 0), k - 1, 1);
      CountAppend(w, Rotor(i, 0), k - 1, 1, i);
    }
  }
}
