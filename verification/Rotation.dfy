/**
 The weighted round-robin as a value: a cursor into the backend list, the number of
 picks the backend under the cursor has already served, and one pick.

 The rotation only ever looks at a list of *weights*: the contention ratio of a backend
 that is eligible for this pick, 0 for one that is not.
 */
module Rotation {
  import opened Options

  /** What selection reads of one backend. */
  datatype Wan = Wan(name: string, up: bool, metric: int, ratio: nat)

  /** `lb_index` and the `current_connections` of the backend it points at. */
  datatype Rotor = Rotor(idx: nat, credit: nat)

  // ---- eligibility ---------------------------------------------------------

  predicate AllDown(ws: seq<Wan>) {
    forall j :: 0 <= j < |ws| ==> !ws[j].up
  }

  /** UP, and no UP backend has a lower metric. */
  predicate InActiveTier(ws: seq<Wan>, i: nat)
    requires i < |ws|
  {
    ws[i].up && forall j :: 0 <= j < |ws| && ws[j].up ==> ws[i].metric <= ws[j].metric
  }

  predicate Eligible(ws: seq<Wan>, tried: set<nat>, i: nat)
    requires i < |ws|
  {
    i !in tried && (AllDown(ws) || InActiveTier(ws, i))
  }

  function Weights(ws: seq<Wan>, tried: set<nat>): (w: seq<nat>)
    ensures |w| == |ws|
    ensures forall i :: 0 <= i < |w| ==> w[i] == if Eligible(ws, tried, i) then ws[i].ratio else 0
  {
    seq(|ws|, i requires 0 <= i < |ws| => if Eligible(ws, tried, i) then ws[i].ratio else 0)
  }

  // ---- one pick ------------------------------------------------------------

  /** The least position at or after `lo` with a positive weight, or |w|. */
  function First(w: seq<nat>, lo: nat): (j: nat)
    requires lo <= |w|
    ensures lo <= j <= |w|
    ensures forall k :: lo <= k < j ==> w[k] == 0
    ensures j < |w| ==> w[j] > 0
    decreases |w| - lo
  {
    if lo == |w| || w[lo] > 0 then lo else First(w, lo + 1)
  }

  /** The position after `j`, going back to the start of a list of n at its end. */
  function Succ(j: nat, n: nat): (s: nat)
    requires j < n
    ensures s < n
  {
    if j + 1 == n then 0 else j + 1
  }

  /** The rotation stands at a backend that has not used up its ratio. */
  predicate Standing(ws: seq<Wan>, r: Rotor) {
    if ws == [] then r == Rotor(0, 0) else r.idx < |ws| && r.credit < ws[r.idx].ratio
  }

  predicate Ok(w: seq<nat>, r: Rotor) {
    r.idx < |w| && (w[r.idx] > 0 ==> r.credit < w[r.idx])
  }

  /** The backend under the cursor serves one connection; it is left once its ratio is used up. */
  function Charge(r: Rotor, ratio: nat, n: nat): (r': Rotor)
    requires r.idx < n
    ensures r'.idx < n
  {
    if r.credit + 1 >= ratio then Rotor(Succ(r.idx, n), 0) else Rotor(r.idx, r.credit + 1)
  }

  datatype Turn = Turn(pick: Option<nat>, rotor: Rotor)

  /**
   One call of the round-robin. The first backend with a positive weight at or after the
   cursor serves; credit is kept only while the cursor stays. With nobody eligible the
   cursor's credit is lost.
   */
  function Spin(w: seq<nat>, r: Rotor): (t: Turn)
    requires r.idx < |w| || w == []
    ensures Ok(w, r) ==> Ok(w, t.rotor)
  {
    if First(w, 0) == |w| then
      Turn(None, Rotor(r.idx, 0))
    else
      var j := if First(w, r.idx) < |w| then First(w, r.idx) else First(w, 0);
      Turn(Some(j), Charge(if j == r.idx then r else Rotor(j, 0), w[j], |w|))
  }

  lemma {:induction false} FirstIs(w: seq<nat>, lo: nat, j: nat)
    requires lo <= j <= |w|
    requires forall k :: lo <= k < j ==> w[k] == 0
    requires j < |w| ==> w[j] > 0
    ensures First(w, lo) == j
    decreases j - lo
  {
    if lo < j {
      FirstIs(w, lo + 1, j);
    }
  }

  /** A pick keeps the cursor inside the list and its credit below the ratio there. */
  lemma {:induction false} SpinStanding(ws: seq<Wan>, tried: set<nat>, r: Rotor)
    requires Standing(ws, r)
    requires forall i :: 0 <= i < |ws| ==> ws[i].ratio >= 1
    ensures Standing(ws, Spin(Weights(ws, tried), r).rotor)
  {
  }

  /** A backend is picked iff one is eligible, and the one picked is eligible. */
  lemma {:induction false} SpinEligible(ws: seq<Wan>, tried: set<nat>, r: Rotor)
    requires Standing(ws, r)
    requires forall i :: 0 <= i < |ws| ==> ws[i].ratio >= 1
    ensures var t := Spin(Weights(ws, tried), r);
      match t.pick
      case Some(i) => i < |ws| && Eligible(ws, tried, i)
      case None => forall i :: 0 <= i < |ws| ==> !Eligible(ws, tried, i)
  {
    var w := Weights(ws, tried);
    forall i | 0 <= i < |ws| && First(w, 0) == |w|
      ensures !Eligible(ws, tried, i)
    {
      assert w[i] == 0;
    }
  }

  lemma EligibleHere(ws: seq<Wan>, tried: set<nat>, i: nat)
    requires i < |ws|
    ensures Eligible(ws, tried, i) <==> i !in tried && (AllDown(ws) || InActiveTier(ws, i))
  {
  }
}
