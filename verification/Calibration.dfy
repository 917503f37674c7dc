/** Finding the largest batch size that works: doubling until a size fails, then
    bisecting between the last size that passed and the one that failed. */
module Calibration {
  datatype Probe = Probe(size: nat, ok: bool)

  function Pow2(k: nat): (p: nat)
    ensures p >= 1
  {
    if k == 0 then 1 else 2 * Pow2(k - 1)
  }

  /** The sizes passed before the first failure: 1, 2, 4, up to 2^k excluded. */
  function Doubled(k: nat): seq<Probe> { if k == 0 then [] else Doubled(k - 1) + [Probe(Pow2(k - 1), true)] }

  function BestSize(best: seq<Probe>): nat { if best == [] then 0 else best[0].size }

  /** No size is probed twice. */
  predicate Fresh(probes: seq<Probe>) {
    forall i, j :: 0 <= i < j < |probes| ==> probes[i].size != probes[j].size
  }

  predicate Honest(ok: nat -> bool, max: nat, probes: seq<Probe>) {
    forall i :: 0 <= i < |probes| ==> 1 <= probes[i].size <= max && probes[i].ok == ok(probes[i].size)
  }

  /** All powers of two below 2^k pass, and 2^k is the first not to, or too large. */
  predicate FirstStop(ok: nat -> bool, max: nat, k: nat) {
    (forall i :: 0 <= i < k ==> ok(Pow2(i)) && Pow2(i) <= max) && (Pow2(k) > max || !ok(Pow2(k)))
  }

  lemma {:induction false} DoubledGrows(k: nat)
    ensures Doubled(0) == []
    ensures Doubled(k + 1) == Doubled(k) + [Probe(Pow2(k), true)]
  {
  }

  lemma {:induction false} DoubledAre(k: nat)
    ensures |Doubled(k)| == k
    ensures forall i :: 0 <= i < k ==> Doubled(k)[i] == Probe(Pow2(i), true)
  {
    if k > 0 {
      DoubledAre(k - 1);
    }
  }

  lemma {:induction false} PowersGrow(i: nat, j: nat)
    ensures i < j ==> 2 * Pow2(i) <= Pow2(j)
    decreases j
  {
    if i + 1 < j {
      PowersGrow(i, j - 1);
    }
  }

  /** calibrate_shape; the best probe, if any, is the only element of best. */
  method CalibrateShape(max: nat, ok: nat -> bool) returns (best: seq<Probe>, probes: seq<Probe>, ghost k: nat)
    ensures Honest(ok, max, probes) && Fresh(probes)
    ensures FirstStop(ok, max, k)
    // the winner was probed and passed
    ensures best == [] || (|best| == 1 && best[0].ok && best[0] in probes)
    // without a failure: the powers of two in order, the best is the largest of them
    ensures Pow2(k) > max ==> probes == Doubled(k) && (best == if k == 0 then [] else [Probe(Pow2(k - 1), true)])
    // with a failure: the size after the best was probed and failed, and the number of probes is exact
    ensures Pow2(k) <= max ==> Probe(BestSize(best) + 1, false) in probes
    ensures Pow2(k) <= max ==> |probes| == if k == 0 then 1 else 2 * k
    ensures forall log: nat :: Pow2(log) <= max < Pow2(log + 1) ==> |probes| <= if log == 0 then 1 else 2 * log
  {
    hide Honest, Fresh, Bisecting, Doubled;
    best, probes := [], [];
    DoubledGrows(0);
    var size := 1;
    k := 0;
    var failed := 0;
    while size <= max
      invariant size == Pow2(k) && probes == Doubled(k) && best == if k == 0 then [] else [Probe(Pow2(k - 1), true)]
      invariant forall i :: 0 <= i < k ==> ok(Pow2(i)) && Pow2(i) <= max
      decreases max - size
    {
      if ok(size) {
        DoubledGrows(k);
        best := [Probe(size, true)];
        probes := probes + best;
        size := size * 2;
        k := k + 1;
        continue;
      }
      probes := probes + [Probe(size, false)];
      failed := size;
      break;
    }
    DoubledHonest(ok, max, k);
    forall log: nat | Pow2(log) <= max < Pow2(log + 1) ensures k <= log + 1 && (Pow2(k) <= max ==> k <= log) {
      ProbeBound(ok, max, k, log);
    }
    if failed == 0 {
      return;
    }
    FirstFailure(ok, max, k);
    var low: nat, high: nat := BestSize(best), failed;
    ghost var left: nat := if k == 0 then 0 else k - 1;
    while high - low > 1
      invariant Bisecting(ok, max, k, best, probes, low, high, left)
      decreases left
    {
      var mid := (low + high) / 2;
      BisectStep(ok, max, k, best, probes, low, high, left);
      probes := probes + [Probe(mid, ok(mid))];
      if ok(mid) {
        best := [Probe(mid, true)];
        low := mid;
      } else {
        high := mid;
      }
      left := left - 1;
    }
    BisectDone(ok, max, k, best, probes, low, high, left);
  }

  /** Between low, which passed (or is 0), and high, which failed, nothing was probed;
      the gap is a power of two, whose exponent is the number of probes to come. */
  predicate Bisecting(ok: nat -> bool, max: nat, k: nat, best: seq<Probe>, probes: seq<Probe>, low: nat, high: nat, left: nat) {
    Honest(ok, max, probes) && Fresh(probes) &&
    BestSize(best) == low && (best == [] || (|best| == 1 && best[0].ok && best[0] in probes)) &&
    Probe(high, false) in probes && high == low + Pow2(left) &&
    NoneWithin(probes, low, high) &&
    |probes| + left == if k == 0 then 1 else 2 * k
  }

  lemma {:induction false} DoubledHonest(ok: nat -> bool, max: nat, k: nat)
    requires forall i :: 0 <= i < k ==> ok(Pow2(i)) && Pow2(i) <= max
    ensures Honest(ok, max, Doubled(k)) && Fresh(Doubled(k))
    ensures k > 0 ==> Probe(Pow2(k - 1), true) in Doubled(k)
    ensures |Doubled(k)| == k
  {
    DoubledAre(k);
    forall i, j | 0 <= i < j < k ensures Pow2(i) != Pow2(j) { PowersGrow(i, j); }
    if k > 0 {
      assert Doubled(k)[k - 1] == Probe(Pow2(k - 1), true);
    }
  }

  lemma {:induction false} FirstFailure(ok: nat -> bool, max: nat, k: nat)
    requires forall i :: 0 <= i < k ==> ok(Pow2(i)) && Pow2(i) <= max
    requires Pow2(k) <= max && !ok(Pow2(k))
    ensures
      var best: seq<Probe> := if k == 0 then [] else [Probe(Pow2(k - 1), true)];
      Bisecting(ok, max, k, best, Doubled(k) + [Probe(Pow2(k), false)], BestSize(best), Pow2(k), if k == 0 then 0 else k - 1)
  {
    DoubledAre(k);
    DoubledHonest(ok, max, k);
    forall i | 0 <= i < k ensures Pow2(i) < Pow2(k) && (i < k - 1 ==> Pow2(i) < Pow2(k - 1)) {
      PowersGrow(i, k);
      if i < k - 1 {
        PowersGrow(i, k - 1);
      }
    }
    var probes := Doubled(k) + [Probe(Pow2(k), false)];
    assert probes[k] == Probe(Pow2(k), false);
  }

  predicate NoneWithin(probes: seq<Probe>, low: nat, high: nat) {
    forall i :: 0 <= i < |probes| ==> !(low < probes[i].size < high)
  }

  lemma {:induction false} NextProbe(ok: nat -> bool, max: nat, probes: seq<Probe>, low: nat, mid: nat, high: nat)
    requires Honest(ok, max, probes) && Fresh(probes) && NoneWithin(probes, low, high) && low < mid < high
    requires Probe(high, false) in probes
    ensures
      var next := probes + [Probe(mid, ok(mid))];
      Honest(ok, max, next) && Fresh(next) && NoneWithin(next, low, mid) && NoneWithin(next, mid, high) &&
      Probe(mid, ok(mid)) in next && forall p :: p in probes ==> p in next
  {
    var h :| 0 <= h < |probes| && probes[h] == Probe(high, false);
    var next := probes + [Probe(mid, ok(mid))];
    assert next[|probes|] == Probe(mid, ok(mid));
  }

  lemma {:induction false} Halves(low: nat, high: nat, left: nat)
    requires high == low + Pow2(left) && high - low > 1
    ensures left > 0
    ensures var mid := (low + high) / 2; mid == low + Pow2(left - 1) && high == mid + Pow2(left - 1) && low < mid < high
  {
  }

  lemma {:induction false} BisectStep(ok: nat -> bool, max: nat, k: nat, best: seq<Probe>, probes: seq<Probe>, low: nat, high: nat, left: nat)
    requires Bisecting(ok, max, k, best, probes, low, high, left) && high - low > 1
    ensures left > 0
    ensures
      var mid := (low + high) / 2;
      var next := probes + [Probe(mid, ok(mid))];
      if ok(mid) then Bisecting(ok, max, k, [Probe(mid, true)], next, mid, high, left - 1)
      else Bisecting(ok, max, k, best, next, low, mid, left - 1)
  {
    hide Honest, Fresh, NoneWithin;
    Halves(low, high, left);
    NextProbe(ok, max, probes, low, (low + high) / 2, high);
  }

  lemma {:induction false} BisectDone(ok: nat -> bool, max: nat, k: nat, best: seq<Probe>, probes: seq<Probe>, low: nat, high: nat, left: nat)
    requires Bisecting(ok, max, k, best, probes, low, high, left) && high - low <= 1
    ensures left == 0 && Probe(BestSize(best) + 1, false) in probes
    ensures Honest(ok, max, probes) && Fresh(probes)
    ensures best == [] || (|best| == 1 && best[0].ok && best[0] in probes)
    ensures |probes| == if k == 0 then 1 else 2 * k
  {
    PowersGrow(0, left);
  }

  // ---- what the search finds ----

  predicate Monotone(ok: nat -> bool, max: nat) { forall a, b :: 1 <= a <= b <= max && ok(b) ==> ok(a) }

  predicate LargestPassing(ok: nat -> bool, max: nat, b: nat) {
    b <= max && (b > 0 ==> ok(b)) && forall n :: b < n <= max ==> !ok(n)
  }

  /** Some power of two up to 2^log fails. */
  predicate PowerFails(ok: nat -> bool, log: nat) { exists i :: 0 <= i <= log && !ok(Pow2(i)) }

  /** Every positive maximum has its last power of two. */
  lemma {:induction false} LastPower(max: nat) returns (log: nat)
    requires max >= 1
    ensures Pow2(log) <= max < Pow2(log + 1)
  {
    if max == 1 {
      log := 0;
    } else {
      log := LastPower(max / 2);
      log := log + 1;
    }
  }

  /** Where smaller sizes pass whenever larger ones do, the search returns the largest
      size that passes exactly when a power of two within the maximum fails, or the
      largest such power is the maximum, or the size after it fails: the sizes between
      that power and the maximum are never probed. */
  method CalibrateMonotone(max: nat, ok: nat -> bool) returns (b: nat)
    requires Monotone(ok, max)
    ensures max == 0 ==> b == 0 && LargestPassing(ok, max, b)
    ensures forall log: nat :: Pow2(log) <= max < Pow2(log + 1) ==>
      (LargestPassing(ok, max, b) <==> PowerFails(ok, log) || max == Pow2(log) || !ok(Pow2(log) + 1))
  {
    var best, probes, k := CalibrateShape(max, ok);
    b := BestSize(best);
    forall log: nat | Pow2(log) <= max < Pow2(log + 1)
      ensures LargestPassing(ok, max, b) <==> PowerFails(ok, log) || max == Pow2(log) || !ok(Pow2(log) + 1)
    {
      ProbeBound(ok, max, k, log);
      if Pow2(k) <= max {
        FailureSettles(ok, max, k, b, best, probes);
        assert !ok(Pow2(k));
      } else {
        AllPass(ok, max, k, log, b);
      }
    }
    if max == 0 {
      assert Pow2(k) > max;
      StopsBy(ok, max, k, 0);
    }
  }

  lemma {:induction false} FailureSettles(ok: nat -> bool, max: nat, k: nat, b: nat, best: seq<Probe>, probes: seq<Probe>)
    requires Monotone(ok, max) && Honest(ok, max, probes) && b == BestSize(best)
    requires best == [] || (|best| == 1 && best[0].ok && best[0] in probes)
    requires Probe(b + 1, false) in probes
    ensures LargestPassing(ok, max, b)
  {
    var i :| 0 <= i < |probes| && probes[i] == Probe(b + 1, false);
    NothingAbove(ok, max, b);
  }

  lemma {:induction false} AllPass(ok: nat -> bool, max: nat, k: nat, log: nat, b: nat)
    requires Monotone(ok, max) && FirstStop(ok, max, k) && Pow2(k) > max && k == log + 1
    requires Pow2(log) <= max && b == Pow2(k - 1)
    ensures !PowerFails(ok, log)
    ensures LargestPassing(ok, max, b) <==> max == Pow2(log) || !ok(Pow2(log) + 1)
  {
    if b < max && !ok(b + 1) {
      NothingAbove(ok, max, b);
    }
  }

  /** Where everything up to three passes, the search stops at two. */
  method MissesThree() returns (b: nat)
    ensures b == 2 && !LargestPassing((n: nat) => true, 3, b)
  {
    var ok := (n: nat) => true;
    var best, probes, k := CalibrateShape(3, ok);
    assert Pow2(2) == 4 && Pow2(1) == 2;
    StopsBy(ok, 3, k, 2);
    assert k == 2;
    b := BestSize(best);
    assert ok(3);
  }

  lemma {:induction false} NothingAbove(ok: nat -> bool, max: nat, b: nat)
    requires Monotone(ok, max) && b < max && !ok(b + 1)
    ensures forall n :: b < n <= max ==> !ok(n)
  {
  }

  /** The number of probes against the number of doublings that fit the maximum. */
  lemma {:induction false} ProbeBound(ok: nat -> bool, max: nat, k: nat, log: nat)
    requires FirstStop(ok, max, k) && Pow2(log) <= max < Pow2(log + 1)
    ensures Pow2(k) > max ==> k == log + 1
    ensures Pow2(k) <= max ==> k <= log
  {
    StopsBy(ok, max, k, log + 1);
    PowersGrow(log, k);
    PowersGrow(k, log);
  }

  lemma {:induction false} StopsBy(ok: nat -> bool, max: nat, k: nat, j: nat)
    requires FirstStop(ok, max, k) && Pow2(j) > max
    ensures k <= j
  {
  }
}
