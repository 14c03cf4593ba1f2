/** Semantic drift: the decaying centroid of a session's turns and the nudges that a sudden drift triggers. */
module Awareness {
  import opened Wrappers
  import opened Vectors

  /** The decay of the centroid, the spread of the threshold, and the limits on nudges. */
  const DECAY: real := 0.85
  const JITTER: real := 0.03
  const MAX_NUDGES := 4
  const COOLDOWN := 8

  // ----- The centroid as a function of the turns seen so far; [] stands for "not yet established" -----

  predicate Accepts(centroid: Vector, turn: Vector) {
    turn != [] && (centroid == [] || |centroid| == |turn|)
  }

  function Blend(c: real, x: real): real {
    DECAY * c + (1.0 - DECAY) * x
  }

  function Absorb(centroid: Vector, turn: Vector): Vector {
    if !Accepts(centroid, turn) then centroid
    else if centroid == [] then turn
    else seq(|centroid|, k requires 0 <= k < |centroid| => Blend(centroid[k], turn[k]))
  }

  /** The centroid after a whole sequence of turns. */
  function Replay(turns: seq<Vector>): Vector {
    if turns == [] then []
    else Absorb(Replay(turns[..|turns| - 1]), turns[|turns| - 1])
  }

  /** The turns that took part: non-empty ones, of the dimension of the first. */
  function Accepted(turns: seq<Vector>): (kept: seq<Vector>)
    ensures forall j :: 0 <= j < |kept| ==> kept[j] in turns && kept[j] != [] && |kept[j]| == |kept[0]|
  {
    if turns == [] then []
    else
      var n := |turns| - 1;
      var kept := Accepted(turns[..n]);
      if turns[n] == [] || (kept != [] && |kept[0]| != |turns[n]|) then kept else kept + [turns[n]]
  }

  function Power(x: real, n: nat): real {
    if n == 0 then 1.0 else x * Power(x, n - 1)
  }

  /** How much turn `j` of `n` accepted turns counts: it fades by the decay with every later turn. */
  function Weight(j: nat, n: nat): real
    requires j < n
  {
    (if j == 0 then 1.0 else 1.0 - DECAY) * Power(DECAY, n - 1 - j)
  }

  /** The weights of the first `m` of `n` turns. */
  function TotalWeight(n: nat, m: nat): real
    requires m <= n
  {
    if m == 0 then 0.0 else TotalWeight(n, m - 1) + Weight(m - 1, n)
  }

  /** Component `k` of the weighted sum of the first `m` turns, weighted as the first of `n`. */
  function WeightedSum(turns: seq<Vector>, k: nat, n: nat, m: nat): real
    requires m <= n && m <= |turns| && forall j :: 0 <= j < |turns| ==> k < |turns[j]|
  {
    if m == 0 then 0.0 else WeightedSum(turns, k, n, m - 1) + Weight(m - 1, n) * turns[m - 1][k]
  }

  /** One more turn multiplies the earlier weights by the decay. */
  lemma WeightFades(j: nat, n: nat)
    requires j < n
    ensures Weight(j, n + 1) == DECAY * Weight(j, n)
  {
    var base := if j == 0 then 1.0 else 1.0 - DECAY;
    assert Power(DECAY, n - j) == DECAY * Power(DECAY, n - 1 - j);
    assert base * (DECAY * Power(DECAY, n - 1 - j)) == DECAY * (base * Power(DECAY, n - 1 - j));
  }

  lemma {:induction false} TotalFades(n: nat, m: nat)
    requires m <= n
    ensures TotalWeight(n + 1, m) == DECAY * TotalWeight(n, m)
  {
    if m > 0 {
      TotalFades(n, m - 1);
      WeightFades(m - 1, n);
    }
  }

  lemma {:induction false} SumFades(turns: seq<Vector>, k: nat, n: nat, m: nat)
    requires m <= n && m <= |turns| && forall j :: 0 <= j < |turns| ==> k < |turns[j]|
    ensures WeightedSum(turns, k, n + 1, m) == DECAY * WeightedSum(turns, k, n, m)
  {
    if m > 0 {
      SumFades(turns, k, n, m - 1);
      WeightFades(m - 1, n);
      assert DECAY * Weight(m - 1, n) * turns[m - 1][k] == DECAY * (Weight(m - 1, n) * turns[m - 1][k]);
    }
  }

  lemma {:induction false} SumOfPrefix(turns: seq<Vector>, last: Vector, k: nat, n: nat, m: nat)
    requires m <= n && m <= |turns| && k < |last| && forall j :: 0 <= j < |turns| ==> k < |turns[j]|
    ensures WeightedSum(turns + [last], k, n, m) == WeightedSum(turns, k, n, m)
  {
    if m > 0 {
      SumOfPrefix(turns, last, k, n, m - 1);
    }
  }

  lemma {:induction false} PowerIsPositive(n: nat)
    ensures Power(DECAY, n) > 0.0
  {
    if n > 0 {
      PowerIsPositive(n - 1);
    }
  }

  /** The weights form a distribution: all positive, adding up to one. */
  lemma {:induction false} WeightsAreADistribution(n: nat)
    requires n > 0
    ensures forall j :: 0 <= j < n ==> Weight(j, n) > 0.0
    ensures TotalWeight(n, n) == 1.0
  {
    forall j | 0 <= j < n ensures Weight(j, n) > 0.0 {
      PowerIsPositive(n - 1 - j);
    }
    if n > 1 {
      WeightsAreADistribution(n - 1);
      TotalFades(n - 1, n - 1);
      assert Power(DECAY, 0) == 1.0;
      assert Weight(n - 1, n) == 1.0 - DECAY;
    } else {
      assert TotalWeight(1, 1) == TotalWeight(1, 0) + Weight(0, 1);
      assert Power(DECAY, 0) == 1.0;
    }
  }

  /** The centroid has the dimension of the turns it accepted, and exists as soon as there is one. */
  lemma {:induction false} ReplayDimension(turns: seq<Vector>)
    ensures Replay(turns) == [] <==> Accepted(turns) == []
    ensures forall j :: 0 <= j < |Accepted(turns)| ==> |Accepted(turns)[j]| == |Replay(turns)|
  {
    if turns != [] {
      ReplayDimension(turns[..|turns| - 1]);
    }
  }

  lemma ReplayExtends(seen: seq<Vector>, turn: Vector)
    ensures Replay(seen + [turn]) == Absorb(Replay(seen), turn)
    ensures |Accepted(seen + [turn])| == |Accepted(seen)| + (if Accepts(Replay(seen), turn) then 1 else 0)
    ensures Replay(seen) == [] <==> Accepted(seen) == []
  {
    assert (seen + [turn])[..|seen|] == seen;
    ReplayDimension(seen);
  }

  /** The running update computes exactly the weighted mean of the accepted turns. */
  lemma {:induction false} CentroidIsWeightedMean(turns: seq<Vector>, k: nat)
    requires k < |Replay(turns)|
    ensures var kept := Accepted(turns);
            && (forall j :: 0 <= j < |kept| ==> k < |kept[j]|)
            && Replay(turns)[k] == WeightedSum(kept, k, |kept|, |kept|)
  {
    ReplayDimension(turns);
    var n := |turns| - 1;
    var before, last := turns[..n], turns[n];
    var kept := Accepted(before);
    ReplayDimension(before);
    if !Accepts(Replay(before), last) {
      CentroidIsWeightedMean(before, k);
    } else if kept == [] {
      assert Accepted(turns) == [last];
      assert WeightedSum([last], k, 1, 1) == WeightedSum([last], k, 1, 0) + Weight(0, 1) * last[k];
      assert Power(DECAY, 0) == 1.0;
    } else {
      CentroidIsWeightedMean(before, k);
      MeanAbsorbs(kept, last, k);
      assert Accepted(turns) == kept + [last];
    }
  }

  lemma MeanAbsorbs(kept: seq<Vector>, last: Vector, k: nat)
    requires kept != [] && k < |last| && forall j :: 0 <= j < |kept| ==> k < |kept[j]|
    ensures var m := |kept|;
            WeightedSum(kept + [last], k, m + 1, m + 1) == Blend(WeightedSum(kept, k, m, m), last[k])
  {
    var m := |kept|;
    SumOfPrefix(kept, last, k, m + 1, m);
    SumFades(kept, k, m, m);
    assert Power(DECAY, 0) == 1.0;
    assert Weight(m, m + 1) == 1.0 - DECAY;
  }

  ghost predicate ComponentsWithin(turns: seq<Vector>, k: nat, lo: real, hi: real) {
    forall j :: 0 <= j < |turns| ==> k < |turns[j]| && lo <= turns[j][k] <= hi
  }

  lemma {:induction false} SumIsBetween(turns: seq<Vector>, k: nat, n: nat, m: nat, lo: real, hi: real)
    requires 0 < n && m <= n && m <= |turns| && ComponentsWithin(turns, k, lo, hi)
    ensures TotalWeight(n, m) * lo <= WeightedSum(turns, k, n, m) <= TotalWeight(n, m) * hi
  {
    hide Weight, Power;
    if m > 0 {
      SumIsBetween(turns, k, n, m - 1, lo, hi);
      WeightsAreADistribution(n);
      BetweenAfterOneMore(
        TotalWeight(n, m - 1), Weight(m - 1, n), WeightedSum(turns, k, n, m - 1), turns[m - 1][k], lo, hi);
    }
  }

  lemma BetweenAfterOneMore(total: real, w: real, sum: real, x: real, lo: real, hi: real)
    requires w > 0.0 && lo <= x <= hi && total * lo <= sum <= total * hi
    ensures (total + w) * lo <= sum + w * x <= (total + w) * hi
  {
    assert w * (x - lo) >= 0.0 && w * (hi - x) >= 0.0;
  }

  /** Whatever the session, a component of the centroid never leaves the range of the accepted turns. */
  lemma CentroidStaysInRange(turns: seq<Vector>, k: nat, lo: real, hi: real)
    requires k < |Replay(turns)| && ComponentsWithin(Accepted(turns), k, lo, hi)
    ensures lo <= Replay(turns)[k] <= hi
  {
    var n := |Accepted(turns)|;
    ReplayDimension(turns);
    CentroidIsWeightedMean(turns, k);
    WeightsAreADistribution(n);
    SumIsBetween(Accepted(turns), k, n, n, lo, hi);
  }

  // ----- Nudges -----

  datatype Nudge = Nudge(turn: int, velocity: real)

  /** Consecutive nudges are a cooldown apart, and the first is on a turn that is not negative. */
  ghost predicate Spaced(turns: seq<int>) {
    && (turns != [] ==> turns[0] >= 0)
    && forall i :: 0 < i < |turns| ==> turns[i] - turns[i - 1] >= COOLDOWN
  }

  lemma {:induction false} SpacedOverall(turns: seq<int>, i: nat, j: nat)
    requires Spaced(turns) && i <= j < |turns|
    ensures turns[j] - turns[i] >= 8 * (j - i)
  {
    if i < j {
      SpacedOverall(turns, i, j - 1);
    }
  }

  class PeripheralAwareness {
    var centroid: array?<real>
    var centroidN: nat
    var nudgeCount: nat
    var lastNudgeTurn: int
    const velocityThreshold: real

    /** Every turn offered to the centroid, and the turn of every nudge, in order. */
    ghost var offered: seq<Vector>
    ghost var nudged: seq<int>

    ghost function Centroid(): Vector
      reads this, centroid
    {
      if centroid == null then [] else centroid[..]
    }

    /** The centroid is that of the turns offered; nudges are few and far between. */
    ghost predicate Valid()
      reads this, centroid
    {
      && (centroid != null ==> centroid.Length > 0)
      && Centroid() == Replay(offered)
      && centroidN == |Accepted(offered)|
      && nudgeCount == |nudged| <= MAX_NUDGES
      && lastNudgeTurn == (if nudged == [] then -COOLDOWN else nudged[|nudged| - 1])
      && Spaced(nudged)
    }

    constructor (threshold: real)
      ensures Valid() && offered == [] && nudged == [] && velocityThreshold == threshold
    {
      centroid, centroidN := null, 0;
      nudgeCount, lastNudgeTurn := 0, -COOLDOWN;
      velocityThreshold := threshold;
      offered, nudged := [], [];
    }

    method UpdateCentroid(turnEmbedding: Vector)
      requires Valid()
      modifies this`centroid, this`centroidN, this`offered, centroid
      ensures Valid() && offered == old(offered) + [turnEmbedding]
      ensures Centroid() == Absorb(old(Centroid()), turnEmbedding)
      ensures turnEmbedding == [] || (old(Centroid()) != [] && |turnEmbedding| != |old(Centroid())|) ==>
                Centroid() == old(Centroid()) && centroidN == old(centroidN)
      ensures turnEmbedding != [] && old(Centroid()) == [] ==> Centroid() == turnEmbedding && centroidN == 1
      ensures turnEmbedding != [] && |turnEmbedding| == |old(Centroid())| ==>
                && centroidN == old(centroidN) + 1 && |Centroid()| == |turnEmbedding|
                && forall k :: 0 <= k < |turnEmbedding| ==>
                     Centroid()[k] == 0.85 * old(Centroid())[k] + 0.15 * turnEmbedding[k]
    {
      hide Replay, Accepted, Spaced;
      ghost var before := Centroid();
      ReplayExtends(offered, turnEmbedding);
      offered := offered + [turnEmbedding];
      if |turnEmbedding| == 0 {
        return;
      }
      if centroid == null {
        centroid := new real[|turnEmbedding|](i requires 0 <= i < |turnEmbedding| => turnEmbedding[i]);
        centroidN := 1;
        assert centroid[..] == turnEmbedding;
        return;
      }
      if centroid.Length != |turnEmbedding| {
        return;
      }
      for i := 0 to centroid.Length
        modifies centroid
        invariant forall k :: 0 <= k < i ==> centroid[k] == Blend(before[k], turnEmbedding[k])
        invariant forall k :: i <= k < centroid.Length ==> centroid[k] == before[k]
      {
        centroid[i] := DECAY * centroid[i] + (1.0 - DECAY) * turnEmbedding[i];
      }
      centroidN := centroidN + 1;
      assert centroid[..] == Absorb(before, turnEmbedding);
    }

    method SemanticVelocity(turnEmbedding: Vector, sqrt: real -> real) returns (v: real)
      requires Valid() && IsSqrt(sqrt)
      ensures v == Distance(Centroid(), turnEmbedding, sqrt) && 0.0 <= v <= 2.0
      ensures |Centroid()| != |turnEmbedding| || Centroid() == [] ==> v == 0.0
    {
      DistanceIsBounded(Centroid(), turnEmbedding, sqrt);
      if centroid == null || centroid.Length != |turnEmbedding| {
        return 0.0;
      }
      v := CosineDistance(centroid[..], turnEmbedding, sqrt);
    }

    /** `draw` is the random number of this call, in [0, 1). */
    method CheckNudge(turn: int, turnEmbedding: Vector, draw: real, sqrt: real -> real)
      returns (nudge: Option<Nudge>)
      requires Valid() && IsSqrt(sqrt)
      modifies this`nudgeCount, this`lastNudgeTurn, this`nudged
      ensures Valid()
      ensures var velocity := Distance(Centroid(), turnEmbedding, sqrt);
              nudge == if && |old(nudged)| < 4
                          && (if old(nudged) == [] then turn >= 0
                              else turn >= old(nudged)[|old(nudged)| - 1] + 8)
                          && velocity > velocityThreshold + (2.0 * draw - 1.0) * 0.03
                       then Some(Nudge(turn, velocity)) else None
      ensures nudged == if nudge.Some? then old(nudged) + [turn] else old(nudged)
    {
      if nudgeCount >= MAX_NUDGES {
        return None;
      }
      if turn - lastNudgeTurn < COOLDOWN {
        return None;
      }
      var velocity := SemanticVelocity(turnEmbedding, sqrt);
      var jitterDelta := (draw * 2.0 - 1.0) * JITTER;
      var effectiveThreshold := velocityThreshold + jitterDelta;
      if velocity <= effectiveThreshold {
        return None;
      }
      nudge := Some(Nudge(turn, velocity));
      nudgeCount := nudgeCount + 1;
      lastNudgeTurn := turn;
      nudged := nudged + [turn];
    }
  }
}
