/** Position-dependent light selection (TraceBase::chooseLight): weights
    every light by its approximate radiance at the shading point, replaces
    unknown (negative) estimates, and picks a light by a cumulative scan
    over a uniform draw, returning the reciprocal selection probability. */
module LightSelection {

  /** Sum of a sequence, accumulated from the left as the loops do. */
  function Sum(s: seq<real>): real
    decreases |s|
  {
    if |s| == 0 then 0.0 else Sum(s[..|s| - 1]) + s[|s| - 1]
  }

  /** Sum of the known (non-negative) estimates. */
  function KnownSum(s: seq<real>): real
    decreases |s|
  {
    if |s| == 0 then 0.0
    else KnownSum(s[..|s| - 1]) + (if s[|s| - 1] >= 0.0 then s[|s| - 1] else 0.0)
  }

  /** Number of known (non-negative) estimates. */
  function KnownCount(s: seq<real>): nat
    decreases |s|
  {
    if |s| == 0 then 0
    else KnownCount(s[..|s| - 1]) + (if s[|s| - 1] >= 0.0 then 1 else 0)
  }

  /** The replacement pass over a mix of known and unknown estimates: from
      left to right, each unknown estimate becomes the running total (or 1
      when it is zero) divided by the number of known estimates, and the
      running total grows by that weight. */
  function FillUnknown(s: seq<real>, total: real, numKnown: nat): (f: seq<real>)
    requires numKnown > 0
    ensures |f| == |s|
    decreases |s|
  {
    if |s| == 0 then []
    else if s[0] < 0.0 then
      var uniformWeight := UniformWeight(total, numKnown);
      [uniformWeight] + FillUnknown(s[1..], total + uniformWeight, numKnown)
    else [s[0]] + FillUnknown(s[1..], total, numKnown)
  }

  /** The weight given to an unknown estimate: the running total, or 1
      when it is zero, over the number of known estimates. */
  function UniformWeight(total: real, numKnown: nat): (w: real)
    requires numKnown > 0
    ensures total >= 0.0 ==> w > 0.0
  {
    (if total == 0.0 then 1.0 else total) / (numKnown as real)
  }

  function Ones(n: nat): seq<real> { seq(n, _ => 1.0) }

  /** The selection weights `_lightPdf` holds after the filling phase,
      given each light's `approximateRadiance` at the shading point. */
  function Weights(approx: seq<real>): (w: seq<real>)
    ensures |w| == |approx|
  {
    var numKnown := KnownCount(approx);
    if numKnown == 0 then Ones(|approx|)
    else if numKnown < |approx| then FillUnknown(approx, KnownSum(approx), numKnown)
    else approx
  }

  /** The cumulative scan from index i with remaining draw t; the last
      index is taken whatever remains. */
  function Scan(w: seq<real>, i: nat, t: real): (k: nat)
    requires i < |w|
    ensures i <= k < |w|
    decreases |w| - i
  {
    if t < w[i] || i == |w| - 1 then i else Scan(w, i + 1, t - w[i])
  }

  /** The light `chooseLight` returns, with its weight, or null. */
  datatype Choice = NoLight | Chosen(index: nat, weight: real)

  /** The index the cumulative scan picks for a draw `t` below the total
      of non-negative weights; that weight is positive. */
  function Pick(w: seq<real>, t: real): (i: nat)
    requires |w| > 0 && forall k :: 0 <= k < |w| ==> w[k] >= 0.0
    requires 0.0 <= t < Sum(w)
    ensures i < |w| && w[i] > 0.0
  {
    ScanPicksPositive(w, t);
    Scan(w, 0, t)
  }

  /** The selection among several lights with non-negative weights `w`:
      none when the total is zero, otherwise the light the scan picks for
      the scaled draw `u * total`, weighted by the total over its weight. */
  function ChooseAmong(w: seq<real>, u: real): (c: Choice)
    requires 0.0 <= u < 1.0
    requires forall k :: 0 <= k < |w| ==> w[k] >= 0.0
    ensures c == NoLight <==> |w| == 0 || Sum(w) == 0.0
    ensures c.Chosen? ==> c.index < |w| && w[c.index] > 0.0 && c.weight * w[c.index] == Sum(w)
    ensures c.Chosen? ==> c.weight > 0.0
  {
    if |w| == 0 || Sum(w) == 0.0 then NoLight
    else
      SumNonNeg(w);
      var i := Pick(w, ScaledDraw(u, Sum(w)));
      Chosen(i, Sum(w) / w[i])
  }

  /** `chooseLight` for a draw `u` of `SampleGenerator::next1D` (which lies
      in [0,1)). */
  function Choose(approx: seq<real>, u: real): (c: Choice)
    requires 0.0 <= u < 1.0
    ensures c.Chosen? ==> c.index < |approx| && c.weight > 0.0
  {
    if |approx| == 0 then NoLight
    else if |approx| == 1 then Chosen(0, 1.0)
    else
      WeightsNonNegative(approx);
      ChooseAmong(Weights(approx), u)
  }

  // ---------------------------------------------------------------------
  // Sums and counts

  /** The draw `u` scaled to the total weight, `sampler.next1D()*total`;
      it lies below the total. */
  function ScaledDraw(u: real, total: real): (t: real)
    requires 0.0 <= u < 1.0 && total > 0.0
    ensures 0.0 <= t < total
  {
    DrawBelowTotal(u, total);
    u * total
  }

  lemma DrawBelowTotal(u: real, total: real)
    requires 0.0 <= u < 1.0 && total > 0.0
    ensures 0.0 <= u * total < total
  {
    assert total - u * total == (1.0 - u) * total;
  }

  lemma {:induction false} SumAppend(a: seq<real>, b: seq<real>)
    ensures Sum(a + b) == Sum(a) + Sum(b)
    decreases |b|
  {
    if |b| == 0 {
      assert a + b == a;
    } else {
      assert (a + b)[..|a + b| - 1] == a + b[..|b| - 1];
      SumAppend(a, b[..|b| - 1]);
    }
  }

  lemma SumPrefixStep(s: seq<real>, i: nat)
    requires i < |s|
    ensures Sum(s[..i + 1]) == Sum(s[..i]) + s[i]
  {
    assert s[..i + 1][..i] == s[..i];
  }

  lemma {:induction false} SumNonNeg(s: seq<real>)
    requires forall i :: 0 <= i < |s| ==> s[i] >= 0.0
    ensures Sum(s) >= 0.0
    decreases |s|
  {
    if |s| > 0 {
      SumNonNeg(s[..|s| - 1]);
    }
  }

  /** A sum of non-negative weights is zero exactly when every weight is. */
  lemma {:induction false} SumZeroIff(s: seq<real>)
    requires forall i :: 0 <= i < |s| ==> s[i] >= 0.0
    ensures Sum(s) == 0.0 <==> forall i :: 0 <= i < |s| ==> s[i] == 0.0
    decreases |s|
  {
    if |s| > 0 {
      var s' := s[..|s| - 1];
      SumZeroIff(s');
      SumNonNeg(s');
      if Sum(s) == 0.0 {
        forall i | 0 <= i < |s| ensures s[i] == 0.0 {
          if i < |s| - 1 { assert s[i] == s'[i]; }
        }
      }
    }
  }

  /** Prefix sums of non-negative weights never decrease. */
  lemma {:induction false} PrefixSumMonotone(s: seq<real>, i: nat, j: nat)
    requires i <= j <= |s|
    requires forall k :: 0 <= k < |s| ==> s[k] >= 0.0
    ensures Sum(s[..i]) <= Sum(s[..j])
    decreases j - i
  {
    if i < j {
      PrefixSumMonotone(s, i, j - 1);
      SumPrefixStep(s, j - 1);
    }
  }

  lemma {:induction false} SumOnes(n: nat)
    ensures Sum(Ones(n)) == n as real
  {
    if n > 0 {
      assert Ones(n)[..n - 1] == Ones(n - 1);
      SumOnes(n - 1);
    }
  }

  lemma {:induction false} KnownCountBounds(s: seq<real>)
    ensures KnownCount(s) <= |s|
    ensures KnownCount(s) == |s| <==> forall i :: 0 <= i < |s| ==> s[i] >= 0.0
    ensures KnownCount(s) == 0 <==> forall i :: 0 <= i < |s| ==> s[i] < 0.0
    ensures KnownSum(s) >= 0.0
    ensures KnownCount(s) == |s| ==> KnownSum(s) == Sum(s)
    decreases |s|
  {
    if |s| > 0 {
      var s' := s[..|s| - 1];
      KnownCountBounds(s');
      assert forall i :: 0 <= i < |s| - 1 ==> s[i] == s'[i];
    }
  }

  // ---------------------------------------------------------------------
  // The weights

  /** The replacement pass keeps the length, keeps known entries, and
      gives every unknown entry a positive weight. */
  lemma {:induction false} FillUnknownFacts(s: seq<real>, total: real, numKnown: nat)
    requires numKnown > 0 && total >= 0.0
    ensures forall i :: 0 <= i < |s| && s[i] >= 0.0 ==> FillUnknown(s, total, numKnown)[i] == s[i]
    ensures forall i :: 0 <= i < |s| && s[i] < 0.0 ==> FillUnknown(s, total, numKnown)[i] > 0.0
    decreases |s|
  {
    if |s| > 0 {
      var uniformWeight := UniformWeight(total, numKnown);
      var total' := if s[0] < 0.0 then total + uniformWeight else total;
      FillUnknownFacts(s[1..], total', numKnown);
      var f := FillUnknown(s, total, numKnown);
      assert f == [f[0]] + FillUnknown(s[1..], total', numKnown);
      forall i | 0 <= i < |s| && s[i] >= 0.0 ensures f[i] == s[i] {
        if i > 0 { assert f[i] == FillUnknown(s[1..], total', numKnown)[i - 1]; }
      }
      forall i | 0 <= i < |s| && s[i] < 0.0 ensures f[i] > 0.0 {
        if i > 0 { assert f[i] == FillUnknown(s[1..], total', numKnown)[i - 1]; }
      }
    }
  }

  /** After the filling phase every light has a non-negative weight, and
      known estimates are kept as they are. */
  lemma WeightsNonNegative(approx: seq<real>)
    ensures forall i :: 0 <= i < |approx| ==> Weights(approx)[i] >= 0.0
    ensures KnownCount(approx) > 0 ==>
              forall i :: 0 <= i < |approx| && approx[i] >= 0.0 ==> Weights(approx)[i] == approx[i]
  {
    KnownCountBounds(approx);
    if 0 < KnownCount(approx) < |approx| {
      FillUnknownFacts(approx, KnownSum(approx), KnownCount(approx));
    }
  }

  /** When no light's radiance is known, every light gets weight 1 and the
      total is the number of lights. */
  lemma AllUnknownIsUniform(approx: seq<real>)
    requires forall i :: 0 <= i < |approx| ==> approx[i] < 0.0
    ensures Weights(approx) == Ones(|approx|)
    ensures Sum(Weights(approx)) == |approx| as real
  {
    KnownCountBounds(approx);
    SumOnes(|approx|);
  }

  /** The running total at index i of a replacement pass over `s` that
      started from `total` and has produced `f`: the starting total plus the
      weights given to unknown entries before i. */
  function RunningTotal(s: seq<real>, f: seq<real>, total: real, i: nat): real
    requires i <= |s| && i <= |f|
  {
    total + Sum(f[..i]) - KnownSum(s[..i])
  }

  /** Each unknown estimate, when some but not all are known, is replaced
      by the uniform weight of the running total at its index (the total,
      or 1 if it is zero, over the number of known estimates). */
  lemma UnknownWeight(approx: seq<real>, i: nat)
    requires 0 < KnownCount(approx) < |approx|
    requires i < |approx| && approx[i] < 0.0
    ensures var w := Weights(approx);
            var t := RunningTotal(approx, w, KnownSum(approx), i);
            w[i] == UniformWeight(t, KnownCount(approx))
  {
    var n := KnownCount(approx);
    KnownCountBounds(approx);
    var w := FillUnknown(approx, KnownSum(approx), n);
    FillPrefix(approx, KnownSum(approx), n, i);
    assert Weights(approx) == w;
  }

  /** The replacement pass, unrolled to index i. */
  lemma {:induction false} FillPrefix(s: seq<real>, total: real, numKnown: nat, i: nat)
    requires numKnown > 0 && total >= 0.0 && i < |s|
    ensures var f := FillUnknown(s, total, numKnown);
            s[i] < 0.0 ==> f[i] == UniformWeight(RunningTotal(s, f, total, i), numKnown)
    decreases i
  {
    FillUnknownFacts(s, total, numKnown);
    var f := FillUnknown(s, total, numKnown);
    var uniformWeight := UniformWeight(total, numKnown);
    var total' := if s[0] < 0.0 then total + uniformWeight else total;
    var f' := FillUnknown(s[1..], total', numKnown);
    assert f == [f[0]] + f';
    if i > 0 {
      FillPrefix(s[1..], total', numKnown, i - 1);
      assert f[i] == f'[i - 1];
      assert f[..i] == [f[0]] + f'[..i - 1];
      assert s[..i] == [s[0]] + s[1..][..i - 1];
      SumAppend([f[0]], f'[..i - 1]);
      KnownSumPrepend(s[0], s[1..][..i - 1]);
      assert Sum([f[0]]) == f[0] by { assert [f[0]][..0] == []; }
      assert RunningTotal(s, f, total, i) == RunningTotal(s[1..], f', total', i - 1);
    }
  }

  lemma KnownSumPrefixStep(s: seq<real>, i: nat)
    requires i < |s|
    ensures KnownSum(s[..i + 1]) == KnownSum(s[..i]) + (if s[i] >= 0.0 then s[i] else 0.0)
  {
    assert s[..i + 1][..i] == s[..i];
  }

  /** One step of the replacement pass. */
  lemma FillUnknownUnfold(s: seq<real>, total: real, numKnown: nat)
    requires numKnown > 0 && |s| > 0
    ensures var uniformWeight := UniformWeight(total, numKnown);
            FillUnknown(s, total, numKnown)
            == if s[0] < 0.0 then [uniformWeight] + FillUnknown(s[1..], total + uniformWeight, numKnown)
               else [s[0]] + FillUnknown(s[1..], total, numKnown)
  {
  }

  /** One iteration of the replacement loop over the buffer `f`, as the
      loop's invariants describe it: the prefix already replaced, the rest
      untouched, and the running total. */
  lemma FillStep(a: seq<real>, f: seq<real>, i: nat, total0: real, total: real, numKnown: nat)
    requires numKnown > 0 && total >= 0.0 && i < |a| == |f|
    requires f[..i] + FillUnknown(a[i..], total, numKnown) == FillUnknown(a, total0, numKnown)
    requires f[i..] == a[i..]
    requires total == total0 + Sum(f[..i]) - KnownSum(a[..i])
    ensures var uniformWeight := UniformWeight(total, numKnown);
            var f' := if f[i] < 0.0 then f[i := uniformWeight] else f;
            var total' := if f[i] < 0.0 then total + uniformWeight else total;
            && f'[..i + 1] + FillUnknown(a[i + 1..], total', numKnown) == FillUnknown(a, total0, numKnown)
            && f'[i + 1..] == a[i + 1..]
            && total' == total0 + Sum(f'[..i + 1]) - KnownSum(a[..i + 1])
            && total' >= 0.0
  {
    var uniformWeight := UniformWeight(total, numKnown);
    var v := if a[i] < 0.0 then uniformWeight else a[i];
    var f' := if f[i] < 0.0 then f[i := uniformWeight] else f;
    var total' := if f[i] < 0.0 then total + uniformWeight else total;
    assert f[i] == a[i] by { assert f[i..][0] == f[i]; }
    FillUnknownUnfold(a[i..], total, numKnown);
    assert a[i..][0] == a[i] && a[i..][1..] == a[i + 1..];
    assert FillUnknown(a[i..], total, numKnown) == [v] + FillUnknown(a[i + 1..], total', numKnown);
    assert f'[..i + 1] == f[..i] + [v];
    assert f'[..i + 1] + FillUnknown(a[i + 1..], total', numKnown)
           == f[..i] + ([v] + FillUnknown(a[i + 1..], total', numKnown));
    assert f'[i + 1..] == a[i + 1..];
    SumPrefixStep(f', i);
    assert f'[..i] == f[..i];
    KnownSumPrefixStep(a, i);
  }

  lemma {:induction false} KnownSumPrepend(x: real, s: seq<real>)
    ensures KnownSum([x] + s) == (if x >= 0.0 then x else 0.0) + KnownSum(s)
    decreases |s|
  {
    if |s| == 0 {
      assert ([x] + s)[..0] == [];
    } else {
      assert ([x] + s)[..|[x] + s| - 1] == [x] + s[..|s| - 1];
      KnownSumPrepend(x, s[..|s| - 1]);
    }
  }

  /** The total weight is zero exactly when every light's estimate is
      exactly zero; unknown estimates never make it zero. */
  lemma TotalZeroIff(approx: seq<real>)
    requires |approx| > 0
    ensures Sum(Weights(approx)) == 0.0 <==> forall i :: 0 <= i < |approx| ==> approx[i] == 0.0
  {
    var w := Weights(approx);
    KnownCountBounds(approx);
    WeightsNonNegative(approx);
    SumZeroIff(w);
    var n := KnownCount(approx);
    if n == 0 {
      SumOnes(|approx|);
      assert approx[0] < 0.0;
    } else if n < |approx| {
      var j :| 0 <= j < |approx| && approx[j] < 0.0;
      FillUnknownFacts(approx, KnownSum(approx), n);
      assert w[j] > 0.0;
    }
  }

  // ---------------------------------------------------------------------
  // The scan

  /** The scan from index j picks light i exactly when the draw falls in
      light i's slice [Sum(w[..i]), Sum(w[..i+1])) of the cumulative
      weights. */
  lemma {:induction false} ScanInterval(w: seq<real>, j: nat, t: real, i: nat)
    requires forall k :: 0 <= k < |w| ==> w[k] >= 0.0
    requires j <= i < |w|
    requires Sum(w[..j]) <= t < Sum(w)
    ensures Scan(w, j, t - Sum(w[..j])) == i <==> Sum(w[..i]) <= t < Sum(w[..i + 1])
    decreases |w| - j
  {
    var t' := t - Sum(w[..j]);
    SumPrefixStep(w, j);
    if t' < w[j] || j == |w| - 1 {
      if j == |w| - 1 {
        assert w[..j + 1] == w;
      }
      if i > j {
        PrefixSumMonotone(w, j + 1, i);
      }
    } else {
      if i > j {
        ScanInterval(w, j + 1, t, i);
      }
    }
  }

  /** The fallback: a draw at or above the total (which only rounding can
      produce in the source) runs the scan from j to the last light, which
      is then taken. */
  lemma {:induction false} ScanFallback(w: seq<real>, j: nat, t: real)
    requires forall k :: 0 <= k < |w| ==> w[k] >= 0.0
    requires j < |w|
    requires Sum(w[..j]) <= t && Sum(w) <= t
    ensures Scan(w, j, t - Sum(w[..j])) == |w| - 1
    decreases |w| - j
  {
    if j < |w| - 1 {
      SumPrefixStep(w, j);
      assert w[..|w|] == w;
      PrefixSumMonotone(w, j + 1, |w|);
      assert t - Sum(w[..j]) - w[j] == t - Sum(w[..j + 1]);
      ScanFallback(w, j + 1, t);
    }
  }

  /** For a draw below the total, the scan ends on a light of positive
      weight. */
  lemma ScanPicksPositive(w: seq<real>, t: real)
    requires |w| > 0
    requires forall k :: 0 <= k < |w| ==> w[k] >= 0.0
    requires 0.0 <= t < Sum(w)
    ensures w[Scan(w, 0, t)] > 0.0
  {
    var i := Scan(w, 0, t);
    assert w[..0] == [];
    ScanInterval(w, 0, t, i);
    SumPrefixStep(w, i);
  }

  // ---------------------------------------------------------------------
  // Properties of chooseLight

  /** No lights: no light is chosen. One light: it is chosen with weight
      exactly 1. Several lights: none is chosen exactly when every estimate
      is zero. */
  lemma ChooseNoLightIff(approx: seq<real>, u: real)
    requires 0.0 <= u < 1.0
    ensures |approx| == 1 ==> Choose(approx, u) == Chosen(0, 1.0)
    ensures Choose(approx, u) == NoLight <==>
              (|approx| == 0 || (|approx| >= 2 && forall i :: 0 <= i < |approx| ==> approx[i] == 0.0))
  {
    if |approx| >= 2 {
      TotalZeroIff(approx);
    }
  }

  /** Unbiasedness: light i is chosen exactly when `u * total` (the scaled draw) falls in its
      slice of the cumulative weights, a slice of length `w[i]`, so it is
      chosen with probability `w[i] / total`, and its returned weight is
      the reciprocal of that probability. */
  lemma ChooseAmongUnbiased(w: seq<real>, u: real, i: nat)
    requires 0.0 <= u < 1.0
    requires forall k :: 0 <= k < |w| ==> w[k] >= 0.0
    requires i < |w| && Sum(w) != 0.0
    ensures var c := ChooseAmong(w, u);
            && Sum(w[..i + 1]) - Sum(w[..i]) == w[i]
            && (c.Chosen? && c.index == i <==> Sum(w[..i]) <= ScaledDraw(u, Sum(w)) < Sum(w[..i + 1]))
            && (c.Chosen? && c.index == i ==> c.weight == Sum(w) / w[i])
  {
    SumNonNeg(w);
    PickInterval(w, ScaledDraw(u, Sum(w)), i);
  }

  /** `chooseLight` over several lights is the selection among their
      weights, and hence unbiased in the sense of `ChooseAmongUnbiased`. */
  lemma ChooseUnbiased(approx: seq<real>, u: real, i: nat)
    requires 0.0 <= u < 1.0
    requires |approx| >= 2 && i < |approx|
    requires Sum(Weights(approx)) != 0.0
    ensures var w := Weights(approx);
            var c := Choose(approx, u);
            && (c.Chosen? && c.index == i <==> Sum(w[..i]) <= ScaledDraw(u, Sum(w)) < Sum(w[..i + 1]))
            && (c.Chosen? && c.index == i ==> w[i] > 0.0 && c.weight == Sum(w) / w[i])
  {
    WeightsNonNegative(approx);
    ChooseAmongUnbiased(Weights(approx), u, i);
  }

  /** The cumulative scan picks index i exactly for draws in i's slice. */
  lemma PickInterval(w: seq<real>, t: real, i: nat)
    requires |w| > 0 && forall k :: 0 <= k < |w| ==> w[k] >= 0.0
    requires 0.0 <= t < Sum(w)
    requires i < |w|
    ensures Pick(w, t) == i <==> Sum(w[..i]) <= t < Sum(w[..i + 1])
    ensures Sum(w[..i + 1]) == Sum(w[..i]) + w[i]
  {
    SumEmpty(w);
    ScanInterval(w, 0, t, i);
    SumPrefixStep(w, i);
  }

  lemma SumEmpty(w: seq<real>)
    ensures Sum(w[..0]) == 0.0
  {
    assert w[..0] == [];
  }

  /** The per-thread selection state: the `_lightPdf` buffer, one entry
      per light of the scene. */
  class LightSelector {
    const lightPdf: array<real>

    constructor (numLights: nat)
      ensures lightPdf.Length == numLights
      ensures fresh(lightPdf)
    {
      lightPdf := new real[numLights];
    }

    /** The first loop: every light's estimate is stored, and the known
        ones are counted and summed. */
    method LoadEstimates(approx: seq<real>) returns (total: real, numNonNegative: nat)
      requires |approx| == lightPdf.Length
      modifies lightPdf
      ensures lightPdf[..] == approx
      ensures total == KnownSum(approx) && numNonNegative == KnownCount(approx)
    {
      total, numNonNegative := 0.0, 0;
      for i := 0 to lightPdf.Length
        invariant lightPdf[..i] == approx[..i]
        invariant total == KnownSum(approx[..i])
        invariant numNonNegative == KnownCount(approx[..i])
      {
        lightPdf[i] := approx[i];
        if lightPdf[i] >= 0.0 {
          total := total + lightPdf[i];
          numNonNegative := numNonNegative + 1;
        }
        assert approx[..i + 1][..i] == approx[..i];
      }
      assert approx[..lightPdf.Length] == approx;
      assert lightPdf[..lightPdf.Length] == lightPdf[..];
    }

    /** No estimate is known: every light gets weight 1. */
    method FillUniform() returns (total: real)
      modifies lightPdf
      ensures lightPdf[..] == Ones(lightPdf.Length)
      ensures total == lightPdf.Length as real
    {
      for i := 0 to lightPdf.Length
        invariant forall j :: 0 <= j < i ==> lightPdf[j] == 1.0
      {
        lightPdf[i] := 1.0;
      }
      total := lightPdf.Length as real;
    }

    /** Some estimates are known: the replacement pass, which grows the
        running total by every weight it assigns. */
    method FillUnknownEstimates(total0: real, numNonNegative: nat) returns (total: real)
      requires numNonNegative > 0 && total0 >= 0.0
      modifies lightPdf
      ensures lightPdf[..] == FillUnknown(old(lightPdf[..]), total0, numNonNegative)
      ensures total == total0 + Sum(lightPdf[..]) - KnownSum(old(lightPdf[..]))
    {
      ghost var a := lightPdf[..];
      total := total0;
      for i := 0 to lightPdf.Length
        invariant lightPdf[..i] + FillUnknown(a[i..], total, numNonNegative) == FillUnknown(a, total0, numNonNegative)
        invariant lightPdf[i..] == a[i..]
        invariant total == total0 + Sum(lightPdf[..i]) - KnownSum(a[..i])
        invariant total >= 0.0
      {
        FillStep(a, lightPdf[..], i, total0, total, numNonNegative);
        var uniformWeight := UniformWeight(total, numNonNegative);
        if lightPdf[i] < 0.0 {
          lightPdf[i] := uniformWeight;
          total := total + uniformWeight;
        }
      }
      assert lightPdf[..lightPdf.Length] == lightPdf[..];
      assert a[lightPdf.Length..] == [];
      assert a[..lightPdf.Length] == a;
    }

    /** The final loop: the cumulative scan over the filled weights for the
        scaled draw `t0`. */
    method ScanDraw(t0: real) returns (i: nat)
      requires lightPdf.Length > 0
      requires forall k :: 0 <= k < lightPdf.Length ==> lightPdf[k] >= 0.0
      requires 0.0 <= t0 < Sum(lightPdf[..])
      ensures i == Pick(lightPdf[..], t0)
    {
      ghost var w := lightPdf[..];
      var n := lightPdf.Length;
      var t := t0;
      i := 0;
      while !(t < lightPdf[i] || i == n - 1)
        invariant 0 <= i < n
        invariant Scan(w, i, t) == Scan(w, 0, t0)
        decreases n - i
      {
        t := t - lightPdf[i];
        i := i + 1;
      }
    }

    /** The filling phase of `chooseLight` for two or more lights: stores
        the weights and returns their total. */
    method FillWeights(approx: seq<real>) returns (total: real)
      requires |approx| == lightPdf.Length >= 2
      modifies lightPdf
      ensures lightPdf[..] == Weights(approx)
      ensures total == Sum(Weights(approx))
    {
      var numNonNegative;
      total, numNonNegative := LoadEstimates(approx);
      KnownCountBounds(approx);
      if numNonNegative == 0 {
        total := FillUniform();
        SumOnes(lightPdf.Length);
      } else if numNonNegative < lightPdf.Length {
        total := FillUnknownEstimates(total, numNonNegative);
      }
    }

    /** `chooseLight(sampler, p, weight)`: `approx[i]` is light i's
        `approximateRadiance` at `p`, `u` the sampler's draw. */
    method ChooseLight(approx: seq<real>, u: real) returns (c: Choice)
      requires |approx| == lightPdf.Length
      requires 0.0 <= u < 1.0
      modifies lightPdf
      ensures c == Choose(approx, u)
      ensures |approx| >= 2 ==> lightPdf[..] == Weights(approx)
      ensures |approx| < 2 ==> lightPdf[..] == old(lightPdf[..])
    {
      var n := lightPdf.Length;
      if n == 0 {
        return NoLight;
      }
      if n == 1 {
        return Chosen(0, 1.0);
      }
      var total := FillWeights(approx);
      WeightsNonNegative(approx);
      if total == 0.0 {
        return NoLight;
      }
      SumNonNeg(lightPdf[..]);
      var t := ScaledDraw(u, total);
      var i := ScanDraw(t);
      c := Chosen(i, total / lightPdf[i]);
    }
  }
}
