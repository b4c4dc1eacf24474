/** Normalisation (`normalize_schedules`): every schedule's weights are
    mapped linearly from [min, max] of that schedule onto
    [min_scheduled_time, max_scheduled_time] and then cut to whole seconds,
    by truncation (`int`) or by Python's `round` (half to even). Division is
    exact here: the source's floating point is not modelled. */
module Normalization {
  import opened Dicts

  /** Smallest weight of a non-empty schedule, as the scanning loop keeps it. */
  function MinWeight(s: Dict<string, int>): int
    requires |s| > 0
  {
    if |s| == 1 then s[0].1
    else
      var m := MinWeight(s[..|s| - 1]);
      if s[|s| - 1].1 < m then s[|s| - 1].1 else m
  }

  /** Largest weight of a non-empty schedule, as the scanning loop keeps it. */
  function MaxWeight(s: Dict<string, int>): int
    requires |s| > 0
  {
    if |s| == 1 then s[0].1
    else
      var m := MaxWeight(s[..|s| - 1]);
      if s[|s| - 1].1 > m then s[|s| - 1].1 else m
  }

  /** `get_min_max_scheduled_seconds`: (min, max) of the weights, with min
      moved one below max when they coincide. */
  function Bounds(s: Dict<string, int>): (int, int)
    requires |s| > 0
  {
    var lo, hi := MinWeight(s), MaxWeight(s);
    if hi == lo then (hi - 1, hi) else (lo, hi)
  }

  /** `get_normalized_seconds`: the linear map of [lo, hi] onto [minT, maxT]. */
  function Normalized(v: int, lo: int, hi: int, minT: int, maxT: int): real
    requires lo != hi
  {
    ((v - lo) as real / (hi - lo) as real) * (maxT - minT) as real + minT as real
  }

  /** `int(x)`: truncation toward zero. */
  function Trunc(x: real): (r: int)
    ensures 0.0 <= x ==> r as real <= x < r as real + 1.0
    ensures x < 0.0 ==> r as real - 1.0 < x <= r as real
  {
    if x >= 0.0 then x.Floor else -((-x).Floor)
  }

  /** `round(x)`: to the nearest integer, ties to the even one. */
  function RoundHalfEven(x: real): (r: int)
    ensures r as real - 0.5 <= x <= r as real + 0.5
    ensures x == r as real - 0.5 || x == r as real + 0.5 ==> r % 2 == 0
  {
    var f := x.Floor;
    var frac := x - f as real;
    if frac < 0.5 then f
    else if frac > 0.5 then f + 1
    else if f % 2 == 0 then f
    else f + 1
  }

  /** `get_rounded_seconds`. */
  function Rounded(x: real, useRound: bool): int
  {
    if useRound then RoundHalfEven(x) else Trunc(x)
  }

  /** One schedule after normalisation: same keys, in the same order, each
      weight replaced by its normalised, rounded value. */
  function NormalizeSchedule(s: Dict<string, int>, minT: int, maxT: int, useRound: bool): Dict<string, int>
    requires |s| > 0
  {
    var b := Bounds(s);
    Rescaled(s, b.0, b.1, minT, maxT, useRound)
  }

  /** Every weight mapped from [lo, hi] to [minT, maxT] and rounded. */
  function Rescaled(s: Dict<string, int>, lo: int, hi: int, minT: int, maxT: int, useRound: bool): Dict<string, int>
    requires lo != hi
  {
    seq(|s|, i requires 0 <= i < |s| => (s[i].0, Rounded(Normalized(s[i].1, lo, hi, minT, maxT), useRound)))
  }

  lemma {:induction false} MinWeightSpec(s: Dict<string, int>)
    requires |s| > 0
    ensures exists i :: 0 <= i < |s| && s[i].1 == MinWeight(s)
    ensures forall i :: 0 <= i < |s| ==> MinWeight(s) <= s[i].1
  {
    if |s| > 1 {
      var init := s[..|s| - 1];
      MinWeightSpec(init);
      var k :| 0 <= k < |init| && init[k].1 == MinWeight(init);
      assert s[k] == init[k];
      assert forall i :: 0 <= i < |init| ==> s[i] == init[i];
      if s[|s| - 1].1 < MinWeight(init) {
        assert s[|s| - 1].1 == MinWeight(s);
      } else {
        assert s[k].1 == MinWeight(s);
      }
    } else {
      assert s[0].1 == MinWeight(s);
    }
  }

  lemma {:induction false} MaxWeightSpec(s: Dict<string, int>)
    requires |s| > 0
    ensures exists i :: 0 <= i < |s| && s[i].1 == MaxWeight(s)
    ensures forall i :: 0 <= i < |s| ==> s[i].1 <= MaxWeight(s)
  {
    if |s| > 1 {
      var init := s[..|s| - 1];
      MaxWeightSpec(init);
      var k :| 0 <= k < |init| && init[k].1 == MaxWeight(init);
      assert s[k] == init[k];
      assert forall i :: 0 <= i < |init| ==> s[i] == init[i];
      if s[|s| - 1].1 > MaxWeight(init) {
        assert s[|s| - 1].1 == MaxWeight(s);
      } else {
        assert s[k].1 == MaxWeight(s);
      }
    } else {
      assert s[0].1 == MaxWeight(s);
    }
  }

  /** The bounds enclose every weight, lo < hi, hi is the largest weight,
      and lo is the smallest unless all weights are equal (then hi - 1). */
  lemma BoundsSpec(s: Dict<string, int>)
    requires |s| > 0
    ensures Bounds(s).0 < Bounds(s).1
    ensures forall i :: 0 <= i < |s| ==> Bounds(s).0 <= s[i].1 <= Bounds(s).1
    ensures exists i :: 0 <= i < |s| && s[i].1 == Bounds(s).1
    ensures (exists i :: 0 <= i < |s| && s[i].1 == Bounds(s).0)
      <==> exists a, b :: 0 <= a < |s| && 0 <= b < |s| && s[a].1 != s[b].1
  {
    MinWeightSpec(s);
    MaxWeightSpec(s);
    var lo, hi := MinWeight(s), MaxWeight(s);
    if exists a, b :: 0 <= a < |s| && 0 <= b < |s| && s[a].1 != s[b].1 {
      var a, b :| 0 <= a < |s| && 0 <= b < |s| && s[a].1 != s[b].1;
      assert lo < hi;
    }
  }

  /** The linear map sends lo to minT and hi to maxT, keeps order, and with
      minT <= maxT sends [lo, hi] into [minT, maxT]. */
  lemma NormalizedSpec(lo: int, hi: int, minT: int, maxT: int)
    requires lo < hi
    ensures Normalized(lo, lo, hi, minT, maxT) == minT as real
    ensures Normalized(hi, lo, hi, minT, maxT) == maxT as real
    ensures minT <= maxT ==> forall v, w :: v <= w ==> Normalized(v, lo, hi, minT, maxT) <= Normalized(w, lo, hi, minT, maxT)
    ensures minT <= maxT ==> forall v :: lo <= v <= hi ==>
      minT as real <= Normalized(v, lo, hi, minT, maxT) <= maxT as real
  {
    var d := (hi - lo) as real;
    var scale := (maxT - minT) as real;
    assert (hi - lo) as real / d == 1.0;
    if minT <= maxT {
      forall v, w | v <= w
        ensures Normalized(v, lo, hi, minT, maxT) <= Normalized(w, lo, hi, minT, maxT)
      {
        ScaleMonotone((v - lo) as real / d, (w - lo) as real / d, scale);
      }
      forall v | lo <= v <= hi
        ensures minT as real <= Normalized(v, lo, hi, minT, maxT) <= maxT as real
      {
        var t := (v - lo) as real / d;
        DivMonotoneReal(0.0, (v - lo) as real, d);
        DivMonotoneReal((v - lo) as real, (hi - lo) as real, d);
        assert t <= 1.0;
        ScaleMonotone(0.0, t, scale);
        ScaleMonotone(t, 1.0, scale);
        assert t * scale <= scale;
        assert Normalized(v, lo, hi, minT, maxT) == t * scale + minT as real;
      }
    }
  }

  lemma DivMonotoneReal(x: real, y: real, d: real)
    requires x <= y && 0.0 < d
    ensures x / d <= y / d
  {
    assert x / d * d == x && y / d * d == y;
  }

  lemma ScaleMonotone(x: real, y: real, c: real)
    requires x <= y && 0.0 <= c
    ensures x * c <= y * c
  {
  }

  lemma TruncMonotone(x: real, y: real)
    requires x <= y
    ensures Trunc(x) <= Trunc(y)
  {
  }

  lemma RoundMonotone(x: real, y: real)
    requires x <= y
    ensures RoundHalfEven(x) <= RoundHalfEven(y)
  {
  }

  /** Whole numbers are left as they are by either rounding. */
  lemma RoundedWhole(n: int, useRound: bool)
    ensures Rounded(n as real, useRound) == n
  {
  }

  /** Rounding keeps order and, so, keeps a value between two whole numbers
      between them. */
  lemma RoundedSpec(x: real, y: real, useRound: bool)
    requires x <= y
    ensures Rounded(x, useRound) <= Rounded(y, useRound)
  {
    if useRound {
      RoundMonotone(x, y);
    } else {
      TruncMonotone(x, y);
    }
  }

  /** The normalisation contract, for minT <= maxT: keys and their order
      stay; every weight lands in [minT, maxT]; a largest weight becomes maxT;
      a smallest one becomes minT unless all weights are equal; and weights
      keep their order. */
  lemma NormalizeScheduleSpec(s: Dict<string, int>, minT: int, maxT: int, useRound: bool)
    requires |s| > 0 && minT <= maxT
    ensures var r := NormalizeSchedule(s, minT, maxT, useRound);
      && Keys(r) == Keys(s)
      && (forall i :: 0 <= i < |s| ==> minT <= r[i].1 <= maxT)
      && (forall i :: 0 <= i < |s| && s[i].1 == MaxWeight(s) ==> r[i].1 == maxT)
      && (forall i :: 0 <= i < |s| && s[i].1 == MinWeight(s) && MinWeight(s) < MaxWeight(s) ==> r[i].1 == minT)
      && (forall a, b :: 0 <= a < |s| && 0 <= b < |s| && s[a].1 <= s[b].1 ==> r[a].1 <= r[b].1)
  {
    var r := NormalizeSchedule(s, minT, maxT, useRound);
    var b := Bounds(s);
    BoundsSpec(s);
    NormalizedSpec(b.0, b.1, minT, maxT);
    RoundedWhole(minT, useRound);
    RoundedWhole(maxT, useRound);
    forall i | 0 <= i < |s|
      ensures minT <= r[i].1 <= maxT
    {
      var x := Normalized(s[i].1, b.0, b.1, minT, maxT);
      RoundedSpec(minT as real, x, useRound);
      RoundedSpec(x, maxT as real, useRound);
    }
    forall a, c | 0 <= a < |s| && 0 <= c < |s| && s[a].1 <= s[c].1
      ensures r[a].1 <= r[c].1
    {
      RoundedSpec(Normalized(s[a].1, b.0, b.1, minT, maxT), Normalized(s[c].1, b.0, b.1, minT, maxT), useRound);
    }
  }

  /** A schedule with a single street gets maxT. */
  lemma NormalizeSingle(name: string, w: int, minT: int, maxT: int, useRound: bool)
    ensures NormalizeSchedule([(name, w)], minT, maxT, useRound) == [(name, maxT)]
  {
    NormalizedSpec(w - 1, w, minT, maxT);
    RoundedWhole(maxT, useRound);
  }

  /** The bounds of a normalised schedule: [minT, maxT] when the weights
      differed and minT < maxT; otherwise every weight is maxT. */
  lemma NormalizedBounds(s: Dict<string, int>, minT: int, maxT: int, useRound: bool)
    requires |s| > 0 && minT <= maxT
    ensures var r := NormalizeSchedule(s, minT, maxT, useRound);
      if MinWeight(s) < MaxWeight(s) && minT < maxT then Bounds(r) == (minT, maxT)
      else forall i :: 0 <= i < |r| ==> r[i].1 == maxT
  {
    var r := NormalizeSchedule(s, minT, maxT, useRound);
    NormalizeScheduleSpec(s, minT, maxT, useRound);
    MinWeightSpec(s);
    MaxWeightSpec(s);
    MinWeightSpec(r);
    MaxWeightSpec(r);
    var im :| 0 <= im < |s| && s[im].1 == MaxWeight(s);
    assert r[im].1 == maxT;
    if MinWeight(s) < MaxWeight(s) && minT < maxT {
      var il :| 0 <= il < |s| && s[il].1 == MinWeight(s);
      assert r[il].1 == minT;
    } else if minT == maxT {
    } else {
      forall i | 0 <= i < |r|
        ensures r[i].1 == maxT
      {
        assert s[i].1 == MaxWeight(s);
      }
    }
  }

  /** Normalising twice changes nothing, for minT <= maxT. */
  lemma NormalizeIdempotent(s: Dict<string, int>, minT: int, maxT: int, useRound: bool)
    requires |s| > 0 && minT <= maxT
    ensures NormalizeSchedule(NormalizeSchedule(s, minT, maxT, useRound), minT, maxT, useRound)
      == NormalizeSchedule(s, minT, maxT, useRound)
  {
    var r := NormalizeSchedule(s, minT, maxT, useRound);
    var rr := NormalizeSchedule(r, minT, maxT, useRound);
    NormalizedBounds(s, minT, maxT, useRound);
    var b := Bounds(r);
    if MinWeight(s) < MaxWeight(s) && minT < maxT {
      forall i | 0 <= i < |r|
        ensures rr[i] == r[i]
      {
        NormalizedIdentity(r[i].1, minT, maxT);
        RoundedWhole(r[i].1, useRound);
      }
    } else {
      MinWeightSpec(r);
      MaxWeightSpec(r);
      assert b == (maxT - 1, maxT);
      NormalizedSpec(maxT - 1, maxT, minT, maxT);
      RoundedWhole(maxT, useRound);
    }
  }

  /** The map of [minT, maxT] onto itself is the identity. */
  lemma NormalizedIdentity(v: int, minT: int, maxT: int)
    requires minT < maxT
    ensures Normalized(v, minT, maxT, minT, maxT) == v as real
  {
    var d := (maxT - minT) as real;
    assert (v - minT) as real / d * d == (v - minT) as real;
  }
}
