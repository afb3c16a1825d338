/**
 * The interval stage of `calculate_bpm`: from the peak indices of the smoothed
 * cheek-colour window to a beats-per-minute estimate. Smoothing and peak
 * finding are not modelled; the peaks arrive as a strictly increasing sequence
 * of sample indices, as peak detection reports them.
 */
module HeartRate {
  import opened Options

  /** Default plausible range of `calculate_bpm` (`min_bpm`, `max_bpm`). */
  const MinBpm: real := 50.0
  const MaxBpm: real := 150.0

  ghost predicate StrictlyIncreasing(peaks: seq<int>) {
    forall i, j :: 0 <= i < j < |peaks| ==> peaks[i] < peaks[j]
  }

  function Sum(xs: seq<real>): real {
    if xs == [] then 0.0 else xs[0] + Sum(xs[1..])
  }

  /** `np.mean`: the result lies between the smallest and the largest element. */
  function Mean(xs: seq<real>): (r: real)
    requires xs != []
    ensures exists k :: 0 <= k < |xs| && xs[k] <= r
    ensures exists k :: 0 <= k < |xs| && r <= xs[k]
  {
    MeanSpan(xs);
    Sum(xs) / |xs| as real
  }

  /** Some element times the length is at most the sum. */
  lemma {:induction false} SumAboveSomeElement(xs: seq<real>) returns (k: nat)
    requires xs != []
    ensures k < |xs| && |xs| as real * xs[k] <= Sum(xs)
  {
    if |xs| == 1 {
      k := 0;
      assert xs[1..] == [];
    } else {
      var k' := SumAboveSomeElement(xs[1..]);
      var n', m := (|xs| - 1) as real, xs[1..][k'];
      assert Sum(xs) >= xs[0] + n' * m;
      if xs[0] <= m {
        k := 0;
        assert n' * xs[0] <= n' * m;
        assert |xs| as real * xs[0] == xs[0] + n' * xs[0];
      } else {
        k := k' + 1;
        assert |xs| as real * m == m + n' * m;
      }
    }
  }

  /** Some element times the length is at least the sum. */
  lemma {:induction false} SumBelowSomeElement(xs: seq<real>) returns (k: nat)
    requires xs != []
    ensures k < |xs| && Sum(xs) <= |xs| as real * xs[k]
  {
    if |xs| == 1 {
      k := 0;
      assert xs[1..] == [];
    } else {
      var k' := SumBelowSomeElement(xs[1..]);
      var n', m := (|xs| - 1) as real, xs[1..][k'];
      assert Sum(xs) <= xs[0] + n' * m;
      if xs[0] >= m {
        k := 0;
        assert n' * xs[0] >= n' * m;
        assert |xs| as real * xs[0] == xs[0] + n' * xs[0];
      } else {
        k := k' + 1;
        assert |xs| as real * m == m + n' * m;
      }
    }
  }

  /** The average lies between two of the elements. */
  lemma MeanSpan(xs: seq<real>)
    requires xs != []
    ensures exists k :: 0 <= k < |xs| && xs[k] <= Sum(xs) / |xs| as real
    ensures exists k :: 0 <= k < |xs| && Sum(xs) / |xs| as real <= xs[k]
  {
    var lo := SumAboveSomeElement(xs);
    var hi := SumBelowSomeElement(xs);
    DivideOut(|xs| as real, xs[lo], Sum(xs));
    DivideIn(|xs| as real, xs[hi], Sum(xs));
  }

  lemma DivideOut(n: real, a: real, total: real)
    requires n > 0.0 && n * a <= total
    ensures a <= total / n
  {
    DivideBoth(n * a, total, n);
    Cancel(n, a);
  }

  lemma DivideIn(n: real, b: real, total: real)
    requires n > 0.0 && total <= n * b
    ensures total / n <= b
  {
    DivideBoth(total, n * b, n);
    Cancel(n, b);
  }

  /** The mean of values inside `[lo, hi]` lies inside `[lo, hi]`. */
  lemma MeanBounds(xs: seq<real>, lo: real, hi: real)
    requires xs != []
    requires forall i :: 0 <= i < |xs| ==> lo <= xs[i] <= hi
    ensures lo <= Mean(xs) <= hi
  {
  }

  lemma Cancel(n: real, x: real)
    requires n > 0.0
    ensures (n * x) / n == x
  {
  }

  lemma DivideBoth(a: real, b: real, n: real)
    requires n > 0.0 && a <= b
    ensures a / n <= b / n
  {
    assert b / n - a / n == (b - a) / n;
  }

  /** The mask selection `xs[(xs >= lo) & (xs <= hi)]`, order kept. */
  function InRange(xs: seq<real>, lo: real, hi: real): (r: seq<real>)
    ensures |r| <= |xs|
    ensures forall i :: 0 <= i < |r| ==> r[i] in xs && lo <= r[i] <= hi
    ensures forall i :: 0 <= i < |xs| && lo <= xs[i] <= hi ==> xs[i] in r
  {
    if xs == [] then []
    else
      (if lo <= xs[0] <= hi then [xs[0]] else []) + InRange(xs[1..], lo, hi)
  }

  /** Every value inside `[lo, hi]` is kept as often as it occurs; every other value is dropped. */
  lemma {:induction false} InRangeKeepsMultiplicity(xs: seq<real>, lo: real, hi: real)
    ensures forall v :: multiset(InRange(xs, lo, hi))[v] == if lo <= v <= hi then multiset(xs)[v] else 0
  {
    if xs != [] {
      var rest := InRange(xs[1..], lo, hi);
      InRangeKeepsMultiplicity(xs[1..], lo, hi);
      assert xs == [xs[0]] + xs[1..];
      assert multiset(xs) == multiset{xs[0]} + multiset(xs[1..]);
      if lo <= xs[0] <= hi {
        assert InRange(xs, lo, hi) == [xs[0]] + rest;
        assert multiset(InRange(xs, lo, hi)) == multiset{xs[0]} + multiset(rest);
      } else {
        assert InRange(xs, lo, hi) == rest;
      }
    }
  }

  lemma {:induction false} SumConstant(xs: seq<real>, c: real)
    requires forall i :: 0 <= i < |xs| ==> xs[i] == c
    ensures Sum(xs) == |xs| as real * c
  {
    if xs != [] {
      SumConstant(xs[1..], c);
    }
  }

  lemma {:induction false} InRangeKeepsAll(xs: seq<real>, lo: real, hi: real)
    requires forall i :: 0 <= i < |xs| ==> lo <= xs[i] <= hi
    ensures InRange(xs, lo, hi) == xs
  {
    if xs != [] {
      InRangeKeepsAll(xs[1..], lo, hi);
    }
  }

  lemma MeanConstant(xs: seq<real>, c: real)
    requires xs != []
    requires forall i :: 0 <= i < |xs| ==> xs[i] == c
    ensures Mean(xs) == c
  {
    SumConstant(xs, c);
    Cancel(|xs| as real, c);
  }

  /** Lines 53-56: keep the plausible rates, report their mean or nothing. */
  function FilterMean(rates: seq<real>, lo: real, hi: real): (r: Option<real>)
    ensures r.None? <==> forall i :: 0 <= i < |rates| ==> !(lo <= rates[i] <= hi)
    ensures r.Some? ==> lo <= r.value <= hi
  {
    var valid := InRange(rates, lo, hi);
    if |valid| == 0 then None
    else
      assert valid[0] in rates;
      Some(Mean(valid))
  }

  /** Beats per minute of one beat every `gap` samples at `fps` samples per second. */
  function BeatRate(gap: int, fps: real): real
    requires gap > 0 && fps > 0.0
  {
    60.0 * fps / gap as real
  }

  /**
   * The per-interval rates of consecutive peaks. The ensures names each element
   * as a `BeatRate`, so that `CalculateBpm`'s contract, read through `Rates(...)[i]`,
   * speaks of beat rates.
   */
  function Rates(peaks: seq<int>, fps: real): (r: seq<real>)
    requires |peaks| >= 1 && fps > 0.0 && StrictlyIncreasing(peaks)
    ensures |r| == |peaks| - 1
    ensures forall i :: 0 <= i < |r| ==> r[i] == BeatRate(peaks[i + 1] - peaks[i], fps)
  {
    seq(|peaks| - 1, i requires 0 <= i < |peaks| - 1 => BeatRate(peaks[i + 1] - peaks[i], fps))
  }

  /** A beat rate lies in `[lo, hi]` exactly when its gap lies in `[60 fps / hi, 60 fps / lo]`. */
  lemma BeatRateKeepsGaps(gap: int, fps: real, lo: real, hi: real)
    requires gap > 0 && fps > 0.0 && lo > 0.0 && hi > 0.0
    ensures lo <= BeatRate(gap, fps) <= hi <==> 60.0 * fps / hi <= gap as real <= 60.0 * fps / lo
  {
    var g := gap as real;
    var rate := BeatRate(gap, fps);
    assert rate * g == 60.0 * fps;
    assert lo <= rate <==> lo * g <= 60.0 * fps;
    assert rate <= hi <==> 60.0 * fps <= hi * g;
    assert lo * g <= 60.0 * fps <==> g <= 60.0 * fps / lo;
    assert 60.0 * fps <= hi * g <==> 60.0 * fps / hi <= g;
  }

  /**
   * `calculate_bpm` after peak finding, with each interval converted to
   * `60 * fps / gap` beats per minute.
   */
  function CalculateBpm(peaks: seq<int>, fps: real, minBpm: real, maxBpm: real): (r: Option<real>)
    requires fps > 0.0 && StrictlyIncreasing(peaks)
    ensures r.None? <==>
      |peaks| < 2 || forall i :: 0 <= i < |peaks| - 1 ==> !(minBpm <= Rates(peaks, fps)[i] <= maxBpm)
    ensures r.Some? ==> minBpm <= r.value <= maxBpm
  {
    if |peaks| < 2 then None
    else
      FilterMean(Rates(peaks, fps), minBpm, maxBpm)
  }

  /** Peaks evenly spaced `gap` samples apart report exactly their beat rate when it is plausible. */
  lemma PeriodicPeaksGiveTheirRate(peaks: seq<int>, fps: real, gap: int, minBpm: real, maxBpm: real)
    requires fps > 0.0 && gap > 0 && |peaks| >= 2 && StrictlyIncreasing(peaks)
    requires forall i :: 0 <= i < |peaks| - 1 ==> peaks[i + 1] - peaks[i] == gap
    requires minBpm <= BeatRate(gap, fps) <= maxBpm
    ensures CalculateBpm(peaks, fps, minBpm, maxBpm) == Some(BeatRate(gap, fps))
  {
    var rates := Rates(peaks, fps);
    var rate := BeatRate(gap, fps);
    assert forall i :: 0 <= i < |rates| ==> rates[i] == rate;
    InRangeKeepsAll(rates, minBpm, maxBpm);
    MeanConstant(rates, rate);
    assert FilterMean(rates, minBpm, maxBpm) == Some(Mean(rates));
  }

  /**
   * The per-interval values as the source computes them: `np.diff(peaks) / fps * 60`.
   * The ensures names each element, so that lemmas over `RatesAsWritten(...)[i]` see the conversion.
   */
  function RatesAsWritten(peaks: seq<int>, fps: real): (r: seq<real>)
    requires |peaks| >= 1 && fps > 0.0
    ensures |r| == |peaks| - 1
    ensures forall i :: 0 <= i < |r| ==> r[i] == (peaks[i + 1] - peaks[i]) as real / fps * 60.0
  {
    seq(|peaks| - 1, i requires 0 <= i < |peaks| - 1 => (peaks[i + 1] - peaks[i]) as real / fps * 60.0)
  }

  /** A value as written lies in `[lo, hi]` exactly when its gap lies in `[lo fps / 60, hi fps / 60]`. */
  lemma AsWrittenKeepsGaps(gap: int, fps: real, lo: real, hi: real)
    requires fps > 0.0
    ensures lo <= gap as real / fps * 60.0 <= hi <==> lo * fps / 60.0 <= gap as real <= hi * fps / 60.0
  {
    var g := gap as real;
    assert g / fps * 60.0 == g * 60.0 / fps;
    assert lo <= g * 60.0 / fps <==> lo * fps <= g * 60.0;
    assert g * 60.0 / fps <= hi <==> g * 60.0 <= hi * fps;
  }

  /**
   * Each value as written is 3600 divided by the beat rate of the same gap:
   * the source reports the reciprocal of the rate, scaled.
   */
  lemma AsWrittenIsReciprocalRate(peaks: seq<int>, fps: real, i: nat)
    requires fps > 0.0 && StrictlyIncreasing(peaks) && i < |peaks| - 1
    ensures RatesAsWritten(peaks, fps)[i] * Rates(peaks, fps)[i] == 3600.0
  {
    var gap := peaks[i + 1] - peaks[i];
    assert gap > 0;
    var asWritten, rate := RatesAsWritten(peaks, fps)[i], Rates(peaks, fps)[i];
    assert asWritten == gap as real / fps * 60.0;
    assert rate == BeatRate(gap, fps);
    Reciprocal(gap as real, fps, asWritten, rate);
  }

  /** A period in seconds times 60, multiplied by the beat rate of the same gap, is 3600. */
  lemma Reciprocal(g: real, fps: real, asWritten: real, rate: real)
    requires g > 0.0 && fps > 0.0
    requires asWritten == g / fps * 60.0 && rate == 60.0 * fps / g
    ensures asWritten * rate == 3600.0
  {
    var a, b := g / fps, fps / g;
    assert a * fps == g && b * g == fps;
    assert a * b == 1.0 by {
      assert a * b * g == a * fps == g;
    }
    assert 60.0 * fps / g == 60.0 * b;
  }

  /** `calculate_bpm` after peak finding, exactly as the source converts intervals. */
  function CalculateBpmAsWritten(peaks: seq<int>, fps: real, minBpm: real, maxBpm: real): (r: Option<real>)
    requires fps > 0.0
    ensures r.None? <==>
      |peaks| < 2 || forall i :: 0 <= i < |peaks| - 1 ==> !(minBpm <= (peaks[i + 1] - peaks[i]) as real / fps * 60.0 <= maxBpm)
    ensures r.Some? ==> minBpm <= r.value <= maxBpm
  {
    if |peaks| < 2 then None else FilterMean(RatesAsWritten(peaks, fps), minBpm, maxBpm)
  }

  /**
   * A pulse of 75 beats per minute filmed at 30 frames per second peaks every
   * 24 frames. The source turns that gap into 24 / 30 * 60 = 48, below the
   * plausible range, and reports nothing; the beat-rate conversion reports 75.
   */
  lemma AsWrittenMissesRestingPulse()
    ensures CalculateBpmAsWritten([0, 24], 30.0, MinBpm, MaxBpm) == None
    ensures CalculateBpm([0, 24], 30.0, MinBpm, MaxBpm) == Some(75.0)
  {
    var peaks: seq<int> := [0, 24];
    var asWritten := RatesAsWritten(peaks, 30.0);
    assert |asWritten| == 1;
    assert asWritten[0] == (peaks[1] - peaks[0]) as real / 30.0 * 60.0;
    assert peaks[1] - peaks[0] == 24;
    assert asWritten[0] == 48.0;
    assert BeatRate(24, 30.0) == 75.0;
    PeriodicPeaksGiveTheirRate([0, 24], 30.0, 24, MinBpm, MaxBpm);
  }
}
