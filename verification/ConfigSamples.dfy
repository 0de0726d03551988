/** recordConfigResult of monitorService: the rolling window of test samples on a catalog row. The
    stored samples are a sequence, where the source keeps them as JSON text. The figures beside them
    are described by what they are of the passing, timed samples in the window: the least, the
    greatest, and the integer closest to their mean. */
module ConfigSamples {
  import opened Wrappers
  import opened Bits

  const WINDOW := 10

  datatype Sample = Sample(ok: bool, ms: Option<int>)

  datatype Latency = Latency(avg: Option<int>, min: Option<int>, max: Option<int>)

  // ---- Reference: what the window and its figures mean ----------------------------------

  function Last<T>(s: seq<T>, n: nat): seq<T> {
    if |s| <= n then s else s[|s| - n..]
  }

  // Appending and trimming to ten keeps the last ten of everything.
  lemma WindowSlides(history: seq<Sample>, s: Sample)
    ensures Last(history + [s], WINDOW) == Last(Last(history, WINDOW) + [s], WINDOW)
  {
  }

  // The latencies of the passing, timed samples, in order.
  function Timed(samples: seq<Sample>): seq<int> {
    if samples == [] then []
    else
      var s := samples[|samples| - 1];
      Timed(samples[..|samples| - 1]) + (if s.ok && s.ms.Some? then [s.ms.value] else [])
  }

  function Sum(xs: seq<int>): int {
    if xs == [] then 0 else Sum(xs[..|xs| - 1]) + xs[|xs| - 1]
  }

  // Both go through their list sample by sample: the sum is additive, and what is timed is every
  // passing sample with a time, in order.
  lemma {:induction false} SumAppend(a: seq<int>, b: seq<int>)
    ensures Sum(a + b) == Sum(a) + Sum(b)
    ensures |b| == 1 ==> Sum(b) == b[0]
    decreases |b|
  {
    if b == [] {
      assert a + b == a;
    } else {
      var n := |b| - 1;
      assert (a + b)[..|a| + n] == a + b[..n];
      SumAppend(a, b[..n]);
    }
  }

  lemma {:induction false} TimedAppend(a: seq<Sample>, b: seq<Sample>)
    ensures Timed(a + b) == Timed(a) + Timed(b)
    ensures |b| == 1 ==> Timed(b) == if b[0].ok && b[0].ms.Some? then [b[0].ms.value] else []
    decreases |b|
  {
    if b == [] {
      assert a + b == a;
    } else {
      var n := |b| - 1;
      assert (a + b)[..|a| + n] == a + b[..n];
      TimedAppend(a, b[..n]);
      assert |b| == 1 ==> b[..n] == [];
    }
  }

  // Math.round(sum / n): halves go up.
  function RoundedMean(xs: seq<int>): int
    requires xs != []
  {
    (2 * Sum(xs) + |xs|) / (2 * |xs|)
  }

  lemma {:induction false} SumBounds(xs: seq<int>, lo: int, hi: int)
    requires forall i :: 0 <= i < |xs| ==> lo <= xs[i] <= hi
    ensures lo * |xs| <= Sum(xs) <= hi * |xs|
  {
    if xs != [] {
      SumBounds(xs[..|xs| - 1], lo, hi);
    }
  }

  // The mean of integers, rounded, lies between the least and the greatest of them.
  lemma MeanBetween(xs: seq<int>, lo: int, hi: int)
    requires xs != [] && forall i :: 0 <= i < |xs| ==> lo <= xs[i] <= hi
    ensures lo <= RoundedMean(xs) <= hi
  {
    SumBounds(xs, lo, hi);
    Doubled(lo, |xs|);
    Doubled(hi, |xs|);
    Quotient(2 * Sum(xs) + |xs|, 2 * |xs|, lo, hi);
  }

  lemma Doubled(x: int, n: int)
    ensures x * (2 * n) == 2 * (x * n) && (x + 1) * (2 * n) == 2 * (x * n) + 2 * n
  {
  }

  lemma Quotient(t: int, d: nat, lo: int, hi: int)
    requires d >= 1 && lo * d <= t < (hi + 1) * d
    ensures lo <= t / d <= hi
  {
    DivMeans(t, d);
    MulCancels(t / d, hi + 1, d);
    MulCancels(lo, t / d + 1, d);
  }

  // The integer m closest to s / n, the upper one of two.
  ghost predicate Nearest(m: int, s: int, n: nat) {
    2 * (m * n) - n <= 2 * s < 2 * (m * n) + n
  }

  lemma MeanIsNearest(xs: seq<int>)
    requires xs != []
    ensures Nearest(RoundedMean(xs), Sum(xs), |xs|)
  {
    DivMeans(2 * Sum(xs) + |xs|, 2 * |xs|);
    Doubled(RoundedMean(xs), |xs|);
  }

  ghost predicate Describes(l: Latency, xs: seq<int>) {
    if xs == [] then l == Latency(None, None, None)
    else
      && l.avg.Some? && l.min.Some? && l.max.Some?
      && Nearest(l.avg.value, Sum(xs), |xs|)
      && l.min.value in xs && l.max.value in xs
      && (forall i :: 0 <= i < |xs| ==> l.min.value <= xs[i] <= l.max.value)
  }

  // ---- The row --------------------------------------------------------------------------

  /** Math.min and Math.max over a non-empty list. */
  method Extremes(xs: seq<int>) returns (lo: int, hi: int)
    requires xs != []
    ensures lo in xs && hi in xs && forall i :: 0 <= i < |xs| ==> lo <= xs[i] <= hi
  {
    lo, hi := xs[0], xs[0];
    for i := 1 to |xs|
      invariant lo in xs && hi in xs && forall j :: 0 <= j < i ==> lo <= xs[j] <= hi
    {
      lo, hi := Min(lo, xs[i]), Max(hi, xs[i]);
    }
  }

  /** The stored figures: all null for no sample, otherwise the least, the greatest and the rounded
      mean between them. */
  method Summarize(okLat: seq<int>) returns (l: Latency)
    ensures Describes(l, okLat)
    ensures l.avg.Some? ==> l.min.value <= l.avg.value <= l.max.value
  {
    if okLat == [] {
      return Latency(None, None, None);
    }
    var lo, hi := Extremes(okLat);
    MeanBetween(okLat, lo, hi);
    MeanIsNearest(okLat);
    return Latency(Some(RoundedMean(okLat)), Some(lo), Some(hi));
  }

  class CatalogItem {
    var samples: seq<Sample>
    var latency: Latency
    var lastTestOk: Option<bool>
    ghost var history: seq<Sample>

    ghost predicate Valid()
      reads this
    {
      samples == Last(history, WINDOW) && Describes(latency, Timed(samples))
    }

    constructor ()
      ensures Valid() && history == []
    {
      samples, latency, lastTestOk, history := [], Latency(None, None, None), None, [];
    }

    /** Over every sequence of results the stored samples are the last ten of the history, the
        figures are null exactly when none of them passed with a time, and otherwise they are the
        least, the greatest and the rounded mean. A recovery is a pass right after a failure. */
    method RecordConfigResult(ok: bool, latencyMs: Option<int>) returns (recovered: bool)
      requires Valid()
      modifies this
      ensures Valid()
      ensures history == old(history) + [Sample(ok, latencyMs)]
      ensures samples == if |history| <= 10 then history else history[|history| - 10..]
      ensures lastTestOk == Some(ok)
      ensures recovered <==> ok && old(lastTestOk) == Some(false)
      ensures latency.avg.None? <==> forall i :: 0 <= i < |samples| ==> !(samples[i].ok && samples[i].ms.Some?)
      ensures latency.avg.Some? ==> latency.min.value <= latency.avg.value <= latency.max.value
    {
      samples := samples + [Sample(ok, latencyMs)];
      if |samples| > WINDOW {
        samples := samples[|samples| - WINDOW..];
      }
      WindowSlides(history, Sample(ok, latencyMs));
      history := history + [Sample(ok, latencyMs)];
      TimedEmpty(samples);
      latency := Summarize(Timed(samples));
      recovered := ok && lastTestOk == Some(false);
      lastTestOk := Some(ok);
    }
  }

  lemma {:induction false} TimedEmpty(samples: seq<Sample>)
    ensures Timed(samples) == [] <==> forall i :: 0 <= i < |samples| ==> !(samples[i].ok && samples[i].ms.Some?)
  {
    if samples != [] {
      var n := |samples| - 1;
      TimedEmpty(samples[..n]);
      assert forall i :: 0 <= i < n ==> samples[..n][i] == samples[i];
    }
  }
}
