/** The load score, its smoothing and the sustained-load streak of loadMetricsService. */
module LoadSmoothing {
  import opened Wrappers

  // ---- Score ----------------------------------------------------------------------------

  // Math.round: halves go up.
  function Round(x: real): (n: int)
    ensures n as real - 0.5 <= x < n as real + 0.5
  {
    (x + 0.5).Floor
  }

  function MaxReal(a: real, b: real): real {
    if a >= b then a else b
  }

  // One reading of a box. A capacity of 0 or none falls back to 1000 Mbit/s, and the address
  // component takes part only when a positive maximum is set.
  datatype Reading = Reading(throughputBps: real, capacityMbps: real, cpuUtilPct: Option<real>, liveIps: real, maxIps: real)

  function Utilization(r: Reading): real {
    var capacity := MaxReal(1.0, if r.capacityMbps == 0.0 then 1000.0 else r.capacityMbps) * 1000000.0;
    var bandwidth := 100.0 * r.throughputBps / capacity;
    var connections := if r.maxIps > 0.0 then 100.0 * r.liveIps / r.maxIps else 0.0;
    MaxReal(MaxReal(bandwidth, r.cpuUtilPct.GetOr(0.0)), connections)
  }

  /** computeLoadScore. */
  function Score(r: Reading): (s: int)
    ensures 0 <= s <= 100
  {
    Max(0, Min(100, Round(Utilization(r))))
  }

  /** What the score measures: it reaches s exactly if one of the three utilizations, in percent of
      the capacity in Mbit/s, of the cores, or of the address maximum if there is one, rounds to s. */
  lemma ScoreReaches(r: Reading, s: int)
    requires 0 < s <= 100
    ensures var half := s as real - 0.5;
      var mbps := if r.capacityMbps == 0.0 then 1000.0 else if r.capacityMbps < 1.0 then 1.0 else r.capacityMbps;
      Score(r) >= s <==>
        || 100.0 * r.throughputBps >= half * (mbps * 1000000.0)
        || (r.cpuUtilPct.Some? && r.cpuUtilPct.value >= half)
        || (r.maxIps > 0.0 && 100.0 * r.liveIps >= half * r.maxIps)
  {
    var half := s as real - 0.5;
    var mbps := if r.capacityMbps == 0.0 then 1000.0 else if r.capacityMbps < 1.0 then 1.0 else r.capacityMbps;
    AtLeast(100.0 * r.throughputBps, mbps * 1000000.0, half);
    if r.maxIps > 0.0 {
      AtLeast(100.0 * r.liveIps, r.maxIps, half);
    }
  }

  lemma AtLeast(x: real, d: real, q: real)
    requires d > 0.0
    ensures x / d >= q <==> x >= q * d
  {
    assert x == x / d * d;
    if x / d >= q {
      assert (x / d - q) * d >= 0.0;
    } else {
      assert (q - x / d) * d > 0.0;
    }
  }

  /** More traffic, more CPU or more addresses never lower the score. */
  lemma ScoreMonotone(a: Reading, b: Reading)
    requires a.capacityMbps == b.capacityMbps && a.maxIps == b.maxIps
    requires a.throughputBps <= b.throughputBps && a.liveIps <= b.liveIps
    requires a.cpuUtilPct.GetOr(0.0) <= b.cpuUtilPct.GetOr(0.0)
    ensures Score(a) <= Score(b)
  {
    var capacity := MaxReal(1.0, if a.capacityMbps == 0.0 then 1000.0 else a.capacityMbps) * 1000000.0;
    Scaled(a.throughputBps, b.throughputBps, capacity);
    if a.maxIps > 0.0 {
      Scaled(a.liveIps, b.liveIps, a.maxIps);
    }
  }

  lemma Scaled(x: real, y: real, d: real)
    requires x <= y && d > 0.0
    ensures 100.0 * x / d <= 100.0 * y / d
  {
    assert 100.0 * y / d - 100.0 * x / d == (100.0 * y - 100.0 * x) / d;
  }

  // ---- Smoothing ------------------------------------------------------------------------

  /** emaNext on integers: round((2 raw + 3 prev) / 5), exact because a fifth is never a half. */
  function EmaNext(prev: Option<int>, raw: int): int {
    if prev.None? then raw else (2 * (2 * raw + 3 * prev.value) + 5) / 10
  }

  // It is the rounding of 0.4 raw + 0.6 prev, and the first sample as it is.
  lemma EmaIsRounding(prev: int, raw: int)
    ensures EmaNext(None, raw) == raw
    ensures EmaNext(Some(prev), raw) == Round(0.4 * raw as real + 0.6 * prev as real)
  {
    var x := 0.4 * raw as real + 0.6 * prev as real + 0.5;
    var n := 2 * (2 * raw + 3 * prev) + 5;
    assert x == n as real / 10.0;
    assert (n / 10) as real <= x < (n / 10) as real + 1.0 by {
      assert n == 10 * (n / 10) + n % 10;
    }
  }

  function Smoothed(seed: Option<int>, raws: seq<int>): Option<int> {
    if raws == [] then seed else Some(EmaNext(Smoothed(seed, raws[..|raws| - 1]), raws[|raws| - 1]))
  }

  /** The smoothed load never leaves the range of its seed and the samples it has seen. */
  lemma {:induction false} SmoothedInHull(seed: Option<int>, raws: seq<int>, lo: int, hi: int)
    requires seed.Some? ==> lo <= seed.value <= hi
    requires forall i :: 0 <= i < |raws| ==> lo <= raws[i] <= hi
    ensures Smoothed(seed, raws).Some? ==> lo <= Smoothed(seed, raws).value <= hi
  {
    if raws != [] {
      SmoothedInHull(seed, raws[..|raws| - 1], lo, hi);
    }
  }

  function Gap(a: int, b: int): nat {
    if a >= b then a - b else b - a
  }

  /** A repeated sample strictly closes a gap of more than 1 from the side it is on, and a gap of
      at most 1 stays as it is. */
  lemma GapShrinks(prev: int, raw: int)
    ensures var next := EmaNext(Some(prev), raw);
      && (Gap(prev, raw) > 1 ==> 1 <= Gap(next, raw) < Gap(prev, raw) && (next > raw <==> prev > raw))
      && (Gap(prev, raw) <= 1 ==> next == prev)
  {
  }

  function Repeat(raw: int, n: nat): seq<int> {
    seq(n, i => raw)
  }

  /** Once a sample has repeated as often as the gap is wide, the smoothed load is within 1 of it
      and stays there. */
  lemma {:induction false} SmoothingConverges(seed: int, raw: int, n: nat)
    ensures Smoothed(Some(seed), Repeat(raw, n)).Some?
    ensures Gap(Smoothed(Some(seed), Repeat(raw, n)).value, raw) <= Max(Gap(seed, raw) - n, if Gap(seed, raw) == 0 then 0 else 1)
  {
    if n > 0 {
      SmoothingConverges(seed, raw, n - 1);
      assert Repeat(raw, n)[..n - 1] == Repeat(raw, n - 1);
      GapShrinks(Smoothed(Some(seed), Repeat(raw, n - 1)).value, raw);
    }
  }

  // ---- Streaks and alerts ---------------------------------------------------------------

  const ALERT_CONSECUTIVE_POLLS := 3
  const ALERT_RESOLVE_BELOW := 75

  // How a poll of one server ends. Failed may happen before a raw score exists or after the
  // smoothed value was taken over; then the row may or may not have been written.
  datatype Poll = Busy | Unreachable | FailedEarly | FailedLate(raw: int, stored: bool) | Succeeded(raw: int, threshold: int)

  // The entries of one server: _ema, the load_pct column, _hot.
  datatype Server = Server(ema: Option<int>, loadPct: Option<int>, hot: nat)

  datatype Alert = Nothing | OpenIncident(streak: nat) | ResolveIncident

  function Previous(s: Server): Option<int> {
    if s.ema.Some? then s.ema else s.loadPct
  }

  function PolledServer(s: Server, p: Poll): Server {
    match p
    case Busy => s
    case Unreachable => s.(hot := 0)
    case FailedEarly => s.(hot := 0)
    case FailedLate(raw, stored) =>
      var pct := EmaNext(Previous(s), raw);
      s.(ema := Some(pct), loadPct := if stored then Some(pct) else s.loadPct, hot := 0)
    case Succeeded(raw, threshold) =>
      var pct := EmaNext(Previous(s), raw);
      Server(Some(pct), Some(pct), if pct >= threshold then s.hot + 1 else 0)
  }

  // checkLoadAlerts, which only a poll that got that far runs.
  function AlertOf(s: Server, p: Poll): Alert {
    match p
    case Succeeded(raw, threshold) =>
      var t := PolledServer(s, p);
      if t.ema.value >= threshold then (if t.hot >= ALERT_CONSECUTIVE_POLLS then OpenIncident(t.hot) else Nothing)
      else if t.ema.value < ALERT_RESOLVE_BELOW then ResolveIncident
      else Nothing
    case _ => Nothing
  }

  function Run(start: Server, polls: seq<Poll>): Server {
    if polls == [] then start else PolledServer(Run(start, polls[..|polls| - 1]), polls[|polls| - 1])
  }

  // ---- The service smooths --------------------------------------------------------------

  // The raw score of a poll that got one.
  function Raws(polls: seq<Poll>): seq<int> {
    if polls == [] then []
    else
      var p := polls[|polls| - 1];
      Raws(polls[..|polls| - 1]) + (if p.FailedLate? || p.Succeeded? then [p.raw] else [])
  }

  // The memory of the process decides over the stored column.
  function Seed(start: Server): Option<int> {
    if start.ema.Some? then start.ema else start.loadPct
  }

  // The load after these polls.
  function Load(start: Server, polls: seq<Poll>): Option<int> {
    Smoothed(Seed(start), Raws(polls))
  }

  // The polls up to the last one that wrote the row.
  function UpToStored(polls: seq<Poll>): seq<Poll> {
    if polls == [] then []
    else
      var p := polls[|polls| - 1];
      if p.Succeeded? || (p.FailedLate? && p.stored) then polls else UpToStored(polls[..|polls| - 1])
  }

  /** Over every run the load in memory is the smoothing of its seed and of the raw scores of exactly
      the polls that got one, in order, and the stored load is what it was at the last poll that
      wrote it. */
  lemma {:induction false} RunIsSmoothed(start: Server, polls: seq<Poll>)
    ensures Smooths(start, polls)
  {
    if polls != [] {
      var n := |polls| - 1;
      RunIsSmoothed(start, polls[..n]);
      if polls[n].FailedLate? || polls[n].Succeeded? {
        NothingStored(polls[..n]);
        assert Previous(Run(start, polls[..n])) == Load(start, polls[..n]);
        LoadOneMore(start, polls);
        RunOneMore(start, polls);
      } else {
        assert Raws(polls) == Raws(polls[..n]);
      }
    }
  }

  ghost predicate Smooths(start: Server, polls: seq<Poll>) {
    && Run(start, polls).ema == (if Raws(polls) == [] then start.ema else Load(start, polls))
    && Run(start, polls).loadPct == (if UpToStored(polls) == [] then start.loadPct else Load(start, UpToStored(polls)))
  }

  lemma LoadOneMore(start: Server, polls: seq<Poll>)
    requires polls != [] && var p := polls[|polls| - 1]; p.FailedLate? || p.Succeeded?
    ensures Raws(polls) != []
    ensures Load(start, polls) == Some(EmaNext(Load(start, polls[..|polls| - 1]), polls[|polls| - 1].raw))
  {
    assert Raws(polls)[..|Raws(polls)| - 1] == Raws(polls[..|polls| - 1]);
  }

  lemma RunOneMore(start: Server, polls: seq<Poll>)
    requires polls != [] && var p := polls[|polls| - 1]; p.FailedLate? || p.Succeeded?
    ensures var p, s, t := polls[|polls| - 1], Run(start, polls[..|polls| - 1]), Run(start, polls);
      && t.ema == Some(EmaNext(Previous(s), p.raw))
      && t.loadPct == (if p.Succeeded? || p.stored then t.ema else s.loadPct)
  {
    RawPoll(Run(start, polls[..|polls| - 1]), polls[|polls| - 1]);
  }

  lemma RawPoll(s: Server, p: Poll)
    requires p.FailedLate? || p.Succeeded?
    ensures PolledServer(s, p).ema == Some(EmaNext(Previous(s), p.raw))
    ensures PolledServer(s, p).loadPct == (if p.Succeeded? || p.stored then PolledServer(s, p).ema else s.loadPct)
  {
  }

  // Without a raw score nothing is written.
  lemma {:induction false} NothingStored(polls: seq<Poll>)
    ensures Raws(polls) == [] ==> UpToStored(polls) == []
  {
    if polls != [] {
      NothingStored(polls[..|polls| - 1]);
    }
  }

  /** The loads of the service stay between the least and the greatest of their seed and the raw
      scores. */
  lemma ServiceInHull(start: Server, polls: seq<Poll>, lo: int, hi: int)
    requires start.ema.Some? ==> lo <= start.ema.value <= hi
    requires start.loadPct.Some? ==> lo <= start.loadPct.value <= hi
    requires forall i :: 0 <= i < |polls| && (polls[i].FailedLate? || polls[i].Succeeded?) ==> lo <= polls[i].raw <= hi
    ensures Run(start, polls).ema.Some? ==> lo <= Run(start, polls).ema.value <= hi
    ensures Run(start, polls).loadPct.Some? ==> lo <= Run(start, polls).loadPct.value <= hi
  {
    RunIsSmoothed(start, polls);
    RawsBetween(polls, lo, hi);
    SmoothedInHull(Seed(start), Raws(polls), lo, hi);
    SmoothedInHull(Seed(start), Raws(UpToStored(polls)), lo, hi);
  }

  lemma {:induction false} RawsBetween(polls: seq<Poll>, lo: int, hi: int)
    requires forall i :: 0 <= i < |polls| && (polls[i].FailedLate? || polls[i].Succeeded?) ==> lo <= polls[i].raw <= hi
    ensures forall i :: 0 <= i < |Raws(polls)| ==> lo <= Raws(polls)[i] <= hi
    ensures forall i :: 0 <= i < |Raws(UpToStored(polls))| ==> lo <= Raws(UpToStored(polls))[i] <= hi
  {
    if polls != [] {
      RawsBetween(polls[..|polls| - 1], lo, hi);
    }
  }

  /** A raw score that repeats draws the load of the service to within 1 of it. */
  lemma ServiceConverges(start: Server, polls: seq<Poll>, raw: int)
    requires Seed(start).Some? && Raws(polls) != []
    requires forall i :: 0 <= i < |polls| && (polls[i].FailedLate? || polls[i].Succeeded?) ==> polls[i].raw == raw
    ensures var gap := Gap(Seed(start).value, raw);
      Run(start, polls).ema.Some?
      && Gap(Run(start, polls).ema.value, raw) <= Max(gap - |Raws(polls)|, if gap == 0 then 0 else 1)
  {
    RunIsSmoothed(start, polls);
    RawsBetween(polls, raw, raw);
    assert Raws(polls) == Repeat(raw, |Raws(polls)|);
    SmoothingConverges(Seed(start).value, raw, |Raws(polls)|);
  }

  // ---- The streak -----------------------------------------------------------------------

  // A poll that succeeded with the smoothed load at or above its threshold.
  predicate Hot(start: Server, polls: seq<Poll>, i: nat)
    requires i < |polls|
  {
    polls[i].Succeeded? && Load(start, polls[..i + 1]).Some? && Load(start, polls[..i + 1]).value >= polls[i].threshold
  }

  // Hot polls in polls[from..], where all that are not busy are hot.
  ghost predicate HotSince(start: Server, polls: seq<Poll>, from: nat) {
    from <= |polls| && forall i :: from <= i < |polls| ==> polls[i].Busy? || Hot(start, polls, i)
  }

  function CountNotBusy(polls: seq<Poll>): nat {
    if polls == [] then 0 else CountNotBusy(polls[..|polls| - 1]) + (if polls[|polls| - 1].Busy? then 0 else 1)
  }

  // Where the streak began: everything from here on is busy or hot, and the poll before is neither.
  ghost predicate StreakFrom(start: Server, polls: seq<Poll>, from: nat) {
    && HotSince(start, polls, from)
    && (from > 0 ==> !polls[from - 1].Busy? && !Hot(start, polls, from - 1))
  }

  /** The streak counter is the length of the longest suffix of polls that, busy skips aside, all
      succeeded at or above their threshold. */
  lemma {:induction false} StreakIsSuffix(start: Server, polls: seq<Poll>) returns (from: nat)
    requires start.hot == 0
    ensures StreakFrom(start, polls, from)
    ensures Run(start, polls).hot == CountNotBusy(polls[from..])
  {
    if polls == [] {
      from := 0;
    } else {
      var n := |polls| - 1;
      from := StreakIsSuffix(start, polls[..n]);
      PrefixHot(start, polls);
      RunIsSmoothed(start, polls);
      assert polls[n].Succeeded? ==> Run(start, polls).ema == Load(start, polls[..n + 1]);
      if polls[n].Busy? || Hot(start, polls, n) {
        CountOneMore(polls, from);
      } else {
        from := |polls|;
      }
    }
  }

  // Which polls are hot does not depend on later ones.
  lemma PrefixHot(start: Server, polls: seq<Poll>)
    requires polls != []
    ensures forall i :: 0 <= i < |polls| - 1 ==> Hot(start, polls, i) == Hot(start, polls[..|polls| - 1], i)
    ensures polls[..|polls|] == polls
  {
    forall i | 0 <= i < |polls| - 1 ensures Hot(start, polls, i) == Hot(start, polls[..|polls| - 1], i) {
      assert polls[..|polls| - 1][..i + 1] == polls[..i + 1];
    }
  }

  lemma CountOneMore(polls: seq<Poll>, from: nat)
    requires from < |polls|
    ensures CountNotBusy(polls[from..])
         == CountNotBusy(polls[..|polls| - 1][from..]) + (if polls[|polls| - 1].Busy? then 0 else 1)
  {
    var n := |polls| - 1;
    assert polls[from..][..n - from] == polls[..n][from..];
  }

  /** An incident is opened exactly by a third or later hot poll in a row, with nothing but busy skips
      in between, and one is resolved exactly by a success below its threshold and below 75. */
  lemma IncidentNeedsStreak(start: Server, polls: seq<Poll>, p: Poll) returns (from: nat)
    requires start.hot == 0
    ensures StreakFrom(start, polls + [p], from)
    ensures var alert, row := AlertOf(Run(start, polls), p), CountNotBusy((polls + [p])[from..]);
      && (alert.OpenIncident? <==> Hot(start, polls + [p], |polls|) && row >= 3)
      && (alert.OpenIncident? ==> alert.streak == row)
      && (alert.ResolveIncident? <==>
            p.Succeeded? && Load(start, polls + [p]).Some? && Load(start, polls + [p]).value < p.threshold
            && Load(start, polls + [p]).value < 75)
  {
    var all := polls + [p];
    assert all[..|polls|] == polls && all[..|polls| + 1] == all;
    from := StreakIsSuffix(start, all);
    RunIsSmoothed(start, all);
  }

  // ---- The service as the source writes it ----------------------------------------------

  class LoadMetrics {
    var ema: map<int, int>       // _ema
    var hot: map<int, nat>       // _hot
    var loadPct: map<int, int>   // Server.load_pct

    constructor ()
      ensures ema == map[] && hot == map[] && loadPct == map[]
    {
      ema, hot, loadPct := map[], map[], map[];
    }

    function View(id: int): Server
      reads this
    {
      Server(Lookup(ema, id), Lookup(loadPct, id), Lookup(hot, id).GetOr(0))
    }

    /** checkLoadAlerts. */
    method CheckLoadAlerts(id: int, pct: int, threshold: int) returns (alert: Alert)
      modifies this`hot
      ensures hot == old(hot)[id := if pct >= threshold then old(Lookup(hot, id)).GetOr(0) + 1 else 0]
      ensures alert ==
        if pct >= threshold then (if hot[id] >= 3 then OpenIncident(hot[id]) else Nothing)
        else if pct < 75 then ResolveIncident
        else Nothing
    {
      alert := Nothing;
      if pct >= threshold {
        var streak := (if id in hot then hot[id] else 0) + 1;
        hot := hot[id := streak];
        if streak >= ALERT_CONSECUTIVE_POLLS {
          alert := OpenIncident(streak);
        }
      } else {
        hot := hot[id := 0];
        if pct < ALERT_RESOLVE_BELOW {
          alert := ResolveIncident;
        }
      }
    }

    /** The part of pollServer that keeps state, for a poll that ends as told. */
    method PollServer(id: int, p: Poll) returns (alert: Alert)
      modifies this
      ensures View(id) == PolledServer(old(View(id)), p)
      ensures alert == AlertOf(old(View(id)), p)
      ensures forall other :: other != id ==> View(other) == old(View(other))
    {
      alert := Nothing;
      match p {
        case Busy =>
        case Unreachable => hot := hot[id := 0];
        case FailedEarly => hot := hot[id := 0];
        case FailedLate(raw, stored) =>
          var prev := if id in ema then Some(ema[id]) else Lookup(loadPct, id);
          var smoothed := EmaNext(prev, raw);
          ema := ema[id := smoothed];
          if stored {
            loadPct := loadPct[id := smoothed];
          }
          hot := hot[id := 0];
        case Succeeded(raw, threshold) =>
          var prev := if id in ema then Some(ema[id]) else Lookup(loadPct, id);
          var smoothed := EmaNext(prev, raw);
          ema := ema[id := smoothed];
          loadPct := loadPct[id := smoothed];
          alert := CheckLoadAlerts(id, smoothed, threshold);
      }
    }
  }
}
