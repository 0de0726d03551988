/** The fixed-window limiter of mobileSecurityService: one bucket per address and device, one per
    address, and an occasional pruning of expired buckets. */
module RateLimiter {
  import opened Wrappers

  const WINDOW := 60_000  // RATE_LIMIT_WINDOW_MS

  datatype Bucket = Bucket(count: nat, resetAt: int)

  type Buckets = map<string, Bucket>

  // RATE_LIMIT_MAX_REQUESTS and RATE_LIMIT_IP_MAX_REQUESTS.
  datatype Limits = Limits(perDevice: nat, perIp: nat)

  function DeviceKey(ip: string, device: string): string {
    ip + ":" + device
  }

  function IpKey(ip: string): string {
    "ip:" + ip
  }

  // ---- The decisions as functions -------------------------------------------------------

  function Bump(m: Buckets, key: string, now: int): Buckets {
    var b := if key in m then m[key] else Bucket(0, now + WINDOW);
    var live := if b.resetAt < now then Bucket(0, now + WINDOW) else b;
    m[key := live.(count := live.count + 1)]
  }

  // Both buckets are bumped whatever the outcome, and read only after both bumps.
  function Bumped(m: Buckets, ip: string, device: string, now: int): Buckets {
    Bump(Bump(m, DeviceKey(ip, device), now), IpKey(ip), now)
  }

  predicate Admits(m: Buckets, limits: Limits, ip: string, device: string, now: int) {
    var after := Bumped(m, ip, device, now);
    after[DeviceKey(ip, device)].count <= limits.perDevice && after[IpKey(ip)].count <= limits.perIp
  }

  function Pruned(m: Buckets, now: int): Buckets {
    map k | k in m && m[k].resetAt >= now :: m[k]
  }

  datatype Event = Request(ip: string, device: string, at: int) | Prune(at: int)

  function Next(m: Buckets, e: Event): Buckets {
    match e
    case Request(ip, device, at) => Bumped(m, ip, device, at)
    case Prune(at) => Pruned(m, at)
  }

  function Run(events: seq<Event>): Buckets {
    if events == [] then map[] else Next(Run(events[..|events| - 1]), events[|events| - 1])
  }

  // The clock never goes backwards.
  ghost predicate Ordered(events: seq<Event>) {
    forall i, j :: 0 <= i < j < |events| ==> events[i].at <= events[j].at
  }

  /** Whether the i-th event is a request the limiter lets through. */
  predicate Admitted(events: seq<Event>, limits: Limits, i: nat)
    requires i < |events|
  {
    events[i].Request? && Admits(Run(events[..i]), limits, events[i].ip, events[i].device, events[i].at)
  }

  // ---- Pruning is invisible -------------------------------------------------------------

  function WithoutPrunes(events: seq<Event>): seq<Event> {
    if events == [] then []
    else
      WithoutPrunes(events[..|events| - 1])
      + (if events[|events| - 1].Request? then [events[|events| - 1]] else [])
  }

  // The pruned map is the other one without some buckets that have expired.
  ghost predicate Sheds(pruned: Buckets, full: Buckets, now: int) {
    && (forall k :: k in pruned ==> k in full && full[k] == pruned[k])
    && (forall k :: k in full && k !in pruned ==> full[k].resetAt < now)
  }

  lemma BumpSheds(pruned: Buckets, full: Buckets, key: string, was: int, now: int)
    requires Sheds(pruned, full, was) && was <= now
    ensures Sheds(Bump(pruned, key, now), Bump(full, key, now), now)
    ensures Bump(pruned, key, now)[key] == Bump(full, key, now)[key]
  {
  }

  lemma {:induction false} RunSheds(events: seq<Event>, now: int)
    requires Ordered(events) && forall i :: 0 <= i < |events| ==> events[i].at <= now
    ensures Sheds(Run(events), Run(WithoutPrunes(events)), now)
  {
    if events != [] {
      var n := |events| - 1;
      var e := events[n];
      RunSheds(events[..n], e.at);
      var p, f := Run(events[..n]), Run(WithoutPrunes(events[..n]));
      if e.Request? {
        assert WithoutPrunes(events)[..|WithoutPrunes(events)| - 1] == WithoutPrunes(events[..n]);
        BumpSheds(p, f, DeviceKey(e.ip, e.device), e.at, e.at);
        BumpSheds(Bump(p, DeviceKey(e.ip, e.device), e.at), Bump(f, DeviceKey(e.ip, e.device), e.at), IpKey(e.ip), e.at, e.at);
      } else {
        assert WithoutPrunes(events) == WithoutPrunes(events[..n]);
      }
    }
  }

  /** Whenever the buckets were pruned in between, each request is decided as if they never were. */
  lemma PruningIsInvisible(events: seq<Event>, limits: Limits, i: nat)
    requires Ordered(events) && i < |events| && events[i].Request?
    ensures var e := events[i];
      Admitted(events, limits, i) == Admits(Run(WithoutPrunes(events[..i])), limits, e.ip, e.device, e.at)
  {
    var e := events[i];
    RunSheds(events[..i], e.at);
    var p, f := Run(events[..i]), Run(WithoutPrunes(events[..i]));
    BumpSheds(p, f, DeviceKey(e.ip, e.device), e.at, e.at);
    BumpSheds(Bump(p, DeviceKey(e.ip, e.device), e.at), Bump(f, DeviceKey(e.ip, e.device), e.at), IpKey(e.ip), e.at, e.at);
  }

  // ---- How much any minute lets through -------------------------------------------------

  // Whose requests are counted.
  datatype Client = OneDevice(ip: string, device: string) | WholeIp(ip: string)

  predicate IsFrom(e: Event, c: Client) {
    e.Request? && e.ip == c.ip && (c.OneDevice? ==> e.device == c.device)
  }

  function KeyOf(c: Client): string {
    if c.OneDevice? then DeviceKey(c.ip, c.device) else IpKey(c.ip)
  }

  function LimitOf(c: Client, limits: Limits): nat {
    if c.OneDevice? then limits.perDevice else limits.perIp
  }

  /** Requests of a client let through during the closed minute [from, from + 60000]. */
  function AdmittedWithin(events: seq<Event>, limits: Limits, c: Client, from: int): nat {
    if events == [] then 0
    else
      var n := |events| - 1;
      AdmittedWithin(events[..n], limits, c, from)
      + (if IsFrom(events[n], c) && from <= events[n].at <= from + 60_000 && Admitted(events, limits, n) then 1 else 0)
  }

  // Whether a request right after these events is counted.
  predicate Counts(events: seq<Event>, limits: Limits, c: Client, from: int, e: Event) {
    IsFrom(e, c) && from <= e.at <= from + 60_000 && Admits(Run(events), limits, e.ip, e.device, e.at)
  }

  lemma Snoc(events: seq<Event>, e: Event, limits: Limits, c: Client, from: int)
    ensures Run(events + [e]) == Next(Run(events), e)
    ensures AdmittedWithin(events + [e], limits, c, from)
         == AdmittedWithin(events, limits, c, from) + (if Counts(events, limits, c, from, e) then 1 else 0)
  {
    var more := events + [e];
    assert more[..|events|] == events;
  }

  // The bucket of the client accounts for what the interval has seen: a window begun before the
  // interval spent its first unit outside it, one begun inside follows at most one such window.
  ghost predicate Accounted(m: Buckets, key: string, limit: nat, seen: nat, from: int, last: int) {
    && (last < from ==> seen == 0)
    && (key !in m ==> seen == 0)
    && (key in m ==>
          var start := m[key].resetAt - WINDOW;
          && start <= last && m[key].count >= 1
          && (start < from ==> seen == 0 || (seen + 1 <= m[key].count && seen + 1 <= limit))
          && (from <= start <= from + WINDOW ==> seen <= Max(0, limit - 1) + Min(m[key].count, limit))
          && (start > from + WINDOW ==> seen <= Max(0, limit - 1) + limit))
  }

  lemma BumpAccounts(m: Buckets, bumped: string, key: string, limit: nat, seen: nat, from: int, last: int, now: int)
    requires Accounted(m, key, limit, seen, from, last) && last <= now
    ensures Accounted(Bump(m, bumped, now), key, limit, seen, from, now)
    ensures bumped == key && from <= now <= from + WINDOW && Bump(m, bumped, now)[key].count <= limit ==>
      Accounted(Bump(m, bumped, now), key, limit, seen + 1, from, now)
  {
  }

  lemma {:induction false} RunAccounts(events: seq<Event>, limits: Limits, c: Client, from: int, now: int)
    requires Ordered(events) && forall i :: 0 <= i < |events| ==> events[i].Request? && events[i].at <= now
    ensures Accounted(Run(events), KeyOf(c), LimitOf(c, limits), AdmittedWithin(events, limits, c, from), from, now)
  {
    if events != [] {
      var n := |events| - 1;
      var e := events[n];
      var m := Run(events[..n]);
      assert events == events[..n] + [e];
      Snoc(events[..n], e, limits, c, from);
      var seen := AdmittedWithin(events[..n], limits, c, from);
      var key, limit := KeyOf(c), LimitOf(c, limits);
      RunAccounts(events[..n], limits, c, from, e.at);
      var first := Bump(m, DeviceKey(e.ip, e.device), e.at);
      BumpAccounts(m, DeviceKey(e.ip, e.device), key, limit, seen, from, e.at, e.at);
      BumpAccounts(first, IpKey(e.ip), key, limit, seen, from, e.at, e.at);
      if Counts(events[..n], limits, c, from, e) && c.OneDevice? {
        BumpAccounts(first, IpKey(e.ip), key, limit, seen + 1, from, e.at, e.at);
      }
    }
  }

  lemma {:induction false} WithoutPrunesOrdered(events: seq<Event>, now: int)
    requires Ordered(events) && forall i :: 0 <= i < |events| ==> events[i].at <= now
    ensures Ordered(WithoutPrunes(events))
    ensures forall i :: 0 <= i < |WithoutPrunes(events)| ==>
      WithoutPrunes(events)[i].Request? && WithoutPrunes(events)[i].at <= now
  {
    if events != [] {
      var n := |events| - 1;
      WithoutPrunesOrdered(events[..n], events[n].at);
    }
  }

  lemma {:induction false} CountWithoutPrunes(events: seq<Event>, limits: Limits, c: Client, from: int)
    requires Ordered(events)
    ensures AdmittedWithin(events, limits, c, from) == AdmittedWithin(WithoutPrunes(events), limits, c, from)
  {
    if events != [] {
      var n := |events| - 1;
      var init, e := events[..n], events[n];
      var bare := WithoutPrunes(init);
      CountWithoutPrunes(init, limits, c, from);
      assert events == init + [e];
      Snoc(init, e, limits, c, from);
      if e.Request? {
        assert WithoutPrunes(events) == bare + [e];
        Snoc(bare, e, limits, c, from);
        assert events[..n] == init;
        PruningIsInvisible(events, limits, n);
      } else {
        assert WithoutPrunes(events) == bare;
      }
    }
  }

  // The bound: none for a limit of none, otherwise one less than twice the limit.
  function Cap(limit: nat): nat {
    if limit == 0 then 0 else 2 * limit - 1
  }

  /** In any run, with buckets pruned at any moments, no closed interval of one window's length
      lets through more than the cap, per device of an address and per address over all devices. */
  lemma AdmissionBound(events: seq<Event>, limits: Limits, c: Client, from: int)
    requires Ordered(events)
    ensures AdmittedWithin(events, limits, c, from) <= Cap(LimitOf(c, limits))
  {
    CountWithoutPrunes(events, limits, c, from);
    if events != [] {
      var now := events[|events| - 1].at;
      WithoutPrunesOrdered(events, now);
      RunAccounts(WithoutPrunes(events), limits, c, from, now);
    }
  }

  // ---- The bound is met -----------------------------------------------------------------

  function Repeat(e: Event, n: nat): (es: seq<Event>)
    ensures |es| == n && forall i :: 0 <= i < n ==> es[i] == e
  {
    if n == 0 then [] else [e] + Repeat(e, n - 1)
  }

  // The same count, started in the middle of a run.
  function AdmittedFrom(m: Buckets, events: seq<Event>, limits: Limits, c: Client, from: int): nat
    decreases |events|
  {
    if events == [] then 0
    else
      var e := events[0];
      var counted := IsFrom(e, c) && from <= e.at <= from + WINDOW && Admits(m, limits, e.ip, e.device, e.at);
      (if counted then 1 else 0) + AdmittedFrom(Next(m, e), events[1..], limits, c, from)
  }

  lemma {:induction false} CountSplits(a: seq<Event>, b: seq<Event>, limits: Limits, c: Client, from: int)
    ensures AdmittedWithin(a + b, limits, c, from)
         == AdmittedWithin(a, limits, c, from) + AdmittedFrom(Run(a), b, limits, c, from)
    decreases |b|
  {
    if b == [] {
      assert a + b == a;
    } else {
      assert a + b == (a + [b[0]]) + b[1..];
      Snoc(a, b[0], limits, c, from);
      CountSplits(a + [b[0]], b[1..], limits, c, from);
    }
  }

  // Both buckets of a client at `spent` in the window that ends at `end`.
  function Standing(ip: string, device: string, spent: nat, end: int): Buckets {
    map[DeviceKey(ip, device) := Bucket(spent, end), IpKey(ip) := Bucket(spent, end)]
  }

  // One more request, in a window with room or after it has ended.
  lemma OneMore(m: Buckets, e: Event, spent: nat, end: int, limits: Limits)
    requires e.Request? && DeviceKey(e.ip, e.device) != IpKey(e.ip) && m == Standing(e.ip, e.device, spent, end)
    ensures Next(m, e) == if e.at <= end then Standing(e.ip, e.device, spent + 1, end)
                          else Standing(e.ip, e.device, 1, e.at + WINDOW)
    ensures limits.perDevice <= limits.perIp && (if e.at <= end then spent else 0) < limits.perDevice ==>
      Admits(m, limits, e.ip, e.device, e.at)
  {
    var first := Bump(m, DeviceKey(e.ip, e.device), e.at);
    assert Next(m, e) == Bump(first, IpKey(e.ip), e.at);
  }

  lemma FirstOf(m: Buckets, e: Event, rest: seq<Event>, limits: Limits, c: Client, from: int)
    ensures var counted := IsFrom(e, c) && from <= e.at <= from + WINDOW && Admits(m, limits, e.ip, e.device, e.at);
      AdmittedFrom(m, [e] + rest, limits, c, from)
      == (if counted then 1 else 0) + AdmittedFrom(Next(m, e), rest, limits, c, from)
  {
    assert ([e] + rest)[1..] == rest;
  }

  lemma RepeatOneMore(e: Event, n: nat, rest: seq<Event>)
    ensures Repeat(e, n + 1) + rest == [e] + (Repeat(e, n) + rest)
  {
  }

  // Requests at one instant of a window all pass while there is room, and the rest follows.
  lemma {:induction false} Burst(m: Buckets, e: Event, n: nat, rest: seq<Event>, limits: Limits, from: int, spent: nat, end: int)
    returns (after: Buckets)
    requires e.Request? && DeviceKey(e.ip, e.device) != IpKey(e.ip) && m == Standing(e.ip, e.device, spent, end)
    requires from <= e.at <= from + WINDOW && e.at <= end && spent + n <= limits.perDevice <= limits.perIp
    ensures after == Standing(e.ip, e.device, spent + n, end)
    ensures AdmittedFrom(m, Repeat(e, n) + rest, limits, OneDevice(e.ip, e.device), from)
         == n + AdmittedFrom(after, rest, limits, OneDevice(e.ip, e.device), from)
    decreases n
  {
    if n == 0 {
      after := m;
      assert Repeat(e, 0) + rest == rest;
    } else {
      RepeatOneMore(e, n - 1, rest);
      OneMore(m, e, spent, end, limits);
      FirstOf(m, e, Repeat(e, n - 1) + rest, limits, OneDevice(e.ip, e.device), from);
      after := Burst(Next(m, e), e, n - 1, rest, limits, from, spent + 1, end);
    }
  }

  // The tight run: one request opens a window before the interval; the rest of the limit is spent
  // at the window's last instant and a full limit right after it.
  function Squeeze(ip: string, device: string, others: nat): seq<Event> {
    var last, late := Request(ip, device, WINDOW), Request(ip, device, WINDOW + 1);
    [Request(ip, device, 0)] + (Repeat(last, others) + ([late] + (Repeat(late, others) + [])))
  }

  lemma SqueezeOrdered(ip: string, device: string, others: nat)
    ensures Ordered(Squeeze(ip, device, others))
  {
  }

  // A full limit right after a window that was used up.
  lemma NextWindow(late: Event, limits: Limits)
    requires late.Request? && late.at == WINDOW + 1 && DeviceKey(late.ip, late.device) != IpKey(late.ip)
    requires 1 <= limits.perDevice <= limits.perIp
    ensures AdmittedFrom(Standing(late.ip, late.device, limits.perDevice, WINDOW),
                         [late] + (Repeat(late, limits.perDevice - 1) + []), limits, OneDevice(late.ip, late.device), 1)
         == limits.perDevice
  {
    OneMore(Standing(late.ip, late.device, limits.perDevice, WINDOW), late, limits.perDevice, WINDOW, limits);
    FirstOf(Standing(late.ip, late.device, limits.perDevice, WINDOW), late, Repeat(late, limits.perDevice - 1) + [], limits,
            OneDevice(late.ip, late.device), 1);
    var after := Burst(Standing(late.ip, late.device, 1, 2 * WINDOW + 1), late, limits.perDevice - 1, [], limits, 1, 1, 2 * WINDOW + 1);
  }

  // The opening request is before the interval.
  lemma Opening(ip: string, device: string, rest: seq<Event>, limits: Limits)
    requires DeviceKey(ip, device) != IpKey(ip)
    ensures AdmittedWithin([Request(ip, device, 0)] + rest, limits, OneDevice(ip, device), 1)
         == AdmittedFrom(Standing(ip, device, 1, WINDOW), rest, limits, OneDevice(ip, device), 1)
  {
    var open, c := Request(ip, device, 0), OneDevice(ip, device);
    assert [] + ([open] + rest) == [open] + rest;
    CountSplits([], [open] + rest, limits, c, 1);
    FirstOf(map[], open, rest, limits, c, 1);
    var first := Bump(map[], DeviceKey(ip, device), 0);
    assert Next(map[], open) == Bump(first, IpKey(ip), 0) == Standing(ip, device, 1, WINDOW);
  }

  /** The cap is reached, by every client whose two bucket keys differ. */
  lemma BoundIsTight(ip: string, device: string, limits: Limits)
    requires 1 <= limits.perDevice <= limits.perIp && DeviceKey(ip, device) != IpKey(ip)
    ensures Ordered(Squeeze(ip, device, limits.perDevice - 1))
    ensures AdmittedWithin(Squeeze(ip, device, limits.perDevice - 1), limits, OneDevice(ip, device), 1) == Cap(limits.perDevice)
  {
    SqueezeOrdered(ip, device, limits.perDevice - 1);
    SqueezeCounts(ip, device, limits, limits.perDevice - 1);
  }

  lemma SqueezeCounts(ip: string, device: string, limits: Limits, others: nat)
    requires others + 1 == limits.perDevice <= limits.perIp && DeviceKey(ip, device) != IpKey(ip)
    ensures AdmittedWithin(Squeeze(ip, device, others), limits, OneDevice(ip, device), 1) == 2 * others + 1
  {
    var last, late := Request(ip, device, WINDOW), Request(ip, device, WINDOW + 1);
    var tail := [late] + (Repeat(late, others) + []);
    Opening(ip, device, Repeat(last, others) + tail, limits);
    var after := Burst(Standing(ip, device, 1, WINDOW), last, others, tail, limits, 1, 1, WINDOW);
    NextWindow(late, limits);
  }

  // ---- The bound of an address is met too ------------------------------------------------

  // Device ids of different lengths, none of whose keys is an address key.
  function Visitor(j: nat): (d: string)
    ensures |d| == j + 3
  {
    seq(j + 3, _ => 'x')
  }

  lemma VisitorKeys(ip: string, j: nat, k: nat)
    requires j != k
    ensures DeviceKey(ip, Visitor(j)) != DeviceKey(ip, Visitor(k))
    ensures DeviceKey(ip, Visitor(j)) != IpKey(ip)
  {
    assert |DeviceKey(ip, Visitor(j))| == |ip| + 1 + (j + 3) && |DeviceKey(ip, Visitor(k))| == |ip| + 1 + (k + 3);
    assert |IpKey(ip)| == |ip| + 3;
  }

  // The address has spent so much of the window that ends at `end`; visitors from `next` on are new.
  ghost predicate Visited(m: Buckets, ip: string, spent: nat, end: int, next: nat) {
    && (if spent == 0 then IpKey(ip) !in m else IpKey(ip) in m && m[IpKey(ip)] == Bucket(spent, end))
    && forall j :: j >= next ==> DeviceKey(ip, Visitor(j)) !in m
  }

  // A request of a new visitor: it is let through as long as the address has room.
  lemma OneVisit(m: Buckets, ip: string, limits: Limits, at: int, spent: nat, end: int, next: nat)
    requires Visited(m, ip, spent, end, next) && limits.perDevice >= 1
    ensures var e := Request(ip, Visitor(next), at);
      if spent > 0 && at <= end then
        Visited(Next(m, e), ip, spent + 1, end, next + 1) && (spent < limits.perIp ==> Admits(m, limits, ip, e.device, at))
      else
        Visited(Next(m, e), ip, 1, at + WINDOW, next + 1) && (1 <= limits.perIp ==> Admits(m, limits, ip, e.device, at))
  {
    var key := DeviceKey(ip, Visitor(next));
    VisitorKeys(ip, next, next + 1);
    var first := Bump(m, key, at);
    assert first == m[key := Bucket(1, at + WINDOW)];
    assert Next(m, Request(ip, Visitor(next), at)) == Bump(first, IpKey(ip), at);
    forall j | j >= next + 1 ensures DeviceKey(ip, Visitor(j)) !in Bump(first, IpKey(ip), at) {
      VisitorKeys(ip, j, next);
    }
  }

  // n new visitors at one instant, from number `next` on.
  function Visits(ip: string, at: int, n: nat, next: nat): (es: seq<Event>)
    ensures |es| == n && forall i :: 0 <= i < n ==> es[i] == Request(ip, Visitor(next + i), at)
  {
    if n == 0 then [] else [Request(ip, Visitor(next), at)] + Visits(ip, at, n - 1, next + 1)
  }

  // Visitors that all find room in the running window, and the rest of the run behind them.
  lemma {:induction false} Crowd(m: Buckets, ip: string, limits: Limits, from: int, at: int, n: nat, spent: nat, end: int,
                                 next: nat, rest: seq<Event>) returns (after: Buckets)
    requires Visited(m, ip, spent, end, next) && limits.perDevice >= 1
    requires from <= at <= from + WINDOW && 1 <= spent && at <= end && spent + n <= limits.perIp
    ensures Visited(after, ip, spent + n, end, next + n)
    ensures AdmittedFrom(m, Visits(ip, at, n, next) + rest, limits, WholeIp(ip), from)
         == n + AdmittedFrom(after, rest, limits, WholeIp(ip), from)
    decreases n
  {
    if n == 0 {
      after := m;
      assert Visits(ip, at, 0, next) + rest == rest;
    } else {
      var e := Request(ip, Visitor(next), at);
      var more := Visits(ip, at, n - 1, next + 1) + rest;
      assert Visits(ip, at, n, next) + rest == [e] + more;
      OneVisit(m, ip, limits, at, spent, end, next);
      FirstOf(m, e, more, limits, WholeIp(ip), from);
      after := Crowd(Next(m, e), ip, limits, from, at, n - 1, spent + 1, end, next + 1, rest);
    }
  }

  // One visitor opens a window before the interval, others spend the rest of it at its last instant
  // and a full limit right after it.
  function CrowdedRun(ip: string, others: nat): seq<Event> {
    Visits(ip, 0, 1, 0) + (Visits(ip, WINDOW, others, 1) + Visits(ip, WINDOW + 1, others + 1, others + 1))
  }

  // A full limit of new visitors in a window of their own.
  lemma FullWindow(m: Buckets, ip: string, limits: Limits, spent: nat, next: nat)
    requires Visited(m, ip, spent, WINDOW, next) && 1 <= spent && 1 <= limits.perDevice && 1 <= limits.perIp
    ensures AdmittedFrom(m, Visits(ip, WINDOW + 1, limits.perIp, next), limits, WholeIp(ip), 1) == limits.perIp
  {
    var limit, at := limits.perIp, WINDOW + 1;
    var e, more := Request(ip, Visitor(next), at), Visits(ip, at, limit - 1, next + 1) + [];
    assert Visits(ip, at, limit, next) == [e] + more;
    OneVisit(m, ip, limits, at, spent, WINDOW, next);
    FirstOf(m, e, more, limits, WholeIp(ip), 1);
    var after := Crowd(Next(m, e), ip, limits, 1, at, limit - 1, 1, at + WINDOW, next + 1, []);
  }

  lemma CrowdOrdered(ip: string, others: nat)
    ensures Ordered(CrowdedRun(ip, others))
  {
  }

  // The opening visitor is before the interval.
  lemma CrowdOpens(ip: string, limits: Limits, tail: seq<Event>)
    ensures AdmittedWithin(Visits(ip, 0, 1, 0) + tail, limits, WholeIp(ip), 1)
         == AdmittedFrom(Next(map[], Request(ip, Visitor(0), 0)), tail, limits, WholeIp(ip), 1)
  {
    var open := Request(ip, Visitor(0), 0);
    assert Visits(ip, 0, 1, 0) + tail == [] + ([open] + tail);
    CountSplits([], [open] + tail, limits, WholeIp(ip), 1);
    FirstOf(map[], open, tail, limits, WholeIp(ip), 1);
  }

  /** The cap of an address over all device ids is reached, whatever the limit of one device. */
  lemma IpBoundIsTight(ip: string, limits: Limits)
    requires 1 <= limits.perDevice && 1 <= limits.perIp
    ensures Ordered(CrowdedRun(ip, limits.perIp - 1))
    ensures AdmittedWithin(CrowdedRun(ip, limits.perIp - 1), limits, WholeIp(ip), 1) == Cap(limits.perIp)
  {
    var limit := limits.perIp;
    var open := Request(ip, Visitor(0), 0);
    var second := Visits(ip, WINDOW + 1, limit, limit);
    CrowdOrdered(ip, limit - 1);
    CrowdOpens(ip, limits, Visits(ip, WINDOW, limit - 1, 1) + second);
    OneVisit(map[], ip, limits, 0, 0, 0, 0);
    var after := Crowd(Next(map[], open), ip, limits, 1, WINDOW, limit - 1, 1, WINDOW, 1, second);
    FullWindow(after, ip, limits, limit, limit);
  }

  // ---- Which clients share a bucket --------------------------------------------------------

  // The shorter address, a colon and more make up the longer; the device id makes up for it.
  ghost predicate Nested(ip: string, rest: string, ip2: string, rest2: string) {
    exists x: string :: ip2 == ip + ":" + x && rest == x + ":" + rest2
  }

  lemma SameJoin(a: string, b: string, c: string, d: string)
    ensures a + ":" + b == c + ":" + d <==> (a == c && b == d) || Nested(a, b, c, d) || Nested(c, d, a, b)
  {
    if Nested(a, b, c, d) {
      var x :| c == a + ":" + x && b == x + ":" + d;
      assert a + ":" + (x + ":" + d) == a + ":" + x + ":" + d;
    } else if Nested(c, d, a, b) {
      var x :| a == c + ":" + x && d == x + ":" + b;
      assert c + ":" + (x + ":" + b) == c + ":" + x + ":" + b;
    } else if a + ":" + b == c + ":" + d {
      if |a| < |c| {
        NestedJoin(a, b, c, d);
      } else if |c| < |a| {
        NestedJoin(c, d, a, b);
      } else {
        var s, t := a + ":" + b, c + ":" + d;
        assert s[..|a|] == a && t[..|a|] == c && s[|a| + 1..] == b && t[|a| + 1..] == d;
      }
    }
  }

  lemma NestedJoin(a: string, b: string, c: string, d: string)
    requires a + ":" + b == c + ":" + d && |a| < |c|
    ensures Nested(a, b, c, d)
  {
    var s, t := a + ":" + b, c + ":" + d;
    var x := c[|a| + 1..];
    assert s[..|a|] == a && t[..|a|] == c[..|a|] && s[|a|] == ':' && t[|a|] == c[|a|];
    assert c == c[..|a|] + [c[|a|]] + x;
    assert s[|a| + 1..] == b && t[|a| + 1..] == x + ":" + d;
  }

  /** Exactly which keys are the same string. */
  lemma SharedKeys(ip: string, device: string, ip2: string, device2: string)
    ensures DeviceKey(ip, device) == DeviceKey(ip2, device2) <==>
      (ip == ip2 && device == device2) || Nested(ip, device, ip2, device2) || Nested(ip2, device2, ip, device)
    ensures DeviceKey(ip, device) == IpKey(ip2) <==> (ip == "ip" && device == ip2) || Nested("ip", ip2, ip, device)
    ensures IpKey(ip) == IpKey(ip2) <==> ip == ip2
  {
    SameJoin(ip, device, ip2, device2);
    SameJoin(ip, device, "ip", ip2);
    SameJoin("ip", ip, "ip", ip2);
    assert IpKey(ip2) == "ip" + ":" + ip2 && IpKey(ip) == "ip" + ":" + ip;
    if x: string :| "ip" == ip + ":" + x {
      assert "ip"[|ip|] == ':';
    }
    if x: string :| ip == ip2 + ":" + x {
      assert |ip| > |ip2|;
    }
  }

  /** Addresses without a colon share a device bucket only as one client, and none with an address. */
  lemma PlainAddressesApart(ip: string, device: string, ip2: string, device2: string)
    requires ':' !in ip && ':' !in ip2 && ip != "ip"
    ensures DeviceKey(ip, device) == DeviceKey(ip2, device2) <==> ip == ip2 && device == device2
    ensures DeviceKey(ip, device) != IpKey(ip2)
  {
    SharedKeys(ip, device, ip2, device2);
  }

  /** Others do: two IPv6 addresses, and a client that calls its address "ip". */
  lemma SharedKeysHappen()
    ensures DeviceKey("::1", "2:x") == DeviceKey("::1:2", "x")
    ensures DeviceKey("ip", "203.0.113.7") == IpKey("203.0.113.7")
  {
  }

  ghost predicate SharesBucket(ip: string, device: string, ip2: string, device2: string) {
    || DeviceKey(ip, device) == DeviceKey(ip2, device2) || DeviceKey(ip, device) == IpKey(ip2)
    || IpKey(ip) == DeviceKey(ip2, device2) || IpKey(ip) == IpKey(ip2)
  }

  // No request of the other client, whatever the buckets and limits, changes a decision on this one.
  ghost predicate Independent(ip: string, device: string, ip2: string, device2: string) {
    forall m, limits, at, now :: at <= now ==>
      Admits(Next(m, Request(ip2, device2, at)), limits, ip, device, now) == Admits(m, limits, ip, device, now)
  }

  /** Clients are independent exactly if none of their keys is the same string. */
  lemma IndependentExactly(ip: string, device: string, ip2: string, device2: string)
    ensures Independent(ip, device, ip2, device2) <==> !SharesBucket(ip, device, ip2, device2)
  {
    var d, i := DeviceKey(ip, device), IpKey(ip);
    if SharesBucket(ip, device, ip2, device2) {
      var alone := Bumped(map[], ip, device, 0);
      var limits := Limits(alone[d].count, alone[i].count);
      var m := Next(map[], Request(ip2, device2, 0));
      var both := Bumped(m, ip, device, 0);
      assert Admits(map[], limits, ip, device, 0);
      assert both[d].count > alone[d].count || both[i].count > alone[i].count;
      assert !Admits(m, limits, ip, device, 0);
    } else {
      forall m, limits, at, now | at <= now
        ensures Admits(Next(m, Request(ip2, device2, at)), limits, ip, device, now) == Admits(m, limits, ip, device, now)
      {
        OtherKeys(m, Next(m, Request(ip2, device2, at)), d, i, now);
      }
    }
  }

  // Two bumps look at nothing but their own buckets.
  lemma OtherKeys(m: Buckets, n: Buckets, d: string, i: string, now: int)
    requires Lookup(m, d) == Lookup(n, d) && Lookup(m, i) == Lookup(n, i)
    ensures var a, b := Bump(Bump(m, d, now), i, now), Bump(Bump(n, d, now), i, now); a[d] == b[d] && a[i] == b[i]
  {
  }

  // ---- The limiter as the source writes it ----------------------------------------------

  // Retry-After in whole seconds, at least one.
  function RetryAfter(resetAt: int, now: int): (seconds: int)
    requires now <= resetAt
    ensures 1 <= seconds && now + 1000 * seconds >= resetAt
    ensures seconds > 1 ==> now + 1000 * (seconds - 1) < resetAt
  {
    Max(1, (resetAt - now + 999) / 1000)
  }

  // Waiting as told passes the end of the window, except when the rest of the window is a positive
  // number of whole seconds: the window includes its last instant.
  lemma WaitPassesEnd(resetAt: int, now: int)
    requires now <= resetAt
    ensures resetAt < now + 1000 * RetryAfter(resetAt, now) <==> (resetAt - now) % 1000 != 0 || resetAt == now
    ensures resetAt <= now + 1000 * RetryAfter(resetAt, now)
  {
  }

  // The bucket a rejection is about: the device2s first.
  function OverKey(after: Buckets, limits: Limits, ip: string, device: string): string
    requires DeviceKey(ip, device) in after
  {
    if after[DeviceKey(ip, device)].count > limits.perDevice then DeviceKey(ip, device) else IpKey(ip)
  }

  // Whether a bucket that stands like this takes one more request then: a new window needs a limit
  // of at least one, the running one a count below the limit.
  predicate HasRoom(b: Bucket, limit: nat, later: int) {
    if b.resetAt < later then limit >= 1 else b.count < limit
  }

  // The end of the window a request is counted in.
  function WindowEnd(m: Buckets, ip: string, device: string, limits: Limits, now: int): (end: int)
    ensures end >= now
  {
    var after := Bumped(m, ip, device, now);
    after[OverKey(after, limits, ip, device)].resetAt
  }

  /** What becomes of a rejected client that comes back exactly when it was told to, nobody else
      having used its buckets: it is let through if and only if the rest of the window it was rejected
      in was not a positive number of whole seconds, that window's limit is not zero, and the other
      bucket, as the rejection left it, is below its limit or over by then. */
  lemma WaitingSuffices(m: Buckets, limits: Limits, ip: string, device: string, now: int)
    requires !Admits(m, limits, ip, device, now) && DeviceKey(ip, device) != IpKey(ip)
    ensures var after := Bumped(m, ip, device, now);
      var end := WindowEnd(m, ip, device, limits, now);
      var later := now + 1000 * RetryAfter(end, now);
      var byDevice := after[DeviceKey(ip, device)].count > limits.perDevice;
      var limit := if byDevice then limits.perDevice else limits.perIp;
      var other := if byDevice then after[IpKey(ip)] else after[DeviceKey(ip, device)];
      var otherLimit := if byDevice then limits.perIp else limits.perDevice;
      && (Admits(after, limits, ip, device, later) <==>
            ((end - now) % 1000 != 0 || end == now) && limit >= 1 && HasRoom(other, otherLimit, later))
      && (later > end ==> var over := OverKey(after, limits, ip, device); Bump(after, over, later)[over] == Bucket(1, later + WINDOW))
      && (later <= end ==> later == end && !Admits(after, limits, ip, device, later))
  {
    WaitPassesEnd(WindowEnd(m, ip, device, limits, now), now);
  }

  lemma {:induction false} RepeatStanding(ip: string, device: string, n: nat)
    requires n >= 1 && DeviceKey(ip, device) != IpKey(ip)
    ensures Run(Repeat(Request(ip, device, 0), n)) == Standing(ip, device, n, WINDOW)
  {
    var e := Request(ip, device, 0);
    assert Repeat(e, n) == Repeat(e, n - 1) + [e];
    assert Repeat(e, n)[..n - 1] == Repeat(e, n - 1);
    if n == 1 {
      var first := Bump(map[], DeviceKey(ip, device), 0);
      assert Next(map[], e) == Bump(first, IpKey(ip), 0);
    } else {
      RepeatStanding(ip, device, n - 1);
      OneMore(Standing(ip, device, n - 1, WINDOW), e, n - 1, WINDOW, Limits(0, 0));
    }
  }

  // One request more than the limit at one instant, and the retry it is told to make.
  function Patient(ip: string, device: string, limit: nat): seq<Event> {
    Repeat(Request(ip, device, 0), limit + 1) + [Request(ip, device, WINDOW)]
  }

  /** A run, for every limit, in which a client is told to come back and is rejected again. */
  lemma RejectedAgain(ip: string, device: string, limits: Limits)
    requires DeviceKey(ip, device) != IpKey(ip)
    ensures var run, n := Patient(ip, device, limits.perDevice), limits.perDevice;
      && Ordered(run) && |run| == n + 2
      && !Admitted(run, limits, n) && !Admitted(run, limits, n + 1)
      && run[n].at + 1000 * RetryAfter(WindowEnd(Run(run[..n]), ip, device, limits, 0), 0) == run[n + 1].at
  {
    var run, n := Patient(ip, device, limits.perDevice), limits.perDevice;
    var e, late := Request(ip, device, 0), Request(ip, device, WINDOW);
    PatientPrefixes(ip, device, n);
    RepeatStanding(ip, device, n + 1);
    assert Bumped(Run(run[..n]), ip, device, 0) == Standing(ip, device, n + 1, WINDOW);
    OneMore(Standing(ip, device, n + 1, WINDOW), late, n + 1, WINDOW, limits);
  }

  lemma PatientPrefixes(ip: string, device: string, n: nat)
    ensures var run, e := Patient(ip, device, n), Request(ip, device, 0);
      && |run| == n + 2 && Ordered(run) && run[n] == e && run[n + 1] == Request(ip, device, WINDOW)
      && run[..n + 1] == Repeat(e, n + 1) && Run(run[..n + 1]) == Next(Run(run[..n]), e)
  {
    var run, e := Patient(ip, device, n), Request(ip, device, 0);
    assert Repeat(e, n + 1) == Repeat(e, n) + [e];
    assert run[..n + 1][..n] == run[..n];
  }

  // Whatever the decision, the request counts in the bucket's window, or opens the next one.
  ghost predicate CountedOnce(before: Buckets, after: Buckets, key: string, now: int) {
    && key in after
    && after[key] == if key in before && now <= before[key].resetAt then Bucket(before[key].count + 1, before[key].resetAt)
                     else Bucket(1, now + 60_000)
  }

  class Limiter {
    var rateLimitBuckets: Buckets

    constructor ()
      ensures rateLimitBuckets == Run([])
    {
      rateLimitBuckets := map[];
    }

    method BumpBucket(key: string, now: int)
      modifies this
      ensures rateLimitBuckets == Bump(old(rateLimitBuckets), key, now)
      ensures rateLimitBuckets == old(rateLimitBuckets)[key :=
        if key in old(rateLimitBuckets) && old(rateLimitBuckets)[key].resetAt >= now
        then Bucket(old(rateLimitBuckets)[key].count + 1, old(rateLimitBuckets)[key].resetAt)
        else Bucket(1, now + 60_000)]
    {
      var bucket := if key in rateLimitBuckets then rateLimitBuckets[key] else Bucket(0, now + WINDOW);
      if bucket.resetAt < now {
        bucket := Bucket(0, now + WINDOW);
      }
      bucket := bucket.(count := bucket.count + 1);
      rateLimitBuckets := rateLimitBuckets[key := bucket];
    }

    /** mobileRateLimitMiddleware: None lets the request through, otherwise 429 with a delay. */
    method Handle(ip: string, device: string, now: int, limits: Limits) returns (retryAfter: Option<int>)
      modifies this
      ensures rateLimitBuckets == Next(old(rateLimitBuckets), Request(ip, device, now))
      ensures retryAfter.None? <==> Admits(old(rateLimitBuckets), limits, ip, device, now)
      ensures var d, i := DeviceKey(ip, device), IpKey(ip);
        && d in rateLimitBuckets && i in rateLimitBuckets
        && (retryAfter.None? <==> rateLimitBuckets[d].count <= limits.perDevice && rateLimitBuckets[i].count <= limits.perIp)
        && (d != i ==> CountedOnce(old(rateLimitBuckets), rateLimitBuckets, d, now) && CountedOnce(old(rateLimitBuckets), rateLimitBuckets, i, now))
        && forall k :: k != d && k != i ==> Lookup(rateLimitBuckets, k) == Lookup(old(rateLimitBuckets), k)
      ensures retryAfter.Some? ==>
        var over := if rateLimitBuckets[DeviceKey(ip, device)].count > limits.perDevice then DeviceKey(ip, device) else IpKey(ip);
        retryAfter.value == RetryAfter(rateLimitBuckets[over].resetAt, now)
    {
      BumpBucket(DeviceKey(ip, device), now);
      BumpBucket(IpKey(ip), now);
      var deviceBucket := rateLimitBuckets[DeviceKey(ip, device)];
      var ipBucket := rateLimitBuckets[IpKey(ip)];
      var deviceOver := deviceBucket.count > limits.perDevice;
      var ipOver := ipBucket.count > limits.perIp;
      if deviceOver || ipOver {
        var bucket := if deviceOver then deviceBucket else ipBucket;
        return Some(RetryAfter(bucket.resetAt, now));
      }
      return None;
    }

    method PruneRateLimitBuckets(now: int) returns (removed: nat)
      modifies this
      ensures rateLimitBuckets == Next(old(rateLimitBuckets), Prune(now))
      ensures removed == |old(rateLimitBuckets)| - |rateLimitBuckets|
      ensures forall k :: k in rateLimitBuckets <==> k in old(rateLimitBuckets) && old(rateLimitBuckets)[k].resetAt >= now
      ensures forall k :: k in rateLimitBuckets ==> rateLimitBuckets[k] == old(rateLimitBuckets)[k]
    {
      removed := 0;
      ghost var before := rateLimitBuckets;
      var todo := rateLimitBuckets.Keys;
      while todo != {}
        invariant todo <= before.Keys && todo <= rateLimitBuckets.Keys
        invariant rateLimitBuckets == map k | k in before && (k in todo || before[k].resetAt >= now) :: before[k]
        invariant removed + |rateLimitBuckets| == |before|
        decreases |todo|
      {
        var key :| key in todo;
        todo := todo - {key};
        if rateLimitBuckets[key].resetAt < now {
          ghost var was := rateLimitBuckets;
          rateLimitBuckets := rateLimitBuckets - {key};
          assert was.Keys == rateLimitBuckets.Keys + {key};
          removed := removed + 1;
        }
      }
    }
  }
}
