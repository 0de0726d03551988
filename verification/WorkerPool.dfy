/** mapLimit: a pool of workers that share the counter `next` and the array `out`. A worker runs
    undisturbed between two awaits, so a run is a sequence of worker numbers, one per stretch. */
module WorkerPool {
  import opened Wrappers

  // What fn(items[i]) comes to. A rejection with null or undefined has no `message` to read.
  datatype Outcome<R> = Value(value: R) | Threw(message: string) | ThrewNullish

  datatype Cell<R> = Result(value: R) | ErrorRecord(message: string)

  // Waiting: suspended on the call for the claimed index. Crashed: left by an exception.
  datatype Worker = NotStarted | Waiting(index: nat) | Finished | Crashed

  datatype State<R> = State(next: nat, out: seq<Option<Cell<R>>>, workers: seq<Worker>, claims: seq<nat>)

  function Width(limit: int, n: nat): nat {
    Max(1, Min(limit, n))
  }

  function Start<R>(limit: int, n: nat): State<R> {
    State(0, seq(n, i => None), seq(Width(limit, n), i => NotStarted), [])
  }

  predicate Enabled<R>(s: State<R>, w: nat) {
    w < |s.workers| && (s.workers[w].NotStarted? || s.workers[w].Waiting?)
  }

  // The head of the while loop: claim the next index and call fn, or leave.
  function Claim<R>(s: State<R>, w: nat): State<R>
    requires w < |s.workers|
  {
    if s.next < |s.out|
    then s.(next := s.next + 1, workers := s.workers[w := Waiting(s.next)], claims := s.claims + [s.next])
    else s.(workers := s.workers[w := Finished])
  }

  predicate Indexed<R>(s: State<R>, outcomes: seq<Outcome<R>>) {
    |outcomes| == |s.out| && forall w :: 0 <= w < |s.workers| && s.workers[w].Waiting? ==> s.workers[w].index < |s.out|
  }

  /** One stretch of worker w, from its resumption to its next await or its end. */
  function Step<R>(s: State<R>, outcomes: seq<Outcome<R>>, w: nat): State<R>
    requires Indexed(s, outcomes)
  {
    if !Enabled(s, w) then s
    else match s.workers[w]
      case Waiting(i) =>
        (match outcomes[i]
         case Value(v) => Claim(s.(out := s.out[i := Some(Result(v))]), w)
         case Threw(m) => Claim(s.(out := s.out[i := Some(ErrorRecord(m))]), w)
         case ThrewNullish => s.(workers := s.workers[w := Crashed]))
      case _ => Claim(s, w)
  }

  function Run<R>(limit: int, outcomes: seq<Outcome<R>>, schedule: seq<nat>): (s: State<R>)
    ensures Indexed(s, outcomes)
  {
    if schedule == [] then Start(limit, |outcomes|)
    else Step(Run(limit, outcomes, schedule[..|schedule| - 1]), outcomes, schedule[|schedule| - 1])
  }

  predicate Done<R>(s: State<R>) {
    forall w :: 0 <= w < |s.workers| ==> s.workers[w].Finished? || s.workers[w].Crashed?
  }

  predicate Rejected<R>(s: State<R>) {
    exists w :: 0 <= w < |s.workers| && s.workers[w].Crashed?
  }

  function CellOf<R>(o: Outcome<R>): Option<Cell<R>> {
    match o
    case Value(v) => Some(Result(v))
    case Threw(m) => Some(ErrorRecord(m))
    case ThrewNullish => None
  }

  // ---- The invariant --------------------------------------------------------------------

  ghost predicate HeldBy<R>(s: State<R>, w: nat, i: nat) {
    w < |s.workers| && s.workers[w] == Waiting(i)
  }

  ghost predicate Settled<R>(s: State<R>, outcomes: seq<Outcome<R>>, i: nat)
    requires i < |s.out| == |outcomes|
  {
    s.out[i] == CellOf(outcomes[i]) && (outcomes[i].ThrewNullish? ==> Rejected(s))
  }

  ghost predicate Inv<R>(s: State<R>, outcomes: seq<Outcome<R>>) {
    && Indexed(s, outcomes) && |s.workers| >= 1
    && s.next <= |s.out|
    && s.claims == seq(s.next, i => i)
    && (forall v, w :: 0 <= v < w < |s.workers| && s.workers[v].Waiting? && s.workers[w].Waiting? ==>
          s.workers[v].index != s.workers[w].index)
    && (forall w :: 0 <= w < |s.workers| && s.workers[w].Waiting? ==> s.workers[w].index < s.next)
    && (forall w :: 0 <= w < |s.workers| && s.workers[w].Finished? ==> s.next == |s.out|)
    && (forall i :: 0 <= i < s.next ==> Settled(s, outcomes, i) || exists w :: HeldBy(s, w, i))
    && (forall i :: 0 <= i < |s.out| ==> s.out[i].None? || s.out[i] == CellOf(outcomes[i]))
    && (Rejected(s) ==> exists i :: 0 <= i < |outcomes| && outcomes[i].ThrewNullish?)
  }

  lemma StartInv<R>(limit: int, outcomes: seq<Outcome<R>>)
    ensures Inv(Start(limit, |outcomes|), outcomes)
  {
  }

  lemma ClaimKeepsInv<R>(s: State<R>, outcomes: seq<Outcome<R>>, w: nat)
    requires Inv(s, outcomes) && w < |s.workers| && s.workers[w].NotStarted?
    ensures Inv(Claim(s, w), outcomes)
  {
    var t := Claim(s, w);
    forall i | 0 <= i < t.next ensures Settled(t, outcomes, i) || exists v :: HeldBy(t, v, i) {
      if i == s.next {
        assert HeldBy(t, w, i);
      } else if !Settled(s, outcomes, i) {
        var v :| HeldBy(s, v, i);
        assert HeldBy(t, v, i);
      } else if v :| 0 <= v < |s.workers| && s.workers[v].Crashed? {
        assert t.workers[v].Crashed?;
      }
    }
  }

  // Writing the result of a call frees its worker.
  lemma SettleKeepsInv<R>(s: State<R>, outcomes: seq<Outcome<R>>, w: nat)
    requires Inv(s, outcomes) && w < |s.workers| && s.workers[w].Waiting?
    ensures var i := s.workers[w].index;
      var end := if outcomes[i].ThrewNullish? then Crashed else NotStarted;
      Inv(s.(out := s.out[i := CellOf(outcomes[i])], workers := s.workers[w := end]), outcomes)
  {
    var i := s.workers[w].index;
    var end := if outcomes[i].ThrewNullish? then Crashed else NotStarted;
    var t := s.(out := s.out[i := CellOf(outcomes[i])], workers := s.workers[w := end]);
    assert Rejected(s) ==> Rejected(t) by {
      if v :| 0 <= v < |s.workers| && s.workers[v].Crashed? {
        assert t.workers[v].Crashed?;
      }
    }
    assert outcomes[i].ThrewNullish? ==> t.workers[w].Crashed?;
    forall k | 0 <= k < t.next ensures Settled(t, outcomes, k) || exists v :: HeldBy(t, v, k) {
      if k != i && !Settled(s, outcomes, k) {
        var v :| HeldBy(s, v, k);
        assert HeldBy(t, v, k);
      }
    }
    if Rejected(t) && !Rejected(s) {
      assert outcomes[i].ThrewNullish?;
    }
  }

  lemma StepKeepsInv<R>(s: State<R>, outcomes: seq<Outcome<R>>, w: nat)
    requires Inv(s, outcomes)
    ensures Inv(Step(s, outcomes, w), outcomes)
  {
    if Enabled(s, w) {
      if s.workers[w].Waiting? {
        var i := s.workers[w].index;
        SettleKeepsInv(s, outcomes, w);
        if outcomes[i].ThrewNullish? {
          assert s.out[i := None] == s.out;
        } else {
          var settled := s.(out := s.out[i := CellOf(outcomes[i])], workers := s.workers[w := NotStarted]);
          ClaimKeepsInv(settled, outcomes, w);
          assert settled.workers[w := Waiting(s.next)] == s.workers[w := Waiting(s.next)];
          assert settled.workers[w := Finished] == s.workers[w := Finished];
        }
      } else {
        ClaimKeepsInv(s, outcomes, w);
      }
    }
  }

  lemma {:induction false} RunKeepsInv<R>(limit: int, outcomes: seq<Outcome<R>>, schedule: seq<nat>)
    ensures Inv(Run(limit, outcomes, schedule), outcomes)
    ensures |Run(limit, outcomes, schedule).workers| == Width(limit, |outcomes|)
    ensures |Run(limit, outcomes, schedule).out| == |outcomes|
  {
    if schedule == [] {
      StartInv(limit, outcomes);
    } else {
      var n := |schedule| - 1;
      RunKeepsInv(limit, outcomes, schedule[..n]);
      StepKeepsInv(Run(limit, outcomes, schedule[..n]), outcomes, schedule[n]);
    }
  }

  // ---- Results --------------------------------------------------------------------------

  function InFlight<R>(s: State<R>): set<nat> {
    set w | 0 <= w < |s.workers| && s.workers[w].Waiting? :: w
  }

  /** In every interleaving: indices are claimed in order, each once; never more calls are open
      than the pool is wide, and no index is open twice. */
  lemma ClaimsAreExact<R>(limit: int, outcomes: seq<Outcome<R>>, schedule: seq<nat>)
    ensures var s := Run(limit, outcomes, schedule);
      && s.next <= |outcomes| && s.claims == seq(s.next, i => i)
      && |InFlight(s)| <= |s.workers|
      && |s.workers| == (if limit <= 1 || |outcomes| <= 1 then 1 else if limit <= |outcomes| then limit else |outcomes|)
      && forall v, w :: v in InFlight(s) && w in InFlight(s) && v != w ==> s.workers[v].index != s.workers[w].index
  {
    var s := Run(limit, outcomes, schedule);
    RunKeepsInv(limit, outcomes, schedule);
    SubrangeSize(InFlight(s), |s.workers|);
  }

  lemma {:induction false} SubrangeSize(ws: set<nat>, n: nat)
    requires forall w :: w in ws ==> w < n
    ensures |ws| <= n
  {
    if n > 0 {
      SubrangeSize(ws - {n - 1}, n - 1);
    } else {
      assert ws == {};
    }
  }

  lemma DoneState<R>(s: State<R>, outcomes: seq<Outcome<R>>)
    requires Inv(s, outcomes) && Done(s)
    ensures Rejected(s) <==> exists i :: 0 <= i < |outcomes| && outcomes[i].ThrewNullish?
    ensures !Rejected(s) ==>
      s.next == |outcomes| && forall i :: 0 <= i < |outcomes| ==> s.out[i] == CellOf(outcomes[i]) != None
  {
    if !Rejected(s) {
      assert s.workers[0].Finished?;
      forall i | 0 <= i < |outcomes| ensures s.out[i] == CellOf(outcomes[i]) && !outcomes[i].ThrewNullish? {
        assert forall w :: !HeldBy(s, w, i);
        assert Settled(s, outcomes, i);
      }
    }
  }

  /** Once no worker can move, the pool rejected exactly if some call threw null or undefined;
      otherwise every index was claimed and holds its result or its error record. */
  lemma DoneMeansComplete<R>(limit: int, outcomes: seq<Outcome<R>>, schedule: seq<nat>)
    requires Done(Run(limit, outcomes, schedule))
    ensures var s := Run(limit, outcomes, schedule);
      && (Rejected(s) <==> exists i :: 0 <= i < |outcomes| && outcomes[i].ThrewNullish?)
      && (!Rejected(s) ==> s.next == |outcomes| && forall i :: 0 <= i < |outcomes| ==> s.out[i] == CellOf(outcomes[i]) != None)
  {
    var s := Run(limit, outcomes, schedule);
    RunKeepsInv(limit, outcomes, schedule);
    DoneState(s, outcomes);
  }

  function Active(workers: seq<Worker>): nat {
    if workers == [] then 0
    else
      var last := workers[|workers| - 1];
      Active(workers[..|workers| - 1]) + (if last.NotStarted? || last.Waiting? then 1 else 0)
  }

  lemma {:induction false} ActiveUpdate(workers: seq<Worker>, w: nat, to: Worker)
    requires w < |workers| && (workers[w].NotStarted? || workers[w].Waiting?)
    ensures Active(workers[w := to]) == Active(workers) - (if to.NotStarted? || to.Waiting? then 0 else 1)
  {
    var n := |workers| - 1;
    if w == n {
      assert workers[w := to][..n] == workers[..n];
    } else {
      assert workers[w := to][..n] == workers[..n][w := to];
      ActiveUpdate(workers[..n], w, to);
    }
  }

  lemma {:induction false} ActiveAtStart(n: nat)
    ensures Active(seq(n, i => NotStarted)) == n
  {
    if n > 0 {
      assert seq(n, i => NotStarted)[..n - 1] == seq(n - 1, i => NotStarted);
      ActiveAtStart(n - 1);
    }
  }

  // How many entries of the schedule moved a worker.
  function Moves<R>(limit: int, outcomes: seq<Outcome<R>>, schedule: seq<nat>): nat {
    if schedule == [] then 0
    else
      var n := |schedule| - 1;
      Moves(limit, outcomes, schedule[..n]) + (if Enabled(Run(limit, outcomes, schedule[..n]), schedule[n]) then 1 else 0)
  }

  lemma StepMoves<R>(s: State<R>, outcomes: seq<Outcome<R>>, w: nat)
    requires Indexed(s, outcomes) && s.next <= |s.out| && Enabled(s, w)
    ensures var t := Step(s, outcomes, w);
      Active(t.workers) + |s.out| - t.next == Active(s.workers) + |s.out| - s.next - 1
  {
    ActiveUpdate(s.workers, w, Waiting(s.next));
    ActiveUpdate(s.workers, w, Finished);
    ActiveUpdate(s.workers, w, Crashed);
  }

  /** Every move uses up one unit of a fixed budget of one per index and one per worker, so no
      interleaving goes on for ever, and a run that neither crashes nor stops early spends it all. */
  lemma Termination<R>(limit: int, outcomes: seq<Outcome<R>>, schedule: seq<nat>)
    ensures var s := Run(limit, outcomes, schedule);
      && Moves(limit, outcomes, schedule) + Active(s.workers) + (|outcomes| - s.next) == |outcomes| + Width(limit, |outcomes|)
      && Moves(limit, outcomes, schedule) <= |outcomes| + Width(limit, |outcomes|)
      && (Done(s) && !Rejected(s) ==> Moves(limit, outcomes, schedule) == |outcomes| + Width(limit, |outcomes|))
  {
    BudgetKept(limit, outcomes, schedule);
    RunKeepsInv(limit, outcomes, schedule);
    var s := Run(limit, outcomes, schedule);
    if Done(s) && !Rejected(s) {
      DoneMeansComplete(limit, outcomes, schedule);
      NoneActive(s.workers);
    }
  }

  lemma {:induction false} NoneActive(workers: seq<Worker>)
    requires forall w :: 0 <= w < |workers| ==> workers[w].Finished? || workers[w].Crashed?
    ensures Active(workers) == 0
  {
    if workers != [] {
      NoneActive(workers[..|workers| - 1]);
    }
  }

  lemma {:induction false} BudgetKept<R>(limit: int, outcomes: seq<Outcome<R>>, schedule: seq<nat>)
    ensures var s := Run(limit, outcomes, schedule);
      Moves(limit, outcomes, schedule) + Active(s.workers) + (|outcomes| - s.next) == |outcomes| + Width(limit, |outcomes|)
  {
    if schedule == [] {
      ActiveAtStart(Width(limit, |outcomes|));
      assert Start<R>(limit, |outcomes|).workers == seq(Width(limit, |outcomes|), i => NotStarted);
    } else {
      var n := |schedule| - 1;
      BudgetKept(limit, outcomes, schedule[..n]);
      RunKeepsInv(limit, outcomes, schedule[..n]);
      if Enabled(Run(limit, outcomes, schedule[..n]), schedule[n]) {
        StepMoves(Run(limit, outcomes, schedule[..n]), outcomes, schedule[n]);
      }
    }
  }

  // ---- The pool as the source writes it -------------------------------------------------

  // One stretch of worker w: the result of its call, if it was waiting, then the loop head.
  method Resume<R>(out: array<Option<Cell<R>>>, next: nat, workers: seq<Worker>, w: nat, outcomes: seq<Outcome<R>>,
                   ghost s: State<R>)
    returns (next': nat, workers': seq<Worker>)
    requires s.out == out[..] && s.next == next && s.workers == workers
    requires Indexed(s, outcomes) && Enabled(s, w)
    modifies out
    ensures var t := Step(s, outcomes, w);
      t.out == out[..] && t.next == next' && t.workers == workers'
  {
    next', workers' := next, workers;
    if workers[w].Waiting? {
      var idx := workers[w].index;
      match outcomes[idx] {
        case Value(v) => out[idx] := Some(Result(v));
        case Threw(m) => out[idx] := Some(ErrorRecord(m));
        case ThrewNullish =>
          workers' := workers[w := Crashed];
          return;
      }
    }
    if next < |outcomes| {
      workers' := workers[w := Waiting(next)];
      next' := next + 1;
    } else {
      workers' := workers[w := Finished];
    }
  }

  /** mapLimit with the event loop choosing freely, at every await, which worker resumes. */
  method MapLimit<R>(limit: int, outcomes: seq<Outcome<R>>) returns (out: array<Option<Cell<R>>>, rejected: bool)
    ensures fresh(out) && out.Length == |outcomes|
    ensures rejected <==> exists i :: 0 <= i < |outcomes| && outcomes[i].ThrewNullish?
    ensures !rejected ==> forall i :: 0 <= i < |outcomes| ==>
      && (outcomes[i].Value? ==> out[i] == Some(Result(outcomes[i].value)))
      && (outcomes[i].Threw? ==> out[i] == Some(ErrorRecord(outcomes[i].message)))
  {
    out := new Option<Cell<R>>[|outcomes|](_ => None);
    var next, workers := 0, seq(Width(limit, |outcomes|), i => NotStarted);
    ghost var s: State<R> := Start(limit, |outcomes|);
    StartInv(limit, outcomes);
    assert s.out == out[..];
    while exists w :: 0 <= w < |workers| && (workers[w].NotStarted? || workers[w].Waiting?)
      invariant Inv(s, outcomes)
      invariant s.next == next && s.workers == workers && s.out == out[..]
      decreases Active(s.workers) + |s.out| - s.next
    {
      var w :| 0 <= w < |workers| && (workers[w].NotStarted? || workers[w].Waiting?);
      StepKeepsInv(s, outcomes, w);
      StepMoves(s, outcomes, w);
      next, workers := Resume(out, next, workers, w, outcomes, s);
      s := Step(s, outcomes, w);
    }
    DoneState(s, outcomes);
    rejected := exists w :: 0 <= w < |workers| && workers[w].Crashed?;
    assert rejected == Rejected(s);
    assert forall i :: 0 <= i < |outcomes| ==> s.out[i] == out[i];
  }
}
