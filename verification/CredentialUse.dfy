/** How often one challenge or refresh token is honoured when handlers interleave at awaits. */
module CredentialUse {
  // Both handlers look the row up, go away, mark it and then mint a session; nothing but the marking
  // itself stands between two of them.
  import opened Runs

  // Reading: found the row usable. Marked: wrote used_at or revoked_at. Minted: made a session.
  datatype Phase = Reading | Marked(at: nat) | Minted(markedAt: nat) | Dropped

  // One call of a handler that found its credential usable at step readAt.
  datatype Call = Call(credential: string, readAt: nat, phase: Phase)

  // `issued` holds every credential ever made; random ones do not repeat.
  datatype State = State(clock: nat, issued: set<string>, rows: set<string>, used: set<string>, calls: seq<Call>)

  datatype Action =
    | Issue(credential: string)
    | Purge(credential: string)
    | Look(credential: string)
    | Mark(call: nat)
    | Mint(call: nat)
    | Drop(call: nat)

  function Start(): State {
    State(0, {}, {}, {}, [])
  }

  function Effect(s: State, a: Action): State {
    match a
    case Issue(c) => if c in s.issued then s else s.(issued := s.issued + {c}, rows := s.rows + {c})
    case Purge(c) => s.(rows := s.rows - {c})
    case Look(c) => if c !in s.rows || c in s.used then s else s.(calls := s.calls + [Call(c, s.clock, Reading)])
    case Mark(k) =>
      if k >= |s.calls| || !s.calls[k].phase.Reading? then s
      else s.(used := s.used + {s.calls[k].credential}, calls := s.calls[k := s.calls[k].(phase := Marked(s.clock))])
    case Mint(k) =>
      if k >= |s.calls| || !s.calls[k].phase.Marked? then s
      else s.(calls := s.calls[k := s.calls[k].(phase := Minted(s.calls[k].phase.at))])
    case Drop(k) =>
      if k >= |s.calls| || !Live(s.calls[k]) then s else s.(calls := s.calls[k := s.calls[k].(phase := Dropped)])
  }

  function Step(s: State, a: Action): State {
    Effect(s, a).(clock := s.clock + 1)
  }

  function Run(from: State, actions: seq<Action>): State {
    Fold(Step, from, actions)
  }

  predicate Live(c: Call) {
    c.phase.Reading? || c.phase.Marked?
  }

  predicate HasMarked(c: Call) {
    c.phase.Marked? || c.phase.Minted?
  }

  function MarkTime(c: Call): nat
    requires HasMarked(c)
  {
    if c.phase.Marked? then c.phase.at else c.phase.markedAt
  }

  // Whatever was usable for d had not been marked by c.
  ghost predicate ReadBeforeMark(c: Call, d: Call) {
    c.credential == d.credential && HasMarked(c) ==> d.readAt < MarkTime(c)
  }

  ghost predicate Inv(s: State) {
    && s.rows <= s.issued
    && (forall k :: 0 <= k < |s.calls| ==> s.calls[k].credential in s.issued && s.calls[k].readAt < s.clock)
    && (forall k :: 0 <= k < |s.calls| && HasMarked(s.calls[k]) ==> s.calls[k].credential in s.used)
    && (forall k, l :: 0 <= k < |s.calls| && 0 <= l < |s.calls| ==> ReadBeforeMark(s.calls[k], s.calls[l]))
  }

  lemma StepKeepsInv(s: State, a: Action)
    requires Inv(s)
    ensures Inv(Step(s, a))
  {
    var t := Step(s, a);
    forall k, l | 0 <= k < |t.calls| && 0 <= l < |t.calls| ensures ReadBeforeMark(t.calls[k], t.calls[l]) {
      if k < |s.calls| && l < |s.calls| {
        assert ReadBeforeMark(s.calls[k], s.calls[l]);
      }
    }
  }

  lemma {:induction false} RunKeepsInv(from: State, actions: seq<Action>)
    requires Inv(from)
    ensures Inv(Run(from, actions))
    decreases |actions|
  {
    if actions != [] {
      StepKeepsInv(from, actions[0]);
      RunKeepsInv(Step(from, actions[0]), actions[1..]);
    }
  }

  /** Two calls that both got a session for one credential overlapped: each had found it usable
      before the other marked it. Calls that do not overlap never do. */
  lemma SecondUseOverlaps(actions: seq<Action>, k: nat, l: nat)
    requires var calls := Run(Start(), actions).calls;
      k < |calls| && l < |calls| && k != l && calls[k].credential == calls[l].credential
      && calls[k].phase.Minted? && calls[l].phase.Minted?
    ensures var calls := Run(Start(), actions).calls;
      calls[k].readAt < calls[l].phase.markedAt && calls[l].readAt < calls[k].phase.markedAt
  {
    RunKeepsInv(Start(), actions);
    var calls := Run(Start(), actions).calls;
    assert ReadBeforeMark(calls[k], calls[l]) && ReadBeforeMark(calls[l], calls[k]);
  }

  // A session for the credential that is minted after state s.
  ghost predicate LaterSession(s: State, credential: string, actions: seq<Action>) {
    var t := Run(s, actions);
    exists k :: 0 <= k < |t.calls| && t.calls[k].credential == credential && t.calls[k].phase.Minted?
      && !(k < |s.calls| && s.calls[k].phase.Minted?)
  }

  // A call that found the credential usable is still under way.
  predicate UnderWay(s: State, credential: string) {
    exists k :: 0 <= k < |s.calls| && s.calls[k].credential == credential && Live(s.calls[k])
  }

  // Nothing under way for a used credential since a state with `known` calls: none of them can
  // come to a session any more.
  ghost predicate Settled(s: State, credential: string, was: seq<Call>) {
    && credential in s.used && |was| <= |s.calls| && !UnderWay(s, credential)
    && forall k :: 0 <= k < |s.calls| && s.calls[k].credential == credential ==> k < |was| && s.calls[k] == was[k]
  }

  lemma StepKeepsSettled(s: State, a: Action, credential: string, was: seq<Call>)
    requires Settled(s, credential, was)
    ensures Settled(Step(s, a), credential, was)
  {
    var t := Step(s, a);
    forall k | 0 <= k < |t.calls| && t.calls[k].credential == credential
      ensures k < |was| && t.calls[k] == was[k] && !Live(t.calls[k])
    {
      assert k < |s.calls| && s.calls[k].credential == credential;
    }
  }

  lemma {:induction false} RunKeepsSettled(from: State, actions: seq<Action>, credential: string, was: seq<Call>)
    requires Settled(from, credential, was)
    ensures Settled(Run(from, actions), credential, was)
    decreases |actions|
  {
    if actions != [] {
      StepKeepsSettled(from, actions[0], credential, was);
      RunKeepsSettled(Step(from, actions[0]), actions[1..], credential, was);
    }
  }

  /** Exactly when a used credential is used up: another session can come of it if and only if a call
      that had found it usable is still under way. */
  lemma UsedUp(s: State, credential: string)
    requires credential in s.used
    ensures (exists actions :: LaterSession(s, credential, actions)) <==> UnderWay(s, credential)
  {
    if k :| 0 <= k < |s.calls| && s.calls[k].credential == credential && Live(s.calls[k]) {
      FoldTwo(Step, s, Mark(k), Mint(k));
      var t := Step(Step(s, Mark(k)), Mint(k));
      assert Run(s, [Mark(k), Mint(k)]) == t;
      assert t.calls[k].phase.Minted?;
      assert LaterSession(s, credential, [Mark(k), Mint(k)]);
    } else {
      forall actions ensures !LaterSession(s, credential, actions) {
        RunKeepsSettled(s, actions, credential, s.calls);
      }
    }
  }

  // Two calls that look before either marks.
  function Overlapping(c: string): seq<Action> {
    [Issue(c), Look(c), Look(c), Mark(0), Mint(0), Mark(1), Mint(1)]
  }

  /** Such a pair, from the start: both get their session. */
  lemma OverlapHappens(c: string)
    ensures Run(Start(), Overlapping(c)).calls == [Call(c, 1, Minted(3)), Call(c, 2, Minted(5))]
  {
    var a := Overlapping(c);
    var s3 := Step(Step(Step(Start(), a[0]), a[1]), a[2]);
    var s6 := Step(Step(Step(s3, a[3]), a[4]), a[5]);
    assert s3 == State(3, {c}, {c}, {}, [Call(c, 1, Reading), Call(c, 2, Reading)]);
    assert s6 == State(6, {c}, {c}, {c}, [Call(c, 1, Minted(3)), Call(c, 2, Marked(5))]);
    assert a == [a[0], a[1], a[2]] + ([a[3], a[4], a[5]] + [a[6]]);
    FoldThree(Step, Start(), a[0], a[1], a[2], [a[3], a[4], a[5]] + [a[6]]);
    FoldThree(Step, s3, a[3], a[4], a[5], [a[6]]);
    FoldOne(Step, s6, a[6]);
  }
}
