/** verifySignedRequest and purgeExpiredNonces around the nonce table, interleaved at every await. */
module NonceProtocol {
  // A handler is a flight through phases; every action below is one uninterrupted stretch of one
  // party, so a run is an arbitrary sequence of actions. The checks that involve neither the nonce
  // nor the clock (device, ban, session, body hash, signature) may drop a flight anywhere.
  import opened Wrappers
  import opened Runs

  const SKEW := 120_000           // REQUEST_CLOCK_SKEW_MS
  const CHALLENGE_TTL := 300_000  // CHALLENGE_TTL_MS

  datatype Purpose = Attestation | ApiRequest

  datatype NonceRow = NonceRow(purpose: Purpose, expiresAt: int)

  // Checked: timestamp inside the window. Looked: the replay query found nothing. Sent: the
  // insert, with its expiry already computed, is on its way to the database.
  datatype Phase = Checked | Looked | Sent(stampedAt: int)

  // purgesAtCheck counts the purges that had run when the timestamp was checked.
  datatype Flight = Flight(nonce: string, timestamp: int, checkedAt: int, purgesAtCheck: nat, phase: Phase)

  // A request whose insert succeeded; nothing but a failing device update stops it from passing.
  datatype Win = Win(flight: Flight, insertedAt: int, purgesAtInsert: nat)

  datatype State = State(now: int, rows: map<string, NonceRow>, flights: map<nat, Flight>, wins: seq<Win>, purges: nat)

  datatype Action =
    | Tick(ms: nat)
    | Arrive(id: nat, nonce: string, timestamp: int)
    | Look(id: nat)
    | Send(id: nat)
    | Insert(id: nat)
    | Drop(id: nat)
    | Challenge(nonce: string)
    | Purge

  function Start(now: int): State {
    State(now, map[], map[], [], 0)
  }

  predicate InWindow(now: int, timestamp: int) {
    -SKEW <= now - timestamp <= SKEW
  }

  /** One action; an action that is not possible changes nothing. */
  function Step(s: State, a: Action): State {
    match a
    case Tick(ms) => s.(now := s.now + ms)
    case Arrive(id, nonce, timestamp) =>
      if id in s.flights || timestamp == 0 || !InWindow(s.now, timestamp) then s
      else s.(flights := s.flights[id := Flight(nonce, timestamp, s.now, s.purges, Checked)])
    case Look(id) =>
      if id !in s.flights || !s.flights[id].phase.Checked? then s
      else
        var f := s.flights[id];
        if f.nonce in s.rows && s.rows[f.nonce].purpose.ApiRequest? then s.(flights := s.flights - {id})
        else s.(flights := s.flights[id := f.(phase := Looked)])
    case Send(id) =>
      if id !in s.flights || !s.flights[id].phase.Looked? then s
      else s.(flights := s.flights[id := s.flights[id].(phase := Sent(s.now))])
    case Insert(id) =>
      if id !in s.flights || !s.flights[id].phase.Sent? then s
      else
        var f := s.flights[id];
        var landed := s.(flights := s.flights - {id});
        if f.nonce in s.rows then landed  // the unique column rejects it, whatever the purpose
        else landed.(rows := s.rows[f.nonce := NonceRow(ApiRequest, f.phase.stampedAt + SKEW)],
                     wins := s.wins + [Win(f, s.now, s.purges)])
    case Drop(id) => s.(flights := s.flights - {id})
    case Challenge(nonce) =>
      if nonce in s.rows then s else s.(rows := s.rows[nonce := NonceRow(Attestation, s.now + CHALLENGE_TTL)])
    case Purge =>
      s.(rows := map n | n in s.rows && s.rows[n].expiresAt >= s.now :: s.rows[n], purges := s.purges + 1)
  }

  function Run(from: State, actions: seq<Action>): State {
    Fold(Step, from, actions)
  }

  // ---- The invariant --------------------------------------------------------------------

  ghost predicate SameRequest(f: Flight, g: Flight) {
    f.nonce == g.nonce && f.timestamp == g.timestamp
  }

  // The row a win wrote is still there.
  ghost predicate Guarded(s: State, w: Win) {
    && w.flight.phase.Sent?
    && w.flight.nonce in s.rows && s.rows[w.flight.nonce] == NonceRow(ApiRequest, w.flight.phase.stampedAt + SKEW)
  }

  // Or it was purged, which takes the clock past its expiry and a purge after its insert.
  ghost predicate Expired(s: State, w: Win) {
    w.flight.phase.Sent? && w.flight.phase.stampedAt + SKEW < s.now && w.purgesAtInsert < s.purges
  }

  ghost predicate Punctual(w: Win) {
    w.flight.phase.Sent? && w.flight.timestamp <= w.flight.phase.stampedAt
  }

  ghost predicate WinsGuarded(s: State) {
    forall i :: 0 <= i < |s.wins| ==>
      s.wins[i].purgesAtInsert <= s.purges && (Guarded(s, s.wins[i]) || Expired(s, s.wins[i]))
  }

  ghost predicate WinsInOrder(s: State) {
    forall i, j :: 0 <= i < j < |s.wins| && s.wins[i].flight.nonce == s.wins[j].flight.nonce ==>
      Succeeds(s.wins[i], s.wins[j])
  }

  // A flight that repeats a punctual win meets its row, or has been overtaken by a purge.
  ghost predicate RepeatsMeetRow(s: State) {
    forall i, id :: 0 <= i < |s.wins| && id in s.flights && SameRequest(s.wins[i].flight, s.flights[id]) && Punctual(s.wins[i])
      ==> Guarded(s, s.wins[i]) || s.flights[id].purgesAtCheck < s.purges
  }

  ghost predicate FlightsInTime(s: State) {
    forall id :: id in s.flights ==>
      && InWindow(s.flights[id].checkedAt, s.flights[id].timestamp) && s.flights[id].timestamp != 0
      && s.flights[id].checkedAt <= s.now && s.flights[id].purgesAtCheck <= s.purges
      && (s.flights[id].phase.Sent? ==> s.flights[id].checkedAt <= s.flights[id].phase.stampedAt <= s.now)
  }

  // And so was every request that got through.
  ghost predicate WinsInTime(s: State) {
    forall i :: 0 <= i < |s.wins| ==>
      var f := s.wins[i].flight;
      && -120_000 <= f.checkedAt - f.timestamp <= 120_000 && f.timestamp != 0
      && f.phase.Sent? && f.checkedAt <= f.phase.stampedAt <= s.wins[i].insertedAt <= s.now
  }

  ghost predicate Inv(s: State) {
    WinsGuarded(s) && WinsInOrder(s) && RepeatsMeetRow(s) && FlightsInTime(s) && WinsInTime(s)
  }

  // What a second win with the nonce of an earlier one implies.
  ghost predicate Succeeds(w: Win, later: Win) {
    && w.flight.phase.Sent?
    && w.flight.phase.stampedAt + SKEW < later.insertedAt
    && w.purgesAtInsert < later.purgesAtInsert
    && (w.flight.timestamp == later.flight.timestamp && Punctual(w) ==>
          later.flight.purgesAtCheck < later.purgesAtInsert)
  }

  // ---- Results --------------------------------------------------------------------------

  /** While a nonce's row exists, no second request with that nonce gets through: in every
      interleaving, two wins of one nonce are separated by a purge that ran after the expiry the
      first one wrote. */
  lemma OneWinPerRow(now: int, actions: seq<Action>, i: nat, j: nat)
    requires var wins := Run(Start(now), actions).wins;
      i < j < |wins| && wins[i].flight.nonce == wins[j].flight.nonce
    ensures var wins := Run(Start(now), actions).wins;
      && wins[i].flight.phase.Sent?
      && wins[i].flight.phase.stampedAt + 120_000 < wins[j].insertedAt
      && wins[i].purgesAtInsert < wins[j].purgesAtInsert
  {
    RunKeepsInv(Start(now), actions);
  }

  /** The clock window has both its sides: a request that got through was checked no more than two
      minutes before its timestamp and no more than two minutes after it. */
  lemma WinsAreInWindow(now: int, actions: seq<Action>, i: nat)
    requires i < |Run(Start(now), actions).wins|
    ensures var w := Run(Start(now), actions).wins[i];
      && w.flight.checkedAt - 120_000 <= w.flight.timestamp <= w.flight.checkedAt + 120_000
      && w.flight.phase.Sent? && w.flight.checkedAt <= w.flight.phase.stampedAt <= w.insertedAt
  {
    RunKeepsInv(Start(now), actions);
  }

  /** And nothing else is turned away by it. */
  lemma ArrivesExactly(s: State, id: nat, nonce: string, timestamp: int)
    requires id !in s.flights && timestamp != 0
    ensures id in Step(s, Arrive(id, nonce, timestamp)).flights <==>
      s.now - 120_000 <= timestamp && timestamp <= s.now + 120_000
    ensures id in Step(s, Arrive(id, nonce, timestamp)).flights ==>
      Step(s, Arrive(id, nonce, timestamp)).flights[id] == Flight(nonce, timestamp, s.now, s.purges, Checked)
  {
  }

  /** The replay query turns a request away exactly if a signed request has left the nonce. */
  lemma LooksExactly(s: State, id: nat)
    requires id in s.flights && s.flights[id].phase.Checked?
    ensures var nonce := s.flights[id].nonce;
      id !in Step(s, Look(id)).flights <==> nonce in s.rows && s.rows[nonce].purpose == ApiRequest
    ensures id in Step(s, Look(id)).flights ==> Step(s, Look(id)).flights[id] == s.flights[id].(phase := Looked)
  {
  }

  /** No request passes its check more than four minutes before or after another check it passed. */
  lemma WinsAreClose(now: int, actions: seq<Action>, i: nat, j: nat)
    requires var wins := Run(Start(now), actions).wins;
      i < |wins| && j < |wins| && wins[i].flight.timestamp == wins[j].flight.timestamp
    ensures var wins := Run(Start(now), actions).wins;
      wins[j].flight.checkedAt - wins[i].flight.checkedAt <= 240_000
  {
    WinsAreInWindow(now, actions, i);
    WinsAreInWindow(now, actions, j);
  }

  // A purge ran while this request was between its timestamp check and its insert.
  predicate Overtaken(w: Win) {
    w.flight.purgesAtCheck < w.purgesAtInsert
  }

  /** A request whose timestamp was not ahead of the expiry stamp of its first win never wins
      again, unless a purge overtakes the repetition between its check and its insert. */
  lemma NoReplay(now: int, actions: seq<Action>, i: nat, j: nat)
    requires var wins := Run(Start(now), actions).wins;
      i < j < |wins| && SameRequest(wins[i].flight, wins[j].flight) && Punctual(wins[i])
    ensures Overtaken(Run(Start(now), actions).wins[j])
  {
    RunKeepsInv(Start(now), actions);
  }

  // A run in which a request, first stamped at `stamp`, wins twice.
  ghost predicate WinsTwice(now: int, actions: seq<Action>, timestamp: int, stamp: int, overtaken: bool) {
    var wins := Run(Start(now), actions).wins;
    exists i, j :: 0 <= i < j < |wins|
      && SameRequest(wins[i].flight, wins[j].flight)
      && wins[i].flight.timestamp == timestamp && wins[i].flight.phase == Sent(stamp)
      && Overtaken(wins[j]) == overtaken
  }

  function Repetition(timestamp: int, overtaken: bool): seq<Action> {
    [Arrive(0, "nonce", timestamp)] + Rest(0) + Between(timestamp, overtaken) + Rest(1)
  }

  lemma RepetitionWins(timestamp: int, stamp: int, overtaken: bool)
    requires timestamp != 0 && InWindow(stamp, timestamp) && (!overtaken ==> timestamp > stamp)
    ensures WinsTwice(stamp, Repetition(timestamp, overtaken), timestamp, stamp, overtaken)
  {
    var first := [Arrive(0, "nonce", timestamp)] + Rest(0);
    FirstRuns(timestamp, stamp);
    FoldAppend(Step, Start(stamp), first, Between(timestamp, overtaken));
    BetweenRuns(timestamp, stamp, overtaken);
    FoldAppend(Step, Start(stamp), first + Between(timestamp, overtaken), Rest(1));
    var s3 := Run(AfterFirst(timestamp, stamp), Between(timestamp, overtaken));
    RestWins(s3, 1);
    var wins := Run(Start(stamp), Repetition(timestamp, overtaken)).wins;
    assert |wins| == 2 && wins[0] == FirstWin(timestamp, stamp);
    assert SameRequest(wins[0].flight, wins[1].flight) && Overtaken(wins[1]) == overtaken;
  }

  /** Exactly when the retention of nonces covers the timestamp window: a repetition that no purge
      overtakes can win if and only if the timestamp was ahead of the expiry stamp of the first
      win. One that a purge does overtake can win whatever the timestamp. */
  lemma ReplayExactly(timestamp: int, stamp: int)
    requires timestamp != 0 && InWindow(stamp, timestamp)
    ensures (exists now, actions :: WinsTwice(now, actions, timestamp, stamp, false)) <==> timestamp > stamp
    ensures exists now, actions :: WinsTwice(now, actions, timestamp, stamp, true)
  {
    RepetitionWins(timestamp, stamp, true);
    if timestamp > stamp {
      RepetitionWins(timestamp, stamp, false);
    } else {
      forall now, actions ensures !WinsTwice(now, actions, timestamp, stamp, false) {
        RunKeepsInv(Start(now), actions);
      }
    }
  }

  // ---- The run that repeats a request ---------------------------------------------------

  // From the replay query on, nobody else acting.
  function Rest(id: nat): seq<Action> {
    [Look(id), Send(id), Insert(id)]
  }

  lemma RestWins(s: State, id: nat)
    requires id in s.flights && s.flights[id].phase.Checked? && s.flights[id].nonce !in s.rows
    ensures var f := s.flights[id].(phase := Sent(s.now));
      Run(s, Rest(id)) == s.(rows := s.rows[f.nonce := NonceRow(ApiRequest, s.now + SKEW)],
                             flights := s.flights - {id}, wins := s.wins + [Win(f, s.now, s.purges)])
  {
    var s1 := Step(s, Look(id));
    var s2 := Step(s1, Send(id));
    var s3 := Step(s2, Insert(id));
    assert Rest(id) == [Look(id), Send(id), Insert(id)] + [];
    FoldThree(Step, s, Look(id), Send(id), Insert(id), []);
    assert s3.flights == s.flights - {id};
  }

  // After the first win: the nonce row lapses and is purged, and the same request arrives again,
  // checked before (overtaken) or after the purge.
  function Between(timestamp: int, overtaken: bool): seq<Action> {
    var lapse, again := [Tick(SKEW + 1), Purge], [Arrive(1, "nonce", timestamp)];
    if overtaken then again + lapse else lapse + again
  }

  function FirstWin(timestamp: int, stamp: int): Win {
    Win(Flight("nonce", timestamp, stamp, 0, Sent(stamp)), stamp, 0)
  }

  function AfterFirst(timestamp: int, stamp: int): State {
    State(stamp, map["nonce" := NonceRow(ApiRequest, stamp + SKEW)], map[], [FirstWin(timestamp, stamp)], 0)
  }

  function Again(timestamp: int, stamp: int, overtaken: bool): Flight {
    if overtaken then Flight("nonce", timestamp, stamp, 0, Checked)
    else Flight("nonce", timestamp, stamp + SKEW + 1, 1, Checked)
  }

  lemma FirstRuns(timestamp: int, stamp: int)
    requires timestamp != 0 && InWindow(stamp, timestamp)
    ensures Run(Start(stamp), [Arrive(0, "nonce", timestamp)] + Rest(0)) == AfterFirst(timestamp, stamp)
  {
    var arrive := [Arrive(0, "nonce", timestamp)];
    FoldAppend(Step, Start(stamp), arrive, Rest(0));
    var s1 := Step(Start(stamp), arrive[0]);
    assert Run(Start(stamp), arrive) == s1;
    RestWins(s1, 0);
    assert s1.flights - {0} == map[];
  }

  lemma BetweenRuns(timestamp: int, stamp: int, overtaken: bool)
    requires timestamp != 0 && InWindow(stamp, timestamp) && (!overtaken ==> timestamp > stamp)
    ensures Run(AfterFirst(timestamp, stamp), Between(timestamp, overtaken))
         == State(stamp + SKEW + 1, map[], map[1 := Again(timestamp, stamp, overtaken)], [FirstWin(timestamp, stamp)], 1)
  {
    var s2 := AfterFirst(timestamp, stamp);
    var again := Arrive(1, "nonce", timestamp);
    if overtaken {
      FoldAppend(Step, s2, [again], [Tick(SKEW + 1), Purge]);
      assert Run(s2, [again]) == Step(s2, again);
      FoldTwo(Step, Step(s2, again), Tick(SKEW + 1), Purge);
    } else {
      FoldAppend(Step, s2, [Tick(SKEW + 1), Purge], [again]);
      FoldTwo(Step, s2, Tick(SKEW + 1), Purge);
      var b := Step(Step(s2, Tick(SKEW + 1)), Purge);
      assert Run(b, [again]) == Step(b, again);
    }
  }

  // ---- Every step keeps the invariant ---------------------------------------------------

  lemma StepKeepsGuards(s: State, a: Action)
    requires WinsGuarded(s)
    ensures WinsGuarded(Step(s, a))
  {
    var t := Step(s, a);
    forall i | 0 <= i < |t.wins|
      ensures t.wins[i].purgesAtInsert <= t.purges && (Guarded(t, t.wins[i]) || Expired(t, t.wins[i]))
    {
      if i < |s.wins| {
        assert t.wins[i] == s.wins[i];
      }
    }
  }

  lemma StepKeepsOrder(s: State, a: Action)
    requires WinsGuarded(s) && WinsInOrder(s) && RepeatsMeetRow(s)
    ensures WinsInOrder(Step(s, a))
  {
    var t := Step(s, a);
    forall i, j | 0 <= i < j < |t.wins| && t.wins[i].flight.nonce == t.wins[j].flight.nonce
      ensures Succeeds(t.wins[i], t.wins[j])
    {
      assert t.wins[i] == s.wins[i];
      if j < |s.wins| {
        assert t.wins[j] == s.wins[j];
      } else {
        assert !Guarded(s, s.wins[i]) && s.flights[a.id] == t.wins[j].flight;
      }
    }
  }

  lemma StepKeepsRepeats(s: State, a: Action)
    requires WinsGuarded(s) && RepeatsMeetRow(s) && FlightsInTime(s)
    ensures RepeatsMeetRow(Step(s, a))
  {
    var t := Step(s, a);
    forall i, id | 0 <= i < |t.wins| && id in t.flights && SameRequest(t.wins[i].flight, t.flights[id]) && Punctual(t.wins[i])
      ensures Guarded(t, t.wins[i]) || t.flights[id].purgesAtCheck < t.purges
    {
      if i < |s.wins| {
        assert t.wins[i] == s.wins[i];
        if id in s.flights {
          assert SameRequest(s.wins[i].flight, s.flights[id]);
        }
      }
    }
  }

  lemma StepKeepsTimes(s: State, a: Action)
    requires FlightsInTime(s) && WinsInTime(s)
    ensures FlightsInTime(Step(s, a)) && WinsInTime(Step(s, a))
  {
  }

  lemma {:induction false} RunKeepsInv(from: State, actions: seq<Action>)
    requires Inv(from)
    ensures Inv(Run(from, actions))
    decreases |actions|
  {
    if actions != [] {
      StepKeepsGuards(from, actions[0]);
      StepKeepsOrder(from, actions[0]);
      StepKeepsRepeats(from, actions[0]);
      StepKeepsTimes(from, actions[0]);
      RunKeepsInv(Step(from, actions[0]), actions[1..]);
    }
  }
}
