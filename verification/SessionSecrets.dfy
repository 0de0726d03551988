/** createSession with its await: the session row is inserted first, and the device takes over that
    session's secret later. Calls for one device may overlap, as an exchange and a refresh or two
    refreshes do. Signed requests are checked against the secret the device holds, so it matters
    whose that is once the calls have come to their end. */
module SessionSecrets {
  import opened Wrappers
  import opened Runs

  // Sessions of one device, numbered as they were inserted; those whose device update is still to
  // come; and the session whose secret the device holds.
  datatype Secrets = Secrets(sessions: nat, pending: set<nat>, secret: Option<nat>)

  datatype Stretch = Insert | Update(session: nat)

  function After(s: Secrets, a: Stretch): Secrets {
    match a
    case Insert => s.(sessions := s.sessions + 1, pending := s.pending + {s.sessions})
    case Update(k) => if k in s.pending then s.(pending := s.pending - {k}, secret := Some(k)) else s
  }

  function RunOf(from: Secrets, actions: seq<Stretch>): Secrets {
    Fold(After, from, actions)
  }

  function Empty(): Secrets {
    Secrets(0, {}, None)
  }

  predicate Newest(s: Secrets) {
    s.sessions == 0 || s.secret == Some(s.sessions - 1)
  }

  ghost predicate Numbered(s: Secrets) {
    forall k :: k in s.pending ==> k < s.sessions
  }

  lemma {:induction false} RunKeepsNumbers(from: Secrets, actions: seq<Stretch>)
    requires Numbered(from)
    ensures Numbered(RunOf(from, actions))
    decreases |actions|
  {
    if actions != [] {
      RunKeepsNumbers(After(from, actions[0]), actions[1..]);
    }
  }

  // No call starts while another is between its insert and its update.
  predicate Apart(from: Secrets, actions: seq<Stretch>)
    decreases |actions|
  {
    actions != [] ==> (actions[0].Insert? ==> from.pending == {}) && Apart(After(from, actions[0]), actions[1..])
  }

  /** Calls that do not overlap leave the device, whenever none is under way, with the secret of its
      newest session. */
  lemma {:induction false} ApartIsNewest(from: Secrets, actions: seq<Stretch>)
    requires from.pending <= {from.sessions - 1} && (from.pending == {} ==> Newest(from)) && Apart(from, actions)
    ensures var t := RunOf(from, actions); t.pending == {} ==> Newest(t)
    decreases |actions|
  {
    if actions != [] {
      ApartIsNewest(After(from, actions[0]), actions[1..]);
    }
  }

  // The calls under way come to their end, in this order, and no new one starts.
  ghost predicate Finishes(s: Secrets, actions: seq<Stretch>) {
    (forall i :: 0 <= i < |actions| ==> actions[i].Update?) && RunOf(s, actions).pending == {}
  }

  // All calls under way, one after the other.
  lemma {:induction false} FinishAll(s: Secrets) returns (actions: seq<Stretch>)
    ensures Finishes(s, actions)
    ensures forall i :: 0 <= i < |actions| ==> actions[i].Update? && actions[i].session in s.pending
    decreases |s.pending|
  {
    if s.pending == {} {
      actions := [];
    } else {
      var k :| k in s.pending;
      var rest := FinishAll(After(s, Update(k)));
      actions := [Update(k)] + rest;
      assert actions[1..] == rest;
      assert RunOf(s, actions) == RunOf(After(s, Update(k)), rest);
    }
  }

  // All of them, a given one last.
  lemma FinishWith(s: Secrets, last: nat) returns (actions: seq<Stretch>)
    requires last in s.pending
    ensures Finishes(s, actions) && RunOf(s, actions).secret == Some(last) && RunOf(s, actions).sessions == s.sessions
  {
    var others := s.(pending := s.pending - {last});
    var first := FinishAll(others);
    LeavesAlone(s, others, first, last);
    FoldAppend(After, s, first, [Update(last)]);
    FoldOne(After, RunOf(s, first), Update(last));
    actions := first + [Update(last)];
  }

  // The updates that finish all others leave one call under way.
  lemma {:induction false} LeavesAlone(s: Secrets, others: Secrets, actions: seq<Stretch>, last: nat)
    requires last in s.pending && others.pending == s.pending - {last}
    requires forall i :: 0 <= i < |actions| ==> actions[i].Update? && actions[i].session != last
    ensures RunOf(s, actions).pending == RunOf(others, actions).pending + {last}
    ensures RunOf(s, actions).sessions == s.sessions
    decreases |actions|
  {
    if actions != [] {
      LeavesAlone(After(s, actions[0]), After(others, actions[0]), actions[1..], last);
    }
  }

  // With nothing older under way, and the newest under way or in place, it ends in place.
  lemma {:induction false} EndsNewest(s: Secrets, actions: seq<Stretch>)
    requires s.sessions > 0 && s.pending <= {s.sessions - 1} && (s.pending == {} ==> Newest(s))
    requires forall i :: 0 <= i < |actions| ==> actions[i].Update?
    ensures RunOf(s, actions).pending == {} ==> Newest(RunOf(s, actions))
    decreases |actions|
  {
    if actions != [] {
      EndsNewest(After(s, actions[0]), actions[1..]);
    }
  }

  /** Exactly when a new session's secret can be lost to an older one: the calls under way, with no
      newer one among them, can end with another secret in the device if and only if one was under
      way when the session was inserted. */
  lemma NewestExactly(s: Secrets)
    requires Numbered(s)
    ensures var t := After(s, Insert);
      (exists actions :: Finishes(t, actions) && !Newest(RunOf(t, actions))) <==> s.pending != {}
  {
    var t := After(s, Insert);
    if k :| k in s.pending {
      var actions := FinishWith(t, k);
      assert Finishes(t, actions) && !Newest(RunOf(t, actions));
    } else {
      forall actions | Finishes(t, actions) ensures Newest(RunOf(t, actions)) {
        EndsNewest(t, actions);
      }
    }
  }

  /** Two calls that overlap do leave the secret of the older session. */
  lemma OlderSecretHappens()
    ensures RunOf(Empty(), [Insert, Insert, Update(1)] + [Update(0)]) == Secrets(2, {}, Some(0))
  {
    FoldThree(After, Empty(), Insert, Insert, Update(1), [Update(0)]);
    FoldOne(After, After(After(After(Empty(), Insert), Insert), Update(1)), Update(0));
  }
}
