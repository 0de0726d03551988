/** sendAlert with its await: it takes the slot of its key, waits for the mail server, and gives the
    slot back if the mail was refused, whoever holds it by then. */
module MailSlots {
  import opened Wrappers
  import opened Monitoring
  import opened Runs

  datatype Outcome = Pending | Delivered | Refused(at: int)

  // One mail that was not suppressed, in the order the slots were taken.
  datatype Sent = Sent(key: MailKey, at: int, outcome: Outcome)

  datatype Slots = Slots(now: int, lastSent: map<MailKey, int>, mails: seq<Sent>)

  datatype Event =
    | Pass(ms: nat)
    | Take(key: MailKey)
    | Finish(mail: nat, accepted: bool)

  predicate Held(s: Slots, key: MailKey) {
    s.now - Lookup(s.lastSent, key).GetOr(0) < MinGap(key)
  }

  function After(s: Slots, e: Event): Slots {
    match e
    case Pass(ms) => s.(now := s.now + ms)
    case Take(key) =>
      if Held(s, key) then s
      else s.(lastSent := s.lastSent[key := s.now], mails := s.mails + [Sent(key, s.now, Pending)])
    case Finish(k, accepted) =>
      if k >= |s.mails| || !s.mails[k].outcome.Pending? then s
      else if accepted then s.(mails := s.mails[k := s.mails[k].(outcome := Delivered)])
      else s.(mails := s.mails[k := s.mails[k].(outcome := Refused(s.now))], lastSent := s.lastSent - {s.mails[k].key})
  }

  function RunOf(from: Slots, events: seq<Event>): Slots {
    Fold(After, from, events)
  }

  function Empty(now: int): Slots {
    Slots(now, map[], [])
  }

  // An earlier mail of the same key was refused after mail k took the slot, no later than `until`.
  ghost predicate Robbed(s: Slots, k: nat, until: int)
    requires k < |s.mails|
  {
    exists f :: 0 <= f < k && Robs(s, f, k, until)
  }

  ghost predicate Robs(s: Slots, f: nat, k: nat, until: int)
    requires f < |s.mails| && k < |s.mails|
  {
    s.mails[f].key == s.mails[k].key && s.mails[f].outcome.Refused? && s.mails[k].at <= s.mails[f].outcome.at <= until
  }

  // A mail not refused still has its slot, or its gap has passed, or it was robbed.
  ghost predicate Kept(s: Slots, k: nat)
    requires k < |s.mails|
  {
    var m := s.mails[k];
    || m.outcome.Refused?
    || (m.key in s.lastSent && s.lastSent[m.key] >= m.at)
    || m.at + MinGap(m.key) <= s.now
    || Robbed(s, k, s.now)
  }

  ghost predicate Apart(s: Slots, k: nat, l: nat)
    requires k < l < |s.mails|
  {
    s.mails[k].key == s.mails[l].key && !s.mails[k].outcome.Refused? ==>
      s.mails[k].at + MinGap(s.mails[k].key) <= s.mails[l].at || Robbed(s, k, s.mails[l].at)
  }

  ghost predicate Inv(s: Slots) {
    && (forall k :: 0 <= k < |s.mails| ==> MinGap(s.mails[k].key) <= s.mails[k].at <= s.now)
    && (forall key :: key in s.lastSent ==> s.lastSent[key] >= MinGap(key))
    && (forall k :: 0 <= k < |s.mails| && s.mails[k].key in s.lastSent ==> s.mails[k].at <= s.lastSent[s.mails[k].key])
    && (forall k :: 0 <= k < |s.mails| ==> Kept(s, k))
    && (forall k, l :: 0 <= k < l < |s.mails| ==> Apart(s, k, l))
  }

  // What was robbed stays robbed.
  lemma StillRobbed(s: Slots, e: Event, k: nat, until: int, later: int)
    requires k < |s.mails| && Robbed(s, k, until) && until <= later
    ensures Robbed(After(s, e), k, later)
  {
    var f :| 0 <= f < k && Robs(s, f, k, until);
    assert Robs(After(s, e), f, k, later);
  }

  lemma PassKeepsInv(s: Slots, ms: nat)
    requires Inv(s)
    ensures Inv(After(s, Pass(ms)))
  {
    var t := After(s, Pass(ms));
    forall k | 0 <= k < |t.mails| ensures Kept(t, k) {
      assert Kept(s, k);
      if Robbed(s, k, s.now) {
        StillRobbed(s, Pass(ms), k, s.now, t.now);
      }
    }
    forall k, l | 0 <= k < l < |t.mails| ensures Apart(t, k, l) {
      assert Apart(s, k, l);
      if Robbed(s, k, s.mails[l].at) {
        StillRobbed(s, Pass(ms), k, s.mails[l].at, s.mails[l].at);
      }
    }
  }

  lemma TakeKeepsInv(s: Slots, key: MailKey)
    requires Inv(s)
    ensures Inv(After(s, Take(key)))
  {
    var t := After(s, Take(key));
    if t != s {
      forall k | 0 <= k < |t.mails| ensures Kept(t, k) {
        if k < |s.mails| {
          assert Kept(s, k);
          if Robbed(s, k, s.now) {
            StillRobbed(s, Take(key), k, s.now, t.now);
          }
        }
      }
      forall k, l | 0 <= k < l < |t.mails| ensures Apart(t, k, l) {
        if l < |s.mails| {
          assert Apart(s, k, l);
          if Robbed(s, k, s.mails[l].at) {
            StillRobbed(s, Take(key), k, s.mails[l].at, s.mails[l].at);
          }
        } else {
          assert Kept(s, k);
          if Robbed(s, k, s.now) {
            StillRobbed(s, Take(key), k, s.now, s.now);
          }
        }
      }
    }
  }

  lemma FinishKeepsInv(s: Slots, f: nat, accepted: bool)
    requires Inv(s)
    ensures Inv(After(s, Finish(f, accepted)))
  {
    var e := Finish(f, accepted);
    var t := After(s, e);
    if t != s {
      forall k | 0 <= k < |t.mails| ensures Kept(t, k) {
        assert Kept(s, k);
        if Robbed(s, k, s.now) {
          StillRobbed(s, e, k, s.now, t.now);
        } else if !accepted && s.mails[k].key == s.mails[f].key && k != f {
          RefusalRobs(s, f, k);
        }
      }
      forall k, l | 0 <= k < l < |t.mails| ensures Apart(t, k, l) {
        assert Apart(s, k, l);
        if Robbed(s, k, s.mails[l].at) {
          StillRobbed(s, e, k, s.mails[l].at, s.mails[l].at);
        }
      }
    }
  }

  // A refusal robs the mails that took the slot later, and comes too late for earlier ones.
  lemma RefusalRobs(s: Slots, f: nat, k: nat)
    requires Inv(s) && f < |s.mails| && k < |s.mails| && k != f
    requires s.mails[f].outcome.Pending? && s.mails[k].key == s.mails[f].key && !Robbed(s, k, s.now)
    ensures Kept(After(s, Finish(f, false)), k)
  {
    var t := After(s, Finish(f, false));
    if f < k {
      assert Robs(t, f, k, t.now);
    } else {
      assert Apart(s, k, f);
      if Robbed(s, k, s.mails[f].at) {
        var g :| 0 <= g < k && Robs(s, g, k, s.mails[f].at);
        assert Robs(s, g, k, s.now);
      }
    }
  }

  lemma {:induction false} RunKeepsInv(from: Slots, events: seq<Event>)
    requires Inv(from)
    ensures Inv(RunOf(from, events))
    decreases |events|
  {
    if events != [] {
      match events[0] {
        case Pass(ms) => PassKeepsInv(from, ms);
        case Take(key) => TakeKeepsInv(from, key);
        case Finish(k, accepted) => FinishKeepsInv(from, k, accepted);
      }
      RunKeepsInv(After(from, events[0]), events[1..]);
    }
  }

  /** In every interleaving, delivered mails of one key are the minimum gap apart, unless a still
      earlier mail of that key was refused between the two. */
  lemma PacedUnlessRobbed(now: int, events: seq<Event>, k: nat, l: nat)
    requires var mails := RunOf(Empty(now), events).mails;
      k < l < |mails| && mails[k].key == mails[l].key && mails[k].outcome.Delivered?
    ensures var mails := RunOf(Empty(now), events).mails;
      || mails[k].at + MinGap(mails[k].key) <= mails[l].at
      || exists f :: 0 <= f < k && mails[f].key == mails[k].key && mails[f].outcome.Refused?
                     && mails[k].at <= mails[f].outcome.at <= mails[l].at
  {
    RunKeepsInv(Empty(now), events);
    var s := RunOf(Empty(now), events);
    assert Apart(s, k, l);
    if Robbed(s, k, s.mails[l].at) {
      var f :| 0 <= f < k && Robs(s, f, k, s.mails[l].at);
      assert s.mails[f].key == s.mails[k].key;
    }
  }

  predicate UnderWay(s: Slots, key: MailKey) {
    exists k :: 0 <= k < |s.mails| && s.mails[k].key == key && s.mails[k].outcome.Pending?
  }

  // A later mail that takes the slot of mail k before its gap is over.
  ghost predicate TooSoon(s: Slots, k: nat, events: seq<Event>)
    requires k < |s.mails|
  {
    var t := RunOf(s, events);
    exists l :: |s.mails| <= l < |t.mails| && t.mails[l].key == s.mails[k].key && t.mails[l].at < s.mails[k].at + MinGap(s.mails[k].key)
  }

  // Since a state with `known` mails: the key's slot stands, with nobody to give it back, until `end`.
  ghost predicate Stands(s: Slots, key: MailKey, end: int, known: nat) {
    && known <= |s.mails|
    && (forall l :: known <= l < |s.mails| && s.mails[l].key == key ==> s.mails[l].at >= end)
    && (s.now < end ==> !UnderWay(s, key) && key in s.lastSent && s.lastSent[key] + MinGap(key) >= end)
  }

  lemma AfterKeepsStanding(s: Slots, e: Event, key: MailKey, end: int, known: nat)
    requires Stands(s, key, end, known)
    ensures Stands(After(s, e), key, end, known)
  {
    var t := After(s, e);
    if t.now < end {
      forall k | 0 <= k < |t.mails| && t.mails[k].key == key ensures !t.mails[k].outcome.Pending? {
        assert k < |s.mails|;
      }
    }
  }

  lemma {:induction false} RunKeepsStanding(from: Slots, events: seq<Event>, key: MailKey, end: int, known: nat)
    requires Stands(from, key, end, known)
    ensures Stands(RunOf(from, events), key, end, known)
    decreases |events|
  {
    if events != [] {
      AfterKeepsStanding(from, events[0], key, end, known);
      RunKeepsStanding(After(from, events[0]), events[1..], key, end, known);
    }
  }

  /** Exactly when a mail is safe for the rest of its gap: another of its key can be sent too soon if
      and only if the slot is free already, or a mail of the key is still under way. */
  lemma SafeForItsGap(s: Slots, k: nat)
    requires Inv(s) && k < |s.mails| && s.now < s.mails[k].at + MinGap(s.mails[k].key)
    ensures (exists events :: TooSoon(s, k, events)) <==> !Held(s, s.mails[k].key) || UnderWay(s, s.mails[k].key)
  {
    var key := s.mails[k].key;
    var end := s.mails[k].at + MinGap(key);
    if !Held(s, key) {
      FoldOne(After, s, Take(key));
      assert RunOf(s, [Take(key)]).mails[|s.mails|].key == key;
      assert TooSoon(s, k, [Take(key)]);
    } else if f :| 0 <= f < |s.mails| && s.mails[f].key == key && s.mails[f].outcome.Pending? {
      var t := After(s, Finish(f, false));
      FoldTwo(After, s, Finish(f, false), Take(key));
      assert !Held(t, key);
      assert RunOf(s, [Finish(f, false), Take(key)]) == After(t, Take(key));
      assert After(t, Take(key)).mails[|s.mails|] == Sent(key, s.now, Pending);
      assert TooSoon(s, k, [Finish(f, false), Take(key)]);
    } else {
      forall events ensures !TooSoon(s, k, events) {
        RunKeepsStanding(s, events, key, end, |s.mails|);
      }
    }
  }

  // A slow mail that is refused after the next one has gone out.
  function SlowRefusal(key: MailKey): seq<Event> {
    [Take(key), Pass(MinGap(key)), Take(key)] + ([Finish(1, true), Finish(0, false), Take(key)] + [Finish(2, true)])
  }

  /** Such a run: two mails of one key are delivered at one instant. */
  lemma SlowRefusalHappens(now: int, key: MailKey)
    requires now >= MinGap(key)
    ensures var later := now + MinGap(key);
      RunOf(Empty(now), SlowRefusal(key)).mails
      == [Sent(key, now, Refused(later)), Sent(key, later, Delivered), Sent(key, later, Delivered)]
  {
    var later := now + MinGap(key);
    var s3 := After(After(After(Empty(now), Take(key)), Pass(MinGap(key))), Take(key));
    var s6 := After(After(After(s3, Finish(1, true)), Finish(0, false)), Take(key));
    FoldThree(After, Empty(now), Take(key), Pass(MinGap(key)), Take(key),
              [Finish(1, true), Finish(0, false), Take(key)] + [Finish(2, true)]);
    FoldThree(After, s3, Finish(1, true), Finish(0, false), Take(key), [Finish(2, true)]);
    FoldOne(After, s6, Finish(2, true));
    assert s3 == Slots(later, map[key := later], [Sent(key, now, Pending), Sent(key, later, Pending)]);
    assert s6.mails == [Sent(key, now, Refused(later)), Sent(key, later, Delivered), Sent(key, later, Pending)];
  }
}
