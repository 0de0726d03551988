/** openIncident with its awaits: it looks for an open incident, goes away and then creates one.
    Checks of one server may run side by side, from the monitor's pass, the panel and the load poll. */
module IncidentOpening {
  import opened Monitoring
  import opened Runs

  // An incident, the step at which its call had found none open, and the step that created it.
  datatype Opened = Opened(topic: Topic, lookedAt: nat, createdAt: nat, open: bool)

  // A call that found no open incident; done once it has created one or failed.
  datatype Call = Call(topic: Topic, lookedAt: nat, done: bool)

  datatype Table = Table(clock: nat, incidents: seq<Opened>, calls: seq<Call>)

  datatype Stretch =
    | Look(topic: Topic)
    | Create(call: nat)
    | Drop(call: nat)
    | Resolve(incident: nat)  // resolveIncidents closes row by row

  predicate AnyOpen(s: Table, topic: Topic) {
    exists i :: 0 <= i < |s.incidents| && s.incidents[i].open && s.incidents[i].topic == topic
  }

  function Effect(s: Table, a: Stretch): Table {
    match a
    case Look(topic) => if AnyOpen(s, topic) then s else s.(calls := s.calls + [Call(topic, s.clock, false)])
    case Create(k) =>
      if k >= |s.calls| || s.calls[k].done then s
      else s.(calls := s.calls[k := s.calls[k].(done := true)],
              incidents := s.incidents + [Opened(s.calls[k].topic, s.calls[k].lookedAt, s.clock, true)])
    case Drop(k) => if k >= |s.calls| then s else s.(calls := s.calls[k := s.calls[k].(done := true)])
    case Resolve(i) => if i >= |s.incidents| then s else s.(incidents := s.incidents[i := s.incidents[i].(open := false)])
  }

  function After(s: Table, a: Stretch): Table {
    Effect(s, a).(clock := s.clock + 1)
  }

  function RunOf(from: Table, actions: seq<Stretch>): Table {
    Fold(After, from, actions)
  }

  function Empty(): Table {
    Table(0, [], [])
  }

  // While an incident is open, every look that found none on its topic came before it was created.
  ghost predicate LooksBefore(s: Table, i: nat)
    requires i < |s.incidents|
  {
    s.incidents[i].open ==>
      && (forall k :: 0 <= k < |s.calls| && s.calls[k].topic == s.incidents[i].topic ==>
            s.calls[k].lookedAt < s.incidents[i].createdAt)
      && (forall j :: 0 <= j < |s.incidents| && s.incidents[j].topic == s.incidents[i].topic ==>
            s.incidents[j].lookedAt < s.incidents[i].createdAt)
  }

  ghost predicate Ordered(s: Table) {
    && (forall k :: 0 <= k < |s.calls| ==> s.calls[k].lookedAt < s.clock)
    && (forall i :: 0 <= i < |s.incidents| ==> s.incidents[i].lookedAt < s.incidents[i].createdAt < s.clock)
    && (forall i :: 0 <= i < |s.incidents| ==> LooksBefore(s, i))
  }

  lemma AfterKeepsOrder(s: Table, a: Stretch)
    requires Ordered(s)
    ensures Ordered(After(s, a))
  {
    var t := After(s, a);
    forall i | 0 <= i < |t.incidents| ensures LooksBefore(t, i) {
      if i < |s.incidents| {
        assert LooksBefore(s, i);
      }
    }
  }

  lemma {:induction false} RunKeepsOrder(from: Table, actions: seq<Stretch>)
    requires Ordered(from)
    ensures Ordered(RunOf(from, actions))
    decreases |actions|
  {
    if actions != [] {
      AfterKeepsOrder(from, actions[0]);
      RunKeepsOrder(After(from, actions[0]), actions[1..]);
    }
  }

  /** In every interleaving, two incidents open at once on one server, kind and item come from calls
      that overlapped: each had looked before the other created its incident. */
  lemma TwoOpenOverlap(actions: seq<Stretch>, i: nat, j: nat)
    requires var incidents := RunOf(Empty(), actions).incidents;
      i < |incidents| && j < |incidents| && incidents[i].open && incidents[j].open && incidents[i].topic == incidents[j].topic
    ensures var incidents := RunOf(Empty(), actions).incidents;
      incidents[i].lookedAt < incidents[j].createdAt && incidents[j].lookedAt < incidents[i].createdAt
  {
    RunKeepsOrder(Empty(), actions);
    var s := RunOf(Empty(), actions);
    assert LooksBefore(s, i) && LooksBefore(s, j);
  }

  predicate UnderWay(s: Table, topic: Topic) {
    exists k :: 0 <= k < |s.calls| && s.calls[k].topic == topic && !s.calls[k].done
  }

  // Another incident on the topic of incident i, created after s while that one stays open.
  ghost predicate Doubled(s: Table, i: nat, actions: seq<Stretch>)
    requires i < |s.incidents|
  {
    var t := RunOf(s, actions);
    && i < |t.incidents| && t.incidents[i].open
    && exists j :: |s.incidents| <= j < |t.incidents| && t.incidents[j].topic == s.incidents[i].topic
  }

  // Since a state with `known` incidents: as long as incident i is open it has stayed alone.
  ghost predicate Alone(s: Table, i: nat, topic: Topic, known: nat) {
    && i < known <= |s.incidents| && s.incidents[i].topic == topic
    && (s.incidents[i].open ==>
          !UnderWay(s, topic) && forall j :: known <= j < |s.incidents| ==> s.incidents[j].topic != topic)
  }

  lemma AfterKeepsAlone(s: Table, a: Stretch, i: nat, topic: Topic, known: nat)
    requires Alone(s, i, topic, known)
    ensures Alone(After(s, a), i, topic, known)
  {
    var t := After(s, a);
    if t.incidents[i].open {
      assert s.incidents[i].open;
      assert AnyOpen(s, topic);
      forall k | 0 <= k < |t.calls| && t.calls[k].topic == topic ensures t.calls[k].done {
        assert k < |s.calls|;
      }
    }
  }

  lemma {:induction false} RunKeepsAlone(from: Table, actions: seq<Stretch>, i: nat, topic: Topic, known: nat)
    requires Alone(from, i, topic, known)
    ensures Alone(RunOf(from, actions), i, topic, known)
    decreases |actions|
  {
    if actions != [] {
      AfterKeepsAlone(from, actions[0], i, topic, known);
      RunKeepsAlone(After(from, actions[0]), actions[1..], i, topic, known);
    }
  }

  /** Exactly when an open incident stays the only one: another can be opened beside it if and only
      if a call that had found none open is still under way. */
  lemma StaysAlone(s: Table, i: nat)
    requires i < |s.incidents| && s.incidents[i].open
    ensures (exists actions :: Doubled(s, i, actions)) <==> UnderWay(s, s.incidents[i].topic)
  {
    var topic := s.incidents[i].topic;
    if k :| 0 <= k < |s.calls| && s.calls[k].topic == topic && !s.calls[k].done {
      var t := After(s, Create(k));
      FoldOne(After, s, Create(k));
      assert RunOf(s, [Create(k)]) == t;
      assert t.incidents[|s.incidents|].topic == topic;
      assert Doubled(s, i, [Create(k)]);
    } else {
      forall actions ensures !Doubled(s, i, actions) {
        RunKeepsAlone(s, actions, i, topic, |s.incidents|);
      }
    }
  }

  /** Two checks side by side do open two incidents. */
  lemma TwoDoOpen(topic: Topic)
    ensures RunOf(Empty(), [Look(topic), Look(topic), Create(0)] + [Create(1)]).incidents
         == [Opened(topic, 0, 2, true), Opened(topic, 1, 3, true)]
  {
    var s3 := After(After(After(Empty(), Look(topic)), Look(topic)), Create(0));
    FoldThree(After, Empty(), Look(topic), Look(topic), Create(0), [Create(1)]);
    FoldOne(After, s3, Create(1));
    assert s3 == Table(3, [Opened(topic, 0, 2, true)], [Call(topic, 0, true), Call(topic, 1, false)]);
  }
}
