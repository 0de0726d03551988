/** Incidents of monitorService and the de-duplicated mails of notificationService. Every check is
    one step; whether the mail server takes a mail is an input of the step. */
module Monitoring {
  import opened Wrappers
  import opened Text

  // ---- Mail keys ------------------------------------------------------------------------

  datatype Kind = Trojan | Ssh | Cert | Config | Load | Vpn

  // What an incident is about: a server, or one catalog row on it.
  datatype Topic = Topic(server: nat, kind: Kind, item: Option<nat>)

  datatype MailKey = Down(topic: Topic) | Up(topic: Topic) | ConfigDown(item: nat) | ConfigUp(item: nat)

  const DEFAULT_MIN_GAP_MS := 600_000
  const CONFIG_MIN_GAP_MS := 3_300_000

  // The minimum gap every caller passes with a key of this form.
  function MinGap(key: MailKey): nat {
    match key
    case Down(_) => DEFAULT_MIN_GAP_MS
    case ConfigDown(_) => CONFIG_MIN_GAP_MS
    case _ => 0
  }

  function KindName(k: Kind): string {
    match k
    case Trojan => "trojan"
    case Ssh => "ssh"
    case Cert => "cert"
    case Config => "config"
    case Load => "load"
    case Vpn => "vpn"
  }

  function ItemName(item: Option<nat>): string {
    if item.None? || item.value == 0 then "srv" else Decimal(item.value)
  }

  function KeyParts(key: MailKey): seq<string> {
    match key
    case Down(t) => [Decimal(t.server), KindName(t.kind), ItemName(t.item), "down"]
    case Up(t) => [Decimal(t.server), KindName(t.kind), ItemName(t.item), "up"]
    case ConfigDown(i) => ["config", Decimal(i), "down"]
    case ConfigUp(i) => ["config", Decimal(i), "up"]
  }

  /** The string a key is sent under. */
  function Render(key: MailKey): string {
    Join(KeyParts(key), ':')
  }

  // Row ids start at 1; a row 0 would share its key with the server's own incidents.
  predicate RealItem(key: MailKey) {
    (key.Down? || key.Up?) && key.topic.item.Some? ==> key.topic.item.value >= 1
  }

  lemma NoColons(key: MailKey)
    ensures forall i :: 0 <= i < |KeyParts(key)| ==> ':' !in KeyParts(key)[i]
  {
  }

  lemma ItemNameInjective(a: Option<nat>, b: Option<nat>)
    requires ItemName(a) == ItemName(b)
    requires (a.Some? ==> a.value >= 1) && (b.Some? ==> b.value >= 1)
    ensures a == b
  {
    if a.Some? && b.Some? {
      DecimalInjective(a.value, b.value);
    } else if a.Some? {
      assert IsDigit(Decimal(a.value)[0]) && !IsDigit("srv"[0]);
    } else if b.Some? {
      assert IsDigit(Decimal(b.value)[0]) && !IsDigit("srv"[0]);
    }
  }

  // The last piece names the key's kind, and the third the kind of incident.
  lemma PartsInjective(a: MailKey, b: MailKey)
    requires KeyParts(a) == KeyParts(b) && RealItem(a) && RealItem(b)
    ensures a == b
  {
    var p, q := KeyParts(a), KeyParts(b);
    if |p| == 4 {
      assert (a.Down? || a.Up?) && (b.Down? || b.Up?);
      assert p[3] == q[3] && p[3][0] == q[3][0];
      assert p[0] == q[0] && p[1] == q[1] && p[2] == q[2];
      DecimalInjective(a.topic.server, b.topic.server);
      assert p[1][0] == q[1][0] && p[1][|p[1]| - 1] == q[1][|q[1]| - 1];
      ItemNameInjective(a.topic.item, b.topic.item);
    } else {
      assert (a.ConfigDown? || a.ConfigUp?) && (b.ConfigDown? || b.ConfigUp?);
      assert p[2] == q[2] && p[2][0] == q[2][0];
      assert p[1] == q[1];
      DecimalInjective(a.item, b.item);
    }
  }

  /** Different keys are different strings, so de-duplication never mixes them up. */
  lemma RenderInjective(a: MailKey, b: MailKey)
    requires Render(a) == Render(b) && RealItem(a) && RealItem(b)
    ensures a == b
  {
    NoColons(a);
    NoColons(b);
    SplitJoin(KeyParts(a), ':');
    SplitJoin(KeyParts(b), ':');
    PartsInjective(a, b);
  }

  // ---- State and steps ------------------------------------------------------------------

  datatype Incident = Incident(topic: Topic, open: bool, notified: bool)

  // A delivered mail and the incident it reports on, if any.
  datatype Mail = Mail(key: MailKey, at: int, incident: Option<nat>)

  datatype State = State(now: int, incidents: seq<Incident>, lastSent: map<MailKey, int>, delivered: seq<Mail>)

  datatype Action =
    | Tick(ms: nat)
    | Open(topic: Topic, alert: bool, accepted: bool)
    | Resolve(topic: Topic, alert: bool, accepted: bool)
    | Send(key: MailKey, accepted: bool)  // an alert without incident, as config tests send them

  predicate Suppressed(s: State, key: MailKey) {
    s.now - Lookup(s.lastSent, key).GetOr(0) < MinGap(key)
  }

  predicate Delivers(s: State, key: MailKey, accepted: bool) {
    accepted && !Suppressed(s, key)
  }

  /** sendAlert: a failed send gives its slot back. */
  function Alert(s: State, key: MailKey, accepted: bool, incident: Option<nat>): State {
    if Suppressed(s, key) then s
    else if accepted then
      s.(lastSent := s.lastSent[key := s.now], delivered := s.delivered + [Mail(key, s.now, incident)])
    else s.(lastSent := s.lastSent - {key})
  }

  predicate HasOpen(incidents: seq<Incident>, topic: Topic) {
    exists i :: 0 <= i < |incidents| && incidents[i].open && incidents[i].topic == topic
  }

  function OpenStep(s: State, topic: Topic, alert: bool, accepted: bool): State {
    if HasOpen(s.incidents, topic) then s
    else
      var i := |s.incidents|;
      var notified := alert && Delivers(s, Down(topic), accepted);
      var t := s.(incidents := s.incidents + [Incident(topic, true, notified)]);
      if alert then Alert(t, Down(topic), accepted, Some(i)) else t
  }

  function Close(incidents: seq<Incident>, topic: Topic): (r: seq<Incident>)
    ensures |r| == |incidents|
    ensures forall i :: 0 <= i < |r| ==>
      r[i] == if incidents[i].topic == topic then incidents[i].(open := false) else incidents[i]
  {
    seq(|incidents|, i requires 0 <= i < |incidents| =>
      if incidents[i].topic == topic then incidents[i].(open := false) else incidents[i])
  }

  // The first open incident on the topic whose outage was mailed.
  function Announced(incidents: seq<Incident>, topic: Topic): (r: Option<nat>)
    ensures r.Some? ==> r.value < |incidents| && incidents[r.value].open && incidents[r.value].notified
                        && incidents[r.value].topic == topic
    ensures r.None? ==> forall i :: 0 <= i < |incidents| && incidents[i].open && incidents[i].topic == topic ==> !incidents[i].notified
  {
    if incidents == [] then None
    else
      var n := |incidents| - 1;
      var earlier := Announced(incidents[..n], topic);
      if earlier.Some? then earlier
      else if incidents[n].open && incidents[n].notified && incidents[n].topic == topic then Some(n)
      else None
  }

  function ResolveStep(s: State, topic: Topic, alert: bool, accepted: bool): State {
    var announced := Announced(s.incidents, topic);
    var t := s.(incidents := Close(s.incidents, topic));
    if alert && announced.Some? then Alert(t, Up(topic), accepted, announced) else t
  }

  function Step(s: State, a: Action): State {
    match a
    case Tick(ms) => s.(now := s.now + ms)
    case Open(topic, alert, accepted) => OpenStep(s, topic, alert, accepted)
    case Resolve(topic, alert, accepted) => ResolveStep(s, topic, alert, accepted)
    case Send(key, accepted) => if key.Down? || key.Up? then s else Alert(s, key, accepted, None)
  }

  function Start(now: int): State {
    State(now, [], map[], [])
  }

  function Run(now: int, actions: seq<Action>): State {
    if actions == [] then Start(now) else Step(Run(now, actions[..|actions| - 1]), actions[|actions| - 1])
  }

  // ---- Invariants -----------------------------------------------------------------------

  ghost predicate OneOpen(s: State) {
    forall i, j :: 0 <= i < j < |s.incidents| && s.incidents[i].open && s.incidents[j].open ==>
      s.incidents[i].topic != s.incidents[j].topic
  }

  ghost predicate DownMailed(delivered: seq<Mail>, before: nat, i: nat) {
    exists q :: 0 <= q < before && q < |delivered| && delivered[q].key.Down? && delivered[q].incident == Some(i)
  }

  ghost predicate MailsMatch(s: State) {
    && (forall i :: 0 <= i < |s.incidents| && s.incidents[i].notified ==> DownMailed(s.delivered, |s.delivered|, i))
    && (forall p :: 0 <= p < |s.delivered| && s.delivered[p].incident.Some? ==>
          s.delivered[p].incident.value < |s.incidents| && (s.delivered[p].key.Down? || s.delivered[p].key.Up?))
    && (forall p :: 0 <= p < |s.delivered| && Recovery(s.delivered[p]) ==>
          !s.incidents[s.delivered[p].incident.value].open && DownMailed(s.delivered, p, s.delivered[p].incident.value))
    && (forall p, q :: 0 <= p < q < |s.delivered| && s.delivered[p].incident.Some?
                       && s.delivered[p].key.Down? == s.delivered[q].key.Down? ==>
          s.delivered[p].incident != s.delivered[q].incident)
  }

  // A recovery mail of resolveIncidents.
  ghost predicate Recovery(m: Mail) {
    m.key.Up? && m.incident.Some?
  }

  ghost predicate Paced(s: State) {
    && (forall p :: 0 <= p < |s.delivered| ==> s.delivered[p].at <= s.now)
    && (forall p, q :: 0 <= p < q < |s.delivered| && s.delivered[p].key == s.delivered[q].key ==>
          s.delivered[p].at + MinGap(s.delivered[p].key) <= s.delivered[q].at)
    && (forall p :: 0 <= p < |s.delivered| ==> Spaced(s, s.delivered[p]))
  }

  // A delivered mail still holds its key, or its gap has passed.
  ghost predicate Spaced(s: State, m: Mail) {
    || m.at + MinGap(m.key) <= s.now
    || (m.key in s.lastSent && s.lastSent[m.key] >= m.at)
  }

  lemma AlertKeepsPaced(s: State, key: MailKey, accepted: bool, incident: Option<nat>)
    requires Paced(s)
    ensures Paced(Alert(s, key, accepted, incident))
  {
    var t := Alert(s, key, accepted, incident);
    forall p, q | 0 <= p < q < |t.delivered| && t.delivered[p].key == t.delivered[q].key
      ensures t.delivered[p].at + MinGap(t.delivered[p].key) <= t.delivered[q].at
    {
      assert t.delivered[p] == s.delivered[p];
      assert Spaced(s, s.delivered[p]);
      if q < |s.delivered| {
        assert t.delivered[q] == s.delivered[q];
      }
    }
    forall p | 0 <= p < |t.delivered| ensures Spaced(t, t.delivered[p]) {
      if p < |s.delivered| {
        assert t.delivered[p] == s.delivered[p];
        assert Spaced(s, s.delivered[p]);
      }
    }
  }

  lemma StepKeepsPaced(s: State, a: Action)
    requires Paced(s)
    ensures Paced(Step(s, a))
  {
    match a
    case Tick(ms) =>
      forall p | 0 <= p < |s.delivered| ensures Spaced(Step(s, a), s.delivered[p]) {
        assert Spaced(s, s.delivered[p]);
      }
    case Open(topic, alert, accepted) =>
      var t := s.(incidents := s.incidents + [Incident(topic, true, alert && Delivers(s, Down(topic), accepted))]);
      SameMail(s, t);
      AlertKeepsPaced(t, Down(topic), accepted, Some(|s.incidents|));
    case Resolve(topic, alert, accepted) =>
      var t := s.(incidents := Close(s.incidents, topic));
      SameMail(s, t);
      AlertKeepsPaced(t, Up(topic), accepted, Announced(s.incidents, topic));
    case Send(key, accepted) => AlertKeepsPaced(s, key, accepted, None);
  }

  // Pacing does not look at incidents.
  lemma SameMail(s: State, t: State)
    requires Paced(s) && t == s.(incidents := t.incidents)
    ensures Paced(t)
  {
    forall p | 0 <= p < |t.delivered| ensures Spaced(t, t.delivered[p]) {
      assert Spaced(s, s.delivered[p]);
    }
  }

  lemma StepKeepsOneOpen(s: State, a: Action)
    requires OneOpen(s)
    ensures OneOpen(Step(s, a))
  {
    var t := Step(s, a);
    forall i, j | 0 <= i < j < |t.incidents| && t.incidents[i].open && t.incidents[j].open
      ensures t.incidents[i].topic != t.incidents[j].topic
    {
      assert s.incidents[i].open && s.incidents[i].topic == t.incidents[i].topic;
    }
  }

  lemma DownMailedMore(delivered: seq<Mail>, m: Mail, before: nat, i: nat)
    requires DownMailed(delivered, before, i)
    ensures DownMailed(delivered + [m], before, i) && DownMailed(delivered + [m], before + 1, i)
  {
    var q :| 0 <= q < before && q < |delivered| && delivered[q].key.Down? && delivered[q].incident == Some(i);
    assert (delivered + [m])[q] == delivered[q];
  }

  lemma OpenKeepsMatch(s: State, topic: Topic, alert: bool, accepted: bool)
    requires MailsMatch(s)
    ensures MailsMatch(OpenStep(s, topic, alert, accepted))
  {
    var t := OpenStep(s, topic, alert, accepted);
    var n := |s.delivered|;
    if t.delivered != s.delivered {
      var m := t.delivered[n];
      assert t.delivered == s.delivered + [m];
      forall i | 0 <= i < |t.incidents| && t.incidents[i].notified ensures DownMailed(t.delivered, n + 1, i) {
        if i < |s.incidents| {
          DownMailedMore(s.delivered, m, n, i);
        } else {
          assert t.delivered[n].incident == Some(i);
        }
      }
      forall p | 0 <= p < |t.delivered| && Recovery(t.delivered[p])
        ensures !t.incidents[t.delivered[p].incident.value].open && DownMailed(t.delivered, p, t.delivered[p].incident.value)
      {
        assert p < n && t.delivered[p] == s.delivered[p];
        DownMailedMore(s.delivered, m, p, t.delivered[p].incident.value);
      }
    }
  }

  lemma ResolveKeepsMatch(s: State, topic: Topic, alert: bool, accepted: bool)
    requires MailsMatch(s)
    ensures MailsMatch(ResolveStep(s, topic, alert, accepted))
  {
    var t := ResolveStep(s, topic, alert, accepted);
    var n := |s.delivered|;
    if t.delivered != s.delivered {
      var m := t.delivered[n];
      var i0 := Announced(s.incidents, topic).value;
      assert t.delivered == s.delivered + [m] && m.incident == Some(i0);
      forall i | 0 <= i < |t.incidents| && t.incidents[i].notified ensures DownMailed(t.delivered, n + 1, i) {
        DownMailedMore(s.delivered, m, n, i);
      }
      forall p | 0 <= p < |t.delivered| && Recovery(t.delivered[p])
        ensures !t.incidents[t.delivered[p].incident.value].open && DownMailed(t.delivered, p, t.delivered[p].incident.value)
      {
        if p < n {
          assert t.delivered[p] == s.delivered[p];
          DownMailedMore(s.delivered, m, p, t.delivered[p].incident.value);
        } else {
          DownMailedMore(s.delivered, m, n, i0);
        }
      }
      forall p | 0 <= p < n && s.delivered[p].incident == Some(i0) ensures s.delivered[p].key.Down? {
        assert s.incidents[i0].open;
        assert !Recovery(s.delivered[p]);
      }
    } else {
      forall p | 0 <= p < n && Recovery(t.delivered[p])
        ensures !t.incidents[t.delivered[p].incident.value].open
      {
        assert Recovery(s.delivered[p]);
      }
    }
  }

  lemma SendKeepsMatch(s: State, key: MailKey, accepted: bool)
    requires MailsMatch(s) && !key.Down? && !key.Up?
    ensures MailsMatch(Alert(s, key, accepted, None))
  {
    var t := Alert(s, key, accepted, None);
    var n := |s.delivered|;
    if t.delivered != s.delivered {
      var m := t.delivered[n];
      assert t.delivered == s.delivered + [m];
      forall i | 0 <= i < |t.incidents| && t.incidents[i].notified ensures DownMailed(t.delivered, n + 1, i) {
        DownMailedMore(s.delivered, m, n, i);
      }
      forall p | 0 <= p < |t.delivered| && Recovery(t.delivered[p])
        ensures !t.incidents[t.delivered[p].incident.value].open && DownMailed(t.delivered, p, t.delivered[p].incident.value)
      {
        assert p < n && t.delivered[p] == s.delivered[p];
        DownMailedMore(s.delivered, m, p, t.delivered[p].incident.value);
      }
    }
  }

  lemma {:induction false} RunKeepsInv(now: int, actions: seq<Action>)
    ensures OneOpen(Run(now, actions)) && MailsMatch(Run(now, actions)) && Paced(Run(now, actions))
  {
    if actions != [] {
      var s, a := Run(now, actions[..|actions| - 1]), actions[|actions| - 1];
      RunKeepsInv(now, actions[..|actions| - 1]);
      StepKeepsOneOpen(s, a);
      StepKeepsPaced(s, a);
      match a {
        case Tick(ms) => assert MailsMatch(Step(s, a));
        case Open(topic, alert, accepted) => OpenKeepsMatch(s, topic, alert, accepted);
        case Resolve(topic, alert, accepted) => ResolveKeepsMatch(s, topic, alert, accepted);
        case Send(key, accepted) =>
          if !key.Down? && !key.Up? {
            SendKeepsMatch(s, key, accepted);
          }
      }
    }
  }

  // ---- Results --------------------------------------------------------------------------

  /** A topic never has two open incidents. */
  lemma {:induction false} OneOpenIncident(now: int, actions: seq<Action>, i: nat, j: nat)
    requires var incidents := Run(now, actions).incidents;
      i < j < |incidents| && incidents[i].topic == incidents[j].topic && incidents[i].open
    ensures !Run(now, actions).incidents[j].open
  {
    RunKeepsInv(now, actions);
  }

  /** Every delivered recovery follows a delivered outage mail of the same incident and of the same
      server, kind and item, and no two recoveries report on one incident. */
  lemma RecoveriesMatchOutages(now: int, actions: seq<Action>, p: nat)
    requires p < |Run(now, actions).delivered| && Recovery(Run(now, actions).delivered[p])
    ensures var delivered := Run(now, actions).delivered;
      && (exists q :: 0 <= q < p && delivered[q].key == Down(delivered[p].key.topic)
                      && delivered[q].incident == delivered[p].incident)
      && forall q :: 0 <= q < |delivered| && q != p && Recovery(delivered[q]) ==> delivered[q].incident != delivered[p].incident
  {
    RunKeepsInv(now, actions);
    RunKeepsNames(now, actions);
    var s := Run(now, actions);
    var delivered := s.delivered;
    var q0 :| 0 <= q0 < p && delivered[q0].key.Down? && delivered[q0].incident == Some(delivered[p].incident.value);
    assert NamesIncident(s, delivered[q0]);
    assert NamesIncident(s, delivered[p]);
    forall q | 0 <= q < |delivered| && q != p && Recovery(delivered[q])
      ensures delivered[q].incident != delivered[p].incident
    {
      if q < p {
        assert delivered[q].key.Down? == delivered[p].key.Down?;
      }
    }
  }

  // A mail on an incident is about the incident's server, kind and item.
  ghost predicate NamesIncident(s: State, m: Mail) {
    m.incident.Some? ==>
      && m.incident.value < |s.incidents|
      && var topic := s.incidents[m.incident.value].topic; m.key == Down(topic) || m.key == Up(topic)
  }

  ghost predicate AllNamed(s: State) {
    forall p :: 0 <= p < |s.delivered| ==> NamesIncident(s, s.delivered[p])
  }

  lemma {:induction false} RunKeepsNames(now: int, actions: seq<Action>)
    ensures AllNamed(Run(now, actions))
  {
    if actions != [] {
      var s, t := Run(now, actions[..|actions| - 1]), Run(now, actions);
      RunKeepsNames(now, actions[..|actions| - 1]);
      forall p | 0 <= p < |t.delivered| ensures NamesIncident(t, t.delivered[p]) {
        if p < |s.delivered| {
          assert t.delivered[p] == s.delivered[p];
          assert NamesIncident(s, s.delivered[p]);
        }
      }
    }
  }

  /** Two delivered mails with the same key are at least its minimum gap apart, whatever sends were
      refused in between. */
  lemma MailsArePaced(now: int, actions: seq<Action>, p: nat, q: nat)
    requires var delivered := Run(now, actions).delivered; p < q < |delivered| && delivered[p].key == delivered[q].key
    ensures var delivered := Run(now, actions).delivered;
      && delivered[p].at + MinGap(delivered[p].key) <= delivered[q].at
      && (delivered[p].key.Down? ==> delivered[p].at + 600_000 <= delivered[q].at)
      && (delivered[p].key.ConfigDown? ==> delivered[p].at + 3_300_000 <= delivered[q].at)
  {
    RunKeepsInv(now, actions);
  }

  // ---- The services as the source writes them -------------------------------------------

  // No mail of this key has the slot: ten minutes between outages, 55 between failed config tests.
  predicate Due(lastSent: map<MailKey, int>, key: MailKey, now: int) {
    var last := if key in lastSent then lastSent[key] else 0;
    now - last >= if key.Down? then 600_000 else if key.ConfigDown? then 3_300_000 else 0
  }

  // An outage that was mailed and is still open.
  predicate ToAnnounce(incident: Incident, topic: Topic) {
    incident.open && incident.notified && incident.topic == topic
  }

  class Monitor {
    var incidents: seq<Incident>
    var lastSent: map<MailKey, int>
    ghost var delivered: seq<Mail>

    ghost function View(now: int): State
      reads this
    {
      State(now, incidents, lastSent, delivered)
    }

    constructor ()
      ensures forall now :: View(now) == Start(now)
    {
      incidents, lastSent, delivered := [], map[], [];
    }

    /** sendAlert. */
    method SendAlert(now: int, key: MailKey, accepted: bool, ghost incident: Option<nat>) returns (ok: bool)
      modifies this`lastSent, this`delivered
      ensures View(now) == Alert(old(View(now)), key, accepted, incident)
      ensures ok <==> accepted && Due(old(lastSent), key, now)
      ensures delivered == if ok then old(delivered) + [Mail(key, now, incident)] else old(delivered)
      ensures lastSent ==
        if !Due(old(lastSent), key, now) then old(lastSent)
        else if accepted then old(lastSent)[key := now]
        else old(lastSent) - {key}
    {
      var prev := if key in lastSent then lastSent[key] else 0;
      if now - prev < MinGap(key) {
        return false;
      }
      lastSent := lastSent[key := now];
      if !accepted {
        lastSent := lastSent - {key};
      } else {
        delivered := delivered + [Mail(key, now, incident)];
      }
      return accepted;
    }

    method OpenIncident(now: int, topic: Topic, alert: bool, accepted: bool)
      modifies this
      ensures View(now) == OpenStep(old(View(now)), topic, alert, accepted)
      ensures (exists i :: 0 <= i < |old(incidents)| && old(incidents)[i].open && old(incidents)[i].topic == topic) ==>
        incidents == old(incidents) && delivered == old(delivered) && lastSent == old(lastSent)
      ensures !(exists i :: 0 <= i < |old(incidents)| && old(incidents)[i].open && old(incidents)[i].topic == topic) ==>
        var mailed := alert && accepted && Due(old(lastSent), Down(topic), now);
        && incidents == old(incidents) + [Incident(topic, true, mailed)]
        && delivered == if mailed then old(delivered) + [Mail(Down(topic), now, Some(|old(incidents)|))] else old(delivered)
    {
      if exists i :: 0 <= i < |incidents| && incidents[i].open && incidents[i].topic == topic {
        return;
      }
      var i := |incidents|;
      incidents := incidents + [Incident(topic, true, false)];
      if alert {
        var ok := SendAlert(now, Down(topic), accepted, Some(i));
        if ok {
          incidents := incidents[i := incidents[i].(notified := true)];
        }
      }
    }

    method ResolveIncidents(now: int, topic: Topic, alert: bool, accepted: bool)
      modifies this
      ensures View(now) == ResolveStep(old(View(now)), topic, alert, accepted)
      ensures |incidents| == |old(incidents)|
      ensures forall i :: 0 <= i < |incidents| ==>
        incidents[i] == if old(incidents)[i].topic == topic then old(incidents)[i].(open := false) else old(incidents)[i]
      ensures delivered != old(delivered) <==>
        && alert && accepted && Due(old(lastSent), Up(topic), now)
        && exists i :: 0 <= i < |old(incidents)| && ToAnnounce(old(incidents)[i], topic)
      ensures delivered != old(delivered) ==>
        exists i :: 0 <= i < |old(incidents)| && ToAnnounce(old(incidents)[i], topic)
                    && delivered == old(delivered) + [Mail(Up(topic), now, Some(i))]
    {
      var announced := Announced(incidents, topic);
      for i := 0 to |incidents|
        invariant |incidents| == |old(incidents)|
        invariant forall j :: i <= j < |incidents| ==> incidents[j] == old(incidents)[j]
        invariant forall j :: 0 <= j < i ==> incidents[j] == Close(old(incidents), topic)[j]
        invariant lastSent == old(lastSent) && delivered == old(delivered)
      {
        if incidents[i].open && incidents[i].topic == topic {
          incidents := incidents[i := incidents[i].(open := false)];
        }
      }
      assert incidents == Close(old(incidents), topic);
      if alert && announced.Some? {
        var _ := SendAlert(now, Up(topic), accepted, announced);
      }
    }

    /** The incident half of updateServerStatus: afterwards an incident is open exactly for the
        check that failed. The handshake alerts, SSH is tracked quietly. */
    method UpdateServerStatus(now: int, server: nat, online: bool, sshOk: bool, accepted: bool)
      modifies this
      ensures HasOpen(incidents, Topic(server, Trojan, None)) == !online
      ensures HasOpen(incidents, Topic(server, Ssh, None)) == !sshOk
      ensures View(now) ==
        Step(Step(old(View(now)),
                  if online then Resolve(Topic(server, Trojan, None), true, accepted) else Open(Topic(server, Trojan, None), true, accepted)),
             if sshOk then Resolve(Topic(server, Ssh, None), false, accepted) else Open(Topic(server, Ssh, None), false, accepted))
    {
      if !online {
        OpenIncident(now, Topic(server, Trojan, None), true, accepted);
      } else {
        ResolveIncidents(now, Topic(server, Trojan, None), true, accepted);
      }
      ghost var middle := View(now);
      OpenAfter(old(View(now)), Topic(server, Trojan, None), true, accepted);
      if !sshOk {
        OpenIncident(now, Topic(server, Ssh, None), false, accepted);
      } else {
        ResolveIncidents(now, Topic(server, Ssh, None), false, accepted);
      }
      OpenAfter(middle, Topic(server, Ssh, None), false, accepted);
      OthersKept(middle, Topic(server, Ssh, None), Topic(server, Trojan, None), false, accepted);
    }
  }

  lemma OpenAfter(s: State, topic: Topic, alert: bool, accepted: bool)
    ensures HasOpen(OpenStep(s, topic, alert, accepted).incidents, topic)
    ensures !HasOpen(ResolveStep(s, topic, alert, accepted).incidents, topic)
  {
    if !HasOpen(s.incidents, topic) {
      var t := OpenStep(s, topic, alert, accepted);
      assert t.incidents[|s.incidents|].open && t.incidents[|s.incidents|].topic == topic;
    }
  }

  lemma OthersKept(s: State, topic: Topic, other: Topic, alert: bool, accepted: bool)
    requires topic != other
    ensures HasOpen(OpenStep(s, topic, alert, accepted).incidents, other) == HasOpen(s.incidents, other)
    ensures HasOpen(ResolveStep(s, topic, alert, accepted).incidents, other) == HasOpen(s.incidents, other)
  {
    var t, u := OpenStep(s, topic, alert, accepted), ResolveStep(s, topic, alert, accepted);
    if i :| 0 <= i < |s.incidents| && s.incidents[i].open && s.incidents[i].topic == other {
      assert t.incidents[i].open && t.incidents[i].topic == other;
      assert u.incidents[i].open && u.incidents[i].topic == other;
    }
    if i :| 0 <= i < |u.incidents| && u.incidents[i].open && u.incidents[i].topic == other {
      assert s.incidents[i].open;
    }
    if i :| 0 <= i < |t.incidents| && t.incidents[i].open && t.incidents[i].topic == other {
      assert s.incidents[i].open;
    }
  }
}
