/** createChallenge, exchangeToken and refreshToken over the nonce, device and session tables. */
module MobileSessions {
  // Each handler is one step. SHA-256 is a constructor, so equal digests come from equal values, and
  // random values are those never issued before. The log is the history the theorems speak of.
  import opened Wrappers
  import NonceProtocol

  const ACCESS_TTL := 900_000

  datatype Digest = Sha256(value: string)

  datatype Key = Key(app: int, device: string)

  datatype Nonce = Nonce(key: Key, expiresAt: int, usedAt: Option<int>)

  datatype Device = Device(active: bool, attestedAt: Option<int>, degradedAt: Option<int>, secretHash: Option<Digest>)

  datatype Session = Session(key: Key, tokenHash: Digest, refreshHash: Digest, expiresAt: int, refreshExpiresAt: int,
                             revokedAt: Option<int>)

  datatype Tokens = Tokens(access: string, refresh: string, secret: string)

  // Environment settings: reverify window, refresh lifetime, fail-open and strict mode.
  datatype Config = Config(reverifyMs: int, refreshTtlMs: int, failOpen: bool, strict: bool)

  // What the attestation provider came to.
  datatype Verdict = Genuine | SystemFailure | Refused

  datatype Via = Throttle | Full | Degraded | Refreshed

  // One minted session: how, when, against which challenge or refresh token, and on what verdict of
  // the provider if it was asked.
  datatype Event = Event(key: Key, via: Via, at: int, credential: string, verdict: Option<Verdict>, tokens: Tokens)

  // A challenge as it was handed out.
  datatype Asked = Asked(key: Key, at: int)

  // The tables, and their history: every random value, challenge and session there ever was.
  datatype State = State(now: int, nonces: map<string, Nonce>, devices: map<Key, Device>, sessions: seq<Session>,
                         issued: set<string>, asked: map<string, Asked>, log: seq<Event>)

  // ---- The handlers as functions --------------------------------------------------------

  predicate ChallengeUsable(s: State, key: Key, challenge: string) {
    && challenge in s.nonces
    && s.nonces[challenge].key == key
    && s.nonces[challenge].usedAt.None?
    && s.now <= s.nonces[challenge].expiresAt
  }

  predicate RecentlyAttested(s: State, cfg: Config, key: Key) {
    && key in s.devices && s.devices[key].active
    && s.devices[key].attestedAt.Some?
    && s.now - s.devices[key].attestedAt.value < cfg.reverifyMs
  }

  /** The way an exchange is granted, if it is. */
  function Grant(s: State, cfg: Config, key: Key, challenge: string, verdict: Verdict): Option<Via> {
    if !ChallengeUsable(s, key, challenge) then None
    else if RecentlyAttested(s, cfg, key) then Some(Throttle)
    else match verdict
      case Genuine => Some(Full)
      case SystemFailure => if cfg.failOpen && cfg.strict then Some(Degraded) else None
      case Refused => None
  }

  predicate FreshTokens(s: State, t: Tokens) {
    && t.access !in s.issued && t.refresh !in s.issued && t.secret !in s.issued
    && t.access != t.refresh && t.refresh != t.secret && t.access != t.secret
  }

  function DeviceAfter(s: State, key: Key, via: Via): Device {
    var d := if key in s.devices then s.devices[key] else Device(true, None, None, None);
    match via
    case Full => d.(active := true, attestedAt := Some(s.now), degradedAt := None)
    case Degraded => d.(active := true, degradedAt := Some(s.now))
    case _ => d
  }

  // createSession: a new row, and the device takes over the new secret.
  function Minted(s: State, cfg: Config, key: Key, device: Device, event: Event): State {
    var t := event.tokens;
    s.(sessions := s.sessions + [Session(key, Sha256(t.access), Sha256(t.refresh), s.now + ACCESS_TTL,
                                         s.now + cfg.refreshTtlMs, None)],
       devices := s.devices[key := device.(secretHash := Some(Sha256(t.secret)))],
       issued := s.issued + {t.access, t.refresh, t.secret},
       log := s.log + [event])
  }

  // The provider is asked only past the throttle.
  function ExchangeEvent(now: int, key: Key, via: Via, challenge: string, verdict: Verdict, t: Tokens): Event {
    Event(key, via, now, challenge, if via.Throttle? then None else Some(verdict), t)
  }

  function Exchange(s: State, cfg: Config, key: Key, challenge: string, verdict: Verdict, t: Tokens): State {
    match Grant(s, cfg, key, challenge, verdict)
    case None => s
    case Some(via) =>
      var used := s.(nonces := s.nonces[challenge := s.nonces[challenge].(usedAt := Some(s.now))]);
      Minted(used, cfg, key, DeviceAfter(s, key, via), ExchangeEvent(s.now, key, via, challenge, verdict, t))
  }

  // The newest unrevoked session of the device with this refresh token.
  function FindSession(sessions: seq<Session>, key: Key, refreshHash: Digest): Option<nat> {
    if sessions == [] then None
    else
      var n := |sessions| - 1;
      if sessions[n].key == key && sessions[n].refreshHash == refreshHash && sessions[n].revokedAt.None? then Some(n)
      else FindSession(sessions[..n], key, refreshHash)
  }

  lemma {:induction false} FindSessionSound(sessions: seq<Session>, key: Key, h: Digest)
    ensures var r := FindSession(sessions, key, h);
      r.Some? ==> r.value < |sessions| && sessions[r.value].key == key && sessions[r.value].refreshHash == h
                  && sessions[r.value].revokedAt.None?
                  && forall i :: r.value < i < |sessions| && sessions[i].key == key && sessions[i].refreshHash == h ==>
                       sessions[i].revokedAt.Some?
    ensures FindSession(sessions, key, h).None? ==>
      forall i :: 0 <= i < |sessions| && sessions[i].key == key && sessions[i].refreshHash == h ==> sessions[i].revokedAt.Some?
  {
    if sessions != [] {
      var n := |sessions| - 1;
      FindSessionSound(sessions[..n], key, h);
      assert forall i :: 0 <= i < n ==> sessions[..n][i] == sessions[i];
    }
  }

  function Refresh(s: State, cfg: Config, key: Key, token: string, t: Tokens): State {
    if key !in s.devices || !s.devices[key].active then s
    else
      var found := FindSession(s.sessions, key, Sha256(token));
      FindSessionSound(s.sessions, key, Sha256(token));
      if found.None? || s.sessions[found.value].refreshExpiresAt < s.now then s
      else
        var i := found.value;
        var revoked := s.(sessions := s.sessions[i := s.sessions[i].(revokedAt := Some(s.now))]);
        Minted(revoked, cfg, key, s.devices[key], Event(key, Refreshed, s.now, token, None, t))
  }

  function Challenge(s: State, key: Key, nonce: string): State {
    s.(nonces := s.nonces[nonce := Nonce(key, s.now + NonceProtocol.CHALLENGE_TTL, None)], issued := s.issued + {nonce},
       asked := s.asked[nonce := Asked(key, s.now)])
  }

  function Purge(s: State): State {
    s.(nonces := map n | n in s.nonces && s.nonces[n].expiresAt >= s.now :: s.nonces[n])
  }

  datatype Action =
    | Tick(ms: nat)
    | AskChallenge(key: Key, nonce: string)
    | AskExchange(key: Key, challenge: string, verdict: Verdict, tokens: Tokens)
    | AskRefresh(key: Key, token: string, tokens: Tokens)
    | PurgeNonces
    | SetStatus(key: Key, active: bool)  // the column is read by every query; nothing here clears it

  function Step(s: State, cfg: Config, a: Action): State {
    match a
    case Tick(ms) => s.(now := s.now + ms)
    case AskChallenge(key, nonce) => if nonce in s.issued then s else Challenge(s, key, nonce)
    case AskExchange(key, challenge, verdict, t) =>
      if FreshTokens(s, t) then Exchange(s, cfg, key, challenge, verdict, t) else s
    case AskRefresh(key, token, t) => if FreshTokens(s, t) then Refresh(s, cfg, key, token, t) else s
    case PurgeNonces => Purge(s)
    case SetStatus(key, active) =>
      if key in s.devices then s.(devices := s.devices[key := s.devices[key].(active := active)]) else s
  }

  function Start(now: int): State {
    State(now, map[], map[], [], {}, map[], [])
  }

  function Run(cfg: Config, now: int, actions: seq<Action>): State {
    if actions == [] then Start(now)
    else Step(Run(cfg, now, actions[..|actions| - 1]), cfg, actions[|actions| - 1])
  }

  // ---- What the log says ----------------------------------------------------------------

  // The last session of a device granted on a real attestation.
  function LastFull(log: seq<Event>, key: Key): Option<int> {
    if log == [] then None
    else
      var e := log[|log| - 1];
      if e.key == key && e.via.Full? then Some(e.at) else LastFull(log[..|log| - 1], key)
  }

  // The last session granted past the throttle, on an attestation or on fail-open.
  function LastFullPath(log: seq<Event>, key: Key): Option<Event> {
    if log == [] then None
    else
      var e := log[|log| - 1];
      if e.key == key && (e.via.Full? || e.via.Degraded?) then Some(e) else LastFullPath(log[..|log| - 1], key)
  }

  function Newest(log: seq<Event>, key: Key): Option<Event> {
    if log == [] then None
    else if log[|log| - 1].key == key then Some(log[|log| - 1])
    else Newest(log[..|log| - 1], key)
  }

  function Exchanges(log: seq<Event>, key: Key): nat {
    if log == [] then 0
    else
      var e := log[|log| - 1];
      Exchanges(log[..|log| - 1], key) + (if e.key == key && !e.via.Refreshed? then 1 else 0)
  }

  function Unrevoked(sessions: seq<Session>, key: Key): nat {
    if sessions == [] then 0
    else
      var r := sessions[|sessions| - 1];
      Unrevoked(sessions[..|sessions| - 1], key) + (if r.key == key && r.revokedAt.None? then 1 else 0)
  }

  function DegradedMark(last: Option<Event>): Option<int> {
    if last.Some? && last.value.via.Degraded? then Some(last.value.at) else None
  }

  // ---- Invariants over every run --------------------------------------------------------

  // Every device row mirrors its history.
  ghost predicate Mirrors(s: State) {
    forall key ::
      if key in s.devices then
        && Newest(s.log, key).Some?
        && s.devices[key].attestedAt == LastFull(s.log, key)
        && s.devices[key].degradedAt == DegradedMark(LastFullPath(s.log, key))
        && s.devices[key].secretHash == Some(Sha256(Newest(s.log, key).value.tokens.secret))
      else
        Newest(s.log, key).None? && LastFull(s.log, key).None? && LastFullPath(s.log, key).None?
  }

  ghost predicate ThrottleEarned(cfg: Config, log: seq<Event>, i: nat)
    requires i < |log|
  {
    var anchor := LastFull(log[..i], log[i].key);
    log[i].via.Throttle? ==> anchor.Some? && log[i].at - anchor.value < cfg.reverifyMs
  }

  ghost predicate Throttled(s: State, cfg: Config) {
    forall i :: 0 <= i < |s.log| ==> ThrottleEarned(cfg, s.log, i)
  }

  ghost predicate Balanced(s: State) {
    forall key :: Unrevoked(s.sessions, key) == Exchanges(s.log, key)
  }

  ghost predicate Known(s: State) {
    && (forall n :: n in s.nonces ==> n in s.issued)
    && (forall k :: 0 <= k < |s.sessions| ==> s.sessions[k].refreshHash.value in s.issued)
    && (forall k, l :: 0 <= k < l < |s.sessions| ==> s.sessions[k].refreshHash != s.sessions[l].refreshHash)
    && (forall i :: 0 <= i < |s.log| ==> s.log[i].credential in s.issued)
  }

  // The credential of a logged session cannot be used again.
  ghost predicate Spent(s: State, e: Event) {
    if e.via.Refreshed?
    then forall k :: 0 <= k < |s.sessions| && s.sessions[k].refreshHash == Sha256(e.credential) ==> s.sessions[k].revokedAt.Some?
    else e.credential in s.nonces ==> s.nonces[e.credential].usedAt.Some?
  }

  ghost predicate AllSpent(s: State) {
    forall i :: 0 <= i < |s.log| ==> Spent(s, s.log[i])
  }

  ghost predicate OneEach(log: seq<Event>) {
    forall i, j :: 0 <= i < j < |log| && log[i].via.Refreshed? == log[j].via.Refreshed? ==>
      log[i].credential != log[j].credential
  }

  // Session rows are what their minting made them.
  ghost predicate Recorded(s: State, cfg: Config) {
    && |s.sessions| == |s.log|
    && (forall k :: 0 <= k < |s.log| ==> SessionOf(s.sessions[k], s.log[k], cfg) && s.log[k].at <= s.now)
  }

  // Nonce rows are what their issue and their exchange made them.
  ghost predicate Standing(s: State) {
    && (forall n :: n in s.asked ==> n in s.issued && s.asked[n].at <= s.now)
    && (forall n :: n in s.nonces ==>
          n in s.asked && s.nonces[n].key == s.asked[n].key && s.nonces[n].expiresAt == s.asked[n].at + 300_000)
    && (forall n :: n in s.asked && s.now <= s.asked[n].at + 300_000 ==> n in s.nonces)
    && (forall n :: n in s.nonces && s.nonces[n].usedAt.Some? ==> exists i :: 0 <= i < |s.log| && Exchanged(s.log[i], n))
  }

  predicate Exchanged(e: Event, challenge: string) {
    !e.via.Refreshed? && e.credential == challenge
  }

  // Access for 15 minutes, refresh for the configured time, both from the minting on.
  ghost predicate SessionOf(row: Session, e: Event, cfg: Config) {
    && row.key == e.key && row.tokenHash == Sha256(e.tokens.access) && row.refreshHash == Sha256(e.tokens.refresh)
    && row.expiresAt == e.at + 900_000 && row.refreshExpiresAt == e.at + cfg.refreshTtlMs
  }

  // What the i-th session was granted on.
  ghost predicate Entitled(s: State, cfg: Config, i: nat)
    requires i < |s.log|
  {
    var e := s.log[i];
    && (e.via.Full? ==> e.verdict == Some(Genuine))
    && (e.via.Degraded? ==> e.verdict == Some(SystemFailure) && cfg.failOpen && cfg.strict)
    && (!e.via.Refreshed? ==>
          e.credential in s.asked && s.asked[e.credential].key == e.key
          && s.asked[e.credential].at <= e.at <= s.asked[e.credential].at + 300_000)
    && (e.via.Refreshed? ==> exists j :: 0 <= j < i && Refreshable(s.log[j], e, cfg))
  }

  // Session d hands out the token that e refreshes, in time and to the same device.
  ghost predicate Refreshable(d: Event, e: Event, cfg: Config) {
    d.tokens.refresh == e.credential && d.key == e.key && d.at <= e.at <= d.at + cfg.refreshTtlMs
  }

  ghost predicate AllEntitled(s: State, cfg: Config) {
    forall i :: 0 <= i < |s.log| ==> Entitled(s, cfg, i)
  }

  lemma StepKeepsRecords(s: State, cfg: Config, a: Action)
    requires Recorded(s, cfg)
    ensures Recorded(Step(s, cfg, a), cfg)
  {
    var t := Step(s, cfg, a);
    if a.AskRefresh? {
      FindSessionSound(s.sessions, a.key, Sha256(a.token));
    }
    forall k | 0 <= k < |t.log| ensures SessionOf(t.sessions[k], t.log[k], cfg) && t.log[k].at <= t.now {
      if k < |s.log| {
        assert SessionOf(s.sessions[k], s.log[k], cfg) && t.log[k] == s.log[k];
      }
    }
  }

  lemma StepKeepsStanding(s: State, cfg: Config, a: Action)
    requires Standing(s)
    ensures Standing(Step(s, cfg, a))
  {
    var t := Step(s, cfg, a);
    forall n | n in t.nonces && t.nonces[n].usedAt.Some? ensures exists i :: 0 <= i < |t.log| && Exchanged(t.log[i], n) {
      if n in s.nonces && s.nonces[n].usedAt.Some? {
        var i :| 0 <= i < |s.log| && Exchanged(s.log[i], n);
        assert t.log[i] == s.log[i];
      } else {
        assert Exchanged(t.log[|s.log|], n);
      }
    }
  }

  // What was earned stays so as the history grows.
  lemma StillEntitled(s: State, t: State, cfg: Config, i: nat)
    requires i < |s.log| <= |t.log| && t.log[..|s.log|] == s.log && Entitled(s, cfg, i)
    requires forall n :: n in s.asked ==> n in t.asked && t.asked[n] == s.asked[n]
    ensures Entitled(t, cfg, i)
  {
    assert forall k :: 0 <= k <= i ==> t.log[k] == s.log[k];
    if s.log[i].via.Refreshed? {
      var j :| 0 <= j < i && Refreshable(s.log[j], s.log[i], cfg);
      assert Refreshable(t.log[j], t.log[i], cfg);
    }
  }

  lemma StepKeepsEntitled(s: State, cfg: Config, a: Action)
    requires Recorded(s, cfg) && Standing(s) && AllEntitled(s, cfg)
    ensures AllEntitled(Step(s, cfg, a), cfg)
  {
    var t := Step(s, cfg, a);
    forall i | 0 <= i < |t.log| ensures Entitled(t, cfg, i) {
      if i < |s.log| {
        assert Entitled(s, cfg, i);
        StillEntitled(s, t, cfg, i);
      } else if a.AskRefresh? {
        RefreshIsEntitled(s, cfg, a.key, a.token, a.tokens);
      }
    }
  }

  lemma RefreshIsEntitled(s: State, cfg: Config, key: Key, token: string, tokens: Tokens)
    requires Recorded(s, cfg) && Refresh(s, cfg, key, token, tokens).log != s.log
    ensures Entitled(Refresh(s, cfg, key, token, tokens), cfg, |s.log|)
  {
    var t := Refresh(s, cfg, key, token, tokens);
    FindSessionSound(s.sessions, key, Sha256(token));
    var k := FindSession(s.sessions, key, Sha256(token)).value;
    assert SessionOf(s.sessions[k], s.log[k], cfg);
    assert t.log[k] == s.log[k] && Refreshable(t.log[k], t.log[|s.log|], cfg);
  }

  ghost predicate Inv(s: State, cfg: Config) {
    && Mirrors(s) && Throttled(s, cfg) && Balanced(s) && Known(s) && AllSpent(s) && OneEach(s.log)
    && Recorded(s, cfg) && Standing(s) && AllEntitled(s, cfg)
  }

  lemma {:induction false} UnrevokedAfterRevoke(sessions: seq<Session>, i: nat, at: int, key: Key)
    requires i < |sessions| && sessions[i].revokedAt.None?
    ensures Unrevoked(sessions[i := sessions[i].(revokedAt := Some(at))], key)
         == Unrevoked(sessions, key) - (if sessions[i].key == key then 1 else 0)
  {
    var n := |sessions| - 1;
    var after := sessions[i := sessions[i].(revokedAt := Some(at))];
    if i == n {
      assert after[..n] == sessions[..n];
    } else {
      assert after[..n] == sessions[..n][i := sessions[i].(revokedAt := Some(at))];
      UnrevokedAfterRevoke(sessions[..n], i, at, key);
    }
  }

  // A grant, seen from the log: a session for the key's device and one more entry.
  lemma MintKeepsMirror(s: State, t: State, key: Key, event: Event, device: Device)
    requires Mirrors(s) && event.key == key && t.log == s.log + [event]
    requires t.devices == s.devices[key := device.(secretHash := Some(Sha256(event.tokens.secret)))]
    requires device.attestedAt == if event.via.Full? then Some(event.at) else LastFull(s.log, key)
    requires device.degradedAt ==
      if event.via.Full? then None else if event.via.Degraded? then Some(event.at) else DegradedMark(LastFullPath(s.log, key))
    ensures Mirrors(t)
  {
    assert t.log[..|t.log| - 1] == s.log;
  }

  lemma StepKeepsMirrors(s: State, cfg: Config, a: Action)
    requires Mirrors(s)
    ensures Mirrors(Step(s, cfg, a))
  {
    var t := Step(s, cfg, a);
    if t.log != s.log {
      var e := t.log[|s.log|];
      assert t.log == s.log + [e];
      match a {
        case AskExchange(key, challenge, verdict, tokens) =>
          MintKeepsMirror(s, t, key, e, DeviceAfter(s, key, e.via));
        case AskRefresh(key, token, tokens) =>
          MintKeepsMirror(s, t, key, e, s.devices[key]);
      }
    }
  }

  lemma StepKeepsThrottled(s: State, cfg: Config, a: Action)
    requires Mirrors(s) && Throttled(s, cfg)
    ensures Throttled(Step(s, cfg, a), cfg)
  {
    var t := Step(s, cfg, a);
    forall i | 0 <= i < |t.log| ensures ThrottleEarned(cfg, t.log, i) {
      if i < |s.log| {
        assert t.log[..i] == s.log[..i];
        assert ThrottleEarned(cfg, s.log, i);
      } else {
        assert t.log[..i] == s.log;
      }
    }
  }

  lemma StepKeepsBalance(s: State, cfg: Config, a: Action)
    requires Balanced(s)
    ensures Balanced(Step(s, cfg, a))
  {
    var t := Step(s, cfg, a);
    if t.log != s.log {
      assert t.log[..|s.log|] == s.log;
      forall key ensures Unrevoked(t.sessions, key) == Exchanges(t.log, key) {
        if a.AskRefresh? {
          FindSessionSound(s.sessions, a.key, Sha256(a.token));
          var i := FindSession(s.sessions, a.key, Sha256(a.token)).value;
          UnrevokedAfterRevoke(s.sessions, i, s.now, key);
          assert t.sessions[..|s.sessions|] == s.sessions[i := s.sessions[i].(revokedAt := Some(s.now))];
        } else {
          assert t.sessions[..|s.sessions|] == s.sessions;
        }
      }
    }
  }

  lemma StepKeepsKnown(s: State, cfg: Config, a: Action)
    requires Known(s)
    ensures Known(Step(s, cfg, a))
  {
    var t := Step(s, cfg, a);
    if a.AskRefresh? && t.log != s.log {
      FindSessionSound(s.sessions, a.key, Sha256(a.token));
      assert Sha256(a.token).value in s.issued;
    }
    forall k, l | 0 <= k < l < |t.sessions| ensures t.sessions[k].refreshHash != t.sessions[l].refreshHash {
      assert t.sessions[k].refreshHash == s.sessions[k].refreshHash;
      assert l < |s.sessions| ==> t.sessions[l].refreshHash == s.sessions[l].refreshHash;
      assert s.sessions[k].refreshHash.value in s.issued;
    }
  }

  lemma StepKeepsSpent(s: State, cfg: Config, a: Action)
    requires Known(s) && AllSpent(s)
    ensures AllSpent(Step(s, cfg, a))
  {
    var t := Step(s, cfg, a);
    if a.AskRefresh? {
      FindSessionSound(s.sessions, a.key, Sha256(a.token));
    }
    forall i | 0 <= i < |t.log| ensures Spent(t, t.log[i]) {
      if i < |s.log| {
        assert t.log[i] == s.log[i] && Spent(s, s.log[i]);
        assert s.log[i].credential in s.issued;
      } else if a.AskRefresh? {
        assert t.log[i].credential == a.token;
        assert Sha256(a.token).value in s.issued;
      }
    }
  }

  lemma StepKeepsOneEach(s: State, cfg: Config, a: Action)
    requires Known(s) && AllSpent(s) && OneEach(s.log)
    ensures OneEach(Step(s, cfg, a).log)
  {
    var t := Step(s, cfg, a);
    if a.AskRefresh? {
      FindSessionSound(s.sessions, a.key, Sha256(a.token));
    }
    forall i, j | 0 <= i < j < |t.log| && t.log[i].via.Refreshed? == t.log[j].via.Refreshed?
      ensures t.log[i].credential != t.log[j].credential
    {
      assert t.log[i] == s.log[i] && Spent(s, s.log[i]);
      if j < |s.log| {
        assert t.log[j] == s.log[j];
      }
    }
  }

  lemma {:induction false} RunKeepsInv(cfg: Config, now: int, actions: seq<Action>)
    ensures Inv(Run(cfg, now, actions), cfg)
  {
    if actions != [] {
      var s, a := Run(cfg, now, actions[..|actions| - 1]), actions[|actions| - 1];
      RunKeepsInv(cfg, now, actions[..|actions| - 1]);
      StepKeepsMirrors(s, cfg, a);
      StepKeepsThrottled(s, cfg, a);
      StepKeepsBalance(s, cfg, a);
      StepKeepsKnown(s, cfg, a);
      StepKeepsSpent(s, cfg, a);
      StepKeepsOneEach(s, cfg, a);
      StepKeepsRecords(s, cfg, a);
      StepKeepsStanding(s, cfg, a);
      StepKeepsEntitled(s, cfg, a);
    }
  }

  // ---- Results --------------------------------------------------------------------------

  /** attested_at is the time of the device's last full attestation, and attest_degraded_at is set
      exactly when the latest exchange past the throttle was granted by failing open. */
  lemma AttestationColumns(cfg: Config, now: int, actions: seq<Action>, key: Key)
    requires key in Run(cfg, now, actions).devices
    ensures var s := Run(cfg, now, actions);
      && s.devices[key].attestedAt == LastFull(s.log, key)
      && s.devices[key].degradedAt == DegradedMark(LastFullPath(s.log, key))
  {
    RunKeepsInv(cfg, now, actions);
  }

  lemma {:induction false} LastFullFound(log: seq<Event>, key: Key)
    requires LastFull(log, key).Some?
    ensures exists j :: 0 <= j < |log| && log[j].key == key && log[j].via.Full? && log[j].at == LastFull(log, key).value
  {
    var n := |log| - 1;
    if !(log[n].key == key && log[n].via.Full?) {
      LastFullFound(log[..n], key);
      var j :| 0 <= j < n && log[..n][j].key == key && log[..n][j].via.Full? && log[..n][j].at == LastFull(log, key).value;
      assert log[j] == log[..n][j];
    }
  }

  /** A session granted without asking the provider follows a full attestation of the same device
      less than the reverify window earlier. */
  lemma ThrottleFollowsAttestation(cfg: Config, now: int, actions: seq<Action>, i: nat)
    requires i < |Run(cfg, now, actions).log| && Run(cfg, now, actions).log[i].via.Throttle?
    ensures var log := Run(cfg, now, actions).log;
      exists j :: 0 <= j < i && log[j].key == log[i].key && log[j].via.Full? && log[i].at - log[j].at < cfg.reverifyMs
  {
    var log := Run(cfg, now, actions).log;
    RunKeepsInv(cfg, now, actions);
    assert ThrottleEarned(cfg, log, i);
    LastFullFound(log[..i], log[i].key);
    var j :| 0 <= j < i && log[..i][j].key == log[i].key && log[..i][j].via.Full?
             && log[..i][j].at == LastFull(log[..i], log[i].key).value;
    assert log[j] == log[..i][j];
  }

  /** Every session there is was earned. Past the throttle the provider vouched for the device, or
      failed in strict mode with failing open allowed. Every challenge was handed out to that device
      no more than five minutes before, and every refresh token came from an earlier session of the
      device that had not outlived it. */
  lemma EverySessionIsEarned(cfg: Config, now: int, actions: seq<Action>, i: nat)
    requires i < |Run(cfg, now, actions).log|
    ensures var s := Run(cfg, now, actions); var e := s.log[i];
      && (e.via.Full? ==> e.verdict == Some(Genuine))
      && (e.via.Degraded? ==> e.verdict == Some(SystemFailure) && cfg.failOpen && cfg.strict)
      && (!e.via.Refreshed? ==>
            e.credential in s.asked && s.asked[e.credential].key == e.key
            && s.asked[e.credential].at <= e.at <= s.asked[e.credential].at + 300_000)
      && (e.via.Refreshed? ==> exists j :: 0 <= j < i && Refreshable(s.log[j], e, cfg))
      && |s.sessions| == |s.log| && SessionOf(s.sessions[i], e, cfg)
  {
    RunKeepsInv(cfg, now, actions);
    assert Entitled(Run(cfg, now, actions), cfg, i);
  }

  /** For five minutes a challenge stands, and is unused as long as nobody has exchanged it. */
  lemma ChallengesStand(cfg: Config, now: int, actions: seq<Action>, n: string)
    requires var s := Run(cfg, now, actions); n in s.asked && s.now <= s.asked[n].at + 300_000
    ensures var s := Run(cfg, now, actions);
      n in s.nonces && s.nonces[n].key == s.asked[n].key
      && (s.nonces[n].usedAt.Some? <==> exists i :: 0 <= i < |s.log| && Exchanged(s.log[i], n))
  {
    RunKeepsInv(cfg, now, actions);
    var s := Run(cfg, now, actions);
    forall i | 0 <= i < |s.log| && Exchanged(s.log[i], n) ensures s.nonces[n].usedAt.Some? {
      assert Spent(s, s.log[i]);
    }
  }

  /** No challenge is exchanged twice and no refresh token is refreshed twice. */
  lemma CredentialsAreSingleUse(cfg: Config, now: int, actions: seq<Action>, i: nat, j: nat)
    requires i < j < |Run(cfg, now, actions).log|
    requires var log := Run(cfg, now, actions).log; log[i].via.Refreshed? == log[j].via.Refreshed?
    ensures Run(cfg, now, actions).log[i].credential != Run(cfg, now, actions).log[j].credential
  {
    RunKeepsInv(cfg, now, actions);
  }

  /** Refreshing replaces sessions, exchanging adds them: a device has as many unrevoked sessions
      as it had successful exchanges, and its secret is that of its newest session. */
  lemma SessionsBalance(cfg: Config, now: int, actions: seq<Action>, key: Key)
    ensures var s := Run(cfg, now, actions);
      && Unrevoked(s.sessions, key) == Exchanges(s.log, key)
      && (key in s.devices <==> Newest(s.log, key).Some?)
      && (key in s.devices ==> s.devices[key].secretHash == Some(Sha256(Newest(s.log, key).value.tokens.secret)))
  {
    RunKeepsInv(cfg, now, actions);
  }

  // ---- The handlers as the source writes them -------------------------------------------

  // The newest session of the device with this refresh token that is not revoked.
  ghost predicate Refreshes(sessions: seq<Session>, k: nat, key: Key, token: string)
    requires k < |sessions|
  {
    && sessions[k].key == key && sessions[k].refreshHash == Sha256(token) && sessions[k].revokedAt.None?
    && forall i :: k < i < |sessions| && sessions[i].key == key && sessions[i].refreshHash == Sha256(token) ==>
         sessions[i].revokedAt.Some?
  }

  /** The three tables, updated row by row; each handler is proved to be its function above. */
  class AuthTables {
    var nonces: map<string, Nonce>
    var devices: map<Key, Device>
    var sessions: seq<Session>
    ghost var issued: set<string>
    ghost var asked: map<string, Asked>
    ghost var log: seq<Event>

    ghost function View(now: int): State
      reads this
    {
      State(now, nonces, devices, sessions, issued, asked, log)
    }

    constructor ()
      ensures forall now :: View(now) == Start(now)
    {
      nonces, devices, sessions, issued, asked, log := map[], map[], [], {}, map[], [];
    }

    method CreateChallenge(now: int, key: Key, nonce: string)
      modifies this
      ensures View(now) == Challenge(old(View(now)), key, nonce)
      ensures nonces == old(nonces)[nonce := Nonce(key, now + 300_000, None)]
    {
      asked := asked[nonce := Asked(key, now)];
      nonces := nonces[nonce := Nonce(key, now + NonceProtocol.CHALLENGE_TTL, None)];
      issued := issued + {nonce};
    }

    method CreateSession(now: int, cfg: Config, key: Key, t: Tokens, ghost event: Event)
      requires key in devices && event.tokens == t
      modifies this
      ensures View(now) == Minted(old(View(now)), cfg, key, old(devices[key]), event)
    {
      sessions := sessions + [Session(key, Sha256(t.access), Sha256(t.refresh), now + ACCESS_TTL,
                                      now + cfg.refreshTtlMs, None)];
      devices := devices[key := devices[key].(secretHash := Some(Sha256(t.secret)))];
      issued := issued + {t.access, t.refresh, t.secret};
      log := log + [event];
    }

    // findOrCreate and the update behind it: a full attestation anchors the reverify window, a
    // degraded one only leaves its mark.
    method StampDevice(now: int, key: Key, degraded: bool)
      modifies this`devices
      ensures devices == old(devices)[key := DeviceAfter(old(View(now)), key, if degraded then Degraded else Full)]
    {
      if key !in devices {
        devices := devices[key := Device(true, None, None, None)];
      }
      var device := devices[key].(active := true);
      if degraded {
        device := device.(degradedAt := Some(now));
      } else {
        device := device.(attestedAt := Some(now), degradedAt := None);
      }
      devices := devices[key := device];
    }

    // The exchange past the throttle, once the provider's verdict allows it.
    method GrantFully(now: int, cfg: Config, key: Key, challenge: string, degraded: bool, verdict: Verdict, t: Tokens)
      requires challenge in nonces
      modifies this
      ensures var s, via := old(View(now)), if degraded then Degraded else Full;
        View(now) == Minted(s.(nonces := s.nonces[challenge := s.nonces[challenge].(usedAt := Some(now))]), cfg, key,
                            DeviceAfter(s, key, via), ExchangeEvent(now, key, via, challenge, verdict, t))
    {
      nonces := nonces[challenge := nonces[challenge].(usedAt := Some(now))];
      StampDevice(now, key, degraded);
      CreateSession(now, cfg, key, t, ExchangeEvent(now, key, if degraded then Degraded else Full, challenge, verdict, t));
    }

    method ExchangeToken(now: int, cfg: Config, key: Key, challenge: string, verdict: Verdict, t: Tokens)
      returns (granted: bool)
      modifies this
      ensures View(now) == Exchange(old(View(now)), cfg, key, challenge, verdict, t)
      ensures granted <==>
        && challenge in old(nonces) && old(nonces)[challenge].key == key
        && old(nonces)[challenge].usedAt.None? && now <= old(nonces)[challenge].expiresAt
        && (|| (key in old(devices) && old(devices)[key].active && old(devices)[key].attestedAt.Some?
                && now - old(devices)[key].attestedAt.value < cfg.reverifyMs)
            || verdict.Genuine?
            || (verdict.SystemFailure? && cfg.failOpen && cfg.strict))
      ensures !granted ==> nonces == old(nonces) && devices == old(devices) && sessions == old(sessions)
      ensures granted ==>
        && nonces == old(nonces)[challenge := old(nonces)[challenge].(usedAt := Some(now))]
        && devices.Keys == old(devices).Keys + {key} && devices[key].active
        && devices[key].secretHash == Some(Sha256(t.secret))
        && sessions == old(sessions) + [Session(key, Sha256(t.access), Sha256(t.refresh), now + 900_000,
                                                now + cfg.refreshTtlMs, None)]
    {
      if challenge !in nonces {
        return false;
      }
      var nonce := nonces[challenge];
      if nonce.usedAt.Some? || nonce.expiresAt < now || nonce.key != key {
        return false;
      }
      if key in devices && devices[key].active {
        var existing := devices[key];
        if existing.attestedAt.Some? && now - existing.attestedAt.value < cfg.reverifyMs {
          nonces := nonces[challenge := nonce.(usedAt := Some(now))];
          CreateSession(now, cfg, key, t, ExchangeEvent(now, key, Throttle, challenge, verdict, t));
          return true;
        }
      }
      var degraded := false;
      if !verdict.Genuine? {
        if verdict.SystemFailure? && cfg.failOpen && cfg.strict {
          degraded := true;
        } else {
          return false;
        }
      }
      GrantFully(now, cfg, key, challenge, degraded, verdict, t);
      return true;
    }

    method RefreshToken(now: int, cfg: Config, key: Key, token: string, t: Tokens) returns (granted: bool)
      modifies this
      ensures View(now) == Refresh(old(View(now)), cfg, key, token, t)
      ensures granted <==>
        && key in old(devices) && old(devices)[key].active
        && exists k :: 0 <= k < |old(sessions)| && Refreshes(old(sessions), k, key, token) && now <= old(sessions)[k].refreshExpiresAt
      ensures !granted ==> devices == old(devices) && sessions == old(sessions)
      ensures granted ==>
        exists k ::
          && 0 <= k < |old(sessions)| && Refreshes(old(sessions), k, key, token)
          && sessions == old(sessions)[k := old(sessions)[k].(revokedAt := Some(now))]
                         + [Session(key, Sha256(t.access), Sha256(t.refresh), now + 900_000, now + cfg.refreshTtlMs, None)]
      ensures nonces == old(nonces)
    {
      if key !in devices || !devices[key].active {
        return false;
      }
      var found := FindSession(sessions, key, Sha256(token));
      FindSessionSound(sessions, key, Sha256(token));
      if found.None? || sessions[found.value].refreshExpiresAt < now {
        return false;
      }
      sessions := sessions[found.value := sessions[found.value].(revokedAt := Some(now))];
      CreateSession(now, cfg, key, t, Event(key, Refreshed, now, token, None, t));
      return true;
    }
  }
}
