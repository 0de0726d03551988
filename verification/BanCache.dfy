/** The ban rules of banService, kept as two sets of colon-joined strings. */
module BanCache {
  import opened Wrappers
  import opened Runs
  import opened Text

  const TTL := 30_000  // TTL_MS

  datatype BanType = Ip | DeviceId | FirebaseUid

  datatype Rule = Rule(app: Option<nat>, kind: BanType, value: string)

  function TypeName(k: BanType): string {
    match k
    case Ip => "ip"
    case DeviceId => "device_id"
    case FirebaseUid => "firebase_uid"
  }

  function GlobalKey(k: BanType, value: string): string {
    TypeName(k) + ":" + value
  }

  function ScopedKey(app: nat, k: BanType, value: string): string {
    Decimal(app) + ":" + GlobalKey(k, value)
  }

  // ---- The keys can be read back --------------------------------------------------------

  lemma TypeNames(k: BanType)
    ensures ':' !in TypeName(k)
    ensures forall l :: TypeName(k) == TypeName(l) ==> k == l
  {
    assert forall l :: TypeName(k) == TypeName(l) ==> TypeName(k)[0] == TypeName(l)[0];
  }

  // Up to the first colon a string determines its pieces.
  lemma {:induction false} FirstColon(p: string, q: string, a: string, b: string)
    requires ':' !in p && ':' !in q && p + ":" + a == q + ":" + b
    ensures p == q && a == b
  {
    var s, t := p + ":" + a, q + ":" + b;
    if p == "" || q == "" {
      assert s[0] == t[0];
      assert s[1..] == t[1..];
      assert p == "" ==> s[1..] == a;
      assert q == "" ==> t[1..] == b;
    } else {
      assert s[0] == p[0] && t[0] == q[0];
      assert s[1..] == p[1..] + ":" + a && t[1..] == q[1..] + ":" + b;
      FirstColon(p[1..], q[1..], a, b);
      assert p == [p[0]] + p[1..] && q == [q[0]] + q[1..];
    }
  }

  lemma GlobalKeyInjective(k: BanType, v: string, l: BanType, w: string)
    requires GlobalKey(k, v) == GlobalKey(l, w)
    ensures k == l && v == w
  {
    TypeNames(k);
    TypeNames(l);
    FirstColon(TypeName(k), TypeName(l), v, w);
  }

  lemma ScopedKeyInjective(m: nat, k: BanType, v: string, n: nat, l: BanType, w: string)
    requires ScopedKey(m, k, v) == ScopedKey(n, l, w)
    ensures m == n && k == l && v == w
  {
    FirstColon(Decimal(m), Decimal(n), GlobalKey(k, v), GlobalKey(l, w));
    DecimalInjective(m, n);
    GlobalKeyInjective(k, v, l, w);
  }

  // ---- Reference: a plain scan of the rules ---------------------------------------------

  predicate Applies(r: Rule, app: Option<nat>, kind: BanType, value: string) {
    r.kind == kind && r.value == value && (r.app.None? || r.app == app)
  }

  predicate Banned(rules: seq<Rule>, app: Option<nat>, kind: BanType, value: string) {
    value != "" && exists i :: 0 <= i < |rules| && Applies(rules[i], app, kind, value)
  }

  lemma BannedMeans(rules: seq<Rule>, app: Option<nat>, kind: BanType, value: string)
    ensures Banned(rules, app, kind, value) <==>
      value != "" && exists r :: r in rules && r.kind == kind && r.value == value && (r.app.None? || r.app == app)
  {
    if r :| r in rules && r.kind == kind && r.value == value && (r.app.None? || r.app == app) {
      var i :| 0 <= i < |rules| && rules[i] == r;
      assert Applies(rules[i], app, kind, value);
    }
  }

  ghost predicate Mirrors(rules: seq<Rule>, globals: set<string>, scoped: set<string>) {
    && (forall x :: x in globals <==> AnyGlobal(rules, x))
    && (forall x :: x in scoped <==> AnyScoped(rules, x))
  }

  ghost predicate AnyGlobal(rules: seq<Rule>, x: string) {
    exists i :: 0 <= i < |rules| && IsGlobal(rules[i], x)
  }

  ghost predicate AnyScoped(rules: seq<Rule>, x: string) {
    exists i :: 0 <= i < |rules| && IsScoped(rules[i], x)
  }

  ghost predicate IsGlobal(r: Rule, s: string) {
    r.app.None? && s == GlobalKey(r.kind, r.value)
  }

  ghost predicate IsScoped(r: Rule, s: string) {
    r.app.Some? && s == ScopedKey(r.app.value, r.kind, r.value)
  }

  /** Looking up the joined keys is the same as scanning the rules. */
  lemma LookupIsScan(rules: seq<Rule>, globals: set<string>, scoped: set<string>, app: Option<nat>, kind: BanType, value: string)
    requires Mirrors(rules, globals, scoped)
    ensures GlobalKey(kind, value) in globals || (app.Some? && ScopedKey(app.value, kind, value) in scoped)
      <==> exists i :: 0 <= i < |rules| && Applies(rules[i], app, kind, value)
  {
    if GlobalKey(kind, value) in globals {
      var i :| 0 <= i < |rules| && IsGlobal(rules[i], GlobalKey(kind, value));
      GlobalKeyInjective(kind, value, rules[i].kind, rules[i].value);
      assert Applies(rules[i], app, kind, value);
    }
    if app.Some? && ScopedKey(app.value, kind, value) in scoped {
      var i :| 0 <= i < |rules| && IsScoped(rules[i], ScopedKey(app.value, kind, value));
      ScopedKeyInjective(app.value, kind, value, rules[i].app.value, rules[i].kind, rules[i].value);
      assert Applies(rules[i], app, kind, value);
    }
    if i :| 0 <= i < |rules| && Applies(rules[i], app, kind, value) {
      assert rules[i].app.None? ==> IsGlobal(rules[i], GlobalKey(kind, value));
      assert rules[i].app.Some? ==> IsScoped(rules[i], ScopedKey(app.value, kind, value));
    }
  }

  lemma OneMoreGlobal(shorter: seq<Rule>, r: Rule, x: string)
    ensures AnyGlobal(shorter + [r], x) <==> AnyGlobal(shorter, x) || IsGlobal(r, x)
  {
    var longer := shorter + [r];
    assert longer[|shorter|] == r;
    if k :| 0 <= k < |shorter| && IsGlobal(shorter[k], x) {
      assert longer[k] == shorter[k];
    }
  }

  lemma OneMoreScoped(shorter: seq<Rule>, r: Rule, x: string)
    ensures AnyScoped(shorter + [r], x) <==> AnyScoped(shorter, x) || IsScoped(r, x)
  {
    var longer := shorter + [r];
    assert longer[|shorter|] == r;
    if k :| 0 <= k < |shorter| && IsScoped(shorter[k], x) {
      assert longer[k] == shorter[k];
    }
  }

  lemma MirrorsOneMore(rules: seq<Rule>, i: nat, g0: set<string>, s0: set<string>, g: set<string>, s: set<string>)
    requires i < |rules| && Mirrors(rules[..i], g0, s0)
    requires forall x :: x in g <==> x in g0 || IsGlobal(rules[i], x)
    requires forall x :: x in s <==> x in s0 || IsScoped(rules[i], x)
    ensures Mirrors(rules[..i + 1], g, s)
  {
    assert rules[..i + 1] == rules[..i] + [rules[i]];
    forall x
      ensures x in g <==> AnyGlobal(rules[..i + 1], x)
      ensures x in s <==> AnyScoped(rules[..i + 1], x)
    {
      OneMoreGlobal(rules[..i], rules[i], x);
      OneMoreScoped(rules[..i], rules[i], x);
    }
  }

  /** The two sets refresh builds from the rules it read. */
  method BuildSets(rules: seq<Rule>) returns (g: set<string>, s: set<string>)
    ensures Mirrors(rules, g, s)
  {
    g, s := {}, {};
    for i := 0 to |rules|
      invariant Mirrors(rules[..i], g, s)
    {
      ghost var g0, s0 := g, s;
      var r := rules[i];
      if r.app.None? {
        g := g + {GlobalKey(r.kind, r.value)};
      } else {
        s := s + {ScopedKey(r.app.value, r.kind, r.value)};
      }
      MirrorsOneMore(rules, i, g0, s0, g, s);
    }
    assert rules[..|rules|] == rules;
  }

  /** The module's variables beside the system they are part of: every method is the step the
      theorems below speak of, and keeps what holds in every interleaving. */
  class BanService {
    var globalSet: set<string>
    var scopedSet: set<string>
    var loadedAt: int
    var loading: bool
    ghost var state: State

    ghost predicate Valid()
      reads this
    {
      && Inv(state)
      && Mirrors(RulesOf(state.shown), globalSet, scopedSet)
      && loadedAt == state.loadedAt && loading == state.loading.Some?
    }

    constructor (ghost now: int, ghost rules: seq<Rule>)
      requires TTL <= now
      ensures Valid() && state == Start(now, rules)
    {
      globalSet, scopedSet, loadedAt, loading, state := {}, {}, 0, false, Start(now, rules);
    }

    // Time, the table and the database move on without the module.
    ghost method Elsewhere(a: Action)
      requires Valid() && (a.Tick? || a.Write? || a.Read?)
      modifies this`state
      ensures Valid() && state == Step(old(state), a)
    {
      StepKeepsInv(state, a);
      state := Step(state, a);
    }

    /** The guard: ensureFresh, and unless that has to wait the lookup behind it. */
    method Guard(q: Question, now: int) returns (banned: Option<bool>)
      requires Valid() && now == state.now && !q.kind.FirebaseUid?
      modifies this`loading, this`state
      ensures Valid() && state == Step(old(state), Ask(q))
      ensures banned.None? <==> now - loadedAt >= 30_000
      ensures banned.None? ==> loading && state.waiting == old(state.waiting) + [q]
      ensures banned.Some? ==> state.answers != [] && var a := state.answers[|state.answers| - 1];
        a.about == q && a.banned == banned.value && a.at == now && Faithful(state, a)
    {
      StepKeepsInv(state, Ask(q));
      state := Step(state, Ask(q));
      if now - loadedAt < TTL {
        var b := IsBannedValue(q.app, q.kind, q.value);
        return Some(b);
      }
      loading := true;
      return None;
    }

    /** refresh, once the rules are read: both sets are rebuilt, and everybody who waited is told
        what they say. */
    method Refresh(rules: seq<Rule>, now: int)
      requires Valid() && now == state.now && state.loading.Some? && state.loading.value.rules == Some(rules)
      modifies this
      ensures Valid() && state == Step(old(state), Complete)
      ensures RulesOf(state.shown) == rules && state.waiting == []
      ensures |state.answers| == |old(state).answers| + |old(state).waiting|
      ensures forall i :: 0 <= i < |old(state).waiting| ==>
        var a, q := state.answers[|old(state).answers| + i], old(state).waiting[i];
        a.about == q && a.banned == Banned(rules, q.app, q.kind, q.value) && a.at == now
    {
      var g, s := BuildSets(rules);
      StepKeepsInv(state, Complete);
      state := Step(state, Complete);
      globalSet, scopedSet, loadedAt, loading := g, s, now, false;
    }

    /** A refresh that failed leaves the sets and their age alone. */
    method RefreshFailed()
      requires Valid() && loading
      modifies this`loading, this`state
      ensures Valid() && state == Step(old(state), Fail)
    {
      StepKeepsInv(state, Fail);
      state := Step(state, Fail);
      loading := false;
    }

    /** The next guard waits for a refresh; the sets stay in use for whoever does not wait. */
    method Invalidate()
      requires Valid()
      modifies this`loadedAt, this`state
      ensures Valid() && state == Step(old(state), Action.Invalidate)
      ensures !Fresh(state)
    {
      StepKeepsInv(state, Action.Invalidate);
      state := Step(state, Action.Invalidate);
      loadedAt := 0;
    }

    /** isBannedValue: agrees with a scan of the rules last loaded; an empty value is never banned. */
    method IsBannedValue(app: Option<nat>, kind: BanType, value: string) returns (banned: bool)
      requires Mirrors(RulesOf(state.shown), globalSet, scopedSet)
      ensures banned <==> Banned(RulesOf(state.shown), app, kind, value)
      ensures banned <==>
        && value != ""
        && exists r :: r in RulesOf(state.shown) && r.kind == kind && r.value == value && (r.app.None? || r.app == app)
    {
      BannedMeans(RulesOf(state.shown), app, kind, value);
      if value == "" {
        return false;
      }
      LookupIsScan(RulesOf(state.shown), globalSet, scopedSet, app, kind, value);
      if GlobalKey(kind, value) in globalSet {
        return true;
      }
      if app.Some? && ScopedKey(app.value, kind, value) in scopedSet {
        return true;
      }
      return false;
    }
  }

  // ---- ensureFresh, refresh and invalidate interleaved with writes to the rules -----------

  // The rule table over time: version k is current from since[k] until since[k + 1].
  datatype Version = Version(rules: seq<Rule>, since: int)

  datatype Question = Question(app: Option<nat>, kind: BanType, value: string)

  // A refresh on its way; the table answers its findAll at some instant of its own.
  datatype Load = Load(startedAt: int, rules: Option<seq<Rule>>, readAt: int)

  // What a request was told and when, and the load behind it with its duration.
  datatype Answer = Answer(about: Question, banned: bool, at: int, readAt: int, duration: int)

  // `shown` is the load behind the two sets, if one has finished, and `shownAt` when it did.
  datatype State = State(now: int, db: seq<Version>, shown: Option<Load>, shownAt: int, loadedAt: int,
                         loading: Option<Load>, waiting: seq<Question>, answers: seq<Answer>, peeks: seq<Answer>)

  // Ask is the guard on addresses and device ids, which waits for ensureFresh. Peek is the check of
  // the user id, later in the same request, which looks at the sets as they are. When a load fails
  // the guard lets the requests that wait for it through, without an answer.
  datatype Action =
    | Tick(ms: nat)
    | Write(rules: seq<Rule>)
    | Ask(about: Question)
    | Peek(app: Option<nat>, uid: string)
    | Read
    | Complete
    | Fail
    | Invalidate

  function Start(now: int, rules: seq<Rule>): State {
    State(now, [Version(rules, now)], None, 0, 0, None, [], [], [])
  }

  function RulesOf(l: Option<Load>): seq<Rule> {
    if l.Some? then l.value.rules.GetOr([]) else []
  }

  function Ban(rules: seq<Rule>, q: Question): bool {
    Banned(rules, q.app, q.kind, q.value)
  }

  // What the sets of a load that finished at `end` say.
  function Told(q: Question, source: Option<Load>, end: int, now: int): Answer {
    var l := source.GetOr(Load(0, None, 0));
    Answer(q, Ban(RulesOf(source), q), now, l.readAt, end - l.startedAt)
  }

  function TellAll(waiting: seq<Question>, source: Load, now: int): seq<Answer> {
    seq(|waiting|, i requires 0 <= i < |waiting| => Told(waiting[i], Some(source), now, now))
  }

  function UidQuestion(app: Option<nat>, uid: string): Question {
    Question(app, FirebaseUid, uid)
  }

  predicate Fresh(s: State) {
    s.now - s.loadedAt < TTL
  }

  function Step(s: State, a: Action): State {
    match a
    case Tick(ms) => s.(now := s.now + ms)
    case Write(rules) => s.(db := s.db + [Version(rules, s.now)])
    case Ask(q) =>
      if q.kind.FirebaseUid? then s
      else if Fresh(s) then s.(answers := s.answers + [Told(q, s.shown, s.shownAt, s.now)])
      else s.(waiting := s.waiting + [q], loading := if s.loading.Some? then s.loading else Some(Load(s.now, None, 0)))
    case Peek(app, uid) => s.(peeks := s.peeks + [Told(UidQuestion(app, uid), s.shown, s.shownAt, s.now)])
    case Read =>
      if s.loading.None? || s.loading.value.rules.Some? || s.db == [] then s
      else s.(loading := Some(s.loading.value.(rules := Some(s.db[|s.db| - 1].rules), readAt := s.now)))
    case Complete =>
      if s.loading.None? || s.loading.value.rules.None? then s
      else
        s.(shown := s.loading, shownAt := s.now, loadedAt := s.now, loading := None, waiting := [],
           answers := s.answers + TellAll(s.waiting, s.loading.value, s.now))
    case Fail => if s.loading.None? then s else s.(loading := None, waiting := [])
    case Invalidate => s.(loadedAt := 0)
  }

  function Run(from: State, actions: seq<Action>): State {
    Fold(Step, from, actions)
  }

  ghost predicate Current(db: seq<Version>, k: int, at: int) {
    0 <= k < |db| && db[k].since <= at && (k + 1 < |db| ==> at <= db[k + 1].since)
  }

  ghost predicate RulesAt(db: seq<Version>, at: int, rules: seq<Rule>) {
    exists k :: Current(db, k, at) && db[k].rules == rules
  }

  // A plain scan of the rules current at that instant gives this answer.
  ghost predicate ScanAt(db: seq<Version>, at: int, q: Question, banned: bool) {
    exists k :: Current(db, k, at) && banned == Ban(db[k].rules, q)
  }

  ghost predicate Sourced(s: State, l: Load, end: int) {
    l.rules.Some? && l.startedAt <= l.readAt <= end <= s.now && RulesAt(s.db, l.readAt, l.rules.value)
  }

  ghost predicate Faithful(s: State, a: Answer) {
    ScanAt(s.db, a.readAt, a.about, a.banned) && a.readAt <= a.at <= s.now && a.at - a.readAt < TTL + a.duration
  }

  ghost predicate AnswersSound(s: State) {
    forall i :: 0 <= i < |s.answers| ==> Faithful(s, s.answers[i])
  }

  ghost predicate Inv(s: State) {
    && s.db != [] && s.db[|s.db| - 1].since <= s.now && TTL <= s.now
    && (s.shown.Some? ==> Sourced(s, s.shown.value, s.shownAt))
    && (s.loadedAt != 0 ==> s.shown.Some? && s.loadedAt == s.shownAt)
    && (s.loading.Some? ==> s.loading.value.startedAt <= s.now)
    && (s.loading.Some? && s.loading.value.rules.Some? ==> Sourced(s, s.loading.value, s.now))
    && (s.waiting != [] ==> s.loading.Some?)
    && AnswersSound(s)
  }

  lemma ToldTrue(s: State, q: Question, l: Load, end: int)
    requires Sourced(s, l, end)
    ensures ScanAt(s.db, l.readAt, q, Told(q, Some(l), end, s.now).banned)
  {
    var k :| Current(s.db, k, l.readAt) && s.db[k].rules == l.rules.value;
    assert Told(q, Some(l), end, s.now).banned == Ban(s.db[k].rules, q);
  }

  lemma WriteKeepsInv(s: State, rules: seq<Rule>)
    requires Inv(s)
    ensures Inv(Step(s, Write(rules)))
  {
    var t := Step(s, Write(rules));
    assert forall k, at :: at <= s.now && Current(s.db, k, at) ==> Current(t.db, k, at);
    forall i | 0 <= i < |t.answers| ensures Faithful(t, t.answers[i]) {
      var a := s.answers[i];
      assert Faithful(s, a);
      var k :| Current(s.db, k, a.readAt) && a.banned == Ban(s.db[k].rules, a.about);
      assert Current(t.db, k, a.readAt);
    }
  }

  lemma AskKeepsInv(s: State, q: Question)
    requires Inv(s)
    ensures Inv(Step(s, Ask(q)))
  {
    var t := Step(s, Ask(q));
    if Fresh(s) {
      ToldTrue(s, q, s.shown.value, s.shownAt);
    }
    forall i | 0 <= i < |t.answers| ensures Faithful(t, t.answers[i]) {
      assert i < |s.answers| ==> Faithful(s, s.answers[i]);
    }
  }

  lemma CompleteKeepsInv(s: State)
    requires Inv(s)
    ensures Inv(Step(s, Complete))
  {
    var t := Step(s, Complete);
    if t != s {
      forall i | 0 <= i < |t.answers| ensures Faithful(t, t.answers[i]) {
        if i < |s.answers| {
          assert Faithful(s, s.answers[i]);
        } else {
          ToldTrue(s, s.waiting[i - |s.answers|], s.loading.value, s.now);
        }
      }
    }
  }

  lemma StepKeepsInv(s: State, a: Action)
    requires Inv(s)
    ensures Inv(Step(s, a))
  {
    match a
    case Write(rules) => WriteKeepsInv(s, rules);
    case Ask(q) => AskKeepsInv(s, q);
    case Complete => CompleteKeepsInv(s);
    case Read =>
      assert Current(s.db, |s.db| - 1, s.now);
      assert forall i :: 0 <= i < |s.answers| && Faithful(s, s.answers[i]) ==> Faithful(Step(s, a), s.answers[i]);
    case _ =>
      assert forall i :: 0 <= i < |s.answers| && Faithful(s, s.answers[i]) ==> Faithful(Step(s, a), s.answers[i]);
  }

  lemma {:induction false} RunKeepsInv(from: State, actions: seq<Action>)
    requires Inv(from)
    ensures Inv(Run(from, actions))
    decreases |actions|
  {
    if actions != [] {
      StepKeepsInv(from, actions[0]);
      RunKeepsInv(Step(from, actions[0]), actions[1..]);
    }
  }

  /** In every interleaving each answer of the guard is what a plain scan of the rule table would
      have said at an instant no older than the TTL plus the duration of the load behind it. */
  lemma AnswersAreRecent(now: int, rules: seq<Rule>, actions: seq<Action>, i: nat)
    requires TTL <= now && i < |Run(Start(now, rules), actions).answers|
    ensures var s := Run(Start(now, rules), actions); var a := s.answers[i];
      ScanAt(s.db, a.readAt, a.about, a.banned) && a.readAt <= a.at < a.readAt + 30_000 + a.duration
  {
    RunKeepsInv(Start(now, rules), actions);
    assert Faithful(Run(Start(now, rules), actions), Run(Start(now, rules), actions).answers[i]);
  }

  // ---- The check of the user id, without ensureFresh -------------------------------------

  function Peeked(s: State, app: Option<nat>, uid: string): Answer {
    Told(UidQuestion(app, uid), s.shown, s.shownAt, s.now)
  }

  /** How old the reading behind that check is: within the guard's bound exactly if the load has
      finished less than the TTL ago, or so little more as it had waited for the table. Without a
      load nobody is banned. */
  lemma PeekIsRecent(now: int, rules: seq<Rule>, actions: seq<Action>, app: Option<nat>, uid: string)
    requires TTL <= now
    ensures var s := Run(Start(now, rules), actions);
      && Step(s, Peek(app, uid)).peeks == s.peeks + [Peeked(s, app, uid)]
      && (s.shown.None? ==> !Peeked(s, app, uid).banned)
      && (s.shown.Some? ==>
            (Faithful(s, Peeked(s, app, uid)) <==> s.now < s.shownAt + TTL + (s.shown.value.readAt - s.shown.value.startedAt)))
  {
    RunKeepsInv(Start(now, rules), actions);
    var s := Run(Start(now, rules), actions);
    if s.shown.Some? {
      ToldTrue(s, UidQuestion(app, uid), s.shown.value, s.shownAt);
    }
  }

  // A load that waited so long for the table, took so much longer to finish, and finished so long ago.
  ghost predicate Timed(s: State, wait: nat, back: nat, later: nat) {
    && s.shown.Some?
    && s.shown.value.readAt - s.shown.value.startedAt == wait && s.shownAt - s.shown.value.readAt == back
    && s.now - s.shownAt == later
  }

  // At some instant within the guard's bound a scan of the table gives this answer.
  ghost predicate KeepsBound(s: State, a: Answer) {
    exists t :: InTime(a, t) && ScanAt(s.db, t, a.about, a.banned)
  }

  ghost predicate InTime(a: Answer, t: int) {
    t <= a.at < t + TTL + a.duration
  }

  ghost predicate AlwaysKeepsBound(app: Option<nat>, uid: string, wait: nat, back: nat, later: nat) {
    forall now, rules, actions :: TTL <= now && Timed(Run(Start(now, rules), actions), wait, back, later) ==>
      var s := Run(Start(now, rules), actions); KeepsBound(s, Peeked(s, app, uid))
  }

  /** Exactly which timing makes that check keep the guard's bound whatever the table holds: the time
      since the load finished is less than the TTL and the load's wait for the table. */
  lemma PeekBoundExactly(app: Option<nat>, uid: string, wait: nat, back: nat, later: nat)
    requires uid != ""
    ensures AlwaysKeepsBound(app, uid, wait, back, later) <==> later < TTL + wait
  {
    if later < TTL + wait {
      forall now, rules, actions | TTL <= now && Timed(Run(Start(now, rules), actions), wait, back, later)
        ensures var s := Run(Start(now, rules), actions); KeepsBound(s, Peeked(s, app, uid))
      {
        PeekIsRecent(now, rules, actions, app, uid);
        var s := Run(Start(now, rules), actions);
        assert InTime(Peeked(s, app, uid), s.shown.value.readAt);
      }
    } else {
      LateBan(TTL, app, uid, wait, back, later);
      var s := Run(Start(TTL, []), Overtaken(uid, wait, back, later));
      assert !KeepsBound(s, Peeked(s, app, uid));
    }
  }

  // A load that reads just before a ban is written, and a request whose guard fails open so long
  // after it has finished.
  function Overtaken(uid: string, wait: nat, back: nat, later: nat): seq<Action> {
    var q := Question(None, Ip, "x");
    [Ask(q), Tick(wait), Read, Write([Rule(None, FirebaseUid, uid)]), Tick(back), Complete, Tick(later), Ask(q), Fail]
  }

  lemma LateBan(now: int, app: Option<nat>, uid: string, wait: nat, back: nat, later: nat)
    requires TTL <= now && uid != "" && later >= TTL + wait
    ensures var s := Run(Start(now, []), Overtaken(uid, wait, back, later));
      Timed(s, wait, back, later) && !KeepsBound(s, Peeked(s, app, uid))
  {
    var a := Overtaken(uid, wait, back, later);
    var ban := [Rule(None, FirebaseUid, uid)];
    var db := [Version([], now), Version(ban, now + wait)];
    var s3 := Step(Step(Step(Start(now, []), a[0]), a[1]), a[2]);
    var s6 := Step(Step(Step(s3, a[3]), a[4]), a[5]);
    var s9 := Step(Step(Step(s6, a[6]), a[7]), a[8]);
    assert a == [a[0], a[1], a[2]] + ([a[3], a[4], a[5]] + [a[6], a[7], a[8]]);
    FoldThree(Step, Start(now, []), a[0], a[1], a[2], [a[3], a[4], a[5]] + [a[6], a[7], a[8]]);
    FoldThree(Step, s3, a[3], a[4], a[5], [a[6], a[7], a[8]]);
    FoldThree(Step, s6, a[6], a[7], a[8], []);
    assert [a[6], a[7], a[8]] + [] == [a[6], a[7], a[8]];
    assert s9.db == db && s9.shown == Some(Load(now, Some([]), now + wait));
    OnlyTheBan(s9, db, app, uid, now + wait);
  }

  // After the second version was written every scan finds the ban.
  lemma OnlyTheBan(s: State, db: seq<Version>, app: Option<nat>, uid: string, since: int)
    requires uid != "" && s.db == db && |db| == 2 && db[1] == Version([Rule(None, FirebaseUid, uid)], since)
    requires s.shown.Some? && s.shown.value.rules == Some([])
    requires s.now >= since + TTL + (s.shownAt - s.shown.value.startedAt)
    ensures !KeepsBound(s, Peeked(s, app, uid))
  {
    var a := Peeked(s, app, uid);
    assert Applies(db[1].rules[0], app, FirebaseUid, uid);
    forall t | InTime(a, t) ensures !ScanAt(db, t, a.about, a.banned) {
      assert forall k :: Current(db, k, t) ==> k == 1;
    }
  }

  lemma {:induction false} ShownGrows(from: State, actions: seq<Action>)
    requires Inv(from) && from.shown.Some?
    ensures var t := Run(from, actions); t.shown.Some? && t.shownAt >= from.shownAt && t.now >= from.now
    decreases |actions|
  {
    if actions != [] {
      StepKeepsInv(from, actions[0]);
      ShownGrows(Step(from, actions[0]), actions[1..]);
    }
  }

  /** A request whose guard found fresh sets, or waited for them, is later told of its user id what
      the table said no longer ago than the guard's bound plus the time in between. */
  lemma PeekAfterGuard(s: State, actions: seq<Action>, app: Option<nat>, uid: string)
    requires Inv(s) && Fresh(s)
    ensures var t := Run(s, actions); var a := Peeked(t, app, uid);
      ScanAt(t.db, a.readAt, a.about, a.banned) && a.at - a.readAt < TTL + a.duration + (t.now - s.now)
  {
    ShownGrows(s, actions);
    RunKeepsInv(s, actions);
    var t := Run(s, actions);
    ToldTrue(t, UidQuestion(app, uid), t.shown.value, t.shownAt);
  }

  // Sets once loaded, a ban written, an outage of the table for as long as you like, and a request
  // whose guard fails open.
  function Outage(uid: string, wait: nat): seq<Action> {
    [Ask(Question(None, Ip, "x")), Read, Complete, Write([Rule(None, FirebaseUid, uid)]), Invalidate, Tick(wait),
     Ask(Question(None, Ip, "x")), Fail, Peek(None, uid)]
  }

  /** No bound holds in general: a user banned at any earlier time still passes. */
  lemma PeekIsUnbounded(now: int, uid: string, wait: nat)
    requires TTL <= now && uid != ""
    ensures var s := Run(Start(now, []), Outage(uid, wait));
      && |s.peeks| == 1 && s.peeks[0].about == UidQuestion(None, uid) && s.peeks[0].at == now + wait
      && !s.peeks[0].banned && s.peeks[0].duration == 0 && s.peeks[0].readAt == now
      && s.db == [Version([], now), Version([Rule(None, FirebaseUid, uid)], now)]
      && Ban(s.db[1].rules, UidQuestion(None, uid))
  {
    var a := Outage(uid, wait);
    var q := Question(None, Ip, "x");
    var s3 := Step(Step(Step(Start(now, []), a[0]), a[1]), a[2]);
    var s6 := Step(Step(Step(s3, a[3]), a[4]), a[5]);
    var s9 := Step(Step(Step(s6, a[6]), a[7]), a[8]);
    assert a == [a[0], a[1], a[2]] + ([a[3], a[4], a[5]] + [a[6], a[7], a[8]]);
    FoldThree(Step, Start(now, []), a[0], a[1], a[2], [a[3], a[4], a[5]] + [a[6], a[7], a[8]]);
    FoldThree(Step, s3, a[3], a[4], a[5], [a[6], a[7], a[8]]);
    FoldThree(Step, s6, a[6], a[7], a[8], []);
    assert [a[6], a[7], a[8]] + [] == [a[6], a[7], a[8]];
    assert Applies(s9.db[1].rules[0], None, FirebaseUid, uid);
  }

  // ---- When an invalidation takes effect -------------------------------------------------

  // A version from `since` on gives this answer.
  ghost predicate ScannedSince(db: seq<Version>, since: nat, q: Question, banned: bool) {
    exists k :: since <= k < |db| && banned == Ban(db[k].rules, q)
  }

  // An answer to q, given after an invalidation in state s, that no scan of the table gives at any
  // time from the invalidation on.
  ghost predicate OldAnswer(s: State, q: Question, actions: seq<Action>)
    requires s.db != []
  {
    var t := Run(Step(s, Invalidate), actions);
    exists i :: |s.answers| <= i < |t.answers| && t.answers[i].about == q
      && !ScannedSince(t.db, |s.db| - 1, q, t.answers[i].banned)
  }

  // The same of the check of the user id.
  ghost predicate OldPeek(s: State, q: Question, actions: seq<Action>)
    requires s.db != []
  {
    var t := Run(Step(s, Invalidate), actions);
    exists i :: |s.peeks| <= i < |t.peeks| && t.peeks[i].about == q
      && !ScannedSince(t.db, |s.db| - 1, q, t.peeks[i].banned)
  }

  // Rules that answer q differently than the table does now.
  predicate Outdated(s: State, rules: seq<Rule>, q: Question)
    requires s.db != []
  {
    Ban(rules, q) != Ban(s.db[|s.db| - 1].rules, q)
  }

  // A refresh is on its way back with such rules.
  predicate LateLoad(s: State, q: Question)
    requires s.db != []
  {
    s.loading.Some? && s.loading.value.rules.Some? && Outdated(s, s.loading.value.rules.value, q)
  }

  ghost predicate NewOnly(s: State, q: Question, since: nat, known: nat, peeked: nat) {
    && TTL <= s.now && since < |s.db| && known <= |s.answers| && peeked <= |s.peeks|
    && (s.loading.Some? && s.loading.value.rules.Some? ==> ScannedSince(s.db, since, q, Ban(s.loading.value.rules.value, q)))
    && (s.loadedAt != 0 || q.kind.FirebaseUid? ==> ScannedSince(s.db, since, q, Ban(RulesOf(s.shown), q)))
    && (forall i :: known <= i < |s.answers| && s.answers[i].about == q ==> ScannedSince(s.db, since, q, s.answers[i].banned))
    && (forall i :: peeked <= i < |s.peeks| && s.peeks[i].about == q && q.kind.FirebaseUid? ==>
          ScannedSince(s.db, since, q, s.peeks[i].banned))
  }

  lemma StepKeepsNewOnly(s: State, a: Action, q: Question, since: nat, known: nat, peeked: nat)
    requires NewOnly(s, q, since, known, peeked)
    ensures NewOnly(Step(s, a), q, since, known, peeked)
  {
    var t := Step(s, a);
    match a
    case Write(rules) =>
      forall b | ScannedSince(s.db, since, q, b) ensures ScannedSince(t.db, since, q, b) {
        var k :| since <= k < |s.db| && b == Ban(s.db[k].rules, q);
        assert t.db[k] == s.db[k];
      }
    case Read => assert ScannedSince(s.db, since, q, Ban(s.db[|s.db| - 1].rules, q));
    case _ =>
  }

  lemma {:induction false} RunKeepsNewOnly(from: State, actions: seq<Action>, q: Question, since: nat, known: nat, peeked: nat)
    requires NewOnly(from, q, since, known, peeked)
    ensures NewOnly(Run(from, actions), q, since, known, peeked)
    decreases |actions|
  {
    if actions != [] {
      StepKeepsNewOnly(from, actions[0], q, since, known, peeked);
      RunKeepsNewOnly(Step(from, actions[0]), actions[1..], q, since, known, peeked);
    }
  }

  lemma LateLoadAnswers(s: State, q: Question)
    requires Inv(s) && LateLoad(s, q)
    ensures !q.kind.FirebaseUid? ==> OldAnswer(s, q, [Complete, Ask(q)])
    ensures q.kind.FirebaseUid? ==> OldPeek(s, q, [Complete, Peek(q.app, q.value)])
  {
    var done := Step(Step(s, Invalidate), Complete);
    var next := if q.kind.FirebaseUid? then Peek(q.app, q.value) else Ask(q);
    FoldTwo(Step, Step(s, Invalidate), Complete, next);
    var t := Step(done, next);
    assert Run(Step(s, Invalidate), [Complete, next]) == t;
    if q.kind.FirebaseUid? {
      assert t.peeks[|t.peeks| - 1] == Told(q, s.loading, s.now, s.now);
    } else {
      assert t.answers[|t.answers| - 1] == Told(q, s.loading, s.now, s.now);
    }
  }

  /** Exactly when an invalidation takes effect at once for the guard: a later answer can be one the
      table has not given since if and only if a refresh was on its way back with such rules. */
  lemma InvalidationTakesEffect(s: State, q: Question)
    requires Inv(s) && !q.kind.FirebaseUid?
    ensures (exists actions :: OldAnswer(s, q, actions)) <==> LateLoad(s, q)
  {
    if LateLoad(s, q) {
      LateLoadAnswers(s, q);
    } else {
      LastIsScanned(s, q, Ban(s.db[|s.db| - 1].rules, q));
      forall actions ensures !OldAnswer(s, q, actions) {
        RunKeepsNewOnly(Step(s, Invalidate), actions, q, |s.db| - 1, |s.answers|, |s.peeks|);
      }
    }
  }

  // Until the table is written again, only the last version is scanned.
  lemma LastIsScanned(s: State, q: Question, banned: bool)
    requires s.db != []
    ensures ScannedSince(s.db, |s.db| - 1, q, banned) <==> banned == Ban(s.db[|s.db| - 1].rules, q)
  {
    if banned == Ban(s.db[|s.db| - 1].rules, q) {
      var k := |s.db| - 1;
      assert banned == Ban(s.db[k].rules, q);
    }
  }

  /** And for the check of the user id, which an invalidation does not make wait: the sets in use or
      a refresh on its way back answer it differently than the table does. */
  lemma InvalidationAndPeeks(s: State, app: Option<nat>, uid: string)
    requires Inv(s)
    ensures var q := UidQuestion(app, uid);
      (exists actions :: OldPeek(s, q, actions)) <==> Outdated(s, RulesOf(s.shown), q) || LateLoad(s, q)
  {
    var q := UidQuestion(app, uid);
    if Outdated(s, RulesOf(s.shown), q) {
      var next := Peek(app, uid);
      var t := Step(Step(s, Invalidate), next);
      FoldOne(Step, Step(s, Invalidate), next);
      assert Run(Step(s, Invalidate), [next]) == t;
      assert t.peeks[|s.peeks|].about == q && t.peeks[|s.peeks|].banned == Ban(RulesOf(s.shown), q);
      LastIsScanned(s, q, t.peeks[|s.peeks|].banned);
      assert OldPeek(s, q, [next]);
    } else if LateLoad(s, q) {
      LateLoadAnswers(s, q);
    } else {
      LastIsScanned(s, q, Ban(s.db[|s.db| - 1].rules, q));
      forall actions ensures !OldPeek(s, q, actions) {
        RunKeepsNewOnly(Step(s, Invalidate), actions, q, |s.db| - 1, |s.answers|, |s.peeks|);
      }
    }
  }

  // A ban lifted just after a refresh has read it, and an invalidation before the refresh is back.
  function LateRun(q: Question, wait: nat): seq<Action> {
    [Ask(q), Read, Write([]), Invalidate, Complete, Tick(wait), Ask(q)]
  }

  /** From the start, and however close together in time: the lifted ban is still enforced until
      just before the TTL has passed. */
  lemma LateLoadHappens(now: int, q: Question, wait: nat)
    requires TTL <= now && wait < TTL && !q.kind.FirebaseUid? && q.value != ""
    ensures var s := Run(Start(now, [Rule(None, q.kind, q.value)]), LateRun(q, wait));
      && |s.answers| == 2 && s.answers[1].about == q && s.answers[1].at == now + wait && s.answers[1].banned
      && |s.db| == 2 && s.db[1] == Version([], now) && !Ban([], q)
  {
    var rules := [Rule(None, q.kind, q.value)];
    var a := LateRun(q, wait);
    assert Applies(rules[0], q.app, q.kind, q.value);
    var s3 := Step(Step(Step(Start(now, rules), a[0]), a[1]), a[2]);
    var s6 := Step(Step(Step(s3, a[3]), a[4]), a[5]);
    assert a == [a[0], a[1], a[2]] + ([a[3], a[4], a[5]] + [a[6]]);
    FoldThree(Step, Start(now, rules), a[0], a[1], a[2], [a[3], a[4], a[5]] + [a[6]]);
    FoldThree(Step, s3, a[3], a[4], a[5], [a[6]]);
    FoldOne(Step, s6, a[6]);
  }
}
