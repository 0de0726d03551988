/** resolveApp and invalidateAppCache: a TTL cache with one query per key in flight. */
module TenantCache {
  // Lookups, the database's own steps, writes to the table and invalidations interleave freely. A
  // value of None stands for a key without an active app, which is cached too.
  import opened Wrappers
  import opened Runs

  const TTL := 30_000  // APP_CACHE_TTL_MS

  type Table = map<string, int>

  // The table over time: version k is current from since[k] until since[k + 1].
  datatype Version = Version(table: Table, since: int)

  // A query in flight. The database answers it at some instant of its own.
  datatype Query = Query(key: string, startedAt: int, answer: Option<Option<int>>, readAt: int)

  // A cache entry; the query it came from is kept for the history only.
  datatype Entry = Entry(app: Option<int>, at: int, source: Query)

  // What a caller was told and when, and the query behind it with its duration.
  datatype Answer = Answer(key: string, app: Option<int>, at: int, readAt: int, duration: int)

  datatype State = State(now: int, db: seq<Version>, cache: map<string, Entry>, loading: map<string, nat>,
                         queries: map<nat, Query>, nextId: nat, waiting: seq<string>, answers: seq<Answer>)

  datatype Action =
    | Tick(ms: nat)
    | Write(key: string, app: Option<int>)
    | Ask(key: string)
    | Read(id: nat)
    | Complete(id: nat)
    | Fail(id: nat)
    | Invalidate

  function Start(now: int, table: Table): State {
    State(now, [Version(table, now)], map[], map[], map[], 0, [], [])
  }

  function Updated(t: Table, key: string, app: Option<int>): Table {
    if app.Some? then t[key := app.value] else t - {key}
  }

  // What resolveApp does with a key: answer from the cache, join a query, or send one.
  datatype Decision = Cached(app: Option<int>) | Join(id: nat) | Send

  function Decide(cache: map<string, Entry>, loading: map<string, nat>, now: int, key: string): Decision {
    if key in cache && now - cache[key].at < TTL then Cached(cache[key].app)
    else if key in loading then Join(loading[key])
    else Send
  }

  function AnswerFrom(q: Query, key: string, app: Option<int>, at: int, end: int): Answer {
    Answer(key, app, at, q.readAt, end - q.startedAt)
  }

  function Without(waiting: seq<string>, key: string): seq<string> {
    if waiting == [] then []
    else Without(waiting[..|waiting| - 1], key) + (if waiting[|waiting| - 1] == key then [] else [waiting[|waiting| - 1]])
  }

  // One answer for every caller that waits for the key.
  function AnswerAll(waiting: seq<string>, key: string, a: Answer): (r: seq<Answer>)
    ensures forall i :: 0 <= i < |r| ==> r[i] == a
  {
    if waiting == [] then []
    else AnswerAll(waiting[..|waiting| - 1], key, a) + (if waiting[|waiting| - 1] == key then [a] else [])
  }

  /** Everybody who waits for the key is answered, and everybody else goes on waiting. */
  lemma {:induction false} WaitersAreTold(waiting: seq<string>, key: string, a: Answer, other: string)
    ensures |AnswerAll(waiting, key, a)| == multiset(waiting)[key]
    ensures multiset(Without(waiting, key))[other] == if other == key then 0 else multiset(waiting)[other]
  {
    if waiting != [] {
      var n := |waiting| - 1;
      assert waiting == waiting[..n] + [waiting[n]];
      WaitersAreTold(waiting[..n], key, a, other);
    }
  }

  function Step(s: State, a: Action): State {
    match a
    case Tick(ms) => s.(now := s.now + ms)
    case Write(key, app) =>
      if s.db == [] then s else s.(db := s.db + [Version(Updated(s.db[|s.db| - 1].table, key, app), s.now)])
    case Ask(key) =>
      (match Decide(s.cache, s.loading, s.now, key)
       case Cached(app) =>
         s.(answers := s.answers + [AnswerFrom(s.cache[key].source, key, app, s.now, s.cache[key].at)])
       case Join(_) => s.(waiting := s.waiting + [key])
       case Send =>
         s.(waiting := s.waiting + [key], loading := s.loading[key := s.nextId],
            queries := s.queries[s.nextId := Query(key, s.now, None, 0)], nextId := s.nextId + 1))
    case Read(id) =>
      if id !in s.queries || s.queries[id].answer.Some? || s.db == [] then s
      else
        var q := s.queries[id];
        s.(queries := s.queries[id := q.(answer := Some(Lookup(s.db[|s.db| - 1].table, q.key)), readAt := s.now)])
    case Complete(id) =>
      if id !in s.queries || s.queries[id].answer.None? then s
      else
        var q := s.queries[id];
        s.(queries := s.queries - {id}, loading := s.loading - {q.key},
           cache := s.cache[q.key := Entry(q.answer.value, s.now, q)],
           waiting := Without(s.waiting, q.key),
           answers := s.answers + AnswerAll(s.waiting, q.key, AnswerFrom(q, q.key, q.answer.value, s.now, s.now)))
    case Fail(id) =>
      if id !in s.queries then s
      else
        var q := s.queries[id];
        s.(queries := s.queries - {id}, loading := s.loading - {q.key}, waiting := Without(s.waiting, q.key))
    case Invalidate => s.(cache := map[])
  }

  function Run(from: State, actions: seq<Action>): State {
    Fold(Step, from, actions)
  }

  // ---- Invariants -----------------------------------------------------------------------

  // The table's value for the key at some instant no other write separates from `at`.
  ghost predicate ValueAt(db: seq<Version>, key: string, at: int, app: Option<int>) {
    exists k :: Shows(db, k, key, at, app)
  }

  ghost predicate Shows(db: seq<Version>, k: int, key: string, at: int, app: Option<int>) {
    && 0 <= k < |db| && db[k].since <= at && (k + 1 < |db| ==> at <= db[k + 1].since)
    && Lookup(db[k].table, key) == app
  }

  ghost predicate SingleFlight(s: State) {
    && (forall id :: id in s.queries ==> id < s.nextId && s.queries[id].key in s.loading && s.loading[s.queries[id].key] == id)
    && (forall key :: key in s.loading ==> s.loading[key] in s.queries && s.queries[s.loading[key]].key == key)
  }

  ghost predicate Sourced(s: State, q: Query, app: Option<int>, end: int) {
    q.startedAt <= q.readAt <= end <= s.now && ValueAt(s.db, q.key, q.readAt, app)
  }

  ghost predicate Faithful(s: State, a: Answer) {
    && ValueAt(s.db, a.key, a.readAt, a.app)
    && a.readAt <= a.at <= s.now && a.at - a.readAt < TTL + a.duration
  }

  ghost predicate QueriesSound(s: State) {
    forall id :: id in s.queries ==>
      && s.queries[id].startedAt <= s.now
      && (s.queries[id].answer.Some? ==> Sourced(s, s.queries[id], s.queries[id].answer.value, s.now))
  }

  ghost predicate CacheSound(s: State) {
    forall key :: key in s.cache ==>
      s.cache[key].source.key == key && Sourced(s, s.cache[key].source, s.cache[key].app, s.cache[key].at)
  }

  ghost predicate AnswersSound(s: State) {
    forall i :: 0 <= i < |s.answers| ==> Faithful(s, s.answers[i])
  }

  ghost predicate Inv(s: State) {
    && s.db != [] && s.db[|s.db| - 1].since <= s.now
    && SingleFlight(s) && QueriesSound(s) && CacheSound(s) && AnswersSound(s)
  }

  lemma ValueAtLater(db: seq<Version>, v: Version, key: string, at: int, app: Option<int>)
    requires ValueAt(db, key, at, app) && at <= v.since
    ensures ValueAt(db + [v], key, at, app)
  {
    var k :| Shows(db, k, key, at, app);
    assert Shows(db + [v], k, key, at, app);
  }

  lemma WriteKeepsInv(s: State, key: string, app: Option<int>)
    requires Inv(s)
    ensures Inv(Step(s, Write(key, app)))
  {
    var t := Step(s, Write(key, app));
    var v := t.db[|s.db|];
    forall id | id in t.queries && t.queries[id].answer.Some?
      ensures Sourced(t, t.queries[id], t.queries[id].answer.value, t.now)
    {
      ValueAtLater(s.db, v, s.queries[id].key, s.queries[id].readAt, s.queries[id].answer.value);
    }
    forall k | k in t.cache ensures Sourced(t, t.cache[k].source, t.cache[k].app, t.cache[k].at) {
      ValueAtLater(s.db, v, k, s.cache[k].source.readAt, s.cache[k].app);
    }
    forall i | 0 <= i < |t.answers| ensures Faithful(t, t.answers[i]) {
      ValueAtLater(s.db, v, s.answers[i].key, s.answers[i].readAt, s.answers[i].app);
    }
  }

  lemma ReadKeepsInv(s: State, id: nat)
    requires Inv(s)
    ensures Inv(Step(s, Read(id)))
  {
    if id in s.queries && s.queries[id].answer.None? {
      var q := s.queries[id];
      var last := |s.db| - 1;
      assert Shows(s.db, last, q.key, s.now, Lookup(s.db[last].table, q.key));
    }
  }

  lemma CompleteKeepsInv(s: State, id: nat)
    requires Inv(s)
    ensures Inv(Step(s, Complete(id)))
  {
    var t := Step(s, Complete(id));
    if id in s.queries && s.queries[id].answer.Some? {
      var q := s.queries[id];
      var a := AnswerFrom(q, q.key, q.answer.value, s.now, s.now);
      assert Faithful(t, a);
      forall i | 0 <= i < |t.answers| ensures Faithful(t, t.answers[i]) {
        if i < |s.answers| {
          assert Faithful(s, s.answers[i]);
        } else {
          assert t.answers[i] == AnswerAll(s.waiting, q.key, a)[i - |s.answers|];
        }
      }
    }
  }

  lemma StepKeepsInv(s: State, a: Action)
    requires Inv(s)
    ensures Inv(Step(s, a))
  {
    match a
    case Write(key, app) => WriteKeepsInv(s, key, app);
    case Read(id) => ReadKeepsInv(s, id);
    case Complete(id) => CompleteKeepsInv(s, id);
    case Ask(key) => AskKeepsInv(s, key);
    case _ =>
      forall i | 0 <= i < |s.answers| ensures Faithful(Step(s, a), s.answers[i]) {
        assert Faithful(s, s.answers[i]);
      }
  }

  lemma AskKeepsInv(s: State, key: string)
    requires Inv(s)
    ensures Inv(Step(s, Ask(key)))
  {
    var t := Step(s, Ask(key));
    if Decide(s.cache, s.loading, s.now, key).Cached? {
      assert Sourced(s, s.cache[key].source, s.cache[key].app, s.cache[key].at);
      forall i | 0 <= i < |t.answers| ensures Faithful(t, t.answers[i]) {
        assert i < |s.answers| ==> Faithful(s, s.answers[i]);
      }
    } else {
      forall k | k in t.cache ensures Sourced(t, t.cache[k].source, t.cache[k].app, t.cache[k].at) {
        assert Sourced(s, s.cache[k].source, s.cache[k].app, s.cache[k].at);
      }
      forall i | 0 <= i < |t.answers| ensures Faithful(t, t.answers[i]) {
        assert Faithful(s, s.answers[i]);
      }
    }
  }

  lemma {:induction false} RunKeepsInv(from: State, actions: seq<Action>)
    requires Inv(from)
    ensures Inv(Run(from, actions))
    decreases |actions|
  {
    if actions != [] {
      StepKeepsInv(from, actions[0]);
      RunKeepsInv(Step(from, actions[0]), actions[1..]);
    }
  }

  // ---- Results --------------------------------------------------------------------------

  /** In every interleaving at most one query per key is in flight. */
  lemma OneQueryPerKey(now: int, table: Table, actions: seq<Action>, i: nat, j: nat)
    requires var s := Run(Start(now, table), actions); i in s.queries && j in s.queries && i != j
    ensures var s := Run(Start(now, table), actions); s.queries[i].key != s.queries[j].key
  {
    RunKeepsInv(Start(now, table), actions);
  }

  /** Every answer is what the table said at an instant no older than the TTL plus the duration of
      the query that asked. */
  lemma AnswersAreRecent(now: int, table: Table, actions: seq<Action>, i: nat)
    requires i < |Run(Start(now, table), actions).answers|
    ensures var s := Run(Start(now, table), actions); var a := s.answers[i];
      ValueAt(s.db, a.key, a.readAt, a.app) && a.readAt <= a.at < a.readAt + 30_000 + a.duration
  {
    RunKeepsInv(Start(now, table), actions);
    assert Faithful(Run(Start(now, table), actions), Run(Start(now, table), actions).answers[i]);
  }

  // What the table last said of the key.
  function LastValue(s: State, key: string): Option<int>
    requires s.db != []
  {
    Lookup(s.db[|s.db| - 1].table, key)
  }

  // The table has said so at or after its version `since`.
  ghost predicate ShownSince(db: seq<Version>, since: nat, key: string, app: Option<int>) {
    exists k :: since <= k < |db| && Lookup(db[k].table, key) == app
  }

  // An answer for the key, given after an invalidation in state s, that the table has not given at
  // any time from the invalidation on.
  ghost predicate OldAnswer(s: State, key: string, actions: seq<Action>)
    requires s.db != []
  {
    var t := Run(Step(s, Invalidate), actions);
    exists i :: |s.answers| <= i < |t.answers| && t.answers[i].key == key
      && !ShownSince(t.db, |s.db| - 1, key, t.answers[i].app)
  }

  // The key's query is on its way back with something the table no longer says.
  predicate LateQuery(s: State, key: string)
    requires s.db != []
  {
    && key in s.loading && s.loading[key] in s.queries
    && s.queries[s.loading[key]].answer.Some? && s.queries[s.loading[key]].answer.value != LastValue(s, key)
  }

  ghost predicate NewOnly(s: State, key: string, since: nat, known: nat) {
    && since < |s.db| && known <= |s.answers|
    && (forall id :: id in s.queries && s.queries[id].key == key && s.queries[id].answer.Some? ==>
          ShownSince(s.db, since, key, s.queries[id].answer.value))
    && (key in s.cache ==> ShownSince(s.db, since, key, s.cache[key].app))
    && (forall i :: known <= i < |s.answers| && s.answers[i].key == key ==> ShownSince(s.db, since, key, s.answers[i].app))
  }

  lemma StepKeepsNewOnly(s: State, a: Action, key: string, since: nat, known: nat)
    requires NewOnly(s, key, since, known)
    ensures NewOnly(Step(s, a), key, since, known)
  {
    match a
    case Write(k, app) => WriteKeepsNewOnly(s, k, app, key, since, known);
    case Read(id) =>
      if id in s.queries {
        assert Lookup(s.db[|s.db| - 1].table, key) == LastValue(s, key);
        assert ShownSince(s.db, since, key, LastValue(s, key));
      }
    case _ =>
  }

  lemma WriteKeepsNewOnly(s: State, k: string, app: Option<int>, key: string, since: nat, known: nat)
    requires NewOnly(s, key, since, known)
    ensures NewOnly(Step(s, Write(k, app)), key, since, known)
  {
    var t := Step(s, Write(k, app));
    forall x | ShownSince(s.db, since, key, x) ensures ShownSince(t.db, since, key, x) {
      var k :| since <= k < |s.db| && Lookup(s.db[k].table, key) == x;
      assert t.db[k] == s.db[k];
    }
  }

  lemma {:induction false} RunKeepsNewOnly(from: State, actions: seq<Action>, key: string, since: nat, known: nat)
    requires NewOnly(from, key, since, known)
    ensures NewOnly(Run(from, actions), key, since, known)
    decreases |actions|
  {
    if actions != [] {
      StepKeepsNewOnly(from, actions[0], key, since, known);
      RunKeepsNewOnly(Step(from, actions[0]), actions[1..], key, since, known);
    }
  }

  lemma LateQueryAnswers(s: State, key: string)
    requires Inv(s) && LateQuery(s, key)
    ensures OldAnswer(s, key, [Complete(s.loading[key]), Ask(key)])
  {
    var id := s.loading[key];
    var q := s.queries[id];
    var cleared := Step(s, Invalidate);
    var done := Step(cleared, Complete(id));
    var asked := Step(done, Ask(key));
    FoldTwo(Step, cleared, Complete(id), Ask(key));
    assert Run(cleared, [Complete(id), Ask(key)]) == asked;
    assert q.key == key;
    assert done.cache[key] == Entry(q.answer.value, s.now, q);
    var last := |asked.answers| - 1;
    assert asked.answers[last].key == key && asked.answers[last].app == q.answer.value;
  }

  /** Exactly when an invalidation takes effect at once: a later answer can be one the table has
      not given since if and only if the key's query was then on its way back with such a one. */
  lemma InvalidationTakesEffect(s: State, key: string)
    requires Inv(s)
    ensures (exists actions :: OldAnswer(s, key, actions)) <==> LateQuery(s, key)
  {
    if LateQuery(s, key) {
      LateQueryAnswers(s, key);
    } else {
      assert Lookup(s.db[|s.db| - 1].table, key) == LastValue(s, key);
      forall actions ensures !OldAnswer(s, key, actions) {
        RunKeepsNewOnly(Step(s, Invalidate), actions, key, |s.db| - 1, |s.answers|);
      }
    }
  }

  // A query answered just before a write and an invalidation, coming back after them.
  function LateRun(key: string, app: Option<int>, wait: nat): seq<Action> {
    [Ask(key), Read(0), Write(key, app), Invalidate, Complete(0), Tick(wait), Ask(key)]
  }

  /** From the start, and however close together in time: a caller is told the value from before
      the write and the invalidation until just before the TTL has passed. */
  lemma LateQueryHappens(now: int, table: Table, key: string, app: Option<int>, wait: nat)
    requires app != Lookup(table, key) && wait < 30_000
    ensures var s := Run(Start(now, table), LateRun(key, app, wait));
      && |s.answers| == 2 && s.answers[1].key == key && s.answers[1].at == now + wait
      && s.answers[1].app == Lookup(table, key)
      && s.db == [Version(table, now), Version(Updated(table, key, app), now)] && LastValue(s, key) == app
  {
    var a, was := LateRun(key, app, wait), Lookup(table, key);
    var q := Query(key, now, Some(was), now);
    var db := [Version(table, now), Version(Updated(table, key, app), now)];
    var s3 := Step(Step(Step(Start(now, table), a[0]), a[1]), a[2]);
    assert s3 == State(now, db, map[], map[key := 0], map[0 := q], 1, [key], []);
    assert a == [a[0], a[1], a[2]] + ([a[3], a[4], a[5]] + [a[6]]);
    FoldThree(Step, Start(now, table), a[0], a[1], a[2], [a[3], a[4], a[5]] + [a[6]]);
    LateQueryTold(now, db, q, wait);
  }

  // The late query comes back after the invalidation, and the key is asked again within the TTL.
  lemma LateQueryTold(now: int, db: seq<Version>, q: Query, wait: nat)
    requires q.answer.Some? && wait < TTL
    ensures var s := State(now, db, map[], map[q.key := 0], map[0 := q], 1, [q.key], []);
      var t := Run(s, [Invalidate, Complete(0), Tick(wait)] + [Ask(q.key)]);
      && t.db == db && t.answers == [AnswerFrom(q, q.key, q.answer.value, now, now), AnswerFrom(q, q.key, q.answer.value, now + wait, now)]
  {
    var s := State(now, db, map[], map[q.key := 0], map[0 := q], 1, [q.key], []);
    var told := AnswerFrom(q, q.key, q.answer.value, now, now);
    assert Step(s, Invalidate) == s;
    assert [q.key][..0] == [] && AnswerAll([q.key], q.key, told) == AnswerAll([], q.key, told) + [told] == [told];
    var t := Step(Step(s, Complete(0)), Tick(wait));
    assert t.answers == [told] && t.cache == map[q.key := Entry(q.answer.value, now, q)];
    FoldThree(Step, s, Invalidate, Complete(0), Tick(wait), [Ask(q.key)]);
    FoldOne(Step, t, Ask(q.key));
  }

  // ---- The two Maps as the source updates them ------------------------------------------

  /** appCache and appLoading beside the system they are part of: every method is the step the
      theorems speak of, and keeps what holds in every interleaving. */
  class AppCaches {
    var appCache: map<string, Entry>
    var appLoading: map<string, nat>
    ghost var state: State

    ghost predicate Valid()
      reads this
    {
      Inv(state) && appCache == state.cache && appLoading == state.loading
    }

    constructor (ghost now: int, ghost table: Table)
      ensures Valid() && state == Start(now, table)
    {
      appCache, appLoading := map[], map[];
      state := Start(now, table);
    }

    // Time, the table and the database move on without the two Maps.
    ghost method Elsewhere(a: Action)
      requires Valid() && (a.Tick? || a.Write? || a.Read?)
      modifies this`state
      ensures Valid() && state == Step(old(state), a)
    {
      StepKeepsInv(state, a);
      state := Step(state, a);
    }

    /** resolveApp up to its await; `id` names the query a Send starts. A cached answer is one the
        table gave less than the TTL plus the duration of its query ago. */
    method ResolveApp(now: int, key: string, id: nat) returns (d: Decision)
      requires Valid() && now == state.now && id == state.nextId
      modifies this
      ensures Valid() && state == Step(old(state), Ask(key))
      ensures d.Cached? <==> key in appCache && now - appCache[key].at < 30_000
      ensures d.Cached? ==> d.app == appCache[key].app
      ensures d.Join? <==> !d.Cached? && key in old(appLoading)
      ensures d.Cached? ==> state.answers != [] && var a := state.answers[|state.answers| - 1];
        a.key == key && a.app == d.app && a.at == now && Faithful(state, a)
      ensures !d.Cached? ==> key in appLoading && appLoading[key] == (if d.Join? then d.id else id)
      ensures d.Send? <==> appLoading != old(appLoading)
    {
      StepKeepsInv(state, Ask(key));
      state := Step(state, Ask(key));
      if key in appCache {
        var cached := appCache[key];
        if now - cached.at < TTL {
          return Cached(cached.app);
        }
      }
      if key in appLoading {
        return Join(appLoading[key]);
      }
      appLoading := appLoading[key := id];
      return Send;
    }

    /** The continuation of a query that came back: everybody who waited is told what it found,
        which the next TTL's worth of calls is told too. */
    method Loaded(now: int, q: Query, ghost id: nat)
      requires Valid() && now == state.now && id in state.queries && q == state.queries[id] && q.answer.Some?
      modifies this
      ensures Valid() && state == Step(old(state), Complete(id))
      ensures appCache.Keys == old(appCache).Keys + {q.key} && appCache[q.key] == Entry(q.answer.value, now, q)
      ensures forall k :: k in old(appCache) && k != q.key ==> appCache[k] == old(appCache)[k]
      ensures |state.answers| == |old(state).answers| + multiset(old(state).waiting)[q.key]
      ensures forall i :: |old(state).answers| <= i < |state.answers| ==>
        state.answers[i].key == q.key && state.answers[i].app == q.answer.value && state.answers[i].at == now
      ensures forall later :: now <= later < now + 30_000 ==> Decide(appCache, appLoading, later, q.key) == Cached(q.answer.value)
    {
      StepKeepsInv(state, Complete(id));
      WaitersAreTold(state.waiting, q.key, AnswerFrom(q, q.key, q.answer.value, now, now), q.key);
      state := Step(state, Complete(id));
      appCache := appCache[q.key := Entry(q.answer.value, now, q)];
      appLoading := appLoading - {q.key};
    }

    /** The continuation of a query that failed: the next call without a live entry sends a new one. */
    method LoadFailed(q: Query, ghost id: nat)
      requires Valid() && id in state.queries && q == state.queries[id]
      modifies this
      ensures Valid() && state == Step(old(state), Fail(id))
      ensures forall now :: !Decide(appCache, appLoading, now, q.key).Join?
    {
      StepKeepsInv(state, Fail(id));
      state := Step(state, Fail(id));
      appLoading := appLoading - {q.key};
    }

    /** No call is answered from before the invalidation, except by a query in flight. */
    method InvalidateAppCache()
      requires Valid()
      modifies this
      ensures Valid() && state == Step(old(state), Invalidate)
      ensures forall now, key :: Decide(appCache, appLoading, now, key)
                              == (if key in appLoading then Join(appLoading[key]) else Send)
    {
      StepKeepsInv(state, Invalidate);
      state := Step(state, Invalidate);
      appCache := map[];
    }
  }
}
